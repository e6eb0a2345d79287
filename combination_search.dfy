/**
 * The combination pass of `ReconcileMoves.reconciliation` for one
 * (account, party) bucket.  For each size from 2 to `max_lines` it
 * enumerates the size-element combinations of the live list as it stood when
 * that size began, commits every combination whose amounts sum to exactly
 * zero and that shares no id with the lines reconciled so far, and removes
 * the committed lines from the live list.  Before each size, and after every
 * 10,000,000 combinations, it reads the clock and returns early once the
 * deadline has passed.
 */
module CombinationSearch {
  import opened Ledger
  import opened Combinations
  import opened Deadline

  /** The pass reads the clock after every this many combinations. */
  const CombinationCheck: nat := 10000000

  /**
   * The variables the pass updates: the live list of `(id, amount)` pairs,
   * the ids reconciled so far in this call, the groups this pass committed,
   * the combination counter and the number of clock readings so far.
   */
  datatype State = State(lines: seq<Pair>, reconciled: set<Id>, groups: seq<seq<Pair>>, count: nat, t: nat)

  // ---------------------------------------------------------------------------
  // The pass as functions: one combination, one size, all sizes

  /** One combination: count it, read the clock on every CombinationCheck-th, commit it if it balances. */
  function Visit(c: seq<Pair>, s: State, late: Oracle): Halt<State> {
    var count := s.count + 1;
    var check := count % CombinationCheck == 0;
    var t := if check then s.t + 1 else s.t;
    if check && late(s.t) then Halt(s.(count := count, t := t), true)
    else if Sum(c) == 0 && Ids(c) !! s.reconciled then
      Halt(State(Without(s.lines, Ids(c)), s.reconciled + Ids(c), s.groups + [c], count, t), false)
    else Halt(s.(count := count, t := t), false)
  }

  /** The combinations of one size, in enumeration order. */
  function Scan(cs: seq<seq<Pair>>, s: State, late: Oracle): Halt<State>
    decreases |cs|
  {
    if cs == [] then Halt(s, false)
    else
      var h := Visit(cs[0], s, late);
      if h.timedOut then h else Scan(cs[1..], h.state, late)
  }

  /** Sizes `size` to `maxLines`; each enumerates a snapshot of the live list. */
  function Sizes(size: nat, maxLines: nat, s: State, late: Oracle): Halt<State>
    decreases maxLines + 1 - size
  {
    if size > maxLines then Halt(s, false)
    else if late(s.t) then Halt(Tick(s), true)
    else
      var h := Round(size, s, late);
      if h.timedOut then h else Sizes(size + 1, maxLines, h.state, late)
  }

  /** The clock reading before a size. */
  function Tick(s: State): State {
    s.(t := s.t + 1)
  }

  /** One size: the clock reading before it, then the enumeration of the live list's combinations. */
  function Round(size: nat, s: State, late: Oracle): Halt<State> {
    Scan(Combos(s.lines, size), Tick(s), late)
  }

  /** The whole pass over one bucket, from size 2 on, with the call's reconciled ids `done`. */
  function Pass(bucket: seq<Pair>, maxLines: nat, done: set<Id>, t: nat, late: Oracle): Halt<State> {
    Sizes(2, maxLines, State(bucket, done, [], 0, t), late)
  }

  // ---------------------------------------------------------------------------
  // The pass as the source runs it

  /**
   * One size: `for to_reconcile in combinations(lines, size)` over the
   * snapshot `pool`, returning early when the deadline has passed.
   */
  method SearchSize(pool: seq<seq<Pair>>, s0: State, late: Oracle) returns (h: Halt<State>)
    ensures h == Scan(pool, s0, late)
  {
    var lines: seq<Pair>, reconciled: set<Id>, groups: seq<seq<Pair>>, count: nat, t: nat
      := s0.lines, s0.reconciled, s0.groups, s0.count, s0.t;
    var i := 0;
    while i < |pool|
      invariant 0 <= i <= |pool|
      invariant Scan(pool[i..], State(lines, reconciled, groups, count, t), late) == Scan(pool, s0, late)
    {
      assert pool[i..][0] == pool[i] && pool[i..][1..] == pool[i + 1..];
      var c := pool[i];
      count := count + 1;
      if count % CombinationCheck == 0 {
        var expired := late(t);
        t := t + 1;
        if expired {
          return Halt(State(lines, reconciled, groups, count, t), true);
        }
      }
      if Sum(c) == 0 {
        var ids := Ids(c);
        if ids !! reconciled {
          lines := Without(lines, ids);
          reconciled := reconciled + ids;
          groups := groups + [c];
        }
      }
      i := i + 1;
    }
    h := Halt(State(lines, reconciled, groups, count, t), false);
  }

  /**
   * The combination pass.  The result is the pass function, so the lemmas
   * below apply: every committed group balances, has 2 to maxLines lines of
   * the bucket and shares no id with any other group or with `done`.
   */
  method Search(bucket: seq<Pair>, maxLines: nat, done: set<Id>, t0: nat, late: Oracle)
    returns (h: Halt<State>)
    requires UniqueIds(bucket) && Ids(bucket) !! done
    ensures h == Pass(bucket, maxLines, done, t0, late)
    ensures Committed(bucket, done, maxLines, h.state)
    ensures h.state.t >= t0
    ensures late(t0) ==> h.state.groups == []
  {
    PassCommitted(bucket, maxLines, done, t0, late);
    var s := State(bucket, done, [], 0, t0);
    var size := 2;
    while size <= maxLines
      invariant 2 <= size
      invariant Sizes(size, maxLines, s, late) == Pass(bucket, maxLines, done, t0, late)
      decreases maxLines + 1 - size
    {
      if late(s.t) {
        return Halt(s.(t := s.t + 1), true);
      }
      h := SearchSize(Combos(s.lines, size), s.(t := s.t + 1), late);
      if h.timedOut {
        return;
      }
      s := h.state;
      size := size + 1;
    }
    h := Halt(s, false);
  }

  // ---------------------------------------------------------------------------
  // What the pass commits

  /** A committable group: balanced, 2 to maxLines lines of the bucket in bucket order, each line once. */
  predicate Balanced(g: seq<Pair>, bucket: seq<Pair>, maxLines: nat) {
    Sum(g) == 0 && 2 <= |g| <= maxLines && IsSubseq(g, bucket) && UniqueIds(g)
  }

  /**
   * The state of the pass after committing `groups`: the live list is the
   * bucket less exactly the committed lines, in bucket order; the reconciled
   * ids grew by exactly the committed ids; every group is balanced and the
   * groups are pairwise disjoint and disjoint from the ids reconciled before.
   */
  predicate Committed(bucket: seq<Pair>, done: set<Id>, maxLines: nat, s: State) {
    && s.lines == Without(bucket, GroupIds(s.groups))
    && s.reconciled == done + GroupIds(s.groups)
    && GroupIds(s.groups) !! done
    && (forall g :: g in s.groups ==> Balanced(g, bucket, maxLines))
    && Disjoint(s.groups)
  }

  lemma {:induction false} WithoutNothing(ps: seq<Pair>)
    ensures Without(ps, {}) == ps
    decreases |ps|
  {
    if ps != [] {
      WithoutNothing(ps[1..]);
      assert ps == [ps[0]] + ps[1..];
    }
  }

  lemma {:induction false} WithoutSubseq(ps: seq<Pair>, xs: set<Id>)
    ensures IsSubseq(Without(ps, xs), ps)
    decreases |ps|
  {
    if ps != [] {
      WithoutSubseq(ps[1..], xs);
      var w := Without(ps[1..], xs);
      if ps[0].id !in xs {
        assert Without(ps, xs) == [ps[0]] + w;
        assert ([ps[0]] + w)[1..] == w;
      } else {
        assert Without(ps, xs) == w;
      }
    }
  }

  lemma {:induction false} SubseqUnique(c: seq<Pair>, s: seq<Pair>)
    requires IsSubseq(c, s) && UniqueIds(s)
    ensures UniqueIds(c)
    decreases |s|
  {
    if c != [] && s != [] {
      assert UniqueIds(s[1..]) by {
        forall i, j | 0 <= i < j < |s[1..]| ensures s[1..][i].id != s[1..][j].id {
          assert s[1..][i] == s[i + 1] && s[1..][j] == s[j + 1];
        }
      }
      if c[0] == s[0] && IsSubseq(c[1..], s[1..]) {
        SubseqUnique(c[1..], s[1..]);
        SubseqMembers(c[1..], s[1..]);
        forall j | 0 <= j < |c[1..]| ensures c[1..][j].id != c[0].id {
          assert c[1..][j] in c[1..];
          assert c[1..][j] in s[1..];
          var k :| 0 <= k < |s[1..]| && s[1..][k] == c[1..][j];
          assert s[1..][k] == s[k + 1];
        }
        UniqueCons(c[0], c[1..]);
        assert [c[0]] + c[1..] == c;
      } else {
        SubseqUnique(c, s[1..]);
      }
    }
  }

  /** Committing an eligible combination keeps the pass's invariant. */
  lemma CommitCommitted(bucket: seq<Pair>, done: set<Id>, maxLines: nat, c: seq<Pair>, s: State, count: nat, t: nat)
    requires UniqueIds(bucket) && Committed(bucket, done, maxLines, s)
    requires 2 <= |c| <= maxLines && IsSubseq(c, bucket)
    requires Sum(c) == 0 && Ids(c) !! s.reconciled
    ensures Committed(bucket, done, maxLines,
                      State(Without(s.lines, Ids(c)), s.reconciled + Ids(c), s.groups + [c], count, t))
  {
    var gs := s.groups;
    GroupIdsAppend(gs, c);
    WithoutWithout(bucket, GroupIds(gs), Ids(c));
    SubseqUnique(c, bucket);
    DisjointSnoc(gs, c);
    forall x | x in gs + [c] ensures Balanced(x, bucket, maxLines) {
      assert x in gs || x == c;
    }
  }

  /** One combination keeps the pass's invariant. */
  lemma VisitCommitted(bucket: seq<Pair>, done: set<Id>, maxLines: nat, c: seq<Pair>, s: State, late: Oracle)
    requires UniqueIds(bucket) && Committed(bucket, done, maxLines, s)
    requires 2 <= |c| <= maxLines && IsSubseq(c, bucket)
    ensures Committed(bucket, done, maxLines, Visit(c, s, late).state)
  {
    var count := s.count + 1;
    var check := count % CombinationCheck == 0;
    var t := if check then s.t + 1 else s.t;
    if !(check && late(s.t)) && Sum(c) == 0 && Ids(c) !! s.reconciled {
      CommitCommitted(bucket, done, maxLines, c, s, count, t);
    } else {
      assert Visit(c, s, late).state == s.(count := count, t := t);
    }
  }

  lemma {:induction false} ScanCommitted(bucket: seq<Pair>, done: set<Id>, maxLines: nat, size: nat,
                                         cs: seq<seq<Pair>>, s: State, late: Oracle)
    requires UniqueIds(bucket) && Committed(bucket, done, maxLines, s)
    requires 2 <= size <= maxLines
    requires forall c :: c in cs ==> |c| == size && IsSubseq(c, bucket)
    ensures Committed(bucket, done, maxLines, Scan(cs, s, late).state)
    ensures Scan(cs, s, late).state.t >= s.t
    decreases |cs|
  {
    if cs != [] {
      VisitCommitted(bucket, done, maxLines, cs[0], s, late);
      var h := Visit(cs[0], s, late);
      if !h.timedOut {
        ScanCommitted(bucket, done, maxLines, size, cs[1..], h.state, late);
      }
    }
  }

  /** Each size enumerates combinations of lines of the bucket. */
  lemma PoolFromBucket(bucket: seq<Pair>, g: set<Id>, size: nat)
    ensures forall c :: c in Combos(Without(bucket, g), size) ==> |c| == size && IsSubseq(c, bucket)
  {
    var lines := Without(bucket, g);
    forall c | c in Combos(lines, size) ensures |c| == size && IsSubseq(c, bucket) {
      CombosSound(lines, size, c);
      WithoutSubseq(bucket, g);
      SubseqTrans(c, lines, bucket);
    }
  }

  /** One size keeps the pass's invariant. */
  lemma RoundCommitted(bucket: seq<Pair>, done: set<Id>, maxLines: nat, size: nat, s: State, late: Oracle)
    requires UniqueIds(bucket) && Committed(bucket, done, maxLines, s)
    requires 2 <= size <= maxLines
    ensures Committed(bucket, done, maxLines, Round(size, s, late).state)
  {
    PoolFromBucket(bucket, GroupIds(s.groups), size);
    ScanCommitted(bucket, done, maxLines, size, Combos(s.lines, size), Tick(s), late);
  }

  /**
   * Whatever holds of the state and survives each clock reading and each
   * size survives the rest of the pass.
   */
  lemma {:induction false} SizesKeep(size: nat, maxLines: nat, s: State, late: Oracle, inv: State -> bool)
    requires inv(s)
    requires forall x {:trigger Tick(x)} :: inv(x) ==> inv(Tick(x))
    requires forall n, x {:trigger Round(n, x, late)} :: 2 <= n <= maxLines && inv(x) ==> inv(Round(n, x, late).state)
    requires 2 <= size
    ensures inv(Sizes(size, maxLines, s, late).state)
    decreases maxLines + 1 - size
  {
    if size <= maxLines && !late(s.t) {
      var h := Round(size, s, late);
      if !h.timedOut {
        SizesKeep(size + 1, maxLines, h.state, late, inv);
      }
    }
  }

  /**
   * What the pass commits: balanced groups of 2 to maxLines distinct lines
   * of the bucket, pairwise disjoint and disjoint from the ids reconciled
   * before; the live list loses exactly their lines and keeps its order.
   */
  lemma PassCommitted(bucket: seq<Pair>, maxLines: nat, done: set<Id>, t: nat, late: Oracle)
    requires UniqueIds(bucket) && Ids(bucket) !! done
    ensures Committed(bucket, done, maxLines, Pass(bucket, maxLines, done, t, late).state)
    ensures Pass(bucket, maxLines, done, t, late).state.t >= t
    ensures late(t) ==> Pass(bucket, maxLines, done, t, late).state.groups == []
  {
    var s := State(bucket, done, [], 0, t);
    WithoutNothing(bucket);
    var inv := (x: State) => Committed(bucket, done, maxLines, x);
    forall n, x | 2 <= n <= maxLines && inv(x) ensures inv(Round(n, x, late).state) {
      RoundCommitted(bucket, done, maxLines, n, x, late);
    }
    SizesKeep(2, maxLines, s, late, inv);
    var clock := (x: State) => x.t >= t;
    forall n, x | 2 <= n <= maxLines && clock(x) ensures clock(Round(n, x, late).state) {
      ScanClock(Combos(x.lines, n), Tick(x), late);
    }
    SizesKeep(2, maxLines, s, late, clock);
  }

  lemma {:induction false} ScanClock(cs: seq<seq<Pair>>, s: State, late: Oracle)
    ensures Scan(cs, s, late).state.t >= s.t
    decreases |cs|
  {
    if cs != [] {
      var h := Visit(cs[0], s, late);
      if !h.timedOut {
        ScanClock(cs[1..], h.state, late);
      }
    }
  }

  // ---------------------------------------------------------------------------
  // Within one size, the first eligible combination is the one committed

  /** The position of the first combination that balances and avoids the ids in `r`. */
  function First(cs: seq<seq<Pair>>, r: set<Id>): (i: nat)
    ensures i <= |cs|
    ensures i < |cs| ==> Sum(cs[i]) == 0 && Ids(cs[i]) !! r
    ensures forall j :: 0 <= j < i ==> !(Sum(cs[j]) == 0 && Ids(cs[j]) !! r)
    decreases |cs|
  {
    if cs == [] then 0
    else if Sum(cs[0]) == 0 && Ids(cs[0]) !! r then 0
    else 1 + First(cs[1..], r)
  }

  /**
   * A size's enumeration only appends groups; the first group it appends is
   * the first eligible combination in enumeration order; and unless the
   * deadline cut it short, it commits a group whenever one is eligible.
   */
  lemma {:induction false} ScanCommitsFirst(cs: seq<seq<Pair>>, s: State, late: Oracle)
    ensures var h := Scan(cs, s, late);
      && |h.state.groups| >= |s.groups| && h.state.groups[..|s.groups|] == s.groups
      && (|h.state.groups| > |s.groups| ==>
            First(cs, s.reconciled) < |cs| && h.state.groups[|s.groups|] == cs[First(cs, s.reconciled)])
      && (!h.timedOut && First(cs, s.reconciled) < |cs| ==> |h.state.groups| > |s.groups|)
    decreases |cs|
  {
    if cs != [] {
      var v := Visit(cs[0], s, late);
      if !v.timedOut {
        ScanCommitsFirst(cs[1..], v.state, late);
        var h := Scan(cs[1..], v.state, late);
        if v.state.groups != s.groups {
          assert v.state.groups == s.groups + [cs[0]];
          assert h.state.groups[..|v.state.groups|] == v.state.groups;
          assert h.state.groups[|s.groups|] == v.state.groups[|s.groups|];
        } else {
          assert v.state.reconciled == s.reconciled;
          assert First(cs, s.reconciled) == 1 + First(cs[1..], s.reconciled);
        }
      }
    }
  }

  // ---------------------------------------------------------------------------
  // Completeness: an untimed pass leaves no balancing combination behind

  /** No combination of 2 to `maxLines` of the `lines` sums to exactly zero. */
  ghost predicate NoneBalance(lines: seq<Pair>, maxLines: nat) {
    forall c :: 2 <= |c| <= maxLines && IsSubseq(c, lines) ==> Sum(c) != 0
  }

  /**
   * Unless the deadline cut it short, a size's enumeration leaves behind no
   * combination that balances and avoids the ids reconciled by its end: each
   * one either was committed or met an id already reconciled.
   */
  lemma {:induction false} ScanComplete(cs: seq<seq<Pair>>, s: State, late: Oracle)
    requires forall c :: c in cs ==> c != []
    ensures var h := Scan(cs, s, late);
      && s.reconciled <= h.state.reconciled
      && (!h.timedOut ==> forall c :: c in cs ==> !(Sum(c) == 0 && Ids(c) !! h.state.reconciled))
    decreases |cs|
  {
    if cs != [] {
      var v := Visit(cs[0], s, late);
      if !v.timedOut {
        assert forall c :: c in cs[1..] ==> c in cs;
        ScanComplete(cs[1..], v.state, late);
        var h := Scan(cs[1..], v.state, late);
        forall c: seq<Pair> | c in cs && !h.timedOut ensures !(Sum(c) == 0 && Ids(c) !! h.state.reconciled) {
          if c !in cs[1..] {
            assert c == cs[0];
            assert c[0] in c;
            assert c[0].id in Ids(c);
          }
        }
      }
    }
  }

  /** A size's enumeration only ever removes lines from the live list, keeping the order. */
  lemma {:induction false} ScanShrinks(cs: seq<seq<Pair>>, s: State, late: Oracle)
    ensures IsSubseq(Scan(cs, s, late).state.lines, s.lines)
    decreases |cs|
  {
    if cs == [] {
      WithoutNothing(s.lines);
      WithoutSubseq(s.lines, {});
    } else {
      var v := Visit(cs[0], s, late);
      if v.timedOut {
        WithoutNothing(s.lines);
        WithoutSubseq(s.lines, {});
      } else {
        ScanShrinks(cs[1..], v.state, late);
        if v.state.lines == s.lines {
        } else {
          WithoutSubseq(s.lines, Ids(cs[0]));
          SubseqTrans(Scan(cs[1..], v.state, late).state.lines, v.state.lines, s.lines);
        }
      }
    }
  }

  /** A combination of live lines shares no id with the reconciled ones. */
  lemma LiveFresh(bucket: seq<Pair>, done: set<Id>, xs: set<Id>, c: seq<Pair>)
    requires Ids(bucket) !! done && IsSubseq(c, Without(bucket, xs))
    ensures Ids(c) !! done + xs
  {
    SubseqMembers(c, Without(bucket, xs));
    forall x | x in Ids(c) ensures x !in done + xs {
      var p :| p in c && p.id == x;
      assert p in bucket && p.id in Ids(bucket);
    }
  }

  /** Unless the deadline cut it short, a size leaves no balancing combination of that size or smaller. */
  lemma RoundComplete(bucket: seq<Pair>, done: set<Id>, maxLines: nat, size: nat, s: State, late: Oracle)
    requires UniqueIds(bucket) && Ids(bucket) !! done && Committed(bucket, done, maxLines, s)
    requires 2 <= size <= maxLines && NoneBalance(s.lines, size - 1)
    ensures var h := Round(size, s, late);
      Committed(bucket, done, maxLines, h.state) && (!h.timedOut ==> NoneBalance(h.state.lines, size))
  {
    var pool := Combos(s.lines, size);
    var h := Round(size, s, late);
    forall c | c in pool ensures c != [] {
      CombosSound(s.lines, size, c);
    }
    ScanComplete(pool, Tick(s), late);
    ScanShrinks(pool, Tick(s), late);
    RoundCommitted(bucket, done, maxLines, size, s, late);
    if !h.timedOut {
      forall c | 2 <= |c| <= size && IsSubseq(c, h.state.lines) ensures Sum(c) != 0 {
        SubseqTrans(c, h.state.lines, s.lines);
        if |c| == size {
          CombosComplete(s.lines, size, c);
          LiveFresh(bucket, done, GroupIds(h.state.groups), c);
        }
      }
    }
  }

  /**
   * Whatever holds of the state and survives each size, while each size
   * leaves no balancing combination of its own size or smaller, leaves none
   * of 2 to `maxLines` lines once the pass ends on time.
   */
  lemma {:induction false} SizesExhaust(size: nat, maxLines: nat, s: State, late: Oracle, inv: State -> bool)
    requires inv(s) && 2 <= size && NoneBalance(s.lines, size - 1)
    requires forall n, x {:trigger Round(n, x, late)} ::
      2 <= n <= maxLines && inv(x) && NoneBalance(x.lines, n - 1) ==>
        inv(Round(n, x, late).state) && (!Round(n, x, late).timedOut ==> NoneBalance(Round(n, x, late).state.lines, n))
    ensures var h := Sizes(size, maxLines, s, late); !h.timedOut ==> NoneBalance(h.state.lines, maxLines)
    decreases maxLines + 1 - size
  {
    if size <= maxLines && !late(s.t) {
      var h := Round(size, s, late);
      if !h.timedOut {
        SizesExhaust(size + 1, maxLines, h.state, late, inv);
      }
    }
  }

  /**
   * Unless the deadline cut it short, the pass leaves no combination of 2 to
   * `maxLines` live lines that sums to zero: every balancing combination of
   * the bucket was committed or shares a line with one that was.
   */
  lemma PassComplete(bucket: seq<Pair>, maxLines: nat, done: set<Id>, t: nat, late: Oracle)
    requires UniqueIds(bucket) && Ids(bucket) !! done
    ensures var h := Pass(bucket, maxLines, done, t, late);
      !h.timedOut ==> NoneBalance(h.state.lines, maxLines)
  {
    WithoutNothing(bucket);
    var inv := (x: State) => Committed(bucket, done, maxLines, x);
    forall n, x | 2 <= n <= maxLines && inv(x) && NoneBalance(x.lines, n - 1)
      ensures inv(Round(n, x, late).state)
      ensures !Round(n, x, late).timedOut ==> NoneBalance(Round(n, x, late).state.lines, n)
    {
      RoundComplete(bucket, done, maxLines, n, x, late);
    }
    SizesExhaust(2, maxLines, State(bucket, done, [], 0, t), late, inv);
  }

  /** A size whose combinations all fail to balance commits nothing. */
  lemma {:induction false} ScanNone(cs: seq<seq<Pair>>, s: State, late: Oracle)
    requires forall c :: c in cs ==> Sum(c) != 0
    ensures var h := Scan(cs, s, late);
      h.state.groups == s.groups && h.state.reconciled == s.reconciled && h.state.lines == s.lines
    decreases |cs|
  {
    if cs != [] {
      assert cs[0] in cs;
      var v := Visit(cs[0], s, late);
      if !v.timedOut {
        ScanNone(cs[1..], v.state, late);
      }
    }
  }

  /** A bucket with no balancing combination of 2 to `maxLines` lines: the pass commits nothing. */
  lemma PassNone(bucket: seq<Pair>, maxLines: nat, done: set<Id>, t: nat, late: Oracle)
    requires NoneBalance(bucket, maxLines)
    ensures var h := Pass(bucket, maxLines, done, t, late);
      h.state.groups == [] && h.state.reconciled == done && h.state.lines == bucket
  {
    var inv := (x: State) => x.groups == [] && x.reconciled == done && x.lines == bucket;
    forall n, x | 2 <= n <= maxLines && inv(x) ensures inv(Round(n, x, late).state) {
      forall c | c in Combos(x.lines, n) ensures Sum(c) != 0 {
        CombosSound(x.lines, n, c);
      }
      ScanNone(Combos(x.lines, n), Tick(x), late);
    }
    SizesKeep(2, maxLines, State(bucket, done, [], 0, t), late, inv);
  }

  /** With a deadline that never passes, no size is cut short. */
  lemma {:induction false} ScanOnTime(cs: seq<seq<Pair>>, s: State, late: Oracle)
    requires forall n :: !late(n)
    ensures !Scan(cs, s, late).timedOut
    decreases |cs|
  {
    if cs != [] {
      ScanOnTime(cs[1..], Visit(cs[0], s, late).state, late);
    }
  }

  /** With a deadline that never passes, the pass runs every size to the end. */
  lemma {:induction false} SizesOnTime(size: nat, maxLines: nat, s: State, late: Oracle)
    requires forall n :: !late(n)
    ensures !Sizes(size, maxLines, s, late).timedOut
    decreases maxLines + 1 - size
  {
    if size <= maxLines {
      ScanOnTime(Combos(s.lines, size), Tick(s), late);
      SizesOnTime(size + 1, maxLines, Round(size, s, late).state, late);
    }
  }
}

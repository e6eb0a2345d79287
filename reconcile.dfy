/**
 * `ReconcileMoves.reconciliation`: one call over a date range.  The grouped
 * query yields the (account, party) buckets of the open lines in the
 * domain; for each bucket the rule pass runs (when rules are enabled and the
 * account has any), then the combination pass re-fetches the bucket's open
 * lines and runs (when combinations are enabled).  Every commit reconciles
 * its lines in the store at once.  A rule that does not compile aborts the
 * call with a user error; a pass that finds the deadline passed ends the
 * call, returning what was reconciled so far.
 */
module Reconcile {
  import opened Wrappers
  import opened Ledger
  import opened Deadline
  import opened Combinations
  import opened RuleMatch
  import opened CombinationSearch

  /** Which pass committed a group. */
  datatype Kind = ByRule | ByCombination

  /** One `Line.reconcile` call: the pass, the bucket, and the `(id, amount)` pairs of the lines. */
  datatype Group = Group(kind: Kind, key: Key, members: seq<Pair>)

  /**
   * The start form as the reconciliation reads it, the company of the user
   * (which the rule search filters on), the rule table and the `re` library.
   * `maxLines` is `int(max_lines)`.
   */
  datatype Options = Options(
    company: nat,
    accounts: set<nat>,
    parties: set<nat>,
    maxLines: nat,
    useRules: bool,
    useCombinations: bool,
    userCompany: nat,
    rules: seq<Rule>,
    re: Regex)

  /** The store, the `reconciled` set, the commits so far in order, and the clock readings. */
  datatype Run = Run(store: seq<Entry>, reconciled: set<Id>, groups: seq<Group>, t: nat)

  /** The domain of a call over the dates `from` to `to`. */
  function DomainOf(o: Options, from: int, to: int): Domain {
    Domain(o.company, o.accounts, o.parties, from, to)
  }

  function Tagged(kind: Kind, key: Key, gs: seq<seq<Pair>>): (r: seq<Group>)
    ensures |r| == |gs|
    ensures forall i :: 0 <= i < |gs| ==> r[i] == Group(kind, key, gs[i])
  {
    seq(|gs|, i requires 0 <= i < |gs| => Group(kind, key, gs[i]))
  }

  function Members(gs: seq<Group>): (r: seq<seq<Pair>>)
    ensures |r| == |gs|
    ensures forall i :: 0 <= i < |gs| ==> r[i] == gs[i].members
  {
    seq(|gs|, i requires 0 <= i < |gs| => gs[i].members)
  }

  // ---------------------------------------------------------------------------
  // The call as functions: the rule pass of a bucket, its combination pass, all buckets

  /** Apply a pass's commits to the run: the store reconciles their lines and the run records them. */
  function Commit(r: Run, kind: Kind, key: Key, gs: seq<seq<Pair>>, reconciled: set<Id>, t: nat): Run {
    Run(Mark(r.store, GroupIds(gs)), reconciled, r.groups + Tagged(kind, key, gs), t)
  }

  /** The rule part of one bucket. */
  function RuleStep(key: Key, d: Domain, o: Options, r: Run, late: Oracle): Result<Halt<Run>, Error> {
    if !o.useRules then Ok(Halt(r, false))
    else match Compiled(RulesFor(o.rules, key.account, o.userCompany), o.re)
      case Err(e) => Err(e)
      case Ok(regexes) =>
        if regexes == [] then Ok(Halt(r, false))
        else
          var h := RulePass(Fetch(r.store, d, key), regexes, r.reconciled, r.t, late, o.re);
          Ok(Halt(Commit(r, ByRule, key, h.state.groups, h.state.reconciled, h.state.t), h.timedOut))
  }

  /** The combination part of one bucket, over the lines still open after the rule part. */
  function CombinationStep(key: Key, d: Domain, o: Options, r: Run, late: Oracle): Halt<Run> {
    if !o.useCombinations then Halt(r, false)
    else
      var p := Pass(Pairs(Fetch(r.store, d, key)), o.maxLines, r.reconciled, r.t, late);
      Halt(Commit(r, ByCombination, key, p.state.groups, p.state.reconciled, p.state.t), p.timedOut)
  }

  function BucketStep(key: Key, d: Domain, o: Options, r: Run, late: Oracle): Result<Halt<Run>, Error> {
    match RuleStep(key, d, o, r, late)
    case Err(e) => Err(e)
    case Ok(a) => if a.timedOut then Ok(a) else Ok(CombinationStep(key, d, o, a.state, late))
  }

  function Buckets(keys: seq<Key>, d: Domain, o: Options, r: Run, late: Oracle): Result<Halt<Run>, Error>
    decreases |keys|
  {
    if keys == [] then Ok(Halt(r, false))
    else match BucketStep(keys[0], d, o, r, late)
      case Err(e) => Err(e)
      case Ok(h) => if h.timedOut then Ok(h) else Buckets(keys[1..], d, o, h.state, late)
  }

  /** One call over the dates `from` to `to`, on the store `store`, with `t` clock readings made before. */
  function Reconciled(store: seq<Entry>, o: Options, from: int, to: int, t: nat, late: Oracle)
    : Result<Halt<Run>, Error>
  {
    var d := DomainOf(o, from, to);
    Buckets(BucketKeys(store, d), d, o, Run(store, {}, [], t), late)
  }

  // ---------------------------------------------------------------------------
  // What a call commits

  /** A committed group: it balances, it has at least two lines (at most maxLines from the combination pass), each once, all open lines of its bucket in the domain. */
  predicate GroupOk(g: Group, s0: seq<Entry>, d: Domain, maxLines: nat) {
    && Sum(g.members) == 0
    && 2 <= |g.members|
    && (g.kind == ByCombination ==> |g.members| <= maxLines)
    && UniqueIds(g.members)
    && (forall p :: p in g.members ==> p in Pairs(Fetch(s0, d, g.key)))
  }

  /**
   * A run of a call that started on the store `s0`: the store is `s0` with
   * exactly the `reconciled` ids reconciled, those are exactly the ids of
   * the committed groups, the groups share no id, and each group is sound.
   */
  predicate Sound(s0: seq<Entry>, d: Domain, maxLines: nat, r: Run) {
    && r.store == Mark(s0, r.reconciled)
    && r.reconciled == GroupIds(Members(r.groups))
    && Disjoint(Members(r.groups))
    && (forall g :: g in r.groups ==> GroupOk(g, s0, d, maxLines))
  }

  lemma {:induction false} GroupIdsConcat(a: seq<seq<Pair>>, b: seq<seq<Pair>>)
    ensures GroupIds(a + b) == GroupIds(a) + GroupIds(b)
    decreases |b|
  {
    if b == [] {
      assert a + b == a;
    } else {
      var init := b[..|b| - 1];
      GroupIdsConcat(a, init);
      assert (a + b)[..|a + b| - 1] == a + init;
    }
  }

  lemma DisjointConcat(a: seq<seq<Pair>>, b: seq<seq<Pair>>)
    requires Disjoint(a) && Disjoint(b) && GroupIds(a) !! GroupIds(b)
    ensures Disjoint(a + b)
  {
    forall i, j | 0 <= i < j < |a + b| ensures Ids((a + b)[i]) !! Ids((a + b)[j]) {
      if j < |a| {
        assert (a + b)[i] == a[i] && (a + b)[j] == a[j];
      } else if i >= |a| {
        assert (a + b)[i] == b[i - |a|] && (a + b)[j] == b[j - |a|];
      } else {
        GroupIdsMember(a, i);
        GroupIdsMember(b, j - |a|);
        assert (a + b)[i] == a[i] && (a + b)[j] == b[j - |a|];
      }
    }
  }

  /** The lines of a bucket fetched from a store reconciled at `a` are open lines of the bucket in `s0`, with distinct ids outside `a`. */
  lemma OpenBucket(s0: seq<Entry>, a: set<Id>, d: Domain, k: Key)
    requires UniqueEntryIds(s0)
    ensures var lines := Fetch(Mark(s0, a), d, k);
      && UniqueEntryIds(lines)
      && UniqueIds(Pairs(lines))
      && Ids(Pairs(lines)) !! a
      && (forall p :: p in Pairs(lines) ==> p in Pairs(Fetch(s0, d, k)))
  {
    var lines := Fetch(Mark(s0, a), d, k);
    MarkKeepsStore(s0, a);
    FetchUnique(Mark(s0, a), d, k);
    PairsUnique(lines);
    FetchAfterCommit(s0, a, d, k);
    forall x | x in Ids(Pairs(lines)) ensures x !in a {
      IdsPairs(lines, x);
    }
    forall p | p in Pairs(lines) ensures p in Pairs(Fetch(s0, d, k)) {
      PairsMemberInv(lines, p);
      var e :| e in lines && ToPair(e) == p;
      PairsMember(Fetch(s0, d, k), e);
    }
  }

  lemma MembersTagged(gs: seq<Group>, kind: Kind, key: Key, ns: seq<seq<Pair>>)
    ensures Members(gs + Tagged(kind, key, ns)) == Members(gs) + ns
  {
    var l, r := Members(gs + Tagged(kind, key, ns)), Members(gs) + ns;
    assert |l| == |r|;
    forall i | 0 <= i < |l| ensures l[i] == r[i] {
      if i >= |gs| {
        assert (gs + Tagged(kind, key, ns))[i] == Tagged(kind, key, ns)[i - |gs|];
      }
    }
  }

  lemma TaggedOk(s0: seq<Entry>, d: Domain, maxLines: nat, gs: seq<Group>, kind: Kind, key: Key, ns: seq<seq<Pair>>)
    requires forall g :: g in gs ==> GroupOk(g, s0, d, maxLines)
    requires forall n :: n in ns ==> GroupOk(Group(kind, key, n), s0, d, maxLines)
    ensures forall g :: g in gs + Tagged(kind, key, ns) ==> GroupOk(g, s0, d, maxLines)
  {
    var all := gs + Tagged(kind, key, ns);
    forall i | 0 <= i < |all| ensures GroupOk(all[i], s0, d, maxLines) {
      if i >= |gs| {
        assert all[i] == Group(kind, key, ns[i - |gs|]);
        assert ns[i - |gs|] in ns;
      } else {
        assert all[i] in gs;
      }
    }
  }

  /** Committing sound, disjoint, fresh groups keeps the run sound. */
  lemma CommitSound(s0: seq<Entry>, d: Domain, maxLines: nat, r: Run, kind: Kind, key: Key, gs: seq<seq<Pair>>, t: nat)
    requires Sound(s0, d, maxLines, r)
    requires Disjoint(gs) && GroupIds(gs) !! r.reconciled
    requires forall g :: g in gs ==> GroupOk(Group(kind, key, g), s0, d, maxLines)
    ensures Sound(s0, d, maxLines, Commit(r, kind, key, gs, r.reconciled + GroupIds(gs), t))
  {
    MarkMark(s0, r.reconciled, GroupIds(gs));
    MembersTagged(r.groups, kind, key, gs);
    GroupIdsConcat(Members(r.groups), gs);
    DisjointConcat(Members(r.groups), gs);
    TaggedOk(s0, d, maxLines, r.groups, kind, key, gs);
  }

  /** The rule part of a bucket keeps the run sound. */
  lemma RuleStepSound(s0: seq<Entry>, key: Key, d: Domain, o: Options, r: Run, late: Oracle)
    requires UniqueEntryIds(s0) && Sound(s0, d, o.maxLines, r)
    ensures RuleStep(key, d, o, r, late).Ok? ==> Sound(s0, d, o.maxLines, RuleStep(key, d, o, r, late).value.state)
  {
    if o.useRules && Compiled(RulesFor(o.rules, key.account, o.userCompany), o.re).Ok? {
      var regexes := Compiled(RulesFor(o.rules, key.account, o.userCompany), o.re).value;
      if regexes != [] {
        var lines := Fetch(r.store, d, key);
        OpenBucket(s0, r.reconciled, d, key);
        RulePassSound(lines, regexes, r.reconciled, r.t, late, o.re);
        var h := RulePass(lines, regexes, r.reconciled, r.t, late, o.re);
        forall g | g in h.state.groups ensures GroupOk(Group(ByRule, key, g), s0, d, o.maxLines) {
          var k :| g == Pairs(WithToken(lines, k, regexes, o.re)) && Settles(WithToken(lines, k, regexes, o.re));
          var w := WithToken(lines, k, regexes, o.re);
          WithTokenMembers(lines, k, regexes, o.re);
          WithTokenUnique(lines, k, regexes, o.re);
          PairsUnique(w);
          forall p | p in g ensures p in Pairs(Fetch(s0, d, key)) {
            PairsMemberInv(w, p);
            var e :| e in w && ToPair(e) == p;
            PairsMember(lines, e);
          }
        }
        CommitSound(s0, d, o.maxLines, r, ByRule, key, h.state.groups, h.state.t);
      }
    }
  }

  /** The combination part of a bucket keeps the run sound. */
  lemma CombinationStepSound(s0: seq<Entry>, key: Key, d: Domain, o: Options, r: Run, late: Oracle)
    requires UniqueEntryIds(s0) && Sound(s0, d, o.maxLines, r)
    ensures Sound(s0, d, o.maxLines, CombinationStep(key, d, o, r, late).state)
  {
    if o.useCombinations {
      var bucket := Pairs(Fetch(r.store, d, key));
      OpenBucket(s0, r.reconciled, d, key);
      PassCommitted(bucket, o.maxLines, r.reconciled, r.t, late);
      var p := Pass(bucket, o.maxLines, r.reconciled, r.t, late);
      forall g | g in p.state.groups ensures GroupOk(Group(ByCombination, key, g), s0, d, o.maxLines) {
        assert Balanced(g, bucket, o.maxLines);
        SubseqMembers(g, bucket);
      }
      CommitSound(s0, d, o.maxLines, r, ByCombination, key, p.state.groups, p.state.t);
    }
  }

  lemma {:induction false} BucketsSound(s0: seq<Entry>, keys: seq<Key>, d: Domain, o: Options, r: Run, late: Oracle)
    requires UniqueEntryIds(s0) && Sound(s0, d, o.maxLines, r)
    ensures Buckets(keys, d, o, r, late).Ok? ==> Sound(s0, d, o.maxLines, Buckets(keys, d, o, r, late).value.state)
    decreases |keys|
  {
    if keys != [] {
      RuleStepSound(s0, keys[0], d, o, r, late);
      var a := RuleStep(keys[0], d, o, r, late);
      if a.Ok? && !a.value.timedOut {
        CombinationStepSound(s0, keys[0], d, o, a.value.state, late);
        var h := CombinationStep(keys[0], d, o, a.value.state, late);
        if !h.timedOut {
          BucketsSound(s0, keys[1..], d, o, h.state, late);
        }
      }
    }
  }

  /** A sound run only reconciles lines that were open in the domain of the call. */
  lemma SoundOpen(s0: seq<Entry>, d: Domain, maxLines: nat, r: Run)
    requires Sound(s0, d, maxLines, r)
    ensures r.reconciled <= OpenIds(s0)
    ensures forall x :: x in r.reconciled ==> exists e :: e in s0 && InDomain(e, d) && e.id == x
  {
    forall x | x in r.reconciled ensures exists e :: e in s0 && InDomain(e, d) && e.id == x {
      var gs := Members(r.groups);
      var i := GroupIdsWitness(gs, x);
      var g := r.groups[i];
      var p :| p in g.members && p.id == x;
      assert GroupOk(g, s0, d, maxLines);
      PairsMemberInv(Fetch(s0, d, g.key), p);
      var e :| e in Fetch(s0, d, g.key) && ToPair(e) == p;
      assert e in s0 && InDomain(e, d) && e.id == x;
    }
  }

  /** The group holding a committed id. */
  lemma {:induction false} GroupIdsWitness(gs: seq<seq<Pair>>, x: Id) returns (i: nat)
    requires x in GroupIds(gs)
    ensures i < |gs| && x in Ids(gs[i])
    decreases |gs|
  {
    if x in Ids(gs[|gs| - 1]) {
      i := |gs| - 1;
    } else {
      i := GroupIdsWitness(gs[..|gs| - 1], x);
    }
  }

  /**
   * What one call commits, for a store whose lines have distinct ids: the
   * store afterwards is the store before with exactly the returned ids
   * reconciled; each returned id belonged to an open line of the domain; the
   * commits share no line; each commit balances exactly, has at least two
   * lines (at most max_lines from the combination pass) and keeps to one
   * (account, party) bucket.
   */
  lemma ReconciliationSound(store: seq<Entry>, o: Options, from: int, to: int, t: nat, late: Oracle)
    requires UniqueEntryIds(store)
    ensures var r := Reconciled(store, o, from, to, t, late);
      r.Ok? ==>
        && Sound(store, DomainOf(o, from, to), o.maxLines, r.value.state)
        && r.value.state.reconciled <= OpenIds(store)
  {
    var d := DomainOf(o, from, to);
    MarkNothing(store);
    BucketsSound(store, BucketKeys(store, d), d, o, Run(store, {}, [], t), late);
    var r := Reconciled(store, o, from, to, t, late);
    if r.Ok? {
      SoundOpen(store, d, o.maxLines, r.value.state);
    }
  }

  /** A call fails only with rules enabled, on a bucket whose account has a rule that does not compile; the error names the first such rule. */
  lemma {:induction false} BucketsError(keys: seq<Key>, d: Domain, o: Options, r: Run, late: Oracle)
    ensures var b := Buckets(keys, d, o, r, late);
      b.Err? ==> o.useRules && exists k :: k in keys && Compiled(RulesFor(o.rules, k.account, o.userCompany), o.re) == Err(b.error)
    decreases |keys|
  {
    if keys != [] {
      var s := BucketStep(keys[0], d, o, r, late);
      if s.Ok? && !s.value.timedOut {
        BucketsError(keys[1..], d, o, s.value.state, late);
        var b := Buckets(keys, d, o, r, late);
        if b.Err? {
          var k :| k in keys[1..] && Compiled(RulesFor(o.rules, k.account, o.userCompany), o.re) == Err(b.error);
          assert k in keys;
        }
      } else if s.Err? {
        assert keys[0] in keys;
      }
    }
  }

  /** The account of bucket `k` has a rule that does not compile, and `e` names the first such rule. */
  predicate WrongRule(k: Key, o: Options, e: Error) {
    var rs := RulesFor(o.rules, k.account, o.userCompany);
    FirstBad(rs, o.re) < |rs| && e == WrongExpression(rs[FirstBad(rs, o.re)].expression, rs[FirstBad(rs, o.re)].id)
  }

  lemma ReconciliationError(store: seq<Entry>, o: Options, from: int, to: int, t: nat, late: Oracle)
    ensures var r := Reconciled(store, o, from, to, t, late);
      r.Err? ==> o.useRules && exists k :: k in BucketKeys(store, DomainOf(o, from, to)) && WrongRule(k, o, r.error)
  {
    var d := DomainOf(o, from, to);
    BucketsError(BucketKeys(store, d), d, o, Run(store, {}, [], t), late);
    var r := Reconciled(store, o, from, to, t, late);
    if r.Err? {
      var k :| k in BucketKeys(store, d) && Compiled(RulesFor(o.rules, k.account, o.userCompany), o.re) == Err(r.error);
      CompiledMeaning(RulesFor(o.rules, k.account, o.userCompany), o.re);
    }
  }

  /**
   * With rules off, a deadline that has already passed commits nothing: the
   * first bucket's combination pass reads the clock before its first size
   * and ends the call, and a call with neither pass commits nothing anyway.
   */
  lemma LateCommitsNothing(store: seq<Entry>, o: Options, from: int, to: int, t: nat, late: Oracle)
    requires forall n :: late(n)
    requires !o.useRules
    ensures var r := Reconciled(store, o, from, to, t, late);
      r.Ok? && r.value.state.groups == [] && r.value.state.store == store && r.value.state.reconciled == {}
  {
    var d := DomainOf(o, from, to);
    BucketsLate(BucketKeys(store, d), d, o, Run(store, {}, [], t), late);
  }

  lemma {:induction false} BucketsLate(keys: seq<Key>, d: Domain, o: Options, r: Run, late: Oracle)
    requires forall n :: late(n)
    requires !o.useRules && r.groups == []
    ensures var b := Buckets(keys, d, o, r, late);
      b.Ok? && b.value.state.groups == [] && b.value.state.store == r.store && b.value.state.reconciled == r.reconciled
    decreases |keys|
  {
    if keys != [] {
      if o.useCombinations {
        var p := Pass(Pairs(Fetch(r.store, d, keys[0])), o.maxLines, r.reconciled, r.t, late);
        assert p.state.groups == [] && p.state.reconciled == r.reconciled;
        MarkNothing(r.store);
        assert Commit(r, ByCombination, keys[0], p.state.groups, p.state.reconciled, p.state.t).groups == [];
      }
      if !BucketStep(keys[0], d, o, r, late).value.timedOut {
        BucketsLate(keys[1..], d, o, BucketStep(keys[0], d, o, r, late).value.state, late);
      }
    }
  }

  /** A call keeps the lines' ids distinct. */
  lemma ReconciledUnique(store: seq<Entry>, o: Options, from: int, to: int, t: nat, late: Oracle)
    requires UniqueEntryIds(store)
    ensures var r := Reconciled(store, o, from, to, t, late);
      r.Ok? ==> UniqueEntryIds(r.value.state.store)
  {
    ReconciliationSound(store, o, from, to, t, late);
    var r := Reconciled(store, o, from, to, t, late);
    if r.Ok? {
      MarkKeepsStore(store, r.value.state.reconciled);
    }
  }

  /** A call over dates that run backwards (`from` after `to`) finds no line and changes nothing. */
  lemma EmptyRangeCommitsNothing(store: seq<Entry>, o: Options, from: int, to: int, t: nat, late: Oracle)
    requires from > to
    ensures Reconciled(store, o, from, to, t, late) == Ok(Halt(Run(store, {}, [], t), false))
  {
    NoKeysBackwards(store, DomainOf(o, from, to));
  }

  // ---------------------------------------------------------------------------
  // Running a call again

  /** Every bucket of the store is left with no combination of 2 to `maxLines` lines that balances. */
  ghost predicate Exhausted(store: seq<Entry>, d: Domain, maxLines: nat) {
    forall k :: NoneBalance(Pairs(Fetch(store, d, k)), maxLines)
  }

  /** Reconciling more lines keeps a bucket free of balancing combinations. */
  lemma NoneBalanceMark(s: seq<Entry>, a: set<Id>, d: Domain, k: Key, maxLines: nat)
    requires NoneBalance(Pairs(Fetch(s, d, k)), maxLines)
    ensures NoneBalance(Pairs(Fetch(Mark(s, a), d, k)), maxLines)
  {
    var before, after := Pairs(Fetch(s, d, k)), Pairs(Fetch(Mark(s, a), d, k));
    FetchAfterCommit(s, a, d, k);
    WithoutSubseq(before, a);
    forall c | 2 <= |c| <= maxLines && IsSubseq(c, after) ensures Sum(c) != 0 {
      SubseqTrans(c, after, before);
    }
  }

  /**
   * With rules off, combinations on and a deadline that never passes, one
   * bucket's step runs to the end, keeps the run sound, leaves its own
   * bucket with no balancing combination, and keeps every bucket that had
   * none without one.
   */
  lemma StepExhausts(s0: seq<Entry>, key: Key, d: Domain, o: Options, r: Run, late: Oracle)
    requires UniqueEntryIds(s0) && Sound(s0, d, o.maxLines, r)
    requires !o.useRules && o.useCombinations && forall n :: !late(n)
    ensures var h := BucketStep(key, d, o, r, late);
      && h.Ok? && !h.value.timedOut && Sound(s0, d, o.maxLines, h.value.state)
      && NoneBalance(Pairs(Fetch(h.value.state.store, d, key)), o.maxLines)
      && forall k :: NoneBalance(Pairs(Fetch(r.store, d, k)), o.maxLines) ==>
           NoneBalance(Pairs(Fetch(h.value.state.store, d, k)), o.maxLines)
  {
    var bucket := Pairs(Fetch(r.store, d, key));
    OpenBucket(s0, r.reconciled, d, key);
    PassCommitted(bucket, o.maxLines, r.reconciled, r.t, late);
    PassComplete(bucket, o.maxLines, r.reconciled, r.t, late);
    SizesOnTime(2, o.maxLines, State(bucket, r.reconciled, [], 0, r.t), late);
    CombinationStepSound(s0, key, d, o, r, late);
    var p := Pass(bucket, o.maxLines, r.reconciled, r.t, late);
    var g := GroupIds(p.state.groups);
    assert BucketStep(key, d, o, r, late) == Ok(CombinationStep(key, d, o, r, late));
    FetchAfterCommit(r.store, g, d, key);
    forall k | NoneBalance(Pairs(Fetch(r.store, d, k)), o.maxLines)
      ensures NoneBalance(Pairs(Fetch(Mark(r.store, g), d, k)), o.maxLines)
    {
      NoneBalanceMark(r.store, g, d, k, o.maxLines);
    }
  }

  lemma {:induction false} BucketsExhaust(s0: seq<Entry>, keys: seq<Key>, d: Domain, o: Options, r: Run, late: Oracle)
    requires UniqueEntryIds(s0) && Sound(s0, d, o.maxLines, r)
    requires !o.useRules && o.useCombinations && forall n :: !late(n)
    ensures var b := Buckets(keys, d, o, r, late);
      && b.Ok? && !b.value.timedOut
      && (forall k :: k in keys ==> NoneBalance(Pairs(Fetch(b.value.state.store, d, k)), o.maxLines))
      && (forall k :: NoneBalance(Pairs(Fetch(r.store, d, k)), o.maxLines) ==>
            NoneBalance(Pairs(Fetch(b.value.state.store, d, k)), o.maxLines))
    decreases |keys|
  {
    if keys != [] {
      StepExhausts(s0, keys[0], d, o, r, late);
      var h := BucketStep(keys[0], d, o, r, late).value;
      BucketsExhaust(s0, keys[1..], d, o, h.state, late);
      var b := Buckets(keys, d, o, r, late);
      assert b == Buckets(keys[1..], d, o, h.state, late);
      forall k | k in keys ensures NoneBalance(Pairs(Fetch(b.value.state.store, d, k)), o.maxLines) {
        if k != keys[0] {
          assert k in keys[1..];
        }
      }
    }
  }

  /**
   * With rules off and no deadline passing, a call leaves every bucket of its
   * domain with no combination of 2 to max_lines open lines that sums to zero.
   */
  lemma ReconciledExhausts(store: seq<Entry>, o: Options, from: int, to: int, t: nat, late: Oracle)
    requires UniqueEntryIds(store) && !o.useRules && o.useCombinations && forall n :: !late(n)
    ensures var r := Reconciled(store, o, from, to, t, late);
      r.Ok? && !r.value.timedOut && Exhausted(r.value.state.store, DomainOf(o, from, to), o.maxLines)
  {
    var d := DomainOf(o, from, to);
    var keys := BucketKeys(store, d);
    var r0 := Run(store, {}, [], t);
    MarkNothing(store);
    BucketsExhaust(store, keys, d, o, r0, late);
    var f := Buckets(keys, d, o, r0, late).value.state.store;
    forall k ensures NoneBalance(Pairs(Fetch(f, d, k)), o.maxLines) {
      if k !in keys {
        FetchedKeyGrouped(store, d, k);
        assert Pairs(Fetch(store, d, k)) == [];
      }
    }
  }

  /** A call on a store whose buckets hold no balancing combination commits nothing and changes nothing. */
  lemma {:induction false} BucketsQuiet(keys: seq<Key>, d: Domain, o: Options, r: Run, late: Oracle)
    requires !o.useRules && r.groups == []
    requires o.useCombinations ==> forall k :: NoneBalance(Pairs(Fetch(r.store, d, k)), o.maxLines)
    ensures var b := Buckets(keys, d, o, r, late);
      b.Ok? && b.value.state.groups == [] && b.value.state.store == r.store && b.value.state.reconciled == r.reconciled
    decreases |keys|
  {
    if keys != [] {
      if o.useCombinations {
        var p := Pass(Pairs(Fetch(r.store, d, keys[0])), o.maxLines, r.reconciled, r.t, late);
        PassNone(Pairs(Fetch(r.store, d, keys[0])), o.maxLines, r.reconciled, r.t, late);
        MarkNothing(r.store);
        assert Commit(r, ByCombination, keys[0], p.state.groups, p.state.reconciled, p.state.t).groups == [];
      }
      if !BucketStep(keys[0], d, o, r, late).value.timedOut {
        BucketsQuiet(keys[1..], d, o, BucketStep(keys[0], d, o, r, late).value.state, late);
      }
    }
  }

  /**
   * Running the wizard again over the same dates and filters, with rules
   * off, after a call that the deadline did not cut short, commits nothing
   * and leaves the store as it is, whatever the clock does the second time.
   */
  lemma RerunCommitsNothing(store: seq<Entry>, o: Options, from: int, to: int, t: nat, late: Oracle,
                            t2: nat, late2: Oracle)
    requires UniqueEntryIds(store) && !o.useRules && forall n :: !late(n)
    ensures var r := Reconciled(store, o, from, to, t, late);
      && r.Ok?
      && var again := Reconciled(r.value.state.store, o, from, to, t2, late2);
         again.Ok? && again.value.state.groups == [] && again.value.state.store == r.value.state.store
  {
    var d := DomainOf(o, from, to);
    if o.useCombinations {
      ReconciledExhausts(store, o, from, to, t, late);
    } else {
      BucketsQuiet(BucketKeys(store, d), d, o, Run(store, {}, [], t), late);
    }
    var s1 := Reconciled(store, o, from, to, t, late).value.state.store;
    BucketsQuiet(BucketKeys(s1, d), d, o, Run(s1, {}, [], t2), late2);
  }

  // ---------------------------------------------------------------------------
  // When a call fails

  /** With a deadline that never passes, no bucket's step is cut short, and a step fails exactly on a bad rule. */
  lemma StepOnTime(key: Key, d: Domain, o: Options, r: Run, late: Oracle)
    requires forall n :: !late(n)
    ensures var h := BucketStep(key, d, o, r, late);
      && (h.Err? <==> o.useRules && Compiled(RulesFor(o.rules, key.account, o.userCompany), o.re).Err?)
      && (h.Ok? ==> !h.value.timedOut)
  {
    if o.useRules && Compiled(RulesFor(o.rules, key.account, o.userCompany), o.re).Ok? {
      var regexes := Compiled(RulesFor(o.rules, key.account, o.userCompany), o.re).value;
      RulePassOnTime(Fetch(r.store, d, key), regexes, r.reconciled, r.t, late, o.re);
    }
    var a := RuleStep(key, d, o, r, late);
    if a.Ok? {
      var s := a.value.state;
      SizesOnTime(2, o.maxLines, State(Pairs(Fetch(s.store, d, key)), s.reconciled, [], 0, s.t), late);
    }
  }

  lemma {:induction false} BucketsOnTime(keys: seq<Key>, d: Domain, o: Options, r: Run, late: Oracle)
    requires forall n :: !late(n)
    ensures Buckets(keys, d, o, r, late).Err? <==>
      o.useRules && exists k :: k in keys && Compiled(RulesFor(o.rules, k.account, o.userCompany), o.re).Err?
    decreases |keys|
  {
    if keys != [] {
      StepOnTime(keys[0], d, o, r, late);
      var h := BucketStep(keys[0], d, o, r, late);
      if h.Ok? {
        BucketsOnTime(keys[1..], d, o, h.value.state, late);
        if o.useRules && exists k :: k in keys && Compiled(RulesFor(o.rules, k.account, o.userCompany), o.re).Err? {
          var k :| k in keys && Compiled(RulesFor(o.rules, k.account, o.userCompany), o.re).Err?;
          assert k in keys[1..];
        }
      } else {
        assert keys[0] in keys;
      }
    }
  }

  /**
   * With rules on and a deadline that never passes, a call fails exactly
   * when some bucket's account has a rule whose expression does not compile.
   */
  lemma ReconciliationFails(store: seq<Entry>, o: Options, from: int, to: int, t: nat, late: Oracle)
    requires o.useRules && forall n :: !late(n)
    ensures var rs := (k: Key) => RulesFor(o.rules, k.account, o.userCompany);
      Reconciled(store, o, from, to, t, late).Err? <==>
        exists k :: k in BucketKeys(store, DomainOf(o, from, to)) && FirstBad(rs(k), o.re) < |rs(k)|
  {
    var d := DomainOf(o, from, to);
    BucketsOnTime(BucketKeys(store, d), d, o, Run(store, {}, [], t), late);
    forall k: Key {
      CompiledMeaning(RulesFor(o.rules, k.account, o.userCompany), o.re);
    }
  }

  // ---------------------------------------------------------------------------
  // The call as a loop

  /**
   * `reconciliation(start_date, end_date, timeout)`.  Returns the user error
   * of a rule that does not compile, or the run it ended in: its store and
   * `reconciled` set (the returned ids), its commits, and whether the
   * deadline ended it.
   */
  method Reconciliation(store: seq<Entry>, o: Options, from: int, to: int, t0: nat, late: Oracle)
    returns (result: Result<Halt<Run>, Error>)
    requires UniqueEntryIds(store)
    ensures result == Reconciled(store, o, from, to, t0, late)
  {
    var d := DomainOf(o, from, to);
    var keys := BucketKeys(store, d);
    var run := Run(store, {}, [], t0);
    MarkNothing(store);
    var i := 0;
    while i < |keys|
      invariant 0 <= i <= |keys|
      invariant Sound(store, d, o.maxLines, run)
      invariant Buckets(keys[i..], d, o, run, late) == Reconciled(store, o, from, to, t0, late)
    {
      assert keys[i..][0] == keys[i] && keys[i..][1..] == keys[i + 1..];
      var key := keys[i];
      RuleStepSound(store, key, d, o, run, late);
      if o.useRules {
        var compiled := Compile(RulesFor(o.rules, key.account, o.userCompany), o.re);
        if compiled.Err? {
          return Err(compiled.error);
        }
        var regexes := compiled.value;
        if regexes != [] {
          var h := MatchRules(Fetch(run.store, d, key), regexes, run.reconciled, run.t, late, o.re);
          run := Commit(run, ByRule, key, h.state.groups, h.state.reconciled, h.state.t);
          if h.timedOut {
            return Ok(Halt(run, true));
          }
        }
      }
      CombinationStepSound(store, key, d, o, run, late);
      if o.useCombinations {
        OpenBucket(store, run.reconciled, d, key);
        var h := Search(Pairs(Fetch(run.store, d, key)), o.maxLines, run.reconciled, run.t, late);
        run := Commit(run, ByCombination, key, h.state.groups, h.state.reconciled, h.state.t);
        if h.timedOut {
          return Ok(Halt(run, true));
        }
      }
      i := i + 1;
    }
    result := Ok(Halt(run, false));
  }
}

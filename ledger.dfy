/**
 * The move lines the reconciliation wizard works on, and the database
 * operations it performs on them: the filtered and ordered search, the
 * grouped (account, party) query and the reconcile commit.
 *
 * The line table is a value `store: seq<Entry>` listed in the order the
 * wizard asks for (ascending date; lines of one date in table order), so
 * that every search is a filter of it.  Reconciling lines sets their
 * `reconciled` flag, which every later search excludes.
 */
module Ledger {
  import opened Wrappers

  type Id = nat

  /** The (account, party) pair a bucket is keyed by; a line without party has `None`. */
  datatype Key = Key(account: nat, party: Option<nat>)

  /**
   * A move line.  `company` and `reconcilable` belong to the line's account.
   * Amounts are decimals scaled to integers, so exact-zero tests stay exact.
   */
  datatype Entry = Entry(
    id: Id,
    company: nat,
    account: nat,
    reconcilable: bool,
    party: Option<nat>,
    date: int,
    debit: int,
    credit: int,
    description: Option<string>,
    reconciled: bool)

  /** The `(id, debit - credit)` pair the combination pass enumerates. */
  datatype Pair = Pair(id: Id, amount: int)

  function KeyOf(e: Entry): Key { Key(e.account, e.party) }

  function Signed(e: Entry): int { e.debit - e.credit }

  function ToPair(e: Entry): Pair { Pair(e.id, Signed(e)) }

  /** The search domain of one reconciliation call: company, selected accounts and parties, dates. */
  datatype Domain = Domain(company: nat, accounts: set<nat>, parties: set<nat>, from: int, to: int)

  /** The domain of one reconciliation call; an empty account or party selection filters nothing. */
  predicate InDomain(e: Entry, d: Domain) {
    && e.company == d.company
    && e.reconcilable
    && !e.reconciled
    && d.from <= e.date <= d.to
    && (d.accounts == {} || e.account in d.accounts)
    && (d.parties == {} || (e.party.Some? && e.party.value in d.parties))
  }

  predicate Selected(e: Entry, d: Domain, k: Key) {
    InDomain(e, d) && KeyOf(e) == k
  }

  /** The ordered search of one bucket: the open lines of the domain with key `k`, in store order. */
  function Fetch(store: seq<Entry>, d: Domain, k: Key): (r: seq<Entry>)
    ensures forall e :: e in r ==> e in store && Selected(e, d, k)
    ensures forall e :: e in store && Selected(e, d, k) ==> e in r
    ensures |r| <= |store|
  {
    if store == [] then []
    else (if Selected(store[0], d, k) then [store[0]] else []) + Fetch(store[1..], d, k)
  }

  /**
   * The grouped query: the distinct keys of the open lines of the domain.
   * SQL leaves the order of a GROUP BY open; the model takes first appearance in the store.
   */
  function BucketKeys(store: seq<Entry>, d: Domain): (r: seq<Key>)
    ensures forall i, j :: 0 <= i < j < |r| ==> r[i] != r[j]
    ensures forall e :: e in store && InDomain(e, d) ==> KeyOf(e) in r
    ensures forall k :: k in r ==> exists e :: e in store && Selected(e, d, k)
  {
    if store == [] then []
    else
      var init := BucketKeys(store[..|store| - 1], d);
      var last := store[|store| - 1];
      assert forall e :: e in store ==> e in store[..|store| - 1] || e == last;
      assert forall e :: e in store[..|store| - 1] ==> e in store;
      assert last in store;
      if InDomain(last, d) && KeyOf(last) !in init then init + [KeyOf(last)] else init
  }

  predicate DateSorted(es: seq<Entry>) {
    forall i, j :: 0 <= i < j < |es| ==> es[i].date <= es[j].date
  }

  predicate UniqueEntryIds(es: seq<Entry>) {
    forall i, j :: 0 <= i < j < |es| ==> es[i].id != es[j].id
  }

  function MarkOne(e: Entry, ids: set<Id>): Entry {
    if e.id in ids then e.(reconciled := true) else e
  }

  /** `Line.reconcile`: every line whose id is in `ids` becomes reconciled; nothing else changes. */
  function Mark(store: seq<Entry>, ids: set<Id>): (r: seq<Entry>)
    ensures |r| == |store|
    ensures forall i :: 0 <= i < |store| ==> r[i] == MarkOne(store[i], ids)
  {
    if store == [] then [] else [MarkOne(store[0], ids)] + Mark(store[1..], ids)
  }

  /** The ids of the lines not yet reconciled. */
  function OpenIds(store: seq<Entry>): set<Id> {
    set e | e in store && !e.reconciled :: e.id
  }

  function Pairs(es: seq<Entry>): (r: seq<Pair>)
    ensures |r| == |es|
    ensures forall i :: 0 <= i < |es| ==> r[i] == ToPair(es[i])
  {
    if es == [] then [] else [ToPair(es[0])] + Pairs(es[1..])
  }

  /** Python's `sum` of the signed amounts. */
  function Sum(ps: seq<Pair>): int {
    if ps == [] then 0 else ps[0].amount + Sum(ps[1..])
  }

  function Ids(ps: seq<Pair>): set<Id> {
    set p | p in ps :: p.id
  }

  predicate UniqueIds(ps: seq<Pair>) {
    forall i, j :: 0 <= i < j < |ps| ==> ps[i].id != ps[j].id
  }

  /** The pairs whose id is not in `xs`, in their original order. */
  function Without(ps: seq<Pair>, xs: set<Id>): (r: seq<Pair>)
    ensures forall p :: p in r <==> p in ps && p.id !in xs
    ensures |r| <= |ps|
  {
    if ps == [] then []
    else (if ps[0].id in xs then [] else [ps[0]]) + Without(ps[1..], xs)
  }

  /** The entries whose id is not in `xs`, in their original order. */
  function DropIds(es: seq<Entry>, xs: set<Id>): seq<Entry> {
    if es == [] then []
    else (if es[0].id in xs then [] else [es[0]]) + DropIds(es[1..], xs)
  }

  // ---------------------------------------------------------------------------
  // Lemmas about the store

  /** Reconciling closes exactly the given ids. */
  lemma OpenIdsMark(s: seq<Entry>, a: set<Id>)
    ensures OpenIds(Mark(s, a)) == OpenIds(s) - a
  {
    var m := Mark(s, a);
    forall x | x in OpenIds(m) ensures x in OpenIds(s) - a {
      var e :| e in m && !e.reconciled && e.id == x;
      var i :| 0 <= i < |m| && m[i] == e;
      assert s[i] == e;
    }
    forall x | x in OpenIds(s) - a ensures x in OpenIds(m) {
      var e :| e in s && !e.reconciled && e.id == x;
      var i :| 0 <= i < |s| && s[i] == e;
      assert m[i] == e;
    }
  }

  /** Two commits in a row are one commit of the union. */
  lemma MarkMark(s: seq<Entry>, a: set<Id>, b: set<Id>)
    ensures Mark(Mark(s, a), b) == Mark(s, a + b)
  {
    var l, r := Mark(Mark(s, a), b), Mark(s, a + b);
    assert |l| == |r|;
    forall i | 0 <= i < |l| ensures l[i] == r[i] {}
  }

  lemma MarkNothing(s: seq<Entry>)
    ensures Mark(s, {}) == s
  {
    assert forall i :: 0 <= i < |s| ==> Mark(s, {})[i] == s[i];
  }

  /** Committing lines never breaks the store's date order or its unique ids. */
  lemma MarkKeepsStore(s: seq<Entry>, a: set<Id>)
    ensures DateSorted(s) ==> DateSorted(Mark(s, a))
    ensures UniqueEntryIds(s) ==> UniqueEntryIds(Mark(s, a))
  {
  }

  lemma {:induction false} MarkTail(s: seq<Entry>, a: set<Id>)
    requires s != []
    ensures Mark(s, a)[0] == MarkOne(s[0], a) && Mark(s, a)[1..] == Mark(s[1..], a)
  {
  }

  /** A search after a commit sees the earlier search minus the committed lines. */
  lemma {:induction false} FetchMark(s: seq<Entry>, a: set<Id>, d: Domain, k: Key)
    ensures Fetch(Mark(s, a), d, k) == DropIds(Fetch(s, d, k), a)
    decreases |s|
  {
    if s != [] {
      MarkTail(s, a);
      FetchMark(s[1..], a, d, k);
      var h := s[0];
      var rest := Fetch(s[1..], d, k);
      assert Selected(MarkOne(h, a), d, k) <==> Selected(h, d, k) && h.id !in a;
      if Selected(h, d, k) {
        assert Fetch(s, d, k) == [h] + rest;
        assert ([h] + rest)[1..] == rest;
      } else {
        assert Fetch(s, d, k) == rest;
      }
    }
  }

  lemma {:induction false} PairsDropIds(es: seq<Entry>, a: set<Id>)
    ensures Pairs(DropIds(es, a)) == Without(Pairs(es), a)
    decreases |es|
  {
    if es != [] {
      PairsDropIds(es[1..], a);
      assert Pairs(es)[1..] == Pairs(es[1..]);
      var t := DropIds(es[1..], a);
      if es[0].id !in a {
        assert DropIds(es, a) == [es[0]] + t;
        assert ([es[0]] + t)[1..] == t;
      } else {
        assert DropIds(es, a) == t;
      }
    }
  }

  lemma {:induction false} DropIdsMembers(es: seq<Entry>, a: set<Id>)
    ensures forall e :: e in DropIds(es, a) <==> e in es && e.id !in a
    decreases |es|
  {
    if es != [] {
      DropIdsMembers(es[1..], a);
      assert forall e :: e in es <==> e == es[0] || e in es[1..];
    }
  }

  /** The lines of a bucket fetched after a commit are the open ones of the first fetch. */
  lemma FetchAfterCommit(s: seq<Entry>, a: set<Id>, d: Domain, k: Key)
    ensures Pairs(Fetch(Mark(s, a), d, k)) == Without(Pairs(Fetch(s, d, k)), a)
    ensures forall e :: e in Fetch(Mark(s, a), d, k) ==> e in Fetch(s, d, k) && e.id !in a
  {
    FetchMark(s, a, d, k);
    PairsDropIds(Fetch(s, d, k), a);
    DropIdsMembers(Fetch(s, d, k), a);
  }

  /** The ordered search returns the lines in ascending date, as `_get_lines_order` asks. */
  lemma {:induction false} FetchSorted(s: seq<Entry>, d: Domain, k: Key)
    requires DateSorted(s)
    ensures DateSorted(Fetch(s, d, k))
    decreases |s|
  {
    if s != [] {
      FetchSorted(s[1..], d, k);
      var rest := Fetch(s[1..], d, k);
      if Selected(s[0], d, k) {
        forall i, j | 0 <= i < j < |[s[0]] + rest|
          ensures ([s[0]] + rest)[i].date <= ([s[0]] + rest)[j].date
        {
          if i == 0 {
            assert ([s[0]] + rest)[j] in s[1..];
          }
        }
      }
    }
  }

  lemma FetchUnique(s: seq<Entry>, d: Domain, k: Key)
    requires UniqueEntryIds(s)
    ensures UniqueIds(Pairs(Fetch(s, d, k)))
  {
    FetchEntriesUnique(s, d, k);
    PairsUnique(Fetch(s, d, k));
  }

  lemma {:induction false} FetchEntriesUnique(s: seq<Entry>, d: Domain, k: Key)
    requires UniqueEntryIds(s)
    ensures UniqueEntryIds(Fetch(s, d, k))
    decreases |s|
  {
    if s != [] {
      FetchEntriesUnique(s[1..], d, k);
      var rest := Fetch(s[1..], d, k);
      if Selected(s[0], d, k) {
        var r := [s[0]] + rest;
        forall i, j | 0 <= i < j < |r| ensures r[i].id != r[j].id {
          assert r[j] == rest[j - 1];
          if i == 0 {
            assert r[j] in s[1..];
          } else {
            assert r[i] == rest[i - 1];
          }
        }
      }
    }
  }

  lemma PairsMember(es: seq<Entry>, e: Entry)
    requires e in es
    ensures ToPair(e) in Pairs(es)
  {
    var i :| 0 <= i < |es| && es[i] == e;
    assert Pairs(es)[i] == ToPair(e);
  }

  lemma PairsMemberInv(es: seq<Entry>, p: Pair)
    requires p in Pairs(es)
    ensures exists e :: e in es && ToPair(e) == p
  {
    var i :| 0 <= i < |Pairs(es)| && Pairs(es)[i] == p;
    assert es[i] in es;
  }

  // ---------------------------------------------------------------------------
  // Lemmas about pairs

  lemma {:induction false} WithoutWithout(ps: seq<Pair>, a: set<Id>, b: set<Id>)
    ensures Without(Without(ps, a), b) == Without(ps, a + b)
    decreases |ps|
  {
    if ps != [] {
      WithoutWithout(ps[1..], a, b);
      var p, t := ps[0], Without(ps[1..], a);
      assert Without(ps, a + b) == (if p.id in a + b then [] else [p]) + Without(ps[1..], a + b);
      if p.id in a {
        assert Without(ps, a) == t;
      } else {
        assert Without(ps, a) == [p] + t;
        assert ([p] + t)[1..] == t;
        assert Without([p] + t, b) == (if p.id in b then [] else [p]) + Without(t, b);
      }
    }
  }

  lemma {:induction false} WithoutUnique(ps: seq<Pair>, xs: set<Id>)
    requires UniqueIds(ps)
    ensures UniqueIds(Without(ps, xs))
    decreases |ps|
  {
    if ps != [] {
      WithoutUnique(ps[1..], xs);
      var t := Without(ps[1..], xs);
      if ps[0].id !in xs {
        forall j | 0 <= j < |t| ensures t[j].id != ps[0].id {
          assert t[j] in ps[1..];
        }
        UniqueCons(ps[0], t);
      }
    }
  }

  lemma UniqueCons(p: Pair, ps: seq<Pair>)
    requires UniqueIds(ps)
    requires forall j :: 0 <= j < |ps| ==> ps[j].id != p.id
    ensures UniqueIds([p] + ps)
  {
    var r := [p] + ps;
    forall i, j | 0 <= i < j < |r| ensures r[i].id != r[j].id {
      assert r[j] == ps[j - 1];
      if i > 0 { assert r[i] == ps[i - 1]; }
    }
  }

  lemma {:induction false} SumAppend(a: seq<Pair>, b: seq<Pair>)
    ensures Sum(a + b) == Sum(a) + Sum(b)
    decreases |a|
  {
    if a != [] {
      assert (a + b)[0] == a[0];
      assert (a + b)[1..] == a[1..] + b;
      SumAppend(a[1..], b);
      assert Sum(a + b) == a[0].amount + Sum(a[1..] + b);
    } else {
      assert a + b == b;
    }
  }

  // ---------------------------------------------------------------------------
  // Committed groups

  /** The ids of a sequence of groups. */
  function GroupIds(gs: seq<seq<Pair>>): set<Id>
    decreases |gs|
  {
    if gs == [] then {} else GroupIds(gs[..|gs| - 1]) + Ids(gs[|gs| - 1])
  }

  predicate Disjoint(gs: seq<seq<Pair>>) {
    forall i, j :: 0 <= i < j < |gs| ==> Ids(gs[i]) !! Ids(gs[j])
  }

  lemma {:induction false} GroupIdsAppend(gs: seq<seq<Pair>>, g: seq<Pair>)
    ensures GroupIds(gs + [g]) == GroupIds(gs) + Ids(g)
  {
    assert (gs + [g])[..|gs|] == gs;
  }

  /** A group sharing no id with the groups before it keeps them pairwise disjoint. */
  lemma DisjointSnoc(gs: seq<seq<Pair>>, c: seq<Pair>)
    requires Disjoint(gs) && Ids(c) !! GroupIds(gs)
    ensures Disjoint(gs + [c])
  {
    forall i, j | 0 <= i < j < |gs + [c]| ensures Ids((gs + [c])[i]) !! Ids((gs + [c])[j]) {
      if j == |gs| {
        GroupIdsMember(gs, i);
      } else {
        assert (gs + [c])[i] == gs[i] && (gs + [c])[j] == gs[j];
      }
    }
  }

  lemma {:induction false} GroupIdsMember(gs: seq<seq<Pair>>, i: nat)
    requires i < |gs|
    ensures Ids(gs[i]) <= GroupIds(gs)
    decreases |gs|
  {
    if i < |gs| - 1 {
      GroupIdsMember(gs[..|gs| - 1], i);
    }
  }

  lemma PairsUnique(es: seq<Entry>)
    ensures UniqueEntryIds(es) <==> UniqueIds(Pairs(es))
  {
    assert forall i :: 0 <= i < |es| ==> Pairs(es)[i].id == es[i].id;
  }

  lemma IdsPairs(es: seq<Entry>, x: Id)
    ensures x in Ids(Pairs(es)) <==> exists e :: e in es && e.id == x
  {
    if x in Ids(Pairs(es)) {
      var p :| p in Pairs(es) && p.id == x;
      PairsMemberInv(es, p);
    }
    if exists e :: e in es && e.id == x {
      var e :| e in es && e.id == x;
      PairsMember(es, e);
    }
  }

  /** A key with an open line in the domain is one the grouped query yields. */
  lemma FetchedKeyGrouped(store: seq<Entry>, d: Domain, k: Key)
    ensures Fetch(store, d, k) != [] ==> k in BucketKeys(store, d)
  {
    if Fetch(store, d, k) != [] {
      assert Fetch(store, d, k)[0] in Fetch(store, d, k);
    }
  }

  /** Over dates that run backwards no line is in the domain, so the grouped query yields nothing. */
  lemma {:induction false} NoKeysBackwards(store: seq<Entry>, d: Domain)
    requires d.from > d.to
    ensures BucketKeys(store, d) == []
    decreases |store|
  {
    if store != [] {
      NoKeysBackwards(store[..|store| - 1], d);
    }
  }
}

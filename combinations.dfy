/**
 * `itertools.combinations(pool, k)`: every k-element subsequence of `pool`,
 * in lexicographic order of positions (first all those that take pool[0],
 * then those that skip it).  The pool is a snapshot: later changes to the
 * list it was built from do not affect an enumeration already started.
 */
module Combinations {

  /** `c` picks some elements of `s`, keeping their order. */
  predicate IsSubseq<T(==)>(c: seq<T>, s: seq<T>)
    decreases |s|
  {
    if c == [] then true
    else if s == [] then false
    else (c[0] == s[0] && IsSubseq(c[1..], s[1..])) || IsSubseq(c, s[1..])
  }

  function Prepend<T>(x: T, cs: seq<seq<T>>): (r: seq<seq<T>>)
    ensures |r| == |cs|
    ensures forall i :: 0 <= i < |cs| ==> r[i] == [x] + cs[i]
  {
    seq(|cs|, i requires 0 <= i < |cs| => [x] + cs[i])
  }

  function Combos<T>(s: seq<T>, k: nat): seq<seq<T>>
    decreases |s|
  {
    if k == 0 then [[]]
    else if s == [] then []
    else Prepend(s[0], Combos(s[1..], k - 1)) + Combos(s[1..], k)
  }

  /** Binomial coefficient, by Pascal's rule. */
  function Choose(n: nat, k: nat): nat {
    if k == 0 then 1 else if n == 0 then 0 else Choose(n - 1, k - 1) + Choose(n - 1, k)
  }

  /** Every item of the enumeration is a k-element subsequence of the pool. */
  lemma {:induction false} CombosSound<T>(s: seq<T>, k: nat, c: seq<T>)
    requires c in Combos(s, k)
    ensures |c| == k && IsSubseq(c, s)
    decreases |s|
  {
    if k != 0 && s != [] {
      var left := Prepend(s[0], Combos(s[1..], k - 1));
      if c in left {
        var i :| 0 <= i < |left| && left[i] == c;
        var d := Combos(s[1..], k - 1)[i];
        CombosSound(s[1..], k - 1, d);
        assert c == [s[0]] + d && c[1..] == d;
      } else {
        CombosSound(s[1..], k, c);
      }
    }
  }

  /** Every k-element subsequence of the pool is enumerated. */
  lemma {:induction false} CombosComplete<T>(s: seq<T>, k: nat, c: seq<T>)
    requires |c| == k && IsSubseq(c, s)
    ensures c in Combos(s, k)
    decreases |s|
  {
    if k == 0 {
      assert c == [];
    } else {
      assert s != [];
      var tail := Combos(s[1..], k - 1);
      if c[0] == s[0] && IsSubseq(c[1..], s[1..]) {
        CombosComplete(s[1..], k - 1, c[1..]);
        var i :| 0 <= i < |tail| && tail[i] == c[1..];
        assert Prepend(s[0], tail)[i] == [s[0]] + c[1..] == c;
      } else {
        CombosComplete(s[1..], k, c);
      }
    }
  }

  /** The enumeration yields exactly the k-element subsequences of the pool. */
  lemma CombosExactly<T>(s: seq<T>, k: nat, c: seq<T>)
    ensures c in Combos(s, k) <==> |c| == k && IsSubseq(c, s)
  {
    if c in Combos(s, k) { CombosSound(s, k, c); }
    if |c| == k && IsSubseq(c, s) { CombosComplete(s, k, c); }
  }

  /** The enumeration has C(n, k) items, so each size's pass is finite and counted in full. */
  lemma {:induction false} CombosCount<T>(s: seq<T>, k: nat)
    ensures |Combos(s, k)| == Choose(|s|, k)
    decreases |s|
  {
    if k != 0 && s != [] {
      CombosCount(s[1..], k - 1);
      CombosCount(s[1..], k);
    }
  }

  /** A subsequence only holds elements of the pool. */
  lemma {:induction false} SubseqMembers<T>(c: seq<T>, s: seq<T>)
    requires IsSubseq(c, s)
    ensures forall x :: x in c ==> x in s
    decreases |s|
  {
    if c != [] && s != [] {
      if c[0] == s[0] && IsSubseq(c[1..], s[1..]) {
        SubseqMembers(c[1..], s[1..]);
        assert forall x :: x in c ==> x == c[0] || x in c[1..];
      } else {
        SubseqMembers(c, s[1..]);
      }
    }
  }

  lemma {:induction false} SubseqTrans<T>(a: seq<T>, b: seq<T>, c: seq<T>)
    requires IsSubseq(a, b) && IsSubseq(b, c)
    ensures IsSubseq(a, c)
    decreases |c|
  {
    if a != [] && c != [] {
      assert b != [];
      if b[0] == c[0] && IsSubseq(b[1..], c[1..]) {
        if a[0] == b[0] && IsSubseq(a[1..], b[1..]) {
          SubseqTrans(a[1..], b[1..], c[1..]);
        } else {
          SubseqTrans(a, b[1..], c[1..]);
        }
      } else {
        SubseqTrans(a, b, c[1..]);
      }
    }
  }

  // ---------------------------------------------------------------------------
  // The order of the enumeration

  /** `a` comes strictly before `b` in lexicographic order. */
  predicate LexLess(a: seq<int>, b: seq<int>)
    decreases |a|
  {
    a != [] && b != [] && (a[0] < b[0] || (a[0] == b[0] && LexLess(a[1..], b[1..])))
  }

  lemma {:induction false} LexLessIrreflexive(a: seq<int>)
    ensures !LexLess(a, a)
    decreases |a|
  {
    if a != [] {
      LexLessIrreflexive(a[1..]);
    }
  }

  predicate Increasing(s: seq<int>) {
    forall i, j :: 0 <= i < j < |s| ==> s[i] < s[j]
  }

  /** The positions `lo`, `lo + 1`, ..., `hi - 1`. */
  function Range(lo: int, hi: int): (r: seq<int>)
    ensures |r| == if lo <= hi then hi - lo else 0
    ensures forall i :: 0 <= i < |r| ==> r[i] == lo + i
    decreases hi - lo
  {
    if lo >= hi then [] else [lo] + Range(lo + 1, hi)
  }

  /** Over an increasing pool, such as a list of positions, the enumeration is in strictly increasing lexicographic order. */
  lemma {:induction false} CombosLexOrder(s: seq<int>, k: nat)
    requires Increasing(s)
    ensures forall i, j :: 0 <= i < j < |Combos(s, k)| ==> LexLess(Combos(s, k)[i], Combos(s, k)[j])
    decreases |s|
  {
    if k != 0 && s != [] {
      var a, b := Combos(s[1..], k - 1), Combos(s[1..], k);
      var p := Prepend(s[0], a);
      var c := Combos(s, k);
      CombosLexOrder(s[1..], k - 1);
      CombosLexOrder(s[1..], k);
      forall i, j | 0 <= i < j < |c| ensures LexLess(c[i], c[j]) {
        if j < |p| {
          assert c[i][1..] == a[i] && c[j][1..] == a[j];
        } else if i >= |p| {
          assert c[i] == b[i - |p|] && c[j] == b[j - |p|];
        } else {
          var later := b[j - |p|];
          CombosSound(s[1..], k, later);
          SubseqMembers(later, s[1..]);
          assert later[0] in later;
          var m :| 0 <= m < |s[1..]| && s[1..][m] == later[0];
          assert s[0] < s[m + 1];
        }
      }
    }
  }

  /** `c` holds the elements of `s` at the positions `pos`, where `s` starts at position `lo`. */
  ghost predicate Picks<T>(c: seq<T>, pos: seq<int>, s: seq<T>, lo: int) {
    |c| == |pos| && forall m :: 0 <= m < |pos| ==> lo <= pos[m] < lo + |s| && c[m] == s[pos[m] - lo]
  }

  lemma PicksCons<T>(c: seq<T>, pos: seq<int>, s: seq<T>, lo: int)
    requires s != [] && Picks(c, pos, s[1..], lo + 1)
    ensures Picks([s[0]] + c, [lo] + pos, s, lo)
  {
    var c', pos' := [s[0]] + c, [lo] + pos;
    forall m | 0 <= m < |pos'| ensures lo <= pos'[m] < lo + |s| && c'[m] == s[pos'[m] - lo] {
      if m > 0 {
        assert pos'[m] == pos[m - 1] && c'[m] == c[m - 1];
      }
    }
  }

  lemma PicksSkip<T>(c: seq<T>, pos: seq<int>, s: seq<T>, lo: int)
    requires s != [] && Picks(c, pos, s[1..], lo + 1)
    ensures Picks(c, pos, s, lo)
  {
  }

  /** Each list of `c` picks the elements of `s` at the positions in the same place of `p`. */
  ghost predicate PicksAll<T>(c: seq<seq<T>>, p: seq<seq<int>>, s: seq<T>, lo: int) {
    |c| == |p| && forall i :: 0 <= i < |c| ==> Picks(c[i], p[i], s, lo)
  }

  /**
   * The i-th combination of a pool picks the elements at the positions of
   * the i-th combination of the pool's positions `lo`, `lo + 1`, ...
   */
  lemma {:induction false} CombosAtPositions<T>(s: seq<T>, lo: int, k: nat)
    ensures PicksAll(Combos(s, k), Combos(Range(lo, lo + |s|), k), s, lo)
    decreases |s|
  {
    var r := Range(lo, lo + |s|);
    if k != 0 && s != [] {
      assert r[0] == lo && r[1..] == Range(lo + 1, lo + 1 + |s[1..]|);
      var a, pa := Combos(s[1..], k - 1), Combos(r[1..], k - 1);
      var b, pb := Combos(s[1..], k), Combos(r[1..], k);
      CombosAtPositions(s[1..], lo + 1, k - 1);
      CombosAtPositions(s[1..], lo + 1, k);
      assert Combos(s, k) == Prepend(s[0], a) + b;
      assert Combos(r, k) == Prepend(lo, pa) + pb;
      PicksStep(s, lo, a, pa, b, pb);
    } else if k == 0 {
      assert Picks([], [], s, lo);
    }
  }

  /** The induction step of `CombosAtPositions`: one pass of `Combos` keeps the correspondence. */
  lemma PicksStep<T>(s: seq<T>, lo: int, a: seq<seq<T>>, pa: seq<seq<int>>, b: seq<seq<T>>, pb: seq<seq<int>>)
    requires s != [] && PicksAll(a, pa, s[1..], lo + 1) && PicksAll(b, pb, s[1..], lo + 1)
    ensures PicksAll(Prepend(s[0], a) + b, Prepend(lo, pa) + pb, s, lo)
  {
    var c, p := Prepend(s[0], a) + b, Prepend(lo, pa) + pb;
    forall i | 0 <= i < |c| ensures Picks(c[i], p[i], s, lo) {
      if i < |a| {
        assert c[i] == [s[0]] + a[i] && p[i] == [lo] + pa[i];
        PicksCons(a[i], pa[i], s, lo);
      } else {
        assert c[i] == b[i - |a|] && p[i] == pb[i - |a|];
        PicksSkip(c[i], p[i], s, lo);
      }
    }
  }

  /**
   * `itertools.combinations` order: the i-th combination picks the elements
   * at the i-th position list, and the position lists come in strictly
   * increasing lexicographic order, so no position list repeats.
   */
  lemma CombosOrder<T>(s: seq<T>, k: nat)
    ensures var c, p := Combos(s, k), Combos(Range(0, |s|), k);
      && PicksAll(c, p, s, 0)
      && (forall i, j :: 0 <= i < j < |p| ==> LexLess(p[i], p[j]))
      && (forall i, j :: 0 <= i < j < |p| ==> p[i] != p[j])
  {
    CombosAtPositions(s, 0, k);
    var p := Combos(Range(0, |s|), k);
    CombosLexOrder(Range(0, |s|), k);
    forall i, j | 0 <= i < j < |p| ensures p[i] != p[j] {
      LexLessIrreflexive(p[i]);
    }
  }

  /** Over a pool without repeated elements, such as lines with distinct ids, no combination is listed twice. */
  lemma {:induction false} CombosNoRepeats<T>(s: seq<T>, k: nat)
    requires forall i, j :: 0 <= i < j < |s| ==> s[i] != s[j]
    ensures forall i, j :: 0 <= i < j < |Combos(s, k)| ==> Combos(s, k)[i] != Combos(s, k)[j]
    decreases |s|
  {
    if k != 0 && s != [] {
      var a, b := Combos(s[1..], k - 1), Combos(s[1..], k);
      var p := Prepend(s[0], a);
      var c := Combos(s, k);
      CombosNoRepeats(s[1..], k - 1);
      CombosNoRepeats(s[1..], k);
      forall i, j | 0 <= i < j < |c| ensures c[i] != c[j] {
        if j < |p| {
          assert c[i][1..] == a[i] && c[j][1..] == a[j];
        } else if i >= |p| {
          assert c[i] == b[i - |p|] && c[j] == b[j - |p|];
        } else {
          var later := b[j - |p|];
          CombosSound(s[1..], k, later);
          SubseqMembers(later, s[1..]);
          assert later[0] in later;
          assert c[i][0] == s[0];
        }
      }
    }
  }
}

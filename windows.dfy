/**
 * `ReconcileMoves.do_reconcile`: the sliding date window.  Missing start
 * and end dates default to the earliest and latest line date (no line at
 * all ends the wizard without a result).  The window
 * `[start, min(start + max_days, end_date)]` is reconciled, its ids are
 * appended to the result, the clock is read, and `start` advances by
 * `max(1, max_days // 2)` until it passes `end_date` or the deadline has
 * passed.
 */
module Windows {
  import opened Wrappers
  import opened Ledger
  import opened Deadline
  import opened RuleMatch
  import opened CombinationSearch
  import opened Reconcile

  /** `max(1, max_days // 2)`: Dafny's `/` by 2 rounds down, as Python's `//` does. */
  function Step(maxDays: int): (r: int)
    ensures r >= 1
    ensures r >= maxDays / 2
    ensures maxDays >= 0 ==> r <= maxDays + 1
  {
    if maxDays / 2 > 1 then maxDays / 2 else 1
  }

  /** The last day of the window that starts at `start`: `min(start + max_days, end_date)`. */
  function WindowEnd(start: int, maxDays: int, endDate: int): (r: int)
    ensures r <= endDate && r <= start + maxDays
    ensures r == endDate || r == start + maxDays
  {
    if start + maxDays > endDate then endDate else start + maxDays
  }

  /** One window: its dates and the ids its reconciliation call returned. */
  datatype Window = Window(from: int, to: int, reconciled: set<Id>)

  /** The store, the windows so far in order, and the clock readings. */
  datatype Sweep = Sweep(store: seq<Entry>, windows: seq<Window>, t: nat)

  /** `reconciled += result` over the windows: every id returned so far. */
  function AllIds(ws: seq<Window>): set<Id>
    decreases |ws|
  {
    if ws == [] then {} else AllIds(ws[..|ws| - 1]) + ws[|ws| - 1].reconciled
  }

  /** A reconciliation call as the window loop makes it: store, first and last date, clock readings so far. */
  type Call = (seq<Entry>, int, int, nat) -> Result<Halt<Run>, Error>

  /** The wizard's call: `reconciliation` with the form's options and the run's clock. */
  function CallOf(o: Options, late: Oracle): Call {
    (store: seq<Entry>, from: int, to: int, t: nat) => Reconciled(store, o, from, to, t, late)
  }

  /** The sweep after the window `from..to`, whose call returned `h`: the clock was read once more. */
  function Advance(s: Sweep, from: int, to: int, h: Halt<Run>): (r: Sweep)
    ensures |r.windows| == |s.windows| + 1 && r.windows[..|s.windows|] == s.windows
    ensures r.windows[|s.windows|] == Window(from, to, h.state.reconciled)
  {
    Sweep(h.state.store, s.windows + [Window(from, to, h.state.reconciled)], h.state.t + 1)
  }

  /** The loop from `start` on, making the reconciliation call `call` for each window. */
  function Slide(start: int, endDate: int, maxDays: int, call: Call, s: Sweep, late: Oracle): Result<Halt<Sweep>, Error>
    decreases if start <= endDate then endDate - start + 1 else 0
  {
    if start > endDate then Ok(Halt(s, false))
    else
      var end := WindowEnd(start, maxDays, endDate);
      match call(s.store, start, end, s.t)
      case Err(e) => Err(e)
      case Ok(h) =>
        var next := Advance(s, start, end, h);
        if late(h.state.t) then Ok(Halt(next, true))
        else Slide(start + Step(maxDays), endDate, maxDays, call, next, late)
  }

  /** One turn of the loop: the call for the window at `start`, then either an error, a stop on the deadline, or the loop from the next start. */
  lemma SlideNext(start: int, endDate: int, maxDays: int, call: Call, s: Sweep, late: Oracle, c: Result<Halt<Run>, Error>)
    requires start <= endDate && c == call(s.store, start, WindowEnd(start, maxDays, endDate), s.t)
    ensures c.Err? ==> Slide(start, endDate, maxDays, call, s, late) == Err(c.error)
    ensures c.Ok? && late(c.value.state.t) ==>
      Slide(start, endDate, maxDays, call, s, late) == Ok(Halt(Advance(s, start, WindowEnd(start, maxDays, endDate), c.value), true))
    ensures c.Ok? && !late(c.value.state.t) ==>
      Slide(start, endDate, maxDays, call, s, late)
      == Slide(start + Step(maxDays), endDate, maxDays, call, Advance(s, start, WindowEnd(start, maxDays, endDate), c.value), late)
  {
  }

  /** The earliest line date: the first line of the search ordered by ascending date. */
  function MinDate(store: seq<Entry>): (r: int)
    requires store != []
    ensures forall e :: e in store ==> r <= e.date
    ensures exists e :: e in store && e.date == r
    decreases |store|
  {
    if |store| == 1 then store[0].date
    else
      var m := MinDate(store[1..]);
      assert forall e :: e in store ==> e == store[0] || e in store[1..];
      assert store[1..][0] in store;
      var w :| w in store[1..] && w.date == m;
      assert w in store;
      if store[0].date < m then store[0].date else m
  }

  /** The latest line date: the first line of the search ordered by descending date. */
  function MaxDate(store: seq<Entry>): (r: int)
    requires store != []
    ensures forall e :: e in store ==> e.date <= r
    ensures exists e :: e in store && e.date == r
    decreases |store|
  {
    if |store| == 1 then store[0].date
    else
      var m := MaxDate(store[1..]);
      assert forall e :: e in store ==> e == store[0] || e in store[1..];
      var w :| w in store[1..] && w.date == m;
      assert w in store;
      if store[0].date > m then store[0].date else m
  }

  /** How the wizard ends: without any line there is no result; otherwise the sweep it made. */
  datatype Outcome = NoLines | Finished(sweep: Halt<Sweep>)

  /** The whole of `do_reconcile`, from the form's dates (`None` when left empty). */
  function DoReconciled(store: seq<Entry>, o: Options, maxDays: int, startDate: Option<int>, endDate: Option<int>,
                        t: nat, late: Oracle): Result<Outcome, Error>
  {
    if (startDate.None? || endDate.None?) && store == [] then Ok(NoLines)
    else
      var start := if startDate.Some? then startDate.value else MinDate(store);
      var end := if endDate.Some? then endDate.value else MaxDate(store);
      match Slide(start, end, maxDays, CallOf(o, late), Sweep(store, [], t), late)
      case Err(e) => Err(e)
      case Ok(h) => Ok(Finished(h))
  }

  // ---------------------------------------------------------------------------
  // The windows

  /**
   * The windows the loop adds: the first starts at `start`, each ends at
   * `min(from + max_days, end_date)`, each starts by `max(1, max_days // 2)`
   * after the one before, every one starts no later than `end_date`, and
   * unless the deadline stopped the loop the next start would be past it.
   */
  lemma {:induction false} SlideWindows(start: int, endDate: int, maxDays: int, call: Call, s: Sweep, late: Oracle)
    ensures var r := Slide(start, endDate, maxDays, call, s, late);
      r.Ok? ==>
        var ws := r.value.state.windows;
        && |ws| >= |s.windows| && ws[..|s.windows|] == s.windows
        && (|ws| > |s.windows| ==> ws[|s.windows|].from == start)
        && (forall i :: |s.windows| <= i < |ws| ==>
              ws[i].from <= endDate && ws[i].to == WindowEnd(ws[i].from, maxDays, endDate))
        && (forall i :: |s.windows| <= i < |ws| - 1 ==> ws[i + 1].from == ws[i].from + Step(maxDays))
        && (!r.value.timedOut ==>
              if |ws| > |s.windows| then ws[|ws| - 1].from + Step(maxDays) > endDate else start > endDate)
    decreases if start <= endDate then endDate - start + 1 else 0
  {
    if start <= endDate {
      var end := WindowEnd(start, maxDays, endDate);
      var c := call(s.store, start, end, s.t);
      if c.Ok? && !late(c.value.state.t) {
        var next := Advance(s, start, end, c.value);
        SlideWindows(start + Step(maxDays), endDate, maxDays, call, next, late);
        var r := Slide(start + Step(maxDays), endDate, maxDays, call, next, late);
        assert Slide(start, endDate, maxDays, call, s, late) == r;
        if r.Ok? {
          var ws := r.value.state.windows;
          assert ws[..|next.windows|] == next.windows;
          assert ws[..|s.windows|] == next.windows[..|s.windows|] == s.windows;
          assert ws[|s.windows|] == next.windows[|s.windows|];
        }
      }
    }
  }

  /**
   * Unless the deadline stops it, and with `max_days` at least 0, the loop
   * covers the range: every date from `start` to `end_date` falls in a window.
   */
  lemma {:induction false} SlideCovers(start: int, endDate: int, maxDays: int, call: Call, s: Sweep, late: Oracle, day: int)
    requires maxDays >= 0 && start <= day <= endDate
    ensures var r := Slide(start, endDate, maxDays, call, s, late);
      r.Ok? && !r.value.timedOut ==>
        exists i :: |s.windows| <= i < |r.value.state.windows| &&
          r.value.state.windows[i].from <= day <= r.value.state.windows[i].to
    decreases endDate - start + 1
  {
    var end := WindowEnd(start, maxDays, endDate);
    var c := call(s.store, start, end, s.t);
    if c.Ok? && !late(c.value.state.t) {
      var next := Advance(s, start, end, c.value);
      var r := Slide(start + Step(maxDays), endDate, maxDays, call, next, late);
      assert Slide(start, endDate, maxDays, call, s, late) == r;
      if r.Ok? && !r.value.timedOut {
        var ws := r.value.state.windows;
        if day <= end {
          SlideWindows(start + Step(maxDays), endDate, maxDays, call, next, late);
          assert ws[|s.windows|] == ws[..|next.windows|][|s.windows|] == Window(start, end, c.value.state.reconciled);
        } else {
          SlideCovers(start + Step(maxDays), endDate, maxDays, call, next, late, day);
        }
      }
    }
  }

  /**
   * The form accepts a negative `max_days`: every window then ends before it
   * starts, so its call finds no line, and the loop advances one day at a time.
   */
  lemma NegativeDaysEmptyWindows(start: int, endDate: int, maxDays: int, call: Call, s: Sweep, late: Oracle)
    requires maxDays < 0
    ensures Step(maxDays) == 1
    ensures var r := Slide(start, endDate, maxDays, call, s, late);
      r.Ok? ==> forall i :: |s.windows| <= i < |r.value.state.windows| ==>
        r.value.state.windows[i].to < r.value.state.windows[i].from
  {
    SlideWindows(start, endDate, maxDays, call, s, late);
  }

  /** Once the deadline has passed for good, the loop runs a single window. */
  lemma AlwaysLateOneWindow(start: int, endDate: int, maxDays: int, call: Call, s: Sweep, late: Oracle)
    requires forall t :: late(t)
    ensures var r := Slide(start, endDate, maxDays, call, s, late);
      r.Ok? ==> |r.value.state.windows| <= |s.windows| + 1
  {
  }

  // ---------------------------------------------------------------------------
  // What the sweep reconciles

  /** The sweep so far, from the store `s0`: the store has exactly the returned ids reconciled, each window's ids were open lines, and no id is returned twice. */
  predicate SweepSound(s0: seq<Entry>, s: Sweep) {
    && s.store == Mark(s0, AllIds(s.windows))
    && AllIds(s.windows) <= OpenIds(s0)
    && (forall i, j :: 0 <= i < j < |s.windows| ==> s.windows[i].reconciled !! s.windows[j].reconciled)
  }

  lemma {:induction false} AllIdsMember(ws: seq<Window>, i: nat)
    requires i < |ws|
    ensures ws[i].reconciled <= AllIds(ws)
    decreases |ws|
  {
    if i < |ws| - 1 {
      AllIdsMember(ws[..|ws| - 1], i);
    }
  }

  /** One more window keeps the sweep sound. */
  lemma WindowSound(s0: seq<Entry>, s: Sweep, w: Window, store: seq<Entry>, t: nat)
    requires UniqueEntryIds(s0) && SweepSound(s0, s)
    requires store == Mark(s.store, w.reconciled) && w.reconciled <= OpenIds(s.store)
    ensures SweepSound(s0, Sweep(store, s.windows + [w], t))
  {
    var ws := s.windows + [w];
    assert ws[..|ws| - 1] == s.windows;
    MarkMark(s0, AllIds(s.windows), w.reconciled);
    OpenIdsMark(s0, AllIds(s.windows));
    forall i, j | 0 <= i < j < |ws| ensures ws[i].reconciled !! ws[j].reconciled {
      if j == |s.windows| {
        AllIdsMember(s.windows, i);
      }
    }
  }

  /** A call that reconciles: on a store with distinct ids, a successful call leaves the store with exactly the ids it returns reconciled, each of them an open line. */
  ghost predicate CallSound(call: Call) {
    forall st: seq<Entry>, a: int, b: int, t: nat {:trigger call(st, a, b, t)} ::
      UniqueEntryIds(st) && call(st, a, b, t).Ok? ==>
        && call(st, a, b, t).value.state.store == Mark(st, call(st, a, b, t).value.state.reconciled)
        && call(st, a, b, t).value.state.reconciled <= OpenIds(st)
  }

  /** The wizard's call reconciles. */
  lemma CallOfSound(o: Options, late: Oracle)
    ensures CallSound(CallOf(o, late))
  {
    forall st: seq<Entry>, a: int, b: int, t: nat | UniqueEntryIds(st) && CallOf(o, late)(st, a, b, t).Ok?
      ensures CallOf(o, late)(st, a, b, t).value.state.store == Mark(st, CallOf(o, late)(st, a, b, t).value.state.reconciled)
      ensures CallOf(o, late)(st, a, b, t).value.state.reconciled <= OpenIds(st)
    {
      ReconciliationSound(st, o, a, b, t, late);
    }
  }

  /**
   * What the whole sweep reconciles, for a store whose lines have distinct
   * ids: the store afterwards is the store before with exactly the returned
   * ids reconciled, every returned id was an open line, and no id is returned
   * by two windows (the result list has no duplicates).
   */
  lemma {:induction false} SlideSound(s0: seq<Entry>, start: int, endDate: int, maxDays: int, call: Call, s: Sweep, late: Oracle)
    requires CallSound(call) && UniqueEntryIds(s0) && SweepSound(s0, s)
    ensures var r := Slide(start, endDate, maxDays, call, s, late);
      r.Ok? ==> SweepSound(s0, r.value.state)
  {
    var inv := (x: Sweep) => SweepSound(s0, x);
    forall x: Sweep, a: int, b: int | inv(x) && call(x.store, a, b, x.t).Ok?
      ensures inv(Advance(x, a, b, call(x.store, a, b, x.t).value))
    {
      var h := call(x.store, a, b, x.t).value;
      MarkKeepsStore(s0, AllIds(x.windows));
      WindowSound(s0, x, Window(a, b, h.state.reconciled), h.state.store, h.state.t + 1);
    }
    SlideKeep(start, endDate, maxDays, call, s, late, inv);
  }

  /** Any property of the sweep that every window's call keeps holds when the loop ends. */
  lemma {:induction false} SlideKeep(start: int, endDate: int, maxDays: int, call: Call, s: Sweep, late: Oracle,
                                     inv: Sweep -> bool)
    requires inv(s)
    requires forall x: Sweep, a: int, b: int {:trigger call(x.store, a, b, x.t)} ::
      inv(x) && call(x.store, a, b, x.t).Ok? ==> inv(Advance(x, a, b, call(x.store, a, b, x.t).value))
    ensures var r := Slide(start, endDate, maxDays, call, s, late);
      r.Ok? ==> inv(r.value.state)
    decreases if start <= endDate then endDate - start + 1 else 0
  {
    if start <= endDate {
      var end := WindowEnd(start, maxDays, endDate);
      var c := call(s.store, start, end, s.t);
      if c.Ok? && !late(c.value.state.t) {
        SlideKeep(start + Step(maxDays), endDate, maxDays, call, Advance(s, start, end, c.value), late, inv);
      }
    }
  }

  lemma DoReconcileSound(store: seq<Entry>, o: Options, maxDays: int, startDate: Option<int>, endDate: Option<int>,
                         t: nat, late: Oracle)
    requires UniqueEntryIds(store)
    ensures var r := DoReconciled(store, o, maxDays, startDate, endDate, t, late);
      r.Ok? && r.value.Finished? ==> SweepSound(store, r.value.sweep.state)
    ensures DoReconciled(store, o, maxDays, startDate, endDate, t, late) == Ok(NoLines) <==>
      (startDate.None? || endDate.None?) && store == []
  {
    MarkNothing(store);
    if !((startDate.None? || endDate.None?) && store == []) {
      var start := if startDate.Some? then startDate.value else MinDate(store);
      var end := if endDate.Some? then endDate.value else MaxDate(store);
      CallOfSound(o, late);
      SlideSound(store, start, end, maxDays, CallOf(o, late), Sweep(store, [], t), late);
    }
  }

  // ---------------------------------------------------------------------------
  // Running the wizard again

  /** Two stores whose lines carry the same dates, position by position. */
  predicate SameDates(a: seq<Entry>, b: seq<Entry>) {
    |a| == |b| && forall i :: 0 <= i < |a| ==> a[i].date == b[i].date
  }

  lemma SameDatesTrans(a: seq<Entry>, b: seq<Entry>, c: seq<Entry>)
    requires SameDates(a, b) && SameDates(b, c)
    ensures SameDates(a, c)
  {
  }

  /** Stores with the same dates have the same earliest line date. */
  lemma {:induction false} SameMinDate(a: seq<Entry>, b: seq<Entry>)
    requires a != [] && SameDates(a, b)
    ensures MinDate(a) == MinDate(b)
    decreases |a|
  {
    if |a| > 1 {
      SameMinDate(a[1..], b[1..]);
    }
  }

  /** Stores with the same dates have the same latest line date. */
  lemma {:induction false} SameMaxDate(a: seq<Entry>, b: seq<Entry>)
    requires a != [] && SameDates(a, b)
    ensures MaxDate(a) == MaxDate(b)
    decreases |a|
  {
    if |a| > 1 {
      SameMaxDate(a[1..], b[1..]);
    }
  }

  /** A fact about a store and the dates of one window. */
  type WindowFact = (seq<Entry>, int, int) -> bool

  /** Every window from `start` on has the fact `p` in the store `f`. */
  ghost predicate FactFrom(start: int, endDate: int, maxDays: int, f: seq<Entry>, p: WindowFact)
    decreases if start <= endDate then endDate - start + 1 else 0
  {
    start <= endDate ==>
      p(f, start, WindowEnd(start, maxDays, endDate)) && FactFrom(start + Step(maxDays), endDate, maxDays, f, p)
  }

  /** A call that, on a store with distinct ids, succeeds, keeps the ids distinct, and leaves its own window with the fact `p`. */
  ghost predicate Establishes(call: Call, p: WindowFact) {
    forall st: seq<Entry>, a: int, b: int, t: nat {:trigger call(st, a, b, t)} ::
      UniqueEntryIds(st) ==>
        && call(st, a, b, t).Ok?
        && UniqueEntryIds(call(st, a, b, t).value.state.store)
        && p(call(st, a, b, t).value.state.store, a, b)
  }

  /** A call that keeps the fact `p` of every window that had it. */
  ghost predicate Preserves(call: Call, p: WindowFact) {
    forall st: seq<Entry>, a: int, b: int, t: nat, a': int, b': int {:trigger call(st, a, b, t), p(st, a', b')} ::
      UniqueEntryIds(st) && p(st, a', b') && call(st, a, b, t).Ok? ==> p(call(st, a, b, t).value.state.store, a', b')
  }

  /** A call that keeps the lines' dates. */
  ghost predicate KeepsDates(call: Call) {
    forall st: seq<Entry>, a: int, b: int, t: nat {:trigger call(st, a, b, t)} ::
      UniqueEntryIds(st) && call(st, a, b, t).Ok? ==>
        UniqueEntryIds(call(st, a, b, t).value.state.store) && SameDates(st, call(st, a, b, t).value.state.store)
  }

  /** A call that, on a window with the fact `p`, returns no id and leaves the store as it is. */
  ghost predicate CallQuiet(call: Call, p: WindowFact) {
    forall st: seq<Entry>, a: int, b: int, t: nat {:trigger call(st, a, b, t)} ::
      p(st, a, b) ==>
        && call(st, a, b, t).Ok?
        && call(st, a, b, t).value.state.store == st
        && call(st, a, b, t).value.state.reconciled == {}
  }

  /** With rules off, a window has nothing left for a call to find: with the combination pass on, no bucket of it holds a balancing combination. */
  ghost function Spent(o: Options): WindowFact {
    (f: seq<Entry>, a: int, b: int) => o.useCombinations ==> Exhausted(f, DomainOf(o, a, b), o.maxLines)
  }

  /** With rules off and a deadline that never passes, the wizard's call leaves its window spent. */
  lemma CallOfEstablishes(o: Options, late: Oracle)
    requires !o.useRules && forall n :: !late(n)
    ensures Establishes(CallOf(o, late), Spent(o))
  {
    forall st: seq<Entry>, a: int, b: int, t: nat | UniqueEntryIds(st)
      ensures var r := Reconciled(st, o, a, b, t, late);
        r.Ok? && UniqueEntryIds(r.value.state.store) && Spent(o)(r.value.state.store, a, b)
    {
      if o.useCombinations {
        ReconciledExhausts(st, o, a, b, t, late);
      } else {
        var d := DomainOf(o, a, b);
        BucketsQuiet(BucketKeys(st, d), d, o, Run(st, {}, [], t), late);
      }
      ReconciledUnique(st, o, a, b, t, late);
    }
  }

  /** The wizard's call only reconciles lines, so a spent window stays spent. */
  lemma CallOfPreserves(o: Options, late: Oracle)
    ensures Preserves(CallOf(o, late), Spent(o))
  {
    forall st: seq<Entry>, a: int, b: int, t: nat, a': int, b': int |
      UniqueEntryIds(st) && Spent(o)(st, a', b') && Reconciled(st, o, a, b, t, late).Ok?
      ensures Spent(o)(Reconciled(st, o, a, b, t, late).value.state.store, a', b')
    {
      ReconciliationSound(st, o, a, b, t, late);
      var r := Reconciled(st, o, a, b, t, late).value;
      var d := DomainOf(o, a', b');
      if o.useCombinations {
        forall k ensures NoneBalance(Pairs(Fetch(r.state.store, d, k)), o.maxLines) {
          NoneBalanceMark(st, r.state.reconciled, d, k, o.maxLines);
        }
      }
    }
  }

  /** The wizard's call changes no date. */
  lemma CallOfKeepsDates(o: Options, late: Oracle)
    ensures KeepsDates(CallOf(o, late))
  {
    forall st: seq<Entry>, a: int, b: int, t: nat | UniqueEntryIds(st) && Reconciled(st, o, a, b, t, late).Ok?
      ensures var r := Reconciled(st, o, a, b, t, late);
        UniqueEntryIds(r.value.state.store) && SameDates(st, r.value.state.store)
    {
      ReconciledUnique(st, o, a, b, t, late);
      ReconciliationSound(st, o, a, b, t, late);
    }
  }

  /** With rules off, the wizard's call on a spent window commits nothing. */
  lemma CallOfQuiet(o: Options, late: Oracle)
    requires !o.useRules
    ensures CallQuiet(CallOf(o, late), Spent(o))
  {
    forall st: seq<Entry>, a: int, b: int, t: nat | Spent(o)(st, a, b)
      ensures var r := Reconciled(st, o, a, b, t, late);
        r.Ok? && r.value.state.store == st && r.value.state.reconciled == {}
    {
      var d := DomainOf(o, a, b);
      BucketsQuiet(BucketKeys(st, d), d, o, Run(st, {}, [], t), late);
    }
  }

  /** With a deadline that never passes and a call that always succeeds, the sweep runs every window. */
  lemma {:induction false} SlideOnTime(start: int, endDate: int, maxDays: int, call: Call, p: WindowFact, s: Sweep, late: Oracle)
    requires Establishes(call, p) && UniqueEntryIds(s.store) && forall n :: !late(n)
    ensures var r := Slide(start, endDate, maxDays, call, s, late);
      r.Ok? && !r.value.timedOut
    decreases if start <= endDate then endDate - start + 1 else 0
  {
    if start <= endDate {
      var end := WindowEnd(start, maxDays, endDate);
      var next := Advance(s, start, end, call(s.store, start, end, s.t).value);
      SlideOnTime(start + Step(maxDays), endDate, maxDays, call, p, next, late);
    }
  }

  /** A sweep whose call keeps the dates keeps them. */
  lemma SlideKeepsDates(start: int, endDate: int, maxDays: int, call: Call, s: Sweep, late: Oracle)
    requires KeepsDates(call) && UniqueEntryIds(s.store)
    ensures var r := Slide(start, endDate, maxDays, call, s, late);
      r.Ok? ==> SameDates(s.store, r.value.state.store)
  {
    var inv := (x: Sweep) => UniqueEntryIds(x.store) && SameDates(s.store, x.store);
    forall x: Sweep, a: int, b: int | inv(x) && call(x.store, a, b, x.t).Ok?
      ensures inv(Advance(x, a, b, call(x.store, a, b, x.t).value))
    {
      SameDatesTrans(s.store, x.store, call(x.store, a, b, x.t).value.state.store);
    }
    SlideKeep(start, endDate, maxDays, call, s, late, inv);
  }

  /** The rest of a sweep keeps the fact `p` of a window that has it. */
  lemma SlideKeepsFact(start: int, endDate: int, maxDays: int, call: Call, p: WindowFact, s: Sweep, late: Oracle, a': int, b': int)
    requires Establishes(call, p) && Preserves(call, p) && UniqueEntryIds(s.store) && p(s.store, a', b')
    ensures var r := Slide(start, endDate, maxDays, call, s, late);
      r.Ok? ==> p(r.value.state.store, a', b')
  {
    var inv := (x: Sweep) => UniqueEntryIds(x.store) && p(x.store, a', b');
    SlideKeep(start, endDate, maxDays, call, s, late, inv);
  }

  /** With a call that establishes and preserves the fact `p`, every window the sweep adds has `p` in the final store. */
  lemma SlideWindowFacts(start: int, endDate: int, maxDays: int, call: Call, p: WindowFact, s: Sweep, late: Oracle)
    requires Establishes(call, p) && Preserves(call, p) && UniqueEntryIds(s.store)
    ensures var r := Slide(start, endDate, maxDays, call, s, late);
      r.Ok? ==> forall i :: |s.windows| <= i < |r.value.state.windows| ==>
        p(r.value.state.store, r.value.state.windows[i].from, r.value.state.windows[i].to)
  {
    var k := |s.windows|;
    var inv := (x: Sweep) =>
      UniqueEntryIds(x.store) && forall i :: k <= i < |x.windows| ==> p(x.store, x.windows[i].from, x.windows[i].to);
    forall x: Sweep, a: int, b: int | inv(x) && call(x.store, a, b, x.t).Ok?
      ensures inv(Advance(x, a, b, call(x.store, a, b, x.t).value))
    {
      var y := Advance(x, a, b, call(x.store, a, b, x.t).value);
      forall i | k <= i < |y.windows| ensures p(y.store, y.windows[i].from, y.windows[i].to) {
        if i < |x.windows| {
          assert y.windows[i] == y.windows[..|x.windows|][i] == x.windows[i];
        }
      }
    }
    SlideKeep(start, endDate, maxDays, call, s, late, inv);
  }

  /** Windows laid out as the loop lays them out from `start`, each with the fact `p`: every window from `start` on has it. */
  lemma {:induction false} FactFromWindows(ws: seq<Window>, i: nat, start: int, endDate: int, maxDays: int, f: seq<Entry>, p: WindowFact)
    requires i <= |ws|
    requires i < |ws| ==> ws[i].from == start
    requires forall j :: i <= j < |ws| ==> ws[j].to == WindowEnd(ws[j].from, maxDays, endDate) && p(f, ws[j].from, ws[j].to)
    requires forall j :: i <= j < |ws| - 1 ==> ws[j + 1].from == ws[j].from + Step(maxDays)
    requires if i < |ws| then ws[|ws| - 1].from + Step(maxDays) > endDate else start > endDate
    ensures FactFrom(start, endDate, maxDays, f, p)
    decreases |ws| - i
  {
    if i < |ws| {
      FactFromWindows(ws, i + 1, start + Step(maxDays), endDate, maxDays, f, p);
    }
  }

  /**
   * With a call that establishes and preserves the fact `p`, every window
   * of a sweep that runs to the end has `p` in the final store.
   */
  lemma SlideEstablishes(start: int, endDate: int, maxDays: int, call: Call, p: WindowFact, s: Sweep, late: Oracle)
    requires Establishes(call, p) && Preserves(call, p) && UniqueEntryIds(s.store)
    ensures var r := Slide(start, endDate, maxDays, call, s, late);
      r.Ok? && !r.value.timedOut ==> FactFrom(start, endDate, maxDays, r.value.state.store, p)
  {
    SlideWindows(start, endDate, maxDays, call, s, late);
    SlideWindowFacts(start, endDate, maxDays, call, p, s, late);
    var r := Slide(start, endDate, maxDays, call, s, late);
    if r.Ok? && !r.value.timedOut {
      FactFromWindows(r.value.state.windows, |s.windows|, start, endDate, maxDays, r.value.state.store, p);
    }
  }

  /** With a call that is quiet on windows with the fact `p`, a sweep over such windows returns no id and leaves the store as it is. */
  lemma {:induction false} SlideQuiet(start: int, endDate: int, maxDays: int, call: Call, p: WindowFact, s: Sweep, late: Oracle)
    requires CallQuiet(call, p) && FactFrom(start, endDate, maxDays, s.store, p)
    ensures var r := Slide(start, endDate, maxDays, call, s, late);
      r.Ok? && r.value.state.store == s.store && AllIds(r.value.state.windows) == AllIds(s.windows)
    decreases if start <= endDate then endDate - start + 1 else 0
  {
    if start <= endDate {
      var end := WindowEnd(start, maxDays, endDate);
      var h := call(s.store, start, end, s.t).value;
      var next := Advance(s, start, end, h);
      assert next.windows[..|next.windows| - 1] == s.windows;
      if !late(h.state.t) {
        SlideQuiet(start + Step(maxDays), endDate, maxDays, call, p, next, late);
        assert Slide(start, endDate, maxDays, call, s, late) == Slide(start + Step(maxDays), endDate, maxDays, call, next, late);
      }
    }
  }

  /**
   * The sweep run twice over the same dates, rules off, the first time with
   * a deadline that never passes: the second sweep returns no id and leaves
   * the store as the first one left it.
   */
  lemma SlideRerun(start: int, endDate: int, maxDays: int, o: Options, store: seq<Entry>,
                   t: nat, late: Oracle, t2: nat, late2: Oracle)
    requires UniqueEntryIds(store) && !o.useRules && forall n :: !late(n)
    ensures var r := Slide(start, endDate, maxDays, CallOf(o, late), Sweep(store, [], t), late);
      && r.Ok? && !r.value.timedOut && SameDates(store, r.value.state.store)
      && var again := Slide(start, endDate, maxDays, CallOf(o, late2), Sweep(r.value.state.store, [], t2), late2);
         again.Ok? && again.value.state.store == r.value.state.store && AllIds(again.value.state.windows) == {}
  {
    CallOfEstablishes(o, late);
    CallOfPreserves(o, late);
    CallOfKeepsDates(o, late);
    CallOfQuiet(o, late2);
    var first := Sweep(store, [], t);
    SlideOnTime(start, endDate, maxDays, CallOf(o, late), Spent(o), first, late);
    SlideKeepsDates(start, endDate, maxDays, CallOf(o, late), first, late);
    SlideEstablishes(start, endDate, maxDays, CallOf(o, late), Spent(o), first, late);
    var f := Slide(start, endDate, maxDays, CallOf(o, late), first, late).value.state.store;
    SlideQuiet(start, endDate, maxDays, CallOf(o, late2), Spent(o), Sweep(f, [], t2), late2);
  }

  /**
   * Running the wizard a second time with the same form, rules off, after a
   * run the deadline did not cut short: the second run takes the same dates,
   * returns no id and leaves the store as it is, whatever its clock does.
   */
  lemma DoReconcileRerun(store: seq<Entry>, o: Options, maxDays: int, startDate: Option<int>, endDate: Option<int>,
                         t: nat, late: Oracle, t2: nat, late2: Oracle)
    requires UniqueEntryIds(store) && !o.useRules && forall n :: !late(n)
    ensures var r := DoReconciled(store, o, maxDays, startDate, endDate, t, late);
      && r.Ok?
      && (r.value.Finished? ==>
            && !r.value.sweep.timedOut
            && var f := r.value.sweep.state.store;
               var again := DoReconciled(f, o, maxDays, startDate, endDate, t2, late2);
               && again.Ok? && again.value.Finished?
               && again.value.sweep.state.store == f
               && AllIds(again.value.sweep.state.windows) == {})
  {
    if !((startDate.None? || endDate.None?) && store == []) {
      var start := if startDate.Some? then startDate.value else MinDate(store);
      var end := if endDate.Some? then endDate.value else MaxDate(store);
      SlideRerun(start, end, maxDays, o, store, t, late, t2, late2);
      var first := Slide(start, end, maxDays, CallOf(o, late), Sweep(store, [], t), late).value;
      assert DoReconciled(store, o, maxDays, startDate, endDate, t, late) == Ok(Finished(first));
      var f := first.state.store;
      if store != [] {
        SameMinDate(store, f);
        SameMaxDate(store, f);
      }
      var second := Slide(start, end, maxDays, CallOf(o, late2), Sweep(f, [], t2), late2).value;
      assert DoReconciled(f, o, maxDays, startDate, endDate, t2, late2) == Ok(Finished(second));
    }
  }

  // ---------------------------------------------------------------------------
  // The loop

  /** The `while start <= end_date` loop of `do_reconcile`. */
  method Sweeping(first: int, last: int, maxDays: int, o: Options, store: seq<Entry>, t0: nat, late: Oracle,
                  ghost call: Call)
    returns (result: Result<Halt<Sweep>, Error>)
    requires UniqueEntryIds(store)
    requires forall st: seq<Entry>, a: int, b: int, t: nat {:trigger Reconciled(st, o, a, b, t, late)} ::
      call(st, a, b, t) == Reconciled(st, o, a, b, t, late)
    ensures result == Slide(first, last, maxDays, call, Sweep(store, [], t0), late)
  {
    ghost var total := Slide(first, last, maxDays, call, Sweep(store, [], t0), late);
    var start, sweep := first, Sweep(store, [], t0);
    while start <= last
      invariant UniqueEntryIds(sweep.store)
      invariant Slide(start, last, maxDays, call, sweep, late) == total
      decreases last - start + 1
    {
      var end := WindowEnd(start, maxDays, last);
      ReconciledUnique(sweep.store, o, start, end, sweep.t, late);
      var res := Reconciliation(sweep.store, o, start, end, sweep.t, late);
      SlideNext(start, last, maxDays, call, sweep, late, res);
      if res.Err? {
        return Err(res.error);
      }
      var h := res.value;
      sweep := Advance(sweep, start, end, h);
      if late(h.state.t) {
        return Ok(Halt(sweep, true));
      }
      start := start + Step(maxDays);
    }
    result := Ok(Halt(sweep, false));
  }

  /** `do_reconcile`: the wizard's transition, returning the sweep it made (the `res_id` list is its windows' ids in order). */
  method DoReconcile(store: seq<Entry>, o: Options, maxDays: int, startDate: Option<int>, endDate: Option<int>,
                     t0: nat, late: Oracle) returns (result: Result<Outcome, Error>)
    requires UniqueEntryIds(store)
    ensures result == DoReconciled(store, o, maxDays, startDate, endDate, t0, late)
  {
    var first: int;
    if startDate.Some? {
      first := startDate.value;
    } else {
      if store == [] {
        return Ok(NoLines);
      }
      first := MinDate(store);
    }
    var last: int;
    if endDate.Some? {
      last := endDate.value;
    } else {
      if store == [] {
        return Ok(NoLines);
      }
      last := MaxDate(store);
    }
    var sweep := Sweeping(first, last, maxDays, o, store, t0, late, CallOf(o, late));
    if sweep.Err? {
      return Err(sweep.error);
    }
    result := Ok(Finished(sweep.value));
  }
}

# Move reconciliation wizard — a verified model

This project models the reconciliation engine of the `account_reconcile`
Tryton module (`account.py`). That engine is the `ReconcileMoves` wizard
together with its start form, `ReconcileMovesStart`.

`do_reconcile` slides a date window over the ledger. It runs
`reconciliation` on each window until it passes the end date or the time
budget runs out.

`reconciliation` splits the open, reconcilable move lines of the window
into (account, party) buckets. For each bucket it runs two passes:

- **The rule pass.** It compiles the account's reconcile rules and extracts
  a token from each line's description. It then reconciles every token
  group that has more than one line and sums to exactly zero.
- **The combination pass.** It enumerates the 2-, 3-, …, `max_lines`-element
  combinations of the bucket's remaining lines in date order. It reconciles
  every combination that sums to exactly zero and shares no line with one
  already reconciled.

## Modules

- `Ledger` (`ledger.dfy`): the move lines, the filtered searches, the
  grouped query and the reconcile commit. The line table is a value, a
  sequence of entries. Its listing order stands for the `ORDER BY date`
  of every search.
- `Deadline` (`deadline.dfy`): the wall clock. Each `datetime.now() > timeout`
  test is one numbered reading. An oracle `late(t)` says whether the
  deadline had passed at reading `t`.
- `Combinations` (`combinations.dfy`): `itertools.combinations` as a function, with its enumeration order (by position, lexicographic, no repeats).
- `CombinationSearch` (`combination_search.dfy`): the combination pass.
- `RuleMatch` (`rule_match.dfy`): the regular-expression rule pass.
- `Reconcile` (`reconcile.dfy`): `reconciliation`, bucket by bucket.
- `Windows` (`windows.dfy`): `do_reconcile`.
- `Settings` (`settings.dfy`): the start form's selection and defaults.

## How each loop is modelled

Every loop of `account.py` that the reconciliation depends on is a method
with a `while` loop. The two bookkeeping loops that add ids to `reconciled`
(account.py:185-186) and remove committed lines (account.py:212-214) are a
set union and `Without`. Each method is
proved equal to a recursive specification function:

| method | specification function |
|---|---|
| `Collect` | `Collected` |
| `Settle` | `Settled` |
| `SearchSize` / `Search` | `Scan` / `Pass` |
| `Reconciliation` | `Reconciled` |
| `Sweeping` / `DoReconcile` | `Slide` / `DoReconciled` |

What the source promises is then proved as lemmas about those functions:

- Every committed group balances and is drawn from its bucket.
- No line is reconciled twice.
- The store afterwards is the store before, with exactly the returned lines
  reconciled.
- The windows cover the date range.

## Notes on what the code does

- **Token spaces.** `match.group(1).replace(' ', '')` (account.py:168)
  removes only the space character U+0020. Tabs and other whitespace stay in
  the token. `RuleMatch.RemoveSpaces` removes only `' '`.
- **A deadline already past.** The rule pass reads the clock only at every
  10,000th line and every 10,000th token group (account.py:157-163,
  173-179). So with rules on, a call whose deadline has already passed can
  still reconcile rule groups. The combination pass reads the clock before
  every size (account.py:191-193). So with rules off, such a call reconciles
  nothing (`Reconcile.LateCommitsNothing`).
- **Lines for the combination pass.** After the rule pass, the combination
  pass re-fetches the bucket's open lines (account.py:188). Every line the
  rule pass left unreconciled is a candidate, including lines that had a
  token.
- **Everything eligible is reconciled.** Within a size, each combination
  that sums to zero and shares no line with one already reconciled is
  reconciled in its turn. A pass the deadline does not cut short leaves no
  combination of 2 to `max_lines` open lines that sums to zero
  (`CombinationSearch.PassComplete`).
- **Running the wizard twice.** With rules off, a second run of the wizard
  with the same form, after a run the deadline did not cut short, reconciles
  nothing and leaves the store as it is, whatever its clock does
  (`Windows.DoReconcileRerun`). The second run takes the same first and last
  dates: reconciling lines changes no date, so the earliest and latest line
  dates stay the same. Its windows are then the same windows, and the first
  run left each of them with no balancing combination. The same holds for a
  single `reconciliation` call over one date range
  (`Reconcile.RerunCommitsNothing`). With rules on, this does not
  hold. Take the bucket [+10 "Inv 1", +20 "Inv 1", -30 "Inv 1", +7 "Inv 1",
  -7 without a description], the rule `Inv (\d+)` and `max_lines` 2:
  - The first run skips the token group "1", which sums to 7
    (account.py:181-183). It then reconciles the pair (+7, -7)
    (account.py:206-214).
  - The second run finds the token group {+10, +20, -30}, which now sums to
    zero, and reconciles it.
- **A bad rule and the deadline.** A rule that does not compile fails the
  call only when its bucket is reached (account.py:145-152). With a deadline
  that never passes, a call with rules on fails exactly when some bucket's
  account has such a rule (`Reconcile.ReconciliationFails`). When the
  deadline ends the call in an earlier bucket, the bad rule is never
  compiled and the call returns what it reconciled.
- **A negative `max_days`.** The form accepts any integer (account.py:48).
  With a negative value every window ends before it starts, so its call
  finds no line. The loop then advances one day at a time
  (`Windows.NegativeDaysEmptyWindows`, `Reconcile.EmptyRangeCommitsNothing`).

## Model

| member | source | states |
|---|---|---|
| Ledger.Fetch | account.py:108-138 | the bucket search returns exactly the store's lines in the call's domain (company, reconcilable account, unreconciled, date range, selected accounts and parties) with the bucket's account and party |
| Ledger.BucketKeys | account.py:126-132 | the grouped query yields each (account, party) key of an open line in the domain exactly once, and only keys that some such line has |
| Ledger.FetchSorted | account.py:253-257 | a search over a date-ordered store returns its lines in ascending date order (`_get_lines_order`) |
| Ledger.OpenIdsMark | account.py:184-186 | after `Line.reconcile`, the open lines are the ones open before minus the reconciled ids |
| Ledger.FetchAfterCommit | account.py:187-189 | re-fetching a bucket after commits gives the earlier pairs without the reconciled ids, in the same order |
| Ledger.MarkMark | account.py:184-186 | two successive commits reconcile the union of their ids |
| Combinations.CombosExactly | account.py:197 | `combinations(lines, size)` yields a sequence exactly when it is a size-element subsequence of `lines` (both directions) |
| Combinations.CombosCount | account.py:197 | the number of combinations is the binomial coefficient C(\|lines\|, size) |
| Combinations.CombosAtPositions | account.py:197 | the i-th combination of `lines` holds the lines at the positions listed by the i-th combination of the positions themselves |
| Combinations.CombosLexOrder | account.py:197 | over an increasing pool (such as positions) the combinations come in strictly increasing lexicographic order |
| Combinations.CombosOrder | account.py:197 | `combinations(lines, size)` follows `itertools` order: combination i picks the lines at position list i, the position lists are strictly increasing lexicographically, and no position list repeats |
| Combinations.CombosNoRepeats | account.py:197 | over lines with distinct ids no combination is listed twice |
| CombinationSearch.SearchSize | account.py:197-214 | the loop over one size's combinations computes `Scan`: count each, read the clock on every 10,000,000th, commit a balancing combination disjoint from `reconciled` and remove its lines from the live list |
| CombinationSearch.Search | account.py:187-214 | the combination pass computes `Pass`; every committed group balances, has 2..max_lines lines of the bucket, is disjoint from the others and from the ids reconciled before; the live list is the bucket without the committed ids; a deadline passed at the start commits nothing |
| CombinationSearch.PassCommitted | account.py:190-214 | the same invariant for the pass function over all sizes, and that a deadline already passed at the first size commits no group |
| CombinationSearch.ScanCommitsFirst | account.py:197-214 | within one size, the first group committed is the first combination that balances and shares no reconciled id, and one is committed whenever such a combination exists and the deadline does not intervene |
| CombinationSearch.ScanComplete | account.py:197-214 | unless the deadline cuts it short, a size's enumeration leaves no combination that sums to zero and avoids the ids reconciled by its end; the reconciled ids only grow |
| CombinationSearch.PassComplete | account.py:190-214 | unless the deadline cuts it short, the pass leaves no combination of 2 to max_lines live lines that sums to zero |
| CombinationSearch.PassNone | account.py:197-214 | on a bucket with no balancing combination of 2 to max_lines lines, the pass reconciles nothing and keeps its live list |
| RuleMatch.RulesFor | account.py:141-144 | the rule search returns exactly the rules of the bucket's account and the user's company |
| RuleMatch.CompiledMeaning | account.py:145-152 | compilation succeeds exactly when every rule's expression compiles, and then yields the expressions in order; otherwise the error names the expression and id of the first rule that does not compile |
| RuleMatch.Compile | account.py:145-152 | the compile loop computes `Compiled` |
| RuleMatch.RemoveSpacesIdempotent | account.py:168 | removing the spaces of a token twice is the same as once |
| RuleMatch.FindToken | account.py:164-170 | the inner loop returns group 1 of the first expression that matches, with its spaces removed, and no match when none does; the token has no space |
| RuleMatch.Collect | account.py:154-170 | the first loop computes `Collected`: count each line, read the clock on every 10,000th, file the line under its token |
| RuleMatch.CollectedGroups | account.py:154-170 | unless the deadline cuts it short, the dictionary has each token once among its keys, maps each token to exactly the lines with that token in their order, and has no key for a token without lines |
| RuleMatch.TokenGroupsDisjoint | account.py:169 | token groups of different tokens share no line |
| RuleMatch.Settle | account.py:171-186 | the second loop computes `Settled`: count each token group, read the clock on every 10,000th, reconcile a group of more than one line whose amounts sum to zero |
| RuleMatch.SettledComplete | account.py:171-186 | unless the deadline cuts it short, every token group with more than one line and a zero sum is committed |
| RuleMatch.RulePassSound | account.py:153-186 | the rule pass commits only whole balancing token groups, disjoint from each other and from the ids reconciled before, and, without a timeout, all of them |
| RuleMatch.MatchRules | account.py:153-186 | the two loops together compute `RulePass` |
| Reconcile.Reconciliation | account.py:101-215 | the bucket loop computes `Reconciled` |
| Reconcile.ReconciliationSound | account.py:101-215 | every commit of a call balances, has at least two lines (at most max_lines for a combination), has distinct lines of its bucket in the call's domain, and no two commits share a line; the store afterwards has exactly the returned ids reconciled, and all of them were open lines |
| Reconcile.ReconciliationError | account.py:145-152 | a call fails only with rules enabled, and then with the error of the first non-compiling rule of some bucket's account |
| Reconcile.LateCommitsNothing | account.py:187-194 | with rules off and a deadline already passed, a call commits nothing and returns no id |
| Reconcile.ReconciliationFails | account.py:145-152 | with rules on and a deadline that never passes, a call fails exactly when some bucket's account has a rule whose expression does not compile |
| Reconcile.ReconciledExhausts | account.py:187-214 | with rules off, combinations on and a deadline that never passes, a call leaves no bucket of its domain with a combination of 2 to max_lines open lines that sums to zero |
| Reconcile.RerunCommitsNothing | account.py:101-215 | with rules off, a second call over the same dates and filters, after one the deadline did not cut short, reconciles nothing and leaves the store as it is |
| Reconcile.EmptyRangeCommitsNothing | account.py:108-132 | a call whose first date is after its last finds no bucket and returns with the store unchanged and nothing reconciled |
| Windows.Step | account.py:248 | the window advance `max(1, max_days // 2)` is at least 1 and at least `max_days // 2`, and at most max_days + 1 when max_days >= 0 |
| Windows.WindowEnd | account.py:238-240 | a window ends at `min(start + max_days, end_date)` |
| Windows.MinDate | account.py:221-226 | the default start date is the date of an existing line and no line is earlier |
| Windows.MaxDate | account.py:227-232 | the default end date is the date of an existing line and no line is later |
| Windows.Sweeping | account.py:233-248 | the window loop computes `Slide` |
| Windows.DoReconcile | account.py:217-251 | `do_reconcile` computes `DoReconciled` |
| Windows.SlideWindows | account.py:237-248 | the windows start at the start date, each starts by `Step(max_days)` after the previous one, each ends at `WindowEnd` and starts no later than the end date, and without a timeout the last start plus one step is past the end date |
| Windows.SlideCovers | account.py:237-248 | without a timeout, every day from the start date to the end date lies in some window (for max_days >= 0) |
| Windows.AlwaysLateOneWindow | account.py:243-247 | a deadline that has always passed stops the loop after one window |
| Windows.NegativeDaysEmptyWindows | account.py:238-248 | with a negative max_days the step is one day and every window ends before it starts |
| Windows.SlideSound | account.py:243-244 | over the whole sweep, the store has exactly the returned ids reconciled, they were all open lines, and no id is returned by two windows |
| Windows.DoReconcileSound | account.py:217-251 | the same for `do_reconcile`, which ends without a result exactly when a date is missing and there is no line |
| Windows.DoReconcileRerun | account.py:217-251 | with rules off, running the wizard again with the same form after a run the deadline did not cut short returns no id and leaves the store as it is |
| Windows.SlideRerun | account.py:233-248 | the window loop run twice over the same dates, rules off, the first time to the end: the second sweep returns no id and changes no line |
| Windows.SlideEstablishes | account.py:237-248 | when each window's call leaves its own window with a fact and keeps that fact for earlier windows, every window of a sweep that runs to the end has it in the final store |
| Windows.SlideQuiet | account.py:237-248 | a sweep whose windows all have nothing left to find returns no id and leaves the store as it is |
| Windows.CallOfEstablishes | account.py:243 | with rules off, combinations on and no deadline, the wizard's call leaves its window with no balancing combination (with combinations off the window counts as spent, because its call finds nothing) |
| Windows.CallOfPreserves | account.py:243 | the wizard's call only reconciles lines, so a window with no balancing combination keeps none |
| Settings.MaxLines | account.py:39-45 | `int(max_lines)` of a selection key is between 2 and 6 and is the key's position plus 2 |
| Settings.OptionsOf | account.py:108-121 | the options a call reads keep the form's switches and a max_lines between 2 and 6 |
| Settings.DefaultsValid | account.py:60-74 | the defaults are a valid form: two lines, 61-day windows 30 days apart, five minutes, combinations on, rules off |
| Settings.FormBoundsGroups | account.py:39-45 | with any form, every committed group balances and has 2 to 6 lines when the combination pass committed it |

## Left out

- The ORM, the SQL query builder and the `Line.reconcile` write. The store
  is a value and a commit sets the lines' `reconciled` flag. The
  reconciliation record, the write-off and the currency checks that
  `Line.reconcile` performs are not part of this model.
- A failed `Line.reconcile` raising and rolling back the transaction is left
  out. Every commit succeeds in the model.
- The `re` library is a parameter: whether an expression compiles, and
  capture group 1 of the first match. Every match is assumed to carry a
  group 1 string. Two crashes of the code are not modelled:
  - An expression without a capturing group can compile and match (for
    example `Invoice \d+`, or the empty expression). `match.group(1)` then
    raises `IndexError` (account.py:168).
  - A match in which group 1 did not take part makes `match.group(1)` return
    `None`, and `.replace` then raises `AttributeError`.
- The wall clock and `datetime.now() + timeout` are replaced by the oracle
  `late(t)`. The five-minute default is a constant of the form only.
- Logging (`logger.info`) is left out.
- SQL leaves the order of `GROUP BY` rows open. The model takes the order of
  first appearance in the store.
- The order of lines with equal dates is left to the store's listing order,
  as SQL leaves it.
- Amounts are integers: `Decimal` debits and credits scaled to a common
  unit, so the exact-zero tests stay exact.
- Reconcile.Reconciliation: requires that the store's line ids are distinct,
  as database primary keys are.
- Windows.DoReconcile: requires that the store's line ids are distinct, as
  database primary keys are.
- Windows.Sweeping: requires that the store's line ids are distinct, as
  database primary keys are.
- Searches return lines in the store's listing order. The searches of
  account.py:138 and 188 ask the database for `ORDER BY date`
  (account.py:253-257). The model does not require the store to be sorted by
  date. On a date-sorted store every fetch is in ascending date order
  (`Ledger.FetchSorted`), and then the combination order is the code's. On an
  unsorted store the listing order stands in for the database's order.
- Dates are integers (day numbers). `relativedelta(days=n)` is `+ n`.
- The wizard's result, `{'res_id': reconciled}`, is the sequence of windows
  with each window's returned ids. The flattened list is their
  concatenation in window order.
- The wizard's views, buttons and `default_company` (which reads the
  context) are left out. The company is a parameter of the options.
- The `Reconcile Rule` model's own fields and domains are left out. A rule
  is its id, company, account and expression.

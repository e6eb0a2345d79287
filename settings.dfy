/**
 * The start form of the wizard (`ReconcileMovesStart`): the bounds of its
 * fields, its defaults, and how the reconciliation reads it.
 */
module Settings {
  import opened Ledger
  import opened RuleMatch
  import opened Reconcile
  import opened Windows
  import opened Deadline

  /** The keys of the `max_lines` selection, in the form's order. */
  const MaxLinesKeys: seq<string> := ["2", "3", "4", "5", "6"]

  /** The form's fields the engine reads; `timeout` is in minutes. */
  datatype Form = Form(
    maxLines: string,
    maxDays: int,
    timeout: nat,
    useCombinations: bool,
    useRules: bool)

  /** The defaults: two lines, sixty days, five minutes, combinations on; `use_rules` has none and is off. */
  function DefaultForm(): Form {
    Form("2", 60, 5, true, false)
  }

  /** `int(self.start.max_lines)` on a key of the selection. */
  function MaxLines(key: string): (r: nat)
    requires key in MaxLinesKeys
    ensures 2 <= r <= 6
    ensures MaxLinesKeys[r - 2] == key
  {
    (key[0] as int) - ('0' as int)
  }

  /** The options a reconciliation call reads from the form and its context. */
  function OptionsOf(f: Form, company: nat, accounts: set<nat>, parties: set<nat>, userCompany: nat,
                     rules: seq<Rule>, re: Regex): (o: Options)
    requires f.maxLines in MaxLinesKeys
    ensures 2 <= o.maxLines <= 6
    ensures o.useRules == f.useRules && o.useCombinations == f.useCombinations
  {
    Options(company, accounts, parties, MaxLines(f.maxLines), f.useRules, f.useCombinations, userCompany, rules, re)
  }

  /**
   * The defaults are a valid form: `max_lines` is a key of the selection
   * and reads as 2, so the combination pass only tries pairs; the windows
   * span 61 days and start 30 days apart, so consecutive windows overlap.
   */
  lemma DefaultsValid()
    ensures DefaultForm().maxLines in MaxLinesKeys && MaxLines(DefaultForm().maxLines) == 2
    ensures WindowEnd(0, DefaultForm().maxDays, 1000) + 1 == 61 && Step(DefaultForm().maxDays) == 30
    ensures DefaultForm().timeout == 5 && DefaultForm().useCombinations && !DefaultForm().useRules
  {
    assert MaxLinesKeys[0] == "2";
  }

  /**
   * With a form's options, every group a call commits balances and has 2 to
   * 6 lines when the combination pass committed it.
   */
  lemma FormBoundsGroups(store: seq<Entry>, f: Form, company: nat, accounts: set<nat>, parties: set<nat>,
                         userCompany: nat, rules: seq<Rule>, re: Regex, from: int, to: int, t: nat, late: Oracle)
    requires f.maxLines in MaxLinesKeys && UniqueEntryIds(store)
    ensures var o := OptionsOf(f, company, accounts, parties, userCompany, rules, re);
      var r := Reconciled(store, o, from, to, t, late);
      r.Ok? ==> forall g :: g in r.value.state.groups ==>
        Sum(g.members) == 0 && 2 <= |g.members| && (g.kind == ByCombination ==> |g.members| <= 6)
  {
    var o := OptionsOf(f, company, accounts, parties, userCompany, rules, re);
    ReconciliationSound(store, o, from, to, t, late);
  }
}

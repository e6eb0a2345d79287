/**
 * The rule pass of `ReconcileMoves.reconciliation` for one bucket.  The
 * account's rules are compiled first; a rule whose expression does not
 * compile is a user error naming the expression and the rule.  Each line
 * with a description then gets a token from the first rule whose expression
 * matches it: capture group 1 with its spaces removed.  Lines are grouped by
 * token, and a token group is reconciled whole when it has more than one
 * line and its amounts sum to exactly zero.  The clock is read after every
 * 10,000 lines and after every 10,000 token groups.
 */
module RuleMatch {
  import opened Wrappers
  import opened Ledger
  import opened Deadline

  /** The rule pass reads the clock after every this many lines, and after every this many token groups. */
  const RuleCheck: nat := 10000

  /**
   * The `re` library as the pass uses it: whether an expression compiles,
   * and capture group 1 of the first match of a compiled expression in a
   * text (`None` when it does not match).
   */
  datatype Regex = Regex(compiles: string -> bool, search: (string, string) -> Option<string>)

  /** A reconcile rule: the account and company it applies to and its regular expression. */
  datatype Rule = Rule(id: nat, company: nat, account: nat, expression: Option<string>)

  /** The user error raised for a rule whose expression does not compile. */
  datatype Error = WrongExpression(expression: Option<string>, rule: nat)

  // ---------------------------------------------------------------------------
  // Rules and their compilation

  /** The rule search: the rules of one account and company, in the order the rule table holds them. */
  function RulesFor(rules: seq<Rule>, account: nat, company: nat): (r: seq<Rule>)
    ensures forall x :: x in r <==> x in rules && x.account == account && x.company == company
  {
    if rules == [] then []
    else
      (if rules[0].account == account && rules[0].company == company then [rules[0]] else [])
      + RulesFor(rules[1..], account, company)
  }

  /** A missing expression does not compile either: `re.compile(None)` raises too. */
  predicate Compiles(rule: Rule, re: Regex) {
    rule.expression.Some? && re.compiles(rule.expression.value)
  }

  /** The position of the first rule that does not compile, or |rules| when all compile. */
  function FirstBad(rules: seq<Rule>, re: Regex): (i: nat)
    ensures i <= |rules|
    ensures i < |rules| ==> !Compiles(rules[i], re)
    ensures forall j :: 0 <= j < i ==> Compiles(rules[j], re)
    decreases |rules|
  {
    if rules == [] || !Compiles(rules[0], re) then 0 else 1 + FirstBad(rules[1..], re)
  }

  function Compiled(rules: seq<Rule>, re: Regex): Result<seq<string>, Error>
    decreases |rules|
  {
    if rules == [] then Ok([])
    else if !Compiles(rules[0], re) then Err(WrongExpression(rules[0].expression, rules[0].id))
    else match Compiled(rules[1..], re)
      case Ok(rest) => Ok([rules[0].expression.value] + rest)
      case Err(e) => Err(e)
  }

  /**
   * Compilation succeeds exactly when every rule compiles, and then yields
   * the expressions in rule order; otherwise it reports the first rule that
   * does not compile, by expression and id.
   */
  lemma {:induction false} CompiledMeaning(rules: seq<Rule>, re: Regex)
    ensures Compiled(rules, re).Ok? <==> FirstBad(rules, re) == |rules|
    ensures Compiled(rules, re).Ok? ==>
      |Compiled(rules, re).value| == |rules|
      && forall i :: 0 <= i < |rules| ==> rules[i].expression == Some(Compiled(rules, re).value[i])
    ensures Compiled(rules, re).Err? ==>
      var i := FirstBad(rules, re);
      i < |rules| && Compiled(rules, re).error == WrongExpression(rules[i].expression, rules[i].id)
    decreases |rules|
  {
    if rules != [] && Compiles(rules[0], re) {
      CompiledMeaning(rules[1..], re);
      var r := Compiled(rules[1..], re);
      if r.Ok? {
        var v := [rules[0].expression.value] + r.value;
        forall i | 0 <= i < |rules| ensures rules[i].expression == Some(v[i]) {
          if i > 0 { assert rules[i] == rules[1..][i - 1]; }
        }
      }
    }
  }

  /** `for rule in rules: regexes.append(re.compile(rule.expression))`, raising on the first failure. */
  method Compile(rules: seq<Rule>, re: Regex) returns (r: Result<seq<string>, Error>)
    ensures r == Compiled(rules, re)
  {
    var regexes: seq<string> := [];
    var i := 0;
    assert rules[i..] == rules;
    if Compiled(rules, re).Ok? {
      assert [] + Compiled(rules, re).value == Compiled(rules, re).value;
    }
    while i < |rules|
      invariant 0 <= i <= |rules|
      invariant Compiled(rules, re) == Prefixed(regexes, Compiled(rules[i..], re))
    {
      assert rules[i..][0] == rules[i] && rules[i..][1..] == rules[i + 1..];
      var rule := rules[i];
      if !Compiles(rule, re) {
        return Err(WrongExpression(rule.expression, rule.id));
      }
      var rest := Compiled(rules[i + 1..], re);
      if rest.Ok? {
        assert regexes + ([rule.expression.value] + rest.value) == (regexes + [rule.expression.value]) + rest.value;
      }
      regexes := regexes + [rule.expression.value];
      i := i + 1;
    }
    assert rules[i..] == [];
    assert regexes + [] == regexes;
    r := Ok(regexes);
  }

  function Prefixed(pre: seq<string>, r: Result<seq<string>, Error>): Result<seq<string>, Error> {
    if r.Ok? then Ok(pre + r.value) else r
  }

  // ---------------------------------------------------------------------------
  // Tokens

  /** `.replace(' ', '')`: only the space character is removed; other whitespace stays. */
  function RemoveSpaces(s: string): (r: string)
    ensures forall c :: c in r <==> c in s && c != ' '
    ensures |r| <= |s|
  {
    if s == [] then [] else (if s[0] == ' ' then [] else [s[0]]) + RemoveSpaces(s[1..])
  }

  /** A token has no spaces left to remove. */
  lemma {:induction false} RemoveSpacesIdempotent(s: string)
    ensures RemoveSpaces(RemoveSpaces(s)) == RemoveSpaces(s)
    decreases |s|
  {
    if s != [] {
      RemoveSpacesIdempotent(s[1..]);
      var r := RemoveSpaces(s[1..]);
      if s[0] != ' ' {
        assert RemoveSpaces(s) == [s[0]] + r;
        assert ([s[0]] + r)[0] == s[0];
        assert ([s[0]] + r)[1..] == r;
      } else {
        assert RemoveSpaces(s) == r;
      }
    }
  }

  /** The position of the first expression that matches `text`, or |regexes| when none does. */
  function FirstHit(regexes: seq<string>, text: string, re: Regex): (i: nat)
    ensures i <= |regexes|
    ensures i < |regexes| ==> re.search(regexes[i], text).Some?
    ensures forall j :: 0 <= j < i ==> re.search(regexes[j], text).None?
    decreases |regexes|
  {
    if regexes == [] || re.search(regexes[0], text).Some? then 0
    else 1 + FirstHit(regexes[1..], text, re)
  }

  /** The token of a text: group 1 of the first matching expression, spaces removed. */
  function TokenOf(regexes: seq<string>, text: string, re: Regex): Option<string> {
    var i := FirstHit(regexes, text, re);
    if i < |regexes| then Some(RemoveSpaces(re.search(regexes[i], text).value)) else None
  }

  /** `if line.description:` is false for a missing and for an empty description. */
  predicate HasDescription(e: Entry) {
    e.description.Some? && e.description.value != ""
  }

  function LineToken(e: Entry, regexes: seq<string>, re: Regex): Option<string> {
    if HasDescription(e) then TokenOf(regexes, e.description.value, re) else None
  }

  /** The token of one description: the inner `for regex in regexes` loop, which stops at the first match. */
  method FindToken(regexes: seq<string>, text: string, re: Regex) returns (token: Option<string>)
    ensures token == TokenOf(regexes, text, re)
    ensures token.Some? ==> ' ' !in token.value
  {
    var j := 0;
    while j < |regexes|
      invariant 0 <= j <= |regexes|
      invariant forall k :: 0 <= k < j ==> re.search(regexes[k], text).None?
    {
      var m := re.search(regexes[j], text);
      if m.Some? {
        return Some(RemoveSpaces(m.value));
      }
      j := j + 1;
    }
    return None;
  }

  // ---------------------------------------------------------------------------
  // Grouping the lines by token

  /** The `numbers` dictionary (its keys in insertion order), the line counter and the clock readings. */
  datatype Tokens = Tokens(keys: seq<string>, byToken: map<string, seq<Entry>>, count: nat, t: nat)

  /** `numbers.setdefault(token, []).append(line)`. */
  function SetDefaultAppend(tk: Tokens, token: string, e: Entry): Tokens {
    if token in tk.byToken then tk.(byToken := tk.byToken[token := tk.byToken[token] + [e]])
    else tk.(keys := tk.keys + [token], byToken := tk.byToken[token := [e]])
  }

  /** The dictionary after filing line `e`: under its token when it has one. */
  function Filed(tk: Tokens, e: Entry, regexes: seq<string>, re: Regex): Tokens {
    match LineToken(e, regexes, re)
    case Some(token) => SetDefaultAppend(tk, token, e)
    case None => tk
  }

  /** The line counter and clock after counting one more line: the clock is read on every RuleCheck-th line. */
  function Counted(tk: Tokens): Tokens {
    var count := tk.count + 1;
    tk.(count := count, t := if count % RuleCheck == 0 then tk.t + 1 else tk.t)
  }

  /** The first loop of the rule pass, over the bucket's lines. */
  function Collected(lines: seq<Entry>, regexes: seq<string>, tk: Tokens, late: Oracle, re: Regex): (h: Halt<Tokens>)
    requires forall k :: k in tk.keys <==> k in tk.byToken
    ensures forall k :: k in h.state.keys <==> k in h.state.byToken
    decreases |lines|
  {
    if lines == [] then Halt(tk, false)
    else if Counted(tk).count % RuleCheck == 0 && late(tk.t) then Halt(Counted(tk), true)
    else Collected(lines[1..], regexes, Filed(Counted(tk), lines[0], regexes, re), late, re)
  }

  /** One turn of the first loop. */
  lemma CollectedTurn(lines: seq<Entry>, regexes: seq<string>, tk: Tokens, late: Oracle, re: Regex)
    requires lines != [] && forall k :: k in tk.keys <==> k in tk.byToken
    ensures Collected(lines, regexes, tk, late, re)
         == if Counted(tk).count % RuleCheck == 0 && late(tk.t) then Halt(Counted(tk), true)
            else Collected(lines[1..], regexes, Filed(Counted(tk), lines[0], regexes, re), late, re)
  {
  }

  /** The lines of `lines` whose token is `token`, in their order. */
  function WithToken(lines: seq<Entry>, token: string, regexes: seq<string>, re: Regex): seq<Entry>
    decreases |lines|
  {
    if lines == [] then []
    else
      var last := lines[|lines| - 1];
      WithToken(lines[..|lines| - 1], token, regexes, re)
      + (if LineToken(last, regexes, re) == Some(token) then [last] else [])
  }

  /** The dictionary after `prefix`: each token seen once among the keys, mapped to exactly its lines, none of them empty. */
  ghost predicate Grouped(prefix: seq<Entry>, tk: Tokens, regexes: seq<string>, re: Regex) {
    && (forall i, j :: 0 <= i < j < |tk.keys| ==> tk.keys[i] != tk.keys[j])
    && (forall k :: k in tk.keys <==> k in tk.byToken)
    && (forall k :: k in tk.byToken ==> tk.byToken[k] == WithToken(prefix, k, regexes, re))
    && (forall k :: k in tk.byToken ==> tk.byToken[k] != [])
    && (forall k :: k !in tk.byToken ==> WithToken(prefix, k, regexes, re) == [])
  }

  lemma WithTokenSnoc(prefix: seq<Entry>, e: Entry, token: string, regexes: seq<string>, re: Regex)
    ensures WithToken(prefix + [e], token, regexes, re)
         == WithToken(prefix, token, regexes, re) + (if LineToken(e, regexes, re) == Some(token) then [e] else [])
  {
    assert (prefix + [e])[..|prefix|] == prefix;
  }

  /** Filing one more line keeps the dictionary grouped: the line joins exactly its token's group. */
  lemma CollectStep(prefix: seq<Entry>, e: Entry, tk: Tokens, regexes: seq<string>, re: Regex)
    requires Grouped(prefix, tk, regexes, re)
    ensures Grouped(prefix + [e], Filed(tk, e, regexes, re), regexes, re)
  {
    forall k ensures WithToken(prefix + [e], k, regexes, re)
                  == WithToken(prefix, k, regexes, re) + (if LineToken(e, regexes, re) == Some(k) then [e] else []) {
      WithTokenSnoc(prefix, e, k, regexes, re);
    }
    if LineToken(e, regexes, re).Some? {
      FileToken(prefix, e, tk, LineToken(e, regexes, re).value, regexes, re);
    }
  }

  lemma FileToken(prefix: seq<Entry>, e: Entry, tk: Tokens, token: string, regexes: seq<string>, re: Regex)
    requires Grouped(prefix, tk, regexes, re) && LineToken(e, regexes, re) == Some(token)
    requires forall k :: WithToken(prefix + [e], k, regexes, re)
                      == WithToken(prefix, k, regexes, re) + (if LineToken(e, regexes, re) == Some(k) then [e] else [])
    ensures Grouped(prefix + [e], SetDefaultAppend(tk, token, e), regexes, re)
  {
    if token in tk.byToken {
      assert SetDefaultAppend(tk, token, e).keys == tk.keys;
      AppendNonEmpty(tk, token, e);
    } else {
      FileNewToken(prefix, e, tk, token, regexes, re);
    }
  }

  lemma FileNewToken(prefix: seq<Entry>, e: Entry, tk: Tokens, token: string, regexes: seq<string>, re: Regex)
    requires Grouped(prefix, tk, regexes, re) && LineToken(e, regexes, re) == Some(token) && token !in tk.byToken
    requires forall k :: WithToken(prefix + [e], k, regexes, re)
                      == WithToken(prefix, k, regexes, re) + (if LineToken(e, regexes, re) == Some(k) then [e] else [])
    ensures Grouped(prefix + [e], SetDefaultAppend(tk, token, e), regexes, re)
  {
    NewTokenKeys(tk, token, e);
    NewTokenGroups(prefix, e, tk, token, regexes, re);
    AppendNonEmpty(tk, token, e);
  }

  /** A new token is appended to the keys once, and the keys stay those of the dictionary. */
  lemma NewTokenKeys(tk: Tokens, token: string, e: Entry)
    requires forall i, j :: 0 <= i < j < |tk.keys| ==> tk.keys[i] != tk.keys[j]
    requires forall k :: k in tk.keys <==> k in tk.byToken
    requires token !in tk.byToken
    ensures var n := SetDefaultAppend(tk, token, e);
      && (forall i, j :: 0 <= i < j < |n.keys| ==> n.keys[i] != n.keys[j])
      && (forall k :: k in n.keys <==> k in n.byToken)
  {
    var n := SetDefaultAppend(tk, token, e);
    assert n.keys == tk.keys + [token];
    assert forall i :: 0 <= i < |tk.keys| ==> n.keys[i] == tk.keys[i];
  }

  /** A new token's group is the one line; every other token keeps its group. */
  lemma NewTokenGroups(prefix: seq<Entry>, e: Entry, tk: Tokens, token: string, regexes: seq<string>, re: Regex)
    requires forall k :: k in tk.byToken ==> tk.byToken[k] == WithToken(prefix, k, regexes, re)
    requires forall k :: k !in tk.byToken ==> WithToken(prefix, k, regexes, re) == []
    requires LineToken(e, regexes, re) == Some(token) && token !in tk.byToken
    requires forall k :: WithToken(prefix + [e], k, regexes, re)
                      == WithToken(prefix, k, regexes, re) + (if LineToken(e, regexes, re) == Some(k) then [e] else [])
    ensures var n := SetDefaultAppend(tk, token, e);
      && (forall k :: k in n.byToken ==> n.byToken[k] == WithToken(prefix + [e], k, regexes, re))
      && (forall k :: k !in n.byToken ==> WithToken(prefix + [e], k, regexes, re) == [])
  {
  }

  /** `setdefault(token, []).append(line)` never leaves a key without a line. */
  lemma AppendNonEmpty(tk: Tokens, token: string, e: Entry)
    requires forall k :: k in tk.byToken ==> tk.byToken[k] != []
    ensures forall k :: k in SetDefaultAppend(tk, token, e).byToken ==> SetDefaultAppend(tk, token, e).byToken[k] != []
  {
  }

  /** Unless the deadline cuts it short, the first loop groups every line under its token. */
  lemma {:induction false} CollectedGroups(lines: seq<Entry>, prefix: seq<Entry>, tk: Tokens, late: Oracle,
                                           regexes: seq<string>, re: Regex)
    requires Grouped(prefix, tk, regexes, re)
    ensures !Collected(lines, regexes, tk, late, re).timedOut ==>
      Grouped(prefix + lines, Collected(lines, regexes, tk, late, re).state, regexes, re)
    decreases |lines|
  {
    if lines == [] {
      assert prefix + lines == prefix;
    } else {
      CollectedTurn(lines, regexes, tk, late, re);
      if !(Counted(tk).count % RuleCheck == 0 && late(tk.t)) {
        assert Grouped(prefix, Counted(tk), regexes, re);
        CollectStep(prefix, lines[0], Counted(tk), regexes, re);
        CollectedGroups(lines[1..], prefix + [lines[0]], Filed(Counted(tk), lines[0], regexes, re), late, regexes, re);
        assert prefix + [lines[0]] + lines[1..] == prefix + lines;
      }
    }
  }

  lemma {:induction false} WithTokenMembers(lines: seq<Entry>, token: string, regexes: seq<string>, re: Regex)
    ensures forall e :: e in WithToken(lines, token, regexes, re) <==> e in lines && LineToken(e, regexes, re) == Some(token)
    decreases |lines|
  {
    if lines != [] {
      var init := lines[..|lines| - 1];
      WithTokenMembers(init, token, regexes, re);
      assert forall e :: e in lines <==> e in init || e == lines[|lines| - 1];
    }
  }

  lemma {:induction false} WithTokenUnique(lines: seq<Entry>, token: string, regexes: seq<string>, re: Regex)
    requires UniqueEntryIds(lines)
    ensures UniqueEntryIds(WithToken(lines, token, regexes, re))
    decreases |lines|
  {
    if lines != [] {
      var init, last := lines[..|lines| - 1], lines[|lines| - 1];
      WithTokenUnique(init, token, regexes, re);
      WithTokenMembers(init, token, regexes, re);
      var w := WithToken(init, token, regexes, re);
      if LineToken(last, regexes, re) == Some(token) {
        var r := w + [last];
        forall i, j | 0 <= i < j < |r| ensures r[i].id != r[j].id {
          if j == |w| {
            assert r[i] in init;
          }
        }
      }
    }
  }

  /** Each line lands in at most one token group: groups of different tokens share no id. */
  lemma TokenGroupsDisjoint(lines: seq<Entry>, a: string, b: string, regexes: seq<string>, re: Regex)
    requires UniqueEntryIds(lines) && a != b
    ensures Ids(Pairs(WithToken(lines, a, regexes, re))) !! Ids(Pairs(WithToken(lines, b, regexes, re)))
  {
    var ga, gb := WithToken(lines, a, regexes, re), WithToken(lines, b, regexes, re);
    WithTokenMembers(lines, a, regexes, re);
    WithTokenMembers(lines, b, regexes, re);
    forall e, e' | e in ga && e' in gb ensures e.id != e'.id {
      assert e != e';
      var i :| 0 <= i < |lines| && lines[i] == e;
      var j :| 0 <= j < |lines| && lines[j] == e';
      assert i != j;
    }
    forall x | x in Ids(Pairs(ga)) ensures x !in Ids(Pairs(gb)) {
      IdsPairs(ga, x);
      IdsPairs(gb, x);
    }
  }

  /** The body of the first loop for a counted line: find its token and, when there is one, `numbers.setdefault(token, []).append(line)`. */
  method FileLine(numbers: Tokens, line: Entry, regexes: seq<string>, re: Regex) returns (r: Tokens)
    ensures r == Filed(numbers, line, regexes, re)
  {
    var token := None;
    if HasDescription(line) {
      token := FindToken(regexes, line.description.value, re);
    }
    r := numbers;
    if token.Some? {
      r := SetDefaultAppend(numbers, token.value, line);
    }
  }

  /**
   * The first loop of the rule pass: for each line, count it, read the clock
   * on every RuleCheck-th, and file it under its token if it has one.
   */
  method Collect(lines: seq<Entry>, regexes: seq<string>, t0: nat, late: Oracle, re: Regex)
    returns (h: Halt<Tokens>)
    ensures h == Collected(lines, regexes, Tokens([], map[], 0, t0), late, re)
  {
    var numbers := Tokens([], map[], 0, t0);
    var i := 0;
    while i < |lines|
      invariant 0 <= i <= |lines|
      invariant forall k :: k in numbers.keys <==> k in numbers.byToken
      invariant Collected(lines[i..], regexes, numbers, late, re)
             == Collected(lines, regexes, Tokens([], map[], 0, t0), late, re)
    {
      assert lines[i..][0] == lines[i] && lines[i..][1..] == lines[i + 1..];
      CollectedTurn(lines[i..], regexes, numbers, late, re);
      var expired := (numbers.count + 1) % RuleCheck == 0 && late(numbers.t);
      numbers := Counted(numbers);
      if expired {
        return Halt(numbers, true);
      }
      numbers := FileLine(numbers, lines[i], regexes, re);
      i := i + 1;
    }
    h := Halt(numbers, false);
  }


  // ---------------------------------------------------------------------------
  // Reconciling the balanced token groups

  /** The ids reconciled in this call so far, the groups this pass committed, the group counter, the clock readings. */
  datatype Commits = Commits(reconciled: set<Id>, groups: seq<seq<Pair>>, count: nat, t: nat)

  /** A token group is reconciled when it has more than one line and balances exactly. */
  predicate Settles(g: seq<Entry>) {
    |g| > 1 && Sum(Pairs(g)) == 0
  }

  /** Counting one token group, with a clock reading on every RuleCheck-th. */
  function CountGroup(c: Commits): Commits {
    var count := c.count + 1;
    c.(count := count, t := if count % RuleCheck == 0 then c.t + 1 else c.t)
  }

  /** The clock is read at this group and the deadline has passed. */
  predicate Expired(c: Commits, late: Oracle) {
    (c.count + 1) % RuleCheck == 0 && late(c.t)
  }

  /** `Line.reconcile(lines)` for a balanced group, and its ids join the reconciled set. */
  function SettleOne(g: seq<Entry>, c: Commits): Commits {
    if Settles(g) then c.(reconciled := c.reconciled + Ids(Pairs(g)), groups := c.groups + [Pairs(g)]) else c
  }

  /** The second loop of the rule pass, over the token groups in insertion order. */
  function Settled(keys: seq<string>, byToken: map<string, seq<Entry>>, c: Commits, late: Oracle): Halt<Commits>
    requires forall k :: k in keys ==> k in byToken
    decreases |keys|
  {
    if keys == [] then Halt(c, false)
    else if Expired(c, late) then Halt(CountGroup(c), true)
    else Settled(keys[1..], byToken, SettleOne(byToken[keys[0]], CountGroup(c)), late)
  }

  /** The pass state after committing `groups` on top of the ids `done` reconciled before. */
  predicate Consistent(done: set<Id>, c: Commits) {
    c.reconciled == done + GroupIds(c.groups) && GroupIds(c.groups) !! done && Disjoint(c.groups)
  }

  /** The second loop only appends to the committed groups. */
  lemma {:induction false} SettledExtends(keys: seq<string>, byToken: map<string, seq<Entry>>, c: Commits, late: Oracle)
    requires forall k :: k in keys ==> k in byToken
    ensures var h := Settled(keys, byToken, c, late);
      |h.state.groups| >= |c.groups| && h.state.groups[..|c.groups|] == c.groups
    decreases |keys|
  {
    if keys != [] && !Expired(c, late) {
      var next := SettleOne(byToken[keys[0]], CountGroup(c));
      SettledExtends(keys[1..], byToken, next, late);
      var h := Settled(keys[1..], byToken, next, late);
      assert h.state.groups[..|next.groups|] == next.groups;
      assert next.groups[..|c.groups|] == c.groups;
    }
  }

  lemma CommitConsistent(done: set<Id>, c: Commits, g: seq<Entry>)
    requires Consistent(done, c) && Ids(Pairs(g)) !! c.reconciled
    ensures Consistent(done, SettleOne(g, c))
  {
    var n := SettleOne(g, c);
    if Settles(g) {
      var p := Pairs(g);
      assert n.groups == c.groups + [p] && n.reconciled == c.reconciled + Ids(p);
      GroupIdsAppend(c.groups, p);
      assert GroupIds(c.groups) <= c.reconciled && done <= c.reconciled;
      DisjointSnoc(c.groups, p);
    } else {
      assert n == c;
    }
  }

  /** Token groups that share no id commit disjoint groups, disjoint from the ids reconciled before. */
  lemma {:induction false} SettledConsistent(keys: seq<string>, byToken: map<string, seq<Entry>>, done: set<Id>,
                                             c: Commits, late: Oracle)
    requires forall k :: k in keys ==> k in byToken
    requires forall i, j :: 0 <= i < j < |keys| ==> Ids(Pairs(byToken[keys[i]])) !! Ids(Pairs(byToken[keys[j]]))
    requires forall k :: k in keys ==> Ids(Pairs(byToken[k])) !! c.reconciled
    requires Consistent(done, c)
    ensures Consistent(done, Settled(keys, byToken, c, late).state)
    decreases |keys|
  {
    if keys != [] && !Expired(c, late) {
      var g := byToken[keys[0]];
      var next := SettleOne(g, CountGroup(c));
      CommitConsistent(done, CountGroup(c), g);
      forall k | k in keys[1..] ensures Ids(Pairs(byToken[k])) !! next.reconciled {
        var j :| 0 <= j < |keys[1..]| && keys[1..][j] == k;
        assert keys[j + 1] == k;
      }
      forall i, j | 0 <= i < j < |keys[1..]|
        ensures Ids(Pairs(byToken[keys[1..][i]])) !! Ids(Pairs(byToken[keys[1..][j]]))
      {
        assert keys[1..][i] == keys[i + 1] && keys[1..][j] == keys[j + 1];
      }
      SettledConsistent(keys[1..], byToken, done, next, late);
    }
  }

  /** `g` is the whole group of some key among `keys`, and that group balances. */
  ghost predicate FromKey(g: seq<Pair>, keys: seq<string>, byToken: map<string, seq<Entry>>) {
    exists k :: k in keys && k in byToken && Settles(byToken[k]) && g == Pairs(byToken[k])
  }

  /** The groups from position `from` on each come from a key. */
  ghost predicate FromKeys(gs: seq<seq<Pair>>, from: nat, keys: seq<string>, byToken: map<string, seq<Entry>>) {
    forall i :: from <= i < |gs| ==> FromKey(gs[i], keys, byToken)
  }

  lemma FromKeyWider(g: seq<Pair>, keys: seq<string>, byToken: map<string, seq<Entry>>)
    requires keys != [] && FromKey(g, keys[1..], byToken)
    ensures FromKey(g, keys, byToken)
  {
    var k :| k in keys[1..] && k in byToken && Settles(byToken[k]) && g == Pairs(byToken[k]);
    assert k in keys;
  }

  /** Every group the second loop commits is a whole token group that balances. */
  lemma {:induction false} SettledFrom(keys: seq<string>, byToken: map<string, seq<Entry>>, c: Commits, late: Oracle)
    requires forall k :: k in keys ==> k in byToken
    ensures FromKeys(Settled(keys, byToken, c, late).state.groups, |c.groups|, keys, byToken)
    decreases |keys|
  {
    if keys != [] && !Expired(c, late) {
      var g := byToken[keys[0]];
      assert CountGroup(c).groups == c.groups;
      var next := SettleOne(g, CountGroup(c));
      SettledFrom(keys[1..], byToken, next, late);
      SettledExtends(keys[1..], byToken, next, late);
      var h := Settled(keys[1..], byToken, next, late);
      assert Settled(keys, byToken, c, late) == h;
      forall i | |c.groups| <= i < |h.state.groups| ensures FromKey(h.state.groups[i], keys, byToken) {
        if i >= |next.groups| {
          assert FromKey(h.state.groups[i], keys[1..], byToken);
          FromKeyWider(h.state.groups[i], keys, byToken);
        } else {
          assert Settles(g) && next.groups == c.groups + [Pairs(g)] && i == |c.groups|;
          assert h.state.groups[i] == h.state.groups[..|next.groups|][i] == next.groups[i] == Pairs(g);
          assert keys[0] in keys && keys[0] in byToken;
        }
      }
    }
  }

  /** Unless the deadline cuts it short, the second loop commits every balanced token group. */
  lemma {:induction false} SettledComplete(keys: seq<string>, byToken: map<string, seq<Entry>>, c: Commits, late: Oracle)
    requires forall k :: k in keys ==> k in byToken
    ensures var h := Settled(keys, byToken, c, late);
      !h.timedOut ==> forall k :: k in keys && Settles(byToken[k]) ==> Pairs(byToken[k]) in h.state.groups
    decreases |keys|
  {
    if keys != [] && !Expired(c, late) {
      var g := byToken[keys[0]];
      var next := SettleOne(g, CountGroup(c));
      SettledComplete(keys[1..], byToken, next, late);
      SettledExtends(keys[1..], byToken, next, late);
      var h := Settled(keys[1..], byToken, next, late);
      if !h.timedOut && Settles(g) {
        assert Pairs(g) == next.groups[|c.groups|] == h.state.groups[..|next.groups|][|c.groups|];
      }
      assert forall k :: k in keys ==> k == keys[0] || k in keys[1..];
    }
  }

  /** The second loop: `for lines in numbers.values()`, reconciling each balanced group whole. */
  method Settle(keys: seq<string>, byToken: map<string, seq<Entry>>, done: set<Id>, t0: nat, late: Oracle)
    returns (h: Halt<Commits>)
    requires forall k :: k in keys ==> k in byToken
    ensures h == Settled(keys, byToken, Commits(done, [], 0, t0), late)
  {
    var reconciled: set<Id>, groups: seq<seq<Pair>>, count: nat, t: nat := done, [], 0, t0;
    var i := 0;
    while i < |keys|
      invariant 0 <= i <= |keys|
      invariant Settled(keys[i..], byToken, Commits(reconciled, groups, count, t), late)
             == Settled(keys, byToken, Commits(done, [], 0, t0), late)
    {
      assert keys[i..][0] == keys[i] && keys[i..][1..] == keys[i + 1..];
      var lines := byToken[keys[i]];
      count := count + 1;
      if count % RuleCheck == 0 {
        var expired := late(t);
        t := t + 1;
        if expired {
          h := Halt(Commits(reconciled, groups, count, t), true);
          return;
        }
      }
      if |lines| > 1 {
        var amount := Sum(Pairs(lines));
        if amount == 0 {
          reconciled := reconciled + Ids(Pairs(lines));
          groups := groups + [Pairs(lines)];
        }
      }
      i := i + 1;
    }
    h := Halt(Commits(reconciled, groups, count, t), false);
  }

  // ---------------------------------------------------------------------------
  // The whole rule pass

  function RulePass(lines: seq<Entry>, regexes: seq<string>, done: set<Id>, t: nat, late: Oracle, re: Regex)
    : Halt<Commits>
  {
    var a := Collected(lines, regexes, Tokens([], map[], 0, t), late, re);
    if a.timedOut then Halt(Commits(done, [], 0, a.state.t), true)
    else Settled(a.state.keys, a.state.byToken, Commits(done, [], 0, a.state.t), late)
  }

  /** The token groups of a bucket of open lines with distinct ids share no id, with each other or with `done`. */
  lemma GroupedFresh(lines: seq<Entry>, tk: Tokens, done: set<Id>, regexes: seq<string>, re: Regex)
    requires UniqueEntryIds(lines) && Ids(Pairs(lines)) !! done && Grouped(lines, tk, regexes, re)
    ensures forall i, j :: 0 <= i < j < |tk.keys| ==> Ids(Pairs(tk.byToken[tk.keys[i]])) !! Ids(Pairs(tk.byToken[tk.keys[j]]))
    ensures forall k :: k in tk.keys ==> Ids(Pairs(tk.byToken[k])) !! done
  {
    var keys, byToken := tk.keys, tk.byToken;
    forall i, j | 0 <= i < j < |keys| ensures Ids(Pairs(byToken[keys[i]])) !! Ids(Pairs(byToken[keys[j]])) {
      TokenGroupsDisjoint(lines, keys[i], keys[j], regexes, re);
    }
    forall k | k in keys ensures Ids(Pairs(byToken[k])) !! done {
      WithTokenMembers(lines, k, regexes, re);
      forall x | x in Ids(Pairs(byToken[k])) ensures x in Ids(Pairs(lines)) {
        IdsPairs(byToken[k], x);
        IdsPairs(lines, x);
      }
    }
  }

  /** Every group is the whole group of lines of some token, and it balances. */
  ghost predicate WholeTokenGroups(groups: seq<seq<Pair>>, lines: seq<Entry>, regexes: seq<string>, re: Regex) {
    forall g :: g in groups ==>
      exists k :: g == Pairs(WithToken(lines, k, regexes, re)) && Settles(WithToken(lines, k, regexes, re))
  }

  /** Every token whose group of lines balances has that group committed. */
  ghost predicate EveryTokenGroup(groups: seq<seq<Pair>>, lines: seq<Entry>, regexes: seq<string>, re: Regex) {
    forall k :: Settles(WithToken(lines, k, regexes, re)) ==> Pairs(WithToken(lines, k, regexes, re)) in groups
  }

  /** What the second loop commits, restated over the token groups of the bucket. */
  lemma SettledTokens(lines: seq<Entry>, tk: Tokens, c: Commits, late: Oracle, regexes: seq<string>, re: Regex)
    requires Grouped(lines, tk, regexes, re) && c.groups == []
    ensures var h := Settled(tk.keys, tk.byToken, c, late);
      && WholeTokenGroups(h.state.groups, lines, regexes, re)
      && (!h.timedOut ==> EveryTokenGroup(h.state.groups, lines, regexes, re))
  {
    var keys, byToken := tk.keys, tk.byToken;
    SettledFrom(keys, byToken, c, late);
    SettledComplete(keys, byToken, c, late);
    var h := Settled(keys, byToken, c, late);
    forall g | g in h.state.groups
      ensures exists k :: g == Pairs(WithToken(lines, k, regexes, re)) && Settles(WithToken(lines, k, regexes, re))
    {
      var i :| 0 <= i < |h.state.groups| && h.state.groups[i] == g;
      assert FromKey(h.state.groups[i], keys, byToken);
      var k :| k in keys && k in byToken && Settles(byToken[k]) && h.state.groups[i] == Pairs(byToken[k]);
      assert byToken[k] == WithToken(lines, k, regexes, re);
    }
    if !h.timedOut {
      forall k | Settles(WithToken(lines, k, regexes, re))
        ensures Pairs(WithToken(lines, k, regexes, re)) in h.state.groups
      {
        assert k in byToken;
      }
    }
  }

  /**
   * What the rule pass commits, for a bucket of open lines with distinct
   * ids: every group is one whole token group (all the lines whose token is
   * that token) of more than one line that sums to zero; the groups are
   * disjoint from each other and from the ids reconciled before; and unless
   * the deadline cut the pass short, every such token group is committed.
   */
  lemma RulePassSound(lines: seq<Entry>, regexes: seq<string>, done: set<Id>, t: nat, late: Oracle, re: Regex)
    requires UniqueEntryIds(lines) && Ids(Pairs(lines)) !! done
    ensures var h := RulePass(lines, regexes, done, t, late, re);
      && Consistent(done, h.state)
      && WholeTokenGroups(h.state.groups, lines, regexes, re)
      && (!h.timedOut ==> EveryTokenGroup(h.state.groups, lines, regexes, re))
  {
    var a := Collected(lines, regexes, Tokens([], map[], 0, t), late, re);
    var c := Commits(done, [], 0, a.state.t);
    assert Consistent(done, c);
    if !a.timedOut {
      CollectedGroups(lines, [], Tokens([], map[], 0, t), late, regexes, re);
      assert [] + lines == lines;
      GroupedFresh(lines, a.state, done, regexes, re);
      SettledConsistent(a.state.keys, a.state.byToken, done, c, late);
      SettledTokens(lines, a.state, c, late, regexes, re);
    }
  }

  /**
   * The rule pass over one bucket: group the lines by token, then reconcile
   * the balanced groups.  Returns early, with what it committed, once the
   * deadline has passed.
   */
  method MatchRules(lines: seq<Entry>, regexes: seq<string>, done: set<Id>, t0: nat, late: Oracle, re: Regex)
    returns (h: Halt<Commits>)
    ensures h == RulePass(lines, regexes, done, t0, late, re)
  {
    var a := Collect(lines, regexes, t0, late, re);
    if a.timedOut {
      return Halt(Commits(done, [], 0, a.state.t), true);
    }
    h := Settle(a.state.keys, a.state.byToken, done, a.state.t, late);
  }

  // ---------------------------------------------------------------------------
  // A deadline that never passes

  lemma {:induction false} CollectedOnTime(lines: seq<Entry>, regexes: seq<string>, tk: Tokens, late: Oracle, re: Regex)
    requires forall k :: k in tk.keys <==> k in tk.byToken
    requires forall n :: !late(n)
    ensures !Collected(lines, regexes, tk, late, re).timedOut
    decreases |lines|
  {
    if lines != [] {
      CollectedOnTime(lines[1..], regexes, Filed(Counted(tk), lines[0], regexes, re), late, re);
    }
  }

  lemma {:induction false} SettledOnTime(keys: seq<string>, byToken: map<string, seq<Entry>>, c: Commits, late: Oracle)
    requires forall k :: k in keys ==> k in byToken
    requires forall n :: !late(n)
    ensures !Settled(keys, byToken, c, late).timedOut
    decreases |keys|
  {
    if keys != [] {
      SettledOnTime(keys[1..], byToken, SettleOne(byToken[keys[0]], CountGroup(c)), late);
    }
  }

  /** With a deadline that never passes, the rule pass runs to the end. */
  lemma RulePassOnTime(lines: seq<Entry>, regexes: seq<string>, done: set<Id>, t: nat, late: Oracle, re: Regex)
    requires forall n :: !late(n)
    ensures !RulePass(lines, regexes, done, t, late, re).timedOut
  {
    var a := Collected(lines, regexes, Tokens([], map[], 0, t), late, re);
    CollectedOnTime(lines, regexes, Tokens([], map[], 0, t), late, re);
    SettledOnTime(a.state.keys, a.state.byToken, Commits(done, [], 0, a.state.t), late);
  }
}

/** The rule table of a geometric fractal (`Rule` and `GeometricFractalInfo`
    in src/FractalDemo.java): built once from a `"name:value;name:value"`
    string, read-only afterwards. */
module Rules {
  import opened Failures
  import opened JavaLang

  /** One production: a (trimmed) left-hand name and its replacement. */
  datatype Rule = Rule(name: string, value: string)

  /** A geometric fractal's descriptor. The turning angle is what
      `Float.parseFloat` made of the angle text; `rules[0]` is the root. */
  datatype GeometricFractalInfo = GeometricFractalInfo(name: string, angle: real, rules: seq<Rule>)

  /** One `name:value` part, as the constructor turns it into a `Rule`:
      `tokens = part.split(":")`, then `tokens[0].trim()` and `tokens[1].trim()`;
      a part with fewer than two tokens fails on the array access. */
  function ParseRule(part: string): Result<Rule>
  {
    var tokens := Split(part, ':');
    if |tokens| < 2 then Err(ArrayIndexOutOfBounds(|tokens|))
    else Ok(Rule(Trim(tokens[0]), Trim(tokens[1])))
  }

  /** What a part turns into, in terms of its text. The part is accepted
      exactly when some character other than `:` follows its first `:` (so
      `"F:"` and `"F"` both fail). The name is the trimmed text before that
      colon and the value the trimmed text after it, up to the next colon;
      anything later is ignored. Otherwise `tokens[n]`, with `n` the number of
      tokens, fails: `n` is 0 for a non-empty run of colons and 1 otherwise. */
  lemma ParsedRule(part: string)
    ensures ParseRule(part).Ok? <==> ':' in part && exists j :: IndexOf(part, ':') < j < |part| && part[j] != ':'
    ensures ParseRule(part).Ok? ==>
              ParseRule(part).value == Rule(Trim(Before(part, ':')), Trim(Before(After(part, ':'), ':')))
    ensures ParseRule(part).Err? ==>
              ParseRule(part).failure == ArrayIndexOutOfBounds(
                if part != [] && forall k :: 0 <= k < |part| ==> part[k] == ':' then 0 else 1)
  {
    SplitHasSecond(part, ':');
    SplitIsEmpty(part, ':');
    if |Split(part, ':')| >= 2 {
      SplitFirstTwo(part, ':');
    }
  }

  /** The rule table the constructor builds from the rules text. */
  function ParseRules(text: string): Result<seq<Rule>>
  {
    MapResults(Split(text, ';'), ParseRule)
  }

  /** The constructor `GeometricFractalInfo(name, angle, rules)`: a loop over
      the `;`-separated parts that appends one rule per part. */
  method NewGeometricFractalInfo(name: string, angle: real, text: string)
    returns (r: Result<GeometricFractalInfo>)
    ensures r.Ok? <==> ParseRules(text).Ok?
    ensures r.Ok? ==> r.value == GeometricFractalInfo(name, angle, ParseRules(text).value)
    ensures r.Err? ==> r.failure == ParseRules(text).failure
  {
    var parts := Split(text, ';');
    var tmp: seq<Rule> := [];
    for i := 0 to |parts|
      invariant MapResults(parts[..i], ParseRule) == Ok(tmp)
    {
      MapResultsStep(parts, ParseRule, i);
      var tokens := Split(parts[i], ':');
      if |tokens| < 2 {
        r := Err(ArrayIndexOutOfBounds(|tokens|));
        assert ParseRule(parts[i]) == Err(r.failure);
        MapResultsFailsOnPrefix(parts, ParseRule, i + 1);
        return;
      }
      var rule := Rule(Trim(tokens[0]), Trim(tokens[1]));
      assert ParseRule(parts[i]) == Ok(rule);
      tmp := tmp + [rule];
    }
    assert parts[..|parts|] == parts;
    r := Ok(GeometricFractalInfo(name, angle, tmp));
  }

  /** `getRoot()`: `rules[0]`, whatever its name; an empty table (rules text
      made only of `;`) fails on the array access. */
  function Root(info: GeometricFractalInfo): (r: Result<Rule>)
    ensures r.Ok? <==> info.rules != []
    ensures r.Ok? ==> r.value == info.rules[0]
    ensures r.Err? ==> r.failure == ArrayIndexOutOfBounds(0)
  {
    if info.rules == [] then Err(ArrayIndexOutOfBounds(0)) else Ok(info.rules[0])
  }

  /** The root of a parsed table is the rule of the first part, so its name is
      whatever precedes the first colon of the rules text, trimmed. */
  lemma RootIsFirstPart(text: string)
    ensures ParseRules(text).Ok? && ParseRules(text).value != [] ==>
              && ':' in text && ';' !in Before(text, ':')
              && ParseRules(text).value[0].name == Trim(Before(text, ':'))
  {
    if !(ParseRules(text).Ok? && ParseRules(text).value != []) {
      return;
    }
    var parts := Split(text, ';');
    var first := parts[0];
    var root := ParseRules(text).value[0];
    assert ParseRule(first) == Ok(root);
    assert ':' in first && root.name == Trim(Before(first, ':')) by {
      ParsedRule(first);
    }
    SplitFirstIsPrefix(text, ';');
    BeforeOfPrefix(text, first, ':', ';');
  }

  /** A rules text produces an empty table, so that the root lookup fails,
      exactly when it is a non-empty run of `;`. */
  lemma EmptyTable(text: string)
    ensures ParseRules(text) == Ok([]) <==> text != [] && forall k :: 0 <= k < |text| ==> text[k] == ';'
  {
    SplitIsEmpty(text, ';');
  }

  /** The first rule named `name`, or none. */
  function FindRule(rules: seq<Rule>, name: string): Option<Rule>
  {
    if rules == [] then None
    else if rules[0].name == name then Some(rules[0])
    else FindRule(rules[1..], name)
  }

  /** `FindRule` is a first-match search: none exactly when no rule has the
      name, otherwise a rule with that name and no earlier one with it. */
  lemma {:induction false} FindRuleFirstMatch(rules: seq<Rule>, name: string)
    ensures FindRule(rules, name).None? <==> forall k :: 0 <= k < |rules| ==> rules[k].name != name
    ensures FindRule(rules, name).Some? ==>
              exists k :: 0 <= k < |rules| && rules[k] == FindRule(rules, name).value && rules[k].name == name
                          && forall j :: 0 <= j < k ==> rules[j].name != name
  {
    if rules != [] && rules[0].name != name {
      FindRuleFirstMatch(rules[1..], name);
      assert forall k :: 1 <= k < |rules| ==> rules[k] == rules[1..][k - 1];
      if FindRule(rules, name).Some? {
        var k :| 0 <= k < |rules[1..]| && rules[1..][k] == FindRule(rules, name).value && rules[1..][k].name == name
                 && forall j :: 0 <= j < k ==> rules[1..][j].name != name;
        assert rules[k + 1] == FindRule(rules, name).value;
      }
    }
  }

  /** `getRule(name)`: the loop over the table that returns the first rule
      whose name equals `name`, `null` (here `None`) when there is none. */
  method GetRule(info: GeometricFractalInfo, name: string) returns (r: Option<Rule>)
    ensures r == FindRule(info.rules, name)
  {
    var rules := info.rules;
    for i := 0 to |rules|
      invariant forall j :: 0 <= j < i ==> rules[j].name != name
    {
      if rules[i].name == name {
        r := Some(rules[i]);
        FindRuleFirstMatch(rules, name);
        var k :| 0 <= k < |rules| && rules[k] == FindRule(rules, name).value && rules[k].name == name
                 && forall j :: 0 <= j < k ==> rules[j].name != name;
        assert k == i;
        return;
      }
    }
    r := None;
    FindRuleFirstMatch(rules, name);
  }
}

/** `GeometricFractal.expand`: the level-bounded rewriting of a pattern into a
    string of turtle commands. */
module Expansion {
  import opened Failures
  import opened Rules

  /** The commands copied verbatim whatever rules exist. */
  predicate IsStructural(c: char) { c == '+' || c == '-' || c == '[' || c == ']' }

  /** The two moves: `F` draws, `f` moves without drawing. */
  predicate IsMove(c: char) { c == 'F' || c == 'f' }

  /** The alphabet the turtle interprets. */
  predicate IsCommand(c: char) { IsStructural(c) || IsMove(c) }

  predicate AllCommands(s: string) { forall k :: 0 <= k < |s| ==> IsCommand(s[k]) }

  /** A symbol `expand` accepts: a command or the name of some rule. */
  predicate Known(rules: seq<Rule>, c: char) { IsCommand(c) || FindRule(rules, [c]).Some? }

  /** One character of the pattern, as the body of `expand`'s loop treats it:
      structural commands are copied; a symbol with a rule is replaced by the
      expansion of the rule's value one level down while `level > 0`; `F` and
      `f` are otherwise copied; a symbol without a rule fails; and a symbol
      that has a rule but is reached at level 0 is dropped. */
  function ExpandChar(rules: seq<Rule>, c: char, level: nat): (r: Result<string>)
    ensures r.Ok? ==> AllCommands(r.value)
    decreases level, 0
  {
    if IsStructural(c) then Ok([c])
    else
      var rule := FindRule(rules, [c]);
      if rule.Some? && level > 0 then Expand(rules, rule.value.value, level - 1)
      else if IsMove(c) then Ok([c])
      else if rule.None? then Err(UnknownSymbol(c))
      else Ok([])
  }

  /** `expand(params, pattern, level)`: the characters' expansions
      concatenated left to right; the leftmost failure aborts. Whatever it
      returns is made of turtle commands only. */
  function Expand(rules: seq<Rule>, pattern: string, level: nat): (r: Result<string>)
    ensures r.Ok? ==> AllCommands(r.value)
    decreases level, 1, |pattern|
  {
    if pattern == [] then Ok([])
    else
      var init := Expand(rules, pattern[..|pattern| - 1], level);
      var last := ExpandChar(rules, pattern[|pattern| - 1], level);
      if init.Err? then init
      else if last.Err? then last
      else Ok(init.value + last.value)
  }

  /** Sequencing of two results: the first failure wins. */
  function Then(a: Result<string>, b: Result<string>): Result<string>
  {
    if a.Err? then a else if b.Err? then b else Ok(a.value + b.value)
  }

  lemma ThenAssociative(a: Result<string>, b: Result<string>, c: Result<string>)
    ensures Then(Then(a, b), c) == Then(a, Then(b, c))
  {
    if a.Ok? && b.Ok? && c.Ok? {
      assert a.value + b.value + c.value == a.value + (b.value + c.value);
    }
  }

  /** Expansion distributes over concatenation of patterns. */
  lemma {:induction false} ExpandAppend(rules: seq<Rule>, p: string, q: string, level: nat)
    ensures Expand(rules, p + q, level) == Then(Expand(rules, p, level), Expand(rules, q, level))
    decreases |q|
  {
    if q == [] {
      assert p + q == p;
      var e := Expand(rules, p, level);
      assert e.Ok? ==> e.value + [] == e.value;
    } else {
      var q' := q[..|q| - 1];
      var c := q[|q| - 1];
      assert (p + q)[..|p + q| - 1] == p + q';
      assert (p + q)[|p + q| - 1] == c;
      ExpandAppend(rules, p, q', level);
      ThenAssociative(Expand(rules, p, level), Expand(rules, q', level), ExpandChar(rules, c, level));
    }
  }

  /** One parallel rewriting step of the L-system on one symbol. */
  function RewriteChar(rules: seq<Rule>, c: char): string
  {
    if IsStructural(c) then [c]
    else match FindRule(rules, [c])
      case Some(rule) => rule.value
      case None => [c]
  }

  /** One parallel rewriting step on a whole string. */
  function Rewrite(rules: seq<Rule>, p: string): string
  {
    if p == [] then [] else Rewrite(rules, p[..|p| - 1]) + RewriteChar(rules, p[|p| - 1])
  }

  /** `n` rewriting steps. */
  function Derive(rules: seq<Rule>, p: string, n: nat): string
    decreases n
  {
    if n == 0 then p else Derive(rules, Rewrite(rules, p), n - 1)
  }

  /** The position of the leftmost unknown symbol, or `|p|` if all are known. */
  function FirstUnknown(rules: seq<Rule>, p: string): (i: nat)
    ensures i <= |p|
    ensures forall k :: 0 <= k < i ==> Known(rules, p[k])
    ensures i < |p| ==> !Known(rules, p[i])
  {
    if p == [] then 0
    else
      var i := FirstUnknown(rules, p[..|p| - 1]);
      if i < |p| - 1 then i
      else if Known(rules, p[|p| - 1]) then |p|
      else |p| - 1
  }

  /** The commands of `p`, in order. */
  function Commands(p: string): string
  {
    if p == [] then []
    else Commands(p[..|p| - 1]) + (if IsCommand(p[|p| - 1]) then [p[|p| - 1]] else [])
  }

  /** The last level: every symbol with a rule that is not a command is
      dropped, commands (including `F` and `f` that have rules) are kept, and
      the leftmost symbol that is neither fails. */
  lemma {:induction false} ExpandLevelZero(rules: seq<Rule>, p: string)
    ensures FirstUnknown(rules, p) < |p| ==>
              Expand(rules, p, 0) == Err(UnknownSymbol(p[FirstUnknown(rules, p)]))
    ensures FirstUnknown(rules, p) == |p| ==> Expand(rules, p, 0) == Ok(Commands(p))
  {
    if p != [] {
      var init := p[..|p| - 1];
      ExpandLevelZero(rules, init);
      assert forall k :: 0 <= k < |init| ==> init[k] == p[k];
    }
  }

  /** At a positive level, expansion is one rewriting step followed by
      expansion one level down, failures included. */
  lemma {:induction false} ExpandStep(rules: seq<Rule>, p: string, level: nat)
    ensures Expand(rules, p, level + 1) == Expand(rules, Rewrite(rules, p), level)
    decreases |p|
  {
    if p != [] {
      var init := p[..|p| - 1];
      var c := p[|p| - 1];
      ExpandStep(rules, init, level);
      ExpandAppend(rules, Rewrite(rules, init), RewriteChar(rules, c), level);
      assert ExpandChar(rules, c, level + 1) == Expand(rules, RewriteChar(rules, c), level) by {
        assert [c][..0] == [];
        if !IsStructural(c) && FindRule(rules, [c]).Some? {
        } else {
          var e := ExpandChar(rules, c, level);
          assert e.Ok? ==> [] + e.value == e.value;
          assert Expand(rules, [c], level) == e;
        }
      }
    }
  }

  /** `expand` at level `n` is the classic L-system derivation: `n` parallel
      rewriting steps, then the projection of the last level. */
  lemma {:induction false} ExpandIsDerivation(rules: seq<Rule>, p: string, level: nat)
    ensures Expand(rules, p, level) == Expand(rules, Derive(rules, p, level), 0)
    decreases level
  {
    if level > 0 {
      var q, n := Rewrite(rules, p), level - 1;
      ExpandStepDown(rules, p, q, level);
      ExpandIsDerivation(rules, q, n);
      var e, d := Expand(rules, q, n), Derive(rules, q, n);
      assert Expand(rules, p, level) == e && Derive(rules, p, level) == d;
    }
  }

  lemma ExpandStepDown(rules: seq<Rule>, p: string, q: string, level: nat)
    requires level > 0 && q == Rewrite(rules, p)
    ensures Expand(rules, p, level) == Expand(rules, q, level - 1)
    ensures Derive(rules, p, level) == Derive(rules, q, level - 1)
  {
    ExpandStep(rules, p, level - 1);
  }

  /** Rewriting keeps an unknown symbol (it has no rule). */
  lemma {:induction false} RewriteKeepsUnknown(rules: seq<Rule>, p: string, k: nat)
    requires k < |p| && !Known(rules, p[k])
    ensures exists j :: 0 <= j < |Rewrite(rules, p)| && Rewrite(rules, p)[j] == p[k]
  {
    var init := p[..|p| - 1];
    if k < |p| - 1 {
      RewriteKeepsUnknown(rules, init, k);
      var j :| 0 <= j < |Rewrite(rules, init)| && Rewrite(rules, init)[j] == init[k];
      assert Rewrite(rules, p)[j] == Rewrite(rules, init)[j];
    } else {
      assert RewriteChar(rules, p[k]) == [p[k]];
      assert Rewrite(rules, p)[|Rewrite(rules, p)| - 1] == p[k];
    }
  }

  lemma {:induction false} DeriveKeepsUnknown(rules: seq<Rule>, p: string, k: nat, n: nat)
    requires k < |p| && !Known(rules, p[k])
    ensures exists j :: 0 <= j < |Derive(rules, p, n)| && Derive(rules, p, n)[j] == p[k]
    decreases n
  {
    if n == 0 {
      assert Derive(rules, p, n)[k] == p[k];
    } else {
      RewriteKeepsUnknown(rules, p, k);
      var j :| 0 <= j < |Rewrite(rules, p)| && Rewrite(rules, p)[j] == p[k];
      DeriveKeepsUnknown(rules, Rewrite(rules, p), j, n - 1);
      var i :| 0 <= i < |Derive(rules, Rewrite(rules, p), n - 1)|
               && Derive(rules, Rewrite(rules, p), n - 1)[i] == Rewrite(rules, p)[j];
      assert Derive(rules, p, n)[i] == p[k];
    }
  }

  /** The failure condition of `expand`, both ways: a pattern holding a
      symbol that is neither a command nor the name of a rule fails at every
      level, and every failure names such a symbol. */
  lemma UnknownSymbolFails(rules: seq<Rule>, p: string, level: nat)
    ensures (exists k :: 0 <= k < |p| && !Known(rules, p[k])) ==> Expand(rules, p, level).Err?
    ensures Expand(rules, p, level).Err? ==>
              Expand(rules, p, level).failure.UnknownSymbol?
              && !Known(rules, Expand(rules, p, level).failure.symbol)
  {
    var d := Derive(rules, p, level);
    ExpandIsDerivation(rules, p, level);
    ExpandLevelZero(rules, d);
    if exists k :: 0 <= k < |p| && !Known(rules, p[k]) {
      var k :| 0 <= k < |p| && !Known(rules, p[k]);
      DeriveKeepsUnknown(rules, p, k, level);
    }
  }

  /** The loop of `expand` over a `StringBuilder`, with the recursive call for
      every symbol that has a rule while `level > 0`; `getRule` is the
      first-match search of the rule table. */
  method ExpandPattern(params: GeometricFractalInfo, pattern: string, level: nat)
    returns (r: Result<string>)
    ensures r == Expand(params.rules, pattern, level)
    decreases level
  {
    var result := [];
    for i := 0 to |pattern|
      invariant Expand(params.rules, pattern[..i], level) == Ok(result)
    {
      var x := pattern[i];
      assert pattern[..i + 1][..i] == pattern[..i];
      assert pattern[..i + 1][i] == x;
      ghost var step := ExpandChar(params.rules, x, level);
      if IsStructural(x) {
        assert step == Ok([x]);
        result := result + [x];
      } else {
        var rule := GetRule(params, [x]);
        if rule.Some? && level > 0 {
          var sub := ExpandPattern(params, rule.value.value, level - 1);
          assert step == sub;
          if sub.Err? {
            r := sub;
            ExpandFailsOnPrefix(params.rules, pattern, i + 1, level);
            return;
          }
          result := result + sub.value;
        } else if IsMove(x) {
          assert step == Ok([x]);
          result := result + [x];
        } else if rule.None? {
          r := Err(UnknownSymbol(x));
          assert step == r;
          ExpandFailsOnPrefix(params.rules, pattern, i + 1, level);
          return;
        } else {
          assert step == Ok([]);
          assert result + [] == result;
        }
      }
    }
    assert pattern[..|pattern|] == pattern;
    r := Ok(result);
  }

  /** A failure in a prefix of the pattern is the failure of the pattern. */
  lemma {:induction false} ExpandFailsOnPrefix(rules: seq<Rule>, p: string, n: nat, level: nat)
    requires n <= |p| && Expand(rules, p[..n], level).Err?
    ensures Expand(rules, p, level) == Expand(rules, p[..n], level)
  {
    assert p == p[..n] + p[n..];
    ExpandAppend(rules, p[..n], p[n..], level);
  }
}

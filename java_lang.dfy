/** The pieces of `java.lang` the L-system engine relies on, stated exactly:
    32-bit `int` arithmetic, integer division, the `(int)` cast of a `float`,
    `String.trim()` and `String.split(...)` with a one-character separator. */
module JavaLang {

  const IntMin: int := -0x8000_0000
  const IntMax: int := 0x7fff_ffff

  predicate IsInt(n: int) { IntMin <= n <= IntMax }

  /** The value a Java `int` expression holds when the exact result is `n`:
      two's-complement wrap-around to 32 bits. */
  function Wrap(n: int): (r: int)
    ensures IsInt(r)
    ensures (n - r) % 0x1_0000_0000 == 0
    ensures IsInt(n) ==> r == n
  {
    (n - IntMin) % 0x1_0000_0000 + IntMin
  }

  /** Java's `a / 2` on `int`: the quotient is truncated toward zero (Dafny's
      `/` is Euclidean and rounds negative odd values down instead). */
  function Half(a: int): (q: int)
    ensures a >= 0 ==> 2 * q <= a < 2 * q + 2
    ensures a < 0 ==> 2 * q - 2 < a <= 2 * q
  {
    if a >= 0 then a / 2 else -((-a) / 2)
  }

  /** Java's `(int) f` for a finite `float`: truncation toward zero,
      saturating at the ends of the `int` range. */
  function FloatToInt(f: real): (n: int)
    ensures IsInt(n)
    ensures f >= IntMax as real ==> n == IntMax
    ensures f <= IntMin as real ==> n == IntMin
    ensures IntMin as real < f < IntMax as real && f >= 0.0 ==> n as real <= f < n as real + 1.0
    ensures IntMin as real < f < IntMax as real && f < 0.0 ==> n as real - 1.0 < f <= n as real
  {
    if f >= IntMax as real then IntMax
    else if f <= IntMin as real then IntMin
    else if f >= 0.0 then f.Floor
    else -((-f).Floor)
  }

  /** The characters `String.trim()` strips: every code point up to U+0020. */
  predicate IsBlank(c: char) { c <= ' ' }

  function TrimStart(s: string): (r: string)
    ensures |r| <= |s| && r == s[|s| - |r|..]
    ensures forall k :: 0 <= k < |s| - |r| ==> IsBlank(s[k])
    ensures r != [] ==> !IsBlank(r[0])
  {
    if s != [] && IsBlank(s[0]) then TrimStart(s[1..]) else s
  }

  function TrimEnd(s: string): (r: string)
    ensures |r| <= |s| && r == s[..|r|]
    ensures forall k :: |r| <= k < |s| ==> IsBlank(s[k])
    ensures r != [] ==> !IsBlank(r[|r| - 1])
  {
    if s != [] && IsBlank(s[|s| - 1]) then TrimEnd(s[..|s| - 1]) else s
  }

  /** `String.trim()`: leading and trailing blanks removed. */
  function Trim(s: string): string
  {
    TrimEnd(TrimStart(s))
  }

  /** What `trim()` returns is a slice of `s`, and everything cut off on
      either side of it is blank. */
  lemma {:induction false} TrimIsSlice(s: string)
    ensures exists i, j ::
              && 0 <= i <= j <= |s| && Trim(s) == s[i..j]
              && (forall k :: 0 <= k < i ==> IsBlank(s[k]))
              && (forall k :: j <= k < |s| ==> IsBlank(s[k]))
  {
    var t := TrimStart(s);
    var i, j := |s| - |t|, |s| - |t| + |Trim(s)|;
    assert Trim(s) == s[i..j];
    forall k | j <= k < |s|
      ensures IsBlank(s[k])
    {
      assert s[k] == t[k - i];
    }
  }

  /** ... and it is the longest such slice: it neither starts nor ends with
      a blank. */
  lemma TrimEndsNonBlank(s: string)
    ensures Trim(s) != [] ==> !IsBlank(Trim(s)[0]) && !IsBlank(Trim(s)[|Trim(s)| - 1])
  {
    var t := TrimStart(s);
    if Trim(s) != [] {
      assert Trim(s)[0] == t[0];
    }
  }

  /** Every field of `s` between occurrences of `sep`, empty ones included:
      the list `split` builds before it discards trailing empty strings. */
  function Fields(s: string, sep: char): (r: seq<string>)
    ensures r != []
    ensures forall k :: 0 <= k < |r| ==> sep !in r[k]
  {
    if s == [] then [[]]
    else
      var rest := Fields(s[1..], sep);
      if s[0] == sep then [[]] + rest else [[s[0]] + rest[0]] + rest[1..]
  }

  /** The inverse of `Fields`: the fields glued back with `sep`. */
  function Join(fields: seq<string>, sep: char): string
    requires fields != []
  {
    if |fields| == 1 then fields[0] else fields[0] + [sep] + Join(fields[1..], sep)
  }

  lemma {:induction false} JoinFields(s: string, sep: char)
    ensures Join(Fields(s, sep), sep) == s
  {
    if s != [] {
      var rest := Fields(s[1..], sep);
      JoinFields(s[1..], sep);
      if s[0] == sep {
        assert Fields(s, sep)[1..] == rest;
      } else if |rest| == 1 {
        assert Join(Fields(s, sep), sep) == [s[0]] + rest[0];
      } else {
        assert Fields(s, sep)[1..] == rest[1..];
        assert Join(rest, sep) == rest[0] + [sep] + Join(rest[1..], sep);
        assert [s[0]] + rest[0] + [sep] + Join(rest[1..], sep) == [s[0]] + Join(rest, sep);
      }
    }
  }

  lemma {:induction false} FieldsJoin(fields: seq<string>, sep: char)
    requires fields != []
    requires forall k :: 0 <= k < |fields| ==> sep !in fields[k]
    ensures Fields(Join(fields, sep), sep) == fields
    decreases |fields|, |fields[0]|
  {
    var head := fields[0];
    if |fields| == 1 {
      if head != [] {
        FieldsJoin([head[1..]], sep);
        assert [head[1..]][0] == head[1..];
        assert head[1..] == Join([head[1..]], sep);
        assert head == [head[0]] + head[1..];
      }
    } else if head == [] {
      FieldsJoin(fields[1..], sep);
      assert Join(fields, sep) == [sep] + Join(fields[1..], sep);
      assert Join(fields, sep)[1..] == Join(fields[1..], sep);
      assert [[]] + fields[1..] == fields;
    } else {
      var shorter := [head[1..]] + fields[1..];
      assert shorter[1..] == fields[1..];
      FieldsJoin(shorter, sep);
      var s := Join(fields, sep);
      assert s == [head[0]] + Join(shorter, sep);
      assert s[1..] == Join(shorter, sep);
      assert [head[0]] + shorter[0] == head;
      assert [[head[0]] + shorter[0]] + shorter[1..] == fields;
    }
  }

  /** `fields` without its trailing empty strings. */
  function DropTrailingEmpty(fields: seq<string>): (r: seq<string>)
    ensures |r| <= |fields| && r == fields[..|r|]
    ensures r != [] ==> r[|r| - 1] != []
    ensures forall k :: |r| <= k < |fields| ==> fields[k] == []
  {
    if fields != [] && fields[|fields| - 1] == [] then DropTrailingEmpty(fields[..|fields| - 1])
    else fields
  }

  /** `s.split(sep)` for a separator that is not a regular-expression
      metacharacter: `[s]` when `sep` does not occur (even when `s` is
      empty), otherwise the fields with trailing empty ones discarded. */
  function Split(s: string, sep: char): seq<string>
  {
    if sep !in s then [s] else DropTrailingEmpty(Fields(s, sep))
  }

  /** No string `split` returns contains the separator, and each is a field
      of the input; what is left out are empty trailing fields only, and all
      of them go: when the separator occurs, the last string kept is not
      empty. */
  lemma SplitFields(s: string, sep: char)
    ensures forall k :: 0 <= k < |Split(s, sep)| ==> sep !in Split(s, sep)[k]
    ensures sep in s ==>
              && |Split(s, sep)| <= |Fields(s, sep)| && Split(s, sep) == Fields(s, sep)[..|Split(s, sep)|]
              && forall k :: |Split(s, sep)| <= k < |Fields(s, sep)| ==> Fields(s, sep)[k] == []
    ensures sep in s && Split(s, sep) != [] ==> Split(s, sep)[|Split(s, sep)| - 1] != []
  {
  }

  lemma {:induction false} JoinOfEmptyFields(fields: seq<string>, sep: char)
    requires fields != []
    requires forall k :: 0 <= k < |fields| ==> fields[k] == []
    ensures forall k :: 0 <= k < |Join(fields, sep)| ==> Join(fields, sep)[k] == sep
  {
    if |fields| > 1 {
      JoinOfEmptyFields(fields[1..], sep);
    }
  }

  lemma {:induction false} FieldsOfSeparators(s: string, sep: char)
    requires forall k :: 0 <= k < |s| ==> s[k] == sep
    ensures forall k :: 0 <= k < |Fields(s, sep)| ==> Fields(s, sep)[k] == []
  {
    if s != [] {
      FieldsOfSeparators(s[1..], sep);
    }
  }

  /** `split` returns no strings at all exactly when the input is a
      non-empty run of separators. */
  lemma SplitIsEmpty(s: string, sep: char)
    ensures Split(s, sep) == [] <==> s != [] && forall k :: 0 <= k < |s| ==> s[k] == sep
  {
    if Split(s, sep) == [] {
      JoinFields(s, sep);
      JoinOfEmptyFields(Fields(s, sep), sep);
    }
    if s != [] && forall k :: 0 <= k < |s| ==> s[k] == sep {
      assert s[0] == sep;
      FieldsOfSeparators(s, sep);
    }
  }

  /** The position of the first `sep` in `s`, or `|s|` when there is none. */
  function IndexOf(s: string, sep: char): (i: nat)
    ensures i <= |s| && sep !in s[..i]
    ensures i < |s| ==> s[i] == sep
    ensures i == |s| <==> sep !in s
  {
    if s == [] then 0
    else if s[0] == sep then 0
    else
      var i := IndexOf(s[1..], sep);
      assert s[..i + 1] == [s[0]] + s[1..][..i];
      i + 1
  }

  /** The text of `s` before its first `sep` (all of `s` when there is none). */
  function Before(s: string, sep: char): string
  {
    s[..IndexOf(s, sep)]
  }

  /** The text of `s` after its first `sep`. */
  function After(s: string, sep: char): string
    requires sep in s
  {
    s[IndexOf(s, sep) + 1..]
  }

  /** The first field is the text before the first separator, and the others
      are the fields of the text after it. */
  lemma {:induction false} FieldsAtFirst(s: string, sep: char)
    ensures Fields(s, sep)[0] == Before(s, sep)
    ensures sep in s ==> Fields(s, sep)[1..] == Fields(After(s, sep), sep)
    ensures sep !in s ==> Fields(s, sep) == [s]
  {
    if s != [] && s[0] != sep {
      FieldsAtFirst(s[1..], sep);
      assert Before(s, sep) == [s[0]] + Before(s[1..], sep);
      if sep !in s {
        assert sep !in s[1..];
        assert s == [s[0]] + s[1..];
      } else {
        assert sep in s[1..] by {
          var i := IndexOf(s, sep);
          assert s[1..][i - 1] == sep;
        }
        assert After(s, sep) == After(s[1..], sep);
      }
    }
  }

  /** Every string in `fields` is empty. */
  predicate AllEmpty(fields: seq<string>)
  {
    forall k :: 0 <= k < |fields| ==> fields[k] == []
  }

  /** `s` is made of `sep` only. */
  predicate AllSeparators(s: string, sep: char)
  {
    forall k :: 0 <= k < |s| ==> s[k] == sep
  }

  lemma EmptyFieldsAreSeparators(s: string, sep: char)
    ensures AllEmpty(Fields(s, sep)) ==> AllSeparators(s, sep)
  {
    if AllEmpty(Fields(s, sep)) {
      JoinFields(s, sep);
      JoinOfEmptyFields(Fields(s, sep), sep);
    }
  }

  /** All fields are empty exactly when the text is separators only. */
  lemma FieldsAllEmpty(s: string, sep: char)
    ensures AllEmpty(Fields(s, sep)) <==> AllSeparators(s, sep)
  {
    EmptyFieldsAreSeparators(s, sep);
    if AllSeparators(s, sep) {
      FieldsOfSeparators(s, sep);
    }
  }

  lemma DropKeepsTwo(fields: seq<string>)
    ensures |DropTrailingEmpty(fields)| >= 2 <==> exists k :: 1 <= k < |fields| && fields[k] != []
  {
    var r := DropTrailingEmpty(fields);
    if |r| >= 2 {
      assert fields[|r| - 1] != [];
    }
  }

  lemma {:induction false} NonSeparatorAfterFirst(s: string, sep: char)
    requires sep in s
    ensures (exists k :: 0 <= k < |After(s, sep)| && After(s, sep)[k] != sep)
        <==> (exists j :: IndexOf(s, sep) < j < |s| && s[j] != sep)
  {
    var i := IndexOf(s, sep);
    var rest := After(s, sep);
    if exists k :: 0 <= k < |rest| && rest[k] != sep {
      var k :| 0 <= k < |rest| && rest[k] != sep;
      assert s[i + 1 + k] == rest[k];
    }
    if exists j :: i < j < |s| && s[j] != sep {
      var j :| i < j < |s| && s[j] != sep;
      assert rest[j - i - 1] == s[j];
    }
  }

  lemma {:induction false} LaterFieldNonEmpty(s: string, sep: char)
    requires sep in s
    ensures (exists k :: 1 <= k < |Fields(s, sep)| && Fields(s, sep)[k] != [])
        <==> (exists k :: 0 <= k < |After(s, sep)| && After(s, sep)[k] != sep)
  {
    var fs := Fields(s, sep);
    var rest := After(s, sep);
    FieldsAtFirst(s, sep);
    FieldsAllEmpty(rest, sep);
    if exists k :: 1 <= k < |fs| && fs[k] != [] {
      var k :| 1 <= k < |fs| && fs[k] != [];
      assert Fields(rest, sep)[k - 1] == fs[k];
    }
    if exists k :: 0 <= k < |Fields(rest, sep)| && Fields(rest, sep)[k] != [] {
      var k :| 0 <= k < |Fields(rest, sep)| && Fields(rest, sep)[k] != [];
      assert fs[k + 1] == Fields(rest, sep)[k];
    }
  }

  /** `split` yields at least two strings exactly when some character other
      than `sep` follows the first `sep`. */
  lemma SplitHasSecond(s: string, sep: char)
    ensures |Split(s, sep)| >= 2 <==>
              sep in s && exists j :: IndexOf(s, sep) < j < |s| && s[j] != sep
  {
    if sep in s {
      assert Split(s, sep) == DropTrailingEmpty(Fields(s, sep));
      DropKeepsTwo(Fields(s, sep));
      LaterFieldNonEmpty(s, sep);
      NonSeparatorAfterFirst(s, sep);
    }
  }

  /** When `split` yields two strings or more, the first is the text before
      the first `sep` and the second the text from there up to the next one. */
  lemma SplitFirstTwo(s: string, sep: char)
    requires |Split(s, sep)| >= 2
    ensures Split(s, sep)[0] == Before(s, sep)
    ensures Split(s, sep)[1] == Before(After(s, sep), sep)
  {
    FieldsAtFirst(s, sep);
    FieldsAtFirst(After(s, sep), sep);
  }

  /** The first `sep` of a prefix that holds one is the first `sep` of the
      whole string. */
  lemma BeforeOfPrefix(s: string, p: string, sep: char, other: char)
    requires |p| <= |s| && p == s[..|p|] && sep in p && other !in p
    ensures sep in s && Before(s, sep) == Before(p, sep) && other !in Before(s, sep)
  {
    var i := IndexOf(p, sep);
    assert s[i] == sep;
    assert s[..i] == p[..i];
    forall k | 0 <= k < i ensures s[k] != other {
      assert s[k] == p[k];
    }
  }

  /** The first string `split` returns is a prefix of the input free of the
      separator. */
  lemma SplitFirstIsPrefix(s: string, sep: char)
    requires Split(s, sep) != []
    ensures |Split(s, sep)[0]| <= |s| && Split(s, sep)[0] == s[..|Split(s, sep)[0]|]
    ensures sep !in Split(s, sep)[0]
  {
    SplitFields(s, sep);
    if sep in s {
      FieldsAtFirst(s, sep);
    }
  }
}

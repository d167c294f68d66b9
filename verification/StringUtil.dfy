/** The string helpers that every printer of SQL and of query strings is built from. */
module StringUtil {

  /** The index of the first occurrence of a pattern, or the length of the text. */
  function Find(s: string, pattern: string): (i: nat)
    requires pattern != ""
    ensures i <= |s|
  {
    if s == "" || pattern <= s then 0 else 1 + Find(s[1..], pattern)
  }

  lemma {:induction false} FindIsFirst(s: string, pattern: string)
    requires pattern != ""
    ensures Find(s, pattern) < |s| ==> pattern <= s[Find(s, pattern)..]
    ensures forall j :: 0 <= j < Find(s, pattern) ==> !(pattern <= s[j..])
  {
    if s != "" && !(pattern <= s) {
      FindIsFirst(s[1..], pattern);
      assert s[0..] == s;
      assert forall j :: 1 <= j <= |s| ==> s[j..] == s[1..][j - 1..];
    }
  }

  /** Every occurrence replaced, from the left, never looking inside a replacement. */
  function Replaced(s: string, pattern: string, replacement: string): string
    requires pattern != ""
    decreases |s|
  {
    if s == "" then ""
    else if pattern <= s then replacement + Replaced(s[|pattern|..], pattern, replacement)
    else [s[0]] + Replaced(s[1..], pattern, replacement)
  }

  /** Text in which the pattern does not begin is copied. */
  lemma {:induction false} ReplacedBefore(s: string, n: nat, pattern: string, replacement: string)
    requires pattern != "" && n <= |s|
    requires forall j :: 0 <= j < n ==> !(pattern <= s[j..])
    ensures Replaced(s, pattern, replacement) == s[..n] + Replaced(s[n..], pattern, replacement)
  {
    if n > 0 {
      assert s[0..] == s;
      forall j | 0 <= j < n - 1 ensures !(pattern <= s[1..][j..]) {
        assert s[1..][j..] == s[j + 1..];
      }
      ReplacedBefore(s[1..], n - 1, pattern, replacement);
      assert s[1..][n - 1..] == s[n..];
      assert [s[0]] + s[1..][..n - 1] == s[..n];
    } else {
      assert s[0..] == s;
    }
  }

  lemma {:induction false} ReplacedFirst(s: string, pattern: string, replacement: string)
    requires pattern != ""
    ensures var i := Find(s, pattern);
            if i == |s| then Replaced(s, pattern, replacement) == s
            else
              && i + |pattern| <= |s|
              && Replaced(s, pattern, replacement)
                 == s[..i] + replacement + Replaced(s[i + |pattern|..], pattern, replacement)
  {
    hide Replaced, Find;
    var i := Find(s, pattern);
    FindIsFirst(s, pattern);
    ReplacedBefore(s, i, pattern, replacement);
    if i < |s| {
      var rest := s[i..];
      ReplacedHere(rest, pattern, replacement);
      assert rest[|pattern|..] == s[i + |pattern|..];
      Associate(s[..i], replacement, Replaced(rest[|pattern|..], pattern, replacement));
    } else {
      assert s[i..] == "";
      ReplacedNothing(pattern, replacement);
      assert s[..i] == s;
    }
  }

  lemma {:induction false} ReplacedHere(s: string, pattern: string, replacement: string)
    requires pattern != "" && pattern <= s
    ensures Replaced(s, pattern, replacement) == replacement + Replaced(s[|pattern|..], pattern, replacement)
  {
  }

  lemma {:induction false} ReplacedNothing(pattern: string, replacement: string)
    requires pattern != ""
    ensures Replaced("", pattern, replacement) == ""
  {
  }

  lemma {:induction false} Associate(a: string, b: string, c: string)
    ensures a + (b + c) == a + b + c
  {
  }

  method ReplaceAll(str: string, pattern: string, replacement: string) returns (result: string)
    requires pattern != ""
    ensures result == Replaced(str, pattern, replacement)
  {
    hide Replaced, Find;
    result := str;
    if str == "" {
      ReplacedNothing(pattern, replacement);
      return;
    }
    var cur: nat := 0;
    assert str[..0] + Replaced(str[0..], pattern, replacement) == Replaced(str, pattern, replacement) by {
      assert str[0..] == str;
    }
    while true
      invariant cur <= |result|
      invariant result[..cur] + Replaced(result[cur..], pattern, replacement) == Replaced(str, pattern, replacement)
      decreases |result| - cur
    {
      var i := Find(result[cur..], pattern);
      ReplaceStep(result, cur, i, pattern, replacement);
      if cur + i == |result| {
        return;
      }
      result := result[..cur + i] + replacement + result[cur + i + |pattern|..];
      cur := cur + i + |replacement|;
    }
  }

  /** One turn of the loop: the text before the cursor is final. */
  lemma {:induction false} ReplaceStep(s: string, cur: nat, i: nat, pattern: string, replacement: string)
    requires pattern != "" && cur <= |s| && i == Find(s[cur..], pattern)
    ensures cur + i == |s| ==> s[..cur] + Replaced(s[cur..], pattern, replacement) == s
    ensures cur + i < |s| ==>
              && cur + i + |pattern| <= |s|
              && var after := s[..cur + i] + replacement + s[cur + i + |pattern|..];
                 var next := cur + i + |replacement|;
                 after[..next] + Replaced(after[next..], pattern, replacement)
                 == s[..cur] + Replaced(s[cur..], pattern, replacement)
  {
    hide Replaced, Find;
    var todo := s[cur..];
    ReplacedFirst(todo, pattern, replacement);
    if i < |todo| {
      Spliced(s, cur, i, |pattern|, replacement);
      var more := Replaced(todo[i + |pattern|..], pattern, replacement);
      Associate(s[..cur], todo[..i] + replacement, more);
      Associate(s[..cur], todo[..i], replacement);
    } else {
      assert s[..cur] + s[cur..] == s;
    }
  }

  lemma {:induction false} Spliced(s: string, cur: nat, i: nat, n: nat, r: string)
    requires cur + i + n <= |s|
    ensures var after := s[..cur + i] + r + s[cur + i + n..];
            var next := cur + i + |r|;
            after[..next] == s[..cur] + s[cur..][..i] + r && after[next..] == s[cur..][i + n..]
  {
    assert s[..cur + i] == s[..cur] + s[cur..][..i];
    assert s[cur + i + n..] == s[cur..][i + n..];
  }

  /** The list with the separator between its parts. */
  function Joined(parts: seq<string>, separator: string): string {
    if parts == [] then ""
    else if |parts| == 1 then parts[0]
    else parts[0] + separator + Joined(parts[1..], separator)
  }

  lemma {:induction false} JoinedOneMore(parts: seq<string>, part: string, separator: string)
    requires parts != []
    ensures Joined(parts + [part], separator) == Joined(parts, separator) + separator + part
  {
    if |parts| == 1 {
      assert (parts + [part])[1..] == [part];
    } else {
      assert (parts + [part])[1..] == parts[1..] + [part];
      JoinedOneMore(parts[1..], part, separator);
      var first, middle := parts[0] + separator, Joined(parts[1..], separator);
      assert first + (middle + separator + part) == first + middle + separator + part;
    }
  }

  method Join(list: seq<string>, join: string) returns (out: string)
    ensures out == Joined(list, join)
  {
    out := "";
    for i := 0 to |list|
      invariant out == Joined(list[..i], join)
    {
      if i > 0 {
        out := out + join;
        JoinedOneMore(list[..i], list[i], join);
      }
      out := out + list[i];
      assert list[..i + 1] == list[..i] + [list[i]];
    }
    assert list[..|list|] == list;
  }

  // ------------------------------------------------------------------
  // Decimal numbers
  // ------------------------------------------------------------------

  function Digit(d: nat): (c: char)
    requires d < 10
    ensures '0' <= c <= '9' && c as int - '0' as int == d
  {
    ('0' as int + d) as char
  }

  predicate IsDigit(c: char) {
    '0' <= c <= '9'
  }

  predicate AllDigits(s: string) {
    forall i :: 0 <= i < |s| ==> IsDigit(s[i])
  }

  function ToString(n: nat): (s: string)
    ensures s != "" && AllDigits(s)
  {
    if n < 10 then [Digit(n)] else ToString(n / 10) + [Digit(n % 10)]
  }

  function ToNumber(s: string): nat
    requires AllDigits(s)
  {
    if s == "" then 0 else 10 * ToNumber(s[..|s| - 1]) + (s[|s| - 1] as int - '0' as int)
  }

  lemma {:induction false} NumberRoundTrip(n: nat)
    ensures ToNumber(ToString(n)) == n
  {
    var s := ToString(n);
    if n < 10 {
      assert s[..0] == "";
    } else {
      NumberRoundTrip(n / 10);
      assert s[..|s| - 1] == ToString(n / 10);
    }
  }

  // ------------------------------------------------------------------
  // Templates
  // ------------------------------------------------------------------

  /** The placeholders `$0`, `$1`, ... filled in one after the other, each in the text that
      the earlier ones left. */
  function Format(template: string, values: seq<string>): string {
    FormatFrom(template, 0, values)
  }

  function FormatFrom(scratch: string, argn: nat, values: seq<string>): string
    decreases values
  {
    if values == [] then scratch
    else FormatFrom(Replaced(scratch, "$" + ToString(argn), values[0]), argn + 1, values[1..])
  }

  /** No dollar sign stands before this digit. */
  predicate NoMark(s: string, d: char) {
    forall j :: 0 <= j < |s| - 1 ==> !(s[j] == '$' && s[j + 1] == d)
  }

  lemma {:induction false} NoMarkJoined(a: string, b: string, d: char)
    requires NoMark(a, d) && NoMark(b, d) && d != '$'
    requires b != "" ==> b[0] != d
    ensures NoMark(a + b, d)
  {
    forall j | 0 <= j < |a + b| - 1 ensures !((a + b)[j] == '$' && (a + b)[j + 1] == d) {
      if j >= |a| {
        assert (a + b)[j] == b[j - |a|] && (a + b)[j + 1] == b[j + 1 - |a|];
      } else if j + 1 < |a| {
        assert (a + b)[j] == a[j] && (a + b)[j + 1] == a[j + 1];
      } else {
        assert (a + b)[j + 1] == b[0];
      }
    }
  }

  /** Filling in the first placeholder of its number. */
  lemma {:induction false} FillPlaceholder(before: string, n: nat, after: string, value: string)
    requires NoMark(before, ToString(n)[0])
    ensures var p := "$" + ToString(n);
            Replaced(before + p + after, p, value) == before + value + Replaced(after, p, value)
  {
    var p := "$" + ToString(n);
    var s := before + p + after;
    forall j | 0 <= j < |before| ensures !(p <= s[j..]) {
      assert s[j..][0] == before[j];
      assert p[0] == '$' && |p| >= 2 && p[1] == ToString(n)[0];
      assert s[j..][1] == s[j + 1];
      assert j + 1 < |before| ==> s[j + 1] == before[j + 1];
      assert j + 1 == |before| ==> s[j + 1] == '$';
    }
    ReplacedBefore(s, |before|, p, value);
    assert s[|before|..] == p + after;
    assert (p + after)[|p|..] == after;
    assert s[..|before|] == before;
    assert before + (value + Replaced(after, p, value)) == before + value + Replaced(after, p, value);
  }

  /** Text without a dollar sign has no placeholders. */
  lemma {:induction false} NoPlaceholder(s: string, n: nat, value: string)
    requires '$' !in s
    ensures Replaced(s, "$" + ToString(n), value) == s
  {
    var p := "$" + ToString(n);
    forall j | 0 <= j < |s| ensures !(p <= s[j..]) {
      assert s[j..][0] == s[j];
      assert p[0] == '$';
    }
    ReplacedBefore(s, |s|, p, value);
    assert s[|s|..] == "";
    assert s[..|s|] == s;
  }

  lemma {:induction false} FormatOne(before: string, after: string, value: string)
    requires '$' !in before && '$' !in after
    ensures Format(before + "$0" + after, [value] + []) == before + value + after
  {
    hide Replaced;
    var p := "$" + ToString(0);
    assert ToString(0) == "0";
    assert p == "$0";
    FillPlaceholder(before, 0, after, value);
    NoPlaceholder(after, 0, value);
    FormatStep(before + p + after, 0, value, []);
  }

  /** With two placeholders, the first value must not bring in a dollar sign of its own. */
  lemma {:induction false} FormatTwo(before: string, between: string, after: string, v0: string, v1: string)
    requires '$' !in before && '$' !in between && '$' !in after && '$' !in v0
    ensures Format(before + "$0" + (between + "$1" + after), [v0] + [v1]) == before + v0 + between + v1 + after
  {
    hide Replaced;
    var p, q := "$" + ToString(0), "$" + ToString(1);
    assert ToString(0) == "0" && ToString(1) == "1";
    assert p == "$0" && q == "$1";
    var tail := between + "$1" + after;
    FillPlaceholder(before, 0, tail, v0);
    SkipOther(between, "1", after, 0, v0);
    var scratch := before + v0 + tail;
    assert scratch == (before + v0 + between) + "$1" + after;
    FillPlaceholder(before + v0 + between, 1, after, v1);
    NoPlaceholder(after, 1, v1);
    assert before + "$0" + tail == before + p + tail;
    FormatStep(before + p + tail, 0, v0, [v1]);
    FormatStep(scratch, 1, v1, []);
  }

  /** With three placeholders, no value must bring in the number of a later one. */
  lemma {:induction false} FormatThree(before: string, b1: string, b2: string, after: string, v0: string, v1: string, v2: string)
    requires '$' !in before && '$' !in b1 && '$' !in b2 && '$' !in after
    requires b1 != "" && b2 != "" && b1[0] == b2[0] == ','
    requires NoMark(v0, '1') && NoMark(v0, '2') && NoMark(v1, '2')
    ensures Format(before + "$0" + (b1 + "$1" + (b2 + "$2" + after)), [v0] + ([v1] + [v2]))
         == before + v0 + b1 + v1 + b2 + v2 + after
  {
    hide Replaced;
    var p, q, r := "$" + ToString(0), "$" + ToString(1), "$" + ToString(2);
    assert ToString(0) == "0" && ToString(1) == "1" && ToString(2) == "2";
    assert p == "$0" && q == "$1" && r == "$2";
    var last := b2 + "$2" + after;
    var tail := b1 + "$1" + last;
    SkipOther(b2, "2", after, 0, v0);
    FillPlaceholder(before, 0, tail, v0);
    SkipTwo(b1, "1", b2, "2", after, 0, v0);
    assert before + "$0" + tail == before + p + tail;
    FormatStep(before + p + tail, 0, v0, [v1] + [v2]);
    var one := before + v0 + b1;
    BehindPlain(before, v0, '1');
    NoMarkJoined(before + v0, b1, '1');
    BehindPlain(before, v0, '2');
    NoMarkJoined(before + v0, b1, '2');
    assert before + v0 + tail == one + q + last;
    FillPlaceholder(one, 1, last, v1);
    SkipOther(b2, "2", after, 1, v1);
    FormatStep(one + q + last, 1, v1, [v2]);
    var two := one + v1 + b2;
    BehindSeparator(one, v1, before + v0, b1);
    NoMarkJoined(one + v1, b2, '2');
    assert one + v1 + last == two + r + after;
    FillPlaceholder(two, 2, after, v2);
    NoPlaceholder(after, 2, v2);
    FormatStep(two + r + after, 2, v2, []);
    assert [v2] + [] == [v2];
  }

  lemma {:induction false} BehindPlain(before: string, v: string, d: char)
    requires '$' !in before && NoMark(v, d)
    ensures NoMark(before + v, d)
  {
    var s := before + v;
    forall j | 0 <= j < |s| - 1 ensures !(s[j] == '$' && s[j + 1] == d) {
      if j < |before| {
        assert s[j] == before[j];
      } else {
        assert s[j] == v[j - |before|] && s[j + 1] == v[j + 1 - |before|];
      }
    }
  }

  /** Behind a text that ends without a dollar sign. */
  lemma {:induction false} BehindSeparator(one: string, v: string, front: string, b: string)
    requires one == front + b && b != "" && '$' !in b
    requires NoMark(one, '2') && NoMark(v, '2')
    ensures NoMark(one + v, '2')
  {
    var s := one + v;
    forall j | 0 <= j < |s| - 1 ensures !(s[j] == '$' && s[j + 1] == '2') {
      if j + 1 < |one| {
        assert s[j] == one[j] && s[j + 1] == one[j + 1];
      } else if j < |one| {
        assert s[j] == b[|b| - 1];
      } else {
        assert s[j] == v[j - |one|] && s[j + 1] == v[j + 1 - |one|];
      }
    }
  }

  lemma {:induction false} SkipTwo(b1: string, x: string, b2: string, y: string, after: string, n: nat, value: string)
    requires '$' !in b1 && '$' !in b2 && '$' !in after && '$' !in x && '$' !in y && x != "" && y != ""
    requires n < 10 && x[0] != ToString(n)[0] && y[0] != ToString(n)[0]
    ensures var s := b1 + ("$" + x) + (b2 + ("$" + y) + after); Replaced(s, "$" + ToString(n), value) == s
  {
    var p := "$" + ToString(n);
    var tail := b2 + ("$" + y) + after;
    var s := b1 + ("$" + x) + tail;
    var m := |b1| + 1 + |x|;
    forall j | 0 <= j < m ensures !(p <= s[j..]) {
      assert p[0] == '$' && |p| >= 2;
      assert s[j..][0] == s[j];
      if s[j] == '$' {
        assert j == |b1|;
        assert s[j..][1] == s[j + 1] == x[0];
      }
    }
    ReplacedBefore(s, m, p, value);
    assert s[m..] == tail && s[..m] == b1 + ("$" + x);
    SkipOther(b2, y, after, n, value);
  }

  lemma {:induction false} FormatStep(scratch: string, argn: nat, value: string, values: seq<string>)
    ensures FormatFrom(scratch, argn, [value] + values)
         == FormatFrom(Replaced(scratch, "$" + ToString(argn), value), argn + 1, values)
  {
    assert ([value] + values)[1..] == values;
  }

  /** Another placeholder is left alone. */
  lemma {:induction false} SkipOther(before: string, other: string, after: string, n: nat, value: string)
    requires '$' !in before && '$' !in after && '$' !in other && other != "" && n < 10 && other[0] != ToString(n)[0]
    ensures var s := before + ("$" + other) + after; Replaced(s, "$" + ToString(n), value) == s
  {
    var p := "$" + ToString(n);
    var s := before + ("$" + other) + after;
    forall j | 0 <= j < |s| ensures !(p <= s[j..]) {
      assert p[0] == '$' && |p| >= 2;
      assert s[j..][0] == s[j];
      if s[j] == '$' {
        assert j == |before|;
        assert j + 1 < |s| ==> s[j..][1] == s[j + 1];
        assert s[j + 1] == other[0];
      }
    }
    ReplacedBefore(s, |s|, p, value);
    assert s[|s|..] == "";
    assert s[..|s|] == s;
  }
}

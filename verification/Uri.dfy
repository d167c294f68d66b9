/**
  Query strings: percent-encoding (section 2.1 of RFC 3986) and, on top of it, the list of
  parameters joined by `&` and `=`. Strings are byte strings.
  */
module Uri {
  import opened Wrappers
  import opened StringUtil

  /** A string whose characters are bytes. */
  predicate IsBytes(s: string) {
    forall i :: 0 <= i < |s| ==> s[i] as int < 256
  }

  predicate IsUnreserved(c: char) {
    'A' <= c <= 'Z' || 'a' <= c <= 'z' || '0' <= c <= '9' || c == '-' || c == '_' || c == '.' || c == '~'
  }

  function HexDigit(d: nat): (c: char)
    requires d < 16
    ensures IsHex(c) && HexValue(c) == d
  {
    if d < 10 then ('0' as int + d) as char else ('A' as int + d - 10) as char
  }

  predicate IsHex(c: char) {
    '0' <= c <= '9' || 'a' <= c <= 'f' || 'A' <= c <= 'F'
  }

  function HexValue(c: char): (d: nat)
    requires IsHex(c)
    ensures d < 16
  {
    if '0' <= c <= '9' then c as int - '0' as int
    else if 'a' <= c <= 'f' then c as int - 'a' as int + 10
    else c as int - 'A' as int + 10
  }

  function EncodedChar(c: char): string
    requires c as int < 256
  {
    if IsUnreserved(c) then [c] else ['%', HexDigit(c as int / 16), HexDigit(c as int % 16)]
  }

  function Encoded(s: string): string
    requires IsBytes(s)
  {
    if s == "" then "" else EncodedChar(s[0]) + Encoded(s[1..])
  }

  /** A percent sign in front of anything but two hexadecimal digits stands for itself; None is
      the exception for a percent sign without two characters behind it. */
  function Decoded(s: string): Option<string> {
    if s == "" then Some("")
    else if s[0] == '%' then
      if |s| < 3 then None
      else if IsHex(s[1]) && IsHex(s[2]) then
        Prepended((16 * HexValue(s[1]) + HexValue(s[2])) as char, Decoded(s[3..]))
      else Prepended('%', Decoded(s[1..]))
    else Prepended(if s[0] == '+' then ' ' else s[0], Decoded(s[1..]))
  }

  function Prepended(c: char, s: Option<string>): Option<string> {
    if s.None? then None else Some([c] + s.value)
  }

  // ------------------------------------------------------------------
  // The loops
  // ------------------------------------------------------------------

  lemma {:induction false} EncodedOneMore(s: string, c: char)
    requires IsBytes(s) && c as int < 256
    ensures Encoded(s + [c]) == Encoded(s) + EncodedChar(c)
  {
    hide EncodedChar;
    if s == "" {
      assert [c][1..] == "" && s + [c] == [c];
      assert EncodedChar(c) + "" == "" + EncodedChar(c);
    } else {
      assert (s + [c])[1..] == s[1..] + [c];
      EncodedOneMore(s[1..], c);
      Associate(EncodedChar(s[0]), Encoded(s[1..]), EncodedChar(c));
    }
  }

  method UrlEncode(str: string) returns (encoded: string)
    requires IsBytes(str)
    ensures encoded == Encoded(str)
  {
    encoded := "";
    for i := 0 to |str|
      invariant encoded == Encoded(str[..i])
    {
      var c := str[i];
      EncodedOneMore(str[..i], c);
      assert str[..i + 1] == str[..i] + [c];
      if IsUnreserved(c) {
        encoded := encoded + [c];
      } else {
        ghost var before := encoded;
        encoded := encoded + ['%'];
        encoded := encoded + [HexDigit(c as int / 16)];
        encoded := encoded + [HexDigit(c as int % 16)];
        assert encoded == before + EncodedChar(c);
      }
    }
    assert str[..|str|] == str;
  }

  /** What decoding gives, with text that is already decoded in front. */
  function After(done: string, rest: Option<string>): Option<string> {
    if rest.None? then None else Some(done + rest.value)
  }

  lemma {:induction false} AfterOneMore(done: string, c: char, rest: Option<string>)
    ensures After(done, Prepended(c, rest)) == After(done + [c], rest)
  {
    if rest.Some? {
      Associate(done, [c], rest.value);
    }
  }

  method UrlDecode(str: string) returns (decoded: Option<string>)
    ensures decoded == Decoded(str)
  {
    hide IsHex, HexValue;
    var out := "";
    var begin: nat := 0;
    assert str[0..] == str;
    if Decoded(str).Some? {
      assert "" + Decoded(str).value == Decoded(str).value;
    }
    while begin != |str|
      invariant begin <= |str|
      invariant Decoded(str) == After(out, Decoded(str[begin..]))
    {
      ghost var rest := str[begin..];
      assert rest[1..] == str[begin + 1..];
      if str[begin] == '%' {
        begin := begin + 1;
        if begin + 2 > |str| {
          return None;
        }
        assert rest[3..] == str[begin + 2..];
        if !(IsHex(str[begin]) && IsHex(str[begin + 1])) {
          AfterOneMore(out, '%', Decoded(rest[1..]));
          out := out + "%";
          continue;
        }
        var c := (16 * HexValue(str[begin]) + HexValue(str[begin + 1])) as char;
        AfterOneMore(out, c, Decoded(rest[3..]));
        out := out + [c];
        begin := begin + 2;
      } else {
        var c := if str[begin] == '+' then ' ' else str[begin];
        AfterOneMore(out, c, Decoded(rest[1..]));
        out := out + [c];
        begin := begin + 1;
      }
    }
    assert out + "" == out;
    decoded := Some(out);
  }

  // ------------------------------------------------------------------
  // Encoding and decoding
  // ------------------------------------------------------------------

  /** Decoding takes back encoding, for every byte string. */
  lemma {:induction false} DecodeEncode(s: string)
    requires IsBytes(s)
    ensures Decoded(Encoded(s)) == Some(s)
  {
    if s != "" {
      DecodeEncode(s[1..]);
      DecodeChar(s[0], Encoded(s[1..]));
      assert [s[0]] + s[1..] == s;
    }
  }

  lemma {:induction false} DecodeChar(c: char, rest: string)
    requires c as int < 256
    ensures Decoded(EncodedChar(c) + rest) == Prepended(c, Decoded(rest))
  {
    hide IsHex, HexValue;
    var s := EncodedChar(c) + rest;
    if IsUnreserved(c) {
      assert s[1..] == rest;
    } else {
      assert s[1..][..2] == [HexDigit(c as int / 16), HexDigit(c as int % 16)];
      assert s[3..] == rest;
      assert (16 * (c as int / 16) + c as int % 16) as char == c;
    }
  }

  // ------------------------------------------------------------------
  // What encoded text looks like, and what text is decoded to
  // ------------------------------------------------------------------

  /** The characters that are not encoded. */
  predicate IsPlain(c: char) {
    match c
    case 'A' | 'B' | 'C' | 'D' | 'E' | 'F' | 'G' | 'H' | 'I' | 'J' | 'K' | 'L' | 'M' => true
    case 'N' | 'O' | 'P' | 'Q' | 'R' | 'S' | 'T' | 'U' | 'V' | 'W' | 'X' | 'Y' | 'Z' => true
    case 'a' | 'b' | 'c' | 'd' | 'e' | 'f' | 'g' | 'h' | 'i' | 'j' | 'k' | 'l' | 'm' => true
    case 'n' | 'o' | 'p' | 'q' | 'r' | 's' | 't' | 'u' | 'v' | 'w' | 'x' | 'y' | 'z' => true
    case '0' | '1' | '2' | '3' | '4' | '5' | '6' | '7' | '8' | '9' | '-' | '_' | '.' | '~' => true
    case _ => false
  }

  /** A digit, as it is written in capitals or in small letters. */
  predicate IsDigitFor(c: char, d: nat) {
    d < 16 && (c == "0123456789ABCDEF"[d] || c == "0123456789abcdef"[d])
  }

  /** The text of one character. */
  ghost predicate Writes(text: string, c: char) {
    || (text == [c] && c != '%' && c != '+')
    || (text == "+" && c == ' ')
    || (|text| == 3 && text[0] == '%'
        && exists hi: nat, lo: nat :: IsDigitFor(text[1], hi) && IsDigitFor(text[2], lo) && c as int == 16 * hi + lo)
  }

  function Concatenated(texts: seq<string>): string {
    if texts == [] then "" else texts[0] + Concatenated(texts[1..])
  }

  lemma {:induction false} DigitIs(c: char, d: nat)
    requires IsDigitFor(c, d)
    ensures IsHex(c) && HexValue(c) == d
  {
  }

  lemma {:induction false} HexIff(c: char)
    ensures IsHex(c) <==> exists d: nat :: IsDigitFor(c, d)
  {
    if IsHex(c) {
      DigitWritten(c);
    } else if d: nat :| IsDigitFor(c, d) {
      DigitIs(c, d);
    }
  }

  lemma {:induction false} DigitWritten(c: char)
    requires IsHex(c)
    ensures IsDigitFor(c, HexValue(c))
  {
  }

  lemma {:induction false} WrittenIsDecoded(text: string, c: char, rest: string)
    requires Writes(text, c)
    ensures Decoded(text + rest) == Prepended(c, Decoded(rest))
  {
    hide IsHex, HexValue, IsDigitFor;
    var s := text + rest;
    assert s[|text|..] == rest;
    if |text| == 3 {
      var hi: nat, lo: nat :| IsDigitFor(text[1], hi) && IsDigitFor(text[2], lo) && c as int == 16 * hi + lo;
      DigitIs(text[1], hi);
      DigitIs(text[2], lo);
      assert (16 * hi + lo) as char == c;
    }
  }

  /** However the characters are written, decoding gives them back: as they are, a space as a plus
      sign, or by the digits of their number, in capitals or in small letters. */
  lemma {:induction false} WritingIsDecoded(texts: seq<string>, s: string)
    requires |texts| == |s| && forall i :: 0 <= i < |s| ==> Writes(texts[i], s[i])
    ensures Decoded(Concatenated(texts)) == Some(s)
  {
    hide Writes, Decoded;
    if texts == [] {
      NothingDecoded();
    } else {
      WritingIsDecoded(texts[1..], s[1..]);
      WrittenIsDecoded(texts[0], s[0], Concatenated(texts[1..]));
      assert [s[0]] + s[1..] == s;
    }
  }

  lemma {:induction false} NothingDecoded()
    ensures Decoded("") == Some("")
  {
  }

  /** A percent sign needs two characters behind it, and stands for itself if they are not digits. */
  lemma {:induction false} OtherPercent(k: string)
    requires |k| < 2 || !(exists d: nat :: IsDigitFor(k[0], d)) || !(exists d: nat :: IsDigitFor(k[1], d))
    ensures Decoded("%" + k) == if |k| < 2 then None else Prepended('%', Decoded(k))
  {
    hide IsHex, HexValue, IsDigitFor;
    var s := "%" + k;
    assert s[1..] == k;
    if |k| >= 2 {
      HexIff(k[0]);
      HexIff(k[1]);
    }
  }

  /** Encoded text has the unreserved characters as they are, and every other one as a percent sign
      and the two digits of its number, in capitals. */
  lemma {:induction false} EncodedIs(s: string)
    requires IsBytes(s)
    ensures Encoded(s) == Concatenated(seq(|s|, i requires 0 <= i < |s| => CharText(s[i])))
  {
    hide EncodedChar, CharText;
    if s != "" {
      var texts := seq(|s|, i requires 0 <= i < |s| => CharText(s[i]));
      EncodedIs(s[1..]);
      assert texts[1..] == seq(|s[1..]|, i requires 0 <= i < |s[1..]| => CharText(s[1..][i]));
      CharTextIs(s[0]);
    }
  }

  function CharText(c: char): string {
    if c as int >= 256 then ""
    else if IsPlain(c) then [c]
    else "%" + ["0123456789ABCDEF"[c as int / 16]] + ["0123456789ABCDEF"[c as int % 16]]
  }

  lemma {:induction false} CharTextIs(c: char)
    requires c as int < 256
    ensures EncodedChar(c) == CharText(c)
  {
    hide HexDigit, IsUnreserved;
    PlainIff(c);
    HexDigitIs(c as int / 16);
    HexDigitIs(c as int % 16);
  }

  lemma {:induction false} HexDigitIs(d: nat)
    requires d < 16
    ensures HexDigit(d) == "0123456789ABCDEF"[d]
  {
  }

  lemma {:induction false} PlainIff(c: char)
    ensures IsUnreserved(c) <==> IsPlain(c)
  {
  }

  /** Characters that have a meaning in a query string, or in a template. */
  predicate IsSpecial(c: char) {
    c == '&' || c == '=' || c == '+' || c == '$'
  }

  predicate IsClean(s: string) {
    forall i :: 0 <= i < |s| ==> !IsSpecial(s[i])
  }

  lemma {:induction false} EncodedIsClean(s: string)
    requires IsBytes(s)
    ensures IsClean(Encoded(s))
    ensures Encoded(s) == "" <==> s == ""
  {
    if s != "" {
      EncodedIsClean(s[1..]);
    }
  }

  // ------------------------------------------------------------------
  // Parameters
  // ------------------------------------------------------------------

  type Param = (string, string)

  predicate AreBytes(ps: seq<Param>) {
    forall i :: 0 <= i < |ps| ==> IsBytes(ps[i].0) && IsBytes(ps[i].1)
  }

  /** One parameter; the two texts fill a template. */
  function PairText(p: Param): string
    requires IsBytes(p.0) && IsBytes(p.1)
  {
    Format("$0=$1", [Encoded(p.0), Encoded(p.1)])
  }

  lemma {:induction false} PairTextIs(p: Param)
    requires IsBytes(p.0) && IsBytes(p.1)
    ensures PairText(p) == Encoded(p.0) + "=" + Encoded(p.1)
  {
    hide Encoded, FormatFrom;
    var k, v := Encoded(p.0), Encoded(p.1);
    EncodedIsClean(p.0);
    assert '$' !in k;
    assert "" + "$0" + ("=" + "$1" + "") == "$0=$1";
    FormatTwo("", "=", "", k, v);
    assert [k] + [v] == [k, v];
    assert "" + k + "=" + v + "" == k + "=" + v;
  }

  function Query(ps: seq<Param>): string
    requires AreBytes(ps)
  {
    if ps == [] then ""
    else PairText(ps[0]) + if |ps| == 1 then "" else "&" + Query(ps[1..])
  }

  lemma {:induction false} QueryOneMore(ps: seq<Param>, p: Param)
    requires AreBytes(ps) && ps != [] && IsBytes(p.0) && IsBytes(p.1)
    ensures AreBytes(ps + [p])
    ensures Query(ps + [p]) == Query(ps) + "&" + PairText(p)
  {
    hide PairText;
    assert (ps + [p])[1..] == ps[1..] + [p];
    if |ps| == 1 {
      assert Query([p]) == PairText(p) + "";
      assert PairText(ps[0]) + ("&" + (PairText(p) + "")) == PairText(ps[0]) + "" + "&" + PairText(p);
    } else {
      QueryOneMore(ps[1..], p);
      var a, b := PairText(ps[0]), Query(ps[1..]);
      assert a + ("&" + (b + "&" + PairText(p))) == a + ("&" + b) + "&" + PairText(p);
    }
  }

  lemma {:induction false} PairTextUnfold(p: Param)
    requires IsBytes(p.0) && IsBytes(p.1)
    ensures PairText(p) == Format("$0=$1", [Encoded(p.0), Encoded(p.1)])
  {
  }

  method BuildQueryString(ps: seq<Param>) returns (out: string)
    requires AreBytes(ps)
    ensures out == Query(ps)
  {
    hide PairText, Encoded, Format;
    out := "";
    for i := 0 to |ps|
      invariant AreBytes(ps[..i]) && out == Query(ps[..i])
    {
      assert ps[..i + 1] == ps[..i] + [ps[i]];
      ghost var before := out;
      if i > 0 {
        QueryOneMore(ps[..i], ps[i]);
        out := out + "&";
      } else {
        assert Query([ps[i]]) == PairText(ps[i]) + "";
        assert ps[..i] + [ps[i]] == [ps[i]];
      }
      var k := UrlEncode(ps[i].0);
      var v := UrlEncode(ps[i].1);
      PairTextUnfold(ps[i]);
      out := out + Format("$0=$1", [k, v]);
    }
    assert ps[..|ps|] == ps;
  }

  /** How many of the first characters are neither `=` nor `&`. */
  function Until(s: string): (n: nat)
    ensures n <= |s| && (forall i :: 0 <= i < n ==> s[i] != '=' && s[i] != '&')
    ensures n < |s| ==> s[n] == '=' || s[n] == '&'
  {
    if s == "" || s[0] == '=' || s[0] == '&' then 0 else 1 + Until(s[1..])
  }

  /** What a text starts with: a parameter and the text behind it, something that ends the
      parsing, or a parameter that cannot be decoded. */
  datatype First = Param(key: string, value: string, rest: string) | End | Undecodable

  function FirstParam(s: string): (f: First)
    ensures f.Param? ==> |f.rest| < |s|
  {
    var k := Until(s);
    if k == 0 || k == |s| || s[k] != '=' then End
    else
      var rest := s[k + 1..];
      var v := Until(rest);
      var key, value := Decoded(s[..k]), Decoded(rest[..v]);
      if key.None? || value.None? then Undecodable else First.Param(key.value, value.value, Behind(rest, v))
  }

  /** The parameters in a text; parsing ends at the first one without a key or without an equals
      sign. None is an exception while decoding. */
  function Parsed(s: string): Option<seq<Param>>
    decreases |s|
  {
    match FirstParam(s)
    case End => Some([])
    case Undecodable => None
    case Param(key, value, rest) => AfterParams([(key, value)], Parsed(rest))
  }

  function AfterParams(done: seq<Param>, rest: Option<seq<Param>>): Option<seq<Param>> {
    if rest.None? then None else Some(done + rest.value)
  }

  /** The text behind the character that ended a value. */
  function Behind(s: string, n: nat): (r: string)
    requires n <= |s|
    ensures |r| <= |s|
  {
    if n == |s| then "" else s[n + 1..]
  }

  method SkipTo(query: string, from: nat) returns (cur: nat)
    requires from <= |query|
    ensures cur == from + Until(query[from..])
  {
    cur := from;
    while cur < |query| && query[cur] != '=' && query[cur] != '&'
      invariant from <= cur <= |query|
      invariant Until(query[from..]) == cur - from + Until(query[cur..])
    {
      assert query[cur..][1..] == query[cur + 1..];
      cur := cur + 1;
    }
  }

  function From(query: string, cur: nat): string {
    if cur <= |query| then query[cur..] else ""
  }

  /** One turn of the loop. */
  method ParseParam(query: string, begin: nat) returns (first: First, next: nat)
    requires begin < |query|
    ensures first == FirstParam(From(query, begin))
    ensures first.Param? ==> next > begin && first.rest == From(query, next)
  {
    hide Decoded, Until;
    ghost var s := query[begin..];
    var cur := SkipTo(query, begin);
    if !(cur > begin && cur < |query| && query[cur] == '=') {
      return End, cur;
    }
    var key := UrlDecode(query[begin..cur]);
    assert query[begin..cur] == s[..cur - begin];
    var val := cur + 1;
    ghost var rest := s[cur - begin + 1..];
    assert query[val..] == rest;
    cur := SkipTo(query, val);
    assert query[val..cur] == rest[..cur - val];
    var value: Option<string>;
    if cur > val {
      value := UrlDecode(query[val..cur]);
    } else {
      NothingToDecode();
      value := Some("");
    }
    next := cur + 1;
    if key.None? || value.None? {
      return Undecodable, next;
    }
    first := First.Param(key.value, value.value, From(query, next));
  }

  /** The loop starts each turn on the character behind the last value, where the next key
      begins. */
  method ParseQueryString(query: string) returns (params: Option<seq<Param>>)
    ensures params == Parsed(query)
  {
    hide FirstParam;
    var out: seq<Param> := [];
    var cur: nat := 0;
    NothingDone(Parsed(query));
    assert From(query, 0) == query;
    while cur < |query|
      invariant Parsed(query) == AfterParams(out, Parsed(From(query, cur)))
      decreases |query| - cur
    {
      var first, next := ParseParam(query, cur);
      match first {
        case End =>
          assert out + [] == out;
          return Some(out);
        case Undecodable =>
          return None;
        case Param(key, value, rest) =>
          ParamTaken(out, (key, value), Parsed(rest));
          out := out + [(key, value)];
          cur := next;
      }
    }
    assert From(query, cur) == "";
    assert out + [] == out;
    NothingToParse();
    params := Some(out);
  }

  lemma {:induction false} NothingDone(rest: Option<seq<Param>>)
    ensures AfterParams([], rest) == rest
  {
    if rest.Some? {
      assert [] + rest.value == rest.value;
    }
  }

  lemma {:induction false} NothingToDecode()
    ensures Decoded("") == Some("")
  {
  }

  lemma {:induction false} NothingToParse()
    ensures Parsed("") == Some([])
  {
  }

  lemma {:induction false} ParamTaken(out: seq<Param>, p: Param, more: Option<seq<Param>>)
    ensures AfterParams(out, AfterParams([p], more)) == AfterParams(out + [p], more)
  {
    if more.Some? {
      assert out + ([p] + more.value) == out + [p] + more.value;
    }
  }

  // ------------------------------------------------------------------
  // There and back
  // ------------------------------------------------------------------

  lemma {:induction false} UntilExactly(s: string, rest: string)
    requires IsClean(s) && (rest == "" || rest[0] == '=' || rest[0] == '&')
    ensures Until(s + rest) == |s|
  {
    if s == "" {
      assert s + rest == rest;
    } else {
      assert (s + rest)[1..] == s[1..] + rest;
      assert !IsSpecial(s[0]);
      UntilExactly(s[1..], rest);
    }
  }

  /** The parameters before the first one with an empty key. */
  function UpToEmptyKey(ps: seq<Param>): seq<Param> {
    if ps == [] || ps[0].0 == "" then [] else [ps[0]] + UpToEmptyKey(ps[1..])
  }

  /** The text of a parameter is read as that parameter, or ends the parsing. */
  lemma {:induction false} FirstOfPair(p: Param, more: string)
    requires IsBytes(p.0) && IsBytes(p.1) && (more == "" || more[0] == '&')
    ensures FirstParam(PairText(p) + more)
         == if p.0 == "" then End else First.Param(p.0, p.1, Behind(more, 0))
  {
    hide Decoded, Encoded, PairText, Until;
    var k, v := Encoded(p.0), Encoded(p.1);
    PairTextIs(p);
    EncodedIsClean(p.0);
    EncodedIsClean(p.1);
    var s := PairText(p) + more;
    var rest := v + more;
    assert s == k + ("=" + rest);
    UntilExactly(k, "=" + rest);
    assert s[..|k|] == k && s[|k| + 1..] == rest;
    UntilExactly(v, more);
    assert rest[..|v|] == v;
    assert Behind(rest, |v|) == Behind(more, 0);
    DecodeEncode(p.0);
    DecodeEncode(p.1);
  }

  /** Parsing what was built gives the parameters up to the first empty key. */
  lemma {:induction false} ParseBuild(ps: seq<Param>)
    requires AreBytes(ps)
    ensures Parsed(Query(ps)) == Some(UpToEmptyKey(ps))
    decreases |ps|
  {
    hide PairText, FirstParam;
    if ps == [] {
      NothingToParse();
    } else {
      var more := if |ps| == 1 then "" else "&" + Query(ps[1..]);
      FirstOfPair(ps[0], more);
      assert Behind(more, 0) == Query(ps[1..]);
      ParseBuild(ps[1..]);
      assert ps[0] == (ps[0].0, ps[0].1);
    }
  }

  /** The round trip is complete exactly if no key is empty; values may be. */
  lemma {:induction false} QueryRoundTripIff(ps: seq<Param>)
    requires AreBytes(ps)
    ensures Parsed(Query(ps)) == Some(ps) <==> forall i :: 0 <= i < |ps| ==> ps[i].0 != ""
  {
    ParseBuild(ps);
    UpToEmptyKeyIsAll(ps);
  }

  lemma {:induction false} UpToEmptyKeyIsAll(ps: seq<Param>)
    ensures UpToEmptyKey(ps) == ps <==> forall i :: 0 <= i < |ps| ==> ps[i].0 != ""
  {
    if ps != [] {
      UpToEmptyKeyIsAll(ps[1..]);
      assert ps == [ps[0]] + ps[1..];
      if ps[0].0 != "" && UpToEmptyKey(ps) == ps {
        assert UpToEmptyKey(ps)[1..] == UpToEmptyKey(ps[1..]);
      }
      assert (forall i :: 0 <= i < |ps[1..]| ==> ps[1..][i].0 != "") ==>
          forall i :: 1 <= i < |ps| ==> ps[i] == ps[1..][i - 1] && ps[i].0 != "";
    }
  }
}

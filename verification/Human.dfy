/**
  Guessing the type of a column of text cells, cell by cell: the guess does not depend on the
  order of the cells, but only on which types occur.
  */
module Human {
  import opened StringUtil

  datatype DataType =
    | UNKNOWN | DATETIME | DATETIME_NULLABLE | URL | URL_NULLABLE | CURRENCY | CURRENCY_NULLABLE
    | UNSIGNED_INTEGER | UNSIGNED_INTEGER_NULLABLE | SIGNED_INTEGER | SIGNED_INTEGER_NULLABLE
    | FLOAT | FLOAT_NULLABLE | BOOLEAN | BOOLEAN_NULLABLE | NULL_OR_EMPTY | TEXT | BINARY

  // ------------------------------------------------------------------
  // One cell
  // ------------------------------------------------------------------

  /** The loop of `isNumber` gives up at anything but a digit, a decimal point included; the code
      for a point and the digits behind it is only ever entered at the end of the text. */
  method IsNumber(s: string) returns (r: bool)
    ensures r == IsInteger(s)
  {
    var cur: nat := 0;
    if cur < |s| && s[cur] == '-' {
      cur := cur + 1;
    }
    ghost var start := cur;
    while cur < |s|
      invariant start <= cur <= |s| && forall i :: start <= i < cur ==> IsDigit(s[i])
    {
      if !IsDigit(s[cur]) {
        return false;
      }
      cur := cur + 1;
    }
    return true;
  }

  /** Digits, possibly none, behind an optional minus. */
  predicate IsInteger(s: string) {
    forall i :: (if s != "" && s[0] == '-' then 1 else 0) <= i < |s| ==> IsDigit(s[i])
  }

  predicate IsNullOrEmpty(s: string) {
    s == "" || s == "null" || s == "NULL"
  }

  predicate IsBoolean(s: string) {
    s in ["true", "TRUE", "false", "FALSE", "yes", "YES", "no", "NO"]
  }

  /** `isTime` and `isUtf8` stand for the parser of dates and the check of the encoding. */
  function Detect(s: string, isTime: string -> bool, isUtf8: string -> bool): DataType {
    if IsInteger(s) then
      if '.' in s || ',' in s then FLOAT
      else if s != "" && s[0] == '-' then SIGNED_INTEGER
      else UNSIGNED_INTEGER
    else if IsNullOrEmpty(s) then NULL_OR_EMPTY
    else if IsBoolean(s) then BOOLEAN
    else if isTime(s) then DATETIME
    else if isUtf8(s) then TEXT
    else BINARY
  }

  /** The types of single cells. */
  predicate IsCell(t: DataType) {
    match t
    case UNKNOWN => false
    case DATETIME_NULLABLE | URL_NULLABLE | CURRENCY_NULLABLE | BOOLEAN_NULLABLE => false
    case UNSIGNED_INTEGER_NULLABLE | SIGNED_INTEGER_NULLABLE | FLOAT_NULLABLE => false
    case _ => true
  }

  /** A decimal number is never recognised as one, and an empty cell counts as an unsigned integer. */
  lemma {:induction false} DetectLimits(s: string, isTime: string -> bool, isUtf8: string -> bool)
    ensures var t := Detect(s, isTime, isUtf8);
            && IsCell(t) && t != FLOAT && t != URL && t != CURRENCY
            && (t == NULL_OR_EMPTY <==> s == "null" || s == "NULL")
    ensures Detect("", isTime, isUtf8) == UNSIGNED_INTEGER
  {
    if '.' in s {
      var i :| 0 <= i < |s| && s[i] == '.';
      assert !IsDigit(s[i]);
    }
    if ',' in s {
      var i :| 0 <= i < |s| && s[i] == ',';
      assert !IsDigit(s[i]);
    }
    assert s == "null" || s == "NULL" ==> |s| == 4 && !IsDigit(s[1]);
  }

  predicate IsDigits(s: string) {
    forall i :: 0 <= i < |s| ==> s[i] in "0123456789"
  }

  predicate IsNegative(s: string) {
    s != "" && s[0] == '-' && IsDigits(s[1..])
  }

  predicate IsYesOrNo(s: string) {
    || s == "true" || s == "TRUE" || s == "yes" || s == "YES"
    || s == "false" || s == "FALSE" || s == "no" || s == "NO"
  }

  /** Cells that are no dates, texts or binary data, whatever the parser of dates says. */
  predicate IsFixed(s: string) {
    IsDigits(s) || IsNegative(s) || s == "null" || s == "NULL" || IsYesOrNo(s)
  }

  /** Every cell, by its characters, and what type it is. */
  lemma {:induction false} CellIs(s: string, isTime: string -> bool, isUtf8: string -> bool)
    ensures var t := Detect(s, isTime, isUtf8);
            && (t == UNSIGNED_INTEGER <==> IsDigits(s))
            && (t == SIGNED_INTEGER <==> IsNegative(s))
            && (t == NULL_OR_EMPTY <==> s == "null" || s == "NULL")
            && (t == BOOLEAN <==> IsYesOrNo(s))
            && (t == DATETIME <==> !IsFixed(s) && isTime(s))
            && (t == TEXT <==> !IsFixed(s) && !isTime(s) && isUtf8(s))
            && (t == BINARY <==> !IsFixed(s) && !isTime(s) && !isUtf8(s))
  {
    hide IsInteger, IsDigits, IsNegative;
    DetectLimits(s, isTime, isUtf8);
    IntegerIff(s);
    if s == "null" || s == "NULL" || IsYesOrNo(s) {
      WordsAreNot(s);
    }
  }

  lemma {:induction false} IntegerIff(s: string)
    ensures IsInteger(s) <==> IsDigits(s) || IsNegative(s)
    ensures !(IsDigits(s) && IsNegative(s))
    ensures IsInteger(s) ==> (IsNegative(s) <==> s != "" && s[0] == '-')
  {
    DigitsIff(s);
    if s != "" && s[0] == '-' {
      var digits := s[1..];
      DigitsIff(digits);
      assert !IsDigit(s[0]);
      if IsInteger(s) {
        assert forall i :: 0 <= i < |digits| ==> digits[i] == s[i + 1];
        assert forall i :: 0 <= i < |digits| ==> IsDigit(digits[i]);
      } else {
        var i :| 1 <= i < |s| && !IsDigit(s[i]);
        assert !IsDigit(digits[i - 1]);
      }
    }
  }

  lemma {:induction false} DigitsIff(s: string)
    ensures IsDigits(s) <==> forall i :: 0 <= i < |s| ==> IsDigit(s[i])
  {
    forall i | 0 <= i < |s| ensures s[i] in "0123456789" <==> IsDigit(s[i]) {
      DigitIff(s[i]);
    }
  }

  lemma {:induction false} DigitIff(c: char)
    ensures c in "0123456789" <==> IsDigit(c)
  {
  }

  lemma {:induction false} WordsAreNot(s: string)
    requires s == "null" || s == "NULL" || IsYesOrNo(s)
    ensures !IsInteger(s) && !(IsYesOrNo(s) && (s == "null" || s == "NULL"))
  {
    assert |s| >= 2 && !IsDigit(s[1]);
  }

  // ------------------------------------------------------------------
  // A series of cells
  // ------------------------------------------------------------------

  /** The type of a cell, taken together with the type of the cells before it. */
  function Combined(t: DataType, prev: DataType): DataType {
    if prev.BINARY? then prev
    else if t == prev || prev.UNKNOWN? then t
    else
      match t
      case UNKNOWN => UNKNOWN
      case TEXT => TEXT
      case BINARY => BINARY
      case NULL_OR_EMPTY => WithNull(prev)
      case DATETIME | DATETIME_NULLABLE =>
        if prev.NULL_OR_EMPTY? || prev.DATETIME_NULLABLE? then DATETIME_NULLABLE else TEXT
      case URL | URL_NULLABLE =>
        if prev.NULL_OR_EMPTY? || prev.URL_NULLABLE? then URL_NULLABLE else TEXT
      case CURRENCY | CURRENCY_NULLABLE =>
        if prev.NULL_OR_EMPTY? || prev.CURRENCY_NULLABLE? then CURRENCY_NULLABLE else TEXT
      case BOOLEAN | BOOLEAN_NULLABLE =>
        if prev.NULL_OR_EMPTY? || prev.BOOLEAN_NULLABLE? then BOOLEAN_NULLABLE else TEXT
      case UNSIGNED_INTEGER =>
        if prev.FLOAT? || prev.SIGNED_INTEGER? then prev else WithUnsigned(prev)
      case UNSIGNED_INTEGER_NULLABLE => WithUnsigned(prev)
      case SIGNED_INTEGER =>
        if prev.FLOAT? then FLOAT
        else if prev.UNSIGNED_INTEGER? then SIGNED_INTEGER
        else WithSigned(prev)
      case SIGNED_INTEGER_NULLABLE => WithSigned(prev)
      case FLOAT =>
        if prev.UNSIGNED_INTEGER? || prev.SIGNED_INTEGER? then FLOAT else WithFloat(prev)
      case FLOAT_NULLABLE => WithFloat(prev)
  }

  function WithNull(prev: DataType): DataType {
    match prev
    case DATETIME | DATETIME_NULLABLE => DATETIME_NULLABLE
    case URL | URL_NULLABLE => URL_NULLABLE
    case CURRENCY | CURRENCY_NULLABLE => CURRENCY_NULLABLE
    case UNSIGNED_INTEGER | UNSIGNED_INTEGER_NULLABLE => UNSIGNED_INTEGER_NULLABLE
    case SIGNED_INTEGER | SIGNED_INTEGER_NULLABLE => SIGNED_INTEGER_NULLABLE
    case FLOAT | FLOAT_NULLABLE => FLOAT_NULLABLE
    case BOOLEAN | BOOLEAN_NULLABLE => BOOLEAN_NULLABLE
    case TEXT => TEXT
    case BINARY => BINARY
    case UNKNOWN | NULL_OR_EMPTY => NULL_OR_EMPTY
  }

  function WithUnsigned(prev: DataType): DataType {
    match prev
    case FLOAT | FLOAT_NULLABLE => FLOAT_NULLABLE
    case SIGNED_INTEGER | SIGNED_INTEGER_NULLABLE => SIGNED_INTEGER_NULLABLE
    case NULL_OR_EMPTY | UNSIGNED_INTEGER | UNSIGNED_INTEGER_NULLABLE => UNSIGNED_INTEGER_NULLABLE
    case _ => TEXT
  }

  function WithSigned(prev: DataType): DataType {
    match prev
    case FLOAT | FLOAT_NULLABLE => FLOAT_NULLABLE
    case NULL_OR_EMPTY | UNSIGNED_INTEGER | UNSIGNED_INTEGER_NULLABLE | SIGNED_INTEGER | SIGNED_INTEGER_NULLABLE =>
      SIGNED_INTEGER_NULLABLE
    case _ => TEXT
  }

  function WithFloat(prev: DataType): DataType {
    match prev
    case NULL_OR_EMPTY | FLOAT_NULLABLE | UNSIGNED_INTEGER | UNSIGNED_INTEGER_NULLABLE | SIGNED_INTEGER
       | SIGNED_INTEGER_NULLABLE => FLOAT_NULLABLE
    case _ => TEXT
  }

  /** The cells taken in one after the other, from nothing. */
  function Series(cells: seq<DataType>): DataType {
    if cells == [] then UNKNOWN else Combined(cells[|cells| - 1], Series(cells[..|cells| - 1]))
  }

  /** The narrowest type for a set of types of cells. */
  ghost function Join(s: set<DataType>): DataType {
    if BINARY in s then BINARY
    else if s == {} then UNKNOWN
    else OrNull(NULL_OR_EMPTY in s, Narrowest(s))
  }

  function OrNull(nullable: bool, t: DataType): DataType {
    if nullable then WithNull(t) else t
  }

  /** Numbers go together; any other two kinds of values make text. */
  ghost function Narrowest(s: set<DataType>): DataType {
    var number := UNSIGNED_INTEGER in s || SIGNED_INTEGER in s || FLOAT in s;
    if TEXT in s || One(DATETIME in s) + One(URL in s) + One(CURRENCY in s) + One(BOOLEAN in s) + One(number) > 1 then
      TEXT
    else if DATETIME in s then DATETIME
    else if URL in s then URL
    else if CURRENCY in s then CURRENCY
    else if BOOLEAN in s then BOOLEAN
    else if FLOAT in s then FLOAT
    else if SIGNED_INTEGER in s then SIGNED_INTEGER
    else if UNSIGNED_INTEGER in s then UNSIGNED_INTEGER
    else NULL_OR_EMPTY
  }

  ghost function One(b: bool): nat {
    if b then 1 else 0
  }

  ghost predicate AreCells(s: set<DataType>) {
    forall t :: t in s ==> IsCell(t)
  }

  /** The narrowest type for two types of cells. */
  ghost function Wider(t: DataType, n: DataType): DataType {
    if t.NULL_OR_EMPTY? then n
    else if n.NULL_OR_EMPTY? || n == t then t
    else if IsWhole(t) && (IsWhole(n) || n.FLOAT?) then if n.FLOAT? then FLOAT else SIGNED_INTEGER
    else if t.FLOAT? && IsWhole(n) then FLOAT
    else TEXT
  }

  ghost predicate IsWhole(t: DataType) {
    t.UNSIGNED_INTEGER? || t.SIGNED_INTEGER?
  }

  lemma {:induction false} NarrowestOneMore(s: set<DataType>, t: DataType)
    requires IsCell(t) && !t.BINARY?
    ensures Narrowest(s + {t}) == Wider(t, Narrowest(s))
  {
  }

  lemma {:induction false} NarrowestShape(s: set<DataType>)
    requires AreCells(s) && s != {} && BINARY !in s
    ensures var n := Narrowest(s); IsCell(n) && !n.BINARY? && (n.NULL_OR_EMPTY? ==> NULL_OR_EMPTY in s)
  {
    var any :| any in s;
    assert IsCell(any);
  }

  lemma {:induction false} CombinedIsWider(t: DataType, n: DataType)
    requires IsCell(t) && !t.BINARY? && IsCell(n) && !n.BINARY? && !n.NULL_OR_EMPTY?
    ensures Combined(t, n) == OrNull(t.NULL_OR_EMPTY?, Wider(t, n))
  {
  }

  lemma {:induction false} NullableIsWider(t: DataType, n: DataType)
    requires IsCell(t) && !t.BINARY? && IsCell(n) && !n.BINARY?
    ensures Combined(t, WithNull(n)) == WithNull(Wider(t, n))
  {
    match n
    case UNSIGNED_INTEGER => assert WithNull(n) == UNSIGNED_INTEGER_NULLABLE;
    case SIGNED_INTEGER => assert WithNull(n) == SIGNED_INTEGER_NULLABLE;
    case FLOAT => assert WithNull(n) == FLOAT_NULLABLE;
    case _ =>
  }

  lemma {:induction false} JoinOneMore(s: set<DataType>, t: DataType)
    requires AreCells(s) && IsCell(t)
    ensures Combined(t, Join(s)) == Join(s + {t})
  {
    if BINARY !in s && s != {} && !t.BINARY? {
      hide Narrowest, Wider, Combined, WithNull;
      NarrowestOneMore(s, t);
      NarrowestShape(s);
      if NULL_OR_EMPTY in s {
        NullableIsWider(t, Narrowest(s));
      } else {
        CombinedIsWider(t, Narrowest(s));
      }
    }
  }

  function Types(cells: seq<DataType>): set<DataType> {
    set t | t in cells
  }

  /** The guess is the join of the types that occur. */
  lemma {:induction false} SeriesIsJoin(cells: seq<DataType>)
    requires forall i :: 0 <= i < |cells| ==> IsCell(cells[i])
    ensures Series(cells) == Join(Types(cells))
  {
    hide Combined, Join;
    if cells == [] {
      assert Join({}) == UNKNOWN by { JoinOfNone(); }
      assert Types(cells) == {};
    } else {
      var front, t := cells[..|cells| - 1], cells[|cells| - 1];
      SeriesIsJoin(front);
      JoinOneMore(Types(front), t);
      assert cells == front + [t];
      assert Types(cells) == Types(front) + {t};
    }
  }

  lemma {:induction false} JoinOfNone()
    ensures Join({}) == UNKNOWN
  {
  }

  /** Neither the order of the cells nor how often a type occurs matters. */
  lemma {:induction false} OrderDoesNotMatter(a: seq<DataType>, b: seq<DataType>)
    requires forall i :: 0 <= i < |a| ==> IsCell(a[i])
    requires multiset(a) == multiset(b) || Types(a) == Types(b)
    ensures Series(a) == Series(b)
  {
    hide Series, Join;
    if multiset(a) == multiset(b) {
      forall t ensures t in Types(a) <==> t in Types(b) {
        assert t in a <==> t in multiset(a);
        assert t in b <==> t in multiset(b);
      }
      assert Types(a) == Types(b);
    }
    forall i | 0 <= i < |b| ensures IsCell(b[i]) {
      assert b[i] in Types(b);
    }
    SeriesIsJoin(a);
    SeriesIsJoin(b);
  }

  /** The loop over the rows of one column. */
  method DetectColumn(cells: seq<string>, isTime: string -> bool, isUtf8: string -> bool) returns (t: DataType)
    ensures t == Join(set i | 0 <= i < |cells| :: Detect(cells[i], isTime, isUtf8))
  {
    hide Combined, Detect, Join;
    t := UNKNOWN;
    ghost var types: seq<DataType> := [];
    for i := 0 to |cells|
      invariant |types| == i && forall k :: 0 <= k < i ==> types[k] == Detect(cells[k], isTime, isUtf8)
      invariant t == Series(types)
    {
      var cell := Detect(cells[i], isTime, isUtf8);
      t := Combined(cell, t);
      assert (types + [cell])[..i] == types;
      types := types + [cell];
    }
    forall k | 0 <= k < |types| ensures IsCell(types[k]) {
      DetectLimits(cells[k], isTime, isUtf8);
    }
    SeriesIsJoin(types);
    assert Types(types) == set i | 0 <= i < |cells| :: Detect(cells[i], isTime, isUtf8);
  }
}

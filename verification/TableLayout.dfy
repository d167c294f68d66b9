/** Where everything stands in a table file, byte by byte. */
module TableLayout {
  import opened BitPack
  import opened TableFile

  /** The bytes of a number are its digits to the base 256, the lowest one first. */
  lemma {:induction false} LeDigit(n: nat, width: nat, i: nat)
    requires i < width
    ensures Le(n, width)[i] == n / Limit(i) % 256
    decreases i
  {
    if i > 0 {
      LeDigit(n / 256, width - 1, i - 1);
      DivideTwice(n, Limit(i - 1));
    }
  }

  lemma {:induction false} DivideTwice(n: nat, p: nat)
    requires p > 0
    ensures n / 256 / p == n / (256 * p)
  {
    var q, r := n / 256 / p, n / 256 % p;
    var low := n % 256;
    assert n == 256 * (p * q + r) + low;
    assert n == (256 * p) * q + (256 * r + low);
    QuotientIs(n, 256 * p, q, 256 * r + low);
  }

  lemma {:induction false} QuotientIs(n: nat, d: nat, q: nat, r: nat)
    requires n == d * q + r && r < d
    ensures n / d == q
  {
    SameQuotient(d, q, r, n / d, n % d);
  }

  lemma {:induction false} SameQuotient(d: nat, q: nat, r: nat, k: nat, m: nat)
    requires d * q + r == d * k + m && r < d && m < d
    ensures q == k
  {
    if q < k {
      NotAbove(d, q, k);
    } else if k < q {
      NotAbove(d, k, q);
    }
  }

  lemma {:induction false} NotAbove(d: nat, q: nat, k: nat)
    requires q < k
    ensures d * q + d <= d * k
    decreases k
  {
    assert d * k == d * (k - 1) + d;
    if q < k - 1 {
      NotAbove(d, q, k - 1);
    }
  }

  function Power128(i: nat): (p: nat)
    ensures p > 0
  {
    if i == 0 then 1 else 128 * Power128(i - 1)
  }

  /** The bytes of a number of variable length hold its digits to the base 128, the lowest one first.
      All but the last one have the high bit. */
  lemma {:induction false} VarUIntDigit(n: nat, i: nat)
    requires i < |VarUInt(n)|
    ensures VarUInt(n)[i] == n / Power128(i) % 128 + if i + 1 < |VarUInt(n)| then 128 else 0
    decreases i
  {
    var more := VarUInt(n / 128);
    if n < 128 {
      assert i == 0;
    } else if i > 0 {
      assert VarUInt(n) == [n % 128 + 128] + more;
      VarUIntDigit(n / 128, i - 1);
      DivideBy128(n, Power128(i - 1));
    }
  }

  lemma {:induction false} DivideBy128(n: nat, p: nat)
    requires p > 0
    ensures n / 128 / p == n / (128 * p)
  {
    var q, r := n / 128 / p, n / 128 % p;
    var low := n % 128;
    assert n == 128 * (p * q + r) + low;
    assert n == (128 * p) * q + (128 * r + low);
    QuotientIs(n, 128 * p, q, 128 * r + low);
  }

  /** Part `b` stands between `a` and `c`. */
  lemma {:induction false} Between(a: seq<Byte>, b: seq<Byte>, c: seq<Byte>, s: seq<Byte>)
    requires s == a + (b + c)
    ensures s[|a|..|a| + |b|] == b
  {
  }

  /** A file starts with its magic number, the version, no flags, and how many records and columns
      it has. */
  lemma {:induction false} FileStart(numRecords: nat, columns: seq<Column>, spares: seq<seq<Byte>>)
    requires |spares| == |columns|
    ensures var f := File(numRecords, columns, spares);
            && |f| >= 26
            && f[..14] == [0x23, 0x17, 0x23, 0x17, 1, 0, 0, 0, 0, 0, 0, 0, 0, 0]
            && f[14..22] == Le(numRecords, 8)
            && f[22..26] == Le(|columns|, 4)
  {
    hide Infos, AllInfoBytes, Bodies, Le;
    HeaderBytes();
    var fixed := Le(MAGIC, 4) + (Le(VERSION, 2) + Le(0, 8));
    var count := Le(|columns|, 4);
    var rest := AllInfoBytes(Infos(columns, FirstBody(columns))) + Bodies(columns, spares);
    var f := File(numRecords, columns, spares);
    assert f == fixed + (Le(numRecords, 8) + (count + rest));
    Between([], fixed, Le(numRecords, 8) + (count + rest), f);
    Between(fixed, Le(numRecords, 8), count + rest, f);
    assert f == (fixed + Le(numRecords, 8)) + (count + rest);
    Between(fixed + Le(numRecords, 8), count, rest, f);
  }

  lemma {:induction false} HeaderBytes()
    ensures Le(MAGIC, 4) + (Le(VERSION, 2) + Le(0, 8)) == [0x23, 0x17, 0x23, 0x17, 1, 0, 0, 0, 0, 0, 0, 0, 0, 0]
  {
    assert Le(0, 4) == [0, 0, 0, 0];
    assert Le(0, 8) == [0, 0, 0, 0] + Le(0, 4);
  }

  /** The header of a column: its type, its name, its levels, and where its body is. */
  lemma {:induction false} InfoLayout(i: Info)
    ensures var b, n := InfoBytes(i), |i.name|;
            && b[..4] == Le(i.kind, 4)
            && b[4..8] == Le(n, 4)
            && b[8..8 + n] == i.name
            && b[8 + n..12 + n] == Le(i.rMax, 4)
            && b[12 + n..16 + n] == Le(i.dMax, 4)
            && b[16 + n..24 + n] == Le(i.offset, 8)
            && b[24 + n..] == Le(i.size, 8)
  {
    hide Le;
  }

  /** The body of a column: how many values it has, the sizes of three regions, and the regions. */
  lemma {:induction false} BodyLayout(c: Column, spare: seq<Byte>)
    ensures var b, r, d := Body(c, spare), |c.rlvls|, |c.dlvls|;
            && |b| == 32 + r + d + |c.data| + |spare|
            && b[..8] == Le(c.vals, 8)
            && b[8..16] == Le(r, 8)
            && b[16..24] == Le(d, 8)
            && b[24..32] == Le(|c.data| + c.reserved, 8)
            && b[32..32 + r] == c.rlvls
            && b[32 + r..32 + r + d] == c.dlvls
            && b[32 + r + d..] == c.data + spare
  {
    hide Le;
  }
}

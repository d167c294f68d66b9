/**
  Column stripes. A writer keeps repetition levels, definition levels and data in three
  separate streams; a reader walks them in step and decides from the definition level alone
  whether an entry has a value.
  */
module Columns {
  import opened Wrappers
  import opened Messages

  /** One entry of a stripe. */
  datatype Entry = Entry(r: nat, d: nat, value: Option<Scalar>)

  /** The streams of one column. */
  datatype Stripe = Stripe(rMax: nat, dMax: nat, rlvls: seq<nat>, dlvls: seq<nat>, data: seq<Scalar>)

  function Append(c: Stripe, e: Entry): Stripe {
    c.(rlvls := c.rlvls + [e.r],
       dlvls := c.dlvls + [e.d],
       data := if e.value.Some? then c.data + [e.value.value] else c.data)
  }

  function AppendAll(c: Stripe, es: seq<Entry>): Stripe
    decreases |es|
  {
    if es == [] then c else AppendAll(Append(c, es[0]), es[1..])
  }

  /** The entries of the first record of a stripe: up to the next one that repeats at level 0. */
  ghost function Head(es: seq<Entry>): seq<Entry>
    requires es != []
  {
    [es[0]] + Repeats(es[1..])
  }

  ghost function Repeats(es: seq<Entry>): seq<Entry> {
    if es == [] || es[0].r == 0 then [] else [es[0]] + Repeats(es[1..])
  }

  ghost function Tail(es: seq<Entry>): seq<Entry>
    requires es != []
  {
    AfterRepeats(es[1..])
  }

  ghost function AfterRepeats(es: seq<Entry>): seq<Entry> {
    if es == [] || es[0].r == 0 then es else AfterRepeats(es[1..])
  }

  lemma {:induction false} RepeatsStop(es: seq<Entry>, rest: seq<Entry>)
    requires forall e :: e in es ==> e.r > 0
    requires rest != [] ==> rest[0].r == 0
    ensures Repeats(es + rest) == es && AfterRepeats(es + rest) == rest
  {
    if es == [] {
      assert es + rest == rest;
    } else {
      assert (es + rest)[1..] == es[1..] + rest;
      RepeatsStop(es[1..], rest);
    }
  }

  /** An entry the levels of a column can express. */
  ghost predicate Fits(e: Entry, rMax: nat, dMax: nat) {
    e.r <= rMax && e.d <= dMax && (e.value.Some? <==> e.d == dMax)
  }

  /** The entries a reader decodes from the three streams: None once the data stream has run
      dry while the levels still announce a value, or when data is left over. */
  function Decode(dMax: nat, rlvls: seq<nat>, dlvls: seq<nat>, data: seq<Scalar>): Option<seq<Entry>> {
    if rlvls == [] || dlvls == [] then
      if rlvls == [] && dlvls == [] && data == [] then Some([]) else None
    else if dlvls[0] == dMax then
      if data == [] then None
      else
        var rest := Decode(dMax, rlvls[1..], dlvls[1..], data[1..]);
        if rest.None? then None
        else Some([Entry(rlvls[0], dlvls[0], Some(data[0]))] + rest.value)
    else
      var rest := Decode(dMax, rlvls[1..], dlvls[1..], data);
      if rest.None? then None
      else Some([Entry(rlvls[0], dlvls[0], None)] + rest.value)
  }

  /** The three streams of a list of entries. */
  ghost function Rlvls(es: seq<Entry>): (ls: seq<nat>)
    ensures |ls| == |es|
  {
    if es == [] then [] else [es[0].r] + Rlvls(es[1..])
  }

  ghost function Dlvls(es: seq<Entry>): (ls: seq<nat>)
    ensures |ls| == |es|
  {
    if es == [] then [] else [es[0].d] + Dlvls(es[1..])
  }

  ghost function Data(es: seq<Entry>): seq<Scalar> {
    if es == [] then []
    else (if es[0].value.Some? then [es[0].value.value] else []) + Data(es[1..])
  }

  lemma {:induction false} AppendAllStreams(c: Stripe, es: seq<Entry>)
    ensures AppendAll(c, es)
            == Stripe(c.rMax, c.dMax, c.rlvls + Rlvls(es), c.dlvls + Dlvls(es), c.data + Data(es))
    decreases |es|
  {
    if es != [] {
      AppendAllStreams(Append(c, es[0]), es[1..]);
      Assoc(c.rlvls, [es[0].r], Rlvls(es[1..]));
      Assoc(c.dlvls, [es[0].d], Dlvls(es[1..]));
      if es[0].value.Some? {
        Assoc(c.data, [es[0].value.value], Data(es[1..]));
      } else {
        Assoc(c.data, [], Data(es[1..]));
      }
    }
  }

  lemma {:induction false} Assoc<T>(a: seq<T>, b: seq<T>, c: seq<T>)
    ensures (a + b) + c == a + (b + c)
    ensures b == [] ==> a + b == a
  {
  }

  /** Reading back what was written: entries survive exactly because a value is present if and
      only if the definition level is maximal. */
  lemma {:induction false} DecodeStreams(rMax: nat, dMax: nat, es: seq<Entry>)
    requires forall k :: 0 <= k < |es| ==> Fits(es[k], rMax, dMax)
    ensures Decode(dMax, Rlvls(es), Dlvls(es), Data(es)) == Some(es)
    decreases |es|
  {
    if es != [] {
      DecodeStreams(rMax, dMax, es[1..]);
      assert Fits(es[0], rMax, dMax);
      assert Rlvls(es)[1..] == Rlvls(es[1..]) && Dlvls(es)[1..] == Dlvls(es[1..]);
      assert es == [es[0]] + es[1..];
      if es[0].value.Some? {
        assert Data(es)[0] == es[0].value.value && Data(es)[1..] == Data(es[1..]);
        assert es[0] == Entry(es[0].r, es[0].d, Some(es[0].value.value));
      } else {
        assert Data(es) == Data(es[1..]);
        assert es[0] == Entry(es[0].r, es[0].d, None);
      }
    }
  }

  lemma {:induction false} DecodeWritten(c: Stripe, es: seq<Entry>)
    requires c.rlvls == [] && c.dlvls == [] && c.data == []
    requires forall k :: 0 <= k < |es| ==> Fits(es[k], c.rMax, c.dMax)
    ensures var w := AppendAll(c, es);
            && w.rMax == c.rMax && w.dMax == c.dMax
            && |w.rlvls| == |w.dlvls| == |es|
            && Decode(c.dMax, w.rlvls, w.dlvls, w.data) == Some(es)
  {
    AppendAllStreams(c, es);
    DecodeStreams(c.rMax, c.dMax, es);
    assert [] + Rlvls(es) == Rlvls(es) && [] + Dlvls(es) == Dlvls(es) && [] + Data(es) == Data(es);
  }

  lemma {:induction false} AppendAllConcat(c: Stripe, a: seq<Entry>, b: seq<Entry>)
    ensures AppendAll(c, a + b) == AppendAll(AppendAll(c, a), b)
    decreases |a|
  {
    if a == [] {
      assert a + b == b;
    } else {
      assert (a + b)[1..] == a[1..] + b;
      AppendAllConcat(Append(c, a[0]), a[1..], b);
    }
  }

  class ColumnWriter {
    const rMax: nat
    const dMax: nat
    var rlvls: seq<nat>
    var dlvls: seq<nat>
    var data: seq<Scalar>
    var numVals: nat

    ghost predicate Valid()
      reads this
    {
      |rlvls| == |dlvls| == numVals
    }

    function Contents(): Stripe
      reads this
    {
      Stripe(rMax, dMax, rlvls, dlvls, data)
    }

    constructor (rMax: nat, dMax: nat)
      ensures Valid() && Contents() == Stripe(rMax, dMax, [], [], [])
    {
      this.rMax, this.dMax := rMax, dMax;
      rlvls, dlvls, data, numVals := [], [], [], 0;
    }

    method AddNull(r: nat, d: nat)
      requires Valid()
      modifies this
      ensures Valid() && Contents() == Append(old(Contents()), Entry(r, d, None))
    {
      rlvls := rlvls + [r];
      dlvls := dlvls + [d];
      numVals := numVals + 1;
    }

    method AddDatum(r: nat, d: nat, v: Scalar)
      requires Valid()
      modifies this
      ensures Valid() && Contents() == Append(old(Contents()), Entry(r, d, Some(v)))
    {
      rlvls := rlvls + [r];
      dlvls := dlvls + [d];
      data := data + [v];
      numVals := numVals + 1;
    }
  }

  class ColumnReader {
    const stripe: Stripe
    var valsRead: nat
    var dataPos: nat

    /** The cursors are in step: what is left of the three streams decodes. */
    ghost predicate Valid()
      reads this
    {
      && |stripe.rlvls| == |stripe.dlvls|
      && valsRead <= |stripe.rlvls|
      && dataPos <= |stripe.data|
      && Decode(stripe.dMax, stripe.rlvls[valsRead..], stripe.dlvls[valsRead..], stripe.data[dataPos..]).Some?
    }

    /** The entries not read yet. */
    ghost function Rest(): (es: seq<Entry>)
      requires Valid()
      reads this
    {
      Decode(stripe.dMax, stripe.rlvls[valsRead..], stripe.dlvls[valsRead..], stripe.data[dataPos..]).value
    }

    constructor (stripe: Stripe)
      requires |stripe.rlvls| == |stripe.dlvls|
      requires Decode(stripe.dMax, stripe.rlvls, stripe.dlvls, stripe.data).Some?
      ensures Valid() && this.stripe == stripe
      ensures Some(Rest()) == Decode(stripe.dMax, stripe.rlvls, stripe.dlvls, stripe.data)
    {
      this.stripe := stripe;
      valsRead, dataPos := 0, 0;
      new;
      assert stripe.rlvls[0..] == stripe.rlvls && stripe.dlvls[0..] == stripe.dlvls && stripe.data[0..] == stripe.data;
    }

    lemma {:induction false} RestSize()
      requires Valid()
      ensures |Rest()| == |stripe.rlvls| - valsRead
    {
      DecodeSize(stripe.dMax, stripe.rlvls[valsRead..], stripe.dlvls[valsRead..], stripe.data[dataPos..]);
    }

    method EofReached() returns (eof: bool)
      requires Valid()
      ensures eof <==> Rest() == []
    {
      RestSize();
      eof := valsRead >= |stripe.rlvls|;
    }

    /** The level decoder answers 0 past the last entry, see module `BitPack`. */
    method NextRepetitionLevel() returns (r: nat)
      requires Valid()
      ensures r == if Rest() == [] then 0 else Rest()[0].r
    {
      RestSize();
      r := if valsRead < |stripe.rlvls| then stripe.rlvls[valsRead] else 0;
    }

    /** Nothing is read past the end of the column: that is an obligation of every caller. */
    method Next() returns (r: nat, d: nat, value: Option<Scalar>)
      requires Valid() && Rest() != []
      modifies this
      ensures Valid()
      ensures Entry(r, d, value) == old(Rest())[0] && Rest() == old(Rest())[1..]
    {
      RestSize();
      r, d := stripe.rlvls[valsRead], stripe.dlvls[valsRead];
      ghost var rls, dls, ds := stripe.rlvls[valsRead..], stripe.dlvls[valsRead..], stripe.data[dataPos..];
      valsRead := valsRead + 1;
      assert stripe.rlvls[valsRead..] == rls[1..] && stripe.dlvls[valsRead..] == dls[1..];
      if d == stripe.dMax {
        value := Some(stripe.data[dataPos]);
        dataPos := dataPos + 1;
        assert stripe.data[dataPos..] == ds[1..];
      } else {
        value := None;
      }
    }
  }

  lemma {:induction false} DecodeSize(dMax: nat, rlvls: seq<nat>, dlvls: seq<nat>, data: seq<Scalar>)
    requires Decode(dMax, rlvls, dlvls, data).Some?
    ensures |Decode(dMax, rlvls, dlvls, data).value| == |rlvls|
    decreases |rlvls|
  {
    if rlvls != [] && dlvls != [] {
      if dlvls[0] == dMax {
        DecodeSize(dMax, rlvls[1..], dlvls[1..], data[1..]);
      } else {
        DecodeSize(dMax, rlvls[1..], dlvls[1..], data);
      }
    }
  }
}

/**
  The loops that make up missing objects before an element can be appended: on what the shredder
  has written they never run, whatever was assembled from other columns before.
  */
module NoPadding {
  import opened Wrappers
  import opened Messages
  import opened Columns
  import opened Shredding
  import opened Assembly

  /** How many objects are made up to insert one entry. */
  ghost function Padding(ms: seq<Message>, parents: seq<Parent>, idx: seq<nat>, e: Entry): nat
    decreases |parents|
  {
    if parents == [] || (e.value.None? && parents[0].dMax > e.d) then 0
    else
      var p := parents[0];
      var n := if p.repeated && idx != [] then idx[0] else 0;
      var rest := if p.repeated && idx != [] then idx[1..] else idx;
      |Pad(ms, p.id, n)| - |ms| + Padding(Kids(ms, p.id, n), parents[1..], rest, e)
  }

  ghost function StepPadding(path: Path, base: nat, d: nat, s: State, e: Entry): nat
    requires path != []
  {
    Padding(s.out, Parents(path, d), Step(path, base, d, s, e).idx, e)
  }

  ghost function FeedPadding(path: Path, base: nat, d: nat, s: State, es: seq<Entry>): nat
    requires path != []
    decreases |es|
  {
    if es == [] then 0
    else StepPadding(path, base, d, s, es[0]) + FeedPadding(path, base, d, Step(path, base, d, s, es[0]), es[1..])
  }

  lemma {:induction false} PaddingConcat(path: Path, base: nat, d: nat, s: State, a: seq<Entry>, b: seq<Entry>)
    requires path != []
    ensures FeedPadding(path, base, d, s, a + b)
            == FeedPadding(path, base, d, s, a) + FeedPadding(path, base, d, Feed(path, base, d, s, a), b)
    decreases |a|
  {
    hide Step, StepPadding;
    if a == [] {
      assert a + b == b;
    } else {
      assert (a + b)[1..] == a[1..] + b;
      PaddingConcat(path, base, d, Step(path, base, d, s, a[0]), a[1..], b);
    }
  }

  lemma {:induction false} StepInsidePadding(path: Path, base: nat, d: nat, s: State, n: nat, e: Entry)
    requires |path| > 1 && n < |Occ(s.out, path[0].id)|
    requires path[0].repeated ==> s.idx != [] && s.idx[0] == n
    requires !path[0].repeated ==> n == 0
    requires e.d >= DefIn(path[0], d) && RepIn(path[0], base) < e.r <= base + |s.idx|
    ensures var f := path[0];
            StepPadding(path, base, d, s, e)
            == StepPadding(path[1..], RepIn(f, base), DefIn(f, d),
                           State(if f.repeated then s.idx[1..] else s.idx, Kids(s.out, f.id, n)), e)
  {
    hide Insert, Place, Kids, Occ, Bump;
    StepInside(path, base, d, s, n, e);
    assert Parents(path, d)[1..] == Parents(path[1..], DefIn(path[0], d));
    PlaceOcc(s.out, path[0].id, n, []);
  }

  /** Inside an element that is there, only its children are made up. */
  lemma {:induction false} FocusPadding(path: Path, base: nat, d: nat, s: State, n: nat, es: seq<Entry>)
    requires |path| > 1
    requires n < |Occ(s.out, path[0].id)|
    requires path[0].repeated ==> s.idx != [] && s.idx[0] == n
    requires !path[0].repeated ==> n == 0
    requires forall e :: e in es ==> e.d >= DefIn(path[0], d)
    requires forall e :: e in es ==> RepIn(path[0], base) < e.r <= base + |s.idx|
    ensures var f := path[0];
            FeedPadding(path, base, d, s, es)
            == FeedPadding(path[1..], RepIn(f, base), DefIn(f, d),
                           State(if f.repeated then s.idx[1..] else s.idx, Kids(s.out, f.id, n)), es)
    decreases |es|
  {
    hide Step, StepPadding, Place, Kids, Occ, Pad;
    if es != [] {
      var f, e := path[0], es[0];
      var sub := State(if f.repeated then s.idx[1..] else s.idx, Kids(s.out, f.id, n));
      var next := Step(path, base, d, s, e);
      var subNext := Step(path[1..], RepIn(f, base), DefIn(f, d), sub, e);
      StepInside(path, base, d, s, n, e);
      StepInsidePadding(path, base, d, s, n, e);
      PlaceOcc(s.out, f.id, n, subNext.out);
      PlaceTwice(s.out, f.id, n, subNext.out);
      FocusPadding(path, base, d, next, n, es[1..]);
    }
  }

  lemma {:induction false} ElemPadding(path: Path, base: nat, d: nat, s: State, n: nat, es: seq<Entry>)
    requires |path| > 1 && |s.idx| == Reps(path) && n <= |Occ(s.out, path[0].id)|
    requires es != [] && es[0].r <= RepIn(path[0], base)
    requires n == 0 ==> es[0].r <= base
    requires n > 0 ==> path[0].repeated && s.idx[0] == n - 1 && es[0].r == base + 1
    requires forall e :: e in es ==> e.d >= DefIn(path[0], d)
    requires forall e :: e in es[1..] ==> RepIn(path[0], base) < e.r <= base + |s.idx|
    ensures var f := path[0];
            FeedPadding(path, base, d, s, es)
            == FeedPadding(path[1..], RepIn(f, base), DefIn(f, d),
                           State(Zeros(Reps(path[1..])), Kids(s.out, f.id, n)), es)
  {
    var f, e := path[0], es[0];
    var sub := State(Zeros(Reps(path[1..])), Kids(s.out, f.id, n));
    var next := Step(path, base, d, s, e);
    var subNext := Step(path[1..], RepIn(f, base), DefIn(f, d), sub, e);
    assert Reps(path) == (if f.repeated then 1 else 0) + Reps(path[1..]);
    assert subNext.idx == Zeros(Reps(path[1..]));
    if f.repeated {
      assert next.idx[0] == n && next.idx[1..] == subNext.idx;
    } else {
      assert next.idx == subNext.idx;
    }
    assert Parents(path, d)[1..] == Parents(path[1..], DefIn(f, d));
    assert next.out == Place(s.out, f.id, n, subNext.out);
    PlaceOcc(s.out, f.id, n, subNext.out);
    assert StepPadding(path, base, d, s, e) == StepPadding(path[1..], RepIn(f, base), DefIn(f, d), sub, e);
    PlaceTwice(s.out, f.id, n, subNext.out);
    FocusPadding(path, base, d, next, n, es[1..]);
  }

  lemma {:induction false} NothingMadeUpElem(
      path: Path, cols: set<Path>, r: nat, base: nat, d: nat, occ: seq<Message>, n: nat, s: State)
    requires Loadable(path, cols) && |s.idx| == Reps(path) && n < |occ|
    requires forall k :: 0 <= k < |occ| ==> ConformsElem(path[0], occ[k], true)
    requires Partial(Occ(s.out, path[0].id), path[0], cols, path[1..], occ, n)
    requires n == 0 ==> r <= base
    requires n > 0 ==> path[0].repeated && s.idx[0] == n - 1 && r == base + 1
    ensures FeedPadding(path, base, d, s, ElemBlock(path, r, RepIn(path[0], base), DefIn(path[0], d), occ[n])) == 0
    decreases |path|, 0, 0
  {
    hide Feed, Step;
    var f := path[0];
    var block := ElemBlock(path, r, RepIn(f, base), DefIn(f, d), occ[n]);
    assert ConformsElem(f, occ[n], true);
    if f.LeafField? {
      assert block[1..] == [];
    } else {
      var kids := Kids(s.out, f.id, n);
      var start := State(Zeros(Reps(path[1..])), kids);
      PlaceOcc(s.out, f.id, n, []);
      BlockWellFormed(f.fields, path[1..], r, RepIn(f, base), DefIn(f, d), occ[n].children);
      MaxRepIs(path[1..], RepIn(f, base));
      ElemPadding(path, base, d, s, n, block);
      if n < |Occ(s.out, f.id)| {
        assert MatchesElem(Occ(s.out, f.id)[n], f, cols, occ[n]);
      } else {
        MatchesNothing(f.fields, occ[n].children);
      }
      NothingMadeUp(f.fields, path[1..], cols, r, RepIn(f, base), DefIn(f, d), occ[n].children, start);
    }
  }

  lemma {:induction false} NothingMadeUpOcc(
      path: Path, cols: set<Path>, r: nat, base: nat, d: nat, occ: seq<Message>, n: nat, s: State)
    requires Loadable(path, cols) && |s.idx| == Reps(path) && n <= |occ|
    requires !path[0].repeated ==> |occ| <= 1
    requires forall k :: 0 <= k < |occ| ==> ConformsElem(path[0], occ[k], true)
    requires Partial(Occ(s.out, path[0].id), path[0], cols, path[1..], occ, n)
    requires n == 0 ==> r <= base
    requires 0 < n < |occ| ==> path[0].repeated && s.idx[0] == n - 1 && r == base + 1
    ensures FeedPadding(path, base, d, s, OccBlock(path, r, RepIn(path[0], base), DefIn(path[0], d), occ[n..])) == 0
    decreases |path|, 0, |occ| - n + 1
  {
    hide Step, Insert, Parents, IsPath, ArePaths, DistinctIds, ConformsElem, Occ, Feed, StepPadding, Partial;
    if n == |occ| {
      assert occ[n..] == [];
    } else {
      hide ElemBlock, OccBlock, FeedPadding, OnlyId;
      var f := path[0];
      var first := ElemBlock(path, r, RepIn(f, base), DefIn(f, d), occ[n]);
      var rest := OccBlock(path, RepIn(f, base), RepIn(f, base), DefIn(f, d), occ[n + 1..]);
      OccBlockSplit(path, r, RepIn(f, base), DefIn(f, d), occ, n);
      PaddingConcat(path, base, d, s, first, rest);
      NothingMadeUpElem(path, cols, r, base, d, occ, n, s);
      LoadElem(path, cols, r, base, d, occ, n, s);
      NothingMadeUpOcc(path, cols, RepIn(f, base), base, d, occ, n + 1, Feed(path, base, d, s, first));
    }
  }

  /** Loading a column that the shredder has written makes up no object. */
  lemma {:induction false} NothingMadeUp(
      fields: seq<Field>, path: Path, cols: set<Path>, r: nat, base: nat, d: nat, ms: seq<Message>, s: State)
    requires IsPath(fields, path) && DistinctIds(fields) && Conforms(fields, ms, true)
    requires ArePaths(fields, cols) && path !in cols
    requires r <= base && |s.idx| == Reps(path)
    requires Matches(s.out, fields, cols, ms)
    ensures FeedPadding(path, base, d, s, Block(path, r, base, d, ms)) == 0
    decreases |path|, 1, 0
  {
    var f := path[0];
    var i :| 0 <= i < |fields| && fields[i] == f;
    var occ := Occ(ms, f.id);
    assert ConformsField(f, occ, true);
    assert MatchesField(Occ(s.out, f.id), f, Below(cols, f), occ);
    BelowPaths(fields, cols, path);
    if occ == [] {
      var block := [Entry(r, d, None)];
      assert block[1..] == [];
    } else {
      assert occ[0..] == occ;
      NothingMadeUpOcc(path, Below(cols, f), r, base, d, occ, 0, s);
    }
  }
}

/**
  The distributed merge as a state machine. The main thread spawns one task per shard under
  the task limit and waits for `sem`; each task groups its shard, merges under the mutex and
  leaves. Steps of different threads interleave freely.
  */
module GroupByMerge {
  import opened Wrappers
  import opened Aggregates
  import opened GroupBy

  /** A shard: the rows its source delivers, and the message if it then fails. */
  datatype Shard = Shard(rows: seq<Row>, error: string)

  datatype Config = Config(shards: seq<Shard>, selects: seq<Select>, keyOf: Row -> string, max: nat)

  datatype Task = Unspawned | Running | Ready(groups: Groups, error: string) | Finished | Exited

  datatype Main = Spawning(next: nat) | Waiting | Returned(groups: Groups) | Raised(errors: seq<string>)

  datatype State = State(
    tasks: seq<Task>, running: nat, sem: int, groups: Groups, errors: seq<string>, main: Main)

  datatype Step = Spawn | AllSpawned | Accumulate(i: nat) | Merge(i: nat) | Exit(i: nat) | Return

  /** The constructor refuses an empty list of sources. */
  predicate ValidConfig(c: Config) {
    c.shards != []
  }

  function Init(c: Config): State {
    State(seq(|c.shards|, _ => Unspawned), 1, |c.shards|, map[], [], Spawning(0))
  }

  ghost predicate Next(c: Config, s: State, step: Step, t: State) {
    match step {
      case Spawn =>
        && s.main.Spawning? && s.main.next < |s.tasks|
        && s.running < c.max
        && t == s.(tasks := s.tasks[s.main.next := Running], running := s.running + 1,
                   main := Spawning(s.main.next + 1))
      case AllSpawned =>
        s.main.Spawning? && s.main.next == |s.tasks| && t == s.(main := Waiting)
      case Accumulate(i) =>
        && i < |s.tasks| == |c.shards| && s.tasks[i] == Running
        && exists g :: Groups?(g, c.shards[i].rows, c.keyOf, c.selects)
                       && t == s.(tasks := s.tasks[i := Ready(g, c.shards[i].error)])
      case Merge(i) =>
        && i < |s.tasks| && s.tasks[i].Ready?
        && t == s.(tasks := s.tasks[i := Finished], sem := s.sem - 1,
                   groups := if s.tasks[i].error == "" then Merged(s.groups, s.tasks[i].groups, c.selects) else s.groups,
                   errors := if s.tasks[i].error == "" then s.errors else s.errors + [s.tasks[i].error])
      case Exit(i) =>
        && i < |s.tasks| && s.tasks[i] == Finished && s.running > 0
        && t == s.(tasks := s.tasks[i := Exited], running := s.running - 1)
      case Return =>
        && s.main == Waiting && s.sem == 0
        && t == s.(main := if s.errors == [] then Returned(s.groups) else Raised(s.errors))
    }
  }

  ghost predicate CanStep(c: Config, s: State, t: State) {
    exists step :: Next(c, s, step, t)
  }

  /** The states of a run, from the initial one. */
  ghost predicate Run(c: Config, trace: seq<State>) {
    && trace != []
    && if |trace| == 1 then trace[0] == Init(c)
       else Run(c, trace[..|trace| - 1]) && CanStep(c, trace[|trace| - 2], trace[|trace| - 1])
  }

  // ------------------------------------------------------------------
  // Counting tasks and adding up shards
  // ------------------------------------------------------------------

  predicate Live(t: Task) {
    t.Running? || t.Ready? || t.Finished?
  }

  predicate Done(t: Task) {
    t.Finished? || t.Exited?
  }

  function CountIf(tasks: seq<Task>, p: Task -> bool): nat {
    if tasks == [] then 0 else (if p(tasks[0]) then 1 else 0) + CountIf(tasks[1..], p)
  }

  lemma {:induction false} CountUpdate(tasks: seq<Task>, p: Task -> bool, i: nat, t: Task)
    requires i < |tasks|
    ensures CountIf(tasks[i := t], p) + (if p(tasks[i]) then 1 else 0) == CountIf(tasks, p) + (if p(t) then 1 else 0)
    decreases i
  {
    if i == 0 {
      assert tasks[0 := t][1..] == tasks[1..];
    } else {
      assert tasks[i := t][1..] == tasks[1..][i - 1 := t];
      CountUpdate(tasks[1..], p, i - 1, t);
    }
  }

  lemma {:induction false} CountNone(tasks: seq<Task>, p: Task -> bool)
    ensures CountIf(tasks, p) <= |tasks|
    ensures CountIf(tasks, p) == 0 <==> forall i :: 0 <= i < |tasks| ==> !p(tasks[i])
    ensures CountIf(tasks, p) == |tasks| <==> forall i :: 0 <= i < |tasks| ==> p(tasks[i])
  {
    if tasks != [] {
      CountNone(tasks[1..], p);
      assert forall i :: 0 < i < |tasks| ==> tasks[i] == tasks[1..][i - 1];
    }
  }

  /** Task i has merged its shard without an error. */
  predicate Merges(c: Config, tasks: seq<Task>, i: nat)
    requires |tasks| == |c.shards| && i < |tasks|
  {
    Done(tasks[i]) && c.shards[i].error == ""
  }

  /** The numbers of one aggregate in one group, added up over the merged ones of the first n shards. */
  ghost function MergedTotal(c: Config, tasks: seq<Task>, key: string, s: Select, n: nat): real
    requires n <= |tasks| == |c.shards|
  {
    if n == 0 then 0.0
    else MergedTotal(c, tasks, key, s, n - 1)
         + (if Merges(c, tasks, n - 1) then Total(c.shards[n - 1].rows, c.keyOf, key, s) else 0.0)
  }

  lemma {:induction false} MergedTotalUpdate(c: Config, tasks: seq<Task>, key: string, s: Select, n: nat, i: nat, t: Task)
    requires n <= |tasks| == |c.shards| && i < |tasks|
    ensures MergedTotal(c, tasks[i := t], key, s, n)
            == MergedTotal(c, tasks, key, s, n)
               + if i < n && c.shards[i].error == "" && Done(t) && !Done(tasks[i])
                 then Total(c.shards[i].rows, c.keyOf, key, s)
                 else if i < n && c.shards[i].error == "" && !Done(t) && Done(tasks[i])
                 then -Total(c.shards[i].rows, c.keyOf, key, s)
                 else 0.0
  {
    if n > 0 {
      MergedTotalUpdate(c, tasks, key, s, n - 1, i, t);
    }
  }

  predicate Fails(c: Config, tasks: seq<Task>, i: nat, message: string)
    requires |tasks| == |c.shards| && i < |tasks|
  {
    Done(tasks[i]) && c.shards[i].error != "" && c.shards[i].error == message
  }

  /** How often a message was raised among the first n shards whose task is done. */
  ghost function Failures(c: Config, tasks: seq<Task>, message: string, n: nat): nat
    requires n <= |tasks| == |c.shards|
  {
    if n == 0 then 0
    else Failures(c, tasks, message, n - 1) + (if Fails(c, tasks, n - 1, message) then 1 else 0)
  }

  lemma {:induction false} FailuresUpdate(c: Config, tasks: seq<Task>, message: string, n: nat, i: nat, t: Task)
    requires n <= |tasks| == |c.shards| && i < |tasks|
    requires Done(tasks[i]) ==> Done(t)
    ensures Failures(c, tasks[i := t], message, n)
            == Failures(c, tasks, message, n)
               + if i < n && !Done(tasks[i]) && Fails(c, tasks[i := t], i, message) then 1 else 0
  {
    if n > 0 {
      FailuresUpdate(c, tasks, message, n - 1, i, t);
    }
  }

  /** The errors are the messages of the failed shards done so far, each as often as raised. */
  ghost predicate ErrorsOfDone(c: Config, tasks: seq<Task>, errors: seq<string>)
    requires |tasks| == |c.shards|
  {
    forall message :: multiset(errors)[message] == Failures(c, tasks, message, |tasks|)
  }

  // ------------------------------------------------------------------
  // The invariant
  // ------------------------------------------------------------------

  ghost predicate SomeMerged(c: Config, tasks: seq<Task>, key: string)
    requires |tasks| == |c.shards|
  {
    exists i :: 0 <= i < |tasks| && Merges(c, tasks, i) && HasKey(c.shards[i].rows, c.keyOf, key)
  }

  /** A scratchpad of the merged groups adds up the shards merged so far. Merging into a fresh
      SUM state sets the float tag, whatever is merged. */
  ghost predicate PadOfMerged(c: Config, tasks: seq<Task>, pad: Pad, key: string, s: Select)
    requires |tasks| == |c.shards|
  {
    && PadOf(s.call, pad)
    && (pad.SumPad? ==> pad.tag == FloatTag)
    && Num(pad) == MergedTotal(c, tasks, key, s, |tasks|)
  }

  ghost predicate KeyOfMerged(c: Config, tasks: seq<Task>, groups: Groups, key: string)
    requires |tasks| == |c.shards|
  {
    && (key in groups <==> SomeMerged(c, tasks, key))
    && (key in groups ==>
          && |groups[key]| == |c.selects|
          && forall j :: 0 <= j < |c.selects| ==> PadOfMerged(c, tasks, groups[key][j], key, c.selects[j]))
  }

  /** The merged groups hold exactly the shards merged so far, in whatever order they came. */
  ghost predicate GroupsOfMerged(c: Config, tasks: seq<Task>, groups: Groups)
    requires |tasks| == |c.shards|
  {
    forall key :: KeyOfMerged(c, tasks, groups, key)
  }

  ghost predicate MainInv(s: State) {
    match s.main
    case Spawning(k) => k <= |s.tasks| && forall i :: 0 <= i < |s.tasks| ==> (s.tasks[i].Unspawned? <==> i >= k)
    case Waiting => forall i :: 0 <= i < |s.tasks| ==> !s.tasks[i].Unspawned?
    case Returned(groups) => s.sem == 0 && s.errors == [] && groups == s.groups
    case Raised(errors) => s.sem == 0 && s.errors != [] && errors == s.errors
  }

  ghost predicate Inv(c: Config, s: State) {
    && |s.tasks| == |c.shards|
    && s.running == 1 + CountIf(s.tasks, Live)
    && (s.running > 1 ==> s.running <= c.max)
    && s.sem == |s.tasks| - CountIf(s.tasks, Done)
    && (forall i :: 0 <= i < |s.tasks| && s.tasks[i].Ready? ==>
          && s.tasks[i].error == c.shards[i].error
          && Groups?(s.tasks[i].groups, c.shards[i].rows, c.keyOf, c.selects))
    && GroupsOfMerged(c, s.tasks, s.groups)
    && ErrorsOfDone(c, s.tasks, s.errors)
    && MainInv(s)
  }

  lemma {:induction false} InitHoldsInv(c: Config)
    ensures Inv(c, Init(c))
  {
    var s := Init(c);
    CountNone(s.tasks, Live);
    CountNone(s.tasks, Done);
    forall message ensures Failures(c, s.tasks, message, |s.tasks|) == 0 {
      NoFailures(c, s.tasks, message, |s.tasks|);
    }
  }

  lemma {:induction false} NoFailures(c: Config, tasks: seq<Task>, message: string, n: nat)
    requires n <= |tasks| == |c.shards|
    ensures Failures(c, tasks, message, n) == 0 <==> forall i :: 0 <= i < n ==> !Fails(c, tasks, i, message)
  {
    if n > 0 {
      NoFailures(c, tasks, message, n - 1);
    }
  }

  lemma {:induction false} SomeMergedUpdate(c: Config, tasks: seq<Task>, key: string, i: nat, t: Task)
    requires |tasks| == |c.shards| && i < |tasks| && (Done(tasks[i]) ==> Done(t))
    ensures SomeMerged(c, tasks[i := t], key) <==>
            SomeMerged(c, tasks, key) || (Merges(c, tasks[i := t], i) && HasKey(c.shards[i].rows, c.keyOf, key))
  {
    var after := tasks[i := t];
    if SomeMerged(c, tasks, key) {
      var x :| 0 <= x < |tasks| && Merges(c, tasks, x) && HasKey(c.shards[x].rows, c.keyOf, key);
      assert Merges(c, after, x);
    }
    if SomeMerged(c, after, key) {
      var x :| 0 <= x < |after| && Merges(c, after, x) && HasKey(c.shards[x].rows, c.keyOf, key);
      assert x != i ==> Merges(c, tasks, x);
    }
  }

  /** A step of a task that merges nothing leaves the merged groups as they are. */
  lemma {:induction false} QuietTask(c: Config, tasks: seq<Task>, groups: Groups, i: nat, t: Task)
    requires |tasks| == |c.shards| && i < |tasks| && GroupsOfMerged(c, tasks, groups)
    requires Done(tasks[i]) ==> Done(t)
    requires Done(t) ==> Done(tasks[i]) || c.shards[i].error != ""
    ensures GroupsOfMerged(c, tasks[i := t], groups)
  {
    var after := tasks[i := t];
    forall key ensures KeyOfMerged(c, after, groups, key) {
      assert KeyOfMerged(c, tasks, groups, key);
      SomeMergedUpdate(c, tasks, key, i, t);
      if key in groups {
        forall j | 0 <= j < |c.selects| ensures PadOfMerged(c, after, groups[key][j], key, c.selects[j]) {
          MergedTotalUpdate(c, tasks, key, c.selects[j], |tasks|, i, t);
        }
      }
    }
  }

  lemma {:induction false} MergeNum(call: Call, a: Pad, b: Pad)
    requires PadOf(call, a) && PadOf(call, b)
    requires a.SumPad? ==> a.tag != IntegerTag
    ensures var m := Aggregates.Merge(a, b);
            PadOf(call, m) && Num(m) == Num(a) + Num(b) && (m.SumPad? ==> m.tag == FloatTag)
  {
  }

  /** The groups of a shard, aggregate by aggregate. */
  lemma {:induction false} ShardPads(g: Groups, rows: seq<Row>, keyOf: Row -> string, selects: seq<Select>, k: string, j: nat)
    requires Groups?(g, rows, keyOf, selects) && j < |selects|
    ensures k in g <==> HasKey(rows, keyOf, k)
    ensures k in g ==>
              |g[k]| == |selects| && PadOf(selects[j].call, g[k][j]) && Num(g[k][j]) == Total(rows, keyOf, k, selects[j])
    ensures k !in g ==> Total(rows, keyOf, k, selects[j]) == 0.0
  {
    FoldMeans(Aggregates.Init(selects[j].call), Args(rows, keyOf, k, selects[j].arg));
    if k !in g {
      NoRowsNoTotal(rows, keyOf, k, selects[j]);
    }
  }

  /** One aggregate of one group after a shard is merged. */
  lemma {:induction false} MergePad(c: Config, tasks: seq<Task>, groups: Groups, i: nat, src: Groups, key: string, j: nat)
    requires |tasks| == |c.shards| && i < |tasks| && !Done(tasks[i]) && c.shards[i].error == ""
    requires KeyOfMerged(c, tasks, groups, key) && j < |c.selects|
    requires Groups?(src, c.shards[i].rows, c.keyOf, c.selects)
    requires key in groups || key in src
    ensures var merged := Merged(groups, src, c.selects);
            && |merged[key]| == |c.selects|
            && PadOfMerged(c, tasks[i := Finished], merged[key][j], key, c.selects[j])
  {
    var call := c.selects[j].call;
    ShardPads(src, c.shards[i].rows, c.keyOf, c.selects, key, j);
    MergedTotalUpdate(c, tasks, key, c.selects[j], |tasks|, i, Finished);
    assert key in src ==> |src[key]| == |c.selects|;
    hide Groups?, MergedTotal, Total, SomeMerged;
    if key in src && key in groups {
      MergeNum(call, groups[key][j], src[key][j]);
    } else if key in src {
      NotMergedNoTotal(c, tasks, key, c.selects[j], |tasks|);
      MergeNum(call, Aggregates.Init(call), src[key][j]);
    }
  }

  /** Merging the groups of a shard makes it one of the merged shards. */
  lemma {:induction false} MergeTask(c: Config, tasks: seq<Task>, groups: Groups, i: nat, src: Groups)
    requires |tasks| == |c.shards| && i < |tasks| && !Done(tasks[i]) && c.shards[i].error == ""
    requires GroupsOfMerged(c, tasks, groups)
    requires Groups?(src, c.shards[i].rows, c.keyOf, c.selects)
    ensures GroupsOfMerged(c, tasks[i := Finished], Merged(groups, src, c.selects))
  {
    hide PadOfMerged;
    var after, merged := tasks[i := Finished], Merged(groups, src, c.selects);
    forall key ensures KeyOfMerged(c, after, merged, key) {
      assert KeyOfMerged(c, tasks, groups, key);
      SomeMergedUpdate(c, tasks, key, i, Finished);
      assert Merges(c, after, i);
      assert key in src <==> HasKey(c.shards[i].rows, c.keyOf, key);
      if key in groups || key in src {
        assert |merged[key]| == |c.selects|;
        forall j | 0 <= j < |c.selects|
          ensures PadOfMerged(c, after, merged[key][j], key, c.selects[j])
        {
          MergePad(c, tasks, groups, i, src, key, j);
        }
      }
    }
  }

  lemma {:induction false} NotMergedNoTotal(c: Config, tasks: seq<Task>, key: string, s: Select, n: nat)
    requires n <= |tasks| == |c.shards| && !SomeMerged(c, tasks, key)
    ensures MergedTotal(c, tasks, key, s, n) == 0.0
  {
    if n > 0 {
      NotMergedNoTotal(c, tasks, key, s, n - 1);
      if Merges(c, tasks, n - 1) {
        NoRowsNoTotal(c.shards[n - 1].rows, c.keyOf, key, s);
      }
    }
  }

  /** Every step of every thread keeps the invariant. */
  lemma {:induction false} NextKeepsInv(c: Config, s: State, step: Step, t: State)
    requires Inv(c, s) && Next(c, s, step, t)
    ensures Inv(c, t)
  {
    hide GroupsOfMerged, ErrorsOfDone, Groups?, Merged, CountIf;
    match step {
      case Spawn =>
        TaskMoves(c, s, s.main.next, Running);
      case AllSpawned =>
      case Accumulate(i) =>
        TaskMoves(c, s, i, t.tasks[i]);
      case Merge(i) =>
        TaskMoves(c, s, i, Finished);
        if s.tasks[i].error == "" {
          MergeTask(c, s.tasks, s.groups, i, s.tasks[i].groups);
        }
      case Exit(i) =>
        TaskMoves(c, s, i, Exited);
      case Return =>
    }
  }

  /** The bookkeeping of one task moving on. */
  lemma {:induction false} TaskMoves(c: Config, s: State, i: nat, t: Task)
    requires Inv(c, s) && i < |s.tasks| && (Done(s.tasks[i]) ==> Done(t))
    ensures var after := s.tasks[i := t];
            && CountIf(after, Live) + (if Live(s.tasks[i]) then 1 else 0) == CountIf(s.tasks, Live) + (if Live(t) then 1 else 0)
            && CountIf(after, Done) + (if Done(s.tasks[i]) then 1 else 0) == CountIf(s.tasks, Done) + (if Done(t) then 1 else 0)
            && CountIf(after, Done) <= |after|
            && ErrorsOfDone(c, after, if Done(t) && !Done(s.tasks[i]) && c.shards[i].error != ""
                                      then s.errors + [c.shards[i].error] else s.errors)
            && (!(Done(t) && !Done(s.tasks[i]) && c.shards[i].error == "") ==>
                  GroupsOfMerged(c, after, s.groups))
  {
    CountUpdate(s.tasks, Live, i, t);
    CountUpdate(s.tasks, Done, i, t);
    CountNone(s.tasks[i := t], Done);
    forall message {
      FailuresUpdate(c, s.tasks, message, |s.tasks|, i, t);
    }
    if !(Done(t) && !Done(s.tasks[i]) && c.shards[i].error == "") {
      QuietTask(c, s.tasks, s.groups, i, t);
    }
  }

  lemma {:induction false} RunKeepsInv(c: Config, trace: seq<State>)
    requires Run(c, trace)
    ensures Inv(c, trace[|trace| - 1])
    decreases |trace|
  {
    if |trace| == 1 {
      InitHoldsInv(c);
    } else {
      var s, t := trace[|trace| - 2], trace[|trace| - 1];
      RunKeepsInv(c, trace[..|trace| - 1]);
      var step :| Next(c, s, step, t);
      NextKeepsInv(c, s, step, t);
    }
  }

  // ------------------------------------------------------------------
  // The outcome of a run
  // ------------------------------------------------------------------

  /** The rows of the first n shards, one after the other. */
  ghost function Rows(c: Config, n: nat): seq<Row>
    requires n <= |c.shards|
  {
    if n == 0 then [] else Rows(c, n - 1) + c.shards[n - 1].rows
  }

  /** Merged groups agree with groups computed in one place: same keys, same counts, and sums of
      the same value, tagged as floats. */
  ghost predicate Agrees(c: Config, merged: Groups, central: Groups) {
    && merged.Keys == central.Keys
    && (forall k :: k in merged ==> |merged[k]| == |central[k]| == |c.selects|)
    && (forall k, j :: k in merged && 0 <= j < |c.selects| ==>
          PadAgrees(c.selects[j].call, merged[k][j], central[k][j]))
  }

  predicate PadAgrees(call: Call, merged: Pad, central: Pad) {
    if call == COUNT then merged == central
    else central.SumPad? && merged == SumPad(FloatTag, central.val)
  }

  lemma {:induction false} AllTotals(c: Config, tasks: seq<Task>, key: string, s: Select, n: nat)
    requires n <= |tasks| == |c.shards| && forall i :: 0 <= i < |tasks| ==> Merges(c, tasks, i)
    ensures MergedTotal(c, tasks, key, s, n) == Total(Rows(c, n), c.keyOf, key, s)
  {
    TotalConcat([], [], c.keyOf, key, s);
    if n > 0 {
      AllTotals(c, tasks, key, s, n - 1);
      TotalConcat(Rows(c, n - 1), c.shards[n - 1].rows, c.keyOf, key, s);
    }
  }

  lemma {:induction false} AllKeys(c: Config, tasks: seq<Task>, key: string, n: nat)
    requires n <= |tasks| == |c.shards| && forall i :: 0 <= i < |tasks| ==> Merges(c, tasks, i)
    ensures HasKey(Rows(c, n), c.keyOf, key) <==>
            exists i :: 0 <= i < n && Merges(c, tasks, i) && HasKey(c.shards[i].rows, c.keyOf, key)
  {
    if n > 0 {
      AllKeys(c, tasks, key, n - 1);
      HasKeyConcat(Rows(c, n - 1), c.shards[n - 1].rows, c.keyOf, key);
      assert Merges(c, tasks, n - 1);
    }
  }

  /** When all shards are in, the merged groups agree with one grouping of all rows. */
  lemma {:induction false} MergedIsCentral(c: Config, tasks: seq<Task>, groups: Groups, central: Groups)
    requires |tasks| == |c.shards| && GroupsOfMerged(c, tasks, groups)
    requires forall i :: 0 <= i < |tasks| ==> Merges(c, tasks, i)
    requires Groups?(central, Rows(c, |c.shards|), c.keyOf, c.selects)
    ensures Agrees(c, groups, central)
  {
    var rows := Rows(c, |c.shards|);
    forall k ensures k in groups <==> k in central {
      AllKeys(c, tasks, k, |tasks|);
      assert KeyOfMerged(c, tasks, groups, k);
      assert k in central <==> HasKey(rows, c.keyOf, k);
    }
    assert groups.Keys == central.Keys;
    forall k | k in groups ensures |groups[k]| == |central[k]| == |c.selects| {
      assert KeyOfMerged(c, tasks, groups, k);
    }
    forall k, j | k in groups && 0 <= j < |c.selects|
      ensures PadAgrees(c.selects[j].call, groups[k][j], central[k][j])
    {
      AllTotals(c, tasks, k, c.selects[j], |tasks|);
      ShardPads(central, rows, c.keyOf, c.selects, k, j);
      assert KeyOfMerged(c, tasks, groups, k);
      assert PadOfMerged(c, tasks, groups[k][j], k, c.selects[j]);
    }
  }

  /**
    Whatever the interleaving, a run that returns has grouped as one GroupBy over the
    concatenated shards would, and it returns only if no shard failed.
    */
  lemma {:induction false} ReturnsCentralResult(c: Config, trace: seq<State>, central: Groups)
    requires ValidConfig(c) && Run(c, trace) && trace[|trace| - 1].main.Returned?
    requires Groups?(central, Rows(c, |c.shards|), c.keyOf, c.selects)
    ensures Agrees(c, trace[|trace| - 1].main.groups, central)
    ensures HandsOut(c, trace[|trace| - 1].main.groups)
    ensures forall i :: 0 <= i < |c.shards| ==> c.shards[i].error == ""
  {
    var s := trace[|trace| - 1];
    RunKeepsInv(c, trace);
    CountNone(s.tasks, Done);
    forall i | 0 <= i < |c.shards| ensures c.shards[i].error == "" && Merges(c, s.tasks, i) {
      NoFailures(c, s.tasks, c.shards[i].error, |s.tasks|);
      assert multiset(s.errors)[c.shards[i].error] == 0;
      assert !Fails(c, s.tasks, i, c.shards[i].error);
    }
    MergedIsCentral(c, s.tasks, s.groups, central);
    CentralHandsOut(c, s.groups, central);
  }

  /** The values that come out of merged groups: the count and the sum over all rows of the group, a
      floating point number also over integers and over nothing. */
  ghost predicate HandsOut(c: Config, groups: Groups) {
    && (forall k :: k in groups <==> HasKey(Rows(c, |c.shards|), c.keyOf, k))
    && (forall k, j :: k in groups && 0 <= j < |c.selects| ==>
          && |groups[k]| == |c.selects|
          && var vs := Args(Rows(c, |c.shards|), c.keyOf, k, c.selects[j].arg);
             Get(groups[k][j]) == if c.selects[j].call == COUNT then Integer(CountOf(vs)) else Float(SumOf(vs)))
  }

  lemma {:induction false} CentralHandsOut(c: Config, groups: Groups, central: Groups)
    requires Agrees(c, groups, central) && Groups?(central, Rows(c, |c.shards|), c.keyOf, c.selects)
    ensures HandsOut(c, groups)
  {
    forall k ensures k in groups <==> HasKey(Rows(c, |c.shards|), c.keyOf, k) {
      assert k in groups.Keys <==> k in central.Keys;
    }
    forall k, j | k in groups && 0 <= j < |c.selects|
      ensures var vs := Args(Rows(c, |c.shards|), c.keyOf, k, c.selects[j].arg);
              && |groups[k]| == |c.selects|
              && Get(groups[k][j]) == if c.selects[j].call == COUNT then Integer(CountOf(vs)) else Float(SumOf(vs))
    {
      assert PadAgrees(c.selects[j].call, groups[k][j], central[k][j]);
      FoldMeans(Aggregates.Init(c.selects[j].call), Args(Rows(c, |c.shards|), c.keyOf, k, c.selects[j].arg));
    }
  }

  /** A run raises only if some shard failed, with the message of every failed shard as often as
      it was raised and no other. */
  lemma {:induction false} RaisesShardErrors(c: Config, trace: seq<State>)
    requires ValidConfig(c) && Run(c, trace) && trace[|trace| - 1].main.Raised?
    ensures exists i :: 0 <= i < |c.shards| && c.shards[i].error != ""
    ensures var s := trace[|trace| - 1];
            && (forall i :: 0 <= i < |c.shards| && c.shards[i].error != "" ==> c.shards[i].error in s.main.errors)
            && |s.tasks| == |c.shards|
            && ErrorsOfDone(c, s.tasks, s.main.errors)
            && forall i :: 0 <= i < |s.tasks| ==> Done(s.tasks[i])
  {
    var s := trace[|trace| - 1];
    RunKeepsInv(c, trace);
    CountNone(s.tasks, Done);
    var message := s.errors[0];
    assert multiset(s.errors)[message] > 0;
    NoFailures(c, s.tasks, message, |s.tasks|);
    var x :| 0 <= x < |s.tasks| && Fails(c, s.tasks, x, message);
    assert c.shards[x].error != "";
    forall i | 0 <= i < |c.shards| && c.shards[i].error != "" ensures c.shards[i].error in s.errors {
      NoFailures(c, s.tasks, c.shards[i].error, |s.tasks|);
      assert Fails(c, s.tasks, i, c.shards[i].error);
      assert multiset(s.errors)[c.shards[i].error] > 0;
    }
  }

  // ------------------------------------------------------------------
  // Progress
  // ------------------------------------------------------------------

  ghost predicate Ended(s: State) {
    (s.main.Returned? || s.main.Raised?) && forall i :: 0 <= i < |s.tasks| ==> s.tasks[i].Exited?
  }

  lemma {:induction false} GroupsExist(rows: seq<Row>, keyOf: Row -> string, selects: seq<Select>) returns (g: Groups)
    ensures Groups?(g, rows, keyOf, selects)
  {
    if rows == [] {
      g := map[];
    } else {
      var n := |rows| - 1;
      var rest := GroupsExist(rows[..n], keyOf, selects);
      var before := if keyOf(rows[n]) in rest then rest[keyOf(rows[n])] else Inits(selects);
      var pads := seq(|selects|, j requires 0 <= j < |selects| => Aggregates.Accumulate(before[j], selects[j].arg(rows[n])));
      RowAdded(rest, rows[..n], rows[n], keyOf, selects, pads);
      assert rows == rows[..n] + [rows[n]];
      g := rest[keyOf(rows[n]) := pads];
    }
  }

  ghost predicate Stuck(c: Config, s: State) {
    forall step, t :: !Next(c, s, step, t)
  }

  /** With room for a task beside the main thread, no reachable state is stuck. */
  lemma {:induction false} NeverStuck(c: Config, s: State)
    requires Inv(c, s) && c.max >= 2 && !Ended(s)
    ensures !Stuck(c, s)
  {
    if i :| 0 <= i < |s.tasks| && s.tasks[i].Running? {
      var g := GroupsExist(c.shards[i].rows, c.keyOf, c.selects);
      var t := s.(tasks := s.tasks[i := Ready(g, c.shards[i].error)]);
      assert Next(c, s, Accumulate(i), t);
    } else if i :| 0 <= i < |s.tasks| && s.tasks[i].Ready? {
      var e := s.tasks[i].error;
      var t := s.(tasks := s.tasks[i := Finished], sem := s.sem - 1,
                  groups := if e == "" then Merged(s.groups, s.tasks[i].groups, c.selects) else s.groups,
                  errors := if e == "" then s.errors else s.errors + [e]);
      assert Next(c, s, Merge(i), t);
    } else if i :| 0 <= i < |s.tasks| && s.tasks[i].Finished? {
      var t := s.(tasks := s.tasks[i := Exited], running := s.running - 1);
      assert Next(c, s, Exit(i), t);
    } else {
      CountNone(s.tasks, Live);
      CountNone(s.tasks, Done);
      MainSteps(c, s);
    }
  }

  lemma {:induction false} MainSteps(c: Config, s: State)
    requires Inv(c, s) && c.max >= 2 && !Ended(s) && s.running == 1
    requires forall i :: 0 <= i < |s.tasks| ==> !Live(s.tasks[i])
    ensures !Stuck(c, s)
  {
    CountNone(s.tasks, Done);
    match s.main {
      case Spawning(k) =>
        if k < |s.tasks| {
          var t := s.(tasks := s.tasks[k := Running], running := s.running + 1, main := Spawning(k + 1));
          assert Next(c, s, Spawn, t);
        } else {
          assert Next(c, s, AllSpawned, s.(main := Waiting));
        }
      case Waiting =>
        assert forall i :: 0 <= i < |s.tasks| ==> Done(s.tasks[i]);
        var t := s.(main := if s.errors == [] then Returned(s.groups) else Raised(s.errors));
        assert Next(c, s, Return, t);
      case _ =>
        assert false;
    }
  }

  /** Without that room the very first task is never spawned. */
  lemma {:induction false} StuckWithoutRoom(c: Config)
    requires ValidConfig(c) && c.max < 2
    ensures Stuck(c, Init(c))
  {
  }

  function TaskRank(t: Task): nat {
    match t
    case Unspawned => 4
    case Running => 3
    case Ready(_, _) => 2
    case Finished => 1
    case Exited => 0
  }

  function Rank(tasks: seq<Task>): nat {
    if tasks == [] then 0 else TaskRank(tasks[0]) + Rank(tasks[1..])
  }

  lemma {:induction false} RankUpdate(tasks: seq<Task>, i: nat, t: Task)
    requires i < |tasks|
    ensures Rank(tasks[i := t]) + TaskRank(tasks[i]) == Rank(tasks) + TaskRank(t)
    decreases i
  {
    if i == 0 {
      assert tasks[0 := t][1..] == tasks[1..];
    } else {
      assert tasks[i := t][1..] == tasks[1..][i - 1 := t];
      RankUpdate(tasks[1..], i - 1, t);
    }
  }

  function StateRank(s: State): nat {
    Rank(s.tasks) + match s.main { case Spawning(_) => 2 case Waiting => 1 case _ => 0 }
  }

  /** Every step brings the run closer to its end. */
  lemma {:induction false} StepDescends(c: Config, s: State, step: Step, t: State)
    requires Inv(c, s) && Next(c, s, step, t)
    ensures StateRank(t) < StateRank(s)
  {
    match step {
      case Spawn => RankUpdate(s.tasks, s.main.next, Running);
      case Accumulate(i) => RankUpdate(s.tasks, i, t.tasks[i]);
      case Merge(i) => RankUpdate(s.tasks, i, Finished);
      case Exit(i) => RankUpdate(s.tasks, i, Exited);
      case _ =>
    }
  }

  /** So every run has at most as many steps as the initial rank, and one that cannot go on has
      ended, provided there is room for a task. */
  lemma {:induction false} RunsEnd(c: Config, trace: seq<State>)
    requires Run(c, trace)
    ensures |trace| - 1 + StateRank(trace[|trace| - 1]) <= StateRank(Init(c))
    ensures c.max >= 2 && Stuck(c, trace[|trace| - 1]) ==> Ended(trace[|trace| - 1])
    decreases |trace|
  {
    RunKeepsInv(c, trace);
    if |trace| > 1 {
      var s, t := trace[|trace| - 2], trace[|trace| - 1];
      RunsEnd(c, trace[..|trace| - 1]);
      RunKeepsInv(c, trace[..|trace| - 1]);
      var step :| Next(c, s, step, t);
      StepDescends(c, s, step, t);
    }
    if c.max >= 2 && !Ended(trace[|trace| - 1]) {
      NeverStuck(c, trace[|trace| - 1]);
    }
  }
}

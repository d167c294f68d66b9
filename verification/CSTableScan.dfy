/**
  The nested scan: columns of different depth are walked in lock step, and each select item
  aggregates one of them. `fetchLevel` is the repetition level at which the next step
  continues, 0 at a record boundary.
  */
module TableScan {
  import opened Wrappers
  import opened Messages
  import opened Columns
  import opened Aggregates

  datatype Strategy = AGGREGATE_ALL | AGGREGATE_WITHIN_RECORD_FLAT | AGGREGATE_WITHIN_RECORD_DEEP

  /** COUNT or SUM over one scanned column. */
  datatype Item = Item(call: Call, column: nat)

  type Row = seq<SValue>

  // ------------------------------------------------------------------
  // One column
  // ------------------------------------------------------------------

  /** The level decoder's answer at the cursor, 0 at the end. */
  ghost function Peek(es: seq<Entry>): nat {
    if es == [] then 0 else es[0].r
  }

  ghost predicate Fetches(es: seq<Entry>, level: nat) {
    es != [] && es[0].r >= level
  }

  ghost function Advance(es: seq<Entry>, level: nat): seq<Entry> {
    if Fetches(es, level) then es[1..] else es
  }

  ghost function Taken(es: seq<Entry>, level: nat): seq<Entry> {
    if Fetches(es, level) then es[..1] else []
  }

  /** Number of records that start in a stripe. */
  ghost function Starts(es: seq<Entry>): nat {
    if es == [] then 0 else (if es[0].r == 0 then 1 else 0) + Starts(es[1..])
  }

  /** The records of a stripe. */
  ghost function Records(es: seq<Entry>): seq<seq<Entry>>
    decreases |es|
  {
    if es == [] then [] else
      TailShorter(es);
      [Head(es)] + Records(Tail(es))
  }

  lemma {:induction false} AfterShorter(es: seq<Entry>)
    ensures |AfterRepeats(es)| <= |es|
    ensures Repeats(es) + AfterRepeats(es) == es
    ensures Starts(AfterRepeats(es)) == Starts(es)
    ensures AfterRepeats(es) != [] ==> AfterRepeats(es)[0].r == 0
  {
    if es != [] {
      AfterShorter(es[1..]);
    }
  }

  lemma {:induction false} TailShorter(es: seq<Entry>)
    requires es != []
    ensures |Tail(es)| < |es|
  {
    AfterShorter(es[1..]);
  }

  lemma {:induction false} RecordsCount(es: seq<Entry>)
    requires es != [] ==> es[0].r == 0
    ensures |Records(es)| == Starts(es)
    decreases |es|
  {
    if es != [] {
      AfterShorter(es[1..]);
      RecordsCount(Tail(es));
    }
  }

  // ------------------------------------------------------------------
  // All columns
  // ------------------------------------------------------------------

  /** Lock step: every column has the same number of records left, the level is the largest
      repetition level next in line, and it is 0 exactly between records. */
  ghost predicate LockStep(total: nat, done: nat, level: nat, rest: seq<seq<Entry>>) {
    && rest != []
    && (forall c :: 0 <= c < |rest| ==> Starts(rest[c]) + done + (if level > 0 then 1 else 0) == total)
    && (forall c :: 0 <= c < |rest| ==> Peek(rest[c]) <= level)
    && (level > 0 ==> exists c :: 0 <= c < |rest| && Peek(rest[c]) == level)
  }

  ghost predicate IsMaxPeek(next: nat, rest: seq<seq<Entry>>) {
    && (forall c :: 0 <= c < |rest| ==> Peek(rest[c]) <= next)
    && (next > 0 ==> exists c :: 0 <= c < |rest| && Peek(rest[c]) == next)
  }

  ghost predicate Advanced(rest: seq<seq<Entry>>, level: nat, after: seq<seq<Entry>>) {
    |after| == |rest| && forall c :: 0 <= c < |rest| ==> after[c] == Advance(rest[c], level)
  }

  ghost function Left(rest: seq<seq<Entry>>): nat {
    if rest == [] then 0 else |rest[0]| + Left(rest[1..])
  }

  lemma {:induction false} LeftDecreases(a: seq<seq<Entry>>, b: seq<seq<Entry>>)
    requires |a| == |b| && forall c :: 0 <= c < |a| ==> |b[c]| <= |a[c]|
    ensures Left(b) <= Left(a)
    ensures (exists c :: 0 <= c < |a| && |b[c]| < |a[c]|) ==> Left(b) < Left(a)
  {
    if a != [] {
      LeftDecreases(a[1..], b[1..]);
      if c :| 0 <= c < |a| && |b[c]| < |a[c]| {
        if c > 0 {
          assert a[1..][c - 1] == a[c] && b[1..][c - 1] == b[c];
        }
      }
    }
  }

  /** Before the last record is done, a column about to be fetched has an entry to fetch. */
  lemma {:induction false} NothingExhausted(total: nat, done: nat, rest: seq<seq<Entry>>)
    requires LockStep(total, done, 0, rest) && done < total
    ensures forall c :: 0 <= c < |rest| ==> rest[c] != []
  {
  }

  /** One step keeps the columns in lock step, counts a record exactly when it ends, and
      consumes at least one entry. */
  lemma {:induction false} StepKeepsLock(total: nat, done: nat, level: nat, rest: seq<seq<Entry>>, next: nat, after: seq<seq<Entry>>)
    requires LockStep(total, done, level, rest) && done < total
    requires Advanced(rest, level, after) && IsMaxPeek(next, after)
    ensures LockStep(total, done + (if next == 0 then 1 else 0), next, after)
    ensures Left(after) < Left(rest)
  {
    forall c | 0 <= c < |rest|
      ensures Starts(after[c]) + done + 1 == total && |after[c]| <= |rest[c]|
    {
      if level == 0 {
        assert rest[c] != [] && rest[c][0].r == 0;
      }
    }
    var c :| 0 <= c < |rest| && Peek(rest[c]) == level;
    assert |after[c]| < |rest[c]| by {
      if level == 0 {
        assert rest[c] != [];
      }
    }
    LeftDecreases(rest, after);
  }

  /** The record that is being read: what was taken of it so far, and the column behind it. */
  ghost predicate InRecord(level: nat, cur: seq<Entry>, rest: seq<Entry>) {
    if level == 0 then cur == [] else cur != [] && forall k :: 1 <= k < |cur| ==> cur[k].r > 0
  }

  lemma {:induction false} StepInRecord(level: nat, cur: seq<Entry>, rest: seq<Entry>, next: nat)
    requires InRecord(level, cur, rest) && Peek(rest) <= level && (level == 0 ==> rest != [])
    requires Peek(Advance(rest, level)) <= next
    ensures var taken := cur + Taken(rest, level);
            && taken + Advance(rest, level) == cur + rest
            && (next > 0 ==> InRecord(next, taken, Advance(rest, level)))
            && (next == 0 ==> Records(cur + rest) == [taken] + Records(Advance(rest, level)))
  {
    var taken, after := cur + Taken(rest, level), Advance(rest, level);
    assert taken + after == cur + rest;
    if next == 0 {
      assert (taken + after)[1..] == taken[1..] + after;
      RepeatsStop(taken[1..], after);
      assert taken == [taken[0]] + taken[1..];
    }
  }

  // ------------------------------------------------------------------
  // The scan
  // ------------------------------------------------------------------

  /** The SQL value of an entry. */
  function ValueOf(toSql: Scalar -> SValue, e: Entry): SValue {
    if e.value.Some? then toSql(e.value.value) else Null
  }

  ghost function Values(toSql: Scalar -> SValue, es: seq<Entry>): (vs: seq<SValue>)
    ensures |vs| == |es|
  {
    seq(|es|, k requires 0 <= k < |es| => ValueOf(toSql, es[k]))
  }

  /** The result of an item over some entries of its column alone. */
  ghost function ColumnResult(toSql: Scalar -> SValue, call: Call, es: seq<Entry>): SValue {
    Get(Fold(Init(call), Values(toSql, es)))
  }

  ghost function ResultRow(toSql: Scalar -> SValue, items: seq<Item>, cols: seq<seq<Entry>>): (row: Row)
    ensures |row| == |items|
  {
    seq(|items|, i requires 0 <= i < |items| =>
      if items[i].column < |cols| then ColumnResult(toSql, items[i].call, cols[items[i].column]) else Null)
  }

  ghost function Empty(n: nat): (cols: seq<seq<Entry>>)
    ensures |cols| == n && forall c :: 0 <= c < n ==> cols[c] == []
  {
    seq(n, _ => [])
  }

  /** What has been taken of each column after one more step. */
  ghost function TakenAll(cur: seq<seq<Entry>>, rest: seq<seq<Entry>>, level: nat): (cols: seq<seq<Entry>>)
    requires |cur| == |rest|
    ensures |cols| == |cur| && forall c :: 0 <= c < |cur| ==> cols[c] == cur[c] + Taken(rest[c], level)
  {
    seq(|cur|, c requires 0 <= c < |cur| => cur[c] + Taken(rest[c], level))
  }

  /** The j-th record of every column. */
  ghost function RecordsAt(all: seq<seq<Entry>>, j: nat): (cols: seq<seq<Entry>>)
    ensures |cols| == |all|
  {
    seq(|all|, c requires 0 <= c < |all| => if j < |Records(all[c])| then Records(all[c])[j] else [])
  }

  /** The entries of one column over a number of rows. */
  ghost function Joined(parts: seq<seq<seq<Entry>>>, c: nat): seq<Entry> {
    if parts == [] then []
    else Joined(parts[..|parts| - 1], c) + (var p := parts[|parts| - 1]; if c < |p| then p[c] else [])
  }

  /** Row j is the result over record j of every item's own column. */
  ghost predicate RowPerRecord(
      toSql: Scalar -> SValue, items: seq<Item>, all: seq<seq<Entry>>, rows: seq<Row>, total: nat)
  {
    && |rows| <= total
    && (forall c :: 0 <= c < |all| ==> |Records(all[c])| == total)
    && (forall j :: 0 <= j < |rows| ==> rows[j] == ResultRow(toSql, items, RecordsAt(all, j)))
  }

  /** The columns and the fetch level after a number of steps. */
  datatype Steps = Steps(rest: seq<seq<Entry>>, level: nat)

  ghost function MaxPeek(rest: seq<seq<Entry>>): (next: nat)
    ensures IsMaxPeek(next, rest)
  {
    if rest == [] then 0
    else
      var more := MaxPeek(rest[1..]);
      assert forall c :: 0 < c < |rest| ==> rest[c] == rest[1..][c - 1];
      if Peek(rest[0]) > more then Peek(rest[0]) else more
  }

  ghost function AdvancedAll(rest: seq<seq<Entry>>, level: nat): (after: seq<seq<Entry>>)
    ensures Advanced(rest, level, after)
  {
    seq(|rest|, c requires 0 <= c < |rest| => Advance(rest[c], level))
  }

  ghost function AfterSteps(all: seq<seq<Entry>>, n: nat): (s: Steps)
    ensures |s.rest| == |all|
  {
    if n == 0 then Steps(all, 0)
    else
      var before := AfterSteps(all, n - 1);
      var after := AdvancedAll(before.rest, before.level);
      Steps(after, MaxPeek(after))
  }

  /** The entries fetched in one step: of every column the next one, if its level is not below the
      fetch level. */
  ghost function PartAt(all: seq<seq<Entry>>, j: nat): (part: seq<seq<Entry>>)
    ensures |part| == |all| && forall c :: 0 <= c < |all| ==> |part[c]| <= 1
  {
    var s := AfterSteps(all, j);
    seq(|all|, c requires 0 <= c < |all| => Taken(s.rest[c], s.level))
  }

  lemma {:induction false} OneStepMore(all: seq<seq<Entry>>, n: nat, rest: seq<seq<Entry>>, level: nat,
                      next: nat, after: seq<seq<Entry>>)
    requires AfterSteps(all, n) == Steps(rest, level) && StepOf(rest, level, next, after)
    ensures AfterSteps(all, n + 1) == Steps(after, next)
    ensures |rest| == |all| && TakenAll(Empty(|all|), rest, level) == PartAt(all, n)
  {
    hide Advance, Taken, Peek;
    assert after == AdvancedAll(rest, level);
    assert forall c :: 0 <= c < |all| ==> [] + Taken(rest[c], level) == Taken(rest[c], level);
    OneMaxPeek(next, MaxPeek(after), after);
  }

  lemma {:induction false} OneMaxPeek(a: nat, b: nat, rest: seq<seq<Entry>>)
    requires IsMaxPeek(a, rest) && IsMaxPeek(b, rest)
    ensures a == b
  {
    hide Peek;
  }

  /** The rows are results over what was fetched step by step. */
  ghost predicate RowPerPart(
      toSql: Scalar -> SValue, items: seq<Item>, all: seq<seq<Entry>>, rows: seq<Row>, parts: seq<seq<seq<Entry>>>)
  {
    && |parts| == |rows|
    && (forall j :: 0 <= j < |rows| ==> parts[j] == PartAt(all, j) && rows[j] == ResultRow(toSql, items, parts[j]))
    && (forall c :: 0 <= c < |all| ==> Joined(parts, c) <= all[c])
  }

  /** What the rows emitted and the entries taken amount to, between two steps. */
  ghost predicate Progress(
      strategy: Strategy, toSql: Scalar -> SValue, items: seq<Item>, all: seq<seq<Entry>>, done: nat, level: nat,
      cur: seq<seq<Entry>>, rest: seq<seq<Entry>>, rows: seq<Row>, parts: seq<seq<seq<Entry>>>)
  {
    && |cur| == |rest| == |all|
    && match strategy {
         case AGGREGATE_ALL => rows == [] && forall c :: 0 <= c < |all| ==> cur[c] + rest[c] == all[c]
         case AGGREGATE_WITHIN_RECORD_FLAT =>
           && |rows| == done
           && (forall c :: 0 <= c < |all| ==> FlatProgress(all[c], done, level, cur[c], rest[c]))
           && (forall j :: 0 <= j < done ==> rows[j] == ResultRow(toSql, items, RecordsAt(all, j)))
         case AGGREGATE_WITHIN_RECORD_DEEP =>
           && |parts| == |rows| && AfterSteps(all, |rows|) == Steps(rest, level)
           && (forall j :: 0 <= j < |rows| ==>
                 parts[j] == PartAt(all, j) && rows[j] == ResultRow(toSql, items, parts[j]))
           && (forall c :: 0 <= c < |all| ==> cur[c] == [] && Joined(parts, c) + rest[c] == all[c])
       }
  }

  ghost predicate FlatProgress(all: seq<Entry>, done: nat, level: nat, cur: seq<Entry>, rest: seq<Entry>) {
    && InRecord(level, cur, rest)
    && done <= |Records(all)|
    && Records(all)[done..] == Records(cur + rest)
  }

  /** The state of the columns around one step. */
  ghost predicate StepOf(rest: seq<seq<Entry>>, level: nat, next: nat, after: seq<seq<Entry>>) {
    && Advanced(rest, level, after) && IsMaxPeek(next, after)
    && (forall c :: 0 <= c < |rest| ==>
          Peek(rest[c]) <= level && (level == 0 ==> rest[c] != []) && Peek(after[c]) <= next)
  }

  lemma {:induction false} FlatStep(all: seq<Entry>, done: nat, level: nat, cur: seq<Entry>, rest: seq<Entry>, next: nat)
    requires FlatProgress(all, done, level, cur, rest) && Peek(rest) <= level && (level == 0 ==> rest != [])
    requires Peek(Advance(rest, level)) <= next
    ensures next > 0 ==> FlatProgress(all, done, next, cur + Taken(rest, level), Advance(rest, level))
    ensures next == 0 ==>
              && FlatProgress(all, done + 1, 0, [], Advance(rest, level))
              && Records(all)[done] == cur + Taken(rest, level)
  {
    StepInRecord(level, cur, rest, next);
    assert [] + Advance(rest, level) == Advance(rest, level);
    if next == 0 {
      var records := Records(all)[done..];
      assert records[0] == cur + Taken(rest, level);
      assert Records(all)[done + 1..] == records[1..];
    }
  }

  lemma {:induction false} ProgressQuiet(
      strategy: Strategy, toSql: Scalar -> SValue, items: seq<Item>, all: seq<seq<Entry>>, done: nat, level: nat,
      cur: seq<seq<Entry>>, rest: seq<seq<Entry>>, rows: seq<Row>, parts: seq<seq<seq<Entry>>>,
      next: nat, after: seq<seq<Entry>>)
    requires Progress(strategy, toSql, items, all, done, level, cur, rest, rows, parts) && |cur| == |rest|
    requires StepOf(rest, level, next, after)
    requires strategy == AGGREGATE_ALL || (strategy == AGGREGATE_WITHIN_RECORD_FLAT && next > 0)
    ensures Progress(strategy, toSql, items, all, done + (if next == 0 then 1 else 0), next,
                     TakenAll(cur, rest, level), after, rows, parts)
  {
    forall c | 0 <= c < |all|
      ensures cur[c] + Taken(rest[c], level) + after[c] == cur[c] + rest[c]
      ensures strategy == AGGREGATE_WITHIN_RECORD_FLAT ==>
                FlatProgress(all[c], done, next, cur[c] + Taken(rest[c], level), after[c])
    {
      if strategy == AGGREGATE_WITHIN_RECORD_FLAT {
        FlatStep(all[c], done, level, cur[c], rest[c], next);
      }
    }
  }

  lemma {:induction false} ProgressEmit(
      strategy: Strategy, toSql: Scalar -> SValue, items: seq<Item>, all: seq<seq<Entry>>, done: nat, level: nat,
      cur: seq<seq<Entry>>, rest: seq<seq<Entry>>, rows: seq<Row>, parts: seq<seq<seq<Entry>>>,
      next: nat, after: seq<seq<Entry>>)
    requires Progress(strategy, toSql, items, all, done, level, cur, rest, rows, parts) && |cur| == |rest|
    requires StepOf(rest, level, next, after)
    requires strategy == AGGREGATE_WITHIN_RECORD_DEEP || (strategy == AGGREGATE_WITHIN_RECORD_FLAT && next == 0)
    ensures Progress(strategy, toSql, items, all, done + (if next == 0 then 1 else 0), next, Empty(|cur|), after,
                     rows + [ResultRow(toSql, items, TakenAll(cur, rest, level))], parts + [TakenAll(cur, rest, level)])
  {
    hide Progress, StepOf, ResultRow;
    if strategy == AGGREGATE_WITHIN_RECORD_FLAT {
      EmitFlat(toSql, items, all, done, level, cur, rest, rows, parts, next, after);
    } else {
      EmitDeep(toSql, items, all, done, level, cur, rest, rows, parts, next, after);
    }
  }

  lemma {:induction false} EmitFlat(
      toSql: Scalar -> SValue, items: seq<Item>, all: seq<seq<Entry>>, done: nat, level: nat,
      cur: seq<seq<Entry>>, rest: seq<seq<Entry>>, rows: seq<Row>, parts: seq<seq<seq<Entry>>>,
      next: nat, after: seq<seq<Entry>>)
    requires Progress(AGGREGATE_WITHIN_RECORD_FLAT, toSql, items, all, done, level, cur, rest, rows, parts)
    requires |cur| == |rest| && StepOf(rest, level, next, after) && next == 0
    ensures Progress(AGGREGATE_WITHIN_RECORD_FLAT, toSql, items, all, done + 1, 0, Empty(|cur|), after,
                     rows + [ResultRow(toSql, items, TakenAll(cur, rest, level))], parts + [TakenAll(cur, rest, level)])
  {
    hide ResultRow, FlatProgress, InRecord, RecordsAt, Records;
    var row := ResultRow(toSql, items, TakenAll(cur, rest, level));
    var rows2 := rows + [row];
    FlatEmit(all, done, level, cur, rest, after);
    forall j | 0 <= j < done + 1 ensures rows2[j] == ResultRow(toSql, items, RecordsAt(all, j)) {
      if j < done { assert rows2[j] == rows[j]; }
    }
  }

  lemma {:induction false} EmitDeep(
      toSql: Scalar -> SValue, items: seq<Item>, all: seq<seq<Entry>>, done: nat, level: nat,
      cur: seq<seq<Entry>>, rest: seq<seq<Entry>>, rows: seq<Row>, parts: seq<seq<seq<Entry>>>,
      next: nat, after: seq<seq<Entry>>)
    requires Progress(AGGREGATE_WITHIN_RECORD_DEEP, toSql, items, all, done, level, cur, rest, rows, parts)
    requires |cur| == |rest| && StepOf(rest, level, next, after)
    ensures Progress(AGGREGATE_WITHIN_RECORD_DEEP, toSql, items, all, done + (if next == 0 then 1 else 0), next,
                     Empty(|cur|), after,
                     rows + [ResultRow(toSql, items, TakenAll(cur, rest, level))], parts + [TakenAll(cur, rest, level)])
  {
    hide ResultRow, AfterSteps, PartAt, MaxPeek, AdvancedAll, StepOf, Taken, Joined;
    var taken := TakenAll(cur, rest, level);
    var row := ResultRow(toSql, items, taken);
    var rows2, parts2 := rows + [row], parts + [taken];
    OneStepMore(all, |rows|, rest, level, next, after);
    assert cur == Empty(|all|);
    forall j | 0 <= j < |rows2| ensures parts2[j] == PartAt(all, j) && rows2[j] == ResultRow(toSql, items, parts2[j]) {
      if j < |rows| { assert rows2[j] == rows[j] && parts2[j] == parts[j]; }
    }
    AfterLength(rest, level, next, after);
    forall c | 0 <= c < |all| ensures Joined(parts + [taken], c) + after[c] == all[c] {
      JoinedMore(parts, taken, c);
      assert taken[c] == [] + Taken(rest[c], level) == Taken(rest[c], level);
      StepSplits(rest, level, next, after, c);
    }
  }

  lemma {:induction false} AfterLength(rest: seq<seq<Entry>>, level: nat, next: nat, after: seq<seq<Entry>>)
    requires StepOf(rest, level, next, after)
    ensures |after| == |rest|
  {
  }

  lemma {:induction false} StepSplits(rest: seq<seq<Entry>>, level: nat, next: nat, after: seq<seq<Entry>>, c: nat)
    requires StepOf(rest, level, next, after) && c < |rest|
    ensures |after| == |rest| && Taken(rest[c], level) + after[c] == rest[c]
    ensures forall pre: seq<Entry> :: pre + Taken(rest[c], level) + after[c] == pre + rest[c]
  {
    assert Taken(rest[c], level) + after[c] == rest[c];
    forall pre: seq<Entry> ensures pre + Taken(rest[c], level) + after[c] == pre + rest[c] {
      assert pre + Taken(rest[c], level) + after[c] == pre + (Taken(rest[c], level) + after[c]);
    }
  }

  lemma {:induction false} FlatEmit(all: seq<seq<Entry>>, done: nat, level: nat, cur: seq<seq<Entry>>, rest: seq<seq<Entry>>,
                 after: seq<seq<Entry>>)
    requires |cur| == |rest| == |all| && StepOf(rest, level, 0, after)
    requires forall c :: 0 <= c < |all| ==> FlatProgress(all[c], done, level, cur[c], rest[c])
    ensures forall c :: 0 <= c < |all| ==> FlatProgress(all[c], done + 1, 0, [], after[c])
    ensures RecordsAt(all, done) == TakenAll(cur, rest, level)
  {
    forall c | 0 <= c < |all|
      ensures FlatProgress(all[c], done + 1, 0, [], after[c])
      ensures RecordsAt(all, done)[c] == TakenAll(cur, rest, level)[c]
    {
      FlatStep(all[c], done, level, cur[c], rest[c], 0);
    }
  }

  lemma {:induction false} JoinedMore(parts: seq<seq<seq<Entry>>>, part: seq<seq<Entry>>, c: nat)
    requires c < |part|
    ensures Joined(parts + [part], c) == Joined(parts, c) + part[c]
  {
    assert (parts + [part])[..|parts|] == parts;
  }

  lemma {:induction false} ProgressAtFirst(
      strategy: Strategy, toSql: Scalar -> SValue, items: seq<Item>, all: seq<seq<Entry>>, total: nat)
    requires all != [] && forall c :: 0 <= c < |all| ==> Starts(all[c]) == total && Peek(all[c]) == 0
    ensures Progress(strategy, toSql, items, all, 0, 0, Empty(|all|), all, [], [])
    ensures LockStep(total, 0, 0, all)
  {
    assert forall c :: 0 <= c < |all| ==> [] + all[c] == all[c];
  }

  lemma {:induction false} ProgressRows(
      strategy: Strategy, toSql: Scalar -> SValue, items: seq<Item>, all: seq<seq<Entry>>, total: nat,
      done: nat, level: nat, cur: seq<seq<Entry>>, rest: seq<seq<Entry>>, rows: seq<Row>, parts: seq<seq<seq<Entry>>>)
    requires Progress(strategy, toSql, items, all, done, level, cur, rest, rows, parts) && done <= total
    requires forall c :: 0 <= c < |all| ==> Starts(all[c]) == total && Peek(all[c]) == 0
    ensures strategy == AGGREGATE_WITHIN_RECORD_FLAT ==>
              RowPerRecord(toSql, items, all, rows, total) && |rows| == done
    ensures strategy == AGGREGATE_WITHIN_RECORD_DEEP ==> RowPerPart(toSql, items, all, rows, parts)
  {
    forall c | 0 <= c < |all| ensures |Records(all[c])| == total {
      RecordsCount(all[c]);
    }
  }

  /** After the last record every column is drained. */
  lemma {:induction false} ProgressDone(
      strategy: Strategy, toSql: Scalar -> SValue, items: seq<Item>, all: seq<seq<Entry>>, total: nat,
      level: nat, cur: seq<seq<Entry>>, rest: seq<seq<Entry>>, rows: seq<Row>, parts: seq<seq<seq<Entry>>>)
    requires Progress(strategy, toSql, items, all, total, level, cur, rest, rows, parts)
    requires LockStep(total, total, level, rest)
    ensures rest == Empty(|all|)
    ensures strategy == AGGREGATE_ALL ==> rows == [] && cur == all
    ensures strategy == AGGREGATE_WITHIN_RECORD_DEEP ==> forall c :: 0 <= c < |all| ==> Joined(parts, c) == all[c]
  {
    forall c | 0 <= c < |all| ensures rest[c] == [] {
      assert Starts(rest[c]) + total + (if level > 0 then 1 else 0) == total;
    }
    assert forall c :: 0 <= c < |all| ==> cur[c] + [] == cur[c] && Joined(parts, c) + [] == Joined(parts, c);
  }

  class CSTableScan {
    const columns: seq<ColumnReader>
    const items: seq<Item>
    const toSql: Scalar -> SValue
    const strategy: Strategy
    const instances: array<Pad>
    var rowsScanned: nat

    constructor (columns: seq<ColumnReader>, items: seq<Item>, toSql: Scalar -> SValue, strategy: Strategy)
      requires forall i :: 0 <= i < |items| ==> items[i].column < |columns|
      ensures this.columns == columns && this.items == items && this.toSql == toSql && this.strategy == strategy
      ensures fresh(instances) && instances.Length == |items|
      ensures forall i :: 0 <= i < |items| ==> instances[i] == Init(items[i].call)
    {
      this.columns, this.items, this.toSql, this.strategy := columns, items, toSql, strategy;
      instances := new Pad[|items|](i requires 0 <= i < |items| => Init(items[i].call));
      rowsScanned := 0;
    }

    /** The cursors stand where `rest` says; no column is scanned twice. */
    ghost predicate At(rest: seq<seq<Entry>>)
      reads columns
    {
      && |rest| == |columns|
      && (forall c :: 0 <= c < |columns| ==> columns[c].Valid() && columns[c].Rest() == rest[c])
      && (forall c, k :: 0 <= c < k < |columns| ==> columns[c] != columns[k])
      && (forall c, k :: 0 <= c < |rest| && 0 <= k < |rest[c]| ==> rest[c][k].r <= columns[c].stripe.rMax)
      && instances.Length == |items|
      && (forall i :: 0 <= i < |items| ==> items[i].column < |columns|)
    }

    /** Each scratchpad has accumulated the entries of its own column, and nothing else. */
    ghost predicate Accumulated(cur: seq<seq<Entry>>)
      reads instances
    {
      && instances.Length == |items| && |cur| == |columns|
      && forall i :: 0 <= i < |items| ==>
           items[i].column < |columns|
           && instances[i] == Fold(Init(items[i].call), Values(toSql, cur[items[i].column]))
    }

    lemma {:induction false} AtSizes(rest: seq<seq<Entry>>)
      requires At(rest)
      ensures |rest| == |columns| && instances.Length == |items|
      ensures forall i :: 0 <= i < |items| ==> items[i].column < |columns|
    {
    }

    ghost predicate Cleared(inRow: array<SValue>, level: nat)
      reads inRow
    {
      inRow.Length == |columns|
      && forall c :: 0 <= c < |columns| && columns[c].stripe.rMax >= level ==> inRow[c] == Null
    }

    /** Fetch the next entry of one column if it is due, and look at the one behind it. */
    method FetchColumn(j: nat, level: nat, inRow: array<SValue>, ghost rest: seq<seq<Entry>>)
      returns (peek: nat, ghost after: seq<seq<Entry>>)
      requires At(rest) && j < |columns| && inRow.Length == |columns|
      requires level == 0 ==> rest[j] != []
      modifies columns[j], inRow
      ensures At(after) && after == rest[j := Advance(rest[j], level)] && peek == Peek(after[j])
      ensures inRow[j] == if Fetches(rest[j], level) then ValueOf(toSql, rest[j][0]) else old(inRow[j])
      ensures forall c :: 0 <= c < |columns| && c != j ==> inRow[c] == old(inRow[c])
    {
      hide ColumnReader.Valid, ColumnReader.Rest, Decode;
      after := rest;
      var nextR := columns[j].NextRepetitionLevel();
      if nextR >= level {
        var r, d, value := columns[j].Next();
        inRow[j] := if value.Some? then toSql(value.value) else Null;
        after := after[j := after[j][1..]];
      }
      peek := columns[j].NextRepetitionLevel();
    }

    /** Fetch from every column whose next entry repeats at the level or above. */
    method Fetch(level: nat, inRow: array<SValue>, ghost rest: seq<seq<Entry>>)
      returns (next: nat, ghost after: seq<seq<Entry>>)
      requires At(rest) && inRow.Length == |columns| && inRow as object != instances as object
      requires level == 0 ==> forall c :: 0 <= c < |rest| ==> rest[c] != []
      modifies columns, inRow
      ensures At(after) && Advanced(rest, level, after) && IsMaxPeek(next, after)
      ensures forall c :: 0 <= c < |columns| ==>
                inRow[c] == if Fetches(rest[c], level) then ValueOf(toSql, rest[c][0]) else old(inRow[c])
    {
      hide ColumnReader.Valid, ColumnReader.Rest, Decode, At, ValueOf;
      AtSizes(rest);
      next := 0;
      after := rest;
      var j := 0;
      while j < |columns|
        invariant 0 <= j <= |columns| && At(after) && |after| == |rest|
        invariant forall c :: 0 <= c < j ==> after[c] == Advance(rest[c], level)
        invariant forall c :: j <= c < |rest| ==> after[c] == rest[c]
        invariant forall c :: 0 <= c < j ==> Peek(after[c]) <= next
        invariant next > 0 ==> exists c :: 0 <= c < j && Peek(after[c]) == next
        invariant forall c :: 0 <= c < j ==>
                    inRow[c] == if Fetches(rest[c], level) then ValueOf(toSql, rest[c][0]) else old(inRow[c])
        invariant forall c :: j <= c < |columns| ==> inRow[c] == old(inRow[c])
      {
        var peek;
        peek, after := FetchColumn(j, level, inRow, after);
        if peek > next {
          next := peek;
        }
        j := j + 1;
      }
    }

    /** Feed the row to the items that are at least as deep as the level. */
    method AccumulateRow(level: nat, inRow: array<SValue>)
      requires inRow.Length == |columns| && instances.Length == |items|
      requires forall i :: 0 <= i < |items| ==> items[i].column < |columns|
      requires inRow as object != instances as object
      modifies instances
      ensures forall i :: 0 <= i < |items| ==>
                instances[i] == if columns[items[i].column].stripe.rMax >= level
                                then Accumulate(old(instances[i]), inRow[items[i].column])
                                else old(instances[i])
    {
      var i := 0;
      while i < |items|
        invariant 0 <= i <= |items|
        invariant forall k :: 0 <= k < i ==>
                    instances[k] == if columns[items[k].column].stripe.rMax >= level
                                    then Accumulate(old(instances[k]), inRow[items[k].column])
                                    else old(instances[k])
        invariant forall k :: i <= k < |items| ==> instances[k] == old(instances[k])
      {
        if columns[items[i].column].stripe.rMax >= level {
          instances[i] := Accumulate(instances[i], inRow[items[i].column]);
        }
        i := i + 1;
      }
    }

    /** A scratchpad sees the entry that was fetched or NULL, which it ignores. */
    lemma {:induction false} AccumulatedStep(level: nat, rest: seq<seq<Entry>>, cur: seq<seq<Entry>>, i: nat, seen: SValue)
      requires |rest| == |cur| == |columns| && i < |items| && items[i].column < |columns|
      requires var es := rest[items[i].column];
               es != [] ==> es[0].r <= columns[items[i].column].stripe.rMax
      requires seen == var es := rest[items[i].column]; if Fetches(es, level) then ValueOf(toSql, es[0]) else Null
      ensures var c := items[i].column;
              var before := Fold(Init(items[i].call), Values(toSql, cur[c]));
              Fold(Init(items[i].call), Values(toSql, cur[c] + Taken(rest[c], level)))
              == if columns[c].stripe.rMax >= level then Accumulate(before, seen) else before
    {
      var c := items[i].column;
      if Fetches(rest[c], level) {
        assert Values(toSql, cur[c] + Taken(rest[c], level)) == Values(toSql, cur[c]) + [ValueOf(toSql, rest[c][0])];
        FoldAppend(Init(items[i].call), Values(toSql, cur[c]), ValueOf(toSql, rest[c][0]));
      } else {
        assert cur[c] + Taken(rest[c], level) == cur[c];
      }
    }

    method Result() returns (row: Row)
      requires instances.Length == |items|
      ensures |row| == |items| && forall i :: 0 <= i < |items| ==> row[i] == Get(instances[i])
    {
      row := seq(|items|, i requires 0 <= i < |items| reads instances, this => Get(instances[i]));
    }

    method Reset()
      requires instances.Length == |items|
      modifies instances
      ensures forall i :: 0 <= i < |items| ==> instances[i] == Init(items[i].call)
    {
      forall i | 0 <= i < |items| {
        instances[i] := Init(items[i].call);
      }
    }

    /** Forget the values of columns that may repeat at the level. */
    method Clear(level: nat, inRow: array<SValue>)
      requires inRow.Length == |columns|
      modifies inRow
      ensures Cleared(inRow, level)
    {
      var c := 0;
      while c < |columns|
        invariant 0 <= c <= |columns|
        invariant forall k :: 0 <= k < c && columns[k].stripe.rMax >= level ==> inRow[k] == Null
      {
        if columns[c].stripe.rMax >= level {
          inRow[c] := Null;
        }
        c := c + 1;
      }
    }
 
    /** One iteration up to the aggregation: fetch, then accumulate what was fetched. */
    method Step(fetchLevel: nat, selectLevel: nat, inRow: array<SValue>,
                ghost rest: seq<seq<Entry>>, ghost cur: seq<seq<Entry>>)
      returns (next: nat, ghost after: seq<seq<Entry>>)
      requires At(rest) && Accumulated(cur) && Cleared(inRow, selectLevel) && selectLevel == fetchLevel
      requires inRow as object != instances as object
      requires fetchLevel == 0 ==> forall c :: 0 <= c < |rest| ==> rest[c] != []
      modifies columns, inRow, instances
      ensures At(after) && Advanced(rest, fetchLevel, after) && IsMaxPeek(next, after)
      ensures Accumulated(TakenAll(cur, rest, fetchLevel))
    {
      hide ColumnReader.Valid, ColumnReader.Rest, Decode, Fold, Values;
      ghost var level := fetchLevel;
      next, after := Fetch(fetchLevel, inRow, rest);
      AccumulateRow(selectLevel, inRow);
      forall i | 0 <= i < |items|
        ensures instances[i] == Fold(Init(items[i].call), Values(toSql, TakenAll(cur, rest, level)[items[i].column]))
      {
        var es := rest[items[i].column];
        AccumulatedStep(level, rest, cur, i, if Fetches(es, level) then ValueOf(toSql, es[0]) else Null);
      }
    }

    /** The row emitted from the scratchpads is the result of every item over its own column. */
    method Emit(ghost cur: seq<seq<Entry>>) returns (row: Row)
      requires Accumulated(cur)
      ensures row == ResultRow(toSql, items, cur)
    {
      row := Result();
    }

    /**
      The scan without a WHERE clause over columns that hold `total` records each. Whatever
      other columns are scanned, an item yields the result over its own column: of the whole
      column, or of one record per row. Every entry is consumed once and all columns end drained.
      */
    method Scan(total: nat, more: Row -> bool, ghost all: seq<seq<Entry>>)
      returns (rows: seq<Row>, ghost parts: seq<seq<seq<Entry>>>)
      requires At(all) && columns != [] && Accumulated(Empty(|columns|))
      requires forall c :: 0 <= c < |all| ==> Starts(all[c]) == total && Peek(all[c]) == 0
      modifies this`rowsScanned, columns, instances
      ensures strategy == AGGREGATE_ALL ==> rows == [ResultRow(toSql, items, all)] && At(Empty(|columns|))
      ensures strategy == AGGREGATE_WITHIN_RECORD_FLAT ==> RowPerRecord(toSql, items, all, rows, total)
      ensures strategy == AGGREGATE_WITHIN_RECORD_DEEP ==> RowPerPart(toSql, items, all, rows, parts)
      ensures strategy != AGGREGATE_ALL ==>
                forall j :: 0 <= j < |rows| && !more(rows[j]) ==> j == |rows| - 1
      ensures strategy != AGGREGATE_ALL && (forall j :: 0 <= j < |rows| ==> more(rows[j])) ==>
                && At(Empty(|columns|))
                && (strategy == AGGREGATE_WITHIN_RECORD_FLAT ==> |rows| == total)
                && (strategy == AGGREGATE_WITHIN_RECORD_DEEP ==> forall c :: 0 <= c < |all| ==> Joined(parts, c) == all[c])
    {
      hide At, Accumulated, Cleared, LockStep, Advanced, IsMaxPeek, ResultRow, Progress, Fold, Values;
      hide RowPerRecord, RowPerPart, StepOf, Joined, Left, AfterSteps, PartAt, Starts, Peek, Advance, Taken, Records;
      AtSizes(all);
      rows, parts := [], [];
      var selectLevel, fetchLevel, numRecords := 0, 0, 0;
      var inRow := new SValue[|columns|](_ => Null);
      ClearedAtFirst(inRow);
      ghost var rest, cur := all, Empty(|columns|);
      ProgressAtFirst(strategy, toSql, items, all, total);
      ProgressRows(strategy, toSql, items, all, total, 0, 0, cur, rest, rows, parts);
      while numRecords < total
        invariant selectLevel == fetchLevel
        invariant LockStep(total, numRecords, fetchLevel, rest) && numRecords <= total
        invariant At(rest) && Accumulated(cur) && Cleared(inRow, selectLevel) && fresh(inRow)
        invariant |cur| == |rest| == |columns| == |all|
        invariant Progress(strategy, toSql, items, all, numRecords, fetchLevel, cur, rest, rows, parts)
        invariant forall j :: 0 <= j < |rows| ==> more(rows[j])
        decreases Left(rest)
      {
        rowsScanned := rowsScanned + 1;
        if fetchLevel == 0 {
          NothingExhausted(total, numRecords, rest);
        }
        ghost var was, before, taken := fetchLevel, rest, cur;
        var next;
        next, rest := Step(fetchLevel, selectLevel, inRow, rest, cur);
        StepKeepsLock(total, numRecords, was, before, next, rest);
        IsStep(total, numRecords, was, before, next, rest);
        cur := TakenAll(taken, before, was);
        fetchLevel := next;
        ghost var done := numRecords;
        if fetchLevel == 0 {
          numRecords := numRecords + 1;
        }
        if strategy == AGGREGATE_ALL || (strategy == AGGREGATE_WITHIN_RECORD_FLAT && next != 0) {
          ProgressQuiet(strategy, toSql, items, all, done, was, taken, before, rows, parts, next, rest);
        } else {
          ProgressEmit(strategy, toSql, items, all, done, was, taken, before, rows, parts, next, rest);
          var row := Emit(cur);
          Reset();
          AccumulatedAtFirst();
          rows, parts := rows + [row], parts + [cur];
          cur := Empty(|columns|);
          if !more(row) {
            assert rows[|rows| - 1] == row;
            ProgressRows(strategy, toSql, items, all, total, numRecords, fetchLevel, cur, rest, rows, parts);
            return;
          }
        }
        selectLevel := fetchLevel;
        Clear(selectLevel, inRow);
      }
      ProgressDone(strategy, toSql, items, all, total, fetchLevel, cur, rest, rows, parts);
      ProgressRows(strategy, toSql, items, all, total, numRecords, fetchLevel, cur, rest, rows, parts);
      if strategy == AGGREGATE_ALL {
        var row := Emit(cur);
        rows := [row];
      }
    }

    lemma {:induction false} ClearedAtFirst(inRow: array<SValue>)
      requires inRow.Length == |columns| && forall c :: 0 <= c < inRow.Length ==> inRow[c] == Null
      ensures Cleared(inRow, 0)
    {
    }

    lemma {:induction false} AccumulatedAtFirst()
      requires instances.Length == |items| && forall i :: 0 <= i < |items| ==> items[i].column < |columns|
      requires forall i :: 0 <= i < |items| ==> instances[i] == Init(items[i].call)
      ensures Accumulated(Empty(|columns|))
    {
    }
  }

  lemma {:induction false} IsStep(total: nat, done: nat, level: nat, rest: seq<seq<Entry>>, next: nat, after: seq<seq<Entry>>)
    requires LockStep(total, done, level, rest) && done < total
    requires Advanced(rest, level, after) && IsMaxPeek(next, after)
    ensures StepOf(rest, level, next, after) && |after| == |rest|
  {
  }
}

/** External merge sort (src/materialize/SortPlan.cpp, src/materialize/SortScan.cpp). A temporary table is
    the sequence of its rows. */
module Sort {
  import opened Options
  import opened Constants
  import opened Rows
  import opened Schemas

  function Concat(runs: seq<seq<Row>>): seq<Row> {
    if runs == [] then [] else Concat(runs[..|runs| - 1]) + runs[|runs| - 1]
  }

  /** Run k starts with a row smaller than the last one of the run before. */
  ghost predicate Drops(fields: seq<string>, runs: seq<seq<Row>>, k: int)
    requires 0 < k < |runs| && runs[k] != [] && runs[k - 1] != []
  {
    Compare(fields, runs[k][0], runs[k - 1][|runs[k - 1]| - 1]) < 0
  }

  /** The source cut exactly where a row is smaller than the one before it. */
  ghost predicate MaximalRuns(fields: seq<string>, runs: seq<seq<Row>>, rows: seq<Row>) {
    && Concat(runs) == rows
    && (forall k :: 0 <= k < |runs| ==> runs[k] != [] && Sorted(fields, runs[k]))
    && forall k :: 0 < k < |runs| ==> Drops(fields, runs, k)
  }

  lemma {:induction false} ConcatAdd(runs: seq<seq<Row>>, run: seq<Row>)
    ensures Concat(runs + [run]) == Concat(runs) + run
  {
    assert (runs + [run])[..|runs|] == runs;
  }

  lemma {:induction false} SortedExtend(fields: seq<string>, run: seq<Row>, r: Row)
    requires Sorted(fields, run) && (run != [] ==> Compare(fields, run[|run| - 1], r) <= 0)
    ensures Sorted(fields, run + [r])
  {
    var more := run + [r];
    forall i, j | 0 <= i < j < |more| ensures Compare(fields, more[i], more[j]) <= 0 {
      if j == |run| && i < |run| - 1 {
        CompareTrans(fields, run[i], run[|run| - 1], r);
      }
    }
  }

  /** While splitting: done are the closed runs, cur the open one, and the row at pos belongs to its end. */
  ghost predicate Splitting(fields: seq<string>, done: seq<seq<Row>>, cur: seq<Row>, rows: seq<Row>, pos: int) {
    && |cur| <= pos < |rows|
    && var start := pos - |cur|;
       && cur == rows[start..pos]
       && MaximalRuns(fields, done, rows[..start])
       && Sorted(fields, rows[start..pos + 1])
       && (done != [] ==> var last := done[|done| - 1]; Compare(fields, rows[start], last[|last| - 1]) < 0)
  }

  /** The row goes to the open run. */
  lemma {:induction false} SplitClose(fields: seq<string>, done: seq<seq<Row>>, cur: seq<Row>, rows: seq<Row>, pos: int)
    returns (runs: seq<seq<Row>>)
    requires Splitting(fields, done, cur, rows, pos)
    ensures runs == done + [cur + [rows[pos]]] && MaximalRuns(fields, runs, rows[..pos + 1])
  {
    hide Compare, Sorted;
    var start := pos - |cur|;
    var run := cur + [rows[pos]];
    runs := done + [run];
    assert run == rows[start..pos + 1];
    assert rows[..pos + 1] == rows[..start] + run;
    ConcatAdd(done, run);
    forall k | 0 < k < |runs| ensures Drops(fields, runs, k) {
      assert k < |done| ==> Drops(fields, done, k);
    }
  }

  lemma {:induction false} SplitStay(fields: seq<string>, done: seq<seq<Row>>, cur: seq<Row>, rows: seq<Row>, pos: int)
    requires Splitting(fields, done, cur, rows, pos) && pos + 1 < |rows| && Compare(fields, rows[pos + 1], rows[pos]) >= 0
    ensures Splitting(fields, done, cur + [rows[pos]], rows, pos + 1)
  {
    var start := pos - |cur|;
    var run := cur + [rows[pos]];
    assert run == rows[start..pos + 1];
    CompareFlips(fields, rows[pos + 1], rows[pos]);
    SortedExtend(fields, run, rows[pos + 1]);
    assert rows[start..pos + 2] == run + [rows[pos + 1]];
  }

  lemma {:induction false} SplitCut(fields: seq<string>, done: seq<seq<Row>>, cur: seq<Row>, rows: seq<Row>, pos: int)
    requires Splitting(fields, done, cur, rows, pos) && pos + 1 < |rows| && Compare(fields, rows[pos + 1], rows[pos]) < 0
    ensures Splitting(fields, done + [cur + [rows[pos]]], [], rows, pos + 1)
  {
    hide Compare, Sorted, Concat;
    var runs := SplitClose(fields, done, cur, rows, pos);
    SortedOne(fields, rows[pos + 1]);
    assert rows[pos + 1..pos + 2] == [rows[pos + 1]];
    assert (done + [cur + [rows[pos]]])[|done|] == cur + [rows[pos]];
  }

  lemma {:induction false} SortedOne(fields: seq<string>, r: Row)
    ensures Sorted(fields, [r])
  {
  }

  lemma {:induction false} SplitStart(fields: seq<string>, rows: seq<Row>)
    ensures rows == [] ==> MaximalRuns(fields, [], rows)
    ensures rows != [] ==> Splitting(fields, [], [], rows, 0)
  {
    if rows != [] {
      assert rows[..0] == [];
    }
  }

  /** What copying the row at pos does to the temporary tables, the open one being last. */
  lemma {:induction false} SplitCopy(fields: seq<string>, done: seq<seq<Row>>, cur: seq<Row>, rows: seq<Row>, pos: int)
    returns (more: seq<Row>)
    requires Splitting(fields, done, cur, rows, pos)
    ensures more == cur + [rows[pos]]
    ensures pos + 1 == |rows| ==> MaximalRuns(fields, done + [more], rows)
    ensures pos + 1 < |rows| && Compare(fields, rows[pos + 1], rows[pos]) >= 0 ==> Splitting(fields, done, more, rows, pos + 1)
    ensures pos + 1 < |rows| && Compare(fields, rows[pos + 1], rows[pos]) < 0 ==> Splitting(fields, done + [more], [], rows, pos + 1)
  {
    more := cur + [rows[pos]];
    var runs := SplitClose(fields, done, cur, rows, pos);
    if pos + 1 == |rows| {
      assert rows[..pos + 1] == rows;
    } else if Compare(fields, rows[pos + 1], rows[pos]) < 0 {
      SplitCut(fields, done, cur, rows, pos);
    } else {
      SplitStay(fields, done, cur, rows, pos);
    }
  }

  /** The temporary tables when the rows from pos on have been distributed. */
  function RunsFrom(fields: seq<string>, done: seq<seq<Row>>, cur: seq<Row>, rows: seq<Row>, pos: nat): seq<seq<Row>>
    requires pos < |rows|
    decreases |rows| - pos
  {
    var more := cur + [rows[pos]];
    if pos + 1 == |rows| then done + [more]
    else if Compare(fields, rows[pos + 1], rows[pos]) < 0 then RunsFrom(fields, done + [more], [], rows, pos + 1)
    else RunsFrom(fields, done, more, rows, pos + 1)
  }

  function Runs(fields: seq<string>, rows: seq<Row>): seq<seq<Row>> {
    if rows == [] then [] else RunsFrom(fields, [], [], rows, 0)
  }

  lemma {:induction false} RunsFromMaximal(fields: seq<string>, done: seq<seq<Row>>, cur: seq<Row>, rows: seq<Row>, pos: nat)
    requires Splitting(fields, done, cur, rows, pos)
    ensures MaximalRuns(fields, RunsFrom(fields, done, cur, rows, pos), rows)
    decreases |rows| - pos
  {
    hide MaximalRuns, Compare;
    var more := SplitCopy(fields, done, cur, rows, pos);
    if pos + 1 < |rows| {
      if Compare(fields, rows[pos + 1], rows[pos]) < 0 {
        RunsFromMaximal(fields, done + [more], [], rows, pos + 1);
      } else {
        RunsFromMaximal(fields, done, more, rows, pos + 1);
      }
    }
  }

  lemma {:induction false} RunsStart(fields: seq<string>, rows: seq<Row>)
    requires rows != []
    ensures MaximalRuns(fields, RunsFrom(fields, [], [], rows, 0), rows)
  {
    hide *;
    SplitStart(fields, rows);
    RunsFromMaximal(fields, [], [], rows, 0);
  }

  /** The initial runs are the maximal nondecreasing segments of the source. */
  lemma {:induction false} RunsMaximal(fields: seq<string>, rows: seq<Row>)
    ensures MaximalRuns(fields, Runs(fields, rows), rows)
  {
    if rows == [] {
      SplitStart(fields, rows);
    } else {
      RunsStart(fields, rows);
    }
  }

  // ---------------------------------------------------------------- comparisons that can fail

  /** The sort fields before the first one that the rows do not have. */
  function KnownPrefix(fields: seq<string>, names: set<string>): seq<string> {
    if fields == [] || fields[0] !in names then [] else [fields[0]] + KnownPrefix(fields[1..], names)
  }

  /** Comparing the two rows needs no field they do not have. */
  predicate Tells(fields: seq<string>, names: set<string>, r: Row, s: Row) {
    KnownPrefix(fields, names) == fields || Compare(KnownPrefix(fields, names), r, s) != 0
  }

  /** A row as a temporary table stores it. */
  ghost predicate Typed(schema: Schema, r: Row) {
    r.Keys == NameSet(schema) && Storable(schema, r)
  }

  ghost predicate AllTyped(schema: Schema, rows: seq<Row>) {
    forall i :: 0 <= i < |rows| ==> Typed(schema, rows[i])
  }

  /** On stored rows a comparison fails only for want of a field. */
  lemma {:induction false} TellsIff(schema: Schema, fields: seq<string>, r: Row, s: Row)
    requires Typed(schema, r) && Typed(schema, s)
    ensures CanCompare(fields, r, s) <==> Tells(fields, NameSet(schema), r, s)
  {
    var names := NameSet(schema);
    if fields != [] && fields[0] in names {
      TellsIff(schema, fields[1..], r, s);
      assert ([fields[0]] + KnownPrefix(fields[1..], names))[1..] == KnownPrefix(fields[1..], names);
      assert fields == [fields[0]] + fields[1..];
    }
  }

  lemma {:induction false} KnownAll(fields: seq<string>, names: set<string>)
    ensures KnownPrefix(fields, names) == fields <==> forall i :: 0 <= i < |fields| ==> fields[i] in names
  {
    if fields != [] {
      KnownAll(fields[1..], names);
      assert fields == [fields[0]] + fields[1..];
      if fields[0] in names && KnownPrefix(fields, names) == fields {
        assert KnownPrefix(fields, names)[1..] == KnownPrefix(fields[1..], names);
        forall i | 0 <= i < |fields| ensures fields[i] in names {
          assert i > 0 ==> fields[i] == fields[1..][i - 1];
        }
      }
    }
  }

  /** The known fields decide first. */
  lemma {:induction false} KnownFirst(fields: seq<string>, names: set<string>, r: Row, s: Row)
    ensures Compare(KnownPrefix(fields, names), r, s) != 0 ==> Compare(fields, r, s) == Compare(KnownPrefix(fields, names), r, s)
  {
    if fields != [] && fields[0] in names {
      KnownFirst(fields[1..], names, r, s);
      assert ([fields[0]] + KnownPrefix(fields[1..], names))[1..] == KnownPrefix(fields[1..], names);
    }
  }

  lemma {:induction false} TellsFlips(fields: seq<string>, names: set<string>, r: Row, s: Row)
    ensures Tells(fields, names, r, s) <==> Tells(fields, names, s, r)
  {
    CompareFlips(KnownPrefix(fields, names), r, s);
  }

  /** In order, what tells neighbours apart tells all apart. */
  lemma {:induction false} TellsTrans(fields: seq<string>, names: set<string>, r: Row, s: Row, t: Row)
    requires Compare(fields, r, s) <= 0 && Compare(fields, s, t) <= 0
    requires Tells(fields, names, r, s) || Tells(fields, names, s, t)
    ensures Tells(fields, names, r, t)
  {
    hide Compare;
    var known := KnownPrefix(fields, names);
    if known != fields {
      KnownFirst(fields, names, r, s);
      KnownFirst(fields, names, s, t);
      CompareTrans(known, r, s, t);
    }
  }

  /** No comparison of two of the rows fails. */
  ghost predicate Told(fields: seq<string>, names: set<string>, rows: seq<Row>) {
    forall i, j :: 0 <= i < j < |rows| ==> Tells(fields, names, rows[i], rows[j])
  }

  lemma {:induction false} Twice(rows: seq<Row>, r: Row) returns (i: nat, j: nat)
    requires multiset(rows)[r] >= 2
    ensures i < j < |rows| && rows[i] == r == rows[j]
  {
    var n := |rows| - 1;
    assert rows == rows[..n] + [rows[n]];
    if rows[n] == r {
      assert multiset(rows[..n])[r] >= 1;
      i :| 0 <= i < n && rows[i] == r;
      j := n;
    } else {
      i, j := Twice(rows[..n], r);
    }
  }

  lemma {:induction false} CountTwice(rows: seq<Row>, i: nat, j: nat)
    requires i < j < |rows| && rows[i] == rows[j]
    ensures multiset(rows)[rows[i]] >= 2
  {
    assert rows == rows[..j] + [rows[j]] + rows[j + 1..];
    assert rows[i] in rows[..j];
  }

  /** It depends on the rows alone, not on their order. */
  lemma {:induction false} ToldPart(fields: seq<string>, names: set<string>, part: seq<Row>, rows: seq<Row>)
    requires Told(fields, names, rows) && multiset(part) <= multiset(rows)
    ensures Told(fields, names, part)
  {
    hide Tells;
    forall i, j | 0 <= i < j < |part| ensures Tells(fields, names, part[i], part[j]) {
      if part[i] == part[j] {
        CountTwice(part, i, j);
        var k, l := Twice(rows, part[i]);
      } else {
        assert part[i] in multiset(part) && part[j] in multiset(part);
        var k :| 0 <= k < |rows| && rows[k] == part[i];
        var l :| 0 <= l < |rows| && rows[l] == part[j];
        TellsFlips(fields, names, rows[l], rows[k]);
      }
    }
  }

  /** Splitting copies every row and compares each with the one before. */
  ghost predicate Splits(schema: Schema, fields: seq<string>, rows: seq<Row>) {
    && AllTyped(schema, rows)
    && forall i :: 0 < i < |rows| ==> Tells(fields, NameSet(schema), rows[i], rows[i - 1])
  }

  ghost predicate Shows(schema: Schema, rows: seq<Row>) {
    forall i :: 0 <= i < |rows| ==> rows[i].Keys == NameSet(schema)
  }

  lemma {:induction false} RunsFromStep(fields: seq<string>, done: seq<seq<Row>>, cur: seq<Row>, rows: seq<Row>, pos: nat)
    requires pos < |rows|
    ensures var more := cur + [rows[pos]];
      RunsFrom(fields, done, cur, rows, pos) ==
        if pos + 1 == |rows| then done + [more]
        else if Compare(fields, rows[pos + 1], rows[pos]) < 0 then RunsFrom(fields, done + [more], [], rows, pos + 1)
        else RunsFrom(fields, done, more, rows, pos + 1)
  {
  }

  lemma {:induction false} RunsStartAt(fields: seq<string>, rows: seq<Row>)
    ensures Runs(fields, rows) == if rows == [] then [] else RunsFrom(fields, [], [], rows, 0)
  {
  }

  lemma {:induction false} TypedIs(schema: Schema, fields: seq<string>, rows: seq<Row>, i: nat)
    requires i < |rows| && Shows(schema, rows)
    ensures rows[i].Keys == NameSet(schema) && (Storable(schema, rows[i]) <==> Typed(schema, rows[i]))
    ensures !Typed(schema, rows[i]) ==> !Splits(schema, fields, rows)
  {
  }

  lemma {:induction false} NotTold(schema: Schema, fields: seq<string>, rows: seq<Row>, i: nat)
    requires 0 < i < |rows| && Shows(schema, rows) && !CanCompare(fields, rows[i], rows[i - 1])
    ensures !Splits(schema, fields, rows)
  {
    hide Tells, CanCompare, Storable;
    if Splits(schema, fields, rows) {
      TellsIff(schema, fields, rows[i], rows[i - 1]);
    }
  }

  method SplitIntoRuns(src: Cursor, schema: Schema, fields: seq<string>) returns (runs: Option<seq<seq<Row>>>)
    requires src.Valid() && Shows(schema, src.rows)
    modifies src
    ensures src.Valid() && (runs.Some? <==> Splits(schema, fields, src.rows))
    ensures runs.Some? ==> runs.value == Runs(fields, src.rows)
  {
    hide Compare, CanCompare, Typed, Tells, Splits, RunsFrom, Runs, Storable, NameSet, Shows;
    var temps: seq<seq<Row>> := [];
    src.BeforeFirst();
    var more := src.Next();
    if !more {
      RunsStartAt(fields, src.rows);
      AllTell(schema, fields, src.rows);
      return Some(temps);
    }
    var current: seq<Row> := [];
    RunsStartAt(fields, src.rows);
    while true
      invariant src.Valid() && 0 <= src.pos < |src.rows|
      invariant RunsFrom(fields, temps, current, src.rows, src.pos) == Runs(fields, src.rows)
      invariant forall i :: 0 <= i < src.pos ==> Typed(schema, src.rows[i])
      invariant forall i :: 0 < i <= src.pos ==> CanCompare(fields, src.rows[i], src.rows[i - 1])
      decreases |src.rows| - src.pos
    {
      RunsFromStep(fields, temps, current, src.rows, src.pos);
      TypedIs(schema, fields, src.rows, src.pos);
      var copied := CopyRow(schema, src.rows[src.pos]);
      if copied.None? {
        return None;
      }
      current := current + [copied.value];
      more := src.Next();
      if !more {
        temps := temps + [current];
        AllTell(schema, fields, src.rows);
        return Some(temps);
      }
      var c := CompareRows(fields, src.rows[src.pos], copied.value);
      if c.None? {
        NotTold(schema, fields, src.rows, src.pos);
        return None;
      }
      if c.value < 0 {
        temps := temps + [current];
        current := [];
      }
    }
  }

  lemma {:induction false} AllTell(schema: Schema, fields: seq<string>, rows: seq<Row>)
    requires AllTyped(schema, rows) && forall i :: 0 < i < |rows| ==> CanCompare(fields, rows[i], rows[i - 1])
    ensures Splits(schema, fields, rows)
  {
    hide Tells, CanCompare, Storable;
    forall i | 0 < i < |rows| ensures Tells(fields, NameSet(schema), rows[i], rows[i - 1]) {
      assert Typed(schema, rows[i]) && Typed(schema, rows[i - 1]);
      TellsIff(schema, fields, rows[i], rows[i - 1]);
    }
  }

  // ---------------------------------------------------------------- merging

  /** The smaller first row goes first; of equal ones the second table's. */
  function Merged(fields: seq<string>, a: seq<Row>, b: seq<Row>): seq<Row> {
    if a == [] then b
    else if b == [] then a
    else if Compare(fields, a[0], b[0]) < 0 then [a[0]] + Merged(fields, a[1..], b)
    else [b[0]] + Merged(fields, a, b[1..])
  }

  lemma {:induction false} FirstOf(rows: seq<Row>)
    requires rows != []
    ensures multiset(rows) == multiset{rows[0]} + multiset(rows[1..])
  {
    assert rows == [rows[0]] + rows[1..];
  }

  lemma {:induction false} MergedRows(fields: seq<string>, a: seq<Row>, b: seq<Row>)
    ensures multiset(Merged(fields, a, b)) == multiset(a) + multiset(b)
    ensures |Merged(fields, a, b)| == |a| + |b|
  {
    hide Compare;
    if a != [] && b != [] {
      if Compare(fields, a[0], b[0]) < 0 {
        MergedRows(fields, a[1..], b);
        FirstOf(a);
      } else {
        MergedRows(fields, a, b[1..]);
        FirstOf(b);
      }
    }
  }

  ghost predicate LowerBound(fields: seq<string>, r: Row, rows: seq<Row>) {
    forall i :: 0 <= i < |rows| ==> Compare(fields, r, rows[i]) <= 0
  }

  lemma {:induction false} MergedBound(fields: seq<string>, r: Row, a: seq<Row>, b: seq<Row>)
    requires LowerBound(fields, r, a) && LowerBound(fields, r, b)
    ensures LowerBound(fields, r, Merged(fields, a, b))
  {
    if a != [] && b != [] {
      if Compare(fields, a[0], b[0]) < 0 {
        MergedBound(fields, r, a[1..], b);
      } else {
        MergedBound(fields, r, a, b[1..]);
      }
    }
  }

  lemma {:induction false} SortedTail(fields: seq<string>, rows: seq<Row>)
    requires Sorted(fields, rows) && rows != []
    ensures Sorted(fields, rows[1..]) && LowerBound(fields, rows[0], rows[1..])
  {
  }

  lemma {:induction false} BoundTrans(fields: seq<string>, r: Row, rows: seq<Row>)
    requires Sorted(fields, rows) && rows != [] && Compare(fields, r, rows[0]) <= 0
    ensures LowerBound(fields, r, rows)
  {
    forall i | 0 < i < |rows| ensures Compare(fields, r, rows[i]) <= 0 {
      CompareTrans(fields, r, rows[0], rows[i]);
    }
  }

  lemma {:induction false} ConsSorted(fields: seq<string>, r: Row, rows: seq<Row>)
    requires Sorted(fields, rows) && LowerBound(fields, r, rows)
    ensures Sorted(fields, [r] + rows)
  {
    var more := [r] + rows;
    forall i, j | 0 <= i < j < |more| ensures Compare(fields, more[i], more[j]) <= 0 {
      assert more[j] == rows[j - 1];
      if i > 0 {
        assert more[i] == rows[i - 1];
      }
    }
  }

  lemma {:induction false} MergedSorted(fields: seq<string>, a: seq<Row>, b: seq<Row>)
    requires Sorted(fields, a) && Sorted(fields, b)
    ensures Sorted(fields, Merged(fields, a, b))
  {
    if a != [] && b != [] {
      SortedTail(fields, a);
      SortedTail(fields, b);
      if Compare(fields, a[0], b[0]) < 0 {
        MergedSorted(fields, a[1..], b);
        BoundTrans(fields, a[0], b);
        MergedBound(fields, a[0], a[1..], b);
        ConsSorted(fields, a[0], Merged(fields, a[1..], b));
      } else {
        CompareFlips(fields, a[0], b[0]);
        MergedSorted(fields, a, b[1..]);
        BoundTrans(fields, b[0], a);
        MergedBound(fields, b[0], a, b[1..]);
        ConsSorted(fields, b[0], Merged(fields, a, b[1..]));
      }
    }
  }

  /** The rows that compare equal to r, in their order. */
  function Peers(fields: seq<string>, r: Row, rows: seq<Row>): seq<Row> {
    if rows == [] then [] else (if Compare(fields, r, rows[0]) == 0 then [rows[0]] else []) + Peers(fields, r, rows[1..])
  }

  lemma {:induction false} NoPeers(fields: seq<string>, r: Row, rows: seq<Row>)
    requires forall i :: 0 <= i < |rows| ==> Compare(fields, r, rows[i]) < 0
    ensures Peers(fields, r, rows) == []
  {
    if rows != [] {
      NoPeers(fields, r, rows[1..]);
    }
  }

  /** All rows of a sorted run come after a row that comes before the first. */
  lemma {:induction false} AllAfter(fields: seq<string>, r: Row, x: Row, rows: seq<Row>)
    requires Sorted(fields, rows) && rows != [] && Compare(fields, r, x) == 0 && Compare(fields, x, rows[0]) < 0
    ensures Peers(fields, r, rows) == []
  {
    hide Compare;
    CompareTrans(fields, r, x, rows[0]);
    forall i | 0 <= i < |rows| ensures Compare(fields, r, rows[i]) < 0 {
      if i > 0 {
        CompareTrans(fields, r, rows[0], rows[i]);
      }
    }
    NoPeers(fields, r, rows);
  }

  /** Of equal rows those of the second run come first, and within a run their order stays. */
  lemma {:induction false} MergedTies(fields: seq<string>, r: Row, a: seq<Row>, b: seq<Row>)
    requires Sorted(fields, a) && Sorted(fields, b)
    ensures Peers(fields, r, Merged(fields, a, b)) == Peers(fields, r, b) + Peers(fields, r, a)
  {
    hide Compare;
    if a != [] && b != [] {
      SortedTail(fields, a);
      SortedTail(fields, b);
      MergedStep(fields, a, b, []);
      hide Merged, Sorted;
      var ab := Merged(fields, a, b);
      if Compare(fields, a[0], b[0]) < 0 {
        MergedTies(fields, r, a[1..], b);
        assert ab == [a[0]] + Merged(fields, a[1..], b);
        if Compare(fields, r, a[0]) == 0 {
          AllAfter(fields, r, a[0], b);
        }
      } else {
        MergedTies(fields, r, a, b[1..]);
        assert ab == [b[0]] + Merged(fields, a, b[1..]);
      }
    }
  }

  lemma {:induction false} MergedStep(fields: seq<string>, a: seq<Row>, b: seq<Row>, out: seq<Row>)
    requires a != [] && b != []
    ensures Compare(fields, a[0], b[0]) < 0 ==> out + Merged(fields, a, b) == (out + [a[0]]) + Merged(fields, a[1..], b)
    ensures Compare(fields, a[0], b[0]) >= 0 ==> out + Merged(fields, a, b) == (out + [b[0]]) + Merged(fields, a, b[1..])
  {
  }

  lemma {:induction false} MergedEnd(fields: seq<string>, a: seq<Row>, b: seq<Row>)
    ensures b == [] ==> Merged(fields, a, b) == a
    ensures a == [] ==> Merged(fields, a, b) == b
  {
  }

  /** The rest of a scan is copied. */
  method CopyRest(src: Cursor, dest: seq<Row>) returns (out: seq<Row>)
    requires src.Valid() && 0 <= src.pos < |src.rows|
    modifies src
    ensures src.Valid() && out == dest + old(src.Left())
  {
    out := dest;
    var more := true;
    while more
      invariant src.Valid() && 0 <= src.pos && more == (src.pos < |src.rows|)
      invariant out + src.Left() == dest + old(src.Left())
      decreases |src.rows| - src.pos
    {
      out := out + [src.rows[src.pos]];
      more := src.Next();
    }
  }

  /** The comparisons of a merge. */
  predicate MergeTells(fields: seq<string>, names: set<string>, a: seq<Row>, b: seq<Row>) {
    a == [] || b == [] || (Tells(fields, names, a[0], b[0]) &&
                           if Compare(fields, a[0], b[0]) < 0 then MergeTells(fields, names, a[1..], b) else MergeTells(fields, names, a, b[1..]))
  }

  lemma {:induction false} MergeTellsStep(schema: Schema, fields: seq<string>, a: seq<Row>, b: seq<Row>)
    requires a != [] && b != [] && Typed(schema, a[0]) && Typed(schema, b[0])
    ensures var names := NameSet(schema);
      MergeTells(fields, names, a, b) <==>
      (CanCompare(fields, a[0], b[0]) &&
       if Compare(fields, a[0], b[0]) < 0 then MergeTells(fields, names, a[1..], b) else MergeTells(fields, names, a, b[1..]))
  {
    hide Typed, Tells, CanCompare, Compare;
    TellsIff(schema, fields, a[0], b[0]);
  }

  lemma {:induction false} MergeTellsEnd(fields: seq<string>, names: set<string>, a: seq<Row>, b: seq<Row>)
    requires a == [] || b == []
    ensures MergeTells(fields, names, a, b)
  {
  }

  method MergeTwoRuns(schema: Schema, run1: seq<Row>, run2: seq<Row>, fields: seq<string>) returns (result: Option<seq<Row>>)
    requires AllTyped(schema, run1) && AllTyped(schema, run2)
    ensures result.Some? <==> MergeTells(fields, NameSet(schema), run1, run2)
    ensures result.Some? ==> result.value == Merged(fields, run1, run2)
  {
    hide Compare, Merged, MergeTells, CanCompare, Typed, NameSet;
    var src1 := new Cursor(run1);
    var src2 := new Cursor(run2);
    var dest: seq<Row> := [];
    assert run1[0..] == run1 && run2[0..] == run2;
    var more1 := src1.Next();
    var more2 := src2.Next();
    while more1 && more2
      invariant src1.Valid() && src2.Valid() && src1.rows == run1 && src2.rows == run2 && src1 != src2
      invariant fresh(src1) && fresh(src2)
      invariant src1.pos >= 0 && src2.pos >= 0 && more1 == (src1.pos < |run1|) && more2 == (src2.pos < |run2|)
      invariant dest + Merged(fields, run1[src1.pos..], run2[src2.pos..]) == Merged(fields, run1, run2)
      invariant MergeTells(fields, NameSet(schema), run1[src1.pos..], run2[src2.pos..]) <==> MergeTells(fields, NameSet(schema), run1, run2)
      decreases |run1| - src1.pos + |run2| - src2.pos
    {
      MergedStep(fields, run1[src1.pos..], run2[src2.pos..], dest);
      MergeTellsStep(schema, fields, run1[src1.pos..], run2[src2.pos..]);
      var c := CompareRows(fields, run1[src1.pos], run2[src2.pos]);
      if c.None? {
        return None;
      }
      if c.value < 0 {
        assert run1[src1.pos..][1..] == run1[src1.pos + 1..];
        dest := dest + [run1[src1.pos]];
        more1 := src1.Next();
      } else {
        assert run2[src2.pos..][1..] == run2[src2.pos + 1..];
        dest := dest + [run2[src2.pos]];
        more2 := src2.Next();
      }
    }
    MergedEnd(fields, run1[src1.pos..], run2[src2.pos..]);
    MergeTellsEnd(fields, NameSet(schema), run1[src1.pos..], run2[src2.pos..]);
    if more1 {
      dest := CopyRest(src1, dest);
    } else if more2 {
      dest := CopyRest(src2, dest);
    }
    result := Some(dest);
  }

  /** One pass: neighbours are merged, an odd last run is kept. */
  function MergePass(fields: seq<string>, runs: seq<seq<Row>>): (r: seq<seq<Row>>)
    ensures |r| == (|runs| + 1) / 2
  {
    if |runs| < 2 then runs else [Merged(fields, runs[0], runs[1])] + MergePass(fields, runs[2..])
  }

  /** The comparisons of a pass. */
  predicate PassTells(fields: seq<string>, names: set<string>, runs: seq<seq<Row>>) {
    |runs| < 2 || (MergeTells(fields, names, runs[0], runs[1]) && PassTells(fields, names, runs[2..]))
  }

  lemma {:induction false} PassStep(fields: seq<string>, names: set<string>, runs: seq<seq<Row>>, i: nat, m: seq<Row>)
    requires i + 2 <= |runs| && m == Merged(fields, runs[i], runs[i + 1])
    ensures MergePass(fields, runs[i..]) == [m] + MergePass(fields, runs[i + 2..])
    ensures PassTells(fields, names, runs[i..]) <==> MergeTells(fields, names, runs[i], runs[i + 1]) && PassTells(fields, names, runs[i + 2..])
  {
    assert runs[i..][2..] == runs[i + 2..];
  }

  lemma {:induction false} PassEnd(fields: seq<string>, names: set<string>, runs: seq<seq<Row>>, i: nat)
    requires i <= |runs| < i + 2
    ensures MergePass(fields, runs[i..]) == (if i < |runs| then [runs[|runs| - 1]] else []) && PassTells(fields, names, runs[i..])
  {
  }

  ghost predicate TypedRuns(schema: Schema, runs: seq<seq<Row>>) {
    forall k :: 0 <= k < |runs| ==> AllTyped(schema, runs[k])
  }

  method DoAMergeIteration(schema: Schema, runs: seq<seq<Row>>, fields: seq<string>) returns (result: Option<seq<seq<Row>>>)
    requires TypedRuns(schema, runs)
    ensures result.Some? <==> PassTells(fields, NameSet(schema), runs)
    ensures result.Some? ==> result.value == MergePass(fields, runs)
  {
    hide MergePass, PassTells, MergeTells, Merged, AllTyped, NameSet;
    var out: seq<seq<Row>> := [];
    var i := 0;
    assert runs[0..] == runs;
    ghost var names := NameSet(schema);
    ghost var rest := MergePass(fields, runs[0..]);
    while i + 2 <= |runs|
      invariant 0 <= i <= |runs| && i % 2 == 0
      invariant rest == MergePass(fields, runs[i..]) && out + rest == MergePass(fields, runs)
      invariant PassTells(fields, names, runs[i..]) <==> PassTells(fields, names, runs)
    {
      PassStep(fields, names, runs, i, Merged(fields, runs[i], runs[i + 1]));
      var m := MergeTwoRuns(schema, runs[i], runs[i + 1], fields);
      if m.None? {
        return None;
      }
      out := out + [m.value];
      i := i + 2;
      rest := MergePass(fields, runs[i..]);
    }
    PassEnd(fields, names, runs, i);
    if |runs| % 2 == 1 {
      out := out + [runs[|runs| - 1]];
    }
    result := Some(out);
  }

  ghost predicate SortedRuns(fields: seq<string>, runs: seq<seq<Row>>) {
    forall k :: 0 <= k < |runs| ==> Sorted(fields, runs[k])
  }

  lemma {:induction false} ConcatFront(runs: seq<seq<Row>>)
    requires runs != []
    ensures Concat(runs) == runs[0] + Concat(runs[1..])
  {
    if |runs| > 1 {
      var n := |runs| - 1;
      ConcatFront(runs[..n]);
      assert runs[..n][1..] == runs[1..][..n - 1];
    }
  }

  /** A pass keeps the runs sorted and the rows. */
  lemma {:induction false} MergePassCorrect(fields: seq<string>, runs: seq<seq<Row>>)
    requires SortedRuns(fields, runs)
    ensures SortedRuns(fields, MergePass(fields, runs))
    ensures multiset(Concat(MergePass(fields, runs))) == multiset(Concat(runs))
  {
    if |runs| >= 2 {
      MergePassCorrect(fields, runs[2..]);
      MergedSorted(fields, runs[0], runs[1]);
      MergedRows(fields, runs[0], runs[1]);
      ConcatFront(runs);
      ConcatFront(runs[1..]);
      assert runs[1..][1..] == runs[2..];
      ConcatFront(MergePass(fields, runs));
      assert MergePass(fields, runs)[1..] == MergePass(fields, runs[2..]);
    }
  }

  /** The least k with n at most two to the k. */
  function CeilLog(n: nat): nat {
    if n <= 1 then 0 else 1 + CeilLog((n + 1) / 2)
  }

  function Pow2(k: nat): nat {
    if k == 0 then 1 else 2 * Pow2(k - 1)
  }

  lemma {:induction false} CeilLogIs(n: nat)
    ensures n <= Pow2(CeilLog(n))
    ensures n > 1 ==> Pow2(CeilLog(n) - 1) < n
  {
    if n > 1 {
      CeilLogIs((n + 1) / 2);
    }
  }

  /** The runs after p passes. */
  function Passes(fields: seq<string>, runs: seq<seq<Row>>, p: nat): seq<seq<Row>> {
    if p == 0 then runs else MergePass(fields, Passes(fields, runs, p - 1))
  }

  /** How often open merges. */
  function PassCount(n: nat): nat {
    if n <= 2 then 0 else CeilLog(n) - 1
  }

  /** The comparisons of p passes. */
  predicate PassesTell(fields: seq<string>, names: set<string>, runs: seq<seq<Row>>, p: nat) {
    p == 0 || (PassesTell(fields, names, runs, p - 1) && PassTells(fields, names, Passes(fields, runs, p - 1)))
  }

  lemma {:induction false} PassesTellLess(fields: seq<string>, names: set<string>, runs: seq<seq<Row>>, p: nat, q: nat)
    requires PassesTell(fields, names, runs, q) && p <= q
    ensures PassesTell(fields, names, runs, p)
  {
    if p < q {
      PassesTellLess(fields, names, runs, p, q - 1);
    }
  }

  lemma {:induction false} MergedTyped(schema: Schema, fields: seq<string>, a: seq<Row>, b: seq<Row>)
    requires AllTyped(schema, a) && AllTyped(schema, b)
    ensures AllTyped(schema, Merged(fields, a, b))
  {
    hide Compare, Typed;
    if a != [] && b != [] {
      if Compare(fields, a[0], b[0]) < 0 {
        MergedTyped(schema, fields, a[1..], b);
      } else {
        MergedTyped(schema, fields, a, b[1..]);
      }
    }
  }

  lemma {:induction false} PassTyped(schema: Schema, fields: seq<string>, runs: seq<seq<Row>>)
    requires TypedRuns(schema, runs)
    ensures TypedRuns(schema, MergePass(fields, runs))
  {
    hide AllTyped, Merged;
    if |runs| >= 2 {
      PassTyped(schema, fields, runs[2..]);
      MergedTyped(schema, fields, runs[0], runs[1]);
    }
  }

  /** The initial runs hold rows of the source. */
  lemma {:induction false} RunsTyped(schema: Schema, fields: seq<string>, rows: seq<Row>)
    requires AllTyped(schema, rows)
    ensures TypedRuns(schema, Runs(fields, rows))
  {
    hide Typed, Runs, Compare;
    var runs := Runs(fields, rows);
    RunsMaximal(fields, rows);
    forall k, i | 0 <= k < |runs| && 0 <= i < |runs[k]| ensures Typed(schema, runs[k][i]) {
      InConcat(runs, k, i);
    }
  }

  lemma {:induction false} InConcat(runs: seq<seq<Row>>, k: nat, i: nat)
    requires k < |runs| && i < |runs[k]|
    ensures runs[k][i] in Concat(runs)
  {
    var n := |runs| - 1;
    if k < n {
      InConcat(runs[..n], k, i);
    }
  }

  /** open up to the creation of the scan: from n > 2 runs, exactly ceil(log2 n) - 1 passes leave two. */
  method MakeRuns(src: Cursor, schema: Schema, fields: seq<string>) returns (result: Option<seq<seq<Row>>>)
    requires src.Valid() && Shows(schema, src.rows)
    modifies src
    ensures var initial := Runs(fields, src.rows);
      && (result.Some? <==> Splits(schema, fields, src.rows) && PassesTell(fields, NameSet(schema), initial, PassCount(|initial|)))
      && (result.Some? ==> result.value == Passes(fields, initial, PassCount(|initial|)) && TypedRuns(schema, result.value))
      && (result.Some? ==> |result.value| == if |initial| > 2 then 2 else |initial|)
  {
    hide MergePass, Compare, RunsFrom, Runs, PassTells, Splits, TypedRuns, Shows;
    var split := SplitIntoRuns(src, schema, fields);
    if split.None? {
      return None;
    }
    var runs := split.value;
    SplitTyped(schema, fields, src.rows);
    ghost var initial, passes := runs, 0;
    while |runs| > 2
      invariant runs == Passes(fields, initial, passes) && TypedRuns(schema, runs)
      invariant PassesTell(fields, NameSet(schema), initial, passes)
      invariant |initial| <= 2 ==> passes == 0
      invariant |initial| > 2 ==> CeilLog(|runs|) + passes == CeilLog(|initial|) && |runs| >= 2
      decreases |runs|
    {
      var next := DoAMergeIteration(schema, runs, fields);
      passes := passes + 1;
      if next.None? {
        if PassesTell(fields, NameSet(schema), initial, PassCount(|initial|)) {
          PassesTellLess(fields, NameSet(schema), initial, passes, PassCount(|initial|));
        }
        return None;
      }
      PassTyped(schema, fields, runs);
      runs := next.value;
    }
    assert |runs| == 2 ==> CeilLog(|runs|) == 1;
    result := Some(runs);
  }

  lemma {:induction false} SplitTyped(schema: Schema, fields: seq<string>, rows: seq<Row>)
    requires Splits(schema, fields, rows)
    ensures TypedRuns(schema, Runs(fields, rows))
  {
    hide Runs, Tells;
    RunsTyped(schema, fields, rows);
  }

  lemma {:induction false} PassesKeep(fields: seq<string>, runs: seq<seq<Row>>, p: nat)
    requires SortedRuns(fields, runs)
    ensures SortedRuns(fields, Passes(fields, runs, p)) && multiset(Concat(Passes(fields, runs, p))) == multiset(Concat(runs))
  {
    if p > 0 {
      PassesKeep(fields, runs, p - 1);
      MergePassCorrect(fields, Passes(fields, runs, p - 1));
    }
  }

  /** What is left of a merge whose current row is in table current (0 for neither). */
  ghost function RestOf(fields: seq<string>, rows1: seq<Row>, pos1: nat, rows2: seq<Row>, pos2: nat, current: int): seq<Row>
    requires pos1 <= |rows1| && pos2 <= |rows2| && (current == 1 ==> pos1 < |rows1|) && (current == 2 ==> pos2 < |rows2|)
  {
    Merged(fields, rows1[if current == 1 then pos1 + 1 else pos1..], rows2[if current == 2 then pos2 + 1 else pos2..])
  }

  ghost predicate RestTellsOf(fields: seq<string>, names: set<string>, rows1: seq<Row>, pos1: nat, rows2: seq<Row>, pos2: nat, current: int)
    requires pos1 <= |rows1| && pos2 <= |rows2| && (current == 1 ==> pos1 < |rows1|) && (current == 2 ==> pos2 < |rows2|)
  {
    MergeTells(fields, names, rows1[if current == 1 then pos1 + 1 else pos1..], rows2[if current == 2 then pos2 + 1 else pos2..])
  }

  /** What choosing the next row compares. */
  lemma {:induction false} ChosenTells(schema: Schema, fields: seq<string>, rows1: seq<Row>, pos1: nat, rows2: seq<Row>, pos2: nat)
    requires pos1 <= |rows1| && pos2 <= |rows2| && AllTyped(schema, rows1) && AllTyped(schema, rows2)
    ensures var names := NameSet(schema);
      if pos1 == |rows1| && pos2 == |rows2| then RestTellsOf(fields, names, rows1, pos1, rows2, pos2, 0)
      else if pos2 == |rows2| then
        RestTellsOf(fields, names, rows1, pos1, rows2, pos2, 0) <==> RestTellsOf(fields, names, rows1, pos1, rows2, pos2, 1)
      else if pos1 == |rows1| then
        RestTellsOf(fields, names, rows1, pos1, rows2, pos2, 0) <==> RestTellsOf(fields, names, rows1, pos1, rows2, pos2, 2)
      else
        RestTellsOf(fields, names, rows1, pos1, rows2, pos2, 0) <==>
        (CanCompare(fields, rows1[pos1], rows2[pos2]) &&
         RestTellsOf(fields, names, rows1, pos1, rows2, pos2, if Compare(fields, rows1[pos1], rows2[pos2]) < 0 then 1 else 2))
  {
    hide Compare, CanCompare, Typed, NameSet, Tells;
    if pos1 < |rows1| && pos2 < |rows2| {
      assert rows1[pos1..][1..] == rows1[pos1 + 1..];
      assert rows2[pos2..][1..] == rows2[pos2 + 1..];
      MergeTellsStep(schema, fields, rows1[pos1..], rows2[pos2..]);
    }
  }

  /** Choosing the next row. */
  lemma {:induction false} ChosenFirst(fields: seq<string>, rows1: seq<Row>, pos1: nat, rows2: seq<Row>, pos2: nat)
    requires pos1 <= |rows1| && pos2 <= |rows2|
    ensures RestOf(fields, rows1, pos1, rows2, pos2, 0) == [] <==> pos1 == |rows1| && pos2 == |rows2|
    ensures pos1 < |rows1| && (pos2 == |rows2| || Compare(fields, rows1[pos1], rows2[pos2]) < 0) ==>
              RestOf(fields, rows1, pos1, rows2, pos2, 0) == [rows1[pos1]] + RestOf(fields, rows1, pos1, rows2, pos2, 1)
    ensures pos2 < |rows2| && (pos1 == |rows1| || Compare(fields, rows1[pos1], rows2[pos2]) >= 0) ==>
              RestOf(fields, rows1, pos1, rows2, pos2, 0) == [rows2[pos2]] + RestOf(fields, rows1, pos1, rows2, pos2, 2)
  {
    if pos1 < |rows1| {
      assert rows1[pos1..][1..] == rows1[pos1 + 1..];
    }
    if pos2 < |rows2| {
      assert rows2[pos2..][1..] == rows2[pos2 + 1..];
    }
  }

  /** The last merge is done while scanning. current says which table the current row is in. */
  class SortScan {
    const schema: Schema
    const fields: seq<string>
    const s1: Cursor
    const s2: Cursor?
    var current: int
    var hasMore1: bool
    var hasMore2: bool

    ghost predicate Valid()
      reads this, s1, s2
    {
      && s1.Valid() && s1.pos >= 0 && hasMore1 == (s1.pos < |s1.rows|)
      && (s2 == null ==> !hasMore2)
      && (s2 != null ==> s1 != s2 && s2.Valid() && s2.pos >= 0 && hasMore2 == (s2.pos < |s2.rows|))
      && 0 <= current <= 2
      && (current == 1 ==> hasMore1) && (current == 2 ==> hasMore2)
      && AllTyped(schema, s1.rows) && (s2 != null ==> AllTyped(schema, s2.rows))
    }

    /** The rows next has still to deliver. */
    ghost function Rest(): seq<Row>
      requires Valid()
      reads this, s1, s2
    {
      RestOf(fields, s1.rows, s1.pos, if s2 == null then [] else s2.rows, if s2 == null then 0 else s2.pos, current)
    }

    /** The comparisons that choosing these rows takes. */
    ghost predicate RestTells()
      requires Valid()
      reads this, s1, s2
    {
      RestTellsOf(fields, NameSet(schema), s1.rows, s1.pos, if s2 == null then [] else s2.rows, if s2 == null then 0 else s2.pos, current)
    }

    /** Opening needs a run to open. */
    constructor (schema: Schema, runs: seq<seq<Row>>, fields: seq<string>)
      requires |runs| > 0 && TypedRuns(schema, runs)
      ensures Valid() && fresh(s1) && (s2 != null ==> fresh(s2)) && this.schema == schema && this.fields == fields && current == 0
      ensures Rest() == if |runs| == 1 then runs[0] else Merged(fields, runs[0], runs[1])
      ensures RestTells() <==> |runs| == 1 || MergeTells(fields, NameSet(schema), runs[0], runs[1])
    {
      this.schema, this.fields := schema, fields;
      var c1 := new Cursor(runs[0]);
      var more1 := c1.Next();
      var c2: Cursor? := null;
      var more2 := false;
      if |runs| > 1 {
        var c := new Cursor(runs[1]);
        more2 := c.Next();
        c2 := c;
      }
      s1, s2, current, hasMore1, hasMore2 := c1, c2, 0, more1, more2;
    }

    method BeforeFirst()
      requires Valid()
      modifies this, s1, s2
      ensures Valid() && current == 0
      ensures Rest() == Merged(fields, s1.rows, if s2 == null then [] else s2.rows)
      ensures RestTells() <==> MergeTells(fields, NameSet(schema), s1.rows, if s2 == null then [] else s2.rows)
    {
      s1.BeforeFirst();
      hasMore1 := s1.Next();
      if s2 != null {
        s2.BeforeFirst();
        hasMore2 := s2.Next();
      }
      current := 0;
    }

    method Advance()
      requires Valid()
      modifies this, s1, s2
      ensures Valid() && current == 0 && Rest() == old(Rest()) && RestTells() == old(RestTells())
    {
      if current == 1 {
        hasMore1 := s1.Next();
      } else if current == 2 {
        hasMore2 := s2.Next();
      }
      current := 0;
    }

    /** next: the answer tells whether a row was left, and the current row is the first of them. There is no
        answer when the two candidates cannot be compared. */
    method Next() returns (more: Option<bool>)
      requires Valid()
      modifies this, s1, s2
      ensures Valid() && (more.None? ==> !old(RestTells()))
      ensures more.Some? ==> more.value == (old(Rest()) != []) && (old(RestTells()) <==> RestTells())
      ensures more.Some? && more.value ==> current != 0 && old(Rest()) == [Here()] + Rest()
      ensures more.Some? && !more.value ==> Rest() == []
    {
      hide Compare, CanCompare, RestOf, RestTellsOf, NameSet, Storable;
      Advance();
      ChosenFirst(fields, s1.rows, s1.pos, if s2 == null then [] else s2.rows, if s2 == null then 0 else s2.pos);
      ChosenTells(schema, fields, s1.rows, s1.pos, if s2 == null then [] else s2.rows, if s2 == null then 0 else s2.pos);
      if !hasMore1 && !hasMore2 {
        return Some(false);
      } else if hasMore1 && hasMore2 {
        var c := CompareRows(fields, s1.rows[s1.pos], s2.rows[s2.pos]);
        if c.None? {
          return None;
        }
        current := if c.value < 0 then 1 else 2;
      } else if hasMore1 {
        current := 1;
      } else if hasMore2 {
        current := 2;
      }
      more := Some(true);
    }

    /** The row the getters read. */
    function Here(): Row
      requires Valid() && current != 0
      reads this, s1, s2
    {
      if current == 1 then s1.rows[s1.pos] else s2.rows[s2.pos]
    }
  }

  /** The loop that reads a sorted scan to its end. */
  method Drain(scan: SortScan) returns (result: Option<seq<Row>>)
    requires scan.Valid()
    modifies scan, scan.s1, scan.s2
    ensures result.Some? <==> old(scan.RestTells())
    ensures result.Some? ==> result.value == old(scan.Rest())
  {
    hide RestOf, RestTellsOf, AllTyped, NameSet;
    var out: seq<Row> := [];
    ghost var all := scan.Rest();
    ghost var tells := scan.RestTells();
    var more := scan.Next();
    while more.Some? && more.value
      invariant scan.Valid()
      invariant more.Some? && more.value ==> scan.current != 0 && out + [scan.Here()] + scan.Rest() == all
      invariant more.Some? && !more.value ==> out == all && scan.Rest() == []
      invariant if more.None? then !tells else tells == scan.RestTells()
      decreases |all| - |out|, more.Some? && more.value
    {
      out := out + [scan.Here()];
      more := scan.Next();
    }
    if more.None? {
      return None;
    }
    DoneTells(scan);
    result := Some(out);
  }

  lemma {:induction false} DoneTells(scan: SortScan)
    requires scan.Valid() && scan.Rest() == []
    ensures scan.RestTells()
  {
    hide AllTyped;
  }

  /** The result of sorting, as the source computes it. */
  function SortOf(fields: seq<string>, rows: seq<Row>): seq<Row> {
    var initial := Runs(fields, rows);
    var runs := Passes(fields, initial, PassCount(|initial|));
    if runs == [] then [] else if |runs| == 1 then runs[0] else Merged(fields, runs[0], runs[1])
  }

  /** Sorting the rows goes through: there are some, each can be stored, and any two are told apart before the
      first sort field they do not have. */
  ghost predicate Sortable(schema: Schema, fields: seq<string>, rows: seq<Row>) {
    rows != [] && AllTyped(schema, rows) && Told(fields, NameSet(schema), rows)
  }

  /** SortPlan::open, and reading the scan to its end. */
  method SortedRows(src: Cursor, schema: Schema, fields: seq<string>) returns (out: Option<seq<Row>>)
    requires src.Valid() && Shows(schema, src.rows)
    modifies src
    ensures out.Some? <==> Sortable(schema, fields, src.rows)
    ensures out.Some? ==> out.value == SortOf(fields, src.rows)
  {
    hide Passes, RunsFrom, Runs, Merged, PassesTell, MergeTells, Told, AllTyped, Splits, TypedRuns, Shows, PassCount;
    NonEmptyRuns(fields, src.rows);
    if src.rows != [] {
      SortTells(schema, fields, src.rows);
    }
    var runs := MakeRuns(src, schema, fields);
    if runs.None? || runs.value == [] {
      return None;
    }
    var scan := new SortScan(schema, runs.value, fields);
    out := Drain(scan);
  }

  lemma {:induction false} NonEmptyRuns(fields: seq<string>, rows: seq<Row>)
    ensures Runs(fields, rows) == [] <==> rows == []
  {
    RunsMaximal(fields, rows);
  }

  lemma {:induction false} PassesLength(fields: seq<string>, runs: seq<seq<Row>>, p: nat)
    ensures p <= CeilLog(|runs|) ==> CeilLog(|Passes(fields, runs, p)|) == CeilLog(|runs|) - p
    ensures runs != [] ==> Passes(fields, runs, p) != []
  {
    if p > 0 {
      PassesLength(fields, runs, p - 1);
    }
  }

  /** The result is the rows of the source, in order: no row comes before an earlier one. */
  lemma {:induction false} SortOfCorrect(fields: seq<string>, rows: seq<Row>)
    ensures Sorted(fields, SortOf(fields, rows)) && multiset(SortOf(fields, rows)) == multiset(rows)
    ensures var out := SortOf(fields, rows); forall i, j :: 0 <= i < j < |out| ==> !Before(fields, out[j], out[i])
  {
    SortOfSorted(fields, rows);
    hide SortOf, Compare, Before;
    var out := SortOf(fields, rows);
    forall i, j | 0 <= i < j < |out| ensures !Before(fields, out[j], out[i]) {
      CompareBefore(fields, out[i], out[j]);
    }
  }

  /** Two rows of a sort that went through, by their values: the first field in which they differ has the smaller
      value, by the source's operator, in the earlier one. k is that field. */
  lemma {:induction false} SortedByValue(schema: Schema, fields: seq<string>, rows: seq<Row>, i: nat, j: nat) returns (k: nat)
    requires Sortable(schema, fields, rows) && i < j < |SortOf(fields, rows)|
    ensures var r, s := SortOf(fields, rows)[i], SortOf(fields, rows)[j];
      && k <= |fields|
      && (forall l :: 0 <= l < k ==> fields[l] in r && fields[l] in s && r[fields[l]] == s[fields[l]])
      && (k < |fields| ==> var f := fields[k]; f in r && f in s && SameKind(r[f], s[f]) && Less(r[f], s[f]))
  {
    hide SortOf, Compare, SmallerAt, CanCompare, Storable, Tells;
    var out := SortOf(fields, rows);
    var r, s := out[i], out[j];
    SortOfSorted(fields, rows);
    ToldPart(fields, NameSet(schema), out, rows);
    assert r in multiset(rows) && s in multiset(rows);
    TellsIff(schema, fields, r, s);
    if Compare(fields, r, s) == 0 {
      k := |fields|;
      SameValues(fields, r, s);
    } else {
      CompareBefore(fields, r, s);
      k :| 0 <= k < |fields| && SmallerAt(fields, r, s, k);
      BeforeValues(fields, r, s, k);
    }
  }

  lemma {:induction false} SortOfSorted(fields: seq<string>, rows: seq<Row>)
    ensures Sorted(fields, SortOf(fields, rows)) && multiset(SortOf(fields, rows)) == multiset(rows)
  {
    hide MergePass, Compare, RunsFrom, Merged;
    var initial := Runs(fields, rows);
    var runs := Passes(fields, initial, PassCount(|initial|));
    RunsMaximal(fields, rows);
    PassesKeep(fields, initial, PassCount(|initial|));
    PassesLength(fields, initial, PassCount(|initial|));
    TwoAtMost(|initial|, |runs|);
    FinalMerge(fields, runs);
  }

  lemma {:induction false} TwoAtMost(n: nat, m: nat)
    requires PassCount(n) <= CeilLog(n) ==> CeilLog(m) == CeilLog(n) - PassCount(n)
    requires n <= 2 ==> m == n
    ensures m <= 2
  {
    if n > 2 {
      assert CeilLog(m) == 1;
      CeilLogIs(m);
    }
  }

  lemma {:induction false} FinalMerge(fields: seq<string>, runs: seq<seq<Row>>)
    requires SortedRuns(fields, runs) && |runs| <= 2
    ensures var all := if runs == [] then [] else if |runs| == 1 then runs[0] else Merged(fields, runs[0], runs[1]);
      Sorted(fields, all) && multiset(all) == multiset(Concat(runs))
  {
    if |runs| == 1 {
      assert runs[..0] == [];
    } else if |runs| == 2 {
      MergedSorted(fields, runs[0], runs[1]);
      MergedRows(fields, runs[0], runs[1]);
      ConcatFront(runs);
      ConcatFront(runs[1..]);
      assert runs[1..][1..] == [];
    }
  }

  // ---------------------------------------------------------------- which sorts go through

  ghost predicate RunsTold(fields: seq<string>, names: set<string>, runs: seq<seq<Row>>) {
    forall k :: 0 <= k < |runs| ==> Told(fields, names, runs[k])
  }

  /** A row told apart from all rows of a sorted run. */
  lemma {:induction false} TellsRun(fields: seq<string>, names: set<string>, r: Row, rows: seq<Row>, k: nat)
    requires Sorted(fields, rows) && k < |rows| && Compare(fields, r, rows[0]) <= 0 && Tells(fields, names, r, rows[0])
    ensures Tells(fields, names, r, rows[k])
  {
    hide Compare, Tells;
    if k > 0 {
      TellsTrans(fields, names, r, rows[0], rows[k]);
    }
  }

  lemma {:induction false} ToldCons(fields: seq<string>, names: set<string>, r: Row, rows: seq<Row>)
    ensures Told(fields, names, [r] + rows) <==> Told(fields, names, rows) && forall i :: 0 <= i < |rows| ==> Tells(fields, names, r, rows[i])
  {
    hide Tells;
    var more := [r] + rows;
    forall i | 0 <= i < |rows| ensures more[i + 1] == rows[i] {
    }
    if Told(fields, names, more) {
      forall i, j | 0 <= i < j < |rows| ensures Tells(fields, names, rows[i], rows[j]) {
        assert Tells(fields, names, more[i + 1], more[j + 1]);
      }
      forall i | 0 <= i < |rows| ensures Tells(fields, names, r, rows[i]) {
        assert Tells(fields, names, more[0], more[i + 1]);
      }
    } else if Told(fields, names, rows) && forall i :: 0 <= i < |rows| ==> Tells(fields, names, r, rows[i]) {
      forall i, j | 0 <= i < j < |more| ensures Tells(fields, names, more[i], more[j]) {
        assert more[j] == rows[j - 1] && (i > 0 ==> more[i] == rows[i - 1]);
      }
    }
  }

  /** A merge of two runs compares enough rows to tell all of them apart, and no more than that. */
  lemma {:induction false} MergeTold(fields: seq<string>, names: set<string>, a: seq<Row>, b: seq<Row>)
    requires Sorted(fields, a) && Sorted(fields, b) && Told(fields, names, a) && Told(fields, names, b)
    ensures MergeTells(fields, names, a, b) <==> Told(fields, names, Merged(fields, a, b))
    decreases |a| + |b|, 1
  {
    hide Compare, Tells, Sorted, Told;
    if a != [] && b != [] {
      if Compare(fields, a[0], b[0]) < 0 {
        HeadTold(fields, names, a, b);
      } else {
        CompareFlips(fields, a[0], b[0]);
        TellsFlips(fields, names, a[0], b[0]);
        TailOf(fields, names, b);
        MergeTold(fields, names, a, b[1..]);
        HeadTells(fields, names, b, a);
        MergedRows(fields, a, b[1..]);
        OneMore(fields, names, b[0], Merged(fields, a, b[1..]), b[1..], a);
      }
    }
  }

  lemma {:induction false} TailOf(fields: seq<string>, names: set<string>, rows: seq<Row>)
    requires Sorted(fields, rows) && Told(fields, names, rows) && rows != []
    ensures Sorted(fields, rows[1..]) && Told(fields, names, rows[1..])
    ensures forall i :: 0 <= i < |rows[1..]| ==> Tells(fields, names, rows[0], rows[1..][i])
  {
    hide Compare, Tells;
  }

  lemma {:induction false} HeadTells(fields: seq<string>, names: set<string>, a: seq<Row>, b: seq<Row>)
    requires a != [] && b != [] && Sorted(fields, b) && Compare(fields, a[0], b[0]) <= 0
    ensures Tells(fields, names, a[0], b[0]) <==> forall i :: 0 <= i < |b| ==> Tells(fields, names, a[0], b[i])
  {
    hide Compare, Tells, Sorted;
    if Tells(fields, names, a[0], b[0]) {
      forall i | 0 <= i < |b| ensures Tells(fields, names, a[0], b[i]) {
        TellsRun(fields, names, a[0], b, i);
      }
    }
  }

  /** A row in front of a merge of two runs. */
  lemma {:induction false} OneMore(fields: seq<string>, names: set<string>, r: Row, rows: seq<Row>, a: seq<Row>, b: seq<Row>)
    requires multiset(rows) == multiset(a) + multiset(b)
    requires forall i :: 0 <= i < |a| ==> Tells(fields, names, r, a[i])
    ensures Told(fields, names, [r] + rows) <==> Told(fields, names, rows) && forall i :: 0 <= i < |b| ==> Tells(fields, names, r, b[i])
  {
    hide Tells, Told;
    ToldCons(fields, names, r, rows);
    forall i | 0 <= i < |rows| ensures rows[i] in a || rows[i] in b {
      assert rows[i] in multiset(rows);
    }
    forall i | 0 <= i < |b| ensures b[i] in rows {
      assert b[i] in multiset(rows);
    }
  }

  lemma {:induction false} HeadTold(fields: seq<string>, names: set<string>, a: seq<Row>, b: seq<Row>)
    requires a != [] && b != [] && Compare(fields, a[0], b[0]) < 0
    requires Sorted(fields, a) && Sorted(fields, b) && Told(fields, names, a) && Told(fields, names, b)
    ensures MergeTells(fields, names, a, b) <==> Told(fields, names, Merged(fields, a, b))
    decreases |a| + |b|, 0
  {
    hide Compare, Tells, Sorted, Told;
    TailOf(fields, names, a);
    MergeTold(fields, names, a[1..], b);
    HeadTells(fields, names, a, b);
    MergedRows(fields, a[1..], b);
    OneMore(fields, names, a[0], Merged(fields, a[1..], b), a[1..], b);
  }

  /** A pass goes through when all rows are told apart. */
  lemma {:induction false} PassGoes(fields: seq<string>, names: set<string>, runs: seq<seq<Row>>)
    requires SortedRuns(fields, runs) && Told(fields, names, Concat(runs))
    ensures PassTells(fields, names, runs)
  {
    hide Tells, Sorted, Told, Merged, MergeTells;
    if |runs| >= 2 {
      ConcatFront(runs);
      ConcatFront(runs[1..]);
      assert runs[1..][1..] == runs[2..];
      var all, rest := Concat(runs), Concat(runs[2..]);
      assert multiset(all) == multiset(runs[0]) + multiset(runs[1]) + multiset(rest);
      ToldPart(fields, names, rest, all);
      ToldPart(fields, names, runs[0], all);
      ToldPart(fields, names, runs[1], all);
      MergedRows(fields, runs[0], runs[1]);
      ToldPart(fields, names, Merged(fields, runs[0], runs[1]), all);
      MergeTold(fields, names, runs[0], runs[1]);
      PassGoes(fields, names, runs[2..]);
    }
  }

  /** A pass that went through leaves runs whose rows are told apart. */
  lemma {:induction false} PassTold(fields: seq<string>, names: set<string>, runs: seq<seq<Row>>)
    requires SortedRuns(fields, runs) && RunsTold(fields, names, runs) && PassTells(fields, names, runs)
    ensures RunsTold(fields, names, MergePass(fields, runs))
  {
    hide Tells, Sorted, Told, Merged, MergeTells;
    if |runs| >= 2 {
      PassTold(fields, names, runs[2..]);
      MergeTold(fields, names, runs[0], runs[1]);
    }
  }

  lemma {:induction false} PassesGo(fields: seq<string>, names: set<string>, runs: seq<seq<Row>>, p: nat)
    requires SortedRuns(fields, runs) && Told(fields, names, Concat(runs))
    ensures PassesTell(fields, names, runs, p) && Told(fields, names, Concat(Passes(fields, runs, p)))
  {
    hide Tells, Sorted, Told, MergePass, PassTells;
    PassesKeep(fields, runs, p);
    ToldPart(fields, names, Concat(Passes(fields, runs, p)), Concat(runs));
    if p > 0 {
      PassesGo(fields, names, runs, p - 1);
      PassesKeep(fields, runs, p - 1);
      PassGoes(fields, names, Passes(fields, runs, p - 1));
    }
  }

  lemma {:induction false} PassesTold(fields: seq<string>, names: set<string>, runs: seq<seq<Row>>, p: nat)
    requires SortedRuns(fields, runs) && RunsTold(fields, names, runs) && PassesTell(fields, names, runs, p)
    ensures RunsTold(fields, names, Passes(fields, runs, p))
  {
    hide RunsTold, MergePass, PassTells, SortedRuns;
    if p > 0 {
      PassesTold(fields, names, runs, p - 1);
      PassesKeep(fields, runs, p - 1);
      PassTold(fields, names, Passes(fields, runs, p - 1));
    }
  }

  /** Neighbours in the source are neighbours in their run. */
  lemma {:induction false} RunsToldAtFirst(fields: seq<string>, names: set<string>, runs: seq<seq<Row>>, rows: seq<Row>)
    requires Concat(runs) == rows && SortedRuns(fields, runs)
    requires forall i :: 0 < i < |rows| ==> Tells(fields, names, rows[i], rows[i - 1])
    ensures RunsTold(fields, names, runs)
  {
    hide Tells, Sorted, Told, Compare;
    if runs != [] {
      var n := |runs| - 1;
      var before := Concat(runs[..n]);
      assert rows[..|before|] == before && rows[|before|..] == runs[n];
      RunsToldAtFirst(fields, names, runs[..n], before);
      forall i | 0 < i < |runs[n]| ensures Tells(fields, names, runs[n][i], runs[n][i - 1]) {
        assert runs[n][i] == rows[|before| + i] && runs[n][i - 1] == rows[|before| + i - 1];
      }
      RunTold(fields, names, runs[n]);
    }
  }

  lemma {:induction false} RunTold(fields: seq<string>, names: set<string>, run: seq<Row>)
    requires Sorted(fields, run) && forall i :: 0 < i < |run| ==> Tells(fields, names, run[i], run[i - 1])
    ensures Told(fields, names, run)
  {
    hide Tells, Compare;
    forall i, j | 0 <= i < j < |run| ensures Tells(fields, names, run[i], run[j]) {
      TellsFlips(fields, names, run[j], run[j - 1]);
      if i < j - 1 {
        TellsTrans(fields, names, run[i], run[j - 1], run[j]);
      }
    }
  }

  /** The comparisons of the whole sort. */
  ghost predicate AllTells(fields: seq<string>, names: set<string>, rows: seq<Row>) {
    var initial := Runs(fields, rows);
    var runs := Passes(fields, initial, PassCount(|initial|));
    PassesTell(fields, names, initial, PassCount(|initial|)) && (|runs| == 2 ==> MergeTells(fields, names, runs[0], runs[1]))
  }

  /** The sort goes through exactly when any two of its rows are told apart by the sort fields before the first
      unknown one, as each such pair is compared in the end, or one that ties with it. */
  lemma {:induction false} SortTells(schema: Schema, fields: seq<string>, rows: seq<Row>)
    requires rows != []
    ensures Sortable(schema, fields, rows) <==> Splits(schema, fields, rows) && AllTells(fields, NameSet(schema), rows)
  {
    hide Tells, Told, AllTells, NameSet;
    var names := NameSet(schema);
    if Told(fields, names, rows) {
      ToldSplits(fields, names, rows);
      ToldGoes(fields, names, rows);
    }
    if Splits(schema, fields, rows) && AllTells(fields, names, rows) {
      GoneTold(fields, names, rows);
    }
  }

  lemma {:induction false} ToldSplits(fields: seq<string>, names: set<string>, rows: seq<Row>)
    requires Told(fields, names, rows)
    ensures forall i :: 0 < i < |rows| ==> Tells(fields, names, rows[i], rows[i - 1])
  {
    hide Tells;
    forall i | 0 < i < |rows| ensures Tells(fields, names, rows[i], rows[i - 1]) {
      TellsFlips(fields, names, rows[i], rows[i - 1]);
    }
  }

  lemma {:induction false} InitialRuns(fields: seq<string>, rows: seq<Row>)
    ensures var initial := Runs(fields, rows); var runs := Passes(fields, initial, PassCount(|initial|));
      SortedRuns(fields, initial) && Concat(initial) == rows && |runs| <= 2
  {
    hide Passes, Runs, Compare, Sorted;
    var initial := Runs(fields, rows);
    RunsMaximal(fields, rows);
    PassesLength(fields, initial, PassCount(|initial|));
    NoPasses(fields, initial);
    TwoAtMost(|initial|, |Passes(fields, initial, PassCount(|initial|))|);
  }

  lemma {:induction false} NoPasses(fields: seq<string>, runs: seq<seq<Row>>)
    ensures Passes(fields, runs, 0) == runs
  {
  }

  lemma {:induction false} ToldGoes(fields: seq<string>, names: set<string>, rows: seq<Row>)
    requires Told(fields, names, rows)
    ensures AllTells(fields, names, rows)
  {
    hide Tells, Told, Sorted, Runs, Passes, PassesTell, Merged, MergeTells, PassCount;
    var initial := Runs(fields, rows);
    var p := PassCount(|initial|);
    var runs := Passes(fields, initial, p);
    InitialRuns(fields, rows);
    PassesGo(fields, names, initial, p);
    PassesKeep(fields, initial, p);
    if |runs| == 2 {
      TwoRuns(runs);
      MergedRows(fields, runs[0], runs[1]);
      ToldPart(fields, names, runs[0], Concat(runs));
      ToldPart(fields, names, runs[1], Concat(runs));
      ToldPart(fields, names, Merged(fields, runs[0], runs[1]), Concat(runs));
      MergeTold(fields, names, runs[0], runs[1]);
    }
  }

  lemma {:induction false} TwoRuns(runs: seq<seq<Row>>)
    requires |runs| == 2
    ensures Concat(runs) == runs[0] + runs[1]
  {
    ConcatFront(runs);
    ConcatFront(runs[1..]);
    assert runs[1..][1..] == [];
  }

  lemma {:induction false} GoneTold(fields: seq<string>, names: set<string>, rows: seq<Row>)
    requires forall i :: 0 < i < |rows| ==> Tells(fields, names, rows[i], rows[i - 1])
    requires AllTells(fields, names, rows)
    ensures Told(fields, names, rows)
  {
    hide Tells, Told, Sorted, Runs, Passes, PassesTell, Merged, MergeTells, PassCount;
    var initial := Runs(fields, rows);
    var p := PassCount(|initial|);
    var runs := Passes(fields, initial, p);
    InitialRuns(fields, rows);
    RunsToldAtFirst(fields, names, initial, rows);
    PassesTold(fields, names, initial, p);
    PassesKeep(fields, initial, p);
    if |runs| == 2 {
      TwoRuns(runs);
      MergedRows(fields, runs[0], runs[1]);
      MergeTold(fields, names, runs[0], runs[1]);
      ToldPart(fields, names, rows, Merged(fields, runs[0], runs[1]));
    } else {
      FewRuns(runs);
      if runs == [] {
        NothingTold(fields, names, rows);
      } else {
        ToldPart(fields, names, rows, runs[0]);
      }
    }
  }

  lemma {:induction false} FewRuns(runs: seq<seq<Row>>)
    requires |runs| < 2
    ensures Concat(runs) == if runs == [] then [] else runs[0]
  {
    if runs != [] {
      assert runs[..0] == [];
    }
  }

  lemma {:induction false} NothingTold(fields: seq<string>, names: set<string>, rows: seq<Row>)
    requires multiset(rows) == multiset([])
    ensures Told(fields, names, rows)
  {
    assert |rows| == |multiset(rows)| == 0;
  }
}

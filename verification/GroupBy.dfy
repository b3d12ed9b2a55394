/** Sort-based grouping (src/materialize/GroupByScan.cpp, GroupValue.cpp and the aggregation functions). */
module GroupBy {
  import opened Options
  import opened Constants
  import opened Rows

  datatype AggFn = Count | Max(field: string) | Min(field: string) | Sum(field: string)

  /** The name of the result column. */
  function AggName(fn: AggFn): string {
    match fn
    case Count => "count"
    case Max(f) => "max" + f
    case Min(f) => "min" + f
    case Sum(f) => "sum" + f
  }

  function FirstValue(fn: AggFn, r: Row): Constant {
    if fn.Count? then IntVal(1) else Val(r, fn.field)
  }

  /** Adding a string to a sum does nothing. */
  function NextValue(fn: AggFn, v: Constant, r: Row): Constant {
    match fn
    case Count => if v.IntVal? then IntVal(v.i + 1) else v
    case Max(f) => if At(r, f) > Rank(v) then Val(r, f) else v
    case Min(f) => if At(r, f) < Rank(v) then Val(r, f) else v
    case Sum(f) => if v.IntVal? && Val(r, f).IntVal? then IntVal(v.i + Val(r, f).i) else v
  }

  /** The aggregate finds its field among these. */
  predicate Readable(fn: AggFn, names: set<string>) {
    fn.Count? || fn.field in names
  }

  /** An aggregation function at work. Reading a field that the row does not have throws. */
  class Aggregation {
    const fn: AggFn
    var value: Constant

    constructor (fn: AggFn)
      ensures this.fn == fn
    {
      this.fn := fn;
      value := IntVal(0);
    }

    method ProcessFirst(r: Row) returns (ok: bool)
      modifies this
      ensures ok <==> Readable(fn, r.Keys)
      ensures ok ==> value == FirstValue(fn, r)
    {
      if !fn.Count? && fn.field !in r {
        return false;
      }
      value := if fn.Count? then IntVal(1) else Val(r, fn.field);
      ok := true;
    }

    method ProcessNext(r: Row)
      requires Readable(fn, r.Keys)
      modifies this
      ensures value == NextValue(fn, old(value), r)
    {
      match fn
      case Count =>
        if value.IntVal? {
          value := IntVal(value.i + 1);
        }
      case Max(f) =>
        if At(r, f) > Rank(value) {
          value := Val(r, f);
        }
      case Min(f) =>
        if At(r, f) < Rank(value) {
          value := Val(r, f);
        }
      case Sum(f) =>
        if value.IntVal? && Val(r, f).IntVal? {
          value := IntVal(value.i + Val(r, f).i);
        }
    }
  }

  /** The value after a group's rows, in order. */
  function Fold(fn: AggFn, rows: seq<Row>): Constant
    requires rows != []
  {
    if |rows| == 1 then FirstValue(fn, rows[0])
    else NextValue(fn, Fold(fn, rows[..|rows| - 1]), rows[|rows| - 1])
  }

  function SumOf(rows: seq<Row>, f: string): int {
    if rows == [] then 0
    else SumOf(rows[..|rows| - 1], f) + if Val(rows[|rows| - 1], f).IntVal? then Val(rows[|rows| - 1], f).i else 0
  }

  lemma {:induction false} FoldStep(fn: AggFn, rows: seq<Row>)
    requires rows != []
    ensures |rows| == 1 ==> Fold(fn, rows) == FirstValue(fn, rows[0])
    ensures |rows| > 1 ==> Fold(fn, rows) == NextValue(fn, Fold(fn, rows[..|rows| - 1]), rows[|rows| - 1])
  {
  }

  lemma {:induction false} CountIs(rows: seq<Row>)
    requires rows != []
    ensures Fold(Count, rows) == IntVal(|rows|)
  {
    if |rows| > 1 {
      CountIs(rows[..|rows| - 1]);
    }
  }

  lemma {:induction false} SumIs(rows: seq<Row>, f: string)
    requires rows != [] && forall i :: 0 <= i < |rows| ==> Val(rows[i], f).IntVal?
    ensures Fold(Sum(f), rows) == IntVal(SumOf(rows, f))
  {
    if |rows| > 1 {
      SumIs(rows[..|rows| - 1], f);
    } else {
      assert SumOf(rows[..0], f) == 0;
    }
  }

  /** The maximum is the value of a row and no row has a greater one. */
  lemma {:induction false} MaxIs(rows: seq<Row>, f: string)
    requires rows != []
    ensures exists i :: 0 <= i < |rows| && Fold(Max(f), rows) == Val(rows[i], f)
    ensures forall i :: 0 <= i < |rows| ==> At(rows[i], f) <= Rank(Fold(Max(f), rows))
  {
    hide Fold, Val, Rank;
    var n := |rows| - 1;
    FoldStep(Max(f), rows);
    if n > 0 {
      MaxIs(rows[..n], f);
      var i :| 0 <= i < n && Fold(Max(f), rows[..n]) == Val(rows[..n][i], f);
      assert Fold(Max(f), rows) == Val(rows[i], f) || Fold(Max(f), rows) == Val(rows[n], f);
      forall j | 0 <= j < n ensures At(rows[j], f) <= Rank(Fold(Max(f), rows)) {
        assert rows[..n][j] == rows[j];
      }
    }
  }

  lemma {:induction false} MinIs(rows: seq<Row>, f: string)
    requires rows != []
    ensures exists i :: 0 <= i < |rows| && Fold(Min(f), rows) == Val(rows[i], f)
    ensures forall i :: 0 <= i < |rows| ==> At(rows[i], f) >= Rank(Fold(Min(f), rows))
  {
    hide Fold, Val, Rank;
    var n := |rows| - 1;
    FoldStep(Min(f), rows);
    if n > 0 {
      MinIs(rows[..n], f);
      var i :| 0 <= i < n && Fold(Min(f), rows[..n]) == Val(rows[..n][i], f);
      assert Fold(Min(f), rows) == Val(rows[i], f) || Fold(Min(f), rows) == Val(rows[n], f);
      forall j | 0 <= j < n ensures At(rows[j], f) >= Rank(Fold(Min(f), rows)) {
        assert rows[..n][j] == rows[j];
      }
    }
  }

  // ---------------------------------------------------------------- the groups of a source

  /** How many rows from k on, at least, belong with the first one. */
  function Span(fields: seq<string>, rows: seq<Row>, k: nat): (n: nat)
    requires 0 < k <= |rows|
    ensures k <= n <= |rows|
    decreases |rows| - k
  {
    if k < |rows| && SameGroup(fields, rows[0], rows[k]) then Span(fields, rows, k + 1) else k
  }

  /** The source cut where the group value changes. */
  function Groups(fields: seq<string>, rows: seq<Row>): seq<seq<Row>>
    decreases |rows|
  {
    if rows == [] then []
    else
      var n := Span(fields, rows, 1);
      [rows[..n]] + Groups(fields, rows[n..])
  }

  lemma {:induction false} SpanStep(fields: seq<string>, rows: seq<Row>, k: nat)
    requires 0 < k <= |rows|
    ensures Span(fields, rows, k) == if k < |rows| && SameGroup(fields, rows[0], rows[k]) then Span(fields, rows, k + 1) else k
  {
  }

  lemma {:induction false} SpanIs(fields: seq<string>, rows: seq<Row>, k: nat)
    requires 0 < k <= |rows| && forall i :: 0 <= i < k ==> SameGroup(fields, rows[0], rows[i])
    ensures var n := Span(fields, rows, k);
      && (forall i :: 0 <= i < n ==> SameGroup(fields, rows[0], rows[i]))
      && (n < |rows| ==> !SameGroup(fields, rows[0], rows[n]))
    decreases |rows| - k
  {
    if k < |rows| && SameGroup(fields, rows[0], rows[k]) {
      SpanIs(fields, rows, k + 1);
    }
  }

  /** The rows with the group value of r, in source order. */
  function RowsLike(fields: seq<string>, r: Row, rows: seq<Row>): seq<Row> {
    if rows == [] then []
    else RowsLike(fields, r, rows[..|rows| - 1]) + if SameGroup(fields, r, rows[|rows| - 1]) then [rows[|rows| - 1]] else []
  }

  lemma {:induction false} RowsLikeAll(fields: seq<string>, r: Row, rows: seq<Row>)
    requires forall i :: 0 <= i < |rows| ==> SameGroup(fields, r, rows[i])
    ensures RowsLike(fields, r, rows) == rows
  {
    if rows != [] {
      RowsLikeAll(fields, r, rows[..|rows| - 1]);
    }
  }

  lemma {:induction false} RowsLikeNone(fields: seq<string>, r: Row, rows: seq<Row>)
    requires forall i :: 0 <= i < |rows| ==> !SameGroup(fields, r, rows[i])
    ensures RowsLike(fields, r, rows) == []
  {
    if rows != [] {
      RowsLikeNone(fields, r, rows[..|rows| - 1]);
    }
  }

  lemma {:induction false} RowsLikeSplit(fields: seq<string>, r: Row, a: seq<Row>, b: seq<Row>)
    ensures RowsLike(fields, r, a + b) == RowsLike(fields, r, a) + RowsLike(fields, r, b)
  {
    hide SameGroup;
    if b == [] {
      assert a + b == a;
    } else {
      RowsLikeSplit(fields, r, a, b[..|b| - 1]);
      assert (a + b)[..|a + b| - 1] == a + b[..|b| - 1];
    }
  }

  /** In a sorted source every row after the first group is greater than it. */
  lemma {:induction false} LaterDiffers(fields: seq<string>, rows: seq<Row>, i: nat, j: nat)
    requires Sorted(fields, rows) && rows != []
    requires var n := Span(fields, rows, 1); i < n <= j < |rows|
    ensures !SameGroup(fields, rows[i], rows[j])
  {
    hide Compare, SameGroup;
    var n := Span(fields, rows, 1);
    FirstSpan(fields, rows);
    CompareZero(fields, rows[0], rows[n]);
    CompareZero(fields, rows[0], rows[i]);
    CompareFlips(fields, rows[0], rows[i]);
    CompareTrans(fields, rows[i], rows[0], rows[n]);
    if j > n {
      CompareTrans(fields, rows[i], rows[n], rows[j]);
    }
    CompareZero(fields, rows[i], rows[j]);
  }

  lemma {:induction false} FirstSpan(fields: seq<string>, rows: seq<Row>)
    requires rows != []
    ensures var n := Span(fields, rows, 1);
      && (forall i :: 0 <= i < n ==> SameGroup(fields, rows[0], rows[i]))
      && (n < |rows| ==> !SameGroup(fields, rows[0], rows[n]))
  {
    SpanIs(fields, rows, 1);
  }

  /** Every row is in a group. */
  lemma {:induction false} GroupsCover(fields: seq<string>, rows: seq<Row>, r: Row)
    requires r in rows
    ensures exists i :: 0 <= i < |Groups(fields, rows)| && r in Groups(fields, rows)[i]
    decreases |rows|
  {
    hide SameGroup, Span;
    var n := Span(fields, rows, 1);
    var head, tail := rows[..n], rows[n..];
    var gs, ts := Groups(fields, rows), Groups(fields, tail);
    assert rows == head + tail;
    if r in head {
      assert r in gs[0];
    } else {
      GroupsCover(fields, tail, r);
      var i :| 0 <= i < |ts| && r in ts[i];
      assert r in gs[i + 1];
    }
  }

  /** A group is all the rows with its value. */
  lemma {:induction false} GroupsFull(fields: seq<string>, rows: seq<Row>, i: nat)
    requires Sorted(fields, rows) && i < |Groups(fields, rows)|
    ensures var g := Groups(fields, rows)[i]; g != [] && g == RowsLike(fields, g[0], rows)
    decreases |rows|
  {
    hide Compare, SameGroup, RowsLike, Span;
    var n := Span(fields, rows, 1);
    var tail := rows[n..];
    if i == 0 {
      FirstSpan(fields, rows);
      HeadGroup(fields, rows, n);
    } else {
      GroupsFull(fields, tail, i - 1);
      GroupsWithin(fields, tail, i - 1, 0);
      TailGroup(fields, rows, n, Groups(fields, tail)[i - 1][0]);
    }
  }

  /** No two groups have the same value. */
  lemma {:induction false} GroupsDiffer(fields: seq<string>, rows: seq<Row>, i: nat, j: nat)
    requires Sorted(fields, rows) && i < j < |Groups(fields, rows)|
    ensures var gs := Groups(fields, rows); gs[i] != [] && gs[j] != [] && !SameGroup(fields, gs[i][0], gs[j][0])
    decreases |rows|
  {
    hide Compare, SameGroup, RowsLike, Span;
    var n := Span(fields, rows, 1);
    var tail := rows[n..];
    GroupsFull(fields, tail, j - 1);
    GroupsWithin(fields, tail, j - 1, 0);
    if i == 0 {
      FirstSpan(fields, rows);
      DiffersFromTail(fields, rows, n, 0, Groups(fields, tail)[j - 1][0]);
    } else {
      GroupsDiffer(fields, tail, i - 1, j - 1);
    }
  }

  /** One group per distinct value, made of all the source rows with that value, and together they are the
      source. */
  lemma {:induction false} GroupsCorrect(fields: seq<string>, rows: seq<Row>)
    requires Sorted(fields, rows)
    ensures var gs := Groups(fields, rows);
      && (forall i :: 0 <= i < |gs| ==> gs[i] != [] && gs[i] == RowsLike(fields, gs[i][0], rows))
      && (forall i, j :: 0 <= i < j < |gs| ==> !SameGroup(fields, gs[i][0], gs[j][0]))
      && (forall r :: r in rows ==> exists i :: 0 <= i < |gs| && r in gs[i])
  {
    hide Sorted, Groups, SameGroup, RowsLike;
    var gs := Groups(fields, rows);
    forall i | 0 <= i < |gs| ensures gs[i] != [] && gs[i] == RowsLike(fields, gs[i][0], rows) {
      GroupsFull(fields, rows, i);
    }
    forall i, j | 0 <= i < j < |gs| ensures !SameGroup(fields, gs[i][0], gs[j][0]) {
      GroupsDiffer(fields, rows, i, j);
    }
    forall r | r in rows ensures exists i :: 0 <= i < |gs| && r in gs[i] {
      GroupsCover(fields, rows, r);
    }
  }

  lemma {:induction false} GroupsWithin(fields: seq<string>, rows: seq<Row>, i: nat, k: nat)
    requires i < |Groups(fields, rows)| && k < |Groups(fields, rows)[i]|
    ensures Groups(fields, rows)[i][k] in rows
    decreases |rows|
  {
    var n := Span(fields, rows, 1);
    if i > 0 {
      GroupsWithin(fields, rows[n..], i - 1, k);
    }
  }

  lemma {:induction false} DiffersFromTail(fields: seq<string>, rows: seq<Row>, n: nat, i: nat, r: Row)
    requires Sorted(fields, rows) && rows != [] && n == Span(fields, rows, 1) && i < n && r in rows[n..]
    ensures !SameGroup(fields, rows[i], r)
  {
    var k :| 0 <= k < |rows[n..]| && rows[n..][k] == r;
    LaterDiffers(fields, rows, i, n + k);
  }

  lemma {:induction false} HeadGroup(fields: seq<string>, rows: seq<Row>, n: nat)
    requires Sorted(fields, rows) && rows != [] && n == Span(fields, rows, 1)
    ensures RowsLike(fields, rows[0], rows) == rows[..n]
  {
    hide Compare, SameGroup;
    assert rows == rows[..n] + rows[n..];
    FirstSpan(fields, rows);
    RowsLikeSplit(fields, rows[0], rows[..n], rows[n..]);
    RowsLikeAll(fields, rows[0], rows[..n]);
    forall k | 0 <= k < |rows[n..]| ensures !SameGroup(fields, rows[0], rows[n..][k]) {
      LaterDiffers(fields, rows, 0, n + k);
    }
    RowsLikeNone(fields, rows[0], rows[n..]);
  }

  lemma {:induction false} TailGroup(fields: seq<string>, rows: seq<Row>, n: nat, r: Row)
    requires Sorted(fields, rows) && rows != [] && n == Span(fields, rows, 1) && r in rows[n..]
    ensures RowsLike(fields, r, rows) == RowsLike(fields, r, rows[n..])
  {
    hide Compare;
    assert rows == rows[..n] + rows[n..];
    RowsLikeSplit(fields, r, rows[..n], rows[n..]);
    forall i | 0 <= i < n ensures !SameGroup(fields, r, rows[..n][i]) {
      DiffersFromTail(fields, rows, n, i, r);
    }
    RowsLikeNone(fields, r, rows[..n]);
  }

  function SizeSum(gs: seq<seq<Row>>): nat {
    if gs == [] then 0 else |gs[0]| + SizeSum(gs[1..])
  }

  /** The counts add up to the size of the source. */
  lemma {:induction false} CountsAddUp(fields: seq<string>, rows: seq<Row>)
    ensures SizeSum(Groups(fields, rows)) == |rows|
    decreases |rows|
  {
    if rows != [] {
      var n := Span(fields, rows, 1);
      CountsAddUp(fields, rows[n..]);
      assert Groups(fields, rows)[1..] == Groups(fields, rows[n..]);
    }
  }

  // ---------------------------------------------------------------- the scan

  class GroupByScan {
    const src: Cursor
    /** The fields of the source. */
    const names: set<string>
    const groupFields: seq<string>
    const aggFns: seq<Aggregation>
    /** The first row of the current group stands for its GroupValue. */
    var currentGroup: Row
    var moreGroups: bool

    ghost predicate Valid()
      reads this, src
    {
      && src.Valid() && src.pos >= 0 && moreGroups == (src.pos < |src.rows|)
      && (forall i :: 0 <= i < |src.rows| ==> src.rows[i].Keys == names)
      && (forall i :: 0 <= i < |groupFields| ==> groupFields[i] in names)
      && forall i, j :: 0 <= i < j < |aggFns| ==> aggFns[i] != aggFns[j]
    }

    /** The groups next has still to deliver. */
    ghost function Rest(): seq<seq<Row>>
      requires Valid()
      reads this, src
    {
      Groups(groupFields, src.Left())
    }

    /** The current result is the one of group g. */
    ghost predicate Shows(g: seq<Row>)
      requires g != []
      reads this, aggFns
    {
      && currentGroup == g[0]
      && forall i :: 0 <= i < |aggFns| ==> aggFns[i].value == Fold(aggFns[i].fn, g)
    }

    /** Every aggregate can be read. */
    ghost predicate AggsReadable() {
      forall i :: 0 <= i < |aggFns| ==> Readable(aggFns[i].fn, names)
    }

    constructor (src: Cursor, names: set<string>, groupFields: seq<string>, aggFns: seq<Aggregation>)
      requires forall i :: 0 <= i < |src.rows| ==> src.rows[i].Keys == names
      requires forall i :: 0 <= i < |groupFields| ==> groupFields[i] in names
      requires src.Valid() && forall i, j :: 0 <= i < j < |aggFns| ==> aggFns[i] != aggFns[j]
      modifies src
      ensures Valid() && this.src == src && this.names == names && this.groupFields == groupFields && this.aggFns == aggFns
      ensures Rest() == Groups(groupFields, src.rows)
    {
      this.src, this.names, this.groupFields, this.aggFns := src, names, groupFields, aggFns;
      currentGroup := map[];
      moreGroups := false;
      new;
      BeforeFirst();
    }

    method BeforeFirst()
      requires forall i :: 0 <= i < |src.rows| ==> src.rows[i].Keys == names
      requires forall i :: 0 <= i < |groupFields| ==> groupFields[i] in names
      requires src.Valid() && forall i, j :: 0 <= i < j < |aggFns| ==> aggFns[i] != aggFns[j]
      modifies this, src
      ensures Valid() && Rest() == Groups(groupFields, src.rows)
    {
      src.BeforeFirst();
      moreGroups := src.Next();
      assert src.Left() == src.rows;
    }

    method ProcessAllFirst(r: Row) returns (ok: bool)
      requires r.Keys == names && forall i, j :: 0 <= i < j < |aggFns| ==> aggFns[i] != aggFns[j]
      modifies aggFns
      ensures ok <==> AggsReadable()
      ensures ok ==> forall i :: 0 <= i < |aggFns| ==> aggFns[i].value == FirstValue(aggFns[i].fn, r)
    {
      for k := 0 to |aggFns|
        invariant forall i :: 0 <= i < k ==> Readable(aggFns[i].fn, names) && aggFns[i].value == FirstValue(aggFns[i].fn, r)
      {
        ok := aggFns[k].ProcessFirst(r);
        if !ok {
          return;
        }
      }
      ok := true;
    }

    method ProcessAllNext(r: Row)
      requires r.Keys == names && AggsReadable() && forall i, j :: 0 <= i < j < |aggFns| ==> aggFns[i] != aggFns[j]
      modifies aggFns
      ensures forall i :: 0 <= i < |aggFns| ==> aggFns[i].value == NextValue(aggFns[i].fn, old(aggFns[i].value), r)
    {
      for k := 0 to |aggFns|
        invariant forall i :: 0 <= i < k ==> aggFns[i].value == NextValue(aggFns[i].fn, old(aggFns[i].value), r)
        invariant forall i :: k <= i < |aggFns| ==> aggFns[i].value == old(aggFns[i].value)
      {
        aggFns[k].ProcessNext(r);
      }
    }

    /** A group starts: its first row is folded in. */
    method StartGroup() returns (ok: bool)
      requires Valid() && moreGroups
      modifies this`currentGroup, aggFns
      ensures Valid() && (ok <==> AggsReadable())
      ensures ok ==> Shows([src.rows[src.pos]])
    {
      ok := ProcessAllFirst(src.rows[src.pos]);
      currentGroup := src.rows[src.pos];
    }

    method ExtendGroup(ghost g: seq<Row>)
      requires Valid() && moreGroups && AggsReadable() && g != [] && Shows(g)
      modifies aggFns
      ensures Valid() && Shows(g + [src.rows[src.pos]])
    {
      ProcessAllNext(src.rows[src.pos]);
      forall i | 0 <= i < |aggFns| ensures aggFns[i].value == Fold(aggFns[i].fn, g + [src.rows[src.pos]]) {
        assert (g + [src.rows[src.pos]])[..|g|] == g;
      }
    }

    /** GroupValue's operator== on the current group and a row. */
    method SameAsCurrent(r: Row) returns (same: bool)
      ensures same == SameGroup(groupFields, currentGroup, r)
    {
      var i := 0;
      while i < |groupFields|
        invariant 0 <= i <= |groupFields|
        invariant forall k :: 0 <= k < i ==> At(currentGroup, groupFields[k]) == At(r, groupFields[k])
      {
        if At(currentGroup, groupFields[i]) != At(r, groupFields[i]) {
          return false;
        }
        i := i + 1;
      }
      same := true;
    }

    /** The rows that belong to the group are folded in, up to the first that does not. */
    method FinishGroup(ghost left: seq<Row>)
      requires Valid() && moreGroups && AggsReadable() && Shows([src.rows[src.pos]]) && left == src.rows[src.pos..]
      modifies this`moreGroups, src, aggFns
      ensures Valid() && src.pos == old(src.pos) + Span(groupFields, left, 1)
      ensures Shows(left[..src.pos - old(src.pos)])
    {
      hide At, SameGroup, Span, Fold, Readable, AggsReadable;
      ghost var start := src.pos;
      assert left[..1] == [src.rows[start]];
      moreGroups := src.Next();
      while moreGroups
        invariant Valid() && src.pos > start
        invariant Shows(left[..src.pos - start])
        invariant Span(groupFields, left, src.pos - start) == Span(groupFields, left, 1)
        decreases |src.rows| - src.pos
      {
        SpanStep(groupFields, left, src.pos - start);
        var same := SameAsCurrent(src.rows[src.pos]);
        if !same {
          break;
        }
        Absorb(left, start);
      }
      SpanStep(groupFields, left, src.pos - start);
    }

    method Absorb(ghost left: seq<Row>, ghost start: nat)
      requires Valid() && moreGroups && AggsReadable() && start < src.pos && left == src.rows[start..] && Shows(left[..src.pos - start])
      modifies this`moreGroups, src, aggFns
      ensures Valid() && src.pos == old(src.pos) + 1 && Shows(left[..src.pos - start])
    {
      ExtendGroup(left[..src.pos - start]);
      assert left[..src.pos - start + 1] == left[..src.pos - start] + [src.rows[src.pos]];
      moreGroups := src.Next();
    }

    /** next delivers the next group: its value and the folds over exactly its rows. It fails exactly when there
        is a group and an aggregate that cannot be read. */
    method Next() returns (more: Option<bool>)
      requires Valid()
      modifies this, src, aggFns
      ensures more.None? <==> old(Rest()) != [] && !AggsReadable()
      ensures more.Some? ==> Valid() && more.value == (old(Rest()) != [])
      ensures more.Some? && more.value ==> var g := old(Rest())[0]; g != [] && Shows(g) && Rest() == old(Rest())[1..]
    {
      hide SameGroup, Readable;
      if !moreGroups {
        return Some(false);
      }
      ghost var left := src.Left();
      var ok := StartGroup();
      if !ok {
        return None;
      }
      FinishGroup(left);
      assert left[Span(groupFields, left, 1)..] == src.Left();
      more := Some(true);
    }

    /** The value of a result column: a group field, or the first aggregation of that name, or there is none. */
    method GetValue(fieldName: string) returns (v: Option<Constant>)
      ensures v.None? <==> fieldName !in groupFields && forall i :: 0 <= i < |aggFns| ==> AggName(aggFns[i].fn) != fieldName
      ensures fieldName in groupFields ==> v == Some(Val(currentGroup, fieldName))
      ensures v.Some? && fieldName !in groupFields ==>
                exists i :: 0 <= i < |aggFns| && AggName(aggFns[i].fn) == fieldName && v.value == aggFns[i].value
                  && forall k :: 0 <= k < i ==> AggName(aggFns[k].fn) != fieldName
    {
      if fieldName in groupFields {
        return Some(Val(currentGroup, fieldName));
      }
      for i := 0 to |aggFns|
        invariant forall k :: 0 <= k < i ==> AggName(aggFns[k].fn) != fieldName
      {
        if AggName(aggFns[i].fn) == fieldName {
          return Some(aggFns[i].value);
        }
      }
      v := None;
    }
  }
}

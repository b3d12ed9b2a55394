/** What the answer to a query is in terms of the rows of its inputs (src/plan/BasicQueryPlanner.cpp:9-75): which
    combinations of rows it comes from, and the value in each of its fields. */
module Answers {
  import opened Options
  import opened Constants
  import opened Rows
  import opened Schemas
  import opened Predicates
  import opened Sort
  import opened GroupBy
  import opened Query
  import opened Plans
  import opened QueryDatas
  import opened Planner

  // ---------------------------------------------------------------- one row of each input

  /** A row of each input, by its place. */
  predicate Picks(inputs: seq<seq<Row>>, pick: seq<nat>) {
    |pick| == |inputs| && forall i :: 0 <= i < |inputs| ==> pick[i] < |inputs[i]|
  }

  /** The value a combination shows in a field: that of the first of its rows that has the field. */
  function Value(inputs: seq<seq<Row>>, pick: seq<nat>, f: string): Option<Constant>
    requires Picks(inputs, pick)
  {
    if inputs == [] then None
    else if f in inputs[0][pick[0]] then Some(inputs[0][pick[0]][f])
    else Value(inputs[1..], pick[1..], f)
  }

  function Side(e: Expression, inputs: seq<seq<Row>>, pick: seq<nat>): Option<Constant>
    requires Picks(inputs, pick)
  {
    match e
    case Const(c) => Some(c)
    case Field(f) => Value(inputs, pick, f)
  }

  /** Each condition finds a value on both sides, the same one. */
  predicate Meets(pred: Predicate, inputs: seq<seq<Row>>, pick: seq<nat>)
    requires Picks(inputs, pick)
  {
    forall i :: 0 <= i < |pred| ==> Side(pred[i].lhs, inputs, pick).Some? && Side(pred[i].lhs, inputs, pick) == Side(pred[i].rhs, inputs, pick)
  }

  /** Combinations in the order of their first rows, then of their second ones, and so on. */
  predicate Earlier(a: seq<nat>, b: seq<nat>) {
    a != [] && b != [] && (a[0] < b[0] || (a[0] == b[0] && Earlier(a[1..], b[1..])))
  }

  ghost predicate InOrder(picks: seq<seq<nat>>) {
    forall i, j :: 0 <= i < j < |picks| ==> Earlier(picks[i], picks[j])
  }

  function Cell(r: Row, f: string): Option<Constant> {
    if f in r then Some(r[f]) else None
  }

  /** The row has exactly the fields of the combination, with its values. */
  ghost predicate Combines(inputs: seq<seq<Row>>, pick: seq<nat>, r: Row) {
    Picks(inputs, pick) && forall f :: Cell(r, f) == Value(inputs, pick, f)
  }

  ghost predicate AllCombine(inputs: seq<seq<Row>>, picks: seq<seq<nat>>, rows: seq<Row>) {
    |picks| == |rows| && forall i :: 0 <= i < |rows| ==> Combines(inputs, picks[i], rows[i])
  }

  // ---------------------------------------------------------------- the product

  function Prefixed(k: nat, picks: seq<seq<nat>>): (r: seq<seq<nat>>)
    ensures |r| == |picks| && forall i :: 0 <= i < |r| ==> r[i] == [k] + picks[i]
  {
    seq(|picks|, i requires 0 <= i < |picks| => [k] + picks[i])
  }

  /** The combinations with rows k to n - 1 of one more input in front. */
  function Fronted(k: nat, n: nat, picks: seq<seq<nat>>): seq<seq<nat>>
    requires k <= n
    decreases n - k
  {
    if k == n then [] else Prefixed(k, picks) + Fronted(k + 1, n, picks)
  }

  function AllPicks(inputs: seq<seq<Row>>): seq<seq<nat>> {
    if inputs == [] then [[]] else Fronted(0, |inputs[0]|, AllPicks(inputs[1..]))
  }

  lemma {:induction false} FrontedIn(k: nat, n: nat, picks: seq<seq<nat>>, i: nat)
    requires k <= n && i < |Fronted(k, n, picks)|
    ensures var p := Fronted(k, n, picks)[i]; p != [] && k <= p[0] < n && p[1..] in picks
    decreases n - k
  {
    if k < n {
      if i < |picks| {
        assert Fronted(k, n, picks)[i] == [k] + picks[i];
        assert ([k] + picks[i])[1..] == picks[i];
      } else {
        FrontedIn(k + 1, n, picks, i - |picks|);
      }
    }
  }

  lemma {:induction false} FrontedAll(k: nat, n: nat, picks: seq<seq<nat>>, j: nat, p: seq<nat>)
    requires k <= j < n && p in picks
    ensures [j] + p in Fronted(k, n, picks)
    decreases n - k
  {
    if j == k {
      var i :| 0 <= i < |picks| && picks[i] == p;
      assert Fronted(k, n, picks)[i] == [k] + p;
    } else {
      FrontedAll(k + 1, n, picks, j, p);
    }
  }

  lemma {:induction false} FrontedOrder(k: nat, n: nat, picks: seq<seq<nat>>)
    requires k <= n && InOrder(picks)
    ensures InOrder(Fronted(k, n, picks))
    decreases n - k
  {
    if k < n {
      FrontedOrder(k + 1, n, picks);
      var all, m := Fronted(k, n, picks), |picks|;
      forall i, j | 0 <= i < j < |all| ensures Earlier(all[i], all[j]) {
        if i < m {
          assert all[i] == [k] + picks[i] && ([k] + picks[i])[1..] == picks[i];
          if j < m {
            assert all[j] == [k] + picks[j] && ([k] + picks[j])[1..] == picks[j];
          } else {
            FrontedIn(k + 1, n, picks, j - m);
          }
        } else {
          assert all[i] == Fronted(k + 1, n, picks)[i - m] && all[j] == Fronted(k + 1, n, picks)[j - m];
        }
      }
    }
  }

  /** Every combination, once, in order. */
  lemma {:induction false} AllPicksAre(inputs: seq<seq<Row>>)
    ensures InOrder(AllPicks(inputs)) && forall pick :: pick in AllPicks(inputs) <==> Picks(inputs, pick)
  {
    if inputs != [] {
      var n, rest := |inputs[0]|, AllPicks(inputs[1..]);
      AllPicksAre(inputs[1..]);
      FrontedOrder(0, n, rest);
      forall pick ensures pick in AllPicks(inputs) <==> Picks(inputs, pick) {
        if pick in AllPicks(inputs) {
          var i :| 0 <= i < |AllPicks(inputs)| && AllPicks(inputs)[i] == pick;
          FrontedIn(0, n, rest, i);
          assert Picks(inputs[1..], pick[1..]);
          forall j | 0 <= j < |inputs| ensures pick[j] < |inputs[j]| {
            assert j > 0 ==> pick[j] == pick[1..][j - 1] && inputs[j] == inputs[1..][j - 1];
          }
        }
        if Picks(inputs, pick) {
          assert Picks(inputs[1..], pick[1..]);
          FrontedAll(0, n, rest, pick[0], pick[1..]);
          assert pick == [pick[0]] + pick[1..];
        }
      }
    }
  }

  lemma {:induction false} CombinesFront(inputs: seq<seq<Row>>, k: nat, p: seq<nat>, r: Row)
    requires inputs != [] && k < |inputs[0]| && Combines(inputs[1..], p, r)
    ensures Combines(inputs, [k] + p, Joined(inputs[0][k], r))
  {
    var pick := [k] + p;
    assert pick[1..] == p;
    forall i | 0 <= i < |inputs| ensures pick[i] < |inputs[i]| {
      assert i > 0 ==> inputs[i] == inputs[1..][i - 1] && pick[i] == p[i - 1];
    }
  }

  lemma {:induction false} CrossCombines(inputs: seq<seq<Row>>, k: nat, picks: seq<seq<nat>>, rows: seq<Row>)
    requires inputs != [] && k <= |inputs[0]| && AllCombine(inputs[1..], picks, rows)
    ensures AllCombine(inputs, Fronted(k, |inputs[0]|, picks), Cross(inputs[0][k..], rows))
    decreases |inputs[0]| - k
  {
    hide Combines, Joined, Pairs;
    var a := inputs[0];
    if k < |a| {
      CrossCombines(inputs, k + 1, picks, rows);
      assert a[k..][1..] == a[k + 1..];
      PairsAt(a[k], rows);
      forall i | 0 <= i < |rows| ensures Combines(inputs, Prefixed(k, picks)[i], Pairs(a[k], rows)[i]) {
        CombinesFront(inputs, k, picks[i], rows[i]);
      }
    }
  }

  lemma {:induction false} OneCombines(rows: seq<Row>, k: nat)
    requires k <= |rows|
    ensures AllCombine([rows], Fronted(k, |rows|, [[]]), rows[k..])
    decreases |rows| - k
  {
    if k < |rows| {
      OneCombines(rows, k + 1);
      var all := Fronted(k, |rows|, [[]]);
      assert all[0] == [k];
      assert Combines([rows], [k], rows[k]);
      forall i | 0 <= i < |rows[k..]| ensures Combines([rows], all[i], rows[k..][i]) {
        assert i > 0 ==> all[i] == Fronted(k + 1, |rows|, [[]])[i - 1] && rows[k..][i] == rows[k + 1..][i - 1];
      }
    }
  }

  /** The product has a row for each combination, in order. */
  lemma {:induction false} CrossAllCombines(inputs: seq<seq<Row>>)
    requires inputs != []
    ensures AllCombine(inputs, AllPicks(inputs), CrossAll(inputs))
  {
    hide Combines, Fronted;
    if |inputs| == 1 {
      assert inputs[1..] == [] && inputs == [inputs[0]];
      OneCombines(inputs[0], 0);
      assert inputs[0][0..] == inputs[0];
    } else {
      CrossAllCombines(inputs[1..]);
      CrossCombines(inputs, 0, AllPicks(inputs[1..]), CrossAll(inputs[1..]));
      assert inputs[0][0..] == inputs[0];
    }
  }

  // ---------------------------------------------------------------- the selection

  lemma {:induction false} AllDefined(pred: Predicate, r: Row)
    requires Evaluable(pred, r) && Holds(pred, r)
    ensures forall i :: 0 <= i < |pred| ==> Defined(pred[i], r)
  {
    if pred != [] {
      assert forall i :: 0 <= i < |pred| - 1 ==> pred[1..][i] == pred[i + 1];
      AllDefined(pred[1..], r);
      forall i | 0 <= i < |pred| ensures Defined(pred[i], r) {
        assert i > 0 ==> pred[i] == pred[1..][i - 1];
      }
    }
  }

  lemma {:induction false} MeetsHolds(pred: Predicate, inputs: seq<seq<Row>>, pick: seq<nat>, r: Row)
    requires Combines(inputs, pick, r) && Evaluable(pred, r)
    ensures Holds(pred, r) <==> Meets(pred, inputs, pick)
  {
    hide Value, Evaluable;
    if Holds(pred, r) {
      AllDefined(pred, r);
      forall i | 0 <= i < |pred| ensures Side(pred[i].lhs, inputs, pick).Some? && Side(pred[i].lhs, inputs, pick) == Side(pred[i].rhs, inputs, pick) {
        assert TermHolds(pred[i], r) && Defined(pred[i], r);
      }
    }
    if Meets(pred, inputs, pick) {
      forall i | 0 <= i < |pred| ensures TermHolds(pred[i], r) {
        assert Side(pred[i].lhs, inputs, pick) == Side(pred[i].rhs, inputs, pick);
      }
    }
  }

  /** The combinations of the rows that pass, picks[i] being that of rows[i]. */
  lemma {:induction false} FilterPicks(pred: Predicate, inputs: seq<seq<Row>>, picks: seq<seq<nat>>, rows: seq<Row>) returns (kept: seq<seq<nat>>)
    requires AllCombine(inputs, picks, rows) && AllEvaluable(pred, rows) && InOrder(picks)
    ensures AllCombine(inputs, kept, Filter(pred, rows)) && InOrder(kept)
    ensures forall pick :: pick in kept <==> pick in picks && Picks(inputs, pick) && Meets(pred, inputs, pick)
    decreases |rows|
  {
    hide Combines, Evaluable, Meets, Holds, Picks, InOrder, Earlier;
    if rows == [] {
      kept := [];
      InOrderTail(kept);
    } else {
      InOrderTail(picks);
      assert forall i :: 0 <= i < |rows| - 1 ==> picks[1..][i] == picks[i + 1] && rows[1..][i] == rows[i + 1];
      var more := FilterPicks(pred, inputs, picks[1..], rows[1..]);
      CombinesPicks(inputs, picks[0], rows[0]);
      MeetsHolds(pred, inputs, picks[0], rows[0]);
      kept := if Holds(pred, rows[0]) then [picks[0]] + more else more;
      OrderedMore(picks, more);
      forall pick ensures pick in kept <==> pick in picks && Picks(inputs, pick) && Meets(pred, inputs, pick) {
        FirstOrLater(picks, pick);
        if Holds(pred, rows[0]) {
          FirstOrLater(kept, pick);
        }
      }
    }
  }

  lemma {:induction false} FirstOrLater(picks: seq<seq<nat>>, pick: seq<nat>)
    requires picks != []
    ensures pick in picks <==> pick == picks[0] || pick in picks[1..]
  {
    assert picks == [picks[0]] + picks[1..];
  }

  lemma {:induction false} InOrderTail(picks: seq<seq<nat>>)
    ensures picks == [] ==> InOrder(picks)
    ensures picks != [] && InOrder(picks) ==> InOrder(picks[1..])
  {
  }

  lemma {:induction false} CombinesPicks(inputs: seq<seq<Row>>, pick: seq<nat>, r: Row)
    requires Combines(inputs, pick, r)
    ensures Picks(inputs, pick)
  {
  }

  lemma {:induction false} OrderedMore(picks: seq<seq<nat>>, more: seq<seq<nat>>)
    requires picks != [] && InOrder(picks) && InOrder(more) && forall pick :: pick in more ==> pick in picks[1..]
    ensures InOrder([picks[0]] + more)
  {
    var all := [picks[0]] + more;
    forall i, j | 0 <= i < j < |all| ensures Earlier(all[i], all[j]) {
      if i == 0 {
        assert all[j] in picks[1..];
        var k :| 0 <= k < |picks[1..]| && picks[1..][k] == all[j];
        assert picks[k + 1] == all[j];
      } else {
        assert all[i] == more[i - 1] && all[j] == more[j - 1];
      }
    }
  }

  /** Exactly the combinations that meet the conditions, in order. */
  ghost predicate Chosen(db: Db, q: QueryData, picks: seq<seq<nat>>)
    requires Known(db, q)
  {
    && InOrder(picks)
    && forall pick :: pick in picks <==> Picks(Inputs(db, q), pick) && Meets(q.pred, Inputs(db, q), pick)
  }

  lemma {:induction false} SelectedAre(db: Db, q: QueryData) returns (picks: seq<seq<nat>>)
    requires Known(db, q) && AllEvaluable(q.pred, CrossAll(Inputs(db, q)))
    ensures Chosen(db, q, picks) && AllCombine(Inputs(db, q), picks, Selected(db, q))
  {
    hide Combines, Evaluable, Meets, Inputs, CrossAll, Filter, AllPicks, InOrder, Picks;
    var inputs := Inputs(db, q);
    CrossAllCombines(inputs);
    AllPicksAre(inputs);
    picks := FilterPicks(q.pred, inputs, AllPicks(inputs), CrossAll(inputs));
  }

  // ---------------------------------------------------------------- answers without grouping

  /** The rows are the answer: in this order if the query does not sort. */
  ghost predicate Answers(db: Db, q: QueryData, rows: seq<Row>)
    requires Known(db, q)
  {
    multiset(Answer(db, q)) == multiset(rows) && (q.sort == [] ==> Answer(db, q) == rows)
  }

  /** The row has the fields asked for, with the values of the combination. */
  ghost predicate Selects(inputs: seq<seq<Row>>, pick: seq<nat>, fields: seq<string>, r: Row) {
    Picks(inputs, pick) && forall f :: Cell(r, f) == if f in fields then Value(inputs, pick, f) else None
  }

  lemma {:induction false} ProjectAt(fields: seq<string>, rows: seq<Row>)
    ensures |ProjectAll(fields, rows)| == |rows| && forall i :: 0 <= i < |rows| ==> ProjectAll(fields, rows)[i] == Projected(fields, rows[i])
  {
    hide Projected;
    if rows != [] {
      ProjectAt(fields, rows[1..]);
    }
  }

  lemma {:induction false} ProjectionAnswers(db: Db, q: QueryData)
    requires Known(db, q)
    ensures Answers(db, q, Projection(db, q))
  {
    hide Selected, AggsAfter, GroupResult, ProjectAll, SortOf, Sorted, Before;
    SortOfCorrect(q.sort, Projection(db, q));
  }

  /** Without grouping the answer has one row for each combination that meets the conditions, and in each field asked
      for it has the value of the first input with the field. */
  lemma {:induction false} UngroupedAnswer(db: Db, q: QueryData) returns (picks: seq<seq<nat>>, rows: seq<Row>)
    requires Known(db, q) && q.group == [] && Plannable(db, q) && Succeeds(db, q)
    ensures Chosen(db, q, picks) && |rows| == |picks| && Answers(db, q, rows)
    ensures forall i :: 0 <= i < |rows| ==> Selects(Inputs(db, q), picks[i], q.fields, rows[i])
  {
    hide Inputs, Selected, Value, AllEvaluable, CrossAll, Answers, Chosen, Plannable, SubqueriesRun, InputsMatch, Sortable, OutSchema, ProjectAll;
    picks := SelectedAre(db, q);
    rows := Projection(db, q);
    ProjectionAnswers(db, q);
    ProjectAt(q.fields, Selected(db, q));
    forall i | 0 <= i < |rows| ensures Selects(Inputs(db, q), picks[i], q.fields, rows[i]) {
      assert Combines(Inputs(db, q), picks[i], Selected(db, q)[i]);
    }
  }

  /** Two rows of a sorted answer, by their values. */
  lemma {:induction false} SortedAnswer(db: Db, q: QueryData, i: nat, j: nat) returns (k: nat)
    requires Known(db, q) && q.sort != [] && Plannable(db, q) && Succeeds(db, q) && i < j < |Answer(db, q)|
    ensures var r, s := Answer(db, q)[i], Answer(db, q)[j];
      && k <= |q.sort|
      && (forall l :: 0 <= l < k ==> q.sort[l] in r && q.sort[l] in s && r[q.sort[l]] == s[q.sort[l]])
      && (k < |q.sort| ==> var f := q.sort[k]; f in r && f in s && SameKind(r[f], s[f]) && Less(r[f], s[f]))
  {
    hide Inputs, Selected, AllEvaluable, CrossAll, Plannable, SubqueriesRun, InputsMatch, Sortable, OutSchema, ProjectAll, SortOf, GroupResult,
      AggsAfter;
    assert Answer(db, q) == SortOf(q.sort, Projection(db, q));
    k := SortedByValue(OutSchema(db, q), q.sort, Projection(db, q), i, j);
  }

  // ---------------------------------------------------------------- grouped answers

  lemma {:induction false} SuffixSame(head: string, a: string, b: string)
    requires head + a == head + b
    ensures a == b
  {
    assert (head + a)[|head|..] == a && (head + b)[|head|..] == b;
  }

  /** Different aggregates have different names. */
  lemma {:induction false} NamesApart(a: AggFn, b: AggFn)
    requires AggName(a) == AggName(b)
    ensures a == b
  {
    assert AggName(a)[..2] == if a.Count? then "co" else if a.Max? then "ma" else if a.Min? then "mi" else "su";
    assert AggName(b)[..2] == if b.Count? then "co" else if b.Max? then "ma" else if b.Min? then "mi" else "su";
    assert "co"[0] != "ma"[0] && "ma"[1] != "mi"[1] && "su"[0] != "co"[0];
    match a
    case Count =>
    case Max(f) => SuffixSame("max", f, b.field);
    case Min(f) => SuffixSame("min", f, b.field);
    case Sum(f) => SuffixSame("sum", f, b.field);
  }

  lemma {:induction false} AggRowAt(aggs: seq<AggFn>, g: seq<Row>, fn: AggFn)
    requires g != [] && fn in aggs
    ensures AggName(fn) in AggRow(aggs, g) && AggRow(aggs, g)[AggName(fn)] == Fold(fn, g)
  {
    hide Fold, AggName;
    if fn != aggs[0] {
      assert fn in aggs[1..];
      AggRowAt(aggs[1..], g, fn);
      if AggName(fn) == AggName(aggs[0]) {
        NamesApart(fn, aggs[0]);
      }
    }
  }

  /** v is a least value of f in the group. */
  ghost predicate Least(g: seq<Row>, f: string, v: Constant) {
    (exists r :: r in g && Cell(r, f) == Some(v)) && forall r :: r in g ==> f in r && SameKind(r[f], v) && !Less(r[f], v)
  }

  ghost predicate Greatest(g: seq<Row>, f: string, v: Constant) {
    (exists r :: r in g && Cell(r, f) == Some(v)) && forall r :: r in g ==> f in r && SameKind(r[f], v) && !Less(v, r[f])
  }

  /** Two rows have the same values in the group fields. */
  predicate Agree(group: seq<string>, r: Row, s: Row) {
    forall f :: f in group ==> f in r && f in s && r[f] == s[f]
  }

  lemma {:induction false} OneKind(schema: Schema, f: string, r: Row, s: Row)
    requires Typed(schema, r) && Typed(schema, s) && f in NameSet(schema)
    ensures f in r && f in s && SameKind(r[f], s[f])
    ensures At(r, f) == At(s, f) <==> r[f] == s[f]
    ensures At(r, f) < At(s, f) <==> Less(r[f], s[f])
  {
    hide Rank;
    RankOrder(r[f], s[f]);
  }

  lemma {:induction false} AgreeIs(schema: Schema, group: seq<string>, r: Row, s: Row)
    requires Typed(schema, r) && Typed(schema, s) && AllNamed(group, schema)
    ensures SameGroup(group, r, s) <==> Agree(group, r, s)
  {
    hide Typed, At, SameKind, Less;
    forall f | f in group ensures f in r && f in s && (At(r, f) == At(s, f) <==> r[f] == s[f]) {
      OneKind(schema, f, r, s);
    }
  }

  lemma {:induction false} LeastIs(schema: Schema, g: seq<Row>, f: string)
    requires g != [] && AllTyped(schema, g) && f in NameSet(schema)
    ensures Least(g, f, Fold(Min(f), g)) && Greatest(g, f, Fold(Max(f), g))
  {
    hide Fold, Typed, Less;
    MinIs(g, f);
    MaxIs(g, f);
    var i :| 0 <= i < |g| && Fold(Min(f), g) == Val(g[i], f);
    var j :| 0 <= j < |g| && Fold(Max(f), g) == Val(g[j], f);
    forall k | 0 <= k < |g|
      ensures f in g[k] && SameKind(g[k][f], Val(g[i], f)) && SameKind(g[k][f], Val(g[j], f)) && !Less(g[k][f], Val(g[i], f)) && !Less(Val(g[j], f), g[k][f])
    {
      OneKind(schema, f, g[k], g[i]);
      OneKind(schema, f, g[k], g[j]);
      OneKind(schema, f, g[j], g[k]);
    }
    assert Cell(g[i], f) == Some(g[i][f]) && Cell(g[j], f) == Some(g[j][f]);
  }

  ghost predicate AllNumbers(g: seq<Row>, f: string) {
    forall i :: 0 <= i < |g| ==> f in g[i] && g[i][f].IntVal?
  }

  /** What a row of a grouped answer has in the field f. A sum is right when its values are integers. */
  ghost predicate Sums(g: seq<Row>, group: seq<string>, aggs: seq<AggFn>, f: string, v: Constant) {
    if f in group then forall r :: r in g ==> Cell(r, f) == Some(v)
    else
      && (f == "count" ==> v == IntVal(|g|))
      && (forall x :: f == "min" + x && Min(x) in aggs ==> Least(g, x, v))
      && (forall x :: f == "max" + x && Max(x) in aggs ==> Greatest(g, x, v))
      && (forall x :: f == "sum" + x && Sum(x) in aggs && AllNumbers(g, x) ==> v == IntVal(SumOf(g, x)))
  }

  /** The groups are the rows cut by their values in the group fields: all rows that agree are in one group, with all
      their copies. */
  ghost predicate Partition(gs: seq<seq<Row>>, group: seq<string>, rows: seq<Row>) {
    && (forall i :: 0 <= i < |gs| ==> gs[i] != [])
    && (forall i, r :: 0 <= i < |gs| ==> multiset(gs[i])[r] == if r in rows && Agree(group, gs[i][0], r) then multiset(rows)[r] else 0)
    && (forall r :: r in rows ==> exists i :: 0 <= i < |gs| && r in gs[i])
    && forall i, j :: 0 <= i < j < |gs| ==> !Agree(group, gs[i][0], gs[j][0])
  }

  lemma {:induction false} LikeCount(fields: seq<string>, first: Row, rows: seq<Row>, r: Row)
    ensures multiset(RowsLike(fields, first, rows))[r] == if SameGroup(fields, first, r) then multiset(rows)[r] else 0
  {
    hide SameGroup;
    if rows != [] {
      var n := |rows| - 1;
      LikeCount(fields, first, rows[..n], r);
      assert rows == rows[..n] + [rows[n]];
    }
  }

  /** The group that comes first has the smaller values. */
  lemma {:induction false} GroupsOrdered(fields: seq<string>, rows: seq<Row>, i: nat, j: nat)
    requires Sorted(fields, rows) && i < j < |Groups(fields, rows)|
    ensures Groups(fields, rows)[i] != [] && Groups(fields, rows)[j] != []
    ensures Before(fields, Groups(fields, rows)[i][0], Groups(fields, rows)[j][0])
    decreases i
  {
    hide Compare, SameGroup, Span, Before;
    GroupsDiffer(fields, rows, i, j);
    var n := Span(fields, rows, 1);
    var tail := rows[n..];
    if i == 0 {
      GroupsWithin(fields, tail, j - 1, 0);
      var r, s := rows[0], Groups(fields, rows)[j][0];
      var k :| 0 <= k < |tail| && tail[k] == s;
      assert rows[n + k] == s;
      CompareZero(fields, r, s);
      CompareBefore(fields, r, s);
    } else {
      GroupsOrdered(fields, tail, i - 1, j - 1);
    }
  }

  lemma {:induction false} TypedAll(schema: Schema, a: seq<Row>, rows: seq<Row>)
    requires AllTyped(schema, rows) && forall r :: r in a ==> r in rows
    ensures AllTyped(schema, a)
  {
    hide Typed;
    forall i | 0 <= i < |a| ensures Typed(schema, a[i]) {
      assert a[i] in a;
    }
  }

  /** What the i-th group of the sorted rows is made of. */
  lemma {:induction false} GroupIs(schema: Schema, group: seq<string>, rows: seq<Row>, i: nat)
    requires AllTyped(schema, rows) && AllNamed(group, schema) && i < |Groups(group, SortOf(group, rows))|
    ensures var g := Groups(group, SortOf(group, rows))[i];
      && g != [] && g[0] in rows && AllTyped(schema, g)
      && forall r :: multiset(g)[r] == if r in rows && Agree(group, g[0], r) then multiset(rows)[r] else 0
  {
    hide SortOf, Groups, SameGroup, Agree, RowsLike, Typed, Before, Sorted;
    var all := SortOf(group, rows);
    var g := Groups(group, all)[i];
    SortOfSorted(group, rows);
    SameRows(all, rows);
    GroupsCorrect(group, all);
    GroupRows(group, all, i);
    TypedAll(schema, g, rows);
    assert g[0] in g;
    forall r ensures multiset(g)[r] == if r in rows && Agree(group, g[0], r) then multiset(rows)[r] else 0 {
      LikeCount(group, g[0], all, r);
      if r in rows {
        AgreeIn(schema, group, rows, g[0], r);
      } else {
        assert r !in multiset(rows);
      }
    }
  }

  lemma {:induction false} SameRows(a: seq<Row>, b: seq<Row>)
    requires multiset(a) == multiset(b)
    ensures forall r :: r in a <==> r in b
  {
    forall r ensures r in a <==> r in b {
      assert r in a <==> r in multiset(a);
      assert r in b <==> r in multiset(b);
    }
  }

  lemma {:induction false} AllGrouped(group: seq<string>, rows: seq<Row>, r: Row)
    requires r in rows
    ensures exists i :: 0 <= i < |Groups(group, SortOf(group, rows))| && r in Groups(group, SortOf(group, rows))[i]
  {
    hide SortOf, Groups, Sorted, Before;
    SortOfSorted(group, rows);
    SameRows(SortOf(group, rows), rows);
    GroupsCover(group, SortOf(group, rows), r);
  }

  lemma {:induction false} GroupsApart(schema: Schema, group: seq<string>, rows: seq<Row>, i: nat, j: nat)
    requires AllTyped(schema, rows) && AllNamed(group, schema) && i < j < |Groups(group, SortOf(group, rows))|
    ensures var gs := Groups(group, SortOf(group, rows));
      gs[i] != [] && gs[j] != [] && !Agree(group, gs[i][0], gs[j][0]) && Before(group, gs[i][0], gs[j][0])
  {
    hide SortOf, Groups, SameGroup, Agree, AllTyped, Before, Sorted;
    var gs := Groups(group, SortOf(group, rows));
    SortOfSorted(group, rows);
    GroupIs(schema, group, rows, i);
    GroupIs(schema, group, rows, j);
    GroupsDiffer(group, SortOf(group, rows), i, j);
    AgreeIn(schema, group, rows, gs[i][0], gs[j][0]);
    GroupsOrdered(group, SortOf(group, rows), i, j);
  }

  lemma {:induction false} GroupsPartition(schema: Schema, group: seq<string>, rows: seq<Row>)
    requires AllTyped(schema, rows) && AllNamed(group, schema)
    ensures var gs := Groups(group, SortOf(group, rows));
      && Partition(gs, group, rows)
      && (forall i :: 0 <= i < |gs| ==> AllTyped(schema, gs[i]))
      && forall i, j :: 0 <= i < j < |gs| ==> Before(group, gs[i][0], gs[j][0])
  {
    hide SortOf, Groups, Agree, AllTyped, Before;
    var gs := Groups(group, SortOf(group, rows));
    forall i | 0 <= i < |gs|
      ensures gs[i] != [] && AllTyped(schema, gs[i])
      ensures forall r :: multiset(gs[i])[r] == if r in rows && Agree(group, gs[i][0], r) then multiset(rows)[r] else 0
    {
      GroupIs(schema, group, rows, i);
    }
    forall r | r in rows ensures exists i :: 0 <= i < |gs| && r in gs[i] {
      AllGrouped(group, rows, r);
    }
    forall i, j | 0 <= i < j < |gs| ensures !Agree(group, gs[i][0], gs[j][0]) && Before(group, gs[i][0], gs[j][0]) {
      GroupsApart(schema, group, rows, i, j);
    }
  }

  lemma {:induction false} GroupRows(group: seq<string>, rows: seq<Row>, i: nat)
    requires i < |Groups(group, rows)|
    ensures forall r :: r in Groups(group, rows)[i] ==> r in rows
  {
    forall r | r in Groups(group, rows)[i] ensures r in rows {
      var k :| 0 <= k < |Groups(group, rows)[i]| && Groups(group, rows)[i][k] == r;
      GroupsWithin(group, rows, i, k);
    }
  }

  lemma {:induction false} AgreeIn(schema: Schema, group: seq<string>, rows: seq<Row>, r: Row, s: Row)
    requires AllTyped(schema, rows) && AllNamed(group, schema) && r in rows && s in rows
    ensures SameGroup(group, r, s) <==> Agree(group, r, s)
  {
    AgreeIs(schema, group, r, s);
  }

  lemma {:induction false} GroupAllAt(group: seq<string>, aggs: seq<AggFn>, gs: seq<seq<Row>>)
    requires forall i :: 0 <= i < |gs| ==> gs[i] != []
    ensures |GroupAll(group, aggs, gs)| == |gs| && forall i :: 0 <= i < |gs| ==> GroupAll(group, aggs, gs)[i] == GroupRow(group, aggs, gs[i])
  {
    hide GroupRow;
    if gs != [] {
      GroupAllAt(group, aggs, gs[1..]);
    }
  }

  lemma {:induction false} RowSums(schema: Schema, group: seq<string>, aggs: seq<AggFn>, g: seq<Row>, f: string)
    requires g != [] && AllTyped(schema, g) && AllReadable(aggs, NameSet(schema)) && Count in aggs
    requires forall r :: r in g ==> Agree(group, g[0], r)
    requires f in GroupRow(group, aggs, g)
    ensures Sums(g, group, aggs, f, GroupRow(group, aggs, g)[f])
  {
    hide Fold, AllTyped, Least, Greatest, SumOf, AggRow;
    var v := GroupRow(group, aggs, g)[f];
    if f in group {
      assert Agree(group, g[0], g[0]);
    } else {
      AggSums(schema, aggs, g, f, v);
    }
  }

  lemma {:induction false} AggSums(schema: Schema, aggs: seq<AggFn>, g: seq<Row>, f: string, v: Constant)
    requires g != [] && AllTyped(schema, g) && AllReadable(aggs, NameSet(schema)) && Count in aggs
    requires f in AggRow(aggs, g) && v == AggRow(aggs, g)[f]
    ensures f == "count" ==> v == IntVal(|g|)
    ensures forall x :: f == "min" + x && Min(x) in aggs ==> Least(g, x, v)
    ensures forall x :: f == "max" + x && Max(x) in aggs ==> Greatest(g, x, v)
    ensures forall x :: f == "sum" + x && Sum(x) in aggs && AllNumbers(g, x) ==> v == IntVal(SumOf(g, x))
  {
    hide Fold, AllTyped, Least, Greatest, SumOf, AggRow, NameSet;
    if f == "count" {
      AggRowAt(aggs, g, Count);
      CountIs(g);
    }
    forall x | f == "min" + x && Min(x) in aggs ensures Least(g, x, v) {
      AggRowAt(aggs, g, Min(x));
      LeastIs(schema, g, x);
    }
    forall x | f == "max" + x && Max(x) in aggs ensures Greatest(g, x, v) {
      AggRowAt(aggs, g, Max(x));
      LeastIs(schema, g, x);
    }
    forall x | f == "sum" + x && Sum(x) in aggs && AllNumbers(g, x) ensures v == IntVal(SumOf(g, x)) {
      AggRowAt(aggs, g, Sum(x));
      SumIs(g, x);
    }
  }

  lemma {:induction false} ResultSums(schema: Schema, group: seq<string>, aggs: seq<AggFn>, rows: seq<Row>, fields: seq<string>)
    requires AllTyped(schema, rows) && AllNamed(group, schema) && AllReadable(aggs, NameSet(schema)) && Count in aggs
    requires AllNamed(fields, Sub(group, schema) + AggSchema(aggs))
    ensures var out, gs := ProjectAll(fields, GroupResult(group, aggs, rows)), Groups(group, SortOf(group, rows));
      && |out| == |gs|
      && (forall i, f :: 0 <= i < |out| ==> (f in out[i] <==> f in fields))
      && forall i, f :: 0 <= i < |out| && f in fields ==> Sums(gs[i], group, aggs, f, out[i][f])
  {
    hide SortOf, Groups, GroupRow, GroupAll, Typed, Sums, Partition, Agree, Before, ProjectAll, NameSet, Sub, AggSchema;
    var result, gs := GroupResult(group, aggs, rows), Groups(group, SortOf(group, rows));
    GroupsPartition(schema, group, rows);
    PartitionParts(gs, group, rows);
    GroupAllAt(group, aggs, gs);
    ProjectAt(fields, result);
    GroupResultShows(schema, group, aggs, rows);
    forall i, f | 0 <= i < |gs| ensures f in fields ==> f in result[i] && Sums(gs[i], group, aggs, f, result[i][f]) {
      if f in fields {
        assert Names(Sub(group, schema) + AggSchema(aggs), f);
        RowSums(schema, group, aggs, gs[i], f);
      }
    }
  }

  lemma {:induction false} PartitionParts(gs: seq<seq<Row>>, group: seq<string>, rows: seq<Row>)
    requires Partition(gs, group, rows)
    ensures forall i :: 0 <= i < |gs| ==> gs[i] != [] && forall r :: r in gs[i] ==> Agree(group, gs[i][0], r)
  {
    hide Agree;
    forall i, r | 0 <= i < |gs| && r in gs[i] ensures Agree(group, gs[i][0], r) {
      assert r in multiset(gs[i]);
      assert multiset(gs[i])[r] == if r in rows && Agree(group, gs[i][0], r) then multiset(rows)[r] else 0;
    }
  }

  lemma {:induction false} GroupedParts(db: Db, q: QueryData)
    requires Known(db, q) && q.group != [] && Plannable(db, q) && Succeeds(db, q)
    ensures forall i :: 0 <= i < |q.subqueries| ==> Plannable(db, q.subqueries[i])
    ensures var schema, aggs := InSchema(db, q), AggsAfter(db, q);
      && AllEvaluable(q.pred, CrossAll(Inputs(db, q)))
      && AllTyped(schema, Selected(db, q)) && AllNamed(q.group, schema) && AllReadable(aggs, NameSet(schema)) && Count in aggs
      && AllNamed(q.fields, Sub(q.group, schema) + AggSchema(aggs))
      && Projection(db, q) == ProjectAll(q.fields, GroupResult(q.group, aggs, Selected(db, q)))
  {
    hide Inputs, Selected, AllEvaluable, CrossAll, SubqueriesRun, InputsMatch, InSchema, OutSchema, ProjectAll, GroupResult, Typed, Told;
  }

  /** With grouping the answer has one row for each group of the combinations that meet the conditions, in the order of
      the group fields. It has exactly the fields asked for: group fields, and the aggregates of the group. */
  lemma {:induction false} GroupedAnswer(db: Db, q: QueryData)
    returns (picks: seq<seq<nat>>, chosen: seq<Row>, gs: seq<seq<Row>>, rows: seq<Row>)
    requires Known(db, q) && q.group != [] && Plannable(db, q) && Succeeds(db, q)
    ensures Chosen(db, q, picks) && AllCombine(Inputs(db, q), picks, chosen)
    ensures Partition(gs, q.group, chosen) && forall i, j :: 0 <= i < j < |gs| ==> Before(q.group, gs[i][0], gs[j][0])
    ensures |rows| == |gs| && Answers(db, q, rows)
    ensures forall i, f :: 0 <= i < |rows| ==> (f in rows[i] <==> f in q.fields)
    ensures forall i, f :: 0 <= i < |rows| && f in q.fields ==> Sums(gs[i], q.group, AggsAfter(db, q), f, rows[i][f])
  {
    hide *;
    GroupedParts(db, q);
    picks := SelectedAre(db, q);
    chosen, rows := Selected(db, q), Projection(db, q);
    gs := Groups(q.group, SortOf(q.group, chosen));
    GroupsPartition(InSchema(db, q), q.group, chosen);
    ResultSums(InSchema(db, q), q.group, AggsAfter(db, q), chosen, q.fields);
    ProjectionAnswers(db, q);
  }

  // ---------------------------------------------------------------- the aggregates there are

  /** The field is among the first k. */
  predicate NamedBefore(s: Schema, k: nat, f: string)
    requires k <= |s|
  {
    exists i :: 0 <= i < k && s[i].0 == f
  }

  lemma {:induction false} FieldAggsAre(s: Schema, k: nat, f: string)
    requires k <= |s|
    ensures NamedBefore(s, k, f) ==> Names(s, f)
    ensures var aggs := FieldAggs(s, k);
      && (Max(f) in aggs <==> NamedBefore(s, k, f))
      && (Min(f) in aggs <==> NamedBefore(s, k, f))
      && (Sum(f) in aggs <==> NamedBefore(s, k, f) && TypeOf(s, f) == INTEGER)
  {
    hide TypeOf;
    if k > 0 {
      var g := s[k - 1].0;
      FieldAggsAre(s, k - 1, f);
      assert NamedBefore(s, k, f) <==> NamedBefore(s, k - 1, f) || f == g;
      hide NamedBefore;
      assert Names(s, g);
      AggsOfField(s, g, f);
    }
  }

  lemma {:induction false} AggsOfField(s: Schema, g: string, f: string)
    requires Names(s, g)
    ensures var more := [Max(g), Min(g)] + if TypeOf(s, g) == INTEGER then [Sum(g)] else [];
      && (Max(f) in more <==> f == g) && (Min(f) in more <==> f == g) && (Sum(f) in more <==> f == g && TypeOf(s, g) == INTEGER)
  {
    hide TypeOf;
    var more := [Max(g), Min(g)] + if TypeOf(s, g) == INTEGER then [Sum(g)] else [];
    assert more[0] == Max(g) && more[1] == Min(g) && (TypeOf(s, g) == INTEGER ==> more[2] == Sum(g));
  }

  lemma {:induction false} NamedAll(s: Schema, f: string)
    ensures NamedBefore(s, |s|, f) <==> Names(s, f)
  {
  }

  /** A table has the field; with integers in it, if sum says so. */
  predicate InTable(db: Db, tables: seq<string>, f: string, sum: bool)
    requires forall i :: 0 <= i < |tables| ==> tables[i] in db
  {
    exists i :: 0 <= i < |tables| && Names(db[tables[i]].schema, f) && (sum ==> TypeOf(db[tables[i]].schema, f) == INTEGER)
  }

  lemma {:induction false} InTableLast(db: Db, tables: seq<string>, f: string, sum: bool)
    requires tables != [] && forall i :: 0 <= i < |tables| ==> tables[i] in db
    ensures var n := |tables| - 1; var s := db[tables[n]].schema;
      InTable(db, tables, f, sum) <==> InTable(db, tables[..n], f, sum) || (Names(s, f) && (sum ==> TypeOf(s, f) == INTEGER))
  {
    hide Names, TypeOf;
    var n := |tables| - 1;
    assert forall i :: 0 <= i < n ==> tables[..n][i] == tables[i];
  }

  /** A grouped query over tables alone has the greatest and the least value of every field of its tables, the sum of
      those with integers, and the count. */
  lemma {:induction false} TableAggregates(db: Db, tables: seq<string>, f: string)
    requires forall i :: 0 <= i < |tables| ==> tables[i] in db
    ensures var aggs := TableAggs(db, tables);
      && (Max(f) in aggs <==> InTable(db, tables, f, false))
      && (Min(f) in aggs <==> InTable(db, tables, f, false))
      && (Sum(f) in aggs <==> InTable(db, tables, f, true))
  {
    hide FieldAggs, TypeOf, Names, NamedBefore;
    if tables != [] {
      hide InTable;
      var n := |tables| - 1;
      TableAggregates(db, tables[..n], f);
      var s := db[tables[n]].schema;
      FieldAggsAre(s, |s|, f);
      NamedAll(s, f);
      InTableLast(db, tables, f, false);
      InTableLast(db, tables, f, true);
    }
  }
}

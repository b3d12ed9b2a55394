/** Plans and what opening one does (src/plan, src/materialize). Where the source throws, goes through a null pointer
    or reads a row it does not have, there is no result (Option). */
module Plans {
  import opened Options
  import opened Rows
  import opened Schemas
  import opened Predicates
  import opened Sort
  import opened GroupBy
  import opened Query

  datatype TableInfo = TableInfo(schema: Schema, rows: seq<Row>)

  datatype Plan =
    | TablePlan(table: TableInfo)
    | MaterializePlan(p: Plan)
    | ProductPlan(p1: Plan, p2: Plan)
    | SelectPlan(p: Plan, pred: Predicate)
    | GroupByPlan(p: Plan, group: seq<string>, aggs: seq<AggFn>)
    | ProjectPlan(p: Plan, fields: seq<string>)
    | SortPlan(p: Plan, sort: seq<string>)

  /** The aggregate columns of a group; of two functions of one name the first is seen. */
  function AggRow(aggs: seq<AggFn>, g: seq<Row>): Row
    requires g != []
  {
    if aggs == [] then map[] else AggRow(aggs[1..], g)[AggName(aggs[0]) := Fold(aggs[0], g)]
  }

  /** The result row of a group; a group field hides an aggregate of its name. */
  function GroupRow(group: seq<string>, aggs: seq<AggFn>, g: seq<Row>): Row
    requires g != []
  {
    AggRow(aggs, g) + map f | f in group :: Val(g[0], f)
  }

  function GroupAll(group: seq<string>, aggs: seq<AggFn>, gs: seq<seq<Row>>): seq<Row> {
    if gs == [] then []
    else (if gs[0] == [] then [] else [GroupRow(group, aggs, gs[0])]) + GroupAll(group, aggs, gs[1..])
  }

  function GroupResult(group: seq<string>, aggs: seq<AggFn>, rows: seq<Row>): seq<Row> {
    GroupAll(group, aggs, Groups(group, SortOf(group, rows)))
  }

  /** The rows of a plan. */
  function Denote(p: Plan): seq<Row> {
    match p
    case TablePlan(table) => table.rows
    case MaterializePlan(q) => Denote(q)
    case ProductPlan(p1, p2) => Cross(Denote(p1), Denote(p2))
    case SelectPlan(q, pred) => Filter(pred, Denote(q))
    case GroupByPlan(q, group, aggs) => GroupResult(group, aggs, Denote(q))
    case ProjectPlan(q, fields) => ProjectAll(fields, Denote(q))
    case SortPlan(q, sort) => SortOf(sort, Denote(q))
  }

  // ---------------------------------------------------------------- schemas of plans

  /** Every aggregate is registered as an integer. */
  function AggSchema(aggs: seq<AggFn>): (s: Schema)
    ensures |s| == |aggs| && forall i :: 0 <= i < |s| ==> s[i] == (AggName(aggs[i]), INTEGER)
  {
    seq(|aggs|, i requires 0 <= i < |aggs| => (AggName(aggs[i]), INTEGER))
  }

  predicate Leaf(p: Plan) {
    p.TablePlan? || p.MaterializePlan?
  }

  /** A product from the left. */
  predicate Flat(p: Plan) {
    Leaf(p) || (p.ProductPlan? && Flat(p.p1) && Leaf(p.p2))
  }

  /** The plan's constructors found the fields they copy, its products are from the left, and its tables' rows
      have exactly the fields of their schema. */
  predicate Formed(p: Plan)
    decreases p, 0
  {
    match p
    case TablePlan(table) => forall i :: 0 <= i < |table.rows| ==> table.rows[i].Keys == NameSet(table.schema)
    case MaterializePlan(q) => Formed(q)
    case ProductPlan(p1, p2) => Formed(p1) && Formed(p2) && Flat(p)
    case SelectPlan(q, _) => Formed(q)
    case GroupByPlan(q, group, _) => Formed(q) && AllNamed(group, SchemaOf(q))
    case ProjectPlan(q, fields) => Formed(q) && AllNamed(fields, SchemaOf(q))
    case SortPlan(q, _) => Formed(q)
  }

  function SchemaOf(p: Plan): Schema
    requires Formed(p)
    decreases p, 1
  {
    match p
    case TablePlan(table) => table.schema
    case MaterializePlan(q) => SchemaOf(q)
    case ProductPlan(p1, p2) => Whole(SchemaOf(p1)) + Whole(SchemaOf(p2))
    case SelectPlan(q, _) => SchemaOf(q)
    case GroupByPlan(q, group, aggs) => Sub(group, SchemaOf(q)) + AggSchema(aggs)
    case ProjectPlan(q, fields) => Sub(fields, SchemaOf(q))
    case SortPlan(q, _) => SchemaOf(q)
  }

  lemma {:induction false} FilterShows(schema: Schema, p: Predicate, rows: seq<Row>)
    requires Shows(schema, rows)
    ensures Shows(schema, Filter(p, rows))
  {
    hide Holds, NameSet;
    if rows != [] {
      FilterShows(schema, p, rows[1..]);
    }
  }

  lemma {:induction false} ProjectShows(schema: Schema, fields: seq<string>, rows: seq<Row>)
    requires Shows(schema, rows) && AllNamed(fields, schema)
    ensures Shows(Sub(fields, schema), ProjectAll(fields, rows))
  {
    SubNames(fields, schema);
    if rows != [] {
      ProjectShows(schema, fields, rows[1..]);
      forall f | f in fields ensures f in rows[0] {
        assert f in NameSet(schema);
      }
      assert Projected(fields, rows[0]).Keys == NameSet(Sub(fields, schema));
    }
  }

  lemma {:induction false} PairsShow(s1: Schema, s2: Schema, r: Row, rows: seq<Row>)
    requires r.Keys == NameSet(s1) && Shows(s2, rows)
    ensures Shows(s1 + s2, Pairs(r, rows))
  {
    hide NameSet;
    BothNames(s1, s2);
    PairsAt(r, rows);
  }

  lemma {:induction false} ShowsBoth(schema: Schema, a: seq<Row>, b: seq<Row>)
    requires Shows(schema, a) && Shows(schema, b)
    ensures Shows(schema, a + b)
  {
  }

  lemma {:induction false} CrossShows(s1: Schema, s2: Schema, a: seq<Row>, b: seq<Row>)
    requires Shows(s1, a) && Shows(s2, b)
    ensures Shows(s1 + s2, Cross(a, b))
  {
    hide NameSet, Pairs;
    if a != [] {
      CrossShows(s1, s2, a[1..], b);
      PairsShow(s1, s2, a[0], b);
      ShowsBoth(s1 + s2, Pairs(a[0], b), Cross(a[1..], b));
    }
  }

  lemma {:induction false} WholeNames(s: Schema)
    ensures NameSet(Whole(s)) == NameSet(s)
  {
    SubNames(FieldNames(s), s);
    forall f ensures f in FieldNames(s) <==> Names(s, f) {
    }
  }

  lemma {:induction false} SortShows(schema: Schema, fields: seq<string>, rows: seq<Row>)
    requires Shows(schema, rows)
    ensures Shows(schema, SortOf(fields, rows))
  {
    hide NameSet, SortOf, Sorted;
    SortOfCorrect(fields, rows);
    forall i | 0 <= i < |SortOf(fields, rows)| ensures SortOf(fields, rows)[i].Keys == NameSet(schema) {
      assert SortOf(fields, rows)[i] in multiset(rows);
    }
  }

  lemma {:induction false} AggRowKeys(aggs: seq<AggFn>, g: seq<Row>)
    requires g != []
    ensures AggRow(aggs, g).Keys == NameSet(AggSchema(aggs))
  {
    hide Fold, AggName;
    if aggs != [] {
      AggRowKeys(aggs[1..], g);
      assert AggSchema(aggs) == [(AggName(aggs[0]), INTEGER)] + AggSchema(aggs[1..]);
      BothNames([(AggName(aggs[0]), INTEGER)], AggSchema(aggs[1..]));
      assert NameSet([(AggName(aggs[0]), INTEGER)]) == {AggName(aggs[0])};
    } else {
      assert NameSet(AggSchema(aggs)) == {};
    }
  }

  lemma {:induction false} GroupShows(schema: Schema, group: seq<string>, aggs: seq<AggFn>, gs: seq<seq<Row>>)
    requires AllNamed(group, schema)
    ensures Shows(Sub(group, schema) + AggSchema(aggs), GroupAll(group, aggs, gs))
  {
    hide AggRow, Fold;
    if gs != [] {
      GroupShows(schema, group, aggs, gs[1..]);
      if gs[0] != [] {
        AggRowKeys(aggs, gs[0]);
        SubNames(group, schema);
        BothNames(Sub(group, schema), AggSchema(aggs));
      }
    }
  }

  /** The rows of a plan have exactly the fields of its schema. */
  lemma {:induction false} PlanShows(p: Plan)
    requires Formed(p)
    ensures Shows(SchemaOf(p), Denote(p))
  {
    hide Filter, ProjectAll, Cross, GroupResult, SortOf, Whole, Sub, NameSet;
    match p
    case TablePlan(table) =>
    case MaterializePlan(q) => PlanShows(q);
    case ProductPlan(p1, p2) =>
      PlanShows(p1);
      PlanShows(p2);
      WholeNames(SchemaOf(p1));
      WholeNames(SchemaOf(p2));
      CrossShows(Whole(SchemaOf(p1)), Whole(SchemaOf(p2)), Denote(p1), Denote(p2));
    case SelectPlan(q, pred) =>
      PlanShows(q);
      FilterShows(SchemaOf(q), pred, Denote(q));
    case GroupByPlan(q, group, aggs) =>
      GroupResultShows(SchemaOf(q), group, aggs, Denote(q));
    case ProjectPlan(q, fields) =>
      PlanShows(q);
      ProjectShows(SchemaOf(q), fields, Denote(q));
    case SortPlan(q, sort) =>
      PlanShows(q);
      SortShows(SchemaOf(q), sort, Denote(q));
  }

  lemma {:induction false} GroupResultShows(schema: Schema, group: seq<string>, aggs: seq<AggFn>, rows: seq<Row>)
    requires AllNamed(group, schema)
    ensures Shows(Sub(group, schema) + AggSchema(aggs), GroupResult(group, aggs, rows))
  {
    GroupShows(schema, group, aggs, Groups(group, SortOf(group, rows)));
  }

  // ---------------------------------------------------------------- running a plan

  predicate AllReadable(aggs: seq<AggFn>, names: set<string>) {
    forall i :: 0 <= i < |aggs| ==> Readable(aggs[i], names)
  }

  /** Opening the plan goes through: what goes into a temporary table fits its schema, what is sorted can be
      sorted, and the aggregates find their fields. */
  ghost predicate Opens(p: Plan)
    requires Formed(p)
    decreases p, 0
  {
    match p
    case TablePlan(_) => true
    case MaterializePlan(q) => Delivers(q) && AllTyped(SchemaOf(q), Denote(q))
    case ProductPlan(p1, p2) => Opens(p1) && Opens(p2)
    case SelectPlan(q, _) => Opens(q)
    case GroupByPlan(q, group, aggs) => Delivers(q) && Sortable(SchemaOf(q), group, Denote(q)) && AllReadable(aggs, NameSet(SchemaOf(q)))
    case ProjectPlan(q, _) => Opens(q)
    case SortPlan(q, sort) => Delivers(q) && Sortable(SchemaOf(q), sort, Denote(q))
  }

  /** And so does reading it to the end: the last product has a left row for each right one, and conditions can be
      evaluated. */
  ghost predicate Delivers(p: Plan)
    requires Formed(p)
    decreases p, 1
  {
    match p
    case ProductPlan(p1, p2) => Opens(p) && (Denote(p1) != [] || Denote(p2) == [])
    case SelectPlan(q, pred) => Delivers(q) && AllEvaluable(pred, Denote(q))
    case ProjectPlan(q, _) => Delivers(q)
    case _ => Opens(p)
  }

  ghost predicate Working(s: Scan) {
    Checked(s) && Firm(s) && Alive(s)
  }

  /** A scan as opening a plan gives it: when the plan can be read it has all rows before it, and otherwise reading
      it fails. */
  ghost predicate Opened(p: Plan, s: Scan)
    requires Formed(p)
  {
    && Ranged(s) && Straight(s) && All(s) == Denote(p)
    && (Flat(p) ==> Plain(s)) && (Leaf(p) ==> s.Table? && s.pos == -1)
    && (Doomed(s) || (Working(s) && Left(s) == Denote(p)))
    && (Delivers(p) <==> !Doomed(s) && Fine(s))
  }

  lemma {:induction false} TableOpened(p: Plan, rows: seq<Row>)
    requires Formed(p) && Denote(p) == rows && Delivers(p) && (Flat(p) ==> Leaf(p))
    ensures Opened(p, Table(rows, -1))
  {
    hide Denote;
  }

  /** What a selection or projection adds to a scan. */
  lemma {:induction false} OverSelect(t: Scan, pred: Predicate)
    ensures var s := Select(t, pred);
      && (Ranged(s) <==> Ranged(t)) && (Straight(s) <==> Straight(t)) && (Firm(s) <==> Firm(t)) && (Alive(s) <==> Alive(t))
      && (Doomed(s) <==> Doomed(t)) && (Fine(s) <==> Fine(t) && AllEvaluable(pred, All(t)))
      && (Checked(s) <==> Checked(t) && (AllEvaluable(pred, Left(t)) <==> AllEvaluable(pred, All(t))))
  {
    hide AllEvaluable, All, Left;
  }

  lemma {:induction false} OverProject(t: Scan, fields: seq<string>)
    ensures var s := Project(t, fields);
      && (Ranged(s) <==> Ranged(t)) && (Straight(s) <==> Straight(t)) && (Firm(s) <==> Firm(t)) && (Alive(s) <==> Alive(t))
      && (Doomed(s) <==> Doomed(t)) && (Fine(s) <==> Fine(t)) && (Checked(s) <==> Checked(t))
      && All(s) == ProjectAll(fields, All(t)) && Left(s) == ProjectAll(fields, Left(t))
  {
    hide AllEvaluable, ProjectAll;
  }

  lemma {:induction false} SelectOpened(p: Plan, t: Scan, pred: Predicate)
    requires Formed(p) && Opened(p, t)
    ensures Opened(SelectPlan(p, pred), Select(t, pred))
  {
    hide AllEvaluable, Filter, All, Left, Fine, Firm, Alive, Doomed, Checked, Ranged, Straight;
    OfSelect(t, pred);
    OverSelect(t, pred);
  }

  lemma {:induction false} ProjectOpened(p: Plan, t: Scan, fields: seq<string>)
    requires Formed(ProjectPlan(p, fields)) && Opened(p, t)
    ensures Opened(ProjectPlan(p, fields), Project(t, fields))
  {
    hide ProjectAll, All, Left, Fine, Firm, Alive, Doomed, Checked, Ranged, Straight;
    OverProject(t, fields);
  }

  lemma {:induction false} NotHollow(s: Scan)
    requires Plain(s) && !Hollow(s)
    ensures Firm(s) && All(s) != []
  {
    hide Cross;
    match s
    case Table(_, _) =>
    case Product(s1, s2) =>
      NotHollow(s1);
      NotHollow(s2);
      CrossSomething(All(s1), All(s2));
  }

  /** A product from the left that has rows can be read. */
  lemma {:induction false} FlatReads(p: Plan)
    requires Formed(p) && Flat(p) && Opens(p) && Denote(p) != []
    ensures Delivers(p)
  {
    if p.ProductPlan? {
      CrossOfNothing(Denote(p.p2));
    }
  }

  /** The product of two opened inputs, the left one moved to its first row if it has one. */
  lemma {:induction false} ProductOpened(p1: Plan, p2: Plan, t1: Scan, u1: Scan, t2: Scan, more: Option<bool>)
    requires Formed(ProductPlan(p1, p2)) && Flat(p1) && Leaf(p2) && Opens(p1) && Opens(p2)
    requires Opened(p1, t1) && Opened(p2, t2) && Moved(t1, u1, more)
    ensures Opened(ProductPlan(p1, p2), Product(u1, t2))
  {
    hide Cross, Pairs, All, Left, Fine;
    var s := Product(u1, t2);
    if Doomed(s) {
      DoomedIs(s);
    }
    AlikeIs(t1, u1);
    PlainIs(u1);
    PlainIs(s);
    OfProduct(u1, t2);
    OfTable(t2);
    if t2.rows == [] {
      CrossNothing(Denote(p1));
      SilentIs(s);
    } else if Denote(p1) == [] {
      CrossOfNothing(Denote(p2));
      if !Hollow(u1) {
        NotHollow(u1);
      }
    } else {
      FlatReads(p1);
      CrossCons(Current(u1), Left(u1), Denote(p2));
    }
    assert Doomed(s) || (Working(s) && Left(s) == All(s) == Denote(ProductPlan(p1, p2)));
    assert Delivers(ProductPlan(p1, p2)) <==> !Doomed(s) && Fine(s);
  }

  lemma {:induction false} OfTable(s: Scan)
    requires s.Table? && s.pos == -1
    ensures All(s) == s.rows == Left(s) && Fine(s) && Firm(s) && Checked(s) && !Doomed(s) && Alive(s)
  {
  }

  /** Every row is copied into a temporary table. */
  method CopyAll(schema: Schema, rows: seq<Row>) returns (copies: Option<seq<Row>>)
    requires Shows(schema, rows)
    ensures copies.Some? <==> AllTyped(schema, rows)
    ensures copies.Some? ==> copies.value == rows
  {
    hide Storable, NameSet;
    for i := 0 to |rows|
      invariant AllTyped(schema, rows[..i])
    {
      var copy := CopyRow(schema, rows[i]);
      if copy.None? {
        return None;
      }
      assert rows[..i + 1] == rows[..i] + [rows[i]];
    }
    assert rows[..|rows|] == rows;
    copies := Some(rows);
  }

  /** The rows of the group a scan shows, as a row. */
  method ResultRow(scan: GroupByScan, ghost g: seq<Row>, ghost fns: seq<AggFn>) returns (r: Row)
    requires g != [] && scan.Shows(g) && |fns| == |scan.aggFns|
    requires forall i :: 0 <= i < |fns| ==> scan.aggFns[i].fn == fns[i]
    ensures r == GroupRow(scan.groupFields, fns, g)
  {
    r := map[];
    var i := |scan.aggFns|;
    while i > 0
      invariant 0 <= i <= |fns| && r == AggRow(fns[i..], g)
    {
      i := i - 1;
      assert fns[i..][1..] == fns[i + 1..];
      r := r[AggName(scan.aggFns[i].fn) := scan.aggFns[i].value];
    }
    assert fns[0..] == fns;
    r := r + map f | f in scan.groupFields :: Val(scan.currentGroup, f);
  }

  method NewAggregations(aggs: seq<AggFn>) returns (objs: seq<Aggregation>)
    ensures |objs| == |aggs| && forall i :: 0 <= i < |aggs| ==> fresh(objs[i]) && objs[i].fn == aggs[i]
    ensures forall i, j :: 0 <= i < j < |objs| ==> objs[i] != objs[j]
  {
    objs := [];
    while |objs| < |aggs|
      invariant |objs| <= |aggs|
      invariant forall i :: 0 <= i < |objs| ==> fresh(objs[i]) && objs[i].fn == aggs[i]
      invariant forall i, j :: 0 <= i < j < |objs| ==> objs[i] != objs[j]
    {
      var a := new Aggregation(aggs[|objs|]);
      objs := objs + [a];
    }
  }

  /** GroupByPlan::open and a scan of its result. */
  method GroupRows(rows: seq<Row>, schema: Schema, group: seq<string>, aggs: seq<AggFn>) returns (out: Option<seq<Row>>)
    requires Shows(schema, rows) && AllNamed(group, schema)
    ensures out.Some? <==> Sortable(schema, group, rows) && AllReadable(aggs, NameSet(schema))
    ensures out.Some? ==> out.value == GroupResult(group, aggs, rows)
  {
    hide SortOf, Groups, SameGroup, Told, AllTyped;
    var src := new Cursor(rows);
    var sorted := SortedRows(src, schema, group);
    if sorted.None? {
      return None;
    }
    SortShows(schema, group, rows);
    SortedSize(group, rows);
    var cursor := new Cursor(sorted.value);
    var objs := NewAggregations(aggs);
    var scan := new GroupByScan(cursor, NameSet(schema), group, objs);
    SomeGroup(group, sorted.value);
    out := DrainGroups(scan, aggs);
  }

  lemma {:induction false} SortedSize(fields: seq<string>, rows: seq<Row>)
    ensures |SortOf(fields, rows)| == |rows|
  {
    hide SortOf, Sorted;
    SortOfCorrect(fields, rows);
    assert |multiset(SortOf(fields, rows))| == |SortOf(fields, rows)| && |multiset(rows)| == |rows|;
  }

  lemma {:induction false} SomeGroup(group: seq<string>, rows: seq<Row>)
    ensures rows != [] ==> Groups(group, rows) != []
  {
    hide SameGroup;
  }

  method DrainGroups(scan: GroupByScan, aggs: seq<AggFn>) returns (result: Option<seq<Row>>)
    requires scan.Valid() && |aggs| == |scan.aggFns| && forall i :: 0 <= i < |aggs| ==> scan.aggFns[i].fn == aggs[i]
    requires scan.Rest() != []
    modifies scan, scan.src, scan.aggFns
    ensures result.Some? <==> AllReadable(aggs, scan.names)
    ensures result.Some? ==> result.value == GroupAll(scan.groupFields, aggs, old(scan.Rest()))
  {
    hide Groups, SameGroup, GroupRow, Fold, Readable;
    var out: seq<Row> := [];
    ghost var rest := scan.Rest();
    assert AllReadable(aggs, scan.names) <==> scan.AggsReadable();
    var more := scan.Next();
    while more.Some? && more.value
      invariant more.Some? <==> scan.AggsReadable()
      invariant more.Some? ==> scan.Valid()
      invariant more.Some? && more.value ==> rest != [] && rest[0] != [] && scan.Shows(rest[0]) && scan.Rest() == rest[1..]
      invariant more.Some? && !more.value ==> rest == []
      invariant out + GroupAll(scan.groupFields, aggs, rest) == GroupAll(scan.groupFields, aggs, old(scan.Rest()))
      decreases |rest|
    {
      var r := ResultRow(scan, rest[0], aggs);
      out := out + [r];
      rest := rest[1..];
      more := scan.Next();
    }
    result := if more.None? then None else Some(out);
  }

  method SortTable(rows: seq<Row>, schema: Schema, sort: seq<string>) returns (out: Option<seq<Row>>)
    requires Shows(schema, rows)
    ensures out.Some? <==> Sortable(schema, sort, rows)
    ensures out.Some? ==> out.value == SortOf(sort, rows)
  {
    var src := new Cursor(rows);
    out := SortedRows(src, schema, sort);
  }

  lemma {:induction false} OpenedReads(p: Plan, s: Scan)
    requires Formed(p) && Opened(p, s)
    ensures Ranged(s) && Straight(s) && (Working(s) || Doomed(s))
    ensures Delivers(p) ==> !Doomed(s) && Fine(s) && Left(s) == Denote(p)
    ensures !Delivers(p) ==> Doomed(s) || !Fine(s)
  {
    hide Fine, Left, All, Denote, Firm, Formed;
    if Doomed(s) {
      DoomedIs(s);
    }
  }

  lemma {:induction false} OpensFirst(p: Plan)
    requires Formed(p)
    ensures Delivers(p) ==> Opens(p)
  {
    match p
    case SelectPlan(q, _) => OpensFirst(q);
    case ProjectPlan(q, _) => OpensFirst(q);
    case _ =>
  }

  /** Opening a plan, then reading it: both go through exactly when nothing in the plan fails, and what is read are
      the plan's rows. */
  method OpenAndRead(p: Plan) returns (rows: Option<seq<Row>>)
    requires Formed(p)
    ensures rows.Some? <==> Delivers(p)
    ensures rows.Some? ==> rows.value == Denote(p)
    decreases p, 1
  {
    hide Denote, SchemaOf, All, Left, Fine, Doomed, Formed, Opened, Delivers, Opens, Firm, Checked, Ranged, Straight;
    OpensFirst(p);
    var s := Open(p);
    if s.None? {
      return None;
    }
    OpenedReads(p, s.value);
    rows := ReadAll(s.value);
  }

  /** Opening a plan gives a scan that delivers exactly the plan's rows. */
  method Open(p: Plan) returns (s: Option<Scan>)
    requires Formed(p)
    ensures s.Some? <==> Opens(p)
    ensures s.Some? ==> Opened(p, s.value)
    decreases p, 0
  {
    hide Pairs, Cross, Joined, Filter, ProjectAll, GroupResult, SortOf, All, Left, Current, Told, AllTyped, Opened;
    match p
    case TablePlan(table) =>
      s := Some(Table(table.rows, -1));
      TableOpened(p, table.rows);
    case MaterializePlan(q) =>
      s := OpenTemp(p, q);
    case ProductPlan(p1, p2) =>
      var t1 := Open(p1);
      if t1.None? {
        return None;
      }
      var t2 := Open(p2);
      if t2.None? {
        return None;
      }
      OpenedAskable(p1, t1.value);
      var more, u1 := Next(t1.value);
      s := Some(Product(u1, t2.value));
      ProductOpened(p1, p2, t1.value, u1, t2.value, more);
    case SelectPlan(q, pred) =>
      var t := Open(q);
      if t.None? {
        return None;
      }
      s := Some(Select(t.value, pred));
      SelectOpened(q, t.value, pred);
    case ProjectPlan(q, fields) =>
      var t := Open(q);
      if t.None? {
        return None;
      }
      s := Some(Project(t.value, fields));
      ProjectOpened(q, t.value, fields);
    case GroupByPlan(q, group, aggs) =>
      s := OpenTemp(p, q);
    case SortPlan(q, sort) =>
      s := OpenTemp(p, q);
  }

  lemma {:induction false} OpenedAskable(p: Plan, s: Scan)
    requires Formed(p) && Flat(p) && Opened(p, s)
    ensures Askable(s)
  {
  }

  /** The plans that read their input when they are opened. */
  method OpenTemp(p: Plan, q: Plan) returns (s: Option<Scan>)
    requires Formed(p) && (p.MaterializePlan? || p.GroupByPlan? || p.SortPlan?) && q == p.p
    ensures s.Some? <==> Opens(p)
    ensures s.Some? ==> Opened(p, s.value)
    decreases q, 2
  {
    hide GroupResult, SortOf, Told, AllTyped, Opened, Readable;
    var input := OpenAndRead(q);
    if input.None? {
      return None;
    }
    PlanShows(q);
    var rows;
    match p {
      case MaterializePlan(_) => rows := CopyAll(SchemaOf(q), input.value);
      case GroupByPlan(_, group, aggs) => rows := GroupRows(input.value, SchemaOf(q), group, aggs);
      case SortPlan(_, sort) => rows := SortTable(input.value, SchemaOf(q), sort);
    }
    if rows.None? {
      return None;
    }
    s := Some(Table(rows.value, -1));
    TableOpened(p, rows.value);
  }
}

/** Queries that the parser and the schemas allow and the planner or the plans fail on. */
module PlannerFailures {
  import opened Rows
  import opened Schemas
  import opened Predicates
  import opened Sort
  import opened GroupBy
  import opened Plans
  import opened Typing
  import opened Planner
  import opened QueryDatas

  /** A query on one table: select fields from table group by group order by sort. */
  function Simple(fields: seq<string>, table: string, group: seq<string>, sort: seq<string>): QueryData {
    QueryData(fields, [table], [], [], group, sort)
  }

  lemma {:induction false} OneTableAggs(db: Db, t: string)
    requires t in db
    ensures TableAggs(db, [t]) == FieldAggs(db[t].schema, |db[t].schema|)
  {
    hide FieldAggs;
    assert [t][..0] == [];
  }

  lemma {:induction false} TwoFieldAggs(s: Schema, f: string, g: string)
    requires |s| == 2 && s[0] == (f, INTEGER) && s[1].0 == g && f != g
    ensures FieldAggs(s, 2) == [Max(f), Min(f), Sum(f)] + [Max(g), Min(g)] + if s[1].1 == INTEGER then [Sum(g)] else []
  {
    assert IndexOf(s, f) == 0 && IndexOf(s, g) == 1;
    assert FieldAggs(s, 0) == [];
    assert FieldAggs(s, 1) == [Max(f), Min(f), Sum(f)];
  }

  /** What a grouped query on a table of two fields can ask for. */
  lemma {:induction false} SimplePlannable(db: Db, fields: seq<string>, t: string, g: string, sort: seq<string>)
    requires t in db && Names(db[t].schema, g)
    requires forall i :: 0 <= i < |fields| ==>
               fields[i] == g || exists k :: 0 <= k < |TableAggs(db, [t])| && fields[i] == AggName(TableAggs(db, [t])[k])
    ensures var q := Simple(fields, t, [g], sort); Known(db, q) && AggsAfter(db, q) == TableAggs(db, [t]) + [Count] && Plannable(db, q)
  {
    hide TableAggs, AggName;
    var q := Simple(fields, t, [g], sort);
    assert Known(db, q);
    assert InputSchemas(db, q) == [db[t].schema];
    var s, aggs := GroupedSchema(db, q), TableAggs(db, [t]) + [Count];
    forall i | 0 <= i < |fields| ensures Names(s, fields[i]) {
      if fields[i] == g {
        assert s[0].0 == g;
      } else {
        var k :| 0 <= k < |TableAggs(db, [t])| && fields[i] == AggName(TableAggs(db, [t])[k]);
        assert s[1 + k].0 == AggName(aggs[k]);
      }
    }
  }

  /** A grouped query whose last subquery is an ungrouped query on tables has its group fields and the count. */
  lemma {:induction false} CountOnly(db: Db, q: QueryData, inner: QueryData, f: string)
    requires Known(db, q) && q.subqueries == [inner] && inner.subqueries == [] && inner.group == [] && q.group != []
    requires f in q.fields && f != "count" && f !in q.group
    ensures AggsAfter(db, q) == [Count] && !Plannable(db, q)
  {
    hide TableAggs, InputSchemas, JoinSchemas, Sub, AggSchema, Names, TypeOf, IndexOf;
    assert AggsAfter(db, inner) == [];
    assert AggsAfter(db, q) == [Count];
    if Plannable(db, inner) && AllNamed(q.group, InSchema(db, q)) {
      NotAfterGrouping(q.group, InSchema(db, q), f);
    }
  }

  lemma {:induction false} NotAfterGrouping(group: seq<string>, s: Schema, f: string)
    requires AllNamed(group, s) && f !in group && f != "count"
    ensures !Names(Sub(group, s) + AggSchema([Count]), f)
  {
    SubTypes(group, s, f);
    BothTypes(Sub(group, s), AggSchema([Count]), f);
  }

  /** A subquery loses the aggregates of the query's own table: without it the query can be planned. */
  lemma {:induction false} LostAggregates(db: Db)
    requires "t" in db && db["t"].schema == [("a", INTEGER), ("b", INTEGER)]
    requires "u" in db && db["u"].schema == [("c", INTEGER)]
    ensures var inner := QueryData(["c"], ["u"], [], [], [], []);
      var q := QueryData(["maxb"], ["t"], [inner], [], ["a"], []);
      && Known(db, q) && AggsAfter(db, q) == [Count] && !Plannable(db, q)
      && Known(db, Simple(["maxb"], "t", ["a"], [])) && Plannable(db, Simple(["maxb"], "t", ["a"], []))
  {
    hide TableAggs, FieldAggs, Plannable, AggsAfter;
    var inner := QueryData(["c"], ["u"], [], [], [], []);
    var q := QueryData(["maxb"], ["t"], [inner], [], ["a"], []);
    assert Known(db, inner) && Known(db, q);
    assert q.fields[0] == "maxb" && |"maxb"| != |"count"| && |"maxb"| != |"a"|;
    CountOnly(db, q, inner, "maxb");
    TwoFieldAggs(db["t"].schema, "a", "b");
    OneTableAggs(db, "t");
    assert TableAggs(db, ["t"])[3] == Max("b") && AggName(Max("b")) == "maxb";
    assert db["t"].schema[0].0 == "a";
    SimplePlannable(db, ["maxb"], "t", "a", []);
  }

  lemma {:induction false} NotReadable(db: Db, q: QueryData, k: nat)
    requires Known(db, q) && Plannable(db, q) && q.group != [] && k < |AggsAfter(db, q)|
    requires !Readable(AggsAfter(db, q)[k], NameSet(InSchema(db, q)))
    ensures !Succeeds(db, q)
  {
    hide AggsAfter, InSchema, OutSchema, Readable, Sortable, Selected, SubqueriesRun, Plannable, Projection, InputsMatch, Inputs;
  }

  /** What a query over a one-column subquery can ask for. */
  lemma {:induction false} OverSubquery(db: Db, inner: QueryData, g: string, f: string, k: nat)
    requires Known(db, inner) && Plannable(db, inner) && inner.fields == [g]
    requires k < |AggsAfter(db, inner)| && f == AggName(AggsAfter(db, inner)[k])
    ensures var q := QueryData([g, f], [], [inner], [], [g], []);
      Known(db, q) && AggsAfter(db, q) == AggsAfter(db, inner) + [Count] && Plannable(db, q) && NameSet(InSchema(db, q)) == {g}
  {
    hide GroupedSchema, AggName, AggSchema, TypeOf, IndexOf, TableAggs;
    var q := QueryData([g, f], [], [inner], [], [g], []);
    assert Known(db, q);
    var out := OutSchema(db, inner);
    assert InputSchemas(db, q) == [out];
    SubNames([g], GroupedSchema(db, inner));
    assert InSchema(db, q) == out;
    assert Names(out, g) && AllNamed(q.group, out);
    GroupedNames(db, q, k);
  }

  /** Group fields and aggregates are there after grouping. */
  lemma {:induction false} GroupedNames(db: Db, q: QueryData, k: nat)
    requires Known(db, q) && forall i :: 0 <= i < |q.subqueries| ==> Plannable(db, q.subqueries[i])
    requires q.group != [] && AllNamed(q.group, InSchema(db, q)) && k < |AggsAfter(db, q)|
    ensures Names(GroupedSchema(db, q), AggName(AggsAfter(db, q)[k]))
    ensures forall i :: 0 <= i < |q.group| ==> Names(GroupedSchema(db, q), q.group[i])
  {
    hide AggName, AggsAfter, InSchema, Known;
    var s, aggs := GroupedSchema(db, q), AggsAfter(db, q);
    assert s[|q.group| + k].0 == AggName(aggs[k]);
    forall i | 0 <= i < |q.group| ensures Names(s, q.group[i]) {
      assert s[i].0 == q.group[i];
    }
  }

  /** And leaves its own behind: the outer grouping asks its input for a field that only the inner one had. */
  lemma {:induction false} LeakedAggregates(db: Db)
    requires "t" in db && db["t"].schema == [("a", INTEGER), ("b", INTEGER)]
    ensures var inner := Simple(["a"], "t", ["a"], []);
      var q := QueryData(["a", "maxb"], [], [inner], [], ["a"], []);
      Known(db, q) && Plannable(db, q) && !Succeeds(db, q)
  {
    hide TableAggs, FieldAggs, AggsAfter, Known, Plannable, Succeeds, OutSchema, InSchema;
    var inner := Simple(["a"], "t", ["a"], []);
    TwoFieldAggs(db["t"].schema, "a", "b");
    OneTableAggs(db, "t");
    assert TableAggs(db, ["t"])[3] == Max("b") && AggName(Max("b")) == "maxb";
    assert db["t"].schema[0].0 == "a";
    SimplePlannable(db, ["a"], "t", "a", []);
    OverSubquery(db, inner, "a", "maxb", 3);
    NotReadable(db, QueryData(["a", "maxb"], [], [inner], [], ["a"], []), 3);
  }

  /** A column that is for one kind and gets values of the other cannot be sorted. */
  lemma {:induction false} WrongColumn(db: Db, q: QueryData, ty: Types, f: string)
    requires Known(db, q) && Plannable(db, q) && q.sort != [] && AllHave(Projection(db, q), ty)
    requires f in ty && Names(OutSchema(db, q), f) && !SameKinds(ty[f], TypeOf(OutSchema(db, q), f))
    ensures !Succeeds(db, q)
  {
    hide Projection, OutSchema, Told;
    assert f in NameSet(OutSchema(db, q));
    assert Projection(db, q) != [] ==> HasTypes(Projection(db, q)[0], ty);
  }

  /** Of two aggregates of one name the first one's type counts. */
  lemma {:induction false} AggTypeIs(aggs: seq<AggFn>, k: nat, ty: Types)
    requires AllReadable(aggs, ty.Keys) && k < |aggs| && forall j :: 0 <= j < k ==> AggName(aggs[j]) != AggName(aggs[k])
    ensures AggName(aggs[k]) in AggTypes(aggs, ty) && AggTypes(aggs, ty)[AggName(aggs[k])] == AggType(aggs[k], ty)
  {
    hide AggName, AggType, Readable;
    if k > 0 {
      assert forall i :: 0 <= i < |aggs| - 1 ==> aggs[1..][i] == aggs[i + 1];
      AggTypeIs(aggs[1..], k - 1, ty);
    }
  }

  /** The input of a query on one table without conditions. */
  lemma {:induction false} SimpleInput(db: Db, fields: seq<string>, t: string, group: seq<string>, sort: seq<string>)
    requires t in db
    ensures var q := Simple(fields, t, group, sort);
      && Known(db, q) && InputSchemas(db, q) == [db[t].schema] && InSchema(db, q) == db[t].schema
      && Selected(db, q) == Filter([], db[t].rows)
  {
    var q := Simple(fields, t, group, sort);
    assert Inputs(db, q) == [db[t].rows];
  }

  lemma {:induction false} GroupedHave(db: Db, fields: seq<string>, t: string, g: string, sort: seq<string>, ty: Types)
    requires t in db && AllHave(db[t].rows, ty) && g in ty && AllReadable(TableAggs(db, [t]) + [Count], ty.Keys)
    ensures var aggs := TableAggs(db, [t]) + [Count];
      AllHave(Projection(db, Simple(fields, t, [g], sort)), Restrict(AggTypes(aggs, ty) + Restrict(ty, [g]), fields))
  {
    hide TableAggs, GroupResult, AllHave, AllReadable, AggTypes, Restrict, ProjectAll, Filter, Selected, InputSchemas, InSchema;
    var q, aggs := Simple(fields, t, [g], sort), TableAggs(db, [t]) + [Count];
    SimpleInput(db, fields, t, [g], sort);
    assert AggsAfter(db, q) == aggs;
    FilterHave([], db[t].rows, ty);
    GroupResultHave([g], aggs, Selected(db, q), ty);
    ProjectHave(fields, GroupResult([g], aggs, Selected(db, q)), AggTypes(aggs, ty) + Restrict(ty, [g]));
  }

  /** Sorting by an aggregate that is no integer: its place in the temporary table is for an integer. */
  lemma {:induction false} WrongAggregate(db: Db, t: string, g: string, ty: Types, k: nat)
    requires t in db && AllHave(db[t].rows, ty) && g in ty && Names(db[t].schema, g)
    requires AllReadable(TableAggs(db, [t]) + [Count], ty.Keys) && k < |TableAggs(db, [t])|
    requires AggName(TableAggs(db, [t])[k]) != g && Readable(TableAggs(db, [t])[k], ty.Keys)
    requires !SameKinds(AggType(TableAggs(db, [t])[k], ty), INTEGER)
    requires forall j :: 0 <= j < k ==> AggName(TableAggs(db, [t])[j]) != AggName(TableAggs(db, [t])[k])
    ensures var f := AggName(TableAggs(db, [t])[k]);
      var q := Simple([f], t, [g], [f]); Known(db, q) && Plannable(db, q) && !Succeeds(db, q)
  {
    hide TableAggs, GroupResult, AllHave, AllReadable, AggTypes, AggType, AggName, AggSchema, Projection, Succeeds, SameKinds;
    hide JoinSchemas, Plannable, AllNamed, TypeOf, InputSchemas, AggsAfter, IndexOf, Names;
    var aggs := TableAggs(db, [t]) + [Count];
    var f := AggName(aggs[k]);
    var q := Simple([f], t, [g], [f]);
    SimplePlannable(db, [f], t, g, [f]);
    SimpleInput(db, [f], t, [g], [f]);
    GroupedHave(db, [f], t, g, [f], ty);
    AggTypeIs(aggs, k, ty);
    OutIs(db, q, k);
    WrongColumn(db, q, Restrict(AggTypes(aggs, ty) + Restrict(ty, [g]), [f]), f);
  }

  lemma {:induction false} OutIs(db: Db, q: QueryData, k: nat)
    requires Known(db, q) && Plannable(db, q) && q.group != [] && k < |AggsAfter(db, q)|
    requires q.fields == [AggName(AggsAfter(db, q)[k])]
    ensures Names(OutSchema(db, q), q.fields[0]) && TypeOf(OutSchema(db, q), q.fields[0]) == INTEGER
  {
    hide InSchema, AggSchema, TypeOf, AggsAfter, Known, IndexOf;
    AggregateColumn(GroupedSchema(db, q), Sub(q.group, InSchema(db, q)), AggsAfter(db, q), k);
    SubTypes(q.fields, GroupedSchema(db, q), q.fields[0]);
  }

  /** The maximum of a string column is such an aggregate. */
  lemma {:induction false} StringMaximum(db: Db, n: nat)
    requires "t" in db && db["t"].schema == [("dept", INTEGER), ("name", VARCHAR(n))]
    requires AllHave(db["t"].rows, SchemaTypes(db["t"].schema))
    ensures var q := Simple(["maxname"], "t", ["dept"], ["maxname"]); Known(db, q) && Plannable(db, q) && !Succeeds(db, q)
  {
    hide TableAggs, FieldAggs, AllHave, Plannable, Succeeds, Known;
    var s := db["t"].schema;
    TwoFieldAggs(s, "dept", "name");
    OneTableAggs(db, "t");
    var aggs := TableAggs(db, ["t"]);
    assert aggs == [Max("dept"), Min("dept"), Sum("dept"), Max("name"), Min("name")];
    assert s[0].0 == "dept" && s[1].0 == "name" && IndexOf(s, "name") == 1;
    assert AggName(aggs[3]) == "maxname";
    assert AggName(aggs[0])[3] == 'd' && AggName(aggs[1])[3] == 'd' && AggName(aggs[2])[3] == 'd' && "maxname"[3] == 'n';
    WrongAggregate(db, "t", "dept", SchemaTypes(s), 3);
  }

  lemma {:induction false} AggregateColumn(s: Schema, group: Schema, aggs: seq<AggFn>, k: nat)
    requires s == group + AggSchema(aggs) && k < |aggs|
    ensures Names(s, AggName(aggs[k])) && TypeOf(s, AggName(aggs[k])) == INTEGER
  {
    hide AggName;
    var f := AggName(aggs[k]);
    assert AggSchema(aggs)[k].0 == f;
    BothTypes(group, AggSchema(aggs), f);
  }

  /** A field that both sides of a product have, with values of the left side and the column of the right one. */
  lemma {:induction false} SharedColumn(db: Db, n: nat)
    requires "t" in db && db["t"].schema == [("f", INTEGER)] && AllHave(db["t"].rows, SchemaTypes(db["t"].schema))
    requires "u" in db && db["u"].schema == [("f", VARCHAR(n))] && AllHave(db["u"].rows, SchemaTypes(db["u"].schema))
    ensures var q := QueryData(["f"], ["t", "u"], [], [], [], ["f"]); Known(db, q) && Plannable(db, q) && !Succeeds(db, q)
  {
    hide AllHave, Projection, Succeeds, InSchema, Selected, Plannable;
    var q := QueryData(["f"], ["t", "u"], [], [], [], ["f"]);
    var s, z := db["t"].schema, db["u"].schema;
    assert s[0].0 == "f" && z[0].0 == "f";
    TwoTables(db, q, "t", "u", "f");
    assert OutSchema(db, q) == Sub(["f"], InSchema(db, q));
    SubTypes(["f"], InSchema(db, q), "f");
    WrongColumn(db, q, Restrict(SchemaTypes(z) + SchemaTypes(s), ["f"]), "f");
  }

  /** A field of the right one of two tables has its type there, and the rows have the left one's values. */
  lemma {:induction false} TwoTables(db: Db, q: QueryData, t: string, u: string, f: string)
    requires t in db && u in db && AllHave(db[t].rows, SchemaTypes(db[t].schema)) && AllHave(db[u].rows, SchemaTypes(db[u].schema))
    requires Names(db[u].schema, f) && q == QueryData([f], [t, u], [], [], [], [f])
    ensures Known(db, q) && Names(InSchema(db, q), f) && TypeOf(InSchema(db, q), f) == TypeOf(db[u].schema, f)
    ensures Plannable(db, q)
    ensures AllHave(Projection(db, q), Restrict(SchemaTypes(db[u].schema) + SchemaTypes(db[t].schema), [f]))
  {
    hide AllHave, ProjectAll, Filter, Cross, Restrict, SchemaTypes, TypeOf, CrossAll, JoinSchemas, Whole;
    var s, z := db[t], db[u];
    assert Known(db, q);
    assert InputSchemas(db, q) == [s.schema, z.schema];
    assert Inputs(db, q) == [s.rows, z.rows];
    JoinTwo(s.schema, z.schema);
    CrossTwo(s.rows, z.rows);
    WholeTypes(z.schema, f);
    BothTypes(Whole(s.schema), Whole(z.schema), f);
    var ty := SchemaTypes(z.schema) + SchemaTypes(s.schema);
    CrossHave(s.rows, z.rows, SchemaTypes(s.schema), SchemaTypes(z.schema));
    FilterHave([], Cross(s.rows, z.rows), ty);
    ProjectHave([f], Selected(db, q), ty);
  }

  lemma {:induction false} JoinTwo(s: Schema, t: Schema)
    ensures JoinSchemas([s, t]) == Whole(s) + Whole(t)
  {
    assert [s, t][..1] == [s];
  }

  lemma {:induction false} CrossTwo(a: seq<Row>, b: seq<Row>)
    ensures CrossAll([a, b]) == Cross(a, b)
  {
    assert [a, b][1..] == [b];
  }

  lemma {:induction false} WholeTypes(s: Schema, f: string)
    requires Names(s, f)
    ensures Names(Whole(s), f) && TypeOf(Whole(s), f) == TypeOf(s, f)
  {
    SubTypes(FieldNames(s), s, f);
  }

  /** Sorting by a field that is not selected goes through for one row only. */
  lemma {:induction false} UnselectedSort(db: Db)
    requires "t" in db && db["t"].schema == [("a", INTEGER), ("b", INTEGER)] && AllHave(db["t"].rows, SchemaTypes(db["t"].schema))
    ensures var q := Simple(["a"], "t", [], ["b"]); Known(db, q) && Plannable(db, q) && (Succeeds(db, q) <==> |db["t"].rows| == 1)
  {
    hide AllHave, ProjectAll, Filter, Sub, AggsAfter, JoinSchemas, Tells, Storable;
    var q := Simple(["a"], "t", [], ["b"]);
    var s, rows := db["t"].schema, db["t"].rows;
    assert s[0].0 == "a" && IndexOf(s, "a") == 0;
    SimpleInput(db, ["a"], "t", [], ["b"]);
    assert Plannable(db, q);
    var out := OutSchema(db, q);
    FilterHave([], rows, SchemaTypes(s));
    ProjectHave(["a"], Filter([], rows), SchemaTypes(s));
    SameSize(["a"], rows);
    var delivered := Projection(db, q);
    SubNames(["a"], s);
    SubTypes(["a"], s, "a");
    RowsStorable(delivered, Restrict(SchemaTypes(s), ["a"]), out);
    assert KnownPrefix(["b"], NameSet(out)) == [];
    NothingTells(["b"], NameSet(out), delivered);
    RowsEvaluable([], rows, SchemaTypes(s));
  }

  lemma {:induction false} SameSize(fields: seq<string>, rows: seq<Row>)
    ensures |ProjectAll(fields, Filter([], rows))| == |rows|
  {
    if rows != [] {
      SameSize(fields, rows[1..]);
      assert Holds([], rows[0]);
      FilterCons([], rows[0], rows[1..]);
    }
  }

  lemma {:induction false} NothingTells(fields: seq<string>, names: set<string>, rows: seq<Row>)
    requires fields != [] && KnownPrefix(fields, names) == []
    ensures Told(fields, names, rows) <==> |rows| < 2
  {
    if |rows| >= 2 {
      assert !Tells(fields, names, rows[0], rows[1]);
    }
  }
}

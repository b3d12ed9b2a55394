/** The planner (src/plan/BasicQueryPlanner.cpp). There is no plan where a plan's constructor throws. */
module Planner {
  import opened Options
  import opened Rows
  import opened Schemas
  import opened Predicates
  import opened Sort
  import opened GroupBy
  import opened Query
  import opened Plans
  import opened QueryDatas

  type Db = map<string, TableInfo>

  /** Each stored row has the fields of its table. */
  predicate Stored(db: Db) {
    forall t :: t in db ==> forall i :: 0 <= i < |db[t].rows| ==> db[t].rows[i].Keys == NameSet(db[t].schema)
  }

  predicate Known(db: Db, q: QueryData) {
    && (forall i :: 0 <= i < |q.tables| ==> q.tables[i] in db)
    && (forall i :: 0 <= i < |q.subqueries| ==> Known(db, q.subqueries[i]))
    && |q.tables| + |q.subqueries| > 0
  }

  // ---------------------------------------------------------------- the list of aggregates

  /** The aggregates every grouped query computes over the first k fields of a table. */
  function FieldAggs(s: Schema, k: nat): seq<AggFn>
    requires k <= |s|
  {
    if k == 0 then []
    else
      var f := s[k - 1].0;
      FieldAggs(s, k - 1) + [Max(f), Min(f)] + if TypeOf(s, f) == INTEGER then [Sum(f)] else []
  }

  function TableAggs(db: Db, tables: seq<string>): seq<AggFn>
    requires forall i :: 0 <= i < |tables| ==> tables[i] in db
  {
    if tables == [] then []
    else
      var s := db[tables[|tables| - 1]].schema;
      TableAggs(db, tables[..|tables| - 1]) + FieldAggs(s, |s|)
  }

  /** The planner's list of aggregates when it is done with q: creating the plan of a subquery starts the list
      anew. */
  function AggsAfter(db: Db, q: QueryData): seq<AggFn>
    requires Known(db, q)
  {
    (if q.subqueries != [] then AggsAfter(db, q.subqueries[|q.subqueries| - 1])
     else if q.group != [] then TableAggs(db, q.tables)
     else [])
    + if q.group != [] then [Count] else []
  }

  lemma {:induction false} NoCountInFields(s: Schema, k: nat)
    requires k <= |s|
    ensures Count !in FieldAggs(s, k)
  {
    if k > 0 {
      NoCountInFields(s, k - 1);
    }
  }

  lemma {:induction false} NoCountInTables(db: Db, tables: seq<string>)
    requires forall i :: 0 <= i < |tables| ==> tables[i] in db
    ensures Count !in TableAggs(db, tables)
  {
    if tables != [] {
      var s := db[tables[|tables| - 1]].schema;
      NoCountInTables(db, tables[..|tables| - 1]);
      NoCountInFields(s, |s|);
    }
  }

  lemma {:induction false} NothingOrCount(db: Db, q: QueryData)
    requires Known(db, q)
    ensures AggsAfter(db, q) == [] || Count in AggsAfter(db, q)
  {
    hide TableAggs;
    if q.group == [] && q.subqueries != [] {
      NothingOrCount(db, q.subqueries[|q.subqueries| - 1]);
    }
  }

  /** A grouped query over tables computes their aggregates and the count exactly when it has no subquery. */
  lemma {:induction false} KeepsAggregates(db: Db, q: QueryData)
    requires Known(db, q) && q.group != [] && TableAggs(db, q.tables) != []
    ensures AggsAfter(db, q) == TableAggs(db, q.tables) + [Count] <==> q.subqueries == []
  {
    hide TableAggs;
    if q.subqueries != [] {
      var own, left := TableAggs(db, q.tables), AggsAfter(db, q.subqueries[|q.subqueries| - 1]);
      assert (own + [Count])[..|own|] == own && (left + [Count])[..|left|] == left;
      NothingOrCount(db, q.subqueries[|q.subqueries| - 1]);
      NoCountInTables(db, q.tables);
    }
  }

  // ---------------------------------------------------------------- what a query means

  /** The cross product of several inputs, the first one changing slowest. */
  function CrossAll(inputs: seq<seq<Row>>): seq<Row>
    requires inputs != []
  {
    if |inputs| == 1 then inputs[0] else Cross(inputs[0], CrossAll(inputs[1..]))
  }

  function TableRows(db: Db, tables: seq<string>): (r: seq<seq<Row>>)
    requires forall i :: 0 <= i < |tables| ==> tables[i] in db
    ensures |r| == |tables|
  {
    seq(|tables|, i requires 0 <= i < |tables| => db[tables[i]].rows)
  }

  function Inputs(db: Db, q: QueryData): (r: seq<seq<Row>>)
    requires Known(db, q)
    ensures r != []
    decreases q, 0
  {
    TableRows(db, q.tables) + seq(|q.subqueries|, i requires 0 <= i < |q.subqueries| => Answer(db, q.subqueries[i]))
  }

  /** The rows that satisfy the predicate, before grouping. */
  function Selected(db: Db, q: QueryData): seq<Row>
    requires Known(db, q)
    decreases q, 1
  {
    Filter(q.pred, CrossAll(Inputs(db, q)))
  }

  /** What the query means. */
  function Answer(db: Db, q: QueryData): seq<Row>
    requires Known(db, q)
    decreases q, 2
  {
    var grouped := if q.group == [] then Selected(db, q) else GroupResult(q.group, AggsAfter(db, q), Selected(db, q));
    var projected := ProjectAll(q.fields, grouped);
    if q.sort == [] then projected else SortOf(q.sort, projected)
  }

  // ---------------------------------------------------------------- which queries can be planned

  /** The schema of a product from the left. */
  function JoinSchemas(ss: seq<Schema>): Schema
    requires ss != []
  {
    if |ss| == 1 then ss[0] else Whole(JoinSchemas(ss[..|ss| - 1])) + Whole(ss[|ss| - 1])
  }

  function InputSchemas(db: Db, q: QueryData): (ss: seq<Schema>)
    requires Known(db, q) && forall i :: 0 <= i < |q.subqueries| ==> Plannable(db, q.subqueries[i])
    ensures |ss| == |q.tables| + |q.subqueries|
    decreases q, 0
  {
    seq(|q.tables|, i requires 0 <= i < |q.tables| => db[q.tables[i]].schema)
    + seq(|q.subqueries|, i requires 0 <= i < |q.subqueries| => OutSchema(db, q.subqueries[i]))
  }

  function InSchema(db: Db, q: QueryData): Schema
    requires Known(db, q) && forall i :: 0 <= i < |q.subqueries| ==> Plannable(db, q.subqueries[i])
    decreases q, 1
  {
    JoinSchemas(InputSchemas(db, q))
  }

  function GroupedSchema(db: Db, q: QueryData): Schema
    requires Known(db, q) && forall i :: 0 <= i < |q.subqueries| ==> Plannable(db, q.subqueries[i])
    requires AllNamed(q.group, InSchema(db, q))
    decreases q, 2
  {
    if q.group == [] then InSchema(db, q) else Sub(q.group, InSchema(db, q)) + AggSchema(AggsAfter(db, q))
  }

  /** Group fields are fields of the inputs, and the fields asked for are among what there is after grouping. */
  predicate Plannable(db: Db, q: QueryData)
    requires Known(db, q)
    decreases q, 3
  {
    && (forall i :: 0 <= i < |q.subqueries| ==> Plannable(db, q.subqueries[i]))
    && AllNamed(q.group, InSchema(db, q)) && AllNamed(q.fields, GroupedSchema(db, q))
  }

  function OutSchema(db: Db, q: QueryData): Schema
    requires Known(db, q) && Plannable(db, q)
    decreases q, 4
  {
    Sub(q.fields, GroupedSchema(db, q))
  }

  // ---------------------------------------------------------------- which queries run

  /** A product of the inputs announces a right row without a left one exactly when this does not hold. */
  predicate InputsMatch(inputs: seq<seq<Row>>)
    requires inputs != []
  {
    inputs[|inputs| - 1] == [] || forall i :: 0 <= i < |inputs| ==> inputs[i] != []
  }

  /** What the query delivers before it is sorted. */
  function Projection(db: Db, q: QueryData): seq<Row>
    requires Known(db, q)
  {
    ProjectAll(q.fields, if q.group == [] then Selected(db, q) else GroupResult(q.group, AggsAfter(db, q), Selected(db, q)))
  }

  /** Subqueries run and their rows fit the temporary tables they are put in. */
  ghost predicate SubqueriesRun(db: Db, q: QueryData)
    requires Known(db, q) && Plannable(db, q)
    decreases q, 0
  {
    forall i :: 0 <= i < |q.subqueries| ==>
      Succeeds(db, q.subqueries[i]) && AllTyped(OutSchema(db, q.subqueries[i]), Answer(db, q.subqueries[i]))
  }

  /** Running the query meets no failing step: inputs, conditions, what is sorted or grouped, and the fields of the
      aggregates. */
  ghost predicate Succeeds(db: Db, q: QueryData)
    requires Known(db, q) && Plannable(db, q)
    decreases q, 1
  {
    && SubqueriesRun(db, q)
    && InputsMatch(Inputs(db, q))
    && AllEvaluable(q.pred, CrossAll(Inputs(db, q)))
    && (q.group != [] ==> Sortable(InSchema(db, q), q.group, Selected(db, q)) && AllReadable(AggsAfter(db, q), NameSet(InSchema(db, q))))
    && (q.sort != [] ==> Sortable(OutSchema(db, q), q.sort, Projection(db, q)))
  }

  // ---------------------------------------------------------------- creating plans

  /** The plan stands for the query: its rows, its schema, and whether it runs. */
  ghost predicate Planned(db: Db, q: QueryData, plan: Plan)
    requires Known(db, q) && Plannable(db, q)
  {
    Formed(plan) && Denote(plan) == Answer(db, q) && SchemaOf(plan) == OutSchema(db, q) && (Delivers(plan) <==> Succeeds(db, q))
  }

  method TablePlans(db: Db, q: QueryData) returns (plans: seq<Plan>, aggs: seq<AggFn>)
    requires forall i :: 0 <= i < |q.tables| ==> q.tables[i] in db
    ensures |plans| == |q.tables| && forall i :: 0 <= i < |plans| ==> plans[i] == TablePlan(db[q.tables[i]])
    ensures aggs == if q.group != [] then TableAggs(db, q.tables) else []
  {
    hide FieldAggs;
    plans, aggs := [], [];
    var i := 0;
    while i < |q.tables|
      invariant 0 <= i <= |q.tables| && |plans| == i
      invariant forall k :: 0 <= k < i ==> plans[k] == TablePlan(db[q.tables[k]])
      invariant aggs == if q.group != [] then TableAggs(db, q.tables[..i]) else []
    {
      var info := db[q.tables[i]];
      plans := plans + [TablePlan(info)];
      assert q.tables[..i + 1][..i] == q.tables[..i];
      if |q.group| > 0 {
        var more := AggsOf(info.schema);
        aggs := aggs + more;
      }
      i := i + 1;
    }
    assert q.tables[..i] == q.tables;
  }

  method AggsOf(s: Schema) returns (aggs: seq<AggFn>)
    ensures aggs == FieldAggs(s, |s|)
  {
    aggs := [];
    for k := 0 to |s|
      invariant aggs == FieldAggs(s, k)
    {
      var f := s[k].0;
      aggs := aggs + [Max(f)];
      aggs := aggs + [Min(f)];
      if TypeOf(s, f) == INTEGER {
        aggs := aggs + [Sum(f)];
      }
    }
  }

  lemma {:induction false} CrossAllLast(inputs: seq<seq<Row>>)
    requires |inputs| > 1
    ensures CrossAll(inputs) == Cross(CrossAll(inputs[..|inputs| - 1]), inputs[|inputs| - 1])
  {
    var n := |inputs| - 1;
    if n > 1 {
      assert inputs[1..][..n - 1] == inputs[1..n] && inputs[..n][1..] == inputs[1..n];
      CrossAllLast(inputs[1..]);
      CrossAssoc(inputs[0], CrossAll(inputs[1..n]), inputs[n]);
    }
  }

  lemma {:induction false} CrossAllRows(inputs: seq<seq<Row>>)
    requires inputs != [] && forall i :: 0 <= i < |inputs| ==> inputs[i] != []
    ensures CrossAll(inputs) != []
  {
    if |inputs| > 1 {
      CrossAllRows(inputs[1..]);
      CrossSomething(inputs[0], CrossAll(inputs[1..]));
    }
  }

  /** A product has rows only if every input has. */
  lemma {:induction false} CrossAllNone(inputs: seq<seq<Row>>)
    requires inputs != [] && CrossAll(inputs) != []
    ensures forall i :: 0 <= i < |inputs| ==> inputs[i] != []
  {
    if |inputs| > 1 {
      if CrossAll(inputs[1..]) == [] {
        CrossNothing(inputs[0]);
      }
      CrossAllNone(inputs[1..]);
      forall i | 0 <= i < |inputs| ensures inputs[i] != [] {
        assert i > 0 ==> inputs[1..][i - 1] == inputs[i];
      }
    }
  }

  /** The plans stand for these inputs. */
  ghost predicate PlansFor(plans: seq<Plan>, inputs: seq<seq<Row>>, schemas: seq<Schema>) {
    |plans| == |inputs| == |schemas| && forall i :: 0 <= i < |plans| ==>
      Leaf(plans[i]) && Formed(plans[i]) && Denote(plans[i]) == inputs[i] && SchemaOf(plans[i]) == schemas[i]
  }

  ghost predicate AllOpen(plans: seq<Plan>)
    requires forall i :: 0 <= i < |plans| ==> Formed(plans[i])
  {
    forall i :: 0 <= i < |plans| ==> Opens(plans[i])
  }

  /** The product of the first plans. */
  ghost predicate Joins(plan: Plan, plans: seq<Plan>, inputs: seq<seq<Row>>, schemas: seq<Schema>)
    requires plans != [] && PlansFor(plans, inputs, schemas)
  {
    && Formed(plan) && Flat(plan) && Denote(plan) == CrossAll(inputs) && SchemaOf(plan) == JoinSchemas(schemas)
    && (Opens(plan) <==> AllOpen(plans)) && (Delivers(plan) <==> Opens(plan) && InputsMatch(inputs))
  }

  lemma {:induction false} JoinsFirst(plans: seq<Plan>, inputs: seq<seq<Row>>, schemas: seq<Schema>)
    requires |plans| == 1 && PlansFor(plans, inputs, schemas)
    ensures Joins(plans[0], plans, inputs, schemas)
  {
    hide Denote, SchemaOf;
  }

  lemma {:induction false} JoinsNext(plan: Plan, plans: seq<Plan>, inputs: seq<seq<Row>>, schemas: seq<Schema>, n: nat)
    requires PlansFor(plans, inputs, schemas) && n == |plans| - 1 && n > 0
    requires PlansFor(plans[..n], inputs[..n], schemas[..n]) && Joins(plan, plans[..n], inputs[..n], schemas[..n])
    ensures Joins(ProductPlan(plan, plans[n]), plans, inputs, schemas)
  {
    hide Cross, CrossAll, Whole;
    var p := ProductPlan(plan, plans[n]);
    CrossAllLast(inputs);
    assert AllOpen(plans) <==> AllOpen(plans[..n]) && Opens(plans[n]) by {
      if AllOpen(plans[..n]) && Opens(plans[n]) {
        forall i | 0 <= i < |plans| ensures Opens(plans[i]) {
          assert i < n ==> plans[i] == plans[..n][i];
        }
      }
      if AllOpen(plans) {
        forall i | 0 <= i < n ensures Opens(plans[..n][i]) {
          assert plans[i] == plans[..n][i];
        }
      }
    }
    NoneEmpty(inputs, n);
  }

  lemma {:induction false} NoneEmpty(inputs: seq<seq<Row>>, n: nat)
    requires n == |inputs| - 1 && n > 0
    ensures InputsMatch(inputs) <==> CrossAll(inputs[..n]) != [] || inputs[n] == []
  {
    hide Cross, CrossAll;
    if CrossAll(inputs[..n]) != [] {
      CrossAllNone(inputs[..n]);
      forall i | 0 <= i < n ensures inputs[i] != [] {
        assert inputs[..n][i] == inputs[i];
      }
    } else if forall i :: 0 <= i < |inputs| ==> inputs[i] != [] {
      CrossAllRows(inputs[..n]);
    }
  }

  /** Step 2: the product of all plans, from the left. */
  method ProductOf(plans: seq<Plan>, ghost inputs: seq<seq<Row>>, ghost schemas: seq<Schema>) returns (plan: Plan)
    requires plans != [] && PlansFor(plans, inputs, schemas)
    ensures Joins(plan, plans, inputs, schemas)
  {
    hide Joins;
    plan := plans[0];
    var i := 1;
    JoinsFirst(plans[..1], inputs[..1], schemas[..1]);
    while i < |plans|
      invariant 1 <= i <= |plans|
      invariant PlansFor(plans[..i], inputs[..i], schemas[..i]) && Joins(plan, plans[..i], inputs[..i], schemas[..i])
    {
      assert plans[..i + 1][..i] == plans[..i] && inputs[..i + 1][..i] == inputs[..i] && schemas[..i + 1][..i] == schemas[..i];
      JoinsNext(plan, plans[..i + 1], inputs[..i + 1], schemas[..i + 1], i);
      plan := ProductPlan(plan, plans[i]);
      i := i + 1;
    }
    assert plans[..i] == plans && inputs[..i] == inputs && schemas[..i] == schemas;
  }

  lemma {:induction false} InputsAre(db: Db, q: QueryData)
    requires Known(db, q)
    ensures |Inputs(db, q)| == |q.tables| + |q.subqueries|
    ensures forall i :: 0 <= i < |q.tables| ==> Inputs(db, q)[i] == db[q.tables[i]].rows
    ensures forall i :: 0 <= i < |q.subqueries| ==> Inputs(db, q)[|q.tables| + i] == Answer(db, q.subqueries[i])
  {
    hide Answer;
  }

  lemma {:induction false} SchemasAre(db: Db, q: QueryData)
    requires Known(db, q) && forall i :: 0 <= i < |q.subqueries| ==> Plannable(db, q.subqueries[i])
    ensures forall i :: 0 <= i < |q.tables| ==> InputSchemas(db, q)[i] == db[q.tables[i]].schema
    ensures forall i :: 0 <= i < |q.subqueries| ==> InputSchemas(db, q)[|q.tables| + i] == OutSchema(db, q.subqueries[i])
  {
    hide OutSchema, Plannable;
  }

  /** The subqueries from the first to the k-th are planned. */
  ghost predicate SubPlanned(db: Db, subqueries: seq<QueryData>, plans: seq<Plan>, k: nat)
    requires k <= |subqueries| && k <= |plans| && forall i :: 0 <= i < |subqueries| ==> Known(db, subqueries[i])
  {
    forall i :: 0 <= i < k ==>
      Plannable(db, subqueries[i]) && plans[i].MaterializePlan? && Planned(db, subqueries[i], plans[i].p)
  }

  /** A materialized plan for each subquery. */
  method SubPlans(db: Db, subqueries: seq<QueryData>, aggs: seq<AggFn>, ghost q: QueryData) returns (result: Option<seq<Plan>>, aggFns: seq<AggFn>)
    requires Stored(db) && forall i :: 0 <= i < |subqueries| ==> Known(db, subqueries[i])
    requires subqueries == q.subqueries
    ensures result.Some? <==> forall i :: 0 <= i < |subqueries| ==> Plannable(db, subqueries[i])
    ensures result.Some? ==> |result.value| == |subqueries| && SubPlanned(db, subqueries, result.value, |subqueries|)
    ensures result.Some? ==> aggFns == if subqueries != [] then AggsAfter(db, subqueries[|subqueries| - 1]) else aggs
    decreases q, 0
  {
    hide Answer, AggsAfter, Known, Plannable, Planned, Stored;
    var plans: seq<Plan> := [];
    aggFns := aggs;
    var i := 0;
    while i < |subqueries|
      invariant 0 <= i <= |subqueries| && |plans| == i && SubPlanned(db, subqueries, plans, i)
      invariant aggFns == if i > 0 then AggsAfter(db, subqueries[i - 1]) else aggs
    {
      var sub;
      sub, aggFns := CreatePlan(db, subqueries[i]);
      if sub.None? {
        return None, aggFns;
      }
      plans := plans + [MaterializePlan(sub.value)];
      i := i + 1;
    }
    result := Some(plans);
  }

  lemma {:induction false} JoinPlans(db: Db, q: QueryData, tables: seq<Plan>, subs: seq<Plan>)
    requires Stored(db) && Known(db, q) && |tables| == |q.tables| && |subs| == |q.subqueries|
    requires forall i :: 0 <= i < |tables| ==> tables[i] == TablePlan(db[q.tables[i]])
    requires SubPlanned(db, q.subqueries, subs, |q.subqueries|)
    ensures PlansFor(tables + subs, Inputs(db, q), InputSchemas(db, q))
  {
    hide Answer, Inputs, Selected, AggsAfter, Plannable, OutSchema, InputSchemas, Succeeds, Delivers;
    InputsAre(db, q);
    SchemasAre(db, q);
    var plans, n := tables + subs, |q.tables|;
    forall i | 0 <= i < |plans|
      ensures Leaf(plans[i]) && Formed(plans[i]) && Denote(plans[i]) == Inputs(db, q)[i] && SchemaOf(plans[i]) == InputSchemas(db, q)[i]
    {
      if i < n {
        assert q.tables[i] in db;
      } else {
        assert Planned(db, q.subqueries[i - n], subs[i - n].p);
        assert Inputs(db, q)[n + (i - n)] == Answer(db, q.subqueries[i - n]);
        assert InputSchemas(db, q)[n + (i - n)] == OutSchema(db, q.subqueries[i - n]);
      }
    }
  }

  lemma {:induction false} SubOpens(db: Db, q: QueryData, plan: Plan)
    requires Known(db, q) && Plannable(db, q) && plan.MaterializePlan? && Planned(db, q, plan.p) && Formed(plan)
    ensures Opens(plan) <==> Succeeds(db, q) && AllTyped(OutSchema(db, q), Answer(db, q))
  {
    hide Answer, OutSchema, Succeeds, Delivers, AllTyped, Plannable, Known;
  }

  lemma {:induction false} TableOpens(plan: Plan)
    requires plan.TablePlan? && Formed(plan)
    ensures Opens(plan)
  {
  }

  lemma {:induction false} InputsOpen(db: Db, q: QueryData, tables: seq<Plan>, subs: seq<Plan>)
    requires Known(db, q) && Plannable(db, q) && |tables| == |q.tables| && |subs| == |q.subqueries|
    requires forall i :: 0 <= i < |tables| ==> tables[i] == TablePlan(db[q.tables[i]])
    requires SubPlanned(db, q.subqueries, subs, |q.subqueries|)
    requires forall i :: 0 <= i < |tables + subs| ==> Formed((tables + subs)[i])
    ensures AllOpen(tables + subs) <==> SubqueriesRun(db, q)
  {
    hide Answer, Inputs, Selected, AggsAfter, OutSchema, Succeeds, Delivers, AllTyped, Stored, Formed, Opens, Planned, InSchema;
    var plans, n := tables + subs, |q.tables|;
    forall i | 0 <= i < |subs|
      ensures Opens(plans[n + i]) <==> Succeeds(db, q.subqueries[i]) && AllTyped(OutSchema(db, q.subqueries[i]), Answer(db, q.subqueries[i]))
    {
      assert plans[n + i] == subs[i];
      SubOpens(db, q.subqueries[i], subs[i]);
    }
    forall i | 0 <= i < n ensures Opens(plans[i]) {
      TableOpens(plans[i]);
    }
    if SubqueriesRun(db, q) {
      forall i | 0 <= i < |plans| ensures Opens(plans[i]) {
        assert i >= n ==> plans[n + (i - n)] == plans[i];
      }
    }
  }

  /** Step 1: a plan for each table, then one for each subquery, whose own planning replaces the list of
      aggregates. */
  method InputPlans(db: Db, q: QueryData) returns (result: Option<seq<Plan>>, aggFns: seq<AggFn>)
    requires Stored(db) && Known(db, q)
    ensures result.Some? <==> forall i :: 0 <= i < |q.subqueries| ==> Plannable(db, q.subqueries[i])
    ensures result.Some? ==> PlansFor(result.value, Inputs(db, q), InputSchemas(db, q))
    ensures result.Some? ==> AggsAfter(db, q) == aggFns + if q.group != [] then [Count] else []
    ensures result.Some? && Plannable(db, q) ==> (AllOpen(result.value) <==> SubqueriesRun(db, q))
    decreases q, 1
  {
    hide Answer, Inputs, InputSchemas, Selected, Denote, TableAggs, Plannable, SubqueriesRun, AllOpen;
    var tables;
    tables, aggFns := TablePlans(db, q);
    var subs;
    subs, aggFns := SubPlans(db, q.subqueries, aggFns, q);
    if subs.None? {
      return None, aggFns;
    }
    result := Some(tables + subs.value);
    JoinPlans(db, q, tables, subs.value);
    if Plannable(db, q) {
      InputsOpen(db, q, tables, subs.value);
    }
  }

  /** Steps 3 and on: the plan over the product of the inputs. */
  function PlanOver(q: QueryData, plan: Plan, aggs: seq<AggFn>): Plan {
    var selected := SelectPlan(plan, q.pred);
    var grouped := if q.group == [] then selected else GroupByPlan(selected, q.group, aggs);
    var projected := ProjectPlan(grouped, q.fields);
    if q.sort == [] then projected else SortPlan(projected, q.sort)
  }

  lemma {:induction false} OfSelectPlan(p: Plan, pred: Predicate)
    requires Formed(p)
    ensures var r := SelectPlan(p, pred);
      && Formed(r) && SchemaOf(r) == SchemaOf(p) && Denote(r) == Filter(pred, Denote(p))
      && (Delivers(r) <==> Delivers(p) && AllEvaluable(pred, Denote(p)))
  {
  }

  lemma {:induction false} OfGroupByPlan(p: Plan, group: seq<string>, aggs: seq<AggFn>)
    requires Formed(p) && AllNamed(group, SchemaOf(p))
    ensures var r := GroupByPlan(p, group, aggs);
      && Formed(r) && SchemaOf(r) == Sub(group, SchemaOf(p)) + AggSchema(aggs) && Denote(r) == GroupResult(group, aggs, Denote(p))
      && (Delivers(r) <==> Delivers(p) && Sortable(SchemaOf(p), group, Denote(p)) && AllReadable(aggs, NameSet(SchemaOf(p))))
  {
  }

  lemma {:induction false} OfProjectPlan(p: Plan, fields: seq<string>)
    requires Formed(p) && AllNamed(fields, SchemaOf(p))
    ensures var r := ProjectPlan(p, fields);
      Formed(r) && SchemaOf(r) == Sub(fields, SchemaOf(p)) && Denote(r) == ProjectAll(fields, Denote(p)) && (Delivers(r) <==> Delivers(p))
  {
  }

  lemma {:induction false} OfSortPlan(p: Plan, sort: seq<string>)
    requires Formed(p)
    ensures var r := SortPlan(p, sort);
      && Formed(r) && SchemaOf(r) == SchemaOf(p) && Denote(r) == SortOf(sort, Denote(p))
      && (Delivers(r) <==> Delivers(p) && Sortable(SchemaOf(p), sort, Denote(p)))
  {
  }

  lemma {:induction false} PlanStands(db: Db, q: QueryData, plan: Plan, plans: seq<Plan>)
    requires Known(db, q) && Plannable(db, q)
    requires plans != [] && PlansFor(plans, Inputs(db, q), InputSchemas(db, q)) && Joins(plan, plans, Inputs(db, q), InputSchemas(db, q))
    requires AllOpen(plans) <==> SubqueriesRun(db, q)
    ensures Planned(db, q, PlanOver(q, plan, AggsAfter(db, q)))
  {
    hide Inputs, InputSchemas, AggsAfter, CrossAll, JoinSchemas, Filter, ProjectAll, GroupResult, SortOf, AllEvaluable, Sortable, AllReadable,
      Sub, AggSchema, AllNamed, NameSet, InputsMatch, SubqueriesRun, AllOpen, PlansFor, Formed, SchemaOf, Denote, Delivers, Opens;
    var aggs := AggsAfter(db, q);
    OfSelectPlan(plan, q.pred);
    var selected := SelectPlan(plan, q.pred);
    var grouped := selected;
    if q.group != [] {
      OfGroupByPlan(selected, q.group, aggs);
      grouped := GroupByPlan(selected, q.group, aggs);
    }
    OfProjectPlan(grouped, q.fields);
    if q.sort != [] {
      OfSortPlan(ProjectPlan(grouped, q.fields), q.sort);
    }
    var projected, r := ProjectPlan(grouped, q.fields), PlanOver(q, plan, aggs);
    assert SchemaOf(projected) == OutSchema(db, q) && Denote(projected) == Projection(db, q);
    assert SchemaOf(r) == OutSchema(db, q) && Denote(r) == Answer(db, q);
    assert Delivers(r) <==> Succeeds(db, q);
  }

  /** createPlan: there is a plan exactly when the fields named exist. It means what the query means and runs when
      the query does. */
  method CreatePlan(db: Db, q: QueryData) returns (result: Option<Plan>, aggFns: seq<AggFn>)
    requires Stored(db) && Known(db, q)
    ensures result.Some? <==> Plannable(db, q)
    ensures result.Some? ==> Planned(db, q, result.value) && aggFns == AggsAfter(db, q)
    decreases q, 2
  {
    hide Inputs, InputSchemas, AggsAfter, Known, Joins, Planned, PlansFor, AllOpen, SubqueriesRun, JoinSchemas;
    var plans;
    plans, aggFns := InputPlans(db, q);
    if plans.None? {
      return None, aggFns;
    }
    PlansSome(plans.value, Inputs(db, q), InputSchemas(db, q));
    var plan := ProductOf(plans.value, Inputs(db, q), InputSchemas(db, q));
    JoinsIs(plan, plans.value, Inputs(db, q), InputSchemas(db, q));
    if Plannable(db, q) {
      PlanStands(db, q, plan, plans.value);
    }
    plan := SelectPlan(plan, q.pred);
    if |q.group| > 0 {
      aggFns := aggFns + [Count];
      if !AllNamed(q.group, SchemaOf(plan)) {
        return None, aggFns;
      }
      plan := GroupByPlan(plan, q.group, aggFns);
    }
    if !AllNamed(q.fields, SchemaOf(plan)) {
      return None, aggFns;
    }
    plan := ProjectPlan(plan, q.fields);
    if |q.sort| > 0 {
      plan := SortPlan(plan, q.sort);
    }
    result := Some(plan);
  }

  lemma {:induction false} PlansSome(plans: seq<Plan>, inputs: seq<seq<Row>>, schemas: seq<Schema>)
    requires PlansFor(plans, inputs, schemas)
    ensures |plans| == |inputs| == |schemas|
    ensures forall i :: 0 <= i < |plans| ==> Formed(plans[i])
  {
  }

  lemma {:induction false} JoinsIs(plan: Plan, plans: seq<Plan>, inputs: seq<seq<Row>>, schemas: seq<Schema>)
    requires plans != [] && PlansFor(plans, inputs, schemas) && Joins(plan, plans, inputs, schemas)
    ensures Formed(plan) && SchemaOf(plan) == JoinSchemas(schemas)
  {
  }

  /** From the query to its rows: there are rows exactly when the query can be planned and meets no failing step,
      and then they are the answer. */
  method RunQuery(db: Db, q: QueryData) returns (rows: Option<seq<Row>>)
    requires Stored(db) && Known(db, q)
    ensures rows.Some? <==> Plannable(db, q) && Succeeds(db, q)
    ensures rows.Some? ==> rows.value == Answer(db, q)
  {
    hide Answer, Succeeds, Plannable, OutSchema;
    var plan, aggFns := CreatePlan(db, q);
    if plan.None? {
      return None;
    }
    rows := OpenAndRead(plan.value);
  }
}

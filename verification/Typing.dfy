/** Types of the values a plan delivers. A plan whose conditions compare values of one kind and whose temporary tables
    fit their values fails only for want of rows. */
module Typing {
  import opened Constants
  import opened Rows
  import opened Schemas
  import opened Predicates
  import opened Sort
  import opened GroupBy
  import opened Query
  import opened Plans

  /** The type of the values in each field. */
  type Types = map<string, FieldType>

  /** The first type's values fit columns of the second. */
  predicate Within(t: FieldType, u: FieldType) {
    if t.VARCHAR? then u.VARCHAR? && t.length <= u.length else !u.VARCHAR?
  }

  predicate SameKinds(t: FieldType, u: FieldType) {
    t.VARCHAR? <==> u.VARCHAR?
  }

  predicate HasTypes(r: Row, ty: Types) {
    r.Keys == ty.Keys && forall f :: f in ty ==> FitsColumn(r[f], ty[f])
  }

  ghost predicate AllHave(rows: seq<Row>, ty: Types) {
    forall i :: 0 <= i < |rows| ==> HasTypes(rows[i], ty)
  }

  function SchemaTypes(s: Schema): Types {
    map f | f in NameSet(s) :: TypeOf(s, f)
  }

  /** The type of an aggregate's value; the sum of strings is the first of them. */
  function AggType(fn: AggFn, ty: Types): FieldType
    requires Readable(fn, ty.Keys)
  {
    if fn.Count? then INTEGER else ty[fn.field]
  }

  function AggTypes(aggs: seq<AggFn>, ty: Types): Types
    requires AllReadable(aggs, ty.Keys)
  {
    if aggs == [] then map[]
    else
      assert forall i :: 0 <= i < |aggs| - 1 ==> aggs[1..][i] == aggs[i + 1];
      AggTypes(aggs[1..], ty)[AggName(aggs[0]) := AggType(aggs[0], ty)]
  }

  function Restrict(ty: Types, fields: seq<string>): Types {
    map f | f in ty && f in fields :: ty[f]
  }

  function ExpressionType(e: Expression, ty: Types): FieldType
    requires e.Field? ==> e.name in ty
  {
    match e
    case Const(IntVal(_)) => INTEGER
    case Const(StrVal(s)) => VARCHAR(|s|)
    case Field(f) => ty[f]
  }

  /** Both sides are known and of one kind. */
  predicate TermTyped(t: Term, ty: Types) {
    && (t.lhs.Field? ==> t.lhs.name in ty) && (t.rhs.Field? ==> t.rhs.name in ty)
    && SameKinds(ExpressionType(t.lhs, ty), ExpressionType(t.rhs, ty))
  }

  predicate PredicateTyped(p: Predicate, ty: Types) {
    forall i :: 0 <= i < |p| ==> TermTyped(p[i], ty)
  }

  /** Values of these types fit the columns of the schema. */
  predicate Matches(ty: Types, s: Schema) {
    ty.Keys == NameSet(s) && forall f :: f in ty ==> Within(ty[f], TypeOf(s, f))
  }

  /** The types of a plan's values. Where both sides of a product have a field the left one's values are seen,
      though its schema has the right one's type; and an aggregate of strings is a string, though its schema says
      integer. */
  function TypesOf(p: Plan): Types
    requires Formed(p) && WellTyped(p)
    decreases p, 1
  {
    match p
    case TablePlan(table) => SchemaTypes(table.schema)
    case MaterializePlan(q) => TypesOf(q)
    case ProductPlan(p1, p2) => TypesOf(p2) + TypesOf(p1)
    case SelectPlan(q, _) => TypesOf(q)
    case GroupByPlan(q, group, aggs) => AggTypes(aggs, TypesOf(q)) + Restrict(TypesOf(q), group)
    case ProjectPlan(q, fields) => Restrict(TypesOf(q), fields)
    case SortPlan(q, _) => TypesOf(q)
  }

  /** What can be seen of a plan before it is run. */
  predicate WellTyped(p: Plan)
    requires Formed(p)
    decreases p, 0
  {
    match p
    case TablePlan(_) => true
    case MaterializePlan(q) => WellTyped(q) && Matches(TypesOf(q), SchemaOf(q))
    case ProductPlan(p1, p2) => WellTyped(p1) && WellTyped(p2)
    case SelectPlan(q, pred) => WellTyped(q) && PredicateTyped(pred, TypesOf(q))
    case GroupByPlan(q, group, aggs) => WellTyped(q) && Matches(TypesOf(q), SchemaOf(q)) && AllReadable(aggs, TypesOf(q).Keys)
    case ProjectPlan(q, _) => WellTyped(q)
    case SortPlan(q, sort) => WellTyped(q) && Matches(TypesOf(q), SchemaOf(q)) && AllNamed(sort, SchemaOf(q))
  }

  /** The stored values fit their columns. */
  ghost predicate TablesTyped(p: Plan) {
    match p
    case TablePlan(table) => AllHave(table.rows, SchemaTypes(table.schema))
    case MaterializePlan(q) => TablesTyped(q)
    case ProductPlan(p1, p2) => TablesTyped(p1) && TablesTyped(p2)
    case SelectPlan(q, _) => TablesTyped(q)
    case GroupByPlan(q, _, _) => TablesTyped(q)
    case ProjectPlan(q, _) => TablesTyped(q)
    case SortPlan(q, _) => TablesTyped(q)
  }

  /** Whatever is sorted or grouped has rows when the plan is opened. */
  predicate FillsOpen(p: Plan)
    decreases p, 0
  {
    match p
    case TablePlan(_) => true
    case MaterializePlan(q) => Fills(q)
    case ProductPlan(p1, p2) => FillsOpen(p1) && FillsOpen(p2)
    case SelectPlan(q, _) => FillsOpen(q)
    case GroupByPlan(q, _, _) => Fills(q) && Denote(q) != []
    case ProjectPlan(q, _) => FillsOpen(q)
    case SortPlan(q, _) => Fills(q) && Denote(q) != []
  }

  /** And the product that is read has left rows, or no right ones. */
  predicate Fills(p: Plan)
    decreases p, 1
  {
    match p
    case ProductPlan(p1, p2) => FillsOpen(p) && (Denote(p1) != [] || Denote(p2) == [])
    case SelectPlan(q, _) => Fills(q)
    case ProjectPlan(q, _) => Fills(q)
    case _ => FillsOpen(p)
  }

  // ---------------------------------------------------------------- rows keep their types

  lemma {:induction false} FilterHave(p: Predicate, rows: seq<Row>, ty: Types)
    requires AllHave(rows, ty)
    ensures AllHave(Filter(p, rows), ty)
  {
    hide HasTypes, Holds;
    if rows != [] {
      FilterHave(p, rows[1..], ty);
    }
  }

  lemma {:induction false} ProjectHave(fields: seq<string>, rows: seq<Row>, ty: Types)
    requires AllHave(rows, ty)
    ensures AllHave(ProjectAll(fields, rows), Restrict(ty, fields))
  {
    if rows != [] {
      ProjectHave(fields, rows[1..], ty);
    }
  }

  lemma {:induction false} JoinedHas(r: Row, s: Row, t1: Types, t2: Types)
    requires HasTypes(r, t1) && HasTypes(s, t2)
    ensures HasTypes(Joined(r, s), t2 + t1)
  {
  }

  lemma {:induction false} PairsHave(r: Row, rows: seq<Row>, t1: Types, t2: Types)
    requires HasTypes(r, t1) && AllHave(rows, t2)
    ensures AllHave(Pairs(r, rows), t2 + t1)
  {
    hide HasTypes, Joined;
    PairsAt(r, rows);
    forall i | 0 <= i < |rows| ensures HasTypes(Pairs(r, rows)[i], t2 + t1) {
      JoinedHas(r, rows[i], t1, t2);
    }
  }

  lemma {:induction false} CrossHave(a: seq<Row>, b: seq<Row>, t1: Types, t2: Types)
    requires AllHave(a, t1) && AllHave(b, t2)
    ensures AllHave(Cross(a, b), t2 + t1)
  {
    hide HasTypes, Pairs;
    if a != [] {
      CrossHave(a[1..], b, t1, t2);
      PairsHave(a[0], b, t1, t2);
      BothHave(Pairs(a[0], b), Cross(a[1..], b), t2 + t1);
    }
  }

  lemma {:induction false} BothHave(a: seq<Row>, b: seq<Row>, ty: Types)
    requires AllHave(a, ty) && AllHave(b, ty)
    ensures AllHave(a + b, ty)
  {
    hide HasTypes;
  }

  lemma {:induction false} SortHave(fields: seq<string>, rows: seq<Row>, ty: Types)
    requires AllHave(rows, ty)
    ensures AllHave(SortOf(fields, rows), ty)
  {
    hide HasTypes, SortOf, Sorted;
    SortOfCorrect(fields, rows);
    forall i | 0 <= i < |SortOf(fields, rows)| ensures HasTypes(SortOf(fields, rows)[i], ty) {
      assert SortOf(fields, rows)[i] in multiset(rows);
    }
  }

  /** An aggregate of rows of these types has its own type. */
  lemma {:induction false} FoldHas(fn: AggFn, rows: seq<Row>, ty: Types)
    requires rows != [] && AllHave(rows, ty) && Readable(fn, ty.Keys)
    ensures FitsColumn(Fold(fn, rows), AggType(fn, ty))
  {
    hide At, Rank;
    var n := |rows| - 1;
    assert HasTypes(rows[n], ty);
    if n > 0 {
      FoldHas(fn, rows[..n], ty);
    }
  }

  lemma {:induction false} AggRowHas(aggs: seq<AggFn>, g: seq<Row>, ty: Types)
    requires g != [] && AllHave(g, ty) && AllReadable(aggs, ty.Keys)
    ensures HasTypes(AggRow(aggs, g), AggTypes(aggs, ty))
  {
    hide Fold, AggType, AggName, FitsColumn, Readable;
    if aggs != [] {
      assert forall i :: 0 <= i < |aggs| - 1 ==> aggs[1..][i] == aggs[i + 1];
      AggRowHas(aggs[1..], g, ty);
      FoldHas(aggs[0], g, ty);
    }
  }

  lemma {:induction false} GroupRowHas(group: seq<string>, aggs: seq<AggFn>, g: seq<Row>, ty: Types)
    requires g != [] && AllHave(g, ty) && AllReadable(aggs, ty.Keys) && forall f :: f in group ==> f in ty
    ensures HasTypes(GroupRow(group, aggs, g), AggTypes(aggs, ty) + Restrict(ty, group))
  {
    hide AggRow, AggTypes, FitsColumn, Readable;
    AggRowHas(aggs, g, ty);
    assert HasTypes(g[0], ty);
  }

  lemma {:induction false} GroupAllHave(group: seq<string>, aggs: seq<AggFn>, gs: seq<seq<Row>>, ty: Types)
    requires AllReadable(aggs, ty.Keys) && (forall f :: f in group ==> f in ty) && forall k :: 0 <= k < |gs| ==> AllHave(gs[k], ty)
    ensures AllHave(GroupAll(group, aggs, gs), AggTypes(aggs, ty) + Restrict(ty, group))
  {
    hide GroupRow, AggTypes, HasTypes, Readable, Restrict;
    if gs != [] {
      GroupAllHave(group, aggs, gs[1..], ty);
      if gs[0] != [] {
        GroupRowHas(group, aggs, gs[0], ty);
      }
    }
  }

  lemma {:induction false} GroupResultHave(group: seq<string>, aggs: seq<AggFn>, rows: seq<Row>, ty: Types)
    requires AllHave(rows, ty) && AllReadable(aggs, ty.Keys) && forall f :: f in group ==> f in ty
    ensures AllHave(GroupResult(group, aggs, rows), AggTypes(aggs, ty) + Restrict(ty, group))
  {
    hide GroupAll, AggTypes, HasTypes, Readable, Restrict, Groups, SortOf;
    SortHave(group, rows, ty);
    var sorted := SortOf(group, rows);
    var gs := Groups(group, sorted);
    forall k, i | 0 <= k < |gs| && 0 <= i < |gs[k]| ensures HasTypes(gs[k][i], ty) {
      GroupsWithin(group, sorted, k, i);
      var j :| 0 <= j < |sorted| && sorted[j] == gs[k][i];
    }
    GroupAllHave(group, aggs, gs, ty);
  }

  // ---------------------------------------------------------------- steps of well-typed plans

  lemma {:induction false} TermDefined(t: Term, r: Row, ty: Types)
    requires HasTypes(r, ty) && TermTyped(t, ty)
    ensures Defined(t, r)
  {
  }

  lemma {:induction false} PredicateEvaluable(p: Predicate, r: Row, ty: Types)
    requires HasTypes(r, ty) && PredicateTyped(p, ty)
    ensures Evaluable(p, r)
  {
    hide HasTypes, TermTyped, Defined, TermHolds;
    if p != [] {
      TermDefined(p[0], r, ty);
      forall i | 0 <= i < |p[1..]| ensures TermTyped(p[1..][i], ty) {
        assert p[1..][i] == p[i + 1];
      }
      PredicateEvaluable(p[1..], r, ty);
    }
  }

  lemma {:induction false} RowsStorable(rows: seq<Row>, ty: Types, s: Schema)
    requires AllHave(rows, ty) && Matches(ty, s)
    ensures AllTyped(s, rows)
  {
    forall i | 0 <= i < |rows| ensures Typed(s, rows[i]) {
      assert HasTypes(rows[i], ty);
    }
  }

  /** Sorting on fields of the schema is never short of a field. */
  lemma {:induction false} AlwaysTold(fields: seq<string>, s: Schema, rows: seq<Row>)
    requires AllNamed(fields, s)
    ensures Told(fields, NameSet(s), rows)
  {
    KnownAll(fields, NameSet(s));
  }

  lemma {:induction false} InputSortable(fields: seq<string>, s: Schema, rows: seq<Row>, ty: Types)
    requires AllHave(rows, ty) && Matches(ty, s) && AllNamed(fields, s)
    ensures Sortable(s, fields, rows) <==> rows != []
  {
    hide AllHave, Matches, Told, AllTyped, AllNamed;
    RowsStorable(rows, ty, s);
    AlwaysTold(fields, s, rows);
  }

  lemma {:induction false} TypesKeys(p: Plan)
    requires Formed(p) && WellTyped(p)
    ensures TypesOf(p).Keys == NameSet(SchemaOf(p))
  {
    hide NameSet, Sub, Whole, AggTypes, Matches, PredicateTyped, AllReadable, AllNamed;
    match p
    case TablePlan(_) =>
    case MaterializePlan(q) => TypesKeys(q);
    case ProductPlan(p1, p2) =>
      TypesKeys(p1);
      TypesKeys(p2);
      WholeNames(SchemaOf(p1));
      WholeNames(SchemaOf(p2));
      BothNames(Whole(SchemaOf(p1)), Whole(SchemaOf(p2)));
    case SelectPlan(q, _) => TypesKeys(q);
    case GroupByPlan(q, group, aggs) =>
      TypesKeys(q);
      RestrictKeys(TypesOf(q), group, SchemaOf(q));
      AggTypesKeys(aggs, TypesOf(q));
      BothNames(Sub(group, SchemaOf(q)), AggSchema(aggs));
    case ProjectPlan(q, fields) =>
      TypesKeys(q);
      RestrictKeys(TypesOf(q), fields, SchemaOf(q));
    case SortPlan(q, _) => TypesKeys(q);
  }

  lemma {:induction false} RestrictKeys(ty: Types, fields: seq<string>, s: Schema)
    requires ty.Keys == NameSet(s) && AllNamed(fields, s)
    ensures Restrict(ty, fields).Keys == NameSet(Sub(fields, s))
    ensures forall f :: f in fields ==> f in ty
  {
    SubNames(fields, s);
    forall f | f in fields ensures f in ty {
      assert f in NameSet(s);
    }
  }

  lemma {:induction false} AggTypesKeys(aggs: seq<AggFn>, ty: Types)
    requires AllReadable(aggs, ty.Keys)
    ensures AggTypes(aggs, ty).Keys == NameSet(AggSchema(aggs))
  {
    hide AggType, AggName, Readable;
    if aggs == [] {
      assert NameSet(AggSchema(aggs)) == {};
    } else {
      assert forall i :: 0 <= i < |aggs| - 1 ==> aggs[1..][i] == aggs[i + 1];
      AggTypesKeys(aggs[1..], ty);
      assert AggSchema(aggs) == [(AggName(aggs[0]), INTEGER)] + AggSchema(aggs[1..]);
      BothNames([(AggName(aggs[0]), INTEGER)], AggSchema(aggs[1..]));
      assert NameSet([(AggName(aggs[0]), INTEGER)]) == {AggName(aggs[0])};
    }
  }

  /** A well-typed plan over well-typed tables fails only for want of rows, and its rows have its types. */
  lemma {:induction false} TypeSafety(p: Plan)
    requires Formed(p) && WellTyped(p) && TablesTyped(p)
    ensures (Opens(p) <==> FillsOpen(p)) && (Delivers(p) <==> Fills(p))
    ensures AllHave(Denote(p), TypesOf(p))
  {
    hide NameSet, Sub, AggTypes, Matches, PredicateTyped, AllReadable, AllNamed, AllHave, Filter, Cross, ProjectAll, SortOf, GroupResult,
      Restrict, AllTyped, Sortable, AllEvaluable, Whole;
    match p
    case TablePlan(_) =>
    case MaterializePlan(q) =>
      TypeSafety(q);
      RowsStorable(Denote(q), TypesOf(q), SchemaOf(q));
    case ProductPlan(p1, p2) =>
      TypeSafety(p1);
      TypeSafety(p2);
      CrossHave(Denote(p1), Denote(p2), TypesOf(p1), TypesOf(p2));
    case SelectPlan(q, pred) =>
      TypeSafety(q);
      FilterHave(pred, Denote(q), TypesOf(q));
      RowsEvaluable(pred, Denote(q), TypesOf(q));
    case GroupByPlan(q, group, aggs) =>
      TypeSafety(q);
      TypesKeys(q);
      RestrictKeys(TypesOf(q), group, SchemaOf(q));
      InputSortable(group, SchemaOf(q), Denote(q), TypesOf(q));
      GroupResultHave(group, aggs, Denote(q), TypesOf(q));
    case ProjectPlan(q, fields) =>
      TypeSafety(q);
      ProjectHave(fields, Denote(q), TypesOf(q));
    case SortPlan(q, sort) =>
      TypeSafety(q);
      InputSortable(sort, SchemaOf(q), Denote(q), TypesOf(q));
      SortHave(sort, Denote(q), TypesOf(q));
  }

  lemma {:induction false} RowsEvaluable(p: Predicate, rows: seq<Row>, ty: Types)
    requires AllHave(rows, ty) && PredicateTyped(p, ty)
    ensures AllEvaluable(p, rows)
  {
    hide HasTypes, PredicateTyped, Evaluable;
    forall i | 0 <= i < |rows| ensures Evaluable(p, rows[i]) {
      PredicateEvaluable(p, rows[i], ty);
    }
  }
}

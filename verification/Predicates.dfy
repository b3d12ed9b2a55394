/** Predicates and the row operations of a query (src/scan/Predicate.cpp, Term.cpp, Expression.cpp). */
module Predicates {
  import opened Options
  import opened Constants
  import opened Rows

  datatype Expression = Const(value: Constant) | Field(name: string)

  datatype Term = Term(lhs: Expression, rhs: Expression)

  type Predicate = seq<Term>

  function Evaluate(e: Expression, r: Row): Constant {
    match e
    case Const(c) => c
    case Field(f) => Val(r, f)
  }

  predicate TermHolds(t: Term, r: Row) {
    Evaluate(t.lhs, r) == Evaluate(t.rhs, r)
  }

  predicate Holds(p: Predicate, r: Row) {
    forall i :: 0 <= i < |p| ==> TermHolds(p[i], r)
  }

  predicate Reads(e: Expression, r: Row) {
    e.Field? ==> e.name in r
  }

  /** Evaluating the term finds its fields, with values of one kind: comparing an integer with a string goes
      through a null pointer. */
  predicate Defined(t: Term, r: Row) {
    Reads(t.lhs, r) && Reads(t.rhs, r) && SameKind(Evaluate(t.lhs, r), Evaluate(t.rhs, r))
  }

  /** Evaluation goes as far as the first term that does not hold. */
  predicate Evaluable(p: Predicate, r: Row) {
    p == [] || (Defined(p[0], r) && (TermHolds(p[0], r) ==> Evaluable(p[1..], r)))
  }

  method IsSatisfied(p: Predicate, r: Row) returns (sat: Option<bool>)
    ensures sat.Some? <==> Evaluable(p, r)
    ensures sat.Some? ==> sat.value == Holds(p, r)
  {
    var i := 0;
    assert p[0..] == p;
    while i < |p|
      invariant 0 <= i <= |p| && forall k :: 0 <= k < i ==> TermHolds(p[k], r)
      invariant Evaluable(p, r) <==> Evaluable(p[i..], r)
    {
      assert p[i..][1..] == p[i + 1..];
      if !Defined(p[i], r) {
        return None;
      }
      if !TermHolds(p[i], r) {
        return Some(false);
      }
      i := i + 1;
    }
    sat := Some(true);
  }

  predicate ExpressionApplies(e: Expression, schema: set<string>) {
    e.Field? ==> e.name in schema
  }

  predicate Applies(t: Term, schema: set<string>) {
    ExpressionApplies(t.lhs, schema) && ExpressionApplies(t.rhs, schema)
  }

  function SelectSub(p: Predicate, schema: set<string>): Predicate {
    if p == [] then []
    else if Applies(p[|p| - 1], schema) then SelectSub(p[..|p| - 1], schema) + [p[|p| - 1]]
    else SelectSub(p[..|p| - 1], schema)
  }

  predicate OnlyBoth(t: Term, schema1: set<string>, schema2: set<string>) {
    !Applies(t, schema1) && !Applies(t, schema2) && Applies(t, schema1 + schema2)
  }

  function JoinSub(p: Predicate, schema1: set<string>, schema2: set<string>): Predicate {
    if p == [] then []
    else if OnlyBoth(p[|p| - 1], schema1, schema2) then JoinSub(p[..|p| - 1], schema1, schema2) + [p[|p| - 1]]
    else JoinSub(p[..|p| - 1], schema1, schema2)
  }

  method SelectSubPredicate(p: Predicate, schema: set<string>) returns (result: Predicate)
    ensures result == SelectSub(p, schema)
  {
    result := [];
    var i := 0;
    while i < |p|
      invariant 0 <= i <= |p| && result == SelectSub(p[..i], schema)
    {
      assert p[..i + 1][..i] == p[..i];
      if Applies(p[i], schema) {
        result := result + [p[i]];
      }
      i := i + 1;
    }
    assert p[..i] == p;
  }

  method JoinSubPredicate(p: Predicate, schema1: set<string>, schema2: set<string>) returns (result: Predicate)
    ensures result == JoinSub(p, schema1, schema2)
  {
    result := [];
    var newSchema := schema1 + schema2;
    var i := 0;
    while i < |p|
      invariant 0 <= i <= |p| && result == JoinSub(p[..i], schema1, schema2)
    {
      assert p[..i + 1][..i] == p[..i];
      if !Applies(p[i], schema1) && !Applies(p[i], schema2) && Applies(p[i], newSchema) {
        result := result + [p[i]];
      }
      i := i + 1;
    }
    assert p[..i] == p;
  }

  // ---------------------------------------------------------------- rows

  /** The row a product shows: the left scan is asked first. */
  function Joined(r: Row, s: Row): Row {
    s + r
  }

  /** r with each of the rows. */
  function Pairs(r: Row, rows: seq<Row>): seq<Row> {
    if rows == [] then [] else [Joined(r, rows[0])] + Pairs(r, rows[1..])
  }

  /** All pairs, the left row changing slowest. */
  function Cross(a: seq<Row>, b: seq<Row>): seq<Row> {
    if a == [] then [] else Pairs(a[0], b) + Cross(a[1..], b)
  }

  function Filter(p: Predicate, rows: seq<Row>): seq<Row> {
    if rows == [] then []
    else if Holds(p, rows[0]) then [rows[0]] + Filter(p, rows[1..])
    else Filter(p, rows[1..])
  }

  function Projected(fields: seq<string>, r: Row): Row {
    map f | f in r && f in fields :: r[f]
  }

  function ProjectAll(fields: seq<string>, rows: seq<Row>): seq<Row> {
    if rows == [] then [] else [Projected(fields, rows[0])] + ProjectAll(fields, rows[1..])
  }

  lemma {:induction false} CrossNothing(a: seq<Row>)
    ensures Cross(a, []) == []
  {
    if a != [] {
      CrossNothing(a[1..]);
    }
  }

  lemma {:induction false} CrossSomething(a: seq<Row>, b: seq<Row>)
    requires a != [] && b != []
    ensures Cross(a, b) != []
  {
  }

  lemma {:induction false} PairsAppend(r: Row, b: seq<Row>, c: seq<Row>)
    ensures Pairs(r, b + c) == Pairs(r, b) + Pairs(r, c)
  {
    if b == [] {
      assert b + c == c;
    } else {
      assert (b + c)[1..] == b[1..] + c;
      PairsAppend(r, b[1..], c);
    }
  }

  lemma {:induction false} CrossAppend(a: seq<Row>, b: seq<Row>, c: seq<Row>)
    ensures Cross(a + b, c) == Cross(a, c) + Cross(b, c)
  {
    if a == [] {
      assert a + b == b;
    } else {
      assert (a + b)[1..] == a[1..] + b;
      CrossAppend(a[1..], b, c);
    }
  }

  lemma {:induction false} JoinedAssoc(r: Row, s: Row, t: Row)
    ensures Joined(Joined(r, s), t) == Joined(r, Joined(s, t))
  {
  }

  lemma {:induction false} PairsOfPairs(r: Row, s: Row, c: seq<Row>)
    ensures Pairs(Joined(r, s), c) == Pairs(r, Pairs(s, c))
  {
    hide Joined;
    if c != [] {
      PairsOfPairs(r, s, c[1..]);
      JoinedAssoc(r, s, c[0]);
      assert Pairs(s, c)[1..] == Pairs(s, c[1..]);
    }
  }

  lemma {:induction false} CrossOfPairs(r: Row, b: seq<Row>, c: seq<Row>)
    ensures Cross(Pairs(r, b), c) == Pairs(r, Cross(b, c))
  {
    if b != [] {
      CrossOfPairs(r, b[1..], c);
      PairsOfPairs(r, b[0], c);
      PairsAppend(r, Pairs(b[0], c), Cross(b[1..], c));
      assert Pairs(r, b)[1..] == Pairs(r, b[1..]);
    }
  }

  /** Products of several inputs do not depend on how they are nested. */
  lemma {:induction false} CrossAssoc(a: seq<Row>, b: seq<Row>, c: seq<Row>)
    ensures Cross(Cross(a, b), c) == Cross(a, Cross(b, c))
  {
    if a != [] {
      CrossAppend(Pairs(a[0], b), Cross(a[1..], b), c);
      CrossOfPairs(a[0], b, c);
      CrossAssoc(a[1..], b, c);
    }
  }

  // ---------------------------------------------------------------- pushing predicates down

  ghost predicate OfSchema(rows: seq<Row>, schema: set<string>) {
    forall i :: 0 <= i < |rows| ==> rows[i].Keys == schema
  }

  lemma {:induction false} HoldsSplit(p: Predicate, r: Row)
    requires p != []
    ensures Holds(p, r) <==> Holds(p[..|p| - 1], r) && TermHolds(p[|p| - 1], r)
  {
    forall i | 0 <= i < |p| - 1 ensures p[..|p| - 1][i] == p[i] {
    }
  }

  lemma {:induction false} HoldsAppend(p: Predicate, t: Term, r: Row)
    ensures Holds(p + [t], r) <==> Holds(p, r) && TermHolds(t, r)
  {
    assert (p + [t])[..|p|] == p;
    HoldsSplit(p + [t], r);
  }

  /** The term names no field of the schema. */
  predicate Avoids(t: Term, schema: set<string>) {
    (t.lhs.Field? ==> t.lhs.name !in schema) && (t.rhs.Field? ==> t.rhs.name !in schema)
  }

  /** A term that may be decided on the right input alone: where both inputs have a field, the product shows
      the left one's. */
  predicate Movable(t: Term, schema1: set<string>, schema2: set<string>) {
    Applies(t, schema2) ==> Avoids(t, schema1) || t.lhs == t.rhs
  }

  /** Which row decides a term. */
  lemma {:induction false} TermLocal(t: Term, r: Row, s: Row)
    ensures Applies(t, r.Keys) ==> (TermHolds(t, Joined(r, s)) <==> TermHolds(t, r))
    ensures Applies(t, s.Keys) && Movable(t, r.Keys, s.Keys) ==> (TermHolds(t, Joined(r, s)) <==> TermHolds(t, s))
  {
  }

  /** On a joined row the three parts together say what the whole predicate says. */
  lemma {:induction false} SplitHolds(p: Predicate, r: Row, s: Row)
    requires forall i :: 0 <= i < |p| ==> Applies(p[i], r.Keys + s.Keys) && Movable(p[i], r.Keys, s.Keys)
    ensures Holds(p, Joined(r, s)) <==>
            Holds(SelectSub(p, r.Keys), r) && Holds(SelectSub(p, s.Keys), s) && Holds(JoinSub(p, r.Keys, s.Keys), Joined(r, s))
  {
    hide Holds, TermHolds, Joined, Applies, Movable;
    if p != [] {
      var n := |p| - 1;
      forall i | 0 <= i < n ensures Applies(p[..n][i], r.Keys + s.Keys) && Movable(p[..n][i], r.Keys, s.Keys) {
        assert p[..n][i] == p[i];
      }
      SplitHolds(p[..n], r, s);
      HoldsSplit(p, Joined(r, s));
      TermLocal(p[n], r, s);
      HoldsAppend(SelectSub(p[..n], r.Keys), p[n], r);
      HoldsAppend(SelectSub(p[..n], s.Keys), p[n], s);
      HoldsAppend(JoinSub(p[..n], r.Keys, s.Keys), p[n], Joined(r, s));
    } else {
      HoldsEmpty(Joined(r, s));
      HoldsEmpty(r);
      HoldsEmpty(s);
    }
  }

  lemma {:induction false} HoldsEmpty(r: Row)
    ensures Holds([], r)
  {
  }

  lemma {:induction false} FilterAppend(p: Predicate, a: seq<Row>, b: seq<Row>)
    ensures Filter(p, a + b) == Filter(p, a) + Filter(p, b)
  {
    hide Holds;
    if a == [] {
      assert a + b == b;
    } else {
      assert (a + b)[1..] == a[1..] + b;
      FilterAppend(p, a[1..], b);
    }
  }

  lemma {:induction false} PairsAt(r: Row, b: seq<Row>)
    ensures |Pairs(r, b)| == |b| && forall i :: 0 <= i < |b| ==> Pairs(r, b)[i] == Joined(r, b[i])
  {
    hide Joined;
    if b != [] {
      PairsAt(r, b[1..]);
    }
  }

  /** Every term is over the fields of the inputs, and those over the second input alone may be moved there. */
  predicate Pushable(p: Predicate, schema1: set<string>, schema2: set<string>) {
    forall i :: 0 <= i < |p| ==> Applies(p[i], schema1 + schema2) && Movable(p[i], schema1, schema2)
  }

  /** The product after pushing the parts of the predicate down. */
  function Pushed(p: Predicate, a: seq<Row>, b: seq<Row>, schema1: set<string>, schema2: set<string>): seq<Row> {
    Filter(JoinSub(p, schema1, schema2), Cross(Filter(SelectSub(p, schema1), a), Filter(SelectSub(p, schema2), b)))
  }

  lemma {:induction false} PushPairs(p: Predicate, r: Row, b: seq<Row>, schema: set<string>)
    requires OfSchema(b, schema) && Pushable(p, r.Keys, schema)
    ensures Filter(p, Pairs(r, b)) ==
            if Holds(SelectSub(p, r.Keys), r) then Filter(JoinSub(p, r.Keys, schema), Pairs(r, Filter(SelectSub(p, schema), b))) else []
  {
    hide Holds, Joined, SelectSub, JoinSub, Applies, Movable;
    if b != [] {
      PushPairs(p, r, b[1..], schema);
      SplitHolds(p, r, b[0]);
      assert Pairs(r, b)[1..] == Pairs(r, b[1..]);
      FilterCons(JoinSub(p, r.Keys, schema), Joined(r, b[0]), Pairs(r, Filter(SelectSub(p, schema), b[1..])));
      FilterCons(p, Joined(r, b[0]), Pairs(r, b[1..]));
      PairsCons(r, b[0], Filter(SelectSub(p, schema), b[1..]));
    }
  }

  lemma {:induction false} FilterCons(p: Predicate, r: Row, rows: seq<Row>)
    ensures Filter(p, [r] + rows) == if Holds(p, r) then [r] + Filter(p, rows) else Filter(p, rows)
  {
    assert ([r] + rows)[1..] == rows;
  }

  lemma {:induction false} PairsCons(r: Row, s: Row, rows: seq<Row>)
    ensures Pairs(r, [s] + rows) == [Joined(r, s)] + Pairs(r, rows)
  {
    assert ([s] + rows)[1..] == rows;
  }

  /** Pushdown keeps the result, row for row: filtering each input by its own terms and the product by the
      terms that need both is filtering the product by the whole predicate. */
  lemma {:induction false} Pushdown(p: Predicate, a: seq<Row>, b: seq<Row>, schema1: set<string>, schema2: set<string>)
    requires OfSchema(a, schema1) && OfSchema(b, schema2) && Pushable(p, schema1, schema2)
    ensures Filter(p, Cross(a, b)) == Pushed(p, a, b, schema1, schema2)
  {
    hide Holds, SelectSub, JoinSub, Pushable;
    if a == [] {
      assert Filter(SelectSub(p, schema1), a) == [];
    } else {
      var fb := Filter(SelectSub(p, schema2), b);
      var fa := Filter(SelectSub(p, schema1), a[1..]);
      Pushdown(p, a[1..], b, schema1, schema2);
      PushPairs(p, a[0], b, schema2);
      FilterAppend(p, Pairs(a[0], b), Cross(a[1..], b));
      FilterAppend(JoinSub(p, schema1, schema2), Pairs(a[0], fb), Cross(fa, fb));
      assert ([a[0]] + fa)[1..] == fa;
    }
  }

  function SomeOther(c: Constant): (d: Constant)
    ensures d != c && SameKind(c, d)
  {
    match c
    case IntVal(i) => IntVal(i + 1)
    case StrVal(s) => StrVal(s + " ")
  }

  function Uniform(schema: set<string>, c: Constant): (r: Row)
    ensures r.Keys == schema
  {
    map f | f in schema :: c
  }

  /** The value that makes the term hold on a row that has it everywhere. */
  function Common(t: Term): Constant {
    if t.lhs.Const? then t.lhs.value else if t.rhs.Const? then t.rhs.value else IntVal(0)
  }

  /** A term on a field both inputs have breaks pushdown: on these two rows the product shows one that satisfies
      the term, and the right input alone does not. */
  lemma {:induction false} SharedField(t: Term, schema1: set<string>, schema2: set<string>) returns (r: Row, s: Row)
    requires Applies(t, schema2) && !Movable(t, schema1, schema2)
    ensures r.Keys == schema1 && s.Keys == schema2
    ensures Filter([t], Cross([r], [s])) == [Joined(r, s)] && Pushed([t], [r], [s], schema1, schema2) == []
  {
    var c := Common(t);
    var f := if t.lhs.Field? && t.lhs.name in schema1 then t.lhs.name else t.rhs.name;
    r, s := Uniform(schema1, c), Uniform(schema2, c)[f := SomeOther(c)];
    assert TermHolds(t, Joined(r, s)) && !TermHolds(t, s);
    hide TermHolds, Joined, Applies, Movable;
    OnTwoRows(t, r, s, schema1, schema2);
  }

  lemma {:induction false} OnTwoRows(t: Term, r: Row, s: Row, schema1: set<string>, schema2: set<string>)
    requires Applies(t, schema2) && TermHolds(t, Joined(r, s)) && !TermHolds(t, s)
    ensures Filter([t], Cross([r], [s])) == [Joined(r, s)] && Pushed([t], [r], [s], schema1, schema2) == []
  {
    hide TermHolds, Joined, Applies, Holds;
    OneTerm(t, Joined(r, s));
    OneTerm(t, s);
    assert Cross([r], [s]) == [Joined(r, s)] by {
      assert Pairs(r, [s]) == [Joined(r, s)];
    }
    assert [t][..0] == [] && SelectSub([], schema2) == [];
    assert SelectSub([t], schema2) == [t];
    assert Filter([t], [s]) == [];
    CrossNothing(Filter(SelectSub([t], schema1), [r]));
  }

  lemma {:induction false} OneTerm(t: Term, r: Row)
    ensures Holds([t], r) <==> TermHolds(t, r)
  {
    assert [t][0] == t;
  }

  ghost predicate PushesDown(p: Predicate, schema1: set<string>, schema2: set<string>) {
    forall a, b :: OfSchema(a, schema1) && OfSchema(b, schema2) ==> Filter(p, Cross(a, b)) == Pushed(p, a, b, schema1, schema2)
  }

  /** For one term the condition is exact: pushing it down is right on all inputs exactly when it may be moved. */
  lemma {:induction false} PushdownExact(t: Term, schema1: set<string>, schema2: set<string>)
    requires Applies(t, schema1 + schema2)
    ensures PushesDown([t], schema1, schema2) <==> Movable(t, schema1, schema2)
  {
    hide Pushed, Filter, Cross, Movable, Applies;
    if Movable(t, schema1, schema2) {
      assert Pushable([t], schema1, schema2);
      forall a, b | OfSchema(a, schema1) && OfSchema(b, schema2)
        ensures Filter([t], Cross(a, b)) == Pushed([t], a, b, schema1, schema2)
      {
        Pushdown([t], a, b, schema1, schema2);
      }
    } else {
      MovedOnly(t, schema1, schema2);
      var r, s := SharedField(t, schema1, schema2);
      assert OfSchema([r], schema1) && OfSchema([s], schema2);
    }
  }

  lemma {:induction false} MovedOnly(t: Term, schema1: set<string>, schema2: set<string>)
    requires !Movable(t, schema1, schema2)
    ensures Applies(t, schema2)
  {
  }
}

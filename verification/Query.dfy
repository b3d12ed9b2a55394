/** Query execution (src/plan/BasicQueryPlanner.cpp, src/scan/ProductScan.cpp, SelectScan.cpp, ProjectScan.cpp).

    A scan is a tree of scans. The source's scan objects of different classes share an interface; here a scan
    is a value, and next returns the scan in its new state. There is no answer where the source throws or goes
    through a null pointer. */
module Query {
  import opened Options
  import opened Rows
  import opened Predicates

  datatype Scan =
    | Table(rows: seq<Row>, pos: int)
    | Product(s1: Scan, s2: Scan)
    | Select(s: Scan, pred: Predicate)
    | Project(s: Scan, fields: seq<string>)

  /** The row the getters read. */
  function Current(s: Scan): Row {
    match s
    case Table(rows, pos) => if 0 <= pos < |rows| then rows[pos] else map[]
    case Product(s1, s2) => Joined(Current(s1), Current(s2))
    case Select(t, _) => Current(t)
    case Project(t, fields) => Projected(fields, Current(t))
  }

  /** The rows of the whole scan. */
  function All(s: Scan): seq<Row> {
    match s
    case Table(rows, _) => rows
    case Product(s1, s2) => Cross(All(s1), All(s2))
    case Select(t, p) => Filter(p, All(t))
    case Project(t, fields) => ProjectAll(fields, All(t))
  }

  /** The rows after the current one. */
  ghost function Left(s: Scan): seq<Row> {
    match s
    case Table(rows, pos) => if -1 <= pos < |rows| then rows[pos + 1..] else []
    case Product(s1, s2) => Pairs(Current(s1), Left(s2)) + Cross(Left(s1), All(s2))
    case Select(t, p) => Filter(p, Left(t))
    case Project(t, fields) => ProjectAll(fields, Left(t))
  }

  ghost predicate AllEvaluable(p: Predicate, rows: seq<Row>) {
    forall i :: 0 <= i < |rows| ==> Evaluable(p, rows[i])
  }

  ghost predicate Ranged(s: Scan) {
    match s
    case Table(rows, pos) => -1 <= pos <= |rows|
    case Product(s1, s2) => Ranged(s1) && Ranged(s2)
    case Select(t, _) => Ranged(t)
    case Project(t, _) => Ranged(t)
  }

  /** The selections have got past the rows before the current one. */
  ghost predicate Checked(s: Scan) {
    match s
    case Table(_, _) => true
    case Product(s1, s2) => Checked(s1) && Checked(s2)
    case Select(t, p) => Checked(t) && (AllEvaluable(p, Left(t)) <==> AllEvaluable(p, All(t)))
    case Project(t, _) => Checked(t)
  }

  /** No condition of the tree fails to evaluate on a row it is asked about. */
  ghost predicate Fine(s: Scan) {
    match s
    case Table(_, _) => true
    case Product(s1, s2) => Fine(s1) && Fine(s2)
    case Select(t, p) => Fine(t) && AllEvaluable(p, All(t))
    case Project(t, _) => Fine(t)
  }

  /** Products of tables. */
  predicate Plain(s: Scan) {
    match s
    case Table(_, _) => true
    case Product(s1, s2) => Plain(s1) && Plain(s2)
    case Select(_, _) => false
    case Project(_, _) => false
  }

  /** Selections and projections of one such product. */
  predicate Straight(s: Scan) {
    match s
    case Table(_, _) => true
    case Product(s1, s2) => Plain(s)
    case Select(t, _) => Straight(t)
    case Project(t, _) => Straight(t)
  }

  /** The rightmost table is empty: whatever the state of the others, next answers that there is no row. */
  predicate Silent(s: Scan) {
    match s
    case Table(rows, _) => rows == []
    case Product(s1, s2) => Plain(s1) && Silent(s2)
    case Select(_, _) => false
    case Project(_, _) => false
  }

  /** Some table is empty. */
  predicate Hollow(s: Scan) {
    match s
    case Table(rows, _) => rows == []
    case Product(s1, s2) => Hollow(s1) || Hollow(s2)
    case Select(t, _) => Hollow(t)
    case Project(t, _) => Hollow(t)
  }

  /** The left input of every product has rows, or nothing ever comes from its right input. */
  ghost predicate Firm(s: Scan) {
    match s
    case Table(_, _) => true
    case Product(s1, s2) => (Plain(s1) && Silent(s2)) || (Firm(s1) && Firm(s2) && All(s1) != [])
    case Select(t, _) => Firm(t)
    case Project(t, _) => Firm(t)
  }

  predicate Positioned(s: Scan) {
    match s
    case Table(rows, pos) => 0 <= pos < |rows|
    case Product(s1, s2) => Positioned(s1) && Positioned(s2)
    case Select(t, _) => Positioned(t)
    case Project(t, _) => Positioned(t)
  }

  /** next has not yet answered that there is no row, or always does. */
  predicate Alive(s: Scan) {
    match s
    case Table(rows, pos) => pos < |rows| || rows == []
    case Product(s1, s2) => (Plain(s1) && Silent(s2)) || (Positioned(s1) && Alive(s2))
    case Select(t, _) => Alive(t)
    case Project(t, _) => Alive(t)
  }

  /** The product announces a right row although its left input has none. */
  ghost predicate Doomed(s: Scan) {
    match s
    case Table(_, _) => false
    case Product(s1, s2) => Plain(s1) && Hollow(s1) && Firm(s2) && Alive(s2) && Checked(s2) && Left(s2) != []
    case Select(t, _) => Doomed(t)
    case Project(t, _) => Doomed(t)
  }

  /** The same tree, but for the positions. */
  predicate Alike(s: Scan, t: Scan) {
    match s
    case Table(rows, _) => t.Table? && t.rows == rows
    case Product(s1, s2) => t.Product? && Alike(s1, t.s1) && Alike(s2, t.s2)
    case Select(u, p) => t.Select? && t.pred == p && Alike(u, t.s)
    case Project(u, fields) => t.Project? && t.fields == fields && Alike(u, t.s)
  }

  lemma {:induction false} AlikeIs(s: Scan, t: Scan)
    requires Alike(s, t)
    ensures All(t) == All(s) && Height(t) == Height(s) && (Plain(t) <==> Plain(s)) && (Straight(t) <==> Straight(s))
    ensures (Silent(t) <==> Silent(s)) && (Hollow(t) <==> Hollow(s)) && (Firm(t) <==> Firm(s)) && (Fine(t) <==> Fine(s))
  {
    hide Cross, Filter, ProjectAll, AllEvaluable;
    match s
    case Table(_, _) =>
    case Product(s1, s2) =>
      AlikeIs(s1, t.s1);
      AlikeIs(s2, t.s2);
    case Select(u, _) => AlikeIs(u, t.s);
    case Project(u, _) => AlikeIs(u, t.s);
  }

  lemma {:induction false} PositionedIs(s: Scan)
    requires Positioned(s)
    ensures Alive(s) && !Hollow(s)
  {
    match s
    case Table(_, _) =>
    case Product(s1, s2) =>
      PositionedIs(s1);
      PositionedIs(s2);
    case Select(t, _) => PositionedIs(t);
    case Project(t, _) => PositionedIs(t);
  }

  lemma {:induction false} SilentIs(s: Scan)
    requires Silent(s)
    ensures Plain(s) && Firm(s) && Alive(s) && All(s) == [] == Left(s)
  {
    match s
    case Table(_, _) =>
    case Product(s1, s2) =>
      SilentIs(s2);
      CrossNothing(All(s1));
      CrossNothing(Left(s1));
  }

  lemma {:induction false} HollowIs(s: Scan)
    requires Plain(s) && Hollow(s)
    ensures All(s) == []
  {
    match s
    case Table(_, _) =>
    case Product(s1, s2) =>
      if Hollow(s1) {
        HollowIs(s1);
      } else {
        HollowIs(s2);
        CrossNothing(All(s1));
      }
  }

  lemma {:induction false} DoomedIs(s: Scan)
    requires Doomed(s)
    ensures !Firm(s)
  {
    hide Left, All;
    match s
    case Product(s1, s2) =>
      HollowIs(s1);
      if Silent(s2) {
        SilentIs(s2);
      }
    case Select(t, _) => DoomedIs(t);
    case Project(t, _) => DoomedIs(t);
  }

  lemma {:induction false} PlainIs(s: Scan)
    requires Plain(s)
    ensures Fine(s) && Straight(s) && Checked(s)
  {
    match s
    case Table(_, _) =>
    case Product(s1, s2) =>
      PlainIs(s1);
      PlainIs(s2);
  }

  function Height(s: Scan): nat {
    match s
    case Table(_, _) => 0
    case Product(s1, s2) => 1 + if Height(s1) > Height(s2) then Height(s1) else Height(s2)
    case Select(t, _) => 1 + Height(t)
    case Project(t, _) => 1 + Height(t)
  }

  /** What next promises: exactly the rows left, one at a time. */
  ghost predicate Stepped(s: Scan, t: Scan, more: bool) {
    && (more <==> Left(s) != [])
    && (more ==> Positioned(t) && Left(s) == [Current(t)] + Left(t))
  }

  /** next on a scan in working order: without an answer a condition has failed, and when the end is reached
      none has. */
  ghost predicate Answered(s: Scan, t: Scan, more: Option<bool>) {
    if more.None? then !Fine(s)
    else
      && Ranged(t) && (more.value ==> Checked(t)) && Alike(s, t) && Stepped(s, t, more.value)
      && (Straight(s) && !more.value ==> Fine(s))
  }

  /** The three states in which a scan is asked: in working order, a product of tables in any state, and one that
      announces a row it does not have. */
  ghost predicate Moved(s: Scan, t: Scan, more: Option<bool>) {
    && (Firm(s) && Alive(s) && Checked(s) ==> Answered(s, t, more))
    && (Plain(s) ==> more.Some? && Ranged(t) && Alike(s, t) && (Silent(s) ==> !more.value))
    && (Doomed(s) && more.Some? ==> more.value && !Positioned(t))
  }

  ghost predicate InOrder(s: Scan) {
    Ranged(s) && (Plain(s) || (Checked(s) && Firm(s) && Alive(s)))
  }

  ghost predicate Askable(s: Scan) {
    InOrder(s) || (Ranged(s) && Doomed(s))
  }

  /** What beforeFirst promises; the left input of a product is moved to its first row, which may fail. */
  ghost predicate Rewound(s: Scan, t: Option<Scan>) {
    && (t.None? ==> !Fine(s) && !Plain(s))
    && (t.Some? ==> Ranged(t.value) && Checked(t.value) && Alike(s, t.value) && (Firm(s) ==> Alive(t.value) && Left(t.value) == All(s)))
  }

  method BeforeFirst(s: Scan) returns (t: Option<Scan>)
    requires Ranged(s) && (Plain(s) || Firm(s))
    ensures Rewound(s, t)
    decreases Height(s), 1
  {
    match s
    case Table(rows, pos) => t := Some(Table(rows, -1));
    case Product(s1, s2) => t := RewindProduct(s1, s2);
    case Select(u, p) =>
      var v := BeforeFirst(u);
      if v.None? {
        return None;
      }
      AlikeIs(u, v.value);
      t := Some(Select(v.value, p));
    case Project(u, fields) =>
      var v := BeforeFirst(u);
      if v.None? {
        return None;
      }
      t := Some(Project(v.value, fields));
  }

  /** The left input, on its first row if it has one, with the right one rewound. */
  lemma {:induction false} Rewinds(s1: Scan, s2: Scan, t1: Scan, u1: Scan, more: bool, t2: Scan)
    requires Plain(Product(s1, s2)) || Firm(Product(s1, s2))
    requires Rewound(s1, Some(t1)) && Rewound(s2, Some(t2)) && Moved(t1, u1, Some(more))
    ensures Rewound(Product(s1, s2), Some(Product(u1, t2)))
  {
    hide Left, All, Current, Fine, Cross, Pairs;
    var s, t := Product(s1, s2), Product(u1, t2);
    AlikeIs(s1, t1);
    AlikeIs(s2, t2);
    AlikeIs(t1, u1);
    if Plain(t1) {
      PlainIs(u1);
    }
    AlikeTrans(s1, t1, u1);
    if Silent(s) {
      AlikeIs(s, t);
      SilentIs(s);
      SilentIs(t);
    } else if Firm(s) {
      OfProduct(s1, s2);
      OfProduct(u1, t2);
      CrossCons(Current(u1), Left(u1), All(s2));
    }
  }

  method RewindProduct(s1: Scan, s2: Scan) returns (t: Option<Scan>)
    requires Ranged(Product(s1, s2)) && (Plain(Product(s1, s2)) || Firm(Product(s1, s2)))
    ensures Rewound(Product(s1, s2), t)
    decreases Height(Product(s1, s2)), 0
  {
    hide Cross, Pairs, Joined, AllEvaluable, Filter, ProjectAll, Left, All, Current, Fine, Moved, Rewound, Straight;
    if Silent(s2) {
      SilentIs(s2);
    }
    FineProduct(s1, s2);
    var t1 := BeforeFirst(s1);
    RewoundIs(s1, t1);
    if t1.None? {
      RewoundNone(Product(s1, s2));
      return None;
    }
    var more, u1 := Next(t1.value);
    if more.None? {
      MovedNone(t1.value, u1);
      RewoundNone(Product(s1, s2));
      return None;
    }
    var t2 := BeforeFirst(s2);
    RewoundIs(s2, t2);
    if t2.None? {
      RewoundNone(Product(s1, s2));
      return None;
    }
    Rewinds(s1, s2, t1.value, u1, more.value, t2.value);
    t := Some(Product(u1, t2.value));
  }

  lemma {:induction false} RewoundIs(s: Scan, t: Option<Scan>)
    requires Rewound(s, t) && (Plain(s) || Firm(s))
    ensures t.None? ==> !Fine(s) && !Plain(s)
    ensures t.Some? ==> InOrder(t.value) && Height(t.value) == Height(s) && (Fine(t.value) <==> Fine(s)) && (Plain(t.value) <==> Plain(s))
  {
    hide Left, All, Current, Fine;
    if t.Some? {
      AlikeIs(s, t.value);
    }
  }

  lemma {:induction false} RewoundNone(s: Scan)
    requires !Fine(s) && !Plain(s)
    ensures Rewound(s, None)
  {
  }

  lemma {:induction false} MovedNone(s: Scan, t: Scan)
    requires Moved(s, t, None) && InOrder(s)
    ensures !Fine(s) && !Plain(s)
  {
    hide Fine;
  }

  lemma {:induction false} AlikeTrans(s: Scan, t: Scan, u: Scan)
    requires Alike(s, t) && Alike(t, u)
    ensures Alike(s, u)
  {
    match s
    case Table(_, _) =>
    case Product(s1, s2) =>
      AlikeTrans(s1, t.s1, u.s1);
      AlikeTrans(s2, t.s2, u.s2);
    case Select(v, _) => AlikeTrans(v, t.s, u.s);
    case Project(v, _) => AlikeTrans(v, t.s, u.s);
  }

  lemma {:induction false} AlikeSelf(s: Scan)
    ensures Alike(s, s)
  {
    match s
    case Table(_, _) =>
    case Product(s1, s2) =>
      AlikeSelf(s1);
      AlikeSelf(s2);
    case Select(t, _) => AlikeSelf(t);
    case Project(t, _) => AlikeSelf(t);
  }

  /** A table asked again after its last answer starts over somewhere in its last block. */
  method Next(s: Scan) returns (more: Option<bool>, t: Scan)
    requires Askable(s)
    ensures Moved(s, t, more)
    decreases Height(s), 2
  {
    match s
    case Table(rows, pos) =>
      var to: int := pos + 1;
      if pos == |rows| {
        to :| 0 <= to <= |rows|;
      }
      t := Table(rows, to);
      more := Some(to < |rows|);
    case Product(s1, s2) =>
      more, t := NextProduct(s1, s2);
    case Select(u, p) =>
      more, t := NextSelect(u, p);
    case Project(u, fields) =>
      var v;
      more, v := Next(u);
      t := Project(v, fields);
      if more.Some? && more.value {
        ProjectCons(fields, Current(v), Left(v));
      }
  }

  lemma {:induction false} ProjectCons(fields: seq<string>, r: Row, rows: seq<Row>)
    ensures ProjectAll(fields, [r] + rows) == [Projected(fields, r)] + ProjectAll(fields, rows)
  {
    assert ([r] + rows)[1..] == rows;
  }

  lemma {:induction false} CrossCons(r: Row, a: seq<Row>, b: seq<Row>)
    ensures Cross([r] + a, b) == Pairs(r, b) + Cross(a, b)
  {
    assert ([r] + a)[1..] == a;
  }

  lemma {:induction false} PairsNothing(r: Row)
    ensures Pairs(r, []) == []
  {
  }

  lemma {:induction false} CrossOfNothing(b: seq<Row>)
    ensures Cross([], b) == []
  {
  }

  lemma {:induction false} OfProduct(s1: Scan, s2: Scan)
    ensures var s := Product(s1, s2);
      && All(s) == Cross(All(s1), All(s2)) && Current(s) == Joined(Current(s1), Current(s2))
      && Left(s) == Pairs(Current(s1), Left(s2)) + Cross(Left(s1), All(s2))
  {
  }

  /** The right side has a row to go with the left row r; x comes later. */
  lemma {:induction false} RightRow(r: Row, c: Row, rows: seq<Row>, x: seq<Row>)
    ensures Pairs(r, [c] + rows) + x == [Joined(r, c)] + (Pairs(r, rows) + x)
  {
    hide Joined;
    PairsCons(r, c, rows);
  }

  /** The next left row c starts over with the right side b. */
  lemma {:induction false} LeftRow(c: Row, rows: seq<Row>, b: seq<Row>)
    ensures Cross([c] + rows, b) == Pairs(c, b) + Cross(rows, b)
    ensures b == [] ==> Cross([c] + rows, b) == []
  {
    CrossCons(c, rows, b);
    CrossNothing([c] + rows);
  }

  method NextProduct(s1: Scan, s2: Scan) returns (more: Option<bool>, t: Scan)
    requires Askable(Product(s1, s2))
    ensures Moved(Product(s1, s2), t, more)
    decreases Height(Product(s1, s2)), 1
  {
    hide Pairs, Cross, Joined, Left, All, Current, Height;
    ProductAskable(s1, s2);
    var t2;
    more, t2 := Next(s2);
    if more.None? {
      t := Product(s1, t2);
      return;
    }
    if more.value {
      t := Product(s1, t2);
      MovedRight(s1, s2, t2);
      return;
    }
    more, t := NextLeft(s1, s2, t2);
  }

  /** What the state of a product says of its inputs. */
  lemma {:induction false} ProductAskable(s1: Scan, s2: Scan)
    requires Askable(Product(s1, s2))
    ensures Askable(s2) && Height(s1) < Height(Product(s1, s2)) && Height(s2) < Height(Product(s1, s2))
    ensures InOrder(s2) && (!Doomed(Product(s1, s2)) ==> InOrder(s1))
    ensures Firm(Product(s1, s2)) && Alive(Product(s1, s2)) && Checked(Product(s1, s2)) && !Silent(Product(s1, s2)) ==>
              Firm(s1) && Alive(s1) && Checked(s1) && Firm(s2) && Alive(s2) && Checked(s2)
  {
    hide Left, All;
    if Silent(s2) {
      SilentIs(s2);
    }
    if Positioned(s1) {
      PositionedIs(s1);
    }
  }

  lemma {:induction false} MovedRight(s1: Scan, s2: Scan, t2: Scan)
    requires Askable(Product(s1, s2)) && Moved(s2, t2, Some(true)) && Askable(s2)
    ensures Moved(Product(s1, s2), Product(s1, t2), Some(true))
  {
    hide Pairs, Cross, Joined, Left, All, Current, Fine, Straight;
    var s, t := Product(s1, s2), Product(s1, t2);
    AlikeSelf(s1);
    if Silent(s2) {
      SilentIs(s2);
    }
    if Hollow(s1) && Positioned(s1) {
      PositionedIs(s1);
    }
    if Firm(s) && Alive(s) {
      OfProduct(s1, s2);
      OfProduct(s1, t2);
      AlikeIs(s2, t2);
      RightRow(Current(s1), Current(t2), Left(t2), Cross(Left(s1), All(s2)));
      RightOnly(s1, s2);
    }
  }

  lemma {:induction false} RightOnly(s1: Scan, s2: Scan)
    ensures Left(s2) != [] ==> Left(Product(s1, s2)) != []
    ensures Straight(Product(s1, s2)) ==> Fine(Product(s1, s2))
  {
    if Plain(Product(s1, s2)) {
      PlainIs(Product(s1, s2));
    }
  }

  /** No left row is left. */
  lemma {:induction false} LeftEnded(s1: Scan, s2: Scan)
    requires Left(s1) == [] && Left(s2) == []
    ensures Left(Product(s1, s2)) == []
  {
    hide Pairs, Cross, Left, All, Current;
    OfProduct(s1, s2);
    PairsNothing(Current(s1));
    CrossOfNothing(All(s2));
  }

  /** The next left row, with the first row of the right input if there is one. */
  lemma {:induction false} LeftMoved(s1: Scan, s2: Scan, t1: Scan, u2: Scan, v2: Scan, more: bool)
    requires Left(s2) == [] && Left(s1) == [Current(t1)] + Left(t1) && All(s2) == Left(u2) && All(v2) == All(s2)
    requires if more then Left(u2) == [Current(v2)] + Left(v2) else Left(u2) == []
    ensures Left(Product(s1, s2)) == if more then [Current(Product(t1, v2))] + Left(Product(t1, v2)) else []
  {
    hide Pairs, Cross, Left, All, Current, Joined;
    OfProduct(s1, s2);
    OfProduct(t1, v2);
    PairsNothing(Current(s1));
    LeftRow(Current(t1), Left(t1), All(s2));
    if more {
      RightRow(Current(t1), Current(v2), Left(v2), Cross(Left(t1), All(s2)));
    }
  }

  /** The right side is through: it starts over, with the next left row. */
  method NextLeft(s1: Scan, s2: Scan, t2: Scan) returns (more: Option<bool>, t: Scan)
    requires Askable(Product(s1, s2)) && !Doomed(Product(s1, s2)) && Ranged(t2) && Alike(s2, t2)
    requires Firm(s2) && Alive(s2) && Checked(s2) ==> Left(s2) == []
    ensures Moved(Product(s1, s2), t, more)
    decreases Height(Product(s1, s2)), 0
  {
    hide All, Current, Left, Fine, Height, Straight, Moved, Rewound, Doomed, Hollow;
    ProductAskable(s1, s2);
    AlikeIs(s2, t2);
    FineProduct(s1, s2);
    var u2 := BeforeFirst(t2);
    RewoundIs(t2, u2);
    if u2.None? {
      FailedLeft(Product(s1, s2), t2);
      return None, t2;
    }
    var more1, t1 := Next(s1);
    if more1.None? {
      MovedNone(s1, t1);
      FailedLeft(Product(s1, s2), t1);
      return None, t1;
    }
    if !more1.value {
      StoppedLeft(s1, s2, t2, u2.value, t1);
      return Some(false), Product(t1, u2.value);
    }
    var v2;
    more, v2 := Next(u2.value);
    t := Product(t1, v2);
    WentOnLeft(s1, s2, t2, u2.value, t1, v2, more);
  }

  lemma {:induction false} FailedLeft(s: Scan, t: Scan)
    requires !Fine(s) && !Plain(s) && !Doomed(s)
    ensures Moved(s, t, None)
  {
  }

  /** Both inputs are through. */
  lemma {:induction false} StoppedLeft(s1: Scan, s2: Scan, t2: Scan, u2: Scan, t1: Scan)
    requires Askable(Product(s1, s2)) && !Doomed(Product(s1, s2)) && Alike(s2, t2)
    requires Firm(s2) && Alive(s2) && Checked(s2) ==> Left(s2) == []
    requires Rewound(t2, Some(u2)) && Moved(s1, t1, Some(false))
    ensures Moved(Product(s1, s2), Product(t1, u2), Some(false))
  {
    hide All, Left, Current, Fine, Straight, Hollow;
    var s := Product(s1, s2);
    ProductAskable(s1, s2);
    AlikeTrans(s2, t2, u2);
    RightOnly(s1, s2);
    if Silent(s) {
      SilentIs(s);
    } else if Firm(s) && Alive(s) && Checked(s) {
      LeftEnded(s1, s2);
    }
  }

  /** The left input has a row, and the right one is asked from its start. */
  lemma {:induction false} WentOnLeft(s1: Scan, s2: Scan, t2: Scan, u2: Scan, t1: Scan, v2: Scan, more: Option<bool>)
    requires Askable(Product(s1, s2)) && !Doomed(Product(s1, s2)) && Alike(s2, t2)
    requires Firm(s2) && Alive(s2) && Checked(s2) ==> Left(s2) == []
    requires Rewound(t2, Some(u2)) && Moved(s1, t1, Some(true)) && Moved(u2, v2, more)
    ensures Moved(Product(s1, s2), Product(t1, v2), more)
  {
    hide All, Left, Current, Fine, Straight, Hollow;
    var s := Product(s1, s2);
    ProductAskable(s1, s2);
    AlikeIs(s2, t2);
    AlikeIs(t2, u2);
    RightOnly(s1, s2);
    FineProduct(s1, s2);
    if Silent(s) {
      SilentIs(s);
    }
    if more.Some? {
      AlikeIs(u2, v2);
      AlikeTrans(s2, t2, u2);
      AlikeTrans(s2, u2, v2);
      if Firm(s) && Alive(s) && Checked(s) && !Silent(s) {
        LeftMoved(s1, s2, t1, u2, v2, more.value);
      }
    }
  }

  lemma {:induction false} FineProduct(s1: Scan, s2: Scan)
    ensures Fine(Product(s1, s2)) <==> Fine(s1) && Fine(s2)
  {
  }

  lemma {:induction false} OfSelect(u: Scan, p: Predicate)
    ensures var s := Select(u, p); All(s) == Filter(p, All(u)) && Current(s) == Current(u) && Left(s) == Filter(p, Left(u))
  {
  }

  lemma {:induction false} FilterNone(p: Predicate)
    ensures Filter(p, []) == []
  {
  }

  lemma {:induction false} EvaluableCons(p: Predicate, r: Row, rows: seq<Row>)
    ensures AllEvaluable(p, [r] + rows) <==> Evaluable(p, r) && AllEvaluable(p, rows)
  {
    hide Evaluable;
    forall i | 0 <= i < |rows| ensures ([r] + rows)[i + 1] == rows[i] {
    }
    if AllEvaluable(p, [r] + rows) {
      assert Evaluable(p, ([r] + rows)[0]);
      forall i | 0 <= i < |rows| ensures Evaluable(p, rows[i]) {
        assert Evaluable(p, ([r] + rows)[i + 1]);
      }
    }
  }

  /** The filtering loop has come to v: what it has passed does not satisfy the predicate. */
  ghost predicate Filtering(u: Scan, p: Predicate, v: Scan, more: Option<bool>) {
    if more.None? then !Fine(u)
    else
      && Ranged(v) && (more.value ==> Checked(v)) && Alike(u, v) && (Straight(u) && !more.value ==> Fine(u))
      && var rest := if more.value then [Current(v)] + Left(v) else [];
         && Filter(p, Left(u)) == Filter(p, rest)
         && (AllEvaluable(p, rest) <==> AllEvaluable(p, All(u)))
         && (more.value ==> Positioned(v))
  }

  lemma {:induction false} FilterStarts(u: Scan, p: Predicate, v: Scan, more: Option<bool>)
    requires Checked(Select(u, p)) && Answered(u, v, more)
    ensures Filtering(u, p, v, more)
  {
    hide Filter, Left, All, Current, AllEvaluable, Fine;
  }

  /** The current row does not satisfy the predicate. */
  lemma {:induction false} FilterGoesOn(u: Scan, p: Predicate, v: Scan, w: Scan, more: Option<bool>)
    requires Filtering(u, p, v, Some(true)) && Evaluable(p, Current(v)) && !Holds(p, Current(v)) && Answered(v, w, more)
    ensures Filtering(u, p, w, more)
    ensures more.Some? && more.value ==> |Left(w)| < |Left(v)|
  {
    hide Filter, Left, All, Current, AllEvaluable, Fine, Holds, Evaluable, Straight;
    AlikeIs(u, v);
    FilterCons(p, Current(v), Left(v));
    EvaluableCons(p, Current(v), Left(v));
    if more.Some? {
      AlikeTrans(u, v, w);
    }
  }

  /** The current row is the next one of the selection. */
  lemma {:induction false} FilterFinds(u: Scan, p: Predicate, v: Scan)
    requires Filtering(u, p, v, Some(true)) && Evaluable(p, Current(v)) && Holds(p, Current(v))
    ensures Answered(Select(u, p), Select(v, p), Some(true))
  {
    hide Filter, Left, All, Current, AllEvaluable, Fine, Holds, Evaluable, Straight;
    AlikeIs(u, v);
    OfSelect(u, p);
    OfSelect(v, p);
    FilterCons(p, Current(v), Left(v));
    EvaluableCons(p, Current(v), Left(v));
  }

  lemma {:induction false} FilteringIs(u: Scan, p: Predicate, v: Scan)
    requires Filtering(u, p, v, Some(true))
    ensures Positioned(v) && Ranged(v) && Checked(v) && Firm(v) == Firm(u) && Alive(v) && Height(v) == Height(u)
  {
    hide Filter, Left, All, Current, AllEvaluable, Fine, Straight;
    AlikeIs(u, v);
    PositionedIs(v);
  }

  lemma {:induction false} FilterStops(u: Scan, p: Predicate, v: Scan)
    requires Filtering(u, p, v, Some(true)) && !Evaluable(p, Current(v))
    ensures Answered(Select(u, p), v, None)
  {
    hide Filter, Left, All, Current, Holds, Evaluable;
    EvaluableCons(p, Current(v), Left(v));
  }

  lemma {:induction false} FilterEnds(u: Scan, p: Predicate, v: Scan)
    requires Filtering(u, p, v, Some(false))
    ensures Answered(Select(u, p), Select(v, p), Some(false))
  {
    hide Left, All, Current, Holds, Evaluable;
    AlikeIs(u, v);
    OfSelect(u, p);
    OfSelect(v, p);
    FilterNone(p);
  }

  lemma {:induction false} FilterFailed(u: Scan, p: Predicate, v: Scan)
    requires Filtering(u, p, v, None)
    ensures Answered(Select(u, p), Select(v, p), None)
  {
  }

  method NextSelect(u: Scan, p: Predicate) returns (more: Option<bool>, t: Scan)
    requires Askable(Select(u, p))
    ensures Moved(Select(u, p), t, more)
    decreases Height(Select(u, p)), 0
  {
    hide Left, All, Current, Filter, Holds, Evaluable, AllEvaluable, Fine, Filtering, Answered, Straight;
    ghost var working := Checked(Select(u, p)) && Firm(u) && Alive(u);
    if Doomed(u) {
      DoomedIs(u);
    }
    var v;
    more, v := Next(u);
    if working {
      FilterStarts(u, p, v, more);
    }
    while more.Some? && more.value
      invariant working ==> Filtering(u, p, v, more)
      invariant !working && more.Some? ==> more.value && !Positioned(v)
      decreases if more.Some? && more.value then 1 + |Left(v)| else 0
    {
      if working {
        FilteringIs(u, p, v);
      }
      if !Positioned(v) {
        return None, v;
      }
      var sat := IsSatisfied(p, Current(v));
      if sat.None? {
        FilterStops(u, p, v);
        return None, v;
      }
      t := Select(v, p);
      if sat.value {
        FilterFinds(u, p, v);
        return;
      }
      ghost var was := v;
      more, v := Next(v);
      FilterGoesOn(u, p, was, v, more);
    }
    t := Select(v, p);
    if more.Some? {
      FilterEnds(u, p, v);
    } else if working {
      FilterFailed(u, p, v);
    }
  }

  /** The loop that reads a scan to its end. */
  method ReadAll(s: Scan) returns (result: Option<seq<Row>>)
    requires Ranged(s) && ((Checked(s) && Firm(s) && Alive(s)) || Doomed(s))
    ensures Doomed(s) ==> result.None?
    ensures !Doomed(s) && result.None? ==> !Fine(s)
    ensures result.Some? ==> result.value == Left(s) && (Straight(s) ==> Fine(s))
  {
    hide Left, All, Fine, Straight;
    ghost var working := !Doomed(s);
    if Doomed(s) {
      DoomedIs(s);
    }
    var rows: seq<Row> := [];
    var more, t := Next(s);
    while more.Some? && more.value
      invariant !working && more.Some? ==> more.value && !Positioned(t)
      invariant working && more.None? ==> !Fine(s)
      invariant working && more.Some? ==> Ranged(t) && (more.value ==> Checked(t)) && Alike(s, t)
      invariant working && more.Some? && more.value ==> Positioned(t) && rows + [Current(t)] + Left(t) == Left(s)
      invariant working && more.Some? && !more.value ==> rows == Left(s) && (Straight(s) ==> Fine(s))
      decreases if more.Some? && more.value then 1 + |Left(t)| else 0
    {
      if !Positioned(t) {
        return None;
      }
      rows := rows + [Current(t)];
      PositionedIs(t);
      AlikeIs(s, t);
      ghost var was := t;
      more, t := Next(t);
      if more.Some? {
        AlikeTrans(s, was, t);
      }
    }
    if more.Some? {
      result := Some(rows);
    } else {
      result := None;
    }
  }

  // ---------------------------------------------------------------- products of stored tables

  /** The source's product of two table scans. The left one's first answer is not looked at. */
  class ProductScan {
    const scan1: Cursor
    const scan2: Cursor

    ghost predicate Valid()
      reads this, scan1, scan2
    {
      && scan1 != scan2 && scan1.Valid() && scan2.Valid() && scan1.pos >= 0
    }

    constructor (scan1: Cursor, scan2: Cursor)
      requires scan1 != scan2 && scan1.Valid() && scan2.Valid() && scan1.pos == scan2.pos == -1
      modifies scan1
      ensures Valid() && this.scan1 == scan1 && this.scan2 == scan2 && scan1.pos == 0
    {
      this.scan1, this.scan2 := scan1, scan2;
      new;
      var ignored := scan1.Next();
    }

    method Next() returns (more: bool)
      requires Valid() && scan2.pos < |scan2.rows| && (scan1.rows != [] ==> scan1.pos < |scan1.rows|)
      modifies scan1, scan2
      ensures Valid()
      ensures old(scan2.pos) + 1 < |scan2.rows| ==> more && scan1.pos == old(scan1.pos) && scan2.pos == old(scan2.pos) + 1
      ensures old(scan2.pos) + 1 == |scan2.rows| ==>
                && more == (old(scan1.pos) + 1 < |scan1.rows| && scan2.rows != [])
                && (scan1.rows != [] ==> scan1.pos == old(scan1.pos) + 1) && (scan1.rows == [] ==> scan1.pos == 0)
                && (more ==> scan2.pos == 0)
    {
      more := scan2.Next();
      if more {
        return;
      }
      scan2.BeforeFirst();
      more := scan1.Next();
      if more {
        more := scan2.Next();
      }
    }
  }

  /** How many rows the product announces: an empty left side is never noticed, and each row of the right
      side is announced once without a left row to go with it. The count is that of the cross product
      exactly when the left side has rows or the right side has none. */
  method CountProduct(left: seq<Row>, right: seq<Row>) returns (n: nat)
    ensures n == if left == [] then |right| else |left| * |right|
    ensures n == |Cross(left, right)| <==> left != [] || right == []
  {
    var scan1 := new Cursor(left);
    var scan2 := new Cursor(right);
    var scan := new ProductScan(scan1, scan2);
    CrossSize(left, right);
    n := 0;
    var more := scan.Next();
    ghost var i, j := scan1.pos, scan2.pos;
    while more
      invariant scan.Valid() && scan.scan1 == scan1 && scan.scan2 == scan2 && fresh(scan1) && fresh(scan2)
      invariant scan1.rows == left && scan2.rows == right
      invariant more ==> right != [] && 0 <= scan2.pos < |right|
      invariant more && left != [] ==> scan1.pos < |left| && n == scan1.pos * |right| + scan2.pos
      invariant more && left == [] ==> n == scan2.pos
      invariant !more ==> n == if left == [] then |right| else |left| * |right|
      decreases if more then 1 + |left| + 1 - scan1.pos else 0, |right| - scan2.pos
    {
      n := n + 1;
      Distribute(scan1.pos, |right|);
      more := scan.Next();
    }
  }

  /** What a product with an empty left side shows of the right rows: fields that the left side has too are read
      there, where no row is. */
  function Shown(rows: seq<Row>, names: set<string>): seq<Row> {
    if rows == [] then [] else [rows[0] - names] + Shown(rows[1..], names)
  }

  /** Where there is no left row a condition can still drop what the product announces: exactly the rows survive whose
      right fields alone satisfy it, and reading a left field fails. The count is right, none, exactly when no right
      row survives. */
  method CountSelected(right: seq<Row>, names: set<string>, pred: Predicate) returns (n: Option<nat>)
    ensures n.Some? <==> AllEvaluable(pred, Shown(right, names))
    ensures n.Some? ==> n.value == |Filter(pred, Shown(right, names))|
  {
    hide Evaluable, Holds;
    var scan1 := new Cursor([]);
    var scan2 := new Cursor(right);
    var scan := new ProductScan(scan1, scan2);
    ghost var all := Shown(right, names);
    ShownIs(right, names);
    n := Some(0);
    var more := scan.Next();
    while more
      invariant scan.Valid() && scan.scan1 == scan1 && scan.scan2 == scan2 && fresh(scan1) && fresh(scan2)
      invariant scan1.rows == [] && scan2.rows == right && n.Some?
      invariant more ==> 0 <= scan2.pos < |right| && SurvivedTo(pred, all, scan2.pos, n.value)
      invariant !more ==> SurvivedTo(pred, all, |right|, n.value)
      decreases if more then 1 else 0, |right| - scan2.pos
    {
      ghost var i := scan2.pos;
      var sat := IsSatisfied(pred, right[scan2.pos] - names);
      SurvivedStep(pred, all, i, n.value);
      if sat.None? {
        return None;
      }
      n := if sat.value then Some(n.value + 1) else n;
      more := scan.Next();
    }
    assert all[..|all|] == all;
  }

  lemma {:induction false} ShownIs(rows: seq<Row>, names: set<string>)
    ensures |Shown(rows, names)| == |rows| && forall i :: 0 <= i < |rows| ==> Shown(rows, names)[i] == rows[i] - names
  {
    if rows != [] {
      ShownIs(rows[1..], names);
    }
  }

  /** Of the first i rows n satisfy the condition, and it could be evaluated on all of them. */
  ghost predicate SurvivedTo(pred: Predicate, all: seq<Row>, i: nat, n: nat) {
    i <= |all| && AllEvaluable(pred, all[..i]) && n == |Filter(pred, all[..i])|
  }

  lemma {:induction false} SurvivedStep(pred: Predicate, all: seq<Row>, i: nat, n: nat)
    requires i < |all| && SurvivedTo(pred, all, i, n)
    ensures Evaluable(pred, all[i]) ==> SurvivedTo(pred, all, i + 1, if Holds(pred, all[i]) then n + 1 else n)
    ensures !Evaluable(pred, all[i]) ==> !AllEvaluable(pred, all)
  {
    hide Evaluable, Holds;
    assert all[..i + 1] == all[..i] + [all[i]];
    FilterAppend(pred, all[..i], [all[i]]);
    FilterCons(pred, all[i], []);
    assert [all[i]] + [] == [all[i]];
  }

  lemma Distribute(a: int, b: int)
    ensures (a + 1) * b == a * b + b
  {
  }

  lemma {:induction false} CrossSize(a: seq<Row>, b: seq<Row>)
    ensures |Cross(a, b)| == |a| * |b|
  {
    if a != [] {
      CrossSize(a[1..], b);
      PairsAt(a[0], b);
      Distribute(|a| - 1, |b|);
    }
  }
}

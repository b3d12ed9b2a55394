/** A key that has just been inserted and that the search does not find (src/indexing/BTreeDir.cpp:25-33 and :65). */
module HiddenKeys {
  import opened Options
  import opened Rids
  import opened BTreePages
  import opened BTreeDirectory
  import opened BTreeLeaves
  import opened BTreeIndexes
  import opened BTreeRuns
  import opened BTreeLookups

  // ---------------------------------------------------------------- ascending keys in leaves full at two records

  /** A leaf with the one record r and no overflow. */
  predicate Single(c: Chain, r: Slot, g: Geometry) {
    c.page.n == 1 && c.page.flag == -1 && |c.page.slots| == g.cap && g.cap >= 1 && Live(c.page) == [r]
  }

  /** Its second record, with a greater key, goes to a new leaf. */
  lemma {:induction false} SingleSplits(c: Chain, r: Slot, key: Key, rid: Rid, next: nat, g: Geometry)
    requires LeafRoomy(g) && g.full == 2 && Single(c, r, g) && r.key < key
    ensures Ordered(Live(c.page))
    ensures var o := LeafInsert(c, key, rid, next, g);
      o.up.Some? && o.upKey == key && o.up.value.blk == next && o.next == next + 1 && Single(o.up.value, RecordOf(key, rid), g)
  {
    var x := RecordOf(key, rid);
    assert CountBefore([r], key) == 1;
    var p := Inserted(c.page, 1, x);
    assert Live(p) == [r, x] && p.slots[0] == Live(p)[0] && p.slots[1] == Live(p)[1];
    assert SplitPos(Live(p)) == 1;
    assert Live(p)[1..] == [x];
  }

  /** j + 1 leaves under one directory page, the last one with the record r only. */
  ghost predicate Climbing(t: Tree, u: Setup, j: nat, r: Slot) {
    && TreeShape(t, u) && t.dir.kids == [] && t.dir.page.n == j + 1 == |Live(t.dir.page)|
    && t.dirSize == 1 && t.leafSize == j + 1 && |t.chains| == j + 1
    && Single(t.chains[j], r, u.leaves) && Live(t.dir.page)[j].key <= r.key
  }

  lemma {:induction false} LastLeaf(t: Tree, u: Setup, j: nat, r: Slot, key: Key)
    requires Climbing(t, u, j, r) && r.key < key
    ensures u.min <= key && LeafOf(t, u, key) == j
  {
    hide LeavesShape, Distinct, Blocks, Shape;
    EntryList(t, u);
    var e := Entries(t.dir);
    assert e == Live(t.dir.page);
    assert j > 0 ==> e[0].key < e[j].key;
    RouteIs(e, key, j);
  }

  /** One directory page with room for an entry behind its last one. */
  lemma {:induction false} RootGains(d: Dir, e: Slot, next: nat, g: Geometry)
    requires Roomy(g) && RootShape(d, g) && d.kids == [] && d.page.n + 1 < g.full
    requires d.page.slots[0].key <= e.key && Fresh(Entries(d), e.key) && CountBefore(Live(d.page), e.key) == d.page.n
    ensures InsertRoot(d, e, next, g) == Dir(d.blk, Inserted(d.page, d.page.n, e), []) && InsertRootSize(d, e, next, g) == next
  {
    hide Inserted, KidShape, Fresh;
    assert InsertDir(d, e, next, NoBound, g) == AddEntry(d, e, [], next, g);
  }

  lemma {:induction false} ClimbStep(t: Tree, u: Setup, j: nat, r: Slot, key: Key, rid: Rid)
    requires Climbing(t, u, j, r) && r.key < key && u.leaves.full == 2 && j + 2 < u.dirs.full
    ensures u.min <= key
    ensures var now := TreeInsert(t, u, key, rid);
      Climbing(now, u, j + 1, RecordOf(key, rid)) && Live(now.dir.page)[j + 1].key == key
  {
    hide LeavesShape, Distinct, Blocks, Shape, InsertRoot, InsertRootSize, LeafInsert, Inserted, Single, LeafSound, Rearranged;
    LastLeaf(t, u, j, r, key);
    LeafReady(t, u, j);
    SingleSplits(t.chains[j], r, key, rid, t.leafSize, u.leaves);
    TreeInsertShape(t, u, key, rid);
    LeafContext(t, u, key, rid);
    var o := LeafStep(t, u, key, rid);
    var x := Slot(o.upKey, o.up.value.blk, 0);
    assert Entries(t.dir) == Live(t.dir.page);
    RootGains(t.dir, x, t.dirSize, u.dirs);
    assert Parted(t.chains, j, o)[j + 1] == o.up.value;
    assert Live(Inserted(t.dir.page, j + 1, x))[j + 1] == x;
  }

  lemma {:induction false} ClimbStart(u: Setup, key: Key, rid: Rid)
    requires SetupOk(u) && u.min < key
    ensures TreeShape(EmptyTree(u), u) && Climbing(TreeInsert(EmptyTree(u), u, key, rid), u, 0, RecordOf(key, rid))
  {
    hide LeafInsert, LeavesShape;
    FirstRecord(u, key, rid);
    TreeInsertShape(EmptyTree(u), u, key, rid);
    EmptyDir(u);
    assert Live(EmptyTree(u).dir.page) == [Slot(u.min, 0, 0)];
  }

  // ---------------------------------------------------------------- the fourth one

  lemma {:induction false} RunHead(t: Tree, u: Setup, ops: seq<Op>)
    requires TreeShape(t, u) && ops != [] && RunReady(t, u, ops)
    ensures Ready(t, u, ops[0]) && RunReady(Step(t, u, ops[0]), u, ops[1..])
    ensures Run(t, u, ops) == Run(Step(t, u, ops[0]), u, ops[1..])
  {
    hide TreeShape, Ready, Step;
  }

  /** The fourth leaf fills the root, which grows and keeps the new entry in its first dead slot. */
  lemma {:induction false} FourthGrows(t: Tree, u: Setup, r: Slot, key: Key, rid: Rid)
    requires Climbing(t, u, 2, r) && r.key < key && Live(t.dir.page)[2].key < key && u.leaves.full == 2 && u.dirs.full == 4
    ensures u.min <= key
    ensures var now := TreeInsert(t, u, key, rid);
      && TreeShape(now, u) && now.dirSize == 3 && now.dir.page.flag == 1 && now.dir.blk == 0
      && 1 <= now.dir.page.n < |now.dir.page.slots| && now.dir.page.slots[0].key <= key
      && FindChild(now.dir.page, key) == 3 && Hidden(now, u, key)
  {
    hide LeavesShape, Distinct, Blocks, InsertRoot, LeafInsert, Inserted, Single, LeafSound, Rearranged, FindChild;
    LastLeaf(t, u, 2, r, key);
    LeafReady(t, u, 2);
    SingleSplits(t.chains[2], r, key, rid, t.leafSize, u.leaves);
    TreeInsertShape(t, u, key, rid);
    LeafContext(t, u, key, rid);
    var o := LeafStep(t, u, key, rid);
    var x := Slot(o.upKey, o.up.value.blk, 0);
    assert Live(t.dir.page)[2] == t.dir.page.slots[2];
    RootKeepsStaleSeparator(t.dir, x, t.dirSize, u.dirs);
    FullRootSize(t.dir, x, t.dirSize, u.dirs);
  }

  lemma {:induction false} FullRootSize(d: Dir, e: Slot, next: nat, g: Geometry)
    requires Roomy(g) && RootShape(d, g) && d.kids == [] && d.page.n + 1 == g.full && d.page.slots[0].key <= e.key
    ensures InsertRootSize(d, e, next, g) == next + 2
  {
    hide Inserted, KidShape;
  }

  /** Four insertions of ascending keys into a new index whose leaves are full at two records and whose directory
      pages at four: the search for the fourth key asks for a directory block that does not exist, although the index
      holds the record. */
  lemma {:induction false} FourthIsLost(u: Setup, a: Rid, b: Rid, c: Rid, d: Rid)
    requires SetupOk(u) && u.leaves.full == 2 && u.dirs.full == 4 && u.min < 1.0
    ensures var ops := [Put(1.0, a), Put(2.0, b), Put(3.0, c), Put(4.0, d)];
      && NewKeys(ops, u.min, {}) && TreeShape(EmptyTree(u), u) && RunReady(EmptyTree(u), u, ops)
      && var t := Run(EmptyTree(u), u, ops);
         && t.dirSize == 3 && t.dir.page.flag == 1 && Askable(t.dir.page, 4.0) && FindChild(t.dir.page, 4.0) == 3
         && Hidden(t, u, 4.0) && Contents(t)[RecordOf(4.0, d)] == 1
         && forall f, rids :: Stored(t.dir, f) && |f| == t.dirSize ==> !Gives(t, f, 4.0, rids)
  {
    hide TreeShape, Climbing, TreeInsert, Ready, Hidden, Stored, Gives, Tidy, Contents, RunReady, Run, EmptyTree;
    var ops := [Put(1.0, a), Put(2.0, b), Put(3.0, c), Put(4.0, d)];
    var ops1, ops2, ops3 := [Put(2.0, b), Put(3.0, c), Put(4.0, d)], [Put(3.0, c), Put(4.0, d)], [Put(4.0, d)];
    assert ops[1..] == ops1 && ops1[1..] == ops2 && ops2[1..] == ops3 && ops3[1..] == [];
    FourNewKeys(u, a, b, c, d);
    EmptyTidy(u);
    NewKeysReady(EmptyTree(u), u, ops, {});
    ClimbStart(u, 1.0, a);
    var t0 := EmptyTree(u);
    RunHead(t0, u, ops);
    var t1 := Step(t0, u, ops[0]);
    RunHead(t1, u, ops1);
    ClimbStep(t1, u, 0, RecordOf(1.0, a), 2.0, b);
    var t2 := Step(t1, u, ops1[0]);
    RunHead(t2, u, ops2);
    ClimbStep(t2, u, 1, RecordOf(2.0, b), 3.0, c);
    var t3 := Step(t2, u, ops2[0]);
    RunHead(t3, u, ops3);
    FourthGrows(t3, u, RecordOf(3.0, c), 4.0, d);
    var t := Step(t3, u, ops3[0]);
    NoMoreOps(t, u);
    FourRecords(u, ops, a, b, c, d);
    forall f, rids | Stored(t.dir, f) && |f| == t.dirSize ensures !Gives(t, f, 4.0, rids) {
      GoesNowhere(t, f, 4.0, rids);
    }
  }

  lemma {:induction false} NoMoreOps(t: Tree, u: Setup)
    requires TreeShape(t, u)
    ensures RunReady(t, u, []) && Run(t, u, []) == t
  {
  }

  lemma {:induction false} FirstNewKey(op: Op, rest: seq<Op>, min: Key, used: set<Key>)
    requires op.Put? && min < op.key && op.key !in used && op.key != DEFAULT.key && NewKeys(rest, min, used + {op.key})
    ensures NewKeys([op] + rest, min, used)
  {
    assert ([op] + rest)[1..] == rest;
  }

  lemma {:induction false} FourNewKeys(u: Setup, a: Rid, b: Rid, c: Rid, d: Rid)
    requires u.min < 1.0
    ensures NewKeys([Put(1.0, a), Put(2.0, b), Put(3.0, c), Put(4.0, d)], u.min, {})
  {
    FirstNewKey(Put(4.0, d), [], u.min, {1.0, 2.0, 3.0});
    assert {1.0, 2.0} + {3.0} == {1.0, 2.0, 3.0};
    FirstNewKey(Put(3.0, c), [Put(4.0, d)], u.min, {1.0, 2.0});
    assert {1.0} + {2.0} == {1.0, 2.0};
    FirstNewKey(Put(2.0, b), [Put(3.0, c), Put(4.0, d)], u.min, {1.0});
    assert {} + {1.0} == {1.0};
    FirstNewKey(Put(1.0, a), [Put(2.0, b), Put(3.0, c), Put(4.0, d)], u.min, {});
  }

  lemma {:induction false} SpecFirst(m: multiset<Slot>, op: Op, rest: seq<Op>)
    ensures Spec(m, [op] + rest) == Spec(Apply(m, op), rest)
  {
    assert ([op] + rest)[1..] == rest;
  }

  lemma {:induction false} FourRecords(u: Setup, ops: seq<Op>, a: Rid, b: Rid, c: Rid, d: Rid)
    requires SetupOk(u) && TreeShape(EmptyTree(u), u) && RunReady(EmptyTree(u), u, ops)
    requires ops == [Put(1.0, a), Put(2.0, b), Put(3.0, c), Put(4.0, d)]
    ensures Contents(Run(EmptyTree(u), u, ops))[RecordOf(4.0, d)] == 1
  {
    hide TreeShape, RunReady, Run, EmptyTree, Contents, Spec;
    EmptyTreeOk(u);
    RunContents(EmptyTree(u), u, ops);
    var m1 := multiset{} + multiset{RecordOf(1.0, a)};
    var m2 := m1 + multiset{RecordOf(2.0, b)};
    var m3 := m2 + multiset{RecordOf(3.0, c)};
    SpecFirst(multiset{}, Put(1.0, a), [Put(2.0, b), Put(3.0, c), Put(4.0, d)]);
    assert ops == [Put(1.0, a)] + [Put(2.0, b), Put(3.0, c), Put(4.0, d)];
    SpecFirst(m1, Put(2.0, b), [Put(3.0, c), Put(4.0, d)]);
    assert [Put(2.0, b), Put(3.0, c), Put(4.0, d)] == [Put(2.0, b)] + [Put(3.0, c), Put(4.0, d)];
    SpecFirst(m2, Put(3.0, c), [Put(4.0, d)]);
    assert [Put(3.0, c), Put(4.0, d)] == [Put(3.0, c)] + [Put(4.0, d)];
    SpecFirst(m3, Put(4.0, d), []);
    assert [Put(4.0, d)] == [Put(4.0, d)] + [];
    NoOps(m3 + multiset{RecordOf(4.0, d)});
    assert m3[RecordOf(4.0, d)] == 0;
  }

  lemma {:induction false} NoOps(m: multiset<Slot>)
    ensures Spec(m, []) == m
  {
  }

  /** A search that leaves the root for a block outside the file ends nowhere. */
  lemma {:induction false} GoesNowhere(t: Tree, f: seq<Page>, key: Key, rids: seq<Rid>)
    requires Stored(t.dir, f) && t.dir.blk == 0 && t.dir.page.flag > 0
    requires Askable(t.dir.page, key) && FindChild(t.dir.page, key) >= |f|
    ensures !Gives(t, f, key, rids)
  {
    hide FindChild, Lookup;
    forall n, leaf ensures !Ends(f, 0, key, n, leaf) {
      assert f[0] == t.dir.page;
    }
  }
}

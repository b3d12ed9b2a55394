/** Which insertions never meet the dead slot of a directory page (src/indexing/BTreeDir.cpp:65): those of keys that
    differ from each other and from the value format leaves in a slot. */
module BTreeRuns {
  import opened Options
  import opened Rids
  import opened BTreePages
  import opened BTreeDirectory
  import opened BTreeLeaves
  import opened BTreeIndexes

  /** Every slot of the page, live or dead, holds one of these keys. */
  predicate PageKeys(p: Page, keys: set<Key>) {
    forall i :: 0 <= i < |p.slots| ==> p.slots[i].key in keys
  }

  /** And so does every page of the directory. */
  predicate SlotKeys(d: Dir, keys: set<Key>) {
    PageKeys(d.page, keys) && forall i :: 0 <= i < |d.kids| ==> SlotKeys(d.kids[i], keys)
  }

  lemma {:induction false} SlotKeysGrow(d: Dir, keys: set<Key>, more: set<Key>)
    requires SlotKeys(d, keys) && keys <= more
    ensures SlotKeys(d, more)
  {
    forall i | 0 <= i < |d.kids| ensures SlotKeys(d.kids[i], more) {
      SlotKeysGrow(d.kids[i], keys, more);
    }
  }

  /** A key that is in no slot meets no dead slot. */
  lemma {:induction false} NoDeadHit(d: Dir, hi: Bound, g: Geometry, key: Key, keys: set<Key>)
    requires Shape(d, hi, g) && d.page.n < g.full && d.page.slots[0].key <= key && SlotKeys(d, keys) && key !in keys
    ensures Clean(d, hi, g, key)
  {
    if d.kids != [] {
      var i := Route(Live(d.page), key);
      ShapeParts(d, i, hi, g);
      NoDeadHit(d.kids[i], Top(Live(d.page), i, hi), g, key, keys);
    }
  }

  // ---------------------------------------------------------------- what insertion writes into slots

  lemma {:induction false} InsertedKeys(p: Page, i: nat, r: Slot, keys: set<Key>)
    requires i <= p.n < |p.slots| && PageKeys(p, keys) && r.key in keys
    ensures PageKeys(Inserted(p, i, r), keys)
  {
  }

  lemma {:induction false} PartsKeys(p: Page, pos: nat, flag: int, keys: set<Key>)
    requires pos <= p.n <= |p.slots| && PageKeys(p, keys) && DEFAULT.key in keys
    ensures PageKeys(LeftPart(p, pos), keys) && PageKeys(RightPart(p, pos, flag), keys)
  {
  }

  /** The parts of an outcome. */
  predicate OutcomeKeys(r: BTreeDirectory.Outcome, keys: set<Key>) {
    SlotKeys(r.dir, keys) && (r.up.Some? ==> SlotKeys(r.up.value.dir, keys) && r.up.value.entry.key in keys)
  }

  lemma {:induction false} WidenedKeys(d: Dir, e: Slot, kid: seq<Dir>, keys: set<Key>)
    requires d.page.n < |d.page.slots| && SlotKeys(d, keys) && e.key in keys
    requires forall i :: 0 <= i < |kid| ==> SlotKeys(kid[i], keys)
    ensures SlotKeys(Widened(d, e, kid), keys)
  {
    hide Inserted, PageKeys;
    InsertedKeys(d.page, CountBefore(Live(d.page), e.key), e, keys);
  }

  lemma {:induction false} SplitKeys(w: Dir, next: nat, keys: set<Key>)
    requires 2 <= w.page.n <= |w.page.slots| && SlotKeys(w, keys) && DEFAULT.key in keys
    ensures OutcomeKeys(SplitMiddle(w, next), keys)
  {
    hide LeftPart, RightPart, PageKeys;
    var pos := w.page.n / 2;
    PartsKeys(w.page, pos, w.page.flag, keys);
    PageKey(w.page, pos, keys);
  }

  lemma {:induction false} AddEntryKeys(d: Dir, e: Slot, kid: seq<Dir>, next: nat, g: Geometry, keys: set<Key>)
    requires 2 <= g.full && d.page.n < |d.page.slots| && SlotKeys(d, keys) && e.key in keys && DEFAULT.key in keys
    requires forall i :: 0 <= i < |kid| ==> SlotKeys(kid[i], keys)
    ensures OutcomeKeys(AddEntry(d, e, kid, next, g), keys)
  {
    hide SlotKeys, SplitMiddle;
    WidenedKeys(d, e, kid, keys);
    var w := Widened(d, e, kid);
    if w.page.n >= g.full {
      SplitKeys(w, next, keys);
    }
  }

  lemma {:induction false} PageKey(p: Page, i: nat, keys: set<Key>)
    requires PageKeys(p, keys) && i < |p.slots|
    ensures p.slots[i].key in keys
  {
  }

  lemma {:induction false} AbsorbKeys(d: Dir, i: nat, r: BTreeDirectory.Outcome, g: Geometry, keys: set<Key>)
    requires i < |d.kids| && Roomy(g) && d.page.n < |d.page.slots| && SlotKeys(d, keys) && OutcomeKeys(r, keys) && DEFAULT.key in keys
    ensures OutcomeKeys(Absorb(d, i, r, g), keys)
  {
    hide AddEntry, PageKeys;
    var d1 := d.(kids := d.kids[i := r.dir]);
    assert SlotKeys(d1, keys);
    if r.up.Some? {
      AddEntryKeys(d1, r.up.value.entry, [r.up.value.dir], r.next, g, keys);
    }
  }

  lemma {:induction false} InsertDirKeys(d: Dir, e: Slot, next: nat, hi: Bound, g: Geometry, keys: set<Key>)
    requires Roomy(g) && Shape(d, hi, g) && d.page.n < g.full && d.page.slots[0].key <= e.key
    requires SlotKeys(d, keys) && e.key in keys && DEFAULT.key in keys
    ensures OutcomeKeys(InsertDir(d, e, next, hi, g), keys)
    decreases d
  {
    hide AddEntry, Absorb, PageKeys, OutcomeKeys;
    if d.kids == [] {
      AddEntryKeys(d, e, [], next, g, keys);
    } else {
      var i := Route(Live(d.page), e.key);
      ShapeParts(d, i, hi, g);
      var top := Top(Live(d.page), i, hi);
      InsertDirKeys(d.kids[i], e, next, top, g, keys);
      AbsorbKeys(d, i, InsertDir(d.kids[i], e, next, top, g), g, keys);
    }
  }

  lemma {:induction false} NewRootKeys(d: Dir, u: Sibling, next: nat, keys: set<Key>)
    requires 1 <= d.page.n <= |d.page.slots| && 2 <= |d.page.slots| && DEFAULT.key in keys
    requires SlotKeys(d, keys) && SlotKeys(u.dir, keys) && u.entry.key in keys
    ensures SlotKeys(NewRoot(d, u, next), keys)
  {
    hide Inserted, LeftPart, RightPart, PageKeys;
    var first := Slot(d.page.slots[0].key, next, 0);
    PageKey(d.page, 0, keys);
    PartsKeys(d.page, 0, d.page.flag, keys);
    InsertedKeys(LeftPart(d.page, 0), 0, first, keys);
    var p1 := Inserted(LeftPart(d.page, 0), 0, first);
    InsertedKeys(p1, CountBefore(Live(p1), u.entry.key), u.entry, keys);
    var p2 := Inserted(p1, CountBefore(Live(p1), u.entry.key), u.entry);
    assert PageKeys(p2.(flag := d.page.flag + 1), keys) by {
      SameSlots(p2, p2.(flag := d.page.flag + 1), keys);
    }
  }

  lemma {:induction false} SameSlots(p: Page, q: Page, keys: set<Key>)
    requires PageKeys(p, keys) && q.slots == p.slots
    ensures PageKeys(q, keys)
  {
  }

  /** An insertion at the root writes no key into a slot but those already there, its own and the default. */
  lemma {:induction false} InsertRootKeys(d: Dir, e: Slot, next: nat, g: Geometry, keys: set<Key>)
    requires Roomy(g) && RootShape(d, g) && d.page.slots[0].key <= e.key && Fresh(Entries(d), e.key)
    requires SlotKeys(d, keys) && e.key in keys && DEFAULT.key in keys
    ensures SlotKeys(InsertRoot(d, e, next, g), keys)
  {
    hide Sound, NewRoot, InsertDir, SlotKeys;
    InsertDirKeys(d, e, next, NoBound, g, keys);
    InsertSound(d, e, next, NoBound, g);
    var r := InsertDir(d, e, next, NoBound, g);
    if r.up.Some? {
      RootParts(r, d, g);
      NewRootKeys(r.dir, r.up.value, r.next, keys);
    }
  }

  lemma {:induction false} RootParts(r: BTreeDirectory.Outcome, d: Dir, g: Geometry)
    requires Roomy(g) && Sound(r, d, NoBound, g)
    ensures 1 <= r.dir.page.n <= |r.dir.page.slots| && 2 <= |r.dir.page.slots|
  {
  }

  // ---------------------------------------------------------------- runs of new keys

  ghost function KeysOf(s: seq<Slot>): (keys: set<Key>)
    ensures forall i :: 0 <= i < |s| ==> s[i].key in keys
    ensures forall k :: k in keys ==> exists i :: 0 <= i < |s| && s[i].key == k
  {
    set i | 0 <= i < |s| :: s[i].key
  }

  /** The directory's slots hold separators and the default, the separators are keys of earlier insertions or the
      least key, and the records have keys of earlier insertions. */
  ghost predicate Tidy(t: Tree, u: Setup, used: set<Key>)
    requires TreeShape(t, u)
  {
    && SlotKeys(t.dir, KeysOf(Entries(t.dir)) + {DEFAULT.key})
    && KeysOf(Entries(t.dir)) <= used + {u.min}
    && KeysOf(AllRecords(t.chains)) <= used
  }

  /** A new leaf announces itself with the key of one of its records. */
  lemma {:induction false} UpKeyRecord(c: Chain, key: Key, rid: Rid, next: nat, lo: Key, hi: Bound, g: Geometry)
    requires LeafRoomy(g) && ChainShape(c, lo, hi, g) && lo <= key && Under(key, hi)
    ensures var o := LeafInsert(c, key, rid, next, g); o.up.Some? ==> o.upKey in KeysOf(Records(o.up.value))
  {
    var o := LeafInsertSound(c, key, rid, next, lo, hi, g);
    if o.up.Some? {
      UpKeyFirst(c, key, rid, next, g);
      assert Live(o.up.value.page)[0] == o.up.value.page.slots[0];
      assert Records(o.up.value)[0] == Live(o.up.value.page)[0];
    }
  }

  lemma {:induction false} UpKeyFirst(c: Chain, key: Key, rid: Rid, next: nat, g: Geometry)
    requires c.page.n < g.full <= g.cap == |c.page.slots| && Ordered(Live(c.page))
    ensures var o := LeafInsert(c, key, rid, next, g);
      o.up.Some? && 1 <= o.up.value.page.n <= |o.up.value.page.slots| ==> o.up.value.page.slots[0].key == o.upKey
  {
  }

  lemma {:induction false} KeysOfParts(a: seq<Slot>, b: seq<Slot>, k: Key)
    requires multiset(a) <= multiset(b) && k in KeysOf(a)
    ensures k in KeysOf(b)
  {
    var i :| 0 <= i < |a| && a[i].key == k;
    assert a[i] in multiset(b);
    var j :| 0 <= j < |b| && b[j] == a[i];
    assert b[j].key == k;
  }

  lemma {:induction false} KeysOfMore(a: seq<Slot>, b: seq<Slot>, r: Slot, used: set<Key>)
    requires multiset(b) == multiset(a) + multiset{r} && KeysOf(a) <= used
    ensures KeysOf(b) <= used + {r.key}
  {
    forall k | k in KeysOf(b) ensures k in used + {r.key} {
      var i :| 0 <= i < |b| && b[i].key == k;
      assert b[i] in multiset(b);
      if b[i] != r {
        var j :| 0 <= j < |a| && a[j] == b[i];
        assert a[j].key in KeysOf(a);
      }
    }
  }

  /** The records of a leaf are records of the index. */
  lemma {:induction false} LeafRecords(chains: seq<Chain>, i: nat)
    requires i < |chains|
    ensures multiset(Records(chains[i])) <= multiset(AllRecords(chains))
  {
    hide AllRecords;
    AllSplit(chains, i);
  }

  /** The key of a new separator is the new key or one used before. */
  lemma {:induction false} NewSeparatorKey(t: Tree, u: Setup, key: Key, rid: Rid, used: set<Key>)
    requires TreeShape(t, u) && u.min <= key && Tidy(t, u, used)
    ensures var o := LeafStep(t, u, key, rid); o.up.Some? ==> o.upKey in used + {key} && o.upKey !in KeysOf(Entries(t.dir))
  {
    hide SlotKeys, LeafInsert, Records, AllRecords, LeafSound, Entries, RootShape, LeavesShape;
    var i, o, e := LeafOf(t, u, key), LeafStep(t, u, key, rid), Entries(t.dir);
    NewSeparator(t, u, key, rid);
    EntryList(t, u);
    LeafReady(t, u, i);
    UpKeyRecord(t.chains[i], key, rid, t.leafSize, e[i].key, Top(e, i, NoBound), u.leaves);
    if o.up.Some? {
      LeafRecords(t.chains, i);
      assert KeysOf(Records(t.chains[i])) <= used by {
        forall k | k in KeysOf(Records(t.chains[i])) ensures k in used {
          KeysOfParts(Records(t.chains[i]), AllRecords(t.chains), k);
        }
      }
      KeysOfMore(Records(t.chains[i]), OutcomeRecords(o), RecordOf(key, rid), used);
      KeysOfParts(Records(o.up.value), OutcomeRecords(o), o.upKey);
    }
  }

  /** A key that was not used before is inserted without meeting a dead slot. */
  lemma {:induction false} NewKeyReady(t: Tree, u: Setup, key: Key, rid: Rid, used: set<Key>)
    requires TreeShape(t, u) && u.min < key && Tidy(t, u, used)
    requires key !in used && key != DEFAULT.key && DEFAULT.key !in used
    ensures ReadyToInsert(t, u, key, rid)
  {
    hide SlotKeys, LeafStep, Entries, Shape, LeavesShape;
    NewSeparatorKey(t, u, key, rid, used);
    LeafContext(t, u, key, rid);
    var keys := KeysOf(Entries(t.dir)) + {DEFAULT.key};
    NoDeadHit(t.dir, NoBound, u.dirs, key, keys);
    var o := LeafStep(t, u, key, rid);
    if o.up.Some? {
      NoDeadHit(t.dir, NoBound, u.dirs, o.upKey, keys);
    }
  }

  lemma {:induction false} SortedKeys(s: seq<Slot>, e: Slot)
    ensures KeysOf(InsertSorted(s, e)) == KeysOf(s) + {e.key}
  {
    var t, c := InsertSorted(s, e), CountBefore(s, e.key);
    assert t == s[..c] + [e] + s[c..];
    forall k | k in KeysOf(s) ensures k in KeysOf(t) {
      var i :| 0 <= i < |s| && s[i].key == k;
      assert t[if i < c then i else i + 1] == s[i];
    }
    assert t[c].key == e.key;
  }

  /** And afterwards the same can be said of the index. */
  lemma {:induction false} NewKeyTidy(t: Tree, u: Setup, key: Key, rid: Rid, used: set<Key>)
    requires TreeShape(t, u) && u.min <= key && Tidy(t, u, used)
    ensures TreeShape(TreeInsert(t, u, key, rid), u) && Tidy(TreeInsert(t, u, key, rid), u, used + {key})
  {
    hide SlotKeys, LeafStep, Entries, LeavesShape, InsertRoot, InsertRootSize, AllRecords, InsertSorted, RootShape, LeafSound, Rearranged;
    var i, o, now := LeafOf(t, u, key), LeafStep(t, u, key, rid), TreeInsert(t, u, key, rid);
    TreeInsertShape(t, u, key, rid);
    TreeInsertContents(t, u, key, rid);
    KeysOfMore(AllRecords(t.chains), AllRecords(now.chains), RecordOf(key, rid), used);
    NewSeparatorKey(t, u, key, rid, used);
    LeafContext(t, u, key, rid);
    if o.up.Some? {
      var x := Slot(o.upKey, o.up.value.blk, 0);
      var keys := KeysOf(Entries(t.dir)) + {DEFAULT.key};
      InsertRootCorrect(t.dir, x, t.dirSize, u.dirs);
      SortedKeys(Entries(t.dir), x);
      SlotKeysGrow(t.dir, keys, keys + {x.key});
      InsertRootKeys(t.dir, x, t.dirSize, u.dirs, keys + {x.key});
      assert keys + {x.key} == KeysOf(Entries(now.dir)) + {DEFAULT.key};
    }
  }

  /** Only insertions, of keys above the least one that differ from each other, from the default and from those
      used. */
  predicate NewKeys(ops: seq<Op>, min: Key, used: set<Key>) {
    ops == [] ||
    (ops[0].Put? && min < ops[0].key && ops[0].key !in used && ops[0].key != DEFAULT.key && NewKeys(ops[1..], min, used + {ops[0].key}))
  }

  function KeysPut(ops: seq<Op>): set<Key> {
    if ops == [] then {} else {ops[0].key} + KeysPut(ops[1..])
  }

  /** Every such run is ready: the search of none of its insertions meets a dead slot. Later lookups may. */
  lemma {:induction false} NewKeysReady(t: Tree, u: Setup, ops: seq<Op>, used: set<Key>)
    requires TreeShape(t, u) && Tidy(t, u, used) && DEFAULT.key !in used && NewKeys(ops, u.min, used)
    ensures RunReady(t, u, ops) && Tidy(Run(t, u, ops), u, used + KeysPut(ops))
    decreases ops
  {
    hide Tidy, TreeShape, ReadyToInsert, TreeInsert;
    if ops == [] {
      assert used + {} == used;
    } else {
      var key, rid := ops[0].key, ops[0].rid;
      NewKeyReady(t, u, key, rid, used);
      NewKeyTidy(t, u, key, rid, used);
      assert Step(t, u, ops[0]) == TreeInsert(t, u, key, rid);
      NewKeysReady(Step(t, u, ops[0]), u, ops[1..], used + {key});
      assert used + {key} + KeysPut(ops[1..]) == used + KeysPut(ops);
    }
  }

  lemma {:induction false} EmptyTidy(u: Setup)
    requires SetupOk(u)
    ensures TreeShape(EmptyTree(u), u) && Tidy(EmptyTree(u), u, {})
  {
    EmptyTreeOk(u);
    var t := EmptyTree(u);
    assert Live(t.dir.page) == [Slot(u.min, 0, 0)];
    assert Entries(t.dir) == Live(t.dir.page);
    assert t.dir.page.slots[0].key == u.min && u.min in KeysOf(Entries(t.dir)) by {
      assert Entries(t.dir)[0].key == u.min;
    }
    InsertedKeys(Formatted(0, u.dirs.cap), 0, Slot(u.min, 0, 0), {u.min, DEFAULT.key});
    assert KeysOf(Entries(t.dir)) + {DEFAULT.key} == {u.min, DEFAULT.key};
    assert AllRecords(t.chains) == [] by {
      assert Records(t.chains[0]) == [] && t.chains[1..] == [];
    }
  }

  // ---------------------------------------------------------------- where a run meets one

  /** The root of a new index after its first separator, in a page with a third slot. */
  lemma {:induction false} FirstSeparator(u: Setup, x: Slot, next: nat)
    requires SetupOk(u) && u.min < x.key
    ensures var d := EmptyTree(u).dir;
      && RootShape(d, u.dirs) && d.page.slots[0].key <= x.key && Fresh(Entries(d), x.key)
      && var p := InsertRoot(d, x, next, u.dirs).page; p.n == 2 < |p.slots| && p.slots[1] == x && p.slots[2] == DEFAULT
  {
    EmptyTreeOk(u);
    var d := EmptyTree(u).dir;
    assert Live(d.page) == [Slot(u.min, 0, 0)] && d.page.slots[0] == Live(d.page)[0];
    assert Entries(d) == Live(d.page) && d.kids == [];
    assert CountBefore(Live(d.page), x.key) == 1;
    var r := InsertDir(d, x, next, NoBound, u.dirs);
    assert r == AddEntry(d, x, [], next, u.dirs);
  }

  /** The second record of a leaf that is full at two records, with a greater key. */
  lemma {:induction false} SecondRecord(c: Chain, first: Slot, key: Key, rid: Rid, next: nat, g: Geometry)
    requires g.full == 2 <= g.cap == |c.page.slots| && c.page.n == 1 && c.page.flag == -1 && Live(c.page) == [first] && first.key < key
    ensures Ordered(Live(c.page))
    ensures var o := LeafInsert(c, key, rid, next, g); o.up.Some? && o.upKey == key && o.up.value.blk == next
  {
    var r := Slot(key, rid.block, rid.slot);
    assert CountBefore([first], key) == 1;
    var p := Inserted(c.page, 1, r);
    assert Live(p) == [first, r] && p.slots[0] == Live(p)[0] && p.slots[1] == Live(p)[1];
    assert SplitPos(Live(p)) == 1;
  }

  /** The first record of a new index. */
  lemma {:induction false} FirstRecord(u: Setup, key: Key, rid: Rid)
    requires SetupOk(u) && u.min < key
    ensures TreeShape(EmptyTree(u), u)
    ensures var t := TreeInsert(EmptyTree(u), u, key, rid);
      && t.dir == EmptyTree(u).dir && t.dirSize == 1 && t.leafSize == 1 && |t.chains| == 1
      && t.chains[0].page.n == 1 && |t.chains[0].page.slots| == u.leaves.cap && t.chains[0].page.flag == -1
      && Live(t.chains[0].page) == [RecordOf(key, rid)]
  {
    hide TreeShape;
    EmptyTreeOk(u);
    var t := EmptyTree(u);
    var c := t.chains[LeafOf(t, u, key)];
    assert c == t.chains[0] && Live(c.page) == [];
    assert LeafStep(t, u, key, rid) == LeafInsert(c, key, rid, 1, u.leaves);
  }

  /** Two records with negative keys in a new index whose leaves are full at two records: afterwards the key 0 meets
      the dead slot of the root. */
  lemma {:induction false} ZeroMeetsDeadSlot(u: Setup, a: Rid, b: Rid)
    requires SetupOk(u) && u.leaves.full == 2 && u.min < -3.0
    ensures var ops := [Put(-3.0, a), Put(-2.0, b)];
      && TreeShape(EmptyTree(u), u) && RunReady(EmptyTree(u), u, ops)
      && DeadHit(Run(EmptyTree(u), u, ops).dir.page, 0.0)
  {
    hide Tidy, TreeShape, LeafInsert, InsertRoot, InsertRootSize, RootShape, ReadyToInsert, TreeInsert, LeafStep, Entries;
    var t, ops := EmptyTree(u), [Put(-3.0, a), Put(-2.0, b)];
    assert ops[1..] == [Put(-2.0, b)] && ops[1..][1..] == [];
    EmptyTidy(u);
    assert NewKeys(ops[1..], u.min, {} + {-3.0});
    NewKeysReady(t, u, ops, {});
    FirstRecord(u, -3.0, a);
    var t1 := TreeInsert(t, u, -3.0, a);
    assert Step(t, u, ops[0]) == t1;
    TwoSteps(t, u, ops);
    SecondSplit(u, t1, -3.0, a, -2.0, b);
    FirstSeparator(u, Slot(-2.0, 1, 0), 1);
  }

  lemma {:induction false} TwoSteps(t: Tree, u: Setup, ops: seq<Op>)
    requires TreeShape(t, u) && |ops| == 2 && RunReady(t, u, ops)
    ensures Ready(t, u, ops[0]) && Ready(Step(t, u, ops[0]), u, ops[1]) && Run(t, u, ops) == Step(Step(t, u, ops[0]), u, ops[1])
  {
    hide TreeShape, Ready, Step;
    var rest := ops[1..];
    assert rest[0] == ops[1] && rest[1..] == [];
    assert Run(t, u, ops) == Run(Step(t, u, ops[0]), u, rest);
    assert Run(Step(t, u, ops[0]), u, rest) == Run(Step(Step(t, u, ops[0]), u, ops[1]), u, []);
  }

  lemma {:induction false} SecondSplit(u: Setup, t: Tree, first: Key, a: Rid, key: Key, b: Rid)
    requires SetupOk(u) && u.leaves.full == 2 && TreeShape(t, u) && u.min < first < key
    requires t.dir == EmptyTree(u).dir && t.dirSize == 1 && t.leafSize == 1 && |t.chains| == 1
    requires t.chains[0].page.n == 1 && |t.chains[0].page.slots| == u.leaves.cap && t.chains[0].page.flag == -1
    requires Live(t.chains[0].page) == [RecordOf(first, a)]
    ensures RootShape(t.dir, u.dirs) && t.dir.page.slots[0].key <= key && Fresh(Entries(t.dir), key)
    ensures TreeInsert(t, u, key, b).dir == InsertRoot(t.dir, Slot(key, 1, 0), 1, u.dirs)
  {
    hide TreeShape, LeafInsert, InsertRoot, InsertRootSize, RootShape, Entries;
    FirstSeparator(u, Slot(key, 1, 0), 1);
    SecondRecord(t.chains[0], RecordOf(first, a), key, b, 1, u.leaves);
    var i := LeafOf(t, u, key);
    assert i == 0;
    assert LeafStep(t, u, key, b) == LeafInsert(t.chains[0], key, b, 1, u.leaves);
  }
}

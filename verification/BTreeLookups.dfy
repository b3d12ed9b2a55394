/** Which keys of an index can be found, and which runs are ready, told from the directory's root page
    (src/indexing/BTreeDir.cpp:65, src/indexing/BTreeIndex.cpp:40-74). */
module BTreeLookups {
  import opened Options
  import opened Rids
  import opened BTreePages
  import opened BTreeDirectory
  import opened BTreeLeaves
  import opened BTreeIndexes
  import opened BTreeRuns
  import opened DeadSlots

  // ---------------------------------------------------------------- the root decides, in every reachable index

  lemma {:induction false} EmptyNeat(u: Setup)
    requires SetupOk(u)
    ensures Neat(EmptyTree(u).dir, NoBound, true)
  {
    hide Live;
    var p := EmptyTree(u).dir.page;
    assert forall j :: 1 <= j < |p.slots| ==> p.slots[j] == DEFAULT;
  }

  lemma {:induction false} StepNeat(t: Tree, u: Setup, op: Op)
    requires TreeShape(t, u) && Ready(t, u, op) && Neat(t.dir, NoBound, false)
    ensures Neat(Step(t, u, op).dir, NoBound, false)
  {
    hide Neat, InsertRoot, InsertRootSize, LeafStep, LeafSound, Rearranged, LeavesShape, Clean, Entries;
    if op.Put? {
      LeafContext(t, u, op.key, op.rid);
      var o := LeafStep(t, u, op.key, op.rid);
      if o.up.Some? {
        InsertRootNeat(t.dir, Slot(o.upKey, o.up.value.blk, 0), t.dirSize, u.dirs);
      }
    }
  }

  lemma {:induction false} RunNeat(t: Tree, u: Setup, ops: seq<Op>)
    requires TreeShape(t, u) && RunReady(t, u, ops) && Neat(t.dir, NoBound, false)
    ensures Neat(Run(t, u, ops).dir, NoBound, false)
    decreases ops
  {
    hide Neat, TreeShape, Ready, Step;
    if ops != [] {
      StepNeat(t, u, ops[0]);
      RunNeat(Step(t, u, ops[0]), u, ops[1..]);
    }
  }

  lemma {:induction false} NeatWeaker(d: Dir, hi: Bound)
    requires Neat(d, hi, true)
    ensures Neat(d, hi, false)
  {
  }

  /** The first dead slot of the root's page hides the key: it holds it behind smaller ones, with another block. */
  ghost predicate Hidden(t: Tree, u: Setup, key: Key)
    requires TreeShape(t, u)
  {
    DeadHit(t.dir.page, key)
  }

  /** After any run from a new index a search for another key than the default is misled exactly when the root hides
      the key. f is the directory file. */
  lemma {:induction false} RootTells(u: Setup, ops: seq<Op>, f: seq<Page>, key: Key)
    requires SetupOk(u) && TreeShape(EmptyTree(u), u) && RunReady(EmptyTree(u), u, ops)
    requires u.min <= key && key != DEFAULT.key && Stored(Run(EmptyTree(u), u, ops).dir, f)
    ensures var t := Run(EmptyTree(u), u, ops);
      && RootShape(t.dir, u.dirs) && t.dir.page.slots[0].key <= key
      && (Clean(t.dir, NoBound, u.dirs, key) <==> !Hidden(t, u, key))
      && (Takes(f, Way(t.dir, NoBound, u.dirs, key), key) <==> !Hidden(t, u, key))
  {
    hide Neat, RunReady, Run, Clean, DeadHit, Stored, Shape, Takes, Way, EmptyTree;
    var t := Run(EmptyTree(u), u, ops);
    EmptyNeat(u);
    NeatWeaker(EmptyTree(u).dir, NoBound);
    RunNeat(EmptyTree(u), u, ops);
    SearchReady(t, u, key);
    RootDecides(t.dir, u.dirs, key);
    WayExact(t.dir, NoBound, u.dirs, key, f);
  }

  /** So from a new index on, an index is a multiset for every key but the default and the one key the root may
      hide. */
  lemma {:induction false} RunLookup(u: Setup, ops: seq<Op>, f: seq<Page>, key: Key) returns (rids: seq<Rid>)
    requires SetupOk(u) && TreeShape(EmptyTree(u), u) && RunReady(EmptyTree(u), u, ops)
    requires u.min <= key && key != DEFAULT.key && Stored(Run(EmptyTree(u), u, ops).dir, f)
    requires !Hidden(Run(EmptyTree(u), u, ops), u, key)
    ensures forall answer :: Gives(Run(EmptyTree(u), u, ops), f, key, answer) <==> answer == rids
    ensures forall rid :: multiset(rids)[rid] == Spec(multiset{}, ops)[RecordOf(key, rid)]
  {
    hide RunReady, Run, Clean, Hidden, Stored, Shape, Takes, Way, EmptyTree, Spec, Gives;
    RootTells(u, ops, f, key);
    EmptyTreeOk(u);
    rids := RunRefinesMultiset(EmptyTree(u), u, ops, f, key);
  }

  // ---------------------------------------------------------------- runs of new keys

  /** The one key that may be hidden is a separator, left behind by an old root page. */
  lemma {:induction false} HiddenIsSeparator(t: Tree, u: Setup, used: set<Key>, key: Key)
    requires TreeShape(t, u) && Tidy(t, u, used) && key != DEFAULT.key && Hidden(t, u, key)
    ensures t.dir.page.n < |t.dir.page.slots| && key == t.dir.page.slots[t.dir.page.n].key && key in KeysOf(Entries(t.dir))
  {
    hide Entries, LeavesShape, KidShape;
    PageKey(t.dir.page, t.dir.page.n, KeysOf(Entries(t.dir)) + {DEFAULT.key});
  }

  /** After insertions of new keys, which NewKeysReady shows to be ready, whatever their order and whatever splits, a
      lookup of a key that is no separator, nor the default, gives exactly the places inserted under it; one of a
      separator does unless the root hides it. */
  lemma {:induction false} NewKeysRefine(u: Setup, ops: seq<Op>, f: seq<Page>, key: Key) returns (rids: seq<Rid>)
    requires SetupOk(u) && NewKeys(ops, u.min, {}) && u.min <= key && key != DEFAULT.key
    requires TreeShape(EmptyTree(u), u) && RunReady(EmptyTree(u), u, ops) && Stored(Run(EmptyTree(u), u, ops).dir, f)
    requires var t := Run(EmptyTree(u), u, ops); key !in KeysOf(Entries(t.dir)) || !Hidden(t, u, key)
    ensures forall answer :: Gives(Run(EmptyTree(u), u, ops), f, key, answer) <==> answer == rids
    ensures forall rid :: multiset(rids)[rid] == Spec(multiset{}, ops)[RecordOf(key, rid)]
  {
    hide Tidy, NewKeys, RunReady, Run, Stored, Hidden, Spec, Gives, KeysPut, TreeShape;
    EmptyTidy(u);
    NewKeysReady(EmptyTree(u), u, ops, {});
    var t := Run(EmptyTree(u), u, ops);
    if Hidden(t, u, key) {
      HiddenIsSeparator(t, u, {} + KeysPut(ops), key);
    }
    rids := RunLookup(u, ops, f, key);
  }

  // ---------------------------------------------------------------- which operations are ready

  /** No leaf has overflow, so any record may be removed. */
  ghost predicate Thin(t: Tree) {
    forall i :: 0 <= i < |t.chains| ==> t.chains[i].over == []
  }

  ghost function KeyCount(t: Tree, key: Key): nat {
    |Matching(AllRecords(t.chains), key)|
  }

  lemma {:induction false} ThinRemoves(t: Tree, u: Setup, key: Key, rid: Rid)
    requires TreeShape(t, u) && u.min <= key && Thin(t)
    ensures ReadyToRemove(t, u, key, rid) && Thin(TreeRemove(t, u, key, rid))
  {
    hide RootShape, Entries, PageHit, CountBefore, Removed;
    var i := LeafOf(t, u, key);
    LeafReady(t, u, i);
    ChainReadable(t.chains[i], Entries(t.dir)[i].key, Top(Entries(t.dir), i, NoBound), u.leaves);
  }

  lemma {:induction false} AllOfKey(s: seq<Slot>, key: Key)
    requires forall i :: 0 <= i < |s| ==> s[i].key == key
    ensures |Matching(s, key)| == |s|
  {
    if s != [] {
      AllOfKey(s[1..], key);
    }
  }

  /** A page is full of one key only when all its records have the new one. */
  lemma {:induction false} SeveralKeys(q: Page, key: Key, rid: Rid, g: Geometry)
    requires LeafRoomy(g) && q.n + 1 == g.full <= g.cap == |q.slots| && Ordered(Live(q))
    requires |Matching(Live(q), key)| + 1 < g.full
    ensures var p := Inserted(q, CountBefore(Live(q), key), Slot(key, rid.block, rid.slot));
      Ordered(Live(p)) && p.slots[p.n - 1].key != p.slots[0].key
  {
    hide Matching, Inserted;
    var r, i := Slot(key, rid.block, rid.slot), CountBefore(Live(q), key);
    OrderedInserted(Live(q), r);
    var p := Inserted(q, i, r);
    assert Live(p)[0] == p.slots[0] && Live(p)[p.n - 1] == p.slots[p.n - 1] && Live(p)[i] == r;
    if p.slots[p.n - 1].key == p.slots[0].key {
      hide CountBefore;
      forall j | 0 <= j < q.n ensures Live(q)[j].key == key {
        assert Live(p)[if j < i then j else j + 1] == Live(q)[j];
      }
      AllOfKey(Live(q), key);
    }
  }

  /** So a leaf with fewer records of the key starts no overflow chain. */
  lemma {:induction false} StaysThin(c: Chain, key: Key, rid: Rid, next: nat, g: Geometry)
    requires LeafRoomy(g) && c.page.n < g.full <= g.cap == |c.page.slots| && Ordered(Live(c.page)) && c.over == []
    requires |Matching(Live(c.page), key)| + 1 < g.full
    ensures var o := LeafInsert(c, key, rid, next, g); o.chain.over == [] && (o.up.Some? ==> o.up.value.over == [])
  {
    hide Matching, LeftPart, RightPart, SplitPos, Inserted, CountBefore, Live, Ordered;
    if c.page.n + 1 == g.full {
      SeveralKeys(c.page, key, rid, g);
    }
  }

  lemma {:induction false} ThinInserts(t: Tree, u: Setup, key: Key, rid: Rid)
    requires TreeShape(t, u) && u.min <= key && Thin(t) && KeyCount(t, key) + 1 < u.leaves.full
    ensures Thin(TreeInsert(t, u, key, rid))
  {
    hide RootShape, Entries, LeafInsert, InsertRoot, InsertRootSize, Matching, AllRecords, ChainDistinct, ChainBlocks;
    var i := LeafOf(t, u, key);
    EntryList(t, u);
    LeafReady(t, u, i);
    OnlyLeaf(Entries(t.dir), t.chains, i, key, u);
    assert Records(t.chains[i]) == Live(t.chains[i].page);
    StaysThin(t.chains[i], key, rid, t.leafSize, u.leaves);
    var o := LeafStep(t, u, key, rid);
    if o.up.Some? {
      var now := Parted(t.chains, i, o);
      forall j | 0 <= j < |now| ensures now[j].over == [] {
        assert now[j] == if j < i then t.chains[j] else if j == i then o.chain else if j == i + 1 then o.up.value else t.chains[j - 1];
      }
    }
  }

  /** An operation is ready exactly when the root does not hide its key and, if it removes, its leaf may lose the
      record. */
  lemma {:induction false} ReadyExactly(t: Tree, u: Setup, op: Op, used: set<Key>)
    requires TreeShape(t, u) && Tidy(t, u, used) && Neat(t.dir, NoBound, false)
    requires DEFAULT.key !in used && u.min <= op.key && op.key != DEFAULT.key
    ensures Ready(t, u, op) <==> !Hidden(t, u, op.key) && (op.Take? ==> ReadyToRemove(t, u, op.key, op.rid))
  {
    hide Tidy, Neat, Hidden, TreeShape, RootShape, Clean, ReadyToRemove, LeafStep;
    RootDecidesHere(t, u, op.key);
    if op.Put? {
      SeparatorClean(t, u, op.key, op.rid, used);
    }
  }

  /** A new separator is in no dead slot. */
  lemma {:induction false} SeparatorClean(t: Tree, u: Setup, key: Key, rid: Rid, used: set<Key>)
    requires TreeShape(t, u) && Tidy(t, u, used) && Neat(t.dir, NoBound, false)
    requires DEFAULT.key !in used && u.min <= key && key != DEFAULT.key
    ensures var o := LeafStep(t, u, key, rid);
      o.up.Some? ==> RootShape(t.dir, u.dirs) && t.dir.page.slots[0].key <= o.upKey && Clean(t.dir, NoBound, u.dirs, o.upKey)
  {
    hide Tidy, Neat, Hidden, TreeShape, RootShape, Clean, LeafStep, LeafSound;
    var o := LeafStep(t, u, key, rid);
    NewSeparator(t, u, key, rid);
    if o.up.Some? {
      NewSeparatorKey(t, u, key, rid, used);
      RootDecidesHere(t, u, o.upKey);
      if Hidden(t, u, o.upKey) {
        HiddenIsSeparator(t, u, used, o.upKey);
      }
    }
  }

  lemma {:induction false} RootDecidesHere(t: Tree, u: Setup, key: Key)
    requires TreeShape(t, u) && Neat(t.dir, NoBound, false) && key != DEFAULT.key && u.min <= key
    ensures RootShape(t.dir, u.dirs) && t.dir.page.slots[0].key <= key
    ensures Clean(t.dir, NoBound, u.dirs, key) <==> !Hidden(t, u, key)
  {
    hide Clean, Neat, DeadHit, Shape;
    SearchReady(t, u, key);
    RootDecides(t.dir, u.dirs, key);
  }

  // ---------------------------------------------------------------- which runs are ready

  function PutsOf(ops: seq<Op>, key: Key): nat {
    if ops == [] then 0 else PutsOf(ops[..|ops| - 1], key) + if ops[|ops| - 1].Put? && ops[|ops| - 1].key == key then 1 else 0
  }

  /** Keys from the least one on, none of them the default. */
  predicate KeysFit(ops: seq<Op>, u: Setup) {
    forall i :: 0 <= i < |ops| ==> u.min <= ops[i].key && ops[i].key != DEFAULT.key
  }

  /** Of each key fewer insertions than a leaf takes before it is full. Removals are not restricted. */
  ghost predicate FewOfEach(ops: seq<Op>, u: Setup) {
    forall key :: PutsOf(ops, key) < u.leaves.full
  }

  /** What every run keeps. */
  ghost predicate Kept(t: Tree, u: Setup, used: set<Key>)
    requires TreeShape(t, u)
  {
    Tidy(t, u, used) && DEFAULT.key !in used && Neat(t.dir, NoBound, false)
  }

  lemma {:induction false} RemoveTidy(t: Tree, u: Setup, key: Key, rid: Rid, used: set<Key>)
    requires TreeShape(t, u) && u.min <= key && ReadyToRemove(t, u, key, rid) && Tidy(t, u, used)
    ensures TreeShape(TreeRemove(t, u, key, rid), u) && Tidy(TreeRemove(t, u, key, rid), u, used + {key})
  {
    hide SlotKeys, Entries, AllRecords, RootShape, LeavesShape, ReadyToRemove, ChainRemoved;
    TreeRemoveCorrect(t, u, key, rid);
    var now := TreeRemove(t, u, key, rid);
    forall k | k in KeysOf(AllRecords(now.chains)) ensures k in used {
      KeysOfParts(AllRecords(now.chains), AllRecords(t.chains), k);
    }
  }

  lemma {:induction false} CountStep(t: Tree, u: Setup, op: Op, key: Key)
    requires TreeShape(t, u) && Ready(t, u, op)
    ensures KeyCount(Step(t, u, op), key) <= KeyCount(t, key) + if op.Put? && op.key == key then 1 else 0
  {
    hide Matching, AllRecords, Ready, Step, TreeShape;
    StepContents(t, u, op);
    var a, b := AllRecords(t.chains), AllRecords(Step(t, u, op).chains);
    var r := RecordOf(op.key, op.rid);
    var more := if op.Put? && op.key == key then multiset{op.rid} else multiset{};
    forall rid ensures multiset(Matching(b, key))[rid] <= (multiset(Matching(a, key)) + more)[rid] {
      MatchingCount(a, key, rid);
      MatchingCount(b, key, rid);
    }
    Fewer(multiset(Matching(b, key)), multiset(Matching(a, key)) + more);
  }

  lemma Fewer(a: multiset<Rid>, b: multiset<Rid>)
    requires forall rid :: a[rid] <= b[rid]
    ensures |a| <= |b|
  {
    assert a <= b;
    assert b == a + (b - a);
  }

  lemma {:induction false} StepKept(t: Tree, u: Setup, op: Op, used: set<Key>)
    requires TreeShape(t, u) && Kept(t, u, used) && Ready(t, u, op) && op.key != DEFAULT.key
    ensures Kept(Step(t, u, op), u, used + {op.key})
  {
    hide Tidy, Neat, TreeShape, TreeInsert, TreeRemove, Clean, ReadyToInsert, ReadyToRemove;
    StepNeat(t, u, op);
    if op.Put? {
      NewKeyTidy(t, u, op.key, op.rid, used);
    } else {
      RemoveTidy(t, u, op.key, op.rid, used);
    }
  }

  lemma {:induction false} StepThin(t: Tree, u: Setup, op: Op)
    requires TreeShape(t, u) && Thin(t) && Ready(t, u, op)
    requires op.Put? ==> KeyCount(t, op.key) + 1 < u.leaves.full
    ensures Thin(Step(t, u, op))
  {
    hide Thin, KeyCount, TreeShape, TreeInsert, TreeRemove, Clean, ReadyToInsert, ReadyToRemove;
    if op.Put? {
      ThinInserts(t, u, op.key, op.rid);
    } else {
      ThinRemoves(t, u, op.key, op.rid);
    }
  }

  ghost function KeysUsed(ops: seq<Op>): set<Key> {
    set i | 0 <= i < |ops| :: ops[i].key
  }

  /** One more operation behind a run. */
  lemma {:induction false} RunSnoc(t: Tree, u: Setup, ops: seq<Op>, op: Op)
    requires TreeShape(t, u)
    ensures RunReady(t, u, ops + [op]) <==> RunReady(t, u, ops) && Ready(Run(t, u, ops), u, op)
    ensures RunReady(t, u, ops + [op]) ==> Run(t, u, ops + [op]) == Step(Run(t, u, ops), u, op)
    decreases ops
  {
    hide TreeShape, Ready, Step;
    var more := ops + [op];
    if ops == [] {
      assert more[0] == op && more[1..] == [];
      OneOp(t, u, op, more);
    } else {
      assert more[0] == ops[0] && more[1..] == ops[1..] + [op];
      if Ready(t, u, ops[0]) {
        RunSnoc(Step(t, u, ops[0]), u, ops[1..], op);
      }
    }
  }

  lemma {:induction false} OneOp(t: Tree, u: Setup, op: Op, ops: seq<Op>)
    requires TreeShape(t, u) && |ops| == 1 && ops[0] == op
    ensures RunReady(t, u, ops) <==> Ready(t, u, op)
    ensures RunReady(t, u, ops) ==> Run(t, u, ops) == Step(t, u, op)
  {
    hide TreeShape, Ready, Step;
    assert ops[1..] == [];
    if Ready(t, u, op) {
      assert Run(Step(t, u, op), u, []) == Step(t, u, op);
    }
  }

  lemma {:induction false} EmptyKept(u: Setup)
    requires SetupOk(u)
    ensures TreeShape(EmptyTree(u), u) && Kept(EmptyTree(u), u, {})
  {
    hide Neat, Tidy, TreeShape;
    EmptyTidy(u);
    EmptyNeat(u);
    NeatWeaker(EmptyTree(u).dir, NoBound);
  }

  lemma {:induction false} EmptyThin(u: Setup)
    requires SetupOk(u)
    ensures Thin(EmptyTree(u)) && forall key :: KeyCount(EmptyTree(u), key) == 0
  {
    EmptyLeaf(u);
    assert EmptyTree(u).chains[1..] == [];
    assert AllRecords(EmptyTree(u).chains) == [];
  }

  lemma {:induction false} RunKept(u: Setup, ops: seq<Op>)
    requires SetupOk(u) && TreeShape(EmptyTree(u), u) && KeysFit(ops, u) && RunReady(EmptyTree(u), u, ops)
    ensures Kept(Run(EmptyTree(u), u, ops), u, KeysUsed(ops))
  {
    hide Kept, TreeShape, Ready, Step, EmptyTree;
    if ops == [] {
      EmptyKept(u);
      assert KeysUsed(ops) == {};
    } else {
      var before, op := ops[..|ops| - 1], ops[|ops| - 1];
      assert ops == before + [op];
      RunSnoc(EmptyTree(u), u, before, op);
      RunKept(u, before);
      StepKept(Run(EmptyTree(u), u, before), u, op, KeysUsed(before));
      assert KeysUsed(before) + {op.key} == KeysUsed(ops) by {
        assert forall i :: 0 <= i < |before| ==> before[i] == ops[i];
      }
    }
  }

  lemma {:induction false} FewBefore(ops: seq<Op>, u: Setup)
    requires ops != [] && FewOfEach(ops, u)
    ensures FewOfEach(ops[..|ops| - 1], u)
  {
    var before := ops[..|ops| - 1];
    forall key ensures PutsOf(before, key) < u.leaves.full {
      assert PutsOf(before, key) <= PutsOf(ops, key);
    }
  }

  /** With few duplicates no leaf gets overflow, so every record may be removed at any time. */
  lemma {:induction false} RunThin(u: Setup, ops: seq<Op>)
    requires SetupOk(u) && TreeShape(EmptyTree(u), u) && FewOfEach(ops, u) && RunReady(EmptyTree(u), u, ops)
    ensures Thin(Run(EmptyTree(u), u, ops))
    ensures forall key :: KeyCount(Run(EmptyTree(u), u, ops), key) <= PutsOf(ops, key)
    ensures forall key, rid :: u.min <= key ==> ReadyToRemove(Run(EmptyTree(u), u, ops), u, key, rid)
  {
    hide Thin, KeyCount, TreeShape, Ready, Step, EmptyTree, ReadyToRemove;
    var now := Run(EmptyTree(u), u, ops);
    if ops == [] {
      EmptyThin(u);
    } else {
      var before, op := ops[..|ops| - 1], ops[|ops| - 1];
      assert ops == before + [op];
      RunSnoc(EmptyTree(u), u, before, op);
      FewBefore(ops, u);
      RunThin(u, before);
      var t := Run(EmptyTree(u), u, before);
      assert op.Put? ==> PutsOf(ops, op.key) == PutsOf(before, op.key) + 1;
      StepThin(t, u, op);
      forall key ensures KeyCount(now, key) <= PutsOf(ops, key) {
        CountStep(t, u, op, key);
      }
    }
    forall key, rid | u.min <= key ensures ReadyToRemove(now, u, key, rid) {
      ThinRemoves(now, u, key, rid);
    }
  }

  /** A run from a new index is ready exactly when it is so without its last operation, the root does not hide that
      operation's key and, if it removes, the record may leave its leaf. */
  lemma {:induction false} RunReadyExactly(u: Setup, ops: seq<Op>)
    requires SetupOk(u) && TreeShape(EmptyTree(u), u) && ops != [] && KeysFit(ops, u)
    ensures var before, op := ops[..|ops| - 1], ops[|ops| - 1];
      RunReady(EmptyTree(u), u, ops) <==>
        && RunReady(EmptyTree(u), u, before)
        && var t := Run(EmptyTree(u), u, before);
           !Hidden(t, u, op.key) && (op.Take? ==> ReadyToRemove(t, u, op.key, op.rid))
  {
    hide Tidy, Neat, TreeShape, Ready, Hidden, EmptyTree, RunReady, Run, ReadyToRemove;
    var before, op := ops[..|ops| - 1], ops[|ops| - 1];
    assert ops == before + [op];
    RunSnoc(EmptyTree(u), u, before, op);
    if RunReady(EmptyTree(u), u, before) {
      RunKept(u, before);
      ReadyExactly(Run(EmptyTree(u), u, before), u, op, KeysUsed(before));
    }
  }

  // ---------------------------------------------------------------- runs on an index of one directory page

  /** One directory page of at most k entries that has never been another. */
  ghost predicate Young(d: Dir, k: nat) {
    d.kids == [] && d.page.n <= k && Neat(d, NoBound, true)
  }

  lemma {:induction false} YoungHides(t: Tree, u: Setup, k: nat, key: Key)
    requires TreeShape(t, u) && Young(t.dir, k) && key != DEFAULT.key
    ensures !Hidden(t, u, key)
  {
    hide LeavesShape;
  }

  lemma {:induction false} YoungInserts(d: Dir, e: Slot, next: nat, g: Geometry, k: nat)
    requires Roomy(g) && RootShape(d, g) && d.page.slots[0].key <= e.key && Fresh(Entries(d), e.key)
    requires Young(d, k) && k + 1 < g.full
    ensures Young(InsertRoot(d, e, next, g), k + 1)
  {
    hide Neat, Inserted, KidShape, Fresh;
    InsertDirNeat(d, e, next, NoBound, g, true);
    var w := Widened(d, e, []);
    assert AddEntry(d, e, [], next, g) == BTreeDirectory.Outcome(w, None, next);
  }

  lemma {:induction false} StepYoung(t: Tree, u: Setup, op: Op, k: nat)
    requires TreeShape(t, u) && Ready(t, u, op) && Young(t.dir, k) && k + 1 < u.dirs.full
    ensures Young(Step(t, u, op).dir, k + 1)
  {
    hide Neat, InsertRoot, InsertRootSize, LeafStep, LeafSound, Rearranged, LeavesShape, Clean, Entries;
    if op.Put? {
      LeafContext(t, u, op.key, op.rid);
      var o := LeafStep(t, u, op.key, op.rid);
      if o.up.Some? {
        YoungInserts(t.dir, Slot(o.upKey, o.up.value.blk, 0), t.dirSize, u.dirs, k);
      }
    }
  }

  /** As long as the directory has one page, every run with few duplicates is ready, whatever it removes. */
  lemma {:induction false} SmallRunsReady(u: Setup, ops: seq<Op>)
    requires SetupOk(u) && KeysFit(ops, u) && FewOfEach(ops, u) && |ops| + 1 < u.dirs.full
    ensures TreeShape(EmptyTree(u), u) && RunReady(EmptyTree(u), u, ops) && Young(Run(EmptyTree(u), u, ops).dir, |ops| + 1)
  {
    hide Young, TreeShape, Ready, Step, Hidden, EmptyTree, FewOfEach, ReadyToRemove;
    EmptyKept(u);
    if ops == [] {
      EmptyYoung(u);
    } else {
      var before, op := ops[..|ops| - 1], ops[|ops| - 1];
      assert ops == before + [op];
      FewBefore(ops, u);
      SmallRunsReady(u, before);
      RunThin(u, before);
      var t := Run(EmptyTree(u), u, before);
      YoungHides(t, u, |before| + 1, op.key);
      RunReadyExactly(u, ops);
      RunSnoc(EmptyTree(u), u, before, op);
      StepYoung(t, u, op, |before| + 1);
    }
  }

  lemma {:induction false} EmptyYoung(u: Setup)
    requires SetupOk(u)
    ensures Young(EmptyTree(u).dir, 1)
  {
    hide Neat;
    EmptyNeat(u);
  }
}

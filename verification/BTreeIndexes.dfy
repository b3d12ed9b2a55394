/** The B-tree index as a whole (src/indexing/BTreeIndex.cpp).

    Tree is an index as a value: the directory, its leaves in key order, and the sizes of the two files.
    The lemmas show that, seen through beforeFirst and next, it is a multiset of (key, RID) records; class
    BTreeIndex is the source's code on the two files. */
module BTreeIndexes {
  import opened Options
  import opened Rids
  import opened BTreePages
  import opened BTreeDirectory
  import opened BTreeLeaves

  datatype Tree = Tree(dir: Dir, chains: seq<Chain>, dirSize: nat, leafSize: nat)

  /** Directory and leaf geometry, and the key below all keys. */
  datatype Setup = Setup(dirs: Geometry, leaves: Geometry, min: Key)

  predicate SetupOk(u: Setup) {
    Roomy(u.dirs) && LeafRoomy(u.leaves)
  }

  /** The i-th leaf: the one its directory entry points to, holding the keys from that entry's separator
      up to the next one. */
  ghost predicate LeafAt(e: seq<Slot>, i: nat, c: Chain, u: Setup)
    requires i < |e|
  {
    && c.blk == e[i].block
    && ChainShape(c, e[i].key, Top(e, i, NoBound), u.leaves) && ChainDistinct(c)
  }

  ghost predicate LeavesShape(e: seq<Slot>, chains: seq<Chain>, size: nat, u: Setup) {
    && |chains| == |e|
    && (forall i :: 0 <= i < |chains| ==> LeafAt(e, i, chains[i], u))
    && (forall i, b :: 0 <= i < |chains| && b in ChainBlocks(chains[i]) ==> b < size)
    && (forall i, j :: 0 <= i < j < |chains| ==> ChainBlocks(chains[i]) !! ChainBlocks(chains[j]))
  }

  /** The invariant of the index: a well-formed directory rooted in block 0 whose entries are the leaves,
      all at one depth, with no block shared. */
  ghost predicate TreeShape(t: Tree, u: Setup) {
    && SetupOk(u)
    && RootShape(t.dir, u.dirs) && t.dir.page.slots[0].key == u.min && t.dir.blk == 0
    && Distinct(t.dir) && (forall b :: b in Blocks(t.dir) ==> b < t.dirSize)
    && LeavesShape(Entries(t.dir), t.chains, t.leafSize, u)
  }

  function AllRecords(chains: seq<Chain>): seq<Slot> {
    if chains == [] then [] else Records(chains[0]) + AllRecords(chains[1..])
  }

  /** The records in the index. */
  ghost function Contents(t: Tree): multiset<Slot> {
    multiset(AllRecords(t.chains))
  }

  lemma {:induction false} AllConcat(a: seq<Chain>, b: seq<Chain>)
    ensures AllRecords(a + b) == AllRecords(a) + AllRecords(b)
  {
    if a == [] {
      assert a + b == b;
    } else {
      assert (a + b)[1..] == a[1..] + b;
      AllConcat(a[1..], b);
    }
  }

  /** The entry list of a whole directory. */
  lemma {:induction false} EntryList(t: Tree, u: Setup)
    requires TreeShape(t, u)
    ensures Entries(t.dir) != [] && Sorted(Entries(t.dir)) && Entries(t.dir)[0].key == u.min
  {
    EntriesSorted(t.dir, NoBound, u.dirs);
  }

  /** The leaf that key belongs to. */
  ghost function LeafOf(t: Tree, u: Setup, key: Key): (i: nat)
    requires TreeShape(t, u) && u.min <= key
    ensures i < |t.chains|
  {
    EntryList(t, u);
    Route(Entries(t.dir), key)
  }

  // ----- Lookup -----

  lemma {:induction false} OverKeys(over: seq<Block>, key: Key, g: Geometry)
    requires OverShape(over, key, g)
    ensures forall i :: 0 <= i < |OverRecords(over)| ==> OverRecords(over)[i].key == key
  {
    if over != [] {
      OverKeys(over[1..], key, g);
    }
  }

  /** All records of a leaf, overflow included, lie in its key range. */
  lemma {:induction false} RecordsInRange(c: Chain, lo: Key, hi: Bound, g: Geometry)
    requires ChainShape(c, lo, hi, g)
    ensures forall i :: 0 <= i < |Records(c)| ==> lo <= Records(c)[i].key && Under(Records(c)[i].key, hi)
  {
    if c.over != [] {
      OverKeys(c.over, c.page.slots[0].key, g);
      assert Live(c.page)[0] == c.page.slots[0];
    }
  }

  lemma {:induction false} OtherLeaves(e: seq<Slot>, chains: seq<Chain>, m: nat, n: nat, key: Key, u: Setup)
    requires Sorted(e) && |chains| == |e| && m <= n <= |e|
    requires forall i :: 0 <= i < |e| ==> LeafAt(e, i, chains[i], u)
    requires forall i :: m <= i < n ==> key < e[i].key || !Under(key, Top(e, i, NoBound))
    ensures Matching(AllRecords(chains[m..n]), key) == []
    decreases n, n - m
  {
    if m < n {
      var c := chains[m];
      OtherLeaves(e, chains, m + 1, n, key, u);
      assert chains[m..n][1..] == chains[m + 1..n];
      assert LeafAt(e, m, c, u);
      RecordsInRange(c, e[m].key, Top(e, m, NoBound), u.leaves);
      MatchingNone(Records(c), key);
      MatchingConcat(Records(c), AllRecords(chains[m + 1..n]), key);
    }
  }

  lemma {:induction false} AllSplit(chains: seq<Chain>, i: nat)
    requires i < |chains|
    ensures AllRecords(chains) == AllRecords(chains[..i]) + (Records(chains[i]) + AllRecords(chains[i + 1..]))
  {
    var a, c, b := chains[..i], chains[i], chains[i + 1..];
    assert chains == a + ([c] + b) && ([c] + b)[1..] == b;
    AllConcat(a, [c] + b);
  }

  /** Only the leaf whose key range holds key has records with it. */
  lemma {:induction false} OnlyLeaf(e: seq<Slot>, chains: seq<Chain>, i: nat, key: Key, u: Setup)
    requires Sorted(e) && |chains| == |e| && i < |e|
    requires forall j :: 0 <= j < |e| ==> LeafAt(e, j, chains[j], u)
    requires e[i].key <= key && Under(key, Top(e, i, NoBound))
    ensures Matching(AllRecords(chains), key) == Matching(Records(chains[i]), key)
  {
    hide LeafAt, Live, OverRecords;
    forall j | 0 <= j < i ensures !Under(key, Top(e, j, NoBound)) {
      assert j + 1 == i || e[j + 1].key < e[i].key;
    }
    OtherLeaves(e, chains, 0, i, key, u);
    forall j | i + 1 <= j < |e| ensures key < e[j].key {
      assert j == i + 1 || e[i + 1].key < e[j].key;
    }
    OtherLeaves(e, chains, i + 1, |e|, key, u);
    assert chains[0..i] == chains[..i] && chains[i + 1..|e|] == chains[i + 1..];
    AllSplit(chains, i);
    var a, r, b := AllRecords(chains[..i]), Records(chains[i]), AllRecords(chains[i + 1..]);
    MatchingConcat(a, r + b, key);
    MatchingConcat(r, b, key);
  }

  /** Its leaf returns every record of the index with the key, and no other. */
  lemma {:induction false} LeafLookup(t: Tree, u: Setup, key: Key)
    requires TreeShape(t, u) && u.min <= key
    ensures var c := t.chains[LeafOf(t, u, key)];
      Readable(c) && Lookup(c, key) == Matching(AllRecords(t.chains), key)
  {
    EntryList(t, u);
    var e, i := Entries(t.dir), LeafOf(t, u, key);
    assert LeafAt(e, i, t.chains[i], u);
    LookupExact(t.chains[i], e[i].key, Top(e, i, NoBound), u.leaves, key);
    OnlyLeaf(e, t.chains, i, key, u);
  }

  /** beforeFirst as written, f being the directory file: the search from block 0 ends at the i-th leaf. */
  ghost predicate Reaches(t: Tree, f: seq<Page>, key: Key, i: nat) {
    i < |t.chains| && exists n :: Ends(f, 0, key, n, t.chains[i].blk)
  }

  /** And next until it says false, from there. */
  ghost predicate Gives(t: Tree, f: seq<Page>, key: Key, rids: seq<Rid>) {
    exists i :: 0 <= i < |t.chains| && Reaches(t, f, key, i) && Readable(t.chains[i]) && rids == Lookup(t.chains[i], key)
  }

  lemma {:induction false} LeavesApart(t: Tree, u: Setup, i: nat, j: nat)
    requires TreeShape(t, u) && i < |t.chains| && j < |t.chains| && t.chains[i].blk == t.chains[j].blk
    ensures i == j
  {
    assert t.chains[i].blk in ChainBlocks(t.chains[i]) && t.chains[j].blk in ChainBlocks(t.chains[j]);
  }

  lemma {:induction false} ReachesOnce(t: Tree, u: Setup, f: seq<Page>, key: Key, i: nat, j: nat)
    requires TreeShape(t, u) && Reaches(t, f, key, i) && Reaches(t, f, key, j)
    ensures i == j
  {
    hide TreeShape, Ends;
    var m :| Ends(f, 0, key, m, t.chains[i].blk);
    var n :| Ends(f, 0, key, n, t.chains[j].blk);
    EndsOnce(f, 0, key, m, t.chains[i].blk, n, t.chains[j].blk);
    LeavesApart(t, u, i, j);
  }

  /** What the search relies on. */
  lemma {:induction false} SearchReady(t: Tree, u: Setup, key: Key)
    requires TreeShape(t, u) && u.min <= key
    ensures var e, i := Entries(t.dir), LeafOf(t, u, key);
      && i < |e| && RootShape(t.dir, u.dirs) && t.dir.blk == 0 && t.dir.page.slots[0].key <= key
      && (Sorted(e) && e != [] && e[0].key <= key ==> Floor(e, key).block == t.chains[i].blk)
  {
    hide Shape, ChainShape;
    EntryList(t, u);
    LeafReady(t, u, LeafOf(t, u, key));
  }

  /** When no dead slot above the last page of its way misleads the search, it reaches the key's leaf exactly when
      none on the last page does. */
  lemma {:induction false} SearchReaches(t: Tree, u: Setup, f: seq<Page>, key: Key)
    requires TreeShape(t, u) && u.min <= key && Stored(t.dir, f) && CleanAbove(t.dir, NoBound, u.dirs, key)
    ensures Reaches(t, f, key, LeafOf(t, u, key)) <==> Clean(t.dir, NoBound, u.dirs, key)
  {
    hide Clean, CleanAbove, Shape, Floor, Entries, Ends, Route, Stored;
    SearchReady(t, u, key);
    var i, flag := LeafOf(t, u, key), t.dir.page.flag;
    var leaf := SearchExact(t.dir, NoBound, u.dirs, key, f);
    if Reaches(t, f, key, i) {
      var n :| Ends(f, 0, key, n, t.chains[i].blk);
      EndsOnce(f, 0, key, n, t.chains[i].blk, flag, leaf);
    }
    if leaf == t.chains[i].blk {
      assert Ends(f, 0, key, flag, t.chains[i].blk);
    }
  }

  /** A lookup that no dead slot misleads gives every record of the index with the key, and no other. */
  lemma {:induction false} TreeLookup(t: Tree, u: Setup, f: seq<Page>, key: Key)
    requires TreeShape(t, u) && u.min <= key && Stored(t.dir, f) && Clean(t.dir, NoBound, u.dirs, key)
    ensures forall rids :: Gives(t, f, key, rids) <==> rids == Matching(AllRecords(t.chains), key)
  {
    hide Clean, CleanAbove, Shape, Stored, Matching, AllRecords, Lookup, Reaches, TreeShape, Route;
    SearchReady(t, u, key);
    var c := LeafOf(t, u, key);
    CleanIsAbove(t.dir, NoBound, u.dirs, key);
    SearchReaches(t, u, f, key);
    LeafLookup(t, u, key);
    forall rids ensures Gives(t, f, key, rids) <==> rids == Matching(AllRecords(t.chains), key) {
      if Gives(t, f, key, rids) {
        var i :| 0 <= i < |t.chains| && Reaches(t, f, key, i) && Readable(t.chains[i]) && rids == Lookup(t.chains[i], key);
        ReachesOnce(t, u, f, key, i, c);
      }
    }
  }

  /** What next returns for a key, as a multiset: the rids of exactly the records with that key. */
  lemma {:induction false} MatchingCount(s: seq<Slot>, key: Key, rid: Rid)
    ensures multiset(Matching(s, key))[rid] == multiset(s)[Slot(key, rid.block, rid.slot)]
  {
    if s != [] {
      var r := Slot(key, rid.block, rid.slot);
      MatchingCount(s[1..], key, rid);
      MatchingFirst(s, key);
      hide Matching;
      assert s == [s[0]] + s[1..];
      assert multiset(s)[r] == multiset([s[0]])[r] + multiset(s[1..])[r];
      if s[0].key == key {
        assert multiset(Matching(s, key)) == multiset([RidOf(s[0])]) + multiset(Matching(s[1..], key));
      }
    }
  }

  // ----- Insert -----

  function RecordOf(key: Key, rid: Rid): Slot {
    Slot(key, rid.block, rid.slot)
  }

  /** The leaf insertion that inserting (key, rid) starts with. */
  ghost function LeafStep(t: Tree, u: Setup, key: Key, rid: Rid): LeafOutcome
    requires TreeShape(t, u) && u.min <= key
  {
    var i := LeafOf(t, u, key);
    LeafReady(t, u, i);
    LeafInsert(t.chains[i], key, rid, t.leafSize, u.leaves)
  }

  lemma {:induction false} LeafReady(t: Tree, u: Setup, i: nat)
    requires TreeShape(t, u) && i < |t.chains|
    ensures LeafAt(Entries(t.dir), i, t.chains[i], u)
  {
  }

  /** Where a search from the root ends and what the leaf gives. */
  lemma {:induction false} PathReady(t: Tree, u: Setup, f: seq<Page>, key: Key) returns (n: nat)
    requires TreeShape(t, u) && u.min <= key && Stored(t.dir, f) && Clean(t.dir, NoBound, u.dirs, key)
    ensures var e, i := Entries(t.dir), LeafOf(t, u, key);
      && i < |e| && Ends(f, 0, key, n, t.chains[i].blk)
      && ChainShape(t.chains[i], e[i].key, Top(e, i, NoBound), u.leaves)
      && Readable(t.chains[i]) && Lookup(t.chains[i], key) == Matching(AllRecords(t.chains), key)
  {
    hide Matching, AllRecords, Shape, ChainShape, Clean, CleanAbove, Ends, Stored;
    SearchReady(t, u, key);
    LeafReady(t, u, LeafOf(t, u, key));
    LeafLookup(t, u, key);
    CleanIsAbove(t.dir, NoBound, u.dirs, key);
    SearchReaches(t, u, f, key);
    n :| Ends(f, 0, key, n, t.chains[LeafOf(t, u, key)].blk);
  }

  /** The separator a new leaf brings is new and belongs behind the old leaf's entry. */
  lemma {:induction false} NewSeparator(t: Tree, u: Setup, key: Key, rid: Rid)
    requires TreeShape(t, u) && u.min <= key
    ensures var i, o, e := LeafOf(t, u, key), LeafStep(t, u, key, rid), Entries(t.dir);
      && LeafSound(o, t.chains[i], e[i].key, Top(e, i, NoBound), u.leaves)
      && multiset(OutcomeRecords(o)) == multiset(Records(t.chains[i])) + multiset{RecordOf(key, rid)}
      && (o.up.Some? ==> u.min <= o.upKey && Fresh(e, o.upKey) && CountBefore(e, o.upKey) == i + 1)
  {
    var i, e := LeafOf(t, u, key), Entries(t.dir);
    EntryList(t, u);
    LeafReady(t, u, i);
    var o := LeafInsertSound(t.chains[i], key, rid, t.leafSize, e[i].key, Top(e, i, NoBound), u.leaves);
    if o.up.Some? {
      SeparatorSlot(e, i, o.upKey);
    }
  }

  lemma SeparatorSlot(e: seq<Slot>, i: nat, key: Key)
    requires Sorted(e) && i < |e| && e[i].key < key && Under(key, Top(e, i, NoBound))
    ensures Fresh(e, key) && CountBefore(e, key) == i + 1 && e[0].key <= key
  {
    forall j | 0 <= j <= i ensures e[j].key < key {
      assert j == i || e[j].key < e[i].key;
    }
    forall j | i < j < |e| ensures key < e[j].key {
      assert j == i + 1 || e[i + 1].key < e[j].key;
    }
  }

  /** insert: the record goes to its leaf, and a leaf that splits gets a directory entry. */
  ghost function TreeInsert(t: Tree, u: Setup, key: Key, rid: Rid): Tree
    requires TreeShape(t, u) && u.min <= key
  {
    var i := LeafOf(t, u, key);
    var o := LeafStep(t, u, key, rid);
    NewSeparator(t, u, key, rid);
    if o.up.None? then t.(chains := t.chains[i := o.chain], leafSize := o.next)
    else
      var e := Slot(o.upKey, o.up.value.blk, 0);
      Tree(InsertRoot(t.dir, e, t.dirSize, u.dirs), Parted(t.chains, i, o),
           InsertRootSize(t.dir, e, t.dirSize, u.dirs), o.next)
  }

  /** The leaves with the i-th one split in two. */
  function Parted(chains: seq<Chain>, i: nat, o: LeafOutcome): seq<Chain>
    requires i < |chains| && o.up.Some?
  {
    chains[..i] + ([o.chain, o.up.value] + chains[i + 1..])
  }

  lemma {:induction false} PartedRecords(chains: seq<Chain>, i: nat, o: LeafOutcome)
    requires i < |chains|
    ensures var now := if o.up.None? then chains[i := o.chain] else Parted(chains, i, o);
      multiset(AllRecords(now)) + multiset(Records(chains[i])) == multiset(AllRecords(chains)) + multiset(OutcomeRecords(o))
  {
    hide Records;
    var a, b := chains[..i], chains[i + 1..];
    AllSplit(chains, i);
    if o.up.None? {
      AllSplit(chains[i := o.chain], i);
      assert chains[i := o.chain][..i] == a && chains[i := o.chain][i + 1..] == b;
    } else {
      var m := [o.chain, o.up.value] + b;
      AllConcat(a, m);
      assert m[1..] == [o.up.value] + b && ([o.up.value] + b)[1..] == b;
      assert AllRecords(m) == Records(o.chain) + (Records(o.up.value) + AllRecords(b));
    }
  }

  /** Inserting adds exactly one record, whatever splits on the way. */
  lemma {:induction false} TreeInsertContents(t: Tree, u: Setup, key: Key, rid: Rid)
    requires TreeShape(t, u) && u.min <= key
    ensures Contents(TreeInsert(t, u, key, rid)) == Contents(t) + multiset{RecordOf(key, rid)}
  {
    NewSeparator(t, u, key, rid);
    var i, o := LeafOf(t, u, key), LeafStep(t, u, key, rid);
    PartedRecords(t.chains, i, o);
    var now := TreeInsert(t, u, key, rid).chains;
    Cancel(multiset(AllRecords(now)), Contents(t), multiset(Records(t.chains[i])), multiset{RecordOf(key, rid)});
  }

  lemma Cancel(a: multiset<Slot>, b: multiset<Slot>, r: multiset<Slot>, x: multiset<Slot>)
    requires a + r == b + (r + x)
    ensures a == b + x
  {
    assert a == (a + r) - r;
  }

  lemma {:induction false} ReplacedLeaf(e: seq<Slot>, chains: seq<Chain>, i: nat, o: LeafOutcome, size: nat, u: Setup)
    requires LeavesShape(e, chains, size, u) && i < |chains| && o.up.None?
    requires LeafSound(o, chains[i], e[i].key, Top(e, i, NoBound), u.leaves) && Rearranged(o, chains[i], size)
    ensures LeavesShape(e, chains[i := o.chain], o.next, u)
  {
    assert LeafAt(e, i, chains[i], u);
    assert forall b :: b in ChainBlocks(chains[i]) ==> b < size;
    RearrangedBlocks(o, chains[i], size);
  }

  lemma {:induction false} PartedLeafAt(e: seq<Slot>, chains: seq<Chain>, i: nat, o: LeafOutcome, size: nat, u: Setup, j: nat)
    requires LeavesShape(e, chains, size, u) && i < |chains| && o.up.Some? && j <= |chains|
    requires LeafSound(o, chains[i], e[i].key, Top(e, i, NoBound), u.leaves)
    requires ChainDistinct(o.chain) && ChainDistinct(o.up.value)
    ensures var e' := e[..i + 1] + [Slot(o.upKey, o.up.value.blk, 0)] + e[i + 1..];
      LeafAt(e', j, Parted(chains, i, o)[j], u)
  {
    hide ChainBlocks, FlagFor, LeafPage, Live, Ordered, OverDistinct, OverShape;
    var e' := e[..i + 1] + [Slot(o.upKey, o.up.value.blk, 0)] + e[i + 1..];
    var p := Parted(chains, i, o);
    assert LeafAt(e, i, chains[i], u);
    hide ChainShape, LeafPage, OverShape;
    if j < i {
      assert p[j] == chains[j] && e'[j] == e[j] && Top(e', j, NoBound) == Top(e, j, NoBound);
      assert LeafAt(e, j, chains[j], u);
    } else if j == i {
      assert p[j] == o.chain && e'[j] == e[j] && Top(e', j, NoBound) == Upto(o.upKey);
    } else if j == i + 1 {
      assert p[j] == o.up.value && Top(e', j, NoBound) == Top(e, i, NoBound);
    } else {
      assert p[j] == chains[j - 1] && e'[j] == e[j - 1] && Top(e', j, NoBound) == Top(e, j - 1, NoBound);
      assert LeafAt(e, j - 1, chains[j - 1], u);
    }
  }

  lemma {:induction false} PartedBlocks(chains: seq<Chain>, i: nat, o: LeafOutcome, size: nat)
    requires i < |chains| && o.up.Some? && Rearranged(o, chains[i], size) && ChainDistinct(chains[i])
    requires forall j, b :: 0 <= j < |chains| && b in ChainBlocks(chains[j]) ==> b < size
    requires forall j, k :: 0 <= j < k < |chains| ==> ChainBlocks(chains[j]) !! ChainBlocks(chains[k])
    ensures var p := Parted(chains, i, o);
      && (forall j, b :: 0 <= j < |p| && b in ChainBlocks(p[j]) ==> b < o.next)
      && (forall j, k :: 0 <= j < k < |p| ==> ChainBlocks(p[j]) !! ChainBlocks(p[k]))
  {
    var p := Parted(chains, i, o);
    assert forall b :: b in ChainBlocks(chains[i]) ==> b < size;
    RearrangedBlocks(o, chains[i], size);
    forall j | 0 <= j < |p|
      ensures if j < i then p[j] == chains[j] else if j == i then p[j] == o.chain else if j == i + 1 then p[j] == o.up.value else p[j] == chains[j - 1]
    {
    }
  }

  lemma {:induction false} PartedLeaves(e: seq<Slot>, chains: seq<Chain>, i: nat, o: LeafOutcome, size: nat, u: Setup)
    requires LeavesShape(e, chains, size, u) && i < |chains| && o.up.Some?
    requires LeafSound(o, chains[i], e[i].key, Top(e, i, NoBound), u.leaves) && Rearranged(o, chains[i], size)
    ensures LeavesShape(e[..i + 1] + [Slot(o.upKey, o.up.value.blk, 0)] + e[i + 1..], Parted(chains, i, o), o.next, u)
  {
    assert LeafAt(e, i, chains[i], u);
    assert forall b :: b in ChainBlocks(chains[i]) ==> b < size;
    RearrangedBlocks(o, chains[i], size);
    forall j | 0 <= j <= |chains|
      ensures LeafAt(e[..i + 1] + [Slot(o.upKey, o.up.value.blk, 0)] + e[i + 1..], j, Parted(chains, i, o)[j], u)
    {
      PartedLeafAt(e, chains, i, o, size, u, j);
    }
    PartedBlocks(chains, i, o, size);
  }

  /** The leaf of a key in the words the leaf lemmas use. */
  lemma {:induction false} LeafContext(t: Tree, u: Setup, key: Key, rid: Rid)
    requires TreeShape(t, u) && u.min <= key
    ensures var i, o, e := LeafOf(t, u, key), LeafStep(t, u, key, rid), Entries(t.dir);
      && LeafSound(o, t.chains[i], e[i].key, Top(e, i, NoBound), u.leaves) && Rearranged(o, t.chains[i], t.leafSize)
      && (o.up.Some? ==> Insertable(t.dir, Slot(o.upKey, o.up.value.blk, 0), NoBound, u.dirs) && CountBefore(e, o.upKey) == i + 1)
  {
    var i, e := LeafOf(t, u, key), Entries(t.dir);
    NewSeparator(t, u, key, rid);
    LeafReady(t, u, i);
    LeafInsertRearranges(t.chains[i], key, rid, t.leafSize, e[i].key, Top(e, i, NoBound), u.leaves);
  }

  lemma {:induction false} SplitShapeKept(t: Tree, u: Setup, i: nat, o: LeafOutcome)
    requires TreeShape(t, u) && i < |t.chains| && o.up.Some?
    requires var e := Entries(t.dir);
      && LeafSound(o, t.chains[i], e[i].key, Top(e, i, NoBound), u.leaves) && Rearranged(o, t.chains[i], t.leafSize)
      && CountBefore(e, o.upKey) == i + 1
    requires Insertable(t.dir, Slot(o.upKey, o.up.value.blk, 0), NoBound, u.dirs)
    ensures var x := Slot(o.upKey, o.up.value.blk, 0);
      TreeShape(Tree(InsertRoot(t.dir, x, t.dirSize, u.dirs), Parted(t.chains, i, o), InsertRootSize(t.dir, x, t.dirSize, u.dirs), o.next), u)
  {
    var e, x := Entries(t.dir), Slot(o.upKey, o.up.value.blk, 0);
    PartedLeaves(e, t.chains, i, o, t.leafSize, u);
    InsertRootCorrect(t.dir, x, t.dirSize, u.dirs);
    InsertRootBlocks(t.dir, x, t.dirSize, u.dirs);
    assert InsertSorted(e, x) == e[..i + 1] + [x] + e[i + 1..];
  }

  /** Every insertion keeps the invariant of the index. */
  lemma {:induction false} TreeInsertShape(t: Tree, u: Setup, key: Key, rid: Rid)
    requires TreeShape(t, u) && u.min <= key
    ensures TreeShape(TreeInsert(t, u, key, rid), u)
  {
    var i, o := LeafOf(t, u, key), LeafStep(t, u, key, rid);
    LeafContext(t, u, key, rid);
    if o.up.None? {
      ReplacedLeaf(Entries(t.dir), t.chains, i, o, t.leafSize, u);
    } else {
      SplitShapeKept(t, u, i, o);
    }
  }

  // ----- Remove -----

  ghost predicate ReadyToRemove(t: Tree, u: Setup, key: Key, rid: Rid)
    requires TreeShape(t, u) && u.min <= key
  {
    var c := t.chains[LeafOf(t, u, key)];
    Readable(c) && Stocked(c.over) && RemoveSafe(c, key, rid)
  }

  /** remove: one record with the key and the rid leaves its leaf; the directory stays as it is. */
  ghost function TreeRemove(t: Tree, u: Setup, key: Key, rid: Rid): Tree
    requires TreeShape(t, u) && u.min <= key && ReadyToRemove(t, u, key, rid)
  {
    var i := LeafOf(t, u, key);
    t.(chains := t.chains[i := ChainRemoved(t.chains[i], key, rid)])
  }

  lemma {:induction false} RemovedBlocks(c: Chain, key: Key, rid: Rid)
    requires Readable(c) && Stocked(c.over)
    ensures var d := ChainRemoved(c, key, rid);
      d.blk == c.blk && |d.over| == |c.over| && forall i :: 0 <= i < |c.over| ==> d.over[i].blk == c.over[i].blk
  {
    OverRemovedBlocks(c.over, key, rid);
  }

  lemma {:induction false} OverRemovedBlocks(over: seq<Block>, key: Key, rid: Rid)
    requires Stocked(over)
    ensures var d := OverRemoved(over, key, rid);
      |d| == |over| && forall i :: 0 <= i < |over| ==> d[i].blk == over[i].blk
  {
    if over != [] {
      assert Stocked(over[1..]);
      OverRemovedBlocks(over[1..], key, rid);
      var d := OverRemoved(over, key, rid);
      forall i | 0 <= i < |over| ensures |d| == |over| && d[i].blk == over[i].blk {
        assert i > 0 ==> over[i] == over[1..][i - 1];
      }
    }
  }

  lemma {:induction false} ReplacedChain(e: seq<Slot>, chains: seq<Chain>, i: nat, d: Chain, size: nat, u: Setup)
    requires LeavesShape(e, chains, size, u) && i < |chains| && LeafAt(e, i, d, u)
    requires ChainBlocks(d) == ChainBlocks(chains[i])
    ensures LeavesShape(e, chains[i := d], size, u)
  {
  }

  /** Removing takes exactly one matching record out, if there is one, and a safe remove keeps the
      invariant. */
  lemma {:induction false} TreeRemoveCorrect(t: Tree, u: Setup, key: Key, rid: Rid)
    requires TreeShape(t, u) && u.min <= key && ReadyToRemove(t, u, key, rid)
    ensures TreeShape(TreeRemove(t, u, key, rid), u)
    ensures Contents(TreeRemove(t, u, key, rid)) == Contents(t) - multiset{RecordOf(key, rid)}
  {
    hide ChainShape, KidShape, OverHit, OverRecords, OverSafe, PageShape;
    EntryList(t, u);
    var i, e := LeafOf(t, u, key), Entries(t.dir);
    LeafReady(t, u, i);
    var c := t.chains[i];
    var d := ChainRemoved(c, key, rid);
    RemoveShape(c, key, rid, e[i].key, Top(e, i, NoBound), u.leaves);
    RemovedBlocks(c, key, rid);
    ReplacedChain(e, t.chains, i, d, t.leafSize, u);
    RemovedContents(t, u, key, rid);
  }

  lemma {:induction false} RemovedContents(t: Tree, u: Setup, key: Key, rid: Rid)
    requires TreeShape(t, u) && u.min <= key && ReadyToRemove(t, u, key, rid)
    ensures Contents(TreeRemove(t, u, key, rid)) == Contents(t) - multiset{RecordOf(key, rid)}
  {
    hide AllRecords, BlocksAll, ChainBlocks, CountBefore, DistinctAll, LeafAt, LeafRoomy, Live, OverHit, OverRemoved,
      OverSafe, Overflows, PageHit, Readable, Records, Removed, RidOf, Roomy, Route, Shape, Sorted;
    EntryList(t, u);
    var i, e := LeafOf(t, u, key), Entries(t.dir);
    LeafReady(t, u, i);
    RemoveRecords(t.chains[i], key, rid, e[i].key, Top(e, i, NoBound), u.leaves);
    OnlyLeaf(e, t.chains, i, key, u);
    LeafRemoved(t.chains, i, ChainRemoved(t.chains[i], key, rid), key, rid);
  }

  /** One leaf changed, the one with all records of the key. */
  lemma {:induction false} LeafRemoved(chains: seq<Chain>, i: nat, d: Chain, key: Key, rid: Rid)
    requires i < |chains| && Matching(AllRecords(chains), key) == Matching(Records(chains[i]), key)
    requires multiset(Records(d)) == multiset(Records(chains[i])) - multiset{Slot(key, rid.block, rid.slot)}
    ensures multiset(AllRecords(chains[i := d])) == multiset(AllRecords(chains)) - multiset{Slot(key, rid.block, rid.slot)}
  {
    hide Records, AllRecords, Matching;
    PartedRecords(chains, i, LeafOutcome(d, None, key, 0));
    MatchingCount(AllRecords(chains), key, rid);
    MatchingCount(Records(chains[i]), key, rid);
    Difference(multiset(AllRecords(chains[i := d])), multiset(AllRecords(chains)), multiset(Records(chains[i])), Slot(key, rid.block, rid.slot));
  }

  lemma Difference(now: multiset<Slot>, was: multiset<Slot>, leaf: multiset<Slot>, r: Slot)
    requires now + leaf == was + (leaf - multiset{r}) && was[r] == leaf[r]
    ensures now == was - multiset{r}
  {
    forall x ensures now[x] == (was - multiset{r})[x] {
      assert (now + leaf)[x] == (was + (leaf - multiset{r}))[x];
    }
  }

  // ----- Whole runs -----

  datatype Op = Put(key: Key, rid: Rid) | Take(key: Key, rid: Rid)

  /** An insertion finds its way: no dead directory slot misleads the search for the key, nor the one for
      the separator of the new leaf if there is one. Can be told from the pages before the call. */
  ghost predicate ReadyToInsert(t: Tree, u: Setup, key: Key, rid: Rid)
    requires TreeShape(t, u) && u.min <= key
  {
    var o := LeafStep(t, u, key, rid);
    LeafContext(t, u, key, rid);
    Clean(t.dir, NoBound, u.dirs, key) && (o.up.Some? ==> Clean(t.dir, NoBound, u.dirs, o.upKey))
  }

  ghost predicate Ready(t: Tree, u: Setup, op: Op)
    requires TreeShape(t, u)
  {
    u.min <= op.key &&
    match op
    case Put(key, rid) => ReadyToInsert(t, u, key, rid)
    case Take(key, rid) => Clean(t.dir, NoBound, u.dirs, key) && ReadyToRemove(t, u, key, rid)
  }

  ghost function Step(t: Tree, u: Setup, op: Op): (t': Tree)
    requires TreeShape(t, u) && Ready(t, u, op)
    ensures TreeShape(t', u)
  {
    match op
    case Put(key, rid) => TreeInsertShape(t, u, key, rid); TreeInsert(t, u, key, rid)
    case Take(key, rid) => TreeRemoveCorrect(t, u, key, rid); TreeRemove(t, u, key, rid)
  }

  /** Every operation of the run is ready in the state it meets. */
  ghost predicate RunReady(t: Tree, u: Setup, ops: seq<Op>)
    requires TreeShape(t, u)
    decreases ops
  {
    ops == [] || (Ready(t, u, ops[0]) && RunReady(Step(t, u, ops[0]), u, ops[1..]))
  }

  ghost function Run(t: Tree, u: Setup, ops: seq<Op>): (t': Tree)
    requires TreeShape(t, u) && RunReady(t, u, ops)
    ensures TreeShape(t', u)
    decreases ops
  {
    if ops == [] then t else Run(Step(t, u, ops[0]), u, ops[1..])
  }

  /** What a plain multiset does on the same operations. */
  ghost function Apply(m: multiset<Slot>, op: Op): multiset<Slot> {
    match op
    case Put(key, rid) => m + multiset{RecordOf(key, rid)}
    case Take(key, rid) => m - multiset{RecordOf(key, rid)}
  }

  ghost function Spec(m: multiset<Slot>, ops: seq<Op>): multiset<Slot>
    decreases ops
  {
    if ops == [] then m else Spec(Apply(m, ops[0]), ops[1..])
  }

  lemma {:induction false} StepContents(t: Tree, u: Setup, op: Op)
    requires TreeShape(t, u) && Ready(t, u, op)
    ensures Contents(Step(t, u, op)) == Apply(Contents(t), op)
  {
    match op
    case Put(key, rid) => TreeInsertContents(t, u, key, rid);
    case Take(key, rid) => TreeRemoveCorrect(t, u, key, rid);
  }

  lemma {:induction false} RunContents(t: Tree, u: Setup, ops: seq<Op>)
    requires TreeShape(t, u) && RunReady(t, u, ops)
    ensures Contents(Run(t, u, ops)) == Spec(Contents(t), ops)
    decreases ops
  {
    if ops != [] {
      StepContents(t, u, ops[0]);
      RunContents(Step(t, u, ops[0]), u, ops[1..]);
    }
  }

  /** The index refines a multiset: after any run of ready operations, looking up a key that no dead slot hides
      gives exactly the rids a plain multiset of records would hold under it, each as often. f is the directory
      file. */
  lemma {:induction false} RunRefinesMultiset(t: Tree, u: Setup, ops: seq<Op>, f: seq<Page>, key: Key) returns (rids: seq<Rid>)
    requires TreeShape(t, u) && RunReady(t, u, ops) && u.min <= key
    requires var t' := Run(t, u, ops); Stored(t'.dir, f) && Clean(t'.dir, NoBound, u.dirs, key)
    ensures forall answer :: Gives(Run(t, u, ops), f, key, answer) <==> answer == rids
    ensures forall rid :: multiset(rids)[rid] == Spec(Contents(t), ops)[RecordOf(key, rid)]
  {
    hide TreeShape, RunReady, Run, Gives, Stored, Clean, Matching;
    var t' := Run(t, u, ops);
    RunContents(t, u, ops);
    TreeLookup(t', u, f, key);
    rids := Matching(AllRecords(t'.chains), key);
    forall rid ensures multiset(rids)[rid] == Spec(Contents(t), ops)[RecordOf(key, rid)] {
      MatchingCount(AllRecords(t'.chains), key, rid);
    }
  }

  // ----- The code -----

  /** The two files hold the index. */
  ghost predicate HeldBy(t: Tree, u: Setup, dirs: seq<Page>, leaves: seq<Page>) {
    && TreeShape(t, u)
    && Stored(t.dir, dirs) && |dirs| == t.dirSize
    && |leaves| == t.leafSize
    && ChainsStored(t.chains, leaves)
  }

  /** The index on its two files. tree is what they hold. */
  class BTreeIndex {
    const dirTable: BlockFile
    const leafTable: BlockFile
    var leaf: BTreeLeaf?
    ghost var tree: Tree
    ghost const u: Setup

    ghost predicate Valid()
      reads this, dirTable, leafTable
    {
      && dirTable != leafTable && Fits(dirTable, u.dirs) && LeafFits(leafTable, u.leaves)
      && HeldBy(tree, u, dirTable.blocks, leafTable.blocks)
    }

    /** In two empty files a new index: one empty leaf, and a root with one entry for it. Files that hold an index
        already are left as they are. */
    constructor (dirTable: BlockFile, leafTable: BlockFile, min: Key, ghost u: Setup, ghost held: Tree)
      requires dirTable != leafTable && Fits(dirTable, u.dirs) && LeafFits(leafTable, u.leaves) && u.min == min
      requires dirTable.blocks == [] <==> leafTable.blocks == []
      requires dirTable.blocks != [] ==> HeldBy(held, u, dirTable.blocks, leafTable.blocks)
      modifies dirTable, leafTable
      ensures Valid() && leaf == null
      ensures this.dirTable == dirTable && this.leafTable == leafTable && this.u == u
      ensures old(dirTable.blocks) == [] ==> Contents(tree) == multiset{}
      ensures old(dirTable.blocks) != [] ==> tree == held && dirTable.blocks == old(dirTable.blocks) && leafTable.blocks == old(leafTable.blocks)
    {
      hide EmptyTree, TreeShape, Stored, ChainsStored, Contents, Inserted, Formatted;
      this.dirTable, this.leafTable, this.u, leaf := dirTable, leafTable, u, null;
      tree := if dirTable.blocks == [] then EmptyTree(u) else held;
      new;
      EmptyTreeOk(u);
      EmptyStored(u);
      if |leafTable.blocks| == 0 {
        var blk := leafTable.AppendNew(-1);
        assert leafTable.blocks == [Formatted(-1, u.leaves.cap)];
      }
      if |dirTable.blocks| == 0 {
        var root := dirTable.AppendNew(0);
        assert dirTable.blocks == [Formatted(0, u.dirs.cap)];
        dirTable.Insert(root, 0, Slot(min, 0, 0));
        assert dirTable.blocks == [Inserted(Formatted(0, u.dirs.cap), 0, Slot(min, 0, 0))];
      }
    }

    /** beforeFirst: the cursor will return exactly the rids of the records with the key. */
    method BeforeFirst(key: Key)
      requires Valid() && u.min <= key && Clean(tree.dir, NoBound, u.dirs, key)
      modifies this`leaf
      ensures Valid() && leaf != null && fresh(leaf) && leaf.file == leafTable && leaf.key == key
      ensures leaf.Valid() && leaf.Remaining() == Matching(AllRecords(tree.chains), key)
      ensures var c := tree.chains[LeafOf(tree, u, key)];
        leaf.contents == c.blk && leaf.rest == c.over && leaf.currentSlot == CountBefore(Live(c.page), key) - 1
    {
      hide Clean, Shape, Matching, Records, AllRecords, Lookup, ChainShape, RootShape, Entries, Route, Sorted, CountBefore,
        Live, Capacity, Ends, Stored;
      ghost var i := LeafOf(tree, u, key);
      ghost var n := PathReady(tree, u, dirTable.blocks, key);
      var root := new BTreeDir(dirTable, 0);
      var blkNum := root.Search(key, n, tree.chains[i].blk);
      leaf := new BTreeLeaf(leafTable, blkNum, key, tree.chains[i], Entries(tree.dir)[i].key, Top(Entries(tree.dir), i, NoBound), u.leaves);
    }

    method Next() returns (more: bool)
      requires leaf != null && leaf.Valid()
      modifies leaf
      ensures leaf.Valid()
      ensures more <==> old(leaf.Remaining()) != []
      ensures more ==> 0 <= leaf.currentSlot < |leaf.file.blocks[leaf.contents].slots|
      ensures more ==> RidOf(leaf.file.blocks[leaf.contents].slots[leaf.currentSlot]) == old(leaf.Remaining())[0]
      ensures more ==> leaf.Remaining() == old(leaf.Remaining())[1..]
    {
      more := leaf.Next();
    }

    /** next until false: terminates and returns exactly the rids of the records with the key. */
    method LookUp(key: Key) returns (rids: seq<Rid>)
      requires Valid() && u.min <= key && Clean(tree.dir, NoBound, u.dirs, key)
      modifies this`leaf
      ensures Valid() && rids == Matching(AllRecords(tree.chains), key)
    {
      BeforeFirst(key);
      rids := Drain(leaf);
    }

    /** The part of insert that works on the leaf file. */
    method InsertLeaf(key: Key, rid: Rid) returns (entry: Option<Slot>)
      requires Valid() && u.min <= key && Clean(tree.dir, NoBound, u.dirs, key)
      modifies this`leaf, leafTable
      ensures LeafFits(leafTable, u.leaves)
      ensures var o := LeafStep(tree, u, key, rid);
        entry == EntryOf(o) && |leafTable.blocks| == o.next
        && ChainsStored(LeavesAfter(tree, u, key, o), leafTable.blocks)
    {
      hide Blocks, Capacity, ChainStored, ChainsStored, Clean, CountBefore, DeadHit, Distinct, Entries, EntryOf, Fits,
        Flatten, Inserted, KidShape, LeafFits, LeafInsert, LeafStep, LeavesAfter, LeavesShape, LeftPart, Live, Ordered, OverStored,
        PageShape, Parted, RightPart, Roomy, RootShape, Route, SetupOk, Shape, Sorted, SplitFull, Top, TreeShape;
      InsertLeafFacts(tree, u, key, rid, leafTable.blocks);
      BeforeFirst(key);
      ghost var i, e := LeafOf(tree, u, key), Entries(tree.dir);
      entry := leaf.Insert(rid, tree.chains[i], e[i].key, Top(e, i, NoBound), u.leaves);
    }

    /** The part of insert that works on the directory file. */
    method InsertDirectory(entry: Option<Slot>, ghost d: Dir)
      requires Fits(dirTable, u.dirs) && RootShape(d, u.dirs) && d.blk == 0 && Stored(d, dirTable.blocks) && Distinct(d)
      requires entry.Some? ==> Insertable(d, entry.value, NoBound, u.dirs) && Clean(d, NoBound, u.dirs, entry.value.key)
      modifies dirTable
      ensures Fits(dirTable, u.dirs)
      ensures entry.None? ==> dirTable.blocks == old(dirTable.blocks)
      ensures entry.Some? ==>
                && Stored(InsertRoot(d, entry.value, |old(dirTable.blocks)|, u.dirs), dirTable.blocks)
                && |dirTable.blocks| == InsertRootSize(d, entry.value, |old(dirTable.blocks)|, u.dirs)
    {
      if entry.Some? {
        var root := new BTreeDir(dirTable, 0);
        root.InsertAtRoot(entry.value, d, u.dirs);
      }
    }

    /** insert refines TreeInsert: one more record, and the invariant holds again. */
    method Insert(key: Key, rid: Rid)
      requires Valid() && u.min <= key && ReadyToInsert(tree, u, key, rid)
      modifies this`leaf, this`tree, leafTable, dirTable
      ensures Valid() && tree == TreeInsert(old(tree), u, key, rid)
      ensures Contents(tree) == old(Contents(tree)) + multiset{RecordOf(key, rid)}
    {
      hide Stored, ChainsStored, Contents, TreeInsert, InsertRoot, InsertRootSize, LeafStep, LeavesAfter;
      ghost var next := NextTree(tree, u, key, rid);
      LeafContext(tree, u, key, rid);
      var entry := InsertLeaf(key, rid);
      InsertDirectory(entry, tree.dir);
      tree := next;
    }

    /** The part of remove that works on the leaf file. */
    method RemoveLeaf(key: Key, rid: Rid)
      requires Valid() && u.min <= key && Clean(tree.dir, NoBound, u.dirs, key) && ReadyToRemove(tree, u, key, rid)
      modifies this`leaf, leafTable
      ensures LeafFits(leafTable, u.leaves) && |leafTable.blocks| == tree.leafSize
      ensures ChainsStored(TreeRemove(tree, u, key, rid).chains, leafTable.blocks)
    {
      hide Blocks, Capacity, ChainRemoved, ChainStored, Clean, CountBefore, DeadHit, Distinct, Entries, Fits, Flatten,
        KidShape, LeafFits, LeavesShape, Live, OverRemoved, OverSafe, OverStored, Overflows, PageHit, PageShape, Readable,
        ReadyToRemove, RemoveSafe, Removed, Roomy, RootShape, Route, SetupOk, Shape, Sorted, Stocked, Top, TreeRemove,
        TreeShape;
      ghost var i, e, f := LeafOf(tree, u, key), Entries(tree.dir), leafTable.blocks;
      LeafReady(tree, u, i);
      BeforeFirst(key);
      leaf.Remove(rid, tree.chains[i], e[i].key, Top(e, i, NoBound), u.leaves);
      RemoveStored(tree, u, key, rid, f, leafTable.blocks);
    }

    /** remove refines TreeRemove, for a record that may leave its leaf. */
    method Remove(key: Key, rid: Rid)
      requires Valid() && u.min <= key && Clean(tree.dir, NoBound, u.dirs, key) && ReadyToRemove(tree, u, key, rid)
      modifies this`leaf, this`tree, leafTable
      ensures Valid() && tree == TreeRemove(old(tree), u, key, rid)
      ensures Contents(tree) == old(Contents(tree)) - multiset{RecordOf(key, rid)}
    {
      hide TreeShape, Clean, Contents, Stored, ChainsStored, RemoveSafe;
      ghost var next := TreeRemove(tree, u, key, rid);
      TreeRemoveCorrect(tree, u, key, rid);
      RemoveLeaf(key, rid);
      tree := next;
    }
  }

  lemma {:induction false} NextTree(t: Tree, u: Setup, key: Key, rid: Rid) returns (t': Tree)
    requires TreeShape(t, u) && u.min <= key
    ensures t' == TreeInsert(t, u, key, rid) && TreeShape(t', u)
    ensures Contents(t') == Contents(t) + multiset{RecordOf(key, rid)}
    ensures var o := LeafStep(t, u, key, rid);
      && t'.chains == LeavesAfter(t, u, key, o) && t'.leafSize == o.next
      && if o.up.None? then t'.dir == t.dir && t'.dirSize == t.dirSize
         else
           var e := Slot(o.upKey, o.up.value.blk, 0);
           && Insertable(t.dir, e, NoBound, u.dirs)
           && t'.dir == InsertRoot(t.dir, e, t.dirSize, u.dirs) && t'.dirSize == InsertRootSize(t.dir, e, t.dirSize, u.dirs)
  {
    t' := TreeInsert(t, u, key, rid);
    TreeInsertShape(t, u, key, rid);
    TreeInsertContents(t, u, key, rid);
    LeafContext(t, u, key, rid);
  }

  /** The leaves after the leaf step of an insertion. */
  ghost function LeavesAfter(t: Tree, u: Setup, key: Key, o: LeafOutcome): seq<Chain>
    requires TreeShape(t, u) && u.min <= key
  {
    var i := LeafOf(t, u, key);
    if o.up.None? then t.chains[i := o.chain] else Parted(t.chains, i, o)
  }

  /** Leaves other than the i-th keep their pages when only the i-th one's blocks change. */
  lemma {:induction false} RemainStored(t: Tree, u: Setup, i: nat, f: seq<Page>, f': seq<Page>)
    requires TreeShape(t, u) && i < |t.chains| && |f| <= |f'|
    requires forall j :: 0 <= j < |t.chains| ==> ChainStored(t.chains[j], f)
    requires forall b :: 0 <= b < |f| && b !in ChainBlocks(t.chains[i]) ==> f'[b] == f[b]
    ensures forall j :: 0 <= j < |t.chains| && j != i ==> ChainStored(t.chains[j], f')
  {
    forall j | 0 <= j < |t.chains| && j != i ensures ChainStored(t.chains[j], f') {
      var c := t.chains[j];
      assert ChainBlocks(c) !! ChainBlocks(t.chains[i]);
      assert c.blk in ChainBlocks(c);
      forall k | 0 <= k < |c.over| ensures c.over[k].blk < |f'| && f'[c.over[k].blk] == c.over[k].page {
        assert c.over[k].blk in ChainBlocks(c);
      }
    }
  }

  ghost predicate ChainsStored(cs: seq<Chain>, f: seq<Page>) {
    forall i :: 0 <= i < |cs| ==> ChainStored(cs[i], f)
  }

  lemma {:induction false} RemoveStored(t: Tree, u: Setup, key: Key, rid: Rid, f: seq<Page>, f': seq<Page>)
    requires TreeShape(t, u) && u.min <= key && ReadyToRemove(t, u, key, rid) && ChainsStored(t.chains, f) && |f'| == |f|
    requires var c := t.chains[LeafOf(t, u, key)];
      ChainStored(ChainRemoved(c, key, rid), f') && forall b :: 0 <= b < |f| && b !in ChainBlocks(c) ==> f'[b] == f[b]
    ensures ChainsStored(TreeRemove(t, u, key, rid).chains, f')
  {
    RemainStored(t, u, LeafOf(t, u, key), f, f');
  }

  lemma {:induction false} InsertLeafFacts(t: Tree, u: Setup, key: Key, rid: Rid, f: seq<Page>)
    requires TreeShape(t, u) && u.min <= key && ChainsStored(t.chains, f) && |f| == t.leafSize
    ensures var i, o := LeafOf(t, u, key), LeafStep(t, u, key, rid);
      && LeafAt(Entries(t.dir), i, t.chains[i], u) && ChainStored(t.chains[i], f)
      && o == LeafInsert(t.chains[i], key, rid, |f|, u.leaves)
      && ChainsStored(LeavesAfter(t, u, key, o), LeafPages(f, o)) && |LeafPages(f, o)| == o.next
  {
    var i, o := LeafOf(t, u, key), LeafStep(t, u, key, rid);
    LeafReady(t, u, i);
    LeafContext(t, u, key, rid);
    RearrangedStored(o, t.chains[i], f);
    OthersStored(t, u, key, o, f);
  }

  lemma {:induction false} OthersStored(t: Tree, u: Setup, key: Key, o: LeafOutcome, f: seq<Page>)
    requires TreeShape(t, u) && u.min <= key && |f| == t.leafSize
    requires forall j :: 0 <= j < |t.chains| ==> ChainStored(t.chains[j], f)
    requires var c := t.chains[LeafOf(t, u, key)];
      o.chain.blk == c.blk && Rearranged(o, c, |f|) && ChainStored(o.chain, LeafPages(f, o)) && (o.up.Some? ==> ChainStored(o.up.value, LeafPages(f, o)))
    ensures ChainsStored(LeavesAfter(t, u, key, o), LeafPages(f, o))
  {
    hide Blocks, Distinct, Entries, LeavesShape, OverStored, RootShape, Route, SetupOk;
    var i, f' := LeafOf(t, u, key), LeafPages(f, o);
    assert t.chains[i].blk in ChainBlocks(t.chains[i]);
    RemainStored(t, u, i, f, f');
    var p := LeavesAfter(t, u, key, o);
    forall j | 0 <= j < |p| ensures ChainStored(p[j], f') {
      if o.up.Some? {
        assert p[j] == if j < i then t.chains[j] else if j == i then o.chain else if j == i + 1 then o.up.value else t.chains[j - 1];
      }
    }
  }

  /** One call of next, and of getDataRid when it succeeds. */
  method NextRid(leaf: BTreeLeaf) returns (rid: Option<Rid>)
    requires leaf.Valid()
    modifies leaf
    ensures leaf.Valid()
    ensures rid == if old(leaf.Remaining()) == [] then None else Some(old(leaf.Remaining())[0])
    ensures rid.Some? ==> leaf.Remaining() == old(leaf.Remaining())[1..]
  {
    var more := leaf.Next();
    if !more {
      return None;
    }
    var r := leaf.GetDataRid();
    return Some(r);
  }

  method Drain(leaf: BTreeLeaf) returns (rids: seq<Rid>)
    requires leaf.Valid()
    modifies leaf
    ensures rids == old(leaf.Remaining())
    decreases |leaf.Remaining()|
  {
    var rid := NextRid(leaf);
    if rid.None? {
      return [];
    }
    rids := Drain(leaf);
    rids := [rid.value] + rids;
  }

  ghost function EmptyTree(u: Setup): Tree
    requires SetupOk(u)
  {
    var root := Dir(0, Inserted(Formatted(0, u.dirs.cap), 0, Slot(u.min, 0, 0)), []);
    Tree(root, [Chain(0, Formatted(-1, u.leaves.cap), [])], 1, 1)
  }

  lemma {:induction false} EmptyDir(u: Setup)
    requires SetupOk(u)
    ensures var d := EmptyTree(u).dir;
      && RootShape(d, u.dirs) && d.page.slots[0].key == u.min && d.blk == 0 && Entries(d) == [Slot(u.min, 0, 0)]
  {
    hide LeafRoomy, Shape, Entries;
    var d := EmptyTree(u).dir;
    assert Live(d.page) == [Slot(u.min, 0, 0)] && d.page.slots[0] == Live(d.page)[0];
    OneEntry(d, u.dirs);
  }

  lemma {:induction false} OneEntry(d: Dir, g: Geometry)
    requires Roomy(g) && d.kids == [] && d.page.flag == 0 && d.page.n == 1 && |d.page.slots| == g.cap && Live(d.page)[0].block >= 0
    ensures Shape(d, NoBound, g) && Entries(d) == Live(d.page)
  {
    hide KidShape;
  }

  lemma {:induction false} OneBlock(d: Dir)
    requires d.kids == []
    ensures Distinct(d) && Blocks(d) == {d.blk}
  {
  }

  lemma {:induction false} EmptyLeaf(u: Setup)
    requires SetupOk(u)
    ensures LeafAt([Slot(u.min, 0, 0)], 0, EmptyTree(u).chains[0], u) && ChainBlocks(EmptyTree(u).chains[0]) == {0}
    ensures Records(EmptyTree(u).chains[0]) == []
  {
    hide Roomy, Inserted;
  }

  lemma {:induction false} EmptyTreeOk(u: Setup)
    requires SetupOk(u)
    ensures TreeShape(EmptyTree(u), u) && Contents(EmptyTree(u)) == multiset{}
  {
    hide RootShape, Distinct, Blocks, Entries, LeafAt, ChainBlocks, Records, SetupOk, Inserted, Formatted;
    var t := EmptyTree(u);
    EmptyDir(u);
    OneBlock(t.dir);
    EmptyLeaf(u);
    assert t.chains[1..] == [] && AllRecords(t.chains) == [];
  }

  lemma {:induction false} EmptyStored(u: Setup)
    requires SetupOk(u)
    ensures var t := EmptyTree(u);
      && Stored(t.dir, [Inserted(Formatted(0, u.dirs.cap), 0, Slot(u.min, 0, 0))]) && t.dirSize == 1
      && ChainsStored(t.chains, [Formatted(-1, u.leaves.cap)]) && t.leafSize == 1
  {
    hide Inserted, Formatted, Roomy, LeafRoomy;
  }

  // ----- Where the unguarded read goes wrong -----

  /** Every separator is negative and the key is 0, the value format leaves in dead slots: the search is
      sent to block 0 instead of the last child. */
  lemma ZeroGoesAstray(p: Page)
    requires 2 <= p.n < |p.slots| && Sorted(Live(p)) && p.slots[p.n - 1].key < 0.0
    requires p.slots[p.n] == DEFAULT && p.slots[p.n - 1].block != 0
    ensures FindChild(p, 0.0) == 0 != Floor(Live(p), 0.0).block
  {
    assert p.slots[0].key <= p.slots[p.n - 1].key by {
      assert Live(p)[0].key <= Live(p)[p.n - 1].key;
    }
    FindChildExact(p, 0.0);
  }

  /** The page of a root of two entries before it grows, w being the full page it was split from. */
  lemma StalePage(w: Page, a: Slot, x: Slot)
    requires w.n == 4 <= |w.slots|
    ensures LeftPart(w, 2).slots[0] == w.slots[0] && LeftPart(w, 2).n == 2
    ensures var p := RootPage(LeftPart(w, 2), a, x);
      a.key < x.key ==> Live(p) == [a, x] && p.n == 2 && |p.slots| == |w.slots| && p.slots[2] == w.slots[3] && p.flag == w.flag + 1
  {
    var l := LeftPart(w, 2);
    assert l.slots[2] == w.slots[3];
    var z := LeftPart(l, 0);
    assert z.slots[2] == w.slots[3] && Live(z) == [];
    var p1 := Inserted(z, 0, a);
    assert p1.slots[2] == w.slots[3] && Live(p1) == [a];
  }

  lemma LastEntry(p: Page, e: Slot)
    requires p.n == 3 < |p.slots| && Sorted(Live(p)) && p.slots[2].key < e.key
    ensures CountBefore(Live(p), e.key) == 3
    ensures var q := Inserted(p, 3, e); q.slots[3] == e && q.slots[2] == p.slots[2] && q.slots[0] == p.slots[0]
  {
    assert Live(p)[2] == p.slots[2];
  }

  /** When pages are full at four entries and the root's fourth entry is its last, the root grows and
      keeps that entry in the dead slot behind its two live ones. A search for its separator, the first
      key of a leaf, then takes the number of the leaf for a directory block. */
  lemma {:induction false} RootKeepsStaleSeparator(d: Dir, e: Slot, next: nat, g: Geometry)
    requires g.full == 4 && RootShape(d, g) && d.page.flag == 0 && d.page.n == 3
    requires Insertable(d, e, NoBound, g) && d.page.slots[2].key < e.key
    ensures var root := InsertRoot(d, e, next, g).page;
      && root.flag == 1 && root.n == 2 < |root.slots| && root.slots[0].key <= e.key
      && FindChild(root, e.key) == e.block
      && (e.block != next ==> DeadHit(root, e.key))
  {
    hide InsertRoot, Shape, Inserted, LeftPart, RootPage, CountBefore, FindChild;
    ThreeEntries(d, g);
    var w := Inserted(d.page, 3, e);
    LastEntry(d.page, e);
    FullRoot(d, e, next, g);
    var a, x := Slot(w.slots[0].key, next + 1, 0), Slot(w.slots[2].key, next, 0);
    StalePage(w, a, x);
    StaleHit(RootPage(LeftPart(w, 2), a, x), e);
  }

  lemma {:induction false} ThreeEntries(d: Dir, g: Geometry)
    requires RootShape(d, g) && d.page.n == 3
    ensures d.page.n <= |d.page.slots| && Sorted(Live(d.page)) && |d.page.slots| == g.cap && g.full <= g.cap
    ensures var s := Live(d.page); |s| == 3 && s[0].key < s[2].key && s[2] == d.page.slots[2] && s[0] == d.page.slots[0]
  {
  }

  /** The root's page after its fourth entry. */
  lemma {:induction false} FullRoot(d: Dir, e: Slot, next: nat, g: Geometry)
    requires g.full == 4 && RootShape(d, g) && d.page.flag == 0 && d.page.n == 3
    requires Insertable(d, e, NoBound, g) && CountBefore(Live(d.page), e.key) == 3
    ensures var w := Inserted(d.page, 3, e);
      InsertRoot(d, e, next, g).page == RootPage(LeftPart(w, 2), Slot(LeftPart(w, 2).slots[0].key, next + 1, 0), Slot(w.slots[2].key, next, 0))
  {
    hide Shape, InsertDir, InsertRoot, NewRoot, RootPage, SplitMiddle, Inserted, LeftPart, RightPart, CountBefore, Entries, Fresh;
    FullLeaf(d, e, next, g);
    var r := SplitMiddle(Widened(d, e, []), next);
    MiddleSplit(d, e, next);
    GrownByRoot(d, e, next, g);
    RootPageIs(r.dir, r.up.value, r.next);
  }

  lemma {:induction false} MiddleSplit(d: Dir, e: Slot, next: nat)
    requires d.page.n == 3 < |d.page.slots| && CountBefore(Live(d.page), e.key) == 3
    ensures var w, r := Inserted(d.page, 3, e), SplitMiddle(Widened(d, e, []), next);
      r.dir.page == LeftPart(w, 2) && r.next == next + 1 && r.up.Some? && r.up.value.entry == Slot(w.slots[2].key, next, 0)
  {
    hide Inserted, LeftPart, RightPart, CountBefore;
  }

  lemma {:induction false} GrownByRoot(d: Dir, e: Slot, next: nat, g: Geometry)
    requires Roomy(g) && RootShape(d, g) && d.page.slots[0].key <= e.key && Fresh(Entries(d), e.key)
    requires InsertDir(d, e, next, NoBound, g).up.Some?
    ensures var r := InsertDir(d, e, next, NoBound, g);
      && 1 <= r.dir.page.n <= |r.dir.page.slots| && 2 <= |r.dir.page.slots|
      && InsertRoot(d, e, next, g) == NewRoot(r.dir, r.up.value, r.next)
  {
    hide InsertDir, NewRoot, KidShape, Live;
    InsertSound(d, e, next, NoBound, g);
  }

  lemma {:induction false} RootPageIs(d: Dir, u: Sibling, next: nat)
    requires 1 <= d.page.n <= |d.page.slots| && 2 <= |d.page.slots|
    ensures NewRoot(d, u, next).page == RootPage(d.page, Slot(d.page.slots[0].key, next, 0), u.entry)
  {
    hide Inserted, LeftPart, RightPart, CountBefore;
  }

  lemma {:induction false} FullLeaf(d: Dir, e: Slot, next: nat, g: Geometry)
    requires g.full == 4 && RootShape(d, g) && d.page.flag == 0 && d.page.n == 3
    requires Insertable(d, e, NoBound, g) && CountBefore(Live(d.page), e.key) == 3
    ensures d.page.n < |d.page.slots| == g.cap && InsertDir(d, e, next, NoBound, g) == SplitMiddle(Widened(d, e, []), next)
  {
    hide Inserted, LeftPart, RightPart, CountBefore, Entries, KidShape, Fresh, Under;
  }

  lemma {:induction false} StaleHit(p: Page, e: Slot)
    requires p.n == 2 < |p.slots| && p.slots[2] == e && Live(p)[0].key < Live(p)[1].key < e.key
    ensures p.slots[0].key <= e.key && FindChild(p, e.key) == e.block
    ensures e.block != Live(p)[1].block ==> DeadHit(p, e.key)
  {
    assert p.slots[0] == Live(p)[0] && p.slots[1] == Live(p)[1];
    assert CountBefore(Live(p), e.key) == 2;
  }
}

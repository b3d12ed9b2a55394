/** A table and a B-tree on one of its fields (src/indexing/IndexUpdatePlanner.cpp, src/indexing/BTreeIndex.cpp). */
module TableIndexes {
  import opened Constants
  import opened Rids
  import opened Rows
  import opened Storage
  import opened IndexUpdates
  import BTreePages
  import BTreeDirectory
  import BTreeIndexes

  /** What the planner's calls ask of the tree: keys are ranks. */
  function TreeOp(c: IndexCall): BTreeIndexes.Op {
    match c
    case Enter(v, r) => BTreeIndexes.Put(Rank(v), r)
    case Leave(v, r) => BTreeIndexes.Take(Rank(v), r)
  }

  function TreeOps(calls: seq<IndexCall>): (ops: seq<BTreeIndexes.Op>)
    ensures |ops| == |calls|
  {
    if calls == [] then [] else TreeOps(calls[..|calls| - 1]) + [TreeOp(calls[|calls| - 1])]
  }

  lemma {:induction false} SpecLast(m: multiset<BTreePages.Slot>, ops: seq<BTreeIndexes.Op>, op: BTreeIndexes.Op)
    ensures BTreeIndexes.Spec(m, ops + [op]) == BTreeIndexes.Apply(BTreeIndexes.Spec(m, ops), op)
    decreases ops
  {
    hide BTreeIndexes.Apply;
    var more := ops + [op];
    if ops == [] {
      assert more == [op] && more[1..] == [];
      assert BTreeIndexes.Spec(BTreeIndexes.Apply(m, op), []) == BTreeIndexes.Apply(m, op);
    } else {
      assert more[0] == ops[0] && more[1..] == ops[1..] + [op];
      SpecLast(BTreeIndexes.Apply(m, ops[0]), ops[1..], op);
    }
  }

  predicate OneKind(calls: seq<IndexCall>, key: Constant) {
    forall k :: 0 <= k < |calls| ==> SameKind(calls[k].value, key)
  }

  /** On values of one kind the multiset of ranks counts what the multiset of values counts. */
  lemma {:induction false} SameCount(calls: seq<IndexCall>, key: Constant, rid: Rid)
    requires OneKind(calls, key)
    ensures After(calls)[(key, rid)] == BTreeIndexes.Spec(multiset{}, TreeOps(calls))[BTreeIndexes.RecordOf(Rank(key), rid)]
  {
    hide Rank, BTreeIndexes.Spec;
    if calls == [] {
      assert BTreeIndexes.Spec(multiset{}, []) == multiset{} by {
        NoOps(multiset{});
      }
    } else {
      var n := |calls| - 1;
      SameCount(calls[..n], key, rid);
      SpecLast(multiset{}, TreeOps(calls[..n]), TreeOp(calls[n]));
      RankOrder(calls[n].value, key);
    }
  }

  lemma {:induction false} NoOps(m: multiset<BTreePages.Slot>)
    ensures BTreeIndexes.Spec(m, []) == m
  {
  }

  /** When index and table agree, and the calls made on the index are ready on a new B-tree, then looking a value up
      in that tree, file being its directory file, gives the place of each record in use that has the value, once, and
      no other, unless a dead slot misleads the search. */
  lemma {:induction false} LookupFindsRecords(bs: Blocks, f: string, calls: seq<IndexCall>, u: BTreeIndexes.Setup, file: seq<BTreePages.Page>,
                                              key: Constant)
    returns (rids: seq<Rid>)
    requires Agrees(bs, f, After(calls)) && OneKind(calls, key)
    requires BTreeIndexes.SetupOk(u) && u.min <= Rank(key)
    requires BTreeIndexes.TreeShape(BTreeIndexes.EmptyTree(u), u) && BTreeIndexes.RunReady(BTreeIndexes.EmptyTree(u), u, TreeOps(calls))
    requires var t := BTreeIndexes.Run(BTreeIndexes.EmptyTree(u), u, TreeOps(calls));
      BTreeDirectory.Stored(t.dir, file) && BTreeDirectory.Clean(t.dir, BTreeDirectory.NoBound, u.dirs, Rank(key))
    ensures var t := BTreeIndexes.Run(BTreeIndexes.EmptyTree(u), u, TreeOps(calls));
      forall answer :: BTreeIndexes.Gives(t, file, Rank(key), answer) <==> answer == rids
    ensures forall rid :: multiset(rids)[rid] == if UsedAt(bs, rid) && Val(RowAt(bs, rid), f) == key then 1 else 0
  {
    hide Rank, BTreeIndexes.Spec, BTreeIndexes.TreeShape, BTreeIndexes.RunReady, BTreeIndexes.Run, BTreeIndexes.Gives, After, Val,
      BTreeIndexes.EmptyTree, BTreeDirectory.Stored, BTreeDirectory.Clean, BTreeIndexes.Contents;
    BTreeIndexes.EmptyTreeOk(u);
    rids := BTreeIndexes.RunRefinesMultiset(BTreeIndexes.EmptyTree(u), u, TreeOps(calls), file, Rank(key));
    forall rid ensures multiset(rids)[rid] == if UsedAt(bs, rid) && Val(RowAt(bs, rid), f) == key then 1 else 0 {
      SameCount(calls, key, rid);
    }
  }
}

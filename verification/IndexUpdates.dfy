/** Updates of an indexed table (src/indexing/IndexUpdatePlanner.cpp). An index is known
    by the calls made on it; module TableIndexes has what they do to a B-tree. */
module IndexUpdates {
  import opened Options
  import opened Constants
  import opened Rids
  import opened Rows
  import opened Predicates
  import opened Storage

  /** A call made on an index. */
  datatype IndexCall = Enter(value: Constant, rid: Rid) | Leave(value: Constant, rid: Rid)

  /** What a multiset holds after the calls. */
  ghost function After(calls: seq<IndexCall>): multiset<(Constant, Rid)> {
    if calls == [] then multiset{}
    else
      var was, last := After(calls[..|calls| - 1]), calls[|calls| - 1];
      match last
      case Enter(v, r) => was + multiset{(v, r)}
      case Leave(v, r) => was - multiset{(v, r)}
  }

  /** An index as the calls made on it. */
  class Index {
    var calls: seq<IndexCall>

    constructor ()
      ensures calls == []
    {
      calls := [];
    }

    ghost function Entries(): multiset<(Constant, Rid)>
      reads this
    {
      After(calls)
    }

    method Insert(v: Constant, r: Rid)
      modifies this
      ensures calls == old(calls) + [Enter(v, r)] && Entries() == old(Entries()) + multiset{(v, r)}
    {
      calls := calls + [Enter(v, r)];
    }

    method Remove(v: Constant, r: Rid)
      modifies this
      ensures calls == old(calls) + [Leave(v, r)] && Entries() == old(Entries()) - multiset{(v, r)}
    {
      calls := calls + [Leave(v, r)];
    }
  }

  /** The entry (v, r) is there once when the record at r is in use with value v in field f, else not at all. */
  ghost predicate Agrees(bs: Blocks, f: string, entries: multiset<(Constant, Rid)>) {
    forall v, r :: entries[(v, r)] == if UsedAt(bs, r) && Val(RowAt(bs, r), f) == v then 1 else 0
  }

  type Indexes = map<string, Index>

  predicate Separate(ix: Indexes) {
    forall f, g :: f in ix && g in ix && f != g ==> ix[f] != ix[g]
  }

  ghost predicate AllAgree(bs: Blocks, ix: Indexes)
    reads ix.Values
  {
    forall f :: f in ix ==> ix[f] in ix.Values && Agrees(bs, f, ix[f].Entries())
  }

  // ---------------------------------------------------------------- insert

  /** How often a field is named. */
  function Times(fields: seq<string>, f: string): nat {
    if fields == [] then 0 else Times(fields[..|fields| - 1], f) + if fields[|fields| - 1] == f then 1 else 0
  }

  /** The row after setting the fields in order. */
  function Assign(r: Row, fields: seq<string>, values: seq<Constant>): Row
    requires |fields| <= |values|
  {
    if fields == [] then r
    else
      var n := |fields| - 1;
      Assign(r, fields[..n], values)[fields[n] := values[n]]
  }

  /** After them a field has the value it was last given, or the one it had. */
  lemma {:induction false} AssignIs(r: Row, fields: seq<string>, values: seq<Constant>, f: string)
    requires |fields| <= |values|
    ensures f in Assign(r, fields, values) <==> f in r || f in fields
    ensures f !in fields && f in r ==> Assign(r, fields, values)[f] == r[f]
    ensures forall i :: 0 <= i < |fields| && LastNamed(fields, f, i) ==>
              f in Assign(r, fields, values) && Assign(r, fields, values)[f] == values[i]
  {
    hide LastNamed;
    if fields != [] {
      var n := |fields| - 1;
      AssignIs(r, fields[..n], values, f);
      assert fields == fields[..n] + [fields[n]];
      forall i | 0 <= i < |fields| && LastNamed(fields, f, i) ensures f in Assign(r, fields, values) && Assign(r, fields, values)[f] == values[i] {
        LastBefore(fields, f, i);
      }
    }
  }

  /** The i-th field is the last one of this name. */
  ghost predicate LastNamed(fields: seq<string>, f: string, i: nat)
    requires i < |fields|
  {
    fields[i] == f && forall k :: i < k < |fields| ==> fields[k] != f
  }

  lemma {:induction false} LastBefore(fields: seq<string>, f: string, i: nat)
    requires i < |fields| && LastNamed(fields, f, i)
    ensures var n := |fields| - 1; i <= n && if i == n then fields[n] == f else fields[n] != f && LastNamed(fields[..n], f, i)
  {
  }

  /** The entries the insert makes for field f. */
  function Entered(fields: seq<string>, values: seq<Constant>, f: string, r: Rid): multiset<(Constant, Rid)>
    requires |fields| <= |values|
  {
    if fields == [] then multiset{}
    else
      var n := |fields| - 1;
      Entered(fields[..n], values, f, r) + if fields[n] == f then multiset{(values[n], r)} else multiset{}
  }

  lemma {:induction false} EnteredSize(fields: seq<string>, values: seq<Constant>, f: string, r: Rid)
    requires |fields| <= |values|
    ensures |Entered(fields, values, f, r)| == Times(fields, f)
    ensures forall v, s :: s != r ==> Entered(fields, values, f, r)[(v, s)] == 0
  {
    if fields != [] {
      EnteredSize(fields[..|fields| - 1], values, f, r);
    }
  }

  /** A field named once is entered with the value the row has got. */
  lemma {:induction false} EnteredOnce(row: Row, fields: seq<string>, values: seq<Constant>, f: string, r: Rid)
    requires |fields| <= |values| && Times(fields, f) == 1
    ensures f in Assign(row, fields, values)
    ensures Entered(fields, values, f, r) == multiset{(Assign(row, fields, values)[f], r)}
  {
    var n := |fields| - 1;
    if fields[n] == f {
      EnteredSize(fields[..n], values, f, r);
      assert Entered(fields[..n], values, f, r) == multiset{};
    } else {
      EnteredOnce(row, fields[..n], values, f, r);
    }
  }

  /** With a new record at a place that was free, index and table agree on a field exactly when the insert
      names the field once. */
  lemma {:induction false} InsertAgrees(bs: Blocks, cs: Blocks, r: Rid, row: Row, fields: seq<string>, values: seq<Constant>, f: string, e: multiset<(Constant, Rid)>)
    requires |fields| <= |values| && Agrees(bs, f, e) && !UsedAt(bs, r)
    requires UsedAt(cs, r) && RowAt(cs, r) == Assign(row, fields, values)
    requires forall s :: s != r ==> (UsedAt(cs, s) <==> UsedAt(bs, s))
    requires forall s :: s != r && UsedAt(bs, s) ==> Exists(cs, s) && RowAt(cs, s) == RowAt(bs, s)
    ensures Agrees(cs, f, e + Entered(fields, values, f, r)) <==> Times(fields, f) == 1
  {
    var n := Entered(fields, values, f, r);
    EnteredSize(fields, values, f, r);
    if Times(fields, f) == 1 {
      EnteredOnce(row, fields, values, f, r);
    } else if Agrees(cs, f, e + n) {
      var v := Val(RowAt(cs, r), f);
      OneEntry(bs, cs, r, f, e, n, v);
    }
  }

  lemma {:induction false} OneEntry(bs: Blocks, cs: Blocks, r: Rid, f: string, e: multiset<(Constant, Rid)>, n: multiset<(Constant, Rid)>, v: Constant)
    requires Agrees(bs, f, e) && Agrees(cs, f, e + n) && !UsedAt(bs, r) && UsedAt(cs, r) && v == Val(RowAt(cs, r), f)
    requires forall w, s :: s != r ==> n[(w, s)] == 0
    ensures |n| == 1
  {
    forall p: (Constant, Rid) ensures n[p] == multiset{(v, r)}[p] {
      assert p == (p.0, p.1);
      assert (e + n)[(p.0, p.1)] == e[(p.0, p.1)] + n[(p.0, p.1)];
    }
    assert n == multiset{(v, r)};
  }

  ghost predicate FileOk(file: TableFile)
    reads file
  {
    file.slotsPerBlock > 0 && (file.blocks == [] || Shaped(file.blocks, file.slotsPerBlock))
  }

  /** Nothing but the slot at r differs, as far as used slots go. */
  ghost predicate OnlyAt(bs: Blocks, cs: Blocks, r: Rid) {
    && (forall s :: s != r ==> (UsedAt(cs, s) <==> UsedAt(bs, s)))
    && (forall s :: s != r && UsedAt(bs, s) ==> Exists(cs, s) && RowAt(cs, s) == RowAt(bs, s))
  }

  lemma {:induction false} OnlyAtChanged(bs: Blocks, cs: Blocks, r: Rid, s: Slot)
    requires OnlyAt(bs, cs, r) && Exists(cs, r)
    ensures OnlyAt(bs, Changed(cs, r, s), r)
  {
  }

  lemma {:induction false} ChangedTwice(bs: Blocks, r: Rid, s: Slot, t: Slot)
    requires Exists(bs, r)
    ensures Exists(Changed(bs, r, s), r) && Changed(Changed(bs, r, s), r, t) == Changed(bs, r, t)
    ensures Changed(bs, r, s)[r.block][r.slot] == s
  {
    assert bs[r.block][r.slot := s][r.slot := t] == bs[r.block][r.slot := t];
  }

  /** A free slot is taken; row is what was left in it. */
  method TakeSlot(file: TableFile) returns (scan: TableScan, ghost row: Row)
    requires FileOk(file)
    modifies file
    ensures fresh(scan) && scan.file == file && scan.Valid() && scan.slot >= 0
    ensures !UsedAt(old(file.blocks), scan.Here()) && OnlyAt(old(file.blocks), file.blocks, scan.Here())
    ensures Exists(file.blocks, scan.Here()) && file.blocks[scan.blk][scan.slot] == Slot(true, row)
  {
    ghost var was := file.blocks;
    scan := new TableScan(file);
    assert forall r :: UsedAt(file.blocks, r) <==> UsedAt(was, r);
    scan.Insert();
    row := RowAt(file.blocks, scan.Here());
  }

  /** How many fields get their value before one is not there or is for the other kind. */
  function Settable(row: Row, fields: seq<string>, values: seq<Constant>, i: nat): (n: nat)
    requires i <= |fields| <= |values|
    ensures i <= n <= |fields|
    decreases |fields| - i
  {
    if i < |fields| && FitsField(row, fields[i], values[i]) then Settable(row, fields, values, i + 1) else i
  }

  /** executeInsert. The stale fields of a reused slot that are not named stay. It stops at a field that the record
      does not have or that is for the other kind, with the fields before it set and entered. Index and table agree
      on an indexed field afterwards exactly when the fields set name it once. */
  method ExecuteInsert(file: TableFile, ix: Indexes, fields: seq<string>, values: seq<Constant>)
    returns (count: Option<nat>, ghost r: Rid, ghost row: Row)
    requires FileOk(file) && Separate(ix) && |fields| <= |values|
    modifies file, ix.Values
    ensures FileOk(file) && count == if Settable(row, fields, values, 0) == |fields| then Some(1) else None
    ensures !UsedAt(old(file.blocks), r) && UsedAt(file.blocks, r) && OnlyAt(old(file.blocks), file.blocks, r)
    ensures RowAt(file.blocks, r) == Assign(row, fields[..Settable(row, fields, values, 0)], values)
    ensures forall f :: f in ix ==>
                          && ix[f] in ix.Values
                          && ix[f].Entries() == old(ix[f].Entries()) + Entered(fields[..Settable(row, fields, values, 0)], values, f, r)
    ensures forall f :: f in ix && Agrees(old(file.blocks), f, old(ix[f].Entries())) ==>
                        (Agrees(file.blocks, f, ix[f].Entries()) <==> Times(fields[..Settable(row, fields, values, 0)], f) == 1)
  {
    hide Agrees, Settable;
    ghost var was := file.blocks;
    var scan;
    scan, row := TakeSlot(file);
    r := scan.Here();
    ghost var taken := file.blocks;
    var n := FillSlot(scan, ix, fields, values, row);
    OnlyAtChanged(was, taken, r, Slot(true, Assign(row, fields[..n], values)));
    count := if n == |fields| then Some(1) else None;
    forall f | f in ix && Agrees(was, f, old(ix[f].Entries()))
      ensures Agrees(file.blocks, f, ix[f].Entries()) <==> Times(fields[..n], f) == 1
    {
      InsertAgrees(was, file.blocks, r, row, fields[..n], values, f, old(ix[f].Entries()));
    }
  }

  /** Setting fields that fit leaves the others as fit as they were. */
  lemma {:induction false} AssignFits(row: Row, fields: seq<string>, values: seq<Constant>, i: nat, f: string, v: Constant)
    requires i <= |fields| <= |values|
    requires forall k :: 0 <= k < i ==> FitsField(row, fields[k], values[k])
    ensures FitsField(Assign(row, fields[..i], values), f, v) <==> FitsField(row, f, v)
  {
    hide Assign, Entered;
    if i == 0 {
      assert fields[..0] == [];
      NoFields(row, values, Rid(0, 0));
    } else {
      FieldStep(row, fields, values, i - 1, Rid(0, 0));
      AssignFits(row, fields, values, i - 1, f, v);
    }
  }

  lemma {:induction false} SettableStep(row: Row, fields: seq<string>, values: seq<Constant>, i: nat)
    requires i <= |fields| <= |values|
    ensures Settable(row, fields, values, i) == if i < |fields| && FitsField(row, fields[i], values[i]) then Settable(row, fields, values, i + 1) else i
  {
  }

  lemma {:induction false} FieldStep(row: Row, fields: seq<string>, values: seq<Constant>, i: nat, r: Rid)
    requires i < |fields| <= |values|
    ensures Assign(row, fields[..i + 1], values) == Assign(row, fields[..i], values)[fields[i] := values[i]]
    ensures forall f :: Entered(fields[..i + 1], values, f, r) ==
                        Entered(fields[..i], values, f, r) + if f == fields[i] then multiset{(values[i], r)} else multiset{}
  {
    assert fields[..i + 1][..i] == fields[..i];
  }

  lemma {:induction false} NoFields(row: Row, values: seq<Constant>, r: Rid)
    ensures Assign(row, [], values) == row && forall f :: Entered([], values, f, r) == multiset{}
  {
  }

  type Holdings = map<string, multiset<(Constant, Rid)>>

  /** What the indexes hold. */
  ghost function HeldIn(ix: Indexes): Holdings
    reads ix.Values
  {
    assert forall f :: f in ix ==> ix[f] in ix.Values;
    map f | f in ix :: ix[f].Entries()
  }

  function WithEntry(held: Holdings, f: string, v: Constant, r: Rid): Holdings {
    if f in held then held[f := held[f] + multiset{(v, r)}] else held
  }

  /** The first n fields are set and entered, and the next one has turned out not to fit unless ok. */
  ghost predicate Filling(start: Holdings, now: Holdings, was: Blocks, bs: Blocks, r: Rid, row: Row, fields: seq<string>,
                          values: seq<Constant>, n: nat, ok: bool)
    requires n <= |fields| <= |values|
  {
    && Settable(row, fields, values, 0) == (if ok then Settable(row, fields, values, n) else n)
    && (forall k :: 0 <= k < n ==> FitsField(row, fields[k], values[k]))
    && Exists(was, r) && bs == Changed(was, r, Slot(true, Assign(row, fields[..n], values)))
    && now.Keys == start.Keys && forall f :: f in start ==> now[f] == start[f] + Entered(fields[..n], values, f, r)
  }

  lemma {:induction false} FillStart(held: Holdings, bs: Blocks, r: Rid, row: Row, fields: seq<string>, values: seq<Constant>)
    requires |fields| <= |values| && Exists(bs, r) && bs[r.block][r.slot] == Slot(true, row)
    ensures Filling(held, held, bs, bs, r, row, fields, values, 0, true)
  {
    hide Changed, Assign, Entered;
    assert fields[..0] == [];
    SameSlot(bs, r, Slot(true, row));
    NoFields(row, values, r);
  }

  lemma {:induction false} FillStep(start: Holdings, now: Holdings, was: Blocks, bs: Blocks, r: Rid, row: Row, fields: seq<string>,
                                    values: seq<Constant>, n: nat)
    requires n < |fields| <= |values| && Filling(start, now, was, bs, r, row, fields, values, n, true)
    ensures Exists(bs, r)
    ensures var s := bs[r.block][r.slot];
      if FitsField(s.row, fields[n], values[n]) then
        Filling(start, WithEntry(now, fields[n], values[n], r), was, Changed(bs, r, s.(row := s.row[fields[n] := values[n]])), r, row, fields,
                values, n + 1, true)
      else Filling(start, now, was, bs, r, row, fields, values, n, false)
  {
    hide Changed, Assign, Entered, FitsField, Settable;
    FieldStep(row, fields, values, n, r);
    SettableStep(row, fields, values, n);
    AssignFits(row, fields, values, n, fields[n], values[n]);
    ChangedTwice(was, r, Slot(true, Assign(row, fields[..n], values)), Slot(true, Assign(row, fields[..n + 1], values)));
  }

  lemma {:induction false} FillEnd(start: Holdings, now: Holdings, was: Blocks, bs: Blocks, r: Rid, row: Row, fields: seq<string>,
                                   values: seq<Constant>, n: nat, ok: bool)
    requires n <= |fields| <= |values| && Filling(start, now, was, bs, r, row, fields, values, n, ok) && (ok ==> n == |fields|)
    ensures n == Settable(row, fields, values, 0)
    ensures Exists(was, r) && bs == Changed(was, r, Slot(true, Assign(row, fields[..n], values)))
    ensures now.Keys == start.Keys && forall f :: f in start ==> now[f] == start[f] + Entered(fields[..n], values, f, r)
  {
    hide Changed, Assign, Entered, FitsField;
  }

  /** The fields are set and entered in the indexes, one after the other, as far as they fit. */
  method FillSlot(scan: TableScan, ix: Indexes, fields: seq<string>, values: seq<Constant>, ghost row: Row) returns (n: nat)
    requires scan.Valid() && scan.slot >= 0 && Separate(ix) && |fields| <= |values|
    requires scan.file.blocks[scan.blk][scan.slot] == Slot(true, row)
    modifies scan.file, ix.Values
    ensures scan.Valid() && n == Settable(row, fields, values, 0)
    ensures scan.file.blocks == Changed(old(scan.file.blocks), scan.Here(), Slot(true, Assign(row, fields[..n], values)))
    ensures forall f :: f in ix ==> ix[f] in ix.Values && ix[f].Entries() == old(ix[f].Entries()) + Entered(fields[..n], values, f, scan.Here())
  {
    hide Changed, Assign, Entered, FitsField, Settable, Filling, WithEntry;
    ghost var was, r, start := scan.file.blocks, scan.Here(), HeldIn(ix);
    FillStart(start, was, r, row, fields, values);
    n := 0;
    var ok := true;
    while ok && n < |fields|
      invariant 0 <= n <= |fields| && scan.Valid()
      invariant Filling(start, HeldIn(ix), was, scan.file.blocks, r, row, fields, values, n, ok)
      decreases |fields| - n, ok
    {
      FillStep(start, HeldIn(ix), was, scan.file.blocks, r, row, fields, values, n);
      ok := FillField(scan, ix, fields[n], values[n]);
      if ok {
        n := n + 1;
      }
    }
    FillEnd(start, HeldIn(ix), was, scan.file.blocks, r, row, fields, values, n, ok);
    assert forall f :: f in ix ==> ix[f] in ix.Values && HeldIn(ix)[f] == ix[f].Entries() && start[f] == old(ix[f].Entries());
  }

  lemma {:induction false} SameSlot(bs: Blocks, r: Rid, s: Slot)
    requires Exists(bs, r) && bs[r.block][r.slot] == s
    ensures Changed(bs, r, s) == bs
  {
    assert bs[r.block][r.slot := s] == bs[r.block];
  }

  method FillField(scan: TableScan, ix: Indexes, f: string, v: Constant) returns (ok: bool)
    requires scan.Valid() && scan.slot >= 0 && Separate(ix)
    modifies scan.file, ix.Values
    ensures scan.Valid()
    ensures var s := old(scan.file.blocks)[scan.blk][scan.slot];
      && ok == FitsField(s.row, f, v)
      && scan.file.blocks == if ok then Changed(old(scan.file.blocks), scan.Here(), s.(row := s.row[f := v])) else old(scan.file.blocks)
    ensures HeldIn(ix) == if ok then WithEntry(old(HeldIn(ix)), f, v, scan.Here()) else old(HeldIn(ix))
  {
    hide HeldIn, WithEntry, Changed, FitsField;
    var rid := scan.Here();
    ok := scan.SetValue(f, v);
    if ok {
      EnterValue(ix, f, v, rid);
    }
  }

  /** The index on the field, if there is one, gets the entry. */
  method EnterValue(ix: Indexes, f: string, v: Constant, r: Rid)
    requires Separate(ix)
    modifies ix.Values
    ensures HeldIn(ix) == WithEntry(old(HeldIn(ix)), f, v, r)
  {
    hide HeldIn, WithEntry, Index.Entries;
    ghost var was := HeldIn(ix);
    HoldingsAre(ix);
    if f in ix {
      EnterHere(ix, f, v, r);
      HoldingsAre(ix);
      assert forall g :: g in ix && g != f ==> HeldIn(ix)[g] == was[g];
    }
    OneMoreEntry(was, HeldIn(ix), f, v, r);
  }

  lemma {:induction false} OneMoreEntry(was: Holdings, now: Holdings, f: string, v: Constant, r: Rid)
    requires now.Keys == was.Keys && forall g :: g in was && g != f ==> now[g] == was[g]
    requires f in was ==> now[f] == was[f] + multiset{(v, r)}
    ensures now == WithEntry(was, f, v, r)
  {
  }

  method EnterHere(ix: Indexes, f: string, v: Constant, r: Rid)
    requires Separate(ix) && f in ix
    modifies ix.Values
    ensures forall g :: g in ix ==> ix[g] in ix.Values
    ensures ix[f].Entries() == old(ix[f].Entries()) + multiset{(v, r)}
    ensures forall g :: g in ix && g != f ==> ix[g].Entries() == old(ix[g].Entries())
  {
    hide After;
    assert ix[f] in ix.Values;
    ix[f].Insert(v, r);
  }

  lemma {:induction false} HoldingsAre(ix: Indexes)
    ensures HeldIn(ix).Keys == ix.Keys
    ensures forall g :: g in ix ==> ix[g] in ix.Values && HeldIn(ix)[g] == ix[g].Entries()
  {
  }

  // ---------------------------------------------------------------- delete

  /** What is left of an index on f when the entry of the record is gone. */
  ghost function Lost(m: multiset<(Constant, Rid)>, row: Row, f: string, r: Rid): multiset<(Constant, Rid)> {
    m - multiset{(Val(row, f), r)}
  }

  /** The loop over the indexes; left are the fields still to be treated. */
  method RemoveRest(ix: Indexes, left: set<string>, row: Row, r: Rid)
    requires Separate(ix) && left <= ix.Keys
    modifies set f | f in left :: ix[f]
    ensures forall f :: f in left ==> ix[f].Entries() == Lost(old(ix[f].Entries()), row, f, r)
    decreases |left|
  {
    hide After, Lost;
    if left != {} {
      var f :| f in left;
      LostIs(ix[f].Entries(), row, f, r);
      ix[f].Remove(Val(row, f), r);
      RemoveRest(ix, left - {f}, row, r);
    }
  }

  lemma {:induction false} LostIs(m: multiset<(Constant, Rid)>, row: Row, f: string, r: Rid)
    ensures Lost(m, row, f, r) == m - multiset{(Val(row, f), r)}
  {
  }

  /** Each index loses the entry of the record. */
  method RemoveEntries(ix: Indexes, row: Row, r: Rid)
    requires Separate(ix)
    modifies ix.Values
    ensures forall f :: f in ix ==> ix[f] in ix.Values && ix[f].Entries() == old(ix[f].Entries()) - multiset{(Val(row, f), r)}
  {
    hide After, Val;
    RemoveRest(ix, ix.Keys, row, r);
  }

  lemma {:induction false} DeleteAgrees(bs: Blocks, r: Rid, f: string, e: multiset<(Constant, Rid)>)
    requires Agrees(bs, f, e) && UsedAt(bs, r)
    ensures Agrees(Changed(bs, r, Slot(false, RowAt(bs, r))), f, e - multiset{(Val(RowAt(bs, r), f), r)})
  {
    var cs := Changed(bs, r, Slot(false, RowAt(bs, r)));
    var v := Val(RowAt(bs, r), f);
    forall w, s ensures (e - multiset{(v, r)})[(w, s)] == if UsedAt(cs, s) && Val(RowAt(cs, s), f) == w then 1 else 0 {
      assert e[(w, s)] == if UsedAt(bs, s) && Val(RowAt(bs, s), f) == w then 1 else 0;
    }
  }

  /** The current record goes. */
  method DeleteHere(scan: TableScan, ix: Indexes)
    requires scan.Valid() && scan.slot >= 0 && UsedAt(scan.file.blocks, scan.Here()) && Separate(ix) && AllAgree(scan.file.blocks, ix)
    modifies scan.file, ix.Values
    ensures scan.Valid() && AllAgree(scan.file.blocks, ix)
    ensures scan.file.blocks == Changed(old(scan.file.blocks), scan.Here(), Slot(false, RowAt(old(scan.file.blocks), scan.Here())))
  {
    hide Agrees;
    var rid := scan.Here();
    var row := RowAt(scan.file.blocks, rid);
    forall f | f in ix ensures Agrees(Changed(scan.file.blocks, rid, Slot(false, row)), f, ix[f].Entries() - multiset{(Val(row, f), rid)}) {
      DeleteAgrees(scan.file.blocks, rid, f, ix[f].Entries());
    }
    RemoveEntries(ix, row, rid);
    scan.Remove();
  }

  /** The slots up to r have been treated: those of gone are free, nothing else has changed. */
  ghost predicate Deleted(bs: Blocks, cs: Blocks, gone: set<Rid>) {
    && (forall s :: Exists(cs, s) <==> Exists(bs, s))
    && (forall s :: UsedAt(cs, s) <==> UsedAt(bs, s) && s !in gone)
    && (forall s :: Exists(bs, s) && Exists(cs, s) ==> RowAt(cs, s) == RowAt(bs, s))
  }

  lemma {:induction false} DeletedMore(bs: Blocks, cs: Blocks, gone: set<Rid>, r: Rid)
    requires Deleted(bs, cs, gone) && UsedAt(cs, r)
    ensures Deleted(bs, Changed(cs, r, Slot(false, RowAt(cs, r))), gone + {r})
  {
  }

  /** A delete that has come to the used slot here, or to the end. */
  ghost predicate Swept(bs: Blocks, cs: Blocks, gone: set<Rid>, pred: Predicate, here: Rid, more: bool) {
    && Deleted(bs, cs, gone)
    && (forall r :: r in gone ==> UsedAt(bs, r) && Holds(pred, RowAt(bs, r)))
    && (more ==> UsedAt(cs, here) && here !in gone)
    && (forall r :: UsedAt(bs, r) && (more ==> Precedes(r, here)) && Holds(pred, RowAt(bs, r)) ==> r in gone)
  }

  lemma {:induction false} SweepSkip(bs: Blocks, cs: Blocks, gone: set<Rid>, pred: Predicate, here: Rid, to: Rid, more: bool)
    requires Swept(bs, cs, gone, pred, here, true) && NextFrom(cs, here, to, more) && !Holds(pred, RowAt(cs, here))
    ensures Swept(bs, cs, gone, pred, to, more)
  {
    hide Holds;
  }

  lemma {:induction false} SweepTake(bs: Blocks, cs: Blocks, gone: set<Rid>, pred: Predicate, here: Rid, to: Rid, more: bool)
    requires Swept(bs, cs, gone, pred, here, true) && Holds(pred, RowAt(cs, here))
    requires NextFrom(Changed(cs, here, Slot(false, RowAt(cs, here))), here, to, more)
    ensures here !in gone && Swept(bs, Changed(cs, here, Slot(false, RowAt(cs, here))), gone + {here}, pred, to, more)
  {
    hide Holds;
    DeletedMore(bs, cs, gone, here);
  }

  /** A modification's field and new value. */
  datatype Change = Change(field: string, e: Expression)

  /** The loop gets past the row: the predicate can be evaluated and, where it holds, the new value too, and the record
      has the field it is for. */
  predicate Treatable(pred: Predicate, e: Option<Change>, row: Row) {
    Evaluable(pred, row) && (e.Some? && Holds(pred, row) ==> Changeable(row, e.value))
  }

  predicate Changeable(row: Row, c: Change) {
    Reads(c.e, row) && FitsField(row, c.field, Evaluate(c.e, row))
  }

  lemma {:induction false} NotTreatable(pred: Predicate, e: Option<Change>, row: Row)
    ensures Treatable(pred, e, row) <==> Evaluable(pred, row) && (e.Some? && Holds(pred, row) ==> Changeable(row, e.value))
  {
  }

  ghost predicate AllTreatable(bs: Blocks, pred: Predicate, e: Option<Change>) {
    forall r :: UsedAt(bs, r) ==> Treatable(pred, e, RowAt(bs, r))
  }

  /** The loop got past the records before here and past those of gone. */
  ghost predicate Treated(bs: Blocks, gone: set<Rid>, pred: Predicate, e: Option<Change>, here: Rid, more: bool) {
    forall r :: UsedAt(bs, r) && (r in gone || !more || Precedes(r, here)) ==> Treatable(pred, e, RowAt(bs, r))
  }

  lemma {:induction false} TreatedMore(bs: Blocks, ds: Blocks, gone: set<Rid>, now: set<Rid>, pred: Predicate, e: Option<Change>,
                                       here: Rid, to: Rid, more: bool)
    requires Treated(bs, gone, pred, e, here, true) && UsedAt(bs, here) && Treatable(pred, e, RowAt(bs, here))
    requires now <= gone + {here} && NextFrom(ds, here, to, more)
    requires forall r :: UsedAt(bs, r) && r !in now ==> UsedAt(ds, r)
    ensures Treated(bs, now, pred, e, to, more)
  {
    hide Treatable;
    forall r | UsedAt(bs, r) && (r in now || !more || Precedes(r, to)) ensures Treatable(pred, e, RowAt(bs, r)) {
      assert r == here || Precedes(r, here) || Precedes(here, r);
    }
  }

  /** A delete that has come to here, with the records of gone deleted. */
  ghost predicate Sweeping(bs: Blocks, cs: Blocks, gone: set<Rid>, pred: Predicate, here: Rid, more: bool) {
    Swept(bs, cs, gone, pred, here, more) && Treated(bs, gone, pred, None, here, more) && |cs| == |bs|
  }

  lemma {:induction false} SweepStep(bs: Blocks, cs: Blocks, ds: Blocks, gone: set<Rid>, pred: Predicate, here: Rid, to: Rid, more: bool)
    returns (now: set<Rid>)
    requires Sweeping(bs, cs, gone, pred, here, true) && UsedAt(cs, here) && NextFrom(ds, here, to, more)
    requires Treatable(pred, None, RowAt(cs, here))
    requires ds == if Holds(pred, RowAt(cs, here)) then Changed(cs, here, Slot(false, RowAt(cs, here))) else cs
    ensures Sweeping(bs, ds, now, pred, to, more)
    ensures here !in gone && now == if Holds(pred, RowAt(cs, here)) then gone + {here} else gone
  {
    hide Holds, Treatable, Treated;
    now := if Holds(pred, RowAt(cs, here)) then gone + {here} else gone;
    if Holds(pred, RowAt(cs, here)) {
      SweepTake(bs, cs, gone, pred, here, to, more);
    } else {
      SweepSkip(bs, cs, gone, pred, here, to, more);
    }
    TreatedMore(bs, ds, gone, now, pred, None, here, to, more);
  }

  lemma {:induction false} SweepStart(bs: Blocks, pred: Predicate, to: Rid, more: bool)
    requires NextFrom(bs, Rid(0, -1), to, more)
    ensures Sweeping(bs, bs, {}, pred, to, more)
  {
    hide Holds, Treatable;
    forall s | UsedAt(bs, s) ensures Precedes(Rid(0, -1), s) {
    }
  }

  lemma {:induction false} SweepReached(bs: Blocks, cs: Blocks, gone: set<Rid>, pred: Predicate, here: Rid)
    requires Sweeping(bs, cs, gone, pred, here, true)
    ensures UsedAt(cs, here) && UsedAt(bs, here) && RowAt(cs, here) == RowAt(bs, here)
    ensures |cs| == |bs| && here.slot >= 0
    ensures forall r :: UsedAt(cs, r) <==> UsedAt(bs, r) && r !in gone
    ensures forall r :: UsedAt(cs, r) ==> RowAt(cs, r) == RowAt(bs, r)
  {
  }

  lemma {:induction false} SweepEnd(bs: Blocks, cs: Blocks, gone: set<Rid>, pred: Predicate, here: Rid)
    requires Sweeping(bs, cs, gone, pred, here, false)
    ensures AllTreatable(bs, pred, None)
    ensures forall r :: UsedAt(cs, r) <==> UsedAt(bs, r) && r !in gone
    ensures forall r :: UsedAt(cs, r) ==> RowAt(cs, r) == RowAt(bs, r)
    ensures forall r :: r in gone <==> UsedAt(bs, r) && Holds(pred, RowAt(bs, r))
  {
    hide Holds, Treatable;
  }

  /** One record: deleted when the predicate holds; no answer when it cannot be evaluated. */
  method SweepHere(scan: TableScan, ix: Indexes, pred: Predicate) returns (sat: Option<bool>)
    requires scan.Valid() && scan.slot >= 0 && UsedAt(scan.file.blocks, scan.Here()) && Separate(ix) && AllAgree(scan.file.blocks, ix)
    modifies scan.file, ix.Values
    ensures scan.Valid() && AllAgree(scan.file.blocks, ix)
    ensures var row := RowAt(old(scan.file.blocks), scan.Here());
      && (sat.Some? <==> Treatable(pred, None, row)) && (sat.Some? ==> sat.value == Holds(pred, row))
      && scan.file.blocks == if sat == Some(true) then Changed(old(scan.file.blocks), scan.Here(), Slot(false, row)) else old(scan.file.blocks)
  {
    hide Agrees, Holds, Evaluable, Treatable;
    var row := RowAt(scan.file.blocks, scan.Here());
    NotTreatable(pred, None, row);
    sat := IsSatisfied(pred, row);
    if sat == Some(true) {
      DeleteHere(scan, ix);
    }
  }

  /** executeDelete: exactly the records that satisfy the predicate go. The indexes stay in step, also when a
      record stops the loop because the predicate cannot be evaluated on it. */
  method ExecuteDelete(file: TableFile, ix: Indexes, pred: Predicate) returns (count: Option<nat>, ghost gone: set<Rid>)
    requires FileOk(file) && Separate(ix) && AllAgree(file.blocks, ix)
    modifies file, ix.Values
    ensures FileOk(file) && AllAgree(file.blocks, ix)
    ensures count.Some? <==> AllTreatable(old(file.blocks), pred, None)
    ensures count.Some? ==> count.value == |gone|
    ensures count.Some? ==> forall r :: r in gone <==> UsedAt(old(file.blocks), r) && Holds(pred, RowAt(old(file.blocks), r))
    ensures forall r :: UsedAt(file.blocks, r) <==> UsedAt(old(file.blocks), r) && r !in gone
    ensures forall r :: UsedAt(file.blocks, r) ==> UsedAt(old(file.blocks), r) && RowAt(file.blocks, r) == RowAt(old(file.blocks), r)
  {
    hide Agrees, AllAgree, Changed, Formatted, Holds, RowAt, Separate, Shaped, Sweeping, Treatable, Treated, UsedAt;
    ghost var was := file.blocks;
    var scan := new TableScan(file);
    SameUsed(was, file.blocks, file.slotsPerBlock, file.defaultRow, ix);
    ghost var start := file.blocks;
    var n := 0;
    gone := {};
    var more := scan.Next();
    SweepStart(start, pred, scan.Here(), more);
    while more
      invariant scan.Valid() && scan.file == file && fresh(scan) && AllAgree(file.blocks, ix)
      invariant Sweeping(start, file.blocks, gone, pred, scan.Here(), more) && n == |gone|
      decreases if more then 1 else 0, |start| - scan.blk, file.slotsPerBlock - scan.slot
    {
      ghost var here, now := scan.Here(), file.blocks;
      SweepReached(start, now, gone, pred, here);
      var sat := SweepHere(scan, ix, pred);
      if sat.None? {
        return None, gone;
      }
      more := scan.Next();
      gone := SweepStep(start, now, file.blocks, gone, pred, here, scan.Here(), more);
      n := if sat.value then n + 1 else n;
    }
    SweepEnd(start, file.blocks, gone, pred, scan.Here());
    count := Some(n);
  }

  /** Opening an empty file changes no record. */
  lemma {:induction false} SameUsed(bs: Blocks, cs: Blocks, n: nat, row: Row, ix: Indexes)
    requires cs == if bs == [] then [Formatted(n, row)] else bs
    ensures forall r :: UsedAt(cs, r) <==> UsedAt(bs, r)
    ensures forall r :: UsedAt(cs, r) ==> RowAt(cs, r) == RowAt(bs, r)
    ensures AllAgree(bs, ix) ==> AllAgree(cs, ix)
  {
    if AllAgree(bs, ix) {
      forall f | f in ix ensures ix[f] in ix.Values && Agrees(cs, f, ix[f].Entries()) {
        assert Agrees(bs, f, ix[f].Entries());
      }
    }
  }

  // ---------------------------------------------------------------- modify

  /** A row after the modification. */
  function NewRow(r: Row, f: string, e: Expression, pred: Predicate): Row {
    if Holds(pred, r) then r[f := Evaluate(e, r)] else r
  }

  lemma {:induction false} ModifyAgrees(bs: Blocks, r: Rid, f: string, v: Constant, g: string, e: multiset<(Constant, Rid)>)
    requires Agrees(bs, g, e) && UsedAt(bs, r)
    ensures var row := RowAt(bs, r);
      Agrees(Changed(bs, r, Slot(true, row[f := v])), g, if g == f then e - multiset{(Val(row, f), r)} + multiset{(v, r)} else e)
  {
    var row := RowAt(bs, r);
    var cs := Changed(bs, r, Slot(true, row[f := v]));
    var e2 := if g == f then e - multiset{(Val(row, f), r)} + multiset{(v, r)} else e;
    forall w, s ensures e2[(w, s)] == if UsedAt(cs, s) && Val(RowAt(cs, s), g) == w then 1 else 0 {
      assert e[(w, s)] == if UsedAt(bs, s) && Val(RowAt(bs, s), g) == w then 1 else 0;
    }
  }

  /** The current record gets the value, and its index, if there is one, a new entry for the old. */
  method ModifyHere(scan: TableScan, ix: Indexes, f: string, v: Constant) returns (ok: bool)
    requires scan.Valid() && scan.slot >= 0 && UsedAt(scan.file.blocks, scan.Here()) && Separate(ix) && AllAgree(scan.file.blocks, ix)
    modifies scan.file, ix.Values
    ensures scan.Valid() && AllAgree(scan.file.blocks, ix)
    ensures ok == FitsField(RowAt(old(scan.file.blocks), scan.Here()), f, v)
    ensures scan.file.blocks ==
            if ok then Changed(old(scan.file.blocks), scan.Here(), Slot(true, RowAt(old(scan.file.blocks), scan.Here())[f := v]))
            else old(scan.file.blocks)
  {
    hide Agrees, Changed;
    ghost var was := scan.file.blocks;
    var rid := scan.Here();
    var oldValue := Val(RowAt(scan.file.blocks, rid), f);
    forall g | g in ix
      ensures ix[g] in ix.Values
      ensures Agrees(Changed(was, rid, Slot(true, RowAt(was, rid)[f := v])), g,
                     if g == f then ix[g].Entries() - multiset{(oldValue, rid)} + multiset{(v, rid)} else ix[g].Entries())
    {
      ModifyAgrees(was, rid, f, v, g, ix[g].Entries());
    }
    ok := scan.SetValue(f, v);
    if ok && f in ix {
      ix[f].Remove(oldValue, rid);
      ix[f].Insert(v, rid);
    }
  }

  /** A modification that has come to the used slot here, or to the end. */
  ghost predicate Rewritten(bs: Blocks, cs: Blocks, f: string, e: Expression, pred: Predicate, here: Rid, more: bool) {
    && (forall s :: UsedAt(cs, s) <==> UsedAt(bs, s))
    && (more ==> UsedAt(cs, here))
    && forall s :: UsedAt(bs, s) ==>
         Exists(cs, s) && RowAt(cs, s) == if more && !Precedes(s, here) then RowAt(bs, s) else NewRow(RowAt(bs, s), f, e, pred)
  }

  lemma {:induction false} RewriteStep(bs: Blocks, cs: Blocks, ds: Blocks, f: string, e: Expression, pred: Predicate, here: Rid, to: Rid, more: bool)
    requires Rewritten(bs, cs, f, e, pred, here, true) && NextFrom(ds, here, to, more)
    requires (ds == cs && NewRow(RowAt(cs, here), f, e, pred) == RowAt(cs, here))
             || ds == Changed(cs, here, Slot(true, NewRow(RowAt(cs, here), f, e, pred)))
    ensures Rewritten(bs, ds, f, e, pred, to, more)
  {
    hide NewRow;
    assert RowAt(cs, here) == RowAt(bs, here);
    forall s | UsedAt(bs, s)
      ensures Exists(ds, s) && RowAt(ds, s) == if more && !Precedes(s, to) then RowAt(bs, s) else NewRow(RowAt(bs, s), f, e, pred)
    {
      assert UsedAt(ds, s);
      assert s == here || Precedes(s, here) || Precedes(here, s);
    }
  }

  /** The records changed before here. */
  ghost predicate Hits(bs: Blocks, hit: set<Rid>, pred: Predicate, here: Rid, more: bool) {
    forall r :: r in hit <==> UsedAt(bs, r) && (more ==> Precedes(r, here)) && Holds(pred, RowAt(bs, r))
  }

  lemma {:induction false} HitStep(bs: Blocks, ds: Blocks, hit: set<Rid>, pred: Predicate, here: Rid, to: Rid, more: bool)
    requires Hits(bs, hit, pred, here, true) && UsedAt(bs, here)
    requires (forall s :: UsedAt(ds, s) <==> UsedAt(bs, s)) && NextFrom(ds, here, to, more)
    ensures here !in hit && Hits(bs, if Holds(pred, RowAt(bs, here)) then hit + {here} else hit, pred, to, more)
  {
    hide Holds;
    var now := if Holds(pred, RowAt(bs, here)) then hit + {here} else hit;
    forall r ensures r in now <==> UsedAt(bs, r) && (more ==> Precedes(r, to)) && Holds(pred, RowAt(bs, r)) {
      assert UsedAt(ds, r) <==> UsedAt(bs, r);
      assert r == here || Precedes(r, here) || Precedes(here, r);
    }
  }

  lemma {:induction false} ModifyStart(bs: Blocks, f: string, e: Expression, pred: Predicate, to: Rid, more: bool)
    requires NextFrom(bs, Rid(0, -1), to, more)
    ensures Modifying(bs, bs, {}, f, e, pred, to, more)
  {
    hide NewRow, Holds, Treatable;
    forall s | UsedAt(bs, s) ensures Precedes(Rid(0, -1), s) {
    }
  }

  lemma {:induction false} ModifyHas(bs: Blocks, cs: Blocks, f: string, e: Expression, pred: Predicate, here: Rid)
    requires Rewritten(bs, cs, f, e, pred, here, true)
    ensures UsedAt(cs, here) && UsedAt(bs, here) && RowAt(cs, here) == RowAt(bs, here)
    ensures forall s :: UsedAt(cs, s) <==> UsedAt(bs, s)
  {
  }

  lemma {:induction false} ModifyReached(bs: Blocks, cs: Blocks, hit: set<Rid>, f: string, e: Expression, pred: Predicate, here: Rid)
    requires Modifying(bs, cs, hit, f, e, pred, here, true)
    ensures UsedAt(cs, here) && UsedAt(bs, here) && RowAt(cs, here) == RowAt(bs, here) && |cs| == |bs| && here.slot >= 0
    ensures forall s :: UsedAt(cs, s) <==> UsedAt(bs, s)
  {
    ModifyHas(bs, cs, f, e, pred, here);
  }

  lemma {:induction false} RewriteUsed(bs: Blocks, cs: Blocks, f: string, e: Expression, pred: Predicate, here: Rid, more: bool)
    requires Rewritten(bs, cs, f, e, pred, here, more)
    ensures forall s :: UsedAt(cs, s) <==> UsedAt(bs, s)
  {
  }

  lemma {:induction false} ModifyEnd(bs: Blocks, cs: Blocks, f: string, e: Expression, pred: Predicate, hit: set<Rid>, here: Rid)
    requires Modifying(bs, cs, hit, f, e, pred, here, false)
    ensures forall r :: r in hit <==> UsedAt(bs, r) && Holds(pred, RowAt(bs, r))
    ensures forall r :: UsedAt(cs, r) <==> UsedAt(bs, r)
    ensures forall r :: UsedAt(cs, r) ==>
              UsedAt(bs, r) && var row := RowAt(bs, r); RowAt(cs, r) == if r in hit then row[f := Evaluate(e, row)] else row
    ensures AllTreatable(bs, pred, Some(Change(f, e)))
  {
    hide Holds, Treatable, Evaluate;
  }

  /** A modification that has come to here, with the records of hit changed. */
  ghost predicate Modifying(bs: Blocks, cs: Blocks, hit: set<Rid>, f: string, e: Expression, pred: Predicate, here: Rid, more: bool) {
    && Rewritten(bs, cs, f, e, pred, here, more) && Hits(bs, hit, pred, here, more)
    && Treated(bs, {}, pred, Some(Change(f, e)), here, more) && |cs| == |bs|
  }

  lemma {:induction false} ModifyStep(bs: Blocks, cs: Blocks, ds: Blocks, hit: set<Rid>, f: string, e: Expression, pred: Predicate,
                                      here: Rid, to: Rid, more: bool)
    returns (now: set<Rid>)
    requires Modifying(bs, cs, hit, f, e, pred, here, true) && NextFrom(ds, here, to, more) && UsedAt(cs, here)
    requires Treatable(pred, Some(Change(f, e)), RowAt(cs, here))
    requires (ds == cs && NewRow(RowAt(cs, here), f, e, pred) == RowAt(cs, here))
             || ds == Changed(cs, here, Slot(true, NewRow(RowAt(cs, here), f, e, pred)))
    ensures Modifying(bs, ds, now, f, e, pred, to, more)
    ensures here !in hit && now == if Holds(pred, RowAt(cs, here)) then hit + {here} else hit
  {
    hide NewRow, Holds, Rewritten, Hits, Treated, Treatable, NextFrom;
    ModifyHas(bs, cs, f, e, pred, here);
    RewriteStep(bs, cs, ds, f, e, pred, here, to, more);
    RewriteUsed(bs, ds, f, e, pred, to, more);
    HitStep(bs, ds, hit, pred, here, to, more);
    TreatedMore(bs, ds, {}, {}, pred, Some(Change(f, e)), here, to, more);
    now := if Holds(pred, RowAt(bs, here)) then hit + {here} else hit;
  }

  /** One record: changed when the predicate holds; no answer when something cannot be evaluated. */
  method TreatHere(scan: TableScan, ix: Indexes, f: string, e: Expression, pred: Predicate) returns (sat: Option<bool>)
    requires scan.Valid() && scan.slot >= 0 && UsedAt(scan.file.blocks, scan.Here()) && Separate(ix) && AllAgree(scan.file.blocks, ix)
    modifies scan.file, ix.Values
    ensures scan.Valid() && AllAgree(scan.file.blocks, ix)
    ensures var row := RowAt(old(scan.file.blocks), scan.Here());
      && (sat.Some? <==> Treatable(pred, Some(Change(f, e)), row)) && (sat.Some? ==> sat.value == Holds(pred, row))
      && scan.file.blocks == (if sat == Some(true) then Changed(old(scan.file.blocks), scan.Here(), Slot(true, NewRow(row, f, e, pred)))
                              else old(scan.file.blocks))
      && (sat == Some(false) ==> NewRow(row, f, e, pred) == row)
  {
    hide Agrees, Holds, NewRow, Evaluable, Treatable;
    var row := RowAt(scan.file.blocks, scan.Here());
    NewRowIs(row, f, e, pred);
    NotTreatable(pred, Some(Change(f, e)), row);
    sat := IsSatisfied(pred, row);
    if sat == Some(true) {
      if !Reads(e, row) {
        return None;
      }
      var ok := ModifyHere(scan, ix, f, Evaluate(e, row));
      if !ok {
        return None;
      }
    }
  }

  /** executeModify: exactly the records that satisfy the predicate are changed, each from its own old values.
      The indexes stay in step, also when a record stops the loop because the predicate or the new value cannot
      be evaluated on it. */
  method ExecuteModify(file: TableFile, ix: Indexes, f: string, e: Expression, pred: Predicate) returns (count: Option<nat>, ghost hit: set<Rid>)
    requires FileOk(file) && Separate(ix) && AllAgree(file.blocks, ix)
    modifies file, ix.Values
    ensures FileOk(file) && AllAgree(file.blocks, ix)
    ensures count.Some? <==> AllTreatable(old(file.blocks), pred, Some(Change(f, e)))
    ensures count.Some? ==> count.value == |hit|
    ensures count.Some? ==> forall r :: r in hit <==> UsedAt(old(file.blocks), r) && Holds(pred, RowAt(old(file.blocks), r))
    ensures forall r :: UsedAt(file.blocks, r) <==> UsedAt(old(file.blocks), r)
    ensures count.Some? ==> forall r :: UsedAt(file.blocks, r) ==>
              UsedAt(old(file.blocks), r) && var row := RowAt(old(file.blocks), r);
              RowAt(file.blocks, r) == if r in hit then row[f := Evaluate(e, row)] else row
  {
    hide Agrees, AllAgree, Changed, Evaluate, Formatted, Holds, Modifying, NewRow, RowAt, Separate, Shaped, Treatable, Treated, UsedAt;
    ghost var was := file.blocks;
    var scan := new TableScan(file);
    SameUsed(was, file.blocks, file.slotsPerBlock, file.defaultRow, ix);
    ghost var start := file.blocks;
    var n := 0;
    hit := {};
    var more := scan.Next();
    ModifyStart(start, f, e, pred, scan.Here(), more);
    while more
      invariant scan.Valid() && scan.file == file && fresh(scan) && AllAgree(file.blocks, ix)
      invariant Modifying(start, file.blocks, hit, f, e, pred, scan.Here(), more) && n == |hit|
      decreases if more then 1 else 0, |start| - scan.blk, file.slotsPerBlock - scan.slot
    {
      ghost var here, now := scan.Here(), file.blocks;
      ModifyReached(start, now, hit, f, e, pred, here);
      var sat := TreatHere(scan, ix, f, e, pred);
      if sat.None? {
        return None, hit;
      }
      more := scan.Next();
      hit := ModifyStep(start, now, file.blocks, hit, f, e, pred, here, scan.Here(), more);
      n := if sat.value then n + 1 else n;
    }
    ModifyEnd(start, file.blocks, f, e, pred, hit, scan.Here());
    count := Some(n);
  }

  lemma {:induction false} NewRowIs(r: Row, f: string, e: Expression, pred: Predicate)
    ensures NewRow(r, f, e, pred) == if Holds(pred, r) then r[f := Evaluate(e, r)] else r
  {
  }

  // ---------------------------------------------------------------- sequences of updates

  datatype Update =
    | InsertData(fields: seq<string>, values: seq<Constant>)
    | DeleteData(pred: Predicate)
    | ModifyData(field: string, e: Expression, pred: Predicate)

  /** An insert names each indexed field once. */
  predicate Complete(u: Update, ix: Indexes) {
    u.InsertData? ==> |u.fields| <= |u.values| && forall f :: f in ix ==> Times(u.fields, f) == 1
  }

  /** With indexes created on the empty table, or in step for another reason, any sequence of inserts, deletes
      and modifications keeps each index equal to the values and places of the records in use, up to the first
      statement that fails, and beyond it unless that is an insert. */
  method ExecuteAll(file: TableFile, ix: Indexes, updates: seq<Update>) returns (done: nat)
    requires FileOk(file) && Separate(ix) && AllAgree(file.blocks, ix)
    requires forall k :: 0 <= k < |updates| ==> Complete(updates[k], ix)
    modifies file, ix.Values
    ensures FileOk(file) && done <= |updates|
    ensures done == |updates| || !updates[done].InsertData? ==> AllAgree(file.blocks, ix)
  {
    hide Agrees;
    done := 0;
    while done < |updates|
      invariant 0 <= done <= |updates| && FileOk(file) && AllAgree(file.blocks, ix)
    {
      assert Complete(updates[done], ix);
      var n;
      match updates[done] {
        case InsertData(fields, values) =>
          ghost var r, row;
          n, r, row := ExecuteInsert(file, ix, fields, values);
          assert n.Some? ==> fields[..Settable(row, fields, values, 0)] == fields;
        case DeleteData(pred) =>
          ghost var gone;
          n, gone := ExecuteDelete(file, ix, pred);
        case ModifyData(f, e, pred) =>
          ghost var hit;
          n, hit := ExecuteModify(file, ix, f, e, pred);
      }
      if n.None? {
        return;
      }
      done := done + 1;
    }
  }
}

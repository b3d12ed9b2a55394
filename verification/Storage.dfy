/** Records in the slots of a table file (src/record/TableScan.cpp, src/record/RecordPage.cpp). Module Layouts
    has the bytes. */
module Storage {
  import opened Constants
  import opened Rids
  import opened Rows

  /** A slot that is not used keeps its old field values. */
  datatype Slot = Slot(used: bool, row: Row)

  type Blocks = seq<seq<Slot>>

  predicate Exists(bs: Blocks, r: Rid) {
    0 <= r.block < |bs| && 0 <= r.slot < |bs[r.block]|
  }

  predicate UsedAt(bs: Blocks, r: Rid) {
    Exists(bs, r) && bs[r.block][r.slot].used
  }

  function RowAt(bs: Blocks, r: Rid): Row
    requires Exists(bs, r)
  {
    bs[r.block][r.slot].row
  }

  /** The record has the field, for values of this kind. */
  predicate FitsField(row: Row, f: string, v: Constant) {
    f in row && SameKind(row[f], v)
  }

  /** File order. */
  predicate Precedes(r: Rid, s: Rid) {
    r.block < s.block || (r.block == s.block && r.slot < s.slot)
  }

  ghost predicate Shaped(bs: Blocks, n: nat) {
    bs != [] && forall b :: 0 <= b < |bs| ==> |bs[b]| == n
  }

  class TableFile {
    /** How many slots fit a block. */
    const slotsPerBlock: nat
    /** What format puts in a slot. */
    const defaultRow: Row
    var blocks: Blocks

    constructor (slotsPerBlock: nat, defaultRow: Row)
      ensures this.slotsPerBlock == slotsPerBlock && this.defaultRow == defaultRow && blocks == []
    {
      this.slotsPerBlock, this.defaultRow, blocks := slotsPerBlock, defaultRow, [];
    }
  }

  function Formatted(n: nat, row: Row): (p: seq<Slot>)
    ensures |p| == n && forall i :: 0 <= i < n ==> p[i] == Slot(false, row)
  {
    seq(n, _ => Slot(false, row))
  }

  /** One slot changed. */
  function Changed(bs: Blocks, r: Rid, s: Slot): Blocks
    requires Exists(bs, r)
  {
    bs[r.block := bs[r.block][r.slot := s]]
  }

  /** The first used slot after r is s, or there is none. */
  ghost predicate NextFrom(bs: Blocks, r: Rid, s: Rid, more: bool) {
    && (more ==> UsedAt(bs, s) && Precedes(r, s) && forall q :: Precedes(r, q) && Precedes(q, s) ==> !UsedAt(bs, q))
    && (!more ==> forall q :: Precedes(r, q) ==> !UsedAt(bs, q))
  }

  class TableScan {
    const file: TableFile
    var blk: nat
    var slot: int

    ghost predicate Valid()
      reads this, file
    {
      && Shaped(file.blocks, file.slotsPerBlock)
      && blk < |file.blocks| && -1 <= slot < file.slotsPerBlock
    }

    function Here(): Rid
      reads this
    {
      Rid(blk, slot)
    }

    /** Opening an empty file adds its first block. */
    constructor (file: TableFile)
      requires file.blocks == [] || Shaped(file.blocks, file.slotsPerBlock)
      modifies file
      ensures Valid() && this.file == file && Here() == Rid(0, -1)
      ensures file.blocks == if old(file.blocks) == [] then [Formatted(file.slotsPerBlock, file.defaultRow)] else old(file.blocks)
    {
      this.file := file;
      blk, slot := 0, -1;
      new;
      if |file.blocks| == 0 {
        file.blocks := file.blocks + [Formatted(file.slotsPerBlock, file.defaultRow)];
      }
    }

    method BeforeFirst()
      requires Valid()
      modifies this
      ensures Valid() && Here() == Rid(0, -1)
    {
      blk, slot := 0, -1;
    }

    /** RecordPage::searchAfter in the current block. */
    method SearchAfter(used: bool) returns (s: int)
      requires Valid()
      ensures s == -1 || (slot < s < file.slotsPerBlock && file.blocks[blk][s].used == used)
      ensures s == -1 ==> forall k :: slot < k < file.slotsPerBlock ==> file.blocks[blk][k].used != used
      ensures s != -1 ==> forall k :: slot < k < s ==> file.blocks[blk][k].used != used
    {
      s := slot + 1;
      while s < file.slotsPerBlock
        invariant slot < s <= file.slotsPerBlock
        invariant forall k :: slot < k < s ==> file.blocks[blk][k].used != used
      {
        if file.blocks[blk][s].used == used {
          return;
        }
        s := s + 1;
      }
      s := -1;
    }

    /** next: to the first used slot after the current position. */
    method Next() returns (more: bool)
      requires Valid()
      modifies this
      ensures Valid() && NextFrom(file.blocks, old(Here()), Here(), more)
    {
      ghost var start := Here();
      slot := SearchAfter(true);
      while slot < 0
        invariant Valid() && blk >= start.block && (slot >= 0 ==> Precedes(start, Here()) && file.blocks[blk][slot].used)
        invariant slot < 0 ==> forall r :: Precedes(start, r) && r.block <= blk ==> !UsedAt(file.blocks, r)
        invariant slot >= 0 ==> forall r :: Precedes(start, r) && Precedes(r, Here()) ==> !UsedAt(file.blocks, r)
        decreases if slot < 0 then 1 + |file.blocks| - blk else 0
      {
        if blk == |file.blocks| - 1 {
          return false;
        }
        blk := blk + 1;
        slot := -1;
        slot := SearchAfter(true);
      }
      more := true;
    }

    /** setFlag on the current slot. */
    method SetUsed(used: bool)
      requires Valid() && slot >= 0
      modifies file
      ensures Valid() && file.blocks == Changed(old(file.blocks), Here(), Slot(used, RowAt(old(file.blocks), Here())))
    {
      var s := file.blocks[blk][slot];
      file.blocks := file.blocks[blk := file.blocks[blk][slot := s.(used := used)]];
    }

    method Remove()
      requires Valid() && slot >= 0
      modifies file
      ensures Valid() && file.blocks == Changed(old(file.blocks), Here(), Slot(false, RowAt(old(file.blocks), Here())))
    {
      SetUsed(false);
    }

    /** setValue. Without the field, or with a value of the other kind, it throws or goes through a null pointer. */
    method SetValue(f: string, v: Constant) returns (ok: bool)
      requires Valid() && slot >= 0
      modifies file
      ensures Valid()
      ensures var s := old(file.blocks)[blk][slot];
        && ok == FitsField(s.row, f, v)
        && file.blocks == if ok then Changed(old(file.blocks), Here(), s.(row := s.row[f := v])) else old(file.blocks)
    {
      var s := file.blocks[blk][slot];
      ok := f in s.row && SameKind(s.row[f], v);
      if ok {
        file.blocks := file.blocks[blk := file.blocks[blk][slot := s.(row := s.row[f := v])]];
      }
    }

    method NewBlock()
      requires Valid()
      modifies this, file
      ensures Valid() && file.blocks == old(file.blocks) + [Formatted(file.slotsPerBlock, file.defaultRow)]
      ensures Here() == Rid(|old(file.blocks)|, -1)
    {
      file.blocks := file.blocks + [Formatted(file.slotsPerBlock, file.defaultRow)];
      blk := |file.blocks| - 1;
      slot := -1;
    }

    /** insert: the first free slot after the current position is taken, in a new last block when there is
        none. It ends because a slot fits a block. No other slot changes. */
    method Insert()
      requires Valid() && file.slotsPerBlock > 0
      modifies this, file
      ensures Valid() && slot >= 0 && Precedes(old(Here()), Here()) && !UsedAt(old(file.blocks), Here())
      ensures forall r :: Precedes(old(Here()), r) && Precedes(r, Here()) && Exists(old(file.blocks), r) ==> UsedAt(old(file.blocks), r)
      ensures var grown := if Exists(old(file.blocks), Here()) then old(file.blocks)
                           else old(file.blocks) + [Formatted(file.slotsPerBlock, file.defaultRow)];
        Exists(grown, Here()) && file.blocks == Changed(grown, Here(), Slot(true, RowAt(grown, Here())))
    {
      ghost var start, was := Here(), file.blocks;
      var s := SearchAfter(false);
      while s < 0
        invariant Valid() && blk >= start.block && -1 <= s < file.slotsPerBlock
        invariant file.blocks == was || (file.blocks == was + [Formatted(file.slotsPerBlock, file.defaultRow)] && blk == |was| && s >= 0)
        invariant s >= 0 ==> Precedes(start, Rid(blk, s)) && !file.blocks[blk][s].used
        invariant s < 0 ==> forall r :: Precedes(start, r) && r.block <= blk && Exists(was, r) ==> UsedAt(was, r)
        invariant s >= 0 ==> forall r :: Precedes(start, r) && Precedes(r, Rid(blk, s)) && Exists(was, r) ==> UsedAt(was, r)
        decreases if s < 0 then 1 + |was| - blk else 0
      {
        if blk == |file.blocks| - 1 {
          NewBlock();
          assert !file.blocks[blk][0].used;
        } else {
          blk := blk + 1;
          slot := -1;
        }
        s := SearchAfter(false);
      }
      slot := s;
      SetUsed(true);
    }
  }

  /** A scan from the start visits each used slot once, in file order. */
  method UsedSlots(file: TableFile) returns (rids: seq<Rid>)
    requires file.blocks == [] || Shaped(file.blocks, file.slotsPerBlock)
    modifies file
    ensures forall r :: r in rids <==> UsedAt(old(file.blocks), r)
    ensures forall i, j :: 0 <= i < j < |rids| ==> Precedes(rids[i], rids[j])
  {
    hide Shaped;
    var scan := new TableScan(file);
    ghost var start := file.blocks;
    rids := [];
    var more := scan.Next();
    while more
      invariant scan.Valid() && scan.file == file && file.blocks == start
      invariant more ==> UsedAt(start, scan.Here()) && forall i :: 0 <= i < |rids| ==> Precedes(rids[i], scan.Here())
      invariant forall i, j :: 0 <= i < j < |rids| ==> Precedes(rids[i], rids[j])
      invariant forall r :: r in rids ==> UsedAt(start, r)
      invariant more ==> forall r :: UsedAt(start, r) && Precedes(r, scan.Here()) ==> r in rids
      invariant !more ==> forall r :: UsedAt(start, r) ==> r in rids
      decreases if more then 1 else 0, |start| - scan.blk, file.slotsPerBlock - scan.slot
    {
      rids := rids + [scan.Here()];
      more := scan.Next();
    }
  }
}

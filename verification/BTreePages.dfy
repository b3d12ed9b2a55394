/** Blocks of a B-tree file and the slot-array operations on them (src/indexing/BTreePage.cpp). */
module BTreePages {

  /** The rank of a dataval, see Constants.Rank. */
  type Key = real

  /** A leaf record is (dataval, RID); a directory entry is (dataval, child block) with id unused. */
  datatype Slot = Slot(key: Key, block: int, id: int)

  /** A formatted block: the flag word, the record count and every slot that fits the block. Slots from
      index n on are dead: they keep whatever was last written there. */
  datatype Page = Page(flag: int, n: nat, slots: seq<Slot>)

  /** What format leaves in each slot: the integer 0 or the empty string has rank 0. */
  const DEFAULT := Slot(0.0, 0, 0)

  const HEADER := 8

  function SlotPos(slotSize: nat, slot: nat): nat {
    HEADER + slot * slotSize
  }

  /** isFull: the slot after the next one would end the block. */
  predicate Full(blockSize: nat, slotSize: nat, n: nat) {
    SlotPos(slotSize, n + 1) >= blockSize
  }

  /** How many slots format writes: the slots that end inside the block. */
  function Capacity(blockSize: nat, slotSize: nat): nat
    requires slotSize > 0 && blockSize >= HEADER
  {
    (blockSize - HEADER) / slotSize
  }

  /** The record count at which a page becomes full. */
  function FullAt(blockSize: nat, slotSize: nat): nat
    requires slotSize > 0 && blockSize > HEADER + slotSize
  {
    (blockSize - HEADER - 1) / slotSize
  }

  lemma DivBounds(m: nat, d: nat)
    requires d > 0
    ensures m / d * d <= m < (m / d + 1) * d
  {
  }

  /** A block is longer than k slots and the header exactly when FullAt is at least k: a page takes that many records
      before it is full. */
  lemma {:induction false} RoomFor(blockSize: nat, slotSize: nat, k: nat)
    requires slotSize > 0 && blockSize > HEADER + slotSize
    ensures k <= FullAt(blockSize, slotSize) <==> HEADER + k * slotSize < blockSize
  {
    var f := FullAt(blockSize, slotSize);
    DivBounds(blockSize - HEADER - 1, slotSize);
    if k <= f {
      MulMono(k, f, slotSize);
    } else {
      MulMono(f + 1, k, slotSize);
    }
  }

  /** A page is full exactly from FullAt records on, and a page that has just become full still fits. */
  lemma {:induction false} FullFrom(blockSize: nat, slotSize: nat, n: nat)
    requires slotSize > 0 && blockSize > HEADER + slotSize
    ensures Full(blockSize, slotSize, n) <==> n >= FullAt(blockSize, slotSize)
    ensures 0 < FullAt(blockSize, slotSize) <= Capacity(blockSize, slotSize)
  {
    hide FullAt, Capacity;
    RoomFor(blockSize, slotSize, n + 1);
    RoomFor(blockSize, slotSize, 1);
    FullFits(blockSize, slotSize);
  }

  lemma {:induction false} FullFits(blockSize: nat, slotSize: nat)
    requires slotSize > 0 && blockSize > HEADER + slotSize
    ensures FullAt(blockSize, slotSize) <= Capacity(blockSize, slotSize)
  {
    var f, c := FullAt(blockSize, slotSize), Capacity(blockSize, slotSize);
    DivBounds(blockSize - HEADER - 1, slotSize);
    DivBounds(blockSize - HEADER, slotSize);
    if c < f {
      MulMono(c + 1, f, slotSize);
    }
  }

  lemma MulMono(a: int, b: int, c: nat)
    requires a <= b
    ensures a * c <= b * c
  {
  }

  function Live(p: Page): (s: seq<Slot>) {
    if p.n <= |p.slots| then p.slots[..p.n] else p.slots
  }

  /** Length of the longest prefix of keys below key; findSlotBefore returns one less. */
  function CountBefore(s: seq<Slot>, key: Key): (c: nat)
    ensures c <= |s|
    ensures forall i :: 0 <= i < c ==> s[i].key < key
    ensures c < |s| ==> key <= s[c].key
  {
    if s == [] || s[0].key >= key then 0 else 1 + CountBefore(s[1..], key)
  }

  /** The page after a record is written into slot i and the records from i on moved up. */
  function Inserted(p: Page, i: nat, r: Slot): (q: Page)
    requires i <= p.n < |p.slots|
    ensures |q.slots| == |p.slots| && q.flag == p.flag && q.n == p.n + 1
    ensures Live(q) == Live(p)[..i] + [r] + Live(p)[i..]
  {
    var s := seq(|p.slots|, k requires 0 <= k < |p.slots| =>
               if k < i then p.slots[k] else if k == i then r else if k <= p.n then p.slots[k - 1] else p.slots[k]);
    p.(n := p.n + 1, slots := s)
  }

  /** The page after the record in slot i is removed. The last record stays behind in the dead slot. */
  function Removed(p: Page, i: nat): (q: Page)
    requires i < p.n <= |p.slots|
    ensures |q.slots| == |p.slots| && q.flag == p.flag && q.n == p.n - 1
    ensures Live(q) == Live(p)[..i] + Live(p)[i + 1..]
  {
    var s := seq(|p.slots|, k requires 0 <= k < |p.slots| =>
               if i <= k < p.n - 1 then p.slots[k + 1] else p.slots[k]);
    p.(n := p.n - 1, slots := s)
  }

  /** The page after the j records from slot on have been moved away, one by one from the left: the
      slots this vacates all hold the old last record. */
  function Drained(p: Page, slot: nat, j: nat): (q: Page)
    requires slot + j <= p.n <= |p.slots|
    ensures |q.slots| == |p.slots| && q.flag == p.flag && q.n == p.n - j
  {
    var s := seq(|p.slots|, k requires 0 <= k < |p.slots| =>
               if slot <= k < p.n - j then p.slots[k + j] else if slot <= k < p.n && 0 < j then p.slots[p.n - 1] else p.slots[k]);
    p.(n := p.n - j, slots := s)
  }

  /** Page q, of no records, after the j records of p from slot on have arrived. */
  function Filled(p: Page, slot: nat, j: nat, q: Page): (r: Page)
    requires slot + j <= p.n <= |p.slots| == |q.slots|
    ensures |r.slots| == |q.slots| && r.flag == q.flag && r.n == j
    ensures Live(r) == Live(p)[slot..slot + j]
  {
    var s := seq(|q.slots|, k requires 0 <= k < |q.slots| => if k < j then p.slots[slot + k] else q.slots[k]);
    q.(n := j, slots := s)
  }

  function Formatted(flag: int, capacity: nat): (q: Page)
    ensures |q.slots| == capacity && q.flag == flag && q.n == 0
  {
    Page(flag, 0, seq(capacity, i => DEFAULT))
  }

  /** What split leaves behind. */
  function LeftPart(p: Page, pos: nat): (q: Page)
    requires pos <= p.n <= |p.slots|
    ensures |q.slots| == |p.slots| && q.flag == p.flag && q.n == pos
    ensures Live(q) == Live(p)[..pos]
  {
    Drained(p, pos, p.n - pos)
  }

  /** What split writes to the new block. */
  function RightPart(p: Page, pos: nat, flag: int): (q: Page)
    requires pos <= p.n <= |p.slots|
    ensures |q.slots| == |p.slots| && q.flag == flag && q.n == p.n - pos
    ensures Live(q) == Live(p)[pos..]
  {
    Filled(p, pos, p.n - pos, Formatted(flag, |p.slots|))
  }

  lemma InsertedIs(p: Page, i: nat, r: Slot, s: seq<Slot>)
    requires i <= p.n < |p.slots| == |s| && s[i] == r
    requires forall k :: 0 <= k < i ==> s[k] == p.slots[k]
    requires forall k :: i < k <= p.n ==> s[k] == p.slots[k - 1]
    requires forall k :: p.n < k < |s| ==> s[k] == p.slots[k]
    ensures Inserted(p, i, r) == p.(n := p.n + 1, slots := s)
  {
    assert Inserted(p, i, r).slots == s;
  }

  lemma RemovedIs(p: Page, i: nat, s: seq<Slot>)
    requires i < p.n <= |p.slots| == |s|
    requires forall k :: 0 <= k < i ==> s[k] == p.slots[k]
    requires forall k :: i <= k < p.n - 1 ==> s[k] == p.slots[k + 1]
    requires forall k :: p.n - 1 <= k < |s| ==> s[k] == p.slots[k]
    ensures Removed(p, i) == p.(n := p.n - 1, slots := s)
  {
    assert Removed(p, i).slots == s;
  }

  /** The slots while insert moves the records from its place on up, from the last one down to i. */
  ghost predicate MovedUp(p: Page, i: nat, s: seq<Slot>)
    requires i <= p.n < |p.slots| == |s|
  {
    && (forall k :: 0 <= k <= i ==> s[k] == p.slots[k])
    && (forall k :: i < k <= p.n ==> s[k] == p.slots[k - 1])
    && (forall k :: p.n < k < |s| ==> s[k] == p.slots[k])
  }

  lemma NothingMoved(p: Page)
    requires p.n < |p.slots|
    ensures MovedUp(p, p.n, p.slots)
  {
  }

  lemma MoveUp(p: Page, i: nat, s: seq<Slot>)
    requires 0 < i <= p.n < |p.slots| == |s| && MovedUp(p, i, s)
    ensures MovedUp(p, i - 1, s[i := s[i - 1]])
  {
  }

  lemma OpenedSlot(p: Page, i: nat, r: Slot, s: seq<Slot>)
    requires i <= p.n < |p.slots| == |s| && MovedUp(p, i, s)
    ensures Inserted(p, i, r) == p.(n := p.n + 1, slots := s[i := r])
  {
    InsertedIs(p, i, r, s[i := r]);
  }

  /** The slots while remove moves the records behind its place down, up to i. */
  ghost predicate MovedDown(p: Page, slot: nat, i: nat, s: seq<Slot>)
    requires slot < i <= p.n <= |p.slots| == |s|
  {
    && (forall k :: 0 <= k < slot ==> s[k] == p.slots[k])
    && (forall k :: slot <= k < i - 1 ==> s[k] == p.slots[k + 1])
    && (forall k :: i - 1 <= k < |s| ==> s[k] == p.slots[k])
  }

  lemma NoneClosed(p: Page, slot: nat)
    requires slot < p.n <= |p.slots|
    ensures MovedDown(p, slot, slot + 1, p.slots)
  {
  }

  lemma MoveDown(p: Page, slot: nat, i: nat, s: seq<Slot>)
    requires slot < i < p.n <= |p.slots| == |s| && MovedDown(p, slot, i, s)
    ensures MovedDown(p, slot, i + 1, s[i - 1 := s[i]])
  {
  }

  lemma ClosedSlot(p: Page, slot: nat, s: seq<Slot>)
    requires slot < p.n <= |p.slots| == |s| && MovedDown(p, slot, p.n, s)
    ensures Removed(p, slot) == p.(n := p.n - 1, slots := s)
  {
    RemovedIs(p, slot, s);
  }

  lemma TransferStart(p: Page, slot: nat, q: Page)
    requires slot <= p.n <= |p.slots| == |q.slots| && q.n == 0
    ensures Drained(p, slot, 0) == p && Filled(p, slot, 0, q) == q
  {
    assert Drained(p, slot, 0).slots == p.slots;
    assert Filled(p, slot, 0, q).slots == q.slots;
  }

  lemma DrainedAt(p: Page, slot: nat, j: nat, k: nat)
    requires slot + j <= p.n <= |p.slots| && k < |p.slots|
    ensures Drained(p, slot, j).slots[k] ==
            if slot <= k < p.n - j then p.slots[k + j] else if slot <= k < p.n && 0 < j then p.slots[p.n - 1] else p.slots[k]
  {
  }

  lemma DrainStep(p: Page, slot: nat, j: nat)
    requires slot + j < p.n <= |p.slots|
    ensures Drained(p, slot, j).slots[slot] == p.slots[slot + j]
    ensures Removed(Drained(p, slot, j), slot) == Drained(p, slot, j + 1)
  {
    hide Drained, Removed;
    var q, b := Drained(p, slot, j), Drained(p, slot, j + 1);
    DrainedAt(p, slot, j, slot);
    forall k | 0 <= k < slot ensures b.slots[k] == q.slots[k] {
      DrainedAt(p, slot, j + 1, k);
      DrainedAt(p, slot, j, k);
    }
    forall k | slot <= k < q.n - 1 ensures b.slots[k] == q.slots[k + 1] {
      DrainedAt(p, slot, j + 1, k);
      DrainedAt(p, slot, j, k + 1);
    }
    forall k | q.n - 1 <= k < |q.slots| ensures b.slots[k] == q.slots[k] {
      DrainedAt(p, slot, j + 1, k);
      DrainedAt(p, slot, j, k);
    }
    SameButSlots(p, slot, j);
    RemovedIs(q, slot, b.slots);
  }

  lemma SameButSlots(p: Page, slot: nat, j: nat)
    requires slot + j < p.n <= |p.slots|
    ensures Drained(p, slot, j + 1) == Drained(p, slot, j).(n := p.n - j - 1, slots := Drained(p, slot, j + 1).slots)
  {
  }

  lemma FillStep(p: Page, slot: nat, j: nat, q: Page)
    requires slot + j < p.n <= |p.slots| == |q.slots|
    ensures Inserted(Filled(p, slot, j, q), j, p.slots[slot + j]) == Filled(p, slot, j + 1, q)
  {
    var a, b := Inserted(Filled(p, slot, j, q), j, p.slots[slot + j]).slots, Filled(p, slot, j + 1, q).slots;
    assert forall k :: 0 <= k < |q.slots| ==> a[k] == b[k];
    assert a == b;
  }

  lemma TransferStep(p: Page, slot: nat, j: nat, q: Page, left: Page, right: Page) returns (left': Page, right': Page)
    requires slot + j < p.n <= |p.slots| == |q.slots|
    requires left == Drained(p, slot, j) && right == Filled(p, slot, j, q)
    ensures left' == Removed(left, slot) == Drained(p, slot, j + 1)
    ensures right' == Inserted(right, right.n, left.slots[slot]) == Filled(p, slot, j + 1, q)
  {
    DrainStep(p, slot, j);
    FillStep(p, slot, j, q);
    left', right' := Drained(p, slot, j + 1), Filled(p, slot, j + 1, q);
  }

  /** A file of formatted blocks of one slot size. */
  class BlockFile {
    const blockSize: nat
    const slotSize: nat
    var blocks: seq<Page>

    ghost predicate Valid()
      reads this
    {
      && slotSize > 0 && blockSize > HEADER + slotSize
      && forall b :: 0 <= b < |blocks| ==> |blocks[b].slots| == Capacity(blockSize, slotSize) && blocks[b].n <= |blocks[b].slots|
    }

    ghost function Limit(): nat
      requires slotSize > 0 && blockSize > HEADER + slotSize
    {
      FullAt(blockSize, slotSize)
    }

    constructor (blockSize: nat, slotSize: nat)
      requires slotSize > 0 && blockSize > HEADER + slotSize
      ensures Valid() && blocks == []
      ensures this.blockSize == blockSize && this.slotSize == slotSize
    {
      this.blockSize, this.slotSize, blocks := blockSize, slotSize, [];
    }

    /** isFull of a page. */
    method IsFull(b: nat) returns (full: bool)
      requires Valid() && b < |blocks|
      ensures full <==> blocks[b].n >= Limit()
    {
      FullFrom(blockSize, slotSize, blocks[b].n);
      full := SlotPos(slotSize, blocks[b].n + 1) >= blockSize;
    }

    method FindSlotBefore(b: nat, key: Key) returns (slot: int)
      requires Valid() && b < |blocks|
      ensures slot == CountBefore(Live(blocks[b]), key) - 1
    {
      var p := blocks[b];
      var i := 0;
      while i < p.n && p.slots[i].key < key
        invariant 0 <= i <= p.n
        invariant CountBefore(Live(p), key) == i + CountBefore(Live(p)[i..], key)
      {
        assert Live(p)[i..][1..] == Live(p)[i + 1..];
        i := i + 1;
      }
      slot := i - 1;
    }

    /** appendNew: a fresh formatted block at the end of the file. */
    method AppendNew(flag: int) returns (b: nat)
      requires Valid()
      modifies this
      ensures Valid() && b == |old(blocks)|
      ensures blocks == old(blocks) + [Formatted(flag, Capacity(blockSize, slotSize))]
    {
      b := |blocks|;
      blocks := blocks + [Formatted(flag, Capacity(blockSize, slotSize))];
    }

    method SetFlag(b: nat, flag: int)
      requires Valid() && b < |blocks|
      modifies this
      ensures Valid() && blocks == old(blocks)[b := old(blocks[b]).(flag := flag)]
    {
      blocks := blocks[b := blocks[b].(flag := flag)];
    }

    method WriteSlot(b: nat, i: nat, r: Slot)
      requires Valid() && b < |blocks| && i < |blocks[b].slots|
      modifies this
      ensures Valid() && blocks == old(blocks)[b := old(blocks[b]).(slots := old(blocks[b]).slots[i := r])]
    {
      blocks := blocks[b := blocks[b].(slots := blocks[b].slots[i := r])];
    }

    /** insertLeaf and insertDir: shift the records from slot on, then write the new one. */
    method Insert(b: nat, slot: nat, r: Slot)
      requires Valid() && b < |blocks|
      requires slot <= blocks[b].n < |blocks[b].slots|
      modifies this
      ensures Valid() && blocks == old(blocks)[b := Inserted(old(blocks[b]), slot, r)]
    {
      hide MovedUp, Inserted;
      var p := blocks[b];
      ghost var s := p.slots;
      var i := p.n;
      NothingMoved(p);
      while i > slot
        invariant Valid() && slot <= i <= p.n && |s| == |p.slots| && MovedUp(p, i, s)
        invariant blocks == old(blocks)[b := p.(slots := s)]
      {
        WriteSlot(b, i, blocks[b].slots[i - 1]);
        MoveUp(p, i, s);
        s := s[i := s[i - 1]];
        i := i - 1;
      }
      blocks := blocks[b := blocks[b].(n := blocks[b].n + 1)];
      WriteSlot(b, slot, r);
      OpenedSlot(p, slot, r, s);
    }

    method Remove(b: nat, slot: nat)
      requires Valid() && b < |blocks|
      requires slot < blocks[b].n
      modifies this
      ensures Valid() && blocks == old(blocks)[b := Removed(old(blocks[b]), slot)]
    {
      hide MovedDown, Removed;
      var p := blocks[b];
      ghost var s := p.slots;
      var i := slot + 1;
      NoneClosed(p, slot);
      while i < p.n
        invariant Valid() && slot < i <= p.n && |s| == |p.slots| && MovedDown(p, slot, i, s)
        invariant blocks == old(blocks)[b := p.(slots := s)]
      {
        WriteSlot(b, i - 1, blocks[b].slots[i]);
        MoveDown(p, slot, i, s);
        s := s[i - 1 := s[i]];
        i := i + 1;
      }
      blocks := blocks[b := blocks[b].(n := blocks[b].n - 1)];
      ClosedSlot(p, slot, s);
    }

    /** One round of transferRecs: the record in slot goes to the end of page dest. */
    method MoveRec(b: nat, slot: nat, dest: nat)
      requires Valid() && b < |blocks| && dest < |blocks| && b != dest
      requires slot < blocks[b].n && blocks[dest].n < |blocks[b].slots|
      modifies this
      ensures Valid() && |blocks| == |old(blocks)|
      ensures blocks[b] == Removed(old(blocks[b]), slot)
      ensures blocks[dest] == Inserted(old(blocks[dest]), old(blocks[dest]).n, old(blocks[b]).slots[slot])
      ensures forall k :: 0 <= k < |blocks| && k != b && k != dest ==> blocks[k] == old(blocks[k])
    {
      Insert(dest, blocks[dest].n, blocks[b].slots[slot]);
      Remove(b, slot);
    }

    /** transferRecs: move the records from slot on, one at a time, to the end of an empty page. */
    method TransferRecs(b: nat, slot: nat, dest: nat)
      requires Valid() && b < |blocks| && dest < |blocks| && b != dest
      requires slot <= blocks[b].n && blocks[dest].n == 0
      modifies this
      ensures Valid() && |blocks| == |old(blocks)|
      ensures blocks[b] == LeftPart(old(blocks[b]), slot)
      ensures blocks[dest] == Filled(old(blocks[b]), slot, old(blocks[b]).n - slot, old(blocks[dest]))
      ensures forall k :: 0 <= k < |blocks| && k != b && k != dest ==> blocks[k] == old(blocks[k])
    {
      ghost var p, q := blocks[b], blocks[dest];
      ghost var left, right := p, q;
      var j := 0;
      TransferStart(p, slot, q);
      while slot < blocks[b].n
        invariant Valid() && slot + j <= p.n && |blocks| == |old(blocks)|
        invariant blocks[b] == left && blocks[dest] == right
        invariant left == Drained(p, slot, j) && right == Filled(p, slot, j, q)
        invariant forall k :: 0 <= k < |blocks| && k != b && k != dest ==> blocks[k] == old(blocks[k])
        decreases p.n - j
      {
        MoveRec(b, slot, dest);
        left, right := TransferStep(p, slot, j, q, left, right);
        j := j + 1;
      }
    }

    /** split: append a block, move the records from pos on to it, and return its number. */
    method Split(b: nat, pos: nat, flag: int) returns (nb: nat)
      requires Valid() && b < |blocks|
      requires pos <= blocks[b].n
      modifies this
      ensures Valid() && nb == |old(blocks)|
      ensures blocks == old(blocks)[b := LeftPart(old(blocks[b]), pos)] + [RightPart(old(blocks[b]), pos, flag)]
    {
      nb := AppendNew(flag);
      TransferRecs(b, pos, nb);
      SetFlag(nb, flag);
    }
  }
}

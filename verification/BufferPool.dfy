/** The buffer pool (src/buffer) and the pins transactions hold on it (src/tx/BufferList.cpp), as values.
    A frame is named by its place in the pool; NOBLOCK is the block id of a buffer not yet used. */
module BufferPool {
  import opened Options
  import opened Pages
  import opened RecoveryLog

  const NOBLOCK := BlockId("", -1)

  /** txnum is -1 when the page has not been modified. */
  datatype Frame = Frame(page: Bytes, blk: BlockId, pins: int, txnum: int, lsn: int)

  datatype Pool = Pool(frames: seq<Frame>, avail: int, disk: map<BlockId, Bytes>)

  // ---------------------------------------------------------------- the pool operations

  /** findExistingBuffer from frame i on. */
  function FindBlock(frames: seq<Frame>, b: BlockId, i: nat): (r: Option<nat>)
    requires i <= |frames|
    ensures r.Some? ==> i <= r.value < |frames| && frames[r.value].blk == b
    ensures r.Some? ==> forall k :: i <= k < r.value ==> frames[k].blk != b
    ensures r == None ==> forall k :: i <= k < |frames| ==> frames[k].blk != b
    decreases |frames| - i
  {
    if i == |frames| then None else if frames[i].blk == b then Some(i) else FindBlock(frames, b, i + 1)
  }

  /** chooseUnpinnedBuffer from frame i on. */
  function FindFree(frames: seq<Frame>, i: nat): (r: Option<nat>)
    requires i <= |frames|
    ensures r.Some? ==> i <= r.value < |frames| && frames[r.value].pins <= 0
    ensures r.Some? ==> forall k :: i <= k < r.value ==> frames[k].pins > 0
    ensures r == None ==> forall k :: i <= k < |frames| ==> frames[k].pins > 0
    decreases |frames| - i
  {
    if i == |frames| then None else if frames[i].pins <= 0 then Some(i) else FindFree(frames, i + 1)
  }

  /** Buffer::flush. The log is written before the page; module Recovery has that part. */
  function Flushed(f: Frame): Frame {
    f.(txnum := if f.txnum >= 0 then -1 else f.txnum)
  }

  function FlushedDisk(f: Frame, disk: map<BlockId, Bytes>): map<BlockId, Bytes> {
    if f.txnum >= 0 then disk[f.blk := f.page] else disk
  }

  function FlushedAt(p: Pool, i: nat): Pool
    requires i < |p.frames|
  {
    p.(frames := p.frames[i := Flushed(p.frames[i])], disk := FlushedDisk(p.frames[i], p.disk))
  }

  /** FileMgr::read into a frame. */
  function Loaded(p: Pool, i: nat, b: BlockId): Pool
    requires i < |p.frames| && b in p.disk
  {
    p.(frames := p.frames[i := p.frames[i].(blk := b, page := p.disk[b], pins := 0)])
  }

  /** Buffer::assignToBlock. */
  function Assigned(p: Pool, i: nat, b: BlockId): Pool
    requires i < |p.frames| && b in p.disk
  {
    Loaded(FlushedAt(p, i), i, b)
  }

  function PinnedAt(p: Pool, i: nat): Pool
    requires i < |p.frames|
  {
    var f := p.frames[i];
    p.(frames := p.frames[i := f.(pins := f.pins + 1)], avail := if f.pins > 0 then p.avail else p.avail - 1)
  }

  /** tryToPin: the frame, or None when every frame is pinned. */
  function TryToPin(p: Pool, b: BlockId): Option<(nat, Pool)>
    requires b in p.disk
  {
    var at := FindBlock(p.frames, b, 0);
    if at.Some? then Some((at.value, PinnedAt(p, at.value)))
    else
      var free := FindFree(p.frames, 0);
      if free == None then None else Some((free.value, PinnedAt(Assigned(p, free.value, b), free.value)))
  }

  function UnpinnedAt(p: Pool, i: nat): Pool
    requires i < |p.frames|
  {
    var f := p.frames[i];
    p.(frames := p.frames[i := f.(pins := f.pins - 1)], avail := if f.pins - 1 > 0 then p.avail else p.avail + 1)
  }

  /** flushAll from frame i on. */
  function FlushedAll(p: Pool, txnum: int, i: nat): (q: Pool)
    requires i <= |p.frames|
    ensures |q.frames| == |p.frames|
    decreases |p.frames| - i
  {
    if i == |p.frames| then p
    else
      var f := p.frames[i];
      FlushedAll(if f.txnum == txnum then FlushedAt(p, i) else p, txnum, i + 1)
  }

  /** Page::setInt and Buffer::setModified through a pinned buffer. */
  function WrittenAt(p: Pool, i: nat, offset: int, n: int32, txnum: int, lsn: int): Pool
    requires i < |p.frames| && Fits(p.frames[i].page, offset)
  {
    var f := p.frames[i];
    p.(frames := p.frames[i := f.(page := PutInt(f.page, offset, n), txnum := txnum, lsn := if lsn >= 0 then lsn else f.lsn)])
  }

  // ---------------------------------------------------------------- what they keep

  function CountFree(frames: seq<Frame>): nat {
    if frames == [] then 0
    else CountFree(frames[..|frames| - 1]) + if frames[|frames| - 1].pins > 0 then 0 else 1
  }

  lemma {:induction false} CountUpdate(frames: seq<Frame>, i: nat, f: Frame)
    requires i < |frames|
    ensures CountFree(frames[i := f]) == CountFree(frames) + (if f.pins > 0 then 0 else 1) - (if frames[i].pins > 0 then 0 else 1)
    decreases |frames|
  {
    var n := |frames| - 1;
    if i < n {
      CountUpdate(frames[..n], i, f);
      assert frames[i := f][..n] == frames[..n][i := f];
    } else {
      assert frames[i := f][..n] == frames[..n];
    }
  }

  /** A used frame holds a block of the database; when unmodified, exactly as on disk. */
  predicate FrameOk(f: Frame, disk: map<BlockId, Bytes>) {
    && f.pins >= 0 && f.txnum >= -1
    && (f.blk == NOBLOCK ==> f.pins == 0 && f.txnum == -1)
    && (f.blk != NOBLOCK ==> f.blk in disk && |f.page| == |disk[f.blk]|)
    && (f.blk != NOBLOCK && f.txnum == -1 ==> f.page == disk[f.blk])
  }

  predicate PoolInv(p: Pool) {
    && p.avail == CountFree(p.frames)
    && NOBLOCK !in p.disk
    && (forall i :: 0 <= i < |p.frames| ==> FrameOk(p.frames[i], p.disk))
    && forall i, j :: 0 <= i < j < |p.frames| && p.frames[i].blk == p.frames[j].blk ==> p.frames[i].blk == NOBLOCK
  }

  /** The contents of a block for whoever pins it. */
  function View(p: Pool, b: BlockId): Bytes
    requires b in p.disk
  {
    var at := FindBlock(p.frames, b, 0);
    if at.Some? then p.frames[at.value].page else p.disk[b]
  }

  lemma {:induction false} FoundAt(p: Pool, i: nat)
    requires PoolInv(p) && i < |p.frames| && p.frames[i].blk != NOBLOCK
    ensures FindBlock(p.frames, p.frames[i].blk, 0) == Some(i)
  {
  }

  lemma {:induction false} ViewIs(p: Pool, b: BlockId, i: nat)
    requires PoolInv(p) && b in p.disk && i < |p.frames| && p.frames[i].blk == b
    ensures View(p, b) == p.frames[i].page
  {
    FoundAt(p, i);
  }

  /** The frames show the same pages of the same blocks. */
  lemma {:induction false} SameView(p: Pool, q: Pool, b: BlockId)
    requires PoolInv(p) && PoolInv(q) && b in p.disk && b in q.disk && |p.frames| == |q.frames|
    requires forall i :: 0 <= i < |p.frames| && p.frames[i].blk == b ==> q.frames[i].blk == b && q.frames[i].page == p.frames[i].page
    requires (forall i :: 0 <= i < |p.frames| ==> p.frames[i].blk != b) ==> View(q, b) == p.disk[b]
    ensures View(q, b) == View(p, b)
  {
    var at := FindBlock(p.frames, b, 0);
    if at.Some? {
      ViewIs(p, b, at.value);
      ViewIs(q, b, at.value);
    }
  }

  lemma {:induction false} PinKeeps(p: Pool, i: nat)
    requires PoolInv(p) && i < |p.frames| && p.frames[i].blk != NOBLOCK
    ensures PoolInv(PinnedAt(p, i)) && forall b :: b in p.disk ==> View(PinnedAt(p, i), b) == View(p, b)
  {
    var q := PinnedAt(p, i);
    CountUpdate(p.frames, i, q.frames[i]);
    forall b | b in p.disk ensures View(q, b) == View(p, b) {
      SameView(p, q, b);
    }
  }

  lemma {:induction false} UnpinKeeps(p: Pool, i: nat)
    requires PoolInv(p) && i < |p.frames| && p.frames[i].blk != NOBLOCK && p.frames[i].pins > 0
    ensures PoolInv(UnpinnedAt(p, i)) && forall b :: b in p.disk ==> View(UnpinnedAt(p, i), b) == View(p, b)
  {
    var q := UnpinnedAt(p, i);
    CountUpdate(p.frames, i, q.frames[i]);
    forall b | b in p.disk ensures View(q, b) == View(p, b) {
      SameView(p, q, b);
    }
  }

  /** Writing a page back. */
  lemma {:induction false} FlushInv(p: Pool, i: nat)
    requires PoolInv(p) && i < |p.frames|
    ensures PoolInv(FlushedAt(p, i)) && FlushedAt(p, i).disk.Keys == p.disk.Keys
  {
    var f := p.frames[i];
    var q := FlushedAt(p, i);
    CountUpdate(p.frames, i, Flushed(f));
    forall k | 0 <= k < |q.frames| ensures FrameOk(q.frames[k], q.disk) {
      assert FrameOk(p.frames[k], p.disk);
      if k != i && f.txnum >= 0 {
        assert p.frames[k].blk != f.blk;
      }
    }
  }

  lemma {:induction false} FlushView(p: Pool, i: nat, b: BlockId)
    requires PoolInv(p) && i < |p.frames| && b in p.disk
    ensures b in FlushedAt(p, i).disk && View(FlushedAt(p, i), b) == View(p, b)
  {
    FlushInv(p, i);
    SameView(p, FlushedAt(p, i), b);
  }

  lemma {:induction false} LoadInv(p: Pool, i: nat, b: BlockId)
    requires PoolInv(p) && i < |p.frames| && p.frames[i].pins == 0 && p.frames[i].txnum == -1 && b in p.disk
    requires forall k :: 0 <= k < |p.frames| ==> p.frames[k].blk != b
    ensures PoolInv(Loaded(p, i, b))
  {
    CountUpdate(p.frames, i, Loaded(p, i, b).frames[i]);
  }

  lemma {:induction false} LoadView(p: Pool, i: nat, b: BlockId, c: BlockId)
    requires PoolInv(p) && i < |p.frames| && p.frames[i].pins == 0 && p.frames[i].txnum == -1 && b in p.disk && c in p.disk
    requires forall k :: 0 <= k < |p.frames| ==> p.frames[k].blk != b
    ensures View(Loaded(p, i, b), c) == View(p, c)
  {
    LoadInv(p, i, b);
    var q := Loaded(p, i, b);
    if c == b {
      ViewIs(q, b, i);
    } else if c == p.frames[i].blk {
      ViewIs(p, c, i);
      assert forall k :: 0 <= k < |q.frames| ==> q.frames[k].blk != c;
    } else {
      SameView(p, q, c);
    }
  }

  /** Taking over an unpinned frame: its page, if modified, has gone to disk, so no block's contents change. */
  lemma {:induction false} AssignKeeps(p: Pool, i: nat, b: BlockId)
    requires PoolInv(p) && i < |p.frames| && p.frames[i].pins == 0 && b in p.disk
    requires forall k :: 0 <= k < |p.frames| ==> p.frames[k].blk != b
    ensures PoolInv(Assigned(p, i, b)) && Assigned(p, i, b).disk.Keys == p.disk.Keys
    ensures forall c :: c in p.disk ==> View(Assigned(p, i, b), c) == View(p, c)
  {
    FlushInv(p, i);
    var m := FlushedAt(p, i);
    assert FrameOk(p.frames[i], p.disk);
    assert forall k :: 0 <= k < |m.frames| ==> m.frames[k].blk == p.frames[k].blk;
    LoadInv(m, i, b);
    forall c | c in p.disk ensures View(Assigned(p, i, b), c) == View(p, c) {
      FlushView(p, i, c);
      LoadView(m, i, b, c);
    }
  }

  /** Frame i holds b with one more pin; an unpinned frame may have been taken for it, and nothing else
      has changed for anybody. */
  ghost predicate PinDone(p: Pool, b: BlockId, i: nat, q: Pool) {
    && PoolInv(q) && q.disk.Keys == p.disk.Keys && i < |q.frames| == |p.frames|
    && q.frames[i].blk == b
    && q.frames[i].pins == (if p.frames[i].blk == b then p.frames[i].pins else 0) + 1
    && (p.frames[i].blk != b ==> p.frames[i].pins == 0)
    && (forall k :: 0 <= k < |p.frames| && k != i ==> q.frames[k] == p.frames[k])
    && (forall c :: c in p.disk ==> View(q, c) == View(p, c))
  }

  lemma {:induction false} PinHit(p: Pool, b: BlockId, i: nat)
    requires PoolInv(p) && b in p.disk && i < |p.frames| && p.frames[i].blk == b
    ensures PinDone(p, b, i, PinnedAt(p, i))
  {
    PinKeeps(p, i);
  }

  lemma {:induction false} PinMiss(p: Pool, b: BlockId, i: nat)
    requires PoolInv(p) && b in p.disk && i < |p.frames| && p.frames[i].pins <= 0
    requires forall k :: 0 <= k < |p.frames| ==> p.frames[k].blk != b
    ensures PinDone(p, b, i, PinnedAt(Assigned(p, i, b), i))
  {
    assert FrameOk(p.frames[i], p.disk);
    AssignKeeps(p, i, b);
    var m := Assigned(p, i, b);
    assert m.frames[i].blk == b && m.frames[i].pins == 0;
    PinKeeps(m, i);
  }

  /** A pin finds or loads the block, changes no block's contents and moves no pinned frame; it fails only
      when all frames are pinned. */
  lemma {:induction false} TryToPinCorrect(p: Pool, b: BlockId)
    requires PoolInv(p) && b in p.disk
    ensures TryToPin(p, b) == None <==> (forall i :: 0 <= i < |p.frames| ==> p.frames[i].pins > 0 && p.frames[i].blk != b)
    ensures TryToPin(p, b).Some? ==> PinDone(p, b, TryToPin(p, b).value.0, TryToPin(p, b).value.1)
  {
    var at := FindBlock(p.frames, b, 0);
    if at.Some? {
      PinHit(p, b, at.value);
    } else {
      var free := FindFree(p.frames, 0);
      if free.Some? {
        PinMiss(p, b, free.value);
      }
    }
  }

  /** A frame from i on holds b with the transaction's mark. */
  ghost predicate Marked(frames: seq<Frame>, txnum: int, i: nat, b: BlockId) {
    exists k :: i <= k < |frames| && frames[k].blk == b && frames[k].txnum == txnum
  }

  /** flushAll takes the transaction's mark off every frame, writes exactly the blocks with that mark, and leaves
      contents and other frames as they are. */
  lemma {:induction false} FlushAllCorrect(p: Pool, txnum: int, i: nat)
    requires PoolInv(p) && txnum >= 0 && i <= |p.frames|
    ensures var q := FlushedAll(p, txnum, i);
      && PoolInv(q) && q.disk.Keys == p.disk.Keys
      && (forall k :: 0 <= k < |q.frames| ==>
            q.frames[k] == if i <= k && p.frames[k].txnum == txnum then p.frames[k].(txnum := -1) else p.frames[k])
      && (forall c :: c in p.disk ==> q.disk[c] == if Marked(p.frames, txnum, i, c) then View(p, c) else p.disk[c])
      && (forall c :: c in p.disk ==> View(q, c) == View(p, c))
    decreases |p.frames| - i
  {
    hide View, PoolInv, FrameOk, Marked;
    if i < |p.frames| {
      var f := p.frames[i];
      var m := if f.txnum == txnum then FlushedAt(p, i) else p;
      FlushInv(p, i);
      forall c | c in p.disk ensures View(FlushedAt(p, i), c) == View(p, c) {
        FlushView(p, i, c);
      }
      FlushAllCorrect(m, txnum, i + 1);
      forall c | c in p.disk
        ensures FlushedAll(p, txnum, i).disk[c] == if Marked(p.frames, txnum, i, c) then View(p, c) else p.disk[c]
      {
        MarkedFrom(p, txnum, i, c);
      }
    } else {
      forall c ensures !Marked(p.frames, txnum, i, c) {
        NoneMarked(p.frames, txnum, i, c);
      }
    }
  }

  lemma {:induction false} NoneMarked(frames: seq<Frame>, txnum: int, i: nat, c: BlockId)
    requires i >= |frames|
    ensures !Marked(frames, txnum, i, c)
  {
  }

  /** One round of flushAll. */
  lemma {:induction false} MarkedFrom(p: Pool, txnum: int, i: nat, c: BlockId)
    requires PoolInv(p) && txnum >= 0 && i < |p.frames| && c in p.disk
    ensures var f := p.frames[i]; var m := if f.txnum == txnum then FlushedAt(p, i) else p;
      && c in m.disk
      && (Marked(p.frames, txnum, i, c) <==> (f.blk == c && f.txnum == txnum) || Marked(m.frames, txnum, i + 1, c))
      && (f.blk == c && f.txnum == txnum ==> m.disk[c] == View(p, c) && !Marked(m.frames, txnum, i + 1, c))
      && (!(f.blk == c && f.txnum == txnum) ==> m.disk[c] == p.disk[c])
  {
    var f := p.frames[i];
    var m := if f.txnum == txnum then FlushedAt(p, i) else p;
    assert forall k :: i < k < |p.frames| ==> m.frames[k] == p.frames[k];
    if f.blk == c && f.txnum == txnum {
      assert FrameOk(f, p.disk);
      ViewIs(p, c, i);
    }
    if Marked(p.frames, txnum, i, c) && !(f.blk == c && f.txnum == txnum) {
      var k :| i <= k < |p.frames| && p.frames[k].blk == c && p.frames[k].txnum == txnum;
      assert m.frames[k] == p.frames[k];
    }
    if Marked(m.frames, txnum, i + 1, c) {
      var k :| i + 1 <= k < |m.frames| && m.frames[k].blk == c && m.frames[k].txnum == txnum;
      assert p.frames[k] == m.frames[k];
    }
  }

  lemma {:induction false} WriteCorrect(p: Pool, i: nat, offset: int, n: int32, txnum: int, lsn: int)
    requires PoolInv(p) && i < |p.frames| && p.frames[i].blk != NOBLOCK && Fits(p.frames[i].page, offset) && txnum >= 0
    ensures var q := WrittenAt(p, i, offset, n, txnum, lsn);
      && PoolInv(q) && q.disk == p.disk
      && forall c :: c in p.disk ==> View(q, c) == if c == p.frames[i].blk then PutInt(View(p, c), offset, n) else View(p, c)
  {
    hide CountFree, FindBlock, IntBytes, PutInt;
    var q := WrittenAt(p, i, offset, n, txnum, lsn);
    CountUpdate(p.frames, i, q.frames[i]);
    forall c | c in p.disk ensures View(q, c) == if c == p.frames[i].blk then PutInt(View(p, c), offset, n) else View(p, c) {
      if c == p.frames[i].blk {
        ViewIs(p, c, i);
        ViewIs(q, c, i);
      } else {
        SameView(p, q, c);
      }
    }
  }

  // ---------------------------------------------------------------- transactions and their pins

  /** BufferList: the pins in the order they were made, and the frame of each pinned block. */
  datatype Pins = Pins(pinned: seq<BlockId>, buffers: map<BlockId, nat>)

  datatype System = System(pool: Pool, lists: seq<Pins>)

  /** The first occurrence of b removed. */
  function Erased(s: seq<BlockId>, b: BlockId): (r: seq<BlockId>)
    ensures multiset(r) == multiset(s) - multiset{b}
  {
    if s == [] then []
    else if s[0] == b then assert s == [b] + s[1..]; s[1..]
    else assert s == [s[0]] + s[1..]; [s[0]] + Erased(s[1..], b)
  }

  function UnpinnedList(l: Pins, b: BlockId): Pins
    requires b in l.buffers
  {
    var pinned := Erased(l.pinned, b);
    Pins(pinned, if b in pinned then l.buffers else l.buffers - {b})
  }

  datatype Action =
    | NewTx
    | Pin(t: nat, b: BlockId)
    | Unpin(t: nat, b: BlockId)
    | Write(t: nat, b: BlockId, offset: int, n: int32, lsn: int)
    | FlushAll(t: nat)

  predicate Enabled(s: System, a: Action) {
    match a
    case NewTx => true
    case Pin(t, b) => t < |s.lists| && b in s.pool.disk && TryToPin(s.pool, b).Some?
    case Unpin(t, b) => t < |s.lists| && (b in s.lists[t].buffers ==> s.lists[t].buffers[b] < |s.pool.frames|)
    case Write(t, b, offset, n, lsn) =>
      && t < |s.lists| && b in s.lists[t].buffers && s.lists[t].buffers[b] < |s.pool.frames|
      && Fits(s.pool.frames[s.lists[t].buffers[b]].page, offset)
    case FlushAll(t) => t < |s.lists|
  }

  function Step(s: System, a: Action): System
    requires Enabled(s, a)
  {
    match a
    case NewTx => s.(lists := s.lists + [Pins([], map[])])
    case Pin(t, b) =>
      var (i, p) := TryToPin(s.pool, b).value;
      var l := s.lists[t];
      System(p, s.lists[t := Pins(l.pinned + [b], l.buffers[b := i])])
    case Unpin(t, b) =>
      var l := s.lists[t];
      if b !in l.buffers then s else System(UnpinnedAt(s.pool, l.buffers[b]), s.lists[t := UnpinnedList(l, b)])
    case Write(t, b, offset, n, lsn) => s.(pool := WrittenAt(s.pool, s.lists[t].buffers[b], offset, n, t, lsn))
    case FlushAll(t) => s.(pool := FlushedAll(s.pool, t, 0))
  }

  /** All pins of b. */
  function PinCount(lists: seq<Pins>, b: BlockId): nat {
    if lists == [] then 0
    else PinCount(lists[..|lists| - 1], b) + multiset(lists[|lists| - 1].pinned)[b]
  }

  lemma {:induction false} PinCountUpdate(lists: seq<Pins>, t: nat, l: Pins, b: BlockId)
    requires t < |lists|
    ensures PinCount(lists[t := l], b) == PinCount(lists, b) + multiset(l.pinned)[b] - multiset(lists[t].pinned)[b]
    decreases |lists|
  {
    var n := |lists| - 1;
    if t < n {
      PinCountUpdate(lists[..n], t, l, b);
      assert lists[t := l][..n] == lists[..n][t := l];
    } else {
      assert lists[t := l][..n] == lists[..n];
    }
  }

  lemma {:induction false} PinCountAtLeast(lists: seq<Pins>, t: nat, b: BlockId)
    requires t < |lists|
    ensures PinCount(lists, b) >= multiset(lists[t].pinned)[b]
    decreases |lists|
  {
    var n := |lists| - 1;
    if t < n {
      PinCountAtLeast(lists[..n], t, b);
    }
  }

  /** A transaction finds each block it has pinned in the frame it remembers. */
  ghost predicate ListOk(l: Pins, frames: seq<Frame>) {
    && (forall b :: b in l.buffers <==> b in l.pinned)
    && forall b :: b in l.buffers ==> l.buffers[b] < |frames| && frames[l.buffers[b]].blk == b && b != NOBLOCK
  }

  ghost predicate AllListsOk(lists: seq<Pins>, frames: seq<Frame>) {
    forall t :: 0 <= t < |lists| ==> ListOk(lists[t], frames)
  }

  ghost predicate SystemInv(s: System) {
    && PoolInv(s.pool)
    && AllListsOk(s.lists, s.pool.frames)
    && forall i :: 0 <= i < |s.pool.frames| && s.pool.frames[i].blk != NOBLOCK ==>
         s.pool.frames[i].pins == PinCount(s.lists, s.pool.frames[i].blk)
  }

  lemma {:induction false} PinListed(s: System, t: nat, b: BlockId, i: nat, q: Pool)
    requires SystemInv(s) && t < |s.lists| && b in s.pool.disk && PinDone(s.pool, b, i, q)
    ensures var l := s.lists[t]; SystemInv(System(q, s.lists[t := Pins(l.pinned + [b], l.buffers[b := i])]))
  {
    hide PinCount, View;
    var p := s.pool;
    var l := s.lists[t];
    var m := Pins(l.pinned + [b], l.buffers[b := i]);
    var n := System(q, s.lists[t := m]);
    forall u | 0 <= u < |n.lists| ensures ListOk(n.lists[u], q.frames) {
      PinKeepsList(s, u, b, i, q);
    }
    forall k | 0 <= k < |q.frames| && q.frames[k].blk != NOBLOCK ensures q.frames[k].pins == PinCount(n.lists, q.frames[k].blk) {
      PinCountUpdate(s.lists, t, m, q.frames[k].blk);
      assert multiset(m.pinned) == multiset(l.pinned) + multiset{b};
      if k == i && p.frames[i].blk != b {
        UnusedCount(s, b, i, q);
      }
      if k != i {
        assert q.frames[k].blk != b;
      }
    }
  }

  /** The frame a pin takes over is in nobody's list. */
  lemma {:induction false} PinKeepsList(s: System, u: nat, b: BlockId, i: nat, q: Pool)
    requires SystemInv(s) && u < |s.lists| && PinDone(s.pool, b, i, q)
    ensures ListOk(s.lists[u], q.frames)
    ensures forall c :: c in s.lists[u].buffers && s.lists[u].buffers[c] == i ==> c == b
  {
    var l := s.lists[u];
    forall c | c in l.buffers && l.buffers[c] == i ensures c == b {
      PinCountAtLeast(s.lists, u, c);
      assert c in multiset(l.pinned);
      assert s.pool.frames[i].pins > 0;
    }
  }

  /** A block without a frame has no pins. */
  lemma {:induction false} UnusedCount(s: System, b: BlockId, i: nat, q: Pool)
    requires SystemInv(s) && PinDone(s.pool, b, i, q) && b != NOBLOCK && s.pool.frames[i].blk != b
    ensures PinCount(s.lists, b) == 0
  {
    forall k | 0 <= k < |q.frames| && k != i ensures s.pool.frames[k].blk != b {
      assert q.frames[k] == s.pool.frames[k];
    }
    assert forall u :: 0 <= u < |s.lists| ==> ListOk(s.lists[u], s.pool.frames);
    NoPins(s.lists, b);
  }

  lemma {:induction false} NoPins(lists: seq<Pins>, b: BlockId)
    requires forall u :: 0 <= u < |lists| ==> b !in lists[u].pinned
    ensures PinCount(lists, b) == 0
  {
    if lists != [] {
      NoPins(lists[..|lists| - 1], b);
    }
  }

  lemma {:induction false} UnpinList(l: Pins, b: BlockId, frames: seq<Frame>, i: nat, f: Frame)
    requires ListOk(l, frames) && b in l.buffers && i < |frames| && f.blk == frames[i].blk
    ensures ListOk(UnpinnedList(l, b), frames[i := f])
    ensures multiset(UnpinnedList(l, b).pinned) == multiset(l.pinned) - multiset{b} && b in multiset(l.pinned)
  {
    var m := UnpinnedList(l, b);
    assert b in multiset(l.pinned);
    forall c ensures c in m.buffers <==> c in m.pinned {
      assert c in m.pinned <==> c in multiset(m.pinned);
      assert c in l.pinned <==> c in multiset(l.pinned);
    }
  }

  lemma {:induction false} UnpinCounts(s: System, t: nat, b: BlockId)
    requires SystemInv(s) && t < |s.lists| && b in s.lists[t].buffers
    ensures var i := s.lists[t].buffers[b]; var frames, lists := UnpinnedAt(s.pool, i).frames, s.lists[t := UnpinnedList(s.lists[t], b)];
      && s.pool.frames[i].pins > 0 && s.pool.frames[i].blk == b != NOBLOCK
      && forall k :: 0 <= k < |frames| && frames[k].blk != NOBLOCK ==> frames[k].pins == PinCount(lists, frames[k].blk)
  {
    hide FrameOk;
    var l := s.lists[t];
    var i, m := l.buffers[b], UnpinnedList(l, b);
    var frames, lists := UnpinnedAt(s.pool, i).frames, s.lists[t := m];
    assert ListOk(l, s.pool.frames);
    UnpinList(l, b, s.pool.frames, i, frames[i]);
    PinCountAtLeast(s.lists, t, b);
    forall k | 0 <= k < |frames| && frames[k].blk != NOBLOCK ensures frames[k].pins == PinCount(lists, frames[k].blk) {
      PinCountUpdate(s.lists, t, m, frames[k].blk);
      assert k != i ==> s.pool.frames[k].blk != b;
    }
  }

  lemma {:induction false} UnpinLists(s: System, t: nat, b: BlockId)
    requires SystemInv(s) && t < |s.lists| && b in s.lists[t].buffers
    ensures s.lists[t].buffers[b] < |s.pool.frames|
    ensures AllListsOk(s.lists[t := UnpinnedList(s.lists[t], b)], UnpinnedAt(s.pool, s.lists[t].buffers[b]).frames)
  {
    var i := s.lists[t].buffers[b];
    assert ListOk(s.lists[t], s.pool.frames);
    UnpinList(s.lists[t], b, s.pool.frames, i, UnpinnedAt(s.pool, i).frames[i]);
    hide UnpinnedList, PoolInv;
    assert forall u :: 0 <= u < |s.lists| && u != t ==> ListOk(s.lists[u], s.pool.frames);
  }

  /** An unpin undoes one pin. */
  lemma {:induction false} UnpinListed(s: System, t: nat, b: BlockId)
    requires SystemInv(s) && t < |s.lists| && b in s.lists[t].buffers && s.lists[t].buffers[b] < |s.pool.frames|
    requires PoolInv(UnpinnedAt(s.pool, s.lists[t].buffers[b]))
    ensures SystemInv(System(UnpinnedAt(s.pool, s.lists[t].buffers[b]), s.lists[t := UnpinnedList(s.lists[t], b)]))
  {
    hide ListOk, PinCount, PoolInv, UnpinnedAt, UnpinnedList;
    UnpinCounts(s, t, b);
    UnpinLists(s, t, b);
  }

  /** Steps that move no block and pin nothing. */
  lemma {:induction false} SameFrames(s: System, q: Pool)
    requires SystemInv(s) && PoolInv(q) && |q.frames| == |s.pool.frames|
    requires forall k :: 0 <= k < |q.frames| ==> q.frames[k].blk == s.pool.frames[k].blk && q.frames[k].pins == s.pool.frames[k].pins
    ensures SystemInv(s.(pool := q))
  {
  }

  /** The effect of a step on the contents of b. */
  function Effect(page: Bytes, a: Action, b: BlockId): (q: Bytes)
    ensures |q| == |page|
  {
    if a.Write? && a.b == b && Fits(page, a.offset) then PutInt(page, a.offset, a.n) else page
  }

  ghost predicate Kept(s: System, n: System, a: Action) {
    && SystemInv(s) && SystemInv(n) && n.pool.disk.Keys == s.pool.disk.Keys
    && forall b :: b in s.pool.disk ==> View(n.pool, b) == Effect(View(s.pool, b), a, b)
  }

  lemma {:induction false} NewTxKeeps(s: System)
    requires SystemInv(s)
    ensures Kept(s, Step(s, NewTx), NewTx)
  {
    var n := Step(s, NewTx);
    forall b ensures PinCount(n.lists, b) == PinCount(s.lists, b) {
      assert n.lists[..|s.lists|] == s.lists;
    }
  }

  lemma {:induction false} PinStepKeeps(s: System, t: nat, b: BlockId)
    requires SystemInv(s) && Enabled(s, Pin(t, b))
    ensures Kept(s, Step(s, Pin(t, b)), Pin(t, b))
  {
    TryToPinCorrect(s.pool, b);
    PinListed(s, t, b, TryToPin(s.pool, b).value.0, TryToPin(s.pool, b).value.1);
  }

  lemma {:induction false} UnpinStepKeeps(s: System, t: nat, b: BlockId)
    requires SystemInv(s) && Enabled(s, Unpin(t, b))
    ensures Kept(s, Step(s, Unpin(t, b)), Unpin(t, b))
  {
    if b in s.lists[t].buffers {
      UnpinCounts(s, t, b);
      UnpinKeeps(s.pool, s.lists[t].buffers[b]);
      UnpinListed(s, t, b);
    }
  }

  lemma {:induction false} WriteStepKeeps(s: System, a: Action)
    requires SystemInv(s) && Enabled(s, a) && a.Write?
    ensures Kept(s, Step(s, a), a)
  {
    hide Assigned, CountFree, Erased, FindBlock, FindFree, FlushedAt, IntBytes, PinCount, PinnedAt;
    var i := s.lists[a.t].buffers[a.b];
    assert ListOk(s.lists[a.t], s.pool.frames);
    WriteCorrect(s.pool, i, a.offset, a.n, a.t, a.lsn);
    ViewIs(s.pool, a.b, i);
    SameFrames(s, WrittenAt(s.pool, i, a.offset, a.n, a.t, a.lsn));
  }

  lemma {:induction false} FlushStepKeeps(s: System, t: nat)
    requires SystemInv(s)
    ensures Kept(s, s.(pool := FlushedAll(s.pool, t, 0)), FlushAll(t))
  {
    FlushAllCorrect(s.pool, t, 0);
    SameFrames(s, FlushedAll(s.pool, t, 0));
  }

  /** Every step keeps the pool coherent and changes no contents but by its own write. */
  lemma {:induction false} StepKeeps(s: System, a: Action)
    requires SystemInv(s) && Enabled(s, a)
    ensures Kept(s, Step(s, a), a)
  {
    match a
    case NewTx => NewTxKeeps(s);
    case Pin(t, b) => PinStepKeeps(s, t, b);
    case Unpin(t, b) => UnpinStepKeeps(s, t, b);
    case Write(t, b, offset, n, lsn) => WriteStepKeeps(s, a);
    case FlushAll(t) => FlushStepKeeps(s, t);
  }

  ghost predicate Runs(s: System, acts: seq<Action>)
    decreases |acts|
  {
    acts == [] || (Enabled(s, acts[0]) && Runs(Step(s, acts[0]), acts[1..]))
  }

  function Run(s: System, acts: seq<Action>): System
    requires Runs(s, acts)
    decreases |acts|
  {
    if acts == [] then s else Run(Step(s, acts[0]), acts[1..])
  }

  /** The writes to b, in order, on a plain page. */
  function Effects(page: Bytes, acts: seq<Action>, b: BlockId): Bytes
    decreases |acts|
  {
    if acts == [] then page else Effects(Effect(page, acts[0], b), acts[1..], b)
  }

  /** Whatever is pinned, unpinned, evicted and flushed in between, a block shows exactly the writes made to
      it; and the pool stays coherent. */
  lemma {:induction false} PoolIsTransparent(s: System, acts: seq<Action>)
    requires SystemInv(s) && Runs(s, acts)
    ensures SystemInv(Run(s, acts)) && Run(s, acts).pool.disk.Keys == s.pool.disk.Keys
    ensures forall b :: b in s.pool.disk ==> View(Run(s, acts).pool, b) == Effects(View(s.pool, b), acts, b)
    decreases |acts|
  {
    if acts != [] {
      StepKeeps(s, acts[0]);
      PoolIsTransparent(Step(s, acts[0]), acts[1..]);
    }
  }

  // ---------------------------------------------------------------- what a commit finds on disk

  /** A frame with b is unmodified or has the mark of t. */
  ghost predicate OnlyMark(frames: seq<Frame>, b: BlockId, t: nat) {
    forall i :: 0 <= i < |frames| && frames[i].blk == b && frames[i].txnum != -1 ==> frames[i].txnum == t
  }

  /** A frame with b that is modified has this record number. */
  ghost predicate OnlyNumber(frames: seq<Frame>, b: BlockId, lsn: int) {
    forall i :: 0 <= i < |frames| && frames[i].blk == b && frames[i].txnum != -1 ==> frames[i].lsn == lsn
  }

  /** No step marks a page but by a write of it. */
  lemma {:induction false} MarkStep(s: System, a: Action, b: BlockId, t: nat)
    requires SystemInv(s) && Enabled(s, a) && b in s.pool.disk && OnlyMark(s.pool.frames, b, t)
    requires a.Write? && a.b == b ==> a.t == t
    ensures OnlyMark(Step(s, a).pool.frames, b, t)
  {
    hide CountFree, Erased, PinCount, PutInt, View;
    match a
    case NewTx =>
    case Pin(u, c) =>
    case Unpin(u, c) =>
    case Write(u, c, offset, n, lsn) =>
      assert ListOk(s.lists[u], s.pool.frames);
    case FlushAll(u) => FlushAllCorrect(s.pool, u, 0);
  }

  lemma {:induction false} NumberStep(s: System, a: Action, b: BlockId, lsn: int)
    requires SystemInv(s) && Enabled(s, a) && b in s.pool.disk && OnlyNumber(s.pool.frames, b, lsn)
    requires !(a.Write? && a.b == b)
    ensures OnlyNumber(Step(s, a).pool.frames, b, lsn)
  {
    hide CountFree, Erased, PinCount, PutInt, View;
    match a
    case NewTx =>
    case Pin(u, c) =>
    case Unpin(u, c) =>
    case Write(u, c, offset, n, l) =>
      assert ListOk(s.lists[u], s.pool.frames);
    case FlushAll(u) => FlushAllCorrect(s.pool, u, 0);
  }

  lemma {:induction false} MarkStays(s: System, acts: seq<Action>, b: BlockId, t: nat)
    requires SystemInv(s) && Runs(s, acts) && b in s.pool.disk && OnlyMark(s.pool.frames, b, t) && t < |s.lists|
    requires forall k :: 0 <= k < |acts| && acts[k].Write? && acts[k].b == b ==> acts[k].t == t
    ensures OnlyMark(Run(s, acts).pool.frames, b, t) && t < |Run(s, acts).lists|
    decreases |acts|
  {
    hide SystemInv, OnlyMark;
    if acts != [] {
      StepKeeps(s, acts[0]);
      MarkStep(s, acts[0], b, t);
      MarkStays(Step(s, acts[0]), acts[1..], b, t);
    }
  }

  lemma {:induction false} NumberStays(s: System, acts: seq<Action>, b: BlockId, lsn: int)
    requires SystemInv(s) && Runs(s, acts) && b in s.pool.disk && OnlyNumber(s.pool.frames, b, lsn)
    requires forall k :: 0 <= k < |acts| ==> !(acts[k].Write? && acts[k].b == b)
    ensures OnlyNumber(Run(s, acts).pool.frames, b, lsn)
    decreases |acts|
  {
    hide SystemInv, OnlyNumber;
    if acts != [] {
      StepKeeps(s, acts[0]);
      NumberStep(s, acts[0], b, lsn);
      NumberStays(Step(s, acts[0]), acts[1..], b, lsn);
    }
  }

  /** A page without a mark is as on disk. */
  lemma {:induction false} Unmarked(p: Pool, t: nat, b: BlockId)
    requires PoolInv(p) && b in p.disk && OnlyMark(p.frames, b, t) && !Marked(p.frames, t, 0, b)
    ensures View(p, b) == p.disk[b]
  {
    var at := FindBlock(p.frames, b, 0);
    if at.Some? {
      assert FrameOk(p.frames[at.value], p.disk);
      assert p.frames[at.value].txnum != t;
    }
  }

  /** A page marked by t alone is on disk after t's flushAll. */
  lemma {:induction false} FlushWrites(p: Pool, t: nat, b: BlockId)
    requires PoolInv(p) && b in p.disk && OnlyMark(p.frames, b, t)
    ensures var q := FlushedAll(p, t, 0); PoolInv(q) && b in q.disk && q.disk[b] == View(q, b) == View(p, b)
  {
    hide PoolInv, OnlyMark, Marked, View;
    FlushAllCorrect(p, t, 0);
    if !Marked(p.frames, t, 0, b) {
      Unmarked(p, t, b);
    }
  }

  /** Forced commit. After a transaction writes a block, and whatever follows, as long as nobody else writes the
      block, flushing the transaction's buffers puts on disk exactly what it wrote there. */
  lemma {:induction false} FlushForces(s: System, w: Action, acts: seq<Action>)
    requires SystemInv(s) && w.Write? && Enabled(s, w) && Runs(Step(s, w), acts)
    requires forall k :: 0 <= k < |acts| && acts[k].Write? && acts[k].b == w.b ==> acts[k].t == w.t
    ensures var n := Run(Step(s, w), acts); Enabled(n, FlushAll(w.t)) && w.b in s.pool.disk && Fits(View(s.pool, w.b), w.offset)
    ensures var f := Step(Run(Step(s, w), acts), FlushAll(w.t));
      && w.b in f.pool.disk
      && f.pool.disk[w.b] == View(f.pool, w.b) == Effects(PutInt(View(s.pool, w.b), w.offset, w.n), acts, w.b)
  {
    hide Run, Runs, PutInt, FlushedAll, PoolInv, AllListsOk, View, Effects, OnlyMark, OnlyNumber, TryToPin, UnpinnedAt, WrittenAt, PinCount;
    WriteMarks(s, w);
    WriteShows(s, w);
    var m := Step(s, w);
    MarkStays(m, acts, w.b, w.t);
    PoolIsTransparent(m, acts);
    FlushWrites(Run(m, acts).pool, w.t, w.b);
  }

  lemma {:induction false} WriteShows(s: System, w: Action)
    requires SystemInv(s) && w.Write? && Enabled(s, w) && w.b in s.pool.disk && Fits(View(s.pool, w.b), w.offset)
    ensures var m := Step(s, w);
      && SystemInv(m) && w.t < |m.lists| && w.b in m.pool.disk && m.pool.disk.Keys == s.pool.disk.Keys
      && View(m.pool, w.b) == PutInt(View(s.pool, w.b), w.offset, w.n)
  {
    hide SystemInv, PutInt, View;
    StepKeeps(s, w);
  }

  lemma {:induction false} WriteMarks(s: System, w: Action)
    requires SystemInv(s) && w.Write? && Enabled(s, w)
    ensures w.b in s.pool.disk && Fits(View(s.pool, w.b), w.offset)
    ensures OnlyMark(Step(s, w).pool.frames, w.b, w.t) && (w.lsn >= 0 ==> OnlyNumber(Step(s, w).pool.frames, w.b, w.lsn))
  {
    hide PutInt;
    var i := s.lists[w.t].buffers[w.b];
    assert ListOk(s.lists[w.t], s.pool.frames);
    ViewIs(s.pool, w.b, i);
  }

  /** Log first. As long as a logged write waits in a buffer, the buffer has the number of its record, up to which a
      flush saves the log. */
  lemma {:induction false} WaitingIsNumbered(s: System, w: Action, acts: seq<Action>, i: nat)
    requires SystemInv(s) && w.Write? && w.lsn >= 0 && Enabled(s, w) && Runs(Step(s, w), acts)
    requires forall k :: 0 <= k < |acts| ==> !(acts[k].Write? && acts[k].b == w.b)
    requires var n := Run(Step(s, w), acts); i < |n.pool.frames| && n.pool.frames[i].blk == w.b
    ensures var f := Run(Step(s, w), acts).pool.frames[i]; f.txnum == -1 || (f.txnum == w.t && f.lsn == w.lsn)
  {
    hide Run, Runs;
    WriteMarks(s, w);
    StepKeeps(s, w);
    MarkStays(Step(s, w), acts, w.b, w.t);
    NumberStays(Step(s, w), acts, w.b, w.lsn);
  }

  /** A block a transaction has pinned stays in its frame until the transaction unpins it. */
  lemma {:induction false} StaysPut(s: System, a: Action, t: nat, b: BlockId)
    requires SystemInv(s) && Enabled(s, a) && t < |s.lists| && b in s.lists[t].buffers && b in Step(s, a).lists[t].buffers
    ensures Step(s, a).lists[t].buffers[b] == s.lists[t].buffers[b]
  {
    assert ListOk(s.lists[t], s.pool.frames);
    FoundAt(s.pool, s.lists[t].buffers[b]);
  }

  lemma {:induction false} ErasedShorter(s: seq<BlockId>, b: BlockId)
    requires b in s
    ensures |Erased(s, b)| < |s|
  {
    assert multiset(Erased(s, b)) == multiset(s) - multiset{b};
    assert |multiset(Erased(s, b))| == |Erased(s, b)| && |multiset(s)| == |s|;
  }

  /** BufferList::unpinAll. */
  function UnpinnedAll(s: System, t: nat): (r: System)
    requires t < |s.lists|
    decreases |s.lists[t].pinned|
  {
    var l := s.lists[t];
    if l.pinned == [] || !Enabled(s, Unpin(t, l.pinned[0])) || l.pinned[0] !in l.buffers then s
    else
      ErasedShorter(l.pinned, l.pinned[0]);
      UnpinnedAll(Step(s, Unpin(t, l.pinned[0])), t)
  }

  lemma {:induction false} UnpinFirst(s: System, t: nat)
    requires SystemInv(s) && t < |s.lists| && s.lists[t].pinned != []
    ensures var b := s.lists[t].pinned[0];
      && b in s.lists[t].buffers && Enabled(s, Unpin(t, b))
      && Kept(s, Step(s, Unpin(t, b)), Unpin(t, b))
      && Step(s, Unpin(t, b)).lists == s.lists[t := UnpinnedList(s.lists[t], b)]
      && |UnpinnedList(s.lists[t], b).pinned| < |s.lists[t].pinned|
      && UnpinnedAll(s, t) == UnpinnedAll(Step(s, Unpin(t, b)), t)
  {
    var b := s.lists[t].pinned[0];
    assert ListOk(s.lists[t], s.pool.frames);
    UnpinStepKeeps(s, t, b);
    ErasedShorter(s.lists[t].pinned, b);
  }

  /** It gives back every pin of t, and no other. */
  lemma {:induction false} UnpinAllCorrect(s: System, t: nat)
    requires SystemInv(s) && t < |s.lists|
    ensures var n := UnpinnedAll(s, t);
      && SystemInv(n) && n.lists == s.lists[t := Pins([], map[])]
      && n.pool.disk.Keys == s.pool.disk.Keys
      && forall b :: b in s.pool.disk ==> View(n.pool, b) == View(s.pool, b)
    decreases |s.lists[t].pinned|
  {
    hide SystemInv, Kept, View, UnpinnedAll, Enabled, Step, UnpinnedList;
    if s.lists[t].pinned == [] {
      UnpinNone(s, t);
    } else {
      var b := s.lists[t].pinned[0];
      UnpinFirst(s, t);
      var m := Step(s, Unpin(t, b));
      KeptViews(s, m, t, b);
      UnpinAllCorrect(m, t);
      assert m.lists[t := Pins([], map[])] == s.lists[t := Pins([], map[])];
    }
  }

  lemma {:induction false} UnpinNone(s: System, t: nat)
    requires SystemInv(s) && t < |s.lists| && s.lists[t].pinned == []
    ensures UnpinnedAll(s, t) == s && s.lists == s.lists[t := Pins([], map[])]
  {
    assert ListOk(s.lists[t], s.pool.frames);
    assert s.lists[t].buffers == map[];
  }

  lemma {:induction false} KeptViews(s: System, n: System, t: nat, b: BlockId)
    requires Kept(s, n, Unpin(t, b))
    ensures SystemInv(n) && n.pool.disk.Keys == s.pool.disk.Keys
    ensures forall c :: c in s.pool.disk ==> View(n.pool, c) == View(s.pool, c)
  {
    hide View, SystemInv;
  }

  /** BufferMgr's constructor. */
  function NewPool(n: nat, disk: map<BlockId, Bytes>): Pool {
    Pool(seq(n, _ => Frame([], NOBLOCK, 0, -1, -1)), n, disk)
  }

  lemma {:induction false} AllFree(frames: seq<Frame>)
    requires forall i :: 0 <= i < |frames| ==> frames[i].pins == 0
    ensures CountFree(frames) == |frames|
  {
    if frames != [] {
      AllFree(frames[..|frames| - 1]);
    }
  }

  lemma {:induction false} NewPoolOk(n: nat, disk: map<BlockId, Bytes>)
    requires NOBLOCK !in disk
    ensures SystemInv(System(NewPool(n, disk), [])) && forall b :: b in disk ==> View(NewPool(n, disk), b) == disk[b]
  {
    AllFree(NewPool(n, disk).frames);
  }
}

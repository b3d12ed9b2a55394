/** The buffer manager's objects (src/buffer/Buffer.cpp, src/buffer/BufferMgr.cpp), proved against the values
    of module BufferPool. */
module BufferMgrs {
  import opened Options
  import opened Pages
  import opened RecoveryLog
  import opened BufferPool

  class FileMgr {
    var blocks: map<BlockId, Bytes>

    constructor (blocks: map<BlockId, Bytes>)
      ensures this.blocks == blocks
    {
      this.blocks := blocks;
    }
  }

  class Buffer {
    const fm: FileMgr
    var page: Bytes
    var blk: BlockId
    var pins: int
    var txnum: int
    var lsn: int

    constructor (fm: FileMgr)
      ensures this.fm == fm && AsFrame() == Frame([], NOBLOCK, 0, -1, -1)
    {
      this.fm := fm;
      page, blk, pins, txnum, lsn := [], NOBLOCK, 0, -1, -1;
    }

    function AsFrame(): Frame
      reads this
    {
      Frame(page, blk, pins, txnum, lsn)
    }

    method SetModified(txnum: int, lsn: int)
      modifies this
      ensures AsFrame() == old(AsFrame()).(txnum := txnum, lsn := if lsn >= 0 then lsn else old(this.lsn))
    {
      this.txnum := txnum;
      if lsn >= 0 {
        this.lsn := lsn;
      }
    }

    method Flush()
      modifies this, fm
      ensures AsFrame() == Flushed(old(AsFrame())) && fm.blocks == FlushedDisk(old(AsFrame()), old(fm.blocks))
    {
      if txnum >= 0 {
        fm.blocks := fm.blocks[blk := page];
        txnum := -1;
      }
    }

    method AssignToBlock(b: BlockId)
      requires b in fm.blocks
      modifies this, fm
      ensures fm.blocks == FlushedDisk(old(AsFrame()), old(fm.blocks))
      ensures b in fm.blocks && AsFrame() == Flushed(old(AsFrame())).(blk := b, page := fm.blocks[b], pins := 0)
    {
      Flush();
      blk := b;
      page := fm.blocks[b];
      pins := 0;
    }
  }

  class BufferMgr {
    const fm: FileMgr
    const pool: seq<Buffer>
    var numAvailable: int

    ghost predicate Valid()
      reads this, pool
    {
      && (forall i :: 0 <= i < |pool| ==> pool[i].fm == fm)
      && forall i, j :: 0 <= i < j < |pool| ==> pool[i] != pool[j]
    }

    /** The manager's state as a value. */
    ghost function AsPool(): (p: Pool)
      reads this, fm, pool
      ensures |p.frames| == |pool| && forall i :: 0 <= i < |pool| ==> p.frames[i] == pool[i].AsFrame()
    {
      Pool(seq(|pool|, i requires 0 <= i < |pool| reads pool => pool[i].AsFrame()), numAvailable, fm.blocks)
    }

    constructor (fm: FileMgr, buffSize: nat)
      ensures Valid() && this.fm == fm && AsPool() == NewPool(buffSize, fm.blocks)
      ensures forall i :: 0 <= i < |pool| ==> fresh(pool[i])
    {
      var buffers: seq<Buffer> := [];
      while |buffers| < buffSize
        invariant |buffers| <= buffSize
        invariant forall i :: 0 <= i < |buffers| ==> fresh(buffers[i]) && buffers[i].fm == fm
        invariant forall i :: 0 <= i < |buffers| ==> buffers[i].AsFrame() == Frame([], NOBLOCK, 0, -1, -1)
        invariant forall i, j :: 0 <= i < j < |buffers| ==> buffers[i] != buffers[j]
      {
        var buffer := new Buffer(fm);
        buffers := buffers + [buffer];
      }
      this.fm := fm;
      this.pool := buffers;
      numAvailable := buffSize;
      new;
      assert AsPool().frames == NewPool(buffSize, fm.blocks).frames;
    }

    method FindExistingBuffer(b: BlockId) returns (at: Option<nat>)
      ensures at == FindBlock(AsPool().frames, b, 0)
    {
      ghost var frames := AsPool().frames;
      var i := 0;
      while i < |pool|
        invariant 0 <= i <= |pool| && FindBlock(frames, b, 0) == FindBlock(frames, b, i)
      {
        if pool[i].blk == b {
          return Some(i);
        }
        i := i + 1;
      }
      at := None;
    }

    method ChooseUnpinnedBuffer() returns (at: Option<nat>)
      ensures at == FindFree(AsPool().frames, 0)
    {
      ghost var frames := AsPool().frames;
      var i := 0;
      while i < |pool|
        invariant 0 <= i <= |pool| && FindFree(frames, 0) == FindFree(frames, i)
      {
        if pool[i].pins <= 0 {
          return Some(i);
        }
        i := i + 1;
      }
      at := None;
    }

    method Take(i: nat, b: BlockId)
      requires Valid() && i < |pool| && b in fm.blocks
      modifies pool[i], fm
      ensures Valid() && AsPool() == Assigned(old(AsPool()), i, b)
    {
      ghost var p := AsPool();
      pool[i].AssignToBlock(b);
      ghost var q := Assigned(p, i, b);
      assert AsPool().frames == q.frames;
    }

    method PinAt(i: nat)
      requires Valid() && i < |pool|
      modifies this, pool[i]
      ensures Valid() && AsPool() == PinnedAt(old(AsPool()), i)
    {
      ghost var p := AsPool();
      if pool[i].pins <= 0 {
        numAvailable := numAvailable - 1;
      }
      pool[i].pins := pool[i].pins + 1;
      assert AsPool().frames == PinnedAt(p, i).frames;
    }

    method TryToPin(b: BlockId) returns (at: Option<nat>)
      requires Valid() && b in fm.blocks
      modifies this, fm, pool
      ensures Valid()
      ensures at == None ==> BufferPool.TryToPin(old(AsPool()), b) == None && AsPool() == old(AsPool())
      ensures at.Some? ==> BufferPool.TryToPin(old(AsPool()), b) == Some((at.value, AsPool()))
    {
      at := FindExistingBuffer(b);
      if at == None {
        at := ChooseUnpinnedBuffer();
        if at == None {
          return;
        }
        Take(at.value, b);
      }
      PinAt(at.value);
    }

    method Unpin(i: nat)
      requires Valid() && i < |pool|
      modifies this, pool[i]
      ensures Valid() && AsPool() == UnpinnedAt(old(AsPool()), i)
    {
      ghost var p := AsPool();
      pool[i].pins := pool[i].pins - 1;
      if pool[i].pins <= 0 {
        numAvailable := numAvailable + 1;
      }
      assert AsPool().frames == UnpinnedAt(p, i).frames;
    }

    /** Transaction::setInt on a pinned buffer: the value goes into the page, the transaction's mark onto it. */
    method WriteAt(i: nat, offset: int, n: int32, txnum: int, lsn: int)
      requires Valid() && i < |pool| && Fits(pool[i].page, offset)
      modifies pool[i]
      ensures Valid() && AsPool() == WrittenAt(old(AsPool()), i, offset, n, txnum, lsn)
    {
      ghost var p := AsPool();
      pool[i].page := PutInt(pool[i].page, offset, n);
      pool[i].SetModified(txnum, lsn);
      assert AsPool().frames == WrittenAt(p, i, offset, n, txnum, lsn).frames;
    }

    method FlushOne(i: nat)
      requires Valid() && i < |pool|
      modifies fm, pool[i]
      ensures Valid() && AsPool() == FlushedAt(old(AsPool()), i)
    {
      ghost var p := AsPool();
      pool[i].Flush();
      assert AsPool().frames == FlushedAt(p, i).frames;
    }

    method FlushAll(txnum: int)
      requires Valid()
      modifies fm, pool
      ensures Valid() && AsPool() == FlushedAll(old(AsPool()), txnum, 0)
    {
      ghost var all := FlushedAll(AsPool(), txnum, 0);
      var i := 0;
      while i < |pool|
        invariant 0 <= i <= |pool| && Valid() && numAvailable == old(numAvailable)
        invariant FlushedAll(AsPool(), txnum, i) == all
      {
        if pool[i].txnum == txnum {
          FlushOne(i);
        }
        i := i + 1;
      }
    }
  }
}

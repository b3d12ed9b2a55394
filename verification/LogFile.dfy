/** The log file (src/logging): records are packed from the right end of a block towards its header, which
    holds the position of the newest one, and are read back newest first. */
module LogFile {
  import opened Pages

  /** Length-prefixed records fill the page from pos to its end. */
  ghost predicate Packed(p: Bytes, pos: int)
    decreases |p| - pos
  {
    pos == |p| || (HasBytes(p, pos) && Packed(p, pos + 4 + GetInt(p, pos)))
  }

  /** The records from pos on, in page order: newest first. */
  ghost function RecordsFrom(p: Bytes, pos: int): seq<Bytes>
    requires Packed(p, pos)
    decreases |p| - pos
  {
    if pos == |p| then [] else [GetBytes(p, pos)] + RecordsFrom(p, pos + 4 + GetInt(p, pos))
  }

  ghost predicate LogPage(p: Bytes, blockSize: nat) {
    && |p| == blockSize && Fits(p, 0)
    && 4 <= GetInt(p, 0) <= |p|
    && Packed(p, GetInt(p, 0))
  }

  ghost function Records(p: Bytes): seq<Bytes>
    requires LogPage(p, |p|)
  {
    RecordsFrom(p, GetInt(p, 0))
  }

  /** A log on disk: only the last block may hold no record. */
  ghost predicate LogBlocks(blocks: seq<Bytes>, blockSize: nat) {
    && (forall k :: 0 <= k < |blocks| ==> LogPage(blocks[k], blockSize))
    && (forall k :: 0 <= k < |blocks| - 1 ==> GetInt(blocks[k], 0) < blockSize)
  }

  /** All records of a log, newest first. */
  ghost function AllRecords(blocks: seq<Bytes>): seq<Bytes>
    requires forall k :: 0 <= k < |blocks| ==> LogPage(blocks[k], |blocks[k]|)
  {
    if blocks == [] then []
    else Records(blocks[|blocks| - 1]) + AllRecords(blocks[..|blocks| - 1])
  }

  lemma {:induction false} SameTail(p: Bytes, q: Bytes, pos: int)
    requires Packed(p, pos) && |p| == |q| && 0 <= pos <= |p| && p[pos..] == q[pos..]
    ensures Packed(q, pos) && RecordsFrom(q, pos) == RecordsFrom(p, pos)
    decreases |p| - pos
  {
    if pos < |p| {
      assert p[pos..][..4] == p[pos..pos + 4] && q[pos..][..4] == q[pos..pos + 4];
      var n := GetInt(p, pos);
      assert p[pos..][4..4 + n] == GetBytes(p, pos) && q[pos..][4..4 + n] == GetBytes(q, pos);
      assert p[pos..][4 + n..] == p[pos + 4 + n..] && q[pos..][4 + n..] == q[pos + 4 + n..];
      SameTail(p, q, pos + 4 + n);
    }
  }

  /** The page with one more record in front of its boundary. */
  function Prepended(p: Bytes, rec: Bytes): (q: Bytes)
    requires Fits(p, 0) && 8 + |rec| <= GetInt(p, 0) <= |p|
  {
    var recPos := GetInt(p, 0) - (|rec| + 4);
    PutInt(PutBytes(p, recPos, rec), 0, recPos)
  }

  lemma {:induction false} PrependedIs(p: Bytes, rec: Bytes)
    requires LogPage(p, |p|) && 8 + |rec| <= GetInt(p, 0)
    ensures LogPage(Prepended(p, rec), |p|) && GetInt(Prepended(p, rec), 0) < |p|
    ensures Records(Prepended(p, rec)) == [rec] + Records(p)
  {
    hide Unsigned;
    var boundary := GetInt(p, 0);
    var recPos := boundary - (|rec| + 4);
    var w := PutBytes(p, recPos, rec);
    var q := Prepended(p, rec);
    GetPut(w, 0, recPos);
    GetPutBytes(p, recPos, rec);
    assert q[recPos..recPos + 4] == w[recPos..recPos + 4];
    assert q[recPos + 4..recPos + 4 + |rec|] == w[recPos + 4..recPos + 4 + |rec|];
    assert q[boundary..] == p[boundary..];
    SameTail(p, q, boundary);
  }

  /** The page with an empty record area; whatever else it holds. */
  lemma {:induction false} EmptiedIs(p: Bytes)
    requires 4 <= |p| < 0x8000_0000
    ensures var q := PutInt(p, 0, |p|); LogPage(q, |p|) && GetInt(q, 0) == |p| && Records(q) == []
  {
    GetPut(p, 0, |p|);
  }

  lemma {:induction false} AllRecordsAppend(blocks: seq<Bytes>, p: Bytes)
    requires forall k :: 0 <= k < |blocks| ==> LogPage(blocks[k], |blocks[k]|)
    requires LogPage(p, |p|)
    ensures AllRecords(blocks + [p]) == Records(p) + AllRecords(blocks)
  {
    assert (blocks + [p])[..|blocks|] == blocks;
  }

  lemma {:induction false} AllRecordsLast(blocks: seq<Bytes>)
    requires blocks != [] && forall k :: 0 <= k < |blocks| ==> LogPage(blocks[k], |blocks[k]|)
    ensures AllRecords(blocks) == Records(blocks[|blocks| - 1]) + AllRecords(blocks[..|blocks| - 1])
  {
  }

  /** The state of a log manager: the records of the page not yet written are the newest ones. */
  ghost predicate LogState(blockSize: nat, blocks: seq<Bytes>, p: Bytes, latestLsn: nat, lastSaveLsn: nat) {
    && 8 <= blockSize < 0x8000_0000
    && blocks != [] && LogBlocks(blocks, blockSize) && LogPage(p, blockSize)
    && lastSaveLsn <= latestLsn
    && latestLsn - lastSaveLsn <= |Records(p)|
    && Records(p)[latestLsn - lastSaveLsn..] == Records(blocks[|blocks| - 1])
  }

  /** The log as appended, newest first. */
  ghost function LogOf(blocks: seq<Bytes>, p: Bytes): seq<Bytes>
    requires blocks != [] && LogBlocks(blocks, |p|) && LogPage(p, |p|)
  {
    Records(p) + AllRecords(blocks[..|blocks| - 1])
  }

  /** The log on disk is always exactly the records up to lastSaveLsn. */
  lemma {:induction false} SavedPart(blockSize: nat, blocks: seq<Bytes>, p: Bytes, latestLsn: nat, lastSaveLsn: nat)
    requires LogState(blockSize, blocks, p, latestLsn, lastSaveLsn)
    ensures latestLsn - lastSaveLsn <= |LogOf(blocks, p)| && AllRecords(blocks) == LogOf(blocks, p)[latestLsn - lastSaveLsn..]
  {
    AllRecordsLast(blocks);
  }

  lemma {:induction false} WrittenState(blockSize: nat, blocks: seq<Bytes>, p: Bytes, latestLsn: nat, lastSaveLsn: nat)
    requires LogState(blockSize, blocks, p, latestLsn, lastSaveLsn)
    ensures var w := blocks[|blocks| - 1 := p];
      LogState(blockSize, w, p, latestLsn, latestLsn) && LogOf(w, p) == LogOf(blocks, p) == AllRecords(w)
  {
    var w := blocks[|blocks| - 1 := p];
    assert w[..|w| - 1] == blocks[..|blocks| - 1];
    AllRecordsLast(w);
  }

  /** After flush and appendNewBlock. */
  lemma {:induction false} StartedState(blockSize: nat, w: seq<Bytes>, p: Bytes, latestLsn: nat)
    requires LogState(blockSize, w, p, latestLsn, latestLsn) && LogOf(w, p) == AllRecords(w) && GetInt(p, 0) < blockSize && w[|w| - 1] == p
    ensures var q := PutInt(p, 0, blockSize); LogState(blockSize, w + [q], q, latestLsn, latestLsn) && LogOf(w + [q], q) == LogOf(w, p)
    ensures GetInt(PutInt(p, 0, blockSize), 0) == blockSize
  {
    var q := PutInt(p, 0, blockSize);
    EmptiedIs(p);
    assert (w + [q])[..|w|] == w;
  }

  lemma {:induction false} AppendedState(blockSize: nat, blocks: seq<Bytes>, p: Bytes, latestLsn: nat, lastSaveLsn: nat, rec: Bytes)
    requires LogState(blockSize, blocks, p, latestLsn, lastSaveLsn) && |rec| + 8 <= GetInt(p, 0)
    ensures var q := Prepended(p, rec);
      LogState(blockSize, blocks, q, latestLsn + 1, lastSaveLsn) && LogOf(blocks, q) == [rec] + LogOf(blocks, p)
  {
    hide LogBlocks, AllRecords, Prepended;
    PrependedIs(p, rec);
  }

  lemma {:induction false} OpenedState(blockSize: nat, blocks: seq<Bytes>)
    requires 8 <= blockSize < 0x8000_0000 && blocks != [] && LogBlocks(blocks, blockSize)
    ensures var p := blocks[|blocks| - 1]; LogState(blockSize, blocks, p, 0, 0) && LogOf(blocks, p) == AllRecords(blocks)
  {
    AllRecordsLast(blocks);
  }

  lemma {:induction false} FirstPage(p: Bytes, blockSize: nat)
    requires LogPage(p, blockSize) && Records(p) == []
    ensures LogBlocks([p], blockSize) && AllRecords([p]) == AllRecords([]) == []
  {
    assert [p][..0] == [];
  }

  lemma {:induction false} BlockSize(blocks: seq<Bytes>, blockSize: nat, k: nat)
    requires LogBlocks(blocks, blockSize) && k < |blocks|
    ensures LogPage(blocks[k], blockSize) && |blocks[k]| == blockSize
  {
  }

  class LogMgr {
    const blockSize: nat
    const logPage: PageBuffer
    /** The log file. */
    var blocks: seq<Bytes>
    var currBlk: nat
    var latestLsn: nat
    var lastSaveLsn: nat
    /** The log file after each write to the disk so far. */
    ghost var writes: seq<seq<Bytes>>

    ghost predicate Valid()
      reads this, logPage.bb
    {
      currBlk + 1 == |blocks| && LogState(blockSize, blocks, logPage.bb[..], latestLsn, lastSaveLsn)
    }

    /** The log as appended, newest first. */
    ghost function Log(): seq<Bytes>
      requires Valid()
      reads this, logPage.bb
    {
      LogOf(blocks, logPage.bb[..])
    }

    /** Opening: a new file gets its first block; otherwise the last block is read back. */
    constructor (blockSize: nat, file: seq<Bytes>)
      requires 8 <= blockSize < 0x8000_0000 && LogBlocks(file, blockSize)
      ensures Valid() && fresh(logPage.bb) && this.blockSize == blockSize
      ensures Log() == AllRecords(blocks) == AllRecords(file) && latestLsn == lastSaveLsn == 0
    {
      hide AllRecords, Records, LogBlocks, LogState, LogOf, LogPage, PutInt, GetInt;
      this.blockSize := blockSize;
      this.logPage := new PageBuffer(blockSize);
      this.blocks := file;
      this.currBlk := 0;
      this.latestLsn := 0;
      this.lastSaveLsn := 0;
      this.writes := [];
      new;
      if |blocks| == 0 {
        currBlk := AppendNewBlock();
        assert blocks == [logPage.bb[..]];
        FirstPage(logPage.bb[..], blockSize);
      } else {
        currBlk := |blocks| - 1;
        BlockSize(blocks, blockSize, currBlk);
        logPage.Fill(blocks[currBlk]);
      }
      OpenedState(blockSize, blocks);
    }

    /** The file grows by a zero block, which then gets the page with an empty record area. */
    method AppendNewBlock() returns (blk: nat)
      requires 8 <= blockSize < 0x8000_0000 && logPage.bb.Length == blockSize
      modifies this`blocks, this`writes, logPage.bb
      ensures logPage.bb[..] == PutInt(old(logPage.bb[..]), 0, blockSize)
      ensures writes == old(writes) + [old(blocks) + [seq(blockSize, _ => 0)], blocks]
      ensures blocks == old(blocks) + [logPage.bb[..]] && blk == |old(blocks)|
      ensures LogPage(logPage.bb[..], blockSize) && Records(logPage.bb[..]) == [] && GetInt(logPage.bb[..], 0) == blockSize
    {
      EmptiedIs(logPage.bb[..]);
      blk := |blocks|;
      blocks := blocks + [seq(blockSize, _ => 0)];
      writes := writes + [blocks];
      logPage.SetInt(0, blockSize);
      blocks := blocks[blk := logPage.bb[..]];
      writes := writes + [blocks];
    }

    method WritePage()
      requires Valid()
      modifies this`blocks, this`writes, this`lastSaveLsn
      ensures Valid() && Log() == old(Log()) == AllRecords(blocks) && lastSaveLsn == latestLsn
      ensures blocks == old(blocks)[currBlk := logPage.bb[..]] && writes == old(writes) + [blocks]
    {
      WrittenState(blockSize, blocks, logPage.bb[..], latestLsn, lastSaveLsn);
      blocks := blocks[currBlk := logPage.bb[..]];
      writes := writes + [blocks];
      lastSaveLsn := latestLsn;
    }

    /** flush(lsn): afterwards the record lsn is on disk, and no record is lost or reordered. */
    method Flush(lsn: int)
      requires Valid() && lsn <= latestLsn
      modifies this`blocks, this`writes, this`lastSaveLsn
      ensures Valid() && Log() == old(Log())
      ensures lastSaveLsn == if lsn >= old(lastSaveLsn) then latestLsn else old(lastSaveLsn)
      ensures lsn <= lastSaveLsn
      ensures lsn < old(lastSaveLsn) ==> blocks == old(blocks) && lastSaveLsn == old(lastSaveLsn)
      ensures lsn >= old(lastSaveLsn) ==> AllRecords(blocks) == Log() && lastSaveLsn == latestLsn
    {
      if lsn >= lastSaveLsn {
        WritePage();
      }
    }

    /** A record that fits an empty block is appended in memory; a full page is written out first, and AppendWrites are
        the writes. */
    method Append(logRec: Bytes) returns (lsn: nat)
      requires Valid() && |logRec| + 8 <= blockSize
      modifies this, logPage.bb
      ensures Valid() && Log() == [logRec] + old(Log())
      ensures lsn == latestLsn == old(latestLsn) + 1
      ensures lastSaveLsn == old(lastSaveLsn) || lastSaveLsn == old(latestLsn)
      ensures old(currBlk) <= currBlk && blocks[..old(currBlk)] == old(blocks[..currBlk])
      ensures var w := AppendWrites(old(blocks), old(logPage.bb[..]), logRec); writes == old(writes) + w[1..] && blocks == w[|w| - 1]
    {
      assert logPage.bb[0..4] == logPage.bb[..][0..4];
      var boundary := BytesInt(logPage.bb[0..4]);
      var bytesNeeded := |logRec| + 4;
      if boundary - bytesNeeded < 4 {
        StartBlock();
      }
      AppendHere(logRec);
      lsn := latestLsn;
    }

    /** flush and appendNewBlock. */
    method StartBlock()
      requires Valid() && GetInt(logPage.bb[..], 0) < blockSize
      modifies this`blocks, this`writes, this`currBlk, this`lastSaveLsn, logPage.bb
      ensures Valid() && Log() == old(Log()) && latestLsn == old(latestLsn)
      ensures var w := old(blocks)[|old(blocks)| - 1 := old(logPage.bb[..])];
        writes == old(writes) + [w, w + [seq(blockSize, _ => 0)], blocks] && blocks == w + [PutInt(old(logPage.bb[..]), 0, blockSize)]
      ensures lastSaveLsn == latestLsn && GetInt(logPage.bb[..], 0) == blockSize
      ensures currBlk == old(currBlk) + 1 && blocks[..old(currBlk)] == old(blocks[..currBlk])
    {
      WritePage();
      StartedState(blockSize, blocks, logPage.bb[..], latestLsn);
      currBlk := AppendNewBlock();
    }

    method AppendHere(logRec: Bytes)
      requires Valid() && |logRec| + 8 <= GetInt(logPage.bb[..], 0)
      modifies this`latestLsn, logPage.bb
      ensures Valid() && Log() == [logRec] + old(Log()) && latestLsn == old(latestLsn) + 1
    {
      hide Fits, PutBytes, PutInt, Unsigned;
      ghost var p := logPage.bb[..];
      AppendedState(blockSize, blocks, p, latestLsn, lastSaveLsn, logRec);
      assert logPage.bb[0..4] == p[0..4];
      var recPos := BytesInt(logPage.bb[0..4]) - (|logRec| + 4);
      logPage.SetBytes(recPos, logRec);
      logPage.SetInt(0, recPos);
      latestLsn := latestLsn + 1;
      assert logPage.bb[..] == Prepended(p, logRec);
    }

    /** iterator(): the log is written out first, so the iterator sees all of it. */
    method Iterator() returns (it: LogIterator)
      requires Valid()
      modifies this`blocks, this`writes, this`lastSaveLsn
      ensures Valid() && Log() == old(Log()) && lastSaveLsn == latestLsn
      ensures it.Valid() && fresh(it) && fresh(it.page.bb) && it.Rest() == Log()
    {
      hide AllRecords, Records, LogPage, LogOf, Unsigned, BytesInt;
      WritePage();
      assert blocks[..currBlk + 1] == blocks;
      it := new LogIterator(blockSize, blocks, currBlk);
    }
  }

  ghost predicate IterState(blockSize: nat, blocks: seq<Bytes>, blk: nat, p: Bytes, pos: int) {
    && 4 <= blockSize < 0x8000_0000
    && LogBlocks(blocks, blockSize) && blk < |blocks|
    && |p| == blockSize && 4 <= pos <= blockSize && Packed(p, pos)
  }

  ghost function RestOf(blocks: seq<Bytes>, blk: nat, p: Bytes, pos: int): seq<Bytes>
    requires IterState(|p|, blocks, blk, p, pos)
  {
    RecordsFrom(p, pos) + AllRecords(blocks[..blk])
  }

  /** A block is opened at its boundary. */
  lemma {:induction false} MovedState(blockSize: nat, blocks: seq<Bytes>, b: nat)
    requires 4 <= blockSize < 0x8000_0000 && LogBlocks(blocks, blockSize) && b < |blocks|
    ensures IterState(blockSize, blocks, b, blocks[b], GetInt(blocks[b], 0))
    ensures RestOf(blocks, b, blocks[b], GetInt(blocks[b], 0)) == AllRecords(blocks[..b + 1])
  {
    assert blocks[..b + 1] == blocks[..b] + [blocks[b]];
    AllRecordsAppend(blocks[..b], blocks[b]);
  }

  /** Records are left exactly when the page has one or an earlier block exists. */
  lemma {:induction false} MoreState(blocks: seq<Bytes>, blk: nat, p: Bytes, pos: int)
    requires IterState(|p|, blocks, blk, p, pos)
    ensures RestOf(blocks, blk, p, pos) != [] <==> pos < |p| || blk > 0
  {
    if blk > 0 {
      assert GetInt(blocks[blk - 1], 0) < |p|;
      assert blocks[..blk][..blk - 1] == blocks[..blk - 1];
      AllRecordsLast(blocks[..blk]);
    }
  }

  lemma {:induction false} NextState(blocks: seq<Bytes>, blk: nat, p: Bytes, pos: int)
    requires IterState(|p|, blocks, blk, p, pos) && pos < |p|
    ensures HasBytes(p, pos) && IterState(|p|, blocks, blk, p, pos + 4 + GetInt(p, pos))
    ensures RestOf(blocks, blk, p, pos) == [GetBytes(p, pos)] + RestOf(blocks, blk, p, pos + 4 + GetInt(p, pos))
  {
  }

  /** The blocks before the current one are never written again, so the iterator keeps the file it was
      created on. */
  class LogIterator {
    const blockSize: nat
    const blocks: seq<Bytes>
    const page: PageBuffer
    var blk: nat
    var currPos: int

    ghost predicate Valid()
      reads this, page.bb
    {
      IterState(blockSize, blocks, blk, page.bb[..], currPos)
    }

    /** The records still to come. */
    ghost function Rest(): seq<Bytes>
      requires Valid()
      reads this, page.bb
    {
      RestOf(blocks, blk, page.bb[..], currPos)
    }

    constructor (blockSize: nat, blocks: seq<Bytes>, blk: nat)
      requires 4 <= blockSize < 0x8000_0000 && LogBlocks(blocks, blockSize) && blk < |blocks|
      ensures Valid() && fresh(page.bb) && Rest() == AllRecords(blocks[..blk + 1])
      ensures this.blocks == blocks
    {
      this.blockSize := blockSize;
      this.blocks := blocks;
      this.page := new PageBuffer(blockSize);
      this.blk := blk;
      this.currPos := 0;
      new;
      MoveToBlock(blk);
    }

    method MoveToBlock(b: nat)
      requires 4 <= blockSize < 0x8000_0000 && LogBlocks(blocks, blockSize) && b < |blocks| && page.bb.Length == blockSize
      modifies this, page.bb
      ensures Valid() && blk == b && page.bb[..] == blocks[b] && currPos == GetInt(blocks[b], 0)
      ensures Rest() == AllRecords(blocks[..b + 1])
    {
      blk := b;
      page.Fill(blocks[b]);
      assert page.bb[0..4] == blocks[b][0..4];
      var boundary := BytesInt(page.bb[0..4]);
      currPos := boundary;
      MovedState(blockSize, blocks, b);
    }

    /** True exactly while records are left. */
    method HasNext() returns (more: bool)
      requires Valid()
      ensures more == (Rest() != [])
    {
      more := currPos < blockSize || blk > 0;
      MoreState(blocks, blk, page.bb[..], currPos);
    }

    method Next() returns (rec: Bytes)
      requires Valid() && Rest() != []
      modifies this, page.bb
      ensures Valid() && [rec] + Rest() == old(Rest())
    {
      MoreState(blocks, blk, page.bb[..], currPos);
      if currPos == blockSize {
        PreviousBlock();
      }
      rec := ReadHere();
    }

    method PreviousBlock()
      requires Valid() && currPos == blockSize && blk > 0
      modifies this, page.bb
      ensures Valid() && Rest() == old(Rest()) && currPos < blockSize
    {
      assert GetInt(blocks[blk - 1], 0) < blockSize;
      MoveToBlock(blk - 1);
    }

    method ReadHere() returns (rec: Bytes)
      requires Valid() && currPos < blockSize
      modifies this`currPos
      ensures Valid() && [rec] + Rest() == old(Rest())
    {
      ghost var p := page.bb[..];
      NextState(blocks, blk, p, currPos);
      assert p[currPos..currPos + 4] == page.bb[currPos..currPos + 4];
      var n := BytesInt(page.bb[currPos..currPos + 4]);
      rec := page.bb[currPos + 4..currPos + 4 + n];
      assert rec == GetBytes(p, currPos);
      currPos := currPos + 4 + |rec|;
    }
  }

  /** The loop every reader of the log runs. */
  method Drain(it: LogIterator) returns (recs: seq<Bytes>)
    requires it.Valid()
    modifies it, it.page.bb
    ensures it.Valid() && recs == old(it.Rest())
  {
    recs := [];
    ghost var all := it.Rest();
    var more := it.HasNext();
    while more
      invariant it.Valid()
      invariant recs + it.Rest() == all && more == (it.Rest() != [])
      decreases |all| - |recs|
    {
      var rec := it.Next();
      recs := recs + [rec];
      more := it.HasNext();
    }
  }

  /** Iterating to the end returns every appended record once, newest first, across block boundaries. */
  method ReadAll(log: LogMgr) returns (recs: seq<Bytes>)
    requires log.Valid()
    modifies log`blocks, log`writes, log`lastSaveLsn
    ensures log.Valid() && recs == log.Log() == old(log.Log())
  {
    var it := log.Iterator();
    recs := Drain(it);
  }

  // ---------------------------------------------------------------- a crash inside append

  /** The log file after each disk write of an append, the first entry before any of them. */
  ghost function AppendWrites(blocks: seq<Bytes>, p: Bytes, rec: Bytes): (w: seq<seq<Bytes>>)
    requires blocks != [] && 8 <= |p| < 0x8000_0000
    ensures w != [] && w[0] == blocks
  {
    if GetInt(p, 0) - (|rec| + 4) < 4 then
      var w := blocks[|blocks| - 1 := p];
      [blocks, w, w + [seq(|p|, _ => 0)], w + [PutInt(p, 0, |p|)]]
    else
      [blocks]
  }

  /** Between the write that grows the file and the write of the new block's header the last block is all
      zero bytes: its boundary is 0, inside the header. */
  ghost predicate TornAppend(blocks: seq<Bytes>, p: Bytes, rec: Bytes, k: nat)
    requires blocks != [] && 8 <= |p| < 0x8000_0000
  {
    GetInt(p, 0) - (|rec| + 4) < 4 && k == 2
  }

  lemma {:induction false} ZeroBytes(n: nat, pos: int)
    requires 0 <= pos <= n - 4
    ensures var z: Bytes := seq(n, _ => 0); Fits(z, pos) && GetInt(z, pos) == 0
  {
    var z: Bytes := seq(n, _ => 0);
    assert z[pos..pos + 4] == [0, 0, 0, 0];
    assert Unsigned(z[pos..pos + 4]) == 0;
  }

  /** A crash inside append leaves a well-formed log, with a part of the records from the oldest on, exactly
      when it does not fall between those two writes. */
  lemma {:induction false} AppendCrash(blocks: seq<Bytes>, p: Bytes, rec: Bytes, latestLsn: nat, lastSaveLsn: nat, k: nat)
    requires LogState(|p|, blocks, p, latestLsn, lastSaveLsn) && |rec| + 8 <= |p| && k < |AppendWrites(blocks, p, rec)|
    ensures LogBlocks(AppendWrites(blocks, p, rec)[k], |p|) <==> !TornAppend(blocks, p, rec, k)
    ensures !TornAppend(blocks, p, rec, k) ==>
              AllRecords(AppendWrites(blocks, p, rec)[k]) == LogOf(blocks, p)[if k == 0 then latestLsn - lastSaveLsn else 0..]
    ensures latestLsn - lastSaveLsn <= |LogOf(blocks, p)|
  {
    hide BytesInt, Fits, HasBytes, IntBytes, Packed, Records, RecordsFrom, Unsigned;
    SavedPart(|p|, blocks, p, latestLsn, lastSaveLsn);
    WrittenState(|p|, blocks, p, latestLsn, lastSaveLsn);
    var w := blocks[|blocks| - 1 := p];
    if GetInt(p, 0) - (|rec| + 4) < 4 {
      if k == 2 {
        var t := AppendWrites(blocks, p, rec)[k];
        ZeroBytes(|p|, 0);
        assert !LogPage(t[|w|], |p|);
      } else if k == 3 {
        StartedState(|p|, w, p, latestLsn);
        AllRecordsLast(w + [PutInt(p, 0, |p|)]);
        assert (w + [PutInt(p, 0, |p|)])[..|w|] == w;
      }
    }
  }

  /** An iterator started on such a block returns an empty record for every four bytes of it, none of which
      was appended. */
  lemma {:induction false} TornRecords(n: nat, pos: int)
    requires 0 <= pos <= n && n % 4 == 0 && pos % 4 == 0
    ensures var z: Bytes := seq(n, _ => 0);
      Packed(z, pos) && |RecordsFrom(z, pos)| == (n - pos) / 4 && forall i :: 0 <= i < |RecordsFrom(z, pos)| ==> RecordsFrom(z, pos)[i] == []
    decreases n - pos
  {
    if pos < n {
      ZeroBytes(n, pos);
      TornRecords(n, pos + 4);
    }
  }
}

/** The recovery manager's loops over the log (src/tx/RecoveryMgr.cpp, src/tx/LogRecord/SetIntRecord.cpp),
    proved against the block-wise functions the transition system is built from. */
module RecoveryMgrs {
  import opened Pages
  import opened RecoveryLog

  /** Each update record names a block of the database and an offset inside it. Elsewhere the source exits. */
  predicate Applicable(pages: map<BlockId, Bytes>, log: seq<Rec>) {
    forall k :: 0 <= k < |log| && log[k].SetInt? ==> log[k].blk in pages && Fits(pages[log[k].blk], log[k].offset)
  }

  predicate SameSizes(pages: map<BlockId, Bytes>, more: map<BlockId, Bytes>) {
    pages.Keys == more.Keys && forall b :: b in pages ==> |pages[b]| == |more[b]|
  }

  /** Rolling back the first i records is all that is left to do. */
  predicate RolledTo(was: map<BlockId, Bytes>, now: map<BlockId, Bytes>, log: seq<Rec>, i: nat, t: nat)
    requires i <= |log|
  {
    SameSizes(was, now) && forall b :: b in now ==> RolledBack(now[b], log[..i], t, b) == RolledBack(was[b], log, t, b)
  }

  lemma {:induction false} RollStep(was: map<BlockId, Bytes>, now: map<BlockId, Bytes>, next: map<BlockId, Bytes>, log: seq<Rec>, i: nat, t: nat)
    requires 0 < i <= |log| && RolledTo(was, now, log, i, t) && SameSizes(now, next) && log[i - 1] != Start(t)
    requires var r := log[i - 1]; r.SetInt? && r.blk in now ==> Fits(now[r.blk], r.offset)
    requires var r := log[i - 1];
      if !r.Checkpoint? && r.tx == t && r.SetInt? then
        forall b :: b in next ==> next[b] == if r.blk == b then PutInt(now[b], r.offset, r.was) else now[b]
      else next == now
    ensures RolledTo(was, next, log, i - 1, t)
  {
    hide PutInt;
    assert log[..i][..i - 1] == log[..i - 1];
  }

  lemma {:induction false} RollStops(was: map<BlockId, Bytes>, now: map<BlockId, Bytes>, log: seq<Rec>, i: nat, t: nat)
    requires i <= |log| && RolledTo(was, now, log, i, t) && (i == 0 || log[i - 1] == Start(t))
    ensures forall b :: b in now ==> now[b] == RolledBack(was[b], log, t, b)
  {
  }

  class RecoveryMgr {
    const txNum: nat
    /** The block contents a pinned buffer shows. */
    var pages: map<BlockId, Bytes>
    var log: seq<Rec>

    constructor (txNum: nat, pages: map<BlockId, Bytes>, log: seq<Rec>)
      ensures this.txNum == txNum && this.pages == pages && this.log == log + [Start(txNum)]
    {
      this.txNum := txNum;
      this.pages := pages;
      this.log := log + [Start(txNum)];
    }

    /** Transaction::setInt: an update is logged with the value it replaces unless it is itself an undo. */
    method SetInt(b: BlockId, offset: int, n: int32, okToLog: bool)
      requires b in pages && Fits(pages[b], offset)
      modifies this
      ensures pages == old(pages)[b := PutInt(old(pages)[b], offset, n)]
      ensures log == if okToLog then old(log) + [Rec.SetInt(txNum, b, offset, GetInt(old(pages)[b], offset))] else old(log)
    {
      if okToLog {
        var was := GetInt(pages[b], offset);
        log := log + [Rec.SetInt(txNum, b, offset, was)];
      }
      pages := pages[b := PutInt(pages[b], offset, n)];
    }

    method Undo(r: Rec)
      requires r.SetInt? ==> r.blk in pages && Fits(pages[r.blk], r.offset)
      modifies this
      ensures log == old(log) && SameSizes(old(pages), pages)
      ensures forall b :: b in pages ==>
                pages[b] == if r.SetInt? && r.blk == b then PutInt(old(pages)[b], r.offset, r.was) else old(pages)[b]
    {
      if r.SetInt? {
        SetInt(r.blk, r.offset, r.was, false);
      }
    }

    /** From the newest record back to this transaction's START. */
    method DoRollback()
      requires Applicable(pages, log)
      modifies this
      ensures log == old(log) && pages.Keys == old(pages).Keys
      ensures forall b :: b in pages ==> pages[b] == RolledBack(old(pages)[b], log, txNum, b)
    {
      hide RolledBack, PutInt;
      var i := |log|;
      assert log[..i] == log;
      while i > 0
        invariant 0 <= i <= |log| && log == old(log)
        invariant RolledTo(old(pages), pages, log, i, txNum)
      {
        var r := log[i - 1];
        ghost var was := pages;
        if !r.Checkpoint? && r.tx == txNum {
          if r.Start? {
            RollStops(old(pages), pages, log, i, txNum);
            return;
          }
          Undo(r);
        }
        RollStep(old(pages), was, pages, log, i, txNum);
        i := i - 1;
      }
      RollStops(old(pages), pages, log, i, txNum);
    }

    /** From the newest record back to the last checkpoint, skipping the transactions seen to finish. */
    method DoRecover()
      requires Applicable(pages, log)
      modifies this
      ensures log == old(log) && pages.Keys == old(pages).Keys
      ensures forall b :: b in pages ==> pages[b] == Undone(old(pages)[b], log, {}, b)
    {
      var finished: seq<nat> := [];
      ghost var done: set<nat> := {};
      var i := |log|;
      assert log[..i] == log;
      while i > 0
        invariant 0 <= i <= |log| && log == old(log)
        invariant SameSizes(old(pages), pages)
        invariant forall t :: t in finished <==> t in done
        invariant forall b :: b in pages ==> Undone(pages[b], log[..i], done, b) == Undone(old(pages)[b], log, {}, b)
      {
        var r := log[i - 1];
        assert log[..i][..i - 1] == log[..i - 1];
        i := i - 1;
        if r.Checkpoint? {
          return;
        }
        if r.Commit? || r.Rollback? {
          finished, done := finished + [r.tx], done + {r.tx};
        } else if r.tx !in finished {
          Undo(r);
        }
      }
    }
  }
}

/** Undo logging on one block (src/tx/RecoveryMgr.cpp, src/tx/LogRecord): the records, what undoing them
    does to a page, and why it restores the page whichever of the logged updates are on it. */
module RecoveryLog {
  import opened Pages

  datatype BlockId = BlockId(fileName: string, number: int)

  /** A log record. SetInt carries the value the update replaced. */
  datatype Rec =
    | Checkpoint
    | Start(tx: nat)
    | Commit(tx: nat)
    | Rollback(tx: nat)
    | SetInt(tx: nat, blk: BlockId, offset: int, was: int32)

  predicate Updates(r: Rec, t: nat, b: BlockId) {
    r.SetInt? && r.tx == t && r.blk == b
  }

  predicate Finishes(r: Rec, t: nat) {
    r == Commit(t) || r == Rollback(t)
  }

  ghost function Committed(log: seq<Rec>): set<nat> {
    set i | 0 <= i < |log| && log[i].Commit? :: log[i].tx
  }

  predicate FinishedIn(log: seq<Rec>, t: nat) {
    exists i :: 0 <= i < |log| && Finishes(log[i], t)
  }

  /** The page of block b when the updates of the transactions in c, and no others, are applied in log
      order. vals holds the value each update wrote; the log itself does not. */
  ghost function Replay(p: Bytes, log: seq<Rec>, vals: seq<int32>, c: set<nat>, b: BlockId): (q: Bytes)
    requires |vals| == |log|
    ensures |q| == |p|
  {
    if log == [] then p
    else
      var n := |log| - 1;
      var q := Replay(p, log[..n], vals[..n], c, b);
      var r := log[n];
      if r.SetInt? && r.tx in c && r.blk == b && Fits(q, r.offset) then PutInt(q, r.offset, vals[n]) else q
  }

  /** doRecover on one block, from the newest record back: done holds the transactions whose COMMIT or
      ROLLBACK has been met. */
  function Undone(q: Bytes, log: seq<Rec>, done: set<nat>, b: BlockId): (p: Bytes)
    ensures |p| == |q|
    decreases |log|
  {
    if log == [] then q
    else
      var n := |log| - 1;
      match log[n]
      case Checkpoint => q
      case Start(_) => Undone(q, log[..n], done, b)
      case Commit(t) => Undone(q, log[..n], done + {t}, b)
      case Rollback(t) => Undone(q, log[..n], done + {t}, b)
      case SetInt(t, blk, offset, was) =>
        Undone(if t !in done && blk == b && Fits(q, offset) then PutInt(q, offset, was) else q, log[..n], done, b)
  }

  /** doRollback on one block: the updates of one transaction are undone, back to its START record. */
  function RolledBack(q: Bytes, log: seq<Rec>, t: nat, b: BlockId): (p: Bytes)
    ensures |p| == |q|
    decreases |log|
  {
    if log == [] || log[|log| - 1] == Start(t) then q
    else
      var n := |log| - 1;
      RolledBack(if Updates(log[n], t, b) && Fits(q, log[n].offset) then PutInt(q, log[n].offset, log[n].was) else q, log[..n], t, b)
  }

  /** All updates of t on b undone, newest first. */
  ghost function UndoneOf(q: Bytes, log: seq<Rec>, t: nat, b: BlockId): (p: Bytes)
    ensures |p| == |q|
    decreases |log|
  {
    if log == [] then q
    else
      var n := |log| - 1;
      UndoneOf(if Updates(log[n], t, b) && Fits(q, log[n].offset) then PutInt(q, log[n].offset, log[n].was) else q, log[..n], t, b)
  }

  ghost predicate SetsBefore(log: seq<Rec>, t: nat, j: int) {
    exists k :: 0 <= k < j && k < |log| && log[k].SetInt? && log[k].tx == t
  }

  /** Nothing of t precedes its START record. */
  ghost predicate StartsFirst(log: seq<Rec>, t: nat) {
    forall j :: 0 <= j < |log| && log[j] == Start(t) ==> !SetsBefore(log, t, j)
  }

  lemma {:induction false} NothingOf(q: Bytes, log: seq<Rec>, t: nat, b: BlockId)
    requires forall k :: 0 <= k < |log| ==> !Updates(log[k], t, b)
    ensures UndoneOf(q, log, t, b) == q
    decreases |log|
  {
    if log != [] {
      NothingOf(q, log[..|log| - 1], t, b);
    }
  }

  /** Stopping at the START record loses nothing. */
  lemma {:induction false} RollbackUndoesAll(q: Bytes, log: seq<Rec>, t: nat, b: BlockId)
    requires StartsFirst(log, t)
    ensures RolledBack(q, log, t, b) == UndoneOf(q, log, t, b)
    decreases |log|
  {
    if log != [] {
      var n := |log| - 1;
      if log[n] == Start(t) {
        assert !SetsBefore(log, t, n);
        NothingOf(q, log, t, b);
      } else {
        forall j | 0 <= j < n && log[..n][j] == Start(t) ensures !SetsBefore(log[..n], t, j) {
          assert log[j] == Start(t) && !SetsBefore(log, t, j);
        }
        RollbackUndoesAll(if Updates(log[n], t, b) && Fits(q, log[n].offset) then PutInt(q, log[n].offset, log[n].was) else q, log[..n], t, b);
      }
    }
  }

  /** Each update of t on b logged the value that t's earlier updates on b left. */
  ghost predicate Faithful(base: Bytes, log: seq<Rec>, vals: seq<int32>, t: nat, b: BlockId)
    requires |vals| == |log|
  {
    log != [] ==>
      var n := |log| - 1;
      && Faithful(base, log[..n], vals[..n], t, b)
      && (Updates(log[n], t, b) ==>
            Fits(base, log[n].offset) && log[n].was == GetInt(Replay(base, log[..n], vals[..n], {t}, b), log[n].offset))
  }

  /** The bytes of b that t's logged updates write. */
  ghost predicate Touched(log: seq<Rec>, t: nat, b: BlockId, i: int) {
    exists k :: 0 <= k < |log| && Updates(log[k], t, b) && Within(i, log[k].offset)
  }

  /** p and q differ at most where the log has an update of t. */
  ghost predicate Covered(p: Bytes, q: Bytes, log: seq<Rec>, t: nat, b: BlockId) {
    |p| == |q| && forall i :: 0 <= i < |p| ==> p[i] == q[i] || Touched(log, t, b, i)
  }

  lemma {:induction false} CoveredMore(p: Bytes, q: Bytes, log: seq<Rec>, k: nat, m: nat, t: nat, b: BlockId)
    requires k <= m <= |log| && Covered(p, q, log[..k], t, b)
    ensures Covered(p, q, log[..m], t, b)
  {
    forall i | 0 <= i < |p| && Touched(log[..k], t, b, i) ensures Touched(log[..m], t, b, i) {
      var j :| 0 <= j < k && Updates(log[..k][j], t, b) && Within(i, log[..k][j].offset);
      assert log[..m][j] == log[..k][j];
    }
  }

  /** Replaying t's updates changes only bytes the log covers. */
  lemma {:induction false} ReplayCovered(base: Bytes, log: seq<Rec>, vals: seq<int32>, t: nat, b: BlockId)
    requires |vals| == |log|
    ensures Covered(Replay(base, log, vals, {t}, b), base, log, t, b)
  {
    if log != [] {
      var n := |log| - 1;
      ReplayCovered(base, log[..n], vals[..n], t, b);
      var q := Replay(base, log[..n], vals[..n], {t}, b);
      assert log[..|log|] == log;
      CoveredMore(q, base, log, n, |log|, t, b);
      if Updates(log[n], t, b) && Fits(q, log[n].offset) {
        forall i | 0 <= i < |base| && !Touched(log, t, b, i)
          ensures Replay(base, log, vals, {t}, b)[i] == base[i]
        {
          PutIntAt(q, log[n].offset, vals[n], i);
        }
      }
    }
  }

  /** One step of undoing, on any page that differs from base only where the log has updates. */
  lemma {:induction false} UndoStepCovered(base: Bytes, q: Bytes, log: seq<Rec>, vals: seq<int32>, t: nat, b: BlockId)
    requires log != [] && |vals| == |log| && Faithful(base, log, vals, t, b) && Covered(q, base, log, t, b)
    ensures var n := |log| - 1;
      && (Updates(log[n], t, b) ==> Fits(q, log[n].offset) && Covered(PutInt(q, log[n].offset, log[n].was), base, log[..n], t, b))
      && (!Updates(log[n], t, b) ==> Covered(q, base, log[..n], t, b))
  {
    var n := |log| - 1;
    var r := log[n];
    var p := Replay(base, log[..n], vals[..n], {t}, b);
    ReplayCovered(base, log[..n], vals[..n], t, b);
    if Updates(r, t, b) {
      forall i | 0 <= i < |base| && !Touched(log[..n], t, b, i)
        ensures PutInt(q, r.offset, r.was)[i] == base[i]
      {
        PutOld(p, q, r.offset, i);
        if !Within(i, r.offset) {
          NotTouched(log, t, b, i);
        }
      }
    } else {
      forall i | 0 <= i < |base| && !Touched(log[..n], t, b, i) ensures q[i] == base[i] {
        NotTouched(log, t, b, i);
      }
    }
  }

  lemma {:induction false} NotTouched(log: seq<Rec>, t: nat, b: BlockId, i: int)
    requires log != [] && !Touched(log[..|log| - 1], t, b, i)
    requires Updates(log[|log| - 1], t, b) ==> !Within(i, log[|log| - 1].offset)
    ensures !Touched(log, t, b, i)
  {
    forall k | 0 <= k < |log| && Updates(log[k], t, b) ensures !Within(i, log[k].offset) {
      if k < |log| - 1 {
        assert log[..|log| - 1][k] == log[k];
      }
    }
  }

  /** Undoing t's updates restores base on any page that differs from it only where they write: some,
      all or none of them may be on the page, and some may already be undone. */
  lemma {:induction false} UndoRestores(base: Bytes, q: Bytes, log: seq<Rec>, vals: seq<int32>, t: nat, b: BlockId)
    requires |vals| == |log| && Faithful(base, log, vals, t, b) && Covered(q, base, log, t, b)
    ensures UndoneOf(q, log, t, b) == base
    decreases |log|
  {
    if log == [] {
      assert q == base;
    } else {
      var n := |log| - 1;
      UndoStepCovered(base, q, log, vals, t, b);
      UndoRestores(base, if Updates(log[n], t, b) then PutInt(q, log[n].offset, log[n].was) else q, log[..n], vals[..n], t, b);
    }
  }

  /** Only the updates of b decide a replay. */
  lemma {:induction false} ReplayAgrees(p: Bytes, log: seq<Rec>, vals: seq<int32>, c: set<nat>, d: set<nat>, b: BlockId)
    requires |vals| == |log|
    requires forall k :: 0 <= k < |log| && log[k].SetInt? && log[k].blk == b ==> (log[k].tx in c <==> log[k].tx in d)
    ensures Replay(p, log, vals, c, b) == Replay(p, log, vals, d, b)
  {
    if log != [] {
      var n := |log| - 1;
      ReplayAgrees(p, log[..n], vals[..n], c, d, b);
    }
  }

  lemma {:induction false} ReplayNothing(p: Bytes, log: seq<Rec>, vals: seq<int32>, t: nat, b: BlockId)
    requires |vals| == |log|
    requires forall k :: 0 <= k < |log| ==> !Updates(log[k], t, b)
    ensures Replay(p, log, vals, {t}, b) == p
  {
    if log != [] {
      ReplayNothing(p, log[..|log| - 1], vals[..|log| - 1], t, b);
    }
  }

  /** A replay is over after the last update. */
  lemma {:induction false} ReplayEnds(p: Bytes, log: seq<Rec>, vals: seq<int32>, m: nat, t: nat, b: BlockId)
    requires |vals| == |log| && m <= |log|
    requires forall k :: m <= k < |log| ==> !Updates(log[k], t, b)
    ensures Replay(p, log, vals, {t}, b) == Replay(p, log[..m], vals[..m], {t}, b)
    decreases |log|
  {
    if m == |log| {
      assert log[..m] == log && vals[..m] == vals;
    } else {
      var n := |log| - 1;
      assert log[..n][..m] == log[..m] && vals[..n][..m] == vals[..m];
      ReplayEnds(p, log[..n], vals[..n], m, t, b);
    }
  }

  lemma {:induction false} ReplayAppend(p: Bytes, log: seq<Rec>, vals: seq<int32>, r: Rec, v: int32, c: set<nat>, b: BlockId)
    requires |vals| == |log|
    ensures Replay(p, log + [r], vals + [v], c, b) ==
            var q := Replay(p, log, vals, c, b);
            if r.SetInt? && r.tx in c && r.blk == b && Fits(q, r.offset) then PutInt(q, r.offset, v) else q
  {
    assert (log + [r])[..|log|] == log && (vals + [v])[..|log|] == vals;
  }

  lemma {:induction false} FaithfulUpTo(base: Bytes, log: seq<Rec>, vals: seq<int32>, m: nat, t: nat, b: BlockId)
    requires |vals| == |log| && m <= |log| && Faithful(base, log, vals, t, b)
    ensures Faithful(base, log[..m], vals[..m], t, b)
    decreases |log|
  {
    if m == |log| {
      assert log[..m] == log && vals[..m] == vals;
    } else {
      var n := |log| - 1;
      assert log[..n][..m] == log[..m] && vals[..n][..m] == vals[..m];
      FaithfulUpTo(base, log[..n], vals[..n], m, t, b);
    }
  }

  lemma {:induction false} FaithfulNothing(base: Bytes, log: seq<Rec>, vals: seq<int32>, t: nat, b: BlockId)
    requires |vals| == |log|
    requires forall k :: 0 <= k < |log| ==> !Updates(log[k], t, b)
    ensures Faithful(base, log, vals, t, b)
  {
    if log != [] {
      FaithfulNothing(base, log[..|log| - 1], vals[..|log| - 1], t, b);
    }
  }

  lemma {:induction false} FaithfulAppend(base: Bytes, log: seq<Rec>, vals: seq<int32>, r: Rec, v: int32, t: nat, b: BlockId)
    requires |vals| == |log| && Faithful(base, log, vals, t, b)
    requires Updates(r, t, b) ==> Fits(base, r.offset) && r.was == GetInt(Replay(base, log, vals, {t}, b), r.offset)
    ensures Faithful(base, log + [r], vals + [v], t, b)
  {
    assert (log + [r])[..|log|] == log && (vals + [v])[..|log|] == vals;
  }

  /** Each update of b is undone exactly when it is t's. */
  ghost predicate OnlyLoser(log: seq<Rec>, done: set<nat>, t: nat, b: BlockId) {
    && t !in done
    && !FinishedIn(log, t)
    && forall k :: 0 <= k < |log| && log[k].SetInt? && log[k].blk == b && log[k].tx != t ==>
         log[k].tx in done || FinishedAfter(log, k, log[k].tx)
  }

  ghost predicate FinishedAfter(log: seq<Rec>, k: int, t: nat) {
    exists j :: k < j < |log| && 0 <= j && Finishes(log[j], t)
  }

  lemma {:induction false} OnlyLoserStep(log: seq<Rec>, done: set<nat>, t: nat, b: BlockId)
    requires log != [] && OnlyLoser(log, done, t, b)
    ensures var n := |log| - 1;
      OnlyLoser(log[..n], if log[n].Commit? || log[n].Rollback? then done + {log[n].tx} else done, t, b)
  {
    var n := |log| - 1;
    assert !Finishes(log[n], t);
    var now := if log[n].Commit? || log[n].Rollback? then done + {log[n].tx} else done;
    forall k | 0 <= k < n && log[k].SetInt? && log[k].blk == b && log[k].tx != t && log[k].tx !in now
      ensures FinishedAfter(log[..n], k, log[k].tx)
    {
      var j :| k < j < |log| && Finishes(log[j], log[k].tx);
      assert j < n;
      assert log[..n][j] == log[j];
    }
  }

  /** On a block with one unfinished writer, recovery is that writer's rollback. */
  lemma {:induction false} RecoveryIsRollback(q: Bytes, log: seq<Rec>, done: set<nat>, t: nat, b: BlockId)
    requires OnlyLoser(log, done, t, b)
    requires forall k :: 0 <= k < |log| ==> log[k] != Checkpoint
    ensures Undone(q, log, done, b) == UndoneOf(q, log, t, b)
    decreases |log|
  {
    if log != [] {
      var n := |log| - 1;
      OnlyLoserStep(log, done, t, b);
      if log[n].SetInt? && log[n].blk == b {
        assert !FinishedAfter(log, n, log[n].tx);
        RecoveryIsRollback(if log[n].tx == t && Fits(q, log[n].offset) then PutInt(q, log[n].offset, log[n].was) else q, log[..n], done, t, b);
      } else {
        RecoveryIsRollback(q, log[..n], if log[n].Commit? || log[n].Rollback? then done + {log[n].tx} else done, t, b);
      }
    }
  }

  /** Recovery leaves a block alone whose writers are all finished. */
  lemma {:induction false} NothingUndone(q: Bytes, log: seq<Rec>, done: set<nat>, b: BlockId)
    requires forall k :: 0 <= k < |log| && log[k].SetInt? && log[k].blk == b ==> log[k].tx in done || FinishedAfter(log, k, log[k].tx)
    ensures Undone(q, log, done, b) == q
    decreases |log|
  {
    if log != [] {
      var n := |log| - 1;
      assert !FinishedAfter(log, n, if log[n].Checkpoint? then 0 else log[n].tx);
      var now := if log[n].Commit? || log[n].Rollback? then done + {log[n].tx} else done;
      forall k | 0 <= k < n && log[k].SetInt? && log[k].blk == b && log[k].tx !in now
        ensures FinishedAfter(log[..n], k, log[k].tx)
      {
        var j :| k < j < |log| && Finishes(log[j], log[k].tx);
        assert log[..n][j] == log[j];
      }
      NothingUndone(q, log[..n], now, b);
    }
  }

  /** The last committed write to a place is what a replay leaves there. */
  lemma {:induction false} ReplayLast(p: Bytes, log: seq<Rec>, vals: seq<int32>, c: set<nat>, b: BlockId, k: nat)
    requires |vals| == |log| && k < |log|
    requires log[k].SetInt? && log[k].tx in c && log[k].blk == b && Fits(p, log[k].offset)
    requires forall j :: k < j < |log| && log[j].SetInt? && log[j].tx in c && log[j].blk == b ==> Apart(log[j].offset, log[k].offset)
    ensures GetInt(Replay(p, log, vals, c, b), log[k].offset) == vals[k]
    decreases |log|
  {
    var n := |log| - 1;
    var q := Replay(p, log[..n], vals[..n], c, b);
    if k == n {
      GetPut(q, log[k].offset, vals[k]);
    } else {
      ReplayLast(p, log[..n], vals[..n], c, b, k);
      if log[n].SetInt? && log[n].tx in c && log[n].blk == b && Fits(q, log[n].offset) {
        GetPutApart(q, log[n].offset, vals[n], log[k].offset);
      }
    }
  }

  /** A place no committed update touches keeps its value. */
  lemma {:induction false} ReplayUntouched(p: Bytes, log: seq<Rec>, vals: seq<int32>, c: set<nat>, b: BlockId, offset: int)
    requires |vals| == |log| && Fits(p, offset)
    requires forall j :: 0 <= j < |log| && log[j].SetInt? && log[j].tx in c && log[j].blk == b ==> Apart(log[j].offset, offset)
    ensures GetInt(Replay(p, log, vals, c, b), offset) == GetInt(p, offset)
    decreases |log|
  {
    if log != [] {
      var n := |log| - 1;
      var q := Replay(p, log[..n], vals[..n], c, b);
      ReplayUntouched(p, log[..n], vals[..n], c, b, offset);
      if log[n].SetInt? && log[n].tx in c && log[n].blk == b && Fits(q, log[n].offset) {
        GetPutApart(q, log[n].offset, vals[n], offset);
      }
    }
  }
}

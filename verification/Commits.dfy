/** What a commit keeps (src/tx/RecoveryMgr.cpp:17-21, src/tx/Transaction.cpp:20-26). */
module Commits {
  import opened Options
  import opened Pages
  import opened RecoveryLog
  import opened Recovery
  import opened RecoverySafety

  /** The updates of block b that t makes in these steps, in order, on a plain page. */
  function Applied(p: Bytes, acts: seq<Action>, t: nat, b: BlockId): (q: Bytes)
    ensures |q| == |p|
    decreases |acts|
  {
    if acts == [] then p else Applied(AppliedOne(p, acts[0], t, b), acts[1..], t, b)
  }

  function AppliedOne(p: Bytes, a: Action, t: nat, b: BlockId): (q: Bytes)
    ensures |q| == |p|
  {
    if a.LogSet? && a.t == t && a.b == b && Fits(p, a.offset) then PutInt(p, a.offset, a.n) else p
  }

  /** The page as the log says that the writer t has left it. */
  ghost function Replayed(s: State, t: nat, b: BlockId): Bytes
    requires b in s.blocks && |s.m.vals| == |s.m.log|
  {
    Replay(s.blocks[b].base, s.m.log, s.m.vals, {t}, b)
  }

  /** What a step appends to the log, if anything. */
  lemma {:induction false} LogChange(s: State, a: Action) returns (more: Option<Rec>, v: int32)
    requires Enabled(s, a) && s.m.mode == Normal && a != Crash
    ensures var n := Step(s, a).m;
      match more
      case None => n.log == s.m.log && n.vals == s.m.vals && !a.LogSet?
      case Some(r) => n.log == s.m.log + [r] && n.vals == s.m.vals + [v] && if a.LogSet? then Updates(r, a.t, a.b) && r.offset == a.offset && v == a.n else !r.SetInt?
  {
    hide Forced, PutInt, GetInt, Restarted, RestartedBlk, Put;
    more, v := None, 0;
    match a
    case Begin(u) => more := Some(Start(u));
    case LogSet(u, c, offset, n) => more, v := Some(SetInt(u, c, offset, GetInt(s.blocks[c].frame.value.page, offset))), n;
    case EndForce(u) => more := Some(EndRecord(u, s.m.txs[u].commit));
    case _ =>
  }

  lemma {:induction false} ReplayedStep(s: State, a: Action, t: nat, b: BlockId)
    requires Inv(s) && Enabled(s, a) && s.m.mode == Normal && b in s.blocks && s.blocks[b].writer == Some(t)
    requires a != Finish(t) && a != Crash
    ensures var n := Step(s, a); |n.m.vals| == |n.m.log| && b in n.blocks && Replayed(n, t, b) == AppliedOne(Replayed(s, t, b), a, t, b)
  {
    hide Inv, Enabled, Step, PutInt, Replay;
    HeldStep(s, a, t, b);
    LogGrows(s);
    var more, v := LogChange(s, a);
    if more.Some? {
      ReplayAppend(s.blocks[b].base, s.m.log, s.m.vals, more.value, v, {t}, b);
    }
  }

  lemma {:induction false} LogGrows(s: State)
    requires Inv(s)
    ensures |s.m.vals| == |s.m.log|
  {
  }

  lemma {:induction false} ReplayedRun(s: State, acts: seq<Action>, t: nat, b: BlockId)
    requires Inv(s) && Runs(s, acts) && s.m.mode == Normal && b in s.blocks && s.blocks[b].writer == Some(t)
    requires forall k :: 0 <= k < |acts| ==> acts[k] != Finish(t) && acts[k] != Crash
    ensures |s.m.vals| == |s.m.log|
    ensures var n := Run(s, acts); |n.m.vals| == |n.m.log| && b in n.blocks && Replayed(n, t, b) == Applied(Replayed(s, t, b), acts, t, b)
    decreases |acts|
  {
    hide Inv, Step, AppliedOne, Replayed;
    LogGrows(s);
    if acts != [] {
      StepKeeps(s, acts[0]);
      HeldStep(s, acts[0], t, b);
      ReplayedStep(s, acts[0], t, b);
      ReplayedRun(Step(s, acts[0]), acts[1..], t, b);
    }
  }

  /** Before its lock t has made no update of the block. */
  lemma {:induction false} ReplayedAtLock(s: State, t: nat, b: BlockId)
    requires Inv(s) && Enabled(s, Lock(t, b))
    ensures var l := Step(s, Lock(t, b));
      && Inv(l) && l.m.mode == Normal && b in l.blocks && l.blocks[b].writer == Some(t)
      && |l.m.vals| == |l.m.log| && Replayed(l, t, b) == Cur(s.blocks[b])
  {
    hide PrefixInv, RecordsInv, ModeInv, CanPut, Replay;
    StepKeeps(s, Lock(t, b));
    Locked(s, t, b);
    assert BlkInv(s.m, b, s.blocks[b]);
    assert PhaseInv(s.m.log, s.m.vals, t, Active);
    UnfinishedOwns(s.m.log, s.m.saved, b, s.blocks[b], t);
    ReplayNothing(Cur(s.blocks[b]), s.m.log, s.m.vals, t, b);
  }

  /** The part of the log on disk has t's COMMIT record. */
  ghost predicate IsDurable(m: Mgr, t: nat) {
    exists k :: 0 <= k < m.saved && k < |m.log| && m.log[k] == Commit(t)
  }

  /** At the end of a commit the block is as the log says. */
  lemma {:induction false} CommittedBlk(s: State, t: nat, b: BlockId)
    requires Inv(s) && s.m.mode == Normal && b in s.blocks && s.blocks[b].writer == Some(t)
    requires t in s.m.txs && s.m.txs[t].Ending? && s.m.txs[t].commit
    ensures |s.m.vals| == |s.m.log| && Cur(s.blocks[b]) == s.blocks[b].disk == Replayed(s, t, b)
    ensures Enabled(s, Finish(t))
    ensures var f := Step(s, Finish(t));
      && Inv(f) && f.m.mode == Normal && b in f.blocks && f.blocks[b].writer == None && Cur(f.blocks[b]) == Cur(s.blocks[b])
      && IsDurable(f.m, t)
  {
    hide PrefixInv, RecordsInv, ModeInv, CanPut, Replay;
    assert BlkInv(s.m, b, s.blocks[b]);
    StepKeeps(s, Finish(t));
    var f, lsn := Step(s, Finish(t)), s.m.txs[t].lsn;
    assert f.m.log[lsn - 1] == Commit(t);
  }

  /** A block without a writer is, on disk and after a restart, what a reader sees. */
  lemma {:induction false} SettledBlk(s: State, b: BlockId)
    requires Inv(s) && s.m.mode == Normal && b in s.blocks && s.blocks[b].writer == None
    ensures s.m.saved <= |s.m.log| && AfterRestart(s, b) == s.blocks[b].disk == Cur(s.blocks[b])
  {
    hide RecordsInv, ModeInv, CanPut, Replay, Undone, Committed;
    var m, x := s.m, s.blocks[b];
    assert BlkInv(m, b, x);
    assert PrefixInv(m.log[..m.saved], m.vals[..m.saved], b, x);
    RestartBlk(s, b);
    assert Committed(m.log[..m.saved]) - {} == Committed(m.log[..m.saved]);
  }

  /** Durability. Whatever t, the buffer pool and other transactions do after t locks a block, when t's commit is
      done the block is, in the buffer and on disk, as t's updates have changed it. Its COMMIT record is durable, and a
      crash at any later time leaves the block so, as long as nobody else has locked it. */
  lemma {:induction false} CommitKeeps(s: State, acts: seq<Action>, later: seq<Action>, t: nat, b: BlockId)
    requires Inv(s) && Enabled(s, Lock(t, b)) && Runs(Step(s, Lock(t, b)), acts)
    requires forall k :: 0 <= k < |acts| ==> acts[k] != Finish(t) && acts[k] != Crash
    requires var n := Run(Step(s, Lock(t, b)), acts); t in n.m.txs && n.m.txs[t].Ending? && n.m.txs[t].commit
    requires var n := Run(Step(s, Lock(t, b)), acts); Enabled(n, Finish(t)) && Runs(Step(n, Finish(t)), later)
    requires forall k :: 0 <= k < |later| ==> later[k] != Crash && !(later[k].Lock? && later[k].b == b)
    ensures b in s.blocks
    ensures var p, n := Applied(Cur(s.blocks[b]), acts, t, b), Run(Step(s, Lock(t, b)), acts);
      && b in n.blocks && Cur(n.blocks[b]) == n.blocks[b].disk == p
      && IsDurable(Step(n, Finish(t)).m, t)
      && var g := Run(Step(n, Finish(t)), later); g.m.saved <= |g.m.log| && b in g.blocks && AfterRestart(g, b) == Cur(g.blocks[b]) == p
  {
    hide Inv, Enabled, Step, Runs, Run, Applied, Replayed, AfterRestart, IsDurable;
    Locked(s, t, b);
    ReplayedAtLock(s, t, b);
    var l := Step(s, Lock(t, b));
    LockHeld(l, acts, t, b);
    ReplayedRun(l, acts, t, b);
    var n := Run(l, acts);
    CommittedBlk(n, t, b);
    UnlockedStays(Step(n, Finish(t)), later, b);
    SettledBlk(Run(Step(n, Finish(t)), later), b);
  }
}

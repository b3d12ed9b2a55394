/** What every step of the recovery protocol keeps, and why a restart always finds the committed state. */
module RecoverySafety {
  import opened Options
  import opened Pages
  import opened RecoveryLog
  import opened Recovery

  ghost function Own(x: Blk): set<nat> {
    if x.writer.Some? then {x.writer.value} else {}
  }

  /** The records up to some point stand for the page at the last settlement: the committed updates give
      base, and with the writer's own they give base as the writer has changed it. */
  ghost predicate PrefixInv(log: seq<Rec>, vals: seq<int32>, b: BlockId, x: Blk)
    requires |vals| == |log|
  {
    && Replay(x.start, log, vals, Committed(log) - Own(x), b) == x.base
    && (x.writer.Some? ==>
          Replay(x.start, log, vals, Committed(log) + Own(x), b) == Replay(x.base, log, vals, Own(x), b))
  }

  /** Every update of b is its writer's, or its transaction is durably finished. */
  ghost predicate RecordsInv(log: seq<Rec>, saved: nat, b: BlockId, x: Blk) {
    forall k :: 0 <= k < |log| && log[k].SetInt? && log[k].blk == b ==>
      x.writer == Some(log[k].tx) || FinishedBy(log, k, saved, log[k].tx)
  }

  ghost predicate FinishedBy(log: seq<Rec>, k: int, saved: nat, t: nat) {
    exists j :: k < j < saved && 0 <= j < |log| && Finishes(log[j], t)
  }

  /** The log and the disk page of a block. Crashing cuts the log anywhere from saved on, so the prefixes
      from there on all have to fit. The write-ahead rule is the second line for a writer. */
  ghost predicate LogInv(log: seq<Rec>, vals: seq<int32>, saved: nat, b: BlockId, x: Blk) {
    && |vals| == |log| && saved <= |log|
    && |x.disk| == |x.base| == |x.start|
    && RecordsInv(log, saved, b, x)
    && (forall k :: saved <= k <= |log| ==> PrefixInv(log[..k], vals[..k], b, x))
    && (x.writer.Some? ==>
          && Faithful(x.base, log, vals, x.writer.value, b)
          && Covered(x.disk, x.base, log[..saved], x.writer.value, b))
    && (x.writer == None ==> x.disk == x.base)
  }

  /** The transaction that may have unwritten pages of the block. */
  ghost function Dirtier(m: Mgr, x: Blk): Option<nat> {
    match m.mode
    case Normal => x.writer
    case Down => None
    case Recovering(r, _, _) => if x.writer.Some? then Some(r) else None
    case RecoverForcing(r) => if x.writer.Some? then Some(r) else None
    case Checkpointed(_) => None
  }

  /** A clean buffer equals the disk; a dirty one is the writer's, and its changes are in the log as far as
      flushing it would save the log. */
  ghost predicate FrameInv(m: Mgr, b: BlockId, x: Blk) {
    x.frame.Some? ==>
      var f := x.frame.value;
      && |f.page| == |x.base|
      && (f.tx == None ==> f.page == x.disk)
      && (f.tx.Some? ==>
            && f.tx == Dirtier(m, x) && x.writer.Some?
            && m.saved <= |m.log| && Covered(f.page, x.base, m.log[..SavedTo(m, f.lsn)], x.writer.value, b))
  }

  ghost predicate SetsFrom(log: seq<Rec>, t: nat, j: int) {
    exists k :: j <= k < |log| && 0 <= k && log[k].SetInt? && log[k].tx == t
  }

  /** What the log holds of a transaction in phase p. */
  ghost predicate PhaseInv(log: seq<Rec>, vals: seq<int32>, t: nat, p: Phase) {
    && |vals| == |log|
    && StartsFirst(log, t)
    && (!p.Ending? ==> !FinishedIn(log, t))
    && match p
       case Active => true
       case Writing(c, offset, n, lsn) =>
         && 0 < lsn <= |log| && !SetsFrom(log, t, lsn)
         && Updates(log[lsn - 1], t, c) && log[lsn - 1].offset == offset && vals[lsn - 1] == n
       case RollingBack(pos) => pos <= |log|
       case Forcing(_) => true
       case Ending(commit, lsn) =>
         && 0 < lsn <= |log| && !SetsFrom(log, t, lsn)
         && log[lsn - 1] == EndRecord(t, commit)
         && forall k :: 0 <= k < |log| && k != lsn - 1 ==> !Finishes(log[k], t)
  }

  ghost function Upto(log: seq<Rec>, vals: seq<int32>, base: Bytes, t: nat, b: BlockId, k: nat): Bytes
    requires k <= |log| == |vals|
  {
    Replay(base, log[..k], vals[..k], {t}, b)
  }

  /** The page as the writer t has left it in phase p. */
  ghost function Target(log: seq<Rec>, vals: seq<int32>, base: Bytes, t: nat, b: BlockId, p: Phase): Bytes
    requires PhaseInv(log, vals, t, p)
  {
    match p
    case Active => Replay(base, log, vals, {t}, b)
    case Writing(c, _, _, lsn) => if b == c then Upto(log, vals, base, t, b, lsn - 1) else Replay(base, log, vals, {t}, b)
    case RollingBack(pos) => Upto(log, vals, base, t, b, pos)
    case Forcing(commit) => if commit then Replay(base, log, vals, {t}, b) else base
    case Ending(commit, _) => if commit then Replay(base, log, vals, {t}, b) else base
  }

  ghost predicate ModeInv(m: Mgr) {
    match m.mode
    case Normal => true
    case Down => m.saved == |m.log|
    case Recovering(_, pos, done) =>
      && m.saved == |m.log| && pos <= |m.log|
      && forall u :: u in done <==> FinishedAfter(m.log, pos - 1, u)
    case RecoverForcing(_) => m.saved == |m.log|
    case Checkpointed(_) => EndsAtCheckpoint(m.log)
  }

  ghost predicate MgrInv(m: Mgr) {
    && |m.vals| == |m.log| && m.saved <= |m.log|
    && (forall k :: 0 <= k < |m.log| && m.log[k] == Checkpoint ==> m.mode.Checkpointed? && k == |m.log| - 1)
    && (m.mode != Normal ==> m.txs == map[])
    && ModeInv(m)
    && (forall t :: t in m.txs ==> PhaseInv(m.log, m.vals, t, m.txs[t]))
    && forall t :: t in m.txs && m.txs[t].RollingBack? ==> m.txs[t].pos <= m.saved
  }

  /** How far the writer of a block has got. */
  ghost predicate WriterInv(m: Mgr, b: BlockId, x: Blk)
    requires MgrInv(m)
  {
    x.writer.Some? ==>
      var t := x.writer.value;
      match m.mode
      case Normal =>
        && t in m.txs && Cur(x) == Target(m.log, m.vals, x.base, t, b, m.txs[t])
        && (m.txs[t].Ending? && x.frame.Some? ==> x.frame.value.tx == None)
      case Down => !FinishedIn(m.log, t)
      case Recovering(_, pos, _) => !FinishedIn(m.log, t) && Covered(Cur(x), x.base, m.log[..pos], t, b)
      case RecoverForcing(_) => !FinishedIn(m.log, t) && Cur(x) == x.base
      case Checkpointed(_) => !FinishedIn(m.log, t) && Cur(x) == x.base
  }

  ghost predicate BlkInv(m: Mgr, b: BlockId, x: Blk)
    requires MgrInv(m)
  {
    && LogInv(m.log, m.vals, m.saved, b, x)
    && FrameInv(m, b, x)
    && WriterInv(m, b, x)
    && (m.mode.Down? ==> x.frame == None)
  }

  ghost predicate Inv(s: State) {
    MgrInv(s.m) && forall b :: b in s.blocks ==> BlkInv(s.m, b, s.blocks[b])
  }

  // ---------------------------------------------------------------- the log grows

  lemma {:induction false} CommittedAppend(log: seq<Rec>, r: Rec)
    ensures Committed(log + [r]) == Committed(log) + (if r.Commit? then {r.tx} else {})
  {
    var more := log + [r];
    forall t | t in Committed(log) ensures t in Committed(more) {
      var i :| 0 <= i < |log| && log[i].Commit? && log[i].tx == t;
      assert more[i] == log[i];
    }
    if r.Commit? {
      assert more[|log|] == r;
    }
  }

  lemma {:induction false} CommittedFinished(log: seq<Rec>, t: nat)
    requires t in Committed(log)
    ensures FinishedIn(log, t)
  {
    var i :| 0 <= i < |log| && log[i].Commit? && log[i].tx == t;
    assert Finishes(log[i], t);
  }

  lemma {:induction false} SavedMore(log: seq<Rec>, vals: seq<int32>, saved: nat, more: nat, b: BlockId, x: Blk)
    requires LogInv(log, vals, saved, b, x) && saved <= more <= |log|
    ensures LogInv(log, vals, more, b, x)
  {
    forall k | 0 <= k < |log| && log[k].SetInt? && log[k].blk == b && x.writer != Some(log[k].tx)
      ensures FinishedBy(log, k, more, log[k].tx)
    {
      assert FinishedBy(log, k, saved, log[k].tx);
    }
    if x.writer.Some? {
      CoveredMore(x.disk, x.base, log, saved, more, x.writer.value, b);
    }
  }

  /** A transaction with no finish record writes only its own blocks. */
  lemma {:induction false} UnfinishedOwns(log: seq<Rec>, saved: nat, b: BlockId, x: Blk, u: nat)
    requires RecordsInv(log, saved, b, x) && !FinishedIn(log, u)
    ensures x.writer != Some(u) ==> forall k :: 0 <= k < |log| ==> !Updates(log[k], u, b)
  {
    forall k | 0 <= k < |log| && log[k].SetInt? && log[k].blk == b && x.writer != Some(log[k].tx)
      ensures FinishedIn(log, log[k].tx)
    {
      assert FinishedBy(log, k, saved, log[k].tx);
    }
  }

  lemma {:induction false} PrefixOther(log: seq<Rec>, vals: seq<int32>, saved: nat, r: Rec, v: int32, b: BlockId, x: Blk)
    requires |vals| == |log| && PrefixInv(log, vals, b, x) && RecordsInv(log, saved, b, x)
    requires !(r.SetInt? && r.blk == b) && (r.Commit? ==> !FinishedIn(log, r.tx))
    ensures PrefixInv(log + [r], vals + [v], b, x)
  {
    CommittedAppend(log, r);
    var c, d := Committed(log), Committed(log + [r]);
    if r.Commit? {
      UnfinishedOwns(log, saved, b, x, r.tx);
    }
    ReplayAppend(x.start, log, vals, r, v, d - Own(x), b);
    ReplayAgrees(x.start, log, vals, d - Own(x), c - Own(x), b);
    ReplayAppend(x.start, log, vals, r, v, d + Own(x), b);
    ReplayAgrees(x.start, log, vals, d + Own(x), c + Own(x), b);
    ReplayAppend(x.base, log, vals, r, v, Own(x), b);
  }

  lemma {:induction false} RecordsOther(log: seq<Rec>, saved: nat, r: Rec, b: BlockId, x: Blk)
    requires saved <= |log| && RecordsInv(log, saved, b, x) && (r.SetInt? && r.blk == b ==> x.writer == Some(r.tx))
    ensures RecordsInv(log + [r], saved, b, x)
  {
    var more := log + [r];
    forall k | 0 <= k < |more| && more[k].SetInt? && more[k].blk == b && x.writer != Some(more[k].tx)
      ensures FinishedBy(more, k, saved, more[k].tx)
    {
      assert k < |log| && more[k] == log[k];
      assert FinishedBy(log, k, saved, log[k].tx);
      var j :| k < j < saved && 0 <= j < |log| && Finishes(log[j], log[k].tx);
      assert more[j] == log[j];
    }
  }

  /** A record that does not update b, and commits only what is not finished. */
  lemma {:induction false} AppendOther(log: seq<Rec>, vals: seq<int32>, saved: nat, r: Rec, v: int32, b: BlockId, x: Blk)
    requires LogInv(log, vals, saved, b, x)
    requires !(r.SetInt? && r.blk == b) && (r.Commit? ==> !FinishedIn(log, r.tx))
    ensures LogInv(log + [r], vals + [v], saved, b, x)
  {
    RecordsOther(log, saved, r, b, x);
    assert log[..|log|] == log && vals[..|log|] == vals;
    PrefixOther(log, vals, saved, r, v, b, x);
    PrefixesAppend(log, vals, saved, r, v, b, x);
    assert (log + [r])[..saved] == log[..saved];
    if x.writer.Some? {
      FaithfulAppend(x.base, log, vals, r, v, x.writer.value, b);
    }
  }

  lemma {:induction false} PrefixesAppend(log: seq<Rec>, vals: seq<int32>, saved: nat, r: Rec, v: int32, b: BlockId, x: Blk)
    requires |vals| == |log| && saved <= |log|
    requires forall k :: saved <= k <= |log| ==> PrefixInv(log[..k], vals[..k], b, x)
    requires PrefixInv(log + [r], vals + [v], b, x)
    ensures forall k :: saved <= k <= |log| + 1 ==> PrefixInv((log + [r])[..k], (vals + [v])[..k], b, x)
  {
    forall k | saved <= k <= |log| + 1 ensures PrefixInv((log + [r])[..k], (vals + [v])[..k], b, x) {
      if k <= |log| {
        assert (log + [r])[..k] == log[..k] && (vals + [v])[..k] == vals[..k];
      } else {
        assert (log + [r])[..k] == log + [r] && (vals + [v])[..k] == vals + [v];
      }
    }
  }

  /** The writer logs an update with the value it is about to replace. */
  lemma {:induction false} AppendSet(log: seq<Rec>, vals: seq<int32>, saved: nat, r: Rec, v: int32, b: BlockId, x: Blk)
    requires LogInv(log, vals, saved, b, x)
    requires r.SetInt? && r.blk == b && x.writer == Some(r.tx) && Fits(x.base, r.offset)
    requires r.was == GetInt(Replay(x.base, log, vals, {r.tx}, b), r.offset)
    ensures LogInv(log + [r], vals + [v], saved, b, x)
  {
    RecordsOther(log, saved, r, b, x);
    assert log[..|log|] == log && vals[..|log|] == vals;
    PrefixSet(log, vals, r, v, b, x);
    PrefixesAppend(log, vals, saved, r, v, b, x);
    assert (log + [r])[..saved] == log[..saved];
    FaithfulAppend(x.base, log, vals, r, v, r.tx, b);
  }

  lemma {:induction false} PrefixSet(log: seq<Rec>, vals: seq<int32>, r: Rec, v: int32, b: BlockId, x: Blk)
    requires |vals| == |log| && PrefixInv(log, vals, b, x) && |x.start| == |x.base|
    requires r.SetInt? && r.blk == b && x.writer == Some(r.tx)
    ensures PrefixInv(log + [r], vals + [v], b, x)
  {
    CommittedAppend(log, r);
    var c := Committed(log);
    assert Committed(log + [r]) == c;
    ReplayAppend(x.start, log, vals, r, v, c - Own(x), b);
    ReplayAppend(x.start, log, vals, r, v, c + Own(x), b);
    ReplayAppend(x.base, log, vals, r, v, Own(x), b);
  }

  // ---------------------------------------------------------------- the writer and its page

  lemma {:induction false} NotFinishedAppend(log: seq<Rec>, r: Rec, t: nat)
    requires !FinishedIn(log, t) && !Finishes(r, t)
    ensures !FinishedIn(log + [r], t)
  {
    var more := log + [r];
    forall i | 0 <= i < |more| ensures !Finishes(more[i], t) {
      if i < |log| {
        assert more[i] == log[i];
      }
    }
  }

  lemma {:induction false} StartsAppend(log: seq<Rec>, r: Rec, t: nat)
    requires StartsFirst(log, t) && (r == Start(t) ==> !SetsBefore(log, t, |log|))
    ensures StartsFirst(log + [r], t)
  {
    var more := log + [r];
    forall j | 0 <= j < |more| && more[j] == Start(t) ensures !SetsBefore(more, t, j) {
      assert if j < |log| then log[j] == Start(t) && !SetsBefore(log, t, j) else !SetsBefore(log, t, |log|);
      forall k | 0 <= k < j ensures !(more[k].SetInt? && more[k].tx == t) {
        assert more[k] == log[k];
      }
    }
  }

  lemma {:induction false} SetsAppend(log: seq<Rec>, r: Rec, t: nat, j: nat)
    requires !SetsFrom(log, t, j) && !(r.SetInt? && r.tx == t)
    ensures !SetsFrom(log + [r], t, j)
  {
    var more := log + [r];
    forall k | j <= k < |more| ensures !(more[k].SetInt? && more[k].tx == t) {
      if k < |log| {
        assert log[k] == more[k];
      }
    }
  }

  /** A record of another transaction, or its own START before any update. */
  lemma {:induction false} PhaseAppend(log: seq<Rec>, vals: seq<int32>, r: Rec, v: int32, t: nat, p: Phase)
    requires PhaseInv(log, vals, t, p)
    requires !Finishes(r, t) && !(r.SetInt? && r.tx == t) && r != Start(t)
    ensures PhaseInv(log + [r], vals + [v], t, p)
  {
    StartsAppend(log, r, t);
    if !p.Ending? {
      NotFinishedAppend(log, r, t);
    }
    if p.Writing? {
      SetsAppend(log, r, t, p.lsn);
    }
    if p.Ending? {
      SetsAppend(log, r, t, p.lsn);
    }
  }

  lemma {:induction false} TargetAppend(log: seq<Rec>, vals: seq<int32>, r: Rec, v: int32, base: Bytes, t: nat, b: BlockId, p: Phase)
    requires PhaseInv(log, vals, t, p) && PhaseInv(log + [r], vals + [v], t, p) && !Updates(r, t, b)
    ensures Target(log + [r], vals + [v], base, t, b, p) == Target(log, vals, base, t, b, p)
  {
    ReplayAppend(base, log, vals, r, v, {t}, b);
    if p.Writing? {
      assert (log + [r])[..p.lsn - 1] == log[..p.lsn - 1] && (vals + [v])[..p.lsn - 1] == vals[..p.lsn - 1];
    } else if p.RollingBack? {
      assert (log + [r])[..p.pos] == log[..p.pos] && (vals + [v])[..p.pos] == vals[..p.pos];
    }
  }

  lemma {:induction false} CoveredAppend(p: Bytes, q: Bytes, log: seq<Rec>, r: Rec, k: nat, m: nat, t: nat, b: BlockId)
    requires k <= |log| && k <= m <= |log| + 1 && Covered(p, q, log[..k], t, b)
    ensures Covered(p, q, (log + [r])[..m], t, b)
  {
    assert (log + [r])[..k] == log[..k];
    CoveredMore(p, q, log + [r], k, m, t, b);
  }

  /** A buffer stays covered when the log grows or is saved further. */
  lemma {:induction false} FrameMore(m: Mgr, n: Mgr, b: BlockId, x: Blk)
    requires MgrInv(m) && FrameInv(m, b, x) && Dirtier(m, x) == Dirtier(n, x)
    requires n.log == m.log || (n.log != [] && n.log[..|n.log| - 1] == m.log)
    requires n.saved == m.saved || n.saved == |n.log|
    ensures FrameInv(n, b, x)
  {
    if x.frame.Some? && x.frame.value.tx.Some? {
      var f := x.frame.value;
      var t := x.writer.value;
      if n.log == m.log {
        CoveredMore(f.page, x.base, m.log, SavedTo(m, f.lsn), SavedTo(n, f.lsn), t, b);
      } else {
        assert n.log == m.log + [n.log[|m.log|]];
        CoveredAppend(f.page, x.base, m.log, n.log[|m.log|], SavedTo(m, f.lsn), SavedTo(n, f.lsn), t, b);
      }
    }
  }

  // ---------------------------------------------------------------- the steps, away from blocks

  lemma {:induction false} PhasesAppend(m: Mgr, r: Rec, v: int32, t: nat, p: Phase)
    requires MgrInv(m) && m.mode == Normal && r != Checkpoint
    requires PhaseInv(m.log + [r], m.vals + [v], t, p) && !p.RollingBack?
    requires forall u :: u in m.txs && u != t ==> !Finishes(r, u) && !(r.SetInt? && r.tx == u) && r != Start(u)
    ensures MgrInv(Appended(m, r, v).(txs := m.txs[t := p]))
  {
    forall u | u in m.txs && u != t ensures PhaseInv(m.log + [r], m.vals + [v], u, m.txs[u]) {
      PhaseAppend(m.log, m.vals, r, v, u, m.txs[u]);
    }
  }

  lemma {:induction false} BeginMgr(s: State, t: nat)
    requires MgrInv(s.m) && Enabled(s, Begin(t))
    ensures MgrInv(StepMgr(s, Begin(t)))
  {
    var log := s.m.log;
    forall i | 0 <= i < |log| ensures !Finishes(log[i], t) {
      assert !Mentions(log, t);
    }
    NotFinishedAppend(log, Start(t), t);
    forall j | 0 <= j < |log| ensures log[j] != Start(t) && !(log[j].SetInt? && log[j].tx == t) {
      assert !Mentions(log, t);
    }
    StartsAppend(log, Start(t), t);
    PhasesAppend(s.m, Start(t), 0, t, Active);
  }

  lemma {:induction false} LogSetMgr(s: State, t: nat, b: BlockId, offset: int, n: int32)
    requires MgrInv(s.m) && Enabled(s, LogSet(t, b, offset, n))
    ensures MgrInv(StepMgr(s, LogSet(t, b, offset, n)))
  {
    var r := SetInt(t, b, offset, GetInt(s.blocks[b].frame.value.page, offset));
    assert PhaseInv(s.m.log, s.m.vals, t, Active);
    hide MgrInv, PhaseInv, GetInt;
    LoggedPhase(s.m.log, s.m.vals, r, n);
    PhasesAppend(s.m, r, n, t, Writing(b, offset, n, |s.m.log| + 1));
  }

  lemma {:induction false} LoggedPhase(log: seq<Rec>, vals: seq<int32>, r: Rec, v: int32)
    requires r.SetInt? && PhaseInv(log, vals, r.tx, Active)
    ensures PhaseInv(log + [r], vals + [v], r.tx, Writing(r.blk, r.offset, v, |log| + 1))
  {
    hide StartsFirst, FinishedIn;
    NotFinishedAppend(log, r, r.tx);
    StartsAppend(log, r, r.tx);
  }

  lemma {:induction false} EndForceMgr(s: State, t: nat)
    requires MgrInv(s.m) && Enabled(s, EndForce(t))
    ensures MgrInv(StepMgr(s, EndForce(t)))
  {
    var c := s.m.txs[t].commit;
    var log := s.m.log;
    StartsAppend(log, EndRecord(t, c), t);
    forall k | 0 <= k < |log| ensures !Finishes((log + [EndRecord(t, c)])[k], t) {
      assert !Finishes(log[k], t);
    }
    PhasesAppend(s.m, EndRecord(t, c), 0, t, Ending(c, |log| + 1));
  }

  lemma {:induction false} CrashMgr(s: State)
    requires MgrInv(s.m) && Enabled(s, Crash)
    ensures MgrInv(StepMgr(s, Crash))
  {
    var m := s.m;
    if EndsAtCheckpoint(m.log[..m.saved]) {
    } else if m.saved == |m.log| {
      assert m.log[..m.saved] == m.log;
    } else {
      forall k | 0 <= k < m.saved ensures m.log[..m.saved][k] != Checkpoint {
        assert m.log[k] == m.log[..m.saved][k];
      }
    }
  }

  lemma {:induction false} RecoverStepMgr(s: State)
    requires MgrInv(s.m) && Enabled(s, RecoverStep)
    ensures MgrInv(StepMgr(s, RecoverStep))
  {
    var m := s.m;
    var pos := m.mode.pos;
    if pos > 0 {
      var r := m.log[pos - 1];
      var now := StepMgr(s, RecoverStep).mode.done;
      forall u ensures u in now <==> FinishedAfter(m.log, pos - 2, u) {
        if FinishedAfter(m.log, pos - 1, u) {
          var j :| pos - 1 < j < |m.log| && 0 <= j && Finishes(m.log[j], u);
          assert FinishedAfter(m.log, pos - 2, u);
        }
        if FinishedAfter(m.log, pos - 2, u) {
          var j :| pos - 2 < j < |m.log| && 0 <= j && Finishes(m.log[j], u);
          if j != pos - 1 {
            assert FinishedAfter(m.log, pos - 1, u);
          }
        }
        if Finishes(r, u) {
          assert FinishedAfter(m.log, pos - 2, u);
        }
      }
    }
  }

  lemma {:induction false} BeginRecoveryMgr(s: State, t: nat)
    requires MgrInv(s.m) && Enabled(s, BeginRecovery(t))
    ensures MgrInv(StepMgr(s, BeginRecovery(t)))
  {
    var m := StepMgr(s, BeginRecovery(t));
    assert forall k :: 0 <= k < |s.m.log| ==> m.log[k] == s.m.log[k];
  }

  lemma {:induction false} EndRecoverForceMgr(s: State)
    requires MgrInv(s.m) && Enabled(s, EndRecoverForce)
    ensures MgrInv(StepMgr(s, EndRecoverForce))
  {
    assert forall k :: 0 <= k < |s.m.log| ==> (s.m.log + [Checkpoint])[k] == s.m.log[k];
  }

  /** Steps that log nothing: at most the saved part of the log or one phase changes. */
  lemma {:induction false} SmallStepMgr(s: State, a: Action)
    requires MgrInv(s.m) && Enabled(s, a)
    requires !a.Begin? && !a.LogSet? && !a.EndForce? && !a.Crash? && !a.BeginRecovery? && !a.RecoverStep? && !a.EndRecoverForce? && !a.Done?
    ensures MgrInv(StepMgr(s, a))
  {
    hide CanPut, Forced, Updates, FinishedIn, StartsFirst, SetsFrom, EndRecord;
  }

  lemma {:induction false} DoneMgr(s: State)
    requires MgrInv(s.m) && Enabled(s, Done)
    ensures MgrInv(StepMgr(s, Done))
  {
  }

  lemma {:induction false} MgrStep(s: State, a: Action)
    requires MgrInv(s.m) && Enabled(s, a)
    ensures MgrInv(StepMgr(s, a))
  {
    hide MgrInv, Enabled, StepMgr;
    match a
    case Done => DoneMgr(s);
    case Begin(t) => BeginMgr(s, t);
    case LogSet(t, b, offset, n) => LogSetMgr(s, t, b, offset, n);
    case EndForce(t) => EndForceMgr(s, t);
    case Crash => CrashMgr(s);
    case BeginRecovery(t) => BeginRecoveryMgr(s, t);
    case RecoverStep => RecoverStepMgr(s);
    case EndRecoverForce => EndRecoverForceMgr(s);
    case _ => SmallStepMgr(s, a);
  }

  // ---------------------------------------------------------------- the steps, block by block

  /** A step that leaves the block alone and the writer's page as it should be. */
  lemma {:induction false} QuietBlk(m: Mgr, n: Mgr, b: BlockId, x: Blk)
    requires MgrInv(m) && BlkInv(m, b, x) && MgrInv(n)
    requires n.mode == m.mode && n.log == m.log && n.vals == m.vals && (n.saved == m.saved || n.saved == |n.log|)
    requires m.mode == Normal ==> SameTarget(m, n, b, x)
    ensures BlkInv(n, b, x)
  {
    SavedMore(m.log, m.vals, m.saved, n.saved, b, x);
    FrameMore(m, n, b, x);
  }

  ghost predicate SameTarget(m: Mgr, n: Mgr, b: BlockId, x: Blk)
    requires MgrInv(m) && MgrInv(n)
  {
    x.writer.Some? ==>
      var t := x.writer.value;
      && t in m.txs && t in n.txs
      && Target(n.log, n.vals, x.base, t, b, n.txs[t]) == Target(m.log, m.vals, x.base, t, b, m.txs[t])
      && (n.txs[t].Ending? ==> m.txs[t].Ending? || (x.frame.Some? ==> x.frame.value.tx == None))
  }

  /** The same with a new log record that does not update the block. */
  lemma {:induction false} AppendBlk(m: Mgr, n: Mgr, r: Rec, v: int32, b: BlockId, x: Blk)
    requires MgrInv(m) && BlkInv(m, b, x) && MgrInv(n) && m.mode == n.mode == Normal
    requires n.log == m.log + [r] && n.vals == m.vals + [v] && n.saved == m.saved
    requires !(r.SetInt? && r.blk == b) && (r.Commit? ==> !FinishedIn(m.log, r.tx))
    requires SameTarget(m, n, b, x)
    ensures BlkInv(n, b, x)
  {
    AppendOther(m.log, m.vals, m.saved, r, v, b, x);
    assert n.log[..|n.log| - 1] == m.log;
    FrameMore(m, n, b, x);
  }

  lemma {:induction false} BeginBlk(s: State, t: nat, b: BlockId) returns (n: Mgr)
    requires Inv(s) && Enabled(s, Begin(t)) && b in s.blocks
    ensures n == StepMgr(s, Begin(t)) && MgrInv(n) && BlkInv(n, b, StepBlk(s.m, Begin(t), b, s.blocks[b]))
  {
    hide LogInv, FrameInv, WriterInv, ModeInv, PhaseInv, SameTarget;
    n := StepMgr(s, Begin(t));
    MgrStep(s, Begin(t));
    var m, x := s.m, s.blocks[b];
    assert BlkInv(m, b, x);
    hide Enabled, StepMgr, BlkInv, MgrInv;
    StartTarget(m, n, t, b, x);
    AppendBlk(m, n, Start(t), 0, b, x);
  }

  /** A new transaction changes no writer's page. */
  lemma {:induction false} StartTarget(m: Mgr, n: Mgr, t: nat, b: BlockId, x: Blk)
    requires MgrInv(m) && MgrInv(n) && BlkInv(m, b, x) && m.mode == Normal && t !in m.txs
    requires n == Appended(m, Start(t), 0).(txs := m.txs[t := Active])
    ensures SameTarget(m, n, b, x)
  {
    hide LogInv, ModeInv;
    if x.writer.Some? {
      TargetAppend(m.log, m.vals, Start(t), 0, x.base, x.writer.value, b, m.txs[x.writer.value]);
    }
  }

  lemma {:induction false} EndForceBlk(s: State, t: nat, b: BlockId) returns (n: Mgr)
    requires Inv(s) && Enabled(s, EndForce(t)) && b in s.blocks
    ensures n == StepMgr(s, EndForce(t)) && MgrInv(n) && BlkInv(n, b, StepBlk(s.m, EndForce(t), b, s.blocks[b]))
  {
    hide LogInv, FrameInv, ModeInv, CanPut, StartsFirst, SetsFrom, SameTarget, FinishedIn, WriterInv;
    n := StepMgr(s, EndForce(t));
    MgrStep(s, EndForce(t));
    var m, x := s.m, s.blocks[b];
    assert BlkInv(m, b, x) && PhaseInv(m.log, m.vals, t, m.txs[t]) && !FinishedIn(m.log, t);
    hide Enabled, StepMgr, BlkInv, MgrInv, PhaseInv, Forced;
    EndRecordTarget(m, n, t, b, x);
    AppendBlk(m, n, EndRecord(t, m.txs[t].commit), 0, b, x);
  }

  /** The end record changes no writer's page, and what the writer has changed is written. */
  lemma {:induction false} EndRecordTarget(m: Mgr, n: Mgr, t: nat, b: BlockId, x: Blk)
    requires MgrInv(m) && MgrInv(n) && BlkInv(m, b, x) && m.mode == Normal && t in m.txs && m.txs[t].Forcing?
    requires n == Appended(m, EndRecord(t, m.txs[t].commit), 0).(txs := m.txs[t := Ending(m.txs[t].commit, |m.log| + 1)])
    requires x.frame.Some? ==> x.frame.value.tx != Some(t)
    ensures SameTarget(m, n, b, x)
  {
    hide LogInv, ModeInv;
    var r := EndRecord(t, m.txs[t].commit);
    if x.writer == Some(t) {
      ReplayAppend(x.base, m.log, m.vals, r, 0, {t}, b);
    } else if x.writer.Some? {
      TargetAppend(m.log, m.vals, r, 0, x.base, x.writer.value, b, m.txs[x.writer.value]);
    }
  }

  /** The lock is taken on a block whose page is settled. */
  lemma {:induction false} LockBlk(m: Mgr, t: nat, b: BlockId, x: Blk)
    requires MgrInv(m) && m.mode == Normal && BlkInv(m, b, x) && x.writer == None && t in m.txs && m.txs[t] == Active
    ensures BlkInv(m, b, x.(writer := Some(t)))
  {
    var y := x.(writer := Some(t));
    UnfinishedOwns(m.log, m.saved, b, x, t);
    FaithfulNothing(x.base, m.log, m.vals, t, b);
    ReplayNothing(x.base, m.log, m.vals, t, b);
    forall k | m.saved <= k <= |m.log| ensures PrefixInv(m.log[..k], m.vals[..k], b, y) {
      assert PrefixInv(m.log[..k], m.vals[..k], b, x);
      var log, vals, c := m.log[..k], m.vals[..k], Committed(m.log[..k]);
      assert c - {} == c;
      ReplayAgrees(x.start, log, vals, c - {t}, c, b);
      ReplayAgrees(x.start, log, vals, c + {t}, c, b);
      ReplayNothing(x.base, log, vals, t, b);
    }
    forall k | 0 <= k < |m.log| && m.log[k].SetInt? && m.log[k].blk == b
      ensures FinishedBy(m.log, k, m.saved, m.log[k].tx)
    {
      assert x.writer != Some(m.log[k].tx);
    }
    assert RecordsInv(m.log, m.saved, b, y);
  }

  /** The update is logged, not yet made. */
  lemma {:induction false} LogSetHere(m: Mgr, n: Mgr, t: nat, b: BlockId, x: Blk, offset: int, v: int32)
    requires MgrInv(m) && m.mode == Normal && BlkInv(m, b, x) && MgrInv(n) && In(m, t, Active) && x.writer == Some(t)
    requires x.frame.Some? && Fits(x.frame.value.page, offset)
    requires n == Appended(m, SetInt(t, b, offset, GetInt(x.frame.value.page, offset)), v)
                  .(txs := m.txs[t := Writing(b, offset, v, |m.log| + 1)])
    ensures BlkInv(n, b, x)
  {
    hide Replay, Faithful, Covered, GetInt;
    AppendSet(m.log, m.vals, m.saved, SetInt(t, b, offset, GetInt(x.frame.value.page, offset)), v, b, x);
    assert n.log[..|m.log|] == m.log && n.vals[..|m.log|] == m.vals;
    FrameMore(m, n, b, x);
  }

  lemma {:induction false} LogSetThere(m: Mgr, n: Mgr, t: nat, c: BlockId, r: Rec, v: int32, b: BlockId, x: Blk)
    requires MgrInv(m) && m.mode == Normal && BlkInv(m, b, x) && MgrInv(n) && In(m, t, Active) && b != c
    requires r.SetInt? && r.tx == t && r.blk == c
    requires n == Appended(m, r, v).(txs := m.txs[t := Writing(c, r.offset, v, |m.log| + 1)])
    ensures BlkInv(n, b, x)
  {
    hide LogInv, FrameInv, WriterInv, PhaseInv, ModeInv, SameTarget;
    LogSetTarget(m, n, t, c, r, v, b, x);
    AppendBlk(m, n, r, v, b, x);
  }

  lemma {:induction false} LogSetTarget(m: Mgr, n: Mgr, t: nat, c: BlockId, r: Rec, v: int32, b: BlockId, x: Blk)
    requires MgrInv(m) && m.mode == Normal && BlkInv(m, b, x) && MgrInv(n) && In(m, t, Active) && b != c
    requires r.SetInt? && r.tx == t && r.blk == c
    requires n == Appended(m, r, v).(txs := m.txs[t := Writing(c, r.offset, v, |m.log| + 1)])
    ensures SameTarget(m, n, b, x)
  {
    hide LogInv, ModeInv;
    if x.writer == Some(t) {
      ReplayAppend(x.base, m.log, m.vals, r, v, {t}, b);
    } else if x.writer.Some? {
      TargetAppend(m.log, m.vals, r, v, x.base, x.writer.value, b, m.txs[x.writer.value]);
    }
  }

  lemma {:induction false} LogSetBlk(s: State, t: nat, c: BlockId, offset: int, v: int32, b: BlockId) returns (n: Mgr)
    requires Inv(s) && Enabled(s, LogSet(t, c, offset, v)) && b in s.blocks
    ensures n == StepMgr(s, LogSet(t, c, offset, v)) && MgrInv(n) && BlkInv(n, b, StepBlk(s.m, LogSet(t, c, offset, v), b, s.blocks[b]))
  {
    hide LogInv, FrameInv, WriterInv, PhaseInv, ModeInv;
    n := StepMgr(s, LogSet(t, c, offset, v));
    MgrStep(s, LogSet(t, c, offset, v));
    assert BlkInv(s.m, b, s.blocks[b]);
    hide Inv, Enabled, StepMgr, BlkInv, MgrInv, GetInt, Fits;
    if b == c {
      LogSetHere(s.m, n, t, b, s.blocks[b], offset, v);
    } else {
      LogSetThere(s.m, n, t, c, SetInt(t, c, offset, GetInt(s.blocks[c].frame.value.page, offset)), v, b, s.blocks[b]);
    }
  }

  lemma {:induction false} WriteHere(m: Mgr, n: Mgr, t: nat, b: BlockId, x: Blk)
    requires MgrInv(m) && m.mode == Normal && BlkInv(m, b, x) && t in m.txs && m.txs[t].Writing? && m.txs[t].blk == b
    requires x.frame.Some? && Fits(x.frame.value.page, m.txs[t].offset)
    requires MgrInv(n) && n == m.(txs := m.txs[t := Active])
    ensures BlkInv(n, b, Put(x, m.txs[t].offset, m.txs[t].n, t, m.txs[t].lsn))
  {
    var w := m.txs[t];
    var y := Put(x, w.offset, w.n, t, w.lsn);
    UnfinishedOwns(m.log, m.saved, b, x, t);
    WrittenIs(m.log, m.vals, x.base, t, b, w);
    ReplayCovered(x.base, m.log[..w.lsn], m.vals[..w.lsn], t, b);
    CoveredMore(Cur(y), x.base, m.log, w.lsn, SavedTo(m, w.lsn), t, b);
  }

  /** The logged value reaches the page. */
  lemma {:induction false} WriteSetBlk(s: State, t: nat, b: BlockId) returns (n: Mgr)
    requires Inv(s) && Enabled(s, WriteSet(t)) && b in s.blocks
    ensures n == StepMgr(s, WriteSet(t)) && MgrInv(n) && BlkInv(n, b, StepBlk(s.m, WriteSet(t), b, s.blocks[b]))
  {
    n := StepMgr(s, WriteSet(t));
    MgrStep(s, WriteSet(t));
    var m, x := s.m, s.blocks[b];
    hide Inv, Enabled, StepMgr, PutInt, ModeInv;
    if m.txs[t].blk == b {
      WriteHere(m, n, t, b, x);
    } else {
      QuietBlk(m, n, b, x);
    }
  }

  lemma {:induction false} WrittenIs(log: seq<Rec>, vals: seq<int32>, base: Bytes, t: nat, b: BlockId, w: Phase)
    requires w.Writing? && w.blk == b && PhaseInv(log, vals, t, w)
    requires Fits(base, w.offset)
    ensures PutInt(Upto(log, vals, base, t, b, w.lsn - 1), w.offset, w.n) == Upto(log, vals, base, t, b, w.lsn)
    ensures Upto(log, vals, base, t, b, w.lsn) == Replay(base, log, vals, {t}, b)
  {
    var k := w.lsn - 1;
    assert log[..w.lsn] == log[..k] + [log[k]] && vals[..w.lsn] == vals[..k] + [vals[k]];
    ReplayAppend(base, log[..k], vals[..k], log[k], vals[k], {t}, b);
    assert forall j :: w.lsn <= j < |log| ==> !Updates(log[j], t, b);
    ReplayEnds(base, log, vals, w.lsn, t, b);
  }

  lemma {:induction false} LoadBlk(m: Mgr, lsn: int, b: BlockId, x: Blk)
    requires MgrInv(m) && BlkInv(m, b, x) && x.frame == None && m.mode != Down
    ensures BlkInv(m, b, x.(frame := Some(Frame(x.disk, None, lsn))))
  {
    var y := x.(frame := Some(Frame(x.disk, None, lsn)));
    assert forall k :: m.saved <= k <= |m.log| ==> PrefixInv(m.log[..k], m.vals[..k], b, x) ==> PrefixInv(m.log[..k], m.vals[..k], b, y);
    assert RecordsInv(m.log, m.saved, b, y);
  }

  lemma {:induction false} EvictBlk(m: Mgr, b: BlockId, x: Blk)
    requires MgrInv(m) && BlkInv(m, b, x) && x.frame.Some? && x.frame.value.tx == None
    ensures BlkInv(m, b, x.(frame := None))
  {
    var y := x.(frame := None);
    assert forall k :: m.saved <= k <= |m.log| ==> PrefixInv(m.log[..k], m.vals[..k], b, x) ==> PrefixInv(m.log[..k], m.vals[..k], b, y);
    assert RecordsInv(m.log, m.saved, b, y);
  }

  /** The buffer is written: the log first, as far as the buffer's lsn asks. */
  lemma {:induction false} FlushBlk(m: Mgr, n: Mgr, b: BlockId, x: Blk)
    requires MgrInv(m) && BlkInv(m, b, x) && x.frame.Some? && x.frame.value.tx.Some? && MgrInv(n)
    requires n == m.(saved := SavedTo(m, x.frame.value.lsn))
    ensures BlkInv(n, b, x.(disk := x.frame.value.page, frame := Some(x.frame.value.(tx := None))))
  {
    var y := x.(disk := x.frame.value.page, frame := Some(x.frame.value.(tx := None)));
    SavedMore(m.log, m.vals, m.saved, n.saved, b, x);
    assert forall k :: n.saved <= k <= |m.log| ==> PrefixInv(m.log[..k], m.vals[..k], b, x) ==> PrefixInv(m.log[..k], m.vals[..k], b, y);
    assert RecordsInv(m.log, n.saved, b, y);
  }

  lemma {:induction false} FlushFrameBlk(s: State, c: BlockId, b: BlockId) returns (n: Mgr)
    requires Inv(s) && Enabled(s, FlushFrame(c)) && b in s.blocks
    ensures n == StepMgr(s, FlushFrame(c)) && MgrInv(n) && BlkInv(n, b, StepBlk(s.m, FlushFrame(c), b, s.blocks[b]))
  {
    n := StepMgr(s, FlushFrame(c));
    MgrStep(s, FlushFrame(c));
    if b == c {
      FlushBlk(s.m, n, b, s.blocks[b]);
    } else {
      QuietBlk(s.m, n, b, s.blocks[b]);
    }
  }

  lemma {:induction false} StartEndBlk(s: State, a: Action, b: BlockId) returns (n: Mgr)
    requires Inv(s) && Enabled(s, a) && (a.StartCommit? || a.StartRollback?) && b in s.blocks
    ensures n == StepMgr(s, a) && MgrInv(n) && BlkInv(n, b, StepBlk(s.m, a, b, s.blocks[b]))
  {
    hide LogInv, ModeInv, Restarted, Forced, CanPut;
    n := StepMgr(s, a);
    MgrStep(s, a);
    assert s.m.log[..|s.m.log|] == s.m.log && s.m.vals[..|s.m.vals|] == s.m.vals;
    QuietBlk(s.m, StepMgr(s, a), b, s.blocks[b]);
  }

  /** Undoing the newest update takes the page one update back. */
  lemma {:induction false} UndoneIs(log: seq<Rec>, vals: seq<int32>, base: Bytes, t: nat, b: BlockId, pos: nat)
    requires 0 < pos <= |log| == |vals| && Faithful(base, log, vals, t, b)
    ensures var r := log[pos - 1]; var p := Upto(log, vals, base, t, b, pos); var q := Upto(log, vals, base, t, b, pos - 1);
      if Updates(r, t, b) then Fits(p, r.offset) && PutInt(p, r.offset, r.was) == q else p == q
  {
    FaithfulUpTo(base, log, vals, pos, t, b);
    var k := pos - 1;
    assert log[..pos] == log[..k] + [log[k]] && vals[..pos] == vals[..k] + [vals[k]];
    assert log[..pos][..k] == log[..k] && vals[..pos][..k] == vals[..k];
    ReplayAppend(base, log[..k], vals[..k], log[k], vals[k], {t}, b);
    if Updates(log[k], t, b) {
      PutBack(Upto(log, vals, base, t, b, k), log[k].offset, vals[k]);
    }
  }

  lemma {:induction false} AtStart(log: seq<Rec>, vals: seq<int32>, base: Bytes, t: nat, b: BlockId, pos: nat)
    requires pos <= |log| == |vals| && StartsFirst(log, t) && (pos == 0 || log[pos - 1] == Start(t))
    ensures Upto(log, vals, base, t, b, pos) == base
  {
    assert pos > 0 ==> !SetsBefore(log, t, pos - 1);
    ReplayNothing(base, log[..pos], vals[..pos], t, b);
  }

  /** A block whose page changes and nothing else. */
  lemma {:induction false} SameLog(log: seq<Rec>, vals: seq<int32>, saved: nat, b: BlockId, x: Blk, y: Blk)
    requires LogInv(log, vals, saved, b, x)
    requires x.writer == y.writer && x.base == y.base && x.start == y.start && x.disk == y.disk
    ensures LogInv(log, vals, saved, b, y)
  {
    assert forall k :: saved <= k <= |log| ==> PrefixInv(log[..k], vals[..k], b, x) ==> PrefixInv(log[..k], vals[..k], b, y);
    assert RecordsInv(log, saved, b, y);
  }

  lemma {:induction false} UndoPage(m: Mgr, n: Mgr, t: nat, b: BlockId, x: Blk)
    requires MgrInv(m) && m.mode == Normal && BlkInv(m, b, x) && x.writer == Some(t) && x.frame.Some?
    requires t in m.txs && m.txs[t].RollingBack? && 0 < m.txs[t].pos && Updates(m.log[m.txs[t].pos - 1], t, b)
    requires MgrInv(n) && n == m.(txs := m.txs[t := RollingBack(m.txs[t].pos - 1)])
    requires Fits(x.frame.value.page, m.log[m.txs[t].pos - 1].offset)
    ensures BlkInv(n, b, Put(x, m.log[m.txs[t].pos - 1].offset, m.log[m.txs[t].pos - 1].was, t, -1))
  {
    var pos := m.txs[t].pos;
    var y := Put(x, m.log[pos - 1].offset, m.log[pos - 1].was, t, -1);
    UndoneIs(m.log, m.vals, x.base, t, b, pos);
    ReplayCovered(x.base, m.log[..pos - 1], m.vals[..pos - 1], t, b);
    CoveredMore(Cur(y), x.base, m.log, pos - 1, SavedTo(m, x.frame.value.lsn), t, b);
    SameLog(m.log, m.vals, m.saved, b, x, y);
  }

  predicate AtUpdate(m: Mgr, t: nat, b: BlockId) {
    && t in m.txs && m.txs[t].RollingBack?
    && 0 < m.txs[t].pos <= |m.log| && Updates(m.log[m.txs[t].pos - 1], t, b)
  }

  function UndoneTo(m: Mgr, t: nat): Mgr
    requires t in m.txs && m.txs[t].RollingBack? && m.txs[t].pos <= |m.log|
  {
    var pos := m.txs[t].pos;
    m.(txs := m.txs[t := if pos == 0 || m.log[pos - 1] == Start(t) then Forcing(false) else RollingBack(pos - 1)])
  }

  lemma {:induction false} UndoQuiet(m: Mgr, t: nat, b: BlockId, x: Blk)
    requires MgrInv(m) && m.mode == Normal && BlkInv(m, b, x) && t in m.txs && m.txs[t].RollingBack?
    requires !AtUpdate(m, t, b) && MgrInv(UndoneTo(m, t))
    ensures BlkInv(UndoneTo(m, t), b, x)
  {
    hide LogInv, FrameInv, WriterInv, PhaseInv, ModeInv;
    UndoSameTarget(m, t, b, x);
    QuietBlk(m, UndoneTo(m, t), b, x);
  }

  lemma {:induction false} UndoSameTarget(m: Mgr, t: nat, b: BlockId, x: Blk)
    requires MgrInv(m) && m.mode == Normal && BlkInv(m, b, x) && t in m.txs && m.txs[t].RollingBack?
    requires !AtUpdate(m, t, b) && MgrInv(UndoneTo(m, t))
    ensures SameTarget(m, UndoneTo(m, t), b, x)
  {
    hide FrameInv, ModeInv, PrefixInv, RecordsInv, SetsFrom, FinishedIn, Replay, Upto, PutInt, Fits;
    var pos := m.txs[t].pos;
    if x.writer == Some(t) {
      if pos == 0 || m.log[pos - 1] == Start(t) {
        AtStart(m.log, m.vals, x.base, t, b, pos);
      } else {
        UndoneIs(m.log, m.vals, x.base, t, b, pos);
      }
    }
  }

  lemma {:induction false} OwnsUpdate(m: Mgr, b: BlockId, x: Blk, t: nat, k: nat)
    requires MgrInv(m) && BlkInv(m, b, x) && k < |m.log| && Updates(m.log[k], t, b) && !FinishedIn(m.log, t)
    ensures x.writer == Some(t)
  {
    UnfinishedOwns(m.log, m.saved, b, x, t);
  }

  lemma {:induction false} UndoneState(s: State, t: nat, b: BlockId)
    requires Inv(s) && Enabled(s, UndoStep(t)) && b in s.blocks
    ensures var m := s.m;
      && m.mode == Normal && t in m.txs && m.txs[t].RollingBack? && m.txs[t].pos <= |m.log|
      && StepMgr(s, UndoStep(t)) == UndoneTo(m, t) && MgrInv(UndoneTo(m, t))
  {
    hide BlkInv, LogInv, PhaseInv, CanPut;
    MgrStep(s, UndoStep(t));
  }

  lemma {:induction false} UndoneBlk(s: State, t: nat, b: BlockId)
    requires Enabled(s, UndoStep(t)) && b in s.blocks
    ensures var m, x := s.m, s.blocks[b];
      StepBlk(m, UndoStep(t), b, x)
      == if AtUpdate(m, t, b) then Put(x, m.log[m.txs[t].pos - 1].offset, m.log[m.txs[t].pos - 1].was, t, -1) else x
    ensures AtUpdate(s.m, t, b) ==> s.blocks[b].frame.Some? && Fits(s.blocks[b].frame.value.page, s.m.log[s.m.txs[t].pos - 1].offset)
  {
    hide Fits, Put, StepMgr;
  }

  lemma {:induction false} UndoBlk(s: State, t: nat, b: BlockId) returns (n: Mgr)
    requires Inv(s) && Enabled(s, UndoStep(t)) && b in s.blocks
    ensures n == StepMgr(s, UndoStep(t)) && MgrInv(n) && BlkInv(n, b, StepBlk(s.m, UndoStep(t), b, s.blocks[b]))
  {
    hide Enabled, StepMgr, StepBlk, LogInv, FrameInv, WriterInv, PhaseInv;
    var m, x := s.m, s.blocks[b];
    UndoneState(s, t, b);
    UndoneBlk(s, t, b);
    n := UndoneTo(m, t);
    assert BlkInv(m, b, x) && PhaseInv(m.log, m.vals, t, m.txs[t]);
    hide *;
    if AtUpdate(m, t, b) {
      UndoOwn(m, t, b, x);
    } else {
      UndoQuiet(m, t, b, x);
    }
  }

  lemma {:induction false} UndoOwn(m: Mgr, t: nat, b: BlockId, x: Blk)
    requires MgrInv(m) && m.mode == Normal && BlkInv(m, b, x) && x.frame.Some?
    requires AtUpdate(m, t, b) && MgrInv(UndoneTo(m, t)) && PhaseInv(m.log, m.vals, t, m.txs[t])
    requires Fits(x.frame.value.page, m.log[m.txs[t].pos - 1].offset)
    ensures BlkInv(UndoneTo(m, t), b, Put(x, m.log[m.txs[t].pos - 1].offset, m.log[m.txs[t].pos - 1].was, t, -1))
  {
    hide BlkInv, MgrInv, StartsFirst, Fits, Put;
    OwnsUpdate(m, b, x, t, m.txs[t].pos - 1);
    UndoPage(m, UndoneTo(m, t), t, b, x);
  }

  // ---------------------------------------------------------------- settling a block

  lemma {:induction false} CutLog(log: seq<Rec>, vals: seq<int32>, saved: nat, b: BlockId, x: Blk)
    requires LogInv(log, vals, saved, b, x)
    ensures LogInv(log[..saved], vals[..saved], saved, b, x)
  {
    var cut := log[..saved];
    forall k | 0 <= k < saved && cut[k].SetInt? && cut[k].blk == b && x.writer != Some(cut[k].tx)
      ensures FinishedBy(cut, k, saved, cut[k].tx)
    {
      assert FinishedBy(log, k, saved, log[k].tx);
      var j :| k < j < saved && 0 <= j < |log| && Finishes(log[j], log[k].tx);
      assert cut[j] == log[j];
    }
    assert cut[..saved] == cut && vals[..saved][..saved] == vals[..saved];
    if x.writer.Some? {
      FaithfulUpTo(x.base, log, vals, saved, x.writer.value, b);
    }
  }

  /** The finish record of the writer t is durable and the page on disk is as t leaves it: the block needs
      no owner any more, and the page is the new base. */
  lemma {:induction false} SettleLog(log: seq<Rec>, vals: seq<int32>, saved: nat, p: Phase, t: nat, b: BlockId, x: Blk)
    requires LogInv(log, vals, saved, b, x) && x.writer == Some(t)
    requires p.Ending? && PhaseInv(log, vals, t, p) && p.lsn <= saved
    requires x.disk == Target(log, vals, x.base, t, b, p)
    ensures LogInv(log, vals, saved, b, x.(writer := None, base := x.disk))
  {
    var y := x.(writer := None, base := x.disk);
    var f := p.lsn - 1;
    forall k | 0 <= k < |log| && log[k].SetInt? && log[k].blk == b ensures FinishedBy(log, k, saved, log[k].tx) {
      if log[k].tx == t {
        assert k < f;
        assert Finishes(log[f], t);
      } else {
        assert x.writer != Some(log[k].tx);
      }
    }
    forall k | saved <= k <= |log| ensures PrefixInv(log[..k], vals[..k], b, y) {
      SettlePrefix(log, vals, k, p, t, b, x);
    }
  }

  lemma {:induction false} SettlePrefix(log: seq<Rec>, vals: seq<int32>, k: nat, p: Phase, t: nat, b: BlockId, x: Blk)
    requires k <= |log| == |vals| && PrefixInv(log[..k], vals[..k], b, x) && x.writer == Some(t)
    requires p.Ending? && PhaseInv(log, vals, t, p) && p.lsn <= k
    ensures PrefixInv(log[..k], vals[..k], b, x.(writer := None, base := Target(log, vals, x.base, t, b, p)))
  {
    var cut := log[..k];
    var c := Committed(cut);
    var f := p.lsn - 1;
    assert cut[f] == log[f];
    assert c - {} == c;
    if p.commit {
      assert t in c;
      assert c + {t} == c;
      assert forall j :: k <= j < |log| ==> !Updates(log[j], t, b);
      ReplayEnds(x.base, log, vals, k, t, b);
    } else {
      if t in c {
        var i :| 0 <= i < |cut| && cut[i].Commit? && cut[i].tx == t;
        assert Finishes(log[i], t) && i != f;
        assert false;
      }
      assert c - {t} == c;
    }
  }

  lemma {:induction false} FinishBlk(s: State, t: nat, b: BlockId) returns (n: Mgr)
    requires Inv(s) && Enabled(s, Finish(t)) && b in s.blocks
    ensures n == StepMgr(s, Finish(t)) && MgrInv(n) && BlkInv(n, b, StepBlk(s.m, Finish(t), b, s.blocks[b]))
  {
    hide LogInv, ModeInv, CanPut, SetsFrom, StartsFirst, Replay;
    n := StepMgr(s, Finish(t));
    MgrStep(s, Finish(t));
    var m, x := s.m, s.blocks[b];
    if x.writer == Some(t) {
      SavedMore(m.log, m.vals, m.saved, n.saved, b, x);
      SettleLog(m.log, m.vals, n.saved, m.txs[t], t, b, x);
      assert x.frame.Some? ==> x.frame.value.page == x.disk;
      SameLog(m.log, m.vals, n.saved, b, x.(writer := None, base := x.disk), Settled(x));
    } else {
      QuietBlk(m, n, b, x);
    }
  }

  /** The durable log no longer matters once it ends at a checkpoint. */
  lemma {:induction false} CheckpointLog(b: BlockId, y: Blk)
    requires y.writer == None && y.base == y.disk == y.start
    ensures LogInv([], [], 0, b, y)
  {
    var log: seq<Rec>, vals: seq<int32> := [], [];
    forall k | 0 <= k <= |log| ensures PrefixInv(log[..k], vals[..k], b, y) {
      assert log[..k] == log && vals[..k] == vals;
    }
  }

  // ---------------------------------------------------------------- crash and recovery

  lemma {:induction false} CrashBlk(s: State, b: BlockId) returns (n: Mgr)
    requires Inv(s) && Enabled(s, Crash) && b in s.blocks
    ensures n == StepMgr(s, Crash) && MgrInv(n) && BlkInv(n, b, StepBlk(s.m, Crash, b, s.blocks[b]))
  {
    n := Restarted(s.m);
    MgrStep(s, Crash);
    var m, x := s.m, s.blocks[b];
    var y := RestartedBlk(m, x);
    if EndsAtCheckpoint(m.log[..m.saved]) {
      CheckpointLog(b, y);
    } else {
      CutLog(m.log, m.vals, m.saved, b, x);
      if x.writer.Some? && FinishedIn(m.log[..m.saved], x.writer.value) {
        CrashEnding(m, b, x);
        SettleLog(n.log, n.vals, n.saved, m.txs[x.writer.value], x.writer.value, b, x);
        SameLog(n.log, n.vals, n.saved, b, x.(writer := None, base := x.disk), y);
      } else {
        SameLog(n.log, n.vals, n.saved, b, x, y);
      }
    }
  }

  lemma {:induction false} FinishedPrefix(log: seq<Rec>, k: nat, t: nat)
    requires k <= |log| && FinishedIn(log[..k], t)
    ensures FinishedIn(log, t)
  {
    var i :| 0 <= i < k && Finishes(log[..k][i], t);
    assert Finishes(log[i], t);
  }

  lemma {:induction false} EndedInCut(log: seq<Rec>, vals: seq<int32>, k: nat, t: nat, p: Phase)
    requires PhaseInv(log, vals, t, p) && p.Ending? && k <= |log| && FinishedIn(log[..k], t)
    ensures p.lsn <= k && PhaseInv(log[..k], vals[..k], t, p)
  {
    var cut := log[..k];
    var i :| 0 <= i < k && Finishes(cut[i], t);
    assert Finishes(log[i], t);
    assert i == p.lsn - 1;
    forall j | p.lsn <= j < |cut| ensures !(cut[j].SetInt? && cut[j].tx == t) {
      assert cut[j] == log[j];
    }
    forall j | 0 <= j < |cut| && cut[j] == Start(t) ensures !SetsBefore(cut, t, j) {
      assert log[j] == Start(t) && !SetsBefore(log, t, j);
    }
  }

  /** A durable finish record finds its transaction's pages on disk. */
  lemma {:induction false} CrashEnding(m: Mgr, b: BlockId, x: Blk)
    requires MgrInv(m) && BlkInv(m, b, x) && x.writer.Some? && FinishedIn(m.log[..m.saved], x.writer.value)
    ensures var t := x.writer.value;
      && t in m.txs && m.txs[t].Ending? && m.txs[t].lsn <= m.saved
      && PhaseInv(m.log[..m.saved], m.vals[..m.saved], t, m.txs[t])
      && x.disk == Target(m.log[..m.saved], m.vals[..m.saved], x.base, t, b, m.txs[t])
  {
    var t := x.writer.value;
    FinishedPrefix(m.log, m.saved, t);
    var p := m.txs[t];
    EndedInCut(m.log, m.vals, m.saved, t, p);
    assert forall j :: m.saved <= j < |m.log| ==> !Updates(m.log[j], t, b);
    ReplayEnds(x.base, m.log, m.vals, m.saved, t, b);
    assert x.frame.Some? ==> x.frame.value.page == x.disk;
  }

  lemma {:induction false} BeginRecoveryBlk(s: State, t: nat, b: BlockId) returns (n: Mgr)
    requires Inv(s) && Enabled(s, BeginRecovery(t)) && b in s.blocks
    ensures n == StepMgr(s, BeginRecovery(t)) && MgrInv(n) && BlkInv(n, b, StepBlk(s.m, BeginRecovery(t), b, s.blocks[b]))
  {
    hide LogInv, PhaseInv, CanPut, SetsFrom, StartsFirst, Fits;
    n := StepMgr(s, BeginRecovery(t));
    MgrStep(s, BeginRecovery(t));
    var m, x := s.m, s.blocks[b];
    AppendOther(m.log, m.vals, m.saved, Start(t), 0, b, x);
    SavedMore(n.log, n.vals, m.saved, n.saved, b, x);
    if x.writer.Some? {
      NotFinishedAppend(m.log, Start(t), x.writer.value);
      assert n.log[..|n.log|] == n.log;
    }
  }

  /** The newest record not yet treated is undone exactly when its transaction is the block's writer. */
  lemma {:induction false} LoserOnly(m: Mgr, b: BlockId, x: Blk)
    requires MgrInv(m) && BlkInv(m, b, x) && m.mode.Recovering? && m.mode.pos > 0
    requires m.log[m.mode.pos - 1].SetInt? && m.log[m.mode.pos - 1].blk == b
    ensures m.log[m.mode.pos - 1].tx !in m.mode.done <==> x.writer == Some(m.log[m.mode.pos - 1].tx)
  {
    var k := m.mode.pos - 1;
    var u := m.log[k].tx;
    if x.writer == Some(u) {
      assert !FinishedAfter(m.log, k, u) by {
        assert !FinishedIn(m.log, u);
      }
    } else {
      assert FinishedBy(m.log, k, m.saved, u);
      assert FinishedAfter(m.log, k, u);
    }
  }

  lemma {:induction false} CoveredBack(p: Bytes, q: Bytes, log: seq<Rec>, pos: nat, t: nat, b: BlockId)
    requires 0 < pos <= |log| && Covered(p, q, log[..pos], t, b) && !Updates(log[pos - 1], t, b)
    ensures Covered(p, q, log[..pos - 1], t, b)
  {
    var cut := log[..pos];
    assert cut[..pos - 1] == log[..pos - 1];
    forall i | 0 <= i < |p| && p[i] != q[i] ensures Touched(log[..pos - 1], t, b, i) {
      if !Touched(cut[..|cut| - 1], t, b, i) {
        NotTouched(cut, t, b, i);
      }
    }
  }

  /** One undo of the recovery, on the block it is for. */
  lemma {:induction false} RecoverPage(m: Mgr, n: Mgr, b: BlockId, x: Blk)
    requires MgrInv(m) && BlkInv(m, b, x) && m.mode.Recovering? && m.mode.pos > 0 && x.frame.Some?
    requires var r := m.log[m.mode.pos - 1]; Updates(r, r.tx, b) && x.writer == Some(r.tx) && Fits(x.frame.value.page, r.offset)
    requires MgrInv(n) && n == m.(mode := Recovering(m.mode.rtx, m.mode.pos - 1, m.mode.done))
    ensures var r := m.log[m.mode.pos - 1]; BlkInv(n, b, Put(x, r.offset, r.was, m.mode.rtx, -1))
  {
    var pos := m.mode.pos;
    var r := m.log[pos - 1];
    var y := Put(x, r.offset, r.was, m.mode.rtx, -1);
    FaithfulUpTo(x.base, m.log, m.vals, pos, r.tx, b);
    UndoStepCovered(x.base, Cur(x), m.log[..pos], m.vals[..pos], r.tx, b);
    assert m.log[..pos][..pos - 1] == m.log[..pos - 1];
    CoveredMore(Cur(y), x.base, m.log, pos - 1, SavedTo(m, x.frame.value.lsn), r.tx, b);
    SameLog(m.log, m.vals, m.saved, b, x, y);
  }

  lemma {:induction false} RecoverQuiet(m: Mgr, n: Mgr, b: BlockId, x: Blk)
    requires MgrInv(m) && BlkInv(m, b, x) && m.mode.Recovering? && m.mode.pos > 0
    requires x.writer.Some? ==> !Updates(m.log[m.mode.pos - 1], x.writer.value, b)
    requires MgrInv(n) && n.mode.Recovering? && n.mode.rtx == m.mode.rtx && n.mode.pos == m.mode.pos - 1 && n == m.(mode := n.mode)
    ensures BlkInv(n, b, x)
  {
    if x.writer.Some? {
      CoveredBack(Cur(x), x.base, m.log, m.mode.pos, x.writer.value, b);
    }
    FrameSame(m, n, b, x);
  }

  lemma {:induction false} FrameSame(m: Mgr, n: Mgr, b: BlockId, x: Blk)
    requires FrameInv(m, b, x) && m.log == n.log && m.saved == n.saved && Dirtier(m, x) == Dirtier(n, x)
    ensures FrameInv(n, b, x)
  {
  }

  lemma {:induction false} RecoverBlk(s: State, b: BlockId) returns (n: Mgr)
    requires Inv(s) && Enabled(s, RecoverStep) && b in s.blocks
    ensures n == StepMgr(s, RecoverStep) && MgrInv(n) && BlkInv(n, b, StepBlk(s.m, RecoverStep, b, s.blocks[b]))
  {
    hide LogInv, PhaseInv, Restarted, Forced, Fits, SavedTo;
    n := StepMgr(s, RecoverStep);
    MgrStep(s, RecoverStep);
    var m, x := s.m, s.blocks[b];
    assert BlkInv(m, b, x);
    if m.mode.pos == 0 {
      assert m.log[..0] == [];
      FrameSame(m, n, b, x);
    } else {
      var r := m.log[m.mode.pos - 1];
      if r.SetInt? && r.blk == b {
        LoserOnly(m, b, x);
      }
      if r.SetInt? && r.blk == b && r.tx !in m.mode.done {
        RecoverPage(m, n, b, x);
      } else {
        RecoverQuiet(m, n, b, x);
      }
    }
  }

  lemma {:induction false} EndRecoverForceBlk(s: State, b: BlockId) returns (n: Mgr)
    requires Inv(s) && Enabled(s, EndRecoverForce) && b in s.blocks
    ensures n == StepMgr(s, EndRecoverForce) && MgrInv(n) && BlkInv(n, b, StepBlk(s.m, EndRecoverForce, b, s.blocks[b]))
  {
    hide LogInv, PhaseInv, CanPut, SetsFrom, StartsFirst, Fits;
    n := StepMgr(s, EndRecoverForce);
    MgrStep(s, EndRecoverForce);
    var m, x := s.m, s.blocks[b];
    AppendOther(m.log, m.vals, m.saved, Checkpoint, 0, b, x);
    if x.writer.Some? {
      NotFinishedAppend(m.log, Checkpoint, x.writer.value);
    }
  }

  lemma {:induction false} DoneBlk(s: State, b: BlockId) returns (n: Mgr)
    requires Inv(s) && Enabled(s, Done) && b in s.blocks
    ensures n == StepMgr(s, Done) && MgrInv(n) && BlkInv(n, b, StepBlk(s.m, Done, b, s.blocks[b]))
  {
    n := StepMgr(s, Done);
    MgrStep(s, Done);
    CheckpointLog(b, StepBlk(s.m, Done, b, s.blocks[b]));
  }

  lemma {:induction false} SmallStepBlk(s: State, a: Action, b: BlockId)
    requires Inv(s) && Enabled(s, a) && b in s.blocks && (a.Lock? || a.SaveLog? || a.Load? || a.Evict?)
    ensures MgrInv(StepMgr(s, a)) && BlkInv(StepMgr(s, a), b, StepBlk(s.m, a, b, s.blocks[b]))
  {
    hide LogInv, ModeInv, Restarted, Forced, CanPut;
    MgrStep(s, a);
    match a
    case Lock(t, c) =>
      if b == c {
        LockBlk(s.m, t, b, s.blocks[b]);
      }
    case SaveLog => QuietBlk(s.m, StepMgr(s, a), b, s.blocks[b]);
    case Load(c, lsn) =>
      if b == c {
        LoadBlk(s.m, lsn, b, s.blocks[b]);
      }
    case Evict(c) =>
      if b == c {
        EvictBlk(s.m, b, s.blocks[b]);
      }
  }

  lemma {:induction false} BlkStep(s: State, a: Action, b: BlockId)
    requires Inv(s) && Enabled(s, a) && b in s.blocks
    ensures MgrInv(StepMgr(s, a)) && BlkInv(StepMgr(s, a), b, StepBlk(s.m, a, b, s.blocks[b]))
  {
    hide BlkInv, MgrInv, Inv, StepMgr, StepBlk;
    match a
    case Begin(t) => var n := BeginBlk(s, t, b);
    case Lock(t, c) => SmallStepBlk(s, a, b);
    case LogSet(t, c, offset, v) => var n := LogSetBlk(s, t, c, offset, v, b);
    case WriteSet(t) => var n := WriteSetBlk(s, t, b);
    case SaveLog => SmallStepBlk(s, a, b);
    case Load(c, lsn) => SmallStepBlk(s, a, b);
    case FlushFrame(c) => var n := FlushFrameBlk(s, c, b);
    case Evict(c) => SmallStepBlk(s, a, b);
    case StartCommit(t) => var n := StartEndBlk(s, a, b);
    case StartRollback(t) => var n := StartEndBlk(s, a, b);
    case UndoStep(t) => var n := UndoBlk(s, t, b);
    case EndForce(t) => var n := EndForceBlk(s, t, b);
    case Finish(t) => var n := FinishBlk(s, t, b);
    case Crash => var n := CrashBlk(s, b);
    case BeginRecovery(t) => var n := BeginRecoveryBlk(s, t, b);
    case RecoverStep => var n := RecoverBlk(s, b);
    case EndRecoverForce => var n := EndRecoverForceBlk(s, b);
    case Done => var n := DoneBlk(s, b);
  }

  /** Every step keeps the invariant. */
  lemma {:induction false} StepKeeps(s: State, a: Action)
    requires Inv(s) && Enabled(s, a)
    ensures Inv(Step(s, a))
  {
    MgrStep(s, a);
    forall b | b in s.blocks ensures BlkInv(StepMgr(s, a), b, StepBlk(s.m, a, b, s.blocks[b])) {
      BlkStep(s, a, b);
    }
  }

  /** Every reachable state satisfies the invariant. */
  lemma {:induction false} RunKeeps(s: State, acts: seq<Action>)
    requires Inv(s) && Runs(s, acts)
    ensures Inv(Run(s, acts))
    decreases |acts|
  {
    if acts != [] {
      StepKeeps(s, acts[0]);
      RunKeeps(Step(s, acts[0]), acts[1..]);
    }
  }

  lemma {:induction false} FreshKeeps(pages: map<BlockId, Bytes>)
    ensures Inv(Fresh(pages))
  {
    var s := Fresh(pages);
    forall b | b in pages ensures BlkInv(s.m, b, s.blocks[b]) {
      CheckpointLog(b, s.blocks[b]);
    }
  }

  // ---------------------------------------------------------------- main results

  /** What a recovery would leave of block b if the machine stopped now: the disk page, with the durable log
      undone from its end. */
  function AfterRestart(s: State, b: BlockId): Bytes
    requires b in s.blocks && s.m.saved <= |s.m.log|
  {
    Undone(s.blocks[b].disk, s.m.log[..s.m.saved], {}, b)
  }

  /** Exactly the durably committed updates, in log order. */
  ghost function DurablyCommitted(s: State, b: BlockId): Bytes
    requires b in s.blocks && s.m.saved <= |s.m.log| == |s.m.vals|
  {
    var log := s.m.log[..s.m.saved];
    Replay(s.blocks[b].start, log, s.m.vals[..s.m.saved], Committed(log), b)
  }

  lemma {:induction false} RestartBlk(s: State, b: BlockId)
    requires Inv(s) && b in s.blocks
    ensures AfterRestart(s, b) == DurablyCommitted(s, b)
  {
    var m, x := s.m, s.blocks[b];
    var log, vals := m.log[..m.saved], m.vals[..m.saved];
    CutLog(m.log, m.vals, m.saved, b, x);
    assert log[..m.saved] == log && vals[..m.saved] == vals;
    if EndsAtCheckpoint(log) {
      assert m.log[m.saved - 1] == Checkpoint;
      assert log == m.log && vals == m.vals;
      CheckpointBlk(m, b, x);
    } else {
      NoCheckpoint(m);
      RestartLog(m, b, x);
    }
  }

  lemma {:induction false} NoCheckpoint(m: Mgr)
    requires MgrInv(m) && !EndsAtCheckpoint(m.log[..m.saved])
    ensures forall k :: 0 <= k < m.saved ==> m.log[..m.saved][k] != Checkpoint
  {
    forall k | 0 <= k < m.saved ensures m.log[..m.saved][k] != Checkpoint {
      assert m.log[k] == m.log[..m.saved][k];
    }
  }

  lemma {:induction false} CheckpointBlk(m: Mgr, b: BlockId, x: Blk)
    requires MgrInv(m) && BlkInv(m, b, x) && m.mode.Checkpointed?
    ensures x.disk == x.base == Replay(x.start, m.log, m.vals, Committed(m.log), b)
  {
    assert m.log[..|m.log|] == m.log && m.vals[..|m.log|] == m.vals;
    assert PrefixInv(m.log[..|m.log|], m.vals[..|m.log|], b, x);
    UncommittedOwn(m.log, x);
  }

  lemma {:induction false} UncommittedOwn(log: seq<Rec>, x: Blk)
    requires x.writer.Some? ==> !FinishedIn(log, x.writer.value)
    ensures Committed(log) - Own(x) == Committed(log)
  {
    if x.writer.Some? && x.writer.value in Committed(log) {
      CommittedFinished(log, x.writer.value);
    }
  }

  lemma {:induction false} RestartLog(m: Mgr, b: BlockId, x: Blk)
    requires MgrInv(m) && BlkInv(m, b, x) && LogInv(m.log[..m.saved], m.vals[..m.saved], m.saved, b, x)
    requires forall k :: 0 <= k < m.saved ==> m.log[..m.saved][k] != Checkpoint
    ensures Undone(x.disk, m.log[..m.saved], {}, b) == Replay(x.start, m.log[..m.saved], m.vals[..m.saved], Committed(m.log[..m.saved]), b)
  {
    var log, vals := m.log[..m.saved], m.vals[..m.saved];
    assert log[..m.saved] == log && vals[..m.saved] == vals;
    if x.writer.Some? && !FinishedIn(log, x.writer.value) {
      var t := x.writer.value;
      assert OnlyLoser(log, {}, t, b) by {
        forall k | 0 <= k < |log| && log[k].SetInt? && log[k].blk == b && log[k].tx != t ensures FinishedAfter(log, k, log[k].tx) {
          assert FinishedBy(log, k, m.saved, log[k].tx);
        }
      }
      RecoveryIsRollback(x.disk, log, {}, t, b);
      UndoRestores(x.base, x.disk, log, vals, t, b);
      UncommittedOwn(log, x);
    } else {
      var y := x;
      if x.writer.Some? {
        CrashEnding(m, b, x);
        y := x.(writer := None, base := x.disk);
        SettleLog(log, vals, m.saved, m.txs[x.writer.value], x.writer.value, b, x);
      }
      forall k | 0 <= k < |log| && log[k].SetInt? && log[k].blk == b ensures FinishedAfter(log, k, log[k].tx) {
        assert FinishedBy(log, k, m.saved, log[k].tx);
      }
      NothingUndone(x.disk, log, {}, b);
      assert PrefixInv(log[..m.saved], vals[..m.saved], b, y);
      assert Committed(log) - {} == Committed(log);
    }
  }

  /** Crash safety. In every reachable state, also inside a commit, a rollback or a recovery, losing the
      buffers and the unwritten end of the log and then recovering leaves on every block exactly the updates
      of the transactions whose COMMIT record is durable. */
  lemma {:induction false} CrashSafety(pages: map<BlockId, Bytes>, acts: seq<Action>)
    requires Runs(Fresh(pages), acts)
    ensures var s := Run(Fresh(pages), acts); s.blocks.Keys == pages.Keys && Inv(s)
    ensures var s := Run(Fresh(pages), acts); forall b :: b in s.blocks ==> AfterRestart(s, b) == DurablyCommitted(s, b)
  {
    FreshKeeps(pages);
    RunKeeps(Fresh(pages), acts);
    SameBlocks(Fresh(pages), acts);
    var s := Run(Fresh(pages), acts);
    forall b | b in s.blocks ensures AfterRestart(s, b) == DurablyCommitted(s, b) {
      RestartBlk(s, b);
    }
  }

  lemma {:induction false} SameBlocks(s: State, acts: seq<Action>)
    requires Runs(s, acts)
    ensures Run(s, acts).blocks.Keys == s.blocks.Keys
    decreases |acts|
  {
    if acts != [] {
      SameBlocks(Step(s, acts[0]), acts[1..]);
    }
  }

  /** At one place: after a restart it holds the value of the last durably committed write to it. */
  lemma {:induction false} LastCommittedValue(s: State, b: BlockId, k: nat)
    requires Inv(s) && b in s.blocks && k < s.m.saved
    requires var r := s.m.log[k]; r.SetInt? && r.blk == b && r.tx in Committed(s.m.log[..s.m.saved]) && Fits(s.blocks[b].start, r.offset)
    requires forall j :: k < j < s.m.saved && s.m.log[j].SetInt? && s.m.log[j].tx in Committed(s.m.log[..s.m.saved]) && s.m.log[j].blk == b ==>
               Apart(s.m.log[j].offset, s.m.log[k].offset)
    ensures GetInt(AfterRestart(s, b), s.m.log[k].offset) == s.m.vals[k]
  {
    RestartBlk(s, b);
    var log := s.m.log[..s.m.saved];
    assert log[k] == s.m.log[k];
    ReplayLast(s.blocks[b].start, log, s.m.vals[..s.m.saved], Committed(log), b, k);
  }

  /** A place that no durably committed update touches is as it was at the last checkpoint. */
  lemma {:induction false} UntouchedValue(s: State, b: BlockId, offset: int)
    requires Inv(s) && b in s.blocks && Fits(s.blocks[b].start, offset)
    requires forall j :: 0 <= j < s.m.saved && s.m.log[j].SetInt? && s.m.log[j].tx in Committed(s.m.log[..s.m.saved]) && s.m.log[j].blk == b ==>
               Apart(s.m.log[j].offset, offset)
    ensures GetInt(AfterRestart(s, b), offset) == GetInt(s.blocks[b].start, offset)
  {
    RestartBlk(s, b);
    var log := s.m.log[..s.m.saved];
    ReplayUntouched(s.blocks[b].start, log, s.m.vals[..s.m.saved], Committed(log), b, offset);
  }

  /** Recovering again changes nothing. */
  lemma {:induction false} RecoverTwice(s: State, b: BlockId)
    requires Inv(s) && b in s.blocks
    ensures Undone(AfterRestart(s, b), s.m.log[..s.m.saved], {}, b) == AfterRestart(s, b)
  {
    var m, x := s.m, s.blocks[b];
    var log, vals := m.log[..m.saved], m.vals[..m.saved];
    if !EndsAtCheckpoint(log) {
      NoCheckpoint(m);
      CutLog(m.log, m.vals, m.saved, b, x);
      assert log[..m.saved] == log && vals[..m.saved] == vals;
      forall k | 0 <= k < |log| && log[k].SetInt? && log[k].blk == b && x.writer != Some(log[k].tx)
        ensures FinishedAfter(log, k, log[k].tx)
      {
        assert FinishedBy(log, k, m.saved, log[k].tx);
      }
      if x.writer.Some? && !FinishedIn(log, x.writer.value) {
        var t := x.writer.value;
        assert OnlyLoser(log, {}, t, b);
        RecoveryIsRollback(x.disk, log, {}, t, b);
        UndoRestores(x.base, x.disk, log, vals, t, b);
        RecoveryIsRollback(x.base, log, {}, t, b);
        UndoRestores(x.base, x.base, log, vals, t, b);
      } else {
        FinishedAll(m, b, x);
        NothingUndone(x.disk, log, {}, b);
      }
    }
  }

  lemma {:induction false} FinishedAll(m: Mgr, b: BlockId, x: Blk)
    requires MgrInv(m) && BlkInv(m, b, x) && (x.writer.Some? ==> FinishedIn(m.log[..m.saved], x.writer.value))
    ensures var log := m.log[..m.saved];
      forall k :: 0 <= k < |log| && log[k].SetInt? && log[k].blk == b ==> FinishedAfter(log, k, log[k].tx)
  {
    var log, vals := m.log[..m.saved], m.vals[..m.saved];
    CutLog(m.log, m.vals, m.saved, b, x);
    var y := x;
    if x.writer.Some? {
      CrashEnding(m, b, x);
      y := x.(writer := None, base := x.disk);
      SettleLog(log, vals, m.saved, m.txs[x.writer.value], x.writer.value, b, x);
    }
    forall k | 0 <= k < |log| && log[k].SetInt? && log[k].blk == b ensures FinishedAfter(log, k, log[k].tx) {
      assert y.writer != Some(log[k].tx);
      assert FinishedBy(log, k, m.saved, log[k].tx);
    }
  }

  /** The updates of all transactions with a COMMIT record in the log, durable or not. */
  ghost function CommittedPage(m: Mgr, b: BlockId, x: Blk): Bytes
    requires |m.vals| == |m.log|
  {
    Replay(x.start, m.log, m.vals, Committed(m.log), b)
  }

  /** The write-ahead rule and forced commit in one. In every reachable state a byte on disk is the
      committed one, with every transaction counted that has a COMMIT record, or an unfinished transaction
      that has the block locked has a durable record of an update of it. */
  lemma {:induction false} WriteAhead(s: State, b: BlockId, i: int)
    requires Inv(s) && b in s.blocks && 0 <= i < |s.blocks[b].disk|
    ensures var x := s.blocks[b];
      && |CommittedPage(s.m, b, x)| == |x.disk|
      && (x.disk[i] == CommittedPage(s.m, b, x)[i]
          || (x.writer.Some? && !FinishedIn(s.m.log, x.writer.value) && Touched(s.m.log[..s.m.saved], x.writer.value, b, i)))
  {
    var m, x := s.m, s.blocks[b];
    assert m.log[..|m.log|] == m.log && m.vals[..|m.log|] == m.vals;
    assert PrefixInv(m.log[..|m.log|], m.vals[..|m.log|], b, x);
    if x.writer.Some? && FinishedIn(m.log, x.writer.value) {
      var t := x.writer.value;
      SettlePrefix(m.log, m.vals, |m.log|, m.txs[t], t, b, x);
      assert Committed(m.log) - {} == Committed(m.log);
    } else {
      UncommittedOwn(m.log, x);
    }
  }

  /** A finished recovery has put the committed state on disk, and nothing is left to undo. */
  lemma {:induction false} RecoveryDelivers(s: State, b: BlockId)
    requires Inv(s) && b in s.blocks && Enabled(s, Done)
    ensures s.blocks[b].disk == CommittedPage(s.m, b, s.blocks[b])
    ensures var x := Step(s, Done).blocks[b]; x.disk == Cur(x) == x.start == s.blocks[b].disk && x.writer == None
  {
    CheckpointBlk(s.m, b, s.blocks[b]);
  }

  // ---------------------------------------------------------------- rollback

  lemma {:induction false} HeldStep(s: State, a: Action, t: nat, b: BlockId)
    requires Enabled(s, a) && s.m.mode == Normal && b in s.blocks && s.blocks[b].writer == Some(t)
    requires a != Finish(t) && a != Crash
    ensures var n := Step(s, a);
      n.m.mode == Normal && b in n.blocks && n.blocks[b].writer == Some(t) && n.blocks[b].base == s.blocks[b].base
  {
    hide CanPut, Forced, SavedTo, PutInt, Restarted;
  }

  /** Until t finishes, its lock and the page it found stay. */
  lemma {:induction false} LockHeld(s: State, acts: seq<Action>, t: nat, b: BlockId)
    requires Inv(s) && Runs(s, acts) && s.m.mode == Normal && b in s.blocks && s.blocks[b].writer == Some(t)
    requires forall k :: 0 <= k < |acts| ==> acts[k] != Finish(t) && acts[k] != Crash
    ensures var n := Run(s, acts);
      Inv(n) && n.m.mode == Normal && b in n.blocks && n.blocks[b].writer == Some(t) && n.blocks[b].base == s.blocks[b].base
    decreases |acts|
  {
    hide Inv, Step;
    if acts != [] {
      StepKeeps(s, acts[0]);
      HeldStep(s, acts[0], t, b);
      LockHeld(Step(s, acts[0]), acts[1..], t, b);
    }
  }

  /** Rollback restores: whatever t, the buffer pool and other transactions do after t locks a block, when t
      has rolled back the block is, in the buffer and on disk, as t found it. */
  lemma {:induction false} RollbackRestores(s: State, acts: seq<Action>, t: nat, b: BlockId)
    requires Inv(s) && Enabled(s, Lock(t, b)) && Runs(Step(s, Lock(t, b)), acts)
    requires forall k :: 0 <= k < |acts| ==> acts[k] != Finish(t) && acts[k] != Crash
    requires var n := Run(Step(s, Lock(t, b)), acts); t in n.m.txs && n.m.txs[t].Ending? && !n.m.txs[t].commit
    ensures var n := Run(Step(s, Lock(t, b)), acts); b in n.blocks && Cur(n.blocks[b]) == n.blocks[b].disk == Cur(s.blocks[b])
  {
    hide Inv, Enabled, Step, Runs, Run;
    StepKeeps(s, Lock(t, b));
    Locked(s, t, b);
    LockHeld(Step(s, Lock(t, b)), acts, t, b);
    RolledBackBlk(Run(Step(s, Lock(t, b)), acts), t, b);
  }

  lemma {:induction false} Locked(s: State, t: nat, b: BlockId)
    requires Inv(s) && Enabled(s, Lock(t, b))
    ensures b in s.blocks
    ensures var l := Step(s, Lock(t, b));
      l.m.mode == Normal && b in l.blocks && l.blocks[b].writer == Some(t) && l.blocks[b].base == Cur(s.blocks[b])
  {
    hide PrefixInv, RecordsInv, PhaseInv, ModeInv, CanPut;
    assert BlkInv(s.m, b, s.blocks[b]);
  }

  /** At the end of a rollback the block is what it was when it was locked. */
  lemma {:induction false} RolledBackBlk(s: State, t: nat, b: BlockId)
    requires Inv(s) && s.m.mode == Normal && b in s.blocks && s.blocks[b].writer == Some(t)
    requires t in s.m.txs && s.m.txs[t].Ending? && !s.m.txs[t].commit
    ensures Cur(s.blocks[b]) == s.blocks[b].disk == s.blocks[b].base
  {
    assert BlkInv(s.m, b, s.blocks[b]);
  }

  /** No step of t changes a block another transaction may read or write. */
  lemma {:induction false} OwnBlocksOnly(s: State, a: Action, t: nat, b: BlockId)
    requires Inv(s) && Enabled(s, a) && b in s.blocks && s.blocks[b].writer != Some(t)
    requires a == WriteSet(t) || a == UndoStep(t) || a == Finish(t) || a == EndForce(t) || (a.LogSet? && a.t == t)
    ensures Step(s, a).blocks[b] == s.blocks[b]
  {
    assert BlkInv(s.m, b, s.blocks[b]);
    if !a.Finish? && !a.EndForce? {
      UnfinishedOwns(s.m.log, s.m.saved, b, s.blocks[b], t);
    }
  }

  /** The loop of doRollback, run without interruption, gives each of t's blocks back as t found it and leaves
      the others alone. */
  lemma {:induction false} RollbackLoop(s: State, t: nat, b: BlockId)
    requires Inv(s) && s.m.mode == Normal && In(s.m, t, Active) && b in s.blocks
    ensures var x := s.blocks[b]; RolledBack(Cur(x), s.m.log, t, b) == if x.writer == Some(t) then x.base else Cur(x)
  {
    var m, x := s.m, s.blocks[b];
    assert BlkInv(m, b, x);
    RollbackUndoesAll(Cur(x), m.log, t, b);
    if x.writer == Some(t) {
      ReplayCovered(x.base, m.log, m.vals, t, b);
      UndoRestores(x.base, Cur(x), m.log, m.vals, t, b);
    } else {
      UnfinishedOwns(m.log, m.saved, b, x, t);
      NothingOf(Cur(x), m.log, t, b);
    }
  }

  // ---------------------------------------------------------------- the value at a transaction's start

  /** Nobody has locked the block: its contents stay. */
  lemma {:induction false} UnlockedStays(s: State, acts: seq<Action>, b: BlockId)
    requires Inv(s) && Runs(s, acts) && s.m.mode == Normal && b in s.blocks && s.blocks[b].writer == None
    requires forall k :: 0 <= k < |acts| ==> acts[k] != Crash && !(acts[k].Lock? && acts[k].b == b)
    ensures var n := Run(s, acts);
      Inv(n) && n.m.mode == Normal && b in n.blocks && n.blocks[b].writer == None && Cur(n.blocks[b]) == Cur(s.blocks[b])
    decreases |acts|
  {
    if acts != [] {
      StepKeeps(s, acts[0]);
      UnlockedStep(s, acts[0], b);
      UnlockedStays(Step(s, acts[0]), acts[1..], b);
    }
  }

  lemma {:induction false} UnlockedStep(s: State, a: Action, b: BlockId)
    requires Inv(s) && Enabled(s, a) && s.m.mode == Normal && b in s.blocks && s.blocks[b].writer == None
    requires a != Crash && !(a.Lock? && a.b == b)
    ensures var n := Step(s, a); n.m.mode == Normal && n.blocks[b].writer == None && Cur(n.blocks[b]) == Cur(s.blocks[b])
  {
    hide CanPut, Forced, SavedTo, PutInt, MgrInv, LogInv, PhaseInv;
    assert BlkInv(s.m, b, s.blocks[b]);
    if a.WriteSet? {
      OwnBlocksOnly(s, a, a.t, b);
    } else if a.UndoStep? {
      OwnBlocksOnly(s, a, a.t, b);
    }
  }

  /** What a rollback gives back is the block at the transaction's start exactly when it was still so at the
      lock; UnlockedStays says that it was if nobody else locked it in between. */
  lemma {:induction false} RollbackToStart(s: State, pre: seq<Action>, acts: seq<Action>, t: nat, b: BlockId)
    requires Inv(s) && b in s.blocks && Runs(s, pre)
    requires var l := Run(s, pre); Enabled(l, Lock(t, b)) && Runs(Step(l, Lock(t, b)), acts)
    requires forall k :: 0 <= k < |acts| ==> acts[k] != Finish(t) && acts[k] != Crash
    requires var n := Run(Step(Run(s, pre), Lock(t, b)), acts); t in n.m.txs && n.m.txs[t].Ending? && !n.m.txs[t].commit
    ensures var l := Run(s, pre); var n := Run(Step(l, Lock(t, b)), acts);
      b in l.blocks && b in n.blocks && (Cur(n.blocks[b]) == Cur(s.blocks[b]) <==> Cur(l.blocks[b]) == Cur(s.blocks[b]))
  {
    RunKeeps(s, pre);
    SameBlocks(s, pre);
    RollbackRestores(Run(s, pre), acts, t, b);
  }

  /** One more step in front of a run, in a database of one block. */
  lemma {:induction false} Link(m: Mgr, x: Blk, b: BlockId, a: Action, n: Mgr, y: Blk, acts: seq<Action>) returns (more: seq<Action>)
    requires Enabled(State(m, map[b := x]), a)
    requires StepMgr(State(m, map[b := x]), a) == n && StepBlk(m, a, b, x) == y
    requires Runs(State(n, map[b := y]), acts)
    ensures more == [a] + acts && Runs(State(m, map[b := x]), more)
    ensures Run(State(m, map[b := x]), more) == Run(State(n, map[b := y]), acts)
  {
    hide StepMgr, StepBlk, Enabled;
    more := [a] + acts;
    assert more[1..] == acts;
    assert Step(State(m, map[b := x]), a) == State(n, map[b := y]);
  }

  lemma {:induction false} NoSteps(s: State)
    ensures Runs(s, []) && Run(s, []) == s
  {
  }

  /** A transaction that locks the block and rolls back at once. */
  lemma {:induction false} IdleRollback(b: BlockId, x: Blk, l: seq<Rec>, v: seq<int32>) returns (acts: seq<Action>)
    requires |l| == |v| == 4 && l[0] == Start(1) && x.writer == None && x.frame.Some? && x.frame.value.tx == None
    requires forall k :: 1 <= k < 4 ==> !l[k].Checkpoint? && l[k].tx == 2
    ensures var s := State(Mgr(l, v, 4, map[1 := Active], Normal), map[b := x]);
      && Runs(s, acts)
      && Run(s, acts) == State(Mgr(l + [Rollback(1)], v + [0], 4, map[1 := Ending(false, 5)], Normal), map[b := x.(writer := Some(1))])
  {
    hide Runs, Run;
    var y := x.(writer := Some(1));
    var end := Mgr(l + [Rollback(1)], v + [0], 4, map[1 := Ending(false, 5)], Normal);
    NoSteps(State(end, map[b := y]));
    acts := Link(Mgr(l, v, 4, map[1 := Forcing(false)], Normal), y, b, EndForce(1), end, y, []);
    acts := NothingToUndo(b, y, l, v, 4, acts);
    acts := Link(Mgr(l, v, 4, map[1 := Active], Normal), y, b, StartRollback(1), Mgr(l, v, 4, map[1 := RollingBack(4)], Normal), y, acts);
    acts := Link(Mgr(l, v, 4, map[1 := Active], Normal), x, b, Lock(1, b), Mgr(l, v, 4, map[1 := Active], Normal), y, acts);
  }

  /** Transaction 1 goes back to its START record over records of transaction 2. */
  lemma {:induction false} NothingToUndo(b: BlockId, y: Blk, l: seq<Rec>, v: seq<int32>, k: nat, rest: seq<Action>) returns (acts: seq<Action>)
    requires 1 <= k <= |l| == |v| && l[0] == Start(1) && forall i :: 1 <= i < k ==> !l[i].Checkpoint? && l[i].tx == 2
    requires Runs(State(Mgr(l, v, 4, map[1 := Forcing(false)], Normal), map[b := y]), rest)
    ensures var s := State(Mgr(l, v, 4, map[1 := RollingBack(k)], Normal), map[b := y]);
      Runs(s, acts) && Run(s, acts) == Run(State(Mgr(l, v, 4, map[1 := Forcing(false)], Normal), map[b := y]), rest)
    decreases k
  {
    hide Runs, Run, Put;
    var m, n := Mgr(l, v, 4, map[1 := RollingBack(k)], Normal), Mgr(l, v, 4, map[1 := Forcing(false)], Normal);
    acts := rest;
    if k > 1 {
      n := Mgr(l, v, 4, map[1 := RollingBack(k - 1)], Normal);
      acts := NothingToUndo(b, y, l, v, k - 1, rest);
    }
    acts := Link(m, y, b, UndoStep(1), n, y, acts);
  }

  /** Transaction 2 commits the logged update it is about to make on the block. */
  lemma {:induction false} OtherCommits(b: BlockId, z: Bytes, v: int32, l: seq<Rec>, w: seq<int32>, rest: seq<Action>) returns (acts: seq<Action>)
    requires Fits(z, 0) && |l| == |w| == 3
    requires Runs(State(Mgr(l + [Commit(2)], w + [0], 4, map[1 := Active], Normal), map[b := Changed(z, v)]), rest)
    ensures var s := State(Mgr(l, w, 0, map[1 := Active, 2 := Writing(b, 0, v, 3)], Normal), map[b := Loaded(z).(writer := Some(2))]);
      && Runs(s, acts)
      && Run(s, acts) == Run(State(Mgr(l + [Commit(2)], w + [0], 4, map[1 := Active], Normal), map[b := Changed(z, v)]), rest)
  {
    hide Runs, Run, PutInt;
    var y := PutInt(z, 0, v);
    var x6 := Blk(z, Some(Frame(y, Some(2), 3)), Some(2), z, z);
    var x8 := Blk(y, Some(Frame(y, None, 3)), Some(2), z, z);
    acts := OtherEnds(b, z, v, l, w, rest);
    acts := Link(Mgr(l, w, 0, map[1 := Active, 2 := Forcing(true)], Normal), x6, b, FlushFrame(b),
                 Mgr(l, w, 3, map[1 := Active, 2 := Forcing(true)], Normal), x8, acts);
    acts := Link(Mgr(l, w, 0, map[1 := Active, 2 := Active], Normal), x6, b, StartCommit(2),
                 Mgr(l, w, 0, map[1 := Active, 2 := Forcing(true)], Normal), x6, acts);
    acts := Link(Mgr(l, w, 0, map[1 := Active, 2 := Writing(b, 0, v, 3)], Normal), Loaded(z).(writer := Some(2)), b, WriteSet(2),
                 Mgr(l, w, 0, map[1 := Active, 2 := Active], Normal), x6, acts);
  }

  lemma {:induction false} OtherEnds(b: BlockId, z: Bytes, v: int32, l: seq<Rec>, w: seq<int32>, rest: seq<Action>) returns (acts: seq<Action>)
    requires Fits(z, 0) && |l| == |w| == 3
    requires Runs(State(Mgr(l + [Commit(2)], w + [0], 4, map[1 := Active], Normal), map[b := Changed(z, v)]), rest)
    ensures var s := State(Mgr(l, w, 3, map[1 := Active, 2 := Forcing(true)], Normal), map[b := Changed(z, v).(writer := Some(2), base := z)]);
      && Runs(s, acts)
      && Run(s, acts) == Run(State(Mgr(l + [Commit(2)], w + [0], 4, map[1 := Active], Normal), map[b := Changed(z, v)]), rest)
  {
    hide Runs, Run, PutInt;
    var x8 := Changed(z, v).(writer := Some(2), base := z);
    var m9 := Mgr(l + [Commit(2)], w + [0], 3, map[1 := Active, 2 := Ending(true, 4)], Normal);
    acts := Link(m9, x8, b, Finish(2), Mgr(l + [Commit(2)], w + [0], 4, map[1 := Active], Normal), Changed(z, v), rest);
    acts := Link(Mgr(l, w, 3, map[1 := Active, 2 := Forcing(true)], Normal), x8, b, EndForce(2), m9, x8, acts);
  }

  function Loaded(z: Bytes): Blk {
    Blk(z, Some(Frame(z, None, -1)), None, z, z)
  }

  function Changed(z: Bytes, v: int32): Blk
    requires Fits(z, 0)
  {
    Blk(PutInt(z, 0, v), Some(Frame(PutInt(z, 0, v), None, 3)), None, PutInt(z, 0, v), z)
  }

  /** Transaction 1 starts; 2 starts, locks the block and logs the update it is about to make. */
  lemma {:induction false} OtherLogs(b: BlockId, z: Bytes, v: int32, rest: seq<Action>) returns (acts: seq<Action>)
    requires Fits(z, 0)
    requires Runs(State(Mgr(Logged(b, z), [0, 0, v], 0, map[1 := Active, 2 := Writing(b, 0, v, 3)], Normal),
                        map[b := Loaded(z).(writer := Some(2))]), rest)
    ensures acts != [] && acts[0] == Begin(1) && Runs(Fresh(map[b := z]), acts)
    ensures Run(Fresh(map[b := z]), acts)
      == Run(State(Mgr(Logged(b, z), [0, 0, v], 0, map[1 := Active, 2 := Writing(b, 0, v, 3)], Normal),
                   map[b := Loaded(z).(writer := Some(2))]), rest)
  {
    hide Runs, Run, GetInt;
    var m2 := Mgr([Start(1), Start(2)], [0, 0], 0, map[1 := Active, 2 := Active], Normal);
    var m3 := Mgr(Logged(b, z), [0, 0, v], 0, map[1 := Active, 2 := Writing(b, 0, v, 3)], Normal);
    acts := Link(m2, Loaded(z).(writer := Some(2)), b, LogSet(2, b, 0, v), m3, Loaded(z).(writer := Some(2)), rest);
    acts := Link(m2, Loaded(z), b, Lock(2, b), m2, Loaded(z).(writer := Some(2)), acts);
    acts := BothStart(b, z, acts);
  }

  lemma {:induction false} BothStart(b: BlockId, z: Bytes, rest: seq<Action>) returns (acts: seq<Action>)
    requires Runs(State(Mgr([Start(1), Start(2)], [0, 0], 0, map[1 := Active, 2 := Active], Normal), map[b := Loaded(z)]), rest)
    ensures acts != [] && acts[0] == Begin(1) && Runs(Fresh(map[b := z]), acts)
    ensures Run(Fresh(map[b := z]), acts)
      == Run(State(Mgr([Start(1), Start(2)], [0, 0], 0, map[1 := Active, 2 := Active], Normal), map[b := Loaded(z)]), rest)
  {
    hide Runs, Run;
    var x0 := Blk(z, None, None, z, z);
    var m2 := Mgr([Start(1), Start(2)], [0, 0], 0, map[1 := Active, 2 := Active], Normal);
    acts := Link(m2, x0, b, Load(b, -1), m2, Loaded(z), rest);
    acts := Link(Mgr([Start(1)], [0], 0, map[1 := Active], Normal), x0, b, Begin(2), m2, x0, acts);
    acts := Link(Mgr([], [], 0, map[], Normal), x0, b, Begin(1), Mgr([Start(1)], [0], 0, map[1 := Active], Normal), x0, acts);
    assert Fresh(map[b := z]) == State(Mgr([], [], 0, map[], Normal), map[b := x0]);
  }

  function Logged(b: BlockId, z: Bytes): seq<Rec>
    requires Fits(z, 0)
  {
    [Start(1), Start(2), SetInt(2, b, 0, GetInt(z, 0))]
  }

  /** Transaction 1 starts; 2 changes the block and commits; 1 locks the block and rolls back. The change of 2
      stays, as it should, so the block is not as it was when 1 started. */
  lemma {:induction false} StartValueLost(b: BlockId, z: Bytes, v: int32) returns (acts: seq<Action>)
    requires Fits(z, 0) && PutInt(z, 0, v) != z
    ensures acts != [] && acts[0] == Begin(1) && Runs(Fresh(map[b := z]), acts)
    ensures var n := Run(Fresh(map[b := z]), acts);
      b in n.blocks && n.blocks[b].writer == Some(1) && In(n.m, 1, Ending(false, 5)) && Cur(n.blocks[b]) == PutInt(z, 0, v) != z
  {
    hide Runs, Run, PutInt, GetInt;
    acts := IdleRollback(b, Changed(z, v), Logged(b, z) + [Commit(2)], [0, 0, v] + [0]);
    acts := OtherCommits(b, z, v, Logged(b, z), [0, 0, v], acts);
    acts := OtherLogs(b, z, v, acts);
  }
}

/** The engine's undo-only recovery as a transition system (src/tx/RecoveryMgr.cpp, src/tx/Transaction.cpp,
    src/buffer/Buffer.cpp).

    A run interleaves the small steps of any number of transactions with those of the buffer pool and the
    log: a log record may reach the disk at any time, a dirty page of an unfinished transaction may be
    written back at any time, and the machine may stop between any two steps, also inside a commit, a
    rollback or a recovery. */
module Recovery {
  import opened Options
  import opened Pages
  import opened RecoveryLog

  /** A buffer. tx is the modifying transaction (None for -1); lsn is kept when the buffer changes blocks. */
  datatype Frame = Frame(page: Bytes, tx: Option<nat>, lsn: int)

  /** What a transaction is doing. In Writing its update is logged and not yet on the page; RollingBack(pos)
      has undone the records from pos on; Forcing writes its pages; Ending(c, lsn) has appended its COMMIT or
      ROLLBACK record. */
  datatype Phase =
    | Active
    | Writing(blk: BlockId, offset: int, n: int32, lsn: nat)
    | RollingBack(pos: nat)
    | Forcing(commit: bool)
    | Ending(commit: bool, lsn: nat)

  /** Down is after a crash. Recovering(r, pos, done) has treated the records from pos on. */
  datatype Mode =
    | Normal
    | Down
    | Recovering(rtx: nat, pos: nat, done: set<nat>)
    | RecoverForcing(rtx: nat)
    | Checkpointed(rtx: nat)

  /** The parts that are not about one block. log is the log from the last checkpoint on, of which the first
      saved records are on disk. vals is history: the values the updates wrote. */
  datatype Mgr = Mgr(log: seq<Rec>, vals: seq<int32>, saved: nat, txs: map<nat, Phase>, mode: Mode)

  /** One block. writer is the transaction that holds the exclusive lock; after a crash, the unfinished
      transaction that held it. base and start are history: the page when writer took the lock, and the page
      at the checkpoint. */
  datatype Blk = Blk(disk: Bytes, frame: Option<Frame>, writer: Option<nat>, base: Bytes, start: Bytes)

  datatype State = State(m: Mgr, blocks: map<BlockId, Blk>)

  /** What a reader sees. */
  function Cur(x: Blk): Bytes {
    if x.frame.Some? then x.frame.value.page else x.disk
  }

  datatype Action =
    | Begin(t: nat)
    | Lock(t: nat, b: BlockId)
    | LogSet(t: nat, b: BlockId, offset: int, n: int32)
    | WriteSet(t: nat)
    | SaveLog
    | Load(b: BlockId, lsn: int)
    | FlushFrame(b: BlockId)
    | Evict(b: BlockId)
    | StartCommit(t: nat)
    | StartRollback(t: nat)
    | UndoStep(t: nat)
    | EndForce(t: nat)
    | Finish(t: nat)
    | Crash
    | BeginRecovery(t: nat)
    | RecoverStep
    | EndRecoverForce
    | Done

  predicate Mentions(log: seq<Rec>, t: nat) {
    exists k :: 0 <= k < |log| && !log[k].Checkpoint? && log[k].tx == t
  }

  /** No buffer holds an unwritten page of t. */
  predicate Forced(s: State, t: nat) {
    forall b :: b in s.blocks && s.blocks[b].frame.Some? ==> s.blocks[b].frame.value.tx != Some(t)
  }

  predicate CanPut(s: State, b: BlockId, offset: int) {
    b in s.blocks && s.blocks[b].frame.Some? && Fits(s.blocks[b].frame.value.page, offset)
  }

  predicate In(m: Mgr, t: nat, p: Phase) {
    t in m.txs && m.txs[t] == p
  }

  predicate Enabled(s: State, a: Action) {
    var m := s.m;
    match a
    case Begin(t) => m.mode == Normal && t !in m.txs && !Mentions(m.log, t)
    case Lock(t, b) => m.mode == Normal && In(m, t, Active) && b in s.blocks && s.blocks[b].writer == None
    case LogSet(t, b, offset, n) => m.mode == Normal && In(m, t, Active) && CanPut(s, b, offset) && s.blocks[b].writer == Some(t)
    case WriteSet(t) => m.mode == Normal && t in m.txs && m.txs[t].Writing? && CanPut(s, m.txs[t].blk, m.txs[t].offset)
    case SaveLog => m.mode != Down
    case Load(b, lsn) => m.mode != Down && b in s.blocks && s.blocks[b].frame == None
    case FlushFrame(b) => m.mode != Down && b in s.blocks && s.blocks[b].frame.Some? && s.blocks[b].frame.value.tx.Some?
    case Evict(b) => m.mode != Down && b in s.blocks && s.blocks[b].frame.Some? && s.blocks[b].frame.value.tx == None
    case StartCommit(t) => m.mode == Normal && In(m, t, Active)
    case StartRollback(t) => m.mode == Normal && In(m, t, Active)
    case UndoStep(t) =>
      && m.mode == Normal && t in m.txs && m.txs[t].RollingBack? && m.txs[t].pos <= |m.log|
      && (m.txs[t].pos > 0 ==> var r := m.log[m.txs[t].pos - 1]; r.SetInt? && r.tx == t ==> CanPut(s, r.blk, r.offset))
    case EndForce(t) => m.mode == Normal && t in m.txs && m.txs[t].Forcing? && Forced(s, t)
    case Finish(t) => m.mode == Normal && t in m.txs && m.txs[t].Ending?
    case Crash => m.saved <= |m.log| == |m.vals|
    case BeginRecovery(t) => m.mode == Down
    case RecoverStep =>
      && m.mode.Recovering? && m.mode.pos <= |m.log|
      && (m.mode.pos > 0 ==> var r := m.log[m.mode.pos - 1]; r.SetInt? && r.tx !in m.mode.done ==> CanPut(s, r.blk, r.offset))
    case EndRecoverForce => m.mode.RecoverForcing? && Forced(s, m.mode.rtx)
    case Done => m.mode.Checkpointed?
  }

  /** LogMgr::flush(lsn): the whole log is written unless lsn is already on disk. */
  function SavedTo(m: Mgr, lsn: int): nat {
    if lsn >= m.saved then |m.log| else m.saved
  }

  function Appended(m: Mgr, r: Rec, v: int32): Mgr {
    m.(log := m.log + [r], vals := m.vals + [v])
  }

  function EndRecord(t: nat, commit: bool): Rec {
    if commit then Commit(t) else Rollback(t)
  }

  predicate EndsAtCheckpoint(log: seq<Rec>) {
    log != [] && log[|log| - 1] == Checkpoint
  }

  /** What a restart finds. */
  function Restarted(m: Mgr): Mgr
    requires m.saved <= |m.log| == |m.vals|
  {
    if EndsAtCheckpoint(m.log[..m.saved]) then Mgr([], [], 0, map[], Down)
    else Mgr(m.log[..m.saved], m.vals[..m.saved], m.saved, map[], Down)
  }

  function StepMgr(s: State, a: Action): Mgr
    requires Enabled(s, a)
  {
    var m := s.m;
    match a
    case Begin(t) => Appended(m, Start(t), 0).(txs := m.txs[t := Active])
    case Lock(t, b) => m
    case LogSet(t, b, offset, n) =>
      Appended(m, SetInt(t, b, offset, GetInt(s.blocks[b].frame.value.page, offset)), n)
        .(txs := m.txs[t := Writing(b, offset, n, |m.log| + 1)])
    case WriteSet(t) => m.(txs := m.txs[t := Active])
    case SaveLog => m.(saved := |m.log|)
    case Load(b, lsn) => m
    case FlushFrame(b) => m.(saved := SavedTo(m, s.blocks[b].frame.value.lsn))
    case Evict(b) => m
    case StartCommit(t) => m.(txs := m.txs[t := Forcing(true)])
    case StartRollback(t) => m.(saved := |m.log|, txs := m.txs[t := RollingBack(|m.log|)])
    case UndoStep(t) =>
      var pos := m.txs[t].pos;
      m.(txs := m.txs[t := if pos == 0 || m.log[pos - 1] == Start(t) then Forcing(false) else RollingBack(pos - 1)])
    case EndForce(t) =>
      Appended(m, EndRecord(t, m.txs[t].commit), 0).(txs := m.txs[t := Ending(m.txs[t].commit, |m.log| + 1)])
    case Finish(t) => m.(saved := SavedTo(m, m.txs[t].lsn), txs := m.txs - {t})
    case Crash => Restarted(m)
    case BeginRecovery(t) => Appended(m, Start(t), 0).(saved := |m.log| + 1, mode := Recovering(t, |m.log| + 1, {}))
    case RecoverStep =>
      var pos := m.mode.pos;
      if pos == 0 || m.log[pos - 1] == Checkpoint then m.(mode := RecoverForcing(m.mode.rtx))
      else
        var r := m.log[pos - 1];
        m.(mode := Recovering(m.mode.rtx, pos - 1, if r.Commit? || r.Rollback? then m.mode.done + {r.tx} else m.mode.done))
    case EndRecoverForce => Appended(m, Checkpoint, 0).(mode := Checkpointed(m.mode.rtx))
    case Done => Mgr([], [], 0, map[m.mode.rtx := Active], Normal)
  }

  /** Page::setInt and Buffer::setModified; a negative lsn leaves the buffer's own. */
  function Modified(f: Frame, offset: int, n: int32, t: nat, lsn: int): Frame
    requires Fits(f.page, offset)
  {
    Frame(PutInt(f.page, offset, n), Some(t), if lsn >= 0 then lsn else f.lsn)
  }

  function Put(x: Blk, offset: int, n: int32, t: nat, lsn: int): Blk {
    if x.frame.Some? && Fits(x.frame.value.page, offset) then x.(frame := Some(Modified(x.frame.value, offset, n, t, lsn))) else x
  }

  /** The lock is given up and the block is settled. */
  function Settled(x: Blk): Blk {
    x.(writer := None, base := Cur(x))
  }

  /** A block after a restart: a durable COMMIT or ROLLBACK record has settled it, or a durable checkpoint. */
  function RestartedBlk(m: Mgr, x: Blk): Blk
    requires m.saved <= |m.log|
  {
    var y := x.(frame := None);
    if EndsAtCheckpoint(m.log[..m.saved]) then Settled(y).(start := y.disk)
    else if x.writer.Some? && FinishedIn(m.log[..m.saved], x.writer.value) then Settled(y)
    else y
  }

  function StepBlk(m: Mgr, a: Action, b: BlockId, x: Blk): Blk
    requires a.Crash? ==> m.saved <= |m.log|
  {
    match a
    case Lock(t, c) => if b == c then x.(writer := Some(t)) else x
    case WriteSet(t) =>
      if t in m.txs && m.txs[t].Writing? && m.txs[t].blk == b then Put(x, m.txs[t].offset, m.txs[t].n, t, m.txs[t].lsn) else x
    case Load(c, lsn) => if b == c then x.(frame := Some(Frame(x.disk, None, lsn))) else x
    case FlushFrame(c) => if b == c && x.frame.Some? then x.(disk := x.frame.value.page, frame := Some(x.frame.value.(tx := None))) else x
    case Evict(c) => if b == c then x.(frame := None) else x
    case UndoStep(t) =>
      if t in m.txs && m.txs[t].RollingBack? && 0 < m.txs[t].pos <= |m.log| && Updates(m.log[m.txs[t].pos - 1], t, b)
      then Put(x, m.log[m.txs[t].pos - 1].offset, m.log[m.txs[t].pos - 1].was, t, -1) else x
    case Finish(t) => if x.writer == Some(t) then Settled(x) else x
    case Crash => RestartedBlk(m, x)
    case RecoverStep =>
      if m.mode.Recovering? && 0 < m.mode.pos <= |m.log| then
        var r := m.log[m.mode.pos - 1];
        if r.SetInt? && r.tx !in m.mode.done && r.blk == b then Put(x, r.offset, r.was, m.mode.rtx, -1) else x
      else x
    case Done =>
      var y := Settled(x).(start := x.disk);
      if x.frame.Some? then y.(frame := Some(x.frame.value.(lsn := x.frame.value.lsn - |m.log|))) else y
    case _ => x
  }

  function Step(s: State, a: Action): State
    requires Enabled(s, a)
  {
    State(StepMgr(s, a), map b | b in s.blocks :: StepBlk(s.m, a, b, s.blocks[b]))
  }

  ghost predicate Runs(s: State, acts: seq<Action>)
    decreases |acts|
  {
    acts == [] || (Enabled(s, acts[0]) && Runs(Step(s, acts[0]), acts[1..]))
  }

  function Run(s: State, acts: seq<Action>): State
    requires Runs(s, acts)
    decreases |acts|
  {
    if acts == [] then s else Run(Step(s, acts[0]), acts[1..])
  }

  /** A database after its creation, or after any clean checkpoint. */
  function Fresh(pages: map<BlockId, Bytes>): State {
    State(Mgr([], [], 0, map[], Normal), map b | b in pages :: Blk(pages[b], None, None, pages[b], pages[b]))
  }
}

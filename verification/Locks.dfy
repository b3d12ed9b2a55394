/** Block locks (src/tx/LockTable.cpp, src/tx/ConcurrencyMgr.cpp). */
module Locks {
  import opened RecoveryLog

  datatype Kind = S | X

  // ---------------------------------------------------------------- the counter of one block

  /** 0 when the table has no entry. */
  function LockVal(table: map<BlockId, int>, b: BlockId): int {
    if b in table then table[b] else 0
  }

  /** The counter after unlock; 0 stands for an erased entry. */
  function Unlocked(v: int): int {
    if v > 1 then v - 1 else 0
  }

  class LockTable {
    var lockTable: map<BlockId, int>

    constructor ()
      ensures lockTable == map[]
    {
      lockTable := map[];
    }

    /** granted is false where the source gives up waiting and throws. */
    method SLock(b: BlockId) returns (granted: bool)
      modifies this
      ensures granted == (LockVal(old(lockTable), b) >= 0)
      ensures lockTable == if granted then old(lockTable)[b := LockVal(old(lockTable), b) + 1] else old(lockTable)
    {
      if LockVal(lockTable, b) < 0 {
        return false;
      }
      var lockVal := LockVal(lockTable, b);
      lockTable := lockTable[b := lockVal + 1];
      granted := true;
    }

    method XLock(b: BlockId) returns (granted: bool)
      modifies this
      ensures granted == (LockVal(old(lockTable), b) <= 1)
      ensures lockTable == if granted then old(lockTable)[b := -1] else old(lockTable)
    {
      if LockVal(lockTable, b) > 1 {
        return false;
      }
      lockTable := lockTable[b := -1];
      granted := true;
    }

    method Unlock(b: BlockId)
      modifies this
      ensures forall c :: LockVal(lockTable, c) == if c == b then Unlocked(LockVal(old(lockTable), b)) else LockVal(old(lockTable), c)
    {
      var lockVal := LockVal(lockTable, b);
      if lockVal > 1 {
        lockTable := lockTable[b := lockVal - 1];
      } else {
        lockTable := lockTable - {b};
      }
    }
  }

  /** The counters, and the locks one transaction has recorded. */
  datatype Outcome = Outcome(table: map<BlockId, int>, locks: map<BlockId, Kind>, granted: bool)

  /** sLock: the lock is recorded before the table is asked. */
  function Shared(table: map<BlockId, int>, locks: map<BlockId, Kind>, b: BlockId): Outcome {
    if b in locks then Outcome(table, locks, true)
    else if LockVal(table, b) >= 0 then Outcome(table[b := LockVal(table, b) + 1], locks[b := S], true)
    else Outcome(table, locks[b := S], false)
  }

  /** xLock: a shared lock first, then the upgrade, recorded before the table is asked. */
  function Exclusive(table: map<BlockId, int>, locks: map<BlockId, Kind>, b: BlockId): Outcome {
    if b in locks && locks[b] == X then Outcome(table, locks, true)
    else
      var o := Shared(table, locks, b);
      if !o.granted then o
      else if LockVal(o.table, b) <= 1 then Outcome(o.table[b := -1], o.locks[b := X], true)
      else Outcome(o.table, o.locks[b := X], false)
  }

  /** The locks of one transaction over the table that all share. */
  class ConcurrencyMgr {
    const table: LockTable
    var locks: map<BlockId, Kind>

    constructor (table: LockTable)
      ensures this.table == table && locks == map[]
    {
      this.table := table;
      locks := map[];
    }

    method SLock(b: BlockId) returns (granted: bool)
      modifies this, table
      ensures Outcome(table.lockTable, locks, granted) == Shared(old(table.lockTable), old(locks), b)
      ensures b in old(locks) ==> granted && locks == old(locks) && table.lockTable == old(table.lockTable)
      ensures b !in old(locks) ==> granted == (LockVal(old(table.lockTable), b) >= 0) && locks == old(locks)[b := S]
    {
      granted := true;
      if b !in locks {
        locks := locks[b := S];
        granted := table.SLock(b);
      }
    }

    /** A lock recorded as exclusive is granted again. When nobody else has the block the result is the exclusive
        lock. */
    method XLock(b: BlockId) returns (granted: bool)
      modifies this, table
      ensures Outcome(table.lockTable, locks, granted) == Exclusive(old(table.lockTable), old(locks), b)
      ensures b !in old(locks) ==> granted == (LockVal(old(table.lockTable), b) == 0)
      ensures b in old(locks) && old(locks)[b] == X ==> granted && locks == old(locks) && table.lockTable == old(table.lockTable)
      ensures b in old(locks) && old(locks)[b] == S ==> granted == (LockVal(old(table.lockTable), b) <= 1)
      ensures b in locks && (granted ==> locks[b] == X)
    {
      granted := true;
      if b in locks && locks[b] == X {
        return;
      }
      granted := SLock(b);
      if granted {
        locks := locks[b := X];
        granted := table.XLock(b);
      }
    }

    /** Each recorded lock is given back once; no other block's counter changes. */
    method Release()
      modifies this, table
      ensures locks == map[]
      ensures GivenBack(old(table.lockTable), old(locks), table.lockTable)
    {
      var left := locks.Keys;
      while left != {}
        invariant left <= locks.Keys && locks == old(locks)
        invariant forall c :: LockVal(table.lockTable, c) ==
                              if c in old(locks) && c !in left then Unlocked(LockVal(old(table.lockTable), c)) else LockVal(old(table.lockTable), c)
      {
        var b :| b in left;
        table.Unlock(b);
        left := left - {b};
      }
      locks := map[];
    }
  }

  /** release, whatever the order in which the locks are given back. */
  ghost predicate GivenBack(table: map<BlockId, int>, locks: map<BlockId, Kind>, after: map<BlockId, int>) {
    forall c :: LockVal(after, c) == if c in locks then Unlocked(LockVal(table, c)) else LockVal(table, c)
  }

  // ---------------------------------------------------------------- all transactions together

  /** One block: the table's counter, the locks transactions really have, and what their managers have
      recorded. */
  datatype BlockLock = BlockLock(val: int, granted: map<nat, Kind>, recorded: map<nat, Kind>)

  /** A step of a transaction t. Upgrade is the second half of xLock. A timed-out request leaves its record
      behind. Unlock is one round of release. */
  datatype Action =
    | Share(t: nat)
    | Upgrade(t: nat)
    | ShareTimeout(t: nat)
    | UpgradeTimeout(t: nat)
    | Unlock(t: nat)

  predicate Enabled(l: BlockLock, a: Action) {
    match a
    case Share(t) => t !in l.recorded && l.val >= 0
    case Upgrade(t) => t in l.recorded && l.recorded[t] == S && l.val <= 1
    case ShareTimeout(t) => t !in l.recorded && l.val < 0
    case UpgradeTimeout(t) => t in l.recorded && l.recorded[t] == S && l.val > 1
    case Unlock(t) => t in l.recorded
  }

  function Step(l: BlockLock, a: Action): BlockLock {
    match a
    case Share(t) => BlockLock(l.val + 1, l.granted[t := S], l.recorded[t := S])
    case Upgrade(t) => BlockLock(-1, l.granted[t := X], l.recorded[t := X])
    case ShareTimeout(t) => l.(recorded := l.recorded[t := S])
    case UpgradeTimeout(t) => l.(recorded := l.recorded[t := X])
    case Unlock(t) => BlockLock(Unlocked(l.val), l.granted - {t}, l.recorded - {t})
  }

  /** The counter tells the truth: -1 exactly for a single exclusive holder, otherwise the number of shared
      holders. */
  predicate Agrees(l: BlockLock) {
    if l.val == -1 then |l.granted| == 1 && forall t :: t in l.granted ==> l.granted[t] == X
    else l.val == |l.granted| && forall t :: t in l.granted ==> l.granted[t] == S
  }

  /** Every record stands for a lock. */
  predicate Honest(l: BlockLock) {
    l.granted == l.recorded
  }

  lemma {:induction false} Only(m: map<nat, Kind>, t: nat)
    requires |m| == 1 && t in m
    ensures m.Keys == {t} && m - {t} == map[]
  {
    assert |m.Keys - {t}| == |m.Keys| - 1;
  }

  lemma {:induction false} Without(m: map<nat, Kind>, t: nat)
    requires t in m
    ensures |m - {t}| == |m| - 1
  {
    assert (m - {t}).Keys == m.Keys - {t};
  }

  lemma {:induction false} With(m: map<nat, Kind>, t: nat, k: Kind)
    ensures |m[t := k]| == |m| + if t in m then 0 else 1
  {
    assert m[t := k].Keys == m.Keys + {t};
  }

  /** Two holders never conflict. */
  lemma {:induction false} NoConflict(l: BlockLock, t: nat, u: nat)
    requires Agrees(l) && t in l.granted && u in l.granted && l.granted[t] == X
    ensures t == u
  {
    assert l.val == -1;
    Only(l.granted, t);
  }

  lemma {:induction false} UpgradeAgrees(l: BlockLock, t: nat)
    requires Agrees(l) && Enabled(l, Upgrade(t)) && t in l.granted
    ensures Agrees(Step(l, Upgrade(t)))
  {
    Without(l.granted, t);
    assert |l.granted| == 1;
    Only(l.granted, t);
    assert l.granted[t := X].Keys == {t};
    With(l.granted, t, X);
  }

  lemma {:induction false} UnlockKeeps(l: BlockLock, t: nat)
    requires Agrees(l) && t in l.granted
    ensures Agrees(Step(l, Unlock(t)))
  {
    Without(l.granted, t);
    if l.val == -1 {
      Only(l.granted, t);
    }
  }

  /** A step keeps the counter right unless it gives back or upgrades a lock that was never granted. */
  lemma {:induction false} StepAgrees(l: BlockLock, a: Action)
    requires Agrees(l) && Enabled(l, a)
    requires l.granted.Keys <= l.recorded.Keys
    requires a.Upgrade? || a.Unlock? ==> a.t in l.granted
    ensures Agrees(Step(l, a))
  {
    match a
    case Share(t) => With(l.granted, t, S);
    case Upgrade(t) => UpgradeAgrees(l, t);
    case Unlock(t) => UnlockKeeps(l, t);
    case _ =>
  }

  predicate Granted(a: Action) {
    !a.ShareTimeout? && !a.UpgradeTimeout?
  }

  ghost predicate Runs(l: BlockLock, acts: seq<Action>)
    decreases |acts|
  {
    acts == [] || (Enabled(l, acts[0]) && Runs(Step(l, acts[0]), acts[1..]))
  }

  function Run(l: BlockLock, acts: seq<Action>): BlockLock
    decreases |acts|
  {
    if acts == [] then l else Run(Step(l, acts[0]), acts[1..])
  }

  const FREE := BlockLock(0, map[], map[])

  lemma {:induction false} StepHonest(l: BlockLock, a: Action)
    requires Honest(l) && Granted(a)
    ensures Honest(Step(l, a))
  {
  }

  lemma {:induction false} RunAgrees(l: BlockLock, acts: seq<Action>)
    requires Agrees(l) && Honest(l) && Runs(l, acts) && forall k :: 0 <= k < |acts| ==> Granted(acts[k])
    ensures Agrees(Run(l, acts)) && Honest(Run(l, acts))
    decreases |acts|
  {
    if acts != [] {
      StepAgrees(l, acts[0]);
      StepHonest(l, acts[0]);
      RunAgrees(Step(l, acts[0]), acts[1..]);
    }
  }

  /** In every interleaving of granted requests and releases the counter agrees with the holders, and an
      exclusive holder is alone. */
  lemma {:induction false} LockSafety(acts: seq<Action>)
    requires Runs(FREE, acts) && forall k :: 0 <= k < |acts| ==> Granted(acts[k])
    ensures Agrees(Run(FREE, acts))
    ensures var l := Run(FREE, acts); forall t, u :: t in l.granted && u in l.granted && l.granted[t] == X ==> t == u
  {
    RunAgrees(FREE, acts);
    var l := Run(FREE, acts);
    forall t, u | t in l.granted && u in l.granted && l.granted[t] == X ensures t == u {
      NoConflict(l, t, u);
    }
  }

  /** With timeouts, giving a recorded lock back keeps the counter right exactly when the lock had been
      granted or nobody has one. */
  lemma {:induction false} UnlockAgrees(l: BlockLock, t: nat)
    requires Agrees(l) && Enabled(l, Unlock(t))
    ensures Agrees(Step(l, Unlock(t))) <==> t in l.granted || l.val == 0
  {
    if t in l.granted {
      UnlockKeeps(l, t);
    } else {
      assert l.granted - {t} == l.granted;
    }
  }

  lemma {:induction false} NoStep(l: BlockLock)
    ensures Runs(l, []) && Run(l, []) == l
  {
  }

  /** A step in front of a run. */
  lemma {:induction false} StepBefore(l: BlockLock, a: Action, n: BlockLock, acts: seq<Action>) returns (more: seq<Action>)
    requires Enabled(l, a) && Step(l, a) == n && Runs(n, acts)
    ensures more == [a] + acts && Runs(l, more) && Run(l, more) == Run(n, acts)
  {
    hide Enabled, Step;
    more := [a] + acts;
    assert more[1..] == acts;
  }

  /** A transaction that gives up on a shared lock and then releases takes away the lock it waited for, and
      two transactions end up with the block exclusively. */
  lemma {:induction false} TimeoutSteals()
    ensures var acts := [Share(1), Upgrade(1), ShareTimeout(2), Unlock(2), Share(3), Upgrade(3)];
      && Runs(FREE, acts)
      && var l := Run(FREE, acts); l.granted == map[1 := X, 3 := X]
  {
    hide Runs, Run;
    var l1, l2 := BlockLock(1, map[1 := S], map[1 := S]), BlockLock(-1, map[1 := X], map[1 := X]);
    var acts := GivenUp(l2);
    acts := StepBefore(l1, Upgrade(1), l2, acts);
    acts := StepBefore(FREE, Share(1), l1, acts);
    assert acts == [Share(1), Upgrade(1), ShareTimeout(2), Unlock(2), Share(3), Upgrade(3)];
  }

  lemma {:induction false} GivenUp(l: BlockLock) returns (acts: seq<Action>)
    requires l == BlockLock(-1, map[1 := X], map[1 := X])
    ensures acts == [ShareTimeout(2), Unlock(2), Share(3), Upgrade(3)] && Runs(l, acts) && Run(l, acts).granted == map[1 := X, 3 := X]
  {
    hide Runs, Run;
    var l1, l2 := BlockLock(-1, map[1 := X], map[1 := X, 2 := S]), BlockLock(0, map[1 := X], map[1 := X]);
    var l3, l4 := BlockLock(1, map[1 := X, 3 := S], map[1 := X, 3 := S]), BlockLock(-1, map[1 := X, 3 := X], map[1 := X, 3 := X]);
    NoStep(l4);
    acts := StepBefore(l3, Upgrade(3), l4, []);
    acts := StepBefore(l2, Share(3), l3, acts);
    acts := StepBefore(l1, Unlock(2), l2, acts);
    acts := StepBefore(l, ShareTimeout(2), l1, acts);
  }

  // ---------------------------------------------------------------- the managers make these steps

  /** What all managers have recorded, by transaction. */
  type Records = map<nat, map<BlockId, Kind>>

  /** One block as the table, the managers and the real holders see it. */
  function View(table: map<BlockId, int>, all: Records, granted: map<nat, Kind>, b: BlockId): BlockLock {
    BlockLock(LockVal(table, b), granted, map t | t in all && b in all[t] :: all[t][b])
  }

  lemma {:induction false} OneRecorded(table: map<BlockId, int>, all: Records, granted: map<nat, Kind>, b: BlockId, t: nat, locks: map<BlockId, Kind>)
    requires t in all
    ensures var was, now := View(table, all, granted, b).recorded, View(table, all[t := locks], granted, b).recorded;
      now == if b in locks then was[t := locks[b]] else was - {t}
  {
  }

  /** sLock is no step at all, for a block recorded already, or a shared lock, or a refused one; for other blocks it
      is nothing. It is granted exactly when its steps are. */
  lemma {:induction false} SharedSteps(table: map<BlockId, int>, all: Records, granted: map<nat, Kind>, b: BlockId, t: nat) returns (acts: seq<Action>)
    requires t in all
    ensures var o := Shared(table, all[t], b); var l := View(table, all, granted, b);
      && (b in all[t] ==> acts == [])
      && (b !in all[t] ==> acts == [if o.granted then Share(t) else ShareTimeout(t)])
      && (o.granted <==> forall k :: 0 <= k < |acts| ==> Granted(acts[k]))
      && Runs(l, acts) && View(o.table, all[t := o.locks], Run(l, acts).granted, b) == Run(l, acts)
  {
    var o := Shared(table, all[t], b);
    var l := View(table, all, granted, b);
    acts := [];
    OneRecorded(table, all, granted, b, t, o.locks);
    if b in all[t] {
      assert all[t := all[t]] == all;
    } else {
      var a := if o.granted then Share(t) else ShareTimeout(t);
      acts := [a];
      assert acts[1..] == [];
      assert Run(l, acts) == Run(Step(l, a), []) == Step(l, a);
    }
  }

  lemma {:induction false} UpgradeSteps(table: map<BlockId, int>, all: Records, granted: map<nat, Kind>, b: BlockId, t: nat)
    requires t in all && b in all[t] && all[t][b] == S
    ensures var l, more := View(table, all, granted, b), all[t := all[t][b := X]];
      if LockVal(table, b) <= 1 then
        Enabled(l, Upgrade(t)) && View(table[b := -1], more, Step(l, Upgrade(t)).granted, b) == Step(l, Upgrade(t))
      else
        Enabled(l, UpgradeTimeout(t)) && View(table, more, Step(l, UpgradeTimeout(t)).granted, b) == Step(l, UpgradeTimeout(t))
  {
    OneRecorded(table, all, granted, b, t, all[t][b := X]);
    OneRecorded(table[b := -1], all, granted, b, t, all[t][b := X]);
  }

  /** xLock is up to two steps: a shared lock if there was none, then the upgrade, each granted or refused. */
  lemma {:induction false} ExclusiveSteps(table: map<BlockId, int>, all: Records, granted: map<nat, Kind>, b: BlockId, t: nat) returns (acts: seq<Action>)
    requires t in all
    ensures var o := Exclusive(table, all[t], b); var l := View(table, all, granted, b);
      && (o.granted <==> forall k :: 0 <= k < |acts| ==> Granted(acts[k]))
      && Runs(l, acts) && View(o.table, all[t := o.locks], Run(l, acts).granted, b) == Run(l, acts)
  {
    hide Run, Runs, Enabled, Step, LockVal;
    var o := Exclusive(table, all[t], b);
    var l := View(table, all, granted, b);
    acts := [];
    NoStep(l);
    if b in all[t] && all[t][b] == X {
      assert all[t := all[t]] == all;
    } else {
      var s := Shared(table, all[t], b);
      acts := SharedSteps(table, all, granted, b, t);
      if s.granted {
        var mid := Run(l, acts);
        var a := if o.granted then Upgrade(t) else UpgradeTimeout(t);
        UpgradeSteps(s.table, all[t := s.locks], mid.granted, b, t);
        assert all[t := s.locks][t := o.locks] == all[t := o.locks];
        RunMore(l, acts, a);
        acts := acts + [a];
        assert acts[|acts| - 1] == a;
      } else {
        assert acts[0] == ShareTimeout(t);
      }
    }
  }

  lemma {:induction false} RunMore(l: BlockLock, acts: seq<Action>, a: Action)
    requires Runs(l, acts) && Enabled(Run(l, acts), a)
    ensures Runs(l, acts + [a]) && Run(l, acts + [a]) == Step(Run(l, acts), a)
    decreases |acts|
  {
    hide Step, Enabled;
    var more := acts + [a];
    if acts == [] {
      assert more == [a] && more[1..] == [];
      assert Run(Step(l, a), []) == Step(l, a);
    } else {
      assert more[1..] == acts[1..] + [a];
      RunMore(Step(l, acts[0]), acts[1..], a);
    }
  }

  /** release gives back the lock of each block that is recorded, in one step. */
  lemma {:induction false} ReleaseSteps(table: map<BlockId, int>, all: Records, granted: map<nat, Kind>, b: BlockId, t: nat, after: map<BlockId, int>)
    requires t in all && GivenBack(table, all[t], after)
    ensures var l := View(table, all, granted, b);
      if b in all[t] then Enabled(l, Unlock(t)) && View(after, all[t := map[]], granted - {t}, b) == Step(l, Unlock(t))
      else View(after, all[t := map[]], granted, b) == l
  {
    OneRecorded(after, all, granted, b, t, map[]);
  }

  // ---------------------------------------------------------------- all blocks together

  /** A request of a transaction that has a manager, or its end. */
  datatype Call = Read(t: nat, b: BlockId) | Write(t: nat, b: BlockId) | End(t: nat)

  /** Every counter agrees with what is recorded, which is what has been granted. */
  ghost predicate AllAgree(table: map<BlockId, int>, all: Records) {
    forall b :: Agrees(Seen(table, all, b))
  }

  /** The view of a block when everything recorded was granted. */
  function Seen(table: map<BlockId, int>, all: Records, b: BlockId): BlockLock {
    View(table, all, map t | t in all && b in all[t] :: all[t][b], b)
  }

  /** The call goes through and leaves these counters and records. */
  ghost predicate Answers(table: map<BlockId, int>, all: Records, call: Call, after: map<BlockId, int>, now: Records) {
    call.t in all &&
    match call
    case Read(t, b) => var o := Shared(table, all[t], b); o.granted && after == o.table && now == all[t := o.locks]
    case Write(t, b) => var o := Exclusive(table, all[t], b); o.granted && after == o.table && now == all[t := o.locks]
    case End(t) => GivenBack(table, all[t], after) && now == all[t := map[]]
  }

  lemma {:induction false} OtherBlock(table: map<BlockId, int>, all: Records, t: nat, b: BlockId, after: map<BlockId, int>, locks: map<BlockId, Kind>, c: BlockId)
    requires t in all && LockVal(after, c) == LockVal(table, c) && (c in locks <==> c in all[t]) && (c in locks ==> locks[c] == all[t][c])
    ensures Seen(after, all[t := locks], c) == Seen(table, all, c)
  {
    assert Seen(after, all[t := locks], c).recorded == Seen(table, all, c).recorded;
  }

  lemma {:induction false} EndAgrees(table: map<BlockId, int>, all: Records, call: Call, after: map<BlockId, int>, now: Records, c: BlockId)
    requires call.End? && Answers(table, all, call, after, now) && Agrees(Seen(table, all, c))
    ensures Agrees(Seen(after, now, c))
  {
    hide Agrees;
    var l, t := Seen(table, all, c), call.t;
    ReleaseSteps(table, all, l.granted, c, t, after);
    if c in all[t] {
      UnlockKeeps(l, t);
      assert Seen(after, now, c) == Step(l, Unlock(t));
    } else {
      assert Seen(after, now, c) == l;
    }
  }

  lemma {:induction false} RequestElsewhere(table: map<BlockId, int>, all: Records, call: Call, after: map<BlockId, int>, now: Records, c: BlockId)
    requires !call.End? && c != call.b && Answers(table, all, call, after, now)
    ensures Seen(after, now, c) == Seen(table, all, c)
  {
    hide Seen;
    OtherBlock(table, all, call.t, call.b, after, now[call.t], c);
  }

  lemma {:induction false} RequestAgrees(table: map<BlockId, int>, all: Records, call: Call, after: map<BlockId, int>, now: Records)
    requires !call.End? && Answers(table, all, call, after, now) && Agrees(Seen(table, all, call.b))
    ensures Agrees(Seen(after, now, call.b))
  {
    hide Agrees, Run, Runs, Shared, Exclusive;
    var l, b, t := Seen(table, all, call.b), call.b, call.t;
    var acts := [];
    if call.Read? {
      acts := SharedSteps(table, all, l.granted, b, t);
    } else {
      acts := ExclusiveSteps(table, all, l.granted, b, t);
    }
    RunAgrees(l, acts);
    var m := Run(l, acts);
    assert View(after, now, m.granted, b) == m;
    assert Seen(after, now, b).recorded == m.recorded;
    assert Seen(after, now, b) == m;
  }

  /** Granted requests and releases of the managers keep every counter right. */
  lemma {:induction false} CallAgrees(table: map<BlockId, int>, all: Records, call: Call, after: map<BlockId, int>, now: Records)
    requires AllAgree(table, all) && Answers(table, all, call, after, now)
    ensures AllAgree(after, now)
  {
    hide Agrees, Answers;
    forall c ensures Agrees(Seen(after, now, c)) {
      assert Agrees(Seen(table, all, c));
      if call.End? {
        EndAgrees(table, all, call, after, now, c);
      } else if c == call.b {
        RequestAgrees(table, all, call, after, now);
      } else {
        RequestElsewhere(table, all, call, after, now, c);
      }
    }
  }

  /** Over any sequence of granted calls, from an empty table and managers without locks, the counters stay right, and
      a transaction that has recorded an exclusive lock is the only one with a lock on the block. */
  lemma {:induction false} ManagersSafe(tables: seq<map<BlockId, int>>, alls: seq<Records>, calls: seq<Call>, n: nat)
    requires |tables| == |alls| == |calls| + 1 && n <= |calls|
    requires tables[0] == map[] && forall t :: t in alls[0] ==> alls[0][t] == map[]
    requires forall k :: 0 <= k < |calls| ==> Answers(tables[k], alls[k], calls[k], tables[k + 1], alls[k + 1])
    ensures AllAgree(tables[n], alls[n])
    ensures forall t, u, b :: t in alls[n] && u in alls[n] && b in alls[n][t] && b in alls[n][u] && alls[n][t][b] == X ==> t == u
  {
    hide Agrees, Answers;
    if n == 0 {
      forall b ensures Agrees(Seen(tables[0], alls[0], b)) {
        FreeAgrees(tables[0], alls[0], b);
      }
    } else {
      ManagersSafe(tables, alls, calls, n - 1);
      CallAgrees(tables[n - 1], alls[n - 1], calls[n - 1], tables[n], alls[n]);
    }
    forall t, u, b | t in alls[n] && u in alls[n] && b in alls[n][t] && b in alls[n][u] && alls[n][t][b] == X ensures t == u {
      assert Agrees(Seen(tables[n], alls[n], b));
      NoConflict(Seen(tables[n], alls[n], b), t, u);
    }
  }

  lemma {:induction false} FreeAgrees(table: map<BlockId, int>, all: Records, b: BlockId)
    requires table == map[] && forall t :: t in all ==> all[t] == map[]
    ensures Agrees(Seen(table, all, b))
  {
    assert Seen(table, all, b).granted == map[];
  }
}

/** The buffer cache gets on: a call left alone is over after boundedly many steps, with the buffer it asked for;
    and as long as anybody waits for a lock, something can go on. */
module BufferProgress {
  import opened Basics
  import opened BufferCache

  // ---------------------------------------------------------------- what a process waits for

  /** Process p is in wait_on_buffer for a buffer that is locked. */
  ghost predicate OnLock(s: State, p: nat)
    requires p < |s.procs|
  {
    match s.procs[p]
    case HashWait(b, _, _) => b < |s.bufs| && s.bufs[b].lock
    case VictimWait(b, _, _) => b < |s.bufs| && s.bufs[b].lock
    case ReadWait(b, _) => b < |s.bufs| && s.bufs[b].lock
    case Syncing(goal, i) => i < |s.bufs| && (goal.ForAll? || s.bufs[i].key.dev == goal.dev) && s.bufs[i].lock
    case _ => false
  }

  ghost predicate Cached(s: State, k: Blk) {
    exists b: nat :: b < |s.bufs| && s.bufs[b].key == k
  }

  ghost predicate AllInUse(s: State) {
    forall b: nat :: b < |s.bufs| ==> s.bufs[b].count != 0
  }

  /** The process is to choose a victim, as its block is not in the cache. */
  ghost predicate Chooses(s: State, pc: Pc) {
    pc.Start? && pc.want != Forget && !Cached(s, pc.k)
  }

  /** Process p waits for a buffer that nobody uses, and there is none. */
  ghost predicate NoneFree(s: State, p: nat)
    requires p < |s.procs|
  {
    (Chooses(s, s.procs[p]) || s.procs[p].NoBuffer?) && AllInUse(s)
  }

  predicate Done(pc: Pc) {
    pc.Idle? || pc.Holding?
  }

  /** Process p is in a call and has nothing to wait for; the victim it is offered is one the scan may pick. */
  ghost predicate Ready(s: State, p: nat, choice: nat, slot: bool)
    requires p < |s.procs|
  {
    var pc := s.procs[p];
    && !Done(pc) && !OnLock(s, p) && !NoneFree(s, p)
    && (pc.SyncSlot? || pc.ReadSlot? ==> slot)
    && (Chooses(s, pc) ==> choice < |s.bufs| && s.bufs[choice].count == 0)
  }

  // ---------------------------------------------------------------- the way a call has to go

  /** From a clean victim that nobody uses; from a dirty one, with two passes over the buffers. */
  const CLEAN := 5

  function Dirty(n: nat): nat {
    4 * n + 3 + CLEAN
  }

  /** From the look at victim b. */
  ghost function FromVictim(s: State, b: nat, clean: bool): nat {
    if b >= |s.bufs| then 0
    else if s.bufs[b].count != 0 then Dirty(|s.bufs|) + 2
    else if clean || !s.bufs[b].dirt then CLEAN
    else Dirty(|s.bufs|)
  }

  /** From buffer i in a pass. The rest of the passes writes the victim if it lies ahead. */
  ghost function FromPass(s: State, goal: Goal, i: nat): nat {
    var n := |s.bufs|;
    var here := if i < n then 2 * (n - i) + 1 else 1;
    match goal
    case ForAll => here
    case ForVictim(b, k, want, dev, second) =>
      var ahead := b < n && s.bufs[b].key.dev == dev && (!second || i <= b);
      here + (if second then 0 else 2 * n + 1) + FromVictim(s, b, ahead)
  }

  /** More steps than process p needs if it is left alone. */
  ghost function Rank(s: State, p: nat): nat
    requires p < |s.procs|
  {
    match s.procs[p]
    case Idle => 0
    case Holding(_, _) => 0
    case ReadWait(_, _) => 1
    case ReadSlot(_, _) => 2
    case HashWait(_, _, _) => 3
    case Start(k, want) => if Cached(s, k) then 4 else Dirty(|s.bufs|) + 1
    case NoBuffer(_, _) => Dirty(|s.bufs|) + 2
    case VictimWait(b, _, _) => FromVictim(s, b, false)
    case Syncing(goal, i) => FromPass(s, goal, i)
    case SyncSlot(goal, i) => var r := FromPass(s, goal, i); if r > 0 then r - 1 else 0
  }

  lemma RankBound(s: State, p: nat)
    requires p < |s.procs|
    ensures Rank(s, p) <= 8 * |s.bufs| + 12
  {
  }

  /** A step that a process takes with nothing to wait for brings it nearer to the end of its call. */
  lemma StepEnds(s: State, p: nat, choice: nat, slot: bool)
    requires Inv(s) && p < |s.procs| && Ready(s, p, choice, slot)
    ensures var r := Next(s, Run(p, choice, slot));
            p < |r.procs| && |r.bufs| == |s.bufs| && Rank(r, p) < Rank(s, p)
  {
    hide Resume, Rank, Ready;
    match s.procs[p]
    case Start(_, _) => LookEnds(s, p, choice, slot);
    case VictimWait(_, _, _) => VictimEnds(s, p, choice, slot);
    case Syncing(_, _) => PassEnds(s, p, choice, slot);
    case SyncSlot(_, _) => SlotEnds(s, p, choice, slot);
    case _ => FoundEnds(s, p, choice, slot);
  }

  lemma LookEnds(s: State, p: nat, choice: nat, slot: bool)
    requires Inv(s) && p < |s.procs| && Ready(s, p, choice, slot) && s.procs[p].Start?
    ensures var r := Resume(s, p, choice, slot);
            p < |r.procs| && |r.bufs| == |s.bufs| && Rank(r, p) < Rank(s, p)
  {
    hide Find;
  }

  lemma FoundEnds(s: State, p: nat, choice: nat, slot: bool)
    requires Inv(s) && p < |s.procs| && Ready(s, p, choice, slot)
    requires !s.procs[p].Start? && !s.procs[p].VictimWait? && !s.procs[p].Syncing? && !s.procs[p].SyncSlot?
    ensures var r := Resume(s, p, choice, slot);
            p < |r.procs| && |r.bufs| == |s.bufs| && Rank(r, p) < Rank(s, p)
  {
    hide Find;
    assert ProcOk(s, p);
  }

  lemma VictimEnds(s: State, p: nat, choice: nat, slot: bool)
    requires Inv(s) && p < |s.procs| && Ready(s, p, choice, slot) && s.procs[p].VictimWait?
    ensures var r := Resume(s, p, choice, slot);
            p < |r.procs| && |r.bufs| == |s.bufs| && Rank(r, p) < Rank(s, p)
  {
    hide Find;
    assert ProcOk(s, p);
  }

  lemma PassEnds(s: State, p: nat, choice: nat, slot: bool)
    requires Sized(s) && p < |s.procs| && Ready(s, p, choice, slot) && s.procs[p].Syncing?
    ensures var r := Resume(s, p, choice, slot);
            p < |r.procs| && |r.bufs| == |s.bufs| && Rank(r, p) < Rank(s, p)
  {
    if s.procs[p].i >= |s.bufs| { PassTurns(s, p, choice, slot); } else { PassGoesOn(s, p, choice, slot); }
    hide Resume, Rank, Ready;
  }

  lemma PassTurns(s: State, p: nat, choice: nat, slot: bool)
    requires Sized(s) && p < |s.procs| && Ready(s, p, choice, slot) && s.procs[p].Syncing?
    requires s.procs[p].i >= |s.bufs|
    ensures var r := Resume(s, p, choice, slot);
            p < |r.procs| && |r.bufs| == |s.bufs| && Rank(r, p) < Rank(s, p)
  {
    hide Find, Got, NoneFree, OnLock, InSweep, QueueWrite;
  }

  lemma PassGoesOn(s: State, p: nat, choice: nat, slot: bool)
    requires Sized(s) && p < |s.procs| && Ready(s, p, choice, slot) && s.procs[p].Syncing?
    requires s.procs[p].i < |s.bufs|
    ensures var r := Resume(s, p, choice, slot);
            p < |r.procs| && |r.bufs| == |s.bufs| && Rank(r, p) < Rank(s, p)
  {
    hide Find, Got, NoneFree, AfterSweep;
  }

  lemma SlotEnds(s: State, p: nat, choice: nat, slot: bool)
    requires Inv(s) && p < |s.procs| && Ready(s, p, choice, slot) && s.procs[p].SyncSlot?
    ensures var r := Resume(s, p, choice, slot);
            p < |r.procs| && |r.bufs| == |s.bufs| && Rank(r, p) < Rank(s, p)
  {
    hide Find, Got, NoneFree, Unique, OneLocker, BufOk;
    assert ProcOk(s, p);
  }

  // ---------------------------------------------------------------- what a call ends with

  /** The process is in a call for block k, or has come to its end: with the buffer, or, from free_block, with none. */
  predicate CallFor(pc: Pc, k: Blk, want: Want) {
    match pc
    case Idle => want == Forget
    case Holding(_, x) => x == k && want != Forget
    case ReadSlot(_, x) => x == k && want == Read
    case ReadWait(_, x) => x == k && want == Read
    case Syncing(goal, _) => goal.ForVictim? && goal.k == k && goal.want == want
    case SyncSlot(goal, _) => goal.ForVictim? && goal.k == k && goal.want == want
    case _ => pc.k == k && pc.want == want
  }

  /** Whatever anybody does, a call goes on to be for the same block. */
  lemma CallKept(s: State, e: Step, p: nat, k: Blk, want: Want)
    requires Inv(s) && p < |s.procs| && CallFor(s.procs[p], k, want) && !Done(s.procs[p])
    ensures p < |Next(s, e).procs| && CallFor(Next(s, e).procs[p], k, want)
  {
    hide Resume, BufOk;
    PcKept(s, e, p);
    if e.Run? && e.p == p { ResumeCall(s, p, e.choice, e.slot, k, want); }
  }

  lemma ResumeCall(s: State, p: nat, choice: nat, slot: bool, k: Blk, want: Want)
    requires Inv(s) && p < |s.procs| && CallFor(s.procs[p], k, want) && !Done(s.procs[p])
    ensures p < |Resume(s, p, choice, slot).procs| && CallFor(Resume(s, p, choice, slot).procs[p], k, want)
  {
    hide Find, Unique, OneLocker, BufOk;
    assert ProcOk(s, p);
  }

  // ---------------------------------------------------------------- a call left alone

  /** A run in which transfers complete and process p takes steps when it has nothing to wait for. */
  ghost predicate OwnRun(s: State, p: nat, es: seq<Step>)
    requires Inv(s)
    decreases |es|
  {
    es == [] ||
    (&& (es[0].Complete? || (es[0].Run? && es[0].p == p && p < |s.procs| && Ready(s, p, es[0].choice, es[0].slot)))
     && (StepIsStore(s, es[0]); OwnRun(Next(s, es[0]), p, es[1..])))
  }

  function Moves(es: seq<Step>): nat
    decreases |es|
  {
    if es == [] then 0 else Bit(es[0].Run?) + Moves(es[1..])
  }

  /** What the end of a transfer leaves: names, counts and dirt of all buffers, and where everybody is. */
  ghost predicate SameUse(s: State, r: State) {
    && |r.bufs| == |s.bufs| && r.procs == s.procs
    && forall b :: 0 <= b < |s.bufs| ==>
         r.bufs[b].key == s.bufs[b].key && r.bufs[b].count == s.bufs[b].count && r.bufs[b].dirt == s.bufs[b].dirt
  }

  lemma CompleteKeepsUse(s: State, b: nat, early: Data)
    requires Sized(s)
    ensures SameUse(s, Next(s, Complete(b, early)))
  {
  }

  lemma SameUseSameRank(s: State, r: State, p: nat)
    requires SameUse(s, r) && p < |s.procs|
    ensures Rank(r, p) == Rank(s, p)
  {
    if s.procs[p].Start? { SameUseSameCache(s, r, s.procs[p].k); }
    hide Cached;
  }

  lemma SameUseSameCache(s: State, r: State, k: Blk)
    requires SameUse(s, r)
    ensures Cached(r, k) <==> Cached(s, k)
  {
    assert forall b :: 0 <= b < |s.bufs| ==> (s.bufs[b].key == k <==> r.bufs[b].key == k);
  }

  /** A call left alone takes no more steps than its rank says, and stays a call for its block until it is done: then
      it holds a buffer with that block. If p cannot move, it is done, or sleeps on a lock, or for want of a buffer. */
  lemma {:induction false} OwnRunEnds(s: State, p: nat, es: seq<Step>, k: Blk, want: Want)
    requires Inv(s) && p < |s.procs| && CallFor(s.procs[p], k, want) && OwnRun(s, p, es)
    ensures var r := RunAll(s, es);
            && p < |r.procs| && Moves(es) + Rank(r, p) <= Rank(s, p) <= 8 * |s.bufs| + 12
            && CallFor(r.procs[p], k, want)
            && (r.procs[p].Holding? ==>
                  var b := r.procs[p].b;
                  && b < |r.bufs| && r.bufs[b].key == k
                  && r.bufs[b].uptodate && r.bufs[b].count > 0)
    decreases |es|
  {
    RankBound(s, p);
    if es == [] {
      if s.procs[p].Holding? {
        assert ProcOk(s, p);
        Counted(s, p);
      }
    } else {
      StepIsStore(s, es[0]);
      if es[0].Complete? {
        CompleteKeepsUse(s, es[0].b, es[0].early);
        SameUseSameRank(s, Next(s, es[0]), p);
      } else {
        assert !Done(s.procs[p]);
        StepEnds(s, p, es[0].choice, es[0].slot);
        CallKept(s, es[0], p, k, want);
      }
      hide Next, Inv, Rank, Ready, CallFor;
      OwnRunEnds(Next(s, es[0]), p, es[1..], k, want);
    }
  }

  /** The whole of a call, from the moment it is made. */
  lemma CallEnds(s: State, p: nat, es: seq<Step>, k: Blk, want: Want)
    requires Inv(s) && p < |s.procs| && s.procs[p] == Idle && k.dev != 0
    requires Inv(Next(s, Call(p, k, want))) && OwnRun(Next(s, Call(p, k, want)), p, es)
    ensures var r := RunAll(Next(s, Call(p, k, want)), es);
            && p < |r.procs| && Moves(es) + Rank(r, p) <= 8 * |s.bufs| + 12
            && (if want == Forget then !r.procs[p].Holding? else !r.procs[p].Idle?)
            && (r.procs[p].Holding? ==> r.procs[p].b < |r.bufs| && r.bufs[r.procs[p].b].key == k)
  {
    OwnRunEnds(Next(s, Call(p, k, want)), p, es, k, want);
  }

  // ---------------------------------------------------------------- locks

  /** Whoever has locked a buffer for a transfer has not gone away: the transfer is queued, or a process is about to. */
  ghost predicate LockOwned(s: State, b: nat)
    requires b < |s.bufs| == |s.io|
  {
    s.bufs[b].lock ==> s.io[b] != NoIo || exists q: nat :: q < |s.procs| && LockOf(s.procs[q]) == Some(b)
  }

  ghost predicate LocksOwned(s: State) {
    Sized(s) && forall b: nat :: b < |s.bufs| ==> LockOwned(s, b)
  }

  lemma StepOwned(s: State, e: Step)
    requires Inv(s) && LocksOwned(s)
    ensures LocksOwned(Next(s, e))
  {
    NextSized(s, e);
    match e
    case Run(p, choice, slot) => if p < |s.procs| { ResumeOwned(s, p, choice, slot); }
    case _ => OtherOwned(s, e);
  }

  lemma OtherOwned(s: State, e: Step)
    requires Inv(s) && LocksOwned(s) && !e.Run?
    ensures LocksOwned(Next(s, e))
  {
    NextSized(s, e);
    var r := Next(s, e);
    assert |r.procs| == |s.procs|;
    forall b: nat | b < |r.bufs| ensures LockOwned(r, b) {
      assert LockOwned(s, b);
      assert forall q: nat :: q < |s.procs| && LockOf(s.procs[q]).Some? ==> LockOf(r.procs[q]) == LockOf(s.procs[q]);
    }
  }

  lemma ResumeOwned(s: State, p: nat, choice: nat, slot: bool)
    requires Inv(s) && LocksOwned(s) && p < |s.procs|
    ensures LocksOwned(Resume(s, p, choice, slot))
  {
    var r := Resume(s, p, choice, slot);
    NextSized(s, Run(p, choice, slot));
    OthersPcKept(s, p, choice, slot, p);
    forall b: nat | b < |r.bufs| ensures LockOwned(r, b) {
      assert LockOwned(s, b);
      assert ProcOk(s, p);
      ResumeLocks(s, p, choice, slot, b);
      if r.bufs[b].lock && r.io[b] == NoIo && LockOf(r.procs[p]) != Some(b) {
        var q: nat :| q < |s.procs| && LockOf(s.procs[q]) == Some(b);
        OthersPcKept(s, p, choice, slot, q);
        assert LockOf(r.procs[q]) == Some(b);
      }
    }
  }

  lemma ResumeLocks(s: State, p: nat, choice: nat, slot: bool, b: nat)
    requires Sized(s) && p < |s.procs| && ProcOk(s, p) && b < |s.bufs|
    ensures Locks(s, Resume(s, p, choice, slot), p, b)
  {
    if s.procs[p].HashWait? || s.procs[p].VictimWait? {
      FoundLocks(s, p, choice, slot, b);
    } else {
      MovedLocks(s, p, choice, slot, b);
    }
    hide Resume, ProcOk, Locks;
  }

  /** A buffer locked after a step of p is p's, or its transfer is queued, or it was locked before, and not by p. */
  ghost predicate Locks(s: State, r: State, p: nat, b: nat)
    requires p < |s.procs| && b < |s.bufs| == |s.io|
  {
    && |r.io| == |r.bufs| == |s.bufs| && |r.procs| == |s.procs|
    && (r.bufs[b].lock && r.io[b] == NoIo && LockOf(r.procs[p]) != Some(b) ==>
          s.bufs[b].lock && s.io[b] == NoIo && LockOf(s.procs[p]) != Some(b))
  }

  lemma FoundLocks(s: State, p: nat, choice: nat, slot: bool, b: nat)
    requires Sized(s) && p < |s.procs| && ProcOk(s, p) && (s.procs[p].HashWait? || s.procs[p].VictimWait?)
               && b < |s.bufs|
    ensures Locks(s, Resume(s, p, choice, slot), p, b)
  {
    hide Find;
  }

  lemma MovedLocks(s: State, p: nat, choice: nat, slot: bool, b: nat)
    requires Sized(s) && p < |s.procs| && !s.procs[p].HashWait? && !s.procs[p].VictimWait? && b < |s.bufs|
    ensures Locks(s, Resume(s, p, choice, slot), p, b)
  {
    hide Find, InSweep, Got;
  }

  /** As long as a call is not over and does not wait for a buffer that nobody uses, a transfer is queued or some
      process can go on: nobody waits for a lock for ever. */
  lemma SomebodyGoesOn(s: State, p: nat)
    requires Inv(s) && LocksOwned(s) && p < |s.procs| && !Done(s.procs[p]) && !NoneFree(s, p)
    ensures (exists b :: 0 <= b < |s.io| && s.io[b] != NoIo)
            || exists q: nat, choice: nat :: q < |s.procs| && Ready(s, q, choice, true)
  {
    if OnLock(s, p) {
      var pc := s.procs[p];
      var b := if pc.Syncing? then pc.i else pc.b;
      assert b < |s.bufs| && s.bufs[b].lock && LockOwned(s, b);
      if s.io[b] == NoIo {
        var q: nat :| q < |s.procs| && LockOf(s.procs[q]) == Some(b);
        assert Ready(s, q, 0, true);
      }
    } else if Chooses(s, s.procs[p]) {
      var choice: nat :| choice < |s.bufs| && s.bufs[choice].count == 0;
      assert Ready(s, p, choice, true);
    } else {
      assert Ready(s, p, 0, true);
    }
  }

  lemma {:induction false} RunOwned(s: State, es: seq<Step>)
    requires Inv(s) && LocksOwned(s)
    ensures LocksOwned(RunAll(s, es))
    decreases |es|
  {
    if es != [] {
      StepIsStore(s, es[0]);
      StepOwned(s, es[0]);
      RunOwned(Next(s, es[0]), es[1..]);
    }
  }

  lemma FreshOwned(s: State)
    requires Fresh(s)
    ensures LocksOwned(s)
  {
  }

  // ---------------------------------------------------------------- a sync reaches the disk

  /** No step of the run changes what block k holds. */
  ghost predicate Untouched(s: State, es: seq<Step>, k: Blk)
    requires Inv(s)
    decreases |es|
  {
    es == [] || (NoWrite(s, es[0], k) && (StepIsStore(s, es[0]); Untouched(Next(s, es[0]), es[1..], k)))
  }

  ghost predicate NoWrite(s: State, e: Step, k: Blk)
    requires Sized(s)
  {
    Written(s, e).Some? ==> Written(s, e).value.0 != k
  }

  /** No buffer before the n-th has unwritten data of block k. */
  ghost predicate CleanTo(s: State, k: Blk, n: nat) {
    forall b :: 0 <= b < n && b < |s.bufs| && s.bufs[b].key == k ==> !s.bufs[b].dirt
  }

  /** Only a write makes a buffer dirty. */
  lemma DirtKept(s: State, e: Step, k: Blk, n: nat)
    requires Inv(s) && NoWrite(s, e, k) && CleanTo(s, k, n)
    ensures CleanTo(Next(s, e), k, n)
  {
    NextSized(s, e);
    match e
    case Run(p, choice, slot) => if p < |s.procs| { ResumeDirt(s, p, choice, slot, k, n); }
    case _ => OtherDirt(s, e, k, n);
  }

  lemma OtherDirt(s: State, e: Step, k: Blk, n: nat)
    requires Inv(s) && NoWrite(s, e, k) && CleanTo(s, k, n) && !e.Run?
    ensures CleanTo(Next(s, e), k, n)
  {
    hide BufOk, Unique, OneLocker, Resume;
    if e.Store? && e.p < |s.procs| { assert ProcOk(s, e.p); }
  }

  lemma ResumeDirt(s: State, p: nat, choice: nat, slot: bool, k: Blk, n: nat)
    requires Inv(s) && p < |s.procs| && NoWrite(s, Run(p, choice, slot), k) && CleanTo(s, k, n)
    ensures CleanTo(Resume(s, p, choice, slot), k, n)
  {
    var r := Resume(s, p, choice, slot);
    NextSized(s, Run(p, choice, slot));
    assert ProcOk(s, p);
    forall b: nat | b < n && b < |r.bufs| && r.bufs[b].key == k ensures !r.bufs[b].dirt {
      if s.procs[p].HashWait? || s.procs[p].VictimWait? {
        FoundDirt(s, p, choice, slot, k, b);
      } else {
        MovedDirt(s, p, choice, slot, k, b);
      }
    }
    hide Resume, BufOk, ProcOk, Unique, OneLocker, NoWrite;
  }

  lemma FoundDirt(s: State, p: nat, choice: nat, slot: bool, k: Blk, b: nat)
    requires Sized(s) && p < |s.procs| && ProcOk(s, p) && (s.procs[p].HashWait? || s.procs[p].VictimWait?)
    requires NoWrite(s, Run(p, choice, slot), k) && b < |s.bufs| && (s.bufs[b].key == k ==> !s.bufs[b].dirt)
    ensures var r := Resume(s, p, choice, slot); b < |r.bufs| && (r.bufs[b].key == k ==> !r.bufs[b].dirt)
  {
    hide Find;
  }

  lemma MovedDirt(s: State, p: nat, choice: nat, slot: bool, k: Blk, b: nat)
    requires Sized(s) && p < |s.procs| && !s.procs[p].HashWait? && !s.procs[p].VictimWait?
    requires b < |s.bufs| && (s.bufs[b].key == k ==> !s.bufs[b].dirt)
    ensures var r := Resume(s, p, choice, slot); b < |r.bufs| && (r.bufs[b].key == k ==> !r.bufs[b].dirt)
  {
    hide Find, Got;
  }

  lemma PassStep(s: State, e: Step, p: nat, g: Goal, k: Blk, n: nat)
    requires Inv(s) && p < |s.procs| && InPass(s.procs[p], g) && s.procs[p].i <= n && (g.ForAll? || k.dev == g.dev)
    requires CleanTo(s, k, n) && NoWrite(s, e, k)
    ensures var r, i := Next(s, e), s.procs[p].i;
            && |r.bufs| == |s.bufs| && p < |r.procs| && CleanTo(r, k, n)
            && (InPass(r.procs[p], g) ==> r.procs[p].i == i || (r.procs[p].i == i + 1 && CleanTo(r, k, i + 1)))
            && (!InPass(r.procs[p], g) ==> n >= |s.bufs|)
  {
    hide Next, BufOk, ProcOk, Unique, OneLocker, NoWrite, InSweep, Find;
    NextSized(s, e);
    PassMoves(s, e, p, g);
    DirtKept(s, e, k, n);
    var r, i := Next(s, e), s.procs[p].i;
    if InPass(r.procs[p], g) && r.procs[p].i == i + 1 {
      PassNames(s, e, p, i);
      if s.bufs[i].key == k { PassWrites(s, e, p, g); }
    }
  }

  lemma PassNames(s: State, e: Step, p: nat, i: nat)
    requires Sized(s) && p < |s.procs| && (s.procs[p].Syncing? || s.procs[p].SyncSlot?)
               && |Next(s, e).procs| == |s.procs|
    requires Next(s, e).procs[p] != s.procs[p] && i < |s.bufs| == |Next(s, e).bufs|
    ensures Next(s, e).bufs[i].key == s.bufs[i].key
  {
    PcKept(s, e, p);
    hide Find, Got;
  }

  /** The buffers before the n-th are clean as far as block k goes, and the pass has come no further. */
  ghost predicate CleanBehind(s: State, p: nat, g: Goal, k: Blk, n: nat) {
    && p < |s.procs| && CleanTo(s, k, n)
    && if InPass(s.procs[p], g) then s.procs[p].i <= n else n >= |s.bufs|
  }

  lemma StaysThere(s: State, e: Step, p: nat)
    requires Sized(s) && p < |s.procs|
    ensures p < |Next(s, e).procs|
  {
    hide Find;
  }

  lemma CleanPast(s: State, k: Blk, n: nat)
    requires CleanTo(s, k, n) && n >= |s.bufs|
    ensures forall m: nat :: m >= n ==> CleanTo(s, k, m)
  {
  }

  lemma CleanFurther(s: State, e: Step, p: nat, g: Goal, k: Blk, n: nat) returns (m: nat)
    requires Inv(s) && (g.ForAll? || k.dev == g.dev) && k.dev != 0 && CleanBehind(s, p, g, k, n) && NoWrite(s, e, k)
    ensures Inv(Next(s, e)) && CleanBehind(Next(s, e), p, g, k, m) && View(Next(s, e), k) == View(s, k)
  {
    hide BufOk, ProcOk, Unique, OneLocker, Next, View, CleanTo;
    StepIsStore(s, e);
    NextSized(s, e);
    DirtKept(s, e, k, n);
    StaysThere(s, e, p);
    var r := Next(s, e);
    if InPass(s.procs[p], g) { PassStep(s, e, p, g, k, n); } else { CleanPast(r, k, n); }
    m := if InPass(r.procs[p], g) && r.procs[p].i > n then r.procs[p].i else n;
  }

  /** Behind the pass the block is clean everywhere. */
  lemma {:induction false} PassReaches(s: State, es: seq<Step>, p: nat, g: Goal, k: Blk, n: nat)
    requires Inv(s) && k.dev != 0 && (g.ForAll? || k.dev == g.dev) && CleanBehind(s, p, g, k, n) && Untouched(s, es, k)
    requires p < |RunAll(s, es).procs| && !InPass(RunAll(s, es).procs[p], g)
    ensures var r := RunAll(s, es); Inv(r) && CleanTo(r, k, |r.bufs|) && View(r, k) == View(s, k)
    decreases |es|
  {
    hide BufOk, ProcOk, Unique, OneLocker, Next, View, NoWrite;
    if es != [] {
      var m := CleanFurther(s, es[0], p, g, k, n);
      PassReaches(Next(s, es[0]), es[1..], p, g, k, m);
    }
  }

  /** Once a pass of a sync over the device of block k is over, and the transfer of k too, the disk has what the
      system held for k when the pass began, if nobody has changed it meanwhile. */
  lemma SyncReachesDisk(s: State, es: seq<Step>, p: nat, g: Goal, k: Blk)
    requires Inv(s) && p < |s.procs| && s.procs[p] == Syncing(g, 0) && k.dev != 0 && (g.ForAll? || k.dev == g.dev)
    requires Untouched(s, es, k)
    requires var r := RunAll(s, es);
             && p < |r.procs| && !InPass(r.procs[p], g)
             && forall b :: 0 <= b < |r.bufs| && b < |r.io| && r.bufs[b].key == k ==> r.io[b] == NoIo
    ensures RunAll(s, es).disk(k) == View(s, k)
  {
    PassReaches(s, es, p, g, k, 0);
    var r := RunAll(s, es);
    var c := Find(r.bufs, k);
    if c.Some? { assert BufOk(r, c.value); }
  }

  // ---------------------------------------------------------------- single steps

  /** A step of p from s to r queues a transfer only with a free slot, and locks a buffer without one only to wait. */
  ghost predicate BySlot(s: State, r: State, p: nat, slot: bool)
    requires p < |s.procs| && (LockOf(s.procs[p]).Some? ==> LockOf(s.procs[p]).value < |s.io|)
  {
    && |r.io| == |s.io| && |r.procs| == |s.procs|
    && (LockOf(r.procs[p]).Some? ==> !slot)
    && (LockOf(s.procs[p]).Some? && !slot ==> r == s)
    && (LockOf(s.procs[p]).Some? && slot ==> r.io[LockOf(s.procs[p]).value] != NoIo)
    && forall b :: 0 <= b < |s.io| && r.io[b] != s.io[b] ==> slot
  }

  /** A process that has locked a buffer for a transfer queues it at once if a request slot is free, and waits for one
      otherwise; it never has to wait twice for the same. */
  lemma SlotDecides(s: State, p: nat, choice: nat, slot: bool)
    requires Inv(s) && p < |s.procs|
    ensures LockOf(s.procs[p]).Some? ==> LockOf(s.procs[p]).value < |s.io|
    ensures BySlot(s, Resume(s, p, choice, slot), p, slot)
  {
    assert ProcOk(s, p);
    if s.procs[p].HashWait? || s.procs[p].VictimWait? {
      FoundSlot(s, p, choice, slot);
    } else {
      MovedSlot(s, p, choice, slot);
    }
    hide Resume, ProcOk, BufOk, Unique, OneLocker;
  }

  lemma FoundSlot(s: State, p: nat, choice: nat, slot: bool)
    requires Sized(s) && p < |s.procs| && ProcOk(s, p) && (s.procs[p].HashWait? || s.procs[p].VictimWait?)
    ensures BySlot(s, Resume(s, p, choice, slot), p, slot)
  {
    hide Find;
  }

  lemma MovedSlot(s: State, p: nat, choice: nat, slot: bool)
    requires Sized(s) && p < |s.procs| && ProcOk(s, p) && !s.procs[p].HashWait? && !s.procs[p].VictimWait?
    ensures LockOf(s.procs[p]).Some? ==> LockOf(s.procs[p]).value < |s.io|
    ensures BySlot(s, Resume(s, p, choice, slot), p, slot)
  {
    hide Find, Got, InSweep;
  }

  /** getblk goes to sleep for want of a buffer exactly when the block is not cached and every buffer is in use. */
  lemma SleepsIffNoneFree(s: State, p: nat, choice: nat, slot: bool)
    requires Inv(s) && p < |s.procs| && s.procs[p].Start?
    ensures p < |Resume(s, p, choice, slot).procs|
    ensures Resume(s, p, choice, slot).procs[p].NoBuffer? <==> NoneFree(s, p)
  {
    hide Find;
    if Find(s.bufs, s.procs[p].k).Some? { assert Cached(s, s.procs[p].k); }
  }

  /** A transfer that completes unlocks its buffer, which is then as the disk has it unless it was stored to
      meanwhile. */
  lemma CompleteUnlocks(s: State, b: nat, early: Data)
    requires Inv(s) && b < |s.bufs| && s.io[b] != NoIo
    ensures var r := Next(s, Complete(b, early));
            && |r.bufs| == |r.io| == |s.bufs| && r.io[b] == NoIo && !r.bufs[b].lock && r.bufs[b].uptodate
            && (r.bufs[b].dirt || r.bufs[b].data == r.disk(r.bufs[b].key))
            && (s.io[b] == Reading ==> r.disk == s.disk)
            && (s.io[b] == Writing ==> r.bufs[b].data == s.bufs[b].data)
            && (forall x :: x != s.bufs[b].key ==> r.disk(x) == s.disk(x))
            && forall c :: 0 <= c < |s.bufs| && c != b ==> r.bufs[c] == s.bufs[c] && r.io[c] == s.io[c]
  {
    assert BufOk(s, b);
  }

  /** brelse: the holder has the buffer no longer, and its reference is given back. */
  lemma ReleaseGivesBack(s: State, p: nat)
    requires Inv(s) && p < |s.procs| && s.procs[p].Holding?
    ensures var b, r := s.procs[p].b, Next(s, Release(p));
            && b < |s.bufs| == |r.bufs|
            && if s.bufs[b].lock then r == s
               else r.procs == s.procs[p := Idle] && r.bufs[b].count + 1 == s.bufs[b].count
                    && Holders(r.procs, b) == Holders(s.procs, b) - {p} && p in Holders(s.procs, b)
                    && forall k: Blk :: k.dev != 0 ==> View(r, k) == View(s, k)
  {
    assert ProcOk(s, p);
    var b, r := s.procs[p].b, Next(s, Release(p));
    Counted(s, p);
    HolderStep(s, Release(p));
    if !s.bufs[b].lock {
      assert forall q: nat :: q in Holders(r.procs, b) <==> q in Holders(s.procs, b) - {p};
    }
  }
}

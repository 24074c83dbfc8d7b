/** Whole runs of the memory manager: any sequence of forks, stores, page faults, page sharing, exec
    and exit, from the state that mem_init leaves. */
module PagingRuns {
  import opened Basics
  import opened Paging
  import opened PagingInvariant
  import opened PagingRefinement

  datatype Op =
    | Fork(p: nat, c: nat)                               // copy_process, memory part: child slot c
    | UserWrite(d: nat, t: nat, k: nat, w: Word)         // a store, with its write fault if protected
    | Verify(d: nat, t: nat)                             // write_verify, in the course of a system call
    | KernelStore(d: nat, t: nat, k: nat, w: Word)       // later in that call: a store that ignores protection
    | Return(nr: nat)                                    // task nr returns from its system call
    | Fault(d: nat, t: nat, page: Page)                     // do_no_page served with contents page
    | Share(df: nat, dt: nat, t: nat)                    // try_to_share
    | Exec(nr: nat)                                      // do_execve: drop the old image, widen the limit
    | Exit(nr: nat)                                      // do_exit
    | Take                                               // the kernel takes a page for itself
    | GiveBack(f: nat)                                   // and returns it

  predicate InLimit(s: State, d: nat, t: nat)
    requires Shape(s)
  {
    User(d) && t < PTRS && Offset(d) < s.lim[Slot(d)]
  }

  /** What the hardware and the rest of the kernel guarantee when an operation is started. */
  predicate Enabled(s: State, op: Op)
    requires Shape(s)
  {
    match op
    case Fork(p, c) => p < NR_TASKS && 1 <= c < NR_TASKS && 0 < s.lim[p] <= SLOT_DIRS && s.lim[c] == 0
    case UserWrite(d, t, k, _) => User(d) && t < PTRS && k < PTRS && View(s, d, t).Some?
    case Verify(d, t) => User(d) && t < PTRS
    case KernelStore(d, t, k, _) => User(d) && t < PTRS && k < PTRS && View(s, d, t).Some?
        && LOW <= Entry(s, d, t).frame
    case Return(nr) => true
    case Fault(d, t, p) => InLimit(s, d, t) && !Entry(s, d, t).present && |p| == PTRS
    case Share(df, dt, t) =>
      InLimit(s, dt, t) && User(df) && df != dt && Offset(df) == Offset(dt) && !Entry(s, dt, t).present
    case Exec(nr) => 1 <= nr < NR_TASKS && 0 < s.lim[nr] <= SLOT_DIRS
    case Exit(nr) => 1 <= nr < NR_TASKS && 0 < s.lim[nr] <= SLOT_DIRS
    case Take => true
    case GiveBack(f) => true
  }

  /** write_verify: a page that is not there, or writable already, is left alone. */
  function WriteVerify(s: State, d: nat, t: nat): (r: (State, bool))
    requires Shape(s)
    ensures Shape(r.0)
  {
    if Entry(s, d, t).present && !Entry(s, d, t).writable && Entry(s, d, t).frame < |s.mem| then UnWp(s, d, t)
    else (s, true)
  }

  /** A user's store, which first gets rid of a write protection: the write fault and write_verify call the same
      un_wp_page. */
  function Write(s: State, d: nat, t: nat, k: nat, w: Word): (r: (State, bool))
    requires HasTable(s, d) && t < PTRS && Entry(s, d, t).frame < |s.mem| && k < PTRS
    ensures Shape(r.0)
  {
    var (s1, ok) := WriteVerify(s, d, t);
    if ok && Entry(s1, d, t).frame < |s1.mem| then (Store(s1, d, t, k, w), true) else (s1, false)
  }

  /** The state after op, and whether op succeeded; an operation that is not enabled does nothing. */
  function Step(s: State, op: Op): (r: (State, bool))
    requires Shape(s)
    ensures Shape(r.0)
  {
    if !Enabled(s, op) then (s, false)
    else match op
      case Fork(p, c) => CopyMem(s, p, c)
      case UserWrite(d, t, k, w) => Write(s, d, t, k, w)
      case Verify(d, t) => WriteVerify(s, d, t)
      case KernelStore(d, t, k, w) =>
        if Entry(s, d, t).frame < |s.mem| then (Store(s, d, t, k, w), true) else (s, false)
      case Return(nr) => (s, true)
      case Fault(d, t, p) => LoadPage(s, d, t, p)
      case Share(df, dt, t) => var (r, how) := TryToShare(s, df, dt, t); (r, how == IsShared)
      case Exec(nr) => (Resized(FreeTables(s, nr * SLOT_DIRS, s.lim[nr]), nr, SLOT_DIRS), true)
      case Exit(nr) => (Resized(FreeTables(s, nr * SLOT_DIRS, s.lim[nr]), nr, 0), true)
      case Take => (match FreeFrame(s) case None => (s, false) case Some(f) => (Taken(s, f), true))
      case GiveBack(f) => (Release(s, f), true)
  }

  function Resized(s: State, nr: nat, n: nat): (r: State)
    requires Shape(s)
    ensures Shape(r)
  {
    if nr < NR_TASKS then s.(lim := s.lim[nr := n]) else s
  }

  function Run(s: State, ops: seq<Op>): (r: (State, seq<bool>))
    requires Shape(s)
    ensures Shape(r.0) && |r.1| == |ops|
    decreases |ops|
  {
    if ops == [] then (s, [])
    else
      var (s1, ok) := Step(s, ops[0]);
      var (s2, oks) := Run(s1, ops[1..]);
      (s2, [ok] + oks)
  }

  // ---------------------------------------------------------------- the eager machine

  /** What is read at each linear page, and nothing else: no frames, no counts, no sharing. */
  type Space = (nat, nat) -> Option<Page>

  ghost predicate Shows(s: State, A: Space) {
    forall d: nat, t: nat :: A(d, t) == View(s, d, t)
  }

  /** An operation that succeeded, on address spaces that share nothing. */
  ghost function EagerStep(A: Space, op: Op, ok: bool): Space {
    if !ok then A
    else match op
      case Fork(p, c) =>
        (d: nat, t: nat) => if Slot(d) == c then A(p * SLOT_DIRS + Offset(d), t) else A(d, t)
      case UserWrite(d0, t0, k, w) => EagerWrite(A, d0, t0, k, w)
      case Verify(_, _) => A
      case KernelStore(d0, t0, k, w) => EagerWrite(A, d0, t0, k, w)
      case Return(_) => A
      case Fault(d0, t0, p) => (d: nat, t: nat) => if d == d0 && t == t0 then Some(p) else A(d, t)
      case Share(df, dt, t0) => (d: nat, t: nat) => if d == dt && t == t0 then A(df, t0) else A(d, t)
      case Exec(nr) => (d: nat, t: nat) => if Slot(d) == nr then None else A(d, t)
      case Exit(nr) => (d: nat, t: nat) => if Slot(d) == nr then None else A(d, t)
      case Take => A
      case GiveBack(_) => A
  }

  ghost function EagerWrite(A: Space, d0: nat, t0: nat, k: nat, w: Word): Space {
    (d: nat, t: nat) =>
      if d == d0 && t == t0 && A(d, t).Some? && k < |A(d, t).value| then Some(A(d, t).value[k := w]) else A(d, t)
  }

  ghost function EagerRun(A: Space, ops: seq<Op>, oks: seq<bool>): Space
    requires |oks| == |ops|
    decreases |ops|
  {
    if ops == [] then A else EagerRun(EagerStep(A, ops[0], oks[0]), ops[1..], oks[1..])
  }

  // ---------------------------------------------------------------- one step

  ghost predicate Good(s: State) {
    Inv(s) && Limited(s)
  }

  lemma VerifyStep(s: State, d: nat, t: nat)
    requires Good(s) && User(d) && t < PTRS
    ensures var (r, ok) := WriteVerify(s, d, t);
            && Good(r) && SameViews(s, r)
            && (ok && Entry(r, d, t).present ==> Entry(r, d, t).writable)
  {
    assert Entry(s, d, t).present ==> Entry(s, d, t).frame < |s.mem|;
    hide Sound;
    if Entry(s, d, t).present && !Entry(s, d, t).writable { Unprotected(s, d, t); }
  }

  lemma WriteStep(s: State, d: nat, t: nat, k: nat, w: Word)
    requires Good(s) && User(d) && t < PTRS && k < PTRS && View(s, d, t).Some?
    ensures var (r, ok) := Write(s, d, t, k, w);
            && Good(r) && SameViewsBut(s, r, d, t)
            && View(r, d, t) == if ok then Some(View(s, d, t).value[k := w]) else View(s, d, t)
  {
    VerifyStep(s, d, t);
    var (s1, ok) := WriteVerify(s, d, t);
    if ok {
      assert View(s1, d, t) == View(s, d, t);
      WritableIsAlone(s1, d, t);
      hide Sound, WriteVerify;
      Stored(s1, d, t, k, w);
    }
  }

  lemma WritableIsAlone(s: State, d: nat, t: nat)
    requires Inv(s) && User(d) && Entry(s, d, t).present && Entry(s, d, t).writable
    ensures LOW <= Entry(s, d, t).frame < |s.mem| && Count(s, Entry(s, d, t).frame) == 1
  {
  }

  lemma TeardownStep(s: State, nr: nat, n: nat)
    requires Good(s) && 1 <= nr < NR_TASKS && n <= SLOT_DIRS
    ensures var r := Resized(FreeTables(s, nr * SLOT_DIRS, s.lim[nr]), nr, n);
            && Good(r)
            && forall d: nat, t: nat :: View(r, d, t) == if Slot(d) == nr then None else View(s, d, t)
  {
    hide Sound, Entry, View, FreeTables;
    var d0 := nr * SLOT_DIRS;
    TablesFreed(s, d0, s.lim[nr]);
    NoPagesBeyondLimit(s, nr);
    var s1 := FreeTables(s, d0, s.lim[nr]);
    var r := Resized(s1, nr, n);
    SameButLimits(s1, r);
    forall d: nat ensures Slot(d) == nr <==> d0 <= d < d0 + SLOT_DIRS {}
    forall d: nat | User(d) && r.dir[d].present ensures Offset(d) < r.lim[Slot(d)] {}
  }

  lemma ForkStep(s: State, p: nat, c: nat)
    requires Good(s) && Enabled(s, Fork(p, c))
    ensures var (r, ok) := CopyMem(s, p, c);
            && Good(r)
            && forall d: nat, t: nat ::
                 View(r, d, t) == if ok && Slot(d) == c then View(s, p * SLOT_DIRS + Offset(d), t) else View(s, d, t)
  {
    hide Sound, Entry, View, CopyMem;
    MemCopied(s, p, c);
    var (r, ok) := CopyMem(s, p, c);
    forall d: nat | User(d) && r.dir[d].present ensures Offset(d) < r.lim[Slot(d)] {
      if Slot(d) == c {
        assert d == c * SLOT_DIRS + Offset(d);
      } else {
        assert !(c * SLOT_DIRS <= d < c * SLOT_DIRS + SLOT_DIRS);
      }
    }
  }

  /** A kernel store finds its page mapped once, as mem_map can tell. */
  ghost predicate Guard(s: State, op: Op)
    requires Shape(s)
  {
    op.KernelStore? && Enabled(s, op) ==> Count(s, Entry(s, op.d, op.t).frame) == 1
  }

  /** One operation: the invariant is kept, and unless a kernel store meets a shared page, the eager machine makes the
      matching step. */
  lemma StepRefines(s: State, A: Space, op: Op)
    requires Good(s) && Shows(s, A)
    ensures Good(Step(s, op).0)
    ensures Guard(s, op) ==> Shows(Step(s, op).0, EagerStep(A, op, Step(s, op).1))
  {
    hide Sound, CopyMem, Write, WriteVerify, LoadPage, TryToShare, FreeTables, View;
    if Enabled(s, op) {
      match op
      case Fork(p, c) =>
        ForkRefines(s, A, p, c);
      case UserWrite(d, t, k, w) => WriteStep(s, d, t, k, w); ViewLength(s, d, t);
      case Verify(d, t) => VerifyStep(s, d, t);
      case KernelStore(d, t, k, w) => KernelStoreStep(s, A, op);
      case Return(nr) =>
      case Fault(d, t, page) => PageLoaded(s, d, t, page); LimitKept(s, LoadPage(s, d, t, page).0, d);
      case Share(df, dt, t) => PageShared(s, df, dt, t); LimitKept(s, TryToShare(s, df, dt, t).0, dt);
      case Exec(nr) => TeardownStep(s, nr, SLOT_DIRS);
      case Exit(nr) => TeardownStep(s, nr, 0);
      case Take => if FreeFrame(s).Some? { PageTaken(s, FreeFrame(s).value); }
      case GiveBack(f) => PageReleased(s, f);
    }
  }

  lemma ForkRefines(s: State, A: Space, p: nat, c: nat)
    requires Good(s) && Shows(s, A) && Enabled(s, Fork(p, c))
    ensures Good(Step(s, Fork(p, c)).0)
    ensures Shows(Step(s, Fork(p, c)).0, EagerStep(A, Fork(p, c), Step(s, Fork(p, c)).1))
  {
    hide Sound, CopyMem, View;
    ForkStep(s, p, c);
    var (r, ok) := Step(s, Fork(p, c));
    forall d: nat, t: nat ensures EagerStep(A, Fork(p, c), ok)(d, t) == View(r, d, t) {
      assert A(p * SLOT_DIRS + Offset(d), t) == View(s, p * SLOT_DIRS + Offset(d), t);
    }
  }

  lemma KernelStoreStep(s: State, A: Space, op: Op)
    requires Good(s) && Shows(s, A) && op.KernelStore? && Enabled(s, op)
    ensures Good(Step(s, op).0)
    ensures Guard(s, op) ==> Shows(Step(s, op).0, EagerStep(A, op, Step(s, op).1))
  {
    assert Entry(s, op.d, op.t).present;
    RawStored(s, op.d, op.t, op.k, op.w);
    ViewLength(s, op.d, op.t);
    if Guard(s, op) { Stored(s, op.d, op.t, op.k, op.w); }
    hide Sound, Store;
  }

  lemma ViewLength(s: State, d: nat, t: nat)
    requires Shape(s) && View(s, d, t).Some?
    ensures |View(s, d, t).value| == PTRS
  {
  }

  lemma LimitKept(s: State, r: State, d: nat)
    requires Good(s) && Inv(r) && r.lim == s.lim && User(d) && Offset(d) < s.lim[Slot(d)]
    requires forall e: nat :: e < NDIR && e != d ==> r.dir[e] == s.dir[e]
    ensures Good(r)
  {
    hide Sound;
  }

  /** No kernel store of the run meets a shared page. */
  ghost predicate Guarded(s: State, ops: seq<Op>)
    requires Shape(s)
    decreases |ops|
  {
    ops == [] || (Guard(s, ops[0]) && Guarded(Step(s, ops[0]).0, ops[1..]))
  }

  /** Copy-on-write refines eager copying, over every run in which kernel stores meet pages that are mapped once. */
  lemma {:induction false} RunRefines(s: State, A: Space, ops: seq<Op>)
    requires Good(s) && Shows(s, A) && Guarded(s, ops)
    ensures Shows(Run(s, ops).0, EagerRun(A, ops, Run(s, ops).1))
    decreases |ops|
  {
    if ops != [] {
      StepRefines(s, A, ops[0]);
      var (s1, ok) := Step(s, ops[0]);
      var oks := Run(s, ops).1;
      assert oks[0] == ok && oks[1..] == Run(s1, ops[1..]).1;
      hide Good, Shows, Step, EagerStep, Guard;
      RunRefines(s1, EagerStep(A, ops[0], ok), ops[1..]);
    }
  }

  /** The invariant holds over every run whatever. */
  lemma {:induction false} RunIsGood(s: State, ops: seq<Op>)
    requires Good(s)
    ensures Good(Run(s, ops).0)
    decreases |ops|
  {
    if ops != [] {
      StepRefines(s, (d: nat, t: nat) => View(s, d, t), ops[0]);
      hide Good, Step;
      RunIsGood(Step(s, ops[0]).0, ops[1..]);
    }
  }

  // ---------------------------------------------------------------- what every reachable state is like

  /** The state mem_init leaves: frames from start to high are free, every other counted page is
      marked used; the kernel's tables lie below LOW_MEM and no task has a table. */
  ghost predicate Booted(s: State, start: nat) {
    && Shape(s) && LOW <= start <= s.high
    && s.dir[0].present
    && (forall d: nat :: d < NDIR && s.dir[d].present ==> d < SLOT_DIRS && s.dir[d].frame < LOW)
    && (forall t: nat :: t < KERNEL_ENTRIES && Entry(s, 0, t).present ==> Entry(s, 0, t).frame < LOW)
    && (forall f: nat :: LOW <= f < |s.mem| ==> Count(s, f) == Held(s, f) == if start <= f < s.high then 0 else USED)
    && s.lim[0] == 1 && (forall nr: nat :: 1 <= nr < NR_TASKS ==> s.lim[nr] == 0)
  }

  lemma BootedIsGood(s: State, start: nat)
    requires Booted(s, start)
    ensures Good(s)
  {
    forall d: nat, t: nat | User(d) ensures !Entry(s, d, t).present {}
    forall f: nat ensures Mappers(s, f) == {} && Tables(s, f) == {} {}
  }

  ghost predicate Reachable(s: State) {
    exists s0: State, start: nat, ops: seq<Op> :: Booted(s0, start) && s == Run(s0, ops).0
  }

  /** In every reachable state mem_map is exact, a writable task entry has its page to itself, and no
      count of a mapped page reaches the number of task slots. */
  lemma ReachableFacts(s: State)
    requires Reachable(s)
    ensures Shape(s)
    ensures forall f: nat {:trigger Mappers(s, f)} :: LOW <= f < |s.mem| ==>
      Count(s, f) == |Mappers(s, f)| + |Tables(s, f)| + Held(s, f) <= USED
    ensures forall d: nat, t: nat :: User(d) && Entry(s, d, t).present && Entry(s, d, t).writable ==>
      Mappers(s, Entry(s, d, t).frame) == {(d, t)} && Count(s, Entry(s, d, t).frame) == 1
    ensures forall d: nat, t: nat :: User(d) && Entry(s, d, t).present && LOW <= Entry(s, d, t).frame ==>
      Count(s, Entry(s, d, t).frame) < NR_TASKS
  {
    var s0, start, ops :| Booted(s0, start) && s == Run(s0, ops).0;
    BootedIsGood(s0, start);
    RunIsGood(s0, ops);
    forall f: nat | LOW <= f < |s.mem|
      ensures Count(s, f) == |Mappers(s, f)| + |Tables(s, f)| + Held(s, f) <= USED
    {
      CountBound(s, f);
    }
    forall d: nat, t: nat | User(d) && Entry(s, d, t).present
      ensures LOW <= Entry(s, d, t).frame ==> Count(s, Entry(s, d, t).frame) < NR_TASKS
      ensures Entry(s, d, t).writable ==>
                Mappers(s, Entry(s, d, t).frame) == {(d, t)} && Count(s, Entry(s, d, t).frame) == 1
    {
      WhoMaps(s, d, t);
    }
  }

  lemma WhoMaps(s: State, d: nat, t: nat)
    requires Inv(s) && User(d) && Entry(s, d, t).present
    ensures LOW <= Entry(s, d, t).frame ==> Count(s, Entry(s, d, t).frame) < NR_TASKS
    ensures Entry(s, d, t).writable ==>
              Mappers(s, Entry(s, d, t).frame) == {(d, t)} && Count(s, Entry(s, d, t).frame) == 1
  {
    var f := Entry(s, d, t).frame;
    assert t < PTRS && (d, t) in Mappers(s, f);
    CountBound(s, f);
    if Entry(s, d, t).writable { SoleMapper(s, d, t); }
  }
}

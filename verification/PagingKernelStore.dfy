/** Stores by the kernel to user memory. write_verify splits a shared page before such a store, but a system
    call may sleep between the two; what must not happen meanwhile, and what does happen if it does. */
module PagingKernelStore {
  import opened Basics
  import opened Paging
  import opened PagingInvariant
  import opened PagingRefinement
  import opened PagingRuns

  // ---------------------------------------------------------------- which entries a step can change

  ghost predicate EntriesBut(s: State, r: State, d: nat, t: nat) {
    forall e: nat, u: nat :: e != d || u != t ==> Entry(r, e, u) == Entry(s, e, u)
  }

  /** A page that is not counted is no table. */
  lemma NoTable(s: State, f: nat)
    requires Inv(s) && LOW <= f < |s.mem| && Count(s, f) == 0
    ensures forall e: nat :: e < NDIR && s.dir[e].present ==> s.dir[e].frame != f
  {
    Unused'(s, f);
  }

  lemma UnWpEntries(s: State, d: nat, t: nat)
    requires Inv(s) && User(d) && Entry(s, d, t).present && t < PTRS && Entry(s, d, t).frame < |s.mem|
    ensures EntriesBut(s, UnWp(s, d, t).0, d, t)
  {
    TableIsAlone(s, d);
    if FreeFrame(s).Some? { NoTable(s, FreeFrame(s).value); }
  }

  lemma VerifyEntries(s: State, d: nat, t: nat)
    requires Inv(s) && User(d) && t < PTRS
    ensures EntriesBut(s, WriteVerify(s, d, t).0, d, t)
  {
    if Entry(s, d, t).present && !Entry(s, d, t).writable && Entry(s, d, t).frame < |s.mem| { UnWpEntries(s, d, t); }
  }

  lemma TableEntries(s: State, d: nat)
    requires Inv(s) && User(d)
    ensures forall e: nat, u: nat :: Entry(EnsureTable(s, d).0, e, u) == Entry(s, e, u)
  {
    if !s.dir[d].present && FreeFrame(s).Some? { NoTable(s, FreeFrame(s).value); }
  }

  lemma LoadEntries(s: State, d: nat, t: nat, p: Page)
    requires Inv(s) && User(d) && t < PTRS && !Entry(s, d, t).present && |p| == PTRS
    ensures EntriesBut(s, LoadPage(s, d, t, p).0, d, t)
    ensures var w := Entry(LoadPage(s, d, t, p).0, d, t); w.present ==> w.writable && !Dirty(w)
  {
    hide Sound;
    if FreeFrame(s).Some? {
      var f := FreeFrame(s).value;
      PageTaken(s, f);
      var s1 := Taken(s, f);
      var s2 := SetPage(s1, f, p);
      HeldFilled(s1, f, p);
      TableEntries(s2, d);
      PagePut(s2, f, d, t);
      PutEntries(s2, f, d, t);
      if !PutPage(s2, f, d, t).1 { PageReleased(s2, f); }
    }
  }

  lemma PutEntries(s: State, f: nat, d: nat, t: nat)
    requires Inv(s) && User(d) && t < PTRS && !Entry(s, d, t).present && LOW <= f < s.high
    ensures EntriesBut(s, PutPage(s, f, d, t).0, d, t)
    ensures var w := Entry(PutPage(s, f, d, t).0, d, t); w.present ==> w.writable && !Dirty(w)
  {
    hide Sound;
    TableEntries(s, d);
    if !s.dir[d].present { TableMade(s, d); }
    var (s1, ok) := EnsureTable(s, d);
    if ok { SetEntryEffect(s1, d, t, UserRw(f)); }
  }

  lemma ShareEntries(s: State, df: nat, dt: nat, t: nat)
    requires Inv(s) && User(df) && User(dt) && df != dt && Offset(df) == Offset(dt) && t < PTRS
               && !Entry(s, dt, t).present
    ensures var (r, how) := TryToShare(s, df, dt, t);
            && (forall e: nat, u: nat :: u != t || (e != df && e != dt) ==> Entry(r, e, u) == Entry(s, e, u))
            && Entry(r, df, t) == (if how == IsShared then Protected(Entry(s, df, t)) else Entry(s, df, t))
            && (how == IsShared ==> Entry(r, dt, t) == Entry(r, df, t) && Entry(r, df, t).present
                                    && LOW <= Entry(r, df, t).frame)
  {
    hide Sound;
    TableEntries(s, dt);
    if !s.dir[dt].present { TableMade(s, dt); }
    var (s1, ok) := EnsureTable(s, dt);
    var w := Entry(s, df, t);
    if s.dir[df].present && w.present && !Dirty(w) && LOW <= w.frame < s.high && ok {
      SetEntryEffect(s1, df, t, Protected(w));
      Protect(s1, df, t);
      SetEntryEffect(SetEntry(s1, df, t, Protected(w)), dt, t, Protected(w));
    }
  }

  // ---------------------------------------------------------------- one store

  /** A page with another count than 1 has another mapping. */
  lemma OtherMapper(s: State, d: nat, t: nat) returns (e: nat, u: nat)
    requires Inv(s) && User(d) && Entry(s, d, t).present && LOW <= Entry(s, d, t).frame
               && Count(s, Entry(s, d, t).frame) != 1
    ensures User(e) && u < PTRS && (e != d || u != t)
    ensures Entry(s, e, u).present && Entry(s, e, u).frame == Entry(s, d, t).frame < |s.mem|
  {
    var f := Entry(s, d, t).frame;
    MappedPage(s, d, t);
    hide Sound;
    CountWithout(Mappers(s, f), (d, t));
    var a :| a in Mappers(s, f) - {(d, t)};
    e, u := a.0, a.1;
  }

  /** A kernel store that changes a word changes no other task's memory exactly when mem_map counts its page once. */
  lemma RawStoreIff(s: State, d: nat, t: nat, k: nat, w: Word)
    requires Inv(s) && User(d) && Entry(s, d, t).present && LOW <= Entry(s, d, t).frame < |s.mem| && t < PTRS
               && k < PTRS
    requires s.mem[Entry(s, d, t).frame][k] != w
    ensures SameViewsBut(s, Store(s, d, t, k, w), d, t) <==> Count(s, Entry(s, d, t).frame) == 1
  {
    var f := Entry(s, d, t).frame;
    if Count(s, f) == 1 {
      Stored(s, d, t, k, w);
    } else {
      RawStored(s, d, t, k, w);
      var e, u := OtherMapper(s, d, t);
      var r := Store(s, d, t, k, w);
      assert View(s, e, u) == Some(s.mem[f]) && View(r, e, u) == Some(s.mem[f][k := w]);
      assert s.mem[f][k := w][k] == w;
    }
    hide Sound, Store, Entry;
  }

  /** write_verify leaves a page alone that is mapped once; if the page is then shared, the store shows in the
      other task. */
  lemma SharedInBetween(s: State, df: nat, dt: nat, t: nat, k: nat, w: Word)
    requires Good(s) && Enabled(s, Share(df, dt, t)) && TryToShare(s, df, dt, t).1 == IsShared && t < PTRS && k < PTRS
    requires Entry(s, df, t).writable && Entry(s, df, t).frame < |s.mem|
    ensures WriteVerify(s, df, t) == (s, true)
    ensures var r := Step(s, Share(df, dt, t)).0;
            && Enabled(r, KernelStore(df, t, k, w))
            && View(r, dt, t) == Some(s.mem[Entry(s, df, t).frame])
            && View(Step(r, KernelStore(df, t, k, w)).0, dt, t) == Some(s.mem[Entry(s, df, t).frame][k := w])
  {
    var r, p := Step(s, Share(df, dt, t)).0, s.mem[Entry(s, df, t).frame];
    ShareEntries(s, df, dt, t);
    PageShared(s, df, dt, t);
    assert View(s, df, t) == Some(p) && View(r, df, t) == Some(p) && View(r, dt, t) == Some(p);
    hide Sound, TryToShare;
    assert Enabled(r, KernelStore(df, t, k, w));
    RawStored(r, df, t, k, w);
    assert r.mem[Entry(r, df, t).frame] == p;
    hide WriteVerify, Entry, Store;
  }

  /** The three steps one by one. */
  lemma SharedSteps(s: State, df: nat, dt: nat, t: nat, k: nat, w: Word)
    requires Good(s) && Enabled(s, Share(df, dt, t)) && TryToShare(s, df, dt, t).1 == IsShared && t < PTRS && k < PTRS
    requires Entry(s, df, t).writable && Entry(s, df, t).frame < |s.mem|
    ensures var p, r := s.mem[Entry(s, df, t).frame], Step(s, Share(df, dt, t)).0;
            && k < |p| && df != dt && View(s, df, t) == Some(p)
            && Step(s, Verify(df, t)) == (s, true) && Step(s, Share(df, dt, t)).1 && Step(r, KernelStore(df, t, k, w)).1
            && View(Step(r, KernelStore(df, t, k, w)).0, dt, t) == Some(p[k := w])
  {
    SharedInBetween(s, df, dt, t, k, w);
    hide Sound, TryToShare, WriteVerify;
  }

  /** So that run does not refine eager copying. */
  lemma SharedRunFails(s: State, df: nat, dt: nat, t: nat, k: nat, w: Word)
    requires Good(s) && Enabled(s, Share(df, dt, t)) && TryToShare(s, df, dt, t).1 == IsShared && t < PTRS && k < PTRS
    requires Entry(s, df, t).writable && Entry(s, df, t).frame < |s.mem| && s.mem[Entry(s, df, t).frame][k] != w
    ensures var ops := [Verify(df, t), Share(df, dt, t), KernelStore(df, t, k, w)];
            !Shows(Run(s, ops).0, EagerRun((d: nat, u: nat) => View(s, d, u), ops, Run(s, ops).1))
  {
    hide Good, Enabled, TryToShare, WriteVerify, View, Step, Run, EagerRun;
    var a, b, c := Verify(df, t), Share(df, dt, t), KernelStore(df, t, k, w);
    var A, p, r := (d: nat, u: nat) => View(s, d, u), s.mem[Entry(s, df, t).frame], Step(s, b).0;
    SharedSteps(s, df, dt, t, k, w);
    RunThree(s, A, a, b, c);
    EagerKeepsOld(A, df, dt, t, k, w);
    assert p[k := w][k] == w;
    assert View(Step(r, c).0, dt, t) != EagerStep(EagerStep(EagerStep(A, a, true), b, true), c, true)(dt, t);
  }

  /** With nothing shared, the second task keeps what it was given. */
  lemma EagerKeepsOld(A: Space, df: nat, dt: nat, t: nat, k: nat, w: Word)
    requires df != dt
    ensures var A1 := EagerStep(A, Verify(df, t), true);
            EagerStep(EagerStep(A1, Share(df, dt, t), true), KernelStore(df, t, k, w), true)(dt, t) == A(df, t)
  {
  }

  /** The same when the page is not there yet: write_verify does nothing, the fault of the store finds a page to
      share, and the store is then made to that page. */
  lemma AbsentInBetween(s: State, df: nat, dt: nat, t: nat, k: nat, w: Word)
    requires Good(s) && Enabled(s, Share(df, dt, t)) && TryToShare(s, df, dt, t).1 == IsShared && t < PTRS && k < PTRS
    requires Entry(s, df, t).frame < |s.mem|
    ensures WriteVerify(s, dt, t) == (s, true) && View(s, df, t) == Some(s.mem[Entry(s, df, t).frame])
    ensures var r := Step(s, Share(df, dt, t)).0;
            && Enabled(r, KernelStore(dt, t, k, w))
            && View(Step(r, KernelStore(dt, t, k, w)).0, df, t) == Some(s.mem[Entry(s, df, t).frame][k := w])
  {
    var r, p := Step(s, Share(df, dt, t)).0, s.mem[Entry(s, df, t).frame];
    ShareEntries(s, df, dt, t);
    PageShared(s, df, dt, t);
    assert View(s, df, t) == Some(p) && View(r, df, t) == Some(p) && View(r, dt, t) == Some(p);
    hide Sound, TryToShare;
    assert Enabled(r, KernelStore(dt, t, k, w));
    RawStored(r, dt, t, k, w);
    assert r.mem[Entry(r, dt, t).frame] == p;
    hide WriteVerify, Entry, Store;
  }

  lemma RunCons(s: State, a: Op, ops: seq<Op>)
    requires Shape(s)
    ensures Run(s, [a] + ops) == (Run(Step(s, a).0, ops).0, [Step(s, a).1] + Run(Step(s, a).0, ops).1)
  {
    hide Step;
    assert ([a] + ops)[1..] == ops;
  }

  lemma EagerCons(A: Space, a: Op, ops: seq<Op>, ok: bool, oks: seq<bool>)
    requires |oks| == |ops|
    ensures EagerRun(A, [a] + ops, [ok] + oks) == EagerRun(EagerStep(A, a, ok), ops, oks)
  {
    hide EagerStep;
    assert ([a] + ops)[1..] == ops && ([ok] + oks)[1..] == oks;
  }

  lemma RunThree(s: State, A: Space, a: Op, b: Op, c: Op)
    requires Shape(s) && Step(s, a) == (s, true) && Step(s, b).1 && Step(Step(s, b).0, c).1
    ensures Run(s, [a, b, c]) == (Step(Step(s, b).0, c).0, [true, true, true])
    ensures EagerRun(A, [a, b, c], [true, true, true]) == EagerStep(EagerStep(EagerStep(A, a, true), b, true), c, true)
  {
    hide Step, EagerStep;
    assert [a, b, c] == [a] + ([b] + ([c] + [])) && [true, true, true] == [true] + ([true] + ([true] + []));
    RunCons(s, a, [b] + ([c] + []));
    RunCons(s, b, [c] + []);
    RunCons(Step(s, b).0, c, []);
    EagerCons(A, a, [b] + ([c] + []), true, [true] + ([true] + []));
    EagerCons(EagerStep(A, a, true), b, [c] + [], true, [true] + []);
    EagerCons(EagerStep(EagerStep(A, a, true), b, true), c, [], true, []);
  }

  /** Tasks 1 and 2, each with one table; task 1 has a private clean page at its address 0, task 2 none yet. */
  function TwoDir(d: int): Word {
    if d == 0 then UserRw(1) else if d == SLOT_DIRS then UserRw(LOW) else if d == 2 * SLOT_DIRS then UserRw(LOW + 1)
    else EMPTY
  }

  function TwoMem(f: int): (p: Page)
    ensures |p| == PTRS && forall t :: 0 <= t < PTRS ==> p[t] == if f == LOW && t == 0 then UserRw(LOW + 2) else EMPTY
  {
    if f == LOW then ZeroPage()[0 := UserRw(LOW + 2)] else ZeroPage()
  }

  function TwoTasks(): (s: State)
    ensures |s.dir| == NDIR && forall d :: 0 <= d < NDIR ==> s.dir[d] == TwoDir(d)
    ensures |s.mem| == LOW + 3 && forall f :: 0 <= f < LOW + 3 ==> s.mem[f] == TwoMem(f)
    ensures s.high == LOW + 3 && s.cnt == [1, 1, 1] && s.held == [0, 0, 0]
    ensures |s.lim| == NR_TASKS && forall nr :: 0 <= nr < NR_TASKS ==>
              s.lim[nr] == if nr == 0 then 1 else if nr <= 2 then SLOT_DIRS else 0
  {
    State(LOW + 3, seq(NDIR, d => TwoDir(d)), seq(LOW + 3, f => TwoMem(f)), [1, 1, 1], [0, 0, 0],
          seq(NR_TASKS, nr => if nr == 0 then 1 else if nr <= 2 then SLOT_DIRS else 0))
  }

  lemma TwoTasksGood()
    ensures Good(TwoTasks())
    ensures forall d: nat, t: nat :: Entry(TwoTasks(), d, t) ==
              if d == SLOT_DIRS && t == 0 then UserRw(LOW + 2) else EMPTY
  {
    var s := TwoTasks();
    hide TwoTasks, TwoMem;
    assert Shape(s);
    forall d: nat, t: nat ensures Entry(s, d, t) == if d == SLOT_DIRS && t == 0 then UserRw(LOW + 2) else EMPTY {
      assert HasTable(s, d) && t < PTRS ==> s.mem[s.dir[d].frame] == TwoMem(s.dir[d].frame);
    }
    forall f: nat | LOW <= f < |s.mem| ensures Count(s, f) == |Mappers(s, f)| + |Tables(s, f)| + Held(s, f) {
      assert s.dir[SLOT_DIRS].present && s.dir[2 * SLOT_DIRS].present;
      assert Mappers(s, f) == if f == LOW + 2 then {(SLOT_DIRS, 0)} else {};
      assert Tables(s, f) == if f == LOW then {SLOT_DIRS} else if f == LOW + 1 then {2 * SLOT_DIRS} else {};
    }
    assert s.dir[0].present;
  }

  /** An instance: task 1 verifies its page, task 2 comes to share it, and the kernel's store for task 1 shows
      in task 2. */
  lemma StoreLeaks(w: Word)
    requires w != EMPTY
    ensures var ops := [Verify(SLOT_DIRS, 0), Share(SLOT_DIRS, 2 * SLOT_DIRS, 0), KernelStore(SLOT_DIRS, 0, 0, w)];
            && Good(TwoTasks())
            && !Shows(Run(TwoTasks(), ops).0,
                  EagerRun((d: nat, u: nat) => View(TwoTasks(), d, u), ops, Run(TwoTasks(), ops).1))
  {
    var s := TwoTasks();
    TwoTasksGood();
    assert s.dir[SLOT_DIRS].present && s.dir[2 * SLOT_DIRS].present;
    assert s.mem[LOW + 2] == TwoMem(LOW + 2);
    assert Entry(s, SLOT_DIRS, 0) == UserRw(LOW + 2);
    assert TryToShare(s, SLOT_DIRS, 2 * SLOT_DIRS, 0).1 == IsShared;
    hide TwoTasks, Good, Run, EagerRun, TryToShare;
    SharedRunFails(s, SLOT_DIRS, 2 * SLOT_DIRS, 0, 0, w);
  }

  // ---------------------------------------------------------------- from write_verify to the store

  /** What write_verify leaves behind: if the page is there, its entry is writable. */
  ghost predicate Verified(s: State, d: nat, t: nat) {
    User(d) && t < PTRS && (Entry(s, d, t).present ==> Entry(s, d, t).writable)
  }

  /** The steps that can protect or share page (d, t) of a task that is inside a system call. */
  predicate Disturbs(op: Op, d: nat, t: nat) {
    || (op.Share? && op.t == t && (op.df == d || op.dt == d))
    || (op.Fork? && (Slot(d) == op.p || Slot(d) == op.c))
  }

  /** No other step takes the write bit away again. */
  lemma StaysVerified(s: State, op: Op, d: nat, t: nat)
    requires Good(s) && Verified(s, d, t) && !Disturbs(op, d, t)
    ensures Verified(Step(s, op).0, d, t)
  {
    hide Sound, CopyMem, Write, WriteVerify, LoadPage, TryToShare, FreeTables, View;
    if Enabled(s, op) {
      match op
      case Fork(p, c) => ForkKeepsEntry(s, p, c, d, t);
      case UserWrite(e, u, k, w) => WriteStaysVerified(s, e, u, k, w, d, t);
      case Verify(e, u) => VerifyEntries(s, e, u); VerifiedAgain(s, e, u);
      case KernelStore(e, u, k, w) =>
        assert Entry(s, e, u).present by { PresentView(s, e, u); }
        RawStored(s, e, u, k, w);
      case Return(nr) =>
      case Fault(e, u, page) => LoadEntries(s, e, u, page);
      case Share(df, dt, u) => ShareEntries(s, df, dt, u);
      case Exec(nr) => TornDown(s, nr, d, t);
      case Exit(nr) => TornDown(s, nr, d, t);
      case Take => if FreeFrame(s).Some? { PageTaken(s, FreeFrame(s).value); }
      case GiveBack(f) => PageReleased(s, f);
    }
  }

  lemma PresentView(s: State, d: nat, t: nat)
    requires View(s, d, t).Some?
    ensures Entry(s, d, t).present
  {
  }

  lemma ForkKeepsEntry(s: State, p: nat, c: nat, d: nat, t: nat)
    requires Good(s) && Enabled(s, Fork(p, c)) && User(d) && Slot(d) != p && Slot(d) != c
    ensures Entry(CopyMem(s, p, c).0, d, t) == Entry(s, d, t)
  {
    hide Sound, View, CopyMem;
    MemCopied(s, p, c);
    var r := CopyMem(s, p, c).0;
    EntryIgnoresBooks(r, r.(lim := s.lim));
  }

  /** write_verify of a verified page does nothing. */
  lemma VerifiedAgain(s: State, d: nat, t: nat)
    requires Shape(s)
    ensures Verified(s, d, t) ==> WriteVerify(s, d, t) == (s, true)
  {
  }

  lemma WriteStaysVerified(s: State, e: nat, u: nat, k: nat, w: Word, d: nat, t: nat)
    requires Good(s) && Enabled(s, UserWrite(e, u, k, w)) && Verified(s, d, t)
    ensures Verified(Write(s, e, u, k, w).0, d, t)
  {
    PresentView(s, e, u);
    VerifyStep(s, e, u);
    VerifyEntries(s, e, u);
    VerifiedAgain(s, e, u);
    var (s1, ok) := WriteVerify(s, e, u);
    assert View(s1, e, u).Some?;
    PresentView(s1, e, u);
    hide WriteVerify;
    if ok {
      WritableIsAlone(s1, e, u);
      RawStored(s1, e, u, k, w);
    }
  }

  lemma TornDown(s: State, nr: nat, d: nat, t: nat)
    requires Good(s) && 1 <= nr < NR_TASKS && Verified(s, d, t)
    ensures forall n: nat :: Verified(Resized(FreeTables(s, nr * SLOT_DIRS, s.lim[nr]), nr, n), d, t)
  {
    hide Sound, View, FreeTables;
    var r := FreeTables(s, nr * SLOT_DIRS, s.lim[nr]);
    TablesFreed(s, nr * SLOT_DIRS, s.lim[nr]);
    forall n: nat ensures Entry(Resized(r, nr, n), d, t) == Entry(r, d, t) { EntryIgnoresBooks(r, Resized(r, nr, n)); }
    assert nr * SLOT_DIRS <= d < nr * SLOT_DIRS + s.lim[nr] ==> !r.dir[d].present;
  }

  // ---------------------------------------------------------------- whole runs

  /** The pages that tasks inside a system call have verified. */
  function After(V: set<(nat, nat)>, op: Op, ok: bool): set<(nat, nat)> {
    match op
    case Verify(d, t) => if ok then V + {(d, t)} else V
    case Return(nr) => set a | a in V && Slot(a.0) != nr
    case Exit(nr) => set a | a in V && Slot(a.0) != nr
    case _ => V
  }

  /** In each system call kernel stores come after write_verify of their page, the task does not fork in
      between, and nobody shares a verified page before the call is over. */
  ghost predicate Sheltered(s: State, V: set<(nat, nat)>, ops: seq<Op>)
    requires Shape(s)
    decreases |ops|
  {
    ops == [] ||
    var (r, ok) := Step(s, ops[0]);
    && (forall a :: a in V ==> !Disturbs(ops[0], a.0, a.1))
    && (ops[0].KernelStore? ==> (ops[0].d, ops[0].t) in V)
    && Sheltered(r, After(V, ops[0], ok), ops[1..])
  }

  lemma {:induction false} ShelteredIsGuarded(s: State, V: set<(nat, nat)>, ops: seq<Op>)
    requires Good(s) && Sheltered(s, V, ops) && forall a :: a in V ==> Verified(s, a.0, a.1)
    ensures Guarded(s, ops)
    decreases |ops|
  {
    if ops != [] {
      var op, r, V' := ops[0], Step(s, ops[0]).0, After(V, ops[0], Step(s, ops[0]).1);
      StepRefines(s, (d: nat, t: nat) => View(s, d, t), op);
      forall a | a in V' ensures Verified(r, a.0, a.1) {
        if a in V { StaysVerified(s, op, a.0, a.1); } else { NewlyVerified(s, op); }
      }
      if op.KernelStore? { VerifiedIsGuard(s, op); }
      hide Good, Step, Guard, Verified;
      ShelteredIsGuarded(r, V', ops[1..]);
    }
  }

  lemma NewlyVerified(s: State, op: Op)
    requires Good(s) && op.Verify? && Step(s, op).1
    ensures Verified(Step(s, op).0, op.d, op.t)
  {
    VerifyStep(s, op.d, op.t);
  }

  lemma VerifiedIsGuard(s: State, op: Op)
    requires Good(s) && op.KernelStore? && Verified(s, op.d, op.t)
    ensures Guard(s, op)
  {
    if Enabled(s, op) {
      PresentView(s, op.d, op.t);
      WritableIsAlone(s, op.d, op.t);
    }
  }

  /** Copy-on-write refines eager copying over every run in which no page is shared between its write_verify and
      the stores that follow in the same system call, whatever else happens in between. */
  lemma ShelteredRefines(s: State, A: Space, ops: seq<Op>)
    requires Good(s) && Shows(s, A) && Sheltered(s, {}, ops)
    ensures Shows(Run(s, ops).0, EagerRun(A, ops, Run(s, ops).1))
  {
    ShelteredIsGuarded(s, {}, ops);
    RunRefines(s, A, ops);
  }
}

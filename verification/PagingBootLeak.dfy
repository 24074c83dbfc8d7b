/** A run from the state mem_init leaves to one in which a kernel store shows in another task. */
module PagingBootLeak {
  import opened Basics
  import opened Paging
  import opened PagingInvariant
  import opened PagingRefinement
  import opened PagingRuns
  import opened PagingMemory
  import opened PagingKernelStore

  // ---------------------------------------------------------------- the run

  const PAGE_NO: nat := 200   // a page of the child's address space beyond what the first fork copies

  /** Tasks 1 and 2 are forked, and task 1 gets a page. */
  function Setup(p: Page): seq<Op> {
    [Fork(0, 1), Fork(0, 2), Fault(SLOT_DIRS, PAGE_NO, p)]
  }

  lemma AfterFork(s: State, c: nat)
    requires Good(s) && 1 <= c < NR_TASKS && s.lim[c] == 0 && s.lim[0] == 1 && Zeros(s) != {}
    requires forall d: nat :: User(d) ==> View(s, d, PAGE_NO) == None
    ensures Enabled(s, Fork(0, c))
    ensures var r := Step(s, Fork(0, c)).0;
            && Step(s, Fork(0, c)).1 && Good(r) && |Zeros(r)| >= |Zeros(s)| - 1 && r.lim == s.lim[c := 1]
            && forall d: nat :: User(d) ==> View(r, d, PAGE_NO) == None
  {
    assert Enabled(s, Fork(0, c));
    ForkOne(s, c);
    ForkStep(s, 0, c);
    var r := CopyMem(s, 0, c).0;
    forall d: nat | User(d) ensures View(r, d, PAGE_NO) == None {
      NotCopied(s, Offset(d));
      assert 0 * SLOT_DIRS + Offset(d) == Offset(d);
    }
    hide Inv, CopyMem, View;
  }

  lemma ForkOne(s: State, c: nat)
    requires Good(s) && Enabled(s, Fork(0, c)) && s.lim[0] == 1 && Zeros(s) != {}
    ensures var (r, ok) := CopyMem(s, 0, c); ok && |Zeros(r)| >= |Zeros(s)| - 1 && r.lim == s.lim[c := 1]
  {
    ForkIff(s, 0, c);
    MemCopied(s, 0, c);
    EmptyIff(Zeros(s));
    NoneTabled(s, 0);
    TabledNext(s, 0, 0);
    hide Inv, CopyMem, Zeros, Tabled;
  }

  lemma NotCopied(s: State, d: nat)
    requires d < SLOT_DIRS
    ensures View(s, d, PAGE_NO) == None
  {
  }

  lemma NoViewNoEntry(s: State, d: nat, t: nat)
    requires Inv(s) && User(d) && t < PTRS && View(s, d, t) == None
    ensures !Entry(s, d, t).present
  {
  }

  lemma AfterSetup(s0: State, start: nat, p: Page)
    requires Booted(s0, start) && |Zeros(s0)| >= 5 && |p| == PTRS
    ensures var s := Run(s0, Setup(p)).0;
            && Good(s) && Run(s0, Setup(p)).1 == [true, true, true]
            && Enabled(s, Share(SLOT_DIRS, 2 * SLOT_DIRS, PAGE_NO))
            && TryToShare(s, SLOT_DIRS, 2 * SLOT_DIRS, PAGE_NO).1 == IsShared
            && Entry(s, SLOT_DIRS, PAGE_NO).writable && Entry(s, SLOT_DIRS, PAGE_NO).frame < |s.mem|
            && s.mem[Entry(s, SLOT_DIRS, PAGE_NO).frame] == p
  {
    BootedIsGood(s0, start);
    AfterFork(s0, 1);
    var s1 := Step(s0, Fork(0, 1)).0;
    AfterFork(s1, 2);
    var s2 := Step(s1, Fork(0, 2)).0;
    NoViewNoEntry(s2, SLOT_DIRS, PAGE_NO);
    NoViewNoEntry(s2, 2 * SLOT_DIRS, PAGE_NO);
    AfterFault(s2, p);
    RunSetup(s0, s1, s2, p);
    hide *;
  }

  lemma RunSetup(s0: State, s1: State, s2: State, p: Page)
    requires Shape(s0) && Step(s0, Fork(0, 1)) == (s1, true) && Step(s1, Fork(0, 2)) == (s2, true)
    requires Step(s2, Fault(SLOT_DIRS, PAGE_NO, p)).1
    ensures Run(s0, Setup(p)) == (Step(s2, Fault(SLOT_DIRS, PAGE_NO, p)).0, [true, true, true])
  {
    hide Step;
    var a, b, c := Fork(0, 1), Fork(0, 2), Fault(SLOT_DIRS, PAGE_NO, p);
    assert Setup(p) == [a] + ([b] + ([c] + [])) && [true, true, true] == [true] + ([true] + ([true] + []));
    RunCons(s0, a, [b] + ([c] + []));
    RunCons(s1, b, [c] + []);
    RunCons(s2, c, []);
  }

  lemma AfterFault(s: State, p: Page)
    requires Good(s) && |Zeros(s)| >= 3 && s.lim[1] == 1 == s.lim[2] && |p| == PTRS
    requires !Entry(s, SLOT_DIRS, PAGE_NO).present && !Entry(s, 2 * SLOT_DIRS, PAGE_NO).present
    ensures var (r, ok) := Step(s, Fault(SLOT_DIRS, PAGE_NO, p));
            && ok && Good(r)
            && Enabled(r, Share(SLOT_DIRS, 2 * SLOT_DIRS, PAGE_NO))
            && TryToShare(r, SLOT_DIRS, 2 * SLOT_DIRS, PAGE_NO).1 == IsShared
            && Entry(r, SLOT_DIRS, PAGE_NO).writable && Entry(r, SLOT_DIRS, PAGE_NO).frame < |r.mem|
            && r.mem[Entry(r, SLOT_DIRS, PAGE_NO).frame] == p
  {
    var d, t := SLOT_DIRS, PAGE_NO;
    assert Enabled(s, Fault(d, t, p));
    LoadIff(s, d, t, p);
    PageLoaded(s, d, t, p);
    LoadEntries(s, d, t, p);
    var r := LoadPage(s, d, t, p).0;
    LimitKept(s, r, d);
    hide LoadPage;
    SharableNow(r, p);
  }

  lemma SharableNow(r: State, p: Page)
    requires Good(r) && Zeros(r) != {} && r.lim[2] == 1 && View(r, SLOT_DIRS, PAGE_NO) == Some(p)
    requires Entry(r, SLOT_DIRS, PAGE_NO).writable && !Dirty(Entry(r, SLOT_DIRS, PAGE_NO))
    requires !Entry(r, 2 * SLOT_DIRS, PAGE_NO).present
    ensures Enabled(r, Share(SLOT_DIRS, 2 * SLOT_DIRS, PAGE_NO))
    ensures TryToShare(r, SLOT_DIRS, 2 * SLOT_DIRS, PAGE_NO).1 == IsShared
  {
    ShareIff(r, SLOT_DIRS, 2 * SLOT_DIRS, PAGE_NO);
    WordBits(Entry(r, SLOT_DIRS, PAGE_NO));
    WritableIsAlone(r, SLOT_DIRS, PAGE_NO);
  }

  /** From every boot with five free pages: once the tasks are set up, task 1 verifies its page, task 2 comes to
      share it, and the kernel's store for task 1 shows in task 2. */
  lemma BootedStoreLeaks(s0: State, start: nat, p: Page, k: nat, w: Word)
    requires Booted(s0, start) && |Zeros(s0)| >= 5 && |p| == PTRS && k < PTRS && p[k] != w
    ensures var s := Run(s0, Setup(p)).0;
            var ops := [Verify(SLOT_DIRS, PAGE_NO), Share(SLOT_DIRS, 2 * SLOT_DIRS, PAGE_NO),
                        KernelStore(SLOT_DIRS, PAGE_NO, k, w)];
            && Reachable(s)
            && !Shows(Run(s, ops).0, EagerRun((d: nat, u: nat) => View(s, d, u), ops, Run(s, ops).1))
  {
    AfterSetup(s0, start, p);
    var s := Run(s0, Setup(p)).0;
    assert Reachable(s);
    hide Good, Enabled, TryToShare, Step, Run, EagerRun, Booted;
    SharedRunFails(s, SLOT_DIRS, 2 * SLOT_DIRS, PAGE_NO, k, w);
  }
}

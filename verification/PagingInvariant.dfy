/** The invariant of the memory manager is kept by each primitive change of a page table, a count or
    a page. Every transition of `mm/memory.c` is a composition of these primitives, so this is where
    the counting argument is made, once. */
module PagingInvariant {
  import opened Basics
  import opened Paging

  // ---------------------------------------------------------------- counting

  predicate Maps(w: Word, f: nat) {
    w.present && w.frame == f
  }

  /** Two states whose table entries differ at most at (d, t). */
  ghost predicate SameEntriesBut(s: State, s': State, d: nat, t: nat) {
    forall d': nat, t': nat :: d' < NDIR && t' < PTRS && (d' != d || t' != t) ==> Entry(s', d', t') == Entry(s, d', t')
  }

  lemma MappersUpdate(s: State, s': State, d: nat, t: nat, f: nat)
    requires User(d) && t < PTRS && SameEntriesBut(s, s', d, t)
    ensures |Mappers(s', f)| + Bit(Maps(Entry(s, d, t), f)) == |Mappers(s, f)| + Bit(Maps(Entry(s', d, t), f))
  {
    forall a: (nat, nat) ensures a in Mappers(s', f) - {(d, t)} <==> a in Mappers(s, f) - {(d, t)} {}
    assert Mappers(s', f) - {(d, t)} == Mappers(s, f) - {(d, t)};
    assert (d, t) in Mappers(s, f) <==> Maps(Entry(s, d, t), f);
    assert (d, t) in Mappers(s', f) <==> Maps(Entry(s', d, t), f);
    CountWithout(Mappers(s, f), (d, t));
    CountWithout(Mappers(s', f), (d, t));
  }

  lemma MappersSame(s: State, s': State, f: nat)
    requires forall d: nat, t: nat :: User(d) && t < PTRS ==> Maps(Entry(s, d, t), f) == Maps(Entry(s', d, t), f)
    ensures Mappers(s', f) == Mappers(s, f)
  {
  }

  lemma TablesUpdate(s: State, s': State, d: nat, f: nat)
    requires User(d) && |s.dir| == |s'.dir| == NDIR
    requires forall d': nat :: d' < NDIR && d' != d ==> s.dir[d'] == s'.dir[d']
    ensures |Tables(s', f)| + Bit(Maps(s.dir[d], f)) == |Tables(s, f)| + Bit(Maps(s'.dir[d], f))
  {
    forall e: nat ensures e in Tables(s', f) - {d} <==> e in Tables(s, f) - {d} {}
    assert Tables(s', f) - {d} == Tables(s, f) - {d};
    CountWithout(Tables(s, f), d);
    CountWithout(Tables(s', f), d);
  }

  lemma SingletonBound<T>(S: set<T>, a: T)
    requires a in S
    ensures |S| >= 1
    ensures |S| == 1 ==> forall b :: b in S ==> b == a
  {
    var rest := S - {a};
    assert S == rest + {a};
    if |S| == 1 { assert rest == {}; }
  }

  /** A frame that serves as a page table is referred to by nothing else. */
  lemma TableIsAlone(s: State, d: nat)
    requires Inv(s) && User(d) && s.dir[d].present
    ensures Mappers(s, s.dir[d].frame) == {} && Tables(s, s.dir[d].frame) == {d} && Held(s, s.dir[d].frame) == 0
    ensures forall d': nat :: d' < NDIR && d' != d && s.dir[d'].present ==> s.dir[d'].frame != s.dir[d].frame
    ensures forall d': nat, t': nat :: User(d') && Entry(s, d', t').present ==> Entry(s, d', t').frame != s.dir[d].frame
  {
    var f := s.dir[d].frame;
    assert Count(s, f) == |Mappers(s, f)| + |Tables(s, f)| + Held(s, f);
    SingletonBound(Tables(s, f), d);
    assert Mappers(s, f) == {};
    forall d': nat, t': nat | User(d') && Entry(s, d', t').present
      ensures Entry(s, d', t').frame != f
    {
      assert Entry(s, d', t').frame == f ==> (d', t') in Mappers(s, f);
    }
    forall d': nat | d' < NDIR && d' != d && s.dir[d'].present
      ensures s.dir[d'].frame != f
    {
      assert SLOT_DIRS <= d' && s.dir[d'].frame == f ==> d' in Tables(s, f);
    }
  }

  /** A page of count 1 that a task maps is referred to by nothing else. */
  lemma SoleMapper(s: State, d: nat, t: nat)
    requires Inv(s) && User(d) && Entry(s, d, t).present && LOW <= Entry(s, d, t).frame
    requires Count(s, Entry(s, d, t).frame) == 1
    ensures Tables(s, Entry(s, d, t).frame) == {} && Held(s, Entry(s, d, t).frame) == 0
    ensures forall d': nat, t': nat ::
      User(d') && Entry(s, d', t').present && Entry(s, d', t').frame == Entry(s, d, t).frame ==> d' == d && t' == t
  {
    var f := Entry(s, d, t).frame;
    assert Count(s, f) == |Mappers(s, f)| + |Tables(s, f)| + Held(s, f);
    SingletonBound(Mappers(s, f), (d, t));
    forall d': nat, t': nat | User(d') && Entry(s, d', t').present && Entry(s, d', t').frame == f
      ensures d' == d && t' == t
    {
      assert (d', t') in Mappers(s, f);
    }
  }

  /** A mapped page is no page table and is not held by the kernel. */
  lemma MappedPage(s: State, d: nat, t: nat)
    requires Inv(s) && User(d) && Entry(s, d, t).present && LOW <= Entry(s, d, t).frame
    ensures Tables(s, Entry(s, d, t).frame) == {} && Held(s, Entry(s, d, t).frame) == 0
    ensures Count(s, Entry(s, d, t).frame) == |Mappers(s, Entry(s, d, t).frame)| >= 1
    ensures forall e: nat :: User(e) && s.dir[e].present ==> s.dir[e].frame != Entry(s, d, t).frame
  {
    var f := Entry(s, d, t).frame;
    forall e: nat | User(e) && s.dir[e].present ensures s.dir[e].frame != f {
      TableIsAlone(s, e);
    }
    assert Count(s, f) == |Mappers(s, f)| + |Tables(s, f)| + Held(s, f);
    SingletonBound(Mappers(s, f), (d, t));
    if e :| e in Tables(s, f) {
      TableIsAlone(s, e);
    }
  }

  /** If a page has a second mapping, no other mapping of it is writable. */
  lemma OthersReadOnly(s: State, d: nat, t: nat)
    requires Inv(s) && User(d) && Entry(s, d, t).present && LOW <= Entry(s, d, t).frame
    ensures forall d': nat, t': nat ::
      User(d') && Entry(s, d', t').present && Entry(s, d', t').frame == Entry(s, d, t).frame && (d' != d || t' != t)
      ==> !Entry(s, d', t').writable
  {
    forall d': nat, t': nat | User(d') && Entry(s, d', t').present && Entry(s, d', t').frame == Entry(s, d, t).frame
                              && (d' != d || t' != t)
      ensures !Entry(s, d', t').writable
    {
      if Entry(s, d', t').writable { SoleMapper(s, d', t'); }
    }
  }

  // ---------------------------------------------------------------- counts stay small

  lemma {:induction false} OneMapperPerSlot(A: set<(nat, nat)>, n: nat)
    requires 1 <= n && forall a :: a in A ==> 1 <= Slot(a.0) < n
    requires forall a, b :: a in A && b in A ==> Offset(a.0) == Offset(b.0) && a.1 == b.1
    ensures |A| <= n - 1
  {
    if n == 1 {
      assert A == {};
    } else if a :| a in A && Slot(a.0) == n - 1 {
      var rest := A - {a};
      assert A == rest + {a};
      forall b | b in rest ensures Slot(b.0) < n - 1 {
        assert b != a;
      }
      OneMapperPerSlot(rest, n - 1);
    } else {
      OneMapperPerSlot(A, n - 1);
    }
  }

  /** A page is never mapped more often than there are task slots, so its count stays below the mark
      of pages outside main memory, and the byte that holds it never wraps. */
  lemma CountBound(s: State, f: nat)
    requires Inv(s)
    ensures Mappers(s, f) != {} && LOW <= f ==> Count(s, f) <= NR_TASKS - 1
    ensures Count(s, f) <= USED
  {
    if LOW <= f < |s.mem| {
      assert Count(s, f) == |Mappers(s, f)| + |Tables(s, f)| + Held(s, f);
      if a :| a in Mappers(s, f) {
        MappedPage(s, a.0, a.1);
        OneMapperPerSlot(Mappers(s, f), NR_TASKS);
      } else if e :| e in Tables(s, f) {
        TableIsAlone(s, e);
      }
    } else if a :| a in Mappers(s, f) {
      assert Entry(s, a.0, a.1).frame < s.high;
    }
  }


  // ---------------------------------------------------------------- keeping the counts

  /** One entry and the books changed together. */
  lemma EntryBooked(s: State, s': State, d: nat, t: nat)
    requires Inv(s) && Shape(s') && User(d) && t < PTRS && SameEntriesBut(s, s', d, t)
    requires s'.dir == s.dir && |s'.mem| == |s.mem|
    requires forall f: nat :: LOW <= f < |s.mem| ==>
      Count(s', f) + Bit(Maps(Entry(s, d, t), f)) + Held(s, f) ==
          Count(s, f) + Bit(Maps(Entry(s', d, t), f)) + Held(s', f)
    ensures Counted(s')
  {
    forall f: nat | LOW <= f < |s.mem|
      ensures Count(s', f) == |Mappers(s', f)| + |Tables(s', f)| + Held(s', f)
    {
      MappersUpdate(s, s', d, t, f);
      assert Tables(s', f) == Tables(s, f);
    }
  }

  /** The kernel's holding of f stays, goes, or starts with a page counted once. */
  ghost predicate HeldStep(s: State, s': State, f: nat) {
    || (Held(s', f) == Held(s, f) && (Held(s, f) > 0 ==> Count(s', f) == Count(s, f)))
    || (Held(s', f) == 0 && f < s.high)
    || (Held(s', f) == 1 == Count(s', f) && f < s.high)
  }

  lemma HeldKept(s: State, s': State)
    requires Inv(s) && |s'.mem| == |s.mem| && s'.high == s.high
    requires forall f: nat :: LOW <= f < |s.mem| ==> HeldStep(s, s', f)
    ensures HeldOk(s')
  {
    forall f: nat | LOW <= f < |s.mem|
      ensures (Held(s', f) > 0 ==> Held(s', f) == Count(s', f) <= USED) && (s.high <= f ==> Held(s', f) > 1)
    {
      assert HeldStep(s, s', f);
      assert Held(s, f) > 0 ==> Held(s, f) == Count(s, f) <= USED;
    }
  }

  /** A directory entry that gains or loses an empty table, and respects the books, keeps the
      invariant. */
  lemma TableChanged(s: State, s': State, d: nat)
    requires Inv(s) && Shape(s') && User(d) && |s'.mem| == |s.mem| && s'.high == s.high
    requires forall f: nat :: LOW <= f < |s.mem| ==> HeldStep(s, s', f)
    requires forall d': nat :: d' < NDIR && d' != d ==> s.dir[d'] == s'.dir[d']
    requires forall d': nat, t': nat :: Entry(s', d', t').present == Entry(s, d', t').present
    requires forall d': nat, t': nat :: Entry(s, d', t').present ==> Entry(s', d', t') == Entry(s, d', t')
    requires forall f: nat :: LOW <= f < |s.mem| ==>
      Count(s', f) + Bit(Maps(s.dir[d], f)) + Held(s, f) == Count(s, f) + Bit(Maps(s'.dir[d], f)) + Held(s', f)
    requires forall e: nat :: User(e) && s'.dir[e].present ==>
               LOW <= s'.dir[e].frame < s.high && Count(s', s'.dir[e].frame) == 1
    requires forall d': nat, t': nat :: User(d') && Entry(s, d', t').present && Entry(s, d', t').writable
                                        ==> Count(s', Entry(s, d', t').frame) == 1
    ensures Inv(s')
  {
    HeldKept(s, s');
    forall f: nat | LOW <= f < |s.mem|
      ensures Count(s', f) == |Mappers(s', f)| + |Tables(s', f)| + Held(s', f)
    {
      MappersSame(s, s', f);
      TablesUpdate(s, s', d, f);
    }
  }

  /** A change of the books alone, or of the contents of pages. */
  lemma BooksChanged(s: State, s': State)
    requires Inv(s) && Shape(s') && |s'.mem| == |s.mem| && s'.dir == s.dir && s'.high == s.high
    requires forall f: nat :: LOW <= f < |s.mem| ==> HeldStep(s, s', f)
    requires forall d: nat, t: nat :: Entry(s', d, t) == Entry(s, d, t)
    requires forall f: nat :: LOW <= f < |s.mem| ==> Count(s', f) + Held(s, f) == Count(s, f) + Held(s', f)
    requires forall e: nat :: User(e) && s.dir[e].present ==> Count(s', s.dir[e].frame) == 1
    requires forall d': nat, t': nat :: User(d') && Entry(s, d', t').present && Entry(s, d', t').writable
                                        ==> Count(s', Entry(s, d', t').frame) == 1
    ensures Inv(s')
  {
    HeldKept(s, s');
    forall f: nat | LOW <= f < |s.mem|
      ensures Count(s', f) == |Mappers(s', f)| + |Tables(s', f)| + Held(s', f)
    {
      MappersSame(s, s', f);
      assert Tables(s', f) == Tables(s, f);
    }
  }

  /** A page that is free, or that only the kernel holds, is mapped by no task and is no table. */
  lemma Unused(s: State, f: nat)
    requires Inv(s) && LOW <= f < |s.mem| && Count(s, f) == Held(s, f)
    ensures forall d: nat, t: nat :: Tracked(d, t) && Entry(s, d, t).present ==> Entry(s, d, t).frame != f
    ensures forall d: nat :: d < NDIR && s.dir[d].present ==> s.dir[d].frame != f
  {
    assert Count(s, f) == |Mappers(s, f)| + |Tables(s, f)| + Held(s, f);
    assert Mappers(s, f) == {} && Tables(s, f) == {};
    forall d: nat | d < NDIR && s.dir[d].present ensures s.dir[d].frame != f {
      assert User(d) && s.dir[d].frame == f ==> d in Tables(s, f);
    }
    forall d: nat, t: nat | Tracked(d, t) && Entry(s, d, t).present ensures Entry(s, d, t).frame != f {
      assert User(d) && Entry(s, d, t).frame == f ==> (d, t) in Mappers(s, f);
    }
  }

  /** A new, changed or cleared entry at (d, t) that respects the books keeps the invariant. */
  lemma EntryChanged(s: State, s': State, d: nat, t: nat)
    requires Inv(s) && Shape(s') && User(d) && t < PTRS && SameEntriesBut(s, s', d, t)
    requires s'.dir == s.dir && |s'.mem| == |s.mem| && s'.high == s.high
    requires forall f: nat :: LOW <= f < |s.mem| ==> HeldStep(s, s', f)
    requires forall f: nat :: LOW <= f < |s.mem| ==>
      Count(s', f) + Bit(Maps(Entry(s, d, t), f)) + Held(s, f) ==
          Count(s, f) + Bit(Maps(Entry(s', d, t), f)) + Held(s', f)
    requires forall e: nat :: User(e) && s.dir[e].present ==> Count(s', s.dir[e].frame) == 1
    requires forall d': nat, t': nat ::
      User(d') && (d' != d || t' != t) && Entry(s, d', t').present && Entry(s, d', t').writable
      ==> Count(s', Entry(s, d', t').frame) == 1
    requires forall d': nat, t': nat :: User(d') && (d' != d || t' != t) && Entry(s, d', t').present
                                        && Entry(s', d, t).present && Entry(s, d', t').frame == Entry(s', d, t).frame
                                        && LOW <= Entry(s, d', t').frame
                                        ==> Offset(d') == Offset(d) && t' == t
    requires Entry(s', d, t).present ==>
      var w := Entry(s', d, t);
      w.frame < s.high && (w.writable ==> LOW <= w.frame && Count(s', w.frame) == 1)
    ensures Inv(s')
  {
    HeldKept(s, s');
    EntryBooked(s, s', d, t);
  }

  lemma EntryIgnoresBooks(s: State, s': State)
    requires Shape(s) && Shape(s') && s'.dir == s.dir && s'.mem == s.mem
    ensures forall d: nat, t: nat :: Entry(s', d, t) == Entry(s, d, t) && View(s', d, t) == View(s, d, t)
  {
  }

  // ---------------------------------------------------------------- the primitives

  lemma SetEntryEffect(s: State, d: nat, t: nat, w: Word)
    requires Inv(s) && User(d) && s.dir[d].present && t < PTRS
    ensures var s' := SetEntry(s, d, t, w);
            && Shape(s') && Entry(s', d, t) == w && SameEntriesBut(s, s', d, t)
            && SameViewsBut(s, s', d, t)
            && s' == s.(mem := s'.mem)
  {
    TableIsAlone(s, d);
    var s' := SetEntry(s, d, t, w);
    assert Shape(s');
    forall d': nat, t': nat | d' < NDIR && t' < PTRS && (d' != d || t' != t)
      ensures Entry(s', d', t') == Entry(s, d', t')
    {
    }
  }

  /** Taking the write bit away. */
  lemma Protect(s: State, d: nat, t: nat)
    requires Inv(s) && User(d) && Entry(s, d, t).present && t < PTRS
    ensures var s' := SetEntry(s, d, t, Protected(Entry(s, d, t)));
            Inv(s') && SameViews(s, s')
  {
    var s' := SetEntry(s, d, t, Protected(Entry(s, d, t)));
    SetEntryEffect(s, d, t, Protected(Entry(s, d, t)));
    TableIsAlone(s, d);
    EntryChanged(s, s', d, t);
  }

  /** Giving the write bit to the only user of a page. */
  lemma GrantWrite(s: State, d: nat, t: nat)
    requires Inv(s) && User(d) && Entry(s, d, t).present && t < PTRS
    requires LOW <= Entry(s, d, t).frame && Count(s, Entry(s, d, t).frame) == 1
    ensures var s' := SetEntry(s, d, t, Entry(s, d, t).(writable := true));
            Inv(s') && SameViews(s, s')
  {
    var w := Entry(s, d, t).(writable := true);
    var s' := SetEntry(s, d, t, w);
    SetEntryEffect(s, d, t, w);
    TableIsAlone(s, d);
    EntryChanged(s, s', d, t);
  }

  /** A second, read-only mapping of the page that read-only entry (d0, t) maps, counted if the page
      is counted. */
  function WithMapping(s: State, d: nat, t: nat, w: Word): State
    requires HasTable(s, d) && t < PTRS
  {
    var s1 := SetEntry(s, d, t, w);
    if LOW <= w.frame < LOW + |s.cnt| then SetCount(s1, w.frame, Inc(Count(s1, w.frame))) else s1
  }

  lemma AddMapping(s: State, d0: nat, d: nat, t: nat)
    requires Inv(s) && User(d) && s.dir[d].present && t < PTRS && !Entry(s, d, t).present
    requires d0 < NDIR && Offset(d0) == Offset(d) && Tracked(d0, t)
    requires Entry(s, d0, t).present && (User(d0) ==> !Entry(s, d0, t).writable)
    ensures var s' := WithMapping(s, d, t, Protected(Entry(s, d0, t)));
            Inv(s') && SameViewsBut(s, s', d, t) && View(s', d, t) == View(s, d0, t)
  {
    hide WithMapping, SetEntry, Held, HeldStep, View;
    var w := Protected(Entry(s, d0, t));
    var s1, s' := SetEntry(s, d, t, w), WithMapping(s, d, t, w);
    SetEntryEffect(s, d, t, w);
    MappingCounted(s, d0, d, t);
    EntryIgnoresBooks(s1, s');
    TableIsAlone(s, d);
    if LOW <= w.frame {
      MappedPage(s, d0, t);
      OthersReadOnly(s, d0, t);
      CountMoved(s, s', w.frame, Count(s, w.frame) + 1);
    } else {
      BooksKept(s, s');
    }
    EntryChanged(s, s', d, t);
    SecondView(s, d0, d, t);
  }

  /** What the new entry maps is no page table, so the store of the entry has not changed it. */
  lemma SecondView(s: State, d0: nat, d: nat, t: nat)
    requires Inv(s) && User(d) && s.dir[d].present && Tracked(d0, t) && Entry(s, d0, t).present
    ensures View(SetEntry(s, d, t, Protected(Entry(s, d0, t))), d, t) == View(s, d0, t)
  {
    SetEntryEffect(s, d, t, Protected(Entry(s, d0, t)));
    TableIsAlone(s, d);
  }

  /** One count of a page that the kernel does not hold. */
  lemma CountMoved(s: State, s': State, f: nat, c: nat)
    requires Shape(s) && LOW <= f < LOW + |s.cnt| && s'.cnt == s.cnt[f - LOW := c] && s'.held == s.held
               && Held(s, f) == 0
    ensures forall g: nat :: Count(s', g) == (if g == f then c else Count(s, g)) && Held(s', g) == Held(s, g)
    ensures forall g: nat :: HeldStep(s, s', g)
  {
  }

  lemma BooksKept(s: State, s': State)
    requires s'.cnt == s.cnt && s'.held == s.held
    ensures forall g: nat :: Count(s', g) == Count(s, g) && Held(s', g) == Held(s, g) && HeldStep(s, s', g)
  {
  }

  /** The count goes up by one, without wrapping. */
  lemma MappingCounted(s: State, d0: nat, d: nat, t: nat)
    requires Inv(s) && HasTable(s, d) && t < PTRS && Tracked(d0, t) && Entry(s, d0, t).present
    ensures var w := Protected(Entry(s, d0, t));
            var s1, s' := SetEntry(s, d, t, w), WithMapping(s, d, t, w);
            if LOW <= w.frame
            then w.frame < LOW + |s.cnt| && s' == SetCount(s1, w.frame, Count(s, w.frame) + 1)
            else s' == s1
  {
    if LOW <= Entry(s, d0, t).frame {
      MappedPage(s, d0, t);
      CountBound(s, Entry(s, d0, t).frame);
    }
  }

  /** The kernel puts a page it holds into an empty entry. */
  lemma MapHeld(s: State, d: nat, t: nat, f: nat)
    requires Inv(s) && User(d) && s.dir[d].present && t < PTRS && !Entry(s, d, t).present
    requires LOW <= f < s.high && Held(s, f) == 1
    ensures var s' := SetHeld(SetEntry(s, d, t, UserRw(f)), f, 0);
            Inv(s') && SameViewsBut(s, s', d, t) && View(s', d, t) == Some(s.mem[f])
  {
    var s1 := SetEntry(s, d, t, UserRw(f));
    SetEntryEffect(s, d, t, UserRw(f));
    var s' := SetHeld(s1, f, 0);
    EntryIgnoresBooks(s1, s');
    Unused(s, f);
    TableIsAlone(s, d);
    EntryChanged(s, s', d, t);
  }

  /** A held zero page becomes the table of an absent directory entry. */
  lemma TableAdded(s: State, d: nat, f: nat)
    requires Inv(s) && User(d) && !s.dir[d].present
    requires LOW <= f < s.high && Held(s, f) == 1 && s.mem[f] == ZeroPage()
    ensures var s' := AddTable(s, d, f);
            Inv(s') && SameViews(s, s') && forall t: nat :: !Entry(s', d, t).present
  {
    var s' := AddTable(s, d, f);
    Unused(s, f);
    assert Shape(s');
    forall d': nat, t': nat
      ensures Entry(s', d', t').present == Entry(s, d', t').present
      ensures Entry(s, d', t').present ==> Entry(s', d', t') == Entry(s, d', t')
    {
    }
    TableChanged(s, s', d);
  }

  /** Clearing an entry and giving its page back. free_page cannot panic here. */
  lemma EntryFreed(s: State, d: nat, t: nat)
    requires Inv(s) && User(d) && s.dir[d].present && t < PTRS
    ensures Entry(s, d, t).present ==> Freeable(s, Entry(s, d, t).frame)
    ensures var s' := FreeEntry(s, d, t);
            && Inv(s') && SameViewsBut(s, s', d, t) && View(s', d, t) == None
            && !Entry(s', d, t).present && SameEntriesBut(s, s', d, t) && s' == s.(mem := s'.mem, cnt := s'.cnt)
  {
    hide FreeEntry, SetEntry, Held, HeldStep, View;
    var w := Entry(s, d, t);
    var s1, s' := SetEntry(s, d, t, EMPTY), FreeEntry(s, d, t);
    SetEntryEffect(s, d, t, EMPTY);
    EntryGone(s, d, t);
    EntryIgnoresBooks(s1, s');
    TableIsAlone(s, d);
    if w.present && LOW <= w.frame {
      MappedPage(s, d, t);
      OthersReadOnly(s, d, t);
      CountMoved(s, s', w.frame, Count(s, w.frame) - 1);
    } else {
      BooksKept(s, s');
    }
    EntryChanged(s, s', d, t);
    NoEntryNoView(s', d, t);
  }

  lemma NoEntryNoView(s: State, d: nat, t: nat)
    requires !Entry(s, d, t).present
    ensures View(s, d, t) == None
  {
  }

  /** What free_page does to the count. */
  lemma EntryGone(s: State, d: nat, t: nat)
    requires Inv(s) && User(d) && s.dir[d].present && t < PTRS
    ensures var w, s1, s' := Entry(s, d, t), SetEntry(s, d, t, EMPTY), FreeEntry(s, d, t);
            if w.present && LOW <= w.frame
            then Freeable(s, w.frame) && LOW <= w.frame < LOW + |s.cnt| && Count(s, w.frame) >= 1
                 && s' == SetCount(s1, w.frame, Count(s, w.frame) - 1)
            else s' == s1
  {
    var w := Entry(s, d, t);
    if w.present && LOW <= w.frame {
      MappedPage(s, d, t);
      CountBound(s, w.frame);
    }
  }

  /** Giving an empty table back. free_page cannot panic here either. */
  lemma TableDropped(s: State, d: nat)
    requires Inv(s) && User(d) && s.dir[d].present
    requires forall t: nat :: t < PTRS ==> !Entry(s, d, t).present
    ensures Freeable(s, s.dir[d].frame)
    ensures var s' := SetDir(FreePage(s, s.dir[d].frame), d, EMPTY);
            && Inv(s') && SameViews(s, s')
            && forall d': nat, t': nat :: Entry(s', d', t') == if d' == d then EMPTY else Entry(s, d', t')
  {
    TableIsAlone(s, d);
    var f := s.dir[d].frame;
    var s' := SetDir(FreePage(s, f), d, EMPTY);
    assert Shape(s');
    forall d': nat, t': nat
      ensures Entry(s', d', t') == if d' == d then EMPTY else Entry(s, d', t')
    {
    }
    TableChanged(s, s', d);
  }

  /** Taking a free page. */
  lemma PageTaken(s: State, f: nat)
    requires Inv(s) && LOW <= f < |s.mem| && Count(s, f) == 0
    ensures f < s.high
    ensures var s' := Taken(s, f);
            && Inv(s') && SameViews(s, s') && s'.mem[f] == ZeroPage() && Held(s', f) == 1
            && (forall d: nat, t: nat :: Entry(s', d, t) == Entry(s, d, t))
            && (forall g: nat :: g < |s.mem| && g != f ==> s'.mem[g] == s.mem[g])
  {
    Unused(s, f);
    var s' := Taken(s, f);
    assert Shape(s');
    forall d: nat, t: nat ensures Entry(s', d, t) == Entry(s, d, t) {}
    BooksChanged(s, s');
  }

  /** Giving a held page back. */
  lemma PageReleased(s: State, f: nat)
    requires Inv(s)
    ensures var s' := Release(s, f);
            && Inv(s') && SameViews(s, s') && s' == s.(cnt := s'.cnt, held := s'.held)
            && (forall d: nat, t: nat :: Entry(s', d, t) == Entry(s, d, t))
  {
    var s' := Release(s, f);
    forall d: nat, t: nat ensures Entry(s', d, t) == Entry(s, d, t) {}
    if s' != s {
      Unused(s, f);
      BooksChanged(s, s');
      assert EntriesOk(s');
      }
  }

  /** The kernel fills a page it holds. */
  lemma HeldFilled(s: State, f: nat, p: Page)
    requires Inv(s) && LOW <= f < |s.mem| && Held(s, f) > 0 && |p| == PTRS
    ensures var s' := SetPage(s, f, p);
            && Inv(s') && SameViews(s, s')
            && (forall d: nat, t: nat :: Entry(s', d, t) == Entry(s, d, t))
  {
    Unused(s, f);
    var s' := SetPage(s, f, p);
    assert Shape(s');
    forall d: nat, t: nat ensures Entry(s', d, t) == Entry(s, d, t) {}
    BooksChanged(s, s');
  }

  /** A store to a counted page, whatever the write bit says, shows at every linear page that maps it and
      nowhere else. */
  lemma RawStored(s: State, d: nat, t: nat, k: nat, w: Word)
    requires Inv(s) && User(d) && Entry(s, d, t).present && LOW <= Entry(s, d, t).frame && t < PTRS && k < PTRS
    ensures Entry(s, d, t).frame < |s.mem|
    ensures var s', f := Store(s, d, t, k, w), Entry(s, d, t).frame;
            && Inv(s') && s' == s.(mem := s'.mem)
            && (forall d': nat, t': nat :: Entry(s', d', t') == Entry(s, d', t'))
            && (forall d': nat, t': nat ::
                  View(s', d', t') ==
                      if View(s, d', t').Some? && Entry(s, d', t').frame == f then Some(s.mem[f][k := w])
                                      else View(s, d', t'))
  {
    var f := Entry(s, d, t).frame;
    MappedPage(s, d, t);
    var s' := Store(s, d, t, k, w);
    assert Shape(s');
    forall d': nat | d' < NDIR && s.dir[d'].present ensures s.dir[d'].frame != f {}
    forall d': nat, t': nat ensures Entry(s', d', t') == Entry(s, d', t') {}
    BooksChanged(s, s');
  }

  /** A store through a writable entry reaches the linear page it names and no other. */
  lemma Stored(s: State, d: nat, t: nat, k: nat, w: Word)
    requires Inv(s) && User(d) && Entry(s, d, t).present && LOW <= Entry(s, d, t).frame && t < PTRS && k < PTRS
    requires Count(s, Entry(s, d, t).frame) == 1
    ensures var s' := Store(s, d, t, k, w);
            Inv(s') && SameViewsBut(s, s', d, t) && View(s', d, t) == Some(s.mem[Entry(s, d, t).frame][k := w])
  {
    SoleMapper(s, d, t);
    RawStored(s, d, t, k, w);
  }
}

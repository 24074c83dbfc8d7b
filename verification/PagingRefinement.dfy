/** Copy-on-write refines eager copying. Each transition of the memory manager is matched by one step
    of an eager machine whose state is just "what is read at each linear page" and whose fork
    duplicates every page at once; and over every run the two agree. */
module PagingRefinement {
  import opened Basics
  import opened Paging
  import opened PagingInvariant

  // ---------------------------------------------------------------- teardown

  lemma {:induction false} EntriesFreed(s: State, d: nat, n: nat)
    requires Inv(s) && User(d) && s.dir[d].present && n <= PTRS
    ensures var r := FreeEntries(s, d, n);
            && Inv(r) && r == s.(mem := r.mem, cnt := r.cnt)
            && (forall t: nat :: t < n ==> !Entry(r, d, t).present)
            && (forall e: nat, t: nat :: e < NDIR && (e != d || n <= t) ==> Entry(r, e, t) == Entry(s, e, t))
            && (forall e: nat, t: nat :: View(r, e, t) == if e == d && t < n then None else View(s, e, t))
  {
    hide Sound, View, FreeEntry;
    if n != 0 {
      EntriesFreed(s, d, n - 1);
      EntryFreed(FreeEntries(s, d, n - 1), d, n - 1);
    }
  }

  lemma TableFreed(s: State, d: nat)
    requires Inv(s) && User(d)
    ensures var r := FreeTable(s, d);
            && Inv(r) && r == s.(mem := r.mem, cnt := r.cnt, dir := r.dir) && |r.mem| == |s.mem| && !r.dir[d].present
            && (forall e: nat :: e < NDIR && e != d ==> r.dir[e] == s.dir[e])
            && (forall e: nat, t: nat :: e < NDIR && e != d ==> Entry(r, e, t) == Entry(s, e, t))
            && (forall e: nat, t: nat :: View(r, e, t) == if e == d then None else View(s, e, t))
  {
    hide Sound;
    if s.dir[d].present {
      EntriesFreed(s, d, PTRS);
      TableDropped(FreeEntries(s, d, PTRS), d);
    }
  }

  lemma {:induction false} TablesFreed(s: State, d: nat, n: nat)
    requires Inv(s) && SLOT_DIRS <= d && d + n <= NDIR
    ensures var r := FreeTables(s, d, n);
            && Inv(r) && r == s.(mem := r.mem, cnt := r.cnt, dir := r.dir) && |r.mem| == |s.mem|
            && (forall e: nat :: d <= e < d + n ==> !r.dir[e].present)
            && (forall e: nat :: e < NDIR && !(d <= e < d + n) ==> r.dir[e] == s.dir[e])
            && (forall e: nat, t: nat :: e < NDIR && !(d <= e < d + n) ==> Entry(r, e, t) == Entry(s, e, t))
            && (forall e: nat, t: nat :: View(r, e, t) == if d <= e < d + n then None else View(s, e, t))
  {
    hide Sound, Entry, View, FreeTable;
    if n != 0 {
      TablesFreed(s, d, n - 1);
      TableFreed(FreeTables(s, d, n - 1), d + n - 1);
    }
  }

  // ---------------------------------------------------------------- fork

  /** Outside the child's directory entries dt .. dt+k only write bits have gone, those of the parent's df .. df+k. */
  ghost predicate ForkFrame(s: State, r: State, df: nat, dt: nat, k: nat)
    requires Shape(s) && Shape(r)
  {
    && r.high == s.high && r.lim == s.lim && r.held == s.held && |r.mem| == |s.mem|
    && (forall d: nat :: d < NDIR && !(dt <= d < dt + k) ==> r.dir[d] == s.dir[d])
    && (forall d: nat, t: nat :: d < NDIR && !(dt <= d < dt + k) ==>
          Entry(r, d, t) == Entry(s, d, t) || (df <= d < df + k && Entry(r, d, t) == Protected(Entry(s, d, t))))
  }

  lemma EntryCopied(s: State, df: nat, dt: nat, t: nat)
    requires Inv(s) && HasTable(s, df) && User(dt) && s.dir[dt].present && df != dt && Offset(df) == Offset(dt)
    requires Tracked(df, t) && !Entry(s, dt, t).present
    ensures var r := CopyEntry(s, df, dt, t);
            && Inv(r) && r.dir == s.dir && ForkFrame(s, r, df, dt, 1)
            && (forall t': nat :: t' != t ==> Entry(r, dt, t') == Entry(s, dt, t'))
            && SameViewsBut(s, r, dt, t) && View(r, dt, t) == View(s, df, t)
  {
    var w := Entry(s, df, t);
    if w.present && User(df) {
      var s1 := SetEntry(s, df, t, Protected(w));
      SetEntryEffect(s, df, t, Protected(w));
      Protect(s, df, t);
      AddMapping(s1, df, dt, t);
      SetEntryEffect(s1, dt, t, Protected(w));
      EntryIgnoresBooks(SetEntry(s1, dt, t, Protected(w)), WithMapping(s1, dt, t, Protected(w)));
      CopyReordered(s, df, dt, t);
    } else if w.present {
      AddMapping(s, df, dt, t);
      SetEntryEffect(s, dt, t, Protected(w));
    }
  }

  /** The code writes the child's entry before it protects the parent's; the result is the same as
      protecting first. */
  lemma CopyReordered(s: State, df: nat, dt: nat, t: nat)
    requires Inv(s) && User(df) && s.dir[df].present && User(dt) && s.dir[dt].present && df != dt
    requires t < PTRS && Entry(s, df, t).present
    ensures var w := Protected(Entry(s, df, t));
            CopyEntry(s, df, dt, t) == WithMapping(SetEntry(s, df, t, w), dt, t, w)
  {
    TableIsAlone(s, df);
    TableIsAlone(s, dt);
    var w := Entry(s, df, t);
    var f, g := s.dir[df].frame, s.dir[dt].frame;
    var m1 := s.mem[f := s.mem[f][t := Protected(w)]];
    assert m1[g := m1[g][t := Protected(w)]] ==
           s.mem[g := s.mem[g][t := Protected(w)]][f := s.mem[f][t := Protected(w)]];
    if w.frame < LOW {
      assert s.mem[f][t := w] == s.mem[f];
      assert m1 == s.mem;
    }
  }

  lemma {:induction false} EntriesCopied(s: State, df: nat, dt: nat, n: nat)
    requires Inv(s) && HasTable(s, df) && User(dt) && s.dir[dt].present && df != dt && Offset(df) == Offset(dt)
    requires n <= PTRS && (User(df) || (df == 0 && n <= KERNEL_ENTRIES))
    requires forall t: nat :: !Entry(s, dt, t).present
    ensures var r := CopyEntries(s, df, dt, n);
            && Inv(r) && r.dir == s.dir && ForkFrame(s, r, df, dt, 1)
            && (forall t: nat :: n <= t ==> Entry(r, dt, t) == Entry(s, dt, t))
            && (forall d: nat, t: nat :: View(r, d, t) == if d == dt && t < n then View(s, df, t) else View(s, d, t))
  {
    hide Sound, Entry, View, CopyEntry;
    if n != 0 {
      EntriesCopied(s, df, dt, n - 1);
      EntryCopied(CopyEntries(s, df, dt, n - 1), df, dt, n - 1);
    }
  }

  /** A new, empty table; nothing else changes except the page that becomes it. */
  lemma TableMade(s: State, d: nat)
    requires Inv(s) && User(d) && !s.dir[d].present
    ensures var (r, ok) := NewTable(s, d);
            && Inv(r) && (!ok ==> r == s) && SameViews(s, r) && |r.mem| == |s.mem|
            && r.high == s.high && r.lim == s.lim && r.held == s.held
            && (forall e: nat, t: nat :: e < NDIR && e != d ==> Entry(r, e, t) == Entry(s, e, t))
            && (forall t: nat :: !Entry(r, d, t).present)
            && (forall f: nat :: f < |s.mem| && Count(s, f) != 0 && LOW <= f ==> r.mem[f] == s.mem[f])
  {
    if FreeFrame(s).Some? {
      var f := FreeFrame(s).value;
      PageTaken(s, f);
      TableAdded(Taken(s, f), d, f);
      assert Count(s, f) == |Mappers(s, f)| + |Tables(s, f)| + Held(s, f);
      assert AddTable(Taken(s, f), d, f).held == s.held;
    }
  }

  lemma TableCopied(s: State, df: nat, dt: nat, n: nat)
    requires Inv(s) && df < NDIR && User(dt) && !s.dir[dt].present && df != dt && Offset(df) == Offset(dt)
    requires (User(df) && n == PTRS) || (df == 0 && n == KERNEL_ENTRIES)
    ensures var (r, ok) := CopyTable(s, df, dt, n);
            && Inv(r) && ForkFrame(s, r, df, dt, 1)
            && (forall d: nat, t: nat :: d != dt ==> View(r, d, t) == View(s, d, t))
            && (ok ==> forall t: nat :: View(r, dt, t) == View(s, df, t))
  {
    hide Sound;
    TableMade(s, dt);
    if s.dir[df].present && NewTable(s, dt).1 {
      EntriesCopied(NewTable(s, dt).0, df, dt, n);
    }
  }

  lemma OffsetStep(d: nat, i: nat)
    requires Offset(d) == 0 && i < SLOT_DIRS
    ensures Offset(d + i) == i
  {
  }

  /** copy_page_tables: the child's range becomes a copy of the parent's, or memory has run out part
      way; either way nothing outside the child's range has changed but write bits. */
  lemma {:induction false} TablesCopied(s: State, df: nat, dt: nat, n: nat, k: nat)
    requires Inv(s) && df + k <= NDIR && SLOT_DIRS <= dt && dt + k <= NDIR && df != dt && (df + k <= dt || dt + k <= df)
    requires k <= SLOT_DIRS && Offset(df) == 0 && Offset(dt) == 0
    requires (SLOT_DIRS <= df && n == PTRS) || (df == 0 && k <= 1 && n == KERNEL_ENTRIES)
    requires forall d: nat :: dt <= d < dt + k ==> !s.dir[d].present
    ensures var (r, ok) := CopyTables(s, df, dt, n, k);
            && Inv(r) && ForkFrame(s, r, df, dt, k)
            && (forall d: nat, t: nat :: !(dt <= d < dt + k) ==> View(r, d, t) == View(s, d, t))
            && (ok ==> forall d: nat, t: nat :: dt <= d < dt + k ==> View(r, d, t) == View(s, d - dt + df, t))
  {
    hide Sound, Entry, View, CopyTable;
    if k != 0 {
      TablesCopied(s, df, dt, n, k - 1);
      var (s1, ok) := CopyTables(s, df, dt, n, k - 1);
      if ok {
        OffsetStep(df, k - 1);
        OffsetStep(dt, k - 1);
        TableCopied(s1, df + k - 1, dt + k - 1, n);
      }
    }
  }

  /** Only write bits gone, and no table in the child's range before or after: the counts are the
      same, because the mappings are. */
  lemma RolledBack(s: State, r: State, df: nat, dt: nat, k: nat)
    requires Inv(s) && Inv(r) && ForkFrame(s, r, df, dt, k) && k <= SLOT_DIRS
    requires forall d: nat :: dt <= d < dt + SLOT_DIRS && d < NDIR ==> !s.dir[d].present && !r.dir[d].present
    ensures r.cnt == s.cnt
  {
    forall d: nat, t: nat, f: nat | User(d) ensures Maps(Entry(r, d, t), f) == Maps(Entry(s, d, t), f) {}
    forall i | 0 <= i < |s.cnt| ensures r.cnt[i] == s.cnt[i] {
      var f := LOW + i;
      MappersSame(s, r, f);
      assert Tables(r, f) == Tables(s, f);
      assert Count(s, f) == |Mappers(s, f)| + |Tables(s, f)| + Held(s, f);
      assert Count(r, f) == |Mappers(r, f)| + |Tables(r, f)| + Held(r, f);
    }
  }

  /** copy_mem. On success the child reads what the parent reads, page for page. When memory runs out
      the rollback restores mem_map exactly, and the parent has lost nothing but write bits. */
  lemma MemCopied(s: State, p: nat, c: nat)
    requires Inv(s) && Limited(s) && p < NR_TASKS && 1 <= c < NR_TASKS && p != c && s.lim[c] == 0
    ensures var (r, ok) := CopyMem(s, p, c);
            && Inv(r) && ForkFrame(s, r.(lim := s.lim), p * SLOT_DIRS, c * SLOT_DIRS, s.lim[p])
            && (forall d: nat, t: nat :: Slot(d) != c ==> View(r, d, t) == View(s, d, t))
            && (ok ==> r.lim == s.lim[c := s.lim[p]]
                       && forall d: nat, t: nat :: Slot(d) == c ==>
                             View(r, d, t) == View(s, p * SLOT_DIRS + Offset(d), t))
            && (!ok ==> r.cnt == s.cnt && r.lim == s.lim && SameViews(s, r)
                        && forall d: nat :: c * SLOT_DIRS <= d < c * SLOT_DIRS + SLOT_DIRS ==> !r.dir[d].present)
  {
    hide Sound, Entry, View, CopyTables, FreeTables, ForkFrame;
    var n := if p == 0 then KERNEL_ENTRIES else PTRS;
    var df, dt, k := p * SLOT_DIRS, c * SLOT_DIRS, s.lim[p];
    NoPagesBeyondLimit(s, c);
    TablesCopied(s, df, dt, n, k);
    var (s1, ok) := CopyTables(s, df, dt, n, k);
    FrameLimits(s, s1, df, dt, k);
    if ok {
      SameButLimits(s1, s1.(lim := s1.lim[c := s.lim[p]]));
      forall d: nat, t: nat | Slot(d) == c ensures View(s1, d, t) == View(s, df + Offset(d), t) {
        ChildView(s, s1, p, c, d, t);
      }
    } else {
      CopyUndone(s, s1, df, dt, k);
    }
  }

  lemma FrameLimits(s: State, r: State, df: nat, dt: nat, k: nat)
    requires Shape(s) && Shape(r) && ForkFrame(s, r, df, dt, k)
    ensures r.lim == s.lim && r.(lim := s.lim) == r
    ensures forall l: seq<nat> :: |l| == NR_TASKS ==> r.(lim := l).(lim := s.lim) == r
  {
  }

  /** The rollback of copy_mem. */
  lemma CopyUndone(s: State, s1: State, df: nat, dt: nat, k: nat)
    requires Inv(s) && Inv(s1) && SLOT_DIRS <= dt && dt + SLOT_DIRS <= NDIR && k <= SLOT_DIRS
    requires ForkFrame(s, s1, df, dt, k) && forall d: nat :: dt <= d < dt + SLOT_DIRS ==> !s.dir[d].present
    requires forall d: nat, t: nat :: !(dt <= d < dt + k) ==> View(s1, d, t) == View(s, d, t)
    ensures var r := FreeTables(s1, dt, k);
            && Inv(r) && ForkFrame(s, r, df, dt, k) && SameViews(s, r) && r.cnt == s.cnt && r.lim == s.lim
            && forall d: nat :: dt <= d < dt + SLOT_DIRS ==> !r.dir[d].present
  {
    hide Sound, Entry, FreeTables;
    TablesFreed(s1, dt, k);
    var r := FreeTables(s1, dt, k);
    forall d: nat, t: nat ensures View(r, d, t) == View(s, d, t) {
      if dt <= d < dt + k { NoTableNoView(s, d, t); }
    }
    RolledBack(s, r, df, dt, k);
  }

  lemma NoTableNoView(s: State, d: nat, t: nat)
    requires Shape(s) && d < NDIR && !s.dir[d].present
    ensures View(s, d, t) == None
  {
  }

  /** Within the parent's limit the child reads the copy, beyond it nothing is mapped on either side. */
  lemma ChildView(s: State, r: State, p: nat, c: nat, d: nat, t: nat)
    requires Inv(s) && Limited(s) && p < NR_TASKS && 1 <= c < NR_TASKS && p != c && s.lim[c] == 0 && Slot(d) == c
    requires forall e: nat, u: nat :: c * SLOT_DIRS <= e < c * SLOT_DIRS + s.lim[p] ==>
               View(r, e, u) == View(s, e - c * SLOT_DIRS + p * SLOT_DIRS, u)
    requires forall e: nat, u: nat :: !(c * SLOT_DIRS <= e < c * SLOT_DIRS + s.lim[p]) ==>
               View(r, e, u) == View(s, e, u)
    ensures View(r, d, t) == View(s, p * SLOT_DIRS + Offset(d), t)
  {
    hide Sound, Entry, View;
    NoPagesBeyondLimit(s, c);
    NoPagesBeyondLimit(s, p);
    var e := p * SLOT_DIRS + Offset(d);
    assert d == c * SLOT_DIRS + Offset(d) && Slot(e) == p && Offset(e) == Offset(d);
  }

  lemma SameButLimits(s: State, r: State)
    requires Inv(s) && |r.lim| == |s.lim| && r == s.(lim := r.lim)
    ensures Inv(r) && SameViews(s, r) && forall d: nat, t: nat :: Entry(r, d, t) == Entry(s, d, t)
  {
    assert Shape(r);
    forall d: nat, t: nat ensures Entry(r, d, t) == Entry(s, d, t) {}
    BooksChanged(s, r);
  }

  /** Nothing is mapped beyond a task's data limit. */
  lemma NoPagesBeyondLimit(s: State, nr: nat)
    requires Inv(s) && Limited(s) && nr < NR_TASKS
    ensures forall d: nat :: Slot(d) == nr && s.lim[nr] <= Offset(d) && User(d) ==> !s.dir[d].present
    ensures forall d: nat, t: nat :: Slot(d) == nr && s.lim[nr] <= Offset(d) ==> View(s, d, t) == None
  {
  }

  // ---------------------------------------------------------------- faults and stores

  /** un_wp_page changes no address space. When it returns, the faulting entry is writable; when it
      runs out of memory nothing has changed. */
  lemma Unprotected(s: State, d: nat, t: nat)
    requires Inv(s) && User(d) && Entry(s, d, t).present && t < PTRS
    ensures var (r, ok) := UnWp(s, d, t);
            && Inv(r) && SameViews(s, r) && r.dir == s.dir && r.lim == s.lim && r.held == s.held && (!ok ==> r == s)
            && (ok ==> Entry(r, d, t).present && Entry(r, d, t).writable)
            && (ok <==> FreeFrame(s).Some? || (LOW <= Entry(s, d, t).frame && Count(s, Entry(s, d, t).frame) == 1))
  {
    hide Sound;
    var w := Entry(s, d, t);
    EntryInMemory(s, d, t);
    if LOW <= w.frame && Count(s, w.frame) == 1 {
      GrantWrite(s, d, t);
      SetEntryEffect(s, d, t, w.(writable := true));
    } else if FreeFrame(s).Some? {
      PageCopied(s, d, t, FreeFrame(s).value);
      CopyLast(s, d, t, FreeFrame(s).value);
    }
  }

  lemma EntryInMemory(s: State, d: nat, t: nat)
    requires Inv(s) && User(d) && Entry(s, d, t).present
    ensures Entry(s, d, t).frame < |s.mem|
  {
  }

  /** A copy of the page is made in free page g and replaces it in the entry. */
  lemma PageCopied(s: State, d: nat, t: nat, g: nat)
    requires Inv(s) && User(d) && Entry(s, d, t).present && t < PTRS && FreeFrame(s) == Some(g)
    requires Entry(s, d, t).frame < |s.mem|
    ensures var s2 := SetPage(Taken(s, g), g, s.mem[Entry(s, d, t).frame]);
            && HasTable(s2, d)
            && var r := SetHeld(SetEntry(FreeEntry(s2, d, t), d, t, UserRw(g)), g, 0);
            && Inv(r) && SameViews(s, r) && r.dir == s.dir && r.lim == s.lim && r.held == s.held
            && Entry(r, d, t).present && Entry(r, d, t).writable
  {
    hide Sound;
    var w := Entry(s, d, t);
    PageTaken(s, g);
    Unused'(s, g);
    var s1 := Taken(s, g);
    var s2 := SetPage(s1, g, s.mem[w.frame]);
    HeldFilled(s1, g, s.mem[w.frame]);
    EntryFreed(s2, d, t);
    var s3 := FreeEntry(s2, d, t);
    FreeEntryFrame(s2, d, t, g);
    MapHeld(s3, d, t, g);
    SetEntryEffect(s3, d, t, UserRw(g));
    var s4 := SetHeld(SetEntry(s3, d, t, UserRw(g)), g, 0);
    EntryIgnoresBooks(SetEntry(s3, d, t, UserRw(g)), s4);
    hide FreeEntry, SetEntry, Taken;
    assert View(s4, d, t) == View(s, d, t);
  }

  lemma FreeEntryFrame(s: State, d: nat, t: nat, g: nat)
    requires Inv(s) && User(d) && s.dir[d].present && t < PTRS && LOW <= g < s.high && Held(s, g) == 1
    ensures var r := FreeEntry(s, d, t);
            && r.dir == s.dir && r.lim == s.lim && r.held == s.held && r.mem[g] == s.mem[g]
            && r.high == s.high && |r.mem| == |s.mem|
  {
    TableIsAlone(s, d);
  }

  /** The code redirects the entry before it copies the page; copying first gives the same state. */
  lemma CopyLast(s: State, d: nat, t: nat, g: nat)
    requires Inv(s) && User(d) && Entry(s, d, t).present && t < PTRS && FreeFrame(s) == Some(g)
    requires !(LOW <= Entry(s, d, t).frame && Count(s, Entry(s, d, t).frame) == 1)
    ensures var s2 := SetPage(Taken(s, g), g, s.mem[Entry(s, d, t).frame]);
            && HasTable(s2, d)
            && UnWp(s, d, t) == (SetHeld(SetEntry(FreeEntry(s2, d, t), d, t, UserRw(g)), g, 0), true)
  {
    var w := Entry(s, d, t);
    var T := s.dir[d].frame;
    TableIsAlone(s, d);
    Unused'(s, g);
    var s2 := SetPage(Taken(s, g), g, s.mem[w.frame]);
    assert Entry(s2, d, t) == w;
    if LOW <= w.frame {
      MappedPage(s, d, t);
      assert Count(s2, w.frame) == Count(s, w.frame);
    }
    var p := s.mem[T][t := UserRw(g)];
    assert s2.mem[T][t := EMPTY][t := UserRw(g)] == p;
    assert s.mem[g := ZeroPage()][T := p][g := s.mem[w.frame]] == s.mem[g := s.mem[w.frame]][T := p];
    assert s2.mem[T := s2.mem[T][t := EMPTY]][T := p] == s2.mem[T := p];
    assert s2.mem == s.mem[g := s.mem[w.frame]];
  }

  lemma Unused'(s: State, f: nat)
    requires Inv(s) && LOW <= f < |s.mem| && Count(s, f) == 0
    ensures forall d: nat, t: nat :: Tracked(d, t) && Entry(s, d, t).present ==> Entry(s, d, t).frame != f
    ensures forall d: nat :: d < NDIR && s.dir[d].present ==> s.dir[d].frame != f
    ensures f < s.high && Held(s, f) == 0
  {
    assert Count(s, f) == |Mappers(s, f)| + |Tables(s, f)| + Held(s, f);
    Unused(s, f);
  }

  /** put_page makes the held page readable at (d, t), or fails for want of a table. */
  lemma PagePut(s: State, f: nat, d: nat, t: nat)
    requires Inv(s) && User(d) && t < PTRS && !Entry(s, d, t).present
    requires LOW <= f < s.high && Held(s, f) == 1
    ensures var (r, ok) := PutPage(s, f, d, t);
            && Inv(r) && r.lim == s.lim && r.high == s.high && (!ok ==> r == s) && SameViewsBut(s, r, d, t)
            && (forall e: nat :: e < NDIR && e != d ==> r.dir[e] == s.dir[e])
            && (ok ==> View(r, d, t) == Some(s.mem[f]))
  {
    hide Sound;
    if !s.dir[d].present { TableMade(s, d); }
    var (s1, ok) := EnsureTable(s, d);
    if ok {
      MapHeld(s1, d, t, f);
    }
  }

  /** A page fault that is served with a fresh page of contents p (all zero for get_empty_page, part
      of the executable for do_no_page). */
  function LoadPage(s: State, d: nat, t: nat, p: Page): (r: (State, bool))
    requires Shape(s) && d < NDIR && t < PTRS && |p| == PTRS
    ensures Shape(r.0)
  {
    match FreeFrame(s)
    case None => (s, false)
    case Some(f) =>
      var (s1, ok) := PutPage(SetPage(Taken(s, f), f, p), f, d, t);
      if ok then (s1, true) else (Release(s1, f), false)
  }

  lemma PageLoaded(s: State, d: nat, t: nat, p: Page)
    requires Inv(s) && User(d) && t < PTRS && !Entry(s, d, t).present && |p| == PTRS
    ensures var (r, ok) := LoadPage(s, d, t, p);
            && Inv(r) && r.lim == s.lim && SameViewsBut(s, r, d, t)
            && (forall e: nat :: e < NDIR && e != d ==> r.dir[e] == s.dir[e])
            && (ok ==> View(r, d, t) == Some(p))
            && (!ok ==> r.dir == s.dir && r.cnt == s.cnt && SameViews(s, r))
    ensures p == ZeroPage() ==> LoadPage(s, d, t, p) == EmptyPage(s, d, t)
  {
    hide Sound;
    if FreeFrame(s).Some? {
      var f := FreeFrame(s).value;
      Unused'(s, f);
      PageTaken(s, f);
      var s1 := Taken(s, f);
      var s2 := SetPage(s1, f, p);
      HeldFilled(s1, f, p);
      assert !Entry(s2, d, t).present;
      PagePut(s2, f, d, t);
      if PutPage(s2, f, d, t).1 {
      } else {
        PageReleased(s2, f);
        assert Release(s2, f).cnt == s.cnt[f - LOW := 1][f - LOW := 0] == s.cnt;
      }
      if p == ZeroPage() {
        assert s1.mem[f := p] == s1.mem;
      }
    }
  }

  /** try_to_share never panics on an entry that is not there yet, and gives the current task a
      read-only view of the other task's page. */
  lemma PageShared(s: State, df: nat, dt: nat, t: nat)
    requires Inv(s) && User(df) && User(dt) && df != dt && Offset(df) == Offset(dt) && t < PTRS
    requires !Entry(s, dt, t).present
    ensures var (r, how) := TryToShare(s, df, dt, t);
            && Inv(r) && r.lim == s.lim && SameViewsBut(s, r, dt, t) && (how != IsShared ==> r == s)
            && (forall e: nat :: e < NDIR && e != dt ==> r.dir[e] == s.dir[e])
            && (how == IsShared ==> View(r, dt, t) == View(s, df, t) && View(s, df, t).Some?)
  {
    hide Sound;
    var w := Entry(s, df, t);
    if s.dir[df].present && w.present && !Dirty(w) && LOW <= w.frame < s.high {
      if !s.dir[dt].present { TableMade(s, dt); }
      var (s1, ok) := EnsureTable(s, dt);
      if ok {
        assert Entry(s1, df, t) == w;
        Protect(s1, df, t);
        SetEntryEffect(s1, df, t, Protected(w));
        var s2 := SetEntry(s1, df, t, Protected(w));
        AddMapping(s2, df, dt, t);
      }
    }
  }
}

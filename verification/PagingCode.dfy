/** The routines of `mm/memory.c`, and copy_mem of `kernel/fork.c`, as they change mem_map, the page
    directory and physical memory in place. Each is proved to make exactly the transition of module
    Paging that carries its name; a panic is a precondition, and `PagingRefinement` shows that the
    invariant rules it out. */
module PagingCode {
  import opened Basics
  import opened Paging
  import opened PagingInvariant
  import opened PagingRefinement
  import PagingRuns

  /** The first four frames are the tables of the identity map. */
  function BootPage(i: nat): (p: Page)
    ensures |p| == PTRS && (i == 1 ==> forall t :: 0 <= t < PTRS ==> p[t] == UserRw(t))
  {
    if 1 <= i <= 4 then seq(PTRS, t requires 0 <= t => UserRw((i - 1) * PTRS + t)) else ZeroPage()
  }

  class MemoryManager {
    const dir: array<Word>            // _pg_dir
    const mem: array<Page>            // physical memory, one element a frame
    const memMap: array<nat>          // mem_map, from LOW_MEM up
    const lim: array<nat>             // data limits of the tasks, in directory entries
    const high: nat                   // HIGH_MEMORY
    ghost var held: seq<nat>

    ghost predicate Valid()
      reads this, dir, mem, memMap, lim
    {
      && Shape(S())
      && dir as object != mem && dir as object != memMap && dir as object != lim
      && mem as object != memMap && mem as object != lim && memMap != lim
    }

    /** The machine state that module Paging talks about. */
    ghost function S(): State
      reads this, dir, mem, memMap, lim
    {
      State(high, dir[..], mem[..], memMap[..], held, lim[..])
    }

    /** mem_init, on a machine whose kernel tables identity-map low memory. */
    constructor (pages: nat, start: nat, high: nat)
      requires LOW <= start <= high <= LOW + pages
      ensures Valid() && PagingRuns.Booted(S(), start)
      ensures fresh(dir) && fresh(mem) && fresh(memMap) && fresh(lim)
    {
      this.high := high;
      dir := new Word[NDIR](i => if i < 4 then UserRw(i + 1) else EMPTY);
      mem := new Page[LOW + pages](i requires 0 <= i => BootPage(i));
      memMap := new nat[pages](_ => USED);
      lim := new nat[NR_TASKS](i => if i == 0 then 1 else 0);
      held := seq(pages, _ => USED);
      new;
      assert forall d :: 0 <= d < NDIR ==> dir[d] == if d < 4 then UserRw(d + 1) else EMPTY;
      assert forall f :: 0 <= f < mem.Length ==> mem[f] == BootPage(f);
      MarkFree(start);
    }

    /** The loop of mem_init that opens main memory. */
    method MarkFree(start: nat)
      requires LOW <= start <= high <= LOW + memMap.Length && |held| == memMap.Length
      requires forall j :: 0 <= j < memMap.Length ==> memMap[j] == held[j] == USED
      modifies this`held, memMap
      ensures |held| == memMap.Length
      ensures forall j :: 0 <= j < memMap.Length ==>
                memMap[j] == held[j] == if start - LOW <= j < high - LOW then 0 else USED
    {
      var i := start - LOW;
      while i < high - LOW
        invariant start - LOW <= i <= high - LOW && |held| == memMap.Length
        invariant forall j :: 0 <= j < memMap.Length ==>
                    memMap[j] == held[j] == if start - LOW <= j < i then 0 else USED
      {
        memMap[i] := 0;
        held := held[i := 0];
        i := i + 1;
      }
    }

    // -------------------------------------------------------------- stores

    method PutEntry(d: nat, t: nat, w: Word)
      requires Valid() && HasTable(S(), d) && t < PTRS
      modifies mem
      ensures Valid() && S() == SetEntry(old(S()), d, t, w)
    {
      var f := dir[d].frame;
      mem[f] := mem[f][t := w];
      assert mem[..] == old(mem[..])[f := old(mem[..])[f][t := w]];
    }

    method PutCount(f: nat, c: nat)
      requires Valid() && LOW <= f < LOW + memMap.Length
      modifies memMap
      ensures Valid() && S() == SetCount(old(S()), f, c)
    {
      memMap[f - LOW] := c;
      assert memMap[..] == old(memMap[..])[f - LOW := c];
    }

    method PutDir(d: nat, w: Word)
      requires Valid() && d < NDIR && (w.present ==> w.frame < mem.Length)
      modifies dir
      ensures Valid() && S() == SetDir(old(S()), d, w)
    {
      dir[d] := w;
      assert dir[..] == old(dir[..])[d := w];
    }

    method FillPage(f: nat, p: Page)
      requires Valid() && f < mem.Length && |p| == PTRS
      modifies mem
      ensures Valid() && S() == SetPage(old(S()), f, p)
    {
      mem[f] := p;
      assert mem[..] == old(mem[..])[f := p];
    }

    // -------------------------------------------------------------- get_free_page, free_page

    /** The page taken, or 0. */
    method GetFreePage() returns (page: nat)
      requires Valid()
      modifies this`held, mem, memMap
      ensures Valid()
      ensures match FreeFrame(old(S()))
              case None => page == 0 && S() == old(S())
              case Some(f) => page == f && S() == Taken(old(S()), f)
    {
      var i := memMap.Length;
      while i > 0 && memMap[i - 1] != 0
        invariant 0 <= i <= memMap.Length && S() == old(S())
        invariant LastFree(memMap[..], memMap.Length) == LastFree(memMap[..], i)
      {
        i := i - 1;
      }
      if i == 0 { return 0; }
      page := LOW + i - 1;
      PutCount(page, 1);
      FillPage(page, ZeroPage());
      held := held[i - 1 := 1];
    }

    method FreePageAt(page: nat)
      requires Valid() && Freeable(S(), page)
      modifies memMap
      ensures Valid() && S() == FreePage(old(S()), page)
    {
      if page < LOW { return; }
      PutCount(page, Dec(memMap[page - LOW]));
    }

    /** The inner loop of free_page_tables: give back every page the table maps. */
    method FreeTableEntries(d: nat)
      requires Valid() && Inv(S()) && User(d) && dir[d].present
      modifies mem, memMap
      ensures Valid() && HasTable(S(), d) && S() == FreeEntries(old(S()), d, PTRS)
    {
      hide Sound, View;
      ghost var s := S();
      var nr := 0;
      while nr < PTRS
        invariant 0 <= nr <= PTRS && Valid() && HasTable(S(), d) && S() == FreeEntries(s, d, nr)
      {
        EntriesFreed(s, d, nr);
        EntryFreed(S(), d, nr);
        var w := mem[dir[d].frame][nr];
        if w.present { FreePageAt(w.frame); }
        PutEntry(d, nr, EMPTY);
        nr := nr + 1;
      }
    }

    /** One round of the outer loop of free_page_tables. */
    method FreeDirEntry(d: nat)
      requires Valid() && Inv(S()) && User(d)
      modifies dir, mem, memMap
      ensures Valid() && S() == FreeTable(old(S()), d)
    {
      if dir[d].present {
        ghost var s := S();
        FreeTableEntries(d);
        EntriesFreed(s, d, PTRS);
        TableDropped(S(), d);
        FreePageAt(dir[d].frame);
        PutDir(d, EMPTY);
      }
    }

    /** free_page_tables, over n directory entries from d on. */
    method FreePageTables(d: nat, n: nat)
      requires Valid() && Inv(S()) && SLOT_DIRS <= d && d + n <= NDIR
      modifies dir, mem, memMap
      ensures Valid() && S() == FreeTables(old(S()), d, n)
    {
      hide Sound, View, Entry, FreeTable;
      ghost var s := S();
      var i := 0;
      while i < n
        invariant 0 <= i <= n && Valid() && S() == FreeTables(s, d, i)
      {
        TablesFreed(s, d, i);
        FreeDirEntry(d + i);
        i := i + 1;
      }
    }

    // -------------------------------------------------------------- fork

    /** The table of directory entry d, allocated and zeroed. */
    method MakeTable(d: nat) returns (ok: bool)
      requires Valid() && Inv(S()) && SLOT_DIRS <= d < NDIR && !dir[d].present
      modifies this`held, dir, mem, memMap
      ensures Valid() && (S(), ok) == NewTable(old(S()), d)
    {
      if FreeFrame(S()).Some? { Unused'(S(), FreeFrame(S()).value); }
      var page := GetFreePage();
      if page == 0 { return false; }
      PutDir(d, UserRw(page));
      held := held[page - LOW := 0];
      return true;
    }

    /** copy_page_tables over n directory entries; from == 0 copies only the kernel's first entries.
        The destination entries must be absent: the code panics otherwise. */
    method CopyPageTables(df: nat, dt: nat, n: nat) returns (ok: bool)
      requires Valid() && Inv(S()) && n <= SLOT_DIRS
      requires df + n <= NDIR && SLOT_DIRS <= dt && dt + n <= NDIR && (df + n <= dt || dt + n <= df) && df != dt
      requires Offset(df) == 0 && Offset(dt) == 0 && (SLOT_DIRS <= df || (df == 0 && n <= 1))
      requires forall d :: dt <= d < dt + n ==> !dir[d].present
      modifies this`held, dir, mem, memMap
      ensures Valid() && (S(), ok) == CopyTables(old(S()), df, dt, if df == 0 then KERNEL_ENTRIES else PTRS, n)
    {
      hide Sound, View, Entry, CopyTable;
      ghost var s := S();
      var m := if df == 0 then KERNEL_ENTRIES else PTRS;
      var i := 0;
      ok := true;
      while i < n
        invariant 0 <= i <= n && Valid() && ok && (S(), true) == CopyTables(s, df, dt, m, i)
      {
        TablesCopied(s, df, dt, m, i);
        OffsetStep(df, i);
        OffsetStep(dt, i);
        ok := CopyDirEntry(df + i, dt + i, m);
        if !ok {
          CopyFailed(s, df, dt, m, i, n);
          return;
        }
        i := i + 1;
      }
    }

    /** One round of the outer loop of copy_page_tables. */
    method CopyDirEntry(df: nat, dt: nat, nr: nat) returns (ok: bool)
      requires Valid() && Inv(S()) && df < NDIR && User(dt) && !dir[dt].present && df != dt && Offset(df) == Offset(dt)
      requires (User(df) && nr == PTRS) || (df == 0 && nr == KERNEL_ENTRIES)
      modifies this`held, dir, mem, memMap
      ensures Valid() && (S(), ok) == CopyTable(old(S()), df, dt, nr)
    {
      hide Sound, View, Entry, CopyEntries, NewTable;
      if !dir[df].present { return true; }
      TableMade(S(), dt);
      ok := MakeTable(dt);
      if ok { CopyTableEntries(df, dt, nr); }
    }

    /** The inner loop of copy_page_tables: nr table entries. */
    method CopyTableEntries(df: nat, dt: nat, nr: nat)
      requires Valid() && Inv(S()) && HasTable(S(), df) && User(dt) && HasTable(S(), dt) && df != dt
                 && Offset(df) == Offset(dt)
      requires (User(df) && nr == PTRS) || (df == 0 && nr == KERNEL_ENTRIES)
      requires forall t: nat :: !Entry(S(), dt, t).present
      modifies mem, memMap
      ensures Valid() && S() == CopyEntries(old(S()), df, dt, nr)
    {
      hide Sound, View;
      ghost var s := S();
      var t := 0;
      while t < nr
        invariant 0 <= t <= nr && Valid() && HasTable(S(), df) && HasTable(S(), dt) && S() == CopyEntries(s, df, dt, t)
      {
        EntriesCopied(s, df, dt, t);
        if Entry(S(), df, t).present { InMemory(S(), df, t); }
        CopyTableEntry(df, dt, t);
        t := t + 1;
      }
    }

    /** One table entry. */
    method CopyTableEntry(df: nat, dt: nat, t: nat)
      requires Valid() && HasTable(S(), df) && HasTable(S(), dt) && t < PTRS
      requires Entry(S(), df, t).present ==> Entry(S(), df, t).frame < |S().mem|
      modifies mem, memMap
      ensures Valid() && S() == CopyEntry(old(S()), df, dt, t)
    {
      var w := mem[dir[df].frame][t];
      assert w == Entry(S(), df, t);
      if w.present {
        PutEntry(dt, t, Protected(w));
        if LOW <= w.frame {
          PutEntry(df, t, Protected(w));
          PutCount(w.frame, Inc(memMap[w.frame - LOW]));
        }
      }
    }

    /** copy_mem. */
    method CopyAddressSpace(p: nat, c: nat) returns (ok: bool)
      requires Valid() && Inv(S()) && Limited(S()) && p < NR_TASKS && 1 <= c < NR_TASKS && p != c && lim[c] == 0
      modifies this`held, dir, mem, memMap, lim
      ensures Valid() && (S(), ok) == CopyMem(old(S()), p, c)
    {
      hide Sound, View, Entry, CopyTables, FreeTables;
      ghost var s := S();
      var n := lim[p];
      NoPagesBeyondLimit(s, c);
      ok := CopyPageTables(p * SLOT_DIRS, c * SLOT_DIRS, n);
      if ok {
        ghost var s1 := S();
        lim[c] := n;
        assert lim[..] == s1.lim[c := n];
      } else {
        TablesCopied(s, p * SLOT_DIRS, c * SLOT_DIRS, if p == 0 then KERNEL_ENTRIES else PTRS, n);
        FreePageTables(c * SLOT_DIRS, n);
      }
    }

    // -------------------------------------------------------------- faults

    /** un_wp_page of the table entry of (d, t); false where the code calls oom. */
    method UnWpPage(d: nat, t: nat) returns (ok: bool)
      requires Valid() && Inv(S()) && User(d) && t < PTRS && Entry(S(), d, t).present
      modifies this`held, mem, memMap
      ensures Valid() && (S(), ok) == UnWp(old(S()), d, t)
    {
      ghost var s := S();
      InMemory(s, d, t);
      if FreeFrame(s).Some? { Unused'(s, FreeFrame(s).value); }
      hide Sound, View;
      var w := mem[dir[d].frame][t];
      if LOW <= w.frame && memMap[w.frame - LOW] == 1 {
        PutEntry(d, t, w.(writable := true));
        return true;
      }
      var page := GetFreePage();
      if page == 0 { return false; }
      if LOW <= w.frame { PutCount(w.frame, Dec(memMap[w.frame - LOW])); }
      PutEntry(d, t, UserRw(page));
      held := held[page - LOW := 0];
      FillPage(page, mem[w.frame]);
      return true;
    }

    /** write_verify: before the kernel writes to user memory at (d, t). */
    method VerifyWrite(d: nat, t: nat) returns (ok: bool)
      requires Valid() && Inv(S()) && User(d) && t < PTRS
      modifies this`held, mem, memMap
      ensures Valid() && Inv(S()) && SameViews(old(S()), S())
      ensures ok && Entry(old(S()), d, t).present ==> Entry(S(), d, t).present && Entry(S(), d, t).writable
      ensures Entry(old(S()), d, t).present ==> (S(), ok) == PagingRuns.WriteVerify(old(S()), d, t)
      ensures !Entry(old(S()), d, t).present ==> ok && S() == old(S())
    {
      if !dir[d].present { return true; }
      var w := mem[dir[d].frame][t];
      if w.present && !w.writable {
        Unprotected(S(), d, t);
        ok := UnWpPage(d, t);
      } else {
        ok := true;
      }
    }

    /** put_page; false stands for the result 0. */
    method PlacePage(page: nat, d: nat, t: nat) returns (ok: bool)
      requires Valid() && Inv(S()) && User(d) && t < PTRS && !Entry(S(), d, t).present
      requires LOW <= page < high && Held(S(), page) == 1
      modifies this`held, dir, mem, memMap
      ensures Valid() && (S(), ok) == PutPage(old(S()), page, d, t)
    {
      if !dir[d].present {
        TableMade(S(), d);
        ok := MakeTable(d);
        if !ok { return; }
      }
      PutEntry(d, t, UserRw(page));
      held := held[page - LOW := 0];
      return true;
    }

    /** get_empty_page; false where the code calls oom. */
    method GetEmptyPage(d: nat, t: nat) returns (ok: bool)
      requires Valid() && Inv(S()) && User(d) && t < PTRS && !Entry(S(), d, t).present
      modifies this`held, dir, mem, memMap
      ensures Valid() && (S(), ok) == EmptyPage(old(S()), d, t)
    {
      hide Sound, View, PutPage;
      ghost var s := S();
      if FreeFrame(s).Some? { PageTaken(s, FreeFrame(s).value); Unused'(s, FreeFrame(s).value); }
      var page := GetFreePage();
      if page == 0 { return false; }
      PagePut(S(), page, d, t);
      ok := PlacePage(page, d, t);
      if !ok {
        FreePageAt(page);
        held := held[page - LOW := 0];
      }
    }

    /** try_to_share of entry (df, t) of another task with entry (dt, t) of the current one. */
    method ShareFrom(df: nat, dt: nat, t: nat) returns (how: Shared)
      requires Valid() && Inv(S()) && User(df) && User(dt) && df != dt && t < PTRS && !Entry(S(), dt, t).present
      modifies this`held, dir, mem, memMap
      ensures Valid() && (S(), how) == TryToShare(old(S()), df, dt, t)
    {
      hide Sound, View;
      if !dir[df].present { return NotShared; }
      var w := mem[dir[df].frame][t];
      if !w.present || Dirty(w) || w.frame >= high || w.frame < LOW { return NotShared; }
      if !dir[dt].present {
        TableMade(S(), dt);
        var ok := MakeTable(dt);
        if !ok { return OutOfMemory; }
      }
      ShareEntry(df, dt, t, w.frame);
      return IsShared;
    }

    /** The parent's entry loses its write bit, the other gets a copy of it, and the page is counted. */
    method ShareEntry(df: nat, dt: nat, t: nat, f: nat)
      requires Valid() && HasTable(S(), df) && HasTable(S(), dt) && t < PTRS && LOW <= f < high
      modifies mem, memMap
      ensures Valid()
      ensures var s2 := SetEntry(old(S()), df, t, Protected(Entry(old(S()), df, t)));
              var s3 := SetEntry(s2, dt, t, Entry(s2, df, t));
              S() == SetCount(s3, f, Inc(Count(s3, f)))
    {
      PutEntry(df, t, Protected(mem[dir[df].frame][t]));
      PutEntry(dt, t, mem[dir[df].frame][t]);
      PutCount(f, Inc(memMap[f - LOW]));
    }
  }

  /** A fork that has failed at one directory entry fails as a whole. */
  lemma {:induction false} CopyFailed(s: State, df: nat, dt: nat, m: nat, i: nat, n: nat)
    requires Shape(s) && df + n <= NDIR && dt + n <= NDIR && df != dt && m <= PTRS && i < n
    requires !CopyTables(s, df, dt, m, i + 1).1
    ensures CopyTables(s, df, dt, m, n) == CopyTables(s, df, dt, m, i + 1)
  {
    if i + 1 < n {
      CopyFailed(s, df, dt, m, i, n - 1);
    }
  }

  lemma InMemory(s: State, d: nat, t: nat)
    requires Inv(s) && Tracked(d, t) && Entry(s, d, t).present
    ensures Entry(s, d, t).frame < |s.mem|
  {
  }
}

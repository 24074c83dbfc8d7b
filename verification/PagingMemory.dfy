/** How much memory the operations of the memory manager need: each succeeds exactly when that many pages are free. */
module PagingMemory {
  import opened Basics
  import opened Paging
  import opened PagingInvariant
  import opened PagingRefinement
  import opened PagingRuns

  /** The free pages of main memory. */
  ghost function Zeros(s: State): set<nat> {
    set i: nat | i < |s.cnt| && s.cnt[i] == 0
  }

  lemma FreeIff(s: State)
    ensures FreeFrame(s).Some? <==> Zeros(s) != {}
    ensures FreeFrame(s).Some? ==> FreeFrame(s).value - LOW in Zeros(s)
  {
    if FreeFrame(s).Some? { assert FreeFrame(s).value - LOW in Zeros(s); }
    if Zeros(s) != {} { var i :| i in Zeros(s); }
  }

  lemma OneTaken(s: State, r: State, f: nat)
    requires LOW <= f < LOW + |s.cnt| && r.cnt == s.cnt[f - LOW := 1] && f - LOW in Zeros(s)
    ensures |Zeros(r)| == |Zeros(s)| - 1
  {
    forall i: nat ensures i in Zeros(r) <==> i in Zeros(s) && i != f - LOW {
      if i < |s.cnt| { assert r.cnt[i] == if i == f - LOW then 1 else s.cnt[i]; }
    }
    assert Zeros(r) == Zeros(s) - {f - LOW};
    hide Zeros;
  }

  lemma SameZeros(s: State, r: State)
    requires s.cnt == r.cnt
    ensures Zeros(s) == Zeros(r)
  {
  }

  lemma NewTableZeros(s: State, d: nat)
    requires Shape(s) && d < NDIR
    ensures var (r, ok) := NewTable(s, d);
            (ok <==> Zeros(s) != {}) && |Zeros(r)| == |Zeros(s)| - Bit(ok)
  {
    FreeIff(s);
    if FreeFrame(s).Some? { OneTaken(s, NewTable(s, d).0, FreeFrame(s).value); }
    hide Zeros;
  }

  // ---------------------------------------------------------------- fork

  /** Sharing a page takes none. */
  lemma EntryCopyZeros(s: State, df: nat, dt: nat, t: nat)
    requires Inv(s) && HasTable(s, df) && HasTable(s, dt) && Tracked(df, t)
    ensures Zeros(CopyEntry(s, df, dt, t)) == Zeros(s)
  {
    var w, r := Entry(s, df, t), CopyEntry(s, df, dt, t);
    if w.present && LOW <= w.frame < LOW + |s.cnt| {
      CountedPage(s, df, t);
      assert r.cnt == s.cnt[w.frame - LOW := Inc(Count(s, w.frame))];
      forall i: nat ensures i in Zeros(r) <==> i in Zeros(s) {}
    }
    hide Inv;
  }

  /** What fork copies is counted, and not so often that one more would wrap. */
  lemma CountedPage(s: State, d: nat, t: nat)
    requires Inv(s) && Tracked(d, t) && Entry(s, d, t).present && LOW <= Entry(s, d, t).frame
    ensures 0 < Count(s, Entry(s, d, t).frame) < NR_TASKS && Inc(Count(s, Entry(s, d, t).frame)) != 0
  {
    MappedPage(s, d, t);
    CountBound(s, Entry(s, d, t).frame);
    assert (d, t) in Mappers(s, Entry(s, d, t).frame);
  }

  lemma {:induction false} EntriesCopyZeros(s: State, df: nat, dt: nat, n: nat)
    requires Inv(s) && HasTable(s, df) && HasTable(s, dt) && User(dt) && s.dir[dt].present && df != dt
    requires Offset(df) == Offset(dt) && n <= PTRS && (User(df) || (df == 0 && n <= KERNEL_ENTRIES))
    requires forall t: nat :: !Entry(s, dt, t).present
    ensures Zeros(CopyEntries(s, df, dt, n)) == Zeros(s)
  {
    hide Inv, Entry, CopyEntry, View, ForkFrame, Zeros;
    if n != 0 {
      EntriesCopyZeros(s, df, dt, n - 1);
      EntriesCopied(s, df, dt, n - 1);
      EntryCopyZeros(CopyEntries(s, df, dt, n - 1), df, dt, n - 1);
    }
  }

  /** One directory entry takes a page for the child's table, if the parent has a table there at all. */
  lemma TableCopyZeros(s: State, df: nat, dt: nat, n: nat)
    requires Inv(s) && Shape(s) && df < NDIR && User(dt) && !s.dir[dt].present && df != dt && Offset(df) == Offset(dt)
    requires (User(df) && n == PTRS) || (df == 0 && n == KERNEL_ENTRIES)
    ensures var (r, ok) := CopyTable(s, df, dt, n);
            && (ok <==> !s.dir[df].present || Zeros(s) != {})
            && (ok ==> |Zeros(r)| == |Zeros(s)| - Bit(s.dir[df].present))
  {
    hide Inv, Entry, NewTable, CopyEntries, View, Zeros;
    if s.dir[df].present {
      NewTableZeros(s, dt);
      TableMade(s, dt);
      if NewTable(s, dt).1 { EntriesCopyZeros(NewTable(s, dt).0, df, dt, n); }
    }
  }

  /** The tables among k directory entries. */
  ghost function Tabled(s: State, d: nat, k: nat): set<nat> {
    set e: nat | d <= e < d + k && e < |s.dir| && s.dir[e].present
  }

  lemma TabledNext(s: State, d: nat, k: nat)
    requires Shape(s) && d + k < NDIR
    ensures |Tabled(s, d, k + 1)| == |Tabled(s, d, k)| + Bit(s.dir[d + k].present)
    ensures Tabled(s, d, 0) == {}
  {
    CountWithout(Tabled(s, d, k + 1), d + k);
    assert Tabled(s, d, k + 1) - {d + k} == Tabled(s, d, k);
  }

  lemma {:induction false} TablesCopyZeros(s: State, df: nat, dt: nat, n: nat, k: nat)
    requires Inv(s) && Shape(s)
    requires df + k <= NDIR && SLOT_DIRS <= dt && dt + k <= NDIR && df != dt && (df + k <= dt || dt + k <= df)
    requires k <= SLOT_DIRS && Offset(df) == 0 && Offset(dt) == 0
    requires (SLOT_DIRS <= df && n == PTRS) || (df == 0 && k <= 1 && n == KERNEL_ENTRIES)
    requires forall d: nat :: dt <= d < dt + k ==> !s.dir[d].present
    ensures var (r, ok) := CopyTables(s, df, dt, n, k);
            && (ok <==> |Tabled(s, df, k)| <= |Zeros(s)|)
            && (ok ==> |Zeros(r)| == |Zeros(s)| - |Tabled(s, df, k)|)
  {
    hide Inv, Entry, View, CopyTable, Zeros, Tabled;
    if k == 0 {
      NoneTabled(s, df);
    } else {
      TablesCopyZeros(s, df, dt, n, k - 1);
      TabledNext(s, df, k - 1);
      var (s1, ok) := CopyTables(s, df, dt, n, k - 1);
      if ok {
        TablesCopied(s, df, dt, n, k - 1);
        OffsetStep(df, k - 1);
        OffsetStep(dt, k - 1);
        TableCopyZeros(s1, df + k - 1, dt + k - 1, n);
        EmptyIff(Zeros(s1));
      }
    }
  }

  lemma NoneTabled(s: State, d: nat)
    ensures Tabled(s, d, 0) == {}
  {
  }

  lemma EmptyIff<T>(S: set<T>)
    ensures S == {} <==> |S| == 0
  {
  }

  /** A fork succeeds exactly when a page is free for each table that the parent has within its limit, and takes just
      these. */
  lemma ForkIff(s: State, p: nat, c: nat)
    requires Good(s) && Enabled(s, Fork(p, c))
    ensures var (r, ok) := CopyMem(s, p, c); var tables := Tabled(s, p * SLOT_DIRS, s.lim[p]);
            && (ok <==> |tables| <= |Zeros(s)|)
            && |Zeros(r)| == |Zeros(s)| - (if ok then |tables| else 0)
  {
    hide Sound, Entry, View, CopyTables, FreeTables, ForkFrame, Zeros, Tabled;
    NoPagesBeyondLimit(s, c);
    ChildIsEmpty(s, c);
    MemCopied(s, p, c);
    var n := if p == 0 then KERNEL_ENTRIES else PTRS;
    TablesCopyZeros(s, p * SLOT_DIRS, c * SLOT_DIRS, n, s.lim[p]);
    var (r, ok) := CopyMem(s, p, c);
    SameZeros(r, if ok then CopyTables(s, p * SLOT_DIRS, c * SLOT_DIRS, n, s.lim[p]).0 else s);
  }

  lemma ChildIsEmpty(s: State, c: nat)
    requires Good(s) && 1 <= c < NR_TASKS && s.lim[c] == 0
    ensures forall d: nat :: c * SLOT_DIRS <= d < c * SLOT_DIRS + SLOT_DIRS ==> !s.dir[d].present
  {
    NoPagesBeyondLimit(s, c);
    forall d: nat | c * SLOT_DIRS <= d < c * SLOT_DIRS + SLOT_DIRS ensures !s.dir[d].present { assert Slot(d) == c; }
  }

  // ---------------------------------------------------------------- faults

  /** put_page needs a page only for a table that is not there. */
  lemma PutIff(s: State, f: nat, d: nat, t: nat)
    requires Shape(s) && LOW <= f < |s.mem| && d < NDIR && t < PTRS
    ensures var (r, ok) := PutPage(s, f, d, t);
            && (ok <==> s.dir[d].present || Zeros(s) != {})
            && |Zeros(r)| == |Zeros(s)| - Bit(!s.dir[d].present && Zeros(s) != {})
  {
    hide Zeros;
    NewTableZeros(s, d);
    SameZeros(PutPage(s, f, d, t).0, EnsureTable(s, d).0);
  }

  /** A fault is served exactly when there are a page and, if need be, one more for the table; otherwise nothing is
      taken. */
  lemma LoadIff(s: State, d: nat, t: nat, p: Page)
    requires Good(s) && Enabled(s, Fault(d, t, p))
    ensures var (r, ok) := LoadPage(s, d, t, p); var need := if s.dir[d].present then 1 else 2;
            && (ok <==> |Zeros(s)| >= need)
            && |Zeros(r)| == |Zeros(s)| - (if ok then need else 0)
  {
    hide Sound, Zeros, Entry, View, PutPage, Release;
    FreeIff(s);
    EmptyIff(Zeros(s));
    PageLoaded(s, d, t, p);
    if FreeFrame(s).Some? {
      var f := FreeFrame(s).value;
      var s2 := SetPage(Taken(s, f), f, p);
      OneTaken(s, s2, f);
      EmptyIff(Zeros(s2));
      PutIff(s2, f, d, t);
      if !PutPage(s2, f, d, t).1 { SameZeros(LoadPage(s, d, t, p).0, s); }
    }
  }

  /** try_to_share shares exactly a present page of main memory that is clean, and needs a page for a table that is not
      there; it is out of memory exactly when it lacks that one. */
  lemma ShareIff(s: State, df: nat, dt: nat, t: nat)
    requires Inv(s) && User(df) && User(dt) && t < PTRS
    ensures var how := TryToShare(s, df, dt, t).1; var w := Entry(s, df, t);
            var fit := w.present && Bits(w) / 64 % 2 == 0 && LOW <= w.frame < s.high;
            && (how == NotShared <==> !fit)
            && (how == IsShared <==> fit && (s.dir[dt].present || Zeros(s) != {}))
  {
    NewTableZeros(s, dt);
    WordBits(Entry(s, df, t));
    hide Sound, Zeros;
  }

  // ---------------------------------------------------------------- what is written into entries

  /** The page that put_page places has the user, the write and the present bit, and no other; so has a table. */
  lemma PutWord(s: State, f: nat, d: nat, t: nat)
    requires Inv(s) && User(d) && t < PTRS && !Entry(s, d, t).present && LOW <= f < s.high && Held(s, f) == 1
    ensures var (r, ok) := PutPage(s, f, d, t);
            && (ok ==> Bits(Entry(r, d, t)) == 0x1000 * f + 7)
            && (ok && !s.dir[d].present ==> Bits(r.dir[d]) % 0x1000 == 7)
  {
    hide Sound, View;
    if !s.dir[d].present { TableMade(s, d); }
    var (s1, ok) := EnsureTable(s, d);
    if ok { SetEntryEffect(s1, d, t, UserRw(f)); }
    WordBits(EMPTY);
  }

  /** un_wp_page: the only user of a page gets the write bit and keeps the others; a copy has the same bits as a new
      page. */
  lemma UnWpWord(s: State, d: nat, t: nat)
    requires Inv(s) && User(d) && Entry(s, d, t).present && t < PTRS && Entry(s, d, t).frame < |s.mem|
    ensures var w := Entry(s, d, t); var (r, ok) := UnWp(s, d, t); var v := Entry(r, d, t);
            ok ==> if LOW <= w.frame && Count(s, w.frame) == 1 then Bits(v) == Bits(w) + (if w.writable then 0 else 2)
                   else FreeFrame(s).Some? && Bits(v) == 0x1000 * FreeFrame(s).value + 7
  {
    TableIsAlone(s, d);
    if FreeFrame(s).Some? { Unused'(s, FreeFrame(s).value); }
    WordBits(EMPTY);
    hide Sound, View;
  }

  /** The child's words: those of the parent without the write bit. */
  ghost predicate ChildWords(s: State, r: State, df: nat, dt: nat, n: nat) {
    forall t: nat :: t < n ==>
      if Entry(s, df, t).present then Entry(r, dt, t) == Protected(Entry(s, df, t)) else !Entry(r, dt, t).present
  }

  lemma EntryWord(s: State, df: nat, dt: nat, t: nat)
    requires Inv(s) && HasTable(s, df) && HasTable(s, dt) && User(dt) && df != dt && t < PTRS
    ensures Entry(CopyEntry(s, df, dt, t), dt, t) ==
            if Entry(s, df, t).present then Protected(Entry(s, df, t)) else Entry(s, dt, t)
  {
    TableIsAlone(s, dt);
    hide Sound, View;
  }

  lemma {:induction false} EntriesWords(s: State, df: nat, dt: nat, n: nat)
    requires Inv(s) && HasTable(s, df) && HasTable(s, dt) && User(dt) && s.dir[dt].present && df != dt
    requires Offset(df) == Offset(dt) && n <= PTRS && (User(df) || (df == 0 && n <= KERNEL_ENTRIES))
    requires forall t: nat :: !Entry(s, dt, t).present
    ensures ChildWords(s, CopyEntries(s, df, dt, n), df, dt, n)
  {
    hide Inv, Entry, CopyEntry, View;
    if n != 0 {
      EntriesWords(s, df, dt, n - 1);
      EntriesCopied(s, df, dt, n - 1);
      var s1 := CopyEntries(s, df, dt, n - 1);
      EntryWord(s1, df, dt, n - 1);
      EntryCopied(s1, df, dt, n - 1);
    }
  }

  lemma TableWords(s: State, df: nat, dt: nat, n: nat)
    requires Inv(s) && Shape(s) && df < NDIR && User(dt) && !s.dir[dt].present && df != dt && Offset(df) == Offset(dt)
    requires (User(df) && n == PTRS) || (df == 0 && n == KERNEL_ENTRIES)
    ensures CopyTable(s, df, dt, n).1 ==> ChildWords(s, CopyTable(s, df, dt, n).0, df, dt, n)
  {
    hide Inv, View, CopyEntries, NewTable;
    TableMade(s, dt);
    NoTableNoEntry(s, df);
    NoTableNoEntry(s, dt);
    if s.dir[df].present && NewTable(s, dt).1 { EntriesWords(NewTable(s, dt).0, df, dt, n); }
    hide Entry;
  }

  lemma NoTableNoEntry(s: State, d: nat)
    requires Shape(s) && d < NDIR
    ensures !s.dir[d].present ==> forall t: nat :: Entry(s, d, t) == EMPTY
  {
  }

  ghost predicate WordsAt(s: State, r: State, df: nat, dt: nat, n: nat, i: nat) {
    ChildWords(s, r, df + i, dt + i, n)
  }

  /** After a fork every word of the child is the parent's, without the write bit, as far as fork copies. */
  lemma {:induction false} TablesWords(s: State, df: nat, dt: nat, n: nat, k: nat)
    requires Inv(s) && Shape(s)
    requires df + k <= NDIR && SLOT_DIRS <= dt && dt + k <= NDIR && df != dt && (df + k <= dt || dt + k <= df)
    requires k <= SLOT_DIRS && Offset(df) == 0 && Offset(dt) == 0
    requires (SLOT_DIRS <= df && n == PTRS) || (df == 0 && k <= 1 && n == KERNEL_ENTRIES)
    requires forall d: nat :: dt <= d < dt + k ==> !s.dir[d].present
    ensures CopyTables(s, df, dt, n, k).1 ==>
              forall i: nat :: i < k ==> WordsAt(s, CopyTables(s, df, dt, n, k).0, df, dt, n, i)
  {
    hide Inv, Entry, View, CopyTable, ChildWords;
    if k != 0 && CopyTables(s, df, dt, n, k).1 {
      TablesWords(s, df, dt, n, k - 1);
      TablesCopied(s, df, dt, n, k - 1);
      var s1 := CopyTables(s, df, dt, n, k - 1).0;
      OffsetStep(df, k - 1);
      OffsetStep(dt, k - 1);
      TableWords(s1, df + k - 1, dt + k - 1, n);
      TableCopied(s1, df + k - 1, dt + k - 1, n);
      WordsStep(s, s1, CopyTables(s, df, dt, n, k).0, df, dt, n, k - 1);
    }
  }

  lemma WordsStep(s: State, s1: State, r: State, df: nat, dt: nat, n: nat, k: nat)
    requires Shape(s) && Shape(s1) && Shape(r) && df + k < NDIR && dt + k < NDIR && (df + k < dt || dt + k < df)
    requires ForkFrame(s, s1, df, dt, k) && ForkFrame(s1, r, df + k, dt + k, 1)
    requires forall i: nat :: i < k ==> WordsAt(s, s1, df, dt, n, i)
    requires ChildWords(s1, r, df + k, dt + k, n)
    ensures forall i: nat :: i < k + 1 ==> WordsAt(s, r, df, dt, n, i)
  {
    hide ForkFrame, ChildWords;
    forall i: nat | i < k + 1 ensures WordsAt(s, r, df, dt, n, i) {
      if i < k {
        assert WordsAt(s, s1, df, dt, n, i);
        FramedWords(s, s1, r, df + i, dt + i, df + k, dt + k, n);
      } else {
        SameWords(s, s1, r, df + i, dt + i, df, dt, k, n);
      }
    }
  }

  lemma FramedWords(s: State, s1: State, r: State, df: nat, dt: nat, ef: nat, et: nat, n: nat)
    requires Shape(s1) && Shape(r) && ForkFrame(s1, r, ef, et, 1) && ChildWords(s, s1, df, dt, n)
    requires dt < NDIR && dt != et
    ensures ChildWords(s, r, df, dt, n)
  {
    hide Entry;
  }

  lemma SameWords(s: State, s1: State, r: State, df: nat, dt: nat, bf: nat, bt: nat, k: nat, n: nat)
    requires Shape(s) && Shape(s1) && ForkFrame(s, s1, bf, bt, k) && ChildWords(s1, r, df, dt, n)
    requires df < NDIR && !(bt <= df < bt + k)
    ensures ChildWords(s, r, df, dt, n)
  {
    hide Entry;
  }

  /** The words that a fork gives to the child. */
  lemma ForkWords(s: State, p: nat, c: nat, i: nat)
    requires Good(s) && Enabled(s, Fork(p, c)) && i < s.lim[p]
    ensures var n := if p == 0 then KERNEL_ENTRIES else PTRS; var (r, ok) := CopyMem(s, p, c);
            ok ==> ChildWords(s, r, p * SLOT_DIRS + i, c * SLOT_DIRS + i, n)
  {
    hide Sound, View, CopyTables, FreeTables;
    ChildIsEmpty(s, c);
    var n := if p == 0 then KERNEL_ENTRIES else PTRS;
    TablesWords(s, p * SLOT_DIRS, c * SLOT_DIRS, n, s.lim[p]);
    var (s1, ok) := CopyTables(s, p * SLOT_DIRS, c * SLOT_DIRS, n, s.lim[p]);
    if ok {
      assert WordsAt(s, s1, p * SLOT_DIRS, c * SLOT_DIRS, n, i);
      EntryIgnoresBooks(s1, s1.(lim := s1.lim[c := s.lim[p]]));
    }
    hide Entry;
  }
}

/** The copy-on-write memory manager: physical memory, the page directory, the page tables stored
    in physical pages, and the per-page reference counts, as one immutable value; the transitions of
    `mm/memory.c` and `kernel/fork.c` as functions on it; and the eager machine they must refine.

    Addresses are counted in pages: a frame is a physical address shifted right by 12, and a linear
    page is a pair (d, t) of a directory index and a table index. */
module Paging {
  import opened Basics

  const LOW: nat := 256            // LOW_MEM in frames; frames below it are never counted
  const PTRS: nat := 1024          // words in a page, entries in a table
  const NDIR: nat := 1024          // entries in the page directory
  const SLOT_DIRS: nat := 16       // directory entries of one 64 MB task slot
  const NR_TASKS: nat := 64
  const USED: nat := 100           // the count of a page outside main memory
  const KERNEL_ENTRIES: nat := 160 // entries copied when the first fork copies the kernel's pages

  /** One 32-bit word, split the way the paging unit reads it: bit 0, bit 1, bits 2 to 11 and the
      page address. The split is a bijection, so any memory word is one of these values. */
  datatype Word = Word(present: bool, writable: bool, flags: nat, frame: nat)

  /** The word as the number that it is in memory. */
  function Bits(w: Word): int {
    (if w.present then 1 else 0) + (if w.writable then 2 else 0) + 4 * w.flags + 0x1000 * w.frame
  }

  type Page = seq<Word>

  const EMPTY: Word := Word(false, false, 0, 0)

  function ZeroPage(): (p: Page)
    ensures |p| == PTRS && forall k :: 0 <= k < PTRS ==> p[k] == EMPTY
  {
    seq(PTRS, _ => EMPTY)
  }

  /** A page address with the three low bits set: user, writable, present. */
  function UserRw(frame: nat): Word {
    Word(true, true, 1, frame)
  }

  /** `cnt` is mem_map; `held` counts the kernel's own holdings of a page (a task structure, a page
      being filled, a page outside main memory); `lim[nr]` is the number of directory entries that
      task nr's data limit covers, 0 for a free slot. */
  datatype State = State(
    high: nat, dir: seq<Word>, mem: seq<Page>, cnt: seq<nat>, held: seq<nat>, lim: seq<nat>)

  predicate Shape(s: State) {
    && |s.dir| == NDIR && |s.lim| == NR_TASKS
    && |s.held| == |s.cnt| && |s.mem| == LOW + |s.cnt| && LOW <= s.high <= |s.mem|
    && (forall f :: 0 <= f < |s.mem| ==> |s.mem[f]| == PTRS)
    && (forall d :: 0 <= d < NDIR && s.dir[d].present ==> s.dir[d].frame < |s.mem|)
  }

  predicate HasTable(s: State, d: nat) {
    Shape(s) && d < NDIR && s.dir[d].present
  }

  predicate User(d: nat) {
    SLOT_DIRS <= d < NDIR
  }

  function Slot(d: nat): nat {
    d / SLOT_DIRS
  }

  function Offset(d: nat): nat {
    d % SLOT_DIRS
  }

  /** The table entry of linear page (d, t); the empty word where there is no table. */
  function Entry(s: State, d: nat, t: nat): Word {
    if HasTable(s, d) && t < PTRS then s.mem[s.dir[d].frame][t] else EMPTY
  }

  function Count(s: State, f: nat): nat {
    if LOW <= f < LOW + |s.cnt| then s.cnt[f - LOW] else 0
  }

  function Held(s: State, f: nat): nat {
    if LOW <= f < LOW + |s.held| then s.held[f - LOW] else 0
  }

  /** Byte arithmetic of mem_map. */
  function Inc(c: nat): nat {
    (c + 1) % 256
  }

  function Dec(c: nat): nat {
    (c + 255) % 256
  }

  // ---------------------------------------------------------------- primitive updates

  function SetEntry(s: State, d: nat, t: nat, w: Word): State
    requires HasTable(s, d) && t < PTRS
  {
    var f := s.dir[d].frame;
    s.(mem := s.mem[f := s.mem[f][t := w]])
  }

  function SetCount(s: State, f: nat, c: nat): State
    requires LOW <= f < LOW + |s.cnt|
  {
    s.(cnt := s.cnt[f - LOW := c])
  }

  function SetHeld(s: State, f: nat, c: nat): State
    requires LOW <= f < LOW + |s.held|
  {
    s.(held := s.held[f - LOW := c])
  }

  function SetDir(s: State, d: nat, w: Word): State
    requires d < |s.dir|
  {
    s.(dir := s.dir[d := w])
  }

  function SetPage(s: State, f: nat, p: Page): State
    requires f < |s.mem|
  {
    s.(mem := s.mem[f := p])
  }

  // ---------------------------------------------------------------- page allocation

  /** The last index below n whose count is zero, or -1: the backward scan of mem_map. */
  function LastFree(c: seq<nat>, n: nat): (i: int)
    requires n <= |c|
    ensures -1 <= i < n
    ensures 0 <= i ==> c[i] == 0
    ensures forall j :: i < j < n ==> c[j] != 0
  {
    if n == 0 then -1 else if c[n - 1] == 0 then n - 1 else LastFree(c, n - 1)
  }

  function FreeFrame(s: State): (r: Option<nat>)
    ensures r.Some? ==> LOW <= r.value < LOW + |s.cnt| && Count(s, r.value) == 0
  {
    var i := LastFree(s.cnt, |s.cnt|);
    if i < 0 then None else Some(LOW + i)
  }

  /** get_free_page: take the last free page, count it once, zero it. The kernel holds the result. */
  function Taken(s: State, f: nat): State
    requires Shape(s) && LOW <= f < |s.mem|
  {
    SetHeld(SetPage(SetCount(s, f, 1), f, ZeroPage()), f, 1)
  }

  /** free_page, where it does not panic. */
  predicate Freeable(s: State, f: nat) {
    LOW <= f ==> f < s.high && f < LOW + |s.cnt| && Count(s, f) != 0
  }

  function FreePage(s: State, f: nat): State
    requires Freeable(s, f)
  {
    if f < LOW then s else SetCount(s, f, Dec(Count(s, f)))
  }

  // ---------------------------------------------------------------- teardown

  function FreeEntry(s: State, d: nat, t: nat): State
    requires HasTable(s, d) && t < PTRS
  {
    var w := Entry(s, d, t);
    var s1 := if w.present && Freeable(s, w.frame) then FreePage(s, w.frame) else s;
    SetEntry(s1, d, t, EMPTY)
  }

  function FreeEntries(s: State, d: nat, n: nat): (r: State)
    requires HasTable(s, d) && n <= PTRS
    ensures HasTable(r, d) && r.dir == s.dir
  {
    if n == 0 then s else FreeEntry(FreeEntries(s, d, n - 1), d, n - 1)
  }

  /** One directory entry of free_page_tables: every entry, then the table itself. */
  function FreeTable(s: State, d: nat): (r: State)
    requires Shape(s) && d < NDIR
    ensures Shape(r)
  {
    if !s.dir[d].present then s
    else
      var s1 := FreeEntries(s, d, PTRS);
      var f := s1.dir[d].frame;
      var s2 := if Freeable(s1, f) then FreePage(s1, f) else s1;
      SetDir(s2, d, EMPTY)
  }

  function FreeTables(s: State, d: nat, n: nat): (r: State)
    requires Shape(s) && d + n <= NDIR
    ensures Shape(r)
  {
    if n == 0 then s else FreeTable(FreeTables(s, d, n - 1), d + n - 1)
  }

  // ---------------------------------------------------------------- fork

  function Protected(w: Word): Word {
    w.(writable := false)
  }

  /** One entry of copy_page_tables: the child's entry first, then, for a counted page, the
      parent's write bit and the count. */
  function CopyEntry(s: State, df: nat, dt: nat, t: nat): State
    requires HasTable(s, df) && HasTable(s, dt) && t < PTRS
  {
    var w := Entry(s, df, t);
    if !w.present then s
    else
      var s1 := SetEntry(s, dt, t, Protected(w));
      if LOW <= w.frame < LOW + |s.cnt| then
        SetCount(SetEntry(s1, df, t, Protected(w)), w.frame, Inc(Count(s, w.frame)))
      else s1
  }

  function CopyEntries(s: State, df: nat, dt: nat, n: nat): (r: State)
    requires HasTable(s, df) && HasTable(s, dt) && n <= PTRS
    ensures HasTable(r, df) && HasTable(r, dt) && r.dir == s.dir
  {
    if n == 0 then s else CopyEntry(CopyEntries(s, df, dt, n - 1), df, dt, n - 1)
  }

  /** A page for the table of directory entry d, taken from the free pages. */
  function AddTable(s: State, d: nat, f: nat): State
    requires Shape(s) && d < NDIR && LOW <= f < |s.mem|
  {
    SetHeld(SetDir(s, d, UserRw(f)), f, 0)
  }

  function NewTable(s: State, d: nat): (r: (State, bool))
    requires Shape(s) && d < NDIR
    ensures Shape(r.0)
    ensures r.1 ==> HasTable(r.0, d)
    ensures forall e: nat :: e < NDIR && e != d ==> r.0.dir[e] == s.dir[e]
  {
    match FreeFrame(s)
    case None => (s, false)
    case Some(f) => (AddTable(Taken(s, f), d, f), true)
  }

  /** The table of directory entry d, allocated when it is not there yet. */
  function EnsureTable(s: State, d: nat): (r: (State, bool))
    requires Shape(s) && d < NDIR
    ensures Shape(r.0)
    ensures r.1 ==> HasTable(r.0, d)
    ensures forall e: nat :: e < NDIR && e != d ==> r.0.dir[e] == s.dir[e]
  {
    if s.dir[d].present then (s, true) else NewTable(s, d)
  }

  function CopyTable(s: State, df: nat, dt: nat, n: nat): (r: (State, bool))
    requires Shape(s) && df < NDIR && dt < NDIR && n <= PTRS && df != dt
    ensures Shape(r.0)
  {
    if !s.dir[df].present then (s, true)
    else
      var (s1, ok) := NewTable(s, dt);
      if ok then (CopyEntries(s1, df, dt, n), true) else (s1, false)
  }

  /** copy_page_tables over k directory entries, n table entries each; false when out of memory. */
  function CopyTables(s: State, df: nat, dt: nat, n: nat, k: nat): (r: (State, bool))
    requires Shape(s) && df + k <= NDIR && dt + k <= NDIR && df != dt && n <= PTRS
    ensures Shape(r.0)
  {
    if k == 0 then (s, true)
    else
      var (s1, ok) := CopyTables(s, df, dt, n, k - 1);
      if ok then CopyTable(s1, df + k - 1, dt + k - 1, n) else (s1, false)
  }

  /** copy_mem: copy the parent's k directory entries, rolling back when memory runs out. */
  function CopyMem(s: State, p: nat, c: nat): (r: (State, bool))
    requires Shape(s) && p < NR_TASKS && c < NR_TASKS && p != c && s.lim[p] <= SLOT_DIRS
    ensures Shape(r.0)
  {
    var n := if p == 0 then KERNEL_ENTRIES else PTRS;
    var (s1, ok) := CopyTables(s, p * SLOT_DIRS, c * SLOT_DIRS, n, s.lim[p]);
    if ok then (s1.(lim := s1.lim[c := s.lim[p]]), true)
    else (FreeTables(s1, c * SLOT_DIRS, s.lim[p]), false)
  }

  // ---------------------------------------------------------------- faults and stores

  /** un_wp_page; false when no page is left for the copy. */
  function UnWp(s: State, d: nat, t: nat): (r: (State, bool))
    requires HasTable(s, d) && t < PTRS && Entry(s, d, t).frame < |s.mem|
    ensures Shape(r.0)
  {
    var w := Entry(s, d, t);
    if LOW <= w.frame && Count(s, w.frame) == 1 then (SetEntry(s, d, t, w.(writable := true)), true)
    else match FreeFrame(s)
      case None => (s, false)
      case Some(g) =>
        var s1 := Taken(s, g);
        var s2 := if LOW <= w.frame then SetCount(s1, w.frame, Dec(Count(s1, w.frame))) else s1;
        var s3 := SetHeld(SetEntry(s2, d, t, UserRw(g)), g, 0);
        (SetPage(s3, g, s3.mem[w.frame]), true)
  }

  /** A store of w at word k of linear page (d, t), through its present and writable entry. */
  function Store(s: State, d: nat, t: nat, k: nat, w: Word): (r: State)
    requires Shape(s) && Entry(s, d, t).frame < |s.mem| && k < PTRS
    ensures Shape(r)
  {
    var f := Entry(s, d, t).frame;
    SetPage(s, f, s.mem[f][k := w])
  }

  /** put_page of the held page f; false when there is no page for a new table. */
  function PutPage(s: State, f: nat, d: nat, t: nat): (r: (State, bool))
    requires Shape(s) && LOW <= f < |s.mem| && d < NDIR && t < PTRS
    ensures Shape(r.0)
  {
    var (s1, ok) := EnsureTable(s, d);
    if ok then (SetHeld(SetEntry(s1, d, t, UserRw(f)), f, 0), true) else (s1, false)
  }

  /** get_empty_page, with the freshly taken page given back when it cannot be placed. */
  function EmptyPage(s: State, d: nat, t: nat): (r: (State, bool))
    requires Shape(s) && d < NDIR && t < PTRS
    ensures Shape(r.0)
  {
    match FreeFrame(s)
    case None => (s, false)
    case Some(f) =>
      var (s1, ok) := PutPage(Taken(s, f), f, d, t);
      if ok then (s1, true) else (Release(s1, f), false)
  }

  /** free_page of a page the kernel holds. */
  function Release(s: State, f: nat): (r: State)
    requires Shape(s)
    ensures Shape(r)
  {
    if LOW <= f < s.high && Held(s, f) == 1 && Count(s, f) == 1 then SetHeld(FreePage(s, f), f, 0) else s
  }

  predicate Dirty(w: Word) {
    w.flags / 16 % 2 == 1
  }

  /** try_to_share of linear page (df, t) with (dt, t). The code calls oom when no page is left for
      the table, and otherwise returns 0 or 1. */
  datatype Shared = NotShared | IsShared | OutOfMemory

  function TryToShare(s: State, df: nat, dt: nat, t: nat): (r: (State, Shared))
    requires Shape(s) && df < NDIR && dt < NDIR && t < PTRS
    ensures Shape(r.0)
  {
    var w := Entry(s, df, t);
    if !s.dir[df].present || !w.present || Dirty(w) || w.frame >= s.high || w.frame < LOW then (s, NotShared)
    else
      var (s1, ok) := EnsureTable(s, dt);
      if !ok then (s1, OutOfMemory)
      else
        var s2 := SetEntry(s1, df, t, Protected(Entry(s1, df, t)));
        var s3 := SetEntry(s2, dt, t, Entry(s2, df, t));
        (SetCount(s3, w.frame, Inc(Count(s3, w.frame))), IsShared)
  }

  // ---------------------------------------------------------------- bits

  lemma WordBits(w: Word)
    ensures Dirty(w) <==> Bits(w) / 0x40 % 2 == 1
    ensures w.writable ==> Bits(Protected(w)) == Bits(w) - 2
    ensures !w.writable ==> Bits(Protected(w)) == Bits(w)
    ensures Bits(EMPTY) == 0 && forall f: nat :: Bits(UserRw(f)) == 0x1000 * f + 7
  {
    var x := (if w.present then 1 else 0) + if w.writable then 2 else 0;
    assert w.flags == 16 * (w.flags / 16) + w.flags % 16;
    assert Bits(w) == 0x40 * (w.flags / 16 + 0x40 * w.frame) + (4 * (w.flags % 16) + x);
    assert Bits(w) / 0x40 == w.flags / 16 + 0x40 * w.frame;
  }

  lemma SameWord(v: Word, w: Word)
    requires Bits(v) == Bits(w) && v.flags < 0x400 && w.flags < 0x400
    ensures v == w
  {
  }

  // ---------------------------------------------------------------- the invariant

  /** The task pages that map frame f. */
  ghost function Mappers(s: State, f: nat): set<(nat, nat)> {
    set d: nat, t: nat | SLOT_DIRS <= d < NDIR && t < PTRS && Entry(s, d, t).present
        && Entry(s, d, t).frame == f :: (d, t)
  }

  /** The task directory entries whose table is frame f. */
  ghost function Tables(s: State, f: nat): set<nat> {
    set d: nat | SLOT_DIRS <= d < NDIR && d < |s.dir| && s.dir[d].present && s.dir[d].frame == f
  }

  /** mem_map tells the truth about every page at or above LOW_MEM. */
  ghost predicate Counted(s: State) {
    forall f: nat {:trigger Mappers(s, f)} {:trigger Tables(s, f)} ::
      LOW <= f < |s.mem| ==> Count(s, f) == |Mappers(s, f)| + |Tables(s, f)| + Held(s, f)
  }

  ghost predicate TablesOk(s: State)
    requires Shape(s)
  {
    && (forall d: nat :: SLOT_DIRS <= d < NDIR && s.dir[d].present ==>
          LOW <= s.dir[d].frame < s.high && Count(s, s.dir[d].frame) == 1)
    && (forall d: nat :: d < SLOT_DIRS && s.dir[d].present ==> s.dir[d].frame < LOW)
  }

  /** A writable task entry maps a page that nothing else refers to. */
  ghost predicate EntriesOk(s: State) {
    forall d: nat, t: nat :: User(d) && Entry(s, d, t).present ==>
      var w := Entry(s, d, t);
      w.frame < s.high && (w.writable ==> LOW <= w.frame && Count(s, w.frame) == 1)
  }

  /** What the first fork copies is not counted. */
  ghost predicate KernelOk(s: State)
    requires Shape(s)
  {
    s.dir[0].present && forall t: nat :: t < KERNEL_ENTRIES && Entry(s, 0, t).present ==> Entry(s, 0, t).frame < LOW
  }

  /** All task mappings of one counted page sit at the same offset inside their task slots. */
  ghost predicate Aligned(s: State) {
    forall d: nat, t: nat, d': nat, t': nat ::
      User(d) && User(d') && Entry(s, d, t).present && Entry(s, d', t').present
      && Entry(s, d, t).frame == Entry(s, d', t').frame && LOW <= Entry(s, d, t).frame
      ==> Offset(d) == Offset(d') && t == t'
  }

  /** What the kernel holds it holds alone; beyond the end of memory it holds everything. */
  ghost predicate HeldOk(s: State) {
    forall f: nat {:trigger Held(s, f)} {:trigger Count(s, f)} :: LOW <= f < |s.mem| ==>
      && (Held(s, f) > 0 ==> Held(s, f) == Count(s, f) <= USED)
      && (s.high <= f ==> Held(s, f) > 1)
  }

  ghost predicate Sound(s: State)
    requires Shape(s)
  {
    Counted(s) && TablesOk(s) && EntriesOk(s) && KernelOk(s) && Aligned(s) && HeldOk(s)
  }

  ghost predicate Inv(s: State) {
    Shape(s) && Sound(s)
  }

  /** Every table lies within the data limit of a live task. */
  ghost predicate Limited(s: State)
    requires Shape(s)
  {
    && s.lim[0] == 1
    && (forall nr: nat :: nr < NR_TASKS ==> s.lim[nr] <= SLOT_DIRS)
    && (forall d: nat :: SLOT_DIRS <= d < NDIR && s.dir[d].present ==> Offset(d) < s.lim[Slot(d)])
  }

  // ---------------------------------------------------------------- the address spaces

  /** The linear pages whose contents are tracked: all task slots, and the part of the kernel's own
      mapping that the first fork copies. */
  predicate Tracked(d: nat, t: nat) {
    d < NDIR && t < PTRS && (SLOT_DIRS <= d || (d == 0 && t < KERNEL_ENTRIES))
  }

  /** What is read at linear page (d, t). */
  function View(s: State, d: nat, t: nat): Option<Page> {
    var w := Entry(s, d, t);
    if Tracked(d, t) && w.present && w.frame < |s.mem| then Some(s.mem[w.frame]) else None
  }

  ghost predicate SameViews(s: State, s': State) {
    forall d: nat, t: nat :: View(s', d, t) == View(s, d, t)
  }

  ghost predicate SameViewsBut(s: State, s': State, d: nat, t: nat) {
    forall d': nat, t': nat :: d' != d || t' != t ==> View(s', d', t') == View(s, d', t')
  }
}

/** copy_strings, the placing of the pages and create_tables of `fs/exec.c`. */
module ExecCode {
  import opened ExecImage

  /** Byte i of a C string, terminating 0 included. */
  function CharAt(s: seq<int>, i: nat): int
    requires i <= |s|
  {
    if i < |s| then s[i] else 0
  }

  class ArgPages {
    const image: array<int>      // byte x is byte x % PAGE_SIZE of page x / PAGE_SIZE
    const present: array<bool>   // whether that page has been allocated
    var avail: nat               // pages get_free_page can still give

    constructor (pages: nat)
      ensures image.Length == IMAGE && present.Length == MAX_ARG_PAGES && avail == pages
      ensures forall k :: 0 <= k < MAX_ARG_PAGES ==> !present[k]
    {
      image := new int[IMAGE](_ => 0);
      present := new bool[MAX_ARG_PAGES](_ => false);
      avail := pages;
    }

    ghost predicate Ok() {
      image.Length == IMAGE && present.Length == MAX_ARG_PAGES
    }

    /** The cached page pointer: below an offset of 0 the page must be looked up again. */
    ghost predicate Cached(p: int, offset: int, pag: int)
      requires Ok()
      reads this, present
    {
      offset > 0 ==> 0 <= pag < MAX_ARG_PAGES && pag * PAGE_SIZE + offset == p && offset < PAGE_SIZE && present[pag]
    }

    /** get_free_page: cleared, or none left. */
    method GetPage(k: nat) returns (ok: bool)
      requires Ok() && k < MAX_ARG_PAGES
      modifies this, image, present
      ensures ok <==> old(avail) > 0
      ensures ok ==> avail == old(avail) - 1 && present[..] == old(present[..])[k := true]
      ensures ok ==> forall x :: 0 <= x < IMAGE ==> image[x] == if x / PAGE_SIZE == k then 0 else old(image[x])
    {
      if avail == 0 { return false; }
      avail := avail - 1;
      forall x | 0 <= x < IMAGE && x / PAGE_SIZE == k { image[x] := 0; }
      present[k] := true;
      ok := true;
    }

    /** The next lower byte: lines 133-146 of the source. */
    method PutByte(p1: nat, offset0: int, pag0: int, b: int, ghost w: Before, ghost done: seq<int>)
      returns (ok: bool, p: nat, offset: int, pag: int)
      requires Ok() && 0 < p1 <= w.p0 && 0 <= offset0 && Cached(p1, offset0, pag0)
      requires Written(w, image[..], present[..], avail, p1, Low(p1, w.p0), done)
      modifies this, image, present
      ensures p == p1 - 1
      ensures ok ==> 0 <= offset && Cached(p, offset, pag)
      ensures ok ==> Written(w, image[..], present[..], avail, p, Low(p, w.p0), [b] + done)
      ensures !ok ==> High(w.p0) <= MAX_ARG_PAGES == |w.pres| && Absent(w.pres, Low(p, w.p0), High(w.p0)) > w.avail
    {
      hide Written, Absent, High, Low;
      WrittenFits(w, image[..], present[..], avail, p1, done);
      PageStep(w.pres, p1, w.p0);
      p := p1 - 1;
      offset, pag := offset0 - 1, pag0;
      if offset < 0 {
        offset := p % PAGE_SIZE;
        pag := p / PAGE_SIZE;
        ok := FindPage(pag, p1, w, done);
        if !ok { return; }
      } else {
        SamePage(w, image[..], present[..], avail, p1, done);
      }
      ok := true;
      StoreByte(pag * PAGE_SIZE + offset, b, w, done);
    }

    method StoreByte(p: nat, b: int, ghost w: Before, ghost done: seq<int>)
      requires Ok() && p < IMAGE && p < w.p0 && Written(w, image[..], present[..], avail, p + 1, p / PAGE_SIZE, done)
      modifies image
      ensures Written(w, image[..], present[..], avail, p, p / PAGE_SIZE, [b] + done)
    {
      hide Absent;
      image[p] := b;
    }

    /** Lines 138-141: the page of the next byte, allocated if need be. */
    method FindPage(pag: nat, p1: nat, ghost w: Before, ghost done: seq<int>) returns (ok: bool)
      requires Ok() && 0 < p1 <= w.p0 && pag == (p1 - 1) / PAGE_SIZE
      requires Written(w, image[..], present[..], avail, p1, Low(p1, w.p0), done)
      modifies this, image, present
      ensures ok ==> pag < MAX_ARG_PAGES && present[pag] && Written(w, image[..], present[..], avail, p1, pag, done)
      ensures !ok ==> pag <= High(w.p0) <= MAX_ARG_PAGES == |w.pres| && Absent(w.pres, pag, High(w.p0)) > w.avail
    {
      PageStep(w.pres, p1, w.p0);
      hide Absent;
      ok := true;
      if !present[pag] {
        ok := GetPage(pag);
      }
    }
  
    /** The length of a string with its 0: the do loop of copy_strings. */
    method Length(s: seq<int>) returns (len: nat)
      requires CString(s)
      ensures len == |s| + 1
    {
      len := 1;
      while CharAt(s, len - 1) != 0
        invariant 1 <= len <= |s| + 1
        decreases |s| + 1 - len
      {
        len := len + 1;
      }
    }

    /** One turn of the outer loop of copy_strings. */
    method CopyOne(s: seq<int>, p1: nat, offset0: int, pag0: int, ghost w: Before, ghost done: seq<int>)
      returns (ok: bool, p: nat, offset: int, pag: int)
      requires Ok() && CString(s) && |s| + 1 <= p1 <= w.p0 && 0 <= offset0 && Cached(p1, offset0, pag0)
      requires Written(w, image[..], present[..], avail, p1, Low(p1, w.p0), done)
      modifies this, image, present
      ensures ok ==> p == p1 - |s| - 1 && 0 <= offset && Cached(p, offset, pag)
      ensures ok ==> Written(w, image[..], present[..], avail, p, Low(p, w.p0), s + [0] + done)
      ensures !ok ==> p1 - |s| - 1 <= p <= w.p0 && High(w.p0) <= MAX_ARG_PAGES == |w.pres|
                      && Absent(w.pres, Low(p, w.p0), High(w.p0)) > w.avail
    {
      hide Written, Low, High, Absent, Cached;
      var len := Length(s);
      p, offset, pag := p1, offset0, pag0;
      ghost var z := s + [0];
      assert z[len..] + done == done;
      while len > 0
        invariant len <= |z| && p == p1 - |z| + len && 0 <= offset && Cached(p, offset, pag)
        invariant Written(w, image[..], present[..], avail, p, Low(p, w.p0), z[len..] + done)
      {
        len := len - 1;
        ok, p, offset, pag := PutByte(p, offset, pag, CharAt(s, len), w, z[len + 1..] + done);
        if !ok { return; }
        assert [z[len]] + (z[len + 1..] + done) == z[len..] + done;
      }
      ok := true;
      assert z[0..] + done == s + [0] + done;
    }

    /** copy_strings: 0 when a page cannot be had, else the address of the first string. The strings must fit. */
    method CopyStrings(strs: seq<seq<int>>, p0: nat) returns (r: nat)
      requires Ok() && CStrings(strs) && p0 <= IMAGE && (p0 != 0 ==> |Flat(strs)| < p0)
      modifies this, image, present
      ensures p0 == 0 ==>
        r == 0 && image[..] == old(image[..]) && present[..] == old(present[..]) && avail == old(avail)
      ensures p0 != 0 ==>
                && High(p0) <= MAX_ARG_PAGES == |old(present[..])|
                && (r == 0 <==> Absent(old(present[..]), Low(p0 - |Flat(strs)|, p0), High(p0)) > old(avail))
      ensures r != 0 ==>
                && r == p0 - |Flat(strs)|
                && Written(Before(old(image[..]), old(present[..]), old(avail), p0),
                           image[..], present[..], avail, r, Low(r, p0), Flat(strs))
    {
      if p0 == 0 { return 0; }
      ghost var w := Before(image[..], present[..], avail, p0);
      assert Written(w, image[..], present[..], avail, p0, Low(p0, p0), []);
      WrittenFits(w, image[..], present[..], avail, p0, []);
      LowGrows(w.pres, p0 - |Flat(strs)|, p0, p0);
      hide Written, Low, High, Absent;
      var p, offset, pag, argc := p0, 0, 0, |strs|;
      assert strs[argc..] == [];
      while argc > 0
        invariant argc <= |strs| && 0 <= offset && Cached(p, offset, pag) && p + |Flat(strs[argc..])| == p0
        invariant |Flat(strs[argc..])| <= |Flat(strs)|
        invariant Written(w, image[..], present[..], avail, p, Low(p, p0), Flat(strs[argc..]))
      {
        argc := argc - 1;
        assert strs[argc..][0] == strs[argc] && strs[argc..][1..] == strs[argc + 1..];
        FlatSuffix(strs, argc);
        var ok, q, o, g := CopyOne(strs[argc], p, offset, pag, w, Flat(strs[argc + 1..]));
        if !ok {
          LowGrows(w.pres, p0 - |Flat(strs)|, q, p0);
          return 0;
        }
        p, offset, pag := q, o, g;
      }
      assert strs[0..] == strs;
      WrittenFits(w, image[..], present[..], avail, p, Flat(strs));
      return p;
    }
  }

  // ---------------------------------------------------------------- the new program's memory

  /** change_ldt: the pages of the image become the top pages of the data segment. */
  method PlacePages(user: array<int>, image: array<int>, present: array<bool>)
    requires user.Length == DATA_LIMIT && image.Length == IMAGE && present.Length == MAX_ARG_PAGES && user != image
    modifies user
    ensures forall x :: 0 <= x < IMAGE && present[x / PAGE_SIZE] ==> user[BASE + x] == image[x]
    ensures forall y :: 0 <= y < DATA_LIMIT && (y < BASE || !present[(y - BASE) / PAGE_SIZE]) ==>
              user[y] == old(user[y])
  {
    var dataBase := DATA_LIMIT;
    var i := MAX_ARG_PAGES - 1;
    while i >= 0
      invariant -1 <= i < MAX_ARG_PAGES && dataBase == BASE + (i + 1) * PAGE_SIZE
      invariant forall x :: (i + 1) * PAGE_SIZE <= x < IMAGE && present[x / PAGE_SIZE] ==> user[BASE + x] == image[x]
      invariant forall y :: 0 <= y < DATA_LIMIT && (y < BASE || !present[(y - BASE) / PAGE_SIZE]) ==>
                  user[y] == old(user[y])
    {
      dataBase := dataBase - PAGE_SIZE;
      if present[i] {
        PutPage(user, dataBase, image, i * PAGE_SIZE);
      }
      i := i - 1;
    }
  }

  method PutPage(user: array<int>, at: nat, image: array<int>, from: nat)
    requires at + PAGE_SIZE <= user.Length && from + PAGE_SIZE <= image.Length && user != image
    modifies user
    ensures forall y :: 0 <= y < user.Length ==>
              user[y] == if at <= y < at + PAGE_SIZE then image[from + y - at] else old(user[y])
  {
    forall y | at <= y < at + PAGE_SIZE { user[y] := image[from + y - at]; }
  }

  /** put_fs_long. */
  method PutLong(user: array<int>, v: int, a: int)
    requires 0 <= a && a + 4 <= user.Length && 0 <= v < 0x1_0000_0000
    modifies user
    ensures GetLong(user[..], a) == v
    ensures forall x :: 0 <= x < user.Length && !(a <= x < a + 4) ==> user[x] == old(user[x])
  {
    var b := LongBytes(v);
    user[a], user[a + 1], user[a + 2], user[a + 3] := b[0], b[1], b[2], b[3];
    assert user[a..a + 4] == user[..][a..a + 4] == b;
    LongRoundTrip(user[..], a, v);
  }

  /** Past the end of a string and its 0: the inner loops of create_tables. */
  method SkipString(user: array<int>, p0: nat, ghost s: seq<int>) returns (p: nat)
    requires CString(s) && StringAt(user[..], p0, s)
    ensures p == p0 + |s| + 1
  {
    p := p0;
    forall i | 0 <= i < |s| ensures user[p0 + i] == s[i] { assert user[..][p0..p0 + |s|][i] == user[p0 + i]; }
    while user[p] != 0
      invariant p0 <= p <= p0 + |s|
      decreases p0 + |s| - p
    {
      p := p + 1;
    }
    p := p + 1;
  }

  /** The bytes outside the n words at t are as they were. */
  twostate predicate OnlyTable(user: array<int>, t: int, n: nat)
    reads user
  {
    forall x :: 0 <= x < user.Length && !(t <= x < t + 4 * n) ==> user[x] == old(user[x])
  }

  /** One of the two loops of create_tables, and the null word after it. */
  method FillTable(user: array<int>, t: nat, p0: nat, n: nat, ghost strs: seq<seq<int>>) returns (p: nat)
    requires user.Length == DATA_LIMIT && CStrings(strs) && n == |strs| && t + 4 * n + 4 <= p0 && 0 < p0
    requires p0 + |Flat(strs)| <= DATA_LIMIT && user[p0..p0 + |Flat(strs)|] == Flat(strs)
    modifies user
    ensures p == p0 + |Flat(strs)| && TableOver(user[..], t, p0, strs) && OnlyTable(user, t, n + 1)
  {
    hide Flat, GetLong;
    ghost var m := user[..];
    assert m[p0..p0 + |Flat(strs)|] == Flat(strs);
    StartEnd(strs);
    p := p0;
    var argv: nat, argc: nat := t, n;
    while argc > 0
      invariant argc <= n && argv == t + 4 * (n - argc) && p == p0 + Start(strs, n - argc)
      invariant Pointers(user[..], t, p0, strs, n - argc) && OnlyTable(user, t, n - argc)
    {
      SameSlice(m, user[..], p0, p0 + |Flat(strs)|);
      p := FillEntry(user, t, argv, p, p0, n - argc, strs);
      argv := argv + 4;
      argc := argc - 1;
    }
    ghost var was := user[..];
    PutLong(user, 0, argv);
    PointersFrame(was, user[..], t, p0, strs, n);
    SameSlice(m, user[..], p0, p0 + |Flat(strs)|);
  }

  /** One turn of such a loop. */
  method FillEntry(user: array<int>, ghost t: nat, argv: nat, p1: nat, ghost p0: nat, ghost k: nat,
                   ghost strs: seq<seq<int>>)
    returns (p: nat)
    requires user.Length == DATA_LIMIT && CStrings(strs) && k < |strs| && t + 4 * |strs| + 4 <= p0 && 0 < p0
    requires p0 + |Flat(strs)| <= DATA_LIMIT && user[..][p0..p0 + |Flat(strs)|] == Flat(strs)
    requires argv == t + 4 * k && p1 == p0 + Start(strs, k) && Pointers(user[..], t, p0, strs, k)
    modifies user
    ensures p == p0 + Start(strs, k + 1) && Pointers(user[..], t, p0, strs, k + 1)
    ensures forall x :: 0 <= x < user.Length && !(argv <= x < argv + 4) ==> user[x] == old(user[x])
  {
    ghost var was := user[..];
    OneString(was, p0, strs, k);
    FlatAt(strs, k);
    hide Flat, Start, Pointers, StringAt, GetLong;
    PutLong(user, p1, argv);
    MorePointers(was, user[..], t, p0, strs, k);
    SameString(was, user[..], p1, strs[k]);
    p := SkipString(user, p1, strs[k]);
  }

  /** The three words on top of the tables. */
  method PushHeader(user: array<int>, argv: nat, envp: nat, argc: nat, sp0: nat) returns (sp: nat)
    requires user.Length == DATA_LIMIT && 12 <= sp0 <= DATA_LIMIT
    requires argv < 0x1_0000_0000 && envp < 0x1_0000_0000 && argc < 0x1_0000_0000
    modifies user
    ensures sp == sp0 - 12 && OnlyTable(user, sp, 3)
    ensures GetLong(user[..], sp) == argc && GetLong(user[..], sp + 4) == argv && GetLong(user[..], sp + 8) == envp
  {
    PutLong(user, envp, sp0 - 4);
    ghost var m1 := user[..];
    PutLong(user, argv, sp0 - 8);
    ghost var m2 := user[..];
    SameLong(m1, m2, sp0 - 4);
    PutLong(user, argc, sp0 - 12);
    SameLong(m2, user[..], sp0 - 4);
    SameLong(m2, user[..], sp0 - 8);
    sp := sp0 - 12;
  }

  /** Both loops of create_tables. */
  method FillTables(user: array<int>, p: nat, argv: nat, envp: nat, argc: nat, envc: nat,
                    ghost args: seq<seq<int>>, ghost envs: seq<seq<int>>)
    requires user.Length == DATA_LIMIT && CStrings(args) && CStrings(envs) && argc == |args| && envc == |envs|
    requires 0 < p && p + |Flat(args)| + |Flat(envs)| <= DATA_LIMIT
    requires user[p..p + |Flat(args)|] == Flat(args)
    requires user[p + |Flat(args)|..p + |Flat(args)| + |Flat(envs)|] == Flat(envs)
    requires argv + 4 * (argc + 1) == envp && envp + 4 * (envc + 1) <= p
    modifies user
    ensures TableOver(user[..], argv, p, args) && TableOver(user[..], envp, p + |Flat(args)|, envs)
    ensures OnlyTable(user, argv, argc + envc + 2)
  {
    ghost var m0 := user[..];
    ghost var q0 := p + |Flat(args)|;
    var q := FillTable(user, argv, p, argc, args);
    ghost var m1 := user[..];
    SameSlice(m0, m1, q0, q0 + |Flat(envs)|);
    var r := FillTable(user, envp, q, envc, envs);
    TableFrame(m1, user[..], argv, p, args);
  }

  /** create_tables. */
  method CreateTables(user: array<int>, p: nat, argc: nat, envc: nat, ghost args: seq<seq<int>>,
                      ghost envs: seq<seq<int>>)
    returns (sp: nat)
    requires user.Length == DATA_LIMIT && CStrings(args) && CStrings(envs) && argc == |args| && envc == |envs|
    requires BASE < p && p + |Flat(args)| + |Flat(envs)| <= DATA_LIMIT
    requires user[p..p + |Flat(args)|] == Flat(args)
    requires user[p + |Flat(args)|..p + |Flat(args)| + |Flat(envs)|] == Flat(envs)
    modifies user
    ensures 0 < sp && sp % 4 == 0 && sp + 4 * (argc + envc + 5) <= p && Laid(user[..], sp, args, envs)
    ensures OnlyTable(user, sp, argc + envc + 5)
  {
    hide Flat, TableOver, TableAt, GetLong, Laid;
    StartEnd(args);
    StartEnd(envs);
    sp := p - p % 4 - 4 * (envc + 1);
    var envp := sp;
    sp := sp - 4 * (argc + 1);
    var argv := sp;
    ghost var m0, q := user[..], p + |Flat(args)|;
    sp := PushHeader(user, argv, envp, argc, sp);
    ghost var m1 := user[..];
    SameSlice(m0, m1, p, q);
    SameSlice(m0, m1, q, q + |Flat(envs)|);
    FillTables(user, p, argv, envp, argc, envc, args, envs);
    LaidFrom(m1, user[..], sp, args, envs, argv, p, envp, q);
  }

  /** A header, and the tables it names. */
  lemma LaidFrom(m1: seq<int>, m: seq<int>, sp: nat, args: seq<seq<int>>, envs: seq<seq<int>>,
                 argv: int, p: int, envp: int, q: int)
    requires sp + 12 <= |m1| == |m| && forall x :: sp <= x < sp + 12 ==> m[x] == m1[x]
    requires GetLong(m1, sp) == |args| && GetLong(m1, sp + 4) == argv && GetLong(m1, sp + 8) == envp
    requires TableOver(m, argv, p, args) && TableOver(m, envp, q, envs)
    ensures Laid(m, sp, args, envs)
  {
    hide Flat, TableOver, TableAt, GetLong;
    TableOverIsTable(m, argv, p, args);
    TableOverIsTable(m, envp, q, envs);
    SameLong(m1, m, sp);
    SameLong(m1, m, sp + 4);
    SameLong(m1, m, sp + 8);
  }

  /** do_execve, lines 311-312: environment, then arguments below it; 0 exactly when the pages they touch cannot
      all be had. */
  method CopyBoth(pages: ArgPages, args: seq<seq<int>>, envs: seq<seq<int>>) returns (p: nat)
    requires pages.Ok() && forall k :: 0 <= k < MAX_ARG_PAGES ==> !pages.present[k]
    requires CStrings(args) && CStrings(envs) && |Flat(args)| + |Flat(envs)| < TOP
    modifies pages, pages.image, pages.present
    ensures p == 0 <==> PagesTouched(|Flat(args)| + |Flat(envs)|) > old(pages.avail)
    ensures p != 0 ==> p == TOP - |Flat(args)| - |Flat(envs)| && pages.image[..][p..TOP] == Flat(args) + Flat(envs)
    ensures p != 0 ==> forall x :: p <= x < TOP ==> pages.present[..][x / PAGE_SIZE]
  {
    ghost var w := Before(pages.image[..], pages.present[..], pages.avail, TOP);
    ghost var e, a := |Flat(envs)|, |Flat(args)|;
    NoneThere(w.pres, e, a);
    hide Flat, Absent, Low, High;
    var q := pages.CopyStrings(envs, TOP);
    ghost var i1, s1, a1 := pages.image[..], pages.present[..], pages.avail;
    if q == 0 { return 0; }
    PagesNeeded(s1, TOP, TOP - e, TOP - e - a);
    p := pages.CopyStrings(args, q);
    if p != 0 {
      WrittenBelow(w, i1, s1, a1, q, Flat(envs), pages.image[..], pages.present[..], pages.avail, p, Flat(args));
    }
  }

  /** The rest, lines 333-334: the pages placed, the tables made. Unless a page cannot be had, the new program finds its
      arguments and its environment at the stack pointer. */
  method BuildImage(pages: ArgPages, user: array<int>, args: seq<seq<int>>, envs: seq<seq<int>>) returns (sp: nat)
    requires pages.Ok() && user.Length == DATA_LIMIT && user != pages.image
    requires forall k :: 0 <= k < MAX_ARG_PAGES ==> !pages.present[k]
    requires CStrings(args) && CStrings(envs) && |Flat(args)| + |Flat(envs)| < TOP
    modifies pages, pages.image, pages.present, user
    ensures sp == 0 <==> PagesTouched(|Flat(args)| + |Flat(envs)|) > old(pages.avail)
    ensures sp != 0 ==> Laid(user[..], sp, args, envs) && sp % 4 == 0
  {
    var p := CopyBoth(pages, args, envs);
    if p == 0 { return 0; }
    PlacePages(user, pages.image, pages.present);
    forall x | p <= x < TOP ensures user[BASE + x] == pages.image[x] { assert pages.present[..][x / PAGE_SIZE]; }
    PlacedStrings(user[..], pages.image[..], p, args, envs);
    TablesFit(args, envs);
    hide Flat, Laid;
    sp := CreateTables(user, p + DATA_LIMIT - IMAGE, |args|, |envs|, args, envs);
  }

  lemma {:induction false} FlatSuffix(strs: seq<seq<int>>, i: nat)
    requires i <= |strs|
    ensures |Flat(strs[i..])| <= |Flat(strs)|
    decreases i
  {
    if i > 0 {
      FlatSuffix(strs[1..], i - 1);
      assert strs[1..][i - 1..] == strs[i..];
    } else {
      assert strs[0..] == strs;
    }
  }

  lemma WrittenFits(w: Before, img: seq<int>, pres: seq<bool>, avail: nat, p: nat, done: seq<int>)
    requires p <= w.p0 && Written(w, img, pres, avail, p, Low(p, w.p0), done)
    ensures w.p0 <= IMAGE && High(w.p0) <= MAX_ARG_PAGES == |w.pres|
    ensures Absent(w.pres, Low(p, w.p0), High(w.p0)) <= w.avail
  {
  }

  /** The page of the next lower byte is there already. */
  lemma SamePage(w: Before, img: seq<int>, pres: seq<bool>, avail: nat, p1: nat, done: seq<int>)
    requires 0 < p1 <= w.p0 && Written(w, img, pres, avail, p1, Low(p1, w.p0), done)
    requires (p1 - 1) / PAGE_SIZE < |pres| && pres[(p1 - 1) / PAGE_SIZE]
    ensures Written(w, img, pres, avail, p1, (p1 - 1) / PAGE_SIZE, done)
  {
    PageStep(w.pres, p1, w.p0);
    hide Absent, Low;
  }

  lemma SameSlice(m: seq<int>, m2: seq<int>, a: nat, b: nat)
    requires a <= b <= |m| == |m2| && forall x :: a <= x < b ==> m2[x] == m[x]
    ensures m2[a..b] == m[a..b]
  {
  }

  lemma PointersFrame(m: seq<int>, m2: seq<int>, t: int, p: int, strs: seq<seq<int>>, n: nat)
    requires Pointers(m, t, p, strs, n) && |m2| == |m| && forall x :: t <= x < t + 4 * n ==> m2[x] == m[x]
    ensures Pointers(m2, t, p, strs, n)
  {
    forall k | 0 <= k < n ensures GetLong(m2, t + 4 * k) == GetLong(m, t + 4 * k) { SameLong(m, m2, t + 4 * k); }
  }

  lemma MorePointers(m: seq<int>, m2: seq<int>, t: int, p: int, strs: seq<seq<int>>, n: nat)
    requires Pointers(m, t, p, strs, n) && n < |strs| && t + 4 * n + 4 <= |m| == |m2|
    requires forall x :: t <= x < t + 4 * n ==> m2[x] == m[x]
    requires GetLong(m2, t + 4 * n) == p + Start(strs, n)
    ensures Pointers(m2, t, p, strs, n + 1)
  {
    PointersFrame(m, m2, t, p, strs, n);
  }

  lemma SameString(m: seq<int>, m2: seq<int>, q: int, s: seq<int>)
    requires StringAt(m, q, s) && |m2| == |m| && forall x :: q <= x <= q + |s| ==> m2[x] == m[x]
    ensures StringAt(m2, q, s)
  {
    SameSlice(m, m2, q, q + |s|);
  }

  lemma {:induction false} AllAbsent(pres: seq<bool>, a: nat, b: nat)
    requires a <= b <= |pres| && forall k :: a <= k < b ==> !pres[k]
    ensures Absent(pres, a, b) == b - a
    decreases b - a
  {
    if a < b { AllAbsent(pres, a + 1, b); }
  }

  /** The arguments need the pages below those the environment has touched. */
  lemma PagesNeeded(pres: seq<bool>, p0: nat, p1: nat, p2: nat)
    requires p2 <= p1 <= p0 <= IMAGE && |pres| == MAX_ARG_PAGES
    requires forall k :: 0 <= k < MAX_ARG_PAGES ==> (pres[k] <==> Low(p1, p0) <= k < High(p0))
    ensures High(p1) <= MAX_ARG_PAGES && Absent(pres, Low(p2, p1), High(p1)) == Low(p1, p0) - Low(p2, p0)
  {
    if p2 < p1 { AbsentBelow(pres, Low(p2, p1), Low(p1, p0), High(p1)); }
  }

  lemma {:induction false} AbsentBelow(pres: seq<bool>, a: nat, c: nat, b: nat)
    requires a <= c <= b <= |pres| && forall k :: a <= k < b ==> (pres[k] <==> c <= k)
    ensures Absent(pres, a, b) == c - a
    decreases b - a
  {
    if a < b { AbsentBelow(pres, a + 1, if c > a then c else a + 1, b); }
  }

  lemma PlacedStrings(m: seq<int>, img: seq<int>, p2: nat, args: seq<seq<int>>, envs: seq<seq<int>>)
    requires |m| == DATA_LIMIT && |img| == IMAGE && p2 + |Flat(args)| + |Flat(envs)| == TOP
    requires img[p2..TOP] == Flat(args) + Flat(envs)
    requires forall x :: p2 <= x < TOP ==> m[BASE + x] == img[x]
    ensures var p, q := BASE + p2, BASE + p2 + |Flat(args)|;
            m[p..q] == Flat(args) && m[q..q + |Flat(envs)|] == Flat(envs)
  {
    var f := Flat(args) + Flat(envs);
    var n := |Flat(args)|;
    hide Flat;
    forall i | 0 <= i < |f| ensures m[BASE + p2 + i] == f[i] { assert img[p2..TOP][i] == img[p2 + i]; }
    forall i | 0 <= i < |Flat(envs)| ensures m[BASE + p2 + n + i] == Flat(envs)[i] { assert f[n + i] == Flat(envs)[i]; }
    assert forall i :: 0 <= i < n ==> f[i] == Flat(args)[i];
  }

  lemma NoneThere(pres: seq<bool>, e: nat, a: nat)
    requires |pres| == MAX_ARG_PAGES && e + a <= TOP && forall k :: 0 <= k < MAX_ARG_PAGES ==> !pres[k]
    ensures Low(TOP - e - a, TOP) <= Low(TOP - e, TOP) <= High(TOP) == MAX_ARG_PAGES
    ensures PagesTouched(e + a) == High(TOP) - Low(TOP - e - a, TOP)
    ensures Absent(pres, Low(TOP - e, TOP), High(TOP)) == High(TOP) - Low(TOP - e, TOP)
  {
    AllAbsent(pres, Low(TOP - e, TOP), High(TOP));
  }

  lemma TablesFit(args: seq<seq<int>>, envs: seq<seq<int>>)
    requires |Flat(args)| + |Flat(envs)| < TOP
    ensures 4 * (|args| + |envs| + 8) < BASE
  {
    StartEnd(args);
    StartEnd(envs);
  }
}

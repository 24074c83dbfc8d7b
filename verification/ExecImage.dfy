/** The argument and environment image that `fs/exec.c` builds for a new program: its layout, and what can be
    read back from it. */
module ExecImage {
  const PAGE_SIZE := 4096
  const MAX_ARG_PAGES := 32
  const IMAGE := 131072            // MAX_ARG_PAGES * PAGE_SIZE
  const DATA_LIMIT := 0x400_0000   // 64 MB
  const BASE := 0x3FE_0000         // where the image starts in the new data segment: DATA_LIMIT - IMAGE

  const TOP := 131068              // copying starts here, one word below the end

  /** A C string, without its terminating 0. */
  ghost predicate CString(s: seq<int>) {
    forall i :: 0 <= i < |s| ==> 0 < s[i] < 256
  }

  ghost predicate CStrings(strs: seq<seq<int>>) {
    forall k :: 0 <= k < |strs| ==> CString(strs[k])
  }

  /** The strings one after the other, each with its 0. */
  function Flat(strs: seq<seq<int>>): seq<int> {
    if strs == [] then [] else strs[0] + [0] + Flat(strs[1..])
  }

  /** Where string k starts in that. */
  function Start(strs: seq<seq<int>>, k: nat): (n: nat)
    requires k <= |strs|
    ensures n <= |Flat(strs)|
  {
    if k == 0 then 0 else |strs[0]| + 1 + Start(strs[1..], k - 1)
  }

  lemma {:induction false} FlatAt(strs: seq<seq<int>>, k: nat)
    requires k < |strs|
    ensures Start(strs, k + 1) == Start(strs, k) + |strs[k]| + 1 <= |Flat(strs)|
    ensures Flat(strs)[Start(strs, k)..Start(strs, k + 1)] == strs[k] + [0]
    decreases k
  {
    if k == 0 {
      assert Start(strs, 1) == |strs[0]| + 1;
    } else {
      FlatAt(strs[1..], k - 1);
      SliceShift(strs[0] + [0], Flat(strs[1..]), Start(strs[1..], k - 1), Start(strs[1..], k));
    }
  }

  lemma SliceShift(a: seq<int>, b: seq<int>, i: nat, j: nat)
    requires i <= j <= |b|
    ensures (a + b)[|a| + i..|a| + j] == b[i..j]
  {
  }

  lemma {:induction false} StartEnd(strs: seq<seq<int>>)
    ensures Start(strs, |strs|) == |Flat(strs)| >= |strs|
  {
    if strs != [] { StartEnd(strs[1..]); }
  }

  // ---------------------------------------------------------------- memory

  function GetLong(m: seq<int>, a: int): int
    requires 0 <= a && a + 4 <= |m|
  {
    m[a] + 0x100 * m[a + 1] + 0x1_0000 * m[a + 2] + 0x100_0000 * m[a + 3]
  }

  /** The four bytes of a 32-bit word, lowest first. */
  function LongBytes(v: int): (b: seq<int>)
    ensures |b| == 4 && forall i :: 0 <= i < 4 ==> 0 <= b[i] < 256
  {
    [v % 0x100, v / 0x100 % 0x100, v / 0x1_0000 % 0x100, v / 0x100_0000 % 0x100]
  }

  lemma LongRoundTrip(m: seq<int>, a: int, v: int)
    requires 0 <= a && a + 4 <= |m| && 0 <= v < 0x1_0000_0000 && m[a..a + 4] == LongBytes(v)
    ensures GetLong(m, a) == v
  {
    var b := LongBytes(v);
    assert m[a] == m[a..a + 4][0] && m[a + 1] == m[a..a + 4][1] && m[a + 2] == m[a..a + 4][2]
           && m[a + 3] == m[a..a + 4][3];
    assert v / 0x1_0000 == v / 0x100 / 0x100 && v / 0x100_0000 == v / 0x1_0000 / 0x100;
  }

  /** A NUL-terminated copy of s at address a. */
  ghost predicate StringAt(m: seq<int>, a: int, s: seq<int>) {
    0 <= a && a + |s| < |m| && m[a..a + |s|] == s && m[a + |s|] == 0
  }

  /** A null-terminated table at t of pointers to copies of the strings. */
  ghost predicate TableAt(m: seq<int>, t: int, strs: seq<seq<int>>) {
    && 0 <= t && t + 4 * |strs| + 4 <= |m|
    && (forall k :: 0 <= k < |strs| ==> GetLong(m, t + 4 * k) != 0 && StringAt(m, GetLong(m, t + 4 * k), strs[k]))
    && GetLong(m, t + 4 * |strs|) == 0
  }

  /** What a new program finds at its stack pointer: argc, argv, envp. */
  ghost predicate Laid(m: seq<int>, sp: int, args: seq<seq<int>>, envs: seq<seq<int>>) {
    && 0 <= sp && sp + 12 <= |m|
    && GetLong(m, sp) == |args|
    && TableAt(m, GetLong(m, sp + 4), args)
    && TableAt(m, GetLong(m, sp + 8), envs)
  }

  lemma StringUnique(m: seq<int>, a: int, s: seq<int>, t: seq<int>)
    requires StringAt(m, a, s) && StringAt(m, a, t) && CString(s) && CString(t)
    ensures s == t
  {
    assert forall i :: 0 <= i < |t| ==> m[a + i] == m[a..a + |t|][i] == t[i];
    assert forall i :: 0 <= i < |s| ==> m[a + i] == m[a..a + |s|][i] == s[i];
    assert |s| == |t|;
  }

  lemma TableUnique(m: seq<int>, t: int, a: seq<seq<int>>, b: seq<seq<int>>)
    requires TableAt(m, t, a) && TableAt(m, t, b) && CStrings(a) && CStrings(b)
    ensures a == b
  {
    assert |a| == |b|;
    forall k | 0 <= k < |a| ensures a[k] == b[k] {
      StringUnique(m, GetLong(m, t + 4 * k), a[k], b[k]);
    }
  }

  /** The program can read back exactly one list of arguments and one environment. */
  lemma LaidIsUnique(m: seq<int>, sp: int, args: seq<seq<int>>, envs: seq<seq<int>>, args2: seq<seq<int>>,
                     envs2: seq<seq<int>>)
    requires Laid(m, sp, args, envs) && Laid(m, sp, args2, envs2)
    requires CStrings(args) && CStrings(envs) && CStrings(args2) && CStrings(envs2)
    ensures args == args2 && envs == envs2
  {
    TableUnique(m, GetLong(m, sp + 4), args, args2);
    TableUnique(m, GetLong(m, sp + 8), envs, envs2);
  }

  // ---------------------------------------------------------------- the pages of the image

  /** How many of the pages from a to b are not there. */
  ghost function Absent(present: seq<bool>, a: nat, b: nat): (n: nat)
    requires a <= b <= |present|
    ensures n <= b - a
    decreases b - a
  {
    if a == b then 0 else (if present[a] then 0 else 1) + Absent(present, a + 1, b)
  }

  lemma {:induction false} AbsentGrows(present: seq<bool>, a: nat, c: nat, b: nat)
    requires a <= c <= b <= |present|
    ensures Absent(present, a, b) >= Absent(present, c, b)
    decreases c - a
  {
    if a < c { AbsentGrows(present, a + 1, c, b); }
  }

  function High(p0: nat): nat {
    (p0 + PAGE_SIZE - 1) / PAGE_SIZE
  }

  /** The lowest page that bytes p to p0 touch. */
  function Low(p: nat, p0: nat): (k: nat)
    requires p <= p0
    ensures k <= High(p0)
  {
    if p == p0 then High(p0) else p / PAGE_SIZE
  }

  /** How many pages n bytes below the top lie in. */
  function PagesTouched(n: nat): int {
    if n == 0 then 0 else MAX_ARG_PAGES - (TOP - n) / PAGE_SIZE
  }

  /** What the image was, and how many pages could still be had, when writing started at p0. */
  datatype Before = Before(img: seq<int>, pres: seq<bool>, avail: nat, p0: nat)

  /** The state of the image part-way through writing downwards: the bytes from p to p0 are done, the pages from
      lo on that they touch are there, and nothing else has changed; a new page has been cleared. */
  ghost predicate Written(w: Before, img: seq<int>, pres: seq<bool>, avail: nat, p: nat, lo: nat, done: seq<int>) {
    && |w.img| == |img| == IMAGE && |w.pres| == |pres| == MAX_ARG_PAGES && p <= w.p0 <= IMAGE
    && img[p..w.p0] == done
    && lo <= High(w.p0) <= MAX_ARG_PAGES
    && (forall k :: 0 <= k < MAX_ARG_PAGES ==> (pres[k] <==> w.pres[k] || lo <= k < High(w.p0)))
    && (forall x :: 0 <= x < IMAGE && !(p <= x < w.p0) ==>
          img[x] == if !w.pres[x / PAGE_SIZE] && pres[x / PAGE_SIZE] then 0 else w.img[x])
    && avail + Absent(w.pres, lo, High(w.p0)) == w.avail
  }

  /** Going down by one byte onto a page that the writer has to look up. */
  lemma PageStep(pres0: seq<bool>, p1: nat, p0: nat)
    requires |pres0| == MAX_ARG_PAGES && 0 < p1 <= p0 <= IMAGE
    ensures var k := (p1 - 1) / PAGE_SIZE;
            && k < High(p0) <= MAX_ARG_PAGES && Low(p1 - 1, p0) == k <= Low(p1, p0) <= k + 1
            && Absent(pres0, k, High(p0))
               == Absent(pres0, Low(p1, p0), High(p0)) + if Low(p1, p0) == k + 1 && !pres0[k] then 1 else 0
  {
  }

  lemma LowGrows(pres: seq<bool>, p: nat, q: nat, p0: nat)
    requires |pres| == MAX_ARG_PAGES && p <= q <= p0 <= IMAGE
    ensures Low(p, p0) <= Low(q, p0) <= High(p0) <= MAX_ARG_PAGES
    ensures Absent(pres, Low(p, p0), High(p0)) >= Absent(pres, Low(q, p0), High(p0))
  {
    AbsentGrows(pres, Low(p, p0), Low(q, p0), High(p0));
  }

  /** Strings written below others leave those as they were. */
  lemma WrittenBelow(w: Before, img: seq<int>, pres: seq<bool>, avail: nat, p: nat, done: seq<int>,
                     img2: seq<int>, pres2: seq<bool>, avail2: nat, p2: nat, done2: seq<int>)
    requires p2 <= p <= w.p0 && Written(w, img, pres, avail, p, Low(p, w.p0), done)
    requires Written(Before(img, pres, avail, p), img2, pres2, avail2, p2, Low(p2, p), done2)
    ensures img2[p2..w.p0] == done2 + done
    ensures forall x :: p2 <= x < w.p0 ==> pres2[x / PAGE_SIZE]
  {
    hide Absent;
    forall x | p <= x < w.p0 ensures img2[x] == img[x] && pres2[x / PAGE_SIZE] {
      assert Low(p, w.p0) <= x / PAGE_SIZE < High(w.p0);
      assert pres[x / PAGE_SIZE];
    }
    forall x | p2 <= x < p ensures pres2[x / PAGE_SIZE] {
      assert Low(p2, p) <= x / PAGE_SIZE < High(p);
    }
    assert img2[p2..w.p0] == img2[p2..p] + img2[p..w.p0];
    assert img2[p..w.p0] == img[p..w.p0];
  }

  // ---------------------------------------------------------------- tables over flat strings

  ghost predicate Pointers(m: seq<int>, t: int, p: int, strs: seq<seq<int>>, n: nat) {
    && 0 <= t && t + 4 * n <= |m| && n <= |strs|
    && forall k :: 0 <= k < n ==> GetLong(m, t + 4 * k) == p + Start(strs, k)
  }

  /** A table of the addresses of the strings that lie one after the other at p. */
  ghost predicate TableOver(m: seq<int>, t: int, p: int, strs: seq<seq<int>>) {
    && 0 < p && p + |Flat(strs)| <= |m| && m[p..p + |Flat(strs)|] == Flat(strs)
    && t + 4 * |strs| + 4 <= |m| && Pointers(m, t, p, strs, |strs|) && GetLong(m, t + 4 * |strs|) == 0
  }

  lemma TableOverIsTable(m: seq<int>, t: int, p: int, strs: seq<seq<int>>)
    requires TableOver(m, t, p, strs)
    ensures TableAt(m, t, strs)
  {
    forall k | 0 <= k < |strs| ensures GetLong(m, t + 4 * k) != 0 && StringAt(m, GetLong(m, t + 4 * k), strs[k]) {
      FlatAt(strs, k);
      OneString(m, p, strs, k);
    }
  }

  lemma OneString(m: seq<int>, p: int, strs: seq<seq<int>>, k: nat)
    requires 0 < p && p + |Flat(strs)| <= |m| && m[p..p + |Flat(strs)|] == Flat(strs) && k < |strs|
    ensures StringAt(m, p + Start(strs, k), strs[k]) && p + Start(strs, k) + |strs[k]| + 1 <= |m|
    ensures m[p + Start(strs, k)..p + Start(strs, k) + |strs[k]| + 1] == strs[k] + [0]
  {
    hide Start, Flat, StringAt;
    FlatAt(strs, k);
    SliceOfSlice(m, p, Flat(strs), Start(strs, k), Start(strs, k + 1));
    var q, s := p + Start(strs, k), strs[k];
    assert p + Start(strs, k + 1) == q + |s| + 1;
    assert m[q..q + |s| + 1] == s + [0];
    StringFrom(m, q, s);
  }

  lemma SliceOfSlice(m: seq<int>, p: nat, f: seq<int>, a: nat, b: nat)
    requires p + |f| <= |m| && a <= b <= |f| && m[p..p + |f|] == f
    ensures m[p + a..p + b] == f[a..b]
  {
    forall i | a <= i < b ensures m[p + i] == f[i] { assert m[p..p + |f|][i] == m[p + i]; }
  }

  lemma StringFrom(m: seq<int>, q: nat, s: seq<int>)
    requires q + |s| + 1 <= |m| && m[q..q + |s| + 1] == s + [0]
    ensures StringAt(m, q, s)
  {
    var z := s + [0];
    forall i | 0 <= i <= |s| ensures m[q + i] == z[i] { assert m[q..q + |s| + 1][i] == m[q + i]; }
    assert z[|s|] == 0 && forall i :: 0 <= i < |s| ==> z[i] == s[i];
    assert m[q..q + |s|] == s;
  }

  lemma SameLong(m: seq<int>, m2: seq<int>, a: int)
    requires 0 <= a && a + 4 <= |m| == |m2| && forall x :: a <= x < a + 4 ==> m2[x] == m[x]
    ensures GetLong(m2, a) == GetLong(m, a)
  {
  }

  /** What lies elsewhere does not matter to a table. */
  lemma TableFrame(m: seq<int>, m2: seq<int>, t: int, p: int, strs: seq<seq<int>>)
    requires TableOver(m, t, p, strs) && |m2| == |m|
    requires forall x :: t <= x < t + 4 * |strs| + 4 || p <= x < p + |Flat(strs)| ==> m2[x] == m[x]
    ensures TableOver(m2, t, p, strs)
  {
    assert m2[p..p + |Flat(strs)|] == m[p..p + |Flat(strs)|];
    forall k | 0 <= k <= |strs| ensures GetLong(m2, t + 4 * k) == GetLong(m, t + 4 * k) {
      SameLong(m, m2, t + 4 * k);
    }
  }
}

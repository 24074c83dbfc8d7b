/** The request queue of a block device as a sequence of keys: the insertion rule of add_request, what
    it amounts to, and how long a request can wait. */
module Elevator {

  const DEVS: nat := 0x1_0000           // b_dev is an unsigned short
  const SECTORS: nat := 0x1_0000_0000   // sector is an unsigned long; even, two sectors a block

  datatype Key = Key(cmd: nat, dev: nat, sector: nat)

  predicate ValidKey(k: Key) {
    k.cmd < 2 && k.dev < DEVS && k.sector < SECTORS
  }

  /** The macro IN_ORDER: reads before writes, then by device, then by sector. */
  predicate InOrder(a: Key, b: Key) {
    a.cmd < b.cmd || (a.cmd == b.cmd && (a.dev < b.dev || (a.dev == b.dev && a.sector < b.sector)))
  }

  /** The position of a key in the key space. */
  function Rank(k: Key): nat {
    (k.cmd * DEVS + k.dev) * SECTORS + k.sector
  }

  lemma RankOrders(a: Key, b: Key)
    requires ValidKey(a) && ValidKey(b)
    ensures InOrder(a, b) <==> Rank(a) < Rank(b)
    ensures a == b <==> Rank(a) == Rank(b)
  {
  }

  // ---------------------------------------------------------------- insertion

  /** Where the scan of add_request stops, from position i on. */
  function Place(q: seq<Key>, r: Key, i: nat): (p: nat)
    requires i < |q|
    ensures i <= p < |q|
    decreases |q| - i
  {
    if i + 1 == |q| then i
    else if (InOrder(q[i], r) || !InOrder(q[i], q[i + 1])) && InOrder(r, q[i + 1]) then i
    else Place(q, r, i + 1)
  }

  function Insert(q: seq<Key>, r: Key): (q': seq<Key>)
    ensures |q'| == |q| + 1
  {
    if q == [] then [r]
    else
      var p := Place(q, r, 0);
      q[..p + 1] + [r] + q[p + 1..]
  }

  // ---------------------------------------------------------------- two sweeps

  ghost predicate Ascending(q: seq<Key>) {
    forall i, j :: 0 <= i < j < |q| ==> InOrder(q[i], q[j])
  }

  /** The current sweep is q[..c], the next one q[c..]; the drop between them is where the disk arm
      turns back. */
  ghost predicate Sweeps(q: seq<Key>, c: nat) {
    && 1 <= c <= |q|
    && Ascending(q[..c]) && Ascending(q[c..])
    && (c < |q| ==> InOrder(q[c], q[c - 1]))
  }

  /** Insertion into a sorted sweep. */
  function SortedInsert(q: seq<Key>, r: Key): (q': seq<Key>)
    ensures |q'| == |q| + 1
  {
    if q == [] || InOrder(r, q[0]) then [r] + q else [q[0]] + SortedInsert(q[1..], r)
  }

  /** Does a newcomer still join the current sweep? */
  predicate JoinsCurrent(q: seq<Key>, c: nat, r: Key)
    requires 1 <= c <= |q|
  {
    InOrder(q[0], r) && (c == |q| || InOrder(r, q[c - 1]))
  }

  /** The elevator as it is meant: a newcomer that the arm will still pass in the current sweep joins
      it, any other waits for the next; each sweep stays sorted. */
  function Elevate(q: seq<Key>, c: nat, r: Key): seq<Key>
    requires 1 <= c <= |q|
  {
    if JoinsCurrent(q, c, r) then SortedInsert(q[..c], r) + q[c..] else q[..c] + SortedInsert(q[c..], r)
  }

  /** Keys compared by IN_ORDER are totally ordered. */
  lemma Total(a: Key, b: Key)
    ensures a == b || InOrder(a, b) || InOrder(b, a)
    ensures !(InOrder(a, b) && InOrder(b, a)) && !InOrder(a, a)
  {
  }

  lemma {:induction false} SortedInsertPlaces(q: seq<Key>, r: Key) returns (p: nat)
    requires Ascending(q) && r !in q
    ensures p <= |q| && SortedInsert(q, r) == q[..p] + [r] + q[p..]
    ensures forall i :: 0 <= i < p ==> InOrder(q[i], r)
    ensures forall i :: p <= i < |q| ==> InOrder(r, q[i])
  {
    if q == [] || InOrder(r, q[0]) {
      p := 0;
      forall i | 0 <= i < |q| ensures InOrder(r, q[i]) {}
    } else {
      var p' := SortedInsertPlaces(q[1..], r);
      p := p' + 1;
      assert q[..p] == [q[0]] + q[1..][..p'];
      assert q[p..] == q[1..][p'..];
      Total(q[0], r);
      forall i | 0 <= i < p ensures InOrder(q[i], r) {
        if i > 0 { assert q[i] == q[1..][i - 1]; }
      }
      forall i | p <= i < |q| ensures InOrder(r, q[i]) {
        assert q[i] == q[1..][i - 1];
      }
    }
  }

  /** Insertion into a sorted sweep keeps it sorted. */
  lemma SortedInsertSorts(q: seq<Key>, r: Key)
    requires Ascending(q) && r !in q
    ensures Ascending(SortedInsert(q, r))
  {
    var p := SortedInsertPlaces(q, r);
  }

  // ---------------------------------------------------------------- the scan is the elevator

  /** In a sorted sweep there is one place for r. */
  lemma SortedInsertAt(s: seq<Key>, r: Key, k: nat)
    requires Ascending(s) && r !in s && k <= |s|
    requires k > 0 ==> InOrder(s[k - 1], r)
    requires k < |s| ==> InOrder(r, s[k])
    ensures SortedInsert(s, r) == s[..k] + [r] + s[k..]
  {
    var p := SortedInsertPlaces(s, r);
    if p < k {
      Total(s[k - 1], r);
    } else if k < p {
      Total(s[k], r);
    }
  }

  /** Scanning a sorted stretch q[i..hi] from an element before r, when r belongs in it, finds the last
      element before r. */
  lemma {:induction false} ScanSorted(q: seq<Key>, hi: nat, r: Key, i: nat)
    requires i < hi <= |q| && Ascending(q[i..hi]) && InOrder(q[i], r) && r !in q
    requires hi == |q| || InOrder(r, q[hi - 1])
    ensures var p := Place(q, r, i);
            i <= p < hi && InOrder(q[p], r) && (p + 1 < hi ==> InOrder(r, q[p + 1]))
    decreases hi - i
  {
    Total(q[i], r);
    if i + 1 < hi {
      Total(q[i + 1], r);
      assert InOrder(q[i..hi][0], q[i..hi][1]);
      if !InOrder(r, q[i + 1]) {
        assert q[i + 1..hi] == q[i..hi][1..];
        ScanSorted(q, hi, r, i + 1);
      }
    }
  }

  /** Scanning a stretch of the current sweep that r does not belong to runs on to the drop. */
  lemma {:induction false} ScanPast(q: seq<Key>, c: nat, r: Key, i: nat)
    requires Sweeps(q, c) && i < c && r !in q && !JoinsCurrent(q, c, r)
    ensures Place(q, r, i) == if c == |q| || InOrder(r, q[c]) then c - 1 else Place(q, r, c)
    decreases c - i
  {
    Total(q[i], r);
    assert i > 0 ==> InOrder(q[..c][0], q[..c][i]);
    if i + 1 < c {
      assert InOrder(q[..c][i], q[..c][i + 1]);
      assert InOrder(q[..c][i + 1], q[..c][c - 1]) || i + 1 == c - 1;
      ScanPast(q, c, r, i + 1);
    } else if c < |q| {
      Total(q[c], r);
      Total(q[c - 1], q[c]);
    }
  }

  lemma InsertBeforeCut<T>(q: seq<T>, c: nat, k: nat, r: T)
    requires k <= c <= |q|
    ensures q[..k] + [r] + q[k..] == q[..c][..k] + [r] + q[..c][k..] + q[c..]
  {
    assert q[..c][..k] == q[..k];
    assert q[k..] == q[..c][k..] + q[c..];
  }

  lemma PlacedInCurrent(q: seq<Key>, c: nat, r: Key, p: nat)
    requires Sweeps(q, c) && r !in q && p < c && InOrder(q[p], r) && (p + 1 < c ==> InOrder(r, q[p + 1]))
    ensures q[..p + 1] + [r] + q[p + 1..] == SortedInsert(q[..c], r) + q[c..]
  {
    hide SortedInsert;
    SortedInsertAt(q[..c], r, p + 1);
    InsertBeforeCut(q, c, p + 1, r);
  }

  lemma PlacedInNext(q: seq<Key>, c: nat, r: Key, p: nat)
    requires Sweeps(q, c) && r !in q && c - 1 <= p < |q| && (c <= p ==> InOrder(q[p], r))
               && (p + 1 < |q| ==> InOrder(r, q[p + 1]))
    ensures q[..p + 1] + [r] + q[p + 1..] == q[..c] + SortedInsert(q[c..], r)
  {
    SortedInsertAt(q[c..], r, p + 1 - c);
    assert q[..p + 1] == q[..c] + q[c..][..p + 1 - c];
  }

  /** The insertion loop of add_request is the elevator. */
  lemma InsertIsElevate(q: seq<Key>, c: nat, r: Key)
    requires Sweeps(q, c) && r !in q
    ensures Insert(q, r) == Elevate(q, c, r)
  {
    hide SortedInsert, Place, JoinsCurrent, InOrder, Insert;
    if JoinsCurrent(q, c, r) { InCurrent(q, c, r); } else { InNext(q, c, r); }
  }

  lemma InCurrent(q: seq<Key>, c: nat, r: Key)
    requires Sweeps(q, c) && r !in q && JoinsCurrent(q, c, r)
    ensures Insert(q, r) == SortedInsert(q[..c], r) + q[c..]
  {
    hide SortedInsert;
    assert q[0..c] == q[..c];
    ScanSorted(q, c, r, 0);
    PlacedInCurrent(q, c, r, Place(q, r, 0));
  }

  lemma InNext(q: seq<Key>, c: nat, r: Key)
    requires Sweeps(q, c) && r !in q && !JoinsCurrent(q, c, r)
    ensures Insert(q, r) == q[..c] + SortedInsert(q[c..], r)
  {
    hide SortedInsert;
    ScanPast(q, c, r, 0);
    if !(c == |q| || InOrder(r, q[c])) {
      Total(q[c], r);
      assert q[c..|q|] == q[c..];
      ScanSorted(q, |q|, r, c);
    }
    PlacedInNext(q, c, r, Place(q, r, 0));
  }

  function NewCut(q: seq<Key>, c: nat, r: Key): nat
    requires 1 <= c <= |q|
  {
    if JoinsCurrent(q, c, r) then c + 1 else c
  }

  lemma InsertAdds(q: seq<Key>, r: Key)
    ensures multiset(Insert(q, r)) == multiset(q) + multiset{r}
    ensures q != [] ==> Insert(q, r)[0] == q[0]
  {
    if q != [] {
      var p := Place(q, r, 0);
      assert q == q[..p + 1] + q[p + 1..];
    }
  }

  /** Insertion keeps two sorted sweeps, the head where it is and, when there is a next sweep, the end
      of the current one where it is. */
  lemma InsertKeepsSweeps(q: seq<Key>, c: nat, r: Key)
    requires Sweeps(q, c) && r !in q
    ensures var q' := Insert(q, r); var c' := NewCut(q, c, r);
            && Sweeps(q', c') && q'[0] == q[0] && multiset(q') == multiset(q) + multiset{r}
            && (c < |q| ==> q'[c' - 1] == q[c - 1])
  {
    InsertIsElevate(q, c, r);
    InsertAdds(q, r);
    if JoinsCurrent(q, c, r) {
      CurrentKept(q, c, r);
    } else {
      NextKept(q, c, r);
    }
  }

  lemma CurrentKept(q: seq<Key>, c: nat, r: Key)
    requires Sweeps(q, c) && r !in q && JoinsCurrent(q, c, r)
    ensures var q' := Elevate(q, c, r); Sweeps(q', c + 1) && (c < |q| ==> q'[c] == q[c - 1])
  {
    var p := SortedInsertPlaces(q[..c], r);
    var s := SortedInsert(q[..c], r);
    SortedInsertSorts(q[..c], r);
    var q' := Elevate(q, c, r);
    assert q'[..c + 1] == s && q'[c + 1..] == q[c..];
    if c < |q| {
      Total(r, q[c - 1]);
      assert q[..c][c - 1] == q[c - 1];
      assert s[c] == q[c - 1];
      assert q'[c + 1] == q[c];
    }
  }

  lemma NextKept(q: seq<Key>, c: nat, r: Key)
    requires Sweeps(q, c) && r !in q && !JoinsCurrent(q, c, r)
    ensures var q' := Elevate(q, c, r); Sweeps(q', c) && q'[c - 1] == q[c - 1]
  {
    var p := SortedInsertPlaces(q[c..], r);
    var s := SortedInsert(q[c..], r);
    SortedInsertSorts(q[c..], r);
    var q' := Elevate(q, c, r);
    assert q'[..c] == q[..c] && q'[c..] == s;
    assert s[0] == if p == 0 then r else q[c];
    Total(q[0], r);
    Total(q[c - 1], r);
    if p == 0 {
      if c < |q| {
        assert InOrder(r, q[c..][0]);
      } else {
        assert c > 1 ==> InOrder(q[..c][0], q[..c][c - 1]);
      }
    }
  }

  // ---------------------------------------------------------------- the queue over time

  predicate SameBlock(a: Key, b: Key) {
    a.dev == b.dev && a.sector / 2 == b.sector / 2
  }

  function FirstDrop(q: seq<Key>, i: nat): (c: nat)
    requires 1 <= i <= |q|
    ensures i <= c <= |q|
    decreases |q| - i
  {
    if i == |q| || InOrder(q[i], q[i - 1]) then i else FirstDrop(q, i + 1)
  }

  /** Where the current sweep ends. */
  function Cut(q: seq<Key>): nat
    requires q != []
  {
    FirstDrop(q, 1)
  }

  lemma {:induction false} CutOfSweeps(q: seq<Key>, c: nat, i: nat)
    requires Sweeps(q, c) && 1 <= i <= c
    ensures FirstDrop(q, i) == c
    decreases c - i
  {
    if i < c {
      assert InOrder(q[..c][i - 1], q[..c][i]);
      Total(q[i - 1], q[i]);
      CutOfSweeps(q, c, i + 1);
    }
  }

  /** Queued requests are for different blocks, because each holds the lock of the one buffer of its
      block; only the request being served may be past its first sector. */
  ghost predicate Queue(q: seq<Key>) {
    && (forall i :: 0 <= i < |q| ==> ValidKey(q[i]))
    && (forall i :: 1 <= i < |q| ==> q[i].sector % 2 == 0)
    && (forall i, j :: 0 <= i < j < |q| ==> !SameBlock(q[i], q[j]))
    && (q != [] ==> Sweeps(q, Cut(q)))
  }

  datatype Event = Arrive(r: Key) | Advance | Complete

  ghost predicate Possible(q: seq<Key>, e: Event) {
    match e
    case Arrive(r) => ValidKey(r) && r.sector % 2 == 0 && forall i :: 0 <= i < |q| ==> !SameBlock(q[i], r)
    case Advance => q != [] && q[0].sector % 2 == 0
    case Complete => q != []
  }

  /** add_request, the sector count of a transfer in progress, end_request. */
  function Apply(q: seq<Key>, e: Event): seq<Key> {
    match e
    case Arrive(r) => Insert(q, r)
    case Advance => if q == [] then q else q[0 := q[0].(sector := q[0].sector + 1)]
    case Complete => if q == [] then q else q[1..]
  }

  /** The position of the request that was at position j. */
  function Moved(q: seq<Key>, e: Event, j: nat): nat
    requires j < |q|
  {
    match e
    case Arrive(r) => if j <= Place(q, r, 0) then j else j + 1
    case Advance => j
    case Complete => if j == 0 then 0 else j - 1
  }

  /** How much of the key space can still be served before position j: what is left of the current
      sweep up to j, or all of it and what lies below j's key in the next one. */
  function Wait(q: seq<Key>, j: nat): int
    requires j < |q|
  {
    var c := Cut(q);
    if j < c then Rank(q[j]) - Rank(q[0])
    else Rank(q[c - 1]) - Rank(q[0]) + 1 + Rank(q[j])
  }

  lemma ArrivalKeepsQueue(q: seq<Key>, r: Key)
    requires Queue(q) && Possible(q, Arrive(r))
    ensures Queue(Insert(q, r))
    ensures q != [] ==> Cut(Insert(q, r)) == NewCut(q, Cut(q), r)
  {
    var q' := Insert(q, r);
    if q == [] {
      assert Sweeps(q', 1);
    } else {
      var c := Cut(q);
      InsertKeepsSweeps(q, c, r);
      CutOfSweeps(q', NewCut(q, c, r), 1);
      InsertKeepsBlocks(q, r);
    }
  }

  lemma InsertKeepsBlocks(q: seq<Key>, r: Key)
    requires q != [] && ValidKey(r) && r.sector % 2 == 0
    requires forall i :: 0 <= i < |q| ==> ValidKey(q[i]) && !SameBlock(q[i], r)
    requires forall i :: 1 <= i < |q| ==> q[i].sector % 2 == 0
    requires forall i, j :: 0 <= i < j < |q| ==> !SameBlock(q[i], q[j])
    ensures var q' := Insert(q, r);
            && (forall i :: 0 <= i < |q'| ==> ValidKey(q'[i]))
            && (forall i :: 1 <= i < |q'| ==> q'[i].sector % 2 == 0)
            && (forall i, j :: 0 <= i < j < |q'| ==> !SameBlock(q'[i], q'[j]))
  {
    var q', p := Insert(q, r), Place(q, r, 0);
    forall i | 0 <= i < |q'| ensures q'[i] == if i <= p then q[i] else if i == p + 1 then r else q[i - 1] {}
  }

  lemma ArrivalKeepsWait(q: seq<Key>, r: Key, j: nat)
    requires Queue(q) && Possible(q, Arrive(r)) && j < |q|
    ensures var j' := Moved(q, Arrive(r), j); var q' := Insert(q, r);
            j' < |q'| && q'[j'] == q[j] && q'[0] == q[0] && Wait(q', j') == Wait(q, j)
  {
    hide Queue, Sweeps, InOrder, SameBlock, Rank, JoinsCurrent, Place, Insert, Possible, Cut;
    var c := Cut(q);
    ArrivalKeepsQueue(q, r);
    NewBlock(q, r);
    InsertKeepsSweeps(q, c, r);
    PlaceSide(q, c, r);
    InsertAt(q, r, j);
  }

  lemma NewBlock(q: seq<Key>, r: Key)
    requires Queue(q) && Possible(q, Arrive(r)) && q != []
    ensures r !in q && Sweeps(q, Cut(q)) && 1 <= Cut(q) <= |q|
  {
  }

  lemma InsertAt(q: seq<Key>, r: Key, j: nat)
    requires j < |q|
    ensures Moved(q, Arrive(r), j) < |Insert(q, r)| && Insert(q, r)[Moved(q, Arrive(r), j)] == q[j]
    ensures Insert(q, r)[0] == q[0]
  {
  }

  /** A newcomer to the current sweep is placed in it, any other behind it. */
  lemma PlaceSide(q: seq<Key>, c: nat, r: Key)
    requires Sweeps(q, c) && r !in q
    ensures JoinsCurrent(q, c, r) ==> Place(q, r, 0) < c
    ensures !JoinsCurrent(q, c, r) ==> Place(q, r, 0) >= c - 1
  {
    if JoinsCurrent(q, c, r) {
      assert q[0..c] == q[..c];
      ScanSorted(q, c, r, 0);
    } else {
      ScanPast(q, c, r, 0);
    }
  }

  lemma AdvanceKeepsSweeps(q: seq<Key>)
    requires Queue(q) && Possible(q, Advance)
    ensures Sweeps(Apply(q, Advance), Cut(q))
  {
    var q', c := Apply(q, Advance), Cut(q);
    forall j | 1 <= j < c ensures InOrder(q'[0], q'[j]) {
      assert InOrder(q[..c][0], q[..c][j]);
      assert !SameBlock(q[0], q[j]);
    }
    assert q'[c..] == q[c..];
    forall i, j | 0 <= i < j < c ensures InOrder(q'[..c][i], q'[..c][j]) {
      assert InOrder(q[..c][i], q[..c][j]);
    }
  }

  lemma AdvanceKeepsQueue(q: seq<Key>)
    requires Queue(q) && Possible(q, Advance)
    ensures var q' := Apply(q, Advance);
            && Queue(q') && Cut(q') == Cut(q)
            && forall j :: 1 <= j < |q| ==> Wait(q', j) <= Wait(q, j)
  {
    var q', c := Apply(q, Advance), Cut(q);
    assert forall i :: 1 <= i < |q| ==> q'[i] == q[i];
    assert q'[0].sector / 2 == q[0].sector / 2;
    AdvanceKeepsSweeps(q);
    CutOfSweeps(q', c, 1);
    hide Sweeps;
  }

  lemma CompletionKeepsQueue(q: seq<Key>)
    requires Queue(q) && q != []
    ensures Queue(q[1..])
    ensures |q| > 1 ==> Cut(q[1..]) == if Cut(q) == 1 then |q| - 1 else Cut(q) - 1
    ensures forall j :: 1 <= j < |q| ==> Wait(q[1..], j - 1) < Wait(q, j)
  {
    if |q| > 1 {
      CompletedCut(q);
      if Cut(q) > 1 { SecondInSweep(q); }
    }
    hide Sweeps, InOrder, Rank;
  }

  lemma CompletedCut(q: seq<Key>)
    requires |q| > 1 && Sweeps(q, Cut(q))
    ensures var c' := if Cut(q) == 1 then |q| - 1 else Cut(q) - 1;
            1 <= c' <= |q[1..]| && Sweeps(q[1..], c') && Cut(q[1..]) == c'
  {
    var q', c := q[1..], Cut(q);
    var c' := if c == 1 then |q| - 1 else c - 1;
    if c == 1 {
      assert q'[..c'] == q[c..] && q'[c'..] == [];
    } else {
      assert q'[..c'] == q[..c][1..] && q'[c'..] == q[c..];
    }
    assert Sweeps(q', c');
    CutOfSweeps(q', c', 1);
  }

  lemma SecondInSweep(q: seq<Key>)
    requires Queue(q) && |q| > 1 && Cut(q) > 1
    ensures Rank(q[0]) < Rank(q[1])
  {
    assert InOrder(q[..Cut(q)][0], q[..Cut(q)][1]);
    RankOrders(q[0], q[1]);
  }

  /** Every event keeps the queue in two ascending sweeps of distinct keys; arrivals leave the head
      alone. */
  lemma EventKeepsQueue(q: seq<Key>, e: Event)
    requires Queue(q) && Possible(q, e)
    ensures Queue(Apply(q, e))
    ensures e.Arrive? && q != [] ==> Apply(q, e)[0] == q[0]
  {
    match e
    case Arrive(r) => ArrivalKeepsQueue(q, r); InsertAdds(q, r);
    case Advance => AdvanceKeepsQueue(q);
    case Complete => CompletionKeepsQueue(q);
  }

  // ---------------------------------------------------------------- bounded waiting

  /** A run during which the request at position j is not completed. */
  ghost predicate Pending(q: seq<Key>, j: nat, es: seq<Event>)
    decreases |es|
  {
    j < |q| && (es != [] ==>
      && Possible(q, es[0]) && !(es[0].Complete? && j == 0)
      && Pending(Apply(q, es[0]), Moved(q, es[0], j), es[1..]))
  }

  function Completions(es: seq<Event>): nat {
    if es == [] then 0 else (if es[0].Complete? then 1 else 0) + Completions(es[1..])
  }

  lemma WaitNonNegative(q: seq<Key>, j: nat)
    requires Queue(q) && j < |q|
    ensures 0 <= Wait(q, j)
  {
    var c := Cut(q);
    if 0 < j < c {
      assert InOrder(q[..c][0], q[..c][j]);
      RankOrders(q[0], q[j]);
    }
    if c > 1 {
      assert InOrder(q[..c][0], q[..c][c - 1]);
      RankOrders(q[0], q[c - 1]);
    }
  }

  /** One event never lengthens a wait, and a completion shortens it. */
  lemma EventShortensWait(q: seq<Key>, e: Event, j: nat)
    requires Queue(q) && Possible(q, e) && j < |q| && !(e.Complete? && j == 0)
    ensures var q' := Apply(q, e); var j' := Moved(q, e, j);
            && j' < |q'| && Queue(q')
            && Wait(q', j') + (if e.Complete? then 1 else 0) <= Wait(q, j)
  {
    EventKeepsQueue(q, e);
    match e
    case Arrive(r) => ArrivalKeepsWait(q, r, j);
    case Advance => AdvanceKeepsQueue(q);
    case Complete => CompletionKeepsQueue(q);
  }

  /** Bounded waiting: while a request is pending, however many others arrive, no more requests
      complete than the key space had room for when it was looked at. */
  lemma {:induction false} BoundedWaiting(q: seq<Key>, j: nat, es: seq<Event>)
    requires Queue(q) && Pending(q, j, es)
    ensures Completions(es) <= Wait(q, j)
    decreases |es|
  {
    if es == [] {
      WaitNonNegative(q, j);
    } else {
      EventShortensWait(q, es[0], j);
      BoundedWaiting(Apply(q, es[0]), Moved(q, es[0], j), es[1..]);
    }
  }

  /** The bound at arrival depends on the keys alone, not on how many requests are queued: at most two
      passes of the arm over the key space. */
  lemma WaitBound(q: seq<Key>, j: nat)
    requires Queue(q) && j < |q|
    ensures Wait(q, j) < 2 * (2 * DEVS * SECTORS)
  {
    var c := Cut(q);
    RankBound(q[j]);
    RankBound(q[c - 1]);
  }

  lemma RankBound(k: Key)
    requires ValidKey(k)
    ensures Rank(k) < 2 * DEVS * SECTORS
  {
  }
}

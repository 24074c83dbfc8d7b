/** `ll_rw_blk.c` and `blk.h`: the request slots, the linked queue of one device, and the buffer locks
    that keep its keys distinct. The queue's keys move exactly as module Elevator says. */
module BlockRequests {
  import opened Basics
  import opened Elevator

  datatype Buffer = Buffer(dev: nat, block: nat, uptodate: bool, dirt: bool, lock: bool)

  /** A slot of the request array; `dev` is -1 when it is free, `next` is -1 at the end of the list. */
  datatype Request = Request(dev: int, cmd: nat, sector: nat, bh: nat, next: int)

  const READ: nat := 0
  const WRITE: nat := 1
  const READA: nat := 2
  const WRITEA: nat := 3

  /** The slots, the buffers, the head of the device's list, and the slots on that list in order. */
  datatype Lists = Lists(req: seq<Request>, buf: seq<Buffer>, current: int, q: seq<nat>)

  function KeyOf(r: Request): Key {
    Key(r.cmd, if r.dev < 0 then 0 else r.dev, r.sector)
  }

  ghost predicate InRange(s: Lists) {
    SlotsIn(s.req, s.q)
  }

  ghost predicate SlotsIn(req: seq<Request>, q: seq<nat>) {
    forall i :: 0 <= i < |q| ==> q[i] < |req|
  }

  ghost function KeysOf(req: seq<Request>, q: seq<nat>): (k: seq<Key>)
    requires SlotsIn(req, q)
    ensures |k| == |q|
    ensures forall i {:trigger k[i]} :: 0 <= i < |q| ==> k[i] == KeyOf(req[q[i]])
  {
    seq(|q|, i requires 0 <= i < |q| => KeyOf(req[q[i]]))
  }

  /** The keys of the queue, in order. */
  ghost function Keys(s: Lists): seq<Key>
    requires InRange(s)
  {
    KeysOf(s.req, s.q)
  }

  /** The i-th request of the list points at the next one. */
  ghost predicate Chained(s: Lists, i: nat)
    requires InRange(s) && i < |s.q|
  {
    s.req[s.q[i]].next == At(s.q, i + 1)
  }

  function Nexts(req: seq<Request>): (n: seq<int>)
    ensures |n| == |req| && forall i :: 0 <= i < |req| ==> n[i] == req[i].next
  {
    seq(|req|, i requires 0 <= i < |req| => req[i].next)
  }

  /** The list threaded through the slots is q. */
  ghost predicate Threaded(s: Lists) {
    InRange(s) && NoDup(s.q) && Linked(Nexts(s.req), s.current, s.q)
  }

  lemma ThreadedIff(s: Lists)
    ensures Threaded(s) <==>
              InRange(s) && NoDup(s.q) && s.current == At(s.q, 0) && forall i: nat :: i < |s.q| ==> Chained(s, i)
  {
    LinkedIff(Nexts(s.req), s.current, s.q);
    if InRange(s) {
      assert forall i :: 0 <= i < |s.q| ==> Nexts(s.req)[s.q[i]] == s.req[s.q[i]].next;
      forall i: nat | i < |s.q| ensures Chained(s, i) <==> Nexts(s.req)[s.q[i]] == At(s.q, i + 1) {}
      if forall i: nat :: i < |s.q| ==> Chained(s, i) {
        forall i | 0 <= i < |s.q| ensures Nexts(s.req)[s.q[i]] == At(s.q, i + 1) { assert Chained(s, i); }
      }
    }
  }

  /** CURRENT is null exactly when nothing is queued. */
  lemma IdleIff(s: Lists)
    requires Threaded(s)
    ensures s.current == -1 <==> s.q == []
  {
  }

  /** A filled request is for a buffer that is locked, and says what the buffer says. */
  predicate Filled(s: Lists, slot: nat) {
    && slot < |s.req|
    && var r := s.req[slot];
    && r.bh < |s.buf| && s.buf[r.bh].lock
    && 0 < s.buf[r.bh].dev == r.dev < DEVS && r.cmd < 2
    && r.sector / 2 == s.buf[r.bh].block && r.sector / 2 * 2 + 1 < SECTORS
    && (|s.req| * 2 / 3 <= slot ==> r.cmd == READ)
  }

  /** What the buffer cache guarantees: no block has two buffers. */
  ghost predicate OneBufferPerBlock(buf: seq<Buffer>) {
    forall b, c :: 0 <= b < c < |buf| && buf[b].dev != 0 ==> buf[b].dev != buf[c].dev || buf[b].block != buf[c].block
  }

  ghost predicate Valid(s: Lists) {
    && Threaded(s)
    && (forall i :: 0 <= i < |s.q| ==> Filled(s, s.q[i]))
    && (forall i, j :: 0 <= i < j < |s.q| ==> s.req[s.q[i]].bh != s.req[s.q[j]].bh)
    && OneBufferPerBlock(s.buf)
    && Queue(Keys(s))
  }

  /** No request on the list is for buffer bh. */
  ghost predicate Unqueued(s: Lists, bh: nat)
    requires InRange(s)
  {
    forall i :: 0 <= i < |s.q| ==> s.req[s.q[i]].bh != bh
  }

  /** The lock makes keys distinct: a filled request whose buffer is not on the queue is for a block
      that is not on the queue. */
  lemma LocksKeepKeysDistinct(s: Lists, slot: nat)
    requires Valid(s) && Filled(s, slot) && s.req[slot].sector % 2 == 0 && Unqueued(s, s.req[slot].bh)
    ensures Possible(Keys(s), Arrive(KeyOf(s.req[slot])))
  {
    forall i | 0 <= i < |s.q| ensures !SameBlock(Keys(s)[i], KeyOf(s.req[slot])) {
      assert Filled(s, s.q[i]);
    }
  }

  // ---------------------------------------------------------------- list surgery

  /** The end of add_request: the slot is linked in behind the i-th request. */
  function Splice(s: Lists, slot: nat, i: nat): Lists
    requires i < |s.q| && s.q[i] < |s.req| && slot < |s.req|
  {
    var tmp := s.q[i];
    var req1 := s.req[slot := s.req[slot].(next := s.req[tmp].next)];
    s.(req := req1[tmp := req1[tmp].(next := slot)], q := s.q[..i + 1] + [slot] + s.q[i + 1..])
  }

  lemma SpliceOrder(s: Lists, slot: nat, i: nat)
    requires InRange(s) && i < |s.q| && slot < |s.req| && slot !in s.q
    ensures var s' := Splice(s, slot, i);
            && |s'.q| == |s.q| + 1 && |s'.req| == |s.req| && s'.buf == s.buf && s'.current == s.current
            && (forall j :: 0 <= j < |s'.q| ==>
                  s'.q[j] == if j <= i then s.q[j] else if j == i + 1 then slot else s.q[j - 1])
            && (forall x :: 0 <= x < |s.req| ==> s'.req[x] == s.req[x].(next :=
                  if x == s.q[i] then slot else if x == slot then s.req[s.q[i]].next else s.req[x].next))
  {
    assert s.q[i] != slot;
  }

  lemma SpliceLinks(s: Lists, slot: nat, i: nat)
    requires Threaded(s) && InRange(s) && i < |s.q| && slot < |s.req| && slot !in s.q
    ensures Threaded(Splice(s, slot, i))
  {
    SpliceOrder(s, slot, i);
    var s' := Splice(s, slot, i);
    hide Threaded, Splice, Chained;
    ThreadedIff(s);
    ThreadedIff(s');
    SpliceChained(s, slot, i, 0);
    SpliceNoDup(s.q, s'.q, slot, i);
    forall j: nat | j < |s'.q| ensures Chained(s', j) { SpliceChained(s, slot, i, j); }
  }

  lemma SpliceNoDup(q: seq<nat>, r: seq<nat>, slot: nat, i: nat)
    requires NoDup(q) && slot !in q && i < |q| && |r| == |q| + 1
    requires forall j {:trigger r[j]} ::
               0 <= j < |r| ==> r[j] == if j <= i then q[j] else if j == i + 1 then slot else q[j - 1]
    ensures NoDup(r)
  {
    forall j, k | 0 <= j < k < |r| ensures r[j] != r[k] {
      var j' := if j <= i then j else j - 1;
      var k' := if k <= i then k else k - 1;
      assert q[j'] in q && q[k'] in q;
      if j != i + 1 && k != i + 1 {
        assert r[j] == q[j'] && r[k] == q[k'];
      }
    }
  }

  lemma SpliceChained(s: Lists, slot: nat, i: nat, j: nat)
    requires InRange(s) && NoDup(s.q) && forall k: nat :: k < |s.q| ==> Chained(s, k)
    requires i < |s.q| && slot < |s.req| && slot !in s.q && j <= |s.q|
    ensures InRange(Splice(s, slot, i)) && |Splice(s, slot, i).q| == |s.q| + 1 && Chained(Splice(s, slot, i), j)
  {
    SpliceOrder(s, slot, i);
    hide Splice;
    assert s.q[i] in s.q;
    if j < i {
      assert Chained(s, j) && s.q[j] != s.q[i] && s.q[j] in s.q;
    } else if j == i {
      assert Splice(s, slot, i).q[i + 1] == slot;
    } else {
      assert Chained(s, j - 1);
      assert j > i + 1 ==> s.q[j - 1] != s.q[i] && s.q[j - 1] in s.q;
    }
  }

  lemma SpliceKeys(s: Lists, slot: nat, i: nat)
    requires Threaded(s) && i < |s.q| && slot < |s.req| && slot !in s.q
    ensures InRange(Splice(s, slot, i))
    ensures Keys(Splice(s, slot, i)) == Keys(s)[..i + 1] + [KeyOf(s.req[slot])] + Keys(s)[i + 1..]
  {
    SpliceOrder(s, slot, i);
    hide Splice, KeysOf;
    var s' := Splice(s, slot, i);
    var k, k' := Keys(s), Keys(s');
    forall j | 0 <= j < |k'| ensures k'[j] ==
      if j <= i then k[j] else if j == i + 1 then KeyOf(s.req[slot]) else k[j - 1] {
      assert k'[j] == KeyOf(s'.req[s'.q[j]]);
    }
  }

  lemma SpliceFills(s: Lists, slot: nat, i: nat)
    requires Valid(s) && i < |s.q| && slot !in s.q && Filled(s, slot) && Unqueued(s, s.req[slot].bh)
    ensures var s' := Splice(s, slot, i);
            && InRange(s')
            && (forall j :: 0 <= j < |s'.q| ==> Filled(s', s'.q[j]))
            && (forall j, k :: 0 <= j < k < |s'.q| ==> s'.req[s'.q[j]].bh != s'.req[s'.q[k]].bh)
  {
    SpliceOrder(s, slot, i);
    SpliceDistinct(s, slot, i);
    hide Queue, Splice, KeysOf;
    var s' := Splice(s, slot, i);
    forall j | 0 <= j < |s'.q| ensures s'.q[j] < |s'.req| && Filled(s', s'.q[j]) {
      assert Filled(s, s'.q[j]);
    }
  }

  /** No buffer is queued twice. */
  lemma SpliceDistinct(s: Lists, slot: nat, i: nat)
    requires InRange(s) && i < |s.q| && slot < |s.req| && slot !in s.q && Unqueued(s, s.req[slot].bh)
    requires forall j, k :: 0 <= j < k < |s.q| ==> s.req[s.q[j]].bh != s.req[s.q[k]].bh
    ensures var s' := Splice(s, slot, i);
            && InRange(s')
            && (forall j, k :: 0 <= j < k < |s'.q| ==> s'.req[s'.q[j]].bh != s'.req[s'.q[k]].bh)
  {
    SpliceOrder(s, slot, i);
    hide Splice;
    var s' := Splice(s, slot, i);
    forall j, k | 0 <= j < k < |s'.q| ensures s'.req[s'.q[j]].bh != s'.req[s'.q[k]].bh {
      var j' := if j <= i then j else j - 1;
      var k' := if k <= i then k else k - 1;
      if j != i + 1 && k != i + 1 { assert s.req[s.q[j']].bh != s.req[s.q[k']].bh; }
    }
  }

  /** add_request on a device that is busy. */
  lemma RequestAdded(s: Lists, slot: nat, i: nat)
    requires Valid(s) && s.q != [] && slot !in s.q && Filled(s, slot) && s.req[slot].sector % 2 == 0
    requires Unqueued(s, s.req[slot].bh) && i == Place(Keys(s), KeyOf(s.req[slot]), 0)
    ensures Valid(Splice(s, slot, i))
    ensures Keys(Splice(s, slot, i)) == Insert(Keys(s), KeyOf(s.req[slot]))
  {
    hide Queue, KeysOf, Place, Unqueued, OneBufferPerBlock, Chained, Splice;
    SpliceOrder(s, slot, i);
    LocksKeepKeysDistinct(s, slot);
    ArrivalKeepsQueue(Keys(s), KeyOf(s.req[slot]));
    SpliceLinks(s, slot, i);
    SpliceKeys(s, slot, i);
    SpliceFills(s, slot, i);
  }

  /** add_request on an idle device. */
  lemma RequestStarted(s: Lists, slot: nat)
    requires Valid(s) && s.q == [] && Filled(s, slot) && s.req[slot].sector % 2 == 0 && s.req[slot].next == -1
    ensures Valid(s.(current := slot, q := [slot]))
    ensures Keys(s.(current := slot, q := [slot])) == Insert(Keys(s), KeyOf(s.req[slot]))
  {
    LocksKeepKeysDistinct(s, slot);
    ArrivalKeepsQueue(Keys(s), KeyOf(s.req[slot]));
    assert Keys(s.(current := slot, q := [slot])) == [KeyOf(s.req[slot])];
  }

  /** A buffer may change its flags, except that one that is queued stays locked; it keeps its block. */
  lemma BufferChanged(s: Lists, b: nat, v: Buffer)
    requires Valid(s) && b < |s.buf| && v.dev == s.buf[b].dev && v.block == s.buf[b].block
    requires s.buf[b].lock && !v.lock ==> Unqueued(s, b)
    ensures Valid(s.(buf := s.buf[b := v]))
  {
    hide Queue, KeysOf;
    var s' := s.(buf := s.buf[b := v]);
    ThreadedIff(s);
    ThreadedIff(s');
    forall i: nat | i < |s.q| ensures Filled(s', s'.q[i]) && Chained(s', i) {
      assert Filled(s, s.q[i]) && Chained(s, i);
    }
    assert Keys(s') == Keys(s);
  }

  /** An unlocked buffer is not queued, and may be locked. */
  lemma LockTaken(s: Lists, b: nat)
    requires Valid(s) && b < |s.buf| && !s.buf[b].lock
    ensures Valid(s.(buf := s.buf[b := s.buf[b].(lock := true)]))
    ensures Unqueued(s.(buf := s.buf[b := s.buf[b].(lock := true)]), b)
  {
    BufferChanged(s, b, s.buf[b].(lock := true));
    forall i | 0 <= i < |s.q| ensures s.req[s.q[i]].bh != b { assert Filled(s, s.q[i]); }
    hide Queue, KeysOf;
  }

  /** A slot that is not on the list may be overwritten. */
  lemma SlotChanged(s: Lists, slot: nat, r: Request)
    requires Valid(s) && slot < |s.req| && slot !in s.q
    ensures Valid(s.(req := s.req[slot := r]))
    ensures Keys(s.(req := s.req[slot := r])) == Keys(s)
  {
    hide Queue, KeysOf;
    var s' := s.(req := s.req[slot := r]);
    ThreadedIff(s);
    ThreadedIff(s');
    forall i: nat | i < |s.q| ensures Filled(s', s'.q[i]) && Chained(s', i) {
      assert Filled(s, s.q[i]) && Chained(s, i);
    }
    assert Keys(s') == Keys(s);
  }

  /** The start of add_request: the slot's link is cleared and its buffer counts as clean from here on. */
  function Prepared(s: Lists, slot: nat): Lists
    requires slot < |s.req| && s.req[slot].bh < |s.buf|
  {
    var b := s.req[slot].bh;
    s.(req := s.req[slot := s.req[slot].(next := -1)], buf := s.buf[b := s.buf[b].(dirt := false)])
  }

  lemma RequestPrepared(s: Lists, slot: nat)
    requires Valid(s) && slot !in s.q && Filled(s, slot)
    ensures var s' := Prepared(s, slot);
            && Valid(s') && Filled(s', slot) && Keys(s') == Keys(s)
            && (Unqueued(s, s.req[slot].bh) ==> Unqueued(s', s.req[slot].bh))
  {
    var b := s.req[slot].bh;
    var s1 := s.(req := s.req[slot := s.req[slot].(next := -1)]);
    SlotChanged(s, slot, s.req[slot].(next := -1));
    BufferChanged(s1, b, s.buf[b].(dirt := false));
    assert Prepared(s, slot) == s1.(buf := s1.buf[b := s.buf[b].(dirt := false)]);
    hide Valid, KeysOf;
  }

  /** end_request: the head leaves, its buffer is unlocked. */
  function Finished(s: Lists, uptodate: bool): Lists
    requires s.q != [] && s.q[0] < |s.req| && s.req[s.q[0]].bh < |s.buf|
  {
    var r := s.req[s.q[0]];
    Lists(s.req[s.q[0] := r.(dev := -1)], s.buf[r.bh := s.buf[r.bh].(uptodate := uptodate, lock := false)], r.next,
        s.q[1..])
  }

  /** The head's buffer is unlocked and says how the transfer ended; the head's slot is free; no other buffer and no
      other slot has changed. */
  ghost predicate Released(s: Lists, r: Lists, uptodate: bool)
    requires s.q != [] && s.q[0] < |s.req| && s.req[s.q[0]].bh < |s.buf|
  {
    var slot, b := s.q[0], s.req[s.q[0]].bh;
    && |r.buf| == |s.buf| && |r.req| == |s.req| && r.q == s.q[1..] && r.current == s.req[slot].next
    && !r.buf[b].lock && r.buf[b].uptodate == uptodate && r.buf[b].dirt == s.buf[b].dirt
    && r.buf[b].dev == s.buf[b].dev && r.buf[b].block == s.buf[b].block
    && (forall c :: 0 <= c < |s.buf| && c != b ==> r.buf[c] == s.buf[c])
    && r.req[slot].dev == -1
    && (forall x :: 0 <= x < |s.req| && x != slot ==> r.req[x] == s.req[x])
  }

  lemma FinishedLinks(s: Lists, uptodate: bool)
    requires Threaded(s) && s.q != [] && s.req[s.q[0]].bh < |s.buf|
    ensures Threaded(Finished(s, uptodate)) && Keys(Finished(s, uptodate)) == Keys(s)[1..]
  {
    var s' := Finished(s, uptodate);
    ThreadedIff(s);
    ThreadedIff(s');
    hide Threaded;
    assert Chained(s, 0);
    forall i: nat | i < |s'.q| ensures s'.q[i] == s.q[i + 1] && Chained(s', i) {
      assert Chained(s, i + 1);
    }
    hide KeysOf;
    var k, k' := Keys(s), Keys(s');
    forall i | 0 <= i < |k'| ensures k'[i] == k[i + 1] {}
  }

  lemma FinishedFills(s: Lists, uptodate: bool)
    requires Valid(s) && s.q != []
    ensures Filled(s, s.q[0])
    ensures var s' := Finished(s, uptodate);
            && InRange(s')
            && (forall i :: 0 <= i < |s'.q| ==> Filled(s', s'.q[i]))
            && (forall i, j :: 0 <= i < j < |s'.q| ==> s'.req[s'.q[i]].bh != s'.req[s'.q[j]].bh)
  {
    hide Queue, KeysOf;
    assert Filled(s, s.q[0]);
    var s' := Finished(s, uptodate);
    forall i: nat | i < |s'.q| ensures s'.q[i] == s.q[i + 1] && Filled(s', s'.q[i]) {
      assert Filled(s, s.q[i + 1]);
    }
  }

  lemma FlagsKeepBlocks(buf: seq<Buffer>, b: nat, v: Buffer)
    requires OneBufferPerBlock(buf) && b < |buf| && v.dev == buf[b].dev && v.block == buf[b].block
    ensures OneBufferPerBlock(buf[b := v])
  {
    var buf' := buf[b := v];
    assert forall c :: 0 <= c < |buf| ==> buf'[c].dev == buf[c].dev && buf'[c].block == buf[c].block;
  }

  lemma FinishedReleases(s: Lists, uptodate: bool)
    requires s.q != [] && s.q[0] < |s.req| && s.req[s.q[0]].bh < |s.buf|
    ensures Released(s, Finished(s, uptodate), uptodate)
  {
  }

  lemma HeadFinished(s: Lists, uptodate: bool)
    requires Valid(s) && s.q != []
    ensures Filled(s, s.q[0])
    ensures Valid(Finished(s, uptodate)) && Keys(Finished(s, uptodate)) == Keys(s)[1..]
    ensures Released(s, Finished(s, uptodate), uptodate)
  {
    hide Queue, KeysOf, Threaded, Filled, OneBufferPerBlock, Released;
    HeadOnList(s);
    FinishedFills(s, uptodate);
    FinishedLinks(s, uptodate);
    FinishedReleases(s, uptodate);
    CompletionKeepsQueue(Keys(s));
    var b := s.req[s.q[0]].bh;
    FlagsKeepBlocks(s.buf, b, s.buf[b].(uptodate := uptodate, lock := false));
  }

  lemma HeadOnList(s: Lists)
    requires Valid(s) && s.q != []
    ensures s.current == s.q[0] < |s.req| && Filled(s, s.q[0]) && s.req[s.q[0]].bh < |s.buf|
  {
    ThreadedIff(s);
    hide Queue, KeysOf;
  }

  /** The head moves on to the second sector of its block. */
  function Advanced(s: Lists): Lists
    requires s.q != [] && s.q[0] < |s.req|
  {
    s.(req := s.req[s.q[0] := s.req[s.q[0]].(sector := s.req[s.q[0]].sector + 1)])
  }

  /** A head that has been moved past its last sector can be finished all the same. */
  lemma FinishAdvanced(s: Lists, r: Lists, uptodate: bool)
    requires Valid(s) && s.q != [] && s.q[0] < |s.req| && r == Advanced(s)
    ensures s.req[s.q[0]].bh < |s.buf|
    ensures var f := Finished(r, uptodate);
            Valid(f) && Keys(f) == Keys(s)[1..] && Released(s, f, uptodate)
  {
    hide Queue, KeysOf, Threaded, Filled, Valid, Finished, Advanced;
    HeadOnList(s);
    HeadFinished(s, uptodate);
    AdvancedApart(s, uptodate);
    var f, slot := Finished(s, uptodate), s.q[0];
    SlotChanged(f, slot, f.req[slot].(sector := f.req[slot].sector + 1));
  }

  lemma AdvancedApart(s: Lists, uptodate: bool)
    requires Valid(s) && s.q != [] && s.q[0] < |s.req| && s.req[s.q[0]].bh < |s.buf|
    ensures Advanced(s).q == s.q && |Advanced(s).req| == |s.req| && Advanced(s).req[s.q[0]].bh == s.req[s.q[0]].bh
    ensures Advanced(s).buf == s.buf
    ensures var f, slot := Finished(s, uptodate), s.q[0];
            && |f.req| == |s.req| && slot !in f.q
            && Finished(Advanced(s), uptodate) ==
                  f.(req := f.req[slot := f.req[slot].(sector := f.req[slot].sector + 1)])
  {
    hide Queue, KeysOf, Linked, Filled, OneBufferPerBlock;
    var f, slot := Finished(s, uptodate), s.q[0];
    assert Finished(Advanced(s), uptodate).req == f.req[slot := f.req[slot].(sector := f.req[slot].sector + 1)];
  }

  lemma AdvancedFills(s: Lists)
    requires Threaded(s) && s.q != [] && s.req[s.q[0]].sector % 2 == 0
    requires forall i :: 0 <= i < |s.q| ==> Filled(s, s.q[i])
    ensures Threaded(Advanced(s)) && forall i :: 0 <= i < |s.q| ==> Filled(Advanced(s), s.q[i])
  {
    var s' := Advanced(s);
    ThreadedIff(s);
    ThreadedIff(s');
    hide Threaded;
    forall i: nat | i < |s'.q| ensures Filled(s', s'.q[i]) && Chained(s', i) {
      assert Filled(s, s.q[i]) && Chained(s, i);
    }
  }

  lemma AdvancedKeys(s: Lists)
    requires Threaded(s) && s.q != [] && InRange(Advanced(s))
    ensures Keys(Advanced(s)) == Apply(Keys(s), Advance)
  {
    hide KeysOf;
    var k, k' := Keys(s), Keys(Advanced(s));
    forall i | 0 <= i < |k| ensures k'[i] == if i == 0 then k[0].(sector := k[0].sector + 1) else k[i] {}
  }

  lemma HeadAdvanced(s: Lists)
    requires Valid(s) && s.q != [] && s.req[s.q[0]].sector % 2 == 0
    ensures Valid(Advanced(s)) && Keys(Advanced(s)) == Apply(Keys(s), Advance)
  {
    AdvancedFills(s);
    AdvancedKeys(s);
    assert Keys(s)[0] == KeyOf(s.req[s.q[0]]);
    AdvanceKeepsQueue(Keys(s));
    hide Queue, KeysOf, Threaded, Filled;
  }

  // ---------------------------------------------------------------- the code

  datatype Outcome =
    | Queued(slot: nat)
    | NothingToDo         // the buffer is clean (write) or up to date (read), or read-ahead is not worth it
    | SleepOnLock         // lock_buffer sleeps: nothing has happened yet
    | SleepOnSlots        // sleeps on wait_for_request, holding the buffer's lock

  /** A write of a dirty buffer, or a read of one that is not up to date. */
  predicate Needed(rw: nat, b: Buffer) {
    if rw % 2 == WRITE then b.dirt else !b.uptodate
  }

  /** No slot is free among those the command may use: all for a read, the lower two thirds for a write. */
  predicate NoSlot(req: seq<Request>, rw: nat) {
    forall s :: 0 <= s < (if rw % 2 == READ then |req| else |req| * 2 / 3) ==> req[s].dev >= 0
  }

  /** Slot s, free before, now holds request v; only links of other slots have changed. */
  predicate TookSlot(was: seq<Request>, now: seq<Request>, s: nat, v: Request) {
    && |now| == |was| && s < |was| && was[s].dev < 0 && now[s] == v.(next := now[s].next)
    && forall x :: 0 <= x < |was| && x != s ==> now[x] == was[x].(next := now[x].next)
  }

  /** Every slot that is taken is on the list. */
  ghost predicate NoSlotLost(req: seq<Request>, q: seq<nat>) {
    forall x: nat :: x < |req| && req[x].dev >= 0 ==> x in q
  }

  lemma TakenIsQueued(was: seq<Request>, now: seq<Request>, q0: seq<nat>, q1: seq<nat>, s: nat, v: Request)
    requires TookSlot(was, now, s, v) && NoSlotLost(was, q0) && multiset(q1) == multiset(q0) + multiset{s}
    ensures NoSlotLost(now, q1)
  {
    assert s in multiset(q1);
    forall x: nat | x < |now| && now[x].dev >= 0 ensures x in q1 {
      if x != s { assert x in multiset(q0) && x in multiset(q1); }
    }
  }

  class Device {
    const request: array<Request>
    const buf: array<Buffer>
    var current: int
    ghost var q: seq<nat>

    ghost function S(): Lists
      reads this, request, buf
    {
      Lists(request[..], buf[..], current, q)
    }

    ghost predicate Ok()
      reads this, request, buf
    {
      request as object != buf && Valid(S())
    }

    constructor (slots: nat, buffers: seq<Buffer>)
      requires OneBufferPerBlock(buffers)
      ensures Ok() && q == [] && buf[..] == buffers && request.Length == slots && fresh(request) && fresh(buf)
      ensures (forall i :: 0 <= i < slots ==> request[i].dev == -1) && NoSlotLost(request[..], q)
    {
      request := new Request[slots](_ => Request(-1, 0, 0, 0, -1));
      buf := new Buffer[|buffers|](i requires 0 <= i < |buffers| => buffers[i]);
      current := -1;
      q := [];
      new;
      assert buf[..] == buffers;
      assert Keys(S()) == [];
    }

    /** add_request: the key of a filled slot is inserted by the elevator's rule. */
    method AddRequest(slot: nat)
      requires Ok() && slot !in q && Filled(S(), slot) && request[slot].sector % 2 == 0
      requires Unqueued(S(), request[slot].bh)
      modifies this`current, this`q, request, buf
      ensures Ok() && Keys(S()) == Insert(Keys(old(S())), KeyOf(old(request[slot])))
      ensures multiset(q) == multiset(old(q)) + multiset{slot}
      ensures forall s :: 0 <= s < request.Length ==> request[s] == old(request[s]).(next := request[s].next)
      ensures buf[..] == old(buf[..])[request[slot].bh := old(buf[request[slot].bh]).(dirt := false)]
    {
      hide Queue, KeysOf, Insert;
      ghost var s0 := S();
      RequestPrepared(s0, slot);
      hide Valid, Filled;
      request[slot] := request[slot].(next := -1);
      buf[request[slot].bh] := buf[request[slot].bh].(dirt := false);
      assert S() == Prepared(s0, slot);
      Enqueue(slot);
    }

    /** The rest of add_request: an idle device starts, a busy one has the request spliced in. */
    method Enqueue(slot: nat)
      requires Ok() && slot !in q && Filled(S(), slot) && request[slot].sector % 2 == 0
      requires Unqueued(S(), request[slot].bh) && request[slot].next == -1
      modifies this`current, this`q, request
      ensures Ok() && Keys(S()) == Insert(Keys(old(S())), KeyOf(old(request[slot])))
      ensures multiset(q) == multiset(old(q)) + multiset{slot}
      ensures forall s :: 0 <= s < request.Length ==> request[s] == old(request[s]).(next := request[s].next)
    {
      hide Queue, KeysOf, Insert, Place, Threaded;
      ghost var s := S();
      IdleIff(s);
      if current == -1 {
        RequestStarted(s, slot);
        current := slot;
        q := [slot];
        return;
      }
      var tmp, i := FindPlace(slot);
      RequestAdded(s, slot, i);
      SpliceIn(slot, tmp, i);
      assert s.q == s.q[..i + 1] + s.q[i + 1..];
    }

    /** The scan of add_request. */
    method FindPlace(slot: nat) returns (tmp: nat, ghost i: nat)
      requires Threaded(S()) && q != [] && slot < request.Length
      ensures i == Place(Keys(S()), KeyOf(request[slot]), 0) < |q|
                && tmp == q[Place(Keys(S()), KeyOf(request[slot]), 0)]
    {
      hide KeysOf, InOrder;
      ThreadedIff(S());
      tmp := current;
      i := 0;
      assert Chained(S(), 0);
      while request[tmp].next != -1 && !Between(tmp, slot, request[tmp].next)
        invariant 0 <= i < |q| && tmp == q[i] && Chained(S(), i)
        invariant Place(Keys(S()), KeyOf(request[slot]), 0) == Place(Keys(S()), KeyOf(request[slot]), i)
        decreases |q| - i
      {
        tmp := request[tmp].next;
        i := i + 1;
        assert Chained(S(), i);
      }
    }

    /** The slot is linked in behind request tmp. */
    method SpliceIn(slot: nat, tmp: nat, ghost i: nat)
      requires request as object != buf && InRange(S()) && slot < request.Length && i < |q| && tmp == q[i]
      modifies this`q, request
      ensures S() == Splice(old(S()), slot, i)
      ensures forall s :: 0 <= s < request.Length ==> request[s] == old(request[s]).(next := request[s].next)
    {
      request[slot] := request[slot].(next := request[tmp].next);
      request[tmp] := request[tmp].(next := slot);
      q := q[..i + 1] + [slot] + q[i + 1..];
    }

    /** The loop's stopping test: (IN_ORDER(tmp,req) or not IN_ORDER(tmp,next)) and IN_ORDER(req,next). */
    predicate Between(tmp: nat, slot: nat, next: int)
      requires tmp < request.Length && slot < request.Length && 0 <= next < request.Length
      reads this, request
    {
      var t, r, n := KeyOf(request[tmp]), KeyOf(request[slot]), KeyOf(request[next]);
      (InOrder(t, r) || !InOrder(t, n)) && InOrder(r, n)
    }

    /** make_request from the label `repeat` on, holding the lock of buffer bh. Writes may use only the
        lower two thirds of the slots. */
    method FillRequest(rw: nat, ahead: bool, bh: nat) returns (out: Outcome)
      requires Ok() && (rw == READ || rw == WRITE) && bh < buf.Length && buf[bh].lock && Unqueued(S(), bh)
      requires 0 < buf[bh].dev < DEVS && 2 * buf[bh].block + 1 < SECTORS
      modifies this`current, this`q, request, buf
      ensures Ok()
      ensures out.Queued? ==>
        && out.slot < request.Length && old(request[out.slot]).dev < 0
        && (rw == WRITE ==> out.slot < request.Length * 2 / 3)
        && Keys(S()) == Insert(Keys(old(S())), Key(rw, old(buf[bh]).dev, 2 * old(buf[bh]).block))
        && multiset(q) == multiset(old(q)) + multiset{out.slot}
        && TookSlot(old(request[..]), request[..], out.slot,
                    Request(old(buf[bh]).dev, rw, 2 * old(buf[bh]).block, bh, -1))
        && buf[..] == old(buf[..])[bh := old(buf[bh]).(dirt := false)]
      ensures out.NothingToDo? ==>
        ahead && S() == old(S()).(buf := old(buf[..])[bh := old(buf[bh]).(lock := false)])
      ensures out.SleepOnSlots? ==> !ahead && S() == old(S())
      ensures !out.SleepOnLock?
      ensures out.Queued? <==> !NoSlot(old(request[..]), rw)
    {
      hide Queue, KeysOf, Insert;
      var req := FindSlot(rw);
      if req < 0 {
        if ahead {
          BufferChanged(S(), bh, buf[bh].(lock := false));
          SetLock(bh, false);
          return NothingToDo;
        }
        return SleepOnSlots;
      }
      UseSlot(rw, bh, req);
      return Queued(req);
    }

    /** The scan for a free slot, down from the last that the command may use. */
    method FindSlot(rw: nat) returns (req: int)
      requires rw == READ || rw == WRITE
      ensures req < 0 <==> NoSlot(request[..], rw)
      ensures req >= 0 ==> req < request.Length && request[req].dev < 0
                           && (rw == WRITE ==> req < request.Length * 2 / 3)
    {
      var top := if rw == READ then request.Length else request.Length * 2 / 3;
      req := top - 1;
      while req >= 0 && request[req].dev >= 0
        invariant -1 <= req < top
        invariant forall s :: req < s < top ==> request[s].dev >= 0
      {
        req := req - 1;
      }
    }

    method SetLock(bh: nat, v: bool)
      requires request as object != buf && bh < buf.Length
      modifies buf
      ensures S() == old(S()).(buf := old(buf[..])[bh := old(buf[bh]).(lock := v)])
    {
      buf[bh] := buf[bh].(lock := v);
    }

    /** The free slot is filled in and added. */
    method UseSlot(rw: nat, bh: nat, req: nat)
      requires Ok() && (rw == READ || rw == WRITE) && bh < buf.Length && buf[bh].lock && Unqueued(S(), bh)
      requires 0 < buf[bh].dev < DEVS && 2 * buf[bh].block + 1 < SECTORS
      requires req < request.Length && request[req].dev < 0 && (rw == WRITE ==> req < request.Length * 2 / 3)
      modifies this`current, this`q, request, buf
      ensures Ok() && Keys(S()) == Insert(Keys(old(S())), Key(rw, old(buf[bh]).dev, 2 * old(buf[bh]).block))
      ensures multiset(q) == multiset(old(q)) + multiset{req}
      ensures TookSlot(old(request[..]), request[..], req,
                Request(old(buf[bh]).dev, rw, 2 * old(buf[bh]).block, bh, -1))
      ensures buf[..] == old(buf[..])[bh := old(buf[bh]).(dirt := false)]
    {
      hide Queue, KeysOf, Insert;
      ghost var s := S();
      assert req !in q by {
        assert forall i :: 0 <= i < |q| ==> Filled(s, q[i]);
      }
      var filled := Request(buf[bh].dev, rw, 2 * buf[bh].block, bh, -1);
      SlotChanged(s, req, filled);
      request[req] := filled;
      assert request[..] == s.req[req := filled];
      AddRequest(req);
    }

    /** make_request up to its first possible sleep, then FillRequest. */
    method MakeRequest(rw: nat, bh: nat) returns (out: Outcome)
      requires Ok() && rw <= WRITEA && bh < buf.Length && 0 < buf[bh].dev < DEVS && 2 * buf[bh].block + 1 < SECTORS
      modifies this`current, this`q, request, buf
      ensures Ok()
      ensures out == SleepOnLock <==> old(buf[bh]).lock && rw <= WRITE
      ensures out == NothingToDo <==>
        || (old(buf[bh]).lock && rw > WRITE)
        || (!old(buf[bh]).lock && !Needed(rw, old(buf[bh])))
        || (!old(buf[bh]).lock && rw > WRITE && NoSlot(old(request[..]), rw))
      ensures out == SleepOnSlots <==>
        !old(buf[bh]).lock && Needed(rw, old(buf[bh])) && rw <= WRITE && NoSlot(old(request[..]), rw)
      ensures out.Queued? ==>
        && buf[..] == old(buf[..])[bh := old(buf[bh]).(lock := true, dirt := false)]
        && Keys(S()) == Insert(Keys(old(S())), Key(rw % 2, old(buf[bh]).dev, 2 * old(buf[bh]).block))
        && multiset(q) == multiset(old(q)) + multiset{out.slot}
        && (rw % 2 == WRITE ==> out.slot < request.Length * 2 / 3)
        && TookSlot(old(request[..]), request[..], out.slot,
                    Request(old(buf[bh]).dev, rw % 2, 2 * old(buf[bh]).block, bh, -1))
      ensures out == SleepOnSlots ==> S() == old(S()).(buf := old(buf[..])[bh := old(buf[bh]).(lock := true)])
      ensures out == SleepOnLock ==> S() == old(S())
      ensures out == NothingToDo ==> S() == old(S())
      ensures NoSlotLost(old(request[..]), old(q)) ==> NoSlotLost(request[..], q)
    {
      hide Queue, KeysOf, Insert;
      ghost var was, q0 := request[..], q;
      var ahead := rw == READA || rw == WRITEA;
      if ahead && buf[bh].lock { return NothingToDo; }
      var cmd := if rw == READA then READ else if rw == WRITEA then WRITE else rw;
      if buf[bh].lock { return SleepOnLock; }
      ghost var v := Request(buf[bh].dev, cmd, 2 * buf[bh].block, bh, -1);
      out := MakeUnlocked(cmd, ahead, bh);
      if out.Queued? && NoSlotLost(was, q0) { TakenIsQueued(was, request[..], q0, q, out.slot, v); }
    }

    /** make_request of a buffer that nobody has locked. */
    method MakeUnlocked(cmd: nat, ahead: bool, bh: nat) returns (out: Outcome)
      requires Ok() && cmd <= WRITE && bh < buf.Length && 0 < buf[bh].dev < DEVS && 2 * buf[bh].block + 1 < SECTORS
      requires !buf[bh].lock
      modifies this`current, this`q, request, buf
      ensures Ok() && out != SleepOnLock
      ensures out == NothingToDo <==>
        !Needed(cmd, old(buf[bh])) || (ahead && NoSlot(old(request[..]), cmd))
      ensures out == SleepOnSlots <==> Needed(cmd, old(buf[bh])) && !ahead && NoSlot(old(request[..]), cmd)
      ensures out.Queued? ==>
        && buf[..] == old(buf[..])[bh := old(buf[bh]).(lock := true, dirt := false)]
        && Keys(S()) == Insert(Keys(old(S())), Key(cmd, old(buf[bh]).dev, 2 * old(buf[bh]).block))
        && multiset(q) == multiset(old(q)) + multiset{out.slot}
        && (cmd == WRITE ==> out.slot < request.Length * 2 / 3)
        && TookSlot(old(request[..]), request[..], out.slot,
                    Request(old(buf[bh]).dev, cmd, 2 * old(buf[bh]).block, bh, -1))
      ensures out == SleepOnSlots ==> S() == old(S()).(buf := old(buf[..])[bh := old(buf[bh]).(lock := true)])
      ensures out == NothingToDo ==> S() == old(S())
    {
      hide Queue, KeysOf, Insert, Valid, Filled, Unqueued, NoSlot;
      ghost var s := S();
      LockTaken(s, bh);
      SetLock(bh, true);
      if (cmd == WRITE && !buf[bh].dirt) || (cmd == READ && buf[bh].uptodate) {
        SetLock(bh, false);
        assert buf[..] == s.buf;
        return NothingToDo;
      }
      out := FillRequest(cmd, ahead, bh);
      if out == NothingToDo { assert buf[..] == s.buf; }
    }

    method NextSector()
      requires request as object != buf && q != [] && current == q[0] < request.Length
      modifies request
      ensures S() == Advanced(old(S()))
      ensures request[current] == old(request[current]).(sector := old(request[current].sector) + 1)
      ensures forall x :: 0 <= x < request.Length && x != current ==> request[x] == old(request[x])
      ensures NoSlotLost(old(request[..]), q) ==> NoSlotLost(request[..], q)
    {
      ghost var s := S();
      request[current] := request[current].(sector := request[current].sector + 1);
      assert S() == Advanced(s);
    }

    /** The stores of end_request. */
    method DropHead(uptodate: bool)
      requires request as object != buf && q != [] && current == q[0] < request.Length
                 && request[current].bh < buf.Length
      modifies this`current, this`q, request, buf
      ensures S() == Finished(old(S()), uptodate)
      ensures var slot := old(current);
              var b := old(request[slot].bh);
              && current == old(request[slot].next) && q == old(q)[1..]
              && buf[b] == old(buf[b]).(uptodate := uptodate, lock := false)
              && (forall c :: 0 <= c < buf.Length && c != b ==> buf[c] == old(buf[c]))
              && request[slot] == old(request[slot]).(dev := -1) && !NoSlot(request[..], READ)
              && forall x :: 0 <= x < request.Length && x != slot ==> request[x] == old(request[x])
      ensures NoSlotLost(old(request[..]), old(q)) ==> NoSlotLost(request[..], q)
    {
      ghost var s := S();
      var slot := current;
      var r := request[slot];
      buf[r.bh] := buf[r.bh].(uptodate := uptodate, lock := false);
      request[slot] := r.(dev := -1);
      current := r.next;
      q := q[1..];
      assert request[..] == s.req[slot := r.(dev := -1)];
      assert buf[..] == s.buf[r.bh := buf[r.bh]];
      assert request[..][slot].dev < 0;
      assert forall x :: x in s.q && x != slot ==> x in q;
    }

    /** end_request: only the head leaves; its buffer is unlocked and its slot is free again. */
    method EndRequest(uptodate: bool)
      requires Ok() && q != []
      modifies this`current, this`q, request, buf
      ensures Ok() && S() == Finished(old(S()), uptodate) && Keys(S()) == Keys(old(S()))[1..]
      ensures var slot := old(current);
              var b := old(request[slot].bh);
              && current == old(request[slot].next) && q == old(q)[1..]
              && !buf[b].lock && buf[b].uptodate == uptodate
              && buf[b].dirt == old(buf[b].dirt) && buf[b].dev == old(buf[b].dev) && buf[b].block == old(buf[b].block)
              && (forall c :: 0 <= c < buf.Length && c != b ==> buf[c] == old(buf[c]))
              && request[slot].dev == -1 && !NoSlot(request[..], READ)
              && forall x :: 0 <= x < request.Length && x != slot ==> request[x] == old(request[x])
      ensures NoSlotLost(old(request[..]), old(q)) ==> NoSlotLost(request[..], q)
    {
      hide Queue, KeysOf, Threaded, Filled, OneBufferPerBlock;
      ghost var s := S();
      HeadOnList(s);
      HeadFinished(s, uptodate);
      DropHead(uptodate);
    }

    /** The last interrupt of a read: the head's sector advances once more and the request is over. */
    method FinishRead(uptodate: bool)
      requires Ok() && q != []
      modifies this`current, this`q, request, buf
      ensures Ok() && Keys(S()) == Keys(old(S()))[1..]
      ensures var slot := old(current);
              var b := old(request[slot].bh);
              && current == old(request[slot].next) && q == old(q)[1..]
              && !buf[b].lock && buf[b].uptodate == uptodate
              && buf[b].dirt == old(buf[b].dirt) && buf[b].dev == old(buf[b].dev) && buf[b].block == old(buf[b].block)
              && (forall c :: 0 <= c < buf.Length && c != b ==> buf[c] == old(buf[c]))
              && request[slot] == old(request[slot]).(dev := -1, sector := old(request[slot].sector) + 1)
              && !NoSlot(request[..], READ)
              && forall x :: 0 <= x < request.Length && x != slot ==> request[x] == old(request[x])
      ensures NoSlotLost(old(request[..]), old(q)) ==> NoSlotLost(request[..], q)
    {
      hide Queue, KeysOf, Valid, Finished, Advanced, Released;
      ghost var s := S();
      HeadOnList(s);
      NextSector();
      FinishAdvanced(s, S(), uptodate);
      DropHead(uptodate);
    }

    /** The head moves on to the second sector of its block. */
    method AdvanceHead()
      requires Ok() && q != [] && request[current].sector % 2 == 0
      modifies request
      ensures Ok() && S() == Advanced(old(S())) && Keys(S()) == Apply(Keys(old(S())), Advance)
      ensures current == old(current) && q == old(q) && buf[..] == old(buf[..])
      ensures request[current] == old(request[current]).(sector := old(request[current].sector) + 1)
      ensures forall x :: 0 <= x < request.Length && x != current ==> request[x] == old(request[x])
      ensures NoSlotLost(old(request[..]), old(q)) ==> NoSlotLost(request[..], q)
    {
      hide Queue, KeysOf, Advanced, Filled, Threaded, OneBufferPerBlock;
      ghost var s := S();
      HeadOnList(s);
      HeadAdvanced(s);
      NextSector();
    }
  }
}

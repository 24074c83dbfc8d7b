/** getblk, bread and brelse as processes that may be interrupted wherever the code sleeps, together
    with write-back and the completion of transfers. One step is what runs between two sleeps (or
    less); any step of any process may come next. The module shows that the cache stays a function of
    the block number and that cache and disk together are one flat store of blocks. */
module BufferCache {
  import opened Basics

  datatype Blk = Blk(dev: nat, no: nat)
  type Data = seq<nat>

  datatype Buf = Buf(key: Blk, count: nat, lock: bool, dirt: bool, uptodate: bool, data: Data)

  /** The transfer that is queued or in progress for a buffer. */
  datatype Io = NoIo | Reading | Writing

  /** What the caller is after: bread; a block it overwrites at once (new_block); or to drop the cached copy of
      a block that is no longer in use (free_block, which only looks into the cache). */
  datatype Want = Read | Overwrite(v: Data) | Forget

  /** Whose dirty buffers are to be written: those of one device in one of the two passes of sync_dev, which getblk
      has called for victim b; or all of them in sys_sync. */
  datatype Goal = ForVictim(b: nat, k: Blk, want: Want, dev: nat, second: bool) | ForAll

  /** Where a process is. Between the two passes of sync_dev, sync_inodes reads and dirties the blocks of the
      inode table; it does so through bread and brelse like any process, and is one of the others here. */
  datatype Pc =
    | Idle
    | Start(k: Blk, want: Want)                          // getblk, label repeat
    | HashWait(b: nat, k: Blk, want: Want)               // get_hash_table, count taken, in wait_on_buffer
    | NoBuffer(k: Blk, want: Want)                       // asleep on buffer_wait
    | VictimWait(b: nat, k: Blk, want: Want)             // victim chosen, in wait_on_buffer
    | Syncing(goal: Goal, i: nat)                        // sync_dev or sys_sync at buffer i
    | SyncSlot(goal: Goal, i: nat)                       // the same, buffer i locked, waiting for a request slot
    | ReadSlot(b: nat, k: Blk)                           // bread: buffer locked, waiting for a request slot
    | ReadWait(b: nat, k: Blk)                           // bread: in wait_on_buffer
    | Holding(b: nat, k: Blk)                            // the caller has the buffer

  /** lost[b] counts the references to buffer b that no process will give back. */
  datatype State = State(bufs: seq<Buf>, io: seq<Io>, disk: Blk -> Data, procs: seq<Pc>, lost: seq<nat>)

  // ---------------------------------------------------------------- the steps

  function FindFrom(bufs: seq<Buf>, k: Blk, i: nat): (r: Option<nat>)
    requires i <= |bufs|
    ensures r.Some? ==> r.value < |bufs| && bufs[r.value].key == k
    ensures r == None ==> forall j :: i <= j < |bufs| ==> bufs[j].key != k
    decreases |bufs| - i
  {
    if i == |bufs| then None else if bufs[i].key == k then Some(i) else FindFrom(bufs, k, i + 1)
  }

  /** find_buffer. */
  function Find(bufs: seq<Buf>, k: Blk): (r: Option<nat>)
    ensures r.Some? ==> r.value < |bufs| && bufs[r.value].key == k
    ensures r == None ==> forall j :: 0 <= j < |bufs| ==> bufs[j].key != k
  {
    FindFrom(bufs, k, 0)
  }

  function SetPc(s: State, p: nat, pc: Pc): State
    requires p < |s.procs|
  {
    s.(procs := s.procs[p := pc])
  }

  function SetBuf(s: State, b: nat, v: Buf): State
    requires b < |s.bufs|
  {
    s.(bufs := s.bufs[b := v])
  }

  function SetIo(s: State, b: nat, v: Io): State
    requires b < |s.io|
  {
    s.(io := s.io[b := v])
  }

  ghost predicate Sized(s: State) {
    |s.io| == |s.lost| == |s.bufs|
  }

  /** free_block has found buffer b. If somebody else holds it too, it returns without giving its own reference back. */
  function Forgotten(s: State, p: nat, b: nat): State
    requires p < |s.procs| && b < |s.bufs| == |s.io| == |s.lost|
  {
    if s.bufs[b].count != 1 then SetPc(s.(lost := s.lost[b := s.lost[b] + 1]), p, Idle)
    else SetPc(SetBuf(s, b, s.bufs[b].(count := 0, dirt := false, uptodate := false)), p, Idle)
  }

  /** getblk returns unlocked buffer b, counted for p, with key k; bread goes on with it. */
  function Got(s: State, p: nat, b: nat, k: Blk, want: Want, slot: bool): State
    requires p < |s.procs| && b < |s.bufs| == |s.io| == |s.lost|
  {
    match want
    case Overwrite(v) => SetPc(SetBuf(s, b, s.bufs[b].(data := v, uptodate := true, dirt := true)), p, Holding(b, k))
    case Read =>
      if s.bufs[b].uptodate then SetPc(s, p, Holding(b, k))
      else
        var s1 := SetBuf(s, b, s.bufs[b].(lock := true));
        if slot then SetPc(SetIo(s1, b, Reading), p, ReadWait(b, k)) else SetPc(s1, p, ReadSlot(b, k))
    case Forget => Forgotten(s, p, b)
  }

  /** add_request for a write of locked buffer i: clean from here on. */
  function QueueWrite(s: State, i: nat): State
    requires i < |s.bufs| == |s.io|
  {
    SetIo(SetBuf(s, i, s.bufs[i].(lock := true, dirt := false)), i, Writing)
  }

  predicate InSweep(goal: Goal, key: Blk) {
    goal.ForAll? || key.dev == goal.dev
  }

  /** Where a process goes on when it has been through all buffers. */
  function AfterSweep(goal: Goal): Pc {
    match goal
    case ForVictim(b, k, want, dev, second) =>
      if second then VictimWait(b, k, want) else Syncing(ForVictim(b, k, want, dev, true), 0)
    case ForAll => Idle
  }

  /** Process p runs on from where it is, as far as its next sleep or less. `choice` is the victim the
      scan of the free list would pick; `slot` says whether a request slot is free. A process whose
      buffer is still locked stays asleep. */
  function Resume(s: State, p: nat, choice: nat, slot: bool): State
    requires p < |s.procs| && Sized(s)
  {
    var n := |s.bufs|;
    match s.procs[p]
    case Idle => s
    case Holding(_, _) => s
    case Start(k, want) =>
      (match Find(s.bufs, k)
       case Some(b) => SetPc(SetBuf(s, b, s.bufs[b].(count := s.bufs[b].count + 1)), p, HashWait(b, k, want))
       case None =>
         if want == Forget then SetPc(s, p, Idle)
         else if choice < n && s.bufs[choice].count == 0 then SetPc(s, p, VictimWait(choice, k, want))
         else if forall b :: 0 <= b < n ==> s.bufs[b].count != 0 then SetPc(s, p, NoBuffer(k, want))
         else s)
    case NoBuffer(k, want) => SetPc(s, p, Start(k, want))
    case HashWait(b, k, want) =>
      if b >= n || s.bufs[b].lock then s
      else if s.bufs[b].key == k then Got(s, p, b, k, want, slot)
      else if s.bufs[b].count == 0 then s
      else SetPc(SetBuf(s, b, s.bufs[b].(count := s.bufs[b].count - 1)), p, Start(k, want))
    case VictimWait(b, k, want) =>
      if b >= n || s.bufs[b].lock then s
      else if s.bufs[b].count != 0 then SetPc(s, p, Start(k, want))
      else if s.bufs[b].dirt then SetPc(s, p, Syncing(ForVictim(b, k, want, s.bufs[b].key.dev, false), 0))
      else if Find(s.bufs, k).Some? then SetPc(s, p, Start(k, want))
      else Got(SetBuf(s, b, Buf(k, 1, false, false, false, s.bufs[b].data)), p, b, k, want, slot)
    case Syncing(goal, i) =>
      if i >= n then SetPc(s, p, AfterSweep(goal))
      else if !InSweep(goal, s.bufs[i].key) then SetPc(s, p, Syncing(goal, i + 1))
      else if s.bufs[i].lock then s
      else if !s.bufs[i].dirt then SetPc(s, p, Syncing(goal, i + 1))
      else if slot then SetPc(QueueWrite(s, i), p, Syncing(goal, i + 1))
      else SetPc(SetBuf(s, i, s.bufs[i].(lock := true)), p, SyncSlot(goal, i))
    case SyncSlot(goal, i) =>
      if slot && i < n then SetPc(QueueWrite(s, i), p, Syncing(goal, i + 1)) else s
    case ReadSlot(b, k) =>
      if slot && b < n then SetPc(SetIo(s, b, Reading), p, ReadWait(b, k)) else s
    case ReadWait(b, k) =>
      if b >= n || s.bufs[b].lock then s
      else if s.bufs[b].uptodate then SetPc(s, p, Holding(b, k))
      else if s.bufs[b].count == 0 then s
      else SetPc(SetBuf(s, b, s.bufs[b].(count := s.bufs[b].count - 1)), p, Idle)
  }

  datatype Step =
    | Call(p: nat, k: Blk, want: Want)            // an idle process calls bread, or getblk to overwrite
    | CallSync(p: nat)                            // an idle process calls sys_sync
    | Run(p: nat, choice: nat, slot: bool)        // a process goes on
    | Store(p: nat, v: Data)                      // the holder changes the data and marks it dirty
    | Release(p: nat)                             // brelse
    | Complete(b: nat, early: Data)               // end_request(1); early: what the controller took

  /** end_request for the transfer of buffer b. The controller has taken the data earlier, piece by piece; if
      the buffer has been stored to since the transfer was queued, it is dirty again and what has reached the
      disk may be anything. */
  function Transferred(s: State, b: nat, early: Data): State
    requires b < |s.bufs| == |s.io| && s.io[b] != NoIo
  {
    var v := s.bufs[b];
    var s1 := SetIo(s, b, NoIo);
    if s.io[b] == Writing then
      var reached := if v.dirt then early else v.data;
      SetBuf(s1, b, v.(uptodate := true, lock := false)).(disk := (x: Blk) => if x == v.key then reached else s.disk(x))
    else
      SetBuf(s1, b, v.(data := s.disk(v.key), uptodate := true, lock := false))
  }

  function Next(s: State, e: Step): State
    requires Sized(s)
  {
    match e
    case Call(p, k, want) =>
      if p < |s.procs| && s.procs[p] == Idle && k.dev != 0 then SetPc(s, p, Start(k, want)) else s
    case Run(p, choice, slot) => if p < |s.procs| then Resume(s, p, choice, slot) else s
    case Store(p, v) =>
      if p < |s.procs| && s.procs[p].Holding? && s.procs[p].b < |s.bufs| then
        SetBuf(s, s.procs[p].b, s.bufs[s.procs[p].b].(data := v, dirt := true))
      else s
    case Release(p) =>
      if p < |s.procs| && s.procs[p].Holding? && s.procs[p].b < |s.bufs|
         && !s.bufs[s.procs[p].b].lock && s.bufs[s.procs[p].b].count != 0 then
        var b := s.procs[p].b;
        SetPc(SetBuf(s, b, s.bufs[b].(count := s.bufs[b].count - 1)), p, Idle)
      else s
    case CallSync(p) => if p < |s.procs| && s.procs[p] == Idle then SetPc(s, p, Syncing(ForAll, 0)) else s
    case Complete(b, early) => if b < |s.bufs| && s.io[b] != NoIo then Transferred(s, b, early) else s
  }

  // ---------------------------------------------------------------- the invariant

  /** The buffer a process has counted. */
  function RefOf(pc: Pc): Option<nat> {
    match pc
    case HashWait(b, _, _) => Some(b)
    case ReadSlot(b, _) => Some(b)
    case ReadWait(b, _) => Some(b)
    case Holding(b, _) => Some(b)
    case _ => None
  }

  /** The buffer a process has locked and not yet queued. */
  function LockOf(pc: Pc): Option<nat> {
    match pc
    case SyncSlot(_, i) => Some(i)
    case ReadSlot(b, _) => Some(b)
    case _ => None
  }

  ghost function Holders(procs: seq<Pc>, b: nat): set<nat> {
    set p: nat | p < |procs| && RefOf(procs[p]) == Some(b)
  }

  ghost predicate BufOk(s: State, b: nat)
    requires b < |s.bufs| == |s.io| == |s.lost|
  {
    var v := s.bufs[b];
    && (s.io[b] == Reading ==> v.lock && !v.uptodate && !v.dirt)
    && (s.io[b] == Writing ==> v.lock && v.uptodate)
    && (v.dirt ==> v.uptodate)
    && (v.uptodate || s.io[b] == Reading ==> v.key.dev != 0)
    && (!v.dirt && v.uptodate && s.io[b] != Writing ==> v.data == s.disk(v.key))
    && v.count == |Holders(s.procs, b)| + s.lost[b]
  }

  ghost predicate GoalOk(s: State, goal: Goal) {
    goal.ForVictim? ==> goal.k.dev != 0 && goal.b < |s.bufs| && goal.want != Forget
  }

  ghost predicate ProcOk(s: State, p: nat)
    requires p < |s.procs| && |s.io| == |s.bufs|
  {
    match s.procs[p]
    case Idle => true
    case Start(k, _) => k.dev != 0
    case NoBuffer(k, want) => k.dev != 0 && want != Forget
    case HashWait(b, k, _) => k.dev != 0 && b < |s.bufs| && s.bufs[b].key == k
    case VictimWait(b, k, want) => k.dev != 0 && b < |s.bufs| && want != Forget
    case Syncing(goal, _) => GoalOk(s, goal)
    case SyncSlot(goal, i) =>
      GoalOk(s, goal) && i < |s.bufs| && s.bufs[i].lock && s.bufs[i].dirt && s.io[i] == NoIo
    case ReadSlot(b, k) =>
      k.dev != 0 && b < |s.bufs| && s.bufs[b].key == k && s.bufs[b].lock && !s.bufs[b].uptodate && s.io[b] == NoIo
    case ReadWait(b, k) =>
      k.dev != 0 && b < |s.bufs| && s.bufs[b].key == k && (s.bufs[b].uptodate || (s.bufs[b].lock && s.io[b] == Reading))
    case Holding(b, k) => k.dev != 0 && b < |s.bufs| && s.bufs[b].key == k && s.bufs[b].uptodate
  }

  /** No two buffers hold the same block. */
  ghost predicate Unique(bufs: seq<Buf>) {
    forall a, b :: 0 <= a < b < |bufs| && bufs[a].key.dev != 0 ==> bufs[a].key != bufs[b].key
  }

  /** A lock that is not yet a queued transfer has one owner. */
  ghost predicate OneLocker(procs: seq<Pc>) {
    forall p, q :: 0 <= p < q < |procs| && LockOf(procs[p]).Some? ==> LockOf(procs[p]) != LockOf(procs[q])
  }

  ghost predicate Inv(s: State) {
    && Sized(s)
    && Unique(s.bufs)
    && OneLocker(s.procs)
    && (forall b: nat :: b < |s.bufs| ==> BufOk(s, b))
    && (forall p: nat :: p < |s.procs| ==> ProcOk(s, p))
  }

  // ---------------------------------------------------------------- one buffer and one process at a time

  lemma HoldersUpdate(procs: seq<Pc>, p: nat, pc: Pc, b: nat)
    requires p < |procs|
    ensures |Holders(procs[p := pc], b)| + Bit(RefOf(procs[p]) == Some(b)) ==
              |Holders(procs, b)| + Bit(RefOf(pc) == Some(b))
  {
    hide RefOf;
    var A, B := Holders(procs, b), Holders(procs[p := pc], b);
    forall q: nat ensures q in B - {p} <==> q in A - {p} {}
    assert B - {p} == A - {p};
    CountWithout(A, p);
    CountWithout(B, p);
  }

  /** A buffer that is not counted is not referred to. */
  lemma Uncounted(s: State, b: nat)
    requires Inv(s) && b < |s.bufs| && s.bufs[b].count == 0
    ensures forall p :: 0 <= p < |s.procs| ==> RefOf(s.procs[p]) != Some(b)
  {
    assert BufOk(s, b);
    forall p: nat | p < |s.procs| ensures RefOf(s.procs[p]) != Some(b) {
      assert |Holders(s.procs, b)| == 0;
      assert RefOf(s.procs[p]) == Some(b) ==> p in Holders(s.procs, b);
    }
  }

  lemma Counted(s: State, p: nat)
    requires Inv(s) && p < |s.procs| && RefOf(s.procs[p]).Some? && RefOf(s.procs[p]).value < |s.bufs|
    ensures s.bufs[RefOf(s.procs[p]).value].count > 0
  {
    var b := RefOf(s.procs[p]).value;
    assert BufOk(s, b) && p in Holders(s.procs, b);
  }

  /** What a buffer must satisfy, its count apart. */
  ghost predicate FlagsOk(v: Buf, io: Io, onDisk: Data) {
    && (io == Reading ==> v.lock && !v.uptodate && !v.dirt)
    && (io == Writing ==> v.lock && v.uptodate)
    && (v.dirt ==> v.uptodate)
    && (v.uptodate || io == Reading ==> v.key.dev != 0)
    && (!v.dirt && v.uptodate && io != Writing ==> v.data == onDisk)
  }

  /** States that differ in buffer b, in process p (none when p is out of range), and on disk at b's
      block at most. */
  ghost predicate ChangedAt(s: State, s': State, b: nat, p: nat) {
    && Sized(s) && Sized(s') && |s'.bufs| == |s.bufs| && b < |s.bufs| && |s'.procs| == |s.procs|
    && (forall c :: 0 <= c < |s.bufs| && c != b ==> s'.bufs[c] == s.bufs[c] && s'.io[c] == s.io[c])
    && (p < |s.procs| ==> s'.procs == s.procs[p := s'.procs[p]])
    && (p >= |s.procs| ==> s'.procs == s.procs)
    && s'.lost == s.lost
    && (forall x :: x != s.bufs[b].key ==> s'.disk(x) == s.disk(x))
  }

  lemma Kept(s: State, s': State, b: nat, p: nat)
    requires Inv(s) && ChangedAt(s, s', b, p)
    requires s'.bufs[b].key != s.bufs[b].key ==>
      s'.disk == s.disk && forall c :: 0 <= c < |s.bufs| ==> s.bufs[c].key != s'.bufs[b].key
    requires FlagsOk(s'.bufs[b], s'.io[b], s'.disk(s'.bufs[b].key))
    requires s'.bufs[b].count + Bit(p < |s.procs| && RefOf(s.procs[p]) == Some(b))
             == s.bufs[b].count + Bit(p < |s.procs| && RefOf(s'.procs[p]) == Some(b))
    requires p < |s.procs| ==> forall c :: RefOf(s'.procs[p]) == Some(c) && c != b ==> RefOf(s.procs[p]) == Some(c)
    requires p < |s.procs| ==> forall c :: RefOf(s.procs[p]) == Some(c) && c != b ==> RefOf(s'.procs[p]) == Some(c)
    requires p < |s.procs| ==> ProcOk(s', p)
    requires p < |s.procs| && LockOf(s'.procs[p]).Some? ==>
      forall q :: 0 <= q < |s.procs| && q != p ==> LockOf(s.procs[q]) != LockOf(s'.procs[p])
    requires forall q: nat :: q < |s.procs| && q != p && ProcOk(s, q) ==> ProcOk(s', q)
    ensures Inv(s')
  {
    forall c: nat | c < |s.bufs| ensures BufOk(s', c) {
      assert BufOk(s, c);
      if p < |s.procs| { HoldersUpdate(s.procs, p, s'.procs[p], c); }
      if c != b && s.bufs[c].uptodate {
        assert s.bufs[c].key != s.bufs[b].key;
      }
    }
    assert Unique(s'.bufs);
  }

  // ---------------------------------------------------------------- the flat store

  /** What the system as a whole holds for block k: the cached copy if there is an up-to-date one, the
      disk's otherwise. */
  ghost function View(s: State, k: Blk): Data {
    match Find(s.bufs, k)
    case Some(b) => if s.bufs[b].uptodate then s.bufs[b].data else s.disk(k)
    case None => s.disk(k)
  }

  lemma ViewOf(s: State, b: nat)
    requires Unique(s.bufs) && b < |s.bufs| && s.bufs[b].key.dev != 0
    ensures View(s, s.bufs[b].key) == if s.bufs[b].uptodate then s.bufs[b].data else s.disk(s.bufs[b].key)
  {
    var c := Find(s.bufs, s.bufs[b].key);
    assert c.Some?;
  }

  /** A change of one buffer, its name apart, shows at its block only. */
  lemma ViewChanged(s: State, s': State, b: nat, p: nat, k: Blk)
    requires Unique(s.bufs) && Unique(s'.bufs) && ChangedAt(s, s', b, p) && s'.bufs[b].key == s.bufs[b].key
               && k.dev != 0
    ensures k != s.bufs[b].key ==> View(s', k) == View(s, k)
    ensures k == s.bufs[b].key ==> View(s', k) == if s'.bufs[b].uptodate then s'.bufs[b].data else s'.disk(k)
  {
    if k == s.bufs[b].key {
      ViewOf(s', b);
    } else {
      var c := Find(s.bufs, k);
      if c.Some? {
        assert s'.bufs[c.value] == s.bufs[c.value];
        ViewOf(s, c.value);
        ViewOf(s', c.value);
      } else {
        assert Find(s'.bufs, k) == None;
      }
    }
  }

  /** Evicting a clean, unlocked buffer and giving it to a block that is not cached changes nothing. */
  lemma EvictionInvisible(s: State, b: nat, k: Blk, count: nat, k': Blk)
    requires Inv(s) && b < |s.bufs| && !s.bufs[b].lock && !s.bufs[b].dirt
    requires Find(s.bufs, k) == None && k.dev != 0 && k'.dev != 0
    ensures var s' := SetBuf(s, b, Buf(k, count, false, false, false, s.bufs[b].data));
            Unique(s'.bufs) && View(s', k') == View(s, k')
  {
    var s' := SetBuf(s, b, Buf(k, count, false, false, false, s.bufs[b].data));
    assert BufOk(s, b);
    if k' == k {
      ViewOf(s', b);
    } else if k' == s.bufs[b].key {
      ViewOf(s, b);
      assert Find(s'.bufs, k') == None;
    } else {
      var c := Find(s.bufs, k');
      if c.Some? {
        ViewOf(s, c.value);
        ViewOf(s', c.value);
      } else {
        assert Find(s'.bufs, k') == None;
      }
    }
  }

  // ---------------------------------------------------------------- every step

  /** When free_block drops a copy, what the disk has takes its place. */
  ghost function Dropped(s: State, p: nat): Option<(Blk, Data)>
    requires p < |s.procs|
  {
    match s.procs[p]
    case HashWait(b, k, Forget) =>
      if b < |s.bufs| && !s.bufs[b].lock && s.bufs[b].key == k && s.bufs[b].count == 1 then Some((k, s.disk(k)))
      else None
    case _ => None
  }

  /** The block a step writes, and what it writes there. */
  ghost function Written(s: State, e: Step): Option<(Blk, Data)>
    requires Sized(s)
  {
    match e
    case Store(p, v) =>
      if p < |s.procs| && s.procs[p].Holding? then Some((s.procs[p].k, v)) else None
    case Run(p, choice, slot) =>
      if p < |s.procs| && Next(s, e).procs[p].Holding? && !s.procs[p].Holding? then
        match s.procs[p]
        case HashWait(_, k, Overwrite(v)) => Some((k, v))
        case VictimWait(_, k, Overwrite(v)) => Some((k, v))
        case _ => None
      else if p < |s.procs| then Dropped(s, p)
      else None
    case _ => None
  }

  /** From s to s' the store changes at most as w says. */
  ghost predicate Shows(s: State, s': State, w: Option<(Blk, Data)>) {
    forall k: Blk :: k.dev != 0 ==> View(s', k) == if w.Some? && w.value.0 == k then w.value.1 else View(s, k)
  }

  ghost predicate Good(s: State, s': State, w: Option<(Blk, Data)>) {
    Inv(s') && Shows(s, s', w)
  }

  /** A process moves on without touching a buffer. */
  lemma OnlyPc(s: State, p: nat, pc: Pc)
    requires Inv(s) && p < |s.procs| && RefOf(pc) == RefOf(s.procs[p]) && LockOf(pc) == None
    requires ProcOk(SetPc(s, p, pc), p)
    ensures Good(s, SetPc(s, p, pc), None)
  {
    var s' := SetPc(s, p, pc);
    forall b: nat | b < |s.bufs| ensures BufOk(s', b) {
      assert BufOk(s, b);
      HoldersUpdate(s.procs, p, pc, b);
    }
    forall q: nat | q < |s.procs| ensures ProcOk(s', q) {
      assert ProcOk(s, q);
    }
  }

  /** What buffer b, with the disk behind it, holds for its block. */
  ghost function Seen(s: State, b: nat): Data
    requires b < |s.bufs|
  {
    if s.bufs[b].uptodate then s.bufs[b].data else s.disk(s.bufs[b].key)
  }

  lemma ViewsKept(s: State, s': State, b: nat, p: nat, w: Option<(Blk, Data)>)
    requires Inv(s) && Inv(s') && ChangedAt(s, s', b, p) && s'.bufs[b].key == s.bufs[b].key
    requires w.Some? ==> w.value.0 == s.bufs[b].key
    requires Seen(s', b) == if w.Some? then w.value.1 else Seen(s, b)
    ensures Good(s, s', w)
  {
    forall k: Blk | k.dev != 0
      ensures View(s', k) == if w.Some? && w.value.0 == k then w.value.1 else View(s, k)
    {
      ViewChanged(s, s', b, p, k);
      if k == s.bufs[b].key { ViewOf(s, b); }
    }
  }

  /** What getblk and bread do with the buffer they have found. */
  lemma GotStep(s: State, p: nat, b: nat, k: Blk, want: Want, slot: bool)
    requires Inv(s) && p < |s.procs| && s.procs[p] == HashWait(b, k, want) && b < |s.bufs|
    requires !s.bufs[b].lock && s.bufs[b].key == k && want != Forget
    ensures Good(s, Got(s, p, b, k, want, slot),
                 match want case Overwrite(v) => Some((k, v)) case _ => None)
    ensures Got(s, p, b, k, want, slot).procs[p].Holding? || want == Read
  {
    var s' := Got(s, p, b, k, want, slot);
    assert BufOk(s, b) && ProcOk(s, p);
    OthersUnlocked(s, b);
    Kept(s, s', b, p);
    ViewsKept(s, s', b, p, match want case Overwrite(v) => Some((k, v)) case _ => None);
  }

  /** What free_block does with it. */
  lemma ForgetStep(s: State, p: nat, b: nat, k: Blk)
    requires Inv(s) && p < |s.procs| && s.procs[p] == HashWait(b, k, Forget) && b < |s.bufs|
    requires !s.bufs[b].lock && s.bufs[b].key == k
    ensures Good(s, Forgotten(s, p, b), Dropped(s, p))
  {
    if s.bufs[b].count == 1 { DropStep(s, p, b, k); } else { LostStep(s, p, b); }
  }

  lemma DropStep(s: State, p: nat, b: nat, k: Blk)
    requires Inv(s) && p < |s.procs| && s.procs[p] == HashWait(b, k, Forget) && b < |s.bufs|
    requires !s.bufs[b].lock && s.bufs[b].key == k && s.bufs[b].count == 1
    ensures Good(s, Forgotten(s, p, b), Dropped(s, p))
  {
    var s' := Forgotten(s, p, b);
    DropKeeps(s, p, b, k);
    hide Inv, BufOk, ProcOk;
    ViewsKept(s, s', b, p, Dropped(s, p));
  }

  lemma DropKeeps(s: State, p: nat, b: nat, k: Blk)
    requires Inv(s) && p < |s.procs| && s.procs[p] == HashWait(b, k, Forget) && b < |s.bufs|
    requires !s.bufs[b].lock && s.bufs[b].key == k && s.bufs[b].count == 1
    ensures Inv(Forgotten(s, p, b)) && ChangedAt(s, Forgotten(s, p, b), b, p)
  {
    assert BufOk(s, b) && ProcOk(s, p);
    OthersUnlocked(s, b);
    SoleHolder(s, p, b);
    Kept(s, Forgotten(s, p, b), b, p);
  }

  lemma SoleHolder(s: State, p: nat, b: nat)
    requires Inv(s) && p < |s.procs| && b < |s.bufs| && RefOf(s.procs[p]) == Some(b) && s.bufs[b].count == 1
    ensures s.lost[b] == 0 && forall q: nat :: q < |s.procs| && q != p ==> RefOf(s.procs[q]) != Some(b)
  {
    assert BufOk(s, b) && p in Holders(s.procs, b);
    CountWithout(Holders(s.procs, b), p);
    forall q: nat | q < |s.procs| && q != p ensures RefOf(s.procs[q]) != Some(b) {
      assert RefOf(s.procs[q]) == Some(b) ==> q in Holders(s.procs, b) - {p};
    }
  }

  /** The reference moves from the process to the lost ones. */
  lemma LostStep(s: State, p: nat, b: nat)
    requires Inv(s) && p < |s.procs| && b < |s.bufs| && RefOf(s.procs[p]) == Some(b)
    ensures Good(s, SetPc(s.(lost := s.lost[b := s.lost[b] + 1]), p, Idle), None)
  {
    var s' := SetPc(s.(lost := s.lost[b := s.lost[b] + 1]), p, Idle);
    forall c: nat | c < |s.bufs| ensures BufOk(s', c) {
      assert BufOk(s, c);
      HoldersUpdate(s.procs, p, Idle, c);
    }
    forall q: nat | q < |s.procs| ensures ProcOk(s', q) {
      assert ProcOk(s, q);
    }
  }

  /** free_block gives its reference back exactly when no other process refers to the buffer and no reference has
      been lost before. */
  lemma LostIff(s: State, p: nat, b: nat)
    requires Inv(s) && p < |s.procs| && b < |s.bufs| && RefOf(s.procs[p]) == Some(b)
    ensures Forgotten(s, p, b).lost == s.lost <==>
              s.lost[b] == 0 && forall q: nat :: q < |s.procs| && q != p ==> RefOf(s.procs[q]) != Some(b)
    ensures Forgotten(s, p, b).lost == s.lost || Forgotten(s, p, b).lost == s.lost[b := s.lost[b] + 1]
  {
    assert s.lost[b := s.lost[b] + 1][b] != s.lost[b];
    if s.bufs[b].count == 1 {
      SoleHolder(s, p, b);
    } else if forall q: nat :: q < |s.procs| && q != p ==> RefOf(s.procs[q]) != Some(b) {
      assert BufOk(s, b);
      assert Holders(s.procs, b) == {p};
    }
  }

  /** One process has the buffer of a block that another frees: nothing is dropped and the count stays too high for
      good. */
  lemma TwoHolders(k: Blk, disk: Blk -> Data)
    requires k.dev != 0
    ensures var procs := [Holding(0, k), HashWait(0, k, Forget)];
            var s := State([Buf(k, 2, false, false, true, disk(k))], [NoIo], disk, procs, [0]);
            && Inv(s)
            && var r := Next(Next(s, Run(1, 0, false)), Release(0));
            && r.procs == [Idle, Idle] && r.bufs[0].count == 1 && r.lost == [1]
  {
    var procs := [Holding(0, k), HashWait(0, k, Forget)];
    var s := State([Buf(k, 2, false, false, true, disk(k))], [NoIo], disk, procs, [0]);
    assert Holders(procs, 0) == {0, 1};
    forall b: nat | b < |s.bufs| ensures BufOk(s, b) {}
    var s1 := Next(s, Run(1, 0, false));
    assert s1 == State(s.bufs, s.io, disk, [Holding(0, k), Idle], [1]);
  }

  /** Nobody owns the lock of an unlocked buffer. */
  lemma OthersUnlocked(s: State, b: nat)
    requires Inv(s) && b < |s.bufs| && !s.bufs[b].lock
    ensures s.io[b] == NoIo
    ensures forall q: nat :: q < |s.procs| ==> LockOf(s.procs[q]) != Some(b)
  {
    assert BufOk(s, b);
    forall q: nat | q < |s.procs| ensures LockOf(s.procs[q]) != Some(b) {
      assert ProcOk(s, q);
    }
  }

  lemma StartStep(s: State, p: nat, choice: nat, slot: bool)
    requires Inv(s) && p < |s.procs| && s.procs[p].Start?
    ensures Good(s, Resume(s, p, choice, slot), None)
    ensures !Resume(s, p, choice, slot).procs[p].Holding?
  {
    var k, want := s.procs[p].k, s.procs[p].want;
    assert ProcOk(s, p);
    match Find(s.bufs, k)
    case Some(b) =>
      var s' := Resume(s, p, choice, slot);
      assert BufOk(s, b);
      Kept(s, s', b, p);
      ViewsKept(s, s', b, p, None);
    case None =>
      if want == Forget {
        OnlyPc(s, p, Idle);
      } else if choice < |s.bufs| && s.bufs[choice].count == 0 {
        OnlyPc(s, p, VictimWait(choice, k, want));
      } else if forall b :: 0 <= b < |s.bufs| ==> s.bufs[b].count != 0 {
        OnlyPc(s, p, NoBuffer(k, want));
      }
  }

  /** The re-check after get_hash_table's wait always succeeds: a counted buffer keeps its name. */
  lemma HashWaitStep(s: State, p: nat, choice: nat, slot: bool)
    requires Inv(s) && p < |s.procs| && s.procs[p].HashWait?
    ensures s.procs[p].b < |s.bufs| && s.bufs[s.procs[p].b].key == s.procs[p].k
    ensures Good(s, Resume(s, p, choice, slot), Written(s, Run(p, choice, slot)))
  {
    var b, k, want := s.procs[p].b, s.procs[p].k, s.procs[p].want;
    assert ProcOk(s, p);
    if !s.bufs[b].lock {
      if want == Forget { ForgetStep(s, p, b, k); } else { GotStep(s, p, b, k, want, slot); }
    }
  }

  /** A buffer is re-assigned only when it is unused, unlocked and clean, and only to a block that no
      other buffer holds; the store does not notice. */
  lemma VictimStep(s: State, p: nat, choice: nat, slot: bool)
    requires Inv(s) && Sized(s) && p < |s.procs| && s.procs[p].VictimWait? && ProcOk(s, p)
    ensures Good(s, Resume(s, p, choice, slot), Written(s, Run(p, choice, slot)))
  {
    hide Inv, BufOk, Unique, OneLocker, View, Got;
    var b, k, want := s.procs[p].b, s.procs[p].k, s.procs[p].want;
    if s.bufs[b].lock {
    } else if s.bufs[b].count != 0 {
      OnlyPc(s, p, Start(k, want));
    } else if s.bufs[b].dirt {
      OnlyPc(s, p, Syncing(ForVictim(b, k, want, s.bufs[b].key.dev, false), 0));
    } else if Find(s.bufs, k).Some? {
      OnlyPc(s, p, Start(k, want));
    } else {
      TakeVictim(s, p, slot);
    }
  }

  /** The re-assignment and what getblk's caller does next. */
  lemma TakeVictim(s: State, p: nat, slot: bool)
    requires Inv(s) && p < |s.procs| && s.procs[p].VictimWait? && s.procs[p].b < |s.bufs|
    requires var v := s.bufs[s.procs[p].b]; !v.lock && v.count == 0 && !v.dirt
    requires Find(s.bufs, s.procs[p].k) == None
    ensures var b, k, want := s.procs[p].b, s.procs[p].k, s.procs[p].want;
            var s' := Got(SetBuf(s, b, Buf(k, 1, false, false, false, s.bufs[b].data)), p, b, k, want, slot);
            Good(s, s', if want.Overwrite? then Some((k, want.v)) else None)
            && |s'.procs| == |s.procs| && (want.Overwrite? ==> s'.procs[p].Holding?)
  {
    var b, k, want := s.procs[p].b, s.procs[p].k, s.procs[p].want;
    assert ProcOk(s, p);
    var s1 := SetBuf(s, b, Buf(k, 1, false, false, false, s.bufs[b].data));
    var s2 := SetPc(s1, p, HashWait(b, k, want));
    ReassignStep(s, p);
    GotStep(s2, p, b, k, want, slot);
    GotFrom(s1, p, HashWait(b, k, want), b, k, want, slot);
  }

  /** What p was doing does not matter for Got. */
  lemma GotFrom(s: State, p: nat, pc: Pc, b: nat, k: Blk, want: Want, slot: bool)
    requires p < |s.procs| && b < |s.bufs| == |s.io| == |s.lost| && want != Forget
    ensures Got(SetPc(s, p, pc), p, b, k, want, slot) == Got(s, p, b, k, want, slot)
  {
    var t := s.procs[p := pc];
    assert t[p := Holding(b, k)] == s.procs[p := Holding(b, k)];
    assert t[p := ReadWait(b, k)] == s.procs[p := ReadWait(b, k)];
    assert t[p := ReadSlot(b, k)] == s.procs[p := ReadSlot(b, k)];
  }

  lemma ReassignStep(s: State, p: nat)
    requires Inv(s) && p < |s.procs| && s.procs[p].VictimWait?
    requires var b, k := s.procs[p].b, s.procs[p].k;
             b < |s.bufs| && !s.bufs[b].lock && s.bufs[b].count == 0 && !s.bufs[b].dirt && Find(s.bufs, k) == None
    ensures var b, k := s.procs[p].b, s.procs[p].k;
            Good(s, SetPc(SetBuf(s, b, Buf(k, 1, false, false, false, s.bufs[b].data)), p,
                HashWait(b, k, s.procs[p].want)), None)
  {
    var b, k := s.procs[p].b, s.procs[p].k;
    var s1 := SetBuf(s, b, Buf(k, 1, false, false, false, s.bufs[b].data));
    var s2 := SetPc(s1, p, HashWait(b, k, s.procs[p].want));
    assert ProcOk(s, p);
    Uncounted(s, b);
    OthersUnlocked(s, b);
    Kept(s, s2, b, p);
    forall k': Blk | k'.dev != 0 ensures View(s2, k') == View(s, k') {
      EvictionInvisible(s, b, k, 1, k');
      assert View(s2, k') == View(s1, k');
    }
  }

  lemma QueueStep(s: State, p: nat, i: nat)
    requires Inv(s) && i < |s.bufs| && s.bufs[i].dirt && s.io[i] == NoIo
    requires p < |s.procs| && (s.procs[p].Syncing? || s.procs[p].SyncSlot?)
    requires forall q: nat :: q < |s.procs| && q != p ==> LockOf(s.procs[q]) != Some(i)
    ensures Good(s, SetPc(QueueWrite(s, i), p, Syncing(s.procs[p].goal, i + 1)), None)
  {
    var s' := SetPc(QueueWrite(s, i), p, Syncing(s.procs[p].goal, i + 1));
    assert BufOk(s, i) && ProcOk(s, p);
    Kept(s, s', i, p);
    ViewsKept(s, s', i, p, None);
  }

  /** A sync takes the lock of a dirty buffer and waits for a request slot. */
  lemma SyncLockStep(s: State, p: nat)
    requires Inv(s) && p < |s.procs| && s.procs[p].Syncing?
    requires var i := s.procs[p].i; i < |s.bufs| && !s.bufs[i].lock && s.bufs[i].dirt
    ensures var i := s.procs[p].i;
            Good(s, SetPc(SetBuf(s, i, s.bufs[i].(lock := true)), p, SyncSlot(s.procs[p].goal, i)), None)
  {
    var i := s.procs[p].i;
    var s' := SetPc(SetBuf(s, i, s.bufs[i].(lock := true)), p, SyncSlot(s.procs[p].goal, i));
    assert ProcOk(s, p) && BufOk(s, i);
    OthersUnlocked(s, i);
    Kept(s, s', i, p);
    ViewsKept(s, s', i, p, None);
  }

  lemma SyncStep(s: State, p: nat, choice: nat, slot: bool)
    requires Inv(s) && Sized(s) && p < |s.procs| && (s.procs[p].Syncing? || s.procs[p].SyncSlot?) && ProcOk(s, p)
    ensures Good(s, Resume(s, p, choice, slot), None)
  {
    hide BufOk, Unique, View, Got;
    match s.procs[p]
    case Syncing(goal, i) =>
      if i >= |s.bufs| {
        OnlyPc(s, p, AfterSweep(goal));
      } else if !InSweep(goal, s.bufs[i].key) || (!s.bufs[i].lock && !s.bufs[i].dirt) {
        OnlyPc(s, p, Syncing(goal, i + 1));
      } else if !s.bufs[i].lock {
        OthersUnlocked(s, i);
        if slot { QueueStep(s, p, i); } else { SyncLockStep(s, p); }
      }
    case SyncSlot(goal, i) =>
      if slot { QueueStep(s, p, i); }
  }

  lemma ReadStep(s: State, p: nat, choice: nat, slot: bool)
    requires Inv(s) && p < |s.procs| && (s.procs[p].ReadSlot? || s.procs[p].ReadWait?)
    ensures Good(s, Resume(s, p, choice, slot), None)
    ensures s.procs[p].ReadWait? ==> Resume(s, p, choice, slot).procs[p] != Idle
  {
    assert ProcOk(s, p);
    var s' := Resume(s, p, choice, slot);
    match s.procs[p]
    case ReadSlot(b, k) =>
      if slot {
        assert BufOk(s, b);
        Kept(s, s', b, p);
        ViewsKept(s, s', b, p, None);
      }
    case ReadWait(b, k) =>
      if !s.bufs[b].lock { OnlyPc(s, p, Holding(b, k)); }
  }

  lemma CompleteStep(s: State, b: nat, early: Data)
    requires Inv(s) && b < |s.bufs| && s.io[b] != NoIo
    ensures Good(s, Transferred(s, b, early), None)
  {
    var s' := Transferred(s, b, early);
    assert BufOk(s, b);
    Kept(s, s', b, |s.procs|);
    ViewsKept(s, s', b, |s.procs|, None);
  }

  lemma HolderStep(s: State, e: Step)
    requires Inv(s) && (e.Store? || e.Release?)
    ensures Good(s, Next(s, e), Written(s, e))
  {
    var p := e.p;
    var s' := Next(s, e);
    if p < |s.procs| && s.procs[p].Holding? {
      var b := s.procs[p].b;
      assert ProcOk(s, p);
      assert BufOk(s, b);
      Counted(s, p);
      if e.Store? || !s.bufs[b].lock {
        Kept(s, s', b, p);
        ViewsKept(s, s', b, p, Written(s, e));
      }
    }
  }

  // ---------------------------------------------------------------- the main results

  /** Every step, of whichever process, keeps the invariant, and changes what the system holds only
      where it writes: evictions, write-backs and transfers are invisible. */
  lemma StepIsStore(s: State, e: Step)
    requires Inv(s)
    ensures Inv(Next(s, e)) && Shows(s, Next(s, e), Written(s, e))
  {
    match e
    case Call(p, k, want) =>
      if p < |s.procs| && s.procs[p] == Idle && k.dev != 0 { OnlyPc(s, p, Start(k, want)); }
    case Run(p, choice, slot) =>
      if p < |s.procs| {
        match s.procs[p]
        case Idle =>
        case Holding(_, _) =>
        case Start(_, _) => StartStep(s, p, choice, slot);
        case HashWait(_, _, _) => HashWaitStep(s, p, choice, slot);
        case NoBuffer(k, want) => assert ProcOk(s, p); OnlyPc(s, p, Start(k, want));
        case VictimWait(_, _, _) => VictimStep(s, p, choice, slot);
        case Syncing(_, _) => SyncStep(s, p, choice, slot);
        case SyncSlot(_, _) => SyncStep(s, p, choice, slot);
        case ReadSlot(_, _) => ReadStep(s, p, choice, slot);
        case ReadWait(_, _) => ReadStep(s, p, choice, slot);
      }
    case Store(p, v) => HolderStep(s, e);
    case Release(p) => HolderStep(s, e);
    case CallSync(p) => if p < |s.procs| && s.procs[p] == Idle { OnlyPc(s, p, Syncing(ForAll, 0)); }
    case Complete(b, early) => if b < |s.bufs| && s.io[b] != NoIo { CompleteStep(s, b, early); }
  }

  /** A holder sees what the system holds. */
  lemma HolderSeesStore(s: State, p: nat)
    requires Inv(s) && p < |s.procs| && s.procs[p].Holding?
    ensures s.procs[p].b < |s.bufs| && s.bufs[s.procs[p].b].data == View(s, s.procs[p].k)
  {
    assert ProcOk(s, p);
    ViewOf(s, s.procs[p].b);
  }

  /** A buffer changes its name only when it is unused, unlocked and clean, for a name that no buffer
      has. */
  lemma Renaming(s: State, e: Step, b: nat)
    requires Sized(s) && b < |s.bufs| && |Next(s, e).bufs| == |s.bufs| && Next(s, e).bufs[b].key != s.bufs[b].key
    ensures s.bufs[b].count == 0 && !s.bufs[b].lock && !s.bufs[b].dirt
    ensures forall c :: 0 <= c < |s.bufs| ==> s.bufs[c].key != Next(s, e).bufs[b].key
  {
    if e.Run? && e.p < |s.procs| {
      ResumeRenaming(s, e.p, e.choice, e.slot, b);
      hide Resume;
    }
  }

  /** Of all the places where a process may go on, only the end of the wait for a victim renames a buffer. */
  lemma ResumeRenaming(s: State, p: nat, choice: nat, slot: bool, b: nat)
    requires Sized(s) && p < |s.procs| && b < |s.bufs|
    ensures var r := Resume(s, p, choice, slot);
            && |r.bufs| == |s.bufs|
            && (r.bufs[b].key != s.bufs[b].key ==>
                  && s.procs[p].VictimWait? && s.procs[p].b == b && s.bufs[b].count == 0 && !s.bufs[b].lock
                        && !s.bufs[b].dirt
                  && forall c :: 0 <= c < |s.bufs| ==> s.bufs[c].key != r.bufs[b].key)
  {
    hide Find;
  }

  /** A buffer with a lost reference is never given to another block again. */
  lemma LostIsPinned(s: State, e: Step, b: nat)
    requires Inv(s) && b < |s.bufs| && s.lost[b] > 0
    ensures Inv(Next(s, e)) && |Next(s, e).bufs| == |s.bufs|
    ensures Next(s, e).lost[b] >= s.lost[b] && Next(s, e).bufs[b].key == s.bufs[b].key && Next(s, e).bufs[b].count > 0
  {
    StepIsStore(s, e);
    NextSized(s, e);
    var r := Next(s, e);
    assert BufOk(s, b) && BufOk(r, b);
    hide Next, BufOk, ProcOk;
    if r.bufs[b].key != s.bufs[b].key { Renaming(s, e, b); }
  }

  lemma NextSized(s: State, e: Step)
    requires Sized(s)
    ensures Sized(Next(s, e)) && |Next(s, e).bufs| == |s.bufs|
    ensures forall b :: 0 <= b < |s.bufs| ==> Next(s, e).lost[b] >= s.lost[b]
  {
    hide Find;
  }

  // ---------------------------------------------------------------- whole runs

  /** buffer_init, with every process idle. */
  ghost predicate Fresh(s: State) {
    && Sized(s)
    && (forall b :: 0 <= b < |s.bufs| ==> s.bufs[b].key.dev == 0 && s.bufs[b].count == 0 && s.io[b] == NoIo
                                          && !s.bufs[b].lock && !s.bufs[b].dirt && !s.bufs[b].uptodate
                                          && s.lost[b] == 0)
    && (forall p :: 0 <= p < |s.procs| ==> s.procs[p] == Idle)
  }

  lemma FreshIsGood(s: State)
    requires Fresh(s)
    ensures Inv(s) && forall k: Blk :: k.dev != 0 ==> View(s, k) == s.disk(k)
  {
    forall b: nat ensures Holders(s.procs, b) == {} {}
    forall b: nat | b < |s.bufs| ensures BufOk(s, b) {}
  }

  ghost function RunAll(s: State, es: seq<Step>): State
    requires Inv(s)
    decreases |es|
  {
    if es == [] then s
    else
      StepIsStore(s, es[0]);
      RunAll(Next(s, es[0]), es[1..])
  }

  /** The flat store that the run's writes make of m. */
  ghost function Stored(m: Blk -> Data, s: State, es: seq<Step>): Blk -> Data
    requires Inv(s)
    decreases |es|
  {
    if es == [] then m
    else
      StepIsStore(s, es[0]);
      var w := Written(s, es[0]);
      var m' := (k: Blk) => if w.Some? && w.value.0 == k then w.value.1 else m(k);
      Stored(m', Next(s, es[0]), es[1..])
  }

  /** Over every run and every interleaving, cache and disk together are a flat map from blocks to
      data, changed by nothing but the writes; and whoever holds a buffer sees that map's value. */
  lemma {:induction false} RunIsStore(s: State, m: Blk -> Data, es: seq<Step>)
    requires Inv(s) && forall k: Blk :: k.dev != 0 ==> View(s, k) == m(k)
    ensures var s' := RunAll(s, es); var m' := Stored(m, s, es);
            && Inv(s')
            && (forall k: Blk :: k.dev != 0 ==> View(s', k) == m'(k))
            && (forall p: nat :: p < |s'.procs| && s'.procs[p].Holding? ==>
                  s'.procs[p].b < |s'.bufs| && s'.bufs[s'.procs[p].b].data == m'(s'.procs[p].k))
    decreases |es|
  {
    if es == [] {
      forall p: nat | p < |s.procs| && s.procs[p].Holding?
        ensures s.procs[p].b < |s.bufs| && s.bufs[s.procs[p].b].data == m(s.procs[p].k)
      {
        HolderSeesStore(s, p);
        assert ProcOk(s, p);
      }
    } else {
      StepIsStore(s, es[0]);
      var w := Written(s, es[0]);
      RunIsStore(Next(s, es[0]), (k: Blk) => if w.Some? && w.value.0 == k then w.value.1 else m(k), es[1..]);
    }
  }

  // ---------------------------------------------------------------- what a sync writes

  /** The process is in the pass that goal g describes. */
  predicate InPass(pc: Pc, g: Goal) {
    (pc.Syncing? || pc.SyncSlot?) && pc.goal == g
  }

  /** A pass moves on one buffer at a time, and ends only behind the last: the first pass over a device with a second
      one, the second with a new look at the victim, sys_sync with its return. */
  lemma PassMoves(s: State, e: Step, p: nat, g: Goal)
    requires Sized(s) && p < |s.procs| && InPass(s.procs[p], g)
    ensures |Next(s, e).procs| == |s.procs|
    ensures var i, pc := s.procs[p].i, Next(s, e).procs[p];
            if InPass(pc, g) then pc.i == i || (pc.i == i + 1 && pc.Syncing? && i < |s.bufs|)
            else s.procs[p].Syncing? && i >= |s.bufs| && match g
                   case ForAll => pc == Idle
                   case ForVictim(b, k, want, dev, second) =>
                     if second then pc == VictimWait(b, k, want) else pc == Syncing(ForVictim(b, k, want, dev, true), 0)
  {
    hide Resume, InSweep;
    PcKept(s, e, p);
    if e.Run? && e.p == p { PassResumes(s, e, p); }
  }

  /** Only a process itself goes on from a call it is in the middle of. */
  lemma PcKept(s: State, e: Step, p: nat)
    requires Sized(s) && p < |s.procs| && !s.procs[p].Idle? && !s.procs[p].Holding?
    ensures |Next(s, e).procs| == |s.procs|
    ensures !(e.Run? && e.p == p) ==> Next(s, e).procs[p] == s.procs[p]
  {
    if e.Run? && e.p < |s.procs| { OthersPcKept(s, e.p, e.choice, e.slot, p); }
    hide Resume;
  }

  lemma OthersPcKept(s: State, q: nat, choice: nat, slot: bool, p: nat)
    requires Sized(s) && q < |s.procs| && p < |s.procs|
    ensures |Resume(s, q, choice, slot).procs| == |s.procs|
    ensures q != p ==> Resume(s, q, choice, slot).procs[p] == s.procs[p]
  {
    hide Find;
  }

  lemma PassResumes(s: State, e: Step, p: nat)
    requires Sized(s) && p < |s.procs| && e.Run? && e.p == p && (s.procs[p].Syncing? || s.procs[p].SyncSlot?)
    ensures Next(s, e) == Resume(s, p, e.choice, e.slot)
    ensures var i, g := s.procs[p].i, s.procs[p].goal;
            Resume(s, p, e.choice, e.slot).procs[p] in
              if s.procs[p].Syncing? && i >= |s.bufs| then {AfterSweep(g)}
              else if i >= |s.bufs| then {s.procs[p]}
              else {s.procs[p], Syncing(g, i + 1), SyncSlot(g, i)}
  {
    hide Find, InSweep;
  }

  /** A pass goes past a buffer that concerns it only when the buffer is clean; if it was dirty, its write is queued. */
  lemma PassWrites(s: State, e: Step, p: nat, g: Goal)
    requires Sized(s) && p < |s.procs| && InPass(s.procs[p], g) && s.procs[p].i < |s.bufs|
    requires p < |Next(s, e).procs| && Next(s, e).procs[p] == Syncing(g, s.procs[p].i + 1)
    requires g.ForAll? || s.bufs[s.procs[p].i].key.dev == g.dev
    ensures var i, r := s.procs[p].i, Next(s, e);
            && i < |r.bufs| == |r.io| && !r.bufs[i].dirt
            && (s.bufs[i].dirt || s.procs[p].SyncSlot? ==> r.io[i] == Writing && r.bufs[i].data == s.bufs[i].data)
  {
    PcKept(s, e, p);
    assert e.Run? && e.p == p;
    hide Find, Got;
  }

  /** Every buffer that concerns a pass and lies before it has been clean at some moment before the pass is over. */
  lemma {:induction false} PassCleans(s: State, es: seq<Step>, p: nat, g: Goal, b: nat) returns (n: nat)
    requires Inv(s) && p < |s.procs| && InPass(s.procs[p], g) && s.procs[p].i <= b < |s.bufs|
    requires g.ForAll? || s.bufs[b].key.dev == g.dev
    requires p < |RunAll(s, es).procs| && !InPass(RunAll(s, es).procs[p], g)
    ensures n <= |es| && b < |RunAll(s, es[..n]).bufs| && !RunAll(s, es[..n]).bufs[b].dirt
    decreases |es|
  {
    hide Next, BufOk, ProcOk, Unique, OneLocker;
    if !s.bufs[b].dirt {
      n := 0;
      assert es[..0] == [];
    } else {
      var r := Next(s, es[0]);
      assert es[..1] == [es[0]];
      PassComes(s, es[0], p, g, b);
      if r.bufs[b].dirt {
        n := PassCleans(r, es[1..], p, g, b);
        n := n + 1;
        assert es[..n][1..] == es[1..][..n - 1];
      } else {
        n := 1;
      }
    }
  }

  /** A buffer ahead of a pass is clean now, or still ahead of it. */
  lemma PassComes(s: State, e: Step, p: nat, g: Goal, b: nat)
    requires Inv(s) && p < |s.procs| && InPass(s.procs[p], g) && s.procs[p].i <= b < |s.bufs| && s.bufs[b].dirt
    requires g.ForAll? || s.bufs[b].key.dev == g.dev
    ensures Inv(Next(s, e)) && |Next(s, e).bufs| == |s.bufs| && p < |Next(s, e).procs|
    ensures Next(s, e).bufs[b].dirt ==> InPass(Next(s, e).procs[p], g) && Next(s, e).procs[p].i <= b
                                        && Next(s, e).bufs[b].key == s.bufs[b].key
  {
    StepIsStore(s, e);
    NextSized(s, e);
    PassMoves(s, e, p, g);
    if s.procs[p].i == b && Next(s, e).procs[p] == Syncing(g, b + 1) { PassWrites(s, e, p, g); }
    KeepsName(s, e, b);
    hide Next, BufOk, ProcOk, Unique, OneLocker;
  }

  lemma KeepsName(s: State, e: Step, b: nat)
    requires Sized(s) && b < |s.bufs| && s.bufs[b].dirt
    ensures |Next(s, e).bufs| == |s.bufs| && Next(s, e).bufs[b].key == s.bufs[b].key
  {
    NextSized(s, e);
    if Next(s, e).bufs[b].key != s.bufs[b].key { Renaming(s, e, b); }
    hide Next;
  }

  /** Before sys_sync returns, every buffer has been clean: whatever was dirty when it was called has been queued. */
  lemma SysSyncCleans(s: State, es: seq<Step>, p: nat, b: nat) returns (n: nat)
    requires Inv(s) && p < |s.procs| && s.procs[p] == Idle && b < |s.bufs| && Inv(Next(s, CallSync(p)))
    requires p < |RunAll(Next(s, CallSync(p)), es).procs| && RunAll(Next(s, CallSync(p)), es).procs[p] == Idle
    ensures n <= |es| && b < |RunAll(Next(s, CallSync(p)), es[..n]).bufs|
    ensures !RunAll(Next(s, CallSync(p)), es[..n]).bufs[b].dirt
  {
    n := PassCleans(Next(s, CallSync(p)), es, p, ForAll, b);
  }
}

/** schedule, the clock tick's charge and sys_nice of `kernel/sched.c`: which task runs next. */
module Dispatch {
  const NR_TASKS := 64
  const TASK_RUNNING := 0
  const TASK_INTERRUPTIBLE := 1
  const SIGKILL := 9
  const SIGALRM := 14
  const SIGSTOP := 19

  /** signal and blocked are the signal numbers set in the source's bit masks. */
  datatype Task = Task(state: int, counter: int, priority: int, alarm: int, signal: set<int>, blocked: set<int>)
  datatype Slot = Empty | Used(t: Task)

  // ---------------------------------------------------------------- alarms and signals

  /** What the first loop of schedule does to a task. */
  function Signalled(t: Task, jiffies: int): Task {
    var u := if t.alarm != 0 && t.alarm < jiffies then t.(signal := t.signal + {SIGALRM}, alarm := 0) else t;
    if u.signal - (u.blocked - {SIGKILL, SIGSTOP}) != {} && u.state == TASK_INTERRUPTIBLE
    then u.(state := TASK_RUNNING) else u
  }

  function SlotSignalled(s: Slot, jiffies: int): Slot {
    if s.Used? then Used(Signalled(s.t, jiffies)) else s
  }

  /** All tasks but the first. */
  function AllSignalled(ts: seq<Slot>, jiffies: int): seq<Slot> {
    seq(|ts|, i requires 0 <= i < |ts| => if i == 0 then ts[i] else SlotSignalled(ts[i], jiffies))
  }

  predicate Expired(t: Task, jiffies: int) {
    t.alarm != 0 && t.alarm < jiffies
  }

  /** A signal is waiting that the task does not block; the two that cannot be blocked count always. */
  predicate Deliverable(t: Task) {
    exists g :: g in t.signal && (g !in t.blocked || g == SIGKILL || g == SIGSTOP)
  }

  /** What the first loop may do to a slot: an alarm that has run out raises SIGALRM, once, and nothing else raises or
      clears a signal; a task changes state exactly when it sleeps interruptibly and has a deliverable signal. */
  ghost predicate Notified(was: Slot, now: Slot, jiffies: int) {
    if was.Empty? then now.Empty?
    else
      && now.Used?
      && (forall g :: g in now.t.signal <==> g in was.t.signal || (g == SIGALRM && Expired(was.t, jiffies)))
      && now.t.alarm == (if Expired(was.t, jiffies) then 0 else was.t.alarm)
      && now.t.counter == was.t.counter && now.t.priority == was.t.priority && now.t.blocked == was.t.blocked
      && (now.t.state != was.t.state <==> was.t.state == TASK_INTERRUPTIBLE && Deliverable(now.t))
      && (now.t.state != was.t.state ==> now.t.state == TASK_RUNNING)
  }

  ghost predicate AllNotified(ts: seq<Slot>, us: seq<Slot>, jiffies: int) {
    |us| == |ts| && (|ts| > 0 ==> us[0] == ts[0]) && forall i :: 0 < i < |ts| ==> Notified(ts[i], us[i], jiffies)
  }

  lemma SignalsNotify(ts: seq<Slot>, jiffies: int)
    ensures AllNotified(ts, AllSignalled(ts, jiffies), jiffies)
  {
    forall i | 0 < i < |ts| ensures Notified(ts[i], AllSignalled(ts, jiffies)[i], jiffies) {
      if ts[i].Used? { SignalNotifies(ts[i].t, jiffies); }
    }
  }

  lemma SignalNotifies(t: Task, jiffies: int)
    ensures Notified(Used(t), Used(Signalled(t, jiffies)), jiffies)
  {
    var u := if Expired(t, jiffies) then t.(signal := t.signal + {SIGALRM}, alarm := 0) else t;
    var due := u.signal - (u.blocked - {SIGKILL, SIGSTOP});
    forall g ensures g in due <==> g in u.signal && (g !in u.blocked || g == SIGKILL || g == SIGSTOP) {}
    if due != {} {
      var g := Member(due);
      assert g in u.signal;
    }
    assert Deliverable(u) <==> due != {};
  }

  lemma Member<T>(S: set<T>) returns (g: T)
    requires S != {}
    ensures g in S
  {
    g :| g in S;
  }

  // ---------------------------------------------------------------- counters

  function SlotRecharged(s: Slot): Slot {
    if s.Used? then Used(s.t.(counter := s.t.counter / 2 + s.t.priority)) else s
  }

  function AllRecharged(ts: seq<Slot>): seq<Slot> {
    seq(|ts|, i requires 0 <= i < |ts| => if i == 0 then ts[i] else SlotRecharged(ts[i]))
  }

  /** The new counter is the priority and half of what was left, rounded down; nothing else changes. */
  ghost predicate Renewed(was: Slot, now: Slot) {
    if was.Empty? then now.Empty?
    else
      && now.Used? && now.t == was.t.(counter := now.t.counter)
      && 2 * (now.t.counter - was.t.priority) <= was.t.counter < 2 * (now.t.counter - was.t.priority) + 2
  }

  ghost predicate AllRenewed(ts: seq<Slot>, us: seq<Slot>) {
    |us| == |ts| && (|ts| > 0 ==> us[0] == ts[0]) && forall i :: 0 < i < |ts| ==> Renewed(ts[i], us[i])
  }

  lemma RechargeRenews(ts: seq<Slot>)
    ensures AllRenewed(ts, AllRecharged(ts))
  {
  }

  /** A recharge keeps a lead: of two tasks of equal priority, the one with at least two ticks more still has more. */
  lemma LeadKept(ts: seq<Slot>, us: seq<Slot>, a: nat, b: nat)
    requires AllRenewed(ts, us) && 0 < a < |ts| && 0 < b < |ts| && ts[a].Used? && ts[b].Used?
    requires ts[a].t.priority == ts[b].t.priority
    ensures ts[a].t.counter >= ts[b].t.counter ==> us[a].t.counter >= us[b].t.counter
    ensures ts[a].t.counter >= ts[b].t.counter + 2 ==> us[a].t.counter > us[b].t.counter
  {
    assert Renewed(ts[a], us[a]) && Renewed(ts[b], us[b]);
  }

  /** A task that does not run gains with every recharge until it has one tick less than twice its priority. */
  lemma CreditGrows(ts: seq<Slot>, us: seq<Slot>, a: nat)
    requires AllRenewed(ts, us) && 0 < a < |ts| && ts[a].Used? && 0 <= ts[a].t.counter < 2 * ts[a].t.priority
    ensures us[a].t.counter < 2 * ts[a].t.priority
    ensures us[a].t.counter > ts[a].t.counter <==> ts[a].t.counter < 2 * ts[a].t.priority - 1
    ensures us[a].t.counter >= ts[a].t.counter
  {
    assert Renewed(ts[a], us[a]);
  }

  predicate Runnable(ts: seq<Slot>, i: int) {
    0 < i < |ts| && ts[i].Used? && ts[i].t.state == TASK_RUNNING
  }

  /** Counters are not negative and priorities are positive. */
  ghost predicate Sane(ts: seq<Slot>) {
    forall i :: 0 <= i < |ts| && ts[i].Used? ==> ts[i].t.counter >= 0 && ts[i].t.priority > 0
  }

  /** next is the runnable task of largest counter, the highest numbered of several; task 0 if none is runnable. */
  ghost predicate Best(ts: seq<Slot>, next: nat) {
    if next == 0 then forall i :: !Runnable(ts, i)
    else Runnable(ts, next)
         && forall i :: Runnable(ts, i) ==>
               ts[i].t.counter <= ts[next].t.counter && (ts[i].t.counter == ts[next].t.counter ==> i <= next)
  }

  /** Some task is runnable, and all that are have used up their time. */
  ghost predicate Spent(ts: seq<Slot>) {
    (exists i :: Runnable(ts, i)) && forall i :: Runnable(ts, i) ==> ts[i].t.counter == 0
  }

  /** The tasks as schedule leaves them: recharged once if all runnable ones were spent. */
  ghost function Scheduled(ts: seq<Slot>, jiffies: int): seq<Slot> {
    var us := AllSignalled(ts, jiffies);
    if Spent(us) then AllRecharged(us) else us
  }

  lemma BestIsUnique(ts: seq<Slot>, a: nat, b: nat)
    requires Best(ts, a) && Best(ts, b)
    ensures a == b
  {
    assert Runnable(ts, a) <==> a != 0;
    assert Runnable(ts, b) <==> b != 0;
  }

  /** One recharge is enough: afterwards every runnable task has time. */
  lemma RechargeOnce(ts: seq<Slot>)
    requires Sane(ts)
    ensures Sane(AllRecharged(ts)) && !Spent(AllRecharged(ts))
    ensures forall i :: Runnable(AllRecharged(ts), i) <==> Runnable(ts, i)
    ensures forall i :: Runnable(ts, i) ==> AllRecharged(ts)[i].t.counter >= ts[i].t.priority > 0
  {
    var us := AllRecharged(ts);
    assert forall i :: Runnable(us, i) <==> Runnable(ts, i);
    assert forall i :: Runnable(ts, i) ==> us[i].t.counter > 0;
  }

  class Processor {
    const task: array<Slot>
    var current: nat

    ghost predicate Valid()
      reads this, task
    {
      task.Length == NR_TASKS && current < NR_TASKS && Sane(task[..])
    }

    /** Every slot but the first is free at the start. */
    constructor (init: Task)
      requires init.counter >= 0 && init.priority > 0
      ensures Valid() && current == 0 && task[0] == Used(init) && forall i :: 0 < i < NR_TASKS ==> task[i] == Empty
    {
      task := new Slot[NR_TASKS](_ => Empty);
      current := 0;
      new;
      task[0] := Used(init);
    }

    method CheckSignals(jiffies: int)
      requires task.Length == NR_TASKS
      modifies task
      ensures task[..] == AllSignalled(old(task[..]), jiffies) && AllNotified(old(task[..]), task[..], jiffies)
    {
      hide Signalled, AllNotified;
      SignalsNotify(task[..], jiffies);
      var p := NR_TASKS - 1;
      while p > 0
        invariant 0 <= p < NR_TASKS
        invariant forall i :: 0 <= i < NR_TASKS ==>
                    task[i] == if i > p then SlotSignalled(old(task[i]), jiffies) else old(task[i])
      {
        if task[p].Used? {
          var t := SignalTask(task[p].t, jiffies);
          task[p] := Used(t);
        }
        p := p - 1;
      }
    }

    method SignalTask(t0: Task, jiffies: int) returns (t: Task)
      ensures t == Signalled(t0, jiffies)
    {
      t := t0;
      if t.alarm != 0 && t.alarm < jiffies {
        t := t.(signal := t.signal + {SIGALRM}, alarm := 0);
      }
      if t.signal - (t.blocked - {SIGKILL, SIGSTOP}) != {} && t.state == TASK_INTERRUPTIBLE {
        t := t.(state := TASK_RUNNING);
      }
    }

    /** The scan, from the last task down. */
    method PickNext() returns (c: int, next: nat)
      requires Valid()
      ensures next < NR_TASKS && Best(task[..], next)
      ensures c == if next == 0 then -1 else task[next].t.counter
    {
      c, next := -1, 0;
      var i := NR_TASKS - 1;
      while i > 0
        invariant 0 <= i < NR_TASKS && (next == 0 || i < next < NR_TASKS)
        invariant next == 0 ==> c == -1 && forall j :: i < j < NR_TASKS ==> !Runnable(task[..], j)
        invariant next != 0 ==> Runnable(task[..], next) && c == task[next].t.counter
                                && forall j :: i < j < NR_TASKS && Runnable(task[..], j)
                                               ==> task[j].t.counter <= c && (task[j].t.counter == c ==> j <= next)
      {
        if task[i].Used? && task[i].t.state == TASK_RUNNING && task[i].t.counter > c {
          c, next := task[i].t.counter, i;
        }
        i := i - 1;
      }
      assert forall j :: Runnable(task[..], j) ==> 0 < j < NR_TASKS;
    }

    method Recharge()
      requires task.Length == NR_TASKS
      modifies task
      ensures task[..] == AllRecharged(old(task[..])) && AllRenewed(old(task[..]), task[..])
    {
      RechargeRenews(task[..]);
      hide AllRenewed;
      var p := NR_TASKS - 1;
      while p > 0
        invariant 0 <= p < NR_TASKS
        invariant forall i :: 0 <= i < NR_TASKS ==>
                    task[i] == if i > p then SlotRecharged(old(task[i])) else old(task[i])
      {
        if task[p].Used? {
          task[p] := Used(task[p].t.(counter := task[p].t.counter / 2 + task[p].t.priority));
        }
        p := p - 1;
      }
    }

    /** schedule. The outer loop turns at most twice; us are the tasks between the first loop and the others. */
    method Schedule(jiffies: int) returns (ghost us: seq<Slot>)
      requires Valid()
      modifies this, task
      ensures Valid() && task[..] == Scheduled(old(task[..]), jiffies) && Best(task[..], current)
      ensures AllNotified(old(task[..]), us, jiffies)
      ensures if Spent(us) then AllRenewed(us, task[..]) else task[..] == us
    {
      SignalsKeepCounters(task[..], jiffies);
      hide Signalled, AllNotified, AllRenewed;
      CheckSignals(jiffies);
      us := task[..];
      RechargeRenews(us);
      var c: int, next: nat := PickNext();
      while c == 0
        invariant Valid() && next < NR_TASKS && Best(task[..], next)
        invariant c == if next == 0 then -1 else task[next].t.counter
        invariant task[..] == us || (task[..] == AllRecharged(us) && Spent(us) && c != 0)
        invariant c == 0 ==> task[..] == us
        decreases c == 0
      {
        assert Runnable(us, next);
        RechargeOnce(us);
        Recharge();
        c, next := PickNext();
      }
      assert c != 0 && task[..] == us ==> !Spent(us);
      current := next;
    }

    /** The end of do_timer: the running task pays one tick; user code gives way when its time is up. */
    method ChargeTick(cpl: nat, jiffies: int)
      requires Valid() && task[current].Used?
      modifies this, task
      ensures Valid()
      ensures var t := old(task[current].t); var ts := Charged(old(task[..]), old(current));
              if t.counter > 1 || cpl == 0 then task[..] == ts && current == old(current)
              else task[..] == Scheduled(ts, jiffies) && Best(task[..], current)
      ensures var t := old(task[current].t);
              t.counter > 1 || cpl == 0 ==>
                && task[old(current)] == Used(t.(counter := task[old(current)].t.counter))
                && task[old(current)].t.counter == (if t.counter > 0 then t.counter - 1 else 0)
                && forall i :: 0 <= i < NR_TASKS && i != old(current) ==> task[i] == old(task[i])
    {
      task[current] := Used(task[current].t.(counter := task[current].t.counter - 1));
      if task[current].t.counter > 0 { return; }
      task[current] := Used(task[current].t.(counter := 0));
      assert task[..] == Charged(old(task[..]), current);
      if cpl == 0 { return; }
      ghost var us := Schedule(jiffies);
    }

    /** sys_nice. */
    method Nice(increment: int)
      requires Valid() && task[current].Used?
      modifies task
      ensures Valid() && task[..] == Niced(old(task[..]), current, increment)
      ensures var t, p := old(task[current].t), old(task[current].t.priority) - increment;
              && task[current] == Used(t.(priority := if p > 0 then p else t.priority))
              && forall i :: 0 <= i < NR_TASKS && i != current ==> task[i] == old(task[i])
    {
      if task[current].t.priority - increment > 0 {
        task[current] := Used(task[current].t.(priority := task[current].t.priority - increment));
      }
    }
  }

  // ---------------------------------------------------------------- steps of a run

  function Charged(ts: seq<Slot>, i: int): seq<Slot>
    requires 0 <= i < |ts|
  {
    if ts[i].Empty? then ts
    else ts[i := Used(ts[i].t.(counter := if ts[i].t.counter > 1 then ts[i].t.counter - 1 else 0))]
  }

  function Niced(ts: seq<Slot>, i: int, increment: int): seq<Slot>
    requires 0 <= i < |ts|
  {
    if ts[i].Empty? || ts[i].t.priority - increment <= 0 then ts
    else ts[i := Used(ts[i].t.(priority := ts[i].t.priority - increment))]
  }

  /** copy_process: the child, not runnable yet, starts with a full counter. */
  function Forked(ts: seq<Slot>, parent: int, child: int): seq<Slot>
    requires 0 <= parent < |ts| && 0 <= child < |ts|
  {
    if ts[parent].Empty? then ts
    else ts[child := Used(ts[parent].t.(state := 2, counter := ts[parent].t.priority, signal := {}, alarm := 0))]
  }

  /** The child sleeps uninterruptibly, has a whole allotment that nobody else pays for, and nothing pending. */
  lemma ForkGrants(ts: seq<Slot>, parent: nat, child: nat)
    requires parent < |ts| && child < |ts| && ts[parent].Used? && ts[child].Empty?
    ensures var us := Forked(ts, parent, child);
            && |us| == |ts| && us[child].Used? && us[child].t.state == 2
            && us[child].t.counter == us[child].t.priority == ts[parent].t.priority
            && us[child].t.signal == {} && us[child].t.alarm == 0 && us[child].t.blocked == ts[parent].t.blocked
            && forall i :: 0 <= i < |ts| && i != child ==> us[i] == ts[i]
  {
  }

  // ---------------------------------------------------------------- runs

  datatype System = System(ts: seq<Slot>, cur: nat)

  datatype Event =
    | Charge                              // a clock tick, charged to the running task
    | Switch(jiffies: int, next: nat)     // schedule() chooses next
    | SetState(i: nat, state: int)        // a task blocks, is woken, stops or ends
    | Fork(child: nat)                    // the running task forks into a free slot
    | Release(i: nat)                     // a parent has waited for task i: its slot is free again
    | Renice(increment: int)              // the running task calls nice

  ghost predicate Enabled(s: System, e: Event) {
    && s.cur < |s.ts| == NR_TASKS
    && match e
       case Charge => true
       case Switch(jiffies, next) => next < NR_TASKS && Best(Scheduled(s.ts, jiffies), next)
       case SetState(i, v) => i < NR_TASKS && s.ts[i].Used?
       case Fork(child) => 0 < child < NR_TASKS && s.ts[child].Empty? && s.ts[s.cur].Used?
       case Release(i) => 0 < i < NR_TASKS && i != s.cur && s.ts[i].Used? && s.ts[i].t.state != TASK_RUNNING
       case Renice(increment) => true
  }

  ghost function Next(s: System, e: Event): System
    requires Enabled(s, e)
  {
    match e
    case Charge => s.(ts := Charged(s.ts, s.cur))
    case Switch(jiffies, next) => System(Scheduled(s.ts, jiffies), next)
    case SetState(i, v) => s.(ts := s.ts[i := Used(s.ts[i].t.(state := v))])
    case Fork(child) => s.(ts := Forked(s.ts, s.cur, child))
    case Release(i) => s.(ts := s.ts[i := Empty])
    case Renice(increment) => s.(ts := Niced(s.ts, s.cur, increment))
  }

  ghost predicate EnabledRun(s: System, es: seq<Event>)
    decreases |es|
  {
    es == [] || (Enabled(s, es[0]) && EnabledRun(Next(s, es[0]), es[1..]))
  }

  ghost function Last(s: System, es: seq<Event>): System
    requires EnabledRun(s, es)
    decreases |es|
  {
    if es == [] then s else Last(Next(s, es[0]), es[1..])
  }

  predicate SameClock(a: Slot, b: Slot) {
    if a.Used? then b.Used? && b.t.counter == a.t.counter && b.t.priority == a.t.priority else b.Empty?
  }

  lemma SignalsKeepCounters(ts: seq<Slot>, jiffies: int)
    ensures var us := AllSignalled(ts, jiffies);
            forall i :: 0 <= i < |ts| ==> SameClock(ts[i], us[i]) && (Runnable(ts, i) ==> Runnable(us, i))
  {
  }

  lemma NextSane(s: System, e: Event)
    requires Enabled(s, e) && Sane(s.ts)
    ensures Sane(Next(s, e).ts) && |Next(s, e).ts| == |s.ts|
  {
    if e.Switch? {
      SignalsKeepCounters(s.ts, e.jiffies);
      hide AllSignalled, Best, Spent;
      RechargeOnce(AllSignalled(s.ts, e.jiffies));
    }
  }

  /** Counters stay below twice the priority. */
  ghost predicate Below(ts: seq<Slot>) {
    forall i :: 0 < i < |ts| && ts[i].Used? ==> ts[i].t.counter < 2 * ts[i].t.priority
  }

  lemma NextBelow(s: System, e: Event)
    requires Enabled(s, e) && Sane(s.ts) && Below(s.ts) && !e.Renice?
    ensures Below(Next(s, e).ts)
  {
    if e.Switch? {
      SignalsKeepCounters(s.ts, e.jiffies);
      hide AllSignalled, Best, Spent;
    }
  }

  /** Over every run without nice, new tasks included. */
  lemma {:induction false} RunBelow(s: System, es: seq<Event>)
    requires EnabledRun(s, es) && Sane(s.ts) && Below(s.ts) && forall e :: e in es ==> !e.Renice?
    ensures Sane(Last(s, es).ts) && Below(Last(s, es).ts)
    decreases |es|
  {
    if es != [] {
      assert es[0] in es;
      NextSane(s, es[0]);
      NextBelow(s, es[0]);
      hide Sane, Below, Next, Enabled;
      RunBelow(Next(s, es[0]), es[1..]);
    }
  }

  /** nice keeps it exactly when the caller's counter is below twice the new priority. */
  lemma NiceBelowIff(s: System, increment: int)
    requires Enabled(s, Renice(increment)) && Sane(s.ts) && Below(s.ts) && s.cur > 0 && s.ts[s.cur].Used?
    ensures var t := s.ts[s.cur].t;
            Below(Next(s, Renice(increment)).ts)
            <==> t.priority - increment <= 0 || t.counter < 2 * (t.priority - increment)
  {
    var us := Next(s, Renice(increment)).ts;
    assert us[s.cur].t.counter == s.ts[s.cur].t.counter;
  }

  /** A task of priority 15 with 15 ticks left that makes itself nicer by 10 is left with three times its new
      priority. */
  lemma NiceBreaksBound(s: System)
    requires Enabled(s, Renice(10)) && s.cur > 0 && s.ts[s.cur].Used?
    requires s.ts[s.cur].t.priority == 15 && s.ts[s.cur].t.counter == 15
    ensures Next(s, Renice(10)).ts[s.cur] == Used(s.ts[s.cur].t.(priority := 5)) && !Below(Next(s, Renice(10)).ts)
  {
    assert Next(s, Renice(10)).ts[s.cur].t.counter == 15;
  }

  // ---------------------------------------------------------------- every runnable task gets its turn

  ghost predicate Recharging(s: System, e: Event) {
    e.Switch? && Spent(AllSignalled(s.ts, e.jiffies))
  }

  ghost function Recharges(s: System, es: seq<Event>): nat
    requires EnabledRun(s, es)
    decreases |es|
  {
    if es == [] then 0 else (if Recharging(s, es[0]) then 1 else 0) + Recharges(Next(s, es[0]), es[1..])
  }

  /** t stays runnable through the run, and is never the running task. */
  ghost predicate Waits(s: System, es: seq<Event>, t: nat)
    requires EnabledRun(s, es)
    decreases |es|
  {
    Runnable(s.ts, t) && s.cur != t && (es == [] || Waits(Next(s, es[0]), es[1..], t))
  }

  lemma WaitStep(s: System, e: Event, t: nat)
    requires Enabled(s, e) && Sane(s.ts) && Runnable(s.ts, t) && s.cur != t && Runnable(Next(s, e).ts, t)
    ensures Recharging(s, e) ==> s.ts[t].t.counter == 0 && Next(s, e).ts[t].t.counter > 0
    ensures !Recharging(s, e) ==> Next(s, e).ts[t].t.counter == s.ts[t].t.counter
  {
    if e.Switch? {
      SignalsKeepCounters(s.ts, e.jiffies);
      hide AllSignalled, Best;
    }
  }

  /** A task that stays runnable is dispatched before a second recharge; and before the first, if it has any
      time left. */
  lemma {:induction false} DispatchedBeforeSecondRecharge(s: System, es: seq<Event>, t: nat)
    requires EnabledRun(s, es) && Sane(s.ts) && Waits(s, es, t)
    ensures Recharges(s, es) <= if s.ts[t].t.counter > 0 then 0 else 1
    ensures Recharges(s, es) == 0 ==>
      var ts := Last(s, es).ts; t < |ts| && ts[t].Used? && ts[t].t.counter == s.ts[t].t.counter
    decreases |es|
  {
    if es != [] {
      var r := Next(s, es[0]);
      assert Waits(r, es[1..], t);
      WaitStep(s, es[0], t);
      NextSane(s, es[0]);
      hide Sane, Next, Enabled, Recharging;
      DispatchedBeforeSecondRecharge(r, es[1..], t);
    }
  }

  ghost function Total(ts: seq<Slot>, n: nat): int
    requires 1 <= n <= |ts|
  {
    if n == 1 then 0 else Total(ts, n - 1) + if ts[n - 1].Used? then ts[n - 1].t.counter else 0
  }

  /** Ticks charged against a counter that was not yet 0. */
  ghost function Paid(s: System, es: seq<Event>): nat
    requires EnabledRun(s, es)
    decreases |es|
  {
    if es == [] then 0
    else (if es[0].Charge? && s.cur > 0 && s.ts[s.cur].Used? && s.ts[s.cur].t.counter > 0 then 1 else 0)
         + Paid(Next(s, es[0]), es[1..])
  }

  /** The counters new tasks start with. */
  ghost function Granted(s: System, es: seq<Event>): int
    requires EnabledRun(s, es)
    decreases |es|
  {
    if es == [] then 0
    else (if es[0].Fork? then s.ts[s.cur].t.priority else 0) + Granted(Next(s, es[0]), es[1..])
  }

  /** The time that released tasks had left. */
  ghost function Dropped(s: System, es: seq<Event>): int
    requires EnabledRun(s, es)
    decreases |es|
  {
    if es == [] then 0
    else (if es[0].Release? then s.ts[es[0].i].t.counter else 0) + Dropped(Next(s, es[0]), es[1..])
  }

  lemma {:induction false} TotalChange(ts: seq<Slot>, us: seq<Slot>, n: nat, i: nat, d: int)
    requires 1 <= n <= |ts| == |us|
    requires forall j :: 0 < j < |ts| && j != i ==> Time(us[j]) == Time(ts[j])
    requires 0 < i < |ts| ==> Time(us[i]) == Time(ts[i]) + d
    ensures Total(us, n) == Total(ts, n) + if 0 < i < n then d else 0
    decreases n
  {
    if n > 1 {
      TotalChange(ts, us, n - 1, i, d);
      assert Time(us[n - 1]) == Time(ts[n - 1]) + if i == n - 1 then d else 0;
    }
  }

  ghost function Time(s: Slot): int {
    if s.Used? then s.t.counter else 0
  }

  /** Between recharges the time left in all counters pays for the ticks: their sum goes down by one with each
      such tick, and otherwise changes only as tasks come and go. */
  lemma {:induction false} TimeIsSpent(s: System, es: seq<Event>)
    requires EnabledRun(s, es) && Sane(s.ts) && |s.ts| == NR_TASKS && Recharges(s, es) == 0
    ensures |Last(s, es).ts| == NR_TASKS
    ensures Total(Last(s, es).ts, NR_TASKS) + Paid(s, es) + Dropped(s, es) == Total(s.ts, NR_TASKS) + Granted(s, es)
    ensures Dropped(s, es) >= 0
    decreases |es|
  {
    if es != [] {
      var e, r := es[0], Next(s, es[0]);
      NextSane(s, e);
      StepTotal(s, e);
      hide Sane, Next, Enabled, Recharging, Total;
      TimeIsSpent(r, es[1..]);
    }
  }

  lemma StepTotal(s: System, e: Event)
    requires Enabled(s, e) && Sane(s.ts) && !Recharging(s, e)
    ensures |Next(s, e).ts| == NR_TASKS
    ensures Total(Next(s, e).ts, NR_TASKS) == Total(s.ts, NR_TASKS)
            - (if e.Charge? && s.cur > 0 && s.ts[s.cur].Used? && s.ts[s.cur].t.counter > 0 then 1 else 0)
            + (if e.Fork? then s.ts[s.cur].t.priority else 0)
            - (if e.Release? then s.ts[e.i].t.counter else 0)
    ensures e.Release? ==> s.ts[e.i].t.counter >= 0
  {
    var us := Next(s, e).ts;
    hide Total;
    if e.Switch? {
      SignalsKeepCounters(s.ts, e.jiffies);
      hide AllSignalled, Best, Spent;
    }
    var i, d := if e.Fork? then e.child else if e.Release? then e.i else s.cur,
      if e.Fork? then s.ts[s.cur].t.priority
      else if e.Release? then -s.ts[e.i].t.counter
      else if e.Charge? && s.ts[s.cur].Used? && s.ts[s.cur].t.counter > 0 then -1 else 0;
    TotalChange(s.ts, us, NR_TASKS, i, d);
  }

  /** So a runnable task with time left waits no more such ticks than the others have in their counters. */
  lemma WaitIsBounded(s: System, es: seq<Event>, t: nat)
    requires EnabledRun(s, es) && Sane(s.ts) && |s.ts| == NR_TASKS && Waits(s, es, t) && s.ts[t].t.counter > 0
    ensures Paid(s, es) <= Total(s.ts, NR_TASKS) - s.ts[t].t.counter + Granted(s, es)
  {
    DispatchedBeforeSecondRecharge(s, es, t);
    TimeIsSpent(s, es);
    RunSane(s, es);
    TotalAtLeast(Last(s, es).ts, NR_TASKS, t);
  }

  lemma {:induction false} RunSane(s: System, es: seq<Event>)
    requires EnabledRun(s, es) && Sane(s.ts)
    ensures Sane(Last(s, es).ts)
    decreases |es|
  {
    if es != [] {
      NextSane(s, es[0]);
      RunSane(Next(s, es[0]), es[1..]);
    }
  }

  lemma {:induction false} TotalAtLeast(ts: seq<Slot>, n: nat, t: nat)
    requires Sane(ts) && 1 <= n <= |ts|
    ensures Total(ts, n) >= if 0 < t < n && ts[t].Used? then ts[t].t.counter else 0
    decreases n
  {
    if n > 1 { TotalAtLeast(ts, n - 1, t); }
  }
}

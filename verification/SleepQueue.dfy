/** sleep_on and wake_up of `kernel/sched.c`. Each sleeper keeps, in a local variable of its own call, the task that was
    first on the queue before it; these variables are the only links of the wait chains. */
module SleepQueue {
  import opened Basics

  const TASK_RUNNING := 0
  const TASK_UNINTERRUPTIBLE := 2

  /** inside[t]: task t is between the two halves of sleep_on, and tmp[t] is its local variable. */
  datatype State = State(head: seq<int>, state: seq<int>, inside: seq<bool>, tmp: seq<int>)

  ghost predicate Asleep(s: State, t: int) {
    0 <= t < |s.inside| == |s.state| && s.inside[t] && s.state[t] == TASK_UNINTERRUPTIBLE
  }

  /** Made runnable, but not yet back from schedule(). */
  ghost predicate Woken(s: State, t: int) {
    0 <= t < |s.inside| == |s.state| && s.inside[t] && s.state[t] == TASK_RUNNING
  }

  // ---------------------------------------------------------------- steps

  datatype Event =
    | Sleep(t: nat, q: nat)      // current task t calls sleep_on(&head[q]) up to schedule()
    | Resume(t: nat)             // t returns from schedule() and finishes sleep_on
    | Wake(q: nat)               // wake_up(&head[q])
    | Other(t: nat, state: int)  // anything else that sets the state of a task outside sleep_on

  ghost predicate Enabled(s: State, e: Event) {
    match e
    case Sleep(t, q) => 0 < t < |s.state| == |s.inside| && q < |s.head| && !s.inside[t] && s.state[t] == TASK_RUNNING
    case Resume(t) => Woken(s, t)
    case Wake(q) => q < |s.head|
    case Other(t, v) => t < |s.state| == |s.inside| && !s.inside[t]
  }

  ghost predicate Sized(s: State) {
    && |s.inside| == |s.tmp| == |s.state|
    && (forall q :: 0 <= q < |s.head| ==> NONE <= s.head[q] < |s.state|)
    && (forall t :: 0 <= t < |s.tmp| ==> NONE <= s.tmp[t] < |s.state|)
  }

  function Rouse(s: State, t: int): State
    requires NONE <= t < |s.state|
  {
    if t == NONE then s else s.(state := s.state[t := TASK_RUNNING])
  }

  function SleepOn(s: State, t: nat, q: nat): State
    requires t < |s.state| == |s.tmp| == |s.inside| && q < |s.head|
  {
    s.(tmp := s.tmp[t := s.head[q]], head := s.head[q := t], state := s.state[t := TASK_UNINTERRUPTIBLE],
       inside := s.inside[t := true])
  }

  function WakeUp(s: State, q: nat): State
    requires q < |s.head| && NONE <= s.head[q] < |s.state|
  {
    Rouse(s, s.head[q]).(head := s.head[q := NONE])
  }

  function Resumed(s: State, t: nat): State
    requires t < |s.state| == |s.tmp| == |s.inside| && NONE <= s.tmp[t] < |s.state|
  {
    Rouse(s, s.tmp[t]).(inside := s.inside[t := false])
  }

  ghost function Next(s: State, e: Event): State
    requires Sized(s) && Enabled(s, e)
  {
    match e
    case Sleep(t, q) => SleepOn(s, t, q)
    case Resume(t) => Resumed(s, t)
    case Wake(q) => WakeUp(s, q)
    case Other(t, v) => s.(state := s.state[t := v])
  }

  // ---------------------------------------------------------------- chains

  /** Where a chain of sleepers starts. */
  datatype Root = Queue(q: nat) | Task(t: nat) | Nowhere

  /** The chain from each queue head, the chain from each task's tmp, the chain each sleeper is on and the queue
      it sleeps on. */
  datatype Chains = Chains(queues: seq<seq<nat>>, tasks: seq<seq<nat>>, home: seq<Root>, on: seq<nat>)

  ghost predicate Shape(s: State, c: Chains) {
    && Sized(s) && |c.queues| == |s.head| && |c.tasks| == |c.home| == |c.on| == |s.state|
  }

  /** A queue, or a task that has been woken and not yet resumed. */
  ghost predicate IsRoot(s: State, r: Root) {
    match r
    case Queue(q) => q < |s.head|
    case Task(t) => Woken(s, t)
    case Nowhere => false
  }

  ghost function First(s: State, r: Root): int
    requires Sized(s) && IsRoot(s, r)
  {
    if r.Queue? then s.head[r.q] else s.tmp[r.t]
  }

  ghost function Chain(s: State, c: Chains, r: Root): seq<nat>
    requires Shape(s, c) && IsRoot(s, r)
  {
    if r.Queue? then c.queues[r.q] else c.tasks[r.t]
  }

  /** The saved links from a root visit each sleeper at home there once, all of one queue, and end. */
  ghost predicate ChainOk(s: State, c: Chains, r: Root)
    requires Shape(s, c) && IsRoot(s, r)
  {
    var q := Chain(s, c, r);
    && Linked(s.tmp, First(s, r), q) && NoDup(q)
    && (forall t: nat :: t in q <==> t < |c.home| && c.home[t] == r)
    && (forall t: nat :: t in q && t < |c.on| ==> c.on[t] == if r.Queue? then r.q else c.on[r.t])
  }

  /** Every sleeper has a home, which is a root; nobody else has one; a task inside sleep_on is asleep or woken. */
  ghost predicate Homes(s: State, c: Chains)
    requires Shape(s, c)
  {
    && (forall t :: 0 <= t < |s.state| ==> if Asleep(s, t) then IsRoot(s, c.home[t]) else c.home[t] == Nowhere)
    && (forall t :: 0 <= t < |s.state| && s.inside[t] ==> Asleep(s, t) || Woken(s, t))
  }

  ghost predicate Inv(s: State, c: Chains) {
    && Shape(s, c) && Homes(s, c)
    && (forall r :: IsRoot(s, r) ==> ChainOk(s, c, r))
  }

  // ---------------------------------------------------------------- how the chains change

  function Joined(c: Chains, t: nat, q: nat): Chains
    requires t < |c.home| == |c.on| && q < |c.queues|
  {
    c.(queues := c.queues[q := [t] + c.queues[q]], home := c.home[t := Queue(q)], on := c.on[t := q])
  }

  /** The chain p loses its first task, which takes the rest of the chain with it. */
  function Moved(c: Chains, p: seq<nat>): Chains
    requires p == [] || p[0] < |c.tasks|
  {
    if p == [] then c
    else c.(tasks := c.tasks[p[0] := p[1..]],
            home := seq(|c.home|, t requires 0 <= t < |c.home| =>
                      if t == p[0] then Nowhere else if t in p then Task(p[0]) else c.home[t]))
  }

  ghost function NextChains(s: State, c: Chains, e: Event): Chains
    requires Inv(s, c) && Enabled(s, e)
  {
    match e
    case Sleep(t, q) => Joined(c, t, q)
    case Resume(t) => assert ChainOk(s, c, Task(t)); Moved(c, c.tasks[t])
    case Wake(q) => assert ChainOk(s, c, Queue(q)); Moved(c.(queues := c.queues[q := []]), c.queues[q])
    case Other(t, v) => c
  }

  lemma SleepKeeps(s: State, c: Chains, t: nat, q: nat)
    requires Inv(s, c) && Enabled(s, Sleep(t, q))
    ensures Inv(SleepOn(s, t, q), Joined(c, t, q))
  {
    var s2, c2 := SleepOn(s, t, q), Joined(c, t, q);
    assert !Asleep(s, t) && c.home[t] == Nowhere;
    assert forall u :: 0 <= u < |s.state| && u != t ==>
           (Asleep(s2, u) <==> Asleep(s, u)) && (Woken(s2, u) <==> Woken(s, u));
    assert Homes(s2, c2);
    hide Homes;
    forall r | IsRoot(s2, r) ensures ChainOk(s2, c2, r) {
      SleepChain(s, c, t, q, r);
    }
  }

  lemma SleepChain(s: State, c: Chains, t: nat, q: nat, r: Root)
    requires Shape(s, c) && Enabled(s, Sleep(t, q)) && c.home[t] == Nowhere && IsRoot(s, r) && ChainOk(s, c, r)
               && r != Task(t)
    ensures Shape(SleepOn(s, t, q), Joined(c, t, q)) && IsRoot(SleepOn(s, t, q), r)
    ensures ChainOk(SleepOn(s, t, q), Joined(c, t, q), r)
  {
    var s2, p := SleepOn(s, t, q), Chain(s, c, r);
    assert t !in p;
    LinkedFrame(s.tmp, s2.tmp, First(s, r), p);
    if r == Queue(q) {
      assert ([t] + p)[1..] == p;
      assert NoDup([t] + p);
    }
  }

  /** The first sleeper p[0] of the chain p from root r is made runnable and the root is dropped: common to
      wake_up and to the second half of sleep_on. */
  lemma MoveKeeps(s: State, c: Chains, r: Root, s2: State, c2: Chains)
    requires Inv(s, c) && IsRoot(s, r) && Drops(s, c, r, s2, c2)
    ensures Inv(s2, c2)
  {
    assert ChainOk(s, c, r);
    MovedHomes(s, c, r, s2, c2);
    hide Homes, Moved, Woken, Asleep;
    forall x | IsRoot(s2, x) ensures ChainOk(s2, c2, x) {
      MovedRoots(s, c, r, s2, c2, x);
      var p := Chain(s, c, r);
      if p != [] && x == Task(p[0]) { MovedRest(s, c, r, s2, c2); } else { MovedOther(s, c, r, s2, c2, x); }
    }
  }

  ghost predicate Drops(s: State, c: Chains, r: Root, s2: State, c2: Chains)
    requires Shape(s, c) && IsRoot(s, r)
  {
    var p := Chain(s, c, r);
    && (p == [] || p[0] < |c.tasks|)
    && c2 == Moved(if r.Queue? then c.(queues := c.queues[r.q := []]) else c, p)
    && s2.state == Rouse(s, First(s, r)).state && s2.tmp == s.tmp
    && s2.head == (if r.Queue? then s.head[r.q := NONE] else s.head)
    && s2.inside == (if r.Task? then s.inside[r.t := false] else s.inside)
  }

  /** Only the first of the chain changes state, and a task that leaves sleep_on is inside it no more. */
  lemma MovedStates(s: State, c: Chains, r: Root, s2: State, c2: Chains)
    requires Inv(s, c) && IsRoot(s, r) && Drops(s, c, r, s2, c2)
    ensures Shape(s2, c2)
    ensures var p := Chain(s, c, r);
            && (p != [] ==> p[0] < |s.state|)
            && (forall u :: 0 <= u < |s.state| ==> (Asleep(s2, u) <==> Asleep(s, u) && (p == [] || u != p[0])))
            && (forall u :: 0 <= u < |s.state| ==>
                  (Woken(s2, u) <==> (p != [] && u == p[0]) || (Woken(s, u) && r != Task(u))))
            && (forall u :: 0 <= u < |s.state| && s2.inside[u] ==> s.inside[u] && r != Task(u))
  {
    assert ChainOk(s, c, r);
    var p := Chain(s, c, r);
    assert p != [] ==> p[0] in p;
  }

  lemma MovedHomes(s: State, c: Chains, r: Root, s2: State, c2: Chains)
    requires Inv(s, c) && IsRoot(s, r) && Drops(s, c, r, s2, c2)
    ensures Shape(s2, c2) && Homes(s2, c2)
  {
    assert ChainOk(s, c, r);
    MovedStates(s, c, r, s2, c2);
    hide Woken, Asleep;
  }

  lemma MovedRoots(s: State, c: Chains, r: Root, s2: State, c2: Chains, x: Root)
    requires Inv(s, c) && IsRoot(s, r) && Drops(s, c, r, s2, c2) && IsRoot(s2, x)
    ensures var p := Chain(s, c, r);
            if p != [] && x == Task(p[0]) then Woken(s2, p[0])
            else IsRoot(s, x) && (r.Task? ==> x != r)
  {
    MovedStates(s, c, r, s2, c2);
  }

  lemma MovedOther(s: State, c: Chains, r: Root, s2: State, c2: Chains, x: Root)
    requires Shape(s, c) && IsRoot(s, r) && ChainOk(s, c, r) && Shape(s2, c2) && Drops(s, c, r, s2, c2)
    requires Chain(s, c, r) == [] || x != Task(Chain(s, c, r)[0])
    requires IsRoot(s2, x) && (r.Task? ==> x != r) && IsRoot(s, x) && ChainOk(s, c, x)
    ensures ChainOk(s2, c2, x)
  {
    var p := Chain(s, c, r);
    if x != r {
      assert Chain(s2, c2, x) == Chain(s, c, x) && First(s2, x) == First(s, x);
      assert x.Task? ==> c2.on[x.t] == c.on[x.t];
    }
  }

  lemma MovedRest(s: State, c: Chains, r: Root, s2: State, c2: Chains)
    requires Inv(s, c) && IsRoot(s, r) && ChainOk(s, c, r) && Shape(s2, c2) && Drops(s, c, r, s2, c2)
    requires Chain(s, c, r) != [] && Woken(s2, Chain(s, c, r)[0])
    ensures ChainOk(s2, c2, Task(Chain(s, c, r)[0]))
  {
    var p := Chain(s, c, r);
    assert p[0] in p && forall t: nat :: t < |c.home| ==> c.home[t] != Task(p[0]);
    assert p == [p[0]] + p[1..];
    assert forall t: nat :: t in p[1..] <==> t in p && t != p[0] by {
      forall i | 0 <= i < |p[1..]| ensures p[1..][i] != p[0] { assert p[1..][i] == p[i + 1]; }
    }
    assert p[0] in p;
  }

  lemma StepKeeps(s: State, c: Chains, e: Event)
    requires Inv(s, c) && Enabled(s, e)
    ensures Inv(Next(s, e), NextChains(s, c, e))
  {
    match e
    case Sleep(t, q) => SleepKeeps(s, c, t, q);
    case Resume(t) => RootHead(s, c, Task(t)); MoveKeeps(s, c, Task(t), Resumed(s, t), NextChains(s, c, e));
    case Wake(q) => RootHead(s, c, Queue(q)); MoveKeeps(s, c, Queue(q), WakeUp(s, q), NextChains(s, c, e));
    case Other(t, v) => OtherKeeps(s, c, t, v);
  }

  lemma RootHead(s: State, c: Chains, r: Root)
    requires Inv(s, c) && IsRoot(s, r)
    ensures var p := Chain(s, c, r);
            if p == [] then First(s, r) == NONE else First(s, r) == p[0] < |s.state| && Asleep(s, p[0])
  {
    assert ChainOk(s, c, r);
    if Chain(s, c, r) != [] { assert Chain(s, c, r)[0] in Chain(s, c, r); }
  }

  lemma OtherKeeps(s: State, c: Chains, t: nat, v: int)
    requires Inv(s, c) && Enabled(s, Other(t, v))
    ensures Inv(Next(s, Other(t, v)), c)
  {
    var s2 := Next(s, Other(t, v));
    assert forall u :: 0 <= u < |s.state| ==> (Asleep(s2, u) <==> Asleep(s, u)) && (Woken(s2, u) <==> Woken(s, u));
    forall r | IsRoot(s2, r) ensures ChainOk(s2, c, r) {
      assert IsRoot(s, r) && ChainOk(s, c, r);
    }
  }

  /** wake_up, and a task leaving sleep_on, set the state of nobody but a sleeper of the same queue. */
  lemma OnlySleepersRoused(s: State, c: Chains, e: Event, u: nat)
    requires Inv(s, c) && Enabled(s, e) && (e.Wake? || e.Resume?) && u < |s.state| && Next(s, e).state[u] != s.state[u]
    ensures Asleep(s, u) && Woken(Next(s, e), u) && c.on[u] == if e.Wake? then e.q else c.on[e.t]
    ensures c.home[u] == if e.Wake? then Queue(e.q) else Task(e.t)
  {
    var r := if e.Wake? then Queue(e.q) else Task(e.t);
    RootHead(s, c, r);
    assert ChainOk(s, c, r);
    assert Chain(s, c, r) != [] ==> Chain(s, c, r)[0] in Chain(s, c, r);
  }

  /** A sleeper is on exactly one chain: that of its home. */
  lemma OneChain(s: State, c: Chains, t: nat, r: Root)
    requires Inv(s, c) && Asleep(s, t) && IsRoot(s, r)
    ensures IsRoot(s, c.home[t]) && (t in Chain(s, c, r) <==> r == c.home[t])
    ensures var q := Chain(s, c, r);
            forall i, j :: 0 <= i < |q| && q[i] == t && 0 <= j < |q| && q[j] == t ==> i == j
  {
    assert ChainOk(s, c, r);
  }

  // ---------------------------------------------------------------- no wake-up is lost

  lemma {:induction false} IndexUnique(q: seq<nat>, i: nat)
    requires NoDup(q) && i < |q| && q[i] in q
    ensures IndexOf(q, q[i]) == i
  {
  }

  lemma Placed(s: State, c: Chains, t: nat)
    requires Inv(s, c) && Asleep(s, t)
    ensures IsRoot(s, c.home[t]) && t in Chain(s, c, c.home[t])
  {
    assert ChainOk(s, c, c.home[t]);
  }

  /** How many sleepers are ahead of t on its chain. */
  ghost function Ahead(s: State, c: Chains, t: nat): nat
    requires Inv(s, c) && Asleep(s, t)
  {
    Placed(s, c, t);
    IndexOf(Chain(s, c, c.home[t]), t)
  }

  /** The first of a chain is made runnable; each other sleeper has one less ahead, behind a task that can now run. */
  lemma MoveAhead(s: State, c: Chains, e: Event, t: nat)
    requires Inv(s, c) && Enabled(s, e) && Asleep(s, t) && Inv(Next(s, e), NextChains(s, c, e))
    requires e == (if c.home[t].Queue? then Wake(c.home[t].q) else Resume(c.home[t].t))
    ensures Ahead(s, c, t) == 0 ==> Woken(Next(s, e), t)
    ensures Ahead(s, c, t) > 0 ==> var s2, c2 := Next(s, e), NextChains(s, c, e);
                                   Asleep(s2, t) && c2.home[t].Task? && Ahead(s2, c2, t) == Ahead(s, c, t) - 1
  {
    Placed(s, c, t);
    var r := c.home[t];
    var p := Chain(s, c, r);
    RootHead(s, c, r);
    assert ChainOk(s, c, r);
    var i := Ahead(s, c, t);
    if i > 0 {
      var s2, c2 := Next(s, e), NextChains(s, c, e);
      assert p[0] != p[i];
      assert Asleep(s2, t) && c2.home[t] == Task(p[0]) && Chain(s2, c2, Task(p[0])) == p[1..];
      assert p[1..][i - 1] == t;
      hide Inv;
      IndexUnique(p[1..], i - 1);
    }
  }

  /** Nothing else changes how many are ahead of a sleeper whose chain has been woken: new sleepers do not join
      its chain. */
  lemma OthersKeepAhead(s: State, c: Chains, e: Event, t: nat)
    requires Inv(s, c) && Enabled(s, e) && Asleep(s, t) && c.home[t].Task? && e != Resume(c.home[t].t)
    requires Inv(Next(s, e), NextChains(s, c, e))
    ensures var s2, c2 := Next(s, e), NextChains(s, c, e);
            Asleep(s2, t) && c2.home[t] == c.home[t] && Ahead(s2, c2, t) == Ahead(s, c, t)
  {
    Placed(s, c, t);
    var r := c.home[t];
    assert ChainOk(s, c, r);
    if e.Wake? || e.Resume? {
      var x := if e.Wake? then Queue(e.q) else Task(e.t);
      RootHead(s, c, x);
      assert ChainOk(s, c, x);
      assert t !in Chain(s, c, x);
      var p := Chain(s, c, x);
      assert p != [] ==> !Woken(s, p[0]) && r != Task(p[0]);
    }
  }

  ghost predicate EnabledRun(s: State, es: seq<Event>)
    decreases |es|
  {
    es == [] || (Sized(s) && Enabled(s, es[0]) && EnabledRun(Next(s, es[0]), es[1..]))
  }

  /** t is runnable at some point of the run. */
  ghost predicate EverRoused(s: State, es: seq<Event>, t: nat)
    requires EnabledRun(s, es)
    decreases |es|
  {
    !Asleep(s, t) || (es != [] && EverRoused(Next(s, es[0]), es[1..], t))
  }

  /** How often, while t still sleeps, the task at the root of its chain resumes. */
  ghost function RootResumes(s: State, c: Chains, es: seq<Event>, t: nat): nat
    requires Inv(s, c) && EnabledRun(s, es)
    decreases |es|
  {
    if es == [] || !Asleep(s, t) then 0
    else
      StepKeeps(s, c, es[0]);
      (if c.home[t].Task? && es[0] == Resume(c.home[t].t) then 1 else 0)
      + RootResumes(Next(s, es[0]), NextChains(s, c, es[0]), es[1..], t)
  }

  /** Once its queue has been woken, a sleeper with n ahead of it is made runnable by exactly the (n+1)-th
      resumption on its chain, whatever else happens in the run; the task that has to resume is always a
      runnable one. */
  lemma {:induction false} NoLostWakeUp(s: State, c: Chains, es: seq<Event>, t: nat)
    requires Inv(s, c) && EnabledRun(s, es) && Asleep(s, t) && c.home[t].Task?
    ensures Woken(s, c.home[t].t) && Enabled(s, Resume(c.home[t].t))
    ensures RootResumes(s, c, es, t) <= Ahead(s, c, t) + 1
    ensures EverRoused(s, es, t) <==> RootResumes(s, c, es, t) == Ahead(s, c, t) + 1
    decreases |es|
  {
    Placed(s, c, t);
    if es != [] {
      var s2, c2 := Next(s, es[0]), NextChains(s, c, es[0]);
      StepKeeps(s, c, es[0]);
      if es[0] == Resume(c.home[t].t) { MoveAhead(s, c, es[0], t); } else { OthersKeepAhead(s, c, es[0], t); }
      hide Inv, Next, NextChains, Ahead;
      if Asleep(s2, t) { NoLostWakeUp(s2, c2, es[1..], t); }
    }
  }

  /** wake_up: whoever sleeps on the queue is made runnable at once or after as many resumptions as it has
      others ahead. */
  lemma WakeThenRun(s: State, c: Chains, q: nat, es: seq<Event>, t: nat)
    requires Inv(s, c) && q < |s.head| && Asleep(s, t) && c.home[t] == Queue(q) && EnabledRun(Next(s, Wake(q)), es)
    ensures Inv(Next(s, Wake(q)), NextChains(s, c, Wake(q)))
    ensures var s2, c2 := Next(s, Wake(q)), NextChains(s, c, Wake(q));
            EverRoused(s2, es, t) <==> RootResumes(s2, c2, es, t) == Ahead(s, c, t)
  {
    StepKeeps(s, c, Wake(q));
    MoveAhead(s, c, Wake(q), t);
    hide Inv, Next, NextChains, Ahead;
    if Ahead(s, c, t) > 0 { NoLostWakeUp(Next(s, Wake(q)), NextChains(s, c, Wake(q)), es, t); }
  }

  /** At the start nobody sleeps. */
  function AtStart(queues: nat, state: seq<int>): State {
    State(seq(queues, _ => NONE), state, seq(|state|, _ => false), seq(|state|, _ => NONE))
  }

  function NoChains(queues: nat, tasks: nat): Chains {
    Chains(seq(queues, _ => []), seq(tasks, _ => []), seq(tasks, _ => Nowhere), seq(tasks, _ => 0))
  }

  lemma StartIsGood(queues: nat, state: seq<int>)
    ensures Inv(AtStart(queues, state), NoChains(queues, |state|))
  {
    var s, c := AtStart(queues, state), NoChains(queues, |state|);
    forall r | IsRoot(s, r) ensures ChainOk(s, c, r) {
      assert r.Queue?;
    }
  }

  ghost function Last(s: State, es: seq<Event>): State
    requires EnabledRun(s, es)
    decreases |es|
  {
    if es == [] then s else Last(Next(s, es[0]), es[1..])
  }

  /** In every reachable state the sleepers are divided among such chains. */
  lemma {:induction false} RunKeeps(s: State, c: Chains, es: seq<Event>) returns (c2: Chains)
    requires Inv(s, c) && EnabledRun(s, es)
    ensures Inv(Last(s, es), c2)
    decreases |es|
  {
    if es == [] {
      c2 := c;
    } else {
      StepKeeps(s, c, es[0]);
      c2 := RunKeeps(Next(s, es[0]), NextChains(s, c, es[0]), es[1..]);
    }
  }

  // ---------------------------------------------------------------- a wake-up inside sleep_on

  /** The first store of sleep_on: the task's variable takes the first of the queue, v. The task is not yet one that
      others can find. */
  function SleepLoad(s: State, t: nat, v: int): State
    requires t < |s.tmp|
  {
    s.(tmp := s.tmp[t := v])
  }

  /** The second: the queue takes the task, which is still marked running. */
  function SleepLink(s: State, t: nat, q: nat): State
    requires t < |s.inside| && q < |s.head|
  {
    s.(head := s.head[q := t], inside := s.inside[t := true])
  }

  /** The third: the store to the task's state. */
  function SleepMark(s: State, t: nat): State
    requires t < |s.state|
  {
    s.(state := s.state[t := TASK_UNINTERRUPTIBLE])
  }

  /** wake_up of each of the queues qs, as interrupts may call it between two stores. */
  function Waked(s: State, qs: seq<nat>): (r: State)
    requires Sized(s) && forall i :: 0 <= i < |qs| ==> qs[i] < |s.head|
    ensures Sized(r) && |r.state| == |s.state| && |r.head| == |s.head| && r.inside == s.inside && r.tmp == s.tmp
    decreases |qs|
  {
    if qs == [] then s else Waked(WakeUp(s, qs[0]), qs[1..])
  }

  lemma {:induction false} WakedKeeps(s: State, c: Chains, qs: seq<nat>) returns (c2: Chains)
    requires Inv(s, c) && forall i :: 0 <= i < |qs| ==> qs[i] < |s.head|
    ensures Inv(Waked(s, qs), c2)
    ensures forall u :: 0 <= u < |s.state| && !s.inside[u] ==> Waked(s, qs).state[u] == s.state[u]
    decreases |qs|
  {
    if qs == [] {
      c2 := c;
    } else {
      StepKeeps(s, c, Wake(qs[0]));
      RootHead(s, c, Queue(qs[0]));
      hide Inv;
      c2 := WakedKeeps(WakeUp(s, qs[0]), NextChains(s, c, Wake(qs[0])), qs[1..]);
    }
  }

  /** Waking other queues does not interfere with the second store. */
  lemma {:induction false} WakedCommutes(s: State, t: nat, q: nat, qs: seq<nat>)
    requires Sized(s) && t < |s.state| && q < |s.head| && q !in qs && forall i :: 0 <= i < |qs| ==> qs[i] < |s.head|
    ensures Waked(SleepLink(s, t, q), qs) == SleepLink(Waked(s, qs), t, q)
    decreases |qs|
  {
    if qs != [] {
      assert qs[0] in qs;
      assert WakeUp(SleepLink(s, t, q), qs[0]).head == SleepLink(WakeUp(s, qs[0]), t, q).head;
      assert WakeUp(SleepLink(s, t, q), qs[0]) == SleepLink(WakeUp(s, qs[0]), t, q);
      WakedCommutes(WakeUp(s, qs[0]), t, q, qs[1..]);
    }
  }

  /** Waking any queue does not interfere with the first. */
  lemma {:induction false} WakedKeepsLoad(s: State, t: nat, v: int, qs: seq<nat>)
    requires Sized(s) && t < |s.tmp| && NONE <= v < |s.state| && forall i :: 0 <= i < |qs| ==> qs[i] < |s.head|
    ensures Waked(SleepLoad(s, t, v), qs) == SleepLoad(Waked(s, qs), t, v)
    decreases |qs|
  {
    if qs != [] { WakedKeepsLoad(WakeUp(s, qs[0]), t, v, qs[1..]); }
  }

  lemma {:induction false} WakedHeads(s: State, q: nat, qs: seq<nat>)
    requires Sized(s) && q < |s.head| && forall i :: 0 <= i < |qs| ==> qs[i] < |s.head|
    ensures Waked(s, qs).head[q] == if q in qs then NONE else s.head[q]
    ensures q in qs && s.head[q] != NONE ==> Waked(s, qs).state[s.head[q]] == TASK_RUNNING
    decreases |qs|
  {
    if qs != [] {
      var r := WakeUp(s, qs[0]);
      WakedHeads(r, q, qs[1..]);
      if qs[0] == q && s.head[q] != NONE { WakedRuns(r, s.head[q], qs[1..]); }
    }
  }

  /** wake_up puts nobody to sleep. */
  lemma {:induction false} WakedRuns(s: State, u: nat, qs: seq<nat>)
    requires Sized(s) && u < |s.state| && s.state[u] == TASK_RUNNING && forall i :: 0 <= i < |qs| ==> qs[i] < |s.head|
    ensures Waked(s, qs).state[u] == TASK_RUNNING
    decreases |qs|
  {
    if qs != [] { WakedRuns(WakeUp(s, qs[0]), u, qs[1..]); }
  }

  /** A queue, or the variable of a task inside sleep_on, holds t. */
  ghost predicate PointedAt(s: State, t: nat)
    requires Sized(s)
  {
    (exists q :: 0 <= q < |s.head| && s.head[q] == t) || (exists u :: 0 <= u < |s.tmp| && s.inside[u] && s.tmp[u] == t)
  }

  /** t sleeps and nothing points at it. */
  ghost predicate Orphan(s: State, t: nat) {
    Sized(s) && Asleep(s, t) && !PointedAt(s, t)
  }

  /** Nothing will ever make it runnable again. */
  lemma {:induction false} OrphanSleepsOn(s: State, es: seq<Event>, t: nat)
    requires Orphan(s, t) && EnabledRun(s, es)
    ensures Orphan(Last(s, es), t) && !EverRoused(s, es, t)
    decreases |es|
  {
    if es != [] {
      assert Orphan(Next(s, es[0]), t);
      hide Orphan, Next, Asleep;
      OrphanSleepsOn(Next(s, es[0]), es[1..], t);
      OrphanIsAsleep(s, t);
    } else {
      OrphanIsAsleep(s, t);
    }
  }

  lemma OrphanIsAsleep(s: State, t: nat)
    requires Orphan(s, t)
    ensures Asleep(s, t)
  {
  }

  lemma {:induction false} OnChainIsPointedAt(tmp: seq<int>, first: int, c: seq<nat>, t: nat)
    requires Linked(tmp, first, c) && t in c
    ensures first == t || exists u :: 0 <= u < |tmp| && u in c && tmp[u] == t
    decreases |c|
  {
    if first != t {
      assert c == [c[0]] + c[1..];
      OnChainIsPointedAt(tmp, tmp[first], c[1..], t);
      assert tmp[first] == t ==> first in c && tmp[first] == t;
    }
  }

  lemma SleeperIsPointedAt(s: State, c: Chains, t: nat)
    requires Inv(s, c) && Asleep(s, t)
    ensures PointedAt(s, t)
  {
    Placed(s, c, t);
    var r := c.home[t];
    var p := Chain(s, c, r);
    assert ChainOk(s, c, r);
    OnChainIsPointedAt(s.tmp, First(s, r), p, t);
    if First(s, r) != t {
      var u :| 0 <= u < |s.tmp| && u in p && s.tmp[u] == t;
      assert c.home[u] == r;
      assert s.inside[u];
    }
  }

  lemma SleepersArePointedAt(s: State, t: nat)
    requires Sized(s) && Asleep(s, t)
    ensures forall c :: Inv(s, c) ==> PointedAt(s, t)
  {
    forall c | Inv(s, c) ensures PointedAt(s, t) { SleeperIsPointedAt(s, c, t); }
  }

  lemma OrphanIsOnNoChain(s: State, t: nat)
    requires Orphan(s, t)
    ensures forall c :: !Inv(s, c)
  {
    SleepersArePointedAt(s, t);
    hide Inv, PointedAt;
  }

  /** If queue q itself is woken between the stores, the task goes to sleep with nobody to wake it. */
  lemma {:induction false} WakedInBetween(s: State, t: nat, q: nat, qs: seq<nat>)
    requires Sized(s) && t < |s.state| && q < |s.head| && s.inside[t] && forall i :: 0 <= i < |qs| ==> qs[i] < |s.head|
    requires forall x :: 0 <= x < |s.head| && x != q ==> s.head[x] != t
    requires forall u :: 0 <= u < |s.tmp| && s.inside[u] ==> s.tmp[u] != t
    requires s.head[q] != t || q in qs
    ensures Orphan(SleepMark(Waked(s, qs), t), t)
    decreases |qs|
  {
    if qs != [] { WakedInBetween(WakeUp(s, qs[0]), t, q, qs[1..]); }
  }

  /** Nobody's variable points at a task outside sleep_on. */
  lemma OutsideUnlinked(s: State, c: Chains, t: nat)
    requires Inv(s, c) && t < |s.state| && !s.inside[t]
    ensures forall q :: 0 <= q < |s.head| ==> s.head[q] != t
    ensures forall u :: 0 <= u < |s.tmp| && s.inside[u] ==> s.tmp[u] != t
  {
    forall q | 0 <= q < |s.head| ensures s.head[q] != t { RootHead(s, c, Queue(q)); }
    forall u | 0 <= u < |s.tmp| && s.inside[u] ensures s.tmp[u] != t {
      if Woken(s, u) { RootHead(s, c, Task(u)); } else { SleeperPointsAtSleeper(s, c, u); }
    }
  }

  lemma SleeperPointsAtSleeper(s: State, c: Chains, u: nat)
    requires Inv(s, c) && Asleep(s, u)
    ensures s.tmp[u] == NONE || (0 <= s.tmp[u] && Asleep(s, s.tmp[u]))
  {
    Placed(s, c, u);
    var r := c.home[u];
    var p := Chain(s, c, r);
    assert ChainOk(s, c, r);
    var i := IndexOf(p, u);
    LinkedAt(s.tmp, First(s, r), p, i);
    if i + 1 < |p| { assert p[i + 1] in p; }
  }

  /** sleep_on up to schedule(), when interrupts wake the queues qs1 between its first and second store and the
      queues qs2 between its second and third. */
  function SplitSleep(s: State, t: nat, q: nat, qs1: seq<nat>, qs2: seq<nat>): State
    requires Sized(s) && t < |s.state| && q < |s.head|
    requires (forall i :: 0 <= i < |qs1| ==> qs1[i] < |s.head|) && (forall i :: 0 <= i < |qs2| ==> qs2[i] < |s.head|)
  {
    SleepMark(Waked(SleepLink(Waked(SleepLoad(s, t, s.head[q]), qs1), t, q), qs2), t)
  }

  /** Such interrupts do no harm exactly when none of them wakes the task's own queue, or only before its second
      store and with nobody on the queue. After a wake-up that comes later, nothing leads to the task and it
      sleeps for ever. After one that comes earlier, the task is on its queue, but is going to wake a second time
      a task that has been woken already. */
  lemma SplitSleepIff(s: State, c: Chains, t: nat, q: nat, qs1: seq<nat>, qs2: seq<nat>)
    requires Inv(s, c) && Enabled(s, Sleep(t, q))
    requires (forall i :: 0 <= i < |qs1| ==> qs1[i] < |s.head|) && (forall i :: 0 <= i < |qs2| ==> qs2[i] < |s.head|)
    ensures SplitSleep(s, t, q, [], []) == SleepOn(s, t, q)
    ensures (exists c2 :: Inv(SplitSleep(s, t, q, qs1, qs2), c2)) <==>
              q !in qs2 && (q !in qs1 || s.head[q] == NONE)
    ensures q in qs2 ==> Orphan(SplitSleep(s, t, q, qs1, qs2), t)
    ensures q !in qs2 && q in qs1 && s.head[q] != NONE ==> WakesTwice(SplitSleep(s, t, q, qs1, qs2), t, q)
  {
    var r := SplitSleep(s, t, q, qs1, qs2);
    if q in qs2 {
      WokenLate(s, c, t, q, qs1, qs2);
      OrphanIsOnNoChain(r, t);
    } else if q in qs1 && s.head[q] != NONE {
      WokenEarly(s, c, t, q, qs1, qs2);
      WakesTwiceIsOnNoChain(r, t, q);
    } else {
      var c2 := WokenHarmlessly(s, c, t, q, qs1, qs2);
      assert Inv(r, c2);
    }
    hide Inv, Waked, Orphan, WakesTwice;
  }

  /** t is first on its queue, and its variable names a task that is awake. */
  ghost predicate WakesTwice(s: State, t: nat, q: nat) {
    && Sized(s) && Asleep(s, t) && q < |s.head| && s.head[q] == t
    && s.tmp[t] != NONE && Woken(s, s.tmp[t]) && !Orphan(s, t)
  }

  lemma WakesTwiceIsOnNoChain(s: State, t: nat, q: nat)
    requires WakesTwice(s, t, q)
    ensures forall c :: !Inv(s, c)
  {
    forall c | Inv(s, c) ensures false { SleeperPointsAtSleeper(s, c, t); }
  }

  lemma WokenLate(s: State, c: Chains, t: nat, q: nat, qs1: seq<nat>, qs2: seq<nat>)
    requires Inv(s, c) && Enabled(s, Sleep(t, q)) && q in qs2
    requires (forall i :: 0 <= i < |qs1| ==> qs1[i] < |s.head|) && (forall i :: 0 <= i < |qs2| ==> qs2[i] < |s.head|)
    ensures Orphan(SplitSleep(s, t, q, qs1, qs2), t)
  {
    var c1 := WakedKeeps(s, c, qs1);
    var s1 := Waked(s, qs1);
    WakedKeepsLoad(s, t, s.head[q], qs1);
    OutsideUnlinked(s1, c1, t);
    RootHead(s, c, Queue(q));
    WakedInBetween(SleepLink(SleepLoad(s1, t, s.head[q]), t, q), t, q, qs2);
  }

  lemma WokenEarly(s: State, c: Chains, t: nat, q: nat, qs1: seq<nat>, qs2: seq<nat>)
    requires Inv(s, c) && Enabled(s, Sleep(t, q)) && q !in qs2 && q in qs1 && s.head[q] != NONE
    requires (forall i :: 0 <= i < |qs1| ==> qs1[i] < |s.head|) && (forall i :: 0 <= i < |qs2| ==> qs2[i] < |s.head|)
    ensures WakesTwice(SplitSleep(s, t, q, qs1, qs2), t, q)
  {
    var h := s.head[q];
    RootHead(s, c, Queue(q));
    WakedHeads(SleepLoad(s, t, h), q, qs1);
    var l := SleepLink(Waked(SleepLoad(s, t, h), qs1), t, q);
    WakedHeads(l, q, qs2);
    WakedRuns(l, h, qs2);
  }

  lemma WokenHarmlessly(s: State, c: Chains, t: nat, q: nat, qs1: seq<nat>, qs2: seq<nat>) returns (c2: Chains)
    requires Inv(s, c) && Enabled(s, Sleep(t, q)) && q !in qs2 && (q !in qs1 || s.head[q] == NONE)
    requires (forall i :: 0 <= i < |qs1| ==> qs1[i] < |s.head|) && (forall i :: 0 <= i < |qs2| ==> qs2[i] < |s.head|)
    ensures Inv(SplitSleep(s, t, q, qs1, qs2), c2)
  {
    var v := s.head[q];
    var c1 := WakedKeeps(s, c, qs1);
    var s1 := Waked(s, qs1);
    WakedHeads(s, q, qs1);
    WakedKeepsLoad(s, t, v, qs1);
    var c3 := WakedKeeps(s1, c1, qs2);
    var s3 := Waked(s1, qs2);
    WakedHeads(s1, q, qs2);
    WakedKeepsLoad(s1, t, v, qs2);
    WakedCommutes(SleepLoad(s1, t, v), t, q, qs2);
    SleepKeeps(s3, c3, t, q);
    c2 := Joined(c3, t, q);
    assert SplitSleep(s, t, q, qs1, qs2) == SleepOn(s3, t, q);
  }

  /** A run with such an early wake-up. Task 2 is about to join task 1 on queue 0 when the queue is woken. Task 1
      goes on to sleep on queue 1, and task 2, woken and resumed, wakes it from there. */
  lemma WakesStranger()
    ensures var s := SleepOn(AtStart(2, [TASK_RUNNING, TASK_RUNNING, TASK_RUNNING]), 1, 0);
            && Sized(s) && Enabled(s, Sleep(2, 0))
            && var r := SplitSleep(s, 2, 0, [0], []);
            && var es := [Resume(1), Sleep(1, 1), Wake(0), Resume(2)];
            && EnabledRun(r, es) && Wake(1) !in es
            && Woken(Last(r, es), 1) && Last(r, es).head[1] == 1
  {
    TwoOnQueue();
    StrangerRun();
    hide AtStart, SplitSleep, Last, EnabledRun, SleepOn;
  }

  /** Where that run starts. */
  function Rejoined(): State {
    State([2, NONE], [TASK_RUNNING, TASK_RUNNING, TASK_UNINTERRUPTIBLE], [false, true, true], [NONE, NONE, 1])
  }

  lemma TwoOnQueue()
    ensures var s := SleepOn(AtStart(2, [TASK_RUNNING, TASK_RUNNING, TASK_RUNNING]), 1, 0);
            Sized(s) && Enabled(s, Sleep(2, 0)) && SplitSleep(s, 2, 0, [0], []) == Rejoined()
  {
    var s := SleepOn(AtStart(2, [TASK_RUNNING, TASK_RUNNING, TASK_RUNNING]), 1, 0);
    assert s == State([1, NONE], [TASK_RUNNING, TASK_UNINTERRUPTIBLE, TASK_RUNNING], [false, true, false],
                      [NONE, NONE, NONE]);
    assert [0][1..] == [];
    hide AtStart, SleepOn;
  }

  lemma StrangerRun()
    ensures var es := [Resume(1), Sleep(1, 1), Wake(0), Resume(2)];
            && EnabledRun(Rejoined(), es)
            && Woken(Last(Rejoined(), es), 1) && Last(Rejoined(), es).head[1] == 1
  {
    var r, a, b, c, d := Rejoined(), Resume(1), Sleep(1, 1), Wake(0), Resume(2);
    var run, un := TASK_RUNNING, TASK_UNINTERRUPTIBLE;
    var r1 := State([2, NONE], [run, run, un], [false, false, true], [NONE, NONE, 1]);
    var r2 := State([2, 1], [run, un, un], [false, true, true], [NONE, NONE, 1]);
    var r3 := State([NONE, 1], [run, un, run], [false, true, true], [NONE, NONE, 1]);
    FirstHalf(r, r1, r2);
    SecondHalf(r2, r3);
    assert [d] + [] == [d] && [c] + [d] == [c, d] && [b] + [c, d] == [b, c, d] && [a] + [b, c, d] == [a, b, c, d];
    hide Next, Enabled, Sized;
    RunOneMore(r3, d, []);
    RunOneMore(r2, c, [d]);
    RunOneMore(r1, b, [c, d]);
    RunOneMore(r, a, [b, c, d]);
  }

  lemma FirstHalf(r: State, r1: State, r2: State)
    requires r == Rejoined()
    requires r1 == State([2, NONE], r.state, [false, false, true], r.tmp)
    requires r2 == State([2, 1], [TASK_RUNNING, TASK_UNINTERRUPTIBLE, TASK_UNINTERRUPTIBLE], r.inside, r.tmp)
    ensures Sized(r) && Enabled(r, Resume(1)) && Next(r, Resume(1)) == r1
    ensures Sized(r1) && Enabled(r1, Sleep(1, 1)) && Next(r1, Sleep(1, 1)) == r2
  {
  }

  lemma SecondHalf(r2: State, r3: State)
    requires r2 == State([2, 1], [TASK_RUNNING, TASK_UNINTERRUPTIBLE, TASK_UNINTERRUPTIBLE], [false, true, true],
                         [NONE, NONE, 1])
    requires r3 == State([NONE, 1], [TASK_RUNNING, TASK_UNINTERRUPTIBLE, TASK_RUNNING], r2.inside, r2.tmp)
    ensures Sized(r2) && Enabled(r2, Wake(0)) && Next(r2, Wake(0)) == r3
    ensures Sized(r3) && Enabled(r3, Resume(2)) && EnabledRun(Next(r3, Resume(2)), [])
    ensures var t := Last(Next(r3, Resume(2)), []); Woken(t, 1) && t.head[1] == 1
  {
  }

  lemma RunOneMore(s: State, e: Event, es: seq<Event>)
    requires Sized(s) && Enabled(s, e) && EnabledRun(Next(s, e), es)
    ensures EnabledRun(s, [e] + es) && Last(s, [e] + es) == Last(Next(s, e), es)
  {
    assert ([e] + es)[1..] == es;
  }


  // ---------------------------------------------------------------- the code

  datatype Outcome = Returned | Sleeping | Panic

  class Scheduler {
    const state: array<int>
    const heads: array<int>
    const tmp: array<int>
    ghost var inside: seq<bool>
    ghost var chains: Chains

    ghost function S(): State
      reads this, state, heads, tmp
    {
      State(heads[..], state[..], inside, tmp[..])
    }

    ghost predicate Valid()
      reads this, state, heads, tmp
    {
      state != heads && state != tmp && heads != tmp && Inv(S(), chains)
    }

    constructor (tasks: nat, queues: nat)
      ensures Valid() && state.Length == tasks && heads.Length == queues && S() == AtStart(queues, state[..])
    {
      state := new int[tasks](_ => TASK_RUNNING);
      heads := new int[queues](_ => NONE);
      tmp := new int[tasks](_ => NONE);
      inside := seq(tasks, _ => false);
      chains := NoChains(queues, tasks);
      new;
      assert S() == AtStart(queues, state[..]);
      StartIsGood(queues, state[..]);
    }

    /** sleep_on, up to the call of schedule(). */
    method SleepOnEnter(current: nat, p: int) returns (r: Outcome)
      requires Valid() && NONE <= p < heads.Length && current < state.Length && !inside[current]
                 && state[current] == TASK_RUNNING
      modifies this, state, heads, tmp
      ensures Valid()
      ensures r == if p == NONE then Returned else if current == 0 then Panic else Sleeping
      ensures S() == if r == Sleeping then SleepOn(old(S()), current, p) else old(S())
      ensures chains == if r == Sleeping then Joined(old(chains), current, p) else old(chains)
    {
      if p == NONE { return Returned; }
      if current == 0 { return Panic; }
      SleepKeeps(S(), chains, current, p);
      tmp[current] := heads[p];
      heads[p] := current;
      state[current] := TASK_UNINTERRUPTIBLE;
      inside := inside[current := true];
      chains := Joined(chains, current, p);
      r := Sleeping;
    }

    /** sleep_on, after schedule() has returned. */
    method SleepOnExit(current: nat)
      requires Valid() && current < state.Length && Woken(S(), current)
      modifies this, state
      ensures Valid() && S() == Resumed(old(S()), current)
                && chains == NextChains(old(S()), old(chains), Resume(current))
    {
      StepKeeps(S(), chains, Resume(current));
      ghost var next := NextChains(S(), chains, Resume(current));
      if tmp[current] != NONE { state[tmp[current]] := TASK_RUNNING; }
      inside := inside[current := false];
      chains := next;
    }

    method WakeUpFirst(p: int)
      requires Valid() && NONE <= p < heads.Length
      modifies this, state, heads
      ensures Valid()
      ensures p == NONE ==> S() == old(S()) && chains == old(chains)
      ensures p != NONE ==> S() == WakeUp(old(S()), p) && chains == NextChains(old(S()), old(chains), Wake(p))
    {
      if p != NONE {
        StepKeeps(S(), chains, Wake(p));
        ghost var h, next := S(), NextChains(S(), chains, Wake(p));
        if heads[p] != NONE {
          state[heads[p]] := TASK_RUNNING;
          heads[p] := NONE;
        }
        chains := next;
        assert S() == WakeUp(h, p);
      }
    }
  }
}

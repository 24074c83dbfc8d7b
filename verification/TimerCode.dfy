/** add_timer and the timer part of do_timer, on the array timer_list. */
module TimerCode {
  import opened Basics
  import opened Timers

  ghost predicate InRange(c: seq<nat>) {
    forall i :: 0 <= i < |c| ==> c[i] < TIME_REQUESTS
  }

  /** The contents of the slots along the chain. */
  ghost function View(fn: seq<int>, jiffies: seq<int>, c: seq<nat>): seq<Timer>
    requires InRange(c) && |fn| == |jiffies| == TIME_REQUESTS
  {
    seq(|c|, i requires 0 <= i < |c| => Timer(fn[c[i]], jiffies[c[i]]))
  }

  class TimerList {
    const jiffies: array<int>
    const fn: array<int>
    const next: array<int>
    var next_timer: int
    ghost var chain: seq<nat>

    ghost predicate Arrays() {
      && jiffies != fn && jiffies != next && fn != next
      && jiffies.Length == fn.Length == next.Length == TIME_REQUESTS
    }

    ghost function Q(): seq<Timer>
      requires Arrays() && InRange(chain)
      reads this, jiffies, fn
    {
      View(fn[..], jiffies[..], chain)
    }

    /** A slot is in use exactly while its timer is pending. */
    ghost predicate Valid()
      reads this, jiffies, fn, next
    {
      && Arrays() && InRange(chain) && NoDup(chain) && Linked(next[..], next_timer, chain)
      && (forall s: nat :: s < TIME_REQUESTS ==> (s in chain <==> fn[s] != 0))
      && Positive(Q())
    }

    constructor ()
      ensures Valid() && Q() == [] && chain == []
    {
      jiffies := new int[TIME_REQUESTS](_ => 0);
      fn := new int[TIME_REQUESTS](_ => 0);
      next := new int[TIME_REQUESTS](_ => NONE);
      next_timer := NONE;
      chain := [];
    }

    /** add_timer. */
    method AddTimer(wait: int, f: int) returns (panic: bool, called: seq<int>)
      requires Valid()
      modifies this, jiffies, fn, next
      ensures Valid()
      ensures panic <==> f != 0 && wait > 0 && forall s: nat :: s < TIME_REQUESTS ==> s in old(chain)
      ensures panic ==> Q() == old(Q())
      ensures !panic ==> (Q(), called) == Next(old(Q()), Add(wait, f))
      ensures chain == old(chain) || (|chain| > 0 && chain[0] !in old(chain) && chain[1..] == old(chain))
    {
      panic, called := false, [];
      if f == 0 { return; }
      if wait <= 0 {
        called := [f];
        return;
      }
      var p := 0;
      while p < TIME_REQUESTS && fn[p] != 0
        invariant 0 <= p <= TIME_REQUESTS && forall s :: 0 <= s < p ==> fn[s] != 0
      {
        p := p + 1;
      }
      if p >= TIME_REQUESTS {
        panic := true;
        return;
      }
      ghost var q := Q();
      PutFirst(p, wait, f);
      InsertPlaces(q, Timer(f, wait));
      MoveDown(p, q, Timer(f, wait));
    }

    /** The free slot p is filled and put at the head of the list. */
    method PutFirst(p: nat, wait: int, f: int)
      requires Valid() && p < TIME_REQUESTS && fn[p] == 0 && f != 0
      modifies this, jiffies, fn, next
      ensures Arrays() && InRange(chain) && NoDup(chain) && Linked(next[..], next_timer, chain)
      ensures forall s: nat :: s < TIME_REQUESTS ==> (s in chain <==> fn[s] != 0)
      ensures chain == [p] + old(chain) && p !in old(chain) && Q() == [Timer(f, wait)] + old(Q())
    {
      ghost var was := next[..];
      fn[p] := f;
      jiffies[p] := wait;
      next[p] := next_timer;
      next_timer := p;
      LinkedFrame(was, next[..], old(next_timer), chain);
      chain := [p] + chain;
      assert chain[1..] == old(chain);
    }

    /** One turn of the loop of add_timer: the contents of neighbouring slots change places. */
    method SwapWithNext(p: nat, ghost i: nat)
      requires Arrays() && InRange(chain) && NoDup(chain) && i + 1 < |chain| && p == chain[i] && next[p] == chain[i + 1]
      requires forall s: nat :: s < TIME_REQUESTS ==> (s in chain <==> fn[s] != 0)
      modifies jiffies, fn
      ensures Q() == old(Q())[i := old(Q())[i + 1]]
                         [i + 1 := Timer(old(Q())[i].fn, old(Q())[i].delta - old(Q())[i + 1].delta)]
      ensures forall s: nat :: s < TIME_REQUESTS ==> (s in chain <==> fn[s] != 0)
    {
      assert chain[i] in chain && chain[i + 1] in chain;
      jiffies[p] := jiffies[p] - jiffies[next[p]];
      var f := fn[p];
      fn[p] := fn[next[p]];
      fn[next[p]] := f;
      var j := jiffies[p];
      jiffies[p] := jiffies[next[p]];
      jiffies[next[p]] := j;
    }

    /** The loop of add_timer. */
    method MoveDown(p0: nat, ghost q: seq<Timer>, ghost t: Timer)
      requires Arrays() && InRange(chain) && NoDup(chain) && Linked(next[..], next_timer, chain)
      requires forall s: nat :: s < TIME_REQUESTS ==> (s in chain <==> fn[s] != 0)
      requires chain != [] && p0 == chain[0] && Q() == [t] + q
      modifies jiffies, fn
      ensures Q() == Insert(q, t) && forall s: nat :: s < TIME_REQUESTS ==> (s in chain <==> fn[s] != 0)
    {
      hide NoDup, Linked, Insert, Between;
      var p: int := p0;
      ghost var i, w := 0, t.delta;
      BetweenStart(q, t);
      LinkedAt(next[..], next_timer, chain, 0);
      assert |Q()| == |chain|;
      while next[p] != NONE && jiffies[next[p]] < jiffies[p]
        invariant 0 <= i < |chain| == |q| + 1 && p == chain[i]
        invariant next[p] == if i + 1 < |chain| then chain[i + 1] else NONE
        invariant Q() == Between(q, i, Timer(t.fn, w))
        invariant Insert(q, t) == q[..i] + Insert(q[i..], Timer(t.fn, w))
        invariant forall s: nat :: s < TIME_REQUESTS ==> (s in chain <==> fn[s] != 0)
        decreases |q| - i
      {
        BetweenAt(q, i, Timer(t.fn, w));
        SwapWithNext(p, i);
        SwapBetween(q, i, t, w);
        p := next[p];
        LinkedAt(next[..], next_timer, chain, i + 1);
        w, i := w - q[i].delta, i + 1;
      }
      BetweenAt(q, i, Timer(t.fn, w));
      InsertEnd(q, i, t, w);
    }

    /** do_timer: the functions that have become due, in the order in which they are called. */
    method DoTimer() returns (called: seq<int>)
      requires Valid()
      modifies this, jiffies, fn
      ensures Valid() && (Q(), called) == Next(old(Q()), Beat)
    {
      called := [];
      ghost var q := Q();
      if next_timer != NONE {
        jiffies[next_timer] := jiffies[next_timer] - 1;
        TickEffect(q);
        assert Q() == q[0 := q[0].(delta := q[0].delta - 1)];
        called := FireFront();
      }
    }

    method FireFront() returns (called: seq<int>)
      requires Arrays() && InRange(chain) && NoDup(chain) && Linked(next[..], next_timer, chain)
      requires forall s: nat :: s < TIME_REQUESTS ==> (s in chain <==> fn[s] != 0)
      modifies this, fn
      ensures InRange(chain) && NoDup(chain) && Linked(next[..], next_timer, chain)
      ensures forall s: nat :: s < TIME_REQUESTS ==> (s in chain <==> fn[s] != 0)
      ensures (Q(), called) == FireDue(old(Q()))
    {
      hide NoDup;
      called := [];
      ghost var q := Q();
      while next_timer != NONE && jiffies[next_timer] <= 0
        invariant InRange(chain) && NoDup(chain) && Linked(next[..], next_timer, chain)
        invariant forall s: nat :: s < TIME_REQUESTS ==> (s in chain <==> fn[s] != 0)
        invariant FireDue(q).0 == FireDue(Q()).0 && FireDue(q).1 == called + FireDue(Q()).1
        decreases |chain|
      {
        ghost var before := Q();
        var f := PopFirst();
        assert FireDue(before).1 == [f] + FireDue(Q()).1;
        called := called + [f];
      }
      assert FireDue(Q()).0 == Q() && FireDue(Q()).1 == [] && called + [] == called;
    }

    method PopFirst() returns (f: int)
      requires Arrays() && InRange(chain) && NoDup(chain) && Linked(next[..], next_timer, chain) && next_timer != NONE
      requires forall s: nat :: s < TIME_REQUESTS ==> (s in chain <==> fn[s] != 0)
      modifies this, fn
      ensures chain == old(chain)[1..] && InRange(chain) && NoDup(chain) && Linked(next[..], next_timer, chain)
      ensures forall s: nat :: s < TIME_REQUESTS ==> (s in chain <==> fn[s] != 0)
      ensures old(Q()) != [] && Q() == old(Q())[1..] && f == old(Q())[0].fn
    {
      f := fn[next_timer];
      fn[next_timer] := 0;
      next_timer := next[next_timer];
      assert chain == [chain[0]] + chain[1..];
      chain := chain[1..];
    }
  }

  /** The list with t at place i. */
  ghost function Between(q: seq<Timer>, i: nat, t: Timer): seq<Timer>
    requires i <= |q|
  {
    q[..i] + [t] + q[i..]
  }

  lemma BetweenStart(q: seq<Timer>, t: Timer)
    ensures Between(q, 0, t) == [t] + q && Insert(q, t) == q[..0] + Insert(q[0..], t)
  {
    assert q == q[..0] + q[0..];
  }

  lemma BetweenAt(q: seq<Timer>, i: nat, t: Timer)
    requires i <= |q|
    ensures |Between(q, i, t)| == |q| + 1 && Between(q, i, t)[i] == t && (i < |q| ==> Between(q, i, t)[i + 1] == q[i])
  {
  }

  lemma InsertEnd(q: seq<Timer>, i: nat, t: Timer, w: int)
    requires i <= |q| && (i < |q| ==> q[i].delta >= w) && Insert(q, t) == q[..i] + Insert(q[i..], Timer(t.fn, w))
    ensures Insert(q, t) == Between(q, i, Timer(t.fn, w))
  {
    assert i < |q| ==> q[i..][0] == q[i];
  }

  lemma SwapBetween(q: seq<Timer>, i: nat, t: Timer, w: int)
    requires i < |q| && q[i].delta < w && Insert(q, t) == q[..i] + Insert(q[i..], Timer(t.fn, w))
    ensures Between(q, i, Timer(t.fn, w))[i := q[i]][i + 1 := Timer(t.fn, w - q[i].delta)]
            == Between(q, i + 1, Timer(t.fn, w - q[i].delta))
    ensures Insert(q, t) == q[..i + 1] + Insert(q[i + 1..], Timer(t.fn, w - q[i].delta))
  {
    assert q[i..][0] == q[i] && q[i..][1..] == q[i + 1..];
  }
}

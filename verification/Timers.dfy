/** The kernel timers of `kernel/sched.c`: a list in which each entry holds the ticks still to wait after the
    one before it. */
module Timers {
  const TIME_REQUESTS := 64

  datatype Timer = Timer(fn: int, delta: int)

  ghost predicate Positive(q: seq<Timer>) {
    forall i :: 0 <= i < |q| ==> q[i].delta > 0
  }

  /** The ticks until entry i is due. */
  ghost function Expiry(q: seq<Timer>, i: nat): int
    requires i < |q|
  {
    if i == 0 then q[0].delta else q[0].delta + Expiry(q[1..], i - 1)
  }

  lemma {:induction false} ExpiryGrows(q: seq<Timer>, i: nat)
    requires Positive(q) && i < |q|
    ensures Expiry(q, i) >= q[i].delta > 0 && Expiry(q, i) >= q[0].delta
              && (i > 0 ==> Expiry(q, i) == Expiry(q, i - 1) + q[i].delta)
    decreases i
  {
    if i > 0 { ExpiryGrows(q[1..], i - 1); }
  }

  /** Whole-list expiry: 0 when nothing waits. */
  ghost function LastExpiry(q: seq<Timer>): int {
    if q == [] then 0 else Expiry(q, |q| - 1)
  }

  // ---------------------------------------------------------------- add_timer

  /** The newcomer moves past every entry that waits less than what is left of its own wait, shortening its wait
      by it. */
  function Insert(q: seq<Timer>, t: Timer): seq<Timer> {
    if q == [] || q[0].delta >= t.delta then [t] + q
    else [q[0]] + Insert(q[1..], t.(delta := t.delta - q[0].delta))
  }

  /** Where the newcomer ends up. */
  function Place(q: seq<Timer>, wait: int): (k: nat)
    ensures k <= |q|
  {
    if q == [] || q[0].delta >= wait then 0 else 1 + Place(q[1..], wait - q[0].delta)
  }

  /** What is left of its wait there. */
  function Residual(q: seq<Timer>, wait: int): int {
    if q == [] || q[0].delta >= wait then wait else Residual(q[1..], wait - q[0].delta)
  }

  lemma {:induction false} InsertPlaces(q: seq<Timer>, t: Timer)
    requires Positive(q) && t.delta > 0
    ensures Insert(q, t) == q[..Place(q, t.delta)] + [Timer(t.fn, Residual(q, t.delta))] + q[Place(q, t.delta)..]
    ensures 0 < Residual(q, t.delta) <= t.delta && Positive(Insert(q, t))
    decreases |q|
  {
    hide Positive;
    InsertShape(q, t);
    ResidualBound(q, t.delta);
    SplicePositive(q, Place(q, t.delta), Timer(t.fn, Residual(q, t.delta)));
  }

  lemma {:induction false} InsertShape(q: seq<Timer>, t: Timer)
    ensures Insert(q, t) == q[..Place(q, t.delta)] + [Timer(t.fn, Residual(q, t.delta))] + q[Place(q, t.delta)..]
    decreases |q|
  {
    if q == [] || q[0].delta >= t.delta {
      assert q[..0] + [t] + q[0..] == [t] + q;
    } else {
      var u := t.(delta := t.delta - q[0].delta);
      InsertShape(q[1..], u);
      ShiftSplice(q, Place(q[1..], u.delta), Timer(t.fn, Residual(q, t.delta)));
    }
  }

  lemma ShiftSplice(q: seq<Timer>, k: nat, t: Timer)
    requires k < |q|
    ensures [q[0]] + (q[1..][..k] + [t] + q[1..][k..]) == q[..k + 1] + [t] + q[k + 1..]
  {
    assert q[..k + 1] == [q[0]] + q[1..][..k] && q[k + 1..] == q[1..][k..];
  }

  lemma {:induction false} ResidualBound(q: seq<Timer>, wait: int)
    requires Positive(q) && wait > 0
    ensures 0 < Residual(q, wait) <= wait
    decreases |q|
  {
    if q != [] && q[0].delta < wait { ResidualBound(q[1..], wait - q[0].delta); }
  }

  lemma SplicePositive(q: seq<Timer>, k: nat, t: Timer)
    requires Positive(q) && k <= |q| && t.delta > 0
    ensures Positive(q[..k] + [t] + q[k..])
  {
  }

  /** Where an insertion moves entry i to. */
  function Moved(q: seq<Timer>, wait: int, i: nat): nat {
    if i < Place(q, wait) then i else i + 1
  }

  /** How an insertion that passes the first entry goes on. */
  lemma InsertTail(q: seq<Timer>, t: Timer)
    requires q != [] && q[0].delta < t.delta
    ensures var u := t.(delta := t.delta - q[0].delta);
            && Insert(q, t) != [] && Insert(q, t)[0] == q[0] && Insert(q, t)[1..] == Insert(q[1..], u)
            && Place(q, t.delta) == 1 + Place(q[1..], u.delta) && Residual(q, t.delta) == Residual(q[1..], u.delta)
  {
  }

  lemma InsertMoves(q: seq<Timer>, t: Timer, i: nat)
    ensures |Insert(q, t)| == |q| + 1 && Insert(q, t)[Place(q, t.delta)] == Timer(t.fn, Residual(q, t.delta))
    ensures i < |q| ==> Insert(q, t)[Moved(q, t.delta, i)] == q[i]
  {
    InsertShape(q, t);
    hide Insert;
  }

  /** The newcomer is due exactly when asked. */
  lemma {:induction false} NewcomerExpiry(q: seq<Timer>, t: Timer)
    requires Positive(q) && t.delta > 0
    ensures Place(q, t.delta) < |Insert(q, t)| && Insert(q, t)[Place(q, t.delta)].fn == t.fn
    ensures Expiry(Insert(q, t), Place(q, t.delta)) == t.delta
    decreases |q|
  {
    hide Insert, Place, Positive, Expiry;
    InsertMoves(q, t, 0);
    var r := Insert(q, t);
    ExpiryTail(r, Place(q, t.delta));
    if q == [] || q[0].delta >= t.delta {
      InsertHere(q, t);
    } else {
      InsertTail(q, t);
      PositiveRest(q);
      NewcomerExpiry(q[1..], t.(delta := t.delta - q[0].delta));
    }
  }

  /** Entries before the newcomer keep their expiry; every later one is put off by exactly the newcomer's
      residual wait. */
  lemma {:induction false} OthersExpiry(q: seq<Timer>, t: Timer, i: nat)
    requires Positive(q) && t.delta > 0 && i < |q|
    ensures var r, j := Insert(q, t), Moved(q, t.delta, i);
            && |r| == |q| + 1 && r[j] == q[i]
            && Expiry(r, j) == Expiry(q, i) + if i < Place(q, t.delta) then 0 else Residual(q, t.delta)
    decreases |q|
  {
    hide Insert, Place, Residual, Positive, Expiry;
    InsertMoves(q, t, i);
    var r := Insert(q, t);
    ExpiryTail(q, i);
    if q[0].delta >= t.delta {
      InsertHere(q, t);
      ExpiryTail(r, i + 1);
      assert r[1..] == q;
    } else {
      InsertTail(q, t);
      if i > 0 {
        PositiveRest(q);
        OthersExpiry(q[1..], t.(delta := t.delta - q[0].delta), i - 1);
      }
      ExpiryTail(r, Moved(q, t.delta, i));
    }
  }

  lemma InsertHere(q: seq<Timer>, t: Timer)
    requires q == [] || q[0].delta >= t.delta
    ensures Insert(q, t) == [t] + q && Place(q, t.delta) == 0 && Residual(q, t.delta) == t.delta
  {
  }

  lemma ExpiryTail(q: seq<Timer>, i: nat)
    requires i < |q|
    ensures Expiry(q, i) == if i == 0 then q[0].delta else q[0].delta + Expiry(q[1..], i - 1)
  {
  }

  lemma PositiveRest(q: seq<Timer>)
    requires Positive(q) && q != []
    ensures Positive(q[1..])
  {
  }

  lemma {:induction false} PlaceIsLastIff(q: seq<Timer>, wait: int)
    requires Positive(q) && wait > 0
    ensures Place(q, wait) == |q| <==> LastExpiry(q) < wait
    decreases |q|
  {
    if q != [] {
      ExpiryGrows(q, |q| - 1);
      if q[0].delta < wait {
        PlaceIsLastIff(q[1..], wait - q[0].delta);
        assert |q| > 1 ==> LastExpiry(q) == q[0].delta + LastExpiry(q[1..]);
      }
    }
  }

  /** A new timer leaves every pending timer's expiry alone if and only if it is itself due after all of them. */
  lemma OthersKeptIff(q: seq<Timer>, t: Timer)
    requires Positive(q) && t.delta > 0
    ensures (forall i :: 0 <= i < |q| ==> Moved(q, t.delta, i) <= |q| < |Insert(q, t)|)
    ensures (forall i :: 0 <= i < |q| ==> Expiry(Insert(q, t), Moved(q, t.delta, i)) == Expiry(q, i)) <==>
              LastExpiry(q) < t.delta
  {
    PlaceIsLastIff(q, t.delta);
    InsertPlaces(q, t);
    forall i | 0 <= i < |q|
      ensures Expiry(Insert(q, t), Moved(q, t.delta, i)) ==
                Expiry(q, i) + if i < Place(q, t.delta) then 0 else Residual(q, t.delta)
    {
      OthersExpiry(q, t, i);
    }
    var k := Place(q, t.delta);
    assert k < |q| ==> Expiry(Insert(q, t), Moved(q, t.delta, k)) == Expiry(q, k) + Residual(q, t.delta);
  }

  /** With one timer due in 10 ticks, adding one due in 4 makes the first due in 14. */
  lemma LaterTimerPutOff(f: int, g: int)
    ensures Expiry([Timer(f, 10)], 0) == 10
    ensures Insert([Timer(f, 10)], Timer(g, 4)) == [Timer(g, 4), Timer(f, 10)]
    ensures Expiry([Timer(g, 4), Timer(f, 10)], 1) == 14
  {
    assert Expiry([Timer(g, 4), Timer(f, 10)], 1) == 4 + Expiry([Timer(g, 4), Timer(f, 10)][1..], 0);
  }

  // ---------------------------------------------------------------- do_timer

  /** The entries at the front that have run out are taken off the list and called. */
  function FireDue(q: seq<Timer>): (seq<Timer>, seq<int>) {
    if q == [] || q[0].delta > 0 then (q, [])
    else var r := FireDue(q[1..]); (r.0, [q[0].fn] + r.1)
  }

  function Tick(q: seq<Timer>): (seq<Timer>, seq<int>) {
    if q == [] then (q, []) else FireDue(q[0 := q[0].(delta := q[0].delta - 1)])
  }

  /** One tick fires at most one timer, and brings every other one tick nearer. */
  lemma TickEffect(q: seq<Timer>)
    requires Positive(q)
    ensures var (r, f) := Tick(q); var gone := if q != [] && q[0].delta == 1 then 1 else 0;
            && Positive(r) && |r| == |q| - gone && f == (if gone == 1 then [q[0].fn] else [])
            && (forall i: nat :: gone <= i < |q| ==>
                  r[i - gone].fn == q[i].fn && Expiry(r, i - gone) == Expiry(q, i) - 1)
  {
    hide Positive, Tick, Expiry;
    if q == [] {
      NoTick();
    } else {
      TickFront(q);
      if q[0].delta == 1 {
        forall i: nat | 1 <= i < |q| ensures Expiry(q[1..], i - 1) == Expiry(q, i) - 1 { ExpiryTail(q, i); }
      } else {
        forall i: nat | i < |q| ensures Expiry(Tick(q).0, i) == Expiry(q, i) - 1 { TickRest(q, i); }
      }
    }
  }

  lemma NoTick()
    ensures Tick([]) == ([], []) && Positive([])
  {
  }

  /** What a tick does to a list that is not empty. */
  lemma TickFront(q: seq<Timer>)
    requires Positive(q) && q != []
    ensures Positive(Tick(q).0)
    ensures Tick(q) == if q[0].delta == 1 then (q[1..], [q[0].fn]) else (q[0 := q[0].(delta := q[0].delta - 1)], [])
  {
    var q1 := q[0 := q[0].(delta := q[0].delta - 1)];
    assert q1[1..] == q[1..];
    if q[0].delta == 1 {
      assert |q| > 1 ==> q[1].delta > 0 && q[1..][0] == q[1];
      assert FireDue(q[1..]) == (q[1..], []);
      assert FireDue(q1) == (q[1..], [q[0].fn] + []);
      assert [q[0].fn] + [] == [q[0].fn];
    }
  }

  lemma TickRest(q: seq<Timer>, i: nat)
    requires i < |q|
    ensures Expiry(q[0 := q[0].(delta := q[0].delta - 1)], i) == Expiry(q, i) - 1
  {
    assert q[0 := q[0].(delta := q[0].delta - 1)][1..] == q[1..];
  }

  /** Whatever timers a handler adds while it runs, the loop of do_timer then stops. */
  lemma {:induction false} HandlerAdds(q: seq<Timer>, added: seq<Timer>)
    requires Positive(q) && Positive(added)
    ensures var r := InsertAll(q, added); |r| == |q| + |added| && Positive(r) && FireDue(r) == (r, [])
    decreases |added|
  {
    if added != [] {
      InsertPlaces(q, added[0]);
      HandlerAdds(Insert(q, added[0]), added[1..]);
    }
  }

  function InsertAll(q: seq<Timer>, added: seq<Timer>): seq<Timer>
    decreases |added|
  {
    if added == [] then q else InsertAll(Insert(q, added[0]), added[1..])
  }

  // ---------------------------------------------------------------- runs

  /** add_timer(wait, fn), or a clock tick. */
  datatype Event = Add(wait: int, fn: int) | Beat

  /** A null function is ignored, a wait of 0 or less calls the function at once. */
  function Next(q: seq<Timer>, e: Event): (seq<Timer>, seq<int>) {
    match e
    case Add(wait, fn) => if fn == 0 then (q, []) else if wait <= 0 then (q, [fn]) else (Insert(q, Timer(fn, wait)), [])
    case Beat => Tick(q)
  }

  predicate Inserts(e: Event) {
    e.Add? && e.fn != 0 && e.wait > 0
  }

  lemma NextPositive(q: seq<Timer>, e: Event)
    requires Positive(q)
    ensures Positive(Next(q, e).0)
  {
    if e.Beat? { TickEffect(q); } else if Inserts(e) { InsertPlaces(q, Timer(e.fn, e.wait)); }
  }

  /** What becomes of a pending timer: the tick that calls it, or where it still waits. */
  datatype Fate = Fired(fn: int, at: nat) | Waiting(i: nat)

  /** Entry i followed through a run, of which past ticks are already over. */
  ghost function Follow(q: seq<Timer>, i: nat, es: seq<Event>, past: nat): Fate
    requires Positive(q) && i < |q|
    decreases |es|
  {
    if es == [] then Waiting(i)
    else if es[0].Beat? then
      TickEffect(q);
      if i == 0 && q[0].delta == 1 then Fired(q[0].fn, past + 1)
      else Follow(Tick(q).0, if q[0].delta == 1 then i - 1 else i, es[1..], past + 1)
    else if Inserts(es[0]) then
      InsertPlaces(q, Timer(es[0].fn, es[0].wait));
      Follow(Insert(q, Timer(es[0].fn, es[0].wait)), Moved(q, es[0].wait, i), es[1..], past)
    else Follow(q, i, es[1..], past)
  }

  /** By how much the timers added before entry i is called put it off. */
  ghost function PutOff(q: seq<Timer>, i: nat, es: seq<Event>): int
    requires Positive(q) && i < |q|
    decreases |es|
  {
    if es == [] then 0
    else if es[0].Beat? then
      TickEffect(q);
      if i == 0 && q[0].delta == 1 then 0 else PutOff(Tick(q).0, if q[0].delta == 1 then i - 1 else i, es[1..])
    else if Inserts(es[0]) then
      InsertPlaces(q, Timer(es[0].fn, es[0].wait));
      (if i < Place(q, es[0].wait) then 0 else Residual(q, es[0].wait))
      + PutOff(Insert(q, Timer(es[0].fn, es[0].wait)), Moved(q, es[0].wait, i), es[1..])
    else PutOff(q, i, es[1..])
  }

  function Beats(es: seq<Event>): nat {
    if es == [] then 0 else (if es[0].Beat? then 1 else 0) + Beats(es[1..])
  }

  ghost function Final(q: seq<Timer>, es: seq<Event>): seq<Timer>
    decreases |es|
  {
    if es == [] then q else Final(Next(q, es[0]).0, es[1..])
  }

  /** In the run es, entry i is called with its own function at its expiry plus what it was put off, or
      is still on the list with what is left of that to wait. */
  ghost predicate Fires(q: seq<Timer>, i: nat, es: seq<Event>, past: nat)
    requires Positive(q) && i < |q|
  {
    var due := Expiry(q, i) + PutOff(q, i, es);
    match Follow(q, i, es, past)
    case Fired(fn, at) => fn == q[i].fn && at == past + due && due <= Beats(es)
    case Waiting(j) => j < |Final(q, es)| && Final(q, es)[j].fn == q[i].fn
                       && Expiry(Final(q, es), j) == due - Beats(es) > 0
  }

  /** Over every run a pending timer is called exactly once, with its own function, at its expiry plus
      what it was put off: never early; until then it stays on the list. */
  lemma {:induction false} RunFires(q: seq<Timer>, i: nat, es: seq<Event>, past: nat)
    requires Positive(q) && i < |q|
    ensures Positive(Final(q, es)) && PutOff(q, i, es) >= 0 && Fires(q, i, es, past)
    decreases |es|
  {
    hide Expiry, Positive, Final, Inserts, Fires, PutOff;
    FinalPositive(q, es);
    if es == [] {
      ExpiryGrows(q, i);
      WaitsStill(q, i, past);
    } else if es[0].Beat? {
      BeatFires(q, i, es, past);
    } else if Inserts(es[0]) {
      AddFires(q, i, es, past);
    } else {
      OtherFires(q, i, es, past);
    }
  }

  lemma WaitsStill(q: seq<Timer>, i: nat, past: nat)
    requires Positive(q) && i < |q| && Expiry(q, i) > 0
    ensures PutOff(q, i, []) == 0 && Fires(q, i, [], past)
  {
  }

  /** The same when the first event is a tick. */
  lemma {:induction false} BeatFires(q: seq<Timer>, i: nat, es: seq<Event>, past: nat)
    requires Positive(q) && i < |q| && es != [] && es[0].Beat?
    ensures PutOff(q, i, es) >= 0 && Fires(q, i, es, past)
    decreases |es|, 0
  {
    hide Expiry, Positive, Tick;
    TickEffect(q);
    if i == 0 && q[0].delta == 1 {
      ExpiryTail(q, 0);
    } else {
      RunFires(Tick(q).0, if q[0].delta == 1 then i - 1 else i, es[1..], past + 1);
    }
  }

  /** The same when the first event adds nothing. */
  lemma {:induction false} OtherFires(q: seq<Timer>, i: nat, es: seq<Event>, past: nat)
    requires Positive(q) && i < |q| && es != [] && !es[0].Beat? && !Inserts(es[0])
    ensures PutOff(q, i, es) >= 0 && Fires(q, i, es, past)
    decreases |es|, 0
  {
    hide Expiry, Positive;
    RunFires(q, i, es[1..], past);
  }

  /** The same when the first event adds a timer. */
  lemma {:induction false} AddFires(q: seq<Timer>, i: nat, es: seq<Event>, past: nat)
    requires Positive(q) && i < |q| && es != [] && Inserts(es[0])
    ensures PutOff(q, i, es) >= 0 && Fires(q, i, es, past)
    decreases |es|, 0
  {
    hide Insert, Place, Residual, Expiry, Positive;
    var t := Timer(es[0].fn, es[0].wait);
    InsertPlaces(q, t);
    OthersExpiry(q, t, i);
    RunFires(Insert(q, t), Moved(q, t.delta, i), es[1..], past);
  }

  lemma {:induction false} FinalPositive(q: seq<Timer>, es: seq<Event>)
    requires Positive(q)
    ensures Positive(Final(q, es))
    decreases |es|
  {
    if es != [] {
      NextPositive(q, es[0]);
      FinalPositive(Next(q, es[0]).0, es[1..]);
    }
  }

  function Fns(q: seq<Timer>): multiset<int> {
    if q == [] then multiset{} else multiset{q[0].fn} + Fns(q[1..])
  }

  /** The functions called in a run, and those asked for. */
  ghost function Called(q: seq<Timer>, es: seq<Event>): multiset<int>
    decreases |es|
  {
    if es == [] then multiset{} else multiset(Next(q, es[0]).1) + Called(Next(q, es[0]).0, es[1..])
  }

  function Asked(es: seq<Event>): multiset<int> {
    if es == [] then multiset{}
    else (if es[0].Add? && es[0].fn != 0 then multiset{es[0].fn} else multiset{}) + Asked(es[1..])
  }

  /** Every function asked for is called once or still pending; nothing else is called. */
  lemma {:induction false} CalledOnce(q: seq<Timer>, es: seq<Event>)
    ensures Called(q, es) + Fns(Final(q, es)) == Fns(q) + Asked(es)
    decreases |es|
  {
    hide Next, Fns;
    if es != [] {
      NextFns(q, es[0]);
      CalledOnce(Next(q, es[0]).0, es[1..]);
      var m, r := multiset(Next(q, es[0]).1), Next(q, es[0]).0;
      calc {
        Called(q, es) + Fns(Final(q, es));
        m + (Called(r, es[1..]) + Fns(Final(r, es[1..])));
        m + (Fns(r) + Asked(es[1..]));
        (m + Fns(r)) + Asked(es[1..]);
        Fns(q) + Asked(es);
      }
    }
  }

  lemma NextFns(q: seq<Timer>, e: Event)
    ensures multiset(Next(q, e).1) + Fns(Next(q, e).0) ==
              Fns(q) + if e.Add? && e.fn != 0 then multiset{e.fn} else multiset{}
  {
    if e.Beat? && q != [] {
      var q1 := q[0 := q[0].(delta := q[0].delta - 1)];
      assert q1[1..] == q[1..];
      FireFns(q1);
    } else if Inserts(e) {
      InsertFns(q, Timer(e.fn, e.wait));
    }
  }

  lemma {:induction false} InsertFns(q: seq<Timer>, t: Timer)
    ensures Fns(Insert(q, t)) == Fns(q) + multiset{t.fn}
    decreases |q|
  {
    var r := Insert(q, t);
    if q == [] || q[0].delta >= t.delta {
      assert r[1..] == q;
    } else {
      assert r[1..] == Insert(q[1..], t.(delta := t.delta - q[0].delta));
      InsertFns(q[1..], t.(delta := t.delta - q[0].delta));
    }
  }

  lemma {:induction false} FireFns(q: seq<Timer>)
    ensures Fns(q) == multiset(FireDue(q).1) + Fns(FireDue(q).0)
    decreases |q|
  {
    if q != [] && q[0].delta <= 0 {
      FireFns(q[1..]);
      assert FireDue(q).1 == [q[0].fn] + FireDue(q[1..]).1;
    }
  }
}

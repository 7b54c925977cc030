/** Ticket accounting across requests: many requests interleave their acquires and settlements with
    each other and with resets, evictions, health reports and ticketless failures. */
module Tickets {
  import opened Prelude
  import opened CircuitMachine
  import opened CircuitStore
  import opened CircuitRuns

  /** A call that ends the use of a ticket. `release` always lowers the load; the recorders do so
      only when they carry a ticket. */
  predicate Settles(call: Call) {
    match call
    case CallRelease(_, _) => true
    case CallSuccess(_, t) => t != NoTicket
    case CallFailure(_, t, _) => t != NoTicket
    case _ => false
  }

  // ----- one request ----------------------------------------------------------------------------

  datatype Holding = Free | Holds(key: string) | Broken

  /** What a request holds after its calls, in order: at most one ticket at a time, settled on the
      key it was acquired for. */
  function HoldAfter(calls: seq<Call>): Holding {
    if calls == [] then Free else Hold(HoldAfter(Front(calls)), Last(calls))
  }

  function Hold(h: Holding, call: Call): Holding {
    if call.CallAcquire? then
      if h.Free? then Holds(call.key) else Broken
    else if Settles(call) then
      if h == Holds(call.key) then Free else Broken
    else h
  }

  // ----- many requests --------------------------------------------------------------------------

  /** An event and the request it belongs to. */
  datatype Tagged = Tagged(request: nat, event: Event)

  function Events(tes: seq<Tagged>): seq<Event> {
    if tes == [] then [] else Events(Front(tes)) + [Last(tes).event]
  }

  function CallsOf(tes: seq<Tagged>, request: nat): seq<Call> {
    if tes == [] then []
    else CallsOf(Front(tes), request) + (if Last(tes).request == request then [Last(tes).event.call] else [])
  }

  /** Every request, seen on its own, keeps the one-ticket discipline at every moment. */
  ghost predicate Disciplined(tes: seq<Tagged>) {
    forall r: nat :: !HoldAfter(CallsOf(tes, r)).Broken?
  }

  /** The key each request currently holds a ticket for. */
  function Holders(tes: seq<Tagged>): map<nat, string> {
    if tes == [] then map[]
    else
      var t := Last(tes);
      var before := Holders(Front(tes));
      if t.event.call.CallAcquire? then before[t.request := t.event.call.key]
      else if Settles(t.event.call) then before - {t.request}
      else before
  }

  function HoldersOf(holders: map<nat, string>, key: string): set<nat> {
    set r | r in holders && holders[r] == key
  }

  lemma DisciplinedPrefix(tes: seq<Tagged>)
    requires tes != [] && Disciplined(tes)
    ensures Disciplined(Front(tes))
  {
    forall r: nat ensures !HoldAfter(CallsOf(Front(tes), r)).Broken? {
      CallsAppend(tes, r);
    }
  }

  lemma CallsAppend(tes: seq<Tagged>, r: nat)
    requires tes != []
    ensures HoldAfter(CallsOf(tes, r))
         == if Last(tes).request == r then Hold(HoldAfter(CallsOf(Front(tes), r)), Last(tes).event.call)
            else HoldAfter(CallsOf(Front(tes), r))
  {
    var before := CallsOf(Front(tes), r);
    assert before + [] == before;
    assert Front(before + [Last(tes).event.call]) == before;
  }

  /** The shared table of holders agrees with each request's own view. */
  lemma {:induction false} HoldersAgree(tes: seq<Tagged>, r: nat)
    requires Disciplined(tes)
    ensures HoldAfter(CallsOf(tes, r)) == if r in Holders(tes) then Holds(Holders(tes)[r]) else Free
  {
    if tes != [] {
      DisciplinedPrefix(tes);
      HoldersAgree(Front(tes), r);
      CallsAppend(tes, r);
      assert !HoldAfter(CallsOf(tes, r)).Broken?;
    }
  }

  /** How one disciplined event changes the set of holders of a key. */
  lemma HoldersStep(tes: seq<Tagged>, key: string)
    requires tes != [] && Disciplined(tes)
    ensures var call := Last(tes).event.call;
            var before, after := |HoldersOf(Holders(Front(tes)), key)|, |HoldersOf(Holders(tes), key)|;
            if call.CallAcquire? && call.key == key then after == before + 1
            else if Settles(call) && call.key == key then before > 0 && after == before - 1
            else after == before
  {
    var t := Last(tes);
    var before, after := HoldersOf(Holders(Front(tes)), key), HoldersOf(Holders(tes), key);
    DisciplinedPrefix(tes);
    HoldersAgree(Front(tes), t.request);
    HoldersAgree(tes, t.request);
    CallsAppend(tes, t.request);
    if t.event.call.CallAcquire? && t.event.call.key == key {
      assert after == before + {t.request};
    } else if Settles(t.event.call) && t.event.call.key == key {
      assert t.request in before && after == before - {t.request};
    } else {
      assert after == before;
    }
  }

  // ----- load against holders -------------------------------------------------------------------

  lemma LoadStep(c: Breaker, e: Stamped)
    ensures Apply(c, e).inflight ==
      if e.op.Acquire? then c.inflight + 1
      else if e.op.Release? || (e.op.Success? && e.op.ticket != NoTicket) || (e.op.Failure? && e.op.ticket != NoTicket)
      then Max(0, c.inflight - 1)
      else c.inflight
  {
  }

  /** How one event changes the load of one circuit. */
  lemma LoadEffect(st: Store, ev: Event, key: string)
    requires StoreOk(st) && key in Step(st, ev).entries
    ensures Step(st, ev).entries[key].breaker.inflight ==
      if ev.call.CallAcquire? && ev.call.key == key then Current(st, key).inflight + 1
      else if Settles(ev.call) && ev.call.key == key then Max(0, Current(st, key).inflight - 1)
      else Current(st, key).inflight
  {
    StepEffect(st, ev, key);
    if Reaches(st, ev, key) {
      LoadStep(Current(st, key), StampOf(ev));
    }
  }

  /** For every interleaving of requests, a circuit's load never exceeds the tickets out on it. */
  lemma {:induction false} LoadNeverExceedsTickets(tes: seq<Tagged>, key: string)
    requires Disciplined(tes)
    ensures Current(Run(Events(tes)), key).inflight <= |HoldersOf(Holders(tes), key)|
  {
    if tes != [] {
      DisciplinedPrefix(tes);
      LoadNeverExceedsTickets(Front(tes), key);
      HoldersStep(tes, key);
      RunStep(Events(Front(tes)), Last(tes).event);
      if key in Run(Events(tes)).entries {
        LoadEffect(Run(Events(Front(tes))), Last(tes).event, key);
      }
    }
  }

  /** At every moment so far the circuit of `key` was in the registry if a ticket was out on it. It may
      well have been evicted or reset while none was. */
  ghost predicate KeptWhileOut(tes: seq<Tagged>, key: string) {
    && (HoldersOf(Holders(tes), key) != {} ==> key in Run(Events(tes)).entries)
    && (tes == [] || KeptWhileOut(Front(tes), key))
  }

  /** At every moment so far the load of the circuit was exactly the number of tickets out on it. */
  ghost predicate LoadExact(tes: seq<Tagged>, key: string) {
    && Current(Run(Events(tes)), key).inflight == |HoldersOf(Holders(tes), key)|
    && (tes == [] || LoadExact(Front(tes), key))
  }

  predicate EndsInSettlement(tes: seq<Tagged>, key: string) {
    tes != [] && Settles(Last(tes).event.call) && Last(tes).event.call.key == key
  }

  /** The load is exact throughout if and only if the circuit was never evicted or reset while a ticket
      was out on it. Then the clamp at zero never swallows a settlement. */
  lemma {:induction false} LoadExactIff(tes: seq<Tagged>, key: string)
    requires Disciplined(tes)
    ensures LoadExact(tes, key) <==> KeptWhileOut(tes, key)
    ensures LoadExact(tes, key) && EndsInSettlement(tes, key) ==> Current(Run(Events(Front(tes))), key).inflight > 0
  {
    if tes == [] {
      assert HoldersOf(Holders(tes), key) == {};
    } else {
      DisciplinedPrefix(tes);
      LoadExactIff(Front(tes), key);
      HoldersStep(tes, key);
      RunStep(Events(Front(tes)), Last(tes).event);
      if key in Run(Events(tes)).entries {
        LoadEffect(Run(Events(Front(tes))), Last(tes).event, key);
      }
    }
  }

  /** A run in which the load falls below the tickets: a reset while a request holds one. */
  lemma LoadCanFallBelowTickets(key: string, meta: Meta, cfg: Settings)
    ensures var tes := [Tagged(0, Event(0.0, cfg, CallAcquire(key, meta))), Tagged(1, Event(0.0, cfg, CallReset))];
            && Disciplined(tes)
            && Current(Run(Events(tes)), key).inflight == 0
            && |HoldersOf(Holders(tes), key)| == 1
  {
    var acquire, reset := Tagged(0, Event(0.0, cfg, CallAcquire(key, meta))), Tagged(1, Event(0.0, cfg, CallReset));
    var one, two := [acquire], [acquire, reset];
    assert Front(one) == [] && Last(one) == acquire && Front(two) == one && Last(two) == reset;
    assert Holders(one) == Holders(Front(one))[0 := key] == map[0 := key];
    assert Holders(two) == Holders(one);
    assert HoldersOf(Holders(two), key) == {0};
    forall r: nat ensures !HoldAfter(CallsOf(two, r)).Broken? {
      CallsAppend(one, r);
      CallsAppend(two, r);
    }
    RunStep(Events(one), reset.event);
  }
}

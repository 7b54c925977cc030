/** The usage logger: base rows, request logs and hourly rollups written batch by batch.

    `usage_hourly` is a materialised aggregate of `usage_events`. A flush is one transaction: it
    happens entirely or not at all. */
module UsageLogger {
  import opened Prelude

  datatype UsageEvent = UsageEvent(
    keyId: string,
    model: string,
    promptTokens: int,
    completionTokens: int,
    totalTokens: int,
    cost: Option<real>,
    durationMs: real,
    ttftMs: Option<real>,
    status: int)

  predicate IsSuccess(ev: UsageEvent) { 200 <= ev.status < 300 }

  /** What one hour of one key and model adds up to. */
  datatype Totals = Totals(
    requests: int,
    promptTokens: int,
    completionTokens: int,
    totalTokens: int,
    cost: real,
    durationMs: real,
    ttftMs: real,
    ttftCount: int)

  const ZERO: Totals := Totals(0, 0, 0, 0, 0.0, 0.0, 0.0, 0)

  function Add(a: Totals, b: Totals): Totals {
    Totals(a.requests + b.requests, a.promptTokens + b.promptTokens, a.completionTokens + b.completionTokens,
           a.totalTokens + b.totalTokens, a.cost + b.cost, a.durationMs + b.durationMs,
           a.ttftMs + b.ttftMs, a.ttftCount + b.ttftCount)
  }

  function Weight(ev: UsageEvent): Totals {
    Totals(1, ev.promptTokens, ev.completionTokens, ev.totalTokens,
           if ev.cost.Some? then ev.cost.value else 0.0, ev.durationMs,
           if ev.ttftMs.Some? then ev.ttftMs.value else 0.0, if ev.ttftMs.Some? then 1 else 0)
  }

  /** The conflict key of `usage_hourly`. */
  datatype Slot = Slot(keyId: string, model: string, hour: int)

  /** A row of `usage_events`: the event, when the batch says it was created, and the hour the clock
      showed when the event was rolled up (which the table does not store). */
  datatype Row = Row(ev: UsageEvent, createdAt: int, hour: int)

  const SECONDS_PER_HOUR := 3600

  function HourOf(t: int): int { t / SECONDS_PER_HOUR }

  function SlotOf(row: Row): Slot { Slot(row.ev.keyId, row.ev.model, row.hour) }

  /** The slot an auditor would file the stored row under. */
  function AuditSlot(row: Row): Slot { Slot(row.ev.keyId, row.ev.model, HourOf(row.createdAt)) }

  /** The group-by sum of the rows of one slot. */
  function GroupSum(rows: seq<Row>, slot: Slot): Totals {
    if rows == [] then ZERO
    else
      var rest := GroupSum(Front(rows), slot);
      if SlotOf(Last(rows)) == slot then Add(rest, Weight(Last(rows).ev)) else rest
  }

  ghost predicate HasSlot(rows: seq<Row>, slot: Slot) {
    exists r :: r in rows && SlotOf(r) == slot
  }

  /** The hourly table holds one row for every slot with base rows: their sum, and nothing else. */
  ghost predicate Aggregates(hourly: map<Slot, Totals>, rows: seq<Row>) {
    && (forall s :: s in hourly <==> HasSlot(rows, s))
    && (forall s :: s in hourly ==> hourly[s] == GroupSum(rows, s))
  }

  lemma {:induction false} GroupSumConcat(a: seq<Row>, b: seq<Row>, slot: Slot)
    ensures GroupSum(a + b, slot) == Add(GroupSum(a, slot), GroupSum(b, slot))
  {
    if b == [] {
      assert a + b == a;
    } else {
      assert Front(a + b) == a + Front(b);
      GroupSumConcat(a, Front(b), slot);
    }
  }

  lemma {:induction false} NoSlotNoSum(rows: seq<Row>, slot: Slot)
    requires !HasSlot(rows, slot)
    ensures GroupSum(rows, slot) == ZERO
  {
    if rows != [] {
      assert rows == Front(rows) + [Last(rows)] && Last(rows) in rows;
      assert forall r :: r in Front(rows) ==> r in rows;
      NoSlotNoSum(Front(rows), slot);
    }
  }

  lemma HasSlotConcat(a: seq<Row>, b: seq<Row>, slot: Slot)
    ensures HasSlot(a + b, slot) <==> HasSlot(a, slot) || HasSlot(b, slot)
  {
    assert forall r :: r in a + b <==> r in a || r in b;
  }

  /** Appending rows to the base table and adding their sums to the hourly table keep the aggregate. */
  lemma AggregateGrows(hourly: map<Slot, Totals>, rows: seq<Row>, after: map<Slot, Totals>, more: seq<Row>)
    requires Aggregates(hourly, rows)
    requires forall s :: s in after <==> s in hourly || HasSlot(more, s)
    requires forall s :: s in after ==> after[s] == Add(GetOr(hourly, s, ZERO), GroupSum(more, s))
    ensures Aggregates(after, rows + more)
  {
    forall s ensures s in after <==> HasSlot(rows + more, s) {
      HasSlotConcat(rows, more, s);
    }
    forall s | s in after ensures after[s] == GroupSum(rows + more, s) {
      GroupSumConcat(rows, more, s);
      if s !in hourly { NoSlotNoSum(rows, s); }
    }
  }

  /** The base rows of a batch: its successful events, stamped with the batch's creation time and the
      clock reading of their own turn. */
  function BaseRows(batch: seq<UsageEvent>, createdAt: int, clock: nat -> int): seq<Row> {
    if batch == [] then []
    else
      var rest := BaseRows(Front(batch), createdAt, clock);
      if IsSuccess(Last(batch)) then rest + [Row(Last(batch), createdAt, HourOf(clock(|batch| - 1)))] else rest
  }

  // ----- what the sums are ------------------------------------------------------------------------

  function SumOf(rows: seq<Row>, f: UsageEvent -> int): int {
    if rows == [] then 0 else SumOf(Front(rows), f) + f(Last(rows).ev)
  }

  function SumOfReals(rows: seq<Row>, f: UsageEvent -> real): real {
    if rows == [] then 0.0 else SumOfReals(Front(rows), f) + f(Last(rows).ev)
  }

  /** The rows of one key and model rolled up in one hour. */
  function RowsIn(rows: seq<Row>, s: Slot): seq<Row> {
    Filter(rows, (r: Row) => r.ev.keyId == s.keyId && r.ev.model == s.model && r.hour == s.hour)
  }

  function Known(x: Option<real>): real { if x.Some? then x.value else 0.0 }

  function Timed(rows: seq<Row>): seq<Row> { Filter(rows, (r: Row) => r.ev.ttftMs.Some?) }

  /** What a row of the hourly table says, column by column. */
  ghost predicate AddsUp(t: Totals, mine: seq<Row>) {
    && t.requests == |mine|
    && t.promptTokens == SumOf(mine, (e: UsageEvent) => e.promptTokens)
    && t.completionTokens == SumOf(mine, (e: UsageEvent) => e.completionTokens)
    && t.totalTokens == SumOf(mine, (e: UsageEvent) => e.totalTokens)
    && t.cost == SumOfReals(mine, (e: UsageEvent) => Known(e.cost))
    && t.durationMs == SumOfReals(mine, (e: UsageEvent) => e.durationMs)
    && t.ttftMs == SumOfReals(mine, (e: UsageEvent) => Known(e.ttftMs))
    && t.ttftCount == |Timed(mine)|
  }

  lemma {:induction false} GroupSumAddsUp(rows: seq<Row>, s: Slot)
    ensures AddsUp(GroupSum(rows, s), RowsIn(rows, s))
  {
    if rows != [] {
      GroupSumAddsUp(Front(rows), s);
      var mine, last := RowsIn(Front(rows), s), Last(rows);
      if SlotOf(last) == s {
        assert Front(mine + [last]) == mine;
      } else {
        assert mine + [] == mine;
      }
    }
  }

  /** The hourly table has a row for a key, a model and an hour exactly if a base row has, and it counts
      those base rows and adds up their tokens, known costs, durations and known times to first token. */
  lemma HourlyAddsUp(hourly: map<Slot, Totals>, rows: seq<Row>, s: Slot)
    requires Aggregates(hourly, rows)
    ensures s in hourly <==> RowsIn(rows, s) != []
    ensures s in hourly ==> AddsUp(hourly[s], RowsIn(rows, s))
  {
    GroupSumAddsUp(rows, s);
    if HasSlot(rows, s) {
      var r :| r in rows && SlotOf(r) == s;
      assert r in RowsIn(rows, s);
    }
    if RowsIn(rows, s) != [] {
      assert RowsIn(rows, s)[0] in RowsIn(rows, s);
    }
  }

  /** The base rows are those of the events answered with a 2xx status, at the positions `ps` of the batch,
      in order, each in the hour of its own clock reading. */
  ghost predicate BasedOn(rows: seq<Row>, batch: seq<UsageEvent>, createdAt: int, clock: nat -> int, ps: seq<nat>) {
    && |ps| == |rows|
    && (forall i, j :: 0 <= i < j < |ps| ==> ps[i] < ps[j])
    && (forall i :: 0 <= i < |ps| ==>
          ps[i] < |batch| && rows[i] == Row(batch[ps[i]], createdAt, clock(ps[i]) / 3600))
    && (forall p: nat :: p < |batch| ==> (p in ps <==> 200 <= batch[p].status <= 299))
  }

  lemma BasedOnSnoc(rows: seq<Row>, batch: seq<UsageEvent>, createdAt: int, clock: nat -> int, ps: seq<nat>,
                    ev: UsageEvent)
    requires BasedOn(rows, batch, createdAt, clock, ps)
    ensures if IsSuccess(ev)
            then BasedOn(rows + [Row(ev, createdAt, HourOf(clock(|batch|)))], batch + [ev], createdAt, clock,
                         ps + [|batch|])
            else BasedOn(rows, batch + [ev], createdAt, clock, ps)
  {
    var after := if IsSuccess(ev) then ps + [|batch|] else ps;
    forall p: nat | p < |batch| + 1 ensures p in after <==> 200 <= (batch + [ev])[p].status <= 299 {
      if p == |batch| {
        assert p !in ps;
      } else {
        assert (batch + [ev])[p] == batch[p];
      }
    }
  }

  lemma {:induction false} BaseRowsAre(batch: seq<UsageEvent>, createdAt: int, clock: nat -> int)
    returns (ps: seq<nat>)
    ensures BasedOn(BaseRows(batch, createdAt, clock), batch, createdAt, clock, ps)
  {
    ps := [];
    if batch != [] {
      ps := BaseRowsAre(Front(batch), createdAt, clock);
      BasedOnSnoc(BaseRows(Front(batch), createdAt, clock), Front(batch), createdAt, clock, ps, Last(batch));
      assert batch == Front(batch) + [Last(batch)];
      if IsSuccess(Last(batch)) { ps := ps + [|batch| - 1]; }
    }
  }

  /** `INSERT ... ON CONFLICT DO UPDATE` of one rollup. */
  function Upsert(hourly: map<Slot, Totals>, slot: Slot, t: Totals): map<Slot, Totals> {
    hourly[slot := if slot in hourly then Add(hourly[slot], t) else t]
  }

  /** A rollup that grows in memory while a batch is walked. */
  class Rollup {
    const slot: Slot
    var totals: Totals

    constructor (slot: Slot)
      ensures this.slot == slot && totals == ZERO
    {
      this.slot := slot;
      totals := ZERO;
    }

    method Count(ev: UsageEvent)
      modifies this
      ensures totals == Add(old(totals), Weight(ev))
    {
      totals := totals.(requests := totals.requests + 1,
                        promptTokens := totals.promptTokens + ev.promptTokens,
                        completionTokens := totals.completionTokens + ev.completionTokens,
                        totalTokens := totals.totalTokens + ev.totalTokens,
                        durationMs := totals.durationMs + ev.durationMs);
      totals := totals.(cost := totals.cost + (if ev.cost.Some? then ev.cost.value else 0.0));
      if ev.ttftMs.Some? {
        totals := totals.(ttftMs := totals.ttftMs + ev.ttftMs.value, ttftCount := totals.ttftCount + 1);
      }
    }
  }

  class UsageLogger {
    /** The three tables, and the log of every event the request log must hold. */
    var usageEvents: seq<Row>
    var usageHourly: map<Slot, Totals>
    var requestLogs: seq<UsageEvent>

    ghost predicate Valid()
      reads this
    {
      Aggregates(usageHourly, usageEvents)
    }

    constructor ()
      ensures Valid() && usageEvents == [] && requestLogs == []
    {
      usageEvents, usageHourly, requestLogs := [], map[], [];
    }

    /** One event's share: create its rollup if it is the first of its slot, and count it. */
    method RollUpRow(ghost rows: seq<Row>, rollups: map<Slot, Rollup>, row: Row) returns (rollups': map<Slot, Rollup>)
      requires RollupsSum(rollups, rows)
      modifies rollups.Values
      ensures RollupsSum(rollups', rows + [row])
      ensures forall s :: s in rollups' ==> fresh(rollups'[s]) || (s in rollups && rollups'[s] == rollups[s])
    {
      var slot := SlotOf(row);
      rollups' := rollups;
      if slot !in rollups {
        NoSlotNoSum(rows, slot);
        var r := new Rollup(slot);
        rollups' := rollups[slot := r];
      }
      rollups'[slot].Count(row.ev);
      assert Front(rows + [row]) == rows;
      forall s ensures HasSlot(rows + [row], s) <==> HasSlot(rows, s) || s == slot {
        HasSlotConcat(rows, [row], s);
        assert row in [row];
      }
    }

    /** The rollups of a batch, one object per slot, summing exactly the base rows of that slot. */
    method RollUp(batch: seq<UsageEvent>, createdAt: int, clock: nat -> int)
      returns (rows: seq<Row>, rollups: map<Slot, Rollup>)
      ensures rows == BaseRows(batch, createdAt, clock)
      ensures RollupsSum(rollups, rows)
    {
      rows, rollups := [], map[];
      for i := 0 to |batch|
        invariant rows == BaseRows(batch[..i], createdAt, clock)
        invariant RollupsSum(rollups, rows)
        invariant forall s :: s in rollups ==> fresh(rollups[s])
      {
        var ev := batch[i];
        assert Front(batch[..i + 1]) == batch[..i];
        if IsSuccess(ev) {
          var row := Row(ev, createdAt, HourOf(clock(i)));
          rollups := RollUpRow(rows, rollups, row);
          rows := rows + [row];
        }
      }
      assert batch[..|batch|] == batch;
    }

    /** One flush. `commits` says whether the transaction went through; a failed one is logged and its
        batch is lost. */
    method Flush(batch: seq<UsageEvent>, createdAt: int, clock: nat -> int, commits: bool)
      requires Valid()
      modifies this
      ensures Valid()
      ensures usageEvents == if commits then old(usageEvents) + BaseRows(batch, createdAt, clock) else old(usageEvents)
      ensures requestLogs == if commits then old(requestLogs) + batch else old(requestLogs)
      ensures !commits ==> usageHourly == old(usageHourly)
    {
      if batch == [] {
        assert old(usageEvents) + [] == old(usageEvents) && old(requestLogs) + [] == old(requestLogs);
        return;
      }
      var rows, rollups := RollUp(batch, createdAt, clock);
      if !commits {
        return;
      }
      usageEvents := usageEvents + rows;
      requestLogs := requestLogs + batch;
      UpsertAll(rollups);
      forall s | s !in rollups ensures GroupSum(rows, s) == ZERO { NoSlotNoSum(rows, s); }
      AggregateGrows(old(usageHourly), old(usageEvents), usageHourly, rows);
    }

    /** `_run`: collect events until the buffer is full, the interval passes or the logger stops, and
        flush what was collected. `timing` gives each flush its creation time, clock and fate. */
    method Run(signals: seq<Signal>, bufferSize: nat, timing: nat -> Timing)
      returns (batches: seq<seq<UsageEvent>>, pending: seq<UsageEvent>)
      requires Valid() && bufferSize > 0
      modifies this
      ensures Valid()
      ensures Batched(batches, pending, signals, bufferSize)
      ensures requestLogs == old(requestLogs) + Committed(batches, timing)
      ensures usageEvents == old(usageEvents) + CommittedRows(batches, timing)
      ensures |pending| < bufferSize
      ensures Stopped(signals) || (signals != [] && Last(signals).Timeout?) ==> pending == []
    {
      batches, pending := [], [];
      ghost var start, rows := requestLogs, usageEvents;
      assert start + [] == start && rows + [] == rows;
      for i := 0 to |signals|
        invariant Valid() && |pending| < bufferSize && !Stopped(signals[..i])
        invariant Batched(batches, pending, signals[..i], bufferSize)
        invariant requestLogs == start + Committed(batches, timing)
        invariant usageEvents == rows + CommittedRows(batches, timing)
        invariant i > 0 && signals[i - 1].Timeout? ==> pending == []
      {
        var signal := signals[i];
        BatchedStep(batches, pending, signals, i, bufferSize);
        if signal.Got? {
          pending := pending + [signal.ev];
        }
        if !signal.Got? || |pending| >= bufferSize {
          batches := FlushNext(batches, pending, timing, start, rows);
          pending := [];
        }
        if signal.Stop? {
          AfterStop(signals, i + 1);
          return;
        }
      }
      assert signals[..|signals|] == signals;
    }

    method FlushNext(batches: seq<seq<UsageEvent>>, batch: seq<UsageEvent>, timing: nat -> Timing,
                     ghost start: seq<UsageEvent>, ghost rows: seq<Row>)
      returns (batches': seq<seq<UsageEvent>>)
      requires Valid() && requestLogs == start + Committed(batches, timing)
      requires usageEvents == rows + CommittedRows(batches, timing)
      modifies this
      ensures Valid() && requestLogs == start + Committed(batches', timing)
      ensures usageEvents == rows + CommittedRows(batches', timing)
      ensures batches' == batches + [batch]
    {
      var t := timing(|batches|);
      Flush(batch, t.createdAt, t.clock, t.commits);
      CommittedStep(batches, batch, timing, start, rows);
      batches' := batches + [batch];
    }

    method UpsertAll(rollups: map<Slot, Rollup>)
      modifies this`usageHourly
      ensures forall s :: s in usageHourly <==> s in old(usageHourly) || s in rollups
      ensures forall s :: s in usageHourly ==>
                usageHourly[s] == Add(GetOr(old(usageHourly), s, ZERO),
                                      if s in rollups then rollups[s].totals else ZERO)
    {
      var left := rollups.Keys;
      while left != {}
        invariant left <= rollups.Keys
        invariant forall s :: s in usageHourly <==> s in old(usageHourly) || (s in rollups && s !in left)
        invariant forall s :: s in usageHourly ==>
                    usageHourly[s] == Add(GetOr(old(usageHourly), s, ZERO),
                                          if s in rollups && s !in left then rollups[s].totals else ZERO)
        decreases left
      {
        var slot :| slot in left;
        usageHourly := Upsert(usageHourly, slot, rollups[slot].totals);
        left := left - {slot};
      }
    }
  }

  ghost predicate RollupsSum(rollups: map<Slot, Rollup>, rows: seq<Row>)
    reads rollups.Values
  {
    && (forall s :: s in rollups ==> rollups[s].slot == s)
    && (forall s :: s in rollups <==> HasSlot(rows, s))
    && (forall s :: s in rollups ==> rollups[s].totals == GroupSum(rows, s))
  }

  // ----- the run loop -----------------------------------------------------------------------------

  /** What the queue hands the loop: an event, the interval timeout, or the end (the stop sentinel or
      a cancellation while waiting). */
  datatype Signal = Got(ev: UsageEvent) | Timeout | Stop

  datatype Timing = Timing(createdAt: int, clock: nat -> int, commits: bool)

  predicate Stopped(signals: seq<Signal>) {
    Stop in signals
  }

  /** The events taken from the queue before the end. */
  function Received(signals: seq<Signal>): seq<UsageEvent> {
    if signals == [] then []
    else
      var before := Received(Front(signals));
      if Last(signals).Got? && !Stopped(Front(signals)) then before + [Last(signals).ev] else before
  }

  function Flat(batches: seq<seq<UsageEvent>>): seq<UsageEvent> {
    if batches == [] then [] else Flat(Front(batches)) + Last(batches)
  }

  ghost predicate AtMost(batches: seq<seq<UsageEvent>>, n: nat) {
    forall b :: b in batches ==> |b| <= n
  }

  /** The batches that were written before the buffer was full. */
  function Partial(batches: seq<seq<UsageEvent>>, n: nat): nat {
    if batches == [] then 0 else Partial(Front(batches), n) + (if |Last(batches)| < n then 1 else 0)
  }

  /** Batches of at most `n` events, of which all but `forced` are full. */
  ghost predicate Sized(batches: seq<seq<UsageEvent>>, n: nat, forced: nat) {
    AtMost(batches, n) && Partial(batches, n) == forced
  }

  /** The timeouts before the end, and the end itself. */
  function Forced(signals: seq<Signal>): nat {
    if signals == [] then 0
    else Forced(Front(signals)) + (if !Last(signals).Got? && !Stopped(Front(signals)) then 1 else 0)
  }

  /** The events received are those handed over before the first stop, in order. */
  lemma ReceivedAre(signals: seq<Signal>, k: nat)
    requires k <= |signals| && !Stopped(signals[..k]) && (k == |signals| || signals[k].Stop?)
    ensures HandedOver(Received(signals), Filter(signals[..k], (s: Signal) => s.Got?))
  {
    ReceivedBefore(signals[..k]);
    NothingLater(signals, k);
  }

  lemma NothingLater(signals: seq<Signal>, k: nat)
    requires k <= |signals| && !Stopped(signals[..k]) && (k == |signals| || signals[k].Stop?)
    ensures Received(signals) == Received(signals[..k])
  {
    if k < |signals| {
      StopGivesNothing(signals, k);
      AfterStop(signals, k + 1);
    } else {
      assert signals[..k] == signals;
    }
  }

  lemma StopGivesNothing(signals: seq<Signal>, k: nat)
    requires k < |signals| && !Stopped(signals[..k]) && signals[k].Stop?
    ensures Stopped(signals[..k + 1]) && Received(signals[..k + 1]) == Received(signals[..k])
  {
    StopsHere(signals, k);
    assert Received(signals[..k]) + [] == Received(signals[..k]);
  }

  ghost predicate HandedOver(events: seq<UsageEvent>, got: seq<Signal>) {
    |events| == |got| && forall i :: 0 <= i < |got| ==> got[i] == Got(events[i])
  }

  lemma {:induction false} ReceivedBefore(signals: seq<Signal>)
    requires !Stopped(signals)
    ensures HandedOver(Received(signals), Filter(signals, (s: Signal) => s.Got?))
  {
    if signals != [] {
      assert signals == Front(signals) + [Last(signals)];
      ReceivedBefore(Front(signals));
    }
  }

  /** The events of the batches whose transaction went through. */
  function Committed(batches: seq<seq<UsageEvent>>, timing: nat -> Timing): seq<UsageEvent> {
    if batches == [] then []
    else Committed(Front(batches), timing) + (if timing(|batches| - 1).commits then Last(batches) else [])
  }

  /** Their base rows. */
  function CommittedRows(batches: seq<seq<UsageEvent>>, timing: nat -> Timing): seq<Row> {
    if batches == [] then [] else CommittedRows(Front(batches), timing) + RowsOf(Last(batches), timing(|batches| - 1))
  }

  function RowsOf(batch: seq<UsageEvent>, t: Timing): seq<Row> {
    if t.commits then BaseRows(batch, t.createdAt, t.clock) else []
  }

  lemma FlatStep(batches: seq<seq<UsageEvent>>, batch: seq<UsageEvent>, n: nat, forced: nat)
    requires Sized(batches, n, forced) && |batch| <= n
    ensures Flat(batches + [batch]) == Flat(batches) + batch
    ensures Sized(batches + [batch], n, if |batch| < n then forced + 1 else forced)
  {
    assert Front(batches + [batch]) == batches;
  }

  lemma CommittedStep(batches: seq<seq<UsageEvent>>, batch: seq<UsageEvent>, timing: nat -> Timing,
                      start: seq<UsageEvent>, rows: seq<Row>)
    ensures start + Committed(batches + [batch], timing)
         == start + Committed(batches, timing) + (if timing(|batches|).commits then batch else [])
    ensures rows + CommittedRows(batches + [batch], timing)
         == rows + CommittedRows(batches, timing) + RowsOf(batch, timing(|batches|))
  {
    assert Front(batches + [batch]) == batches;
    Associate(start, Committed(batches, timing), if timing(|batches|).commits then batch else []);
    Associate(rows, CommittedRows(batches, timing), RowsOf(batch, timing(|batches|)));
  }

  lemma Associate<T>(a: seq<T>, b: seq<T>, c: seq<T>)
    ensures a + b + c == a + (b + c)
  {
  }

  /** Nothing received is lost or repeated: it is in the batches, in order, or pending; and all batches are
      full but those a timeout or the end forced. */
  ghost predicate Batched(batches: seq<seq<UsageEvent>>, pending: seq<UsageEvent>, signals: seq<Signal>, n: nat) {
    Flat(batches) + pending == Received(signals) && Sized(batches, n, Forced(signals))
  }

  lemma StopsHere(signals: seq<Signal>, i: nat)
    requires i < |signals| && !Stopped(signals[..i])
    ensures Stopped(signals[..i + 1]) <==> signals[i].Stop?
    ensures Received(signals[..i + 1]) == Received(signals[..i]) + (if signals[i].Got? then [signals[i].ev] else [])
    ensures Forced(signals[..i + 1]) == Forced(signals[..i]) + (if signals[i].Got? then 0 else 1)
  {
    assert Front(signals[..i + 1]) == signals[..i];
    assert signals[..i + 1] == signals[..i] + [signals[i]];
  }

  /** One signal: an event joins the pending ones, and they are written when they fill the buffer or no
      event came. */
  lemma BatchedStep(batches: seq<seq<UsageEvent>>, pending: seq<UsageEvent>, signals: seq<Signal>, i: nat, n: nat)
    requires i < |signals| && !Stopped(signals[..i]) && |pending| < n && Batched(batches, pending, signals[..i], n)
    ensures Stopped(signals[..i + 1]) <==> signals[i].Stop?
    ensures var more := if signals[i].Got? then pending + [signals[i].ev] else pending;
            if signals[i].Got? && |more| < n then Batched(batches, more, signals[..i + 1], n)
            else Batched(batches + [more], [], signals[..i + 1], n)
  {
    var more := if signals[i].Got? then pending + [signals[i].ev] else pending;
    StopsHere(signals, i);
    Associate(Flat(batches), pending, if signals[i].Got? then [signals[i].ev] else []);
    FlatStep(batches, more, n, Forced(signals[..i]));
    assert Flat(batches) + more == Received(signals[..i + 1]);
    assert Flat(batches + [more]) + [] == Flat(batches + [more]);
  }

  /** Nothing is received after the end. */
  lemma {:induction false} AfterStop(signals: seq<Signal>, i: nat)
    requires i <= |signals| && Stopped(signals[..i])
    ensures Received(signals) == Received(signals[..i]) && Stopped(signals) && Forced(signals) == Forced(signals[..i])
    decreases |signals|
  {
    if i == |signals| {
      assert signals[..i] == signals;
    } else {
      assert Front(signals)[..i] == signals[..i];
      AfterStop(Front(signals), i);
      assert signals == Front(signals) + [Last(signals)];
    }
  }

  // ----- batches do not matter --------------------------------------------------------------------

  /** Rows that differ at most in the creation time their batch gave them. */
  ghost predicate SameWork(a: seq<Row>, b: seq<Row>) {
    |a| == |b| && forall i :: 0 <= i < |a| ==> a[i].ev == b[i].ev && a[i].hour == b[i].hour
  }

  lemma {:induction false} SameWorkSameSums(a: seq<Row>, b: seq<Row>, slot: Slot)
    requires SameWork(a, b)
    ensures GroupSum(a, slot) == GroupSum(b, slot)
    ensures HasSlot(a, slot) ==> HasSlot(b, slot)
  {
    if a != [] {
      SameWorkSameSums(Front(a), Front(b), slot);
    }
    if HasSlot(a, slot) {
      var i :| 0 <= i < |a| && SlotOf(a[i]) == slot;
      assert SlotOf(b[i]) == slot && b[i] in b;
    }
  }

  /** The hourly table depends on the events and the hours they were rolled up in, not on how they were
      split into batches or when the batches were written. */
  lemma TableIgnoresBatches(first: map<Slot, Totals>, a: seq<Row>, second: map<Slot, Totals>, b: seq<Row>)
    requires Aggregates(first, a) && Aggregates(second, b) && SameWork(a, b)
    ensures first == second
  {
    forall s ensures (s in first <==> s in second) && (s in first ==> first[s] == second[s]) {
      SameWorkSameSums(a, b, s);
      SameWorkSameSums(b, a, s);
    }
  }

  /** Flushing one batch in two parts does the same work, given the same clock readings. */
  lemma {:induction false} SplitDoesSameWork(a: seq<UsageEvent>, b: seq<UsageEvent>, t0: int, t1: int, t2: int,
                                             clock: nat -> int)
    ensures SameWork(BaseRows(a + b, t0, clock), BaseRows(a, t1, clock) + BaseRows(b, t2, (i: nat) => clock(|a| + i)))
  {
    if b == [] {
      assert a + b == a;
      OneBatchSameWork(a, t0, t1, clock);
    } else {
      var later := (i: nat) => clock(|a| + i);
      assert Front(a + b) == a + Front(b);
      SplitDoesSameWork(a, Front(b), t0, t1, t2, clock);
      SameWorkAppend(BaseRows(a + Front(b), t0, clock), BaseRows(a, t1, clock), BaseRows(Front(b), t2, later),
                     Last(b), t0, t2, HourOf(clock(|a| + |b| - 1)));
    }
  }

  lemma SameWorkAppend(whole: seq<Row>, left: seq<Row>, right: seq<Row>, ev: UsageEvent, t0: int, t2: int, hour: int)
    requires SameWork(whole, left + right)
    ensures SameWork(whole + [Row(ev, t0, hour)], left + (right + [Row(ev, t2, hour)]))
  {
    assert left + (right + [Row(ev, t2, hour)]) == (left + right) + [Row(ev, t2, hour)];
  }

  lemma {:induction false} OneBatchSameWork(a: seq<UsageEvent>, t0: int, t1: int, clock: nat -> int)
    ensures SameWork(BaseRows(a, t0, clock), BaseRows(a, t1, clock))
  {
    if a != [] { OneBatchSameWork(Front(a), t0, t1, clock); }
  }

  lemma {:induction false} SameHoursSameWork(a: seq<UsageEvent>, t: int, clock: nat -> int, u: int, reading: nat -> int)
    requires forall i: nat :: i < |a| ==> HourOf(clock(i)) == HourOf(reading(i))
    ensures SameWork(BaseRows(a, t, clock), BaseRows(a, u, reading))
  {
    if a != [] { SameHoursSameWork(Front(a), t, clock, u, reading); }
  }

  /** Every event of a committed batch was rolled up in the hour of its own reading; readings are numbered
      as the committed events are. */
  ghost predicate RolledUpAt(batches: seq<seq<UsageEvent>>, timing: nat -> Timing, reading: nat -> int) {
    batches == []
    || (&& RolledUpAt(Front(batches), timing, reading)
        && (timing(|batches| - 1).commits ==>
              HoursFrom(Last(batches), timing(|batches| - 1).clock, reading, |Committed(Front(batches), timing)|)))
  }

  ghost predicate HoursFrom(batch: seq<UsageEvent>, clock: nat -> int, reading: nat -> int, offset: nat) {
    forall i: nat :: i < |batch| ==> HourOf(clock(i)) == HourOf(reading(offset + i))
  }

  /** However the events are batched and whenever the batches are written, the base rows do the work of one
      batch of all committed events. */
  lemma {:induction false} RowsIgnoreBatches(batches: seq<seq<UsageEvent>>, timing: nat -> Timing, reading: nat -> int,
                                             t0: int)
    requires RolledUpAt(batches, timing, reading)
    ensures SameWork(CommittedRows(batches, timing), BaseRows(Committed(batches, timing), t0, reading))
  {
    if batches != [] {
      var before, last, t := Committed(Front(batches), timing), Last(batches), timing(|batches| - 1);
      RowsIgnoreBatches(Front(batches), timing, reading, t0);
      if t.commits {
        var later := (i: nat) => reading(|before| + i);
        SameHoursSameWork(last, t.createdAt, t.clock, t.createdAt, later);
        SplitDoesSameWork(before, last, t0, t0, t.createdAt, reading);
        SameWorkConcat(CommittedRows(Front(batches), timing), BaseRows(before, t0, reading),
                       BaseRows(last, t.createdAt, t.clock), BaseRows(last, t.createdAt, later));
      } else {
        assert before + [] == before;
        assert CommittedRows(Front(batches), timing) + [] == CommittedRows(Front(batches), timing);
      }
    }
  }

  lemma SameWorkConcat(a: seq<Row>, a': seq<Row>, b: seq<Row>, b': seq<Row>)
    requires SameWork(a, a') && SameWork(b, b')
    ensures SameWork(a + b, a' + b')
  {
  }

  /** Two runs that commit the same events, each rolled up in the same hour in both, end with the same
      hourly table, whatever their buffer sizes, timeouts, failed batches and creation times. */
  lemma RunsEndWithOneTable(
    first: map<Slot, Totals>, rows1: seq<Row>, batches1: seq<seq<UsageEvent>>, timing1: nat -> Timing,
    second: map<Slot, Totals>, rows2: seq<Row>, batches2: seq<seq<UsageEvent>>, timing2: nat -> Timing,
    reading: nat -> int)
    requires Aggregates(first, rows1 + CommittedRows(batches1, timing1))
    requires Aggregates(second, rows2 + CommittedRows(batches2, timing2))
    requires SameWork(rows1, rows2) && Committed(batches1, timing1) == Committed(batches2, timing2)
    requires RolledUpAt(batches1, timing1, reading) && RolledUpAt(batches2, timing2, reading)
    ensures first == second
  {
    RowsIgnoreBatches(batches1, timing1, reading, 0);
    RowsIgnoreBatches(batches2, timing2, reading, 0);
    SameWorkConcat(rows1, rows2, CommittedRows(batches1, timing1), CommittedRows(batches2, timing2));
    TableIgnoresBatches(first, rows1 + CommittedRows(batches1, timing1), second,
                        rows2 + CommittedRows(batches2, timing2));
  }

  // ----- against the stored creation times --------------------------------------------------------

  /** The group-by sum an auditor gets from the stored columns. */
  function AuditSum(rows: seq<Row>, slot: Slot): Totals {
    if rows == [] then ZERO
    else
      var rest := AuditSum(Front(rows), slot);
      if AuditSlot(Last(rows)) == slot then Add(rest, Weight(Last(rows).ev)) else rest
  }

  predicate Misfiled(r: Row) { r.hour != HourOf(r.createdAt) }

  lemma {:induction false} WellFiledSums(rows: seq<Row>, slot: Slot)
    requires forall r :: r in rows ==> !Misfiled(r)
    ensures GroupSum(rows, slot) == AuditSum(rows, slot)
  {
    if rows != [] {
      assert rows == Front(rows) + [Last(rows)];
      assert Last(rows) in rows;
      WellFiledSums(Front(rows), slot);
    }
  }

  /** The misfiled row with the latest hour. */
  lemma {:induction false} LatestMisfiled(rows: seq<Row>) returns (r: Row)
    requires exists x :: x in rows && Misfiled(x)
    ensures r in rows && Misfiled(r) && forall x :: x in rows && Misfiled(x) ==> x.hour <= r.hour
  {
    var last := Last(rows);
    assert rows == Front(rows) + [last];
    if exists x :: x in Front(rows) && Misfiled(x) {
      r := LatestMisfiled(Front(rows));
      if Misfiled(last) && last.hour > r.hour { r := last; }
    } else {
      r := last;
    }
  }

  /** If every row created in an hour was rolled up in that hour, the table counts at least as many
      requests there as an auditor, and more if it counts a row from elsewhere. */
  lemma {:induction false} CountsAtLeast(rows: seq<Row>, slot: Slot)
    requires forall r :: r in rows && AuditSlot(r) == slot ==> SlotOf(r) == slot
    ensures AuditSum(rows, slot).requests <= GroupSum(rows, slot).requests
    ensures (exists r :: r in rows && SlotOf(r) == slot && AuditSlot(r) != slot)
              ==> AuditSum(rows, slot).requests < GroupSum(rows, slot).requests
  {
    if rows != [] {
      assert rows == Front(rows) + [Last(rows)];
      CountsAtLeast(Front(rows), slot);
    }
  }

  /** The hourly table agrees with the stored creation times exactly if no row was rolled up in a later
      hour than its batch was created in. Creation time is read once per batch and the hour once per
      event, so a batch walked across the turn of an hour breaks the agreement for good. */
  lemma AuditAgreesIff(rows: seq<Row>)
    requires FiledForward(rows)
    ensures (forall s :: GroupSum(rows, s) == AuditSum(rows, s)) <==> (forall r :: r in rows ==> !Misfiled(r))
  {
    if forall r :: r in rows ==> !Misfiled(r) {
      forall s ensures GroupSum(rows, s) == AuditSum(rows, s) { WellFiledSums(rows, s); }
    } else {
      var r := LatestMisfiled(rows);
      CountsAtLeast(rows, SlotOf(r));
      assert GroupSum(rows, SlotOf(r)) != AuditSum(rows, SlotOf(r));
    }
  }

  ghost predicate FiledForward(rows: seq<Row>) {
    forall r :: r in rows ==> HourOf(r.createdAt) <= r.hour
  }

  /** What a run writes is filed forward if no batch is walked before it was created. */
  lemma {:induction false} CommittedFilesForward(batches: seq<seq<UsageEvent>>, timing: nat -> Timing)
    requires forall n: nat, i: nat :: timing(n).createdAt <= timing(n).clock(i)
    ensures FiledForward(CommittedRows(batches, timing))
  {
    if batches != [] {
      CommittedFilesForward(Front(batches), timing);
      var t := timing(|batches| - 1);
      BatchFilesForward(Last(batches), t.createdAt, t.clock);
    }
  }

  /** The agreement over a whole run, with a clock that does not run backwards while a batch is walked:
      after any batches on any rows so filed, the hourly sums agree with the stored creation times exactly
      if no row was rolled up in a later hour than its batch was created in. */
  lemma RunAuditIff(rows: seq<Row>, batches: seq<seq<UsageEvent>>, timing: nat -> Timing)
    requires FiledForward(rows) && forall n: nat, i: nat :: timing(n).createdAt <= timing(n).clock(i)
    ensures var all := rows + CommittedRows(batches, timing);
            && FiledForward(all)
            && ((forall s :: GroupSum(all, s) == AuditSum(all, s)) <==> (forall r :: r in all ==> !Misfiled(r)))
  {
    CommittedFilesForward(batches, timing);
    AuditAgreesIff(rows + CommittedRows(batches, timing));
  }

  /** A flush that breaks the agreement: the batch is created in the last second of hour 0 and its event
      rolled up a second later. */
  lemma FlushAcrossTheHour(ev: UsageEvent, clock: nat -> int)
    requires IsSuccess(ev) && clock(0) == 3600
    ensures var rows, slot := BaseRows([ev], 3599, clock), Slot(ev.keyId, ev.model, 1);
            && Aggregates(map[slot := Weight(ev)], rows)
            && GroupSum(rows, slot) != AuditSum(rows, slot)
  {
    var row := Row(ev, 3599, 1);
    assert BaseRows([ev], 3599, clock) == [row] by {
      assert Front([ev]) == [];
    }
    OneRow(row);
  }

  lemma OneRow(row: Row)
    ensures forall s :: HasSlot([row], s) <==> SlotOf(row) == s
    ensures GroupSum([row], SlotOf(row)) == Weight(row.ev)
    ensures AuditSum([row], SlotOf(row)) == if AuditSlot(row) == SlotOf(row) then Weight(row.ev) else ZERO
  {
    assert row in [row] && Front([row]) == [];
    assert Add(ZERO, Weight(row.ev)) == Weight(row.ev);
  }

  /** A batch whose clock does not run backwards files no event before its creation hour. */
  lemma {:induction false} BatchFilesForward(batch: seq<UsageEvent>, createdAt: int, clock: nat -> int)
    requires forall i: nat :: createdAt <= clock(i)
    ensures forall r :: r in BaseRows(batch, createdAt, clock) ==>
              r.createdAt == createdAt && HourOf(r.createdAt) <= r.hour
  {
    if batch != [] { BatchFilesForward(Front(batch), createdAt, clock); }
  }
}

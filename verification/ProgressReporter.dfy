/**
 The worker agent's progress reporter (apps/worker-agent/app/service.py:485-555): it
 throttles "encoding" updates and learns of cancellation from the server's replies.
 Instants are microseconds.
 */
module ProgressReporter {
  import opened Wrappers

  const SECOND: int := 1_000_000
  const PERIOD: int := 2 * SECOND
  const STEP: int := 2

  datatype Update = Update(stage: string, percent: Option<real>)

  /** What `report_job_progress` does: raise, or answer. */
  datatype Reply = Lost | Answer(cancel: bool, reason: Option<string>)

  datatype Outcome = Throttled | Delivered | Raised

  /** `int(value)` truncates toward zero. */
  function Truncate(value: real): (whole: int)
    ensures value >= 0.0 ==> whole as real <= value < whole as real + 1.0
    ensures value < 0.0 ==> whole as real - 1.0 < value <= whole as real
  {
    if value >= 0.0 then value.Floor else -((-value).Floor)
  }

  function WholePercent(u: Update): Option<int> {
    match u.percent
    case Some(p) => Some(Truncate(p))
    case None => None
  }

  datatype State = State(
    lastSentAt: Option<int>, lastPercent: Option<int>, lastLoggedStage: Option<string>,
    requested: bool, reason: Option<string>)

  const FRESH: State := State(None, None, None, false, None)

  predicate ShouldSend(s: State, u: Update, now: int) {
    var percent := WholePercent(u);
    || s.lastSentAt.None?
    || u.stage != "encoding"
    || percent.None?
    || s.lastPercent.None?
    || percent.value >= s.lastPercent.value + STEP
    || now - s.lastSentAt.value >= PERIOD
  }

  function OutcomeOf(s: State, u: Update, now: int, reply: Reply): Outcome {
    if !ShouldSend(s, u, now) then Throttled
    else if reply.Lost? then Raised
    else Delivered
  }

  function After(s: State, u: Update, now: int, reply: Reply): State {
    var logged := s.(lastLoggedStage := Some(u.stage));
    if !OutcomeOf(s, u, now, reply).Delivered? then logged
    else
      var told := if reply.cancel then logged.(requested := true, reason := reply.reason) else logged;
      told.(lastSentAt := Some(now), lastPercent := WholePercent(u))
  }

  class CancellationState {
    var requested: bool
    var reason: Option<string>

    constructor ()
      ensures !requested && reason == None
    {
      requested, reason := false, None;
    }
  }

  class Reporter {
    var lastSentAt: Option<int>
    var lastPercent: Option<int>
    var lastLoggedStage: Option<string>
    const cancellation: CancellationState

    constructor (cancellation: CancellationState)
      requires !cancellation.requested && cancellation.reason == None
      ensures this.cancellation == cancellation && View() == FRESH
    {
      lastSentAt, lastPercent, lastLoggedStage := None, None, None;
      this.cancellation := cancellation;
    }

    function View(): State
      reads this, cancellation
    {
      State(lastSentAt, lastPercent, lastLoggedStage, cancellation.requested, cancellation.reason)
    }

    /** The closure `report`; `reply` is what the server would do with this report. */
    method Report(u: Update, now: int, reply: Reply) returns (outcome: Outcome)
      modifies this, cancellation
      ensures View() == After(old(View()), u, now, reply)
      ensures outcome == OutcomeOf(old(View()), u, now, reply) && lastLoggedStage == Some(u.stage)
      ensures cancellation.requested <==> old(cancellation.requested) || (outcome.Delivered? && reply.cancel)
      ensures cancellation.reason == if outcome.Delivered? && reply.cancel then reply.reason else old(cancellation.reason)
    {
      var currentPercent := WholePercent(u);
      if lastLoggedStage != Some(u.stage) {
        lastLoggedStage := Some(u.stage);
      }
      var shouldSend :=
        || lastSentAt.None?
        || u.stage != "encoding"
        || currentPercent.None?
        || lastPercent.None?
        || currentPercent.value >= lastPercent.value + STEP
        || now - lastSentAt.value >= PERIOD;
      if !shouldSend {
        return Throttled;
      }
      if reply.Lost? {
        return Raised;
      }
      if reply.cancel {
        cancellation.requested, cancellation.reason := true, reply.reason;
      }
      lastSentAt, lastPercent := Some(now), currentPercent;
      return Delivered;
    }
  }

  /**
   What is withheld, exactly: an encoding update with a percent, when the last delivery had one too, it is
   less than two whole percent on from it, and less than two seconds.
   */
  lemma WithheldExactly(s: State, u: Update, now: int, reply: Reply)
    ensures OutcomeOf(s, u, now, reply).Throttled? <==>
      exists at, percent ::
        && s.lastSentAt == Some(at) && s.lastPercent == Some(percent)
        && u.stage == "encoding" && u.percent.Some? && Truncate(u.percent.value) < percent + 2 && now < at + 2_000_000
  {
    if s.lastSentAt.Some? && s.lastPercent.Some? {
      var at, percent := s.lastSentAt.value, s.lastPercent.value;
      assert OutcomeOf(s, u, now, reply).Throttled? ==>
        && s.lastSentAt == Some(at) && s.lastPercent == Some(percent)
        && u.stage == "encoding" && u.percent.Some? && Truncate(u.percent.value) < percent + 2 && now < at + 2_000_000;
    }
  }

  // ------------------------------------------------------- Throttle bound

  datatype Call = Call(update: Update, now: int, reply: Reply)

  function AfterCalls(s: State, calls: seq<Call>): State
    decreases |calls|
  {
    if calls == [] then s
    else AfterCalls(After(s, calls[0].update, calls[0].now, calls[0].reply), calls[1..])
  }

  /** How many reports a run of calls delivers to the server. */
  function DeliveredCount(s: State, calls: seq<Call>): nat
    decreases |calls|
  {
    if calls == [] then 0
    else
      var c := calls[0];
      (if OutcomeOf(s, c.update, c.now, c.reply).Delivered? then 1 else 0)
      + DeliveredCount(After(s, c.update, c.now, c.reply), calls[1..])
  }

  predicate Encoding(c: Call) {
    c.update.stage == "encoding" && c.update.percent.Some?
  }

  function Percent(c: Call): int
    requires Encoding(c)
  {
    Truncate(c.update.percent.value)
  }

  /** Encoding updates whose whole percent and clock never go back, from a given point on. */
  ghost predicate Advancing(percent: int, now: int, calls: seq<Call>) {
    && (forall i :: 0 <= i < |calls| ==> Encoding(calls[i]) && percent <= Percent(calls[i]) && now <= calls[i].now)
    && (forall i, j :: 0 <= i < j < |calls| ==> Percent(calls[i]) <= Percent(calls[j]) && calls[i].now <= calls[j].now)
  }

  lemma UnitsDrop(a: int, b: int, c: int)
    ensures a + STEP <= b ==> 1 + (c - b) / STEP <= (c - a) / STEP
    ensures a + PERIOD <= b ==> 1 + (c - b) / PERIOD <= (c - a) / PERIOD
    ensures a <= b ==> (c - b) / STEP <= (c - a) / STEP && (c - b) / PERIOD <= (c - a) / PERIOD
  {
  }

  /** A delivery that gained a step or a period pays for itself. */
  lemma PaidFor(count: nat, p: int, p': int, q: int, t: int, t': int, u: int)
    requires p <= p' <= q && t <= t' <= u && (p + STEP <= p' || t + PERIOD <= t')
    requires count <= (q - p') / STEP + (u - t') / PERIOD
    ensures 1 + count <= (q - p) / STEP + (u - t) / PERIOD
  {
    UnitsDrop(p, p', q);
    UnitsDrop(t, t', u);
  }

  lemma AdvancingRest(percent: int, now: int, calls: seq<Call>)
    requires Advancing(percent, now, calls) && calls != []
    ensures Encoding(calls[0]) && percent <= Percent(calls[0]) && now <= calls[0].now
    ensures Encoding(calls[|calls| - 1]) && Percent(calls[0]) <= Percent(calls[|calls| - 1])
    ensures calls[0].now <= calls[|calls| - 1].now
    ensures Advancing(percent, now, calls[1..]) && Advancing(Percent(calls[0]), calls[0].now, calls[1..])
  {
    var rest := calls[1..];
    assert forall i :: 0 <= i < |rest| ==> rest[i] == calls[i + 1];
  }

  /** A delivered encoding report moves the reporter on by a step or a period; any other leaves it. */
  lemma EncodingStep(s: State, percent: int, sentAt: int, c: Call)
    requires s.lastSentAt == Some(sentAt) && s.lastPercent == Some(percent) && Encoding(c)
    ensures var next, sent := After(s, c.update, c.now, c.reply), OutcomeOf(s, c.update, c.now, c.reply).Delivered?;
      && next.lastSentAt == Some(if sent then c.now else sentAt)
      && next.lastPercent == Some(if sent then Percent(c) else percent)
      && (sent ==> percent + STEP <= Percent(c) || sentAt + PERIOD <= c.now)
  {
  }

  /** From a reporter that last sent `percent` at `sentAt`. */
  lemma {:induction false} DeliveriesArePaidFor(s: State, percent: int, sentAt: int, calls: seq<Call>)
    requires s.lastSentAt == Some(sentAt) && s.lastPercent == Some(percent)
    requires Advancing(percent, sentAt, calls) && calls != []
    ensures DeliveredCount(s, calls)
         <= (Percent(calls[|calls| - 1]) - percent) / STEP + (calls[|calls| - 1].now - sentAt) / PERIOD
    decreases |calls|
  {
    var c, rest := calls[0], calls[1..];
    var last := calls[|calls| - 1];
    var next := After(s, c.update, c.now, c.reply);
    AdvancingRest(percent, sentAt, calls);
    EncodingStep(s, percent, sentAt, c);
    assert rest != [] ==> rest[|rest| - 1] == last;
    if OutcomeOf(s, c.update, c.now, c.reply).Delivered? {
      if rest != [] {
        DeliveriesArePaidFor(next, Percent(c), c.now, rest);
      }
      PaidFor(DeliveredCount(next, rest), percent, Percent(c), Percent(last), sentAt, c.now, last.now);
    } else if rest != [] {
      DeliveriesArePaidFor(next, percent, sentAt, rest);
    }
  }

  /**
   The throttle bound: a reporter that has sent nothing yet delivers at most one report, plus one for every two
   whole percent gained, plus one for every two seconds elapsed.
   */
  lemma {:induction false} ThrottleBound(s: State, calls: seq<Call>)
    requires s.lastSentAt.None? && calls != [] && Encoding(calls[0])
    requires Advancing(Percent(calls[0]), calls[0].now, calls)
    ensures DeliveredCount(s, calls)
         <= 1 + (Percent(calls[|calls| - 1]) - Percent(calls[0])) / STEP
              + (calls[|calls| - 1].now - calls[0].now) / PERIOD
    decreases |calls|
  {
    var c, rest := calls[0], calls[1..];
    if rest != [] {
      assert forall i :: 0 <= i < |rest| ==> rest[i] == calls[i + 1];
      var next := After(s, c.update, c.now, c.reply);
      if c.reply.Lost? {
        ThrottleBound(next, rest);
        UnitsDrop(Percent(c), Percent(rest[0]), Percent(calls[|calls| - 1]));
        UnitsDrop(c.now, rest[0].now, calls[|calls| - 1].now);
      } else {
        DeliveriesArePaidFor(next, Percent(c), c.now, rest);
      }
    }
  }

  /** How many reports a run of calls sends, whether or not the server's reply comes back. */
  function SentCount(s: State, calls: seq<Call>): nat
    decreases |calls|
  {
    if calls == [] then 0
    else
      var c := calls[0];
      (if ShouldSend(s, c.update, c.now) then 1 else 0)
      + SentCount(After(s, c.update, c.now, c.reply), calls[1..])
  }

  /** A lost reply raises and ends the encoding, so only the last one of a run can be lost. */
  ghost predicate AnsweredButLast(calls: seq<Call>) {
    forall i :: 0 <= i < |calls| - 1 ==> calls[i].reply.Answer?
  }

  /** The same calls with the last one answered. */
  function LastAnswered(calls: seq<Call>): seq<Call>
    requires calls != []
  {
    calls[..|calls| - 1] + [calls[|calls| - 1].(reply := Answer(false, None))]
  }

  lemma {:induction false} SentIsDelivered(s: State, calls: seq<Call>)
    requires calls != [] && AnsweredButLast(calls)
    ensures SentCount(s, calls) == DeliveredCount(s, LastAnswered(calls))
    decreases |calls|
  {
    var c, rest := calls[0], calls[1..];
    if rest == [] {
      assert LastAnswered(calls)[1..] == [];
    } else {
      assert LastAnswered(calls) == [c] + LastAnswered(rest);
      assert c.reply.Answer? && AnsweredButLast(rest);
      SentIsDelivered(After(s, c.update, c.now, c.reply), rest);
    }
  }

  /**
   The throttle bound for the reports that are sent, in any run the source can make from percent `p`
   at `start` to percent `q` at `end`.
   */
  lemma SendsAreBounded(s: State, calls: seq<Call>, p: int, q: int, start: int, end: int)
    requires s.lastSentAt.None? && calls != [] && AnsweredButLast(calls) && Advancing(p, start, calls)
    requires Percent(calls[0]) == p && calls[0].now == start
    requires Percent(calls[|calls| - 1]) == q && calls[|calls| - 1].now == end
    ensures SentCount(s, calls) <= 1 + (q - p) / STEP + (end - start) / PERIOD
  {
    SentIsDelivered(s, calls);
    AnsweredIsBounded(s, calls, p, q, start, end);
  }

  lemma AnsweredIsBounded(s: State, calls: seq<Call>, p: int, q: int, start: int, end: int)
    requires s.lastSentAt.None? && calls != [] && Advancing(p, start, calls)
    requires Percent(calls[0]) == p && calls[0].now == start
    requires Percent(calls[|calls| - 1]) == q && calls[|calls| - 1].now == end
    ensures DeliveredCount(s, LastAnswered(calls)) <= 1 + (q - p) / STEP + (end - start) / PERIOD
  {
    AnsweredAdvances(p, start, calls);
    DeliveredWithin(s, LastAnswered(calls), p, q, start, end);
  }

  /** The throttle bound, with its end points named. */
  lemma DeliveredWithin(s: State, calls: seq<Call>, p: int, q: int, start: int, end: int)
    requires s.lastSentAt.None? && calls != [] && Advancing(p, start, calls)
    requires Percent(calls[0]) == p && calls[0].now == start
    requires Percent(calls[|calls| - 1]) == q && calls[|calls| - 1].now == end
    ensures DeliveredCount(s, calls) <= 1 + (q - p) / STEP + (end - start) / PERIOD
  {
    ThrottleBound(s, calls);
  }

  lemma AnsweredAdvances(percent: int, now: int, calls: seq<Call>)
    requires Advancing(percent, now, calls) && calls != []
    ensures Advancing(percent, now, LastAnswered(calls)) && |LastAnswered(calls)| == |calls|
    ensures forall i :: 0 <= i < |calls| ==>
      LastAnswered(calls)[i].update == calls[i].update && LastAnswered(calls)[i].now == calls[i].now
  {
    var answered := LastAnswered(calls);
    assert forall i :: 0 <= i < |calls| ==> answered[i].update == calls[i].update && answered[i].now == calls[i].now;
  }

  /** After any call that does not raise, the last delivery is fresh in percent and in time. */
  lemma LastDeliveryIsFresh(s: State, c: Call)
    requires Encoding(c) && !OutcomeOf(s, c.update, c.now, c.reply).Raised?
    ensures var s' := After(s, c.update, c.now, c.reply);
      && s'.lastSentAt.Some? && c.now - s'.lastSentAt.value < PERIOD
      && s'.lastPercent.Some? && Percent(c) < s'.lastPercent.value + STEP
  {
  }

  /**
   Over any run of calls, every update of another stage or without a percent is sent, and so is the first
   one after it if it was delivered without a percent.
   */
  lemma PlainUpdatesAreSent(s: State, calls: seq<Call>, c: Call, next: Call)
    requires !Encoding(c)
    ensures var st := AfterCalls(s, calls);
      && OutcomeOf(st, c.update, c.now, c.reply) == (if c.reply.Lost? then Raised else Delivered)
      && (c.update.percent.None? && c.reply.Answer? ==>
            !OutcomeOf(After(st, c.update, c.now, c.reply), next.update, next.now, next.reply).Throttled?)
  {
  }

  /** Over any run of calls, a cancellation that was learned is never forgotten. */
  lemma {:induction false} CancellationIsKept(s: State, calls: seq<Call>)
    requires s.requested
    ensures AfterCalls(s, calls).requested
    decreases |calls|
  {
    if calls != [] {
      CancellationIsKept(After(s, calls[0].update, calls[0].now, calls[0].reply), calls[1..]);
    }
  }

  // ------------------------------------------- The bound in reported percents

  function Value(c: Call): real
    requires Encoding(c)
  {
    c.update.percent.value
  }

  /** Encoding updates from percent `p` or more to `q`, ending at `q` and `end`, that never go back. */
  ghost predicate Climbs(p: real, start: int, q: real, end: int, calls: seq<Call>) {
    && calls != []
    && (forall i :: 0 <= i < |calls| ==>
          Encoding(calls[i]) && p <= Value(calls[i]) <= q && start <= calls[i].now <= end)
    && (forall i, j :: 0 <= i < j < |calls| ==> Value(calls[i]) <= Value(calls[j]) && calls[i].now <= calls[j].now)
    && Value(calls[|calls| - 1]) == q && calls[|calls| - 1].now == end
  }

  /** A run of updates between two percents and two instants, both included. */
  ghost predicate RunBetween(p: real, start: int, q: real, end: int, calls: seq<Call>) {
    Climbs(p, start, q, end, calls) && Value(calls[0]) == p && calls[0].now == start
  }

  lemma TruncateGrows(a: real, b: real)
    requires a <= b
    ensures Truncate(a) <= Truncate(b)
  {
  }

  /** A percent of at most `q` that truncates to `w`. */
  function PercentFor(w: int, q: real): real { if w == Truncate(q) then q else w as real }

  lemma PercentForFits(p: real, q: real)
    requires p <= q && Truncate(p) + STEP <= Truncate(q)
    ensures var v := PercentFor(Truncate(p) + STEP, q); p <= v <= q && Truncate(v) == Truncate(p) + STEP
  {
  }

  function Emit(percent: real, now: int): Call { Call(Update("encoding", Some(percent)), now, Answer(false, None)) }

  lemma ClimbsOn(p: real, start: int, v: real, at: int, q: real, end: int, rest: seq<Call>)
    requires Climbs(v, at, q, end, rest) && p <= v && start <= at
    ensures Climbs(p, start, q, end, [Emit(v, at)] + rest)
  {
    var calls := [Emit(v, at)] + rest;
    assert forall i :: 1 <= i < |calls| ==> calls[i] == rest[i - 1];
  }

  /** The next update that is sent: by percent at once, or by time; and what is then left of the bound. */
  lemma NextSent(p: real, start: int, q: real, end: int) returns (v: real, at: int)
    requires p <= q && start <= end && (Truncate(p) + STEP <= Truncate(q) || start + PERIOD <= end)
    ensures p <= v <= q && start <= at <= end
    ensures Truncate(p) + STEP <= Truncate(v) || start + PERIOD <= at
    ensures Truncate(p) <= Truncate(v) <= Truncate(q)
    ensures (Truncate(q) - Truncate(p)) / STEP + (end - start) / PERIOD
         == 1 + (Truncate(q) - Truncate(v)) / STEP + (end - at) / PERIOD
  {
    TruncateGrows(p, q);
    if Truncate(p) + STEP <= Truncate(q) {
      v, at := PercentFor(Truncate(p) + STEP, q), start;
      PercentForFits(p, q);
    } else {
      v, at := q, start + PERIOD;
    }
  }

  /** A reporter that last sent `p` at `start` can be made to send all that the bound allows. */
  lemma {:induction false} FullThrottle(s: State, p: real, start: int, q: real, end: int) returns (calls: seq<Call>)
    requires s.lastSentAt == Some(start) && s.lastPercent == Some(Truncate(p)) && p <= q && start <= end
    ensures Climbs(p, start, q, end, calls)
    ensures DeliveredCount(s, calls) == (Truncate(q) - Truncate(p)) / STEP + (end - start) / PERIOD
    decreases Truncate(q) - Truncate(p) + (end - start)
  {
    TruncateGrows(p, q);
    if Truncate(p) + STEP <= Truncate(q) || start + PERIOD <= end {
      var v, at := NextSent(p, start, q, end);
      var c := Emit(v, at);
      var rest := FullThrottle(After(s, c.update, c.now, c.reply), v, at, q, end);
      ClimbsOn(p, start, v, at, q, end, rest);
      SentFirst(s, c, rest);
      calls := [c] + rest;
    } else {
      calls := [Emit(q, end)];
      assert calls[1..] == [];
    }
  }

  lemma SentFirst(s: State, c: Call, rest: seq<Call>)
    requires OutcomeOf(s, c.update, c.now, c.reply).Delivered?
    ensures DeliveredCount(s, [c] + rest) == 1 + DeliveredCount(After(s, c.update, c.now, c.reply), rest)
  {
    assert ([c] + rest)[1..] == rest;
  }

  /** The throttle bound is tight between any two percents and any two instants. */
  lemma ThrottleBoundIsTight(p: real, start: int, q: real, end: int) returns (calls: seq<Call>)
    requires p <= q && start <= end
    ensures RunBetween(p, start, q, end, calls)
    ensures DeliveredCount(FRESH, calls) == 1 + (Truncate(q) - Truncate(p)) / STEP + (end - start) / PERIOD
  {
    var c := Emit(p, start);
    var rest := FullThrottle(After(FRESH, c.update, c.now, c.reply), p, start, q, end);
    ClimbsOn(p, start, p, start, q, end, rest);
    SentFirst(FRESH, c, rest);
    calls := [c] + rest;
  }

  /** The bound read in the percents that were reported instead of the whole ones. */
  ghost predicate MeetsReportedBound(p: real, start: int, q: real, end: int, calls: seq<Call>) {
    RunBetween(p, start, q, end, calls) ==>
      DeliveredCount(FRESH, calls) <= 1 + ((q - p) / 2.0).Floor + (end - start) / PERIOD
  }

  lemma RunMeetsWholeBound(p: real, start: int, q: real, end: int, calls: seq<Call>)
    requires RunBetween(p, start, q, end, calls)
    ensures DeliveredCount(FRESH, calls) <= 1 + (Truncate(q) - Truncate(p)) / STEP + (end - start) / PERIOD
  {
    forall i, j | 0 <= i <= j < |calls| ensures Percent(calls[i]) <= Percent(calls[j]) {
      TruncateGrows(Value(calls[i]), Value(calls[j]));
    }
    assert Advancing(Percent(calls[0]), calls[0].now, calls);
    ThrottleBound(FRESH, calls);
  }

  /**
   In reported percents the bound holds between `p` and `q` exactly when truncating both gains no
   extra step: for all runs and instants if so, and otherwise some run breaks it.
   */
  lemma ReportedBoundHoldsExactly(p: real, q: real)
    requires p <= q
    ensures (forall start: int, end: int, calls: seq<Call> :: MeetsReportedBound(p, start, q, end, calls))
       <==> (Truncate(q) - Truncate(p)) / STEP <= ((q - p) / 2.0).Floor
  {
    if (Truncate(q) - Truncate(p)) / STEP <= ((q - p) / 2.0).Floor {
      forall start: int, end: int, calls: seq<Call> ensures MeetsReportedBound(p, start, q, end, calls) {
        if RunBetween(p, start, q, end, calls) {
          RunMeetsWholeBound(p, start, q, end, calls);
        }
      }
    } else {
      var calls := ThrottleBoundIsTight(p, 0, q, 0);
      assert !MeetsReportedBound(p, 0, q, 0, calls);
    }
  }

  /** From 0.9 to 2.0 less than two percent are gained in no time, and still two reports go out. */
  lemma FractionalGainIsNotEnough() returns (calls: seq<Call>)
    ensures RunBetween(0.9, 0, 2.0, 0, calls) && !MeetsReportedBound(0.9, 0, 2.0, 0, calls)
    ensures DeliveredCount(FRESH, calls) == 2
  {
    assert Truncate(0.9) == 0 && Truncate(2.0) == 2;
    calls := ThrottleBoundIsTight(0.9, 0, 2.0, 0);
  }
}

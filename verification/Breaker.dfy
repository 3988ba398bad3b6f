/**
 The circuit breaker (rszero/src/breaker/mod.rs): three states, a sliding window of outcomes and
 a probe counter.

 Times are integers from a monotone clock that each operation reads once. The failure threshold
 is a real number. Calls in flight overlap freely: a call is an admission and, at any later time
 and in any order, an outcome; outcomes may also be recorded without an admission.
 */
module Breaker {
  import opened Wrappers

  datatype Phase = Closed | Open | HalfOpen

  datatype Entry = Entry(at: int, success: bool)

  datatype Config = Config(threshold: real, minRequests: nat, cooldown: nat, maxProbes: nat, window: nat)

  datatype State = State(
    phase: Phase, openedAt: Option<int>, window: seq<Entry>, probes: nat, successes: nat, failures: nat)

  const INITIAL: State := State(Closed, None, [], 0, 0, 0)

  // ------------------------------------------------------------- specification

  /** The entries not older than `cutoff`, in order. */
  function Recent(entries: seq<Entry>, cutoff: int): seq<Entry> {
    if entries == [] then []
    else
      var last := entries[|entries| - 1];
      Recent(entries[..|entries| - 1], cutoff) + if last.at >= cutoff then [last] else []
  }

  function FailureCount(entries: seq<Entry>): (n: nat)
    ensures n <= |entries|
  {
    if entries == [] then 0
    else FailureCount(entries[..|entries| - 1]) + if entries[|entries| - 1].success then 0 else 1
  }

  /** Where the failures stand. */
  function Failures(entries: seq<Entry>): set<int> {
    set i | 0 <= i < |entries| && !entries[i].success
  }

  /** It counts the failures. */
  lemma {:induction false} FailureCountIs(entries: seq<Entry>)
    ensures FailureCount(entries) == |Failures(entries)|
  {
    if entries != [] {
      var n := |entries| - 1;
      var before := Failures(entries[..n]);
      FailureCountIs(entries[..n]);
      assert Failures(entries) == if entries[n].success then before else before + {n};
    }
  }

  /** Enough outcomes, and a failure rate at or above the threshold; no rate at all without outcomes. */
  predicate TooManyFailures(c: Config, entries: seq<Entry>) {
    |entries| >= c.minRequests && |entries| > 0 && RateAtLeast(FailureCount(entries), |entries|, c.threshold)
  }

  /** `failures / total >= threshold`. */
  predicate RateAtLeast(failures: nat, total: nat, threshold: real) {
    failures as real >= threshold * (total as real)
  }

  lemma RateIsQuotient(failures: nat, total: nat, threshold: real)
    requires total > 0
    ensures RateAtLeast(failures, total, threshold) <==> failures as real / total as real >= threshold
  {
    var rate := failures as real / total as real;
    assert rate * (total as real) == failures as real;
    if rate >= threshold {
      assert rate * (total as real) >= threshold * (total as real);
    } else {
      assert rate * (total as real) < threshold * (total as real);
    }
  }

  predicate Cooled(c: Config, s: State, now: int) {
    s.phase.Open? && s.openedAt.Some? && now - s.openedAt.value >= c.cooldown
  }

  function Evaluated(c: Config, s: State, now: int): State {
    if Cooled(c, s, now) then s.(phase := HalfOpen, probes := 0) else s
  }

  function Appended(c: Config, s: State, success: bool, now: int): State {
    s.(window := Recent(s.window, now - c.window) + [Entry(now, success)])
  }

  function Succeeded(c: Config, s0: State, now: int): State {
    var s := Appended(c, Evaluated(c, s0, now), true, now);
    var t := s.(successes := s.successes + 1);
    if !t.phase.HalfOpen? then t
    else if t.probes + 1 >= c.maxProbes then t.(phase := Closed, probes := 0)
    else t.(probes := t.probes + 1)
  }

  function FailedAt(c: Config, s0: State, now: int): State {
    var s := Appended(c, Evaluated(c, s0, now), false, now);
    Tripped(c, s.(failures := s.failures + 1), now)
  }

  /** What a failure does once it has been counted. */
  function Tripped(c: Config, t: State, now: int): State {
    match t.phase
    case Closed => if TooManyFailures(c, t.window) then t.(phase := Open, openedAt := Some(now)) else t
    case HalfOpen => t.(phase := Open, openedAt := Some(now), probes := 0)
    case Open => t
  }

  function WasReset(s: State): State {
    s.(phase := Closed, openedAt := None, window := [], probes := 0)
  }

  /** May a call start at `now`? */
  predicate Grants(c: Config, s: State, now: int) {
    var t := Evaluated(c, s, now);
    t.phase.Closed? || (t.phase.HalfOpen? && t.probes < c.maxProbes)
  }

  /** In the half-open state even a refused call is counted as a probe. */
  function Admitted(c: Config, s: State, now: int): State {
    var t := Evaluated(c, s, now);
    if t.phase.HalfOpen? then t.(probes := t.probes + 1) else t
  }

  // --------------------------------------------------------------------- class

  class CircuitBreaker {
    const config: Config
    var phase: Phase
    var openedAt: Option<int>
    var window: seq<Entry>
    var probes: nat
    var successes: nat
    var failures: nat

    function Value(): State
      reads this
    {
      State(phase, openedAt, window, probes, successes, failures)
    }

    constructor (config: Config)
      ensures this.config == config && Value() == INITIAL
    {
      this.config := config;
      phase, openedAt, window, probes, successes, failures := Closed, None, [], 0, 0, 0;
    }

    /** `evaluate_state`, and so also `is_open` and `is_closed`. */
    method EvaluateState(now: int) returns (r: Phase)
      modifies this
      ensures Value() == Evaluated(config, old(Value()), now) && r == phase
    {
      if phase != Open {
        return phase;
      }
      if openedAt.Some? && now - openedAt.value >= config.cooldown {
        phase := HalfOpen;
        probes := 0;
        return HalfOpen;
      }
      return Open;
    }

    method AppendWindow(success: bool, now: int)
      modifies this`window
      ensures Value() == Appended(config, old(Value()), success, now)
    {
      window := Recent(window, now - config.window);
      window := window + [Entry(now, success)];
    }

    method ShouldOpen() returns (r: bool)
      ensures r == TooManyFailures(config, window)
    {
      if |window| < config.minRequests || |window| == 0 {
        return false;
      }
      var count := 0;
      for i := 0 to |window|
        invariant count == FailureCount(window[..i])
      {
        assert window[..i + 1][..i] == window[..i];
        if !window[i].success {
          count := count + 1;
        }
      }
      assert window[..|window|] == window;
      RateIsQuotient(count, |window|, config.threshold);
      return count as real / |window| as real >= config.threshold;
    }

    method RecordSuccess(now: int)
      modifies this
      ensures Value() == Succeeded(config, old(Value()), now)
    {
      var _ := EvaluateState(now);
      AppendWindow(true, now);
      successes := successes + 1;
      if phase == HalfOpen {
        probes := probes + 1;
        if probes >= config.maxProbes {
          phase := Closed;
          probes := 0;
        }
      }
    }

    method RecordFailure(now: int)
      modifies this
      ensures Value() == FailedAt(config, old(Value()), now)
    {
      var _ := EvaluateState(now);
      AppendWindow(false, now);
      failures := failures + 1;
      Trip(now);
    }

    /** The end of `record_failure`: whether a counted failure opens the breaker. */
    method Trip(now: int)
      modifies this
      ensures Value() == Tripped(config, old(Value()), now)
    {
      match phase
      case Closed =>
        var open := ShouldOpen();
        if open {
          phase := Open;
          openedAt := Some(now);
        }
      case HalfOpen =>
        phase := Open;
        openedAt := Some(now);
        probes := 0;
      case Open =>
    }

    method Reset()
      modifies this
      ensures Value() == WasReset(old(Value()))
    {
      phase, openedAt, window, probes := Closed, None, [], 0;
    }

    /** `execute` up to the call of the future: is the call let through? */
    method Admit(now: int) returns (granted: bool)
      modifies this
      ensures Value() == Admitted(config, old(Value()), now) && granted == Grants(config, old(Value()), now)
    {
      var first := EvaluateState(now);
      if first == Open {
        return false;
      }
      var second := EvaluateState(now);
      if second == HalfOpen {
        var probe := probes;
        probes := probes + 1;
        if probe >= config.maxProbes {
          return false;
        }
      }
      return true;
    }

    /** `execute` as one call: admission at `start`, the outcome of the future recorded at `end`. */
    method Execute(start: int, end: int, succeeds: bool) returns (called: bool)
      modifies this
      ensures called == Grants(config, old(Value()), start)
      ensures var s := Admitted(config, old(Value()), start);
              Value() == if !called then s else if succeeds then Succeeded(config, s, end) else FailedAt(config, s, end)
    {
      called := Admit(start);
      if called {
        if succeeds {
          RecordSuccess(end);
        } else {
          RecordFailure(end);
        }
      }
    }
  }

  // ---------------------------------------------------------------------- runs

  datatype Event =
    | Look(now: int)
    | Admit(now: int)
    | Success(now: int)
    | Failure(now: int)
    | Reset(now: int)

  function Step(c: Config, s: State, e: Event): State {
    match e
    case Look(now) => Evaluated(c, s, now)
    case Admit(now) => Admitted(c, s, now)
    case Success(now) => Succeeded(c, s, now)
    case Failure(now) => FailedAt(c, s, now)
    case Reset(_) => WasReset(s)
  }

  /** The state after the first `n` events. */
  function At(c: Config, events: seq<Event>, n: nat): State
    requires n <= |events|
  {
    if n == 0 then INITIAL else Step(c, At(c, events, n - 1), events[n - 1])
  }

  /** The clock never runs backwards. */
  predicate Ordered(events: seq<Event>) {
    forall i, j :: 0 <= i < j < |events| ==> events[i].now <= events[j].now
  }

  /** Event `i` moves the breaker into the open state. */
  predicate OpensAt(c: Config, events: seq<Event>, i: nat)
    requires i < |events|
  {
    !Evaluated(c, At(c, events, i), events[i].now).phase.Open? && At(c, events, i + 1).phase.Open?
  }

  /** Event `i` is a call that is let through. */
  predicate GrantedAt(c: Config, events: seq<Event>, i: nat)
    requires i < |events|
  {
    events[i].Admit? && Grants(c, At(c, events, i), events[i].now)
  }

  predicate NoReset(events: seq<Event>, i: nat, n: nat)
    requires n <= |events|
  {
    forall k :: i < k < n ==> !events[k].Reset?
  }

  // ------------------------------------------------------------------ cooldown

  /** Only a failure opens the breaker, and it starts the cooldown. */
  lemma OpeningStartsCooldown(c: Config, events: seq<Event>, i: nat)
    requires i < |events| && OpensAt(c, events, i)
    ensures events[i].Failure? && At(c, events, i + 1).openedAt == Some(events[i].now)
  {
  }

  lemma {:induction false} Cooling(c: Config, events: seq<Event>, i: nat, n: nat)
    requires Ordered(events) && i < n <= |events| && OpensAt(c, events, i) && NoReset(events, i, n)
    ensures var s := At(c, events, n);
            events[n - 1].now >= events[i].now + c.cooldown
            || (s.phase.Open? && s.openedAt.Some? && s.openedAt.value >= events[i].now)
    decreases n
  {
    OpeningStartsCooldown(c, events, i);
    if n > i + 1 {
      Cooling(c, events, i, n - 1);
      assert events[n - 2].now <= events[n - 1].now;
    }
  }

  /**
   After any opening, no call is let through before the cooldown has passed, unless the breaker
   is reset in between. In particular this holds for the latest opening.
   */
  lemma NoAdmissionDuringCooldown(c: Config, events: seq<Event>, i: nat, j: nat)
    requires Ordered(events) && i < j < |events|
    requires OpensAt(c, events, i) && NoReset(events, i, j) && GrantedAt(c, events, j)
    ensures events[j].now >= events[i].now + c.cooldown
  {
    Cooling(c, events, i, j);
    assert events[j - 1].now <= events[j].now;
  }

  /** After the cooldown, to the moment, the first call is let through and the breaker is half-open. */
  lemma CooledAdmits(c: Config, events: seq<Event>, i: nat, n: nat)
    requires Ordered(events) && i < n < |events| && OpensAt(c, events, i) && c.maxProbes >= 1
    requires forall k :: i < k < n ==> events[k].now < events[i].now + c.cooldown && !events[k].Reset?
    requires events[n].Admit? && events[n].now >= events[i].now + c.cooldown
    ensures GrantedAt(c, events, n) && At(c, events, n + 1).phase.HalfOpen?
  {
    StaysOpen(c, events, i, n);
  }

  lemma {:induction false} StaysOpen(c: Config, events: seq<Event>, i: nat, n: nat)
    requires i < n <= |events| && OpensAt(c, events, i)
    requires forall k :: i < k < n ==> events[k].now < events[i].now + c.cooldown && !events[k].Reset?
    ensures At(c, events, n).phase.Open? && At(c, events, n).openedAt == Some(events[i].now)
    decreases n
  {
    OpeningStartsCooldown(c, events, i);
    if n > i + 1 {
      StaysOpen(c, events, i, n - 1);
    }
  }

  // -------------------------------------------------------- half-open episodes

  /** The breaker is half-open after every event from `i` to `j`, `j` excluded. */
  predicate HalfOpenOver(c: Config, events: seq<Event>, i: nat, j: nat)
    requires i <= j <= |events|
  {
    j == i || (HalfOpenOver(c, events, i, j - 1) && At(c, events, j).phase.HalfOpen?)
  }

  function GrantedCount(c: Config, events: seq<Event>, i: nat, j: nat): nat
    requires i <= j <= |events|
  {
    if j == i then 0 else GrantedCount(c, events, i, j - 1) + if GrantedAt(c, events, j - 1) then 1 else 0
  }

  lemma {:induction false} GrantedWithinProbes(c: Config, events: seq<Event>, i: nat, j: nat)
    requires i < j <= |events| && HalfOpenOver(c, events, i, j)
    ensures GrantedCount(c, events, i, j) <= At(c, events, j).probes
    ensures GrantedCount(c, events, i, j) <= c.maxProbes
    decreases j
  {
    if j > i + 1 {
      GrantedWithinProbes(c, events, i, j - 1);
    } else {
      assert GrantedCount(c, events, i, i) == 0;
    }
  }

  /** However calls overlap, a stretch of the half-open state lets at most `max_probes` calls through. */
  lemma EpisodeAdmitsFew(c: Config, events: seq<Event>, i: nat, j: nat)
    requires i <= j <= |events| && HalfOpenOver(c, events, i, j)
    ensures GrantedCount(c, events, i, j) <= c.maxProbes
  {
    if i < j {
      GrantedWithinProbes(c, events, i, j);
    }
  }

  /** Calls that ask to start, let through or not, and successes. */
  function ProbeEvents(events: seq<Event>, i: nat, j: nat): nat
    requires i <= j <= |events|
  {
    if j == i then 0
    else ProbeEvents(events, i, j - 1) + if events[j - 1].Admit? || events[j - 1].Success? then 1 else 0
  }

  /** Since the half-open state was entered, every such event has been counted. */
  lemma {:induction false} ProbesCounted(c: Config, events: seq<Event>, i: nat, j: nat)
    requires i < j <= |events| && HalfOpenOver(c, events, i, j) && !At(c, events, i).phase.HalfOpen?
    ensures At(c, events, j).probes == ProbeEvents(events, i, j)
    decreases j
  {
    if j > i + 1 {
      ProbesCounted(c, events, i, j - 1);
    } else {
      assert ProbeEvents(events, i, i) == 0;
    }
  }

  /** A call of the episode is let through exactly while fewer than `max_probes` have been counted. */
  lemma GrantedIff(c: Config, events: seq<Event>, i: nat, j: nat)
    requires i < j < |events| && HalfOpenOver(c, events, i, j) && !At(c, events, i).phase.HalfOpen?
    ensures GrantedAt(c, events, j) <==> events[j].Admit? && ProbeEvents(events, i, j) < c.maxProbes
  {
    ProbesCounted(c, events, i, j);
  }

  /**
   What ends an episode that began with event `i`: a failure reopens; a success closes exactly
   if admissions and successes of the episode, itself included, number at least `max_probes`.
   */
  lemma EpisodeEnds(c: Config, events: seq<Event>, i: nat, j: nat)
    requires i < j < |events| && HalfOpenOver(c, events, i, j) && !At(c, events, i).phase.HalfOpen?
    ensures At(c, events, j + 1).phase.Open? <==> events[j].Failure?
    ensures At(c, events, j + 1).phase.Closed? <==>
            events[j].Reset? || (events[j].Success? && ProbeEvents(events, i, j + 1) >= c.maxProbes)
  {
    ProbesCounted(c, events, i, j);
  }

  /** Calls of `execute` one after the other, all successful, given by their start and end times. */
  function Probing(c: Config, s: State, calls: seq<(int, int)>): State {
    if calls == [] then s
    else
      var t := Probing(c, s, calls[..|calls| - 1]);
      var (start, end) := calls[|calls| - 1];
      if Grants(c, t, start) then Succeeded(c, Admitted(c, t, start), end) else Admitted(c, t, start)
  }

  lemma {:induction false} ProbingCounts(c: Config, s: State, calls: seq<(int, int)>)
    requires s.phase.HalfOpen? && s.probes == 0 && 2 * |calls| < c.maxProbes
    ensures Probing(c, s, calls).phase.HalfOpen? && Probing(c, s, calls).probes == 2 * |calls|
  {
    if calls != [] {
      ProbingCounts(c, s, calls[..|calls| - 1]);
    }
  }

  /** The first call finds a breaker that has cooled down as half-open already. */
  lemma {:induction false} ProbingFromOpen(c: Config, s: State, calls: seq<(int, int)>)
    requires calls != []
    ensures Probing(c, s, calls) == Probing(c, Evaluated(c, s, calls[0].0), calls)
    decreases |calls|
  {
    if |calls| > 1 {
      ProbingFromOpen(c, s, calls[..|calls| - 1]);
    } else {
      assert calls[..0] == [];
    }
  }

  /** Half-open with no probe counted, or open and cooled down when the first call starts. */
  predicate StartsProbing(c: Config, s: State, calls: seq<(int, int)>) {
    (s.phase.HalfOpen? && s.probes == 0) || (calls != [] && Cooled(c, s, calls[0].0))
  }

  lemma HalfOpenCloses(c: Config, s: State, calls: seq<(int, int)>)
    requires s.phase.HalfOpen? && s.probes == 0 && c.maxProbes >= 1 && |calls| <= (c.maxProbes + 1) / 2
    ensures Probing(c, s, calls).phase.Closed? <==> |calls| == (c.maxProbes + 1) / 2
    ensures !Probing(c, s, calls).phase.Closed? ==> Probing(c, s, calls).phase.HalfOpen?
  {
    if 2 * |calls| < c.maxProbes {
      ProbingCounts(c, s, calls);
    } else {
      ProbingCounts(c, s, calls[..|calls| - 1]);
    }
  }

  /**
   One call after the other, each counted once when it starts and once when it succeeds:
   the breaker closes with the first half of `max_probes` successes, rounded up, and not before.
   */
  lemma ClosesAfterHalf(c: Config, s: State, calls: seq<(int, int)>)
    requires StartsProbing(c, s, calls) && c.maxProbes >= 1 && |calls| <= (c.maxProbes + 1) / 2
    ensures Probing(c, s, calls).phase.Closed? <==> |calls| == (c.maxProbes + 1) / 2
    ensures !Probing(c, s, calls).phase.Closed? ==> Probing(c, s, calls).phase.HalfOpen?
  {
    if calls != [] {
      ProbingFromOpen(c, s, calls);
      HalfOpenCloses(c, Evaluated(c, s, calls[0].0), calls);
    }
  }

  /** Without an outcome or a reset, a half-open breaker whose probes are used up refuses for ever. */
  lemma {:induction false} ExhaustedRefuses(c: Config, events: seq<Event>, i: nat, j: nat)
    requires i <= j < |events| && At(c, events, i).phase.HalfOpen? && At(c, events, i).probes >= c.maxProbes
    requires forall k :: i <= k < j ==> events[k].Look? || events[k].Admit?
    ensures At(c, events, j).phase.HalfOpen? && At(c, events, j).probes >= c.maxProbes && !GrantedAt(c, events, j)
    decreases j
  {
    if i < j {
      ExhaustedRefuses(c, events, i, j - 1);
    }
  }

  /** Nothing but questions and calls that ask to start: no outcome and no reset. */
  predicate OnlyAsked(events: seq<Event>, i: nat, n: nat)
    requires n <= |events|
  {
    forall k :: i < k < n ==> events[k].Look? || events[k].Admit?
  }

  /** Probes are used up by a call that was let through, and whose outcome has not been recorded. */
  lemma {:induction false} ExhaustedHasCall(c: Config, events: seq<Event>, n: nat) returns (i: nat)
    requires n <= |events| && c.maxProbes >= 1
    requires At(c, events, n).phase.HalfOpen? && At(c, events, n).probes >= c.maxProbes
    ensures i < n && GrantedAt(c, events, i) && OnlyAsked(events, i, n)
    decreases n
  {
    if GrantedAt(c, events, n - 1) {
      i := n - 1;
    } else {
      i := ExhaustedHasCall(c, events, n - 1);
    }
  }

  /** A reset, or the success of a call, recorded after the cooldown. */
  predicate Recovers(c: Config, events: seq<Event>, k: nat)
    requires k < |events|
  {
    events[k].Reset? || (events[k].Success? && Evaluated(c, At(c, events, k), events[k].now).phase.HalfOpen?)
  }

  /**
   With `max_probes` 0 an open breaker lets no call through again, cooldown or not, until it is
   reset or a call that was let through before it opened succeeds late. Either closes it.
   */
  lemma {:induction false} NoProbesNoCalls(c: Config, events: seq<Event>, i: nat, j: nat)
    requires i <= j < |events| && c.maxProbes == 0 && !At(c, events, i).phase.Closed?
    requires forall k :: i <= k < j ==> !Recovers(c, events, k)
    ensures !At(c, events, j).phase.Closed? && !GrantedAt(c, events, j)
    ensures Recovers(c, events, j) <==> At(c, events, j + 1).phase.Closed?
    decreases j
  {
    if i < j {
      NoProbesNoCalls(c, events, i, j - 1);
    }
  }

  // ------------------------------------------------------------ sliding window

  /** Every outcome among the first `n` events since the last reset. */
  function History(events: seq<Event>, n: nat): seq<Entry>
    requires n <= |events|
  {
    if n == 0 then [] else HistoryAfter(History(events, n - 1), events[n - 1])
  }

  function HistoryAfter(history: seq<Entry>, e: Event): seq<Entry> {
    match e
    case Success(now) => history + [Entry(now, true)]
    case Failure(now) => history + [Entry(now, false)]
    case Reset(_) => []
    case _ => history
  }

  lemma {:induction false} HistoryIsPast(events: seq<Event>, n: nat, now: int)
    requires n <= |events| && forall k :: 0 <= k < n ==> events[k].now <= now
    ensures forall e :: e in History(events, n) ==> e.at <= now
  {
    if n > 0 {
      HistoryIsPast(events, n - 1, now);
      assert events[n - 1].now <= now;
    }
  }

  /** Filtering twice is filtering with the later cutoff. */
  lemma {:induction false} RecentTwice(entries: seq<Entry>, early: int, late: int)
    requires early <= late
    ensures Recent(Recent(entries, early), late) == Recent(entries, late)
  {
    if entries != [] {
      var n := |entries| - 1;
      var kept := Recent(entries[..n], early);
      RecentTwice(entries[..n], early, late);
      assert (kept + [entries[n]])[..|kept|] == kept;
      assert kept + [] == kept;
    }
  }

  lemma RecentAppend(entries: seq<Entry>, e: Entry, cutoff: int)
    requires e.at >= cutoff
    ensures Recent(entries + [e], cutoff) == Recent(entries, cutoff) + [e]
  {
    assert (entries + [e])[..|entries|] == entries;
  }

  function Last(entries: seq<Entry>): int {
    if entries == [] then 0 else entries[|entries| - 1].at
  }

  lemma AppendToWindow(c: Config, history: seq<Entry>, e: Entry)
    requires Last(history) <= e.at || history == []
    ensures Recent(Recent(history, Last(history) - c.window), e.at - c.window) + [e]
            == Recent(history + [e], e.at - c.window)
  {
    if history != [] {
      RecentTwice(history, Last(history) - c.window, e.at - c.window);
    }
    RecentAppend(history, e, e.at - c.window);
  }

  lemma LastIsPast(events: seq<Event>, n: nat)
    requires Ordered(events) && n < |events|
    ensures History(events, n) == [] || Last(History(events, n)) <= events[n].now
  {
    HistoryIsPast(events, n, events[n].now);
    var h := History(events, n);
    if h != [] {
      assert h[|h| - 1] in h;
    }
  }

  function WindowAfter(c: Config, window: seq<Entry>, e: Event): seq<Entry> {
    match e
    case Success(now) => Recent(window, now - c.window) + [Entry(now, true)]
    case Failure(now) => Recent(window, now - c.window) + [Entry(now, false)]
    case Reset(_) => []
    case _ => window
  }

  lemma WindowStep(c: Config, s: State, e: Event)
    ensures Step(c, s, e).window == WindowAfter(c, s.window, e)
  {
  }

  /** What is left of a history when it is cut a window's length before its last outcome. */
  function Cut(c: Config, history: seq<Entry>): seq<Entry> {
    Recent(history, Last(history) - c.window)
  }

  lemma CutMore(c: Config, history: seq<Entry>, e: Entry)
    requires history == [] || Last(history) <= e.at
    ensures Recent(Cut(c, history), e.at - c.window) + [e] == Cut(c, history + [e])
  {
    AppendToWindow(c, history, e);
  }

  /** One event, on the history and on the window cut from it. */
  lemma CutStep(c: Config, history: seq<Entry>, e: Event)
    requires history == [] || Last(history) <= e.now
    ensures WindowAfter(c, Cut(c, history), e) == Cut(c, HistoryAfter(history, e))
  {
    if e.Success? {
      CutMore(c, history, Entry(e.now, true));
    } else if e.Failure? {
      CutMore(c, history, Entry(e.now, false));
    }
  }

  function WindowAt(c: Config, events: seq<Event>, n: nat): seq<Entry>
    requires n <= |events|
  {
    if n == 0 then [] else WindowAfter(c, WindowAt(c, events, n - 1), events[n - 1])
  }

  lemma {:induction false} WindowAlone(c: Config, events: seq<Event>, n: nat)
    requires n <= |events|
    ensures At(c, events, n).window == WindowAt(c, events, n)
  {
    if n > 0 {
      WindowAlone(c, events, n - 1);
      WindowStep(c, At(c, events, n - 1), events[n - 1]);
    }
  }

  lemma {:induction false} WindowAtIsCut(c: Config, events: seq<Event>, n: nat)
    requires Ordered(events) && n <= |events|
    ensures WindowAt(c, events, n) == Cut(c, History(events, n))
  {
    if n > 0 {
      WindowAtIsCut(c, events, n - 1);
      LastIsPast(events, n - 1);
      var history := History(events, n - 1);
      CutStep(c, history, events[n - 1]);
      calc {
        WindowAt(c, events, n);
        WindowAfter(c, Cut(c, history), events[n - 1]);
        Cut(c, HistoryAfter(history, events[n - 1]));
        Cut(c, History(events, n));
      }
    }
  }

  /** Pruning loses nothing: the window is the whole history since the reset, cut at its length. */
  lemma WindowIsRecent(c: Config, events: seq<Event>, n: nat)
    requires Ordered(events) && n <= |events|
    ensures At(c, events, n).window == Recent(History(events, n), Last(History(events, n)) - c.window)
  {
    WindowAlone(c, events, n);
    WindowAtIsCut(c, events, n);
  }

  /** Where the entries begin that come after the last one older than `cutoff`. */
  function RecentFrom(entries: seq<Entry>, cutoff: int): (k: nat)
    ensures k <= |entries|
  {
    if entries == [] then 0
    else if entries[|entries| - 1].at < cutoff then |entries|
    else RecentFrom(entries[..|entries| - 1], cutoff)
  }

  /** In the order of time. */
  predicate InOrder(entries: seq<Entry>) {
    |entries| < 2 || (InOrder(entries[..|entries| - 1]) && entries[|entries| - 2].at <= entries[|entries| - 1].at)
  }

  lemma {:induction false} NoneIsLater(entries: seq<Entry>, i: nat)
    requires InOrder(entries) && i < |entries|
    ensures entries[i].at <= entries[|entries| - 1].at
  {
    if i < |entries| - 1 {
      NoneIsLater(entries[..|entries| - 1], i);
    }
  }

  /** In the order of time, those are exactly the entries that are not older. */
  lemma {:induction false} RecentFromMeans(entries: seq<Entry>, cutoff: int, i: nat)
    requires InOrder(entries) && i < |entries|
    ensures entries[i].at >= cutoff <==> i >= RecentFrom(entries, cutoff)
  {
    NoneIsLater(entries, i);
    if entries[|entries| - 1].at >= cutoff && i < |entries| - 1 {
      RecentFromMeans(entries[..|entries| - 1], cutoff, i);
    }
  }

  lemma {:induction false} NoneRecent(entries: seq<Entry>, cutoff: int)
    requires InOrder(entries) && (entries == [] || Last(entries) < cutoff)
    ensures Recent(entries, cutoff) == []
  {
    if entries != [] {
      NoneRecent(entries[..|entries| - 1], cutoff);
    }
  }

  lemma EndMore(entries: seq<Entry>, k: nat)
    requires k < |entries|
    ensures entries[..|entries| - 1][k..] + [entries[|entries| - 1]] == entries[k..]
  {
  }

  /** So pruning keeps the end of the entries. */
  lemma {:induction false} RecentIsEnd(entries: seq<Entry>, cutoff: int, k: nat)
    requires InOrder(entries) && k == RecentFrom(entries, cutoff)
    ensures Recent(entries, cutoff) == entries[k..]
    decreases |entries|
  {
    if entries != [] {
      if Last(entries) < cutoff {
        NoneRecent(entries, cutoff);
      } else {
        RecentIsEnd(entries[..|entries| - 1], cutoff, k);
        EndMore(entries, k);
      }
    }
  }

  lemma InOrderMore(entries: seq<Entry>, e: Entry)
    requires InOrder(entries) && (entries == [] || Last(entries) <= e.at)
    ensures InOrder(entries + [e])
  {
    assert (entries + [e])[..|entries|] == entries;
  }

  lemma {:induction false} HistoryInOrder(events: seq<Event>, n: nat)
    requires Ordered(events) && n <= |events|
    ensures InOrder(History(events, n))
  {
    if n > 0 {
      HistoryInOrder(events, n - 1);
      LastIsPast(events, n - 1);
      InOrderMore(History(events, n - 1), Entry(events[n - 1].now, true));
      InOrderMore(History(events, n - 1), Entry(events[n - 1].now, false));
    }
  }

  /** Enough outcomes, and too large a share of failures among them. */
  predicate OverThreshold(c: Config, recent: seq<Entry>) {
    |recent| >= c.minRequests && |recent| > 0 && |Failures(recent)| as real / |recent| as real >= c.threshold
  }

  lemma TooManyIff(c: Config, recent: seq<Entry>)
    ensures TooManyFailures(c, recent) <==> OverThreshold(c, recent)
  {
    FailureCountIs(recent);
    if |recent| > 0 {
      RateIsQuotient(|Failures(recent)|, |recent|, c.threshold);
    }
  }

  lemma TripsIff(c: Config, s: State, e: Event)
    requires s.phase.Closed?
    ensures var t := Step(c, s, e);
            !t.phase.HalfOpen? && (t.phase.Open? <==> e.Failure? && TooManyFailures(c, t.window))
  {
  }

  lemma LastOutcome(events: seq<Event>, n: nat)
    requires n < |events| && (events[n].Success? || events[n].Failure?)
    ensures Last(History(events, n + 1)) == events[n].now
  {
  }

  /** The outcomes since the reset that are not older than the window, at time `now`: the end of the history. */
  function Current(c: Config, history: seq<Entry>, now: int): seq<Entry> {
    Recent(history, now - c.window)
  }

  lemma RecountIff(c: Config, events: seq<Event>, n: nat)
    requires Ordered(events) && n < |events| && events[n].Failure?
    ensures TooManyFailures(c, At(c, events, n + 1).window)
            <==> OverThreshold(c, Current(c, History(events, n + 1), events[n].now))
  {
    var window := WindowIs(c, events, n + 1);
    LastOutcome(events, n);
    TooManyIff(c, window);
  }

  lemma WindowIs(c: Config, events: seq<Event>, n: nat) returns (window: seq<Entry>)
    requires Ordered(events) && n <= |events|
    ensures window == At(c, events, n).window
    ensures window == Current(c, History(events, n), Last(History(events, n)))
  {
    WindowIsRecent(c, events, n);
    window := At(c, events, n).window;
  }

  /**
   A closed breaker opens exactly at a failure at which, of the outcomes since the reset that are
   not older than the window, there are enough, and the share of failures among them reaches the
   threshold.
   */
  lemma OpensIff(c: Config, events: seq<Event>, n: nat)
    requires Ordered(events) && n < |events| && At(c, events, n).phase.Closed?
    ensures At(c, events, n + 1).phase.Open? <==>
            events[n].Failure? && OverThreshold(c, Current(c, History(events, n + 1), events[n].now))
    ensures !At(c, events, n + 1).phase.HalfOpen?
  {
    TripsIff(c, At(c, events, n), events[n]);
    if events[n].Failure? {
      RecountIff(c, events, n);
    }
  }

  /** Failures alone are too many for every threshold up to 1. */
  lemma {:induction false} OnlyFailures(entries: seq<Entry>)
    requires forall e :: e in entries ==> !e.success
    ensures FailureCount(entries) == |entries|
  {
    if entries != [] {
      OnlyFailures(entries[..|entries| - 1]);
    }
  }

  lemma OnlyFailuresTrip(c: Config, entries: seq<Entry>)
    requires c.threshold <= 1.0 && |entries| > 0 && |entries| >= c.minRequests
    requires forall e :: e in entries ==> !e.success
    ensures OverThreshold(c, entries)
  {
    OnlyFailures(entries);
    FailureCountIs(entries);
    assert |Failures(entries)| as real / |entries| as real == 1.0;
  }

  /** Enough failures, and nothing else, within the window open the breaker, whatever the threshold up to 1. */
  lemma FailuresOpen(c: Config, events: seq<Event>, n: nat)
    requires Ordered(events) && n < |events| && events[n].Failure? && At(c, events, n).phase.Closed?
    requires c.threshold <= 1.0 && |Current(c, History(events, n + 1), events[n].now)| >= c.minRequests
    requires forall e :: e in Current(c, History(events, n + 1), events[n].now) ==> !e.success
    ensures At(c, events, n + 1).phase.Open?
  {
    var history := History(events, n + 1);
    LastOutcome(events, n);
    OpensIff(c, events, n);
    CurrentHasLast(c, history);
    OnlyFailuresTrip(c, Current(c, history, events[n].now));
  }

  lemma CurrentHasLast(c: Config, history: seq<Entry>)
    requires history != []
    ensures |Current(c, history, Last(history))| > 0
  {
    assert history == history[..|history| - 1] + [history[|history| - 1]];
    RecentAppend(history[..|history| - 1], history[|history| - 1], Last(history) - c.window);
  }

  /** Without a failure nothing opens, and every call is let through. */
  lemma {:induction false} SuccessesKeepClosed(c: Config, events: seq<Event>, n: nat)
    requires n <= |events| && forall k :: 0 <= k < n ==> !events[k].Failure?
    ensures At(c, events, n).phase.Closed?
    ensures n < |events| && events[n].Admit? ==> GrantedAt(c, events, n)
  {
    if n > 0 {
      SuccessesKeepClosed(c, events, n - 1);
    }
  }

  function Outcomes(events: seq<Event>, n: nat, success: bool): nat
    requires n <= |events|
  {
    if n == 0 then 0
    else Outcomes(events, n - 1, success)
         + if (success && events[n - 1].Success?) || (!success && events[n - 1].Failure?) then 1 else 0
  }

  /** The totals count every outcome since creation: resets and pruning do not touch them. */
  lemma {:induction false} TotalsCount(c: Config, events: seq<Event>, n: nat)
    requires n <= |events|
    ensures At(c, events, n).successes == Outcomes(events, n, true)
    ensures At(c, events, n).failures == Outcomes(events, n, false)
  {
    if n > 0 {
      TotalsCount(c, events, n - 1);
    }
  }
}

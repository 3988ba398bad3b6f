/**
 The cron search and the firing loop (rszero/src/scheduler/cron.rs).

 Times are nanoseconds, and minutes are numbered, from a Sunday midnight. The day of the month
 and the month are arbitrary functions of the day; minute, hour and weekday are computed.
 */
module Cron {
  import opened Wrappers
  import opened CronFields

  const MS: int := 1_000_000
  const SECOND: int := 1_000_000_000
  const MINUTE: int := 60_000_000_000

  /** Four years of 365 days, in minutes. */
  const HORIZON: nat := 2_102_400

  const WEEK: int := 10_080

  datatype Calendar = Calendar(day: int -> int, month: int -> int)

  /** Days of the month run from 1 to 31 and months from 1 to 12. */
  ghost predicate Possible(cal: Calendar) {
    (forall d :: 1 <= cal.day(d) <= 31) && (forall d :: 1 <= cal.month(d) <= 12)
  }

  predicate Matches(e: CronExpr, cal: Calendar, m: int) {
    m % 60 in e.minutes && m / 60 % 24 in e.hours && cal.day(m / 1440) in e.days && cal.month(m / 1440) in e.months
    && m / 1440 % 7 in e.weekdays
  }

  /** The minutes that match, as a set of minutes: what follows holds for every such set. */
  type Hits = int -> bool

  function HitsOf(e: CronExpr, cal: Calendar): Hits {
    m => Matches(e, cal, m)
  }

  // ---------------------------------------------------------------- the search

  /** No minute after `a`, up to `b`, matches. */
  ghost predicate NoneIn(hits: Hits, a: int, b: int) {
    forall m :: a < m <= b ==> !hits(m)
  }

  /** The least matching minute that starts after `from`, or None if there is none within the horizon. */
  ghost predicate IsNext(hits: Hits, from: int, r: Option<int>) {
    match r
    case Some(m) =>
      m * MINUTE > from && m - from / MINUTE <= HORIZON && hits(m)
      && forall k :: hits(k) && k * MINUTE > from ==> m <= k
    case None => forall k :: hits(k) && k * MINUTE > from ==> k - from / MINUTE > HORIZON
  }

  lemma StartsAfter(from: int, k: int)
    ensures k * MINUTE > from <==> k > from / MINUTE
  {
  }

  method NextAfter(e: CronExpr, cal: Calendar, from: int) returns (r: Option<int>)
    ensures IsNext(HitsOf(e, cal), from, r)
  {
    ghost var hits := HitsOf(e, cal);
    var candidate := (from + MINUTE) / MINUTE;
    var first := candidate;
    for i := 0 to HORIZON
      invariant candidate == first + i
      invariant NoneIn(hits, from / MINUTE, candidate - 1)
    {
      if Matches(e, cal, candidate) {
        FoundIsNext(hits, from, candidate);
        return Some(candidate);
      }
      candidate := candidate + 1;
    }
    NotFoundIsNone(hits, from);
    return None;
  }

  lemma FoundIsNext(hits: Hits, from: int, m: int)
    requires from / MINUTE < m <= from / MINUTE + HORIZON && hits(m) && NoneIn(hits, from / MINUTE, m - 1)
    ensures IsNext(hits, from, Some(m))
  {
    StartsAfter(from, m);
    forall k | hits(k) && k * MINUTE > from ensures m <= k {
      StartsAfter(from, k);
    }
  }

  lemma NotFoundIsNone(hits: Hits, from: int)
    requires NoneIn(hits, from / MINUTE, from / MINUTE + HORIZON)
    ensures IsNext(hits, from, None)
  {
    forall k | hits(k) && k * MINUTE > from ensures k - from / MINUTE > HORIZON {
      StartsAfter(from, k);
    }
  }

  /** There is one answer only. */
  lemma NextIsUnique(hits: Hits, from: int, a: Option<int>, b: Option<int>)
    requires IsNext(hits, from, a) && IsNext(hits, from, b)
    ensures a == b
  {
  }

  /** Every minute is one of an hour of a weekday of a week. */
  lemma MinuteHasParts(m: int) returns (q: int, d: int, h: int, a: int)
    ensures 0 <= d < 7 && 0 <= h < 24 && 0 <= a < 60 && m == WEEK * q + 1440 * d + 60 * h + a
  {
    var day := m / 1440;
    q, d, h, a := day / 7, day % 7, m / 60 % 24, m % 60;
  }

  /** That minute matches exactly if all five fields allow it, the weekday counted from Sunday. */
  lemma MatchesIff(e: CronExpr, cal: Calendar, q: int, d: int, h: int, a: int)
    requires 0 <= d < 7 && 0 <= h < 24 && 0 <= a < 60
    ensures var day := 7 * q + d;
            Matches(e, cal, WEEK * q + 1440 * d + 60 * h + a) <==>
            && a in e.minutes && h in e.hours && cal.day(day) in e.days && cal.month(day) in e.months
            && d in e.weekdays
  {
    WeekParts(q, d, h, a);
    assert (WEEK * q + 1440 * d + 60 * h + a) / 1440 == 7 * q + d;
  }

  /** The search looks four years of 365 days ahead, and misses nothing in them. */
  lemma SearchesFourYears(hits: Hits, from: int, m: int)
    requires IsNext(hits, from, None) && hits(m) && m > from / MINUTE
    ensures m > from / 60_000_000_000 + 4 * 365 * 24 * 60
  {
    StartsAfter(from, m);
  }

  lemma WeekParts(q: int, d: int, h: int, a: int)
    requires 0 <= d < 7 && 0 <= h < 24 && 0 <= a < 60
    ensures var m := WEEK * q + 1440 * d + 60 * h + a;
            m % 60 == a && m / 60 % 24 == h && m / 1440 % 7 == d
  {
    var m := WEEK * q + 1440 * d + 60 * h + a;
    assert m / 60 == 168 * q + 24 * d + h;
    assert m / 1440 == 7 * q + d;
  }

  /** With `*` for day and month, every week holds a match. */
  lemma WeekHasMatch(e: CronExpr, cal: Calendar, from: int) returns (m: int)
    requires Wellformed(e) && Possible(cal)
    requires forall d :: 1 <= d <= 31 ==> d in e.days
    requires forall n :: 1 <= n <= 12 ==> n in e.months
    ensures from < m <= from + WEEK && Matches(e, cal, m)
  {
    var a, h, d := e.minutes[0], e.hours[0], e.weekdays[0];
    assert a in e.minutes && h in e.hours && d in e.weekdays;
    var target := 1440 * d + 60 * h + a;
    var q := (from - target) / WEEK + 1;
    m := WEEK * q + target;
    WeekParts(q, d, h, a);
  }

  /** So the search succeeds, within seven days. */
  lemma AlwaysWithinAWeek(e: CronExpr, cal: Calendar, from: int, r: Option<int>)
    requires Wellformed(e) && Possible(cal) && IsNext(HitsOf(e, cal), from, r)
    requires forall d :: 1 <= d <= 31 ==> d in e.days
    requires forall n :: 1 <= n <= 12 ==> n in e.months
    ensures r.Some? && from < r.value * MINUTE && r.value - from / MINUTE <= WEEK
    ensures r.value * MINUTE <= from + WEEK * MINUTE && WEEK * MINUTE == 7 * 24 * 60 * 60_000_000_000
  {
    var m := WeekHasMatch(e, cal, from / MINUTE);
    StartsAfter(from, m);
    assert HitsOf(e, cal)(m);
  }

  // ------------------------------------------------------------------ the loop

  /** How much later than asked a sleep ends, how long the task takes, and the lateness of the sleep after it. */
  datatype Lag = Lag(wake: nat, task: nat, rest: nat)

  function Total(lag: Lag): nat {
    lag.wake + lag.task + lag.rest
  }

  /** The sleep before a minute is cut to whole milliseconds. */
  function WakeTime(now: int, m: int, lag: Lag): int {
    now + (m * MINUTE - now) / MS * MS + lag.wake
  }

  function TurnEnd(now: int, r: Option<int>, lag: Lag): int {
    match r
    case Some(m) => WakeTime(now, m, lag) + lag.task + SECOND + lag.rest
    case None => now + 60 * SECOND + lag.wake
  }

  /** The matching minutes after `a`, up to `b`, in order. */
  function MatchesIn(hits: Hits, a: int, b: int): seq<int>
    decreases b - a
  {
    if b <= a then [] else MatchesIn(hits, a, b - 1) + if hits(b) then [b] else []
  }

  /** Exactly the matching minutes, each once. */
  lemma {:induction false} MatchesInExact(hits: Hits, a: int, b: int)
    ensures Ascending(MatchesIn(hits, a, b))
    ensures forall m :: m in MatchesIn(hits, a, b) <==> a < m <= b && hits(m)
    decreases b - a
  {
    if a < b {
      MatchesInExact(hits, a, b - 1);
      Append(MatchesIn(hits, a, b - 1), b);
    }
  }

  lemma NoMatchesIff(hits: Hits, a: int, b: int)
    ensures MatchesIn(hits, a, b) == [] <==> NoneIn(hits, a, b)
  {
    MatchesInExact(hits, a, b);
    var ms := MatchesIn(hits, a, b);
    if ms != [] {
      assert ms[0] in ms;
    }
  }

  lemma {:induction false} MatchesSplit(hits: Hits, a: int, b: int, c: int)
    requires a <= b <= c
    ensures MatchesIn(hits, a, c) == MatchesIn(hits, a, b) + MatchesIn(hits, b, c)
    decreases c - b
  {
    if b < c {
      MatchesSplit(hits, a, b, c - 1);
    }
  }

  /** A task never starts a millisecond early or more, and the turn ends after the minute began. */
  lemma TurnIsLate(now: int, m: int, lag: Lag)
    ensures m * MINUTE - MS < WakeTime(now, m, lag) <= m * MINUTE + lag.wake
    ensures TurnEnd(now, Some(m), lag) / MINUTE >= m
  {
  }

  /**
   Whether a turn lasts into minute `k`, so that `k` can no longer be the next one: exactly if its
   lags make up the time from the minute it fired for, less the second of rest, the part of a
   millisecond cut from the sleep counting in favour.
   */
  lemma TurnReachesIff(now: int, m: int, lag: Lag, k: int)
    ensures k <= TurnEnd(now, Some(m), lag) / MINUTE <==>
            Total(lag) >= (k - m) * 60_000_000_000 - 1_000_000_000 + (m * 60_000_000_000 - now) % 1_000_000
  {
    var end := TurnEnd(now, Some(m), lag);
    assert end == m * MINUTE + (Total(lag) + SECOND - (m * MINUTE - now) % MS);
    StartsAfter(end, k);
  }

  predicate InTime(lags: seq<Lag>) {
    forall i :: 0 <= i < |lags| ==> Total(lags[i]) < 59 * SECOND
  }

  // --------------------------------------------------------------------- turns

  /** One turn of the loop: when its search began, the minute found, and when its second sleep ended. */
  datatype Turn = Turn(now: int, next: Option<int>, end: int)

  ghost predicate IsTurn(hits: Hits, t: Turn, lag: Lag) {
    IsNext(hits, t.now, t.next) && t.end == TurnEnd(t.now, t.next, lag)
  }

  /** When the first `n` turns are over. */
  function EndOf(start: int, turns: seq<Turn>, n: nat): int
    requires n <= |turns|
  {
    if n == 0 then start else turns[n - 1].end
  }

  /** Turn `i` has its lag and begins where the one before it ended. */
  ghost predicate Follows(hits: Hits, start: int, lags: seq<Lag>, turns: seq<Turn>, i: nat)
    requires i < |turns| == |lags|
  {
    turns[i].now == EndOf(start, turns, i) && IsTurn(hits, turns[i], lags[i])
  }

  ghost predicate IsLoop(hits: Hits, start: int, lags: seq<Lag>, turns: seq<Turn>) {
    |turns| == |lags| && forall i :: 0 <= i < |turns| ==> Follows(hits, start, lags, turns, i)
  }

  function FiredIn(t: Turn): seq<int> {
    if t.next.Some? then [t.next.value] else []
  }

  /** The minutes that the first `n` turns fired for. */
  function FiredBy(turns: seq<Turn>, n: nat): seq<int>
    requires n <= |turns|
  {
    if n == 0 then [] else FiredBy(turns, n - 1) + FiredIn(turns[n - 1])
  }

  /** No minute matches between the one the turn fired for, or its start if there is none, and its end. */
  ghost predicate Lossless(hits: Hits, t: Turn) {
    NoneIn(hits, if t.next.Some? then t.next.value else t.now / MINUTE, t.end / MINUTE)
  }

  /** A turn fires for exactly the minutes that matched while it lasted if and only if it is lossless. */
  lemma TurnExact(hits: Hits, t: Turn, lag: Lag)
    requires IsTurn(hits, t, lag)
    ensures t.now / MINUTE <= t.end / MINUTE
    ensures var ms := MatchesIn(hits, t.now / MINUTE, t.end / MINUTE);
            && |FiredIn(t)| <= |ms|
            && (ms == FiredIn(t) <==> Lossless(hits, t)) && (|ms| == |FiredIn(t)| <==> Lossless(hits, t))
  {
    var a, b := t.now / MINUTE, t.end / MINUTE;
    if t.next.Some? {
      var m := t.next.value;
      StartsAfter(t.now, m);
      TurnIsLate(t.now, m, lag);
      forall k | a < k <= m - 1 ensures !hits(k) {
        StartsAfter(t.now, k);
      }
      NoMatchesIff(hits, a, m - 1);
      assert MatchesIn(hits, a, m) == [m];
      MatchesSplit(hits, a, m, b);
      NoMatchesIff(hits, m, b);
    } else {
      NoMatchesIff(hits, a, b);
    }
  }

  /**
   A turn that fires loses nothing exactly if its lags end before the next matching minute, less
   the second of rest.
   */
  lemma LosslessIff(hits: Hits, t: Turn, lag: Lag)
    requires IsTurn(hits, t, lag) && t.next.Some?
    ensures var m := t.next.value;
            Lossless(hits, t) <==>
            forall k :: hits(k) && k > m ==> Total(lag) < (k - m) * MINUTE - SECOND + (m * MINUTE - t.now) % MS
  {
    var m := t.next.value;
    forall k | hits(k)
      ensures k <= t.end / MINUTE <==> Total(lag) >= (k - m) * MINUTE - SECOND + (m * MINUTE - t.now) % MS
    {
      TurnReachesIff(t.now, m, lag, k);
    }
  }

  /** With lags under 59 seconds a turn loses nothing. */
  lemma ShortTurn(hits: Hits, t: Turn, lag: Lag)
    requires IsTurn(hits, t, lag) && Total(lag) < 59 * SECOND
    ensures Lossless(hits, t)
  {
    if t.next.Some? {
      LosslessIff(hits, t, lag);
    } else {
      forall k | t.now / MINUTE < k <= t.end / MINUTE ensures !hits(k) {
        StartsAfter(t.now, k);
      }
    }
  }

  ghost predicate AllLossless(hits: Hits, turns: seq<Turn>, n: nat)
    requires n <= |turns|
  {
    forall i :: 0 <= i < n ==> Lossless(hits, turns[i])
  }

  lemma LosslessLast(hits: Hits, turns: seq<Turn>, n: nat)
    requires 0 < n <= |turns|
    ensures AllLossless(hits, turns, n) <==> AllLossless(hits, turns, n - 1) && Lossless(hits, turns[n - 1])
  {
  }

  /** `fired` holds as many of `ms` as it can, and all of them exactly if `exact`. */
  predicate Covers(fired: seq<int>, ms: seq<int>, exact: bool) {
    |fired| <= |ms| && (exact ==> fired == ms) && (|fired| == |ms| ==> exact)
  }

  lemma CoversBoth(f: seq<int>, ms: seq<int>, p: bool, g: seq<int>, ns: seq<int>, q: bool)
    requires Covers(f, ms, p) && Covers(g, ns, q)
    ensures Covers(f + g, ms + ns, p && q)
  {
  }

  /** The minute in which the first `n` turns are over. */
  function MinuteOf(start: int, turns: seq<Turn>, n: nat): int
    requires n <= |turns|
  {
    EndOf(start, turns, n) / MINUTE
  }

  /** Turn `n` fires for as many of the minutes it covers as it can, and for all of them exactly if it is lossless. */
  ghost predicate Covering(hits: Hits, start: int, turns: seq<Turn>, n: nat)
    requires n < |turns|
  {
    var a, b := MinuteOf(start, turns, n), MinuteOf(start, turns, n + 1);
    a <= b && Covers(FiredIn(turns[n]), MatchesIn(hits, a, b), Lossless(hits, turns[n]))
  }

  lemma TurnIsCovering(hits: Hits, start: int, lags: seq<Lag>, turns: seq<Turn>, n: nat)
    requires IsLoop(hits, start, lags, turns) && n < |turns|
    ensures Covering(hits, start, turns, n)
  {
    assert Follows(hits, start, lags, turns, n);
    TurnExact(hits, turns[n], lags[n]);
  }

  lemma CoversMore(hits: Hits, f: seq<int>, p: bool, g: seq<int>, q: bool, a: int, b: int, c: int)
    requires a <= b <= c && Covers(f, MatchesIn(hits, a, b), p) && Covers(g, MatchesIn(hits, b, c), q)
    ensures Covers(f + g, MatchesIn(hits, a, c), p && q)
  {
    MatchesSplit(hits, a, b, c);
    CoversBoth(f, MatchesIn(hits, a, b), p, g, MatchesIn(hits, b, c), q);
  }

  lemma {:induction false} TurnsExact(hits: Hits, start: int, turns: seq<Turn>, n: nat)
    requires n <= |turns| && forall i :: 0 <= i < |turns| ==> Covering(hits, start, turns, i)
    ensures MinuteOf(start, turns, 0) <= MinuteOf(start, turns, n)
    ensures Covers(FiredBy(turns, n), MatchesIn(hits, MinuteOf(start, turns, 0), MinuteOf(start, turns, n)),
                   AllLossless(hits, turns, n))
  {
    if n > 0 {
      TurnsExact(hits, start, turns, n - 1);
      assert Covering(hits, start, turns, n - 1);
      CoversMore(hits, FiredBy(turns, n - 1), AllLossless(hits, turns, n - 1),
                 FiredIn(turns[n - 1]), Lossless(hits, turns[n - 1]),
                 MinuteOf(start, turns, 0), MinuteOf(start, turns, n - 1), MinuteOf(start, turns, n));
      LosslessLast(hits, turns, n);
    }
  }

  /**
   The loop fires for every matching minute from its start to its end, once each, if and only if
   every turn is lossless.
   */
  lemma FiresAllIff(hits: Hits, start: int, lags: seq<Lag>, turns: seq<Turn>)
    requires IsLoop(hits, start, lags, turns)
    ensures FiredBy(turns, |turns|) == MatchesIn(hits, start / MINUTE, EndOf(start, turns, |turns|) / MINUTE)
            <==> AllLossless(hits, turns, |turns|)
    ensures InTime(lags) ==> AllLossless(hits, turns, |turns|)
  {
    forall n | 0 <= n < |turns| ensures Covering(hits, start, turns, n) {
      TurnIsCovering(hits, start, lags, turns, n);
    }
    TurnsExact(hits, start, turns, |turns|);
    if InTime(lags) {
      forall i | 0 <= i < |turns| ensures Lossless(hits, turns[i]) {
        assert Follows(hits, start, lags, turns, i);
        ShortTurn(hits, turns[i], lags[i]);
      }
    }
  }

  /** Matching minutes after `a`, up to `b`, in order and each once. */
  predicate FiredWithin(hits: Hits, fired: seq<int>, a: int, b: int) {
    fired == [] ||
    var m := fired[|fired| - 1];
    hits(m) && a < m <= b && FiredWithin(hits, fired[..|fired| - 1], a, m - 1)
  }

  lemma FiredWithinMore(hits: Hits, fired: seq<int>, a: int, b: int, t: Turn, c: int)
    requires FiredWithin(hits, fired, a, b) && b <= c
    requires t.next.Some? ==> hits(t.next.value) && a <= b < t.next.value <= c
    ensures FiredWithin(hits, fired + FiredIn(t), a, c)
  {
    if t.next.Some? {
      assert (fired + FiredIn(t))[..|fired|] == fired;
    } else {
      assert fired + FiredIn(t) == fired;
    }
  }

  lemma FiredOneMore(hits: Hits, fired: seq<int>, m: int, a: int, b: int)
    requires Ascending(fired) && (forall k :: k in fired ==> hits(k) && a < k < m) && hits(m) && a < m <= b
    ensures Ascending(fired + [m]) && forall k :: k in fired + [m] ==> hits(k) && a < k <= b
  {
    Append(fired, m);
  }

  lemma {:induction false} FiredWithinMeans(hits: Hits, fired: seq<int>, a: int, b: int)
    requires FiredWithin(hits, fired, a, b)
    ensures Ascending(fired) && forall m :: m in fired ==> hits(m) && a < m <= b
    decreases |fired|
  {
    if fired != [] {
      var before, m := fired[..|fired| - 1], fired[|fired| - 1];
      FiredWithinMeans(hits, before, a, m - 1);
      FiredOneMore(hits, before, m, a, b);
      assert fired == before + [m];
    }
  }

  /** What turn `n` fires for matches and lies between the minutes in which it begins and ends. */
  predicate Tidy(hits: Hits, start: int, turns: seq<Turn>, n: nat)
    requires n < |turns|
  {
    var next, a, b := turns[n].next, MinuteOf(start, turns, n), MinuteOf(start, turns, n + 1);
    a <= b && (next.Some? ==> hits(next.value) && a < next.value <= b)
  }

  lemma TurnIsTidy(hits: Hits, start: int, lags: seq<Lag>, turns: seq<Turn>, n: nat)
    requires IsLoop(hits, start, lags, turns) && n < |turns|
    ensures Tidy(hits, start, turns, n)
  {
    var t := turns[n];
    assert Follows(hits, start, lags, turns, n);
    if t.next.Some? {
      TurnIsLate(t.now, t.next.value, lags[n]);
      StartsAfter(t.now, t.next.value);
    }
  }

  lemma {:induction false} TidyFires(hits: Hits, start: int, turns: seq<Turn>, n: nat)
    requires n <= |turns| && forall i :: 0 <= i < |turns| ==> Tidy(hits, start, turns, i)
    ensures MinuteOf(start, turns, 0) <= MinuteOf(start, turns, n)
    ensures FiredWithin(hits, FiredBy(turns, n), MinuteOf(start, turns, 0), MinuteOf(start, turns, n))
  {
    if n > 0 {
      TidyFires(hits, start, turns, n - 1);
      assert Tidy(hits, start, turns, n - 1);
      FiredWithinMore(hits, FiredBy(turns, n - 1), MinuteOf(start, turns, 0), MinuteOf(start, turns, n - 1),
                      turns[n - 1], MinuteOf(start, turns, n));
    }
  }

  /** Whatever the lags, the loop fires for matching minutes only, in order and never twice for one. */
  lemma FiredOnce(hits: Hits, start: int, lags: seq<Lag>, turns: seq<Turn>)
    requires IsLoop(hits, start, lags, turns)
    ensures FiredWithin(hits, FiredBy(turns, |turns|), start / MINUTE, EndOf(start, turns, |turns|) / MINUTE)
  {
    forall n | 0 <= n < |turns| ensures Tidy(hits, start, turns, n) {
      TurnIsTidy(hits, start, lags, turns, n);
    }
    TidyFires(hits, start, turns, |turns|);
  }

  predicate OnTime(fired: seq<int>, times: seq<int>) {
    |fired| == |times| && forall i :: 0 <= i < |fired| ==> fired[i] * MINUTE - MS < times[i]
  }

  lemma OnTimeMore(fired: seq<int>, times: seq<int>, now: int, m: int, lag: Lag)
    requires OnTime(fired, times)
    ensures OnTime(fired + [m], times + [WakeTime(now, m, lag)])
  {
    TurnIsLate(now, m, lag);
  }

  /**
   The loop of `cron` until it is cancelled after some turns. The task is started for matching
   minutes only and never twice for one, whatever the lags; for every matching minute from the start
   of the loop to its end exactly if every turn is lossless, as it is with lags under 59 seconds.
   */
  method CronLoop(e: CronExpr, cal: Calendar, start: int, lags: seq<Lag>)
    returns (fired: seq<int>, times: seq<int>, end: int, turns: seq<Turn>)
    ensures Ascending(fired) && OnTime(fired, times)
    ensures forall m :: m in fired ==> Matches(e, cal, m) && start / MINUTE < m <= end / MINUTE
    ensures IsLoop(HitsOf(e, cal), start, lags, turns) && end == EndOf(start, turns, |turns|)
    ensures fired == MatchesIn(HitsOf(e, cal), start / MINUTE, end / MINUTE)
            <==> AllLossless(HitsOf(e, cal), turns, |turns|)
    ensures InTime(lags) ==> fired == MatchesIn(HitsOf(e, cal), start / MINUTE, end / MINUTE)
  {
    ghost var hits := HitsOf(e, cal);
    fired, times, end, turns := [], [], start, [];
    for i := 0 to |lags|
      invariant |turns| == i && end == EndOf(start, turns, i) && IsLoop(hits, start, lags[..i], turns)
      invariant fired == FiredBy(turns, i) && OnTime(fired, times)
    {
      var next := NextAfter(e, cal, end);
      var turn := Turn(end, next, TurnEnd(end, next, lags[i]));
      FiredMore(turns, turn);
      LoopNext(hits, start, lags, i, turns, turn);
      if next.Some? {
        OnTimeMore(fired, times, end, next.value, lags[i]);
        fired := fired + [next.value];
        times := times + [WakeTime(end, next.value, lags[i])];
      }
      turns := turns + [turn];
      end := turn.end;
    }
    assert lags[..|lags|] == lags;
    FiredOnce(hits, start, lags, turns);
    FiredWithinMeans(hits, fired, start / MINUTE, end / MINUTE);
    FiresAllIff(hits, start, lags, turns);
  }

  lemma {:induction false} FiredOfPrefix(turns: seq<Turn>, t: Turn, n: nat)
    requires n <= |turns|
    ensures FiredBy(turns + [t], n) == FiredBy(turns, n)
  {
    if n > 0 {
      FiredOfPrefix(turns, t, n - 1);
    }
  }

  lemma FiredMore(turns: seq<Turn>, t: Turn)
    ensures FiredBy(turns + [t], |turns| + 1) == FiredBy(turns, |turns|) + FiredIn(t)
  {
    FiredOfPrefix(turns, t, |turns|);
  }

  lemma LoopMore(hits: Hits, start: int, lags: seq<Lag>, turns: seq<Turn>, t: Turn, lag: Lag)
    requires IsLoop(hits, start, lags, turns) && t.now == EndOf(start, turns, |turns|) && IsTurn(hits, t, lag)
    ensures IsLoop(hits, start, lags + [lag], turns + [t])
  {
    var more, all := turns + [t], lags + [lag];
    forall i | 0 <= i < |more| ensures Follows(hits, start, all, more, i) {
      if i < |turns| {
        assert Follows(hits, start, lags, turns, i);
      }
    }
  }

  lemma LoopNext(hits: Hits, start: int, lags: seq<Lag>, i: nat, turns: seq<Turn>, t: Turn)
    requires i < |lags| && IsLoop(hits, start, lags[..i], turns)
    requires t.now == EndOf(start, turns, |turns|) && IsTurn(hits, t, lags[i])
    ensures IsLoop(hits, start, lags[..i + 1], turns + [t])
  {
    LoopMore(hits, start, lags[..i], turns, t, lags[i]);
    assert lags[..i + 1] == lags[..i] + [lags[i]];
  }
}

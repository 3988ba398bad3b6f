/**
 The per-tenant request quota (examples/tenant-management/src/middleware.rs): a window of sixty
 seconds for each tenant. Times are nanoseconds of a monotone clock.
 */
module RateLimit {
  import opened Wrappers

  const MINUTE: int := 60_000_000_000

  type I32 = n: int | -0x8000_0000 <= n < 0x8000_0000

  datatype Window = Window(count: nat, resetAt: int)

  /** `quota as u32`: a negative quota becomes a very large one. */
  function AsU32(n: I32): nat {
    if n >= 0 then n else n + 0x1_0000_0000
  }

  // ------------------------------------------------------------- specification

  /** The window that a request meets: its tenant's, or a new one. */
  function Current(w: Option<Window>, now: int): Window {
    if w.None? || now > w.value.resetAt then Window(0, now + MINUTE) else w.value
  }

  predicate Allows(w: Option<Window>, quota: I32, now: int) {
    Current(w, now).count < AsU32(quota)
  }

  function Checked(w: Option<Window>, quota: I32, now: int): Window {
    var c := Current(w, now);
    if Allows(w, quota, now) then c.(count := c.count + 1) else c
  }

  class TenantRateLimiter {
    var windows: map<int, Window>

    constructor ()
      ensures windows == map[]
    {
      windows := map[];
    }

    method Check(tenant: int, quota: I32, now: int) returns (allowed: bool)
      modifies this
      ensures allowed == Allows(Lookup(old(windows), tenant), quota, now)
      ensures windows == old(windows)[tenant := Checked(Lookup(old(windows), tenant), quota, now)]
    {
      if tenant !in windows {
        windows := windows[tenant := Window(0, now + MINUTE)];
      }
      var window := windows[tenant];
      if now > window.resetAt {
        window := Window(0, now + MINUTE);
      }
      allowed := window.count < AsU32(quota);
      if allowed {
        window := window.(count := window.count + 1);
      }
      windows := windows[tenant := window];
    }
  }

  function Lookup(windows: map<int, Window>, tenant: int): Option<Window> {
    if tenant in windows then Some(windows[tenant]) else None
  }

  // ---------------------------------------------------------------------- runs

  datatype Request = Request(tenant: int, quota: I32, now: int)

  /** The windows after the first `n` requests. */
  function WindowsAt(rs: seq<Request>, n: nat): map<int, Window>
    requires n <= |rs|
  {
    if n == 0 then map[]
    else
      var ws := WindowsAt(rs, n - 1);
      var r := rs[n - 1];
      ws[r.tenant := Checked(Lookup(ws, r.tenant), r.quota, r.now)]
  }

  predicate AllowedAt(rs: seq<Request>, i: nat)
    requires i < |rs|
  {
    Allows(Lookup(WindowsAt(rs, i), rs[i].tenant), rs[i].quota, rs[i].now)
  }

  /** The clock never runs backwards. */
  predicate Ordered(rs: seq<Request>) {
    forall i, j :: 0 <= i < j < |rs| ==> rs[i].now <= rs[j].now
  }

  /** How many of the first `n` requests are the tenant's, allowed, and from the time span. */
  function Admitted(rs: seq<Request>, n: nat, tenant: int, from: int, to: int): nat
    requires n <= |rs|
  {
    if n == 0 then 0
    else
      Admitted(rs, n - 1, tenant, from, to)
      + if rs[n - 1].tenant == tenant && from <= rs[n - 1].now <= to && AllowedAt(rs, n - 1) then 1 else 0
  }

  predicate FixedQuota(rs: seq<Request>, tenant: int, quota: I32) {
    forall i :: 0 <= i < |rs| && rs[i].tenant == tenant ==> rs[i].quota == quota
  }

  // ---------------------------------------------------------------- the windows

  /** The request that began the tenant's window: the first one, or the first after the last window's sixty seconds. */
  function Began(rs: seq<Request>, n: nat, tenant: int): (b: Option<nat>)
    requires n <= |rs|
    ensures b.Some? ==> b.value < n
  {
    if n == 0 then None
    else
      var before := Began(rs, n - 1, tenant);
      if rs[n - 1].tenant != tenant then before
      else if before.Some? && rs[n - 1].now <= rs[before.value].now + MINUTE then before
      else Some(n - 1)
  }

  /** How many of the tenant's requests from number `b` on were allowed. */
  function AllowedSince(rs: seq<Request>, b: nat, n: nat, tenant: int): nat
    requires b <= n <= |rs|
  {
    if n == b then 0
    else AllowedSince(rs, b, n - 1, tenant) + if rs[n - 1].tenant == tenant && AllowedAt(rs, n - 1) then 1 else 0
  }

  /** What is kept of the window is when it ends and how many requests it has allowed. */
  lemma {:induction false} WindowIs(rs: seq<Request>, n: nat, tenant: int)
    requires n <= |rs|
    ensures var b := Began(rs, n, tenant);
            Lookup(WindowsAt(rs, n), tenant)
            == if b.None? then None
               else Some(Window(AllowedSince(rs, b.value, n, tenant), rs[b.value].now + MINUTE))
  {
    if n > 0 {
      WindowIs(rs, n - 1, tenant);
      if Began(rs, n, tenant) == Some(n - 1) {
        assert AllowedSince(rs, n - 1, n - 1, tenant) == 0;
      }
    }
  }

  /**
   A request is allowed exactly if its window has allowed fewer than the quota before it. Refused
   requests do not count, and do not move the window.
   */
  lemma AllowedIff(rs: seq<Request>, i: nat)
    requires i < |rs|
    ensures var b := Began(rs, i + 1, rs[i].tenant).value;
            AllowedAt(rs, i) <==> AllowedSince(rs, b, i, rs[i].tenant) < AsU32(rs[i].quota)
  {
    WindowIs(rs, i, rs[i].tenant);
  }

  /** So the first request after a window's sixty seconds is allowed, whatever was refused, unless the quota is 0. */
  lemma NewWindowAllows(rs: seq<Request>, i: nat)
    requires i < |rs| && rs[i].quota != 0 && Began(rs, i + 1, rs[i].tenant) == Some(i)
    ensures AllowedAt(rs, i)
  {
    AllowedIff(rs, i);
  }

  // ----------------------------------------------------------------- the bound

  lemma {:induction false} NothingYet(rs: seq<Request>, n: nat, tenant: int, from: int, to: int)
    requires n <= |rs| && forall i :: 0 <= i < n ==> rs[i].now < from
    ensures Admitted(rs, n, tenant, from, to) == 0
  {
    if n > 0 {
      NothingYet(rs, n - 1, tenant, from, to);
      assert rs[n - 1].now < from;
    }
  }

  /** After the last request at `time`, with `seen` admissions since `from`. */
  predicate Bounded(w: Option<Window>, q: nat, time: int, from: int, seen: nat) {
    match w
    case None => seen == 0
    case Some(w) =>
      1 <= w.count <= q && w.resetAt - MINUTE <= time
      && (w.resetAt - MINUTE < from ==> seen <= w.count - 1)
      && (w.resetAt - MINUTE >= from ==> seen <= w.count + q - 1)
  }

  /** One request of the tenant, within a minute after `from`. */
  lemma BoundedStep(w: Option<Window>, quota: I32, time: int, from: int, seen: nat, now: int)
    requires AsU32(quota) >= 1 && Bounded(w, AsU32(quota), time, from, seen) && time <= now <= from + MINUTE
    requires now < from ==> seen == 0
    ensures Bounded(Some(Checked(w, quota, now)), AsU32(quota), now, from,
                    seen + if now >= from && Allows(w, quota, now) then 1 else 0)
  {
  }

  lemma BoundedLater(w: Option<Window>, q: nat, time: int, later: int, from: int, seen: nat)
    requires Bounded(w, q, time, from, seen) && time <= later
    ensures Bounded(w, q, later, from, seen)
  {
  }

  lemma {:induction false} BoundHolds(rs: seq<Request>, n: nat, tenant: int, quota: I32, from: int)
    requires Ordered(rs) && FixedQuota(rs, tenant, quota) && AsU32(quota) >= 1
    requires 0 < n <= |rs| && rs[n - 1].now <= from + MINUTE
    ensures Bounded(Lookup(WindowsAt(rs, n), tenant), AsU32(quota), rs[n - 1].now, from,
                    Admitted(rs, n, tenant, from, from + MINUTE))
  {
    var r := rs[n - 1];
    var w := Lookup(WindowsAt(rs, n - 1), tenant);
    var seen := Admitted(rs, n - 1, tenant, from, from + MINUTE);
    if n > 1 {
      assert rs[n - 2].now <= r.now;
      BoundHolds(rs, n - 1, tenant, quota, from);
      BoundedLater(w, AsU32(quota), rs[n - 2].now, r.now, from, seen);
    }
    if r.now < from {
      NothingYet(rs, n - 1, tenant, from, from + MINUTE);
    }
    if r.tenant == tenant {
      BoundedStep(w, quota, r.now, from, seen, r.now);
    }
  }

  lemma {:induction false} ZeroAdmitsNone(rs: seq<Request>, n: nat, tenant: int, from: int, to: int)
    requires FixedQuota(rs, tenant, 0) && n <= |rs|
    ensures Admitted(rs, n, tenant, from, to) == 0
  {
    if n > 0 {
      ZeroAdmitsNone(rs, n - 1, tenant, from, to);
    }
  }

  /** Requests after the time span do not count. */
  lemma {:induction false} LaterDoNotCount(rs: seq<Request>, n: nat, tenant: int, quota: I32, from: int)
    requires Ordered(rs) && FixedQuota(rs, tenant, quota) && AsU32(quota) >= 1 && n <= |rs|
    ensures Admitted(rs, n, tenant, from, from + MINUTE) <= 2 * AsU32(quota) - 1
  {
    if n > 0 {
      if rs[n - 1].now <= from + MINUTE {
        BoundHolds(rs, n, tenant, quota, from);
      } else {
        LaterDoNotCount(rs, n - 1, tenant, quota, from);
      }
    }
  }

  /**
   Any sixty seconds, both ends included, admit at most twice the quota of one tenant, less one
   (and nothing for a quota of 0), whatever other tenants do in between.
   */
  lemma AnyMinuteAdmitsFew(rs: seq<Request>, tenant: int, quota: I32, from: int)
    requires Ordered(rs) && FixedQuota(rs, tenant, quota)
    ensures var admitted := Admitted(rs, |rs|, tenant, from, from + 60_000_000_000);
            if quota == 0 then admitted == 0 else admitted <= 2 * AsU32(quota) - 1
  {
    if quota == 0 {
      ZeroAdmitsNone(rs, |rs|, tenant, from, from + MINUTE);
    } else {
      LaterDoNotCount(rs, |rs|, tenant, quota, from);
    }
  }

  // ------------------------------------------------------------------ sharpness

  /** One request at 0, the rest of the quota at the last moment of the window, and a whole quota right after. */
  function Burst(quota: I32): (rs: seq<Request>)
    ensures |rs| == 2 * AsU32(quota)
    ensures forall i :: 0 <= i < |rs| ==>
              rs[i] == Request(0, quota, if i == 0 then 0 else if i < AsU32(quota) then MINUTE else MINUTE + 1)
  {
    seq(2 * AsU32(quota), i requires 0 <= i < 2 * AsU32(quota) =>
      Request(0, quota, if i == 0 then 0 else if i < AsU32(quota) then MINUTE else MINUTE + 1))
  }

  lemma {:induction false} BurstAdmits(quota: I32, n: nat)
    requires 1 <= n <= 2 * AsU32(quota)
    ensures var q := AsU32(quota);
            Lookup(WindowsAt(Burst(quota), n), 0) ==
            Some(if n <= q then Window(n, MINUTE) else Window(n - q, MINUTE + 1 + MINUTE))
    ensures Admitted(Burst(quota), n, 0, 1, 1 + MINUTE) == n - 1
  {
    var rs := Burst(quota);
    assert WindowsAt(rs, 0) == map[] && Admitted(rs, 0, 0, 1, 1 + MINUTE) == 0;
    if n > 1 {
      BurstAdmits(quota, n - 1);
    }
  }

  lemma BurstIsARun(quota: I32)
    ensures Ordered(Burst(quota)) && FixedQuota(Burst(quota), 0, quota)
  {
  }

  /** The bound is reached for every quota but 0, negative ones included. */
  lemma BoundIsSharp(quota: I32)
    requires quota != 0
    ensures Ordered(Burst(quota)) && FixedQuota(Burst(quota), 0, quota)
    ensures Admitted(Burst(quota), |Burst(quota)|, 0, 1, 1 + 60_000_000_000) == 2 * AsU32(quota) - 1
  {
    BurstIsARun(quota);
    BurstAdmits(quota, 2 * AsU32(quota));
  }

  /** A negative quota is no limit to speak of: at least 2^32 - 1 requests are let through within a minute. */
  lemma NegativeQuotaAdmitsMany(quota: I32)
    requires quota < 0
    ensures Ordered(Burst(quota)) && FixedQuota(Burst(quota), 0, quota)
    ensures Admitted(Burst(quota), |Burst(quota)|, 0, 1, 1 + 60_000_000_000) >= 0xFFFF_FFFF
  {
    BoundIsSharp(quota);
  }

  // -------------------------------------------------------------- other tenants

  /** The requests of one tenant among the first `n`. */
  function Own(rs: seq<Request>, n: nat, tenant: int): (own: seq<Request>)
    requires n <= |rs|
  {
    if n == 0 then []
    else if rs[n - 1].tenant == tenant then Own(rs, n - 1, tenant) + [rs[n - 1]]
    else Own(rs, n - 1, tenant)
  }

  lemma {:induction false} WindowsOfPrefix(rs: seq<Request>, r: Request, n: nat)
    requires n <= |rs|
    ensures WindowsAt(rs + [r], n) == WindowsAt(rs, n)
  {
    if n > 0 {
      WindowsOfPrefix(rs, r, n - 1);
    }
  }

  /** A tenant's window is what it would be if the tenant were alone. */
  lemma {:induction false} OthersDoNotMatter(rs: seq<Request>, n: nat, tenant: int)
    requires n <= |rs|
    ensures var own := Own(rs, n, tenant);
            Lookup(WindowsAt(rs, n), tenant) == Lookup(WindowsAt(own, |own|), tenant)
  {
    if n > 0 {
      OthersDoNotMatter(rs, n - 1, tenant);
      var own := Own(rs, n - 1, tenant);
      if rs[n - 1].tenant == tenant {
        WindowsOfPrefix(own, rs[n - 1], |own|);
      }
    }
  }

  /** And so is every answer it gets. */
  lemma AnswersAlone(rs: seq<Request>, i: nat)
    requires i < |rs|
    ensures var own := Own(rs, i + 1, rs[i].tenant);
            |own| > 0 && own[|own| - 1] == rs[i] && AllowedAt(own, |own| - 1) == AllowedAt(rs, i)
  {
    var before := Own(rs, i, rs[i].tenant);
    OthersDoNotMatter(rs, i, rs[i].tenant);
    WindowsOfPrefix(before, rs[i], |before|);
  }
}

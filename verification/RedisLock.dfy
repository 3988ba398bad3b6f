/**
 The distributed lock (rszero/src/cache/lock.rs) on one Redis key.

 A run is the sequence of commands in the order in which Redis executes them. A command may
 arrive arbitrarily late after it was sent, be sent again, come from the destructor or from the
 background refresher, and its answer may be lost. Times are milliseconds of Redis' clock; a key
 is gone once its expiry time is reached. Every acquisition carries a token of its own.
 */
module RedisLock {
  import opened Wrappers

  datatype Lease = Lease(token: nat, expires: int)

  datatype Command =
    | Acquire(token: nat, ttl: nat, now: int)
    | Release(token: nat, now: int)
    | Refresh(token: nat, ttl: nat, now: int)

  /** The token that the key shows at a time. */
  function Owner(key: Option<Lease>, now: int): Option<nat> {
    if key.Some? && now < key.value.expires then Some(key.value.token) else None
  }

  /** `SET NX EX`: refused when the key is there, an error when the time to live is 0 seconds. */
  predicate Succeeds(key: Option<Lease>, c: Command) {
    match c
    case Acquire(_, ttl, now) => Owner(key, now) == None && ttl > 0
    case Release(token, now) => Owner(key, now) == Some(token)
    case Refresh(token, _, now) => Owner(key, now) == Some(token)
  }

  /** A refresh to 0 seconds deletes the key, and still answers 1. */
  function Executed(key: Option<Lease>, c: Command): Option<Lease> {
    if !Succeeds(key, c) then key
    else match c
      case Acquire(token, ttl, now) => Some(Lease(token, now + ttl * 1000))
      case Release(_, _) => None
      case Refresh(token, ttl, now) => if ttl == 0 then None else Some(Lease(token, now + ttl * 1000))
  }

  class RedisKey {
    var key: Option<Lease>

    constructor ()
      ensures key == None
    {
      key := None;
    }

    method Get(now: int) returns (r: Option<nat>)
      ensures r == Owner(key, now)
    {
      if key.Some? && now < key.value.expires {
        return Some(key.value.token);
      }
      return None;
    }

    /** `try_acquire`: None for an error, otherwise whether a lock was handed out. */
    method TryAcquire(token: nat, ttl: nat, now: int) returns (r: Option<bool>)
      modifies this
      ensures key == Executed(old(key), Acquire(token, ttl, now))
      ensures (r == Some(true)) == Succeeds(old(key), Acquire(token, ttl, now)) && (r == None <==> ttl == 0)
    {
      if ttl == 0 {
        return None;
      }
      var held := Get(now);
      if held.Some? {
        return Some(false);
      }
      key := Some(Lease(token, now + ttl * 1000));
      return Some(true);
    }

    /** The script of `release` and of the destructor. */
    method Release(token: nat, now: int) returns (ok: bool)
      modifies this
      ensures key == Executed(old(key), Command.Release(token, now))
      ensures ok == Succeeds(old(key), Command.Release(token, now))
    {
      var held := Get(now);
      ok := held == Some(token);
      if ok {
        key := None;
      }
    }

    /** The script of `refresh` and of the background refresher. */
    method Refresh(token: nat, ttl: nat, now: int) returns (ok: bool)
      modifies this
      ensures key == Executed(old(key), Command.Refresh(token, ttl, now))
      ensures ok == Succeeds(old(key), Command.Refresh(token, ttl, now))
    {
      var held := Get(now);
      ok := held == Some(token);
      if ok {
        if ttl == 0 {
          key := None;
        } else {
          key := Some(Lease(token, now + ttl * 1000));
        }
      }
    }
  }

  // ---------------------------------------------------------------------- runs

  /** The key after the first `n` commands. */
  function KeyAt(cmds: seq<Command>, n: nat): Option<Lease>
    requires n <= |cmds|
  {
    if n == 0 then None else Executed(KeyAt(cmds, n - 1), cmds[n - 1])
  }

  predicate Answer(cmds: seq<Command>, j: nat)
    requires j < |cmds|
  {
    Succeeds(KeyAt(cmds, j), cmds[j])
  }

  /** Redis' clock does not run backwards, and no two acquisitions share a token. */
  predicate IsRun(cmds: seq<Command>) {
    && (forall i, j :: 0 <= i < j < |cmds| ==> cmds[i].now <= cmds[j].now)
    && (forall i, j :: 0 <= i < j < |cmds| && cmds[i].Acquire? && cmds[j].Acquire? ==> cmds[i].token != cmds[j].token)
  }

  /** The key shows `token` at command `k`, and so at every time since the command before. */
  predicate OwnsAt(cmds: seq<Command>, k: nat, token: nat)
    requires k < |cmds|
  {
    Owner(KeyAt(cmds, k), cmds[k].now) == Some(token)
  }

  /** At every time from command `i` to command `j`, the key shows `token`. */
  ghost predicate HeldThroughout(cmds: seq<Command>, i: nat, j: nat, token: nat)
    requires i < j < |cmds|
  {
    forall k, time :: i < k <= j && cmds[k - 1].now <= time <= cmds[k].now ==>
                        Owner(KeyAt(cmds, k), time) == Some(token)
  }

  lemma OwnsFromStart(cmds: seq<Command>, i: nat, j: nat, token: nat)
    requires i < j < |cmds| && forall k :: i < k <= j ==> OwnsAt(cmds, k, token)
    ensures HeldThroughout(cmds, i, j, token)
  {
    forall k, time | i < k <= j && cmds[k - 1].now <= time <= cmds[k].now
      ensures Owner(KeyAt(cmds, k), time) == Some(token)
    {
      assert OwnsAt(cmds, k, token);
    }
  }

  /** A token that shows now was acquired once, and has shown ever since. */
  lemma {:induction false} Origin(cmds: seq<Command>, j: nat, token: nat) returns (i: nat)
    requires IsRun(cmds) && j < |cmds| && OwnsAt(cmds, j, token)
    ensures i < j && cmds[i].Acquire? && cmds[i].token == token && Answer(cmds, i)
    ensures forall k :: i < k <= j ==> OwnsAt(cmds, k, token)
    decreases j
  {
    var c := cmds[j - 1];
    assert c.now <= cmds[j].now;
    if Answer(cmds, j - 1) && c.Acquire? {
      i := j - 1;
    } else {
      assert OwnsAt(cmds, j - 1, token);
      i := Origin(cmds, j - 1, token);
    }
  }

  /**
   When a release or a refresh answers true, its token was acquired before, and at every time
   since then the key has shown it: nobody else has held the lock in between.
   */
  lemma TrueMeansHeld(cmds: seq<Command>, j: nat) returns (i: nat)
    requires IsRun(cmds) && j < |cmds| && !cmds[j].Acquire? && Answer(cmds, j)
    ensures i < j && cmds[i].Acquire? && cmds[i].token == cmds[j].token && Answer(cmds, i)
    ensures HeldThroughout(cmds, i, j, cmds[j].token)
    ensures forall k :: i < k <= j && cmds[k].Acquire? ==> !Answer(cmds, k)
  {
    i := Origin(cmds, j, cmds[j].token);
    OwnsFromStart(cmds, i, j, cmds[j].token);
    forall k | i < k <= j && cmds[k].Acquire? ensures !Answer(cmds, k) {
      assert OwnsAt(cmds, k, cmds[j].token);
    }
  }

  // ------------------------------------------------------------- late releases

  /** Once a token that has been acquired no longer shows, it never shows again. */
  lemma {:induction false} GoneForever(cmds: seq<Command>, a: nat, k: nat, j: nat)
    requires IsRun(cmds) && a < k <= j < |cmds| && cmds[a].Acquire? && !OwnsAt(cmds, k, cmds[a].token)
    ensures !OwnsAt(cmds, j, cmds[a].token)
  {
    if OwnsAt(cmds, j, cmds[a].token) {
      var _ := Origin(cmds, j, cmds[a].token);
    }
  }

  /**
   Once somebody else has acquired the lock, every release and refresh of an earlier owner,
   however late and however often, answers false and changes nothing for anybody.
   */
  lemma LateCommandIsHarmless(cmds: seq<Command>, a: nat, b: nat, j: nat)
    requires IsRun(cmds) && a < b < j < |cmds| && cmds[a].Acquire? && cmds[b].Acquire? && Answer(cmds, b)
    requires !cmds[j].Acquire? && cmds[j].token == cmds[a].token
    ensures !Answer(cmds, j) && KeyAt(cmds, j + 1) == KeyAt(cmds, j)
  {
    assert !OwnsAt(cmds, b, cmds[a].token);
    GoneForever(cmds, a, b, j);
  }

  /** After a release that answered true (and before the destructor's), no release answers true again. */
  lemma ReleasedOnce(cmds: seq<Command>, i: nat, j: nat)
    requires IsRun(cmds) && i < j < |cmds| && cmds[i].Release? && !cmds[j].Acquire?
    requires cmds[j].token == cmds[i].token && Answer(cmds, i)
    ensures !Answer(cmds, j) && KeyAt(cmds, j + 1) == KeyAt(cmds, j)
  {
    var a := Origin(cmds, i, cmds[i].token);
    assert !OwnsAt(cmds, i + 1, cmds[a].token);
    GoneForever(cmds, a, i + 1, j);
  }

  /** Only its own release, or its own refresh to 0 seconds, takes the lock from an owner before its time. */
  lemma OnlyOwnerShortens(cmds: seq<Command>, j: nat, token: nat)
    requires IsRun(cmds) && j < |cmds| && OwnsAt(cmds, j, token)
    requires !(cmds[j].token == token && (cmds[j].Release? || (cmds[j].Refresh? && cmds[j].ttl == 0)))
    ensures KeyAt(cmds, j + 1).Some? && KeyAt(cmds, j + 1).value.token == token
    ensures (cmds[j].Refresh? && cmds[j].token == token) || KeyAt(cmds, j + 1) == KeyAt(cmds, j)
  {
  }

  // ---------------------------------------------------------- mutual exclusion

  /** The expiry that the owner of the acquisition `i` can count on before command `n`. */
  function Deadline(cmds: seq<Command>, i: nat, n: nat): int
    requires i < n <= |cmds| && cmds[i].Acquire?
  {
    if n == i + 1 then cmds[i].now + cmds[i].ttl * 1000
    else if cmds[n - 1].Refresh? && cmds[n - 1].token == cmds[i].token then cmds[n - 1].now + cmds[n - 1].ttl * 1000
    else Deadline(cmds, i, n - 1)
  }

  /** Up to command `n`: not released, not refreshed to 0 seconds, and every command comes before the deadline. */
  predicate KeptAlive(cmds: seq<Command>, i: nat, n: nat)
    requires i < n <= |cmds| && cmds[i].Acquire?
  {
    n == i + 1
    || (KeptAlive(cmds, i, n - 1) && cmds[n - 1].now < Deadline(cmds, i, n - 1)
        && (cmds[n - 1].token == cmds[i].token ==> cmds[n - 1].Refresh? && cmds[n - 1].ttl > 0))
  }

  lemma {:induction false} KeptAliveOwns(cmds: seq<Command>, i: nat, n: nat)
    requires IsRun(cmds) && i < n <= |cmds| && cmds[i].Acquire? && Answer(cmds, i) && KeptAlive(cmds, i, n)
    ensures KeyAt(cmds, n) == Some(Lease(cmds[i].token, Deadline(cmds, i, n)))
    decreases n
  {
    if n > i + 1 {
      KeptAliveOwns(cmds, i, n - 1);
    }
  }

  /**
   With refreshes landing before the deadline, the lock excludes everybody else until it is
   released: no acquisition succeeds, and every refresh of the owner does.
   */
  lemma MutualExclusion(cmds: seq<Command>, i: nat, j: nat)
    requires IsRun(cmds) && i < j < |cmds| && cmds[i].Acquire? && Answer(cmds, i)
    requires KeptAlive(cmds, i, j) && cmds[j].now < Deadline(cmds, i, j)
    ensures OwnsAt(cmds, j, cmds[i].token)
    ensures cmds[j].Acquire? ==> !Answer(cmds, j)
    ensures !cmds[j].Acquire? ==> (Answer(cmds, j) <==> cmds[j].token == cmds[i].token)
  {
    KeptAliveOwns(cmds, i, j);
  }

  /** A token that still shows has been kept alive. */
  lemma {:induction false} OwnsIsKeptAlive(cmds: seq<Command>, i: nat, j: nat)
    requires IsRun(cmds) && i < j < |cmds| && cmds[i].Acquire? && Answer(cmds, i)
    requires forall k :: i < k <= j ==> OwnsAt(cmds, k, cmds[i].token)
    ensures KeptAlive(cmds, i, j) && cmds[j].now < Deadline(cmds, i, j)
    decreases j
  {
    if j > i + 1 {
      OwnsIsKeptAlive(cmds, i, j - 1);
      KeptAliveOwns(cmds, i, j - 1);
      assert OwnsAt(cmds, j, cmds[i].token);
    }
    KeptAliveOwns(cmds, i, j);
    assert OwnsAt(cmds, j, cmds[i].token);
  }

  /** The lock of acquisition `i` is in force at command `j`. */
  predicate InForce(cmds: seq<Command>, i: nat, j: nat)
    requires i < j < |cmds|
  {
    cmds[i].Acquire? && Answer(cmds, i) && KeptAlive(cmds, i, j) && cmds[j].now < Deadline(cmds, i, j)
  }

  /**
   An acquisition for more than 0 seconds succeeds exactly if no earlier one is in force: after a
   release, and from the deadline on, the lock is free.
   */
  lemma AcquiredIff(cmds: seq<Command>, j: nat)
    requires IsRun(cmds) && j < |cmds| && cmds[j].Acquire?
    ensures Answer(cmds, j) <==> cmds[j].ttl > 0 && forall i :: 0 <= i < j ==> !InForce(cmds, i, j)
  {
    if Owner(KeyAt(cmds, j), cmds[j].now).Some? {
      var token := Owner(KeyAt(cmds, j), cmds[j].now).value;
      assert OwnsAt(cmds, j, token);
      var i := Origin(cmds, j, token);
      OwnsIsKeptAlive(cmds, i, j);
      assert InForce(cmds, i, j);
    }
    forall i | 0 <= i < j && InForce(cmds, i, j) ensures !Answer(cmds, j) {
      MutualExclusion(cmds, i, j);
    }
  }

  predicate LetGo(cmds: seq<Command>, i: nat, k: nat)
    requires i < k < |cmds| && cmds[i].Acquire?
  {
    cmds[k].now >= Deadline(cmds, i, k)
    || (cmds[k].token == cmds[i].token && (cmds[k].Release? || (cmds[k].Refresh? && cmds[k].ttl == 0)))
  }

  lemma {:induction false} AliveOrLetGo(cmds: seq<Command>, i: nat, n: nat) returns (k: nat)
    requires IsRun(cmds) && i < n <= |cmds| && cmds[i].Acquire? && !KeptAlive(cmds, i, n)
    ensures i < k < n && LetGo(cmds, i, k)
    decreases n
  {
    if KeptAlive(cmds, i, n - 1) {
      k := n - 1;
    } else {
      k := AliveOrLetGo(cmds, i, n - 1);
    }
  }

  /** Whenever the lock changes hands, its owner had let it go: by its own command, or by missing a deadline. */
  lemma HandoverNeedsLetGo(cmds: seq<Command>, i: nat, j: nat) returns (k: nat)
    requires IsRun(cmds) && i < j < |cmds| && cmds[i].Acquire? && Answer(cmds, i) && cmds[j].Acquire? && Answer(cmds, j)
    ensures i < k <= j && LetGo(cmds, i, k)
  {
    if !KeptAlive(cmds, i, j) {
      k := AliveOrLetGo(cmds, i, j);
    } else {
      k := j;
      if !LetGo(cmds, i, j) {
        MutualExclusion(cmds, i, j);
      }
    }
  }

  // ------------------------------------------------------- background refresher

  predicate Renews(cmds: seq<Command>, i: nat, r: nat)
    requires i <= r < |cmds| && cmds[i].Acquire?
  {
    r == i || (cmds[r].Refresh? && cmds[r].token == cmds[i].token)
  }

  /** Some acquisition or refresh of the owner lies less than its time to live before command `k`. */
  predicate RefreshedInTime(cmds: seq<Command>, i: nat, k: nat)
    requires i < k < |cmds| && cmds[i].Acquire?
  {
    exists r :: i <= r < k && Renews(cmds, i, r) && cmds[k].now - cmds[r].now < cmds[i].ttl * 1000
  }

  /** `with_lock_auto_refresh` up to its release: the owner sends refreshes only, all with its own time to live. */
  predicate OnlyRefreshes(cmds: seq<Command>, i: nat, n: nat)
    requires i < n <= |cmds| && cmds[i].Acquire?
  {
    forall k :: i < k < n && cmds[k].token == cmds[i].token ==> cmds[k].Refresh? && cmds[k].ttl == cmds[i].ttl
  }

  lemma {:induction false} DeadlineAfter(cmds: seq<Command>, i: nat, r: nat, n: nat)
    requires IsRun(cmds) && i <= r < n <= |cmds| && cmds[i].Acquire? && Renews(cmds, i, r) && OnlyRefreshes(cmds, i, n)
    ensures Deadline(cmds, i, n) >= cmds[r].now + cmds[i].ttl * 1000
    decreases n
  {
    if r < n - 1 {
      assert OnlyRefreshes(cmds, i, n - 1);
      DeadlineAfter(cmds, i, r, n - 1);
      assert cmds[r].now <= cmds[n - 1].now;
    }
  }

  lemma {:induction false} RefreshingKeepsAlive(cmds: seq<Command>, i: nat, n: nat)
    requires IsRun(cmds) && i < n <= |cmds| && cmds[i].Acquire? && cmds[i].ttl > 0 && OnlyRefreshes(cmds, i, n)
    requires forall k :: i < k < n ==> RefreshedInTime(cmds, i, k)
    ensures KeptAlive(cmds, i, n)
    decreases n
  {
    if n > i + 1 {
      assert OnlyRefreshes(cmds, i, n - 1);
      RefreshingKeepsAlive(cmds, i, n - 1);
      assert RefreshedInTime(cmds, i, n - 1);
      var r :| i <= r < n - 1 && Renews(cmds, i, r) && cmds[n - 1].now - cmds[r].now < cmds[i].ttl * 1000;
      DeadlineAfter(cmds, i, r, n - 1);
    }
  }

  /**
   A background refresher whose refreshes land less than one time to live apart keeps everybody
   else out until the release, and that release answers true.
   */
  lemma AutoRefreshExcludes(cmds: seq<Command>, i: nat, j: nat)
    requires IsRun(cmds) && i < j < |cmds| && cmds[i].Acquire? && Answer(cmds, i) && OnlyRefreshes(cmds, i, j)
    requires forall k :: i < k <= j ==> RefreshedInTime(cmds, i, k)
    ensures forall k :: i < k <= j && cmds[k].Acquire? ==> !Answer(cmds, k)
    ensures cmds[j].Release? && cmds[j].token == cmds[i].token ==> Answer(cmds, j)
  {
    forall k | i < k <= j ensures OwnsAt(cmds, k, cmds[i].token) && (cmds[k].Acquire? ==> !Answer(cmds, k)) {
      RefreshingKeepsAlive(cmds, i, k);
      assert RefreshedInTime(cmds, i, k);
      var r :| i <= r < k && Renews(cmds, i, r) && cmds[k].now - cmds[r].now < cmds[i].ttl * 1000;
      DeadlineAfter(cmds, i, r, k);
      MutualExclusion(cmds, i, k);
    }
  }
}

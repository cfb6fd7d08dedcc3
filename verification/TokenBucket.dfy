/**
 server/src/rate_limiter.ts: a lazily refilled token bucket, over the reals, with
 every clock reading a parameter.
 */
module TokenBucket {
  import opened Common

  datatype Bucket = Bucket(burst: real, perMinute: real, tokens: real, lastRefillMs: Option<real>)

  // The tokens earned in `elapsed` milliseconds.
  function Earned(perMinute: real, elapsed: real): real {
    elapsed * perMinute / 60000.0
  }

  function Min(a: real, b: real): real {
    if a <= b then a else b
  }

  function Full(burst: real, perMinute: real): Bucket {
    Bucket(burst, perMinute, burst, None)
  }

  function Refill(b: Bucket, now: real): Bucket {
    match b.lastRefillMs
    case None => b.(lastRefillMs := Some(now))
    case Some(last) =>
      if now - last <= 0.0 then b
      else b.(tokens := Min(b.burst, b.tokens + Earned(b.perMinute, now - last)), lastRefillMs := Some(now))
  }

  function AllowN(b: Bucket, now: real, n: real): (Bucket, bool) {
    var r := Refill(b, now);
    if n > r.burst || r.tokens < n then (r, false) else (r.(tokens := r.tokens - n), true)
  }

  class TokenBucketRateLimiter {
    const burst: real
    const perMinute: real
    var tokens: real
    var lastRefillMs: Option<real>

    ghost function Abs(): Bucket
      reads this
    {
      Bucket(burst, perMinute, tokens, lastRefillMs)
    }

    constructor (burst: real, perMinute: real)
      ensures Abs() == Full(burst, perMinute)
    {
      this.burst, this.perMinute := burst, perMinute;
      tokens, lastRefillMs := burst, None;
    }

    method RefillNow(now: real)
      modifies this
      ensures Abs() == Refill(old(Abs()), now)
    {
      if lastRefillMs.None? {
        lastRefillMs := Some(now);
        return;
      }
      var elapsed := now - lastRefillMs.value;
      if elapsed <= 0.0 {
        return;
      }
      var refill := elapsed * perMinute / 60000.0;
      tokens := if burst <= tokens + refill then burst else tokens + refill;
      lastRefillMs := Some(now);
    }

    method AvailableTokens(now: real) returns (available: real)
      modifies this
      ensures Abs() == Refill(old(Abs()), now) && available == Abs().tokens
    {
      RefillNow(now);
      return tokens;
    }

    method Allow(now: real, n: real) returns (ok: bool)
      modifies this
      ensures (Abs(), ok) == AllowN(old(Abs()), now, n)
    {
      RefillNow(now);
      if n > burst || tokens < n {
        return false;
      }
      tokens := tokens - n;
      return true;
    }

    method Drain()
      modifies this
      ensures Abs() == old(Abs()).(tokens := 0.0)
    {
      tokens := 0.0;
    }
  }

  // ------------------------------------------------------------------
  // Runs
  // ------------------------------------------------------------------

  datatype Op = Take(at: real, n: real) | Drain

  // The bucket after the first k operations.
  function At(b: Bucket, ops: seq<Op>, k: nat): Bucket
    requires k <= |ops|
  {
    if k == 0 then b
    else
      match ops[k - 1]
      case Take(at, n) => AllowN(At(b, ops, k - 1), at, n).0
      case Drain => At(b, ops, k - 1).(tokens := 0.0)
  }

  // The tokens that call k finds once it has refilled.
  function SeenAt(b: Bucket, ops: seq<Op>, k: nat): real
    requires k < |ops| && ops[k].Take?
  {
    Refill(At(b, ops, k), ops[k].at).tokens
  }

  predicate AllowedAt(b: Bucket, ops: seq<Op>, k: nat)
    requires k < |ops| && ops[k].Take?
  {
    AllowN(At(b, ops, k), ops[k].at, ops[k].n).1
  }

  // The tokens granted by operations i..k-1.
  function Granted(b: Bucket, ops: seq<Op>, i: nat, k: nat): real
    requires i <= k <= |ops|
  {
    if i == k then 0.0
    else Granted(b, ops, i, k - 1)
         + (if ops[k - 1].Take? && AllowedAt(b, ops, k - 1) then ops[k - 1].n else 0.0)
  }

  lemma EarnedAdds(perMinute: real, a: real, b: real)
    ensures Earned(perMinute, a + b) == Earned(perMinute, a) + Earned(perMinute, b)
  {
    assert (a + b) * perMinute == a * perMinute + b * perMinute;
  }

  lemma EarnedGrows(perMinute: real, a: real, b: real)
    requires perMinute >= 0.0 && a <= b
    ensures Earned(perMinute, a) <= Earned(perMinute, b)
  {
    assert (b - a) * perMinute >= 0.0;
    assert b * perMinute - a * perMinute == (b - a) * perMinute;
  }

  ghost predicate Demands(ops: seq<Op>) {
    forall k :: 0 <= k < |ops| && ops[k].Take? ==> ops[k].n >= 0.0
  }

  // ------------------------------------------------------------------
  // The closed form
  // ------------------------------------------------------------------

  ghost predicate ClockRises(ops: seq<Op>) {
    && (forall k :: 0 <= k < |ops| ==> ops[k].Take?)
    && (forall i, k :: 0 <= i < k < |ops| ==> ops[i].at <= ops[k].at)
  }

  // What a full bucket at call j would hold at call k: the burst, and one token for
  // each perMinute-th part of 60000 milliseconds since, less what was granted.
  function Window(b: Bucket, ops: seq<Op>, j: nat, k: nat): real
    requires j <= k < |ops| && ops[j].Take? && ops[k].Take?
  {
    b.burst + (ops[k].at - ops[j].at) * b.perMinute / 60000.0 - Granted(b, ops, j, k)
  }

  lemma {:induction false} AtBasics(burst: real, perMinute: real, ops: seq<Op>, k: nat)
    requires k <= |ops| && ClockRises(ops) && Demands(ops)
    ensures
      var b := At(Full(burst, perMinute), ops, k);
      && b.burst == burst && b.perMinute == perMinute && b.tokens <= burst
      && b.lastRefillMs == (if k == 0 then None else Some(ops[k - 1].at))
  {
    if k == 0 {
    } else {
      AtBasics(burst, perMinute, ops, k - 1);
    }
  }

  lemma EarnedIs(perMinute: real, elapsed: real)
    ensures Earned(perMinute, elapsed) == elapsed * perMinute / 60000.0
  {
  }

  lemma EarnedNothing(perMinute: real)
    ensures Earned(perMinute, 0.0) == 0.0
  {
  }

  // From one call to the next: what was granted leaves, what was earned arrives,
  // and the bucket overflows at its burst.
  lemma SeenStep(burst: real, perMinute: real, ops: seq<Op>, k: nat)
    requires 0 < k < |ops| && ClockRises(ops) && Demands(ops)
    ensures SeenAt(Full(burst, perMinute), ops, k)
         == Min(burst, SeenAt(Full(burst, perMinute), ops, k - 1) - Granted(Full(burst, perMinute), ops, k - 1, k)
                       + Earned(perMinute, ops[k].at - ops[k - 1].at))
  {
    hide Earned;
    AtBasics(burst, perMinute, ops, k - 1);
    AtBasics(burst, perMinute, ops, k);
    EarnedNothing(perMinute);
  }

  lemma WindowStep(b: Bucket, ops: seq<Op>, j: nat, k: nat)
    requires j < k < |ops| && ClockRises(ops)
    ensures Window(b, ops, j, k)
         == Window(b, ops, j, k - 1) - Granted(b, ops, k - 1, k) + Earned(b.perMinute, ops[k].at - ops[k - 1].at)
  {
    hide Earned, AllowedAt, At;
    EarnedIs(b.perMinute, ops[k].at - ops[j].at);
    EarnedIs(b.perMinute, ops[k - 1].at - ops[j].at);
    EarnedAdds(b.perMinute, ops[k - 1].at - ops[j].at, ops[k].at - ops[k - 1].at);
  }

  lemma {:induction false} SeenIsLeast(burst: real, perMinute: real, ops: seq<Op>, k: nat)
    requires k < |ops| && ClockRises(ops) && Demands(ops)
    ensures forall j :: 0 <= j <= k ==>
      SeenAt(Full(burst, perMinute), ops, k) <= Window(Full(burst, perMinute), ops, j, k)
    ensures exists j ::
      0 <= j <= k && SeenAt(Full(burst, perMinute), ops, k) == Window(Full(burst, perMinute), ops, j, k)
  {
    var b := Full(burst, perMinute);
    EarnedNothing(perMinute);
    assert Window(b, ops, k, k) == burst;
    if k == 0 {
    } else {
      hide SeenAt, Window, Granted, Earned;
      SeenIsLeast(burst, perMinute, ops, k - 1);
      SeenStep(burst, perMinute, ops, k);
      forall j | 0 <= j < k
        ensures SeenAt(b, ops, k) <= Window(b, ops, j, k)
      {
        WindowStep(b, ops, j, k);
      }
      var j :| 0 <= j <= k - 1 && SeenAt(b, ops, k - 1) == Window(b, ops, j, k - 1);
      WindowStep(b, ops, j, k);
      assert SeenAt(b, ops, k) == Window(b, ops, j, k) || SeenAt(b, ops, k) == Window(b, ops, k, k);
    }
  }

  // A call is refused exactly when granting it would overdraw some window that
  // ends with it (the window j == k being the bound on a single call).
  lemma RefusedExactlyWhen(burst: real, perMinute: real, ops: seq<Op>, k: nat)
    requires k < |ops| && ClockRises(ops) && Demands(ops)
    ensures
      var b := Full(burst, perMinute);
      !AllowedAt(b, ops, k) <==>
        exists j :: 0 <= j <= k && Window(b, ops, j, k) < ops[k].n
  {
    AtBasics(burst, perMinute, ops, k);
    SeenIsLeast(burst, perMinute, ops, k);
    EarnedNothing(perMinute);
    assert Window(Full(burst, perMinute), ops, k, k) == burst;
  }

  // ------------------------------------------------------------------
  // Any clock, with drains
  // ------------------------------------------------------------------

  ghost predicate InRange(b: Bucket) {
    0.0 <= b.tokens <= b.burst && b.perMinute >= 0.0
  }

  lemma {:induction false} StaysInRange(b: Bucket, ops: seq<Op>, k: nat)
    requires InRange(b) && Demands(ops) && k <= |ops|
    ensures InRange(At(b, ops, k)) && At(b, ops, k).burst == b.burst && At(b, ops, k).perMinute == b.perMinute
  {
    if k == 0 {
    } else {
      StaysInRange(b, ops, k - 1);
      var before := At(b, ops, k - 1);
      if ops[k - 1].Take? && before.lastRefillMs.Some? && ops[k - 1].at > before.lastRefillMs.value {
        EarnedGrows(b.perMinute, 0.0, ops[k - 1].at - before.lastRefillMs.value);
        assert Earned(b.perMinute, 0.0) == 0.0;
      }
    }
  }

  // What was granted since call i plus what is left never exceeds the burst plus
  // what the refill mark has earned since.
  lemma {:induction false} Conservation(b: Bucket, ops: seq<Op>, i: nat, k: nat, latest: real)
    requires InRange(b) && Demands(ops) && i < k <= |ops| && ops[i].Take?
    requires forall m :: i <= m < k && ops[m].Take? ==> ops[m].at <= latest
    ensures
      var start, end := At(b, ops, i + 1).lastRefillMs, At(b, ops, k).lastRefillMs;
      && start.Some? && end.Some?
      && ops[i].at <= start.value <= end.value
      && (end.value <= latest || end.value == start.value)
      && Granted(b, ops, i, k) + At(b, ops, k).tokens <= b.burst + Earned(b.perMinute, end.value - start.value)
  {
    StaysInRange(b, ops, i);
    var start := At(b, ops, i + 1).lastRefillMs.value;
    EarnedNothing(b.perMinute);
    hide Earned;
    if k == i + 1 {
      assert Granted(b, ops, i, i) == 0.0;
      var r := Refill(At(b, ops, i), ops[i].at);
      assert r.tokens <= b.burst;
    } else {
      Conservation(b, ops, i, k - 1, latest);
      StaysInRange(b, ops, k - 1);
      var before := At(b, ops, k - 1);
      var mark := before.lastRefillMs.value;
      if ops[k - 1].Take? && ops[k - 1].at > mark {
        EarnedAdds(b.perMinute, mark - start, ops[k - 1].at - mark);
      }
    }
  }

  lemma WindowEarned(b: Bucket, ops: seq<Op>, i: nat, k: nat, latest: real)
    requires InRange(b) && Demands(ops) && i < k <= |ops| && ops[i].Take?
    requires forall m :: i <= m < k && ops[m].Take? ==> ops[m].at <= latest
    ensures Granted(b, ops, i, k) <= b.burst + Earned(b.perMinute, latest - ops[i].at)
  {
    Conservation(b, ops, i, k, latest);
    StaysInRange(b, ops, k);
    var start, end := At(b, ops, i + 1).lastRefillMs.value, At(b, ops, k).lastRefillMs.value;
    EarnedGrows(b.perMinute, end - start, latest - ops[i].at);
  }

  // From any call on, no stretch grants more than the burst plus what its longest
  // clock span earns, even when the clock runs backwards and drains intervene.
  lemma WindowBound(b: Bucket, ops: seq<Op>, i: nat, k: nat, latest: real)
    requires InRange(b) && Demands(ops) && i < k <= |ops| && ops[i].Take?
    requires forall m :: i <= m < k && ops[m].Take? ==> ops[m].at <= latest
    ensures Granted(b, ops, i, k) <= b.burst + (latest - ops[i].at) * b.perMinute / 60000.0
  {
    hide Earned, Granted, InRange, Demands, At;
    WindowEarned(b, ops, i, k, latest);
    EarnedIs(b.perMinute, latest - ops[i].at);
  }

  // ------------------------------------------------------------------
  // After a drain
  // ------------------------------------------------------------------

  // A call that follows a drain finds only what was earned since the last refill, and
  // nothing at all if no time has passed.
  lemma AfterDrain(b: Bucket, ops: seq<Op>, k: nat)
    requires 0 < k < |ops| && ops[k - 1].Drain? && ops[k].Take?
    ensures
      var before := At(b, ops, k - 1);
      var mark := before.lastRefillMs;
      SeenAt(b, ops, k) ==
        if mark.None? || ops[k].at <= mark.value then 0.0
        else Min(before.burst, Earned(before.perMinute, ops[k].at - mark.value))
  {
    hide Earned, Min;
    var before := At(b, ops, k - 1);
    assert At(b, ops, k) == before.(tokens := 0.0);
  }

  // One minute after a drained bucket was last refilled it holds exactly one minute's
  // worth: so many single tokens are granted at that moment, and no more.
  lemma OneMinute(b: Bucket, at: real, n: real)
    requires b.lastRefillMs == Some(at) && 0.0 <= b.perMinute <= b.burst
    ensures Refill(b.(tokens := 0.0), at + 60000.0).tokens == b.perMinute
    ensures AllowN(b.(tokens := 0.0), at + 60000.0, n).1 <==> n <= b.perMinute
  {
    EarnedIs(b.perMinute, 60000.0);
    assert 60000.0 * b.perMinute / 60000.0 == b.perMinute;
  }
}

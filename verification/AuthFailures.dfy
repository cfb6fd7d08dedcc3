/**
 server/src/auth_failure_tracker.ts: failure counters that `isLocked` deletes once
 they are stale.
 */
module AuthFailures {
  import opened Common

  datatype Entry = Entry(count: nat, firstAtMs: int)

  datatype Limits = Limits(lockoutThreshold: nat, windowMs: int)

  type Failures = map<string, Entry>

  predicate Stale(l: Limits, e: Entry, now: int) {
    now - e.firstAtMs > l.windowMs
  }

  function IsLocked(l: Limits, f: Failures, key: string, now: int): (Failures, bool) {
    if key !in f then (f, false)
    else if Stale(l, f[key], now) then (f - {key}, false)
    else (f, f[key].count >= l.lockoutThreshold)
  }

  function RecordFailure(l: Limits, f: Failures, key: string, now: int): (Failures, nat) {
    if key !in f || Stale(l, f[key], now) then (f[key := Entry(1, now)], 1)
    else (f[key := f[key].(count := f[key].count + 1)], f[key].count + 1)
  }

  class AuthFailureTracker {
    const limits: Limits
    var failures: Failures

    constructor (limits: Limits)
      ensures this.limits == limits && failures == map[]
    {
      this.limits, failures := limits, map[];
    }

    method CheckLocked(key: string, now: int) returns (locked: bool)
      modifies this
      ensures (failures, locked) == IsLocked(limits, old(failures), key, now)
    {
      if key !in failures {
        return false;
      }
      var entry := failures[key];
      if now - entry.firstAtMs > limits.windowMs {
        failures := failures - {key};
        return false;
      }
      return entry.count >= limits.lockoutThreshold;
    }

    method Record(key: string, now: int) returns (count: nat)
      modifies this
      ensures (failures, count) == RecordFailure(limits, old(failures), key, now)
    {
      if key !in failures || now - failures[key].firstAtMs > limits.windowMs {
        failures := failures[key := Entry(1, now)];
        return 1;
      }
      count := failures[key].count + 1;
      failures := failures[key := Entry(count, failures[key].firstAtMs)];
    }

    method Clear(key: string)
      modifies this
      ensures failures == old(failures) - {key}
    {
      failures := failures - {key};
    }
  }

  // ------------------------------------------------------------------
  // The clean-up cannot be observed
  // ------------------------------------------------------------------

  datatype Op = Check(key: string, at: int) | Fail(key: string, at: int) | Reset(key: string)

  datatype Reply = Locked(locked: bool) | Count(count: nat) | Done

  function Step(l: Limits, f: Failures, op: Op): (Failures, Reply) {
    match op
    case Check(key, at) => var (g, locked) := IsLocked(l, f, key, at); (g, Locked(locked))
    case Fail(key, at) => var (g, count) := RecordFailure(l, f, key, at); (g, Count(count))
    case Reset(key) => (f - {key}, Done)
  }

  // The same tracker, never deleting in isLocked.
  function StepKeeping(l: Limits, f: Failures, op: Op): (Failures, Reply) {
    if op.Check? then (f, Step(l, f, op).1) else Step(l, f, op)
  }

  function Replies(l: Limits, f: Failures, ops: seq<Op>, keeping: bool): seq<Reply>
    decreases ops
  {
    if ops == [] then []
    else
      var (g, reply) := if keeping then StepKeeping(l, f, ops[0]) else Step(l, f, ops[0]);
      [reply] + Replies(l, g, ops[1..], keeping)
  }

  // No reading is before `from`, and none before an earlier one.
  predicate ClockRises(ops: seq<Op>, from: int) {
    ops == [] || (
      if ops[0].Reset? then ClockRises(ops[1..], from)
      else from <= ops[0].at && ClockRises(ops[1..], ops[0].at))
  }

  // `g` is `f` plus entries that are stale at `now`.
  ghost predicate Cleaned(l: Limits, f: Failures, g: Failures, now: int) {
    && (forall key :: key in f ==> key in g && g[key] == f[key])
    && (forall key :: key in g && key !in f ==> Stale(l, g[key], now))
  }

  // Deleting stale counters changes no later answer of any operation.
  lemma {:induction false} CleanupInvisible(l: Limits, f: Failures, g: Failures, ops: seq<Op>, now: int)
    requires Cleaned(l, f, g, now) && ClockRises(ops, now)
    ensures Replies(l, f, ops, false) == Replies(l, g, ops, true)
    decreases ops
  {
    if ops == [] {
    } else {
      var later := if ops[0].Reset? then now else ops[0].at;
      var f', g' := Step(l, f, ops[0]).0, StepKeeping(l, g, ops[0]).0;
      assert Cleaned(l, f', g', later);
      CleanupInvisible(l, f', g', ops[1..], later);
    }
  }

  // ------------------------------------------------------------------
  // When a key is locked
  // ------------------------------------------------------------------

  // The tracker after a history of calls, oldest first.
  function After(l: Limits, h: seq<Op>): Failures {
    if h == [] then map[] else Step(l, After(l, h[..|h| - 1]), h[|h| - 1]).0
  }

  // The failure that opened the key's current window, said of the history alone: the
  // first one after a reset, and then each that comes too late for the one before.
  function Window(l: Limits, h: seq<Op>, key: string): (r: Option<nat>)
    ensures r.Some? ==> r.value < |h| && h[r.value].Fail? && h[r.value].key == key
  {
    if h == [] then None
    else
      var before, op := Window(l, h[..|h| - 1], key), h[|h| - 1];
      if op == Reset(key) then None
      else if op.Fail? && op.key == key then
        if before.Some? && op.at - h[before.value].at <= l.windowMs then before else Some(|h| - 1)
      else before
  }

  // The failures of the key from call `i` on.
  function FailuresSince(h: seq<Op>, key: string, i: nat): nat
    requires i <= |h|
  {
    if i == |h| then 0
    else FailuresSince(h[..|h| - 1], key, i)
         + (if h[|h| - 1].Fail? && h[|h| - 1].key == key then 1 else 0)
  }

  // `now` is no earlier than any reading, and the readings do not fall.
  ghost predicate ReadBefore(h: seq<Op>, now: int) {
    && (forall i :: 0 <= i < |h| && !h[i].Reset? ==> h[i].at <= now)
    && (forall i, j :: 0 <= i < j < |h| && !h[i].Reset? && !h[j].Reset? ==> h[i].at <= h[j].at)
  }

  // The entry of a key is its window; a key without one has none, or one that is over.
  ghost predicate Tracked(l: Limits, h: seq<Op>, key: string, now: int) {
    var f, w := After(l, h), Window(l, h, key);
    && (key in f ==> w.Some? && f[key] == Entry(FailuresSince(h, key, w.value), h[w.value].at))
    && (key !in f && w.Some? ==> now - h[w.value].at > l.windowMs)
  }

  lemma {:induction false} AfterTracked(l: Limits, h: seq<Op>, key: string, now: int)
    requires ReadBefore(h, now)
    ensures Tracked(l, h, key, now)
  {
    if h == [] {
    } else {
      var before, op := h[..|h| - 1], h[|h| - 1];
      AfterTracked(l, before, key, if op.Reset? then now else op.at);
      if op.Fail? && op.key == key {
        assert FailuresSince(h, key, |h| - 1) == 1;
      }
    }
  }

  // Over every history under a rising clock: a key is locked exactly while its window
  // is open and holds at least the threshold of failures.
  lemma LockedExactlyWhen(l: Limits, h: seq<Op>, key: string, now: int)
    requires ReadBefore(h, now)
    ensures
      var w := Window(l, h, key);
      IsLocked(l, After(l, h), key, now).1 <==>
        w.Some? && now - h[w.value].at <= l.windowMs && FailuresSince(h, key, w.value) >= l.lockoutThreshold
  {
    AfterTracked(l, h, key, now);
    hide After, Window, FailuresSince;
  }

  // A window that begins with the first failure since the last reset lasts as long as
  // every failure since lies within it.
  lemma {:induction false} WindowFromFirst(l: Limits, h: seq<Op>, key: string, first: nat)
    requires first < |h| && h[first].Fail? && h[first].key == key && l.windowMs >= 0
    requires forall i :: 0 <= i < first && h[i].Fail? ==> h[i].key != key
    requires forall i :: first < i < |h| ==> h[i] != Reset(key)
    requires forall i :: first < i < |h| && h[i].Fail? && h[i].key == key ==> h[i].at - h[first].at <= l.windowMs
    ensures Window(l, h, key) == Some(first)
  {
    var before := h[..|h| - 1];
    if first == |h| - 1 {
      NoWindow(l, before, key);
    } else {
      WindowFromFirst(l, before, key, first);
    }
  }

  lemma {:induction false} NoWindow(l: Limits, h: seq<Op>, key: string)
    requires forall i :: 0 <= i < |h| && h[i].Fail? ==> h[i].key != key
    ensures Window(l, h, key) == None
  {
    if h == [] {
    } else {
      NoWindow(l, h[..|h| - 1], key);
    }
  }

  // A burst of failures, with anything else in between: the key is locked from the
  // threshold on until the window that began with the first is over.
  lemma BurstLocks(l: Limits, h: seq<Op>, key: string, first: nat, now: int)
    requires ReadBefore(h, now) && l.windowMs >= 0
    requires first < |h| && h[first].Fail? && h[first].key == key
    requires forall i :: 0 <= i < first && h[i].Fail? ==> h[i].key != key
    requires forall i :: first < i < |h| ==> h[i] != Reset(key)
    requires forall i :: first < i < |h| && h[i].Fail? && h[i].key == key ==> h[i].at - h[first].at <= l.windowMs
    ensures IsLocked(l, After(l, h), key, now).1 <==>
      now - h[first].at <= l.windowMs && FailuresSince(h, key, first) >= l.lockoutThreshold
  {
    LockedExactlyWhen(l, h, key, now);
    WindowFromFirst(l, h, key, first);
  }

  // A recorded failure answers how many its window now holds.
  lemma RecordCounts(l: Limits, h: seq<Op>, key: string, now: int)
    requires ReadBefore(h, now)
    ensures
      var longer := h + [Fail(key, now)];
      var w := Window(l, longer, key);
      w.Some? && RecordFailure(l, After(l, h), key, now).1 == FailuresSince(longer, key, w.value)
  {
    var longer := h + [Fail(key, now)];
    assert longer[..|h|] == h;
    AfterTracked(l, h, key, now);
    assert FailuresSince(longer, key, |h|) == 1;
  }

  // A check forgets the key it asks about if its window is over, and nothing else.
  lemma CheckForgets(l: Limits, f: Failures, key: string, now: int)
    ensures IsLocked(l, f, key, now).0
         == if key in f && now - f[key].firstAtMs > l.windowMs then f - {key} else f
  {
  }
}

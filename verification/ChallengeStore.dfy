/**
 server/src/protocol/challenge_store.ts: single-use challenges, re-bound from the
 wildcard to the claimed identity when the response arrives.
 */
module ChallengeStore {
  import opened Common

  const WILDCARD := "*"

  datatype Challenge = Challenge(
    socketKey: string, accountId: string, deviceId: string, bytes: string, expiresAtMs: int)

  datatype ConsumeError = UnknownChallenge | Expired | WrongAttempt

  type Challenges = map<string, Challenge>

  function Sweep(c: Challenges, now: int): Challenges {
    map id | id in c && now <= c[id].expiresAtMs :: c[id]
  }

  // `id` and the bytes of `entry` are the random values drawn.
  function Issue(c: Challenges, id: string, entry: Challenge, now: int): Challenges {
    Sweep(c[id := entry], now)
  }

  function Rebind(c: Challenges, id: string, accountId: string, deviceId: string, now: int): (Challenges, bool) {
    if id !in c || now > c[id].expiresAtMs then (c, false)
    else if c[id].accountId != WILDCARD || c[id].deviceId != WILDCARD then (c, false)
    else (c[id := c[id].(accountId := accountId, deviceId := deviceId)], true)
  }

  function Consume(c: Challenges, id: string, socketKey: string, accountId: string, deviceId: string, now: int)
    : (Challenges, Outcome<string, ConsumeError>)
  {
    if id !in c then (c, Err(UnknownChallenge))
    else if now > c[id].expiresAtMs then (c - {id}, Err(Expired))
    else if c[id].socketKey != socketKey || c[id].accountId != accountId || c[id].deviceId != deviceId
    then (c - {id}, Err(WrongAttempt))
    else (c - {id}, Ok(c[id].bytes))
  }

  class ChallengeStore {
    const ttlMs: int
    var challenges: Challenges

    constructor (ttlMs: int)
      ensures this.ttlMs == ttlMs && challenges == map[]
    {
      this.ttlMs, challenges := ttlMs, map[];
    }

    method IssueChallenge(id: string, bytes: string, socketKey: string, accountId: string, deviceId: string, now: int)
      returns (expiresAtMs: int)
      modifies this
      ensures expiresAtMs == now + ttlMs
      ensures challenges
           == Issue(old(challenges), id, Challenge(socketKey, accountId, deviceId, bytes, expiresAtMs), now)
    {
      expiresAtMs := now + ttlMs;
      challenges := challenges[id := Challenge(socketKey, accountId, deviceId, bytes, expiresAtMs)];
      SweepExpired(now);
    }

    method RebindChallenge(id: string, accountId: string, deviceId: string, now: int) returns (ok: bool)
      modifies this
      ensures (challenges, ok) == Rebind(old(challenges), id, accountId, deviceId, now)
    {
      if id !in challenges {
        return false;
      }
      var entry := challenges[id];
      if now > entry.expiresAtMs {
        return false;
      }
      if entry.accountId != WILDCARD || entry.deviceId != WILDCARD {
        return false;
      }
      challenges := challenges[id := entry.(accountId := accountId, deviceId := deviceId)];
      return true;
    }

    method ConsumeChallenge(id: string, socketKey: string, accountId: string, deviceId: string, now: int)
      returns (r: Outcome<string, ConsumeError>)
      modifies this
      ensures (challenges, r) == Consume(old(challenges), id, socketKey, accountId, deviceId, now)
    {
      if id !in challenges {
        return Err(UnknownChallenge);
      }
      var entry := challenges[id];
      challenges := challenges - {id};
      if now > entry.expiresAtMs {
        return Err(Expired);
      }
      if entry.socketKey != socketKey || entry.accountId != accountId || entry.deviceId != deviceId {
        return Err(WrongAttempt);
      }
      return Ok(entry.bytes);
    }

    method SweepExpired(now: int)
      modifies this
      ensures challenges == Sweep(old(challenges), now)
    {
      var rest := challenges.Keys;
      while rest != {}
        invariant rest <= challenges.Keys <= old(challenges).Keys
        invariant forall id :: id in challenges ==> challenges[id] == old(challenges)[id]
        invariant forall id :: id in old(challenges) && id !in rest ==>
          (id in challenges <==> now <= old(challenges)[id].expiresAtMs)
        decreases rest
      {
        var id :| id in rest;
        rest := rest - {id};
        if now > challenges[id].expiresAtMs {
          challenges := challenges - {id};
        }
      }
    }
  }

  // ------------------------------------------------------------------
  // The sweep cannot be observed
  // ------------------------------------------------------------------

  datatype Op =
    | Issuing(id: string, entry: Challenge, at: int)
    | Rebinding(id: string, accountId: string, deviceId: string, at: int)
    | Consuming(id: string, socketKey: string, accountId: string, deviceId: string, at: int)

  datatype Reply = Issued | Rebound(ok: bool) | Consumed(r: Outcome<string, ConsumeError>)

  function Step(c: Challenges, op: Op, sweeping: bool): (Challenges, Reply) {
    match op
    case Issuing(id, entry, at) => (if sweeping then Issue(c, id, entry, at) else c[id := entry], Issued)
    case Rebinding(id, a, d, at) => var (c', ok) := Rebind(c, id, a, d, at); (c', Rebound(ok))
    case Consuming(id, s, a, d, at) => var (c', r) := Consume(c, id, s, a, d, at); (c', Consumed(r))
  }

  function Replies(c: Challenges, ops: seq<Op>, sweeping: bool): (r: seq<Reply>)
    ensures |r| == |ops|
    decreases ops
  {
    if ops == [] then []
    else
      var (c', reply) := Step(c, ops[0], sweeping);
      [reply] + Replies(c', ops[1..], sweeping)
  }

  predicate ClockRises(ops: seq<Op>, from: int) {
    ops == [] || (from <= ops[0].at && ClockRises(ops[1..], ops[0].at))
  }

  // Equal, except that an expired challenge may be reported as unknown.
  predicate SameReply(swept: Reply, kept: Reply) {
    swept == kept || (swept == Consumed(Err(UnknownChallenge)) && kept == Consumed(Err(Expired)))
  }

  // `kept` is `swept` plus entries that have expired at `now`.
  ghost predicate Swept(swept: Challenges, kept: Challenges, now: int) {
    && (forall id :: id in swept ==> id in kept && kept[id] == swept[id])
    && (forall id :: id in kept && id !in swept ==> now > kept[id].expiresAtMs)
  }

  lemma StepKeepsSwept(swept: Challenges, kept: Challenges, op: Op, now: int)
    requires Swept(swept, kept, now) && now <= op.at
    ensures Swept(Step(swept, op, true).0, Step(kept, op, false).0, op.at)
    ensures SameReply(Step(swept, op, true).1, Step(kept, op, false).1)
  {
  }

  // A store that sweeps answers every call sequence as one that never does; only
  // the reason of a rejection may differ.
  lemma {:induction false} SweepInvisible(swept: Challenges, kept: Challenges, ops: seq<Op>, now: int)
    requires Swept(swept, kept, now) && ClockRises(ops, now)
    ensures forall k :: 0 <= k < |ops| ==>
      SameReply(Replies(swept, ops, true)[k], Replies(kept, ops, false)[k])
    decreases ops
  {
    if ops == [] {
    } else {
      StepKeepsSwept(swept, kept, ops[0], now);
      var (swept', kept') := (Step(swept, ops[0], true).0, Step(kept, ops[0], false).0);
      SweepInvisible(swept', kept', ops[1..], ops[0].at);
      forall k | 0 <= k < |ops|
        ensures SameReply(Replies(swept, ops, true)[k], Replies(kept, ops, false)[k])
      {
        assert k > 0 ==> SameReply(Replies(swept', ops[1..], true)[k - 1], Replies(kept', ops[1..], false)[k - 1]);
      }
    }
  }

  // After an issue, exactly the challenges still in time are stored, the new one among
  // them.
  lemma IssueLeavesLive(c: Challenges, id: string, entry: Challenge, now: int)
    ensures forall x :: x in Issue(c, id, entry, now) <==> x in c[id := entry] && now <= c[id := entry][x].expiresAtMs
    ensures forall x :: x in Issue(c, id, entry, now) ==> Issue(c, id, entry, now)[x] == c[id := entry][x]
  {
  }

  // Consuming burns the challenge it names and no other, and says why it refuses: the
  // time is judged before the claims.
  lemma ConsumeExactlyWhen(c: Challenges, id: string, socketKey: string, accountId: string, deviceId: string, now: int)
    ensures
      var (after, r) := Consume(c, id, socketKey, accountId, deviceId, now);
      && after == c - {id}
      && (r == Err(UnknownChallenge) <==> id !in c)
      && (r == Err(Expired) <==> id in c && now > c[id].expiresAtMs)
      && (r.Ok? <==> id in c && now <= c[id].expiresAtMs && c[id].socketKey == socketKey
                     && c[id].accountId == accountId && c[id].deviceId == deviceId)
      && (r.Ok? ==> r.value == c[id].bytes)
  {
  }
}

/**
 server/src/protocol/session_registry.ts: live sessions by id, one per device.
 */
module SessionRegistry {

  datatype Session = Session(
    sessionId: string, socketKey: string, accountId: string, deviceId: string, novaId: string,
    createdAtMs: int, expiresAtMs: int)

  datatype Validation = Valid | Invalid | Expired

  type Sessions = map<string, Session>

  ghost predicate Keyed(s: Sessions) {
    forall id :: id in s ==> s[id].sessionId == id
  }

  function OfDevice(s: Sessions, deviceId: string): set<Session> {
    set id | id in s && s[id].deviceId == deviceId :: s[id]
  }

  function WithoutDevice(s: Sessions, deviceId: string): Sessions {
    map id | id in s && s[id].deviceId != deviceId :: s[id]
  }

  // Evicts the device's sessions, then adds the new one.
  function Create(s: Sessions, session: Session): Sessions {
    WithoutDevice(s, session.deviceId)[session.sessionId := session]
  }

  function Validate(s: Sessions, id: string, socketKey: string, now: int, ttlMs: int): (Sessions, Validation) {
    if id !in s then (s, Invalid)
    else if now > s[id].expiresAtMs then (s - {id}, Expired)
    else if s[id].socketKey != socketKey then (s, Invalid)
    else (s[id := s[id].(expiresAtMs := now + ttlMs)], Valid)
  }

  class SessionRegistry {
    const sessionTtlMs: int
    var sessions: Sessions

    constructor (sessionTtlMs: int)
      ensures this.sessionTtlMs == sessionTtlMs && sessions == map[]
    {
      this.sessionTtlMs, sessions := sessionTtlMs, map[];
    }

    // `sessionId` is the random id drawn.
    method CreateSession(sessionId: string, socketKey: string, accountId: string, deviceId: string,
                         novaId: string, now: int)
      returns (session: Session, evicted: seq<Session>)
      requires Keyed(sessions)
      modifies this
      ensures session == Session(sessionId, socketKey, accountId, deviceId, novaId, now, now + sessionTtlMs)
      ensures sessions == Create(old(sessions), session) && Keyed(sessions)
      ensures (set e | e in evicted) == OfDevice(old(sessions), deviceId)
      ensures |evicted| == |OfDevice(old(sessions), deviceId)|
    {
      evicted := RemoveByDevice(deviceId);
      session := Session(sessionId, socketKey, accountId, deviceId, novaId, now, now + sessionTtlMs);
      sessions := sessions[sessionId := session];
    }

    method ValidateSession(sessionId: string, socketKey: string, now: int) returns (r: Validation)
      modifies this
      ensures (sessions, r) == Validate(old(sessions), sessionId, socketKey, now, sessionTtlMs)
    {
      if sessionId !in sessions {
        return Invalid;
      }
      var session := sessions[sessionId];
      if now > session.expiresAtMs {
        sessions := sessions - {sessionId};
        return Expired;
      }
      if session.socketKey != socketKey {
        return Invalid;
      }
      sessions := sessions[sessionId := session.(expiresAtMs := now + sessionTtlMs)];
      return Valid;
    }

    method Revoke(sessionId: string)
      modifies this
      ensures sessions == old(sessions) - {sessionId}
    {
      sessions := sessions - {sessionId};
    }

    // evictByDevice and revokeByDevice: collect, then delete by session id.
    method RemoveByDevice(deviceId: string) returns (removed: seq<Session>)
      requires Keyed(sessions)
      modifies this
      ensures sessions == WithoutDevice(old(sessions), deviceId)
      ensures (set e | e in removed) == OfDevice(old(sessions), deviceId)
      ensures |removed| == |OfDevice(old(sessions), deviceId)|
    {
      removed := Collect(deviceId);
      for i := 0 to |removed|
        invariant forall id :: id in sessions ==> id in old(sessions) && sessions[id] == old(sessions)[id]
        invariant forall id :: id in old(sessions) ==>
          (id !in sessions <==> exists k :: 0 <= k < i && removed[k].sessionId == id)
      {
        sessions := sessions - {removed[i].sessionId};
      }
      assert forall e :: e in removed <==> e in OfDevice(old(sessions), deviceId);
      forall id | id in old(sessions)
        ensures id in sessions <==> old(sessions)[id].deviceId != deviceId
      {
        if old(sessions)[id].deviceId == deviceId {
          assert old(sessions)[id] in removed;
        }
      }
    }

    method Collect(deviceId: string) returns (found: seq<Session>)
      requires Keyed(sessions)
      ensures forall e :: e in found <==>
        e.sessionId in sessions && sessions[e.sessionId] == e && e.deviceId == deviceId
      ensures |found| == |OfDevice(sessions, deviceId)|
    {
      found := [];
      var rest := sessions.Keys;
      while rest != {}
        invariant rest <= sessions.Keys
        invariant forall e :: e in found ==> e.sessionId in sessions && sessions[e.sessionId] == e
        invariant forall e :: e in found ==> e.sessionId !in rest && e.deviceId == deviceId
        invariant forall id :: id in sessions && id !in rest && sessions[id].deviceId == deviceId ==>
          sessions[id] in found
        invariant forall i, j :: 0 <= i < j < |found| ==> found[i].sessionId != found[j].sessionId
        decreases rest
      {
        var id :| id in rest;
        rest := rest - {id};
        if sessions[id].deviceId == deviceId {
          found := found + [sessions[id]];
        }
      }
      DistinctCount(found);
      assert (set e | e in found) == OfDevice(sessions, deviceId);
    }
  }

  lemma {:induction false} DistinctCount(s: seq<Session>)
    requires forall i, j :: 0 <= i < j < |s| ==> s[i].sessionId != s[j].sessionId
    ensures |set e | e in s| == |s|
  {
    if s == [] {
    } else {
      var n := |s| - 1;
      DistinctCount(s[..n]);
      assert s == s[..n] + [s[n]];
      var before := set e | e in s[..n];
      assert s[n] !in before;
      assert (set e | e in s) == before + {s[n]};
    }
  }
}

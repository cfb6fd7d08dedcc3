/**
 server/src/protocol/device_registry.ts and server/src/protocol/handshake_engine.ts:
 the ordered checks that turn an auth.response into a session.
 */
module Handshake {
  import opened Common
  import opened ChallengeStore
  import opened SessionRegistry

  datatype DeviceStatus = Pending | Active | Revoked

  datatype DeviceRecord = DeviceRecord(
    accountId: string, deviceId: string, novaId: string, publicKey: string, status: DeviceStatus)

  type Devices = map<string, DeviceRecord>

  function Register(devices: Devices, record: DeviceRecord): Devices {
    devices[record.deviceId := record]
  }

  function RevokeDevice(devices: Devices, deviceId: string): Devices {
    if deviceId in devices then devices[deviceId := devices[deviceId].(status := Revoked)] else devices
  }

  class DeviceRegistry {
    var records: Devices

    constructor ()
      ensures records == map[]
    {
      records := map[];
    }

    method RegisterDevice(record: DeviceRecord)
      modifies this
      ensures records == Register(old(records), record)
    {
      records := records[record.deviceId := record];
    }

    method Revoke(deviceId: string) returns (revoked: bool)
      modifies this
      ensures records == RevokeDevice(old(records), deviceId) && (revoked <==> deviceId in old(records))
    {
      if deviceId !in records {
        return false;
      }
      records := records[deviceId := records[deviceId].(status := Revoked)];
      return true;
    }
  }

  // ------------------------------------------------------------------
  // auth.response
  // ------------------------------------------------------------------

  // Malformed: a field is missing or not a string.
  datatype AuthPayload =
    | Malformed
    | AuthResponse(challengeId: string, signature: string, accountId: string, deviceId: string, novaId: string)

  // The fields that the signature covers.
  datatype Canonical = Canonical(
    accountId: string, deviceId: string, novaId: string, challengeId: string, challenge: string)

  // Signature verification: message, signature, registered public key.
  type Verifier = (Canonical, string, string) -> bool

  datatype Rejection = BadPayload | DeviceUnknownOrRevoked | ChallengeRejected | BadSignature

  datatype Stores = Stores(devices: Devices, challenges: Challenges, sessions: Sessions)

  predicate DeviceFits(devices: Devices, p: AuthPayload)
    requires p.AuthResponse?
  {
    && p.deviceId in devices
    && devices[p.deviceId].status == Active
    && devices[p.deviceId].accountId == p.accountId
    && devices[p.deviceId].novaId == p.novaId
  }

  // Re-binds the wildcard challenge to the claimed identity and consumes it.
  function TakeChallenge(c: Challenges, p: AuthPayload, socketKey: string, now: int)
    : (Challenges, Outcome<string, ConsumeError>)
    requires p.AuthResponse?
  {
    Consume(Rebind(c, p.challengeId, p.accountId, p.deviceId, now).0,
            p.challengeId, socketKey, p.accountId, p.deviceId, now)
  }

  predicate Signed(verify: Verifier, devices: Devices, p: AuthPayload, challenge: string)
    requires p.AuthResponse? && p.deviceId in devices
  {
    verify(Canonical(p.accountId, p.deviceId, p.novaId, p.challengeId, challenge),
           p.signature, devices[p.deviceId].publicKey)
  }

  function NewSession(p: AuthPayload, socketKey: string, sessionId: string, now: int, ttlMs: int): Session
    requires p.AuthResponse?
  {
    Session(sessionId, socketKey, p.accountId, p.deviceId, p.novaId, now, now + ttlMs)
  }

  // handleAuthResponse
  function Handle(verify: Verifier, ttlMs: int, s: Stores, socketKey: string, p: AuthPayload, sessionId: string,
                  now: int)
    : (Stores, Outcome<Session, Rejection>)
  {
    if p.Malformed? then (s, Err(BadPayload))
    else if !DeviceFits(s.devices, p) then (s, Err(DeviceUnknownOrRevoked))
    else
      var (challenges, taken) := TakeChallenge(s.challenges, p, socketKey, now);
      var s1 := s.(challenges := challenges);
      if taken.Err? then (s1, Err(ChallengeRejected))
      else if !Signed(verify, s.devices, p, taken.value) then (s1, Err(BadSignature))
      else
        var session := NewSession(p, socketKey, sessionId, now, ttlMs);
        (s1.(sessions := Create(s1.sessions, session)), Ok(session))
  }

  class HandshakeEngine {
    const devices: DeviceRegistry
    const challenges: ChallengeStore
    const sessions: SessionRegistry

    constructor (devices: DeviceRegistry, challenges: ChallengeStore, sessions: SessionRegistry)
      ensures this.devices == devices && this.challenges == challenges && this.sessions == sessions
    {
      this.devices, this.challenges, this.sessions := devices, challenges, sessions;
    }

    ghost function Abs(): Stores
      reads devices, challenges, sessions
    {
      Stores(devices.records, challenges.challenges, sessions.sessions)
    }

    method HandleAuthResponse(verify: Verifier, socketKey: string, p: AuthPayload, sessionId: string, now: int)
      returns (r: Outcome<Session, Rejection>, evicted: seq<Session>)
      requires Keyed(sessions.sessions)
      modifies challenges, sessions
      ensures (Abs(), r) == Handle(verify, sessions.sessionTtlMs, old(Abs()), socketKey, p, sessionId, now)
      ensures Keyed(sessions.sessions)
      ensures (set e | e in evicted) == if r.Ok? then OfDevice(old(sessions.sessions), p.deviceId) else {}
    {
      evicted := [];
      if p.Malformed? {
        return Err(BadPayload), evicted;
      }
      if p.deviceId !in devices.records {
        return Err(DeviceUnknownOrRevoked), evicted;
      }
      var device := devices.records[p.deviceId];
      if device.status != Active || device.accountId != p.accountId || device.novaId != p.novaId {
        return Err(DeviceUnknownOrRevoked), evicted;
      }
      var _ := challenges.RebindChallenge(p.challengeId, p.accountId, p.deviceId, now);
      var taken := challenges.ConsumeChallenge(p.challengeId, socketKey, p.accountId, p.deviceId, now);
      if taken.Err? {
        return Err(ChallengeRejected), evicted;
      }
      var message := Canonical(p.accountId, p.deviceId, p.novaId, p.challengeId, taken.value);
      if !verify(message, p.signature, device.publicKey) {
        return Err(BadSignature), evicted;
      }
      var session;
      session, evicted := sessions.CreateSession(sessionId, socketKey, p.accountId, p.deviceId, p.novaId, now);
      return Ok(session), evicted;
    }
  }

  // ------------------------------------------------------------------
  // When a handshake succeeds
  // ------------------------------------------------------------------

  // A handshake succeeds exactly when the device is active under the claimed
  // identity, the challenge is live and was issued to this socket (unbound or
  // already bound to this identity), and the registered key signed it. Success
  // or not, a challenge that reached step 3 is gone.
  lemma SucceedsExactlyWhen(verify: Verifier, ttlMs: int, s: Stores, socketKey: string, p: AuthPayload,
                            sessionId: string, now: int)
    ensures
      Handle(verify, ttlMs, s, socketKey, p, sessionId, now).1.Ok? <==>
        && p.AuthResponse?
        && p.deviceId in s.devices && p.challengeId in s.challenges
        && var d, c := s.devices[p.deviceId], s.challenges[p.challengeId];
           && d.status == Active && d.accountId == p.accountId && d.novaId == p.novaId
           && c.socketKey == socketKey
           && now <= c.expiresAtMs
           && ((c.accountId == "*" && c.deviceId == "*")
               || (c.accountId == p.accountId && c.deviceId == p.deviceId))
           && verify(Canonical(p.accountId, p.deviceId, p.novaId, p.challengeId, c.bytes), p.signature, d.publicKey)
    // Why it is refused: the payload first, then the device, then the challenge.
    ensures
      var r := Handle(verify, ttlMs, s, socketKey, p, sessionId, now).1;
      && (r == Err(BadPayload) <==> p.Malformed?)
      && (r == Err(DeviceUnknownOrRevoked) <==>
            p.AuthResponse? && !(p.deviceId in s.devices && s.devices[p.deviceId].status == Active
                                 && s.devices[p.deviceId].accountId == p.accountId
                                 && s.devices[p.deviceId].novaId == p.novaId))
      && (r == Err(BadSignature) ==> p.challengeId in s.challenges && now <= s.challenges[p.challengeId].expiresAtMs)
    ensures p.AuthResponse? && DeviceFits(s.devices, p) ==>
      p.challengeId !in Handle(verify, ttlMs, s, socketKey, p, sessionId, now).0.challenges
  {
  }
}

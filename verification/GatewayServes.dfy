/**
 What the connection side gives its clients over every run: a proper handshake
 succeeds, a login opens the rooms of its account, and presence is what was last
 stored while a socket lives.
 */
module GatewayServes {
  import opened Common
  import ChallengeStore
  import opened SessionRegistry
  import opened Handshake
  import opened MemoryDirectory
  import opened RealtimeStore
  import opened Gateway
  import opened GatewayRun
  import opened GatewayLife

  // ------------------------------------------------------------------
  // A proper handshake succeeds
  // ------------------------------------------------------------------

  // The challenge of connection `c` is stored as it was issued.
  ghost predicate ChallengeWaits(cfg: Config, g: Gateway, c: Action)
    requires c.Connecting?
  {
    && c.challengeId in g.challenges
    && g.challenges[c.challengeId] == ChallengeStore.Challenge(c.socket, "*", "*", c.bytes, c.now + cfg.challengeTtlMs)
  }

  // The action leaves that challenge alone: it does not name it, and it is no
  // connection after its time.
  predicate Spares(cfg: Config, a: Action, c: Action)
    requires c.Connecting?
  {
    && (a.Authenticating? && a.p.AuthResponse? ==> a.p.challengeId != c.challengeId)
    && (a.Connecting? ==> a.challengeId != c.challengeId && a.now <= c.now + cfg.challengeTtlMs)
  }

  lemma ConnectIssues(cfg: Config, g: Gateway, c: Action)
    requires c.Connecting? && cfg.challengeTtlMs >= 0
    ensures ChallengeWaits(cfg, Apply(cfg, g, c), c)
  {
  }

  lemma StepSpares(cfg: Config, t: Trace, a: Action, c: Action)
    requires c.Connecting? && ChallengeWaits(cfg, t.g, c) && Spares(cfg, a, c)
    ensures ChallengeWaits(cfg, Step(cfg, t, a).g, c)
  {
    StepIsApply(cfg, t, a);
    hide Step;
    if a.Authenticating? {
      if Succeeds(cfg, t.g, a) {
        SuccessIs(cfg, t.g, a);
      } else {
        FailureOnlyBurns(cfg, t.g, a);
      }
      hide Apply, Succeeds;
    } else if a.Connecting? {
    } else {
      ChallengesAlone(cfg, t.g, a);
    }
  }

  lemma ChallengesAlone(cfg: Config, g: Gateway, a: Action)
    requires !a.Authenticating? && !a.Connecting?
    ensures Apply(cfg, g, a).challenges == g.challenges
  {
    if a.Touching? || a.Opening? || a.OpeningAll? || a.Presenting? {
      RequireShrinks(cfg, g, a.socket, a.now);
    }
    hide RequireSession, HasLiveSocket, ConversationRooms;
  }

  lemma {:induction false} RunSpares(cfg: Config, t: Trace, actions: seq<Action>, c: Action)
    requires c.Connecting? && ChallengeWaits(cfg, t.g, c)
    requires forall k :: 0 <= k < |actions| ==> Spares(cfg, actions[k], c)
    ensures ChallengeWaits(cfg, Run(cfg, t, actions).g, c)
    decreases actions
  {
    hide ChallengeWaits, Spares, Step;
    if actions == [] {
    } else {
      StepSpares(cfg, t, actions[0], c);
      RunSpares(cfg, Step(cfg, t, actions[0]), actions[1..], c);
    }
  }

  // The claims are those of an active device, whose key signed them with the
  // challenge of connection `c`.
  ghost predicate ProperAnswer(cfg: Config, g: Gateway, a: Action, c: Action)
    requires c.Connecting?
  {
    && a.Authenticating? && a.admitted && a.p.AuthResponse?
    && a.socket == c.socket && a.p.challengeId == c.challengeId && a.now <= c.now + cfg.challengeTtlMs
    && a.p.deviceId in g.devices
    && var d := g.devices[a.p.deviceId];
       && d.status == Active && d.accountId == a.p.accountId && d.novaId == a.p.novaId
       && cfg.verify(Canonical(a.p.accountId, a.p.deviceId, a.p.novaId, c.challengeId, c.bytes),
                     a.p.signature, d.publicKey)
  }

  // Over every run: a connection that answers its own challenge properly and in time
  // is let in, whatever else happened in between.
  lemma HandshakeCompletes(cfg: Config, t: Trace, c: Action, between: seq<Action>, a: Action)
    requires c.Connecting? && cfg.challengeTtlMs >= 0
    requires forall k :: 0 <= k < |between| ==> Spares(cfg, between[k], c)
    requires ProperAnswer(cfg, Run(cfg, Step(cfg, t, c), between).g, a, c)
    ensures Succeeds(cfg, Run(cfg, Step(cfg, t, c), between).g, a)
  {
    ConnectIssues(cfg, t.g, c);
    StepIsApply(cfg, t, c);
    RunSpares(cfg, Step(cfg, t, c), between, c);
    var g := Run(cfg, Step(cfg, t, c), between).g;
    hide Run, Step;
    SucceedsExactlyWhen(cfg.verify, cfg.sessionTtlMs, Stores(g.devices, g.challenges, g.sessions),
                        a.socket, a.p, a.sessionId, a.now);
    hide Handle;
  }

  // ------------------------------------------------------------------
  // Devices
  // ------------------------------------------------------------------

  predicate ChangesDevice(a: Action, d: string) {
    (a.Registering? && a.device.deviceId == d) || (a.MarkingRevoked? && a.deviceId == d)
  }

  function DeviceOf(g: Gateway, d: string): Option<DeviceRecord> {
    if d in g.devices then Some(g.devices[d]) else None
  }

  // A registration stores its record, a revocation only changes the status of a known
  // device, and nothing else touches a device.
  lemma StepDevice(cfg: Config, t: Trace, a: Action, d: string)
    ensures DeviceOf(Step(cfg, t, a).g, d) ==
      if a.Registering? && a.device.deviceId == d then Some(a.device)
      else if a.MarkingRevoked? && a.deviceId == d && d in t.g.devices then Some(t.g.devices[d].(status := Revoked))
      else DeviceOf(t.g, d)
  {
    StepIsApply(cfg, t, a);
    hide Step;
    if a.Authenticating? {
      if Succeeds(cfg, t.g, a) {
        SuccessIs(cfg, t.g, a);
      } else {
        FailureOnlyBurns(cfg, t.g, a);
      }
      hide Apply, Succeeds;
    } else if a.Touching? || a.Opening? || a.OpeningAll? || a.Presenting? {
      RequireShrinks(cfg, t.g, a.socket, a.now);
      hide RequireSession, ConversationRooms;
    }
  }

  lemma {:induction false} DeviceStays(cfg: Config, t: Trace, actions: seq<Action>, d: string)
    requires forall k :: 0 <= k < |actions| ==> !ChangesDevice(actions[k], d)
    ensures DeviceOf(Run(cfg, t, actions).g, d) == DeviceOf(t.g, d)
    decreases actions
  {
    hide DeviceOf, Step;
    if actions == [] {
    } else {
      assert !ChangesDevice(actions[0], d);
      StepDevice(cfg, t, actions[0], d);
      DeviceStays(cfg, Step(cfg, t, actions[0]), actions[1..], d);
    }
  }

  // ------------------------------------------------------------------
  // What a login opens
  // ------------------------------------------------------------------

  // The socket is bound to a session with the claims it was let in with, registered
  // for a full period, and is in the rooms of its account, its device and each
  // conversation of which the account is a member at that moment.
  lemma LoginOpens(cfg: Config, t: Trace, a: Action)
    requires Inv(t) && Enabled(t, a) && Succeeds(cfg, t.g, a)
    ensures a.Authenticating? && a.p.AuthResponse?
    ensures
      var g := Step(cfg, t, a).g;
      && g.Bound(a.socket)
         == Some(Session(a.sessionId, a.socket, a.p.accountId, a.p.deviceId, a.p.novaId, a.now,
                         a.now + cfg.sessionTtlMs))
      && Registered(g, a.socket) == g.Bound(a.socket)
      && (a.socket, AccountRoom(a.p.accountId)) in g.rooms && (a.socket, DeviceRoom(a.p.deviceId)) in g.rooms
      && forall c :: t.g.directory.IsMember(c, a.p.accountId) ==> (a.socket, ConversationRoom(c)) in g.rooms
  {
    hide Apply, Verdict, Inv;
    StepIsApply(cfg, t, a);
    SuccessIs(cfg, t.g, a);
    var g, s := Step(cfg, t, a).g, SuccessOf(cfg, t.g, a).session;
    hide Step, Apply, Succeeds, SuccessOf, HandshakeInv, SessionsInv, PresenceInv, Enabled;
    forall c | t.g.directory.IsMember(c, a.p.accountId)
      ensures (a.socket, ConversationRoom(c)) in g.rooms
    {
      MembersListed(t, c, a.p.accountId);
      assert ConversationRoom(c) in RoomsOf(t.g.directory, s);
    }
  }

  lemma MembersListed(t: Trace, c: string, account: string)
    requires Inv(t)
    ensures t.g.directory.IsMember(c, account) <==> c in t.g.directory.ConversationsOf(account)
  {
    hide HandshakeInv, SessionsInv, PresenceInv;
  }

  // The socket passes the guard with an event that joins the conversation's room.
  predicate UsesRoom(cfg: Config, g: Gateway, a: Action, c: string) {
    && (a.Opening? || a.OpeningAll?) && a.proceeds && RequireSession(cfg, g, a.socket, a.now).1.Some?
    && if a.Opening? then a.c == c && g.directory.IsMember(c, g.Bound(a.socket).value.accountId)
       else c in g.directory.ConversationsOf(g.Bound(a.socket).value.accountId)
  }

  // The action lets the socket into the room.
  predicate Enters(cfg: Config, g: Gateway, a: Action, m: (string, Room)) {
    || (Succeeds(cfg, g, a) && a.socket == m.0
        && match m.1
           case AccountRoom(account) => account == a.p.accountId
           case DeviceRoom(deviceId) => deviceId == a.p.deviceId
           case ConversationRoom(c) => c in g.directory.ConversationsOf(a.p.accountId))
    || (m.1.ConversationRoom? && UsesRoom(cfg, g, a, m.1.c) && a.socket == m.0)
  }

  // A socket enters rooms by its login and by using a conversation of its account, and
  // leaves them only with its connection.
  lemma StepRoomsExactlyWhen(cfg: Config, t: Trace, a: Action, m: (string, Room))
    ensures m in Step(cfg, t, a).g.rooms <==>
      (m in t.g.rooms && !(a.Disconnecting? && a.socket == m.0))
      || Enters(cfg, t.g, a, m)
  {
    StepIsApply(cfg, t, a);
    hide Step;
    if a.Authenticating? {
      if Succeeds(cfg, t.g, a) {
        SuccessIs(cfg, t.g, a);
      } else {
        FailureOnlyBurns(cfg, t.g, a);
      }
      hide Apply, Succeeds, Verdict;
    } else if a.Opening? || a.OpeningAll? {
      NotSucceeds(cfg, t.g, a);
      UseEnters(cfg, t.g, a, m);
      hide Apply, Succeeds;
    } else {
      NotSucceeds(cfg, t.g, a);
      OtherRooms(cfg, t.g, a, m);
      hide Apply, Succeeds;
    }
  }

  lemma UseEnters(cfg: Config, g: Gateway, a: Action, m: (string, Room))
    requires a.Opening? || a.OpeningAll?
    ensures m in Apply(cfg, g, a).rooms <==>
      m in g.rooms || (m.1.ConversationRoom? && UsesRoom(cfg, g, a, m.1.c) && a.socket == m.0)
  {
    RequireShrinks(cfg, g, a.socket, a.now);
    hide RequireSession;
    var (g1, session) := RequireSession(cfg, g, a.socket, a.now);
    if a.Opening? {
      assert Apply(cfg, g, a) == OpenConversation(cfg, g, a.socket, a.c, a.proceeds, a.now);
    } else {
      assert Apply(cfg, g, a) == OpenAll(cfg, g, a.socket, a.proceeds, a.now);
      if session.Some? {
        assert forall c :: c in g.directory.ConversationsOf(session.value.accountId) <==>
          ConversationRoom(c) in ConversationRooms(g1.directory, session.value.accountId);
      }
    }
  }

  lemma OtherRooms(cfg: Config, g: Gateway, a: Action, m: (string, Room))
    requires !a.Authenticating? && !a.Opening? && !a.OpeningAll?
    ensures m in Apply(cfg, g, a).rooms <==> m in g.rooms && !(a.Disconnecting? && a.socket == m.0)
  {
    if a.Touching? || a.Presenting? {
      RequireShrinks(cfg, g, a.socket, a.now);
    }
    hide RequireSession, HasLiveSocket;
  }

  lemma {:induction false} RoomStays(cfg: Config, t: Trace, actions: seq<Action>, m: (string, Room))
    requires m in t.g.rooms
    requires forall k :: 0 <= k < |actions| ==> !(actions[k].Disconnecting? && actions[k].socket == m.0)
    ensures m in Run(cfg, t, actions).g.rooms
    decreases actions
  {
    hide Step;
    if actions == [] {
    } else {
      StepRoomsExactlyWhen(cfg, t, actions[0], m);
      RoomStays(cfg, Step(cfg, t, actions[0]), actions[1..], m);
    }
  }

  // Over every run: from its login until it disconnects, a socket is reached by every
  // conversation-wide packet, not its own, of the conversations its account was in.
  lemma MembersReached(cfg: Config, t: Trace, a: Action, actions: seq<Action>, c: string, emitter: string)
    requires Inv(t) && Enabled(t, a) && Succeeds(cfg, t.g, a)
    requires forall k :: 0 <= k < |actions| ==> !(actions[k].Disconnecting? && actions[k].socket == a.socket)
    requires t.g.directory.IsMember(c, a.p.accountId) && emitter != a.socket
    ensures a.socket in Recipients(Run(cfg, Step(cfg, t, a), actions).g, c, emitter)
  {
    LoginOpens(cfg, t, a);
    RoomStays(cfg, Step(cfg, t, a), actions, (a.socket, ConversationRoom(c)));
    assert (a.socket, ConversationRoom(c)) in Run(cfg, Step(cfg, t, a), actions).g.rooms;
    hide Run, Step, Inv, Succeeds;
  }

  // ------------------------------------------------------------------
  // Presence
  // ------------------------------------------------------------------

  function PresenceOf(g: Gateway, account: string): Option<PresenceRecord> {
    if account in g.presence then Some(g.presence[account]) else None
  }

  // An update that is let through by the guard.
  predicate Updates(cfg: Config, g: Gateway, a: Action, account: string) {
    && a.Presenting? && a.proceeds && RequireSession(cfg, g, a.socket, a.now).1.Some?
    && g.Bound(a.socket).value.accountId == account
  }

  // The disconnect of an account's last live socket.
  predicate Leaves(g: Gateway, a: Action, account: string) {
    && a.Disconnecting? && g.Bound(a.socket).Some? && g.Bound(a.socket).value.accountId == account
    && !HasLiveSocket(g.sockets - {a.socket}, account)
  }

  // The stored presence changes in two ways only: an update stores its own record, and
  // the last socket to go stores offline with the time it went.
  lemma StepPresenceIs(cfg: Config, t: Trace, a: Action, account: string)
    ensures PresenceOf(Step(cfg, t, a).g, account) ==
      if Updates(cfg, t.g, a, account) then Some(a.record)
      else if Leaves(t.g, a, account) then Some(PresenceRecord(false, a.now))
      else PresenceOf(t.g, account)
  {
    StepIsApply(cfg, t, a);
    hide Step;
    if a.Authenticating? {
      if Succeeds(cfg, t.g, a) {
        SuccessIs(cfg, t.g, a);
      } else {
        FailureOnlyBurns(cfg, t.g, a);
      }
      hide Apply, Succeeds;
    } else if a.Touching? || a.Opening? || a.OpeningAll? || a.Presenting? {
      RequireShrinks(cfg, t.g, a.socket, a.now);
      hide RequireSession, ConversationRooms;
    } else {
      hide HasLiveSocket;
    }
  }

  // Nobody updates that account's presence, and that socket stays.
  ghost predicate Quiet(cfg: Config, t: Trace, actions: seq<Action>, account: string, socket: string)
    decreases actions
  {
    actions == [] ||
    (&& !Updates(cfg, t.g, actions[0], account) && !(actions[0].Disconnecting? && actions[0].socket == socket)
     && Quiet(cfg, Step(cfg, t, actions[0]), actions[1..], account, socket))
  }

  lemma LiveStays(cfg: Config, t: Trace, a: Action, socket: string)
    requires Inv(t) && Enabled(t, a) && t.g.Bound(socket).Some?
    requires !(a.Disconnecting? && a.socket == socket)
    ensures Step(cfg, t, a).g.Bound(socket) == t.g.Bound(socket)
    ensures !Leaves(t.g, a, t.g.Bound(socket).value.accountId)
  {
    hide SessionsInv, PresenceInv, RoomsInv, Spent, BoundInv;
    assert socket in t.usedSockets;
    BindingStays(cfg, t, a, socket);
    hide Step, Inv, Enabled;
    if a.Disconnecting? {
      assert (t.g.sockets - {a.socket})[socket] == t.g.sockets[socket];
    }
  }

  // Over every run: while a socket of the account stays and nobody updates it, the
  // account's stored presence stays what it is, whatever other sockets go.
  lemma {:induction false} PresenceStays(cfg: Config, t: Trace, actions: seq<Action>, account: string, socket: string)
    requires Inv(t) && EnabledRun(cfg, t, actions) && Quiet(cfg, t, actions, account, socket)
    requires t.g.Bound(socket).Some? && t.g.Bound(socket).value.accountId == account
    ensures PresenceOf(Run(cfg, t, actions).g, account) == PresenceOf(t.g, account)
    decreases actions
  {
    hide Inv, Step, Enabled, Updates, Leaves, PresenceOf;
    if actions == [] {
    } else {
      StepInv(cfg, t, actions[0]);
      LiveStays(cfg, t, actions[0], socket);
      StepPresenceIs(cfg, t, actions[0], account);
      PresenceStays(cfg, Step(cfg, t, actions[0]), actions[1..], account, socket);
    }
  }
}

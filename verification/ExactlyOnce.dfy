/**
 The client's outbox against the server's dedup window, over a network that may
 lose, repeat and reorder both messages and acks, with every other account and
 device using the same server.
 */
module ExactlyOnce {
  import opened Common
  import opened RealtimeStore
  import opened MessageDedup
  import opened Messaging
  import opened NovaClient

  // `acks` are all the acks that the server sent to this client.
  datatype World = World(server: State, client: Client, acks: seq<Ack>, accountId: string, deviceId: string)

  datatype NetEvent =
    | ClientSend(wire: Envelope, force: bool)
    | Flush
    | Connectivity(up: bool)
    // Emission `index` reaches the server; it is refused if not admitted.
    | Arrives(index: nat, now: int, admitted: bool)
    // Ack `index` reaches the client.
    | Acked(index: nat)
    | Others(op: Op)

  predicate Enabled(w: World, e: NetEvent) {
    match e
    case Arrives(index, _, _) => index < |w.client.emitted|
    case Acked(index) => index < |w.acks|
    case _ => true
  }

  ghost function Step(w: World, e: NetEvent): World
    requires Enabled(w, e)
  {
    match e
    case ClientSend(wire, force) => w.(client := SendEnvelope(w.client, wire, force).0)
    case Flush => w.(client := FlushFrom(w.client, w.client.order).0)
    case Connectivity(up) => w.(client := w.client.(connected := up))
    case Arrives(index, now, admitted) =>
      if !admitted then w
      else
        var (server, ack) := Send(w.server, w.client.emitted[index], w.accountId, w.deviceId, now);
        w.(server := server, acks := w.acks + [ack])
    case Acked(index) => w.(client := ObserveAck(w.client, w.acks[index].messageId))
    case Others(op) => w.(server := Messaging.Step(w.server, op))
  }

  // Nobody else sends under the message id `x`.
  predicate OwnId(e: NetEvent, x: string) {
    e.Others? && e.op.Sending? ==> e.op.env.messageId != x
  }

  function KeyOf(w: World, wire: Envelope): DedupKey {
    DedupKey(w.accountId, wire.Key())
  }

  // The event retransmits a message whose dedup entry is still in the window:
  // since its last touch, fewer than `window` distinct other keys were touched.
  ghost predicate Kept(w: World, e: NetEvent, x: string)
    requires Enabled(w, e)
  {
    e.Arrives? && e.admitted && w.client.emitted[e.index].messageId == x
    && KeyOf(w, w.client.emitted[e.index]) in w.server.touched ==>
      TouchedWithin(w.server.touched, KeyOf(w, w.client.emitted[e.index]), w.server.window)
  }

  // ------------------------------------------------------------------
  // The invariant
  // ------------------------------------------------------------------

  // How often a log announces the message id `x`.
  function Copies(log: seq<Event>, x: string): nat {
    if log == [] then 0
    else Copies(log[..|log| - 1], x) + (if Names(log[|log| - 1], x) then 1 else 0)
  }

  predicate Names(e: Event, x: string) {
    e.payload.New? && e.payload.message.key.messageId == x
  }

  ghost predicate Named(c: Client) {
    forall id :: id in c.outbox ==> c.outbox[id].wire.messageId == id
  }

  // The outbox entry and the packets of id `x` all carry one wire.
  ghost predicate OutboxInv(c: Client, x: string) {
    && (forall i :: 0 <= i < |c.emitted| && c.emitted[i].messageId == x ==>
          x in c.outbox && c.emitted[i] == c.outbox[x].wire)
  }

  // `x` has reached the server.
  ghost predicate Received(w: World, x: string) {
    x in w.client.outbox && KeyOf(w, w.client.outbox[x].wire) in w.server.touched
  }

  ghost predicate NothingYet(w: World, x: string) {
    && (forall c :: Copies(w.server.store.Log(c), x) == 0)
    && (forall i :: 0 <= i < |w.acks| ==> w.acks[i].messageId != x)
    && (x in w.client.outbox ==> !w.client.outbox[x].acked)
  }

  ghost predicate StoredOnce(w: World, x: string)
    requires x in w.client.outbox
  {
    var wire := w.client.outbox[x].wire;
    && wire.Key() in w.server.store.messages
    && var m := w.server.store.messages[wire.Key()];
       && m.key.messageId == x && Carries(m, wire, w.accountId, w.deviceId)
       && (forall c :: Copies(w.server.store.Log(c), x) == if c == wire.conversationId then 1 else 0)
       && (exists i :: 0 <= i < |w.server.store.Log(wire.conversationId)|
             && LoggedAs(w.server.store.Log(wire.conversationId)[i], m))
       && (forall i :: 0 <= i < |w.acks| && w.acks[i].messageId == x ==> w.acks[i].serverSeq == m.serverSeq)
  }

  // Only this client's packets touch the dedup window under `x`.
  ghost predicate TouchedInv(w: World, x: string) {
    forall k :: k in w.server.touched && k.key.messageId == x ==>
      x in w.client.outbox && k == KeyOf(w, w.client.outbox[x].wire)
  }

  ghost predicate Inv(w: World, x: string) {
    && Named(w.client)
    && OutboxInv(w.client, x)
    && TouchedInv(w, x)
    && (if Received(w, x) then StoredOnce(w, x) else NothingYet(w, x))
  }

  lemma StartInv(w: World, x: string)
    requires w.server.store == EMPTY && w.server.touched == [] && w.acks == []
    requires w.client.outbox == map[] && w.client.emitted == []
    ensures Inv(w, x)
  {
  }

  // ------------------------------------------------------------------
  // Client steps
  // ------------------------------------------------------------------

  // What every client step keeps of the entry for `x`.
  ghost predicate SameWire(c: Client, d: Client, x: string) {
    && (x in c.outbox ==> x in d.outbox && d.outbox[x].wire == c.outbox[x].wire)
    && (x in d.outbox && x !in c.outbox ==> !d.outbox[x].acked)
    && (x in d.outbox && x in c.outbox && d.outbox[x].acked ==> c.outbox[x].acked)
  }

  lemma EmitKeeps(c: Client, id: string, x: string)
    requires OutboxInv(c, x) && (id in c.outbox ==> c.outbox[id].wire.messageId == id)
    ensures OutboxInv(EmitOutbox(c, id).0, x) && SameWire(c, EmitOutbox(c, id).0, x)
  {
  }

  lemma {:induction false} FlushKeeps(c: Client, ids: seq<string>, x: string)
    requires OutboxInv(c, x) && Named(c)
    ensures OutboxInv(FlushFrom(c, ids).0, x) && SameWire(c, FlushFrom(c, ids).0, x) && Named(FlushFrom(c, ids).0)
    decreases ids
  {
    if ids == [] {
    } else {
      EmitKeeps(c, ids[0], x);
      var (c1, ok) := EmitOutbox(c, ids[0]);
      if ok {
        FlushKeeps(c1, ids[1..], x);
      }
    }
  }

  lemma EnlistKeeps(c: Client, wire: Envelope, force: bool, x: string)
    requires OutboxInv(c, x) && Named(c)
    ensures OutboxInv(Enlist(c, wire, force), x) && SameWire(c, Enlist(c, wire, force), x)
    ensures Named(Enlist(c, wire, force))
  {
  }

  lemma EmitNames(c: Client, id: string)
    requires Named(c)
    ensures Named(EmitOutbox(c, id).0)
  {
  }

  lemma SendKeeps(c: Client, wire: Envelope, force: bool, x: string)
    requires OutboxInv(c, x) && Named(c)
    ensures OutboxInv(SendEnvelope(c, wire, force).0, x)
    ensures SameWire(c, SendEnvelope(c, wire, force).0, x)
    ensures Named(SendEnvelope(c, wire, force).0)
  {
    var c1 := Enlist(c, wire, force);
    EnlistKeeps(c, wire, force, x);
    EmitNames(c1, wire.messageId);
    EmitKeeps(c1, wire.messageId, x);
    SameWireTwice(c, c1, SendEnvelope(c, wire, force).0, x);
    hide OutboxInv, Named, SameWire, EmitOutbox, Enlist;
  }

  lemma SameWireTwice(c: Client, d: Client, e: Client, x: string)
    requires SameWire(c, d, x) && SameWire(d, e, x) && (x in d.outbox ==> x in e.outbox)
    ensures SameWire(c, e, x)
  {
  }

  lemma ClientStepInv(w: World, d: Client, x: string)
    requires Inv(w, x) && Named(d) && OutboxInv(d, x) && SameWire(w.client, d, x)
    ensures Inv(w.(client := d), x)
  {
    var v := w.(client := d);
    assert TouchedInv(v, x);
    if x in d.outbox && x !in w.client.outbox {
      assert d.outbox[x].wire.Key().messageId == x;
    }
    assert Received(v, x) <==> Received(w, x);
  }

  lemma AckKeeps(w: World, index: nat, x: string)
    requires Inv(w, x) && index < |w.acks|
    ensures Inv(w.(client := ObserveAck(w.client, w.acks[index].messageId)), x)
  {
  }

  // ------------------------------------------------------------------
  // Server steps
  // ------------------------------------------------------------------

  lemma CopiesGrow(log: seq<Event>, e: Event, x: string)
    ensures Copies(log + [e], x) == Copies(log, x) + (if Names(e, x) then 1 else 0)
  {
    assert (log + [e])[..|log|] == log;
  }

  // What a server step that does not send `x` leaves of it.
  ghost predicate Untouched(s: State, t: State, x: string) {
    && t.window == s.window
    && (forall k :: k in t.touched && k.key.messageId == x <==> k in s.touched && k.key.messageId == x)
    && (forall c :: Copies(t.store.Log(c), x) == Copies(s.store.Log(c), x))
    && (forall c :: s.store.Log(c) <= t.store.Log(c))
    && (forall key: StorageKey :: key.messageId == x ==> t.store.Find(key) == s.store.Find(key))
  }

  lemma OtherStep(s: State, op: Op, x: string)
    requires op.Sending? ==> op.env.messageId != x
    ensures Untouched(s, Messaging.Step(s, op), x)
  {
    hide Copies, TouchedWithin;
    var t := Messaging.Step(s, op);
    forall c
      ensures Copies(t.store.Log(c), x) == Copies(s.store.Log(c), x) && s.store.Log(c) <= t.store.Log(c)
    {
      if t.store.Log(c) != s.store.Log(c) {
        OneEntryMore(s, op, c, x);
        CopiesGrow(s.store.Log(c), t.store.Log(c)[|s.store.Log(c)|], x);
      }
    }
  }

  lemma OneEntryMore(s: State, op: Op, c: string, x: string)
    requires op.Sending? ==> op.env.messageId != x
    requires Messaging.Step(s, op).store.Log(c) != s.store.Log(c)
    ensures
      var log, longer := s.store.Log(c), Messaging.Step(s, op).store.Log(c);
      |longer| == |log| + 1 && longer == log + [longer[|log|]] && !Names(longer[|log|], x)
  {
    hide TouchedWithin;
  }

  lemma UntouchedInv(w: World, t: State, acks: seq<Ack>, x: string)
    requires Inv(w, x) && Untouched(w.server, t, x)
    requires w.acks <= acks && forall i :: |w.acks| <= i < |acks| ==> acks[i].messageId != x
    ensures Inv(w.(server := t, acks := acks), x)
  {
    var v := w.(server := t, acks := acks);
    assert TouchedInv(v, x);
    if x in w.client.outbox {
      var k := KeyOf(w, w.client.outbox[x].wire);
      assert k.key.messageId == x;
      assert k in t.touched <==> k in w.server.touched;
      if Received(w, x) {
        var key, c := w.client.outbox[x].wire.Key(), w.client.outbox[x].wire.conversationId;
        assert t.store.Find(key) == w.server.store.Find(key);
        var i :| 0 <= i < |w.server.store.Log(c)| && LoggedAs(w.server.store.Log(c)[i], w.server.store.messages[key]);
        assert LoggedAs(t.store.Log(c)[i], w.server.store.messages[key]);
      }
    }
  }

  lemma WithinIsTouched(h: seq<DedupKey>, k: DedupKey, window: nat)
    ensures TouchedWithin(h, k, window) ==> k in h
  {
  }

  // What the server holds after accepting a message: it is stored, and its
  // conversation's log is one entry longer.
  lemma AcceptedOnce(s: State, wire: Envelope, a: string, d: string, now: int)
    requires !TouchedWithin(s.touched, DedupKey(a, wire.Key()), s.window)
    ensures
      var t, ack, c := Send(s, wire, a, d, now).0, Send(s, wire, a, d, now).1, wire.conversationId;
      var m := Stored(wire, a, d, s.store.LatestSeq(c) + 1, now);
      && t.touched == s.touched + [DedupKey(a, wire.Key())]
      && t.store.Find(wire.Key()) == Some(m) && ack.messageId == wire.messageId && ack.serverSeq == m.serverSeq
      && t.store.Log(c) == s.store.Log(c) + [Event(c, New(m), m.serverSeq, now, s.store.LatestLogSeq(c) + 1)]
      && forall e :: e != c ==> t.store.Log(e) == s.store.Log(e)
  {
    hide TouchedWithin;
  }

  // The first packet of `x` to be admitted.
  lemma FirstArrival(w: World, e: NetEvent, x: string)
    requires Inv(w, x) && Enabled(w, e) && e.Arrives? && e.admitted
    requires w.client.emitted[e.index].messageId == x && !Received(w, x)
    ensures Inv(Step(w, e), x) && Received(Step(w, e), x)
  {
    hide Send, TouchedWithin, Copies;
    var wire := w.client.emitted[e.index];
    var v, k, c := Step(w, e), KeyOf(w, wire), wire.conversationId;
    var s, t := w.server.store, v.server.store;
    assert wire == w.client.outbox[x].wire;
    WithinIsTouched(w.server.touched, k, w.server.window);
    AcceptedOnce(w.server, wire, w.accountId, w.deviceId, e.now);
    var entry := t.Log(c)[|s.Log(c)|];
    CopiesGrow(s.Log(c), entry, x);
    assert v.server.touched[|w.server.touched|] == k;
    assert TouchedInv(v, x);
    assert LoggedAs(t.Log(c)[|s.Log(c)|], t.messages[wire.Key()]);
    assert StoredOnce(v, x);
  }

  // A later packet of `x`, its entry still in the window.
  lemma RepeatedArrival(w: World, e: NetEvent, x: string)
    requires Inv(w, x) && Enabled(w, e) && e.Arrives? && e.admitted
    requires w.client.emitted[e.index].messageId == x && Received(w, x) && Kept(w, e, x)
    ensures Inv(Step(w, e), x) && Received(Step(w, e), x)
  {
    var wire := w.client.emitted[e.index];
    var v := Step(w, e);
    assert wire == w.client.outbox[x].wire;
    assert v.server.store == w.server.store;
    assert forall k :: k in v.server.touched <==> k in w.server.touched || k == KeyOf(w, wire);
    assert StoredOnce(v, x);
  }

  // The window is what makes it so: a repeated packet is logged a second time
  // exactly when its entry has fallen out.
  lemma LoggedAgainExactlyWhen(w: World, e: NetEvent, x: string)
    requires Inv(w, x) && Enabled(w, e) && e.Arrives? && e.admitted
    requires w.client.emitted[e.index].messageId == x && Received(w, x)
    ensures
      var c := w.client.outbox[x].wire.conversationId;
      Copies(Step(w, e).server.store.Log(c), x) == if Kept(w, e, x) then 1 else 2
  {
    var wire := w.client.emitted[e.index];
    var c, s, t := wire.conversationId, w.server.store, Step(w, e).server.store;
    assert wire == w.client.outbox[x].wire;
    if !Kept(w, e, x) {
      var entry := t.Log(c)[|s.Log(c)|];
      assert t.Log(c) == s.Log(c) + [entry];
      CopiesGrow(s.Log(c), entry, x);
    }
  }

  lemma ArrivesInv(w: World, e: NetEvent, x: string)
    requires Inv(w, x) && Enabled(w, e) && e.Arrives? && Kept(w, e, x)
    ensures Inv(Step(w, e), x)
  {
    if e.admitted {
      var wire := w.client.emitted[e.index];
      if wire.messageId != x {
        var op := Sending(wire, w.accountId, w.deviceId, e.now);
        OtherStep(w.server, op, x);
        UntouchedInv(w, Step(w, e).server, Step(w, e).acks, x);
      } else if Received(w, x) {
        RepeatedArrival(w, e, x);
      } else {
        FirstArrival(w, e, x);
      }
    }
  }

  lemma StepInv(w: World, e: NetEvent, x: string)
    requires Inv(w, x) && Enabled(w, e) && OwnId(e, x) && Kept(w, e, x)
    ensures Inv(Step(w, e), x)
  {
    match e
    case ClientSend(wire, force) =>
      SendKeeps(w.client, wire, force, x);
      ClientStepInv(w, SendEnvelope(w.client, wire, force).0, x);
    case Flush =>
      FlushKeeps(w.client, w.client.order, x);
      ClientStepInv(w, FlushFrom(w.client, w.client.order).0, x);
    case Connectivity(up) =>
      ClientStepInv(w, w.client.(connected := up), x);
    case Arrives(_, _, _) => ArrivesInv(w, e, x);
    case Acked(index) => AckKeeps(w, index, x);
    case Others(op) =>
      OtherStep(w.server, op, x);
      UntouchedInv(w, Messaging.Step(w.server, op), w.acks, x);
  }

  // ------------------------------------------------------------------
  // Runs
  // ------------------------------------------------------------------

  // A run in which only this client sends `x` and every repetition of it finds
  // its dedup entry in the window.
  ghost predicate GoodRun(w: World, es: seq<NetEvent>, x: string)
    decreases es
  {
    es == [] ||
    (Enabled(w, es[0]) && OwnId(es[0], x) && Kept(w, es[0], x) && GoodRun(Step(w, es[0]), es[1..], x))
  }

  ghost function Run(w: World, es: seq<NetEvent>, x: string): World
    requires GoodRun(w, es, x)
    decreases es
  {
    if es == [] then w else Run(Step(w, es[0]), es[1..], x)
  }

  lemma {:induction false} RunInv(w: World, es: seq<NetEvent>, x: string)
    requires Inv(w, x) && GoodRun(w, es, x)
    ensures Inv(Run(w, es, x), x)
    decreases es
  {
    if es == [] {
    } else {
      StepInv(w, es[0], x);
      RunInv(Step(w, es[0]), es[1..], x);
    }
  }

  lemma {:induction false} CopiesFound(log: seq<Event>, x: string, i: nat)
    requires i < |log| && Names(log[i], x)
    ensures Copies(log, x) >= 1
  {
    if i == |log| - 1 {
    } else {
      CopiesFound(log[..|log| - 1], x, i);
    }
  }

  lemma {:induction false} OneCopy(log: seq<Event>, x: string, i: nat, j: nat)
    requires i < j < |log| && Names(log[i], x) && Names(log[j], x)
    ensures Copies(log, x) >= 2
  {
    if j == |log| - 1 {
      CopiesFound(log[..|log| - 1], x, i);
    } else {
      OneCopy(log[..|log| - 1], x, i, j);
    }
  }

  // Every logged copy is the one stored message, with all that the wire carried.
  lemma CopyCarries(w: World, x: string, c: string, k: nat)
    requires Inv(w, x) && k < |w.server.store.Log(c)| && Names(w.server.store.Log(c)[k], x)
    ensures x in w.client.outbox
    ensures Carries(w.server.store.Log(c)[k].payload.message, w.client.outbox[x].wire, w.accountId, w.deviceId)
  {
    var log := w.server.store.Log(c);
    CopiesFound(log, x, k);
    assert Received(w, x);
    var wire := w.client.outbox[x].wire;
    var m := w.server.store.messages[wire.Key()];
    assert c == wire.conversationId && Copies(log, x) == 1;
    var i :| 0 <= i < |log| && LoggedAs(log[i], m);
    assert Names(log[i], x);
    if i < k {
      OneCopy(log, x, i, k);
    } else if k < i {
      OneCopy(log, x, k, i);
    }
  }

  // Through any lost packets, lost acks, reconnects and flushes: the message is
  // logged at most once, exactly once if acknowledged, with all that its wire
  // carried, and every ack for it carries the number under which it was logged.
  lemma SentExactlyOnce(w: World, es: seq<NetEvent>, x: string)
    requires w.server.store == EMPTY && w.server.touched == [] && w.acks == []
    requires w.client.outbox == map[] && w.client.emitted == []
    requires GoodRun(w, es, x)
    ensures
      var v := Run(w, es, x);
      && (forall c :: Copies(v.server.store.Log(c), x) <= 1)
      && (forall c, k :: 0 <= k < |v.server.store.Log(c)| && Names(v.server.store.Log(c)[k], x) ==>
            && x in v.client.outbox
            && Carries(v.server.store.Log(c)[k].payload.message, v.client.outbox[x].wire, v.accountId, v.deviceId))
      && (forall c, d :: Copies(v.server.store.Log(c), x) == 1 && Copies(v.server.store.Log(d), x) == 1 ==> c == d)
      && (x in v.client.outbox && v.client.outbox[x].acked ==>
            Copies(v.server.store.Log(v.client.outbox[x].wire.conversationId), x) == 1)
      && (forall i :: 0 <= i < |v.acks| && v.acks[i].messageId == x ==>
            && x in v.client.outbox
            && exists k :: 0 <= k < |v.server.store.Log(v.client.outbox[x].wire.conversationId)|
                 && Names(v.server.store.Log(v.client.outbox[x].wire.conversationId)[k], x)
                 && v.server.store.Log(v.client.outbox[x].wire.conversationId)[k].serverSeq == v.acks[i].serverSeq)
      && (forall i, j :: 0 <= i < |v.acks| && 0 <= j < |v.acks| && v.acks[i].messageId == x == v.acks[j].messageId ==>
            v.acks[i].serverSeq == v.acks[j].serverSeq)
  {
    StartInv(w, x);
    RunInv(w, es, x);
    var v := Run(w, es, x);
    forall c, k | 0 <= k < |v.server.store.Log(c)| && Names(v.server.store.Log(c)[k], x)
      ensures x in v.client.outbox
      ensures Carries(v.server.store.Log(c)[k].payload.message, v.client.outbox[x].wire, v.accountId, v.deviceId)
    {
      CopyCarries(v, x, c, k);
    }
    if Received(v, x) {
      var wire := v.client.outbox[x].wire;
      var log, m := v.server.store.Log(wire.conversationId), v.server.store.messages[wire.Key()];
      var k :| 0 <= k < |log| && LoggedAs(log[k], m);
      assert Names(log[k], x);
    }
  }

  // ------------------------------------------------------------------
  // A second copy
  // ------------------------------------------------------------------

  lemma WindowOfOne(k: DedupKey, other: DedupKey)
    requires k != other
    ensures !TouchedWithin([k, other], k, 1)
  {
    RecentExactlyWhen([k, other], 1, k);
    assert [k, other][..1] == [k];
    RecentStep([k], other, 1);
    assert [k] + [other] == [k, other];
  }

  // With a window of one, a message of anyone else between two packets of `wire` is
  // enough: the second packet is logged again.
  lemma LoggedTwice(w: World, wire: Envelope, op: Op, now: int)
    requires w.server == Start(1) && w.acks == [] && w.client.outbox == map[] && w.client.emitted == []
    requires w.client.connected && op.Sending? && op.env.messageId != wire.messageId
    ensures
      var w1 := Step(w, ClientSend(wire, false));
      && Enabled(w1, Arrives(0, now, true))
      && var w2 := Step(w1, Arrives(0, now, true));
         var w3 := Step(w2, Others(op));
         && Enabled(w3, Arrives(0, now, true))
         && var w4 := Step(w3, Arrives(0, now, true));
            Copies(w4.server.store.Log(wire.conversationId), wire.messageId) == 2
  {
    hide Step, Copies, TouchedWithin, Inv, Received, Untouched;
    FirstPacket(w, wire);
    var w1 := Step(w, ClientSend(wire, false));
    FirstCopy(w1, wire, now);
    var w2 := Step(w1, Arrives(0, now, true));
    OneOther(w2, wire, op);
    SecondCopy(Step(w2, Others(op)), wire, op, now);
  }

  // One packet of `wire` is on the network, and the window has seen `touched`.
  ghost predicate Sent(w: World, wire: Envelope, touched: seq<DedupKey>) {
    && Inv(w, wire.messageId) && w.client.emitted == [wire]
    && wire.messageId in w.client.outbox && w.client.outbox[wire.messageId].wire == wire
    && w.server.touched == touched && w.server.window == 1
  }

  lemma FirstCopy(w: World, wire: Envelope, now: int)
    requires Sent(w, wire, [])
    ensures Enabled(w, Arrives(0, now, true))
    ensures
      var v := Step(w, Arrives(0, now, true));
      v.accountId == w.accountId && Sent(v, wire, [KeyOf(w, wire)])
  {
    assert !TouchedWithin([], KeyOf(w, wire), 1);
    hide Inv, TouchedWithin, Accepted, Copies;
    ArrivesInv(w, Arrives(0, now, true), wire.messageId);
    assert [] + [KeyOf(w, wire)] == [KeyOf(w, wire)];
  }

  lemma OneOther(w: World, wire: Envelope, op: Op)
    requires Sent(w, wire, [KeyOf(w, wire)]) && op.Sending? && op.env.messageId != wire.messageId
    ensures
      var v := Step(w, Others(op));
      v.accountId == w.accountId && Sent(v, wire, [KeyOf(w, wire), DedupKey(op.accountId, op.env.Key())])
  {
    hide Inv, TouchedWithin, Accepted, Copies;
    StepInv(w, Others(op), wire.messageId);
    assert [KeyOf(w, wire)] + [DedupKey(op.accountId, op.env.Key())]
        == [KeyOf(w, wire), DedupKey(op.accountId, op.env.Key())];
  }

  lemma SecondCopy(w: World, wire: Envelope, op: Op, now: int)
    requires op.Sending? && op.env.messageId != wire.messageId
    requires Sent(w, wire, [KeyOf(w, wire), DedupKey(op.accountId, op.env.Key())])
    ensures Enabled(w, Arrives(0, now, true))
    ensures Copies(Step(w, Arrives(0, now, true)).server.store.Log(wire.conversationId), wire.messageId) == 2
  {
    hide Inv, TouchedWithin, Accepted, Copies, Step;
    assert w.server.touched[0] == KeyOf(w, wire);
    WindowOfOne(KeyOf(w, wire), DedupKey(op.accountId, op.env.Key()));
    LoggedAgainExactlyWhen(w, Arrives(0, now, true), wire.messageId);
  }

  lemma FirstPacket(w: World, wire: Envelope)
    requires w.server == Start(1) && w.acks == [] && w.client.outbox == map[] && w.client.emitted == []
    requires w.client.connected
    ensures
      var v := Step(w, ClientSend(wire, false));
      v.accountId == w.accountId && Sent(v, wire, [])
  {
    StartInv(w, wire.messageId);
    hide Inv;
    StepInv(w, ClientSend(wire, false), wire.messageId);
  }
}

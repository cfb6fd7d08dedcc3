/**
 The client state of server/src/client/nova_client.ts: an outbox of unacknowledged
 messages, an inbox, and one log cursor per conversation.
 */
module NovaClient {
  import opened Common
  import opened RealtimeStore
  import opened Messaging
  import opened Sync

  datatype OutboxEntry = OutboxEntry(wire: Envelope, acked: bool, attempts: nat)

  // `order` is the insertion order of the outbox; `emitted` is what was handed to
  // the socket.
  datatype Client = Client(
    connected: bool, outbox: map<string, OutboxEntry>, order: seq<string>, emitted: seq<Envelope>,
    cursors: map<string, nat>, inbox: map<string, Event>, appliedOrder: seq<string>)

  // ------------------------------------------------------------------
  // Outbox
  // ------------------------------------------------------------------

  // The flag is false when the socket is missing and emitRaw throws.
  function EmitOutbox(c: Client, id: string): (Client, bool) {
    if id !in c.outbox || c.outbox[id].acked then (c, true)
    else
      var entry := c.outbox[id];
      var c1 := c.(outbox := c.outbox[id := entry.(attempts := entry.attempts + 1)]);
      if c.connected then (c1.(emitted := c1.emitted + [entry.wire]), true) else (c1, false)
  }

  function Enlist(c: Client, wire: Envelope, force: bool): Client {
    var id := wire.messageId;
    if id !in c.outbox then c.(outbox := c.outbox[id := OutboxEntry(wire, false, 0)], order := c.order + [id])
    else if force then c.(outbox := c.outbox[id := c.outbox[id].(acked := false)])
    else c
  }

  function SendEnvelope(c: Client, wire: Envelope, force: bool): (Client, bool) {
    EmitOutbox(Enlist(c, wire, force), wire.messageId)
  }

  // flushOutbox from position i on; it stops when an emission throws.
  function FlushFrom(c: Client, ids: seq<string>): (Client, bool)
    decreases ids
  {
    if ids == [] then (c, true)
    else
      var (c1, ok) := EmitOutbox(c, ids[0]);
      if ok then FlushFrom(c1, ids[1..]) else (c1, false)
  }

  // The ids of `ids` that are not acknowledged, in order.
  function Unacked(c: Client, ids: seq<string>): seq<string> {
    if ids == [] then []
    else if ids[0] in c.outbox && !c.outbox[ids[0]].acked then [ids[0]] + Unacked(c, ids[1..])
    else Unacked(c, ids[1..])
  }

  // The wires with which those ids were first sent.
  function Wires(c: Client, ids: seq<string>): seq<Envelope> {
    if ids == [] then []
    else if ids[0] in c.outbox then [c.outbox[ids[0]].wire] + Wires(c, ids[1..])
    else Wires(c, ids[1..])
  }

  lemma {:induction false} UnackedMeans(c: Client, ids: seq<string>)
    ensures forall id :: id in Unacked(c, ids) <==> id in ids && id in c.outbox && !c.outbox[id].acked
  {
    if ids == [] {
    } else {
      UnackedMeans(c, ids[1..]);
      assert forall id :: id in ids <==> id == ids[0] || id in ids[1..];
    }
  }

  // `order` lists each outbox id exactly once.
  ghost predicate Ordered(c: Client) {
    && (forall id :: id in c.order <==> id in c.outbox)
    && (forall i, j :: 0 <= i < j < |c.order| ==> c.order[i] != c.order[j])
  }

  // Apart from attempts, entries are as before.
  ghost predicate SameEntries(c: Client, d: Client) {
    && d.outbox.Keys == c.outbox.Keys && d.order == c.order && d.connected == c.connected
    && (forall id :: id in c.outbox ==>
          d.outbox[id].acked == c.outbox[id].acked && d.outbox[id].wire == c.outbox[id].wire)
  }

  lemma WiresFirst(c: Client, id: string, rest: seq<string>)
    requires id in c.outbox
    ensures Wires(c, [id] + rest) == [c.outbox[id].wire] + Wires(c, rest)
  {
    assert ([id] + rest)[1..] == rest;
  }

  lemma {:induction false} SameUnacked(c: Client, d: Client, ids: seq<string>)
    requires SameEntries(c, d)
    ensures Unacked(d, ids) == Unacked(c, ids)
    ensures Wires(d, Unacked(d, ids)) == Wires(c, Unacked(c, ids))
  {
    if ids == [] {
    } else {
      SameUnacked(c, d, ids[1..]);
      if ids[0] in c.outbox {
        WiresFirst(c, ids[0], Unacked(c, ids[1..]));
        WiresFirst(d, ids[0], Unacked(c, ids[1..]));
      }
    }
  }

  // A flush hands every unacknowledged wire to the socket again, in order; with no
  // socket it stops at the first one.
  lemma {:induction false} FlushEmits(c: Client, ids: seq<string>)
    requires forall id :: id in ids ==> id in c.outbox
    ensures SameEntries(c, FlushFrom(c, ids).0)
    ensures FlushFrom(c, ids).1 <==> c.connected || Unacked(c, ids) == []
    ensures FlushFrom(c, ids).0.emitted
         == if FlushFrom(c, ids).1 then c.emitted + Wires(c, Unacked(c, ids)) else c.emitted
    decreases ids
  {
    hide EmitOutbox, Unacked, Wires, SameEntries;
    if ids == [] {
      NothingUnacked(c);
    } else {
      var (c1, ok) := EmitOutbox(c, ids[0]);
      EmitEntries(c, ids[0]);
      SameKeys(c, c1);
      WiresConcat(c, ids);
      if ok {
        FlushEmits(c1, ids[1..]);
        SameUnacked(c, c1, ids[1..]);
        EntriesTwice(c, c1, FlushFrom(c1, ids[1..]).0);
        if c.connected && !c.outbox[ids[0]].acked {
          var wire, rest := c.outbox[ids[0]].wire, Wires(c, Unacked(c, ids[1..]));
          assert (c.emitted + [wire]) + rest == c.emitted + ([wire] + rest);
        }
      }
    }
  }

  lemma NothingUnacked(c: Client)
    ensures Unacked(c, []) == [] && Wires(c, []) == [] && SameEntries(c, c)
  {
  }

  lemma SameKeys(c: Client, d: Client)
    requires SameEntries(c, d)
    ensures d.connected == c.connected && d.order == c.order && forall id :: id in d.outbox <==> id in c.outbox
  {
  }

  // One position further.
  lemma {:induction false} UnackedNext(c: Client, ids: seq<string>, i: nat)
    requires i < |ids|
    ensures Unacked(c, ids[..i + 1])
         == Unacked(c, ids[..i]) + (if ids[i] in c.outbox && !c.outbox[ids[i]].acked then [ids[i]] else [])
  {
    if i == 0 {
      assert ids[..1] == [ids[0]];
    } else {
      UnackedNext(c, ids[1..], i - 1);
      assert ids[..i + 1][1..] == ids[1..][..i];
      assert ids[..i][1..] == ids[1..][..i - 1];
    }
  }

  lemma FlushNext(c: Client, ids: seq<string>, i: nat)
    requires i < |ids|
    ensures FlushFrom(c, ids[i..])
         == if EmitOutbox(c, ids[i]).1 then FlushFrom(EmitOutbox(c, ids[i]).0, ids[i + 1..])
            else (EmitOutbox(c, ids[i]).0, false)
  {
    assert ids[i..] == [ids[i]] + ids[i + 1..];
  }

  // The loop of flushOutbox at position `i`; `before` is the client when it began.
  ghost predicate Flushing(before: Client, current: Client, resent: seq<string>, i: nat) {
    && i <= |before.order| && Ordered(current) && current.order == before.order
    && SameEntries(before, current)
    && FlushFrom(before, before.order) == FlushFrom(current, before.order[i..])
    && resent == Unacked(before, before.order[..i])
  }

  lemma FlushBegins(c: Client)
    requires Ordered(c)
    ensures Flushing(c, c, [], 0)
  {
    assert c.order[0..] == c.order && c.order[..0] == [];
  }

  lemma FlushStep(before: Client, current: Client, resent: seq<string>, i: nat)
    requires Flushing(before, current, resent, i) && i < |before.order|
    ensures
      var id := before.order[i];
      && id in current.outbox
      && var (next, ok) := EmitOutbox(current, id);
         if current.outbox[id].acked then Flushing(before, current, resent, i + 1)
         else if ok then Flushing(before, next, resent + [id], i + 1)
         else Ordered(next) && (next, false) == FlushFrom(before, before.order)
  {
    var id := before.order[i];
    assert id in current.outbox && id in before.outbox;
    EmitEntries(current, id);
    EmitOrdered(current, id);
    hide EmitOutbox, Ordered, Unacked, FlushFrom;
    EntriesTwice(before, current, EmitOutbox(current, id).0);
    FlushNext(current, before.order, i);
    UnackedNext(before, before.order, i);
  }

  lemma EmitOrdered(c: Client, id: string)
    requires Ordered(c)
    ensures Ordered(EmitOutbox(c, id).0) && EmitOutbox(c, id).0.order == c.order
  {
  }

  lemma FlushEnds(before: Client, current: Client, resent: seq<string>)
    requires Flushing(before, current, resent, |before.order|)
    ensures Ordered(current) && FlushFrom(before, before.order) == (current, true)
    ensures resent == Unacked(before, before.order)
  {
    assert before.order[|before.order|..] == [] && before.order[..|before.order|] == before.order;
  }

  lemma {:induction false} UnackedDistinct(c: Client, ids: seq<string>)
    requires forall i, j :: 0 <= i < j < |ids| ==> ids[i] != ids[j]
    ensures forall i, j :: 0 <= i < j < |Unacked(c, ids)| ==> Unacked(c, ids)[i] != Unacked(c, ids)[j]
  {
    if ids == [] {
    } else {
      UnackedDistinct(c, ids[1..]);
      UnackedMeans(c, ids[1..]);
      assert ids[0] !in Unacked(c, ids[1..]);
    }
  }

  lemma EmitEntries(c: Client, id: string)
    requires id in c.outbox
    ensures
      var (d, ok) := EmitOutbox(c, id);
      && SameEntries(c, d) && (ok <==> c.connected || c.outbox[id].acked) && (c.outbox[id].acked ==> d == c)
      && d.emitted == if c.outbox[id].acked || !c.connected then c.emitted else c.emitted + [c.outbox[id].wire]
  {
  }

  // With a socket, each unacknowledged entry listed counts one attempt more.
  lemma {:induction false} FlushAttempts(c: Client, ids: seq<string>)
    requires c.connected && forall id :: id in ids ==> id in c.outbox
    requires forall i, j :: 0 <= i < j < |ids| ==> ids[i] != ids[j]
    ensures forall id :: id in c.outbox ==>
      && id in FlushFrom(c, ids).0.outbox
      && FlushFrom(c, ids).0.outbox[id].attempts
           == c.outbox[id].attempts + (if id in ids && !c.outbox[id].acked then 1 else 0)
    decreases ids
  {
    if ids == [] {
    } else {
      var c1 := EmitOutbox(c, ids[0]).0;
      assert ids[0] !in ids[1..] && forall id :: id in ids <==> id == ids[0] || id in ids[1..];
      FlushAttempts(c1, ids[1..]);
    }
  }

  // An ack settles its entry and no other: the message is not pending afterwards, and
  // no flush emits it, until it is sent again by force.
  lemma AckSettles(c: Client, id: string, ids: seq<string>)
    ensures
      var d := ObserveAck(c, id);
      && (id in c.outbox ==> d == c.(outbox := c.outbox[id := c.outbox[id].(acked := true)]))
      && (id !in c.outbox ==> d == c)
      && (forall x :: x in Unacked(d, ids) <==> x in Unacked(c, ids) && x != id)
  {
    UnackedMeans(c, ids);
    UnackedMeans(ObserveAck(c, id), ids);
  }

  // A send hands the wire to the socket unless the message is settled and not forced;
  // a known message goes out with the wire it was first sent with.
  lemma SendIsEmitted(c: Client, wire: Envelope, force: bool)
    ensures
      var (d, ok), id := SendEnvelope(c, wire, force), wire.messageId;
      var settled := id in c.outbox && c.outbox[id].acked && !force;
      var first := if id in c.outbox then c.outbox[id].wire else wire;
      && (ok <==> settled || c.connected)
      && d.emitted == (if settled || !c.connected then c.emitted else c.emitted + [first])
      && id in d.outbox && d.outbox[id].wire == first && d.outbox[id].acked == settled
      && (forall x :: x != id ==> (x in d.outbox <==> x in c.outbox) && (x in c.outbox ==> d.outbox[x] == c.outbox[x]))
      && d.order == if id in c.outbox then c.order else c.order + [id]
  {
  }

  lemma EntriesTwice(c: Client, d: Client, e: Client)
    requires SameEntries(c, d) && SameEntries(d, e)
    ensures SameEntries(c, e)
  {
  }

  lemma WiresConcat(c: Client, ids: seq<string>)
    requires ids != [] && ids[0] in c.outbox
    ensures Unacked(c, ids) == (if c.outbox[ids[0]].acked then [] else [ids[0]]) + Unacked(c, ids[1..])
    ensures Wires(c, Unacked(c, ids))
         == (if c.outbox[ids[0]].acked then [] else [c.outbox[ids[0]].wire]) + Wires(c, Unacked(c, ids[1..]))
  {
    WiresFirst(c, ids[0], Unacked(c, ids[1..]));
  }

  function ObserveAck(c: Client, id: string): Client {
    if id in c.outbox then c.(outbox := c.outbox[id := c.outbox[id].(acked := true)]) else c
  }

  // ------------------------------------------------------------------
  // Inbox
  // ------------------------------------------------------------------

  function AdvanceCursor(c: Client, conversationId: string, logSeq: nat): Client {
    if logSeq > CursorOf(c.cursors, conversationId) then c.(cursors := c.cursors[conversationId := logSeq]) else c
  }

  function ApplyEvent(c: Client, e: Event): Client {
    if !e.payload.New? || e.payload.message.key.messageId in c.inbox then c
    else
      var id := e.payload.message.key.messageId;
      c.(inbox := c.inbox[id := e], appliedOrder := c.appliedOrder + [id])
  }

  function ApplyEvents(c: Client, events: seq<Event>): Client {
    if events == [] then c else ApplyEvent(ApplyEvents(c, events[..|events| - 1]), events[|events| - 1])
  }

  // A live message.new.
  function ObserveNew(c: Client, e: Event): Client {
    AdvanceCursor(ApplyEvent(c, e), e.conversationId, e.logSeq)
  }

  function ApplyPage(c: Client, page: Page): Client {
    AdvanceCursor(ApplyEvents(c, page.events), page.conversationId, page.cursor)
  }

  function ApplySync(c: Client, pages: seq<Page>): Client {
    if pages == [] then c else ApplyPage(ApplySync(c, pages[..|pages| - 1]), pages[|pages| - 1])
  }

  class NovaClient {
    var connected: bool
    var outbox: map<string, OutboxEntry>
    var order: seq<string>
    var emitted: seq<Envelope>
    var cursors: map<string, nat>
    var inbox: map<string, Event>
    var appliedOrder: seq<string>

    ghost function Abs(): Client
      reads this
    {
      Client(connected, outbox, order, emitted, cursors, inbox, appliedOrder)
    }

    ghost predicate Valid()
      reads this
    {
      Ordered(Abs())
    }

    constructor ()
      ensures Valid() && Abs() == Client(false, map[], [], [], map[], map[], [])
    {
      connected, outbox, order, emitted := false, map[], [], [];
      cursors, inbox, appliedOrder := map[], map[], [];
    }

    method Send(wire: Envelope, force: bool) returns (ok: bool)
      requires Valid()
      modifies this
      ensures Valid() && (Abs(), ok) == SendEnvelope(old(Abs()), wire, force)
    {
      var id := wire.messageId;
      if id !in outbox {
        outbox := outbox[id := OutboxEntry(wire, false, 0)];
        order := order + [id];
      } else if force {
        outbox := outbox[id := outbox[id].(acked := false)];
      }
      ok := Emit(id);
    }

    method Emit(id: string) returns (ok: bool)
      requires Valid()
      modifies this
      ensures Valid() && (Abs(), ok) == EmitOutbox(old(Abs()), id)
    {
      if id !in outbox || outbox[id].acked {
        return true;
      }
      var entry := outbox[id];
      outbox := outbox[id := entry.(attempts := entry.attempts + 1)];
      if !connected {
        return false;
      }
      emitted := emitted + [entry.wire];
      return true;
    }

    method FlushOutbox() returns (resent: seq<string>, ok: bool)
      requires Valid()
      modifies this
      ensures Valid() && (Abs(), ok) == FlushFrom(old(Abs()), old(order))
      ensures ok <==> connected || Unacked(old(Abs()), old(order)) == []
      ensures ok ==> resent == Unacked(old(Abs()), old(order)) && emitted == old(emitted) + Wires(old(Abs()), resent)
      ensures SameEntries(old(Abs()), Abs())
    {
      assert forall id :: id in order ==> id in outbox;
      hide FlushFrom, Unacked, Wires, SameEntries, Ordered;
      ghost var before := Abs();
      FlushEmits(before, order);
      SameKeys(before, FlushFrom(before, order).0);
      resent, ok := FlushLoop();
    }

    // The loop of flushOutbox.
    method FlushLoop() returns (resent: seq<string>, ok: bool)
      requires Valid()
      modifies this
      ensures Valid() && (Abs(), ok) == FlushFrom(old(Abs()), old(order))
      ensures ok ==> resent == Unacked(old(Abs()), old(order))
    {
      hide FlushFrom, EmitOutbox, Unacked, Ordered, Flushing;
      resent := [];
      ghost var before := Abs();
      FlushBegins(before);
      var i := 0;
      while i < |order|
        invariant 0 <= i <= |order| && order == before.order
        invariant Valid() && Flushing(before, Abs(), resent, i)
      {
        FlushStep(before, Abs(), resent, i);
        if !outbox[order[i]].acked {
          EmitOrdered(Abs(), order[i]);
          ok := Emit(order[i]);
          if !ok {
            return;
          }
          resent := resent + [order[i]];
        }
        i := i + 1;
      }
      FlushEnds(before, Abs(), resent);
      ok := true;
    }

    // The ids not yet acknowledged, in insertion order.
    method Pending() returns (ids: seq<string>)
      requires Valid()
      ensures ids == Unacked(Abs(), order)
      ensures forall id :: id in ids <==> id in outbox && !outbox[id].acked
      ensures forall i, j :: 0 <= i < j < |ids| ==> ids[i] != ids[j]
    {
      hide Unacked;
      ids := [];
      NothingUnacked(Abs());
      assert order[..0] == [];
      for i := 0 to |order|
        invariant ids == Unacked(Abs(), order[..i])
      {
        UnackedNext(Abs(), order, i);
        if order[i] in outbox && !outbox[order[i]].acked {
          ids := ids + [order[i]];
        }
      }
      assert order[..|order|] == order;
      UnackedDistinct(Abs(), order);
      UnackedMeans(Abs(), order);
    }

    method OnAck(id: string)
      requires Valid()
      modifies this
      ensures Valid() && Abs() == ObserveAck(old(Abs()), id)
    {
      if id in outbox {
        outbox := outbox[id := outbox[id].(acked := true)];
      }
    }

    method OnMessageNew(e: Event)
      requires Valid()
      modifies this
      ensures Valid() && Abs() == ObserveNew(old(Abs()), e)
    {
      Apply(e);
      Advance(e.conversationId, e.logSeq);
    }

    method Apply(e: Event)
      requires Valid()
      modifies this
      ensures Valid() && Abs() == ApplyEvent(old(Abs()), e)
    {
      if e.payload.New? && e.payload.message.key.messageId !in inbox {
        var id := e.payload.message.key.messageId;
        inbox := inbox[id := e];
        appliedOrder := appliedOrder + [id];
      }
    }

    method Advance(conversationId: string, logSeq: nat)
      requires Valid()
      modifies this
      ensures Valid() && Abs() == AdvanceCursor(old(Abs()), conversationId, logSeq)
    {
      var current := if conversationId in cursors then cursors[conversationId] else 0;
      if logSeq > current {
        cursors := cursors[conversationId := logSeq];
      }
    }

    method ApplyResponse(pages: seq<Page>)
      requires Valid()
      modifies this
      ensures Valid() && Abs() == ApplySync(old(Abs()), pages)
    {
      for i := 0 to |pages|
        invariant Valid() && Abs() == ApplySync(old(Abs()), pages[..i])
      {
        assert pages[..i + 1][..i] == pages[..i];
        ApplyOne(pages[i]);
      }
      assert pages[..|pages|] == pages;
    }

    method ApplyOne(page: Page)
      requires Valid()
      modifies this
      ensures Valid() && Abs() == ApplyPage(old(Abs()), page)
    {
      for i := 0 to |page.events|
        invariant Valid() && Abs() == ApplyEvents(old(Abs()), page.events[..i])
      {
        assert page.events[..i + 1][..i] == page.events[..i];
        Apply(page.events[i]);
      }
      assert page.events[..|page.events|] == page.events;
      Advance(page.conversationId, page.cursor);
    }
  }

  // ------------------------------------------------------------------
  // Each message once, in log order
  // ------------------------------------------------------------------

  ghost predicate InboxInv(c: Client) {
    && (forall id :: id in c.inbox <==> id in c.appliedOrder)
    && (forall i, j :: 0 <= i < j < |c.appliedOrder| ==> c.appliedOrder[i] != c.appliedOrder[j])
  }

  // What one event does, and what it leaves alone.
  lemma ApplyEventInbox(c: Client, e: Event)
    requires InboxInv(c)
    ensures InboxInv(ApplyEvent(c, e)) && c.appliedOrder <= ApplyEvent(c, e).appliedOrder
    ensures e.payload.New? ==> e.payload.message.key.messageId in ApplyEvent(c, e).inbox
    ensures forall id :: id in c.inbox ==> id in ApplyEvent(c, e).inbox && ApplyEvent(c, e).inbox[id] == c.inbox[id]
  {
  }

  lemma {:induction false} ApplyEventsRest(c: Client, events: seq<Event>)
    ensures ApplyEvents(c, events) ==
      c.(inbox := ApplyEvents(c, events).inbox, appliedOrder := ApplyEvents(c, events).appliedOrder)
  {
    if events == [] {
    } else {
      ApplyEventsRest(c, events[..|events| - 1]);
    }
  }

  lemma {:induction false} ApplyEventsInbox(c: Client, events: seq<Event>)
    requires InboxInv(c)
    ensures InboxInv(ApplyEvents(c, events))
    ensures c.appliedOrder <= ApplyEvents(c, events).appliedOrder
    ensures forall i :: 0 <= i < |events| && events[i].payload.New? ==>
      events[i].payload.message.key.messageId in ApplyEvents(c, events).inbox
    ensures forall id :: id in c.inbox ==>
      id in ApplyEvents(c, events).inbox && ApplyEvents(c, events).inbox[id] == c.inbox[id]
  {
    hide InboxInv, ApplyEvent;
    if events == [] {
    } else {
      var before := events[..|events| - 1];
      ApplyEventsInbox(c, before);
      ApplyEventInbox(ApplyEvents(c, before), events[|events| - 1]);
      assert forall i :: 0 <= i < |before| ==> before[i] == events[i];
    }
  }

  // Event `i` is the first to announce the message id.
  ghost predicate IsFirst(events: seq<Event>, i: int, id: string) {
    && 0 <= i < |events| && Announced(events[i], id)
    && forall k :: 0 <= k < i ==> !Announced(events[k], id)
  }

  predicate Announced(e: Event, id: string) {
    e.payload.New? && e.payload.message.key.messageId == id
  }

  // What a client holds after `events`, said of the events alone: what it held before,
  // and each new id with the first event that announced it, in the order of those.
  ghost predicate Holds(before: Client, after: Client, events: seq<Event>) {
    && (forall id :: id in before.inbox ==> id in after.inbox && after.inbox[id] == before.inbox[id])
    && (forall id :: id in after.inbox ==> id in before.inbox || exists i :: IsFirst(events, i, id))
    && (forall i, id :: IsFirst(events, i, id) && id !in before.inbox ==>
          id in after.inbox && after.inbox[id] == events[i])
    && before.appliedOrder <= after.appliedOrder
    && (forall p, q, i, j ::
          (|before.appliedOrder| <= p < q < |after.appliedOrder|
           && IsFirst(events, i, after.appliedOrder[p]) && IsFirst(events, j, after.appliedOrder[q])) ==> i < j)
  }

  lemma FirstOfLonger(events: seq<Event>, e: Event, i: int, id: string)
    ensures IsFirst(events + [e], i, id) <==>
      IsFirst(events, i, id)
      || (i == |events| && Announced(e, id) && forall k :: 0 <= k < |events| ==> !Announced(events[k], id))
  {
    var longer := events + [e];
    assert forall k :: 0 <= k < |events| ==> longer[k] == events[k];
  }

  lemma {:induction false} FindFirst(events: seq<Event>, id: string, k: nat) returns (i: nat)
    requires k < |events| && Announced(events[k], id)
    ensures i <= k && IsFirst(events, i, id)
  {
    if j: int :| 0 <= j < k && Announced(events[j], id) {
      i := FindFirst(events, id, j);
    } else {
      i := k;
    }
  }

  lemma HoldsKeys(before: Client, after: Client, events: seq<Event>, id: string)
    requires InboxInv(before) && Holds(before, after, events)
    ensures id in after.inbox <==>
      id in before.inbox || exists k :: 0 <= k < |events| && Announced(events[k], id)
  {
    if k :| 0 <= k < |events| && Announced(events[k], id) {
      var i := FindFirst(events, id, k);
      assert IsFirst(events, i, id);
    }
    if id in after.inbox && id !in before.inbox {
      var i :| IsFirst(events, i, id);
      assert Announced(events[i], id);
    }
  }

  // For an id held already, one event more changes nothing; for another, only that
  // event can be the first.
  lemma FirstInLonger(before: Client, after: Client, events: seq<Event>, e: Event, i: int, id: string)
    requires InboxInv(before) && Holds(before, after, events) && id !in before.inbox
    ensures IsFirst(events + [e], i, id) <==>
      if id in after.inbox then IsFirst(events, i, id) else i == |events| && Announced(e, id)
  {
    FirstOfLonger(events, e, i, id);
    HoldsKeys(before, after, events, id);
    hide Holds, InboxInv;
    if IsFirst(events, i, id) {
      assert Announced(events[i], id);
    }
  }

  lemma HoldsValue(before: Client, after: Client, events: seq<Event>, e: Event, id: string)
    requires InboxInv(before) && InboxInv(after) && Holds(before, after, events)
    ensures id in ApplyEvent(after, e).inbox ==> id in before.inbox || exists i :: IsFirst(events + [e], i, id)
    ensures forall i :: IsFirst(events + [e], i, id) && id !in before.inbox ==>
      id in ApplyEvent(after, e).inbox && ApplyEvent(after, e).inbox[id] == (events + [e])[i]
  {
    if id !in before.inbox {
      forall i
        ensures IsFirst(events + [e], i, id) <==>
          if id in after.inbox then IsFirst(events, i, id) else i == |events| && Announced(e, id)
      {
        FirstInLonger(before, after, events, e, i, id);
      }
      if id in after.inbox {
        var i :| IsFirst(events, i, id);
        assert IsFirst(events + [e], i, id);
      } else if Announced(e, id) {
        assert IsFirst(events + [e], |events|, id);
      }
    }
  }

  // An id applied since `before` is new to it.
  lemma AppliedSince(before: Client, after: Client, p: nat)
    requires InboxInv(before) && InboxInv(after) && before.appliedOrder <= after.appliedOrder
    requires |before.appliedOrder| <= p < |after.appliedOrder|
    ensures after.appliedOrder[p] in after.inbox && after.appliedOrder[p] !in before.inbox
  {
    assert forall k :: 0 <= k < |before.appliedOrder| ==> after.appliedOrder[k] == before.appliedOrder[k];
  }

  lemma HoldsOrder(before: Client, after: Client, events: seq<Event>, e: Event, p: int, q: int, i: int, j: int)
    requires InboxInv(before) && InboxInv(after) && Holds(before, after, events)
    requires
      var order := ApplyEvent(after, e).appliedOrder;
      && |before.appliedOrder| <= p < q < |order|
      && IsFirst(events + [e], i, order[p]) && IsFirst(events + [e], j, order[q])
    ensures i < j
  {
    var order := ApplyEvent(after, e).appliedOrder;
    AppliedSince(before, after, p);
    FirstInLonger(before, after, events, e, i, order[p]);
    if q < |after.appliedOrder| {
      AppliedSince(before, after, q);
      FirstInLonger(before, after, events, e, j, order[q]);
    } else {
      FirstInLonger(before, after, events, e, j, order[q]);
    }
  }

  lemma HoldsOneMore(before: Client, after: Client, events: seq<Event>, e: Event)
    requires InboxInv(before) && InboxInv(after) && Holds(before, after, events)
    ensures Holds(before, ApplyEvent(after, e), events + [e])
  {
    hide InboxInv, ApplyEvent, Announced;
    ApplyEventInbox(after, e);
    var next := ApplyEvent(after, e);
    assert before.appliedOrder <= next.appliedOrder;
    forall id
      ensures id in next.inbox ==> id in before.inbox || exists i :: IsFirst(events + [e], i, id)
      ensures forall i :: IsFirst(events + [e], i, id) && id !in before.inbox ==>
        id in next.inbox && next.inbox[id] == (events + [e])[i]
    {
      HoldsValue(before, after, events, e, id);
    }
    forall p, q, i, j | |before.appliedOrder| <= p < q < |next.appliedOrder|
        && IsFirst(events + [e], i, next.appliedOrder[p]) && IsFirst(events + [e], j, next.appliedOrder[q])
      ensures i < j
    {
      HoldsOrder(before, after, events, e, p, q, i, j);
    }
  }

  // Applying events leaves the client with exactly the first announcement of each new
  // message, in the order of these.
  lemma {:induction false} ApplyEventsHolds(c: Client, events: seq<Event>)
    requires InboxInv(c)
    ensures Holds(c, ApplyEvents(c, events), events) && InboxInv(ApplyEvents(c, events))
  {
    hide InboxInv, ApplyEvent;
    if events == [] {
    } else {
      var before := events[..|events| - 1];
      ApplyEventsHolds(c, before);
      ApplyEventInbox(ApplyEvents(c, before), events[|events| - 1]);
      HoldsOneMore(c, ApplyEvents(c, before), before, events[|events| - 1]);
      assert before + [events[|events| - 1]] == events;
    }
  }

  // A live message: it is held afterwards, as it came unless it was held before, and
  // the conversation's cursor is at least at its number; nothing else changes.
  lemma LiveMessage(c: Client, e: Event)
    requires InboxInv(c) && e.payload.New?
    ensures
      var after, id := ObserveNew(c, e), e.payload.message.key.messageId;
      && InboxInv(after) && id in after.inbox
      && after.inbox == (if id in c.inbox then c.inbox else c.inbox[id := e])
      && after.appliedOrder == (if id in c.inbox then c.appliedOrder else c.appliedOrder + [id])
      && CursorOf(after.cursors, e.conversationId)
           == (if e.logSeq > CursorOf(c.cursors, e.conversationId) then e.logSeq
               else CursorOf(c.cursors, e.conversationId))
      && (forall d :: d != e.conversationId ==> CursorOf(after.cursors, d) == CursorOf(c.cursors, d))
      && after.outbox == c.outbox && after.order == c.order && after.emitted == c.emitted
  {
  }

  // Cutting a stretch of events into pages changes nothing.
  lemma {:induction false} ApplyConcat(c: Client, a: seq<Event>, b: seq<Event>)
    ensures ApplyEvents(c, a + b) == ApplyEvents(ApplyEvents(c, a), b)
  {
    if b == [] {
      assert a + b == a;
    } else {
      ApplyConcat(c, a, b[..|b| - 1]);
      assert (a + b)[..|a + b| - 1] == a + b[..|b| - 1];
    }
  }

  datatype Follower = Follower(server: State, client: Client)

  // One sync of conversation `c` with no live message in between.
  ghost function FollowStep(f: Follower, op: WalkOp, c: string, limit: nat): Follower
    requires limit >= 1
  {
    match op
    case Round =>
      f.(client := ApplySync(f.client, Pages(f.server.store, [c], f.client.cursors, limit)))
    case Serve(o) => f.(server := Step(f.server, o))
  }

  ghost function FollowRun(f: Follower, ops: seq<WalkOp>, c: string, limit: nat): Follower
    requires limit >= 1
    decreases ops
  {
    if ops == [] then f else FollowRun(FollowStep(f, ops[0], c, limit), ops[1..], c, limit)
  }

  ghost predicate FollowInv(f: Follower, first: Client, c: string) {
    var start, cursor := CursorOf(first.cursors, c), CursorOf(f.client.cursors, c);
    && StoreInv(f.server.store)
    && InboxInv(first)
    && start <= cursor <= |f.server.store.Log(c)|
    && f.client.(cursors := first.cursors) == ApplyEvents(first, f.server.store.Log(c)[start..cursor])
  }

  lemma ApplyIgnoresCursors(c: Client, cursors: map<string, nat>, events: seq<Event>)
    ensures ApplyEvents(c.(cursors := cursors), events) == ApplyEvents(c, events).(cursors := cursors)
  {
    if events == [] {
    } else {
      ApplyIgnoresCursors(c, cursors, events[..|events| - 1]);
    }
  }

  lemma OnePage(store: Store, client: Client, c: string, limit: nat)
    requires limit >= 1
    ensures ApplySync(client, Pages(store, [c], client.cursors, limit))
         == ApplyPage(client, PageOf(store, c, CursorOf(client.cursors, c), limit))
  {
    var pages := Pages(store, [c], client.cursors, limit);
    assert pages == [PageOf(store, c, CursorOf(client.cursors, c), limit)];
    assert pages[..0] == [];
    assert ApplySync(client, pages[..0]) == client;
  }

  // Apart from the cursors, a page does what its events do.
  lemma PageApplies(client: Client, received: seq<Event>, first: Client, page: Page)
    requires client.(cursors := first.cursors) == ApplyEvents(first, received)
    ensures ApplyPage(client, page).(cursors := first.cursors) == ApplyEvents(first, received + page.events)
  {
    var events, applied := page.events, ApplyEvents(client, page.events);
    assert ApplyPage(client, page).(cursors := first.cursors) == applied.(cursors := first.cursors);
    hide ApplyPage, ApplyEvents;
    ApplyIgnoresCursors(client, first.cursors, events);
    assert applied.(cursors := first.cursors) == ApplyEvents(ApplyEvents(first, received), events);
    ApplyConcat(first, received, events);
  }

  lemma PageExtends(client: Client, first: Client, page: Page, log: seq<Event>)
    requires
      var start, cursor := CursorOf(first.cursors, page.conversationId), CursorOf(client.cursors, page.conversationId);
      && start <= cursor <= page.cursor <= |log| && page.events == log[cursor..page.cursor]
      && client.(cursors := first.cursors) == ApplyEvents(first, log[start..cursor])
    ensures
      var after := ApplyPage(client, page);
      && CursorOf(after.cursors, page.conversationId) == page.cursor
      && after.(cursors := first.cursors)
           == ApplyEvents(first, log[CursorOf(first.cursors, page.conversationId)..page.cursor])
  {
    var start, cursor := CursorOf(first.cursors, page.conversationId), CursorOf(client.cursors, page.conversationId);
    PageCursors(client, page);
    hide ApplyPage, ApplyEvents, CursorOf;
    PageApplies(client, log[start..cursor], first, page);
    assert log[start..cursor] + page.events == log[start..page.cursor];
  }

  // What applying a page does to the cursors.
  lemma PageCursors(client: Client, page: Page)
    ensures
      var after := ApplyPage(client, page);
      && CursorOf(after.cursors, page.conversationId)
           == Advance(CursorOf(client.cursors, page.conversationId), page.cursor)
      && forall d :: d != page.conversationId ==> CursorOf(after.cursors, d) == CursorOf(client.cursors, d)
  {
    ApplyEventsRest(client, page.events);
    hide ApplyEvents;
  }

  lemma RoundFollows(f: Follower, first: Client, c: string, limit: nat)
    requires FollowInv(f, first, c) && limit >= 1
    ensures FollowInv(FollowStep(f, Round, c, limit), first, c)
  {
    hide InboxInv, ApplyPage, PageOf, ApplyEvents, ApplySync;
    assert LogInv(f.server.store, c);
    PageIsSegment(f.server.store, c, CursorOf(f.client.cursors, c), limit);
    OnePage(f.server.store, f.client, c, limit);
    var page := PageOf(f.server.store, c, CursorOf(f.client.cursors, c), limit);
    PageNamesItself(f.server.store, c, CursorOf(f.client.cursors, c), limit);
    PageExtends(f.client, first, page, f.server.store.Log(c));
  }

  lemma PageNamesItself(store: Store, c: string, cursor: nat, limit: nat)
    requires limit >= 1
    ensures PageOf(store, c, cursor, limit).conversationId == c
  {
  }

  lemma SameHolds(before: Client, after: Client, d: Client, events: seq<Event>)
    requires Holds(before, after, events) && InboxInv(after)
    requires d.inbox == after.inbox && d.appliedOrder == after.appliedOrder
    ensures Holds(before, d, events) && InboxInv(d)
  {
  }

  // Following a conversation by sync rounds, with anything logged in between,
  // applies exactly the messages of the log up to the cursor, in log order and
  // each once.
  lemma {:induction false} FollowsLog(f: Follower, first: Client, ops: seq<WalkOp>, c: string, limit: nat)
    requires FollowInv(f, first, c) && limit >= 1
    ensures FollowInv(FollowRun(f, ops, c, limit), first, c)
    ensures InboxInv(FollowRun(f, ops, c, limit).client)
    ensures
      var end := FollowRun(f, ops, c, limit);
      Holds(first, end.client,
            end.server.store.Log(c)[CursorOf(first.cursors, c)..CursorOf(end.client.cursors, c)])
    decreases ops
  {
    var start, cursor := CursorOf(first.cursors, c), CursorOf(f.client.cursors, c);
    var log := f.server.store.Log(c);
    ApplyEventsHolds(first, log[start..cursor]);
    SameHolds(first, ApplyEvents(first, log[start..cursor]), f.client, log[start..cursor]);
    hide Holds, InboxInv, ApplyEvents, StoreInv;
    if ops == [] {
    } else {
      if ops[0].Round? {
        RoundFollows(f, first, c, limit);
      } else {
        StepInv(f.server, ops[0].op);
        var longer := Step(f.server, ops[0].op).store.Log(c);
        assert longer[..|log|] == log;
        assert longer[start..cursor] == log[start..cursor];
      }
      FollowsLog(FollowStep(f, ops[0], c, limit), first, ops[1..], c, limit);
    }
  }
}

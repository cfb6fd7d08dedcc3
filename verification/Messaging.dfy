/**
 The message handlers of server/src/realtime_server.ts on the dedup window and
 the store, each as one atomic step of an admitted, authorized sender.
 */
module Messaging {
  import opened Common
  import opened RealtimeStore
  import opened MessageDedup

  datatype Envelope = Envelope(
    messageId: string, conversationId: string, ciphertext: string, headerType: string,
    recipientDeviceId: Option<string>)
  {
    function Key(): StorageKey {
      StorageKey(messageId, recipientDeviceId)
    }
  }

  datatype Ack = Ack(
    messageId: string, conversationId: string, serverSeq: nat, logSeq: Option<nat>, duplicate: bool,
    recipientDeviceId: Option<string>)

  datatype DedupKey = DedupKey(accountId: string, key: StorageKey)

  // `touched` is the history of the dedup window, whose size is `window`.
  datatype State = State(store: Store, touched: seq<DedupKey>, window: nat)

  function Stored(env: Envelope, accountId: string, deviceId: string, serverSeq: nat, now: int): Message {
    Message(env.Key(), env.conversationId, accountId, deviceId, env.ciphertext, env.headerType, serverSeq, now)
  }

  function Accepted(store: Store, env: Envelope, accountId: string, deviceId: string, now: int): Store {
    var c := env.conversationId;
    var m := Stored(env, accountId, deviceId, store.LatestSeq(c) + 1, now);
    store.NextSeq(c).Persist(m).Append(c, New(m), m.serverSeq, now)
  }

  // The ack that a retried message gets: the original number if the stored
  // message is this sender's in this conversation, 0 otherwise.
  function DuplicateAck(store: Store, env: Envelope, accountId: string): Ack {
    var original := store.Find(env.Key());
    var sameOrigin := original.Some? && original.value.senderAccountId == accountId
                      && original.value.conversationId == env.conversationId;
    Ack(env.messageId, env.conversationId, if sameOrigin then original.value.serverSeq else 0, None, true,
        env.recipientDeviceId)
  }

  function AcceptedAck(store: Store, env: Envelope): Ack {
    Ack(env.messageId, env.conversationId, store.LatestSeq(env.conversationId) + 1,
        Some(store.LatestLogSeq(env.conversationId) + 1), false, env.recipientDeviceId)
  }

  // onMessageSend
  ghost function Send(s: State, env: Envelope, accountId: string, deviceId: string, now: int): (State, Ack) {
    var dedupKey := DedupKey(accountId, env.Key());
    var s1 := s.(touched := s.touched + [dedupKey]);
    if TouchedWithin(s.touched, dedupKey, s.window) then (s1, DuplicateAck(s.store, env, accountId))
    else (s1.(store := Accepted(s.store, env, accountId, deviceId, now)), AcceptedAck(s.store, env))
  }

  // onMessageDelivered; None when the receipt is refused as invalid.
  function DeliveredReceipt(store: Store, c: string, key: StorageKey, accountId: string, deviceId: string, now: int)
    : Option<Store>
  {
    var original := store.Find(key);
    if original.None? || original.value.conversationId != c then None
    else if original.value.senderAccountId == accountId then None
    else Some(store.Append(c, Delivered(key, accountId, deviceId), original.value.serverSeq, now))
  }

  function ClampedMark(latest: nat, requested: Option<int>): nat {
    var mark := if requested.Some? then requested.value else latest;
    if mark <= 0 then 0 else if mark <= latest then mark else latest
  }

  // onMessageRead; `requested` is the floor of a finite client value.
  function ReadReceipt(store: Store, c: string, requested: Option<int>, accountId: string, deviceId: string, now: int)
    : Store
  {
    var mark := ClampedMark(store.LatestSeq(c), requested);
    store.Append(c, Read(accountId, deviceId, mark), mark, now)
  }

  // ------------------------------------------------------------------
  // Runs
  // ------------------------------------------------------------------

  datatype Op =
    | Sending(env: Envelope, accountId: string, deviceId: string, now: int)
    | Receipt(c: string, key: StorageKey, accountId: string, deviceId: string, now: int)
    | Reading(c: string, requested: Option<int>, accountId: string, deviceId: string, now: int)

  ghost function Step(s: State, op: Op): State {
    match op
    case Sending(env, a, d, now) => Send(s, env, a, d, now).0
    case Receipt(c, key, a, d, now) =>
      var r := DeliveredReceipt(s.store, c, key, a, d, now);
      if r.Some? then s.(store := r.value) else s
    case Reading(c, requested, a, d, now) => s.(store := ReadReceipt(s.store, c, requested, a, d, now))
  }

  ghost function Run(s: State, ops: seq<Op>): State {
    if ops == [] then s else Step(Run(s, ops[..|ops| - 1]), ops[|ops| - 1])
  }

  function Start(window: nat): State {
    State(EMPTY, [], window)
  }

  // ------------------------------------------------------------------
  // Well-formed logs
  // ------------------------------------------------------------------

  // The number of message.new entries.
  function News(log: seq<Event>): nat {
    if log == [] then 0
    else News(log[..|log| - 1]) + (if log[|log| - 1].payload.New? then 1 else 0)
  }

  ghost predicate Announces(e: Event, key: StorageKey, other: string, serverSeq: int) {
    e.payload.New? && e.payload.message.key == key && e.payload.message.senderAccountId != other
    && e.serverSeq == serverSeq
  }

  ghost predicate EntryInv(log: seq<Event>, i: nat)
    requires i < |log|
  {
    var e := log[i];
    match e.payload
    case New(m) =>
      // the k-th message of the conversation has number k
      && e.serverSeq == m.serverSeq == News(log[..i]) + 1
      && m.conversationId == e.conversationId
    case Delivered(key, reporter, _) =>
      exists j :: 0 <= j < i && Announces(log[j], key, reporter, e.serverSeq)
    case Read(_, _, mark) =>
      && e.serverSeq == mark
      && 0 <= mark <= News(log[..i])
  }

  ghost predicate LogInv(store: Store, c: string) {
    var log := store.Log(c);
    && WellNumbered(log)
    && store.LatestLogSeq(c) == |log|
    && store.LatestSeq(c) == News(log)
    && (forall i :: 0 <= i < |log| ==> log[i].conversationId == c)
    && (forall i :: 0 <= i < |log| ==> EntryInv(log, i))
  }

  // A stored message was logged in its conversation.
  ghost predicate MessageInv(store: Store, key: StorageKey)
    requires key in store.messages
  {
    var m := store.messages[key];
    && m.key == key
    && exists i :: 0 <= i < |store.Log(m.conversationId)| && LoggedAs(store.Log(m.conversationId)[i], m)
  }

  ghost predicate LoggedAs(e: Event, m: Message) {
    e.payload == New(m) && e.serverSeq == m.serverSeq
  }

  ghost predicate StoreInv(store: Store) {
    && (forall c :: LogInv(store, c))
    && (forall key :: key in store.messages ==> MessageInv(store, key))
  }

  // One entry more, in order, keeps a log in order.
  lemma LogGrows(log: seq<Event>, e: Event)
    requires forall i :: 0 <= i < |log| ==> EntryInv(log, i)
    requires EntryInv(log + [e], |log|)
    ensures forall i :: 0 <= i <= |log| ==> EntryInv(log + [e], i)
    ensures News(log + [e]) == News(log) + (if e.payload.New? then 1 else 0)
  {
    var longer := log + [e];
    assert longer[..|log|] == log;
    forall i | 0 <= i < |log|
      ensures EntryInv(longer, i)
    {
      assert EntryInv(log, i);
      assert longer[..i] == log[..i];
      if log[i].payload.Delivered? {
        var j :| 0 <= j < i && Announces(log[j], log[i].payload.key, log[i].payload.byAccountId, log[i].serverSeq);
        assert longer[j] == log[j];
      }
    }
  }

  lemma LoggedInv(before: Store, after: Store, c: string, e: Event)
    requires LogInv(before, c)
    requires after.Log(c) == before.Log(c) + [e]
    requires e.conversationId == c && e.logSeq == |before.Log(c)| + 1 == after.LatestLogSeq(c)
    requires after.LatestSeq(c) == before.LatestSeq(c) + (if e.payload.New? then 1 else 0)
    requires EntryInv(after.Log(c), |before.Log(c)|)
    ensures LogInv(after, c)
  {
    hide EntryInv;
    LogGrows(before.Log(c), e);
  }

  lemma OtherLogKept(before: Store, after: Store, c: string)
    requires LogInv(before, c)
    requires after.Log(c) == before.Log(c)
    requires after.LatestLogSeq(c) == before.LatestLogSeq(c) && after.LatestSeq(c) == before.LatestSeq(c)
    ensures LogInv(after, c)
  {
    hide EntryInv, News;
  }

  lemma AppendInv(before: Store, after: Store, c: string, payload: Payload, serverSeq: int, now: int)
    requires StoreInv(before)
    requires after.eventLog == before.Append(c, payload, serverSeq, now).eventLog
    requires after.logCursors == before.Append(c, payload, serverSeq, now).logCursors
    requires after.cursors == (if payload.New? then before.NextSeq(c).cursors else before.cursors)
    requires EntryInv(after.Log(c), |before.Log(c)|)
    ensures forall d :: LogInv(after, d)
    ensures forall d :: before.Log(d) <= after.Log(d)
  {
    var e := Event(c, payload, serverSeq, now, |before.Log(c)| + 1);
    assert LogInv(before, c);
    assert after.Log(c) == before.Log(c) + [e];
    LoggedInv(before, after, c, e);
    forall d
      ensures LogInv(after, d) && before.Log(d) <= after.Log(d)
    {
      if d != c {
        OtherLogKept(before, after, d);
      }
    }
  }

  lemma MessagesKept(before: Store, after: Store, added: set<StorageKey>)
    requires StoreInv(before)
    requires forall d :: before.Log(d) <= after.Log(d)
    requires forall key :: key in after.messages && key !in added ==>
      key in before.messages && after.messages[key] == before.messages[key]
    ensures forall key :: key in after.messages && key !in added ==> MessageInv(after, key)
  {
    forall key | key in after.messages && key !in added
      ensures MessageInv(after, key)
    {
      assert MessageInv(before, key);
      var m := before.messages[key];
      var i :| 0 <= i < |before.Log(m.conversationId)| && LoggedAs(before.Log(m.conversationId)[i], m);
      assert LoggedAs(after.Log(m.conversationId)[i], m);
    }
  }

  lemma AcceptedInv(store: Store, env: Envelope, a: string, d: string, now: int)
    requires StoreInv(store)
    ensures StoreInv(Accepted(store, env, a, d, now))
    ensures forall c :: store.Log(c) <= Accepted(store, env, a, d, now).Log(c)
  {
    var c := env.conversationId;
    var after := Accepted(store, env, a, d, now);
    var m := Stored(env, a, d, store.LatestSeq(c) + 1, now);
    assert LogInv(store, c);
    assert after.Log(c)[..|store.Log(c)|] == store.Log(c);
    AppendInv(store, after, c, New(m), m.serverSeq, now);
    MessagesKept(store, after, {m.key});
    assert LoggedAs(after.Log(c)[|store.Log(c)|], m);
  }

  lemma ReceiptInv(store: Store, c: string, key: StorageKey, a: string, d: string, now: int)
    requires StoreInv(store) && DeliveredReceipt(store, c, key, a, d, now).Some?
    ensures StoreInv(DeliveredReceipt(store, c, key, a, d, now).value)
    ensures forall e :: store.Log(e) <= DeliveredReceipt(store, c, key, a, d, now).value.Log(e)
  {
    var after := DeliveredReceipt(store, c, key, a, d, now).value;
    assert MessageInv(store, key);
    var m := store.messages[key];
    var i :| 0 <= i < |store.Log(c)| && LoggedAs(store.Log(c)[i], m);
    assert Announces(after.Log(c)[i], key, a, m.serverSeq);
    AppendInv(store, after, c, Delivered(key, a, d), m.serverSeq, now);
    MessagesKept(store, after, {});
  }

  lemma ReadInv(store: Store, c: string, requested: Option<int>, a: string, d: string, now: int)
    requires StoreInv(store)
    ensures StoreInv(ReadReceipt(store, c, requested, a, d, now))
    ensures forall e :: store.Log(e) <= ReadReceipt(store, c, requested, a, d, now).Log(e)
  {
    var after := ReadReceipt(store, c, requested, a, d, now);
    var mark := ClampedMark(store.LatestSeq(c), requested);
    assert LogInv(store, c);
    assert after.Log(c)[..|store.Log(c)|] == store.Log(c);
    AppendInv(store, after, c, Read(a, d, mark), mark, now);
    MessagesKept(store, after, {});
  }

  lemma StepInv(s: State, op: Op)
    requires StoreInv(s.store)
    ensures StoreInv(Step(s, op).store)
    ensures forall c :: s.store.Log(c) <= Step(s, op).store.Log(c)
  {
    match op
    case Sending(env, a, d, now) => AcceptedInv(s.store, env, a, d, now);
    case Receipt(c, key, a, d, now) =>
      if DeliveredReceipt(s.store, c, key, a, d, now).Some? {
        ReceiptInv(s.store, c, key, a, d, now);
      }
    case Reading(c, requested, a, d, now) => ReadInv(s.store, c, requested, a, d, now);
  }

  // A run from any well-formed state keeps it so and only extends the logs.
  lemma {:induction false} RunKeeps(s: State, ops: seq<Op>)
    requires StoreInv(s.store)
    ensures StoreInv(Run(s, ops).store)
    ensures forall c :: s.store.Log(c) <= Run(s, ops).store.Log(c)
  {
    hide StoreInv, Step;
    if ops == [] {
    } else {
      RunKeeps(s, ops[..|ops| - 1]);
      StepInv(Run(s, ops[..|ops| - 1]), ops[|ops| - 1]);
    }
  }

  // Over every run: logs are numbered 1, 2, 3, ..., the k-th message of a
  // conversation has number k, receipts point back, and marks stay in range.
  lemma RunInv(window: nat, ops: seq<Op>)
    ensures StoreInv(Run(Start(window), ops).store)
  {
    assert StoreInv(EMPTY);
    RunKeeps(Start(window), ops);
  }

  lemma {:induction false} NewsMonotone(log: seq<Event>, i: nat, j: nat)
    requires i < j <= |log|
    ensures News(log[..i]) + (if log[i].payload.New? then 1 else 0) <= News(log[..j])
  {
    assert log[..j][..j - 1] == log[..j - 1];
    if i + 1 == j {
    } else {
      NewsMonotone(log, i, j - 1);
    }
  }

  lemma {:induction false} NewsReached(log: seq<Event>, n: nat, k: nat) returns (i: nat)
    requires n <= |log| && 1 <= k <= News(log[..n])
    ensures i < n && log[i].payload.New? && News(log[..i]) == k - 1
  {
    assert log[..n][..n - 1] == log[..n - 1];
    if k <= News(log[..n - 1]) {
      i := NewsReached(log, n - 1, k);
    } else {
      i := n - 1;
    }
  }

  ghost predicate Logged(log: seq<Event>, number: int) {
    exists i :: 0 <= i < |log| && log[i].payload.New? && log[i].serverSeq == number
  }

  // The message numbers of a conversation rise along its log and leave no gap.
  lemma NumbersRiseWithoutGap(window: nat, ops: seq<Op>, c: string)
    ensures
      var store := Run(Start(window), ops).store;
      var log := store.Log(c);
      && (forall i, j :: 0 <= i < j < |log| && log[i].payload.New? && log[j].payload.New? ==>
            log[i].serverSeq < log[j].serverSeq)
      && (forall k :: Logged(log, k) <==> 1 <= k <= store.LatestSeq(c))
  {
    RunInv(window, ops);
    var store := Run(Start(window), ops).store;
    var log := store.Log(c);
    assert LogInv(store, c);
    assert log[..|log|] == log;
    forall i, j | 0 <= i < j < |log| && log[i].payload.New? && log[j].payload.New?
      ensures log[i].serverSeq < log[j].serverSeq
    {
      assert EntryInv(log, i) && EntryInv(log, j);
      NewsMonotone(log, i, j);
    }
    forall k
      ensures Logged(log, k) <==> 1 <= k <= store.LatestSeq(c)
    {
      if 1 <= k <= store.LatestSeq(c) {
        var i := NewsReached(log, |log|, k);
        assert EntryInv(log, i);
      }
      if Logged(log, k) {
        var i :| 0 <= i < |log| && log[i].payload.New? && log[i].serverSeq == k;
        assert EntryInv(log, i);
        NewsMonotone(log, i, |log|);
      }
    }
  }

  // ------------------------------------------------------------------
  // What is logged
  // ------------------------------------------------------------------

  // The message says what the envelope said, and who sent it.
  predicate Carries(m: Message, env: Envelope, accountId: string, deviceId: string) {
    && m.ciphertext == env.ciphertext && m.headerType == env.headerType
    && m.key.messageId == env.messageId && m.key.device == env.recipientDeviceId
    && m.conversationId == env.conversationId
    && m.senderAccountId == accountId && m.senderDeviceId == deviceId
  }

  // One entry more in conversation `c`, none elsewhere.
  ghost predicate GrowsBy(before: Store, after: Store, c: string, e: Event) {
    after.Log(c) == before.Log(c) + [e] && forall d :: d != c ==> after.Log(d) == before.Log(d)
  }

  // A send that is acked as new is logged once, under the numbers in the ack and with
  // everything the envelope carried, and is found under its key; a duplicate logs and
  // stores nothing.
  lemma SentIsLogged(s: State, env: Envelope, accountId: string, deviceId: string, now: int)
    ensures
      var (t, ack) := Send(s, env, accountId, deviceId, now);
      && ack.messageId == env.messageId && ack.conversationId == env.conversationId
      && ack.recipientDeviceId == env.recipientDeviceId
      && (ack.duplicate ==> t.store == s.store && ack.logSeq == None)
      && (!ack.duplicate ==>
            && ack.logSeq.Some? && t.store.Find(env.Key()).Some?
            && var m := t.store.Find(env.Key()).value;
               && Carries(m, env, accountId, deviceId) && m.serverSeq == ack.serverSeq && m.receivedAtMs == now
               && GrowsBy(s.store, t.store, env.conversationId,
                          Event(env.conversationId, New(m), ack.serverSeq, now, ack.logSeq.value)))
  {
    hide TouchedWithin;
  }

  // A receipt is refused unless the message is stored, in that conversation and by
  // another account; otherwise it is logged under the message's number, in the name
  // of the device that gave it.
  lemma ReceiptIsLogged(store: Store, c: string, key: StorageKey, accountId: string, deviceId: string, now: int)
    ensures
      var after, m := DeliveredReceipt(store, c, key, accountId, deviceId, now), store.Find(key);
      && (after.Some? <==> m.Some? && m.value.conversationId == c && m.value.senderAccountId != accountId)
      && (after.Some? ==>
            GrowsBy(store, after.value, c, Event(c, Delivered(key, accountId, deviceId), m.value.serverSeq, now,
                                                 store.LatestLogSeq(c) + 1)))
  {
  }

  // A read mark is logged as it was asked for when it lies within the numbers given
  // out, and otherwise as the nearest of these; without a request it is the latest.
  lemma ReadIsLogged(store: Store, c: string, requested: Option<int>, accountId: string, deviceId: string, now: int)
    ensures
      var after, latest := ReadReceipt(store, c, requested, accountId, deviceId, now), store.LatestSeq(c);
      exists mark :: GrowsBy(store, after, c, Event(c, Read(accountId, deviceId, mark), mark, now,
                                                    store.LatestLogSeq(c) + 1))
        && (requested.None? ==> mark == latest)
        && (requested.Some? && 0 <= requested.value <= latest ==> mark == requested.value)
        && (requested.Some? && requested.value < 0 ==> mark == 0)
        && (requested.Some? && requested.value > latest ==> mark == latest)
  {
    var after := ReadReceipt(store, c, requested, accountId, deviceId, now);
    var mark := ClampedMark(store.LatestSeq(c), requested);
    assert GrowsBy(store, after, c, Event(c, Read(accountId, deviceId, mark), mark, now, store.LatestLogSeq(c) + 1));
  }

  // ------------------------------------------------------------------
  // Whose retries are duplicates
  // ------------------------------------------------------------------

  // Account `a` sent under this key in the run.
  predicate SentBefore(ops: seq<Op>, a: string, key: StorageKey) {
    exists i :: 0 <= i < |ops| && ops[i].Sending? && ops[i].accountId == a && ops[i].env.Key() == key
  }

  lemma {:induction false} TouchedBySends(window: nat, ops: seq<Op>, a: string, key: StorageKey)
    ensures DedupKey(a, key) in Run(Start(window), ops).touched <==> SentBefore(ops, a, key)
    ensures Run(Start(window), ops).window == window
  {
    if ops == [] {
    } else {
      var before, op := ops[..|ops| - 1], ops[|ops| - 1];
      TouchedBySends(window, before, a, key);
      StepTouches(Run(Start(window), before), op, a, key);
      hide Step;
      if SentBefore(before, a, key) {
        var i :| 0 <= i < |before| && before[i].Sending? && before[i].accountId == a && before[i].env.Key() == key;
        assert ops[i] == before[i];
      }
      if SentBefore(ops, a, key) {
        var i :| 0 <= i < |ops| && ops[i].Sending? && ops[i].accountId == a && ops[i].env.Key() == key;
        assert i < |before| ==> before[i] == ops[i];
      }
    }
  }

  lemma StepTouches(s: State, op: Op, a: string, key: StorageKey)
    ensures DedupKey(a, key) in Step(s, op).touched <==>
      DedupKey(a, key) in s.touched || (op.Sending? && op.accountId == a && op.env.Key() == key)
    ensures Step(s, op).window == s.window
  {
    hide TouchedWithin;
  }

  // Over every run: a send is taken for a duplicate only if the same account itself
  // sent under that key, so no account can swallow the messages of another, nor the
  // copy for one device that for another.
  lemma OnlyOwnDuplicates(window: nat, ops: seq<Op>, env: Envelope, a: string, d: string, now: int)
    requires Send(Run(Start(window), ops), env, a, d, now).1.duplicate
    ensures exists i ::
      && 0 <= i < |ops| && ops[i].Sending? && ops[i].accountId == a
      && ops[i].env.messageId == env.messageId && ops[i].env.recipientDeviceId == env.recipientDeviceId
  {
    var s := Run(Start(window), ops);
    TouchedBySends(window, ops, a, env.Key());
    assert TouchedWithin(s.touched, DedupKey(a, env.Key()), s.window);
    assert SentBefore(ops, a, env.Key());
    var i :| 0 <= i < |ops| && ops[i].Sending? && ops[i].accountId == a && ops[i].env.Key() == env.Key();
    assert ops[i].env.messageId == env.messageId;
  }

  // Over every run: the ack of a duplicate carries the number of the stored message
  // exactly if that message is this account's, in this conversation; otherwise 0.
  lemma DuplicateNumberExactlyWhen(window: nat, ops: seq<Op>, env: Envelope, a: string, d: string, now: int)
    requires Send(Run(Start(window), ops), env, a, d, now).1.duplicate
    ensures
      var store, ack := Run(Start(window), ops).store, Send(Run(Start(window), ops), env, a, d, now).1;
      var m := store.Find(env.Key());
      if m.Some? && m.value.senderAccountId == a && m.value.conversationId == env.conversationId
      then ack.serverSeq == m.value.serverSeq >= 1
      else ack.serverSeq == 0
  {
    RunInv(window, ops);
    var store := Run(Start(window), ops).store;
    hide Run, TouchedWithin;
    if env.Key() in store.messages {
      StoredNumbered(store, env.Key());
    }
  }

  lemma StoredNumbered(store: Store, key: StorageKey)
    requires StoreInv(store) && key in store.messages
    ensures store.messages[key].serverSeq >= 1
  {
    var m := store.messages[key];
    assert MessageInv(store, key) && LogInv(store, m.conversationId);
    var i :| 0 <= i < |store.Log(m.conversationId)| && LoggedAs(store.Log(m.conversationId)[i], m);
    assert EntryInv(store.Log(m.conversationId), i);
  }

  // ------------------------------------------------------------------
  // Nothing is invented
  // ------------------------------------------------------------------

  // The entry was asked for by that operation.
  predicate AskedBy(e: Event, op: Op) {
    match e.payload
    case New(m) => op.Sending? && op.env.conversationId == e.conversationId && op.now == e.atMs
                   && Carries(m, op.env, op.accountId, op.deviceId)
    case Delivered(key, a, d) => op == Receipt(e.conversationId, key, a, d, e.atMs)
    case Read(a, d, mark) => op.Reading? && op.c == e.conversationId && op.accountId == a && op.deviceId == d
                             && op.now == e.atMs && (op.requested.Some? ==> mark <= op.requested.value || mark == 0)
  }

  // What a step appends anywhere was asked for by it.
  lemma StepAsked(s: State, op: Op, c: string, i: nat)
    requires StoreInv(s.store) && |s.store.Log(c)| <= i < |Step(s, op).store.Log(c)|
    ensures AskedBy(Step(s, op).store.Log(c)[i], op)
  {
    match op
    case Sending(env, a, d, now) => SentIsLogged(s, env, a, d, now);
    case Receipt(_, key, a, d, now) => ReceiptIsLogged(s.store, op.c, key, a, d, now);
    case Reading(_, requested, a, d, now) =>
      ReadIsLogged(s.store, op.c, requested, a, d, now);
  }

  // Over every run: each logged message, receipt and read mark was asked for by some
  // operation of the run, by the account and device that it names and with what the
  // message carries.
  lemma {:induction false} NothingInvented(window: nat, ops: seq<Op>, c: string, i: nat)
    requires i < |Run(Start(window), ops).store.Log(c)|
    ensures exists k :: 0 <= k < |ops| && AskedBy(Run(Start(window), ops).store.Log(c)[i], ops[k])
  {
    if ops == [] {
    } else {
      var before, op := ops[..|ops| - 1], ops[|ops| - 1];
      var s := Run(Start(window), before);
      RunInv(window, before);
      StepInv(s, op);
      hide StoreInv, Step;
      if i < |s.store.Log(c)| {
        NothingInvented(window, before, c, i);
        var k :| 0 <= k < |before| && AskedBy(s.store.Log(c)[i], before[k]);
        assert ops[k] == before[k];
      } else {
        StepAsked(s, op, c, i);
      }
    }
  }
}

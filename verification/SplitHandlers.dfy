/**
 The same handlers cut at every `await`: between two steps of one handler any
 step of any other may run. What runs up to the next `await` is one step, so
 accepting an id and drawing its number, or accepting it and finding the
 original, are still one step each.
 */
module SplitHandlers {
  import opened Common
  import opened RealtimeStore
  import opened MessageDedup
  import opened Messaging

  // What a suspended handler will do next.
  datatype Phase =
    | Numbered(env: Envelope, accountId: string, deviceId: string, serverSeq: nat)
    | Persisted(m: Message)
    | Answering(ack: Ack)
    | Found(c: string, key: StorageKey, reporter: string, reporterDevice: string, number: nat)
    | Marked(c: string, reader: string, readerDevice: string, mark: nat)

  datatype Split = Split(server: State, pending: map<nat, Phase>) {
    function Log(c: string): seq<Event> {
      server.store.Log(c)
    }
  }

  datatype Op =
    | BeginSend(h: nat, env: Envelope, accountId: string, deviceId: string)
    | BeginReceipt(h: nat, c: string, key: StorageKey, accountId: string, deviceId: string)
    | BeginRead(h: nat, c: string, requested: Option<int>, accountId: string, deviceId: string)
    | Resume(h: nat, now: int)

  predicate Enabled(s: Split, op: Op) {
    match op
    case BeginReceipt(h, c, key, a, d) =>
      && h !in s.pending
      && DeliveredReceipt(s.server.store, c, key, a, d, 0).Some?
    case Resume(h, _) => h in s.pending
    case _ => op.h !in s.pending
  }

  ghost function Begin(s: Split, op: Op): Split
    requires Enabled(s, op) && !op.Resume?
  {
    match op
    case BeginSend(h, env, a, d) =>
      var server := s.server.(touched := s.server.touched + [DedupKey(a, env.Key())]);
      if TouchedWithin(s.server.touched, DedupKey(a, env.Key()), s.server.window) then
        Split(server, s.pending[h := Answering(DuplicateAck(s.server.store, env, a))])
      else
        Split(server.(store := s.server.store.NextSeq(env.conversationId)),
              s.pending[h := Numbered(env, a, d, s.server.store.LatestSeq(env.conversationId) + 1)])
    case BeginReceipt(h, c, key, a, d) =>
      s.(pending := s.pending[h := Found(c, key, a, d, s.server.store.messages[key].serverSeq)])
    case BeginRead(h, c, requested, a, d) =>
      s.(pending := s.pending[h := Marked(c, a, d, ClampedMark(s.server.store.LatestSeq(c), requested))])
  }

  // A handler's last append; it is gone afterwards.
  function Finish(s: Split, h: nat, c: string, payload: Payload, number: nat, now: int): Split {
    Split(s.server.(store := s.server.store.Append(c, payload, number, now)), s.pending - {h})
  }

  function Persist(s: Split, h: nat, m: Message): Split {
    Split(s.server.(store := s.server.store.Persist(m)), s.pending[h := Persisted(m)])
  }

  function Resumed(s: Split, h: nat, now: int): Split
    requires h in s.pending
  {
    match s.pending[h]
    case Numbered(env, a, d, n) => Persist(s, h, Stored(env, a, d, n, now))
    case Persisted(m) => Finish(s, h, m.conversationId, New(m), m.serverSeq, m.receivedAtMs)
    case Answering(_) => s.(pending := s.pending - {h})
    case Found(c, key, a, d, n) => Finish(s, h, c, Delivered(key, a, d), n, now)
    case Marked(c, a, d, mark) => Finish(s, h, c, Read(a, d, mark), mark, now)
  }

  ghost function Step(s: Split, op: Op): Split
    requires Enabled(s, op)
  {
    if op.Resume? then Resumed(s, op.h, op.now) else Begin(s, op)
  }

  ghost predicate EnabledRun(s: Split, ops: seq<Op>)
    decreases |ops|, 0
  {
    ops == [] || (EnabledRun(s, ops[..|ops| - 1]) && Enabled(Run(s, ops[..|ops| - 1]), ops[|ops| - 1]))
  }

  ghost function Run(s: Split, ops: seq<Op>): Split
    requires EnabledRun(s, ops)
    decreases |ops|, 1
  {
    if ops == [] then s else Step(Run(s, ops[..|ops| - 1]), ops[|ops| - 1])
  }

  function Idle(window: nat): Split {
    Split(Start(window), map[])
  }

  // ------------------------------------------------------------------
  // Numbers stay unique
  // ------------------------------------------------------------------

  predicate Holds(p: Phase, c: string) {
    match p
    case Numbered(env, _, _, _) => env.conversationId == c
    case Persisted(m) => m.conversationId == c
    case _ => false
  }

  function NumberOf(p: Phase): nat {
    match p
    case Numbered(_, _, _, n) => n
    case Persisted(m) => m.serverSeq
    case _ => 0
  }

  ghost predicate LogNumbers(log: seq<Event>, latest: nat) {
    && WellNumbered(log)
    && (forall i :: 0 <= i < |log| && log[i].payload.New? ==> 1 <= log[i].serverSeq <= latest)
    && (forall i, j :: 0 <= i < j < |log| && log[i].payload.New? && log[j].payload.New? ==>
          log[i].serverSeq != log[j].serverSeq)
  }

  // The number held by a suspended send is in range and not logged.
  ghost predicate HeldNumber(p: Phase, log: seq<Event>, latest: nat, c: string) {
    Holds(p, c) ==>
      && 1 <= NumberOf(p) <= latest
      && forall i :: 0 <= i < |log| && log[i].payload.New? ==> NumberOf(p) != log[i].serverSeq
  }

  ghost predicate HeldApart(p: Phase, q: Phase, c: string) {
    Holds(p, c) && Holds(q, c) ==> NumberOf(p) != NumberOf(q)
  }

  ghost predicate NumbersInv(s: Split, c: string) {
    var log, latest := s.Log(c), s.server.store.LatestSeq(c);
    && s.server.store.LatestLogSeq(c) == |log|
    && LogNumbers(log, latest)
    && (forall h :: h in s.pending ==> HeldNumber(s.pending[h], log, latest, c))
    && (forall h, k :: h in s.pending && k in s.pending && h != k ==> HeldApart(s.pending[h], s.pending[k], c))
  }

  // What a handler's first step leaves alone.
  lemma BeginEffect(s: Split, op: Op)
    requires Enabled(s, op) && !op.Resume?
    ensures
      var t := Begin(s, op);
      && t.pending.Keys == s.pending.Keys + {op.h}
      && (forall h :: h in s.pending ==> t.pending[h] == s.pending[h])
      && t.server.store.eventLog == s.server.store.eventLog
      && t.server.store.logCursors == s.server.store.logCursors
      && t.server.store.messages == s.server.store.messages
      && !t.pending[op.h].Persisted?
      && (t.pending[op.h].Numbered? ==> op.BeginSend? && op.env == t.pending[op.h].env)
      && (forall c ::
            if Holds(t.pending[op.h], c)
            then NumberOf(t.pending[op.h]) == t.server.store.LatestSeq(c) == s.server.store.LatestSeq(c) + 1
            else t.server.store.LatestSeq(c) == s.server.store.LatestSeq(c))
  {
    hide TouchedWithin;
  }

  lemma BeginNumbers(s: Split, op: Op, c: string)
    requires NumbersInv(s, c) && Enabled(s, op) && !op.Resume?
    ensures NumbersInv(Begin(s, op), c)
  {
    BeginEffect(s, op);
    hide Begin, Holds, NumberOf;
    var t := Begin(s, op);
    forall h | h in t.pending
      ensures HeldNumber(t.pending[h], t.Log(c), t.server.store.LatestSeq(c), c)
      ensures h != op.h ==> HeldApart(t.pending[h], t.pending[op.h], c)
    {
      assert h != op.h ==> HeldNumber(s.pending[h], s.Log(c), s.server.store.LatestSeq(c), c);
    }
  }

  lemma LogNumbersGrow(log: seq<Event>, latest: nat, e: Event)
    requires LogNumbers(log, latest) && e.logSeq == |log| + 1
    requires e.payload.New? ==> 1 <= e.serverSeq <= latest
    requires e.payload.New? ==> forall i :: 0 <= i < |log| && log[i].payload.New? ==> e.serverSeq != log[i].serverSeq
    ensures LogNumbers(log + [e], latest)
  {
  }

  lemma PersistNumbers(s: Split, h: nat, m: Message, c: string)
    requires NumbersInv(s, c) && h in s.pending && s.pending[h].Numbered?
    requires m.conversationId == s.pending[h].env.conversationId && m.serverSeq == s.pending[h].serverSeq
    ensures NumbersInv(Persist(s, h, m), c)
  {
    var t := Persist(s, h, m);
    forall k | k in t.pending
      ensures HeldNumber(t.pending[k], t.Log(c), t.server.store.LatestSeq(c), c)
      ensures k != h ==> HeldApart(t.pending[k], t.pending[h], c)
    {
      assert HeldNumber(s.pending[k], s.Log(c), s.server.store.LatestSeq(c), c);
      assert k != h ==> HeldApart(s.pending[k], s.pending[h], c);
    }
  }

  // The finishing step: the handler leaves and one event is appended, carrying
  // the handler's own number if it is a message.
  lemma FinishNumbers(s: Split, h: nat, d: string, payload: Payload, n: nat, now: int, c: string)
    requires NumbersInv(s, c) && h in s.pending
    requires payload.New? ==> Holds(s.pending[h], d) && n == NumberOf(s.pending[h])
    ensures NumbersInv(Finish(s, h, d, payload, n, now), c)
  {
    var t, log := Finish(s, h, d, payload, n, now), s.Log(c);
    assert HeldNumber(s.pending[h], log, s.server.store.LatestSeq(c), c);
    if d == c {
      LogNumbersGrow(log, s.server.store.LatestSeq(c), t.Log(c)[|log|]);
    }
    forall k | k in t.pending
      ensures HeldNumber(t.pending[k], t.Log(c), t.server.store.LatestSeq(c), c)
    {
      assert HeldNumber(s.pending[k], log, s.server.store.LatestSeq(c), c);
      assert HeldApart(s.pending[k], s.pending[h], c);
    }
  }

  lemma ResumeNumbers(s: Split, h: nat, now: int, c: string)
    requires NumbersInv(s, c) && h in s.pending
    ensures NumbersInv(Resumed(s, h, now), c)
  {
    match s.pending[h]
    case Numbered(env, a, d, n) => PersistNumbers(s, h, Stored(env, a, d, n, now), c);
    case Persisted(m) => FinishNumbers(s, h, m.conversationId, New(m), m.serverSeq, m.receivedAtMs, c);
    case Answering(_) =>
    case Found(d, key, a, v, n) => FinishNumbers(s, h, d, Delivered(key, a, v), n, now, c);
    case Marked(d, a, v, mark) => FinishNumbers(s, h, d, Read(a, v, mark), mark, now, c);
  }

  lemma {:induction false} RunNumbers(window: nat, ops: seq<Op>, c: string)
    requires EnabledRun(Idle(window), ops)
    ensures NumbersInv(Run(Idle(window), ops), c)
  {
    if ops == [] {
    } else {
      var s, op := Run(Idle(window), ops[..|ops| - 1]), ops[|ops| - 1];
      RunNumbers(window, ops[..|ops| - 1], c);
      hide NumbersInv, Begin, Resumed;
      if op.Resume? {
        ResumeNumbers(s, op.h, op.now, c);
      } else {
        BeginNumbers(s, op, c);
      }
    }
  }

  // However the handlers interleave, log numbers are 1, 2, 3, ... and no two
  // logged messages of a conversation share a number.
  lemma UniqueUnderInterleaving(window: nat, ops: seq<Op>, c: string)
    requires EnabledRun(Idle(window), ops)
    ensures
      var log := Run(Idle(window), ops).Log(c);
      && WellNumbered(log)
      && (forall i, j :: 0 <= i < j < |log| && log[i].payload.New? && log[j].payload.New? ==>
            log[i].serverSeq != log[j].serverSeq)
  {
    RunNumbers(window, ops, c);
  }

  // ------------------------------------------------------------------
  // Where a stored message is
  // ------------------------------------------------------------------

  ghost predicate IsLogged(log: seq<Event>, m: Message) {
    exists i :: 0 <= i < |log| && LoggedAs(log[i], m)
  }

  // A suspended send has persisted `m` and not yet appended it.
  ghost predicate InHand(s: Split, m: Message) {
    exists k :: k in s.pending && s.pending[k] == Persisted(m)
  }

  ghost predicate Placed(s: Split, m: Message) {
    IsLogged(s.Log(m.conversationId), m) || InHand(s, m)
  }

  // `m` is the message that a receipt in preparation reports.
  predicate Reports(p: Phase, m: Message)
    requires p.Found?
  {
    p.key == m.key && p.c == m.conversationId && p.reporter != m.senderAccountId && p.number == m.serverSeq
  }

  ghost predicate FoundInv(s: Split, h: nat)
    requires h in s.pending
  {
    s.pending[h].Found? ==> exists m :: Placed(s, m) && Reports(s.pending[h], m)
  }

  ghost predicate StoredInv(s: Split) {
    forall key :: key in s.server.store.messages ==>
      s.server.store.messages[key].key == key && Placed(s, s.server.store.messages[key])
  }

  ghost predicate OriginInv(s: Split) {
    StoredInv(s) && forall h :: h in s.pending ==> FoundInv(s, h)
  }

  lemma LogsExtend(s: Split, op: Op, c: string)
    requires Enabled(s, op)
    ensures s.Log(c) <= Step(s, op).Log(c)
    ensures |Step(s, op).Log(c)| <= |s.Log(c)| + 1
  {
    hide TouchedWithin;
  }

  lemma LoggedStays(log: seq<Event>, longer: seq<Event>, m: Message)
    requires IsLogged(log, m) && log <= longer
    ensures IsLogged(longer, m)
  {
    var i :| 0 <= i < |log| && LoggedAs(log[i], m);
    assert LoggedAs(longer[i], m);
  }

  lemma PlacedStays(s: Split, op: Op, m: Message)
    requires Enabled(s, op) && Placed(s, m)
    ensures Placed(Step(s, op), m)
  {
    LogsExtend(s, op, m.conversationId);
    if IsLogged(s.Log(m.conversationId), m) {
      LoggedStays(s.Log(m.conversationId), Step(s, op).Log(m.conversationId), m);
    } else {
      var k :| k in s.pending && s.pending[k] == Persisted(m);
      if op.h == k {
        assert op.Resume?;
        AppendedIsLogged(s, k, op.now);
      } else {
        PendingStays(s, op, k);
      }
    }
  }

  lemma AppendedIsLogged(s: Split, k: nat, now: int)
    requires k in s.pending && s.pending[k].Persisted?
    ensures IsLogged(Resumed(s, k, now).Log(s.pending[k].m.conversationId), s.pending[k].m)
  {
    var m := s.pending[k].m;
    var log := s.Log(m.conversationId);
    assert LoggedAs(Resumed(s, k, now).Log(m.conversationId)[|log|], m);
  }

  // Steps of other handlers do not touch a suspended one.
  lemma PendingStays(s: Split, op: Op, k: nat)
    requires Enabled(s, op) && k in s.pending && op.h != k
    ensures k in Step(s, op).pending && Step(s, op).pending[k] == s.pending[k]
  {
    hide TouchedWithin;
  }

  lemma FoundStays(s: Split, op: Op, h: nat)
    requires Enabled(s, op) && h in s.pending && op.h != h && FoundInv(s, h)
    ensures h in Step(s, op).pending && FoundInv(Step(s, op), h)
  {
    PendingStays(s, op, h);
    hide Step;
    if s.pending[h].Found? {
      var m :| Placed(s, m) && Reports(s.pending[h], m);
      PlacedStays(s, op, m);
    }
  }

  lemma StoredStays(s: Split, op: Op)
    requires Enabled(s, op) && StoredInv(s)
    ensures StoredInv(Step(s, op))
  {
    var t := Step(s, op);
    forall key | key in t.server.store.messages
      ensures t.server.store.messages[key].key == key && Placed(t, t.server.store.messages[key])
    {
      var m := t.server.store.messages[key];
      StoredBefore(s, op, key);
      if op.Resume? && s.pending[op.h].Numbered? && key == s.pending[op.h].env.Key() {
        assert t.pending[op.h] == Persisted(m);
      } else {
        PlacedStays(s, op, m);
      }
    }
  }

  lemma StoredBefore(s: Split, op: Op, key: StorageKey)
    requires Enabled(s, op) && key in Step(s, op).server.store.messages
    ensures
      if op.Resume? && s.pending[op.h].Numbered? && key == s.pending[op.h].env.Key()
      then Step(s, op).pending == s.pending[op.h := Persisted(Step(s, op).server.store.messages[key])]
           && Step(s, op).server.store.messages[key].key == key
      else key in s.server.store.messages
           && Step(s, op).server.store.messages[key] == s.server.store.messages[key]
  {
    hide TouchedWithin;
  }

  lemma FoundBegins(s: Split, op: Op)
    requires Enabled(s, op) && StoredInv(s) && op.h in Step(s, op).pending
    ensures FoundInv(Step(s, op), op.h)
  {
    hide TouchedWithin;
    var t := Step(s, op);
    if op.BeginReceipt? {
      var m := s.server.store.messages[op.key];
      PlacedStays(s, op, m);
      assert Reports(t.pending[op.h], m);
    }
  }

  lemma OriginStep(s: Split, op: Op)
    requires Enabled(s, op) && OriginInv(s)
    ensures OriginInv(Step(s, op))
  {
    StoredStays(s, op);
    forall h | h in Step(s, op).pending
      ensures FoundInv(Step(s, op), h)
    {
      if h == op.h {
        FoundBegins(s, op);
      } else {
        PendingBefore(s, op, h);
        FoundStays(s, op, h);
      }
    }
  }

  lemma PendingBefore(s: Split, op: Op, h: nat)
    requires Enabled(s, op) && h in Step(s, op).pending && h != op.h
    ensures h in s.pending
  {
    hide TouchedWithin;
  }

  lemma {:induction false} RunOrigin(window: nat, ops: seq<Op>)
    requires EnabledRun(Idle(window), ops)
    ensures OriginInv(Run(Idle(window), ops))
  {
    if ops == [] {
    } else {
      RunOrigin(window, ops[..|ops| - 1]);
      hide OriginInv, Step;
      OriginStep(Run(Idle(window), ops[..|ops| - 1]), ops[|ops| - 1]);
    }
  }

  // ------------------------------------------------------------------
  // Receipts and the messages they report
  // ------------------------------------------------------------------

  // The log announces the message that the receipt reports.
  ghost predicate Announced(log: seq<Event>, key: StorageKey, reporter: string, number: int) {
    exists j :: 0 <= j < |log| && Announces(log[j], key, reporter, number)
  }

  // Some send of conversation `c` stands between its persist and its append, with
  // this number in hand.
  ghost predicate Unappended(s: Split, c: string, number: nat) {
    exists k :: k in s.pending && s.pending[k].Persisted? && s.pending[k].m.conversationId == c
                && s.pending[k].m.serverSeq == number
  }

  lemma PlacedExactlyWhen(s: Split, m: Message, reporter: string)
    requires NumbersInv(s, m.conversationId) && Placed(s, m) && m.senderAccountId != reporter
    ensures Announced(s.Log(m.conversationId), m.key, reporter, m.serverSeq)
       <==> !Unappended(s, m.conversationId, m.serverSeq)
  {
    var c := m.conversationId;
    var log := s.Log(c);
    if Announced(log, m.key, reporter, m.serverSeq) {
      forall k | k in s.pending && s.pending[k].Persisted? && s.pending[k].m.conversationId == c
        ensures s.pending[k].m.serverSeq != m.serverSeq
      {
        assert HeldNumber(s.pending[k], log, s.server.store.LatestSeq(c), c);
      }
    }
    if !Unappended(s, c, m.serverSeq) {
      var i :| 0 <= i < |log| && LoggedAs(log[i], m);
      assert Announces(log[i], m.key, reporter, m.serverSeq);
    }
  }

  // In every run of the cut handlers and for every receipt in preparation: the
  // message it reports is in the log exactly when no suspended send of that
  // conversation still has that number in hand.
  lemma ReceiptInOrderExactlyWhen(window: nat, ops: seq<Op>, h: nat)
    requires EnabledRun(Idle(window), ops)
    requires h in Run(Idle(window), ops).pending && Run(Idle(window), ops).pending[h].Found?
    ensures
      var s := Run(Idle(window), ops);
      var p := s.pending[h];
      Announced(s.Log(p.c), p.key, p.reporter, p.number) <==> !Unappended(s, p.c, p.number)
  {
    hide Run, Placed, NumbersInv, Announced, Unappended;
    var s := Run(Idle(window), ops);
    RunOrigin(window, ops);
    assert FoundInv(s, h);
    var m :| Placed(s, m) && Reports(s.pending[h], m);
    RunNumbers(window, ops, m.conversationId);
    PlacedExactlyWhen(s, m, s.pending[h].reporter);
  }

  // The same where the receipt begins, on the stored message it finds.
  lemma ReceiptBeginsExactlyWhen(window: nat, ops: seq<Op>, op: Op)
    requires EnabledRun(Idle(window), ops) && op.BeginReceipt? && Enabled(Run(Idle(window), ops), op)
    ensures
      var s := Run(Idle(window), ops);
      var n := s.server.store.messages[op.key].serverSeq;
      Announced(s.Log(op.c), op.key, op.accountId, n) <==> !Unappended(s, op.c, n)
  {
    hide Run, Placed, NumbersInv, Announced, Unappended;
    var s := Run(Idle(window), ops);
    RunOrigin(window, ops);
    var m := s.server.store.messages[op.key];
    RunNumbers(window, ops, m.conversationId);
    PlacedExactlyWhen(s, m, op.accountId);
  }

  // ------------------------------------------------------------------
  // Whole logs
  // ------------------------------------------------------------------

  // The receipt at position `i` comes after the message it reports.
  ghost predicate PointsBack(log: seq<Event>, i: nat)
    requires i < |log|
  {
    log[i].payload.Delivered? ==>
      Announced(log[..i], log[i].payload.key, log[i].payload.byAccountId, log[i].serverSeq)
  }

  ghost predicate InOrder(log: seq<Event>) {
    forall i :: 0 <= i < |log| ==> PointsBack(log, i)
  }

  // The step appends a receipt while a send still has that number in hand.
  ghost predicate TooEarly(s: Split, op: Op) {
    && op.Resume? && op.h in s.pending && s.pending[op.h].Found?
    && Unappended(s, s.pending[op.h].c, s.pending[op.h].number)
  }

  ghost predicate NeverTooEarly(s: Split, ops: seq<Op>)
    requires EnabledRun(s, ops)
    decreases |ops|
  {
    ops == [] ||
    (NeverTooEarly(s, ops[..|ops| - 1]) && !TooEarly(Run(s, ops[..|ops| - 1]), ops[|ops| - 1]))
  }

  lemma InOrderGrows(log: seq<Event>, e: Event)
    ensures InOrder(log + [e]) <==>
      InOrder(log) && (e.payload.Delivered? ==>
                         Announced(log, e.payload.key, e.payload.byAccountId, e.serverSeq))
  {
    hide Announced;
    var longer := log + [e];
    assert longer[..|log|] == log;
    forall i | 0 <= i < |log|
      ensures PointsBack(longer, i) <==> PointsBack(log, i)
    {
      assert longer[..i] == log[..i];
    }
    assert PointsBack(longer, |log|) <==>
      (e.payload.Delivered? ==> Announced(log, e.payload.key, e.payload.byAccountId, e.serverSeq));
    if InOrder(longer) {
      assert forall i :: 0 <= i < |log| ==> PointsBack(longer, i);
    }
  }

  // What one step appends to the log of a conversation.
  lemma StepAppends(s: Split, op: Op, c: string)
    requires Enabled(s, op)
    ensures
      var log, longer := s.Log(c), Step(s, op).Log(c);
      if op.Resume? && s.pending[op.h].Found? && s.pending[op.h].c == c then
        var p := s.pending[op.h];
        && |longer| == |log| + 1 && longer == log + [longer[|log|]]
        && longer[|log|].payload == Delivered(p.key, p.reporter, p.reporterDevice)
        && longer[|log|].serverSeq == p.number
      else
        longer == log || (|longer| == |log| + 1 && longer == log + [longer[|log|]]
                          && !longer[|log|].payload.Delivered?)
  {
    hide TouchedWithin;
  }

  lemma StepInOrder(s: Split, op: Op, c: string)
    requires Enabled(s, op)
    requires op.Resume? && s.pending[op.h].Found? ==>
      var p := s.pending[op.h];
      Announced(s.Log(p.c), p.key, p.reporter, p.number) <==> !Unappended(s, p.c, p.number)
    ensures InOrder(Step(s, op).Log(c)) <==>
      InOrder(s.Log(c)) && !(TooEarly(s, op) && s.pending[op.h].c == c)
  {
    hide InOrder, Announced, Unappended, Step;
    StepAppends(s, op, c);
    var log, longer := s.Log(c), Step(s, op).Log(c);
    if longer != log {
      InOrderGrows(log, longer[|log|]);
    }
  }

  // Over every run of the cut handlers: all receipts in all logs come after the
  // messages they report exactly when no receipt was appended while a send still
  // had its number in hand.
  lemma {:induction false} LogsInOrderExactlyWhen(window: nat, ops: seq<Op>)
    requires EnabledRun(Idle(window), ops)
    ensures (forall c :: InOrder(Run(Idle(window), ops).Log(c))) <==> NeverTooEarly(Idle(window), ops)
  {
    hide InOrder, Announced, Unappended, Step;
    if ops == [] {
      assert forall c :: Run(Idle(window), ops).Log(c) == [];
      EmptyInOrder();
    } else {
      var before, op := ops[..|ops| - 1], ops[|ops| - 1];
      var s := Run(Idle(window), before);
      LogsInOrderExactlyWhen(window, before);
      if op.Resume? && s.pending[op.h].Found? {
        ReceiptInOrderExactlyWhen(window, before, op.h);
      }
      StepsInOrder(s, op);
      assert Run(Idle(window), ops) == Step(s, op);
    }
  }

  lemma StepsInOrder(s: Split, op: Op)
    requires Enabled(s, op)
    requires op.Resume? && s.pending[op.h].Found? ==>
      var p := s.pending[op.h];
      Announced(s.Log(p.c), p.key, p.reporter, p.number) <==> !Unappended(s, p.c, p.number)
    ensures (forall c :: InOrder(Step(s, op).Log(c))) <==> (forall c :: InOrder(s.Log(c))) && !TooEarly(s, op)
  {
    hide InOrder, Announced, Unappended, Step;
    forall c
      ensures InOrder(Step(s, op).Log(c)) <==>
        InOrder(s.Log(c)) && !(TooEarly(s, op) && s.pending[op.h].c == c)
    {
      StepInOrder(s, op, c);
    }
    if TooEarly(s, op) {
      assert !InOrder(Step(s, op).Log(s.pending[op.h].c));
    }
    if forall c :: InOrder(Step(s, op).Log(c)) {
      forall c
        ensures InOrder(s.Log(c))
      {
        assert InOrder(Step(s, op).Log(c));
      }
    }
  }

  lemma EmptyInOrder()
    ensures InOrder([])
  {
  }

  // ------------------------------------------------------------------
  // A guard that suffices
  // ------------------------------------------------------------------

  // No suspended send of that key stands between its persist and its append.
  ghost predicate Guarded(s: Split, op: Op) {
    op.BeginReceipt? ==> forall k :: k in s.pending && s.pending[k].Persisted? ==> s.pending[k].m.key != op.key
  }

  ghost predicate GuardedRun(s: Split, ops: seq<Op>)
    requires EnabledRun(s, ops)
    decreases |ops|
  {
    ops == [] ||
    (GuardedRun(s, ops[..|ops| - 1]) && Guarded(Run(s, ops[..|ops| - 1]), ops[|ops| - 1]))
  }

  ghost predicate AllAnnounced(s: Split) {
    forall h :: h in s.pending && s.pending[h].Found? ==>
      Announced(s.Log(s.pending[h].c), s.pending[h].key, s.pending[h].reporter, s.pending[h].number)
  }

  lemma AnnouncedStays(log: seq<Event>, longer: seq<Event>, key: StorageKey, reporter: string, number: int)
    requires Announced(log, key, reporter, number) && log <= longer
    ensures Announced(longer, key, reporter, number)
  {
    var j :| 0 <= j < |log| && Announces(log[j], key, reporter, number);
    assert longer[j] == log[j];
  }

  lemma GuardedAnnounced(s: Split, op: Op)
    requires Enabled(s, op) && OriginInv(s) && Guarded(s, op) && op.BeginReceipt?
    ensures Announced(s.Log(op.c), op.key, op.accountId, s.server.store.messages[op.key].serverSeq)
  {
    var m, log := s.server.store.messages[op.key], s.Log(op.c);
    assert Placed(s, m) && m.key == op.key;
    var i :| 0 <= i < |log| && LoggedAs(log[i], m);
    assert Announces(log[i], op.key, op.accountId, m.serverSeq);
  }

  lemma GuardedStep(s: Split, op: Op)
    requires Enabled(s, op) && OriginInv(s) && Guarded(s, op) && AllAnnounced(s)
    ensures AllAnnounced(Step(s, op))
  {
    hide Announced, OriginInv, Guarded, Step;
    var t := Step(s, op);
    forall h | h in t.pending && t.pending[h].Found?
      ensures Announced(t.Log(t.pending[h].c), t.pending[h].key, t.pending[h].reporter, t.pending[h].number)
    {
      var p := t.pending[h];
      LogsExtend(s, op, p.c);
      if h == op.h {
        FoundIsNew(s, op);
        GuardedAnnounced(s, op);
      } else {
        PendingBefore(s, op, h);
        PendingStays(s, op, h);
      }
      AnnouncedStays(s.Log(p.c), t.Log(p.c), p.key, p.reporter, p.number);
    }
  }

  lemma FoundIsNew(s: Split, op: Op)
    requires Enabled(s, op) && op.h in Step(s, op).pending && Step(s, op).pending[op.h].Found?
    ensures op.BeginReceipt? && Step(s, op).pending[op.h]
         == Found(op.c, op.key, op.accountId, op.deviceId, s.server.store.messages[op.key].serverSeq)
  {
    hide TouchedWithin;
  }

  // With the guard at every receipt, the logs are in order however the handlers
  // interleave.
  lemma {:induction false} GuardSuffices(window: nat, ops: seq<Op>)
    requires EnabledRun(Idle(window), ops) && GuardedRun(Idle(window), ops)
    ensures AllAnnounced(Run(Idle(window), ops))
    ensures NeverTooEarly(Idle(window), ops) && forall c :: InOrder(Run(Idle(window), ops).Log(c))
  {
    hide InOrder, Step, OriginInv, Guarded, Unappended;
    if ops == [] {
    } else {
      var before, op := ops[..|ops| - 1], ops[|ops| - 1];
      var s := Run(Idle(window), before);
      GuardSuffices(window, before);
      RunOrigin(window, before);
      GuardedStep(s, op);
      if op.Resume? && s.pending[op.h].Found? {
        ReceiptInOrderExactlyWhen(window, before, op.h);
      }
    }
    LogsInOrderExactlyWhen(window, ops);
  }

  // ------------------------------------------------------------------
  // A receipt that comes too early
  // ------------------------------------------------------------------

  lemma RunOneMore(s: Split, ops: seq<Op>, op: Op)
    requires EnabledRun(s, ops) && Enabled(Run(s, ops), op)
    ensures EnabledRun(s, ops + [op]) && Run(s, ops + [op]) == Step(Run(s, ops), op)
    ensures NeverTooEarly(s, ops + [op]) <==> NeverTooEarly(s, ops) && !TooEarly(Run(s, ops), op)
  {
    hide Step, TooEarly;
    assert (ops + [op])[..|ops|] == ops;
  }

  lemma RunOne(s: Split, op: Op)
    requires Enabled(s, op)
    ensures EnabledRun(s, [op]) && Run(s, [op]) == Step(s, op)
  {
    hide Step;
    assert [op][..0] == [];
  }

  // A message numbered and persisted, but not yet appended.
  lemma EarlyMessage(window: nat, env: Envelope, a: string, d: string)
    ensures
      var ops := [BeginSend(0, env, a, d), Resume(0, 0)];
      var m := Stored(env, a, d, 1, 0);
      && EnabledRun(Idle(window), ops)
      && Run(Idle(window), ops)
           == Split(State(EMPTY.NextSeq(env.conversationId).Persist(m), [DedupKey(a, env.Key())], window),
                    map[0 := Persisted(m)])
  {
    var begin := BeginSend(0, env, a, d);
    assert !TouchedWithin([], DedupKey(a, env.Key()), window);
    var s1 := Split(State(EMPTY.NextSeq(env.conversationId), [DedupKey(a, env.Key())], window),
                    map[0 := Numbered(env, a, d, 1)]);
    assert Step(Idle(window), begin) == s1;
    RunOne(Idle(window), begin);
    hide TouchedWithin, Run, EnabledRun, NeverTooEarly;
    RunOneMore(Idle(window), [begin], Resume(0, 0));
    assert [begin] + [Resume(0, 0)] == [begin, Resume(0, 0)];
  }

  // In that state another account can prepare a receipt, and its append comes too
  // early: the order of the logs does depend on when the handlers run.
  lemma ReceiptBeforeMessage(window: nat, env: Envelope, a: string, b: string, d: string)
    requires a != b
    ensures
      var receipt := BeginReceipt(1, env.conversationId, env.Key(), b, d);
      var ops := [BeginSend(0, env, a, d), Resume(0, 0), receipt, Resume(1, 0)];
      && EnabledRun(Idle(window), ops) && !NeverTooEarly(Idle(window), ops)
      && !forall c :: InOrder(Run(Idle(window), ops).Log(c))
  {
    var begin, receipt := BeginSend(0, env, a, d), BeginReceipt(1, env.conversationId, env.Key(), b, d);
    var persisted := [begin, Resume(0, 0)];
    EarlyMessage(window, env, a, d);
    hide Run, EnabledRun, NeverTooEarly;
    var s2 := Run(Idle(window), persisted);
    EarlyReceipt(s2, receipt, Stored(env, a, d, 1, 0));
    RunOneMore(Idle(window), persisted, receipt);
    RunOneMore(Idle(window), persisted + [receipt], Resume(1, 0));
    assert persisted + [receipt] + [Resume(1, 0)] == [begin, Resume(0, 0), receipt, Resume(1, 0)];
    LogsInOrderExactlyWhen(window, persisted + [receipt] + [Resume(1, 0)]);
  }

  lemma EarlyReceipt(s: Split, op: Op, m: Message)
    requires s.pending == map[0 := Persisted(m)] && s.server.store.Find(m.key) == Some(m)
    requires op.BeginReceipt? && op.h == 1 && op.c == m.conversationId && op.key == m.key
    requires op.accountId != m.senderAccountId
    ensures Enabled(s, op) && TooEarly(Step(s, op), Resume(1, 0))
  {
    var t := Step(s, op);
    assert t.pending[0] == Persisted(m);
  }

  // ------------------------------------------------------------------
  // The ack of a retry
  // ------------------------------------------------------------------

  // Every send under `key` is of account `a` in conversation `c`.
  predicate OnlySender(ops: seq<Op>, key: StorageKey, a: string, c: string) {
    forall k :: 0 <= k < |ops| ==> OwnSend(ops[k], key, a, c)
  }

  predicate OwnSend(op: Op, key: StorageKey, a: string, c: string) {
    op.BeginSend? && op.env.Key() == key ==> op.accountId == a && op.env.conversationId == c
  }

  // A send under `key` has its number and has not persisted its message.
  ghost predicate InFlight(s: Split, key: StorageKey) {
    exists h :: h in s.pending && Sends(s.pending[h], key)
  }

  predicate Sends(p: Phase, key: StorageKey) {
    p.Numbered? && p.env.Key() == key
  }

  ghost predicate KeyInv(s: Split, key: StorageKey, a: string, c: string) {
    && (key in s.server.store.messages ==>
          var m := s.server.store.messages[key];
          m.senderAccountId == a && m.conversationId == c && m.serverSeq >= 1)
    && (forall h :: h in s.pending && Sends(s.pending[h], key) ==>
          s.pending[h].accountId == a && s.pending[h].env.conversationId == c && s.pending[h].serverSeq >= 1)
    && (DedupKey(a, key) in s.server.touched ==> key in s.server.store.messages || InFlight(s, key))
  }

  // What a step does to the messages, the window and the sends under `key`.
  lemma KeyEffect(s: Split, op: Op, key: StorageKey, a: string)
    requires Enabled(s, op)
    ensures
      var t, k := Step(s, op), DedupKey(a, key);
      && (op.Resume? && Sends(s.pending[op.h], key) ==>
            && t.pending[op.h].Persisted? && key in t.server.store.messages
            && t.server.store.messages[key].senderAccountId == s.pending[op.h].accountId
            && t.server.store.messages[key].conversationId == s.pending[op.h].env.conversationId
            && t.server.store.messages[key].serverSeq == s.pending[op.h].serverSeq)
      && (!(op.Resume? && Sends(s.pending[op.h], key)) ==> t.server.store.Find(key) == s.server.store.Find(key))
      && (op.h in t.pending && Sends(t.pending[op.h], key) ==>
            && op.BeginSend? && op.env.Key() == key && t.pending[op.h].serverSeq >= 1
            && t.pending[op.h].accountId == op.accountId && t.pending[op.h].env == op.env
            && !TouchedWithin(s.server.touched, DedupKey(op.accountId, key), s.server.window))
      && t.server.window == s.server.window
      && (forall x :: x in t.server.touched <==>
            x in s.server.touched || (op.BeginSend? && x == DedupKey(op.accountId, op.env.Key())))
      && (op.BeginSend? && op.env.Key() == key
          && !TouchedWithin(s.server.touched, DedupKey(op.accountId, key), s.server.window) ==>
            op.h in t.pending && Sends(t.pending[op.h], key))
  {
    hide TouchedWithin;
  }

  lemma KeyStep(s: Split, op: Op, key: StorageKey, a: string, c: string)
    requires Enabled(s, op) && KeyInv(s, key, a, c) && OwnSend(op, key, a, c)
    ensures KeyInv(Step(s, op), key, a, c)
  {
    KeyEffect(s, op, key, a);
    hide Step;
    var t := Step(s, op);
    forall h | h in t.pending && Sends(t.pending[h], key)
      ensures t.pending[h].accountId == a && t.pending[h].env.conversationId == c && t.pending[h].serverSeq >= 1
    {
      if h != op.h {
        PendingBefore(s, op, h);
        PendingStays(s, op, h);
      }
    }
    if DedupKey(a, key) in t.server.touched && key !in t.server.store.messages {
      TouchedIsSent(s, op, key, a);
    }
  }

  lemma TouchedIsSent(s: Split, op: Op, key: StorageKey, a: string)
    requires Enabled(s, op) && DedupKey(a, key) in Step(s, op).server.touched
    requires key !in Step(s, op).server.store.messages
    requires DedupKey(a, key) in s.server.touched ==> key in s.server.store.messages || InFlight(s, key)
    ensures InFlight(Step(s, op), key)
  {
    KeyEffect(s, op, key, a);
    var t := Step(s, op);
    if DedupKey(a, key) in s.server.touched {
      var h :| h in s.pending && Sends(s.pending[h], key);
      PendingStays(s, op, h);
      assert Sends(t.pending[h], key);
    } else {
      WithinTouched(s.server.touched, DedupKey(a, key), s.server.window);
      assert Sends(t.pending[op.h], key);
    }
  }

  lemma WithinTouched(h: seq<DedupKey>, k: DedupKey, window: nat)
    ensures TouchedWithin(h, k, window) ==> k in h
  {
  }

  lemma {:induction false} RunKey(window: nat, ops: seq<Op>, key: StorageKey, a: string, c: string)
    requires EnabledRun(Idle(window), ops) && OnlySender(ops, key, a, c)
    ensures KeyInv(Run(Idle(window), ops), key, a, c)
  {
    if ops == [] {
    } else {
      RunKey(window, ops[..|ops| - 1], key, a, c);
      assert OwnSend(ops[|ops| - 1], key, a, c);
      hide KeyInv, Step;
      KeyStep(Run(Idle(window), ops[..|ops| - 1]), ops[|ops| - 1], key, a, c);
    }
  }

  // In every run of the cut handlers in which one account uses the id, in one
  // conversation: a retry is acked with number 0 exactly when no send of it has
  // persisted yet, which leaves one in flight; otherwise with the stored number.
  lemma ZeroAckExactlyWhen(window: nat, ops: seq<Op>, env: Envelope, a: string)
    requires EnabledRun(Idle(window), ops) && OnlySender(ops, env.Key(), a, env.conversationId)
    requires TouchedWithin(Run(Idle(window), ops).server.touched, DedupKey(a, env.Key()), window)
    ensures
      var s := Run(Idle(window), ops);
      var ack := DuplicateAck(s.server.store, env, a);
      && (ack.serverSeq == 0 <==> env.Key() !in s.server.store.messages)
      && (ack.serverSeq == 0 ==> InFlight(s, env.Key()))
      && (ack.serverSeq != 0 ==> ack.serverSeq == s.server.store.messages[env.Key()].serverSeq)
  {
    RunKey(window, ops, env.Key(), a, env.conversationId);
    WithinTouched(Run(Idle(window), ops).server.touched, DedupKey(a, env.Key()), window);
  }

  // Every retry of the id finds it in the window.
  ghost predicate Remembered(s: Split, op: Op, k: DedupKey) {
    op.BeginSend? && DedupKey(op.accountId, op.env.Key()) == k && k in s.server.touched ==>
      TouchedWithin(s.server.touched, k, s.server.window)
  }

  ghost predicate RememberedRun(s: Split, ops: seq<Op>, k: DedupKey)
    requires EnabledRun(s, ops)
    decreases |ops|
  {
    ops == [] ||
    (RememberedRun(s, ops[..|ops| - 1], k) && Remembered(Run(s, ops[..|ops| - 1]), ops[|ops| - 1], k))
  }

  // At most one send is in flight, and none once the message is stored.
  ghost predicate OnceInv(s: Split, key: StorageKey, a: string) {
    && (InFlight(s, key) ==> key !in s.server.store.messages)
    && (forall h, k :: h in s.pending && k in s.pending && Sends(s.pending[h], key) && Sends(s.pending[k], key) ==>
          h == k)
    && (DedupKey(a, key) !in s.server.touched ==> key !in s.server.store.messages && !InFlight(s, key))
  }

  // A send in flight after the step was in flight before it, or has just begun.
  lemma SendsBefore(s: Split, op: Op, key: StorageKey, h: nat)
    requires Enabled(s, op) && h in Step(s, op).pending && Sends(Step(s, op).pending[h], key)
    ensures if h == op.h then op.BeginSend? && op.env.Key() == key
                              && !TouchedWithin(s.server.touched, DedupKey(op.accountId, key), s.server.window)
            else h in s.pending && Sends(s.pending[h], key)
  {
    hide Step;
    if h == op.h {
      KeyEffect(s, op, key, "");
    } else {
      PendingBefore(s, op, h);
      PendingStays(s, op, h);
    }
  }

  lemma OnceStep(s: Split, op: Op, key: StorageKey, a: string, c: string)
    requires Enabled(s, op) && OnceInv(s, key, a) && OwnSend(op, key, a, c)
    requires Remembered(s, op, DedupKey(a, key))
    ensures OnceInv(Step(s, op), key, a)
  {
    KeyEffect(s, op, key, a);
    hide Step;
    var t := Step(s, op);
    forall h | h in t.pending && Sends(t.pending[h], key)
      ensures key !in t.server.store.messages
      ensures forall k :: k in t.pending && Sends(t.pending[k], key) ==> h == k
      ensures DedupKey(a, key) in t.server.touched
    {
      SendsBefore(s, op, key, h);
      forall k | k in t.pending && Sends(t.pending[k], key)
        ensures h == k
      {
        SendsBefore(s, op, key, k);
      }
    }
  }

  lemma {:induction false} RunOnce(window: nat, ops: seq<Op>, key: StorageKey, a: string, c: string)
    requires EnabledRun(Idle(window), ops) && OnlySender(ops, key, a, c)
    requires RememberedRun(Idle(window), ops, DedupKey(a, key))
    ensures OnceInv(Run(Idle(window), ops), key, a)
  {
    if ops == [] {
    } else {
      RunOnce(window, ops[..|ops| - 1], key, a, c);
      assert OwnSend(ops[|ops| - 1], key, a, c);
      hide OnceInv, Step;
      OnceStep(Run(Idle(window), ops[..|ops| - 1]), ops[|ops| - 1], key, a, c);
    }
  }

  // If moreover no retry ever misses the window, the ack is 0 exactly while the
  // original stands between its number and its persist.
  lemma ZeroAckExactlyInFlight(window: nat, ops: seq<Op>, env: Envelope, a: string)
    requires EnabledRun(Idle(window), ops) && OnlySender(ops, env.Key(), a, env.conversationId)
    requires RememberedRun(Idle(window), ops, DedupKey(a, env.Key()))
    requires TouchedWithin(Run(Idle(window), ops).server.touched, DedupKey(a, env.Key()), window)
    ensures
      var s := Run(Idle(window), ops);
      DuplicateAck(s.server.store, env, a).serverSeq == 0 <==> InFlight(s, env.Key())
  {
    ZeroAckExactlyWhen(window, ops, env, a);
    RunOnce(window, ops, env.Key(), a, env.conversationId);
  }

  // Such an ack does occur: a retry begun right after its original.
  lemma ZeroAck(window: nat, env: Envelope, a: string, d: string)
    requires window >= 1
    ensures
      var ops := [BeginSend(0, env, a, d)];
      && EnabledRun(Idle(window), ops)
      && var s := Run(Idle(window), ops);
         && TouchedWithin(s.server.touched, DedupKey(a, env.Key()), window)
         && DuplicateAck(s.server.store, env, a).serverSeq == 0
  {
    var begin := BeginSend(0, env, a, d);
    assert !TouchedWithin([], DedupKey(a, env.Key()), window);
    RunOne(Idle(window), begin);
    TouchedIsNewest([], DedupKey(a, env.Key()), window);
    assert [] + [DedupKey(a, env.Key())] == [DedupKey(a, env.Key())];
  }

  // ------------------------------------------------------------------
  // Nothing is invented
  // ------------------------------------------------------------------

  // The suspended handler was begun by that operation.
  predicate BegunBy(p: Phase, op: Op) {
    match p
    case Numbered(env, a, d, _) => op.BeginSend? && op.env == env && op.accountId == a && op.deviceId == d
    case Persisted(m) => op.BeginSend? && Carries(m, op.env, op.accountId, op.deviceId)
    case Answering(ack) => op.BeginSend? && ack.messageId == op.env.messageId && ack.duplicate
    case Found(c, key, a, d, _) => op == BeginReceipt(op.h, c, key, a, d)
    case Marked(c, a, d, _) => op.BeginRead? && op.c == c && op.accountId == a && op.deviceId == d
  }

  predicate AskedBy(e: Event, op: Op) {
    match e.payload
    case New(m) => op.BeginSend? && op.env.conversationId == e.conversationId
                   && Carries(m, op.env, op.accountId, op.deviceId)
    case Delivered(key, a, d) => op == BeginReceipt(op.h, e.conversationId, key, a, d)
    case Read(a, d, _) => op.BeginRead? && op.c == e.conversationId && op.accountId == a && op.deviceId == d
  }

  ghost predicate SomeBegan(ops: seq<Op>, p: Phase) {
    exists k :: 0 <= k < |ops| && BegunBy(p, ops[k])
  }

  ghost predicate SomeAsked(ops: seq<Op>, e: Event) {
    exists k :: 0 <= k < |ops| && AskedBy(e, ops[k])
  }

  // A handler keeps its origin from step to step and hands it to what it appends.
  lemma StepOrigin(s: Split, op: Op, origin: Op)
    requires Enabled(s, op) && op.Resume? && BegunBy(s.pending[op.h], origin)
    ensures op.h in Step(s, op).pending ==> BegunBy(Step(s, op).pending[op.h], origin)
    ensures forall c, i :: |s.Log(c)| <= i < |Step(s, op).Log(c)| ==> AskedBy(Step(s, op).Log(c)[i], origin)
  {
  }

  lemma BeginOrigin(s: Split, op: Op)
    requires Enabled(s, op) && !op.Resume?
    ensures op.h in Begin(s, op).pending && BegunBy(Begin(s, op).pending[op.h], op)
    ensures forall c :: Begin(s, op).Log(c) == s.Log(c)
  {
    hide TouchedWithin;
  }

  lemma MoreOps(ops: seq<Op>, op: Op)
    ensures forall p :: SomeBegan(ops, p) ==> SomeBegan(ops + [op], p)
    ensures forall e :: SomeAsked(ops, e) ==> SomeAsked(ops + [op], e)
    ensures forall p :: BegunBy(p, op) ==> SomeBegan(ops + [op], p)
  {
    var longer := ops + [op];
    assert longer[|ops|] == op && forall k :: 0 <= k < |ops| ==> longer[k] == ops[k];
  }

  ghost predicate OriginsKnown(s: Split, ops: seq<Op>) {
    && (forall h :: h in s.pending ==> SomeBegan(ops, s.pending[h]))
    && (forall c, i :: 0 <= i < |s.Log(c)| ==> SomeAsked(ops, s.Log(c)[i]))
  }

  lemma StepOrigins(s: Split, op: Op, ops: seq<Op>)
    requires Enabled(s, op) && OriginsKnown(s, ops)
    ensures OriginsKnown(Step(s, op), ops + [op])
  {
    var t, longer := Step(s, op), ops + [op];
    MoreOps(ops, op);
    forall h | h in t.pending
      ensures SomeBegan(longer, t.pending[h])
    {
      if h != op.h {
        PendingBefore(s, op, h);
        PendingStays(s, op, h);
      } else if op.Resume? {
        var k :| 0 <= k < |ops| && BegunBy(s.pending[h], ops[k]);
        StepOrigin(s, op, ops[k]);
        assert longer[k] == ops[k];
      } else {
        BeginOrigin(s, op);
      }
    }
    forall c, i | 0 <= i < |t.Log(c)|
      ensures SomeAsked(longer, t.Log(c)[i])
    {
      LogsExtend(s, op, c);
      if i < |s.Log(c)| {
        assert t.Log(c)[i] == s.Log(c)[i];
      } else if op.Resume? {
        var k :| 0 <= k < |ops| && BegunBy(s.pending[op.h], ops[k]);
        StepOrigin(s, op, ops[k]);
        assert longer[k] == ops[k];
      } else {
        BeginOrigin(s, op);
      }
    }
  }

  // Over every run of the cut handlers, too, each logged entry was asked for by some
  // operation of the run, by the account and device that it names and with what the
  // message carries.
  lemma {:induction false} NothingInventedCut(window: nat, ops: seq<Op>)
    requires EnabledRun(Idle(window), ops)
    ensures OriginsKnown(Run(Idle(window), ops), ops)
  {
    hide Step, OriginsKnown, Enabled;
    if ops == [] {
      NothingYet(window);
    } else {
      NothingInventedCut(window, ops[..|ops| - 1]);
      StepOrigins(Run(Idle(window), ops[..|ops| - 1]), ops[|ops| - 1], ops[..|ops| - 1]);
      assert ops[..|ops| - 1] + [ops[|ops| - 1]] == ops;
    }
  }

  lemma NothingYet(window: nat)
    ensures OriginsKnown(Idle(window), [])
  {
  }
}

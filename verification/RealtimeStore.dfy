/**
 server/src/store/realtime_store.ts: per-conversation message counters, the
 persisted messages, and the append-only event log with its own counter.
 */
module RealtimeStore {
  import opened Common

  // `messageId` or `messageId#deviceId`; ids contain no separator.
  datatype StorageKey = StorageKey(messageId: string, device: Option<string>)

  datatype Message = Message(
    key: StorageKey, conversationId: string, senderAccountId: string, senderDeviceId: string,
    ciphertext: string, headerType: string, serverSeq: nat, receivedAtMs: int)

  // message.new, message.delivered and message.read with what they carry.
  datatype Payload =
    | New(message: Message)
    | Delivered(key: StorageKey, byAccountId: string, byDeviceId: string)
    | Read(byAccountId: string, byDeviceId: string, lastReadSeq: int)

  datatype Event = Event(conversationId: string, payload: Payload, serverSeq: int, atMs: int, logSeq: nat)

  datatype Store = Store(
    cursors: map<string, nat>, logCursors: map<string, nat>,
    messages: map<StorageKey, Message>, eventLog: map<string, seq<Event>>)
  {
    function LatestSeq(c: string): nat {
      if c in cursors then cursors[c] else 0
    }

    function LatestLogSeq(c: string): nat {
      if c in logCursors then logCursors[c] else 0
    }

    function Log(c: string): seq<Event> {
      if c in eventLog then eventLog[c] else []
    }

    function Find(key: StorageKey): Option<Message> {
      if key in messages then Some(messages[key]) else None
    }

    function NextSeq(c: string): Store {
      this.(cursors := cursors[c := LatestSeq(c) + 1])
    }

    function Persist(m: Message): Store {
      this.(messages := messages[m.key := m])
    }

    // appendEvent; the log number is assigned here.
    function Append(c: string, payload: Payload, serverSeq: int, atMs: int): Store {
      var logSeq := LatestLogSeq(c) + 1;
      this.(logCursors := logCursors[c := logSeq],
            eventLog := eventLog[c := Log(c) + [Event(c, payload, serverSeq, atMs, logSeq)]])
    }

    function EventsSince(c: string, lastLogSeq: int, limit: nat): seq<Event> {
      Slice(Sorted(NewerThan(Log(c), lastLogSeq)), limit)
    }
  }

  const EMPTY := Store(map[], map[], map[], map[])

  function NewerThan(log: seq<Event>, lastLogSeq: int): seq<Event> {
    if log == [] then []
    else (if log[0].logSeq > lastLogSeq then [log[0]] else []) + NewerThan(log[1..], lastLogSeq)
  }

  // A stable sort by log number.
  function Sorted(events: seq<Event>): seq<Event> {
    if events == [] then [] else Insert(events[0], Sorted(events[1..]))
  }

  function Insert(e: Event, sorted: seq<Event>): seq<Event> {
    if sorted == [] || e.logSeq <= sorted[0].logSeq then [e] + sorted
    else [sorted[0]] + Insert(e, sorted[1..])
  }

  function Slice(events: seq<Event>, limit: nat): seq<Event> {
    if |events| <= limit then events else events[..limit]
  }

  datatype PresenceRecord = PresenceRecord(online: bool, lastSeenMs: int)

  class MemoryRealtimeStore {
    var cursors: map<string, nat>
    var logCursors: map<string, nat>
    var messages: map<StorageKey, Message>
    var eventLog: map<string, seq<Event>>
    var presence: map<string, PresenceRecord>

    function Abs(): Store
      reads this
    {
      Store(cursors, logCursors, messages, eventLog)
    }

    constructor ()
      ensures Abs() == EMPTY && presence == map[]
    {
      cursors, logCursors, messages, eventLog, presence := map[], map[], map[], map[], map[];
    }

    method NextSeq(c: string) returns (next: nat)
      modifies this`cursors
      ensures Abs() == old(Abs()).NextSeq(c) && next == Abs().LatestSeq(c)
    {
      next := (if c in cursors then cursors[c] else 0) + 1;
      cursors := cursors[c := next];
    }

    method PersistMessage(m: Message)
      modifies this`messages
      ensures Abs() == old(Abs()).Persist(m)
    {
      messages := messages[m.key := m];
    }

    method AppendEvent(c: string, payload: Payload, serverSeq: int, atMs: int) returns (logSeq: nat)
      modifies this`logCursors, this`eventLog
      ensures Abs() == old(Abs()).Append(c, payload, serverSeq, atMs) && logSeq == Abs().LatestLogSeq(c)
    {
      logSeq := (if c in logCursors then logCursors[c] else 0) + 1;
      logCursors := logCursors[c := logSeq];
      var log := if c in eventLog then eventLog[c] else [];
      eventLog := eventLog[c := log + [Event(c, payload, serverSeq, atMs, logSeq)]];
    }

    method SetPresence(accountId: string, record: PresenceRecord)
      modifies this`presence
      ensures presence == old(presence)[accountId := record]
    {
      presence := presence[accountId := record];
    }
  }

  // ------------------------------------------------------------------
  // Replay of a well-numbered log
  // ------------------------------------------------------------------

  ghost predicate WellNumbered(log: seq<Event>) {
    forall i :: 0 <= i < |log| ==> log[i].logSeq == i + 1
  }

  ghost predicate Ascending(log: seq<Event>) {
    forall i, j :: 0 <= i < j < |log| ==> log[i].logSeq < log[j].logSeq
  }

  lemma {:induction false} SortedAscending(log: seq<Event>)
    requires Ascending(log)
    ensures Sorted(log) == log
  {
    if log == [] {
    } else {
      SortedAscending(log[1..]);
    }
  }

  // Numbers rising by one from `first`: the filter drops exactly a prefix.
  lemma {:induction false} NewerThanDrops(log: seq<Event>, first: nat, last: nat)
    requires forall i :: 0 <= i < |log| ==> log[i].logSeq == first + i + 1
    ensures NewerThan(log, last)
         == if last <= first then log else if last - first <= |log| then log[last - first..] else []
  {
    if log == [] {
    } else {
      NewerThanDrops(log[1..], first + 1, last);
    }
  }

  lemma NewerIsRest(log: seq<Event>, last: nat)
    requires WellNumbered(log) && last <= |log|
    ensures Sorted(NewerThan(log, last)) == log[last..]
  {
    NewerThanDrops(log, 0, last);
    SortedAscending(log[last..]);
  }

  // Replay returns the contiguous piece of the log that follows the cursor.
  lemma EventsSinceIsSegment(s: Store, c: string, last: nat, limit: nat)
    requires WellNumbered(s.Log(c)) && last <= |s.Log(c)|
    ensures s.EventsSince(c, last, limit)
         == s.Log(c)[last..if last + limit <= |s.Log(c)| then last + limit else |s.Log(c)|]
  {
    hide NewerThan, Sorted, WellNumbered;
    NewerIsRest(s.Log(c), last);
  }

  // On any log, replay sorts by log number and keeps each event that it selects.
  lemma {:induction false} SortedIsSorted(events: seq<Event>)
    ensures multiset(Sorted(events)) == multiset(events)
    ensures forall i, j :: 0 <= i < j < |Sorted(events)| ==> Sorted(events)[i].logSeq <= Sorted(events)[j].logSeq
  {
    if events == [] {
    } else {
      SortedIsSorted(events[1..]);
      InsertKeepsAll(events[0], Sorted(events[1..]));
      InsertKeepsSorted(events[0], Sorted(events[1..]));
      assert events == [events[0]] + events[1..];
    }
  }

  lemma {:induction false} InsertKeepsAll(e: Event, sorted: seq<Event>)
    ensures multiset(Insert(e, sorted)) == multiset(sorted) + multiset{e}
  {
    if sorted == [] || e.logSeq <= sorted[0].logSeq {
      assert multiset([e] + sorted) == multiset{e} + multiset(sorted);
    } else {
      InsertKeepsAll(e, sorted[1..]);
      assert sorted == [sorted[0]] + sorted[1..];
    }
  }

  predicate AtLeast(events: seq<Event>, n: int) {
    forall i :: 0 <= i < |events| ==> n <= events[i].logSeq
  }

  lemma {:induction false} InsertAtLeast(e: Event, sorted: seq<Event>, n: int)
    requires AtLeast(sorted, n) && n <= e.logSeq
    ensures AtLeast(Insert(e, sorted), n)
  {
    if sorted == [] || e.logSeq <= sorted[0].logSeq {
    } else {
      InsertAtLeast(e, sorted[1..], n);
    }
  }

  lemma {:induction false} InsertKeepsSorted(e: Event, sorted: seq<Event>)
    requires forall i, j :: 0 <= i < j < |sorted| ==> sorted[i].logSeq <= sorted[j].logSeq
    ensures forall i, j :: 0 <= i < j < |Insert(e, sorted)| ==>
      Insert(e, sorted)[i].logSeq <= Insert(e, sorted)[j].logSeq
  {
    if sorted == [] || e.logSeq <= sorted[0].logSeq {
    } else {
      InsertKeepsSorted(e, sorted[1..]);
      InsertAtLeast(e, sorted[1..], sorted[0].logSeq);
      assert AtLeast(Insert(e, sorted[1..]), sorted[0].logSeq);
    }
  }
}

/**
 Replay: onSyncRequest of server/src/realtime_server.ts as one step, and the
 client walk of server/src/client/nova_client.ts that repeats it.
 */
module Sync {
  import opened Common
  import opened RealtimeStore
  import opened MessageDedup
  import opened Messaging
  import opened MemoryDirectory

  // One entry of a sync.response.
  datatype Page = Page(conversationId: string, events: seq<Event>, cursor: nat, hasMore: bool)

  function PageOf(store: Store, c: string, cursor: nat, limit: nat): Page
    requires limit >= 1
  {
    var events := store.EventsSince(c, cursor, limit);
    var pageIsFull := |events| == limit;
    Page(c, events, if pageIsFull then events[|events| - 1].logSeq else store.LatestLogSeq(c), pageIsFull)
  }

  function CursorOf(cursors: map<string, nat>, c: string): nat {
    if c in cursors then cursors[c] else 0
  }

  function Pages(store: Store, targets: seq<string>, cursors: map<string, nat>, limit: nat): (r: seq<Page>)
    requires limit >= 1
    ensures |r| == |targets|
  {
    seq(|targets|, i requires 0 <= i < |targets| => PageOf(store, targets[i], CursorOf(cursors, targets[i]), limit))
  }

  // The loop of onSyncRequest; has_more is the disjunction over the pages.
  method BuildPages(store: MemoryRealtimeStore, targets: seq<string>, cursors: map<string, nat>, limit: nat)
    returns (pages: seq<Page>, hasMore: bool)
    requires limit >= 1
    ensures pages == Pages(store.Abs(), targets, cursors, limit)
    ensures hasMore <==> exists i :: 0 <= i < |pages| && pages[i].hasMore
  {
    pages, hasMore := [], false;
    for i := 0 to |targets|
      invariant |pages| == i
      invariant forall k :: 0 <= k < i ==>
        pages[k] == PageOf(store.Abs(), targets[k], CursorOf(cursors, targets[k]), limit)
      invariant hasMore <==> exists k :: 0 <= k < i && pages[k].hasMore
    {
      var page := BuildPage(store, targets[i], CursorOf(cursors, targets[i]), limit);
      if page.hasMore {
        hasMore := true;
      }
      pages := pages + [page];
    }
  }

  // The body of that loop.
  method BuildPage(store: MemoryRealtimeStore, target: string, from: nat, limit: nat) returns (page: Page)
    requires limit >= 1
    ensures page == PageOf(store.Abs(), target, from, limit)
  {
    var events := store.Abs().EventsSince(target, from, limit);
    var latestLogSeq := store.Abs().LatestLogSeq(target);
    var pageIsFull := |events| == limit;
    var cursor := if pageIsFull then events[|events| - 1].logSeq else latestLogSeq;
    page := Page(target, events, cursor, pageIsFull);
  }

  // ------------------------------------------------------------------
  // One page
  // ------------------------------------------------------------------

  ghost predicate LogOk(store: Store, c: string) {
    WellNumbered(store.Log(c)) && store.LatestLogSeq(c) == |store.Log(c)|
  }

  function Least(a: int, b: int): int {
    if a <= b then a else b
  }

  // A page is the piece of the log up to its own cursor, and says whether the
  // page limit cut it.
  lemma PageIsSegment(store: Store, c: string, cursor: nat, limit: nat)
    requires LogOk(store, c) && cursor <= |store.Log(c)| && limit >= 1
    ensures
      var page := PageOf(store, c, cursor, limit);
      && cursor <= page.cursor <= |store.Log(c)|
      && page.events == store.Log(c)[cursor..page.cursor]
      && page.cursor == Least(cursor + limit, |store.Log(c)|)
      && (page.hasMore <==> cursor + limit <= |store.Log(c)|)
  {
    EventsSinceIsSegment(store, c, cursor, limit);
  }

  // ------------------------------------------------------------------
  // The walk
  // ------------------------------------------------------------------

  // One client following one conversation; `received` are all the events of its
  // responses, in order.
  datatype Walk = Walk(server: State, cursor: nat, received: seq<Event>)

  datatype WalkOp = Round | Serve(op: Op)

  function Advance(cursor: nat, logSeq: nat): nat {
    if logSeq > cursor then logSeq else cursor
  }

  ghost function WalkStep(w: Walk, op: WalkOp, c: string, limit: nat): Walk
    requires limit >= 1
  {
    match op
    case Round =>
      var page := PageOf(w.server.store, c, w.cursor, limit);
      w.(cursor := Advance(w.cursor, page.cursor), received := w.received + page.events)
    case Serve(o) => w.(server := Step(w.server, o))
  }

  ghost function WalkRun(w: Walk, ops: seq<WalkOp>, c: string, limit: nat): Walk
    requires limit >= 1
    decreases ops
  {
    if ops == [] then w else WalkRun(WalkStep(w, ops[0], c, limit), ops[1..], c, limit)
  }

  ghost predicate WalkInv(w: Walk, c: string, start: nat) {
    && StoreInv(w.server.store)
    && start <= w.cursor <= |w.server.store.Log(c)|
    && w.received == w.server.store.Log(c)[start..w.cursor]
  }

  lemma WalkStepInv(w: Walk, op: WalkOp, c: string, limit: nat, start: nat)
    requires WalkInv(w, c, start) && limit >= 1
    ensures WalkInv(WalkStep(w, op, c, limit), c, start)
  {
    assert LogInv(w.server.store, c);
    match op
    case Round =>
      PageIsSegment(w.server.store, c, w.cursor, limit);
      var page := PageOf(w.server.store, c, w.cursor, limit);
      var log := w.server.store.Log(c);
      assert log[start..page.cursor] == log[start..w.cursor] + log[w.cursor..page.cursor];
    case Serve(o) =>
      StepInv(w.server, o);
      var log, longer := w.server.store.Log(c), Step(w.server, o).store.Log(c);
      assert longer[..|log|] == log;
      assert longer[start..w.cursor] == log[start..w.cursor];
  }

  // Whatever the server logs between the rounds, the pages put together are the
  // log from the starting cursor to the current one: nothing skipped, nothing
  // repeated, in order.
  lemma {:induction false} WalkGapFree(w: Walk, ops: seq<WalkOp>, c: string, limit: nat, start: nat)
    requires WalkInv(w, c, start) && limit >= 1
    ensures WalkInv(WalkRun(w, ops, c, limit), c, start)
    decreases ops
  {
    if ops == [] {
    } else {
      WalkStepInv(w, ops[0], c, limit, start);
      WalkGapFree(WalkStep(w, ops[0], c, limit), ops[1..], c, limit, start);
    }
  }

  // The walk as the server's own history allows it to begin.
  lemma WalkFromAnyRun(window: nat, before: seq<Op>, ops: seq<WalkOp>, c: string, limit: nat, start: nat)
    requires limit >= 1 && start <= |Run(Start(window), before).store.Log(c)|
    ensures
      var w := WalkRun(Walk(Run(Start(window), before), start, []), ops, c, limit);
      && start <= w.cursor <= |w.server.store.Log(c)|
      && w.received == w.server.store.Log(c)[start..w.cursor]
  {
    RunInv(window, before);
    WalkGapFree(Walk(Run(Start(window), before), start, []), ops, c, limit, start);
  }

  // ------------------------------------------------------------------
  // How long the walk takes
  // ------------------------------------------------------------------

  // The client's cursor after k rounds on a log that does not change.
  function CursorAfter(store: Store, c: string, start: nat, limit: nat, k: nat): nat
    requires limit >= 1
  {
    if k == 0 then start
    else
      var cursor := CursorAfter(store, c, start, limit, k - 1);
      Advance(cursor, PageOf(store, c, cursor, limit).cursor)
  }

  // What k full pages hold: k * limit.
  function Held(limit: nat, k: nat): nat {
    if k == 0 then 0 else Held(limit, k - 1) + limit
  }

  lemma {:induction false} CursorClosed(store: Store, c: string, start: nat, limit: nat, k: nat)
    requires LogOk(store, c) && start <= |store.Log(c)| && limit >= 1
    ensures CursorAfter(store, c, start, limit, k) == Least(start + Held(limit, k), |store.Log(c)|)
  {
    hide PageOf;
    if k == 0 {
    } else {
      CursorClosed(store, c, start, limit, k - 1);
      PageIsSegment(store, c, CursorAfter(store, c, start, limit, k - 1), limit);
    }
  }

  // On a fixed log with n events left, round k (from 1) is the last, its page
  // saying that nothing more follows, exactly from k == n / limit + 1 on; the
  // cursor then stands at the head.
  lemma WalkEnds(store: Store, c: string, start: nat, limit: nat, k: nat)
    requires LogOk(store, c) && start <= |store.Log(c)| && limit >= 1 && k >= 1
    ensures
      var n := |store.Log(c)| - start;
      var before := CursorAfter(store, c, start, limit, k - 1);
      && (!PageOf(store, c, before, limit).hasMore <==> k >= n / limit + 1)
      && (k >= n / limit + 1 ==> CursorAfter(store, c, start, limit, k) == |store.Log(c)|)
  {
    hide PageOf, CursorAfter;
    CursorClosed(store, c, start, limit, k - 1);
    CursorClosed(store, c, start, limit, k);
    PageIsSegment(store, c, CursorAfter(store, c, start, limit, k - 1), limit);
    RoundsNeeded(|store.Log(c)| - start, limit, k);
  }

  lemma RoundsNeeded(n: nat, limit: nat, k: nat)
    requires limit >= 1 && k >= 1
    ensures k >= n / limit + 1 <==> Held(limit, k) > n
  {
    var q := n / limit;
    HeldDivides(n, limit);
    if k >= q + 1 {
      HeldGrows(limit, q + 1, k);
    } else {
      HeldGrows(limit, k, q);
    }
  }

  lemma {:induction false} HeldIsProduct(limit: nat, k: nat)
    ensures Held(limit, k) == limit * k
  {
    if k == 0 {
    } else {
      HeldIsProduct(limit, k - 1);
      assert limit * k == limit * (k - 1) + limit;
    }
  }

  lemma HeldDivides(n: nat, limit: nat)
    requires limit >= 1
    ensures Held(limit, n / limit) <= n < Held(limit, n / limit) + limit
  {
    HeldIsProduct(limit, n / limit);
  }

  lemma {:induction false} HeldGrows(limit: nat, a: nat, b: nat)
    requires a <= b
    ensures Held(limit, a) <= Held(limit, b)
  {
    if a == b {
    } else {
      HeldGrows(limit, a, b - 1);
    }
  }

  // ------------------------------------------------------------------
  // A page cut at its await
  // ------------------------------------------------------------------

  // onSyncRequest reads the events and then the head; `first` and `second` are the
  // store at the two reads.
  function CutPage(first: Store, second: Store, c: string, cursor: nat, limit: nat): Page
    requires limit >= 1
  {
    var events := first.EventsSince(c, cursor, limit);
    var pageIsFull := |events| == limit;
    Page(c, events, if pageIsFull then events[|events| - 1].logSeq else second.LatestLogSeq(c), pageIsFull)
  }

  // Such a page lacks no event before its cursor exactly when it is full or nothing
  // was appended between the reads; what it lacks is what was appended.
  lemma CutPageExactlyWhen(first: Store, second: Store, c: string, cursor: nat, limit: nat)
    requires LogOk(first, c) && LogOk(second, c) && first.Log(c) <= second.Log(c)
    requires cursor <= |first.Log(c)| && limit >= 1
    ensures
      var page, log := CutPage(first, second, c, cursor, limit), second.Log(c);
      && cursor <= page.cursor <= |log|
      && (page.events == log[cursor..page.cursor] <==> page.hasMore || first.Log(c) == log)
      && page.cursor - cursor == |page.events| + (if page.hasMore then 0 else |log| - |first.Log(c)|)
      && (!page.hasMore ==> page.events + log[|first.Log(c)|..] == log[cursor..page.cursor])
  {
    EventsSinceIsSegment(first, c, cursor, limit);
    hide Sorted, NewerThan;
    var page, log, before := CutPage(first, second, c, cursor, limit), second.Log(c), first.Log(c);
    assert log[..|before|] == before;
    assert page.events == log[cursor..cursor + |page.events|];
  }

  // `between` is what the server does between the two reads of a round.
  datatype CutOp = CutRound(between: seq<Op>) | Meanwhile(op: Op)

  ghost function CutStep(w: Walk, op: CutOp, c: string, limit: nat): Walk
    requires limit >= 1
  {
    match op
    case CutRound(between) =>
      var later := Run(w.server, between);
      var page := CutPage(w.server.store, later.store, c, w.cursor, limit);
      Walk(later, Advance(w.cursor, page.cursor), w.received + page.events)
    case Meanwhile(o) => w.(server := Step(w.server, o))
  }

  ghost function CutRun(w: Walk, ops: seq<CutOp>, c: string, limit: nat): Walk
    requires limit >= 1
    decreases ops
  {
    if ops == [] then w else CutRun(CutStep(w, ops[0], c, limit), ops[1..], c, limit)
  }

  // The round's page is full, or its conversation was left alone between the reads.
  ghost predicate Clean(w: Walk, op: CutOp, c: string, limit: nat)
    requires limit >= 1
  {
    op.CutRound? ==>
      var later := Run(w.server, op.between).store;
      CutPage(w.server.store, later, c, w.cursor, limit).hasMore || w.server.store.Log(c) == later.Log(c)
  }

  ghost predicate CleanRun(w: Walk, ops: seq<CutOp>, c: string, limit: nat)
    requires limit >= 1
    decreases ops
  {
    ops == [] || (Clean(w, ops[0], c, limit) && CleanRun(CutStep(w, ops[0], c, limit), ops[1..], c, limit))
  }

  // Either nothing was skipped, or fewer events were received than passed.
  ghost predicate CutInv(w: Walk, c: string, start: nat, whole: bool) {
    var log := w.server.store.Log(c);
    && StoreInv(w.server.store)
    && start <= w.cursor <= |log|
    && (if whole then w.received == log[start..w.cursor] else |w.received| < w.cursor - start)
  }

  lemma CutStepInv(w: Walk, op: CutOp, c: string, limit: nat, start: nat, whole: bool)
    requires CutInv(w, c, start, whole) && limit >= 1
    ensures CutInv(CutStep(w, op, c, limit), c, start, whole && Clean(w, op, c, limit))
  {
    hide StoreInv, Step, Run, CutPage;
    var log := w.server.store.Log(c);
    match op
    case CutRound(between) =>
      RunKeeps(w.server, between);
      var later := Run(w.server, between);
      LogOfInv(w.server.store, c);
      LogOfInv(later.store, c);
      var longer := later.store.Log(c);
      CutPageExactlyWhen(w.server.store, later.store, c, w.cursor, limit);
      var page := CutPage(w.server.store, later.store, c, w.cursor, limit);
      assert longer[..|log|] == log;
      assert longer[start..page.cursor] == longer[start..w.cursor] + longer[w.cursor..page.cursor];
      assert longer[start..w.cursor] == log[start..w.cursor];
    case Meanwhile(o) =>
      StepInv(w.server, o);
      var longer := Step(w.server, o).store.Log(c);
      assert longer[..|log|] == log;
      assert longer[start..w.cursor] == log[start..w.cursor];
  }

  lemma LogOfInv(store: Store, c: string)
    requires StoreInv(store)
    ensures LogOk(store, c)
  {
    assert LogInv(store, c);
  }

  lemma {:induction false} CutRunInv(w: Walk, ops: seq<CutOp>, c: string, limit: nat, start: nat, whole: bool)
    requires CutInv(w, c, start, whole) && limit >= 1
    ensures CutInv(CutRun(w, ops, c, limit), c, start, whole && CleanRun(w, ops, c, limit))
    decreases ops
  {
    hide CutInv, Clean, CutStep;
    if ops == [] {
    } else {
      var clean := Clean(w, ops[0], c, limit);
      CutStepInv(w, ops[0], c, limit, start, whole);
      CutRunInv(CutStep(w, ops[0], c, limit), ops[1..], c, limit, start, whole && clean);
    }
  }

  // The walk with its reads apart, from every state the server can reach: what was
  // received is the log up to the cursor exactly when every round was clean.
  lemma CutWalkExactlyWhen(window: nat, before: seq<Op>, ops: seq<CutOp>, c: string, limit: nat, start: nat)
    requires limit >= 1 && start <= |Run(Start(window), before).store.Log(c)|
    ensures
      var first := Walk(Run(Start(window), before), start, []);
      var w := CutRun(first, ops, c, limit);
      && start <= w.cursor <= |w.server.store.Log(c)|
      && (w.received == w.server.store.Log(c)[start..w.cursor] <==> CleanRun(first, ops, c, limit))
  {
    hide CutRun, CleanRun, Run, StoreInv;
    var first := Walk(Run(Start(window), before), start, []);
    RunInv(window, before);
    CutRunInv(first, ops, c, limit, start, true);
  }

  // An event that is skipped: a message logged between the two reads of a first
  // round, on whatever limit; no continuation of the walk makes up for it.
  lemma SkippedEvent(window: nat, ops: seq<CutOp>, env: Envelope, a: string, d: string, now: int, limit: nat)
    requires limit >= 1
    ensures
      var c, first := env.conversationId, Walk(Start(window), 0, []);
      var round := CutRound([Sending(env, a, d, now)]);
      var w, end := CutStep(first, round, c, limit), CutRun(first, [round] + ops, c, limit);
      && w.received == [] && w.cursor == 1 && |w.server.store.Log(c)| == 1 && w.server.store.Log(c)[0].payload.New?
      && end.cursor <= |end.server.store.Log(c)| && end.received != end.server.store.Log(c)[0..end.cursor]
  {
    var c, first := env.conversationId, Walk(Start(window), 0, []);
    var send := Sending(env, a, d, now);
    var round := CutRound([send]);
    assert !TouchedWithin([], DedupKey(a, env.Key()), window);
    OneStep(first.server, send);
    assert Run(first.server, []) == first.server;
    CutWalkExactlyWhen(window, [], [round] + ops, c, limit, 0);
    assert ([round] + ops)[0] == round;
  }

  lemma OneStep(s: State, op: Op)
    ensures Run(s, [op]) == Step(s, op)
  {
    assert [op][..0] == [];
  }

  // ------------------------------------------------------------------
  // Account-wide sync
  // ------------------------------------------------------------------

  // The account-wide reply holds, for each conversation the account may read,
  // exactly one entry, and that entry is the single-conversation reply.
  lemma AccountWideRefinesSingle(d: Directory, store: Store, account: string, cursors: map<string, nat>, limit: nat)
    requires d.Inverse() && limit >= 1
    ensures
      var pages := Pages(store, d.ConversationsOf(account), cursors, limit);
      && (forall c :: d.MayUse(c, account) <==> exists i :: 0 <= i < |pages| && pages[i].conversationId == c)
      && (forall i, j :: 0 <= i < j < |pages| ==> pages[i].conversationId != pages[j].conversationId)
      && (forall i :: 0 <= i < |pages| ==>
            var c := pages[i].conversationId;
            [pages[i]] == Pages(store, [c], cursors, limit))
  {
    var targets := d.ConversationsOf(account);
    var pages := Pages(store, targets, cursors, limit);
    assert forall i :: 0 <= i < |pages| ==> pages[i].conversationId == targets[i];
    forall c
      ensures d.MayUse(c, account) <==> exists i :: 0 <= i < |pages| && pages[i].conversationId == c
    {
      if c in targets {
        var i :| 0 <= i < |targets| && targets[i] == c;
        assert pages[i].conversationId == c;
      }
    }
  }
}

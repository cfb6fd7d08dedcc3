/**
 Account-wide sync from both ends: what the server replies to an account in every
 state it can reach, and what a client that follows all its conversations holds.
 */
module AccountSync {
  import opened Common
  import opened RealtimeStore
  import opened Messaging
  import MemoryDirectory
  import opened Sync
  import opened NovaClient
  import GatewayRun
  import G = Gateway

  // The directory after any run of the connection side.
  ghost function DirectoryAfter(cfg: G.Config, actions: seq<G.Action>): MemoryDirectory.Directory {
    GatewayRun.Run(cfg, GatewayRun.START, actions).g.directory
  }

  lemma DirectoryInverse(cfg: G.Config, actions: seq<G.Action>)
    requires GatewayRun.EnabledRun(cfg, GatewayRun.START, actions)
    ensures DirectoryAfter(cfg, actions).Inverse()
  {
    GatewayRun.StartInv();
    GatewayRun.RunInv(cfg, GatewayRun.START, actions);
  }

  // In every state the server can reach, the account-wide reply has exactly one
  // entry for each conversation that the account may read, and that entry is the
  // single-conversation reply.
  lemma AccountWideOnEveryRun(cfg: G.Config, actions: seq<G.Action>, store: Store, account: string,
                              cursors: map<string, nat>, limit: nat)
    requires GatewayRun.EnabledRun(cfg, GatewayRun.START, actions) && limit >= 1
    ensures
      var d := DirectoryAfter(cfg, actions);
      var pages := Pages(store, d.ConversationsOf(account), cursors, limit);
      && (forall c :: d.MayUse(c, account) <==> exists i :: 0 <= i < |pages| && pages[i].conversationId == c)
      && (forall i, j :: 0 <= i < j < |pages| ==> pages[i].conversationId != pages[j].conversationId)
      && (forall i :: 0 <= i < |pages| ==> [pages[i]] == Pages(store, [pages[i].conversationId], cursors, limit))
  {
    DirectoryInverse(cfg, actions);
    AccountWideRefinesSingle(DirectoryAfter(cfg, actions), store, account, cursors, limit);
  }

  // ------------------------------------------------------------------
  // The client's side
  // ------------------------------------------------------------------

  // The events of `events` that belong to conversation `c`.
  function Of(events: seq<Event>, c: string): seq<Event> {
    if events == [] then []
    else
      Of(events[..|events| - 1], c)
      + (if events[|events| - 1].conversationId == c then [events[|events| - 1]] else [])
  }

  // The events of a response, in the order in which they are applied.
  function EventsOf(pages: seq<Page>): seq<Event> {
    if pages == [] then [] else EventsOf(pages[..|pages| - 1]) + pages[|pages| - 1].events
  }

  // A client with all the events of its responses so far.
  datatype Reader = Reader(server: State, client: Client, received: seq<Event>)

  // One sync of the listed conversations, or a step of the server.
  datatype ReadOp = SyncRound(targets: seq<string>) | ServerStep(op: Op)

  ghost function ReadStep(r: Reader, op: ReadOp, limit: nat): Reader
    requires limit >= 1
  {
    match op
    case SyncRound(targets) =>
      var pages := Pages(r.server.store, targets, r.client.cursors, limit);
      r.(client := ApplySync(r.client, pages), received := r.received + EventsOf(pages))
    case ServerStep(o) => r.(server := Step(r.server, o))
  }

  ghost function ReadRun(r: Reader, ops: seq<ReadOp>, limit: nat): Reader
    requires limit >= 1
    decreases ops
  {
    if ops == [] then r else ReadRun(ReadStep(r, ops[0], limit), ops[1..], limit)
  }

  ghost predicate NoneTwice(targets: seq<string>) {
    forall i, j :: 0 <= i < j < |targets| ==> targets[i] != targets[j]
  }

  ghost predicate Proper(op: ReadOp) {
    op.SyncRound? ==> NoneTwice(op.targets)
  }

  // Conversation by conversation, what was received is the log between the cursors;
  // the client is what applying all of it in order makes of `first`.
  ghost predicate ReadInv(store: Store, client: Client, received: seq<Event>, first: Client) {
    && (forall c :: Covered(store, client, received, first, c))
    && client.(cursors := first.cursors) == ApplyEvents(first, received)
  }

  ghost predicate Covered(store: Store, client: Client, received: seq<Event>, first: Client, c: string) {
    var start, cursor, log := CursorOf(first.cursors, c), CursorOf(client.cursors, c), store.Log(c);
    && start <= cursor <= |log|
    && Of(received, c) == log[start..cursor]
  }

  lemma {:induction false} OfConcat(a: seq<Event>, b: seq<Event>, c: string)
    ensures Of(a + b, c) == Of(a, c) + Of(b, c)
  {
    if b == [] {
      assert a + b == a;
    } else {
      OfConcat(a, b[..|b| - 1], c);
      assert (a + b)[..|a + b| - 1] == a + b[..|b| - 1];
    }
  }

  lemma {:induction false} OfSame(events: seq<Event>, c: string, d: string)
    requires forall i :: 0 <= i < |events| ==> events[i].conversationId == c
    ensures Of(events, d) == if d == c then events else []
  {
    if events == [] {
    } else {
      OfSame(events[..|events| - 1], c, d);
    }
  }

  lemma PageCovers(store: Store, client: Client, received: seq<Event>, first: Client, page: Page, d: string)
    requires StoreInv(store) && Covered(store, client, received, first, d)
    requires
      var c, cursor := page.conversationId, CursorOf(client.cursors, page.conversationId);
      && cursor <= page.cursor <= |store.Log(c)| && page.events == store.Log(c)[cursor..page.cursor]
    ensures Covered(store, ApplyPage(client, page), received + page.events, first, d)
  {
    hide ApplyPage, Of, EntryInv, News;
    var c, cursor := page.conversationId, CursorOf(client.cursors, page.conversationId);
    assert LogInv(store, c);
    PageCursors(client, page);
    OfConcat(received, page.events, d);
    OfSame(page.events, c, d);
    if d == c {
      var log, start := store.Log(c), CursorOf(first.cursors, c);
      assert log[start..page.cursor] == log[start..cursor] + log[cursor..page.cursor];
    }
  }

  // Page after page of one response.
  lemma {:induction false} PagesFollow(store: Store, client: Client, received: seq<Event>, first: Client,
                                       targets: seq<string>, limit: nat, k: nat)
    requires StoreInv(store) && ReadInv(store, client, received, first)
    requires NoneTwice(targets) && limit >= 1 && k <= |targets|
    ensures
      var pages := Pages(store, targets, client.cursors, limit)[..k];
      && ReadInv(store, ApplySync(client, pages), received + EventsOf(pages), first)
      && forall d :: d !in targets[..k] ==>
           CursorOf(ApplySync(client, pages).cursors, d) == CursorOf(client.cursors, d)
  {
    hide StoreInv, ReadInv, PageOf;
    var all := Pages(store, targets, client.cursors, limit);
    if k == 0 {
      assert all[..0] == [] && received + [] == received;
    } else {
      PagesFollow(store, client, received, first, targets, limit, k - 1);
      assert all[..k][..k - 1] == all[..k - 1] && targets[..k][..k - 1] == targets[..k - 1];
      assert targets[k - 1] !in targets[..k - 1];
      var before, page := ApplySync(client, all[..k - 1]), all[k - 1];
      PageFollows(store, before, received + EventsOf(all[..k - 1]), first, targets[k - 1], limit);
      PageCursors(before, page);
      PageNamesItself(store, targets[k - 1], CursorOf(client.cursors, targets[k - 1]), limit);
      assert received + EventsOf(all[..k]) == received + EventsOf(all[..k - 1]) + page.events;
    }
  }

  lemma PageFollows(store: Store, client: Client, received: seq<Event>, first: Client, c: string, limit: nat)
    requires StoreInv(store) && ReadInv(store, client, received, first) && limit >= 1
    ensures
      var page := PageOf(store, c, CursorOf(client.cursors, c), limit);
      ReadInv(store, ApplyPage(client, page), received + page.events, first)
  {
    hide StoreInv, Covered, ApplyPage;
    var page := PageOf(store, c, CursorOf(client.cursors, c), limit);
    PageHere(store, client, received, first, c, limit);
    PageApplies(client, received, first, page);
    forall d
      ensures Covered(store, ApplyPage(client, page), received + page.events, first, d)
    {
      PageCovers(store, client, received, first, page, d);
    }
  }

  lemma PageHere(store: Store, client: Client, received: seq<Event>, first: Client, c: string, limit: nat)
    requires StoreInv(store) && Covered(store, client, received, first, c) && limit >= 1
    ensures
      var cursor := CursorOf(client.cursors, c);
      var page := PageOf(store, c, cursor, limit);
      && page.conversationId == c && cursor <= page.cursor <= |store.Log(c)|
      && page.events == store.Log(c)[cursor..page.cursor]
  {
    hide StoreInv;
    LogOfInv(store, c);
    PageIsSegment(store, c, CursorOf(client.cursors, c), limit);
    PageNamesItself(store, c, CursorOf(client.cursors, c), limit);
  }

  lemma RoundFollowsAll(r: Reader, first: Client, targets: seq<string>, limit: nat)
    requires StoreInv(r.server.store) && ReadInv(r.server.store, r.client, r.received, first)
    requires NoneTwice(targets) && limit >= 1
    ensures
      var after := ReadStep(r, SyncRound(targets), limit);
      after.server == r.server && ReadInv(after.server.store, after.client, after.received, first)
  {
    hide StoreInv, ReadInv;
    PagesFollow(r.server.store, r.client, r.received, first, targets, limit, |targets|);
    var pages := Pages(r.server.store, targets, r.client.cursors, limit);
    assert pages[..|targets|] == pages;
  }

  lemma ServerStepFollows(r: Reader, first: Client, op: Op, limit: nat)
    requires StoreInv(r.server.store) && ReadInv(r.server.store, r.client, r.received, first) && limit >= 1
    ensures
      var after := ReadStep(r, ServerStep(op), limit);
      StoreInv(after.server.store) && ReadInv(after.server.store, after.client, after.received, first)
  {
    hide StoreInv, Step;
    StepInv(r.server, op);
    forall c
      ensures Covered(Step(r.server, op).store, r.client, r.received, first, c)
    {
      var log, longer := r.server.store.Log(c), Step(r.server, op).store.Log(c);
      assert Covered(r.server.store, r.client, r.received, first, c);
      assert longer[..|log|] == log;
      assert longer[CursorOf(first.cursors, c)..CursorOf(r.client.cursors, c)]
          == log[CursorOf(first.cursors, c)..CursorOf(r.client.cursors, c)];
    }
  }

  lemma ReadStepFollows(r: Reader, first: Client, op: ReadOp, limit: nat)
    requires StoreInv(r.server.store) && ReadInv(r.server.store, r.client, r.received, first)
    requires Proper(op) && limit >= 1
    ensures
      var after := ReadStep(r, op, limit);
      StoreInv(after.server.store) && ReadInv(after.server.store, after.client, after.received, first)
  {
    hide StoreInv, ReadInv, ReadStep;
    match op
    case SyncRound(targets) => RoundFollowsAll(r, first, targets, limit);
    case ServerStep(o) => ServerStepFollows(r, first, o, limit);
  }

  lemma {:induction false} ReadRunInv(r: Reader, first: Client, ops: seq<ReadOp>, limit: nat)
    requires StoreInv(r.server.store) && ReadInv(r.server.store, r.client, r.received, first)
    requires limit >= 1 && forall i :: 0 <= i < |ops| ==> Proper(ops[i])
    ensures
      var end := ReadRun(r, ops, limit);
      StoreInv(end.server.store) && ReadInv(end.server.store, end.client, end.received, first)
    decreases ops
  {
    hide StoreInv, ReadInv, ReadStep;
    if ops == [] {
    } else {
      assert Proper(ops[0]);
      ReadStepFollows(r, first, ops[0], limit);
      ReadRunInv(ReadStep(r, ops[0], limit), first, ops[1..], limit);
    }
  }

  // A client that starts with no cursor past its head and syncs any conversations in
  // any rounds, with the server logging in between, has received of every
  // conversation exactly the log between its cursors, in order; what it holds besides
  // what it held is the first announcement of each message received, in that order.
  lemma FollowsEveryLog(window: nat, before: seq<Op>, first: Client, ops: seq<ReadOp>, limit: nat)
    requires limit >= 1 && InboxInv(first)
    requires forall c :: CursorOf(first.cursors, c) <= |Run(Start(window), before).store.Log(c)|
    requires forall i :: 0 <= i < |ops| ==> Proper(ops[i])
    ensures
      var r := ReadRun(Reader(Run(Start(window), before), first, []), ops, limit);
      && (forall c :: Covered(r.server.store, r.client, r.received, first, c))
      && r.client.(cursors := first.cursors) == ApplyEvents(first, r.received)
      && InboxInv(r.client) && Holds(first, r.client, r.received)
      && (forall i :: 0 <= i < |r.received| && r.received[i].payload.New? ==>
            r.received[i].payload.message.key.messageId in r.client.inbox)
  {
    hide StoreInv, ReadRun, Run, ApplyEvents;
    var server := Run(Start(window), before);
    RunInv(window, before);
    assert ApplyEvents(first, []) == first by {
      NothingApplied(first);
    }
    assert forall c :: Of([], c) == [];
    ReadRunInv(Reader(server, first, []), first, ops, limit);
    var r := ReadRun(Reader(server, first, []), ops, limit);
    ApplyEventsHolds(first, r.received);
    ApplyEventsInbox(first, r.received);
    SameHolds(first, ApplyEvents(first, r.received), r.client, r.received);
  }

  lemma NothingApplied(c: Client)
    ensures ApplyEvents(c, []) == c
  {
  }

  // An account-wide sync is such a round, in every state of the directory that the
  // server can reach.
  lemma AccountWideIsProper(cfg: G.Config, actions: seq<G.Action>, account: string)
    requires GatewayRun.EnabledRun(cfg, GatewayRun.START, actions)
    ensures Proper(SyncRound(DirectoryAfter(cfg, actions).ConversationsOf(account)))
  {
    DirectoryInverse(cfg, actions);
  }
}

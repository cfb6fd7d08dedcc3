/**
 Two sessions of server/src/client/e2ee.ts after one of them was given a body of a
 ratchet key it had left behind. The ratchet step that such a body causes puts the
 session on a branch of the root chain of its own, and it never comes back.
 */
module ForkedRun {
  import opened Common
  import opened Crypto
  import opened Ratchet
  import opened RatchetRun

  // `branch` is the first root that only the forked session derived; `made` holds
  // the ratchet keys made before.
  datatype Fork = Fork(branch: Secret, made: set<Raw>) {
    predicate Valid() {
      branch.RootKey? && branch.dh.DhOutput? && branch.dh.ends <= made
    }
  }

  // A body sent on a chain made at the fork or later, with the seed of the chain.
  datatype LateBody = LateBody(body: Body, seed: Secret)

  // `seed` is that of the sending chain if the chain was made at the fork or later.
  datatype Line = Line(session: State, seed: Option<Secret>, late: seq<LateBody>)

  datatype Pair = Pair(forked: Line, other: Line)

  // Either side may be given any body whatever, forged ones included.
  datatype Act =
    | Say(byForked: bool, text: string)
    | Hear(byForked: bool, body: Body, pair: Raw)

  // A generated pair is none of the pairs made before the fork.
  predicate Enabled(fork: Fork, a: Act) {
    a.Hear? ==> a.pair !in fork.made
  }

  function AfterSay(l: Line, text: string): Line {
    var (s, r) := Encrypt(l.session, text);
    l.(session := s,
       late := if r.Ok? && l.seed.Some? then l.late + [LateBody(r.value, l.seed.value)] else l.late)
  }

  // The seed of the sending chain after a ratchet step on `key`.
  function NewSeed(s: State, key: Raw, pair: Raw): Secret {
    ChainKey(RootKey(s.root, Dh(s.mine, key)), Dh(pair, key))
  }

  function AfterHear(l: Line, body: Body, pair: Raw): Line {
    l.(session := Decrypt(l.session, body, pair).0,
       seed := if IsNewKey(l.session, body.key) && IsKey(body.key)
               then Some(NewSeed(l.session, body.key, pair)) else l.seed)
  }

  function After(l: Line, a: Act): Line {
    if a.Say? then AfterSay(l, a.text) else AfterHear(l, a.body, a.pair)
  }

  function Step(p: Pair, a: Act): Pair {
    if a.byForked then p.(forked := After(p.forked, a)) else p.(other := After(p.other, a))
  }

  function Run(p: Pair, acts: seq<Act>): Pair
    decreases acts
  {
    if acts == [] then p else Run(Step(p, acts[0]), acts[1..])
  }

  // ------------------------------------------------------------------
  // Two families of chains
  // ------------------------------------------------------------------

  // `root` is `branch` or was derived from it.
  predicate From(root: Secret, branch: Secret) {
    root == branch || (root.RootKey? && From(root.root, branch))
  }

  // A chain made at the fork or later by the forked side, or by the other one.
  predicate Late(fork: Fork, seed: Secret, forked: bool) {
    && seed.ChainKey? && seed.dh.DhOutput?
    && From(seed.root, fork.branch) == forked && !(seed.dh.ends <= fork.made)
  }

  // A chain on which that side may hold keys to receive with.
  predicate Usable(fork: Fork, seed: Secret, forked: bool) {
    && seed.ChainKey? && seed.dh.DhOutput?
    && (From(seed.root, fork.branch) == forked || seed.dh.ends <= fork.made)
  }

  ghost predicate OnUsable(fork: Fork, chain: Secret, forked: bool) {
    exists seed, k: nat :: Usable(fork, seed, forked) && chain == AdvanceN(seed, k)
  }

  ghost predicate Opener(fork: Fork, key: Secret, forked: bool) {
    key.MessageKey? && OnUsable(fork, key.chain, forked)
  }

  ghost predicate KeysInv(fork: Fork, s: State, forked: bool) {
    && (s.receiving.Some? ==> OnUsable(fork, s.receiving.value, forked))
    && (forall slot :: slot in s.skipped ==> Opener(fork, s.skipped[slot], forked))
  }

  ghost predicate RootInv(fork: Fork, root: Secret, forked: bool) {
    && From(root, fork.branch) == forked
    // The other side's roots are never at the depth from which `branch` was derived.
    && (!forked ==> RootDepth(root) % 2 == RootDepth(fork.branch) % 2)
  }

  ghost predicate LateInv(fork: Fork, x: LateBody, forked: bool) {
    && Late(fork, x.seed, forked) && x.body.number >= 0
    && x.body.box.key == MessageKey(AdvanceN(x.seed, x.body.number))
  }

  ghost predicate LineInv(fork: Fork, l: Line, forked: bool) {
    && KeysInv(fork, l.session, forked) && RootInv(fork, l.session.root, forked)
    && (l.seed.Some? ==>
          Late(fork, l.seed.value, forked)
          && l.session.sending == Some(AdvanceN(l.seed.value, l.session.sendCount)))
    && (forall i :: 0 <= i < |l.late| ==> LateInv(fork, l.late[i], forked))
  }

  ghost predicate Inv(fork: Fork, p: Pair) {
    fork.Valid() && LineInv(fork, p.forked, true) && LineInv(fork, p.other, false)
  }

  // No key of one side's receiving chains opens a late body of the other.
  lemma FamiliesApart(fork: Fork, key: Secret, x: LateBody, forked: bool)
    requires Opener(fork, key, forked) && LateInv(fork, x, !forked)
    ensures x.body.box.key != key
  {
    var seed, k: nat :| Usable(fork, seed, forked) && key.chain == AdvanceN(seed, k);
    if x.body.box.key == key {
      AdvanceNInjective(seed, k, x.seed, x.body.number);
    }
  }

  // ------------------------------------------------------------------
  // decrypt
  // ------------------------------------------------------------------

  lemma NextUsable(fork: Fork, chain: Secret, forked: bool)
    requires OnUsable(fork, chain, forked)
    ensures OnUsable(fork, NextChain(chain), forked)
  {
    var seed, k: nat :| Usable(fork, seed, forked) && chain == AdvanceN(seed, k);
    assert NextChain(chain) == AdvanceN(seed, k + 1);
  }

  lemma {:induction false} SkipToKeys(fork: Fork, s: State, target: int, forked: bool)
    requires KeysInv(fork, s, forked)
    ensures KeysInv(fork, SkipTo(s, target).0, forked)
    decreases target - s.receiveCount
  {
    hide OnUsable;
    if s.receiveCount >= target || s.receiving.None? {
    } else {
      NextUsable(fork, s.receiving.value, forked);
      if |SkipOne(s).skipped| <= MAX_SKIPPED_KEYS {
        SkipToKeys(fork, SkipOne(s), target, forked);
      }
    }
  }

  lemma ReceiveKeys(fork: Fork, s: State, body: Body, forked: bool)
    requires KeysInv(fork, s, forked)
    ensures KeysInv(fork, Receive(s, body).0, forked)
    ensures Receive(s, body).1.Ok? ==> Opener(fork, body.box.key, forked)
  {
    hide OnUsable, SkipTo, BuildAad;
    SkipToKeys(fork, s, body.number, forked);
    var r := SkipTo(s, body.number).0;
    if r.receiving.Some? {
      NextUsable(fork, r.receiving.value, forked);
    }
  }

  lemma {:induction false} SkipToRest(s: State, target: int)
    ensures
      var r := SkipTo(s, target).0;
      r.root == s.root && r.sending == s.sending && r.sendCount == s.sendCount
    decreases target - s.receiveCount
  {
    if s.receiveCount >= target || s.receiving.None? {
    } else if |SkipOne(s).skipped| <= MAX_SKIPPED_KEYS {
      SkipToRest(SkipOne(s), target);
    }
  }

  lemma ReceiveRest(s: State, body: Body)
    ensures
      var r := Receive(s, body).0;
      r.root == s.root && r.sending == s.sending && r.sendCount == s.sendCount
  {
    hide SkipTo, BuildAad;
    SkipToRest(s, body.number);
  }

  // A ratchet step keeps each side in its own family.
  lemma RatchetRoots(fork: Fork, s: State, key: Raw, pair: Raw, forked: bool)
    requires fork.Valid() && RootInv(fork, s.root, forked) && pair !in fork.made
    ensures RootInv(fork, RatchetOn(s, key, pair).root, forked)
    ensures Late(fork, NewSeed(s, key, pair), forked)
    ensures Usable(fork, ChainKey(s.root, Dh(s.mine, key)), forked)
  {
    var first := RootKey(s.root, Dh(s.mine, key));
    var second := RootKey(first, Dh(pair, key));
    assert RootDepth(first) == RootDepth(s.root) + 1 && RootDepth(second) == RootDepth(s.root) + 2;
    assert pair in Dh(pair, key).ends;
    if !forked {
      assert first != fork.branch;
      assert second != fork.branch;
    }
  }

  lemma RatchetKeys(fork: Fork, s: State, key: Raw, pair: Raw, forked: bool)
    requires KeysInv(fork, s, forked) && Usable(fork, ChainKey(s.root, Dh(s.mine, key)), forked)
    ensures KeysInv(fork, RatchetOn(s, key, pair), forked)
  {
    var seed := ChainKey(s.root, Dh(s.mine, key));
    assert seed == AdvanceN(seed, 0);
    assert OnUsable(fork, seed, forked);
  }

  lemma HearInv(fork: Fork, l: Line, body: Body, pair: Raw, forked: bool)
    requires fork.Valid() && LineInv(fork, l, forked) && pair !in fork.made
    ensures LineInv(fork, AfterHear(l, body, pair), forked)
    ensures Decrypt(l.session, body, pair).1.Ok? ==> Opener(fork, body.box.key, forked)
  {
    hide KeysInv, RootInv, Opener, LateInv, Late, Usable, Receive;
    var s := l.session;
    if IsNewKey(s, body.key) && !IsKey(body.key) {
    } else {
      if IsNewKey(s, body.key) {
        RatchetRoots(fork, s, body.key, pair, forked);
        RatchetKeys(fork, s, body.key, pair, forked);
      }
      ReceiveKeys(fork, Aligned(s, body.key, pair), body, forked);
      ReceiveRest(Aligned(s, body.key, pair), body);
    }
  }

  lemma SayInv(fork: Fork, l: Line, text: string, forked: bool)
    requires LineInv(fork, l, forked)
    ensures LineInv(fork, AfterSay(l, text), forked)
  {
    hide KeysInv, RootInv, Late, BuildAad;
    var after := AfterSay(l, text);
    assert KeysInv(fork, after.session, forked) by {
      SameKeys(fork, l.session, after.session, forked);
    }
  }

  lemma SameKeys(fork: Fork, s: State, t: State, forked: bool)
    requires KeysInv(fork, s, forked) && t.receiving == s.receiving && t.skipped == s.skipped
    ensures KeysInv(fork, t, forked)
  {
  }

  lemma StepInv(fork: Fork, p: Pair, a: Act)
    requires Inv(fork, p) && Enabled(fork, a)
    ensures Inv(fork, Step(p, a))
  {
    hide LineInv;
    var l := if a.byForked then p.forked else p.other;
    match a
    case Say(_, text) => SayInv(fork, l, text, a.byForked);
    case Hear(_, body, pair) => HearInv(fork, l, body, pair, a.byForked);
  }

  lemma {:induction false} RunInv(fork: Fork, p: Pair, acts: seq<Act>)
    requires Inv(fork, p) && forall i :: 0 <= i < |acts| ==> Enabled(fork, acts[i])
    ensures Inv(fork, Run(p, acts))
    decreases acts
  {
    hide Inv, Step;
    if acts == [] {
    } else {
      StepInv(fork, p, acts[0]);
      RunInv(fork, Step(p, acts[0]), acts[1..]);
    }
  }

  // ------------------------------------------------------------------
  // The fork
  // ------------------------------------------------------------------

  // The pair just after `e` gave its receiver a body of a key left behind.
  function ForkOf(w: World, e: RatchetRun.Event): Fork
    requires e.Deliver? && RatchetRun.Enabled(w, e)
  {
    var s, key := Get(w, e.to).session, Peer(w, e.to).sent[e.index].body.key;
    Fork(RootKey(s.root, Dh(s.mine, key)), set k | k in w.keys)
  }

  function PairOf(w: World, e: RatchetRun.Event): Pair
    requires e.Deliver? && RatchetRun.Enabled(w, e)
  {
    var s, key := Get(w, e.to).session, Peer(w, e.to).sent[e.index].body.key;
    Pair(Line(Get(RatchetRun.Step(w, e), e.to).session, Some(NewSeed(s, key, e.pair)), []),
         Line(Peer(w, e.to).session, None, []))
  }

  // Every chain of the shared schedule was made from old keys.
  lemma ScheduledUsable(secret: Secret, keys: seq<Raw>, fork: Fork, i: nat, k: nat, forked: bool)
    requires 1 <= i < |keys| && fork.made == set x | x in keys
    ensures OnUsable(fork, AdvanceN(ChainAt(secret, keys, i), k), forked)
  {
    var seed := ChainAt(secret, keys, i);
    assert seed.dh == DhOutput({keys[i - 1], keys[i]});
    assert Usable(fork, seed, forked);
  }

  lemma ScheduledKeys(secret: Secret, keys: seq<Raw>, me: Side, fork: Fork, forked: bool)
    requires SideInv(secret, keys, me) && Distinct(keys) && fork.made == set x | x in keys
    ensures KeysInv(fork, me.session, forked)
  {
    var s := me.session;
    if s.receiving.Some? {
      ScheduledUsable(secret, keys, fork, me.epoch - 1, s.receiveCount, forked);
    }
    forall slot | slot in s.skipped
      ensures Opener(fork, s.skipped[slot], forked)
    {
      ScheduledSlot(secret, keys, me, fork, slot, forked);
    }
  }

  lemma ScheduledSlot(secret: Secret, keys: seq<Raw>, me: Side, fork: Fork, slot: Slot, forked: bool)
    requires SideInv(secret, keys, me) && Distinct(keys) && fork.made == set x | x in keys
    requires slot in me.session.skipped
    ensures Opener(fork, me.session.skipped[slot], forked)
  {
    assert SlotInv(me.seen, me.session, slot);
    var i :| 1 <= i < me.epoch && (me.epoch - i) % 2 == 1 && slot.key == keys[i];
    SeedOfAt(secret, keys, i);
    ScheduledUsable(secret, keys, fork, i, slot.number, forked);
  }

  // No root of the shared schedule is on the branch.
  lemma {:induction false} ScheduleNotFrom(secret: Secret, keys: seq<Raw>, e: nat, i: nat, j: nat)
    requires secret.X3dhSecret? && Distinct(keys) && e < |keys| && i < e && j < |keys|
    ensures !From(RootAt(secret, keys, j), RootKey(RootAt(secret, keys, e), Dh(keys[e], keys[i])))
  {
    var branch := RootKey(RootAt(secret, keys, e), Dh(keys[e], keys[i]));
    if j == 0 {
    } else {
      ScheduleNotFrom(secret, keys, e, i, j - 1);
      RootAtDepth(secret, keys, j - 1);
      RootAtDepth(secret, keys, e);
      if j == e + 1 {
        assert keys[j] in Dh(keys[j - 1], keys[j]).ends && keys[j] !in Dh(keys[e], keys[i]).ends;
      }
    }
  }

  lemma ForkInv(w: World, e: RatchetRun.Event)
    requires RatchetRun.Inv(w) && e.Deliver? && RatchetRun.Enabled(w, e)
    requires !InOrder(Get(w, e.to), Peer(w, e.to).sent[e.index].body.key)
    ensures Inv(ForkOf(w, e), PairOf(w, e))
  {
    var me, peer := Get(w, e.to), Peer(w, e.to);
    ForkFrom(w.secret, w.keys, me, peer, peer.sent[e.index], e.pair);
  }

  lemma ForkFrom(secret: Secret, keys: seq<Raw>, me: Side, peer: Side, m: Sent, pair: Raw)
    requires PairInv(secret, keys, me, peer) && m in peer.sent && pair !in keys
    requires !InOrder(me, m.body.key)
    ensures
      var s := me.session;
      var fork := Fork(RootKey(s.root, Dh(s.mine, m.body.key)), set k | k in keys);
      && fork.Valid()
      && LineInv(fork, Line(Decrypt(s, m.body, pair).0, Some(NewSeed(s, m.body.key, pair)), []), true)
      && LineInv(fork, Line(peer.session, None, []), false)
  {
    hide SlotsInv, PeerKeys, AdvanceN, SeedOf, SlotKey, ChainAt, RootAt, BuildAad, SentInv, LinkInv;
    OldKey(secret, keys, me, peer, m);
    var s, key := me.session, m.body.key;
    var fork := Fork(RootKey(s.root, Dh(s.mine, key)), set k | k in keys);
    assert fork.Valid() by {
      assert s.mine == keys[me.epoch] && key == keys[m.epoch];
    }
    ForkedSide(secret, keys, me, m, pair, fork);
    OtherSide(secret, keys, me, peer, m, fork);
  }

  lemma OldKey(secret: Secret, keys: seq<Raw>, me: Side, peer: Side, m: Sent)
    requires PairInv(secret, keys, me, peer) && m in peer.sent && !InOrder(me, m.body.key)
    ensures m.epoch < me.epoch - 1 && m.epoch >= 1 && m.body.key == keys[m.epoch]
    ensures IsKey(m.body.key) && IsNewKey(me.session, m.body.key)
  {
    hide SlotsInv, LinkInv, AdvanceN, SeedOf, SlotKey, ChainAt, RootAt, BuildAad, Distinct, PeerKeys;
    assert Genuine(secret, keys, peer, m);
    Classify(secret, keys, me, peer, m);
  }

  lemma ForkedSide(secret: Secret, keys: seq<Raw>, me: Side, m: Sent, pair: Raw, fork: Fork)
    requires SideInv(secret, keys, me) && Distinct(keys) && m.epoch < |keys| && pair !in keys
    requires m.body.key == keys[m.epoch] && IsKey(m.body.key) && IsNewKey(me.session, m.body.key)
    requires fork == Fork(RootKey(me.session.root, Dh(me.session.mine, m.body.key)), set k | k in keys)
    ensures
      LineInv(fork, Line(Decrypt(me.session, m.body, pair).0, Some(NewSeed(me.session, m.body.key, pair)), []), true)
  {
    var s, key := me.session, m.body.key;
    ScheduledKeys(secret, keys, me, fork, true);
    hide SideInv, KeysInv, Distinct, Receive, RootAt, ChainAt;
    assert s.mine in fork.made && key in fork.made;
    assert Usable(fork, ChainKey(s.root, Dh(s.mine, key)), true);
    RatchetKeys(fork, s, key, pair, true);
    ReceiveKeys(fork, RatchetOn(s, key, pair), m.body, true);
    ReceiveRest(RatchetOn(s, key, pair), m.body);
    assert pair in Dh(pair, key).ends;
    assert From(fork.branch, fork.branch);
  }

  lemma OtherSide(secret: Secret, keys: seq<Raw>, me: Side, peer: Side, m: Sent, fork: Fork)
    requires Schedule(secret, keys) && Neighbours(keys, me.epoch, peer.epoch)
    requires SideInv(secret, keys, me) && SideInv(secret, keys, peer)
    requires m.epoch < me.epoch && m.body.key == keys[m.epoch]
    requires fork == Fork(RootKey(me.session.root, Dh(me.session.mine, m.body.key)), set k | k in keys)
    ensures LineInv(fork, Line(peer.session, None, []), false)
  {
    ScheduledKeys(secret, keys, peer, fork, false);
    OtherRoot(secret, keys, me, peer, m, fork);
    hide KeysInv, RootInv, SideInv, Distinct;
  }

  lemma OtherRoot(secret: Secret, keys: seq<Raw>, me: Side, peer: Side, m: Sent, fork: Fork)
    requires Schedule(secret, keys) && Neighbours(keys, me.epoch, peer.epoch)
    requires ChainsInv(secret, keys, me.session, me.epoch) && ChainsInv(secret, keys, peer.session, peer.epoch)
    requires m.epoch < me.epoch && m.body.key == keys[m.epoch]
    requires fork.branch == RootKey(me.session.root, Dh(me.session.mine, m.body.key))
    ensures RootInv(fork, peer.session.root, false)
  {
    hide RootAt, ChainAt, AdvanceN, Distinct, From;
    ScheduleNotFrom(secret, keys, me.epoch, m.epoch, peer.epoch);
    RootAtDepth(secret, keys, peer.epoch);
    RootAtDepth(secret, keys, me.epoch);
  }

  // Once a session was given an authentic body of a key it had left behind, opened
  // or not, the two parties can never again talk on a new chain: whatever either is
  // given afterwards, neither opens any body of a chain that the other made at the
  // fork or later.
  lemma NeverHeals(w: World, e: RatchetRun.Event, acts: seq<Act>, x: LateBody, pair: Raw)
    requires RatchetRun.Inv(w) && e.Deliver? && RatchetRun.Enabled(w, e)
    requires !InOrder(Get(w, e.to), Peer(w, e.to).sent[e.index].body.key)
    requires forall i :: 0 <= i < |acts| ==> Enabled(ForkOf(w, e), acts[i])
    requires pair !in w.keys
    ensures
      var p := Run(PairOf(w, e), acts);
      && (x in p.forked.late ==> Decrypt(p.other.session, x.body, pair).1.Err?)
      && (x in p.other.late ==> Decrypt(p.forked.session, x.body, pair).1.Err?)
  {
    var fork, p := ForkOf(w, e), Run(PairOf(w, e), acts);
    ForkInv(w, e);
    RunInv(fork, PairOf(w, e), acts);
    assert pair !in fork.made;
    hide Run, PairOf, RatchetRun.Inv, Decrypt;
    NoneOpens(fork, p.other, p.forked, x, pair, false);
    NoneOpens(fork, p.forked, p.other, x, pair, true);
  }

  lemma NoneOpens(fork: Fork, me: Line, peer: Line, x: LateBody, pair: Raw, forked: bool)
    requires fork.Valid() && LineInv(fork, me, forked) && LineInv(fork, peer, !forked) && pair !in fork.made
    ensures x in peer.late ==> Decrypt(me.session, x.body, pair).1.Err?
  {
    hide Decrypt, KeysInv, RootInv, Opener, Late;
    HearInv(fork, me, x.body, pair, forked);
    if x in peer.late && Decrypt(me.session, x.body, pair).1.Ok? {
      assert LateInv(fork, x, !forked);
      FamiliesApart(fork, x.body.box.key, x, forked);
    }
  }

  // ------------------------------------------------------------------
  // A duplicate is enough
  // ------------------------------------------------------------------

  lemma SaysLate(fork: Fork, l: Line, text: string)
    requires LineInv(fork, l, true) && l.seed.Some? && l.late == []
    ensures |AfterSay(l, text).late| == 1 && AfterSay(l, text).late[0] in AfterSay(l, text).late
  {
    hide KeysInv, RootInv, Late, AdvanceN, BuildAad;
  }

  // What Bob writes after `again` is not opened by Alice as she stands.
  ghost predicate CutOff(w: World, again: RatchetRun.Event)
    requires again.Deliver? && again.to == Bob && RatchetRun.Enabled(w, again)
  {
    var l := AfterSay(PairOf(w, again).forked, "five");
    && |l.late| == 1
    && forall pair :: pair !in w.keys ==> Decrypt(w.alice.session, l.late[0].body, pair).1.Err?
  }

  lemma OldCopy(w: World, a: Raw, c: Raw, d: Raw, e: Raw)
    requires WentOn(w, a, c, d, e)
    ensures RatchetRun.Inv(w) && RatchetRun.Enabled(w, Deliver(Bob, 0, e))
    ensures !InOrder(w.bob, w.alice.sent[0].body.key)
  {
    hide RatchetRun.Inv;
  }

  lemma ForkCutsOff(w: World, again: RatchetRun.Event)
    requires RatchetRun.Inv(w) && again.Deliver? && again.to == Bob && RatchetRun.Enabled(w, again)
    requires !InOrder(w.bob, w.alice.sent[again.index].body.key)
    ensures CutOff(w, again)
  {
    hide RatchetRun.Inv, RatchetRun.Enabled, Decrypt, LineInv, AfterSay, InOrder;
    ForkInv(w, again);
    var l := PairOf(w, again).forked;
    SaysLate(ForkOf(w, again), l, "five");
    forall pair | pair !in w.keys
      ensures Decrypt(w.alice.session, AfterSay(l, "five").late[0].body, pair).1.Err?
    {
      OnlySaid(PairOf(w, again), "five");
      NeverHeals(w, again, [Say(true, "five")], AfterSay(l, "five").late[0], pair);
    }
  }

  lemma OnlySaid(p: Pair, text: string)
    ensures Run(p, [Say(true, text)]) == p.(forked := AfterSay(p.forked, text))
  {
    hide AfterSay;
    assert [Say(true, text)][1..] == [];
  }

  // The run of `HeldUp` once more: a second copy of Alice's first message reaches
  // Bob, who then writes to her. She cannot open what he writes.
  lemma DuplicateEndsSession(alice: Device, bob: Device, ephemeral: Raw, a: Raw, b: Raw, c: Raw, d: Raw, e: Raw)
    requires alice.Valid() && bob.Valid() && IsKey(ephemeral)
    requires IsKey(a) && IsKey(b) && IsKey(c) && IsKey(d) && IsKey(e)
    requires var k := bob.signedPreKey;
      a !in [k] && b !in [k, a] && c !in [k, a, b] && d !in [k, a, b, c] && e !in [k, a, b, c, d]
    ensures
      var start, es := Establish(alice, bob, ephemeral, a), HeldUp(b, c, d);
      && start.Ok? && LegalRun(start.value, es)
      && var w := RunTo(start.value, es);
         RatchetRun.Enabled(w, Deliver(Bob, 0, e)) && CutOff(w, Deliver(Bob, 0, e))
  {
    hide Establish, LegalRun, RunTo, WentOn, CutOff, RatchetRun.Inv, InOrder;
    HeldUpRun(alice, bob, ephemeral, a, b, c, d, e);
    var w := RunTo(Establish(alice, bob, ephemeral, a).value, HeldUp(b, c, d));
    OldCopy(w, a, c, d, e);
    ForkCutsOff(w, Deliver(Bob, 0, e));
  }
}

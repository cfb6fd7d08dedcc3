/**
 Two sessions of server/src/client/e2ee.ts joined by a network that may drop,
 duplicate and reorder what the peer really sent.
 */
module RatchetRun {
  import opened Common
  import opened Crypto
  import opened Ratchet

  datatype Party = Alice | Bob

  // A body together with the plaintext it was made from and the index of the
  // sending chain it was made on.
  datatype Sent = Sent(body: Body, text: string, epoch: nat) {
    function Slot(): Slot {
      Ratchet.Slot.Slot(body.number, body.key)
    }
  }

  // A session with its history: the bodies it sent, which bodies of the peer it
  // opened, and which ratchet keys of the peer it has processed.
  datatype Side = Side(session: State, epoch: nat, sent: seq<Sent>, delivered: set<nat>, seen: set<Raw>)

  // `keys` lists the ratchet keys of both parties in the order they were made.
  datatype World = World(secret: Secret, keys: seq<Raw>, alice: Side, bob: Side)

  datatype Event =
    | Send(from: Party, text: string)
    | Deliver(to: Party, index: nat, pair: Raw)

  function Get(w: World, p: Party): Side {
    if p.Alice? then w.alice else w.bob
  }

  function Peer(w: World, p: Party): Side {
    if p.Alice? then w.bob else w.alice
  }

  function Put(w: World, p: Party, side: Side): World {
    if p.Alice? then w.(alice := side) else w.(bob := side)
  }

  // ------------------------------------------------------------------
  // establishSessions
  // ------------------------------------------------------------------

  datatype SetupError = KeyAgreement | SecretsDiverged

  // `ephemeral` and `pair` are the two pairs generated on Alice's side.
  function Establish(alice: Device, bob: Device, ephemeral: Raw, pair: Raw): Outcome<World, SetupError> {
    var sender := X3dhSender(alice, bob.Bundle(), ephemeral);
    if sender.Err? then Err(KeyAgreement) else
    var bobSecret := X3dhReceiver(bob, alice.identity, sender.value.ephemeral, sender.value.usedOneTimePreKey);
    if bobSecret.Err? then Err(KeyAgreement) else
    if sender.value.secret != bobSecret.value then Err(SecretsDiverged) else
    var session := InitSender(sender.value.secret, bob.signedPreKey, pair);
    if session.Err? then Err(KeyAgreement) else
    Ok(World(sender.value.secret, [bob.signedPreKey, pair],
             Side(session.value, 1, [], {}, {}),
             Side(Fresh(bobSecret.value, bob.signedPreKey), 0, [], {}, {})))
  }

  // ------------------------------------------------------------------
  // Steps
  // ------------------------------------------------------------------

  function SendSide(me: Side, text: string): Side {
    var (s, r) := Encrypt(me.session, text);
    me.(session := s, sent := if r.Ok? then me.sent + [Sent(r.value, text, me.epoch)] else me.sent)
  }

  function DeliverSide(me: Side, index: nat, body: Body, pair: Raw): Side {
    var (s, r) := Decrypt(me.session, body, pair);
    me.(session := s,
        epoch := if IsNewKey(me.session, body.key) then me.epoch + 2 else me.epoch,
        delivered := if r.Ok? then me.delivered + {index} else me.delivered,
        seen := me.seen + {body.key})
  }

  predicate Enabled(w: World, e: Event) {
    match e
    case Send(_, _) => true
    case Deliver(to, index, pair) =>
      && index < |Peer(w, to).sent|
      && IsKey(pair) && pair !in w.keys
  }

  function Step(w: World, e: Event): World
    requires Enabled(w, e)
  {
    match e
    case Send(from, text) => Put(w, from, SendSide(Get(w, from), text))
    case Deliver(to, index, pair) =>
      var me := Get(w, to);
      var body := Peer(w, to).sent[index].body;
      var keys := if IsNewKey(me.session, body.key) then w.keys + [pair] else w.keys;
      Put(w, to, DeliverSide(me, index, body, pair)).(keys := keys)
  }

  // What the receiving call answers.
  function Answer(w: World, e: Event): Outcome<string, Failure>
    requires e.Deliver? && Enabled(w, e)
  {
    Decrypt(Get(w, e.to).session, Peer(w, e.to).sent[e.index].body, e.pair).1
  }

  // The key is the current one, or one the receiver has not left behind.
  predicate InOrder(me: Side, key: Raw) {
    me.session.theirs == Some(key) || key !in me.seen
  }

  // Passing over the missing messages keeps the skipped map within its limit.
  predicate WithinLimit(s: State, body: Body) {
    var count := if IsNewKey(s, body.key) then 0 else s.receiveCount;
    |s.skipped| + (if body.number > count then body.number - count else 0) <= MAX_SKIPPED_KEYS
  }

  predicate Legal(w: World, e: Event) {
    && Enabled(w, e)
    && (e.Deliver? ==>
          var me, body := Get(w, e.to), Peer(w, e.to).sent[e.index].body;
          InOrder(me, body.key) && WithinLimit(me.session, body))
  }

  // ------------------------------------------------------------------
  // The shared key schedule
  // ------------------------------------------------------------------

  function RootAt(secret: Secret, keys: seq<Raw>, i: nat): Secret
    requires i < |keys|
  {
    if i == 0 then secret else RootKey(RootAt(secret, keys, i - 1), Dh(keys[i - 1], keys[i]))
  }

  // The seed of the i-th chain, owned by the maker of keys[i].
  function ChainAt(secret: Secret, keys: seq<Raw>, i: nat): (r: Secret)
    requires 1 <= i < |keys|
    ensures r.ChainKey?
  {
    ChainKey(RootAt(secret, keys, i - 1), Dh(keys[i - 1], keys[i]))
  }

  // The seed of the chain announced by `key`.
  function SeedOf(secret: Secret, keys: seq<Raw>, key: Raw): Option<Secret> {
    if |keys| < 2 then None
    else if keys[|keys| - 1] == key then Some(ChainAt(secret, keys, |keys| - 1))
    else SeedOf(secret, keys[..|keys| - 1], key)
  }

  // The message key that the schedule assigns to a slot.
  function SlotKey(secret: Secret, keys: seq<Raw>, slot: Slot): Secret {
    var seed := SeedOf(secret, keys, slot.key);
    if seed.None? || slot.number < 0 then secret else MessageKey(AdvanceN(seed.value, slot.number))
  }

  lemma {:induction false} RootAtPrefix(secret: Secret, keys: seq<Raw>, key: Raw, i: nat)
    requires i < |keys|
    ensures RootAt(secret, keys + [key], i) == RootAt(secret, keys, i)
  {
    if i == 0 {
    } else {
      RootAtPrefix(secret, keys, key, i - 1);
    }
  }

  lemma SeedOfPrefix(secret: Secret, keys: seq<Raw>, last: Raw, key: Raw)
    requires key != last
    ensures SeedOf(secret, keys + [last], key) == SeedOf(secret, keys, key)
  {
    assert (keys + [last])[..|keys|] == keys;
  }

  lemma {:induction false} SeedOfAt(secret: Secret, keys: seq<Raw>, i: nat)
    requires Distinct(keys) && 1 <= i < |keys|
    ensures SeedOf(secret, keys, keys[i]) == Some(ChainAt(secret, keys, i))
  {
    var n := |keys| - 1;
    if i == n {
    } else {
      SeedOfAt(secret, keys[..n], i);
      assert keys[..n] + [keys[n]] == keys;
      RootAtPrefix(secret, keys[..n], keys[n], i - 1);
    }
  }

  function RootDepth(s: Secret): nat {
    if s.RootKey? then 1 + RootDepth(s.root) else 0
  }

  lemma {:induction false} RootAtDepth(secret: Secret, keys: seq<Raw>, i: nat)
    requires i < |keys| && secret.X3dhSecret?
    ensures RootDepth(RootAt(secret, keys, i)) == i
  {
    if i == 0 {
    } else {
      RootAtDepth(secret, keys, i - 1);
    }
  }

  // ------------------------------------------------------------------
  // The invariant
  // ------------------------------------------------------------------

  ghost predicate Distinct(keys: seq<Raw>) {
    forall i, j :: 0 <= i < j < |keys| ==> keys[i] != keys[j]
  }

  // The peer keys that a party in epoch e has processed.
  ghost function PeerKeys(keys: seq<Raw>, e: nat): set<Raw>
    requires e < |keys|
  {
    set i | 1 <= i < e && (e - i) % 2 == 1 :: keys[i]
  }

  ghost predicate ChainsInv(secret: Secret, keys: seq<Raw>, s: State, e: nat) {
    && e < |keys|
    && s.mine == keys[e]
    && s.root == RootAt(secret, keys, e)
    && s.theirs == (if e == 0 then None else Some(keys[e - 1]))
    && s.sending == (if e == 0 then None else Some(AdvanceN(ChainAt(secret, keys, e), s.sendCount)))
    && s.receiving == (if e < 2 then None else Some(AdvanceN(ChainAt(secret, keys, e - 1), s.receiveCount)))
  }

  // A remembered slot: a processed key of the peer and a number already passed.
  ghost predicate SlotInv(seen: set<Raw>, s: State, slot: Slot) {
    && slot.number >= 0
    && slot.key in seen
    && (slot.key == s.PeerKey() ==> slot.number < s.receiveCount)
  }

  // The skipped and the decrypted numbers of the current key partition
  // 0..receiveCount-1.
  ghost predicate Bookkeeping(seen: set<Raw>, s: State) {
    && s.skipped.Keys !! s.decrypted
    && (forall slot :: slot in s.skipped ==> SlotInv(seen, s, slot))
    && (forall slot :: slot in s.decrypted ==> SlotInv(seen, s, slot))
    && (s.receiving.Some? ==> forall slot: Slot ::
          slot.key == s.PeerKey() && 0 <= slot.number < s.receiveCount ==>
            slot in s.skipped || slot in s.decrypted)
  }

  // Each stored key is the scheduled one.
  ghost predicate SlotsInv(secret: Secret, keys: seq<Raw>, seen: set<Raw>, s: State) {
    && |s.skipped| <= MAX_SKIPPED_KEYS
    && Bookkeeping(seen, s)
    && (forall slot :: slot in s.skipped ==> s.skipped[slot] == SlotKey(secret, keys, slot))
  }

  ghost predicate SideInv(secret: Secret, keys: seq<Raw>, me: Side) {
    && ChainsInv(secret, keys, me.session, me.epoch)
    && SlotsInv(secret, keys, me.seen, me.session)
    && me.seen == PeerKeys(keys, me.epoch)
  }

  ghost predicate Genuine(secret: Secret, keys: seq<Raw>, me: Side, m: Sent) {
    && 1 <= m.epoch <= me.epoch < |keys|
    && (me.epoch - m.epoch) % 2 == 0
    && m.body.key == keys[m.epoch]
    && m.body.number >= 0
    && (m.epoch == me.epoch ==> m.body.number < me.session.sendCount)
    && m.body.box == Sealed(SlotKey(secret, keys, m.Slot()),
                            BuildAad(m.body.key, m.body.number, m.body.previous), m.text)
  }

  ghost predicate SentInv(secret: Secret, keys: seq<Raw>, me: Side) {
    && (forall k :: 0 <= k < |me.sent| ==> Genuine(secret, keys, me, me.sent[k]))
    && (forall k, l :: 0 <= k < l < |me.sent| ==> me.sent[k].Slot() != me.sent[l].Slot())
  }

  // `me` as a receiver of `peer`.
  ghost predicate LinkInv(me: Side, peer: Side) {
    && (me.epoch == peer.epoch + 1 ==> me.session.receiveCount <= peer.session.sendCount)
    && (forall k :: k in me.delivered ==> k < |peer.sent|)
    && (forall k :: 0 <= k < |peer.sent| ==>
          (k in me.delivered <==> peer.sent[k].Slot() in me.session.decrypted))
  }

  ghost predicate Schedule(secret: Secret, keys: seq<Raw>) {
    && secret.X3dhSecret?
    && Distinct(keys)
    && forall i :: 0 <= i < |keys| ==> IsKey(keys[i])
  }

  // The two sending chains are neighbours, and the newer one is the last.
  ghost predicate Neighbours(keys: seq<Raw>, e: nat, f: nat) {
    (e == f + 1 && |keys| == e + 1) || (f == e + 1 && |keys| == f + 1)
  }

  ghost predicate PairInv(secret: Secret, keys: seq<Raw>, me: Side, peer: Side) {
    && Schedule(secret, keys)
    && Neighbours(keys, me.epoch, peer.epoch)
    && SideInv(secret, keys, me) && SideInv(secret, keys, peer)
    && SentInv(secret, keys, me) && SentInv(secret, keys, peer)
    && LinkInv(me, peer) && LinkInv(peer, me)
  }

  ghost predicate Inv(w: World) {
    && w.alice.epoch % 2 == 1
    && PairInv(w.secret, w.keys, w.alice, w.bob)
  }

  // establishSessions never throws, and its two sessions agree.
  lemma EstablishInv(alice: Device, bob: Device, ephemeral: Raw, pair: Raw)
    requires alice.Valid() && bob.Valid() && IsKey(ephemeral) && IsKey(pair) && pair != bob.signedPreKey
    ensures var w := Establish(alice, bob, ephemeral, pair); w.Ok? && Inv(w.value)
  {
    X3dhAgreement(alice, bob, ephemeral, true, true);
    DhCommutes(pair, bob.signedPreKey);
    var w := Establish(alice, bob, ephemeral, pair).value;
    assert RootAt(w.secret, w.keys, 1) == RootKey(RootAt(w.secret, w.keys, 0), Dh(w.keys[0], w.keys[1]));
  }

  // ------------------------------------------------------------------
  // One receive
  // ------------------------------------------------------------------

  function Gap(s: State, target: int): nat {
    if target > s.receiveCount then target - s.receiveCount else 0
  }

  ghost predicate NothingAhead(s: State) {
    forall slot :: slot in s.skipped && slot.key == s.PeerKey() ==> slot.number < s.receiveCount
  }

  // `r` is `s` with the keys of receiveCount..target-1 moved into the map.
  ghost predicate StoredUpTo(s: State, r: State, target: int)
    requires s.receiving.Some?
  {
    MovedOn(s, r, target) && HoldsGap(s, r, target)
  }

  ghost predicate MovedOn(s: State, r: State, target: int)
    requires s.receiving.Some?
  {
    && r == s.(skipped := r.skipped, receiving := r.receiving, receiveCount := s.receiveCount + Gap(s, target))
    && r.receiving == Some(AdvanceN(s.receiving.value, Gap(s, target)))
    && |r.skipped| == |s.skipped| + Gap(s, target)
  }

  ghost predicate HoldsGap(s: State, r: State, target: int)
    requires s.receiving.Some?
  {
    && (forall slot :: slot in r.skipped <==>
          slot in s.skipped || (slot.key == s.PeerKey() && s.receiveCount <= slot.number < target))
    && (forall slot :: slot in s.skipped ==> r.skipped[slot] == s.skipped[slot])
    && (forall slot :: slot in r.skipped && slot !in s.skipped ==>
          r.skipped[slot] == MessageKey(AdvanceN(s.receiving.value, slot.number - s.receiveCount)))
  }

  function SkipOne(s: State): State
    requires s.receiving.Some?
  {
    s.(skipped := s.skipped[Slot(s.receiveCount, s.PeerKey()) := MessageKey(s.receiving.value)],
       receiving := Some(NextChain(s.receiving.value)),
       receiveCount := s.receiveCount + 1)
  }

  lemma MovedOneMore(s: State, r: State, target: int)
    requires s.receiving.Some? && NothingAhead(s) && s.receiveCount < target
    requires MovedOn(SkipOne(s), r, target)
    ensures MovedOn(s, r, target)
  {
    var s1 := SkipOne(s);
    assert |s1.skipped| == |s.skipped| + 1;
    AdvanceNFront(s.receiving.value, Gap(s1, target));
  }

  lemma HoldsOneMore(s: State, r: State, target: int)
    requires s.receiving.Some? && NothingAhead(s) && s.receiveCount < target
    requires HoldsGap(SkipOne(s), r, target)
    ensures HoldsGap(s, r, target)
  {
    hide AdvanceN;
    var s1, next := SkipOne(s), Slot(s.receiveCount, s.PeerKey());
    assert forall slot :: slot in s1.skipped <==> slot in s.skipped || slot == next;
    assert s1.PeerKey() == s.PeerKey();
    forall slot | slot in r.skipped && slot !in s.skipped
      ensures r.skipped[slot] == MessageKey(AdvanceN(s.receiving.value, slot.number - s.receiveCount))
    {
      StoredValue(s, r, target, slot);
    }
  }

  lemma StoredValue(s: State, r: State, target: int, slot: Slot)
    requires s.receiving.Some? && s.receiveCount < target
    requires HoldsGap(SkipOne(s), r, target)
    requires slot in r.skipped && slot !in s.skipped
    ensures s.receiveCount <= slot.number
    ensures r.skipped[slot] == MessageKey(AdvanceN(s.receiving.value, slot.number - s.receiveCount))
  {
    if slot !in SkipOne(s).skipped {
      AdvanceNFront(s.receiving.value, slot.number - s.receiveCount - 1);
    }
  }

  // The loop in closed form: it stops at the limit, or stores exactly the gap.
  lemma {:induction false} SkipToClosed(s: State, target: int)
    requires s.receiving.Some? && NothingAhead(s) && |s.skipped| <= MAX_SKIPPED_KEYS
    ensures |s.skipped| + Gap(s, target) <= MAX_SKIPPED_KEYS ==>
      SkipTo(s, target).1.None? && StoredUpTo(s, SkipTo(s, target).0, target)
    ensures |s.skipped| + Gap(s, target) > MAX_SKIPPED_KEYS ==> SkipTo(s, target).1 == Some(SkipLimit)
    decreases target - s.receiveCount
  {
    if s.receiveCount >= target {
    } else {
      var s1 := SkipOne(s);
      assert |s1.skipped| == |s.skipped| + 1;
      if |s1.skipped| <= MAX_SKIPPED_KEYS {
        SkipToClosed(s1, target);
        if |s.skipped| + Gap(s, target) <= MAX_SKIPPED_KEYS {
          MovedOneMore(s, SkipTo(s1, target).0, target);
          HoldsOneMore(s, SkipTo(s1, target).0, target);
        }
      }
    }
  }

  // A genuine body of the chain the receiver is on.
  ghost predicate OnCurrentChain(secret: Secret, keys: seq<Raw>, s: State, m: Sent) {
    && s.receiving.Some? && s.theirs == Some(m.body.key)
    && SeedOf(secret, keys, m.body.key).Some?
    && s.receiving.value == AdvanceN(SeedOf(secret, keys, m.body.key).value, s.receiveCount)
    && m.body.number >= 0
    && m.body.box == Sealed(SlotKey(secret, keys, m.Slot()),
                            BuildAad(m.body.key, m.body.number, m.body.previous), m.text)
  }

  lemma ReceiveStored(secret: Secret, keys: seq<Raw>, seen: set<Raw>, s: State, m: Sent)
    requires SlotsInv(secret, keys, seen, s) && OnCurrentChain(secret, keys, s, m)
    requires m.Slot() in s.skipped
    ensures
      var (s', r) := Receive(s, m.body);
      && r == Ok(m.text)
      && s' == s.(skipped := s.skipped - {m.Slot()}, decrypted := s.decrypted + {m.Slot()})
      && SlotsInv(secret, keys, seen, s')
  {
    SlotMoves(secret, keys, seen, s, m.Slot());
    hide SlotInv, SkipTo, TakeNext, SlotKey, SeedOf, AdvanceN, BuildAad;
    assert m.Slot() !in s.decrypted;
  }

  // A slot goes from the skipped to the decrypted.
  lemma SlotMoves(secret: Secret, keys: seq<Raw>, seen: set<Raw>, s: State, slot: Slot)
    requires SlotsInv(secret, keys, seen, s) && slot in s.skipped
    ensures SlotsInv(secret, keys, seen, s.(skipped := s.skipped - {slot}, decrypted := s.decrypted + {slot}))
  {
    hide SlotKey;
    var s' := s.(skipped := s.skipped - {slot}, decrypted := s.decrypted + {slot});
    assert |s'.skipped| == |s.skipped| - 1;
    BookkeepingMoves(seen, s, slot);
  }

  lemma BookkeepingMoves(seen: set<Raw>, s: State, slot: Slot)
    requires Bookkeeping(seen, s) && slot in s.skipped
    ensures Bookkeeping(seen, s.(skipped := s.skipped - {slot}, decrypted := s.decrypted + {slot}))
  {
  }

  // A body not seen yet: the loop runs and the next key of the chain is taken ...
  lemma AheadSkips(s: State, body: Body)
    requires s.receiving.Some? && NothingAhead(s) && |s.skipped| <= MAX_SKIPPED_KEYS
    requires Slot(body.number, s.PeerKey()) !in s.skipped && Slot(body.number, s.PeerKey()) !in s.decrypted
    ensures |s.skipped| + Gap(s, body.number) > MAX_SKIPPED_KEYS ==> Receive(s, body).1 == Err(SkipLimit)
    ensures |s.skipped| + Gap(s, body.number) <= MAX_SKIPPED_KEYS ==>
      var r := SkipTo(s, body.number).0;
      && StoredUpTo(s, r, body.number)
      && Receive(s, body) == TakeNext(r, body, Slot(body.number, s.PeerKey()))
  {
    SkipToClosed(s, body.number);
  }

  // ... which is the key the schedule assigns to the body ...
  lemma AheadOpens(secret: Secret, keys: seq<Raw>, s: State, r: State, m: Sent)
    requires OnCurrentChain(secret, keys, s, m) && m.body.number >= s.receiveCount
    requires StoredUpTo(s, r, m.body.number)
    ensures
      var (s', text) := TakeNext(r, m.body, m.Slot());
      && text == Ok(m.text)
      && s'.skipped == r.skipped && s'.decrypted == s.decrypted + {m.Slot()}
      && s'.receiving == Some(AdvanceN(SeedOf(secret, keys, m.body.key).value, m.body.number + 1))
      && s'.receiveCount == m.body.number + 1
      && s' == s.(skipped := s'.skipped, decrypted := s'.decrypted,
                  receiving := s'.receiving, receiveCount := s'.receiveCount)
  {
    var seed := SeedOf(secret, keys, m.body.key).value;
    AheadChain(secret, keys, s, r, m);
    hide SlotKey, SeedOf, HoldsGap, AdvanceN, BuildAad;
    assert AheadOpened(r, m, seed);
  }

  // The key next in the chain is the body's.
  ghost predicate AheadOpened(r: State, m: Sent, seed: Secret) {
    && m.body.number >= 0 && r.receiving == Some(AdvanceN(seed, m.body.number))
    && NextChain(AdvanceN(seed, m.body.number)) == AdvanceN(seed, m.body.number + 1)
    && m.body.box == Sealed(MessageKey(AdvanceN(seed, m.body.number)),
                            BuildAad(m.body.key, m.body.number, m.body.previous), m.text)
  }

  lemma AheadChain(secret: Secret, keys: seq<Raw>, s: State, r: State, m: Sent)
    requires OnCurrentChain(secret, keys, s, m) && m.body.number >= s.receiveCount
    requires MovedOn(s, r, m.body.number)
    ensures AheadOpened(r, m, SeedOf(secret, keys, m.body.key).value) && r.receiveCount == m.body.number
  {
    AdvanceNSum(SeedOf(secret, keys, m.body.key).value, s.receiveCount, m.body.number - s.receiveCount);
  }

  lemma {:induction false} AdvanceNSum(seed: Secret, n: nat, k: nat)
    ensures AdvanceN(AdvanceN(seed, n), k) == AdvanceN(seed, n + k)
  {
    if k == 0 {
    } else {
      AdvanceNSum(seed, n, k - 1);
    }
  }

  // ... stores scheduled keys only ...
  lemma AheadValues(secret: Secret, keys: seq<Raw>, s: State, r: State, m: Sent)
    requires OnCurrentChain(secret, keys, s, m) && StoredUpTo(s, r, m.body.number)
    requires forall slot :: slot in s.skipped ==> s.skipped[slot] == SlotKey(secret, keys, slot)
    ensures forall slot :: slot in r.skipped ==> r.skipped[slot] == SlotKey(secret, keys, slot)
  {
    hide AdvanceN, BuildAad;
    var seed := SeedOf(secret, keys, m.body.key).value;
    forall slot | slot in r.skipped
      ensures r.skipped[slot] == SlotKey(secret, keys, slot)
    {
      if slot !in s.skipped {
        AdvanceNSum(seed, s.receiveCount, slot.number - s.receiveCount);
      }
    }
  }

  // ... and the bookkeeping stays exact.
  lemma AheadBookkeeping(seen: set<Raw>, s: State, r: State, s': State, slot: Slot)
    requires Bookkeeping(seen, s) && s.receiving.Some? && s.theirs.Some? && slot.key == s.PeerKey() && slot.key in seen
    requires s.receiveCount <= slot.number && slot !in s.decrypted
    requires StoredUpTo(s, r, slot.number)
    requires s'.skipped == r.skipped && s'.decrypted == s.decrypted + {slot}
    requires s'.theirs == s.theirs && s'.receiveCount == slot.number + 1 && s'.receiving.Some?
    ensures Bookkeeping(seen, s')
  {
    forall other | other in s'.skipped
      ensures SlotInv(seen, s', other) && other !in s'.decrypted
    {
      assert other in s.skipped ==> SlotInv(seen, s, other);
      assert other in s.decrypted ==> SlotInv(seen, s, other);
    }
    forall other | other in s'.decrypted
      ensures SlotInv(seen, s', other)
    {
      assert other in s.decrypted ==> SlotInv(seen, s, other);
    }
    forall other: Slot | other.key == s'.PeerKey() && 0 <= other.number < s'.receiveCount
      ensures other in s'.skipped || other in s'.decrypted
    {
      if other.number == slot.number {
        assert other == slot;
      } else if other.number >= s.receiveCount {
        assert other in r.skipped;
      }
    }
  }

  // One delivery on the current chain, in all cases.
  lemma ReceiveCurrent(secret: Secret, keys: seq<Raw>, seen: set<Raw>, s: State, m: Sent)
    requires SlotsInv(secret, keys, seen, s) && OnCurrentChain(secret, keys, s, m) && m.body.key in seen
    ensures m.Slot() in s.decrypted ==> Receive(s, m.body) == (s, Err(Replay))
    ensures m.Slot() !in s.decrypted ==>
      var (s', r) := Receive(s, m.body);
      if m.Slot() in s.skipped || |s.skipped| + Gap(s, m.body.number) <= MAX_SKIPPED_KEYS then
        && r == Ok(m.text)
        && s'.decrypted == s.decrypted + {m.Slot()}
        && s'.receiveCount == (if m.body.number < s.receiveCount then s.receiveCount else m.body.number + 1)
        && s'.receiving == Some(AdvanceN(SeedOf(secret, keys, m.body.key).value, s'.receiveCount))
        && s' == s.(skipped := s'.skipped, decrypted := s'.decrypted,
                    receiving := s'.receiving, receiveCount := s'.receiveCount)
        && SlotsInv(secret, keys, seen, s')
      else r == Err(SkipLimit)
  {
    var slot := m.Slot();
    if slot in s.decrypted {
    } else if slot in s.skipped {
      assert SlotInv(seen, s, slot);
      ReceiveStored(secret, keys, seen, s, m);
    } else {
      assert m.body.number >= s.receiveCount;
      AheadSkips(s, m.body);
      if |s.skipped| + Gap(s, m.body.number) <= MAX_SKIPPED_KEYS {
        var r := SkipTo(s, m.body.number).0;
        AheadOpens(secret, keys, s, r, m);
        AheadValues(secret, keys, s, r, m);
        AheadBookkeeping(seen, s, r, TakeNext(r, m.body, slot).0, slot);
      }
    }
  }

  // ------------------------------------------------------------------
  // One ratchet step
  // ------------------------------------------------------------------

  lemma PeerKeysGrow(keys: seq<Raw>, pair: Raw, e: nat)
    requires e + 2 == |keys|
    ensures PeerKeys(keys + [pair], e + 2) == PeerKeys(keys, e) + {keys[e + 1]}
  {
    var all := keys + [pair];
    var before, after := PeerKeys(keys, e), PeerKeys(all, e + 2);
    forall key | key in after
      ensures key in before + {keys[e + 1]}
    {
      var i :| 1 <= i < e + 2 && (e + 2 - i) % 2 == 1 && key == all[i];
      assert i < e ==> (e - i) % 2 == 1;
    }
    forall key | key in before
      ensures key in after
    {
      var i :| 1 <= i < e && (e - i) % 2 == 1 && key == keys[i];
      assert all[i] == key && (e + 2 - i) % 2 == 1;
    }
    assert all[e + 1] == keys[e + 1];
  }

  lemma PeerKeysSame(keys: seq<Raw>, pair: Raw, e: nat)
    requires e < |keys|
    ensures PeerKeys(keys + [pair], e) == PeerKeys(keys, e)
  {
    var all := keys + [pair];
    forall key
      ensures key in PeerKeys(all, e) <==> key in PeerKeys(keys, e)
    {
      if key in PeerKeys(all, e) {
        var i :| 1 <= i < e && (e - i) % 2 == 1 && key == all[i];
        assert keys[i] == key;
      }
      if key in PeerKeys(keys, e) {
        var i :| 1 <= i < e && (e - i) % 2 == 1 && key == keys[i];
        assert all[i] == key;
      }
    }
  }

  lemma NotYetSeen(keys: seq<Raw>, e: nat, i: nat)
    requires Distinct(keys) && e <= i < |keys|
    ensures keys[i] !in PeerKeys(keys, e)
  {
  }

  lemma NewPairUnseen(keys: seq<Raw>, pair: Raw, e: nat)
    requires pair !in keys && e < |keys|
    ensures pair !in PeerKeys(keys, e)
  {
  }

  lemma ChainsAfterRatchet(secret: Secret, keys: seq<Raw>, s: State, e: nat, pair: Raw)
    requires ChainsInv(secret, keys, s, e) && e + 2 == |keys|
    ensures ChainsInv(secret, keys + [pair], RatchetOn(s, keys[e + 1], pair), e + 2)
  {
    var all := keys + [pair];
    RootAtPrefix(secret, keys, pair, e);
    DhCommutes(pair, keys[e + 1]);
    assert RootAt(secret, all, e + 1) == RootKey(RootAt(secret, all, e), Dh(all[e], all[e + 1]));
    assert RootAt(secret, all, e + 2) == RootKey(RootAt(secret, all, e + 1), Dh(all[e + 1], all[e + 2]));
  }

  lemma ChainsKept(secret: Secret, keys: seq<Raw>, s: State, e: nat, pair: Raw)
    requires ChainsInv(secret, keys, s, e)
    ensures ChainsInv(secret, keys + [pair], s, e)
  {
    RootAtPrefix(secret, keys, pair, e);
    if e >= 1 {
      RootAtPrefix(secret, keys, pair, e - 1);
    }
    if e >= 2 {
      RootAtPrefix(secret, keys, pair, e - 2);
    }
  }

  // A key not yet generated names no slot.
  lemma SlotKeyKept(secret: Secret, keys: seq<Raw>, pair: Raw, slot: Slot)
    requires slot.key != pair
    ensures SlotKey(secret, keys + [pair], slot) == SlotKey(secret, keys, slot)
  {
    SeedOfPrefix(secret, keys, pair, slot.key);
  }

  lemma SlotsKept(secret: Secret, keys: seq<Raw>, seen: set<Raw>, s: State, pair: Raw)
    requires SlotsInv(secret, keys, seen, s) && pair !in seen
    ensures SlotsInv(secret, keys + [pair], seen, s)
  {
    forall slot | slot in s.skipped
      ensures s.skipped[slot] == SlotKey(secret, keys + [pair], slot)
    {
      assert SlotInv(seen, s, slot);
      SlotKeyKept(secret, keys, pair, slot);
    }
  }

  lemma SlotsAfterRatchet(secret: Secret, keys: seq<Raw>, seen: set<Raw>, s: State, key: Raw, pair: Raw)
    requires SlotsInv(secret, keys, seen, s) && key !in seen
    ensures SlotsInv(secret, keys, seen + {key}, RatchetOn(s, key, pair))
  {
    var s' := RatchetOn(s, key, pair);
    forall slot | slot in s.skipped || slot in s.decrypted
      ensures SlotInv(seen + {key}, s', slot)
    {
      assert SlotInv(seen, s, slot);
    }
  }

  lemma SentKept(secret: Secret, keys: seq<Raw>, me: Side, pair: Raw)
    requires SentInv(secret, keys, me) && pair !in keys
    ensures SentInv(secret, keys + [pair], me)
  {
    forall k | 0 <= k < |me.sent|
      ensures Genuine(secret, keys + [pair], me, me.sent[k])
    {
      assert Genuine(secret, keys, me, me.sent[k]);
      SlotKeyKept(secret, keys, pair, me.sent[k].Slot());
    }
  }

  // ------------------------------------------------------------------
  // One delivery
  // ------------------------------------------------------------------

  // A genuine body is of the chain after, the chain before, or an older chain.
  lemma Classify(secret: Secret, keys: seq<Raw>, me: Side, peer: Side, m: Sent)
    requires Distinct(keys) && Neighbours(keys, me.epoch, peer.epoch)
    requires Genuine(secret, keys, peer, m) && IsKey(m.body.key)
    requires me.seen == PeerKeys(keys, me.epoch)
    requires me.session.theirs == (if me.epoch == 0 then None else Some(keys[me.epoch - 1]))
    ensures m.epoch == me.epoch + 1 || m.epoch == me.epoch - 1 || m.epoch < me.epoch - 1
    ensures m.epoch == me.epoch + 1 ==> peer.epoch == m.epoch && m.body.key !in me.seen
    ensures m.epoch <= me.epoch - 1 ==> m.body.key in me.seen
    ensures m.epoch == me.epoch - 1 <==> me.session.theirs == Some(m.body.key)
    ensures IsNewKey(me.session, m.body.key) <==> m.epoch != me.epoch - 1
  {
    if m.epoch == me.epoch + 1 {
      NotYetSeen(keys, me.epoch, m.epoch);
    } else {
      assert (me.epoch - m.epoch) % 2 == 1;
    }
  }

  // `me` opens `m`: the plaintext comes out and the session stays in order.
  ghost predicate Opens(secret: Secret, keys: seq<Raw>, me: Side, m: Sent, s': State, r: Outcome<string, Failure>) {
    && r == Ok(m.text)
    && SideInv(secret, keys, me.(session := s'))
    && s'.decrypted == me.session.decrypted + {m.Slot()}
    && s'.sendCount == me.session.sendCount
    && s'.receiveCount ==
         (if m.body.number < me.session.receiveCount then me.session.receiveCount else m.body.number + 1)
  }

  // Every answer to a genuine body of the chain the session stands on.
  ghost predicate Answers(secret: Secret, keys: seq<Raw>, me: Side, m: Sent, s': State, r: Outcome<string, Failure>) {
    var s := me.session;
    if m.Slot() in s.decrypted then s' == s && r == Err(Replay)
    else if m.Slot() in s.skipped || |s.skipped| + Gap(s, m.body.number) <= MAX_SKIPPED_KEYS
    then Opens(secret, keys, me, m, s', r)
    else r == Err(SkipLimit)
  }

  lemma StandsOnChain(secret: Secret, keys: seq<Raw>, me: Side, m: Sent)
    requires SideInv(secret, keys, me) && Distinct(keys)
    requires 2 <= me.epoch && m.epoch == me.epoch - 1 && m.body.key == keys[m.epoch] && m.body.number >= 0
    requires m.body.box == Sealed(SlotKey(secret, keys, m.Slot()),
                                  BuildAad(m.body.key, m.body.number, m.body.previous), m.text)
    ensures OnCurrentChain(secret, keys, me.session, m) && m.body.key in me.seen
    ensures SeedOf(secret, keys, m.body.key) == Some(ChainAt(secret, keys, m.epoch))
  {
    hide SlotsInv, Distinct, AdvanceN, SeedOf, SlotKey, ChainAt, RootAt, BuildAad;
    SeedOfAt(secret, keys, m.epoch);
  }

  lemma OpenOnChain(secret: Secret, keys: seq<Raw>, me: Side, m: Sent)
    requires SideInv(secret, keys, me) && Distinct(keys)
    requires 2 <= me.epoch && m.epoch == me.epoch - 1 && m.body.key == keys[m.epoch] && m.body.number >= 0
    requires m.body.box == Sealed(SlotKey(secret, keys, m.Slot()),
                                  BuildAad(m.body.key, m.body.number, m.body.previous), m.text)
    ensures var (s', r) := Receive(me.session, m.body); Answers(secret, keys, me, m, s', r)
  {
    hide SlotsInv, PeerKeys, Distinct, Receive, RootAt, ChainAt, AdvanceN, SeedOf, SlotKey, BuildAad, OnCurrentChain;
    StandsOnChain(secret, keys, me, m);
    ReceiveCurrent(secret, keys, me.seen, me.session, m);
  }

  // The ratchet step that the first body of a new chain causes.
  lemma AlignToNewChain(secret: Secret, keys: seq<Raw>, me: Side, key: Raw, pair: Raw)
    requires SideInv(secret, keys, me) && Distinct(keys)
    requires |keys| == me.epoch + 2 && key == keys[me.epoch + 1] && pair !in keys
    ensures SideInv(secret, keys + [pair],
                    me.(session := RatchetOn(me.session, key, pair), epoch := me.epoch + 2, seen := me.seen + {key}))
  {
    hide SlotsInv, ChainsInv, PeerKeys, Distinct, RatchetOn;
    NewPairUnseen(keys, pair, me.epoch);
    NotYetSeen(keys, me.epoch, me.epoch + 1);
    ChainsAfterRatchet(secret, keys, me.session, me.epoch, pair);
    SlotsAfterRatchet(secret, keys, me.seen, me.session, key, pair);
    SlotsKept(secret, keys, me.seen + {key}, RatchetOn(me.session, key, pair), pair);
    PeerKeysGrow(keys, pair, me.epoch);
  }

  lemma SideKept(secret: Secret, keys: seq<Raw>, me: Side, pair: Raw)
    requires SideInv(secret, keys, me) && pair !in keys
    ensures SideInv(secret, keys + [pair], me)
  {
    ChainsKept(secret, keys, me.session, me.epoch, pair);
    SlotsKept(secret, keys, me.seen, me.session, pair);
    PeerKeysSame(keys, pair, me.epoch);
  }

  // The peer's view does not depend on what the receiver has opened.
  lemma LinksAfterOpen(me: Side, me': Side, peer: Side, index: nat)
    requires LinkInv(me, peer) && LinkInv(peer, me) && index < |peer.sent|
    requires forall k, l :: 0 <= k < l < |peer.sent| ==> peer.sent[k].Slot() != peer.sent[l].Slot()
    requires me'.sent == me.sent && me'.epoch >= me.epoch
    requires me'.epoch == me.epoch ==> me'.session.sendCount == me.session.sendCount
    requires me'.epoch == peer.epoch + 1 ==> me'.session.receiveCount <= peer.session.sendCount
    requires me'.delivered == me.delivered + {index}
    requires me'.session.decrypted == me.session.decrypted + {peer.sent[index].Slot()}
    ensures LinkInv(me', peer)
    ensures peer.epoch != me'.epoch + 1 || me'.epoch == me.epoch ==> LinkInv(peer, me')
  {
    forall k | 0 <= k < |peer.sent|
      ensures k in me'.delivered <==> peer.sent[k].Slot() in me'.session.decrypted
    {
      if k < index {
        assert peer.sent[k].Slot() != peer.sent[index].Slot();
      } else if index < k {
        assert peer.sent[index].Slot() != peer.sent[k].Slot();
      }
    }
  }

  lemma SentUnchanged(secret: Secret, keys: seq<Raw>, me: Side, me': Side)
    requires SentInv(secret, keys, me) && me'.sent == me.sent
    requires me'.epoch < |keys| && (me'.epoch == me.epoch || me'.epoch == me.epoch + 2)
    requires me'.epoch == me.epoch ==> me'.session.sendCount == me.session.sendCount
    ensures SentInv(secret, keys, me')
  {
    forall k | 0 <= k < |me'.sent|
      ensures Genuine(secret, keys, me', me'.sent[k])
    {
      assert Genuine(secret, keys, me, me.sent[k]);
    }
  }

  lemma ScheduleGrows(secret: Secret, keys: seq<Raw>, pair: Raw)
    requires Schedule(secret, keys) && IsKey(pair) && pair !in keys
    ensures Schedule(secret, keys + [pair])
  {
  }

  // A side that has opened body `index` with its chains and slots in order.
  ghost predicate OpenedAs(secret: Secret, keys: seq<Raw>, me: Side, peer: Side, index: nat, me': Side)
    requires index < |peer.sent|
  {
    && SideInv(secret, keys, me')
    && me'.sent == me.sent
    && (me'.epoch == me.epoch || me'.epoch == me.epoch + 2)
    && (me'.epoch == me.epoch ==> me'.session.sendCount == me.session.sendCount)
    && (me'.epoch == peer.epoch + 1 ==> me'.session.receiveCount <= peer.session.sendCount)
    && me'.delivered == me.delivered + {index}
    && me'.session.decrypted == me.session.decrypted + {peer.sent[index].Slot()}
  }

  lemma PairAfterOpen(secret: Secret, keys: seq<Raw>, me: Side, peer: Side, index: nat, me': Side)
    requires Schedule(secret, keys) && Neighbours(keys, me'.epoch, peer.epoch)
    requires SideInv(secret, keys, peer) && SentInv(secret, keys, me) && SentInv(secret, keys, peer)
    requires LinkInv(me, peer) && LinkInv(peer, me)
    requires index < |peer.sent| && OpenedAs(secret, keys, me, peer, index, me')
    requires me'.epoch == me.epoch || peer.epoch != me'.epoch + 1
    ensures PairInv(secret, keys, me', peer)
  {
    SentUnchanged(secret, keys, me, me');
    LinksAfterOpen(me, me', peer, index);
  }

  // `me` once it stands on the chain of a genuine body with key `key`.
  function AlignSide(me: Side, key: Raw, pair: Raw): Side {
    if IsNewKey(me.session, key)
    then me.(session := RatchetOn(me.session, key, pair), epoch := me.epoch + 2, seen := me.seen + {key})
    else me
  }

  lemma AnswerCurrent(secret: Secret, keys: seq<Raw>, me: Side, peer: Side, m: Sent, pair: Raw)
    requires Schedule(secret, keys) && SideInv(secret, keys, me) && Neighbours(keys, me.epoch, peer.epoch)
    requires Genuine(secret, keys, peer, m) && m.epoch == me.epoch - 1
    ensures AlignSide(me, m.body.key, pair) == me && m.body.key in me.seen
    ensures var (s', r) := Decrypt(me.session, m.body, pair); Answers(secret, keys, me, m, s', r)
  {
    hide Receive, Answers, SlotsInv, Distinct, PeerKeys, AdvanceN, SeedOf, SlotKey, ChainAt, RootAt;
    Classify(secret, keys, me, peer, m);
    OpenOnChain(secret, keys, me, m);
  }

  lemma AnswerNew(secret: Secret, keys: seq<Raw>, me: Side, peer: Side, m: Sent, pair: Raw)
    requires Schedule(secret, keys) && SideInv(secret, keys, me) && Neighbours(keys, me.epoch, peer.epoch)
    requires Genuine(secret, keys, peer, m) && m.epoch == me.epoch + 1
    requires IsKey(pair) && pair !in keys
    ensures IsNewKey(me.session, m.body.key)
    ensures m.Slot() !in me.session.skipped && m.Slot() !in me.session.decrypted
    ensures
      var me1 := AlignSide(me, m.body.key, pair);
      var (s', r) := Decrypt(me.session, m.body, pair);
      Answers(secret, keys + [pair], me1, m, s', r)
  {
    hide Receive, Answers, Distinct, PeerKeys, AdvanceN, SeedOf, SlotKey, ChainAt, RootAt;
    Classify(secret, keys, me, peer, m);
    assert m.Slot() in me.session.skipped || m.Slot() in me.session.decrypted ==>
        SlotInv(me.seen, me.session, m.Slot());
    AlignToNewChain(secret, keys, me, m.body.key, pair);
    ScheduleGrows(secret, keys, pair);
    SlotKeyKept(secret, keys, pair, m.Slot());
    OpenOnChain(secret, keys + [pair], AlignSide(me, m.body.key, pair), m);
  }

  // The history of a side that has opened body `index`.
  lemma RecordOpened(secret: Secret, keys: seq<Raw>, me: Side, me1: Side, peer: Side, index: nat,
                     s': State, r: Outcome<string, Failure>)
    requires index < |peer.sent|
    requires Opens(secret, keys, me1, peer.sent[index], s', r)
    requires me1 == me || (me1.epoch == me.epoch + 2 && me1.sent == me.sent && me1.delivered == me.delivered
                           && me1.session.decrypted == me.session.decrypted && me1.session.receiveCount == 0)
    requires me1.epoch == peer.epoch + 1 ==>
      me1.session.receiveCount <= peer.session.sendCount && peer.sent[index].body.number < peer.session.sendCount
    ensures OpenedAs(secret, keys, me, peer, index, me1.(session := s', delivered := me.delivered + {index}))
  {
    assert SideInv(secret, keys, me1.(session := s'));
  }

  lemma PairAfterNew(secret: Secret, keys: seq<Raw>, me: Side, peer: Side, index: nat, pair: Raw, me': Side)
    requires PairInv(secret, keys, me, peer) && index < |peer.sent| && peer.epoch == me.epoch + 1
    requires IsKey(pair) && pair !in keys
    requires OpenedAs(secret, keys + [pair], me, peer, index, me') && me'.epoch == me.epoch + 2
    ensures PairInv(secret, keys + [pair], me', peer)
  {
    ScheduleGrows(secret, keys, pair);
    SideKept(secret, keys, peer, pair);
    SentKept(secret, keys, me, pair);
    SentKept(secret, keys, peer, pair);
    PairAfterOpen(secret, keys + [pair], me, peer, index, me');
  }

  // ------------------------------------------------------------------
  // Main results
  // ------------------------------------------------------------------

  // What a legal delivery does, `keys'` being the keys afterwards.
  ghost predicate DeliversWell(secret: Secret, keys': seq<Raw>, me: Side, peer: Side, index: nat, pair: Raw)
    requires index < |peer.sent|
  {
    var m := peer.sent[index];
    var me' := DeliverSide(me, index, m.body, pair);
    && PairInv(secret, keys', me', peer)
    && me'.epoch % 2 == me.epoch % 2
    && (if index in me.delivered then me' == me && Decrypt(me.session, m.body, pair).1 == Err(Replay)
        else Decrypt(me.session, m.body, pair).1 == Ok(m.text))
  }

  lemma DeliverCurrent(secret: Secret, keys: seq<Raw>, me: Side, peer: Side, index: nat, pair: Raw)
    requires PairInv(secret, keys, me, peer) && index < |peer.sent| && peer.sent[index].epoch == me.epoch - 1
    requires !IsNewKey(me.session, peer.sent[index].body.key)
    requires WithinLimit(me.session, peer.sent[index].body)
    ensures DeliversWell(secret, keys, me, peer, index, pair)
  {
    hide Decrypt, SlotsInv, Distinct, PeerKeys, AdvanceN, SeedOf, SlotKey, ChainAt, RootAt, BuildAad;
    var m := peer.sent[index];
    assert Genuine(secret, keys, peer, m);
    var (s', r) := Decrypt(me.session, m.body, pair);
    AnswerCurrent(secret, keys, me, peer, m, pair);
    assert me.seen + {m.body.key} == me.seen;
    if index !in me.delivered {
      RecordOpened(secret, keys, me, me, peer, index, s', r);
      hide SideInv, SentInv, LinkInv, Genuine, OpenedAs;
      PairAfterOpen(secret, keys, me, peer, index, DeliverSide(me, index, m.body, pair));
    }
  }

  lemma DeliverNew(secret: Secret, keys: seq<Raw>, me: Side, peer: Side, index: nat, pair: Raw)
    requires PairInv(secret, keys, me, peer) && index < |peer.sent| && peer.sent[index].epoch == me.epoch + 1
    requires peer.epoch == me.epoch + 1 && IsKey(pair) && pair !in keys
    requires WithinLimit(me.session, peer.sent[index].body)
    ensures IsNewKey(me.session, peer.sent[index].body.key)
    ensures DeliversWell(secret, keys + [pair], me, peer, index, pair)
  {
    hide Decrypt, SlotsInv, Distinct, PeerKeys, AdvanceN, SeedOf, SlotKey, ChainAt, RootAt, BuildAad;
    var m := peer.sent[index];
    assert Genuine(secret, keys, peer, m);
    var (s', r) := Decrypt(me.session, m.body, pair);
    var me1 := AlignSide(me, m.body.key, pair);
    AnswerNew(secret, keys, me, peer, m, pair);
    assert index !in me.delivered;
    RecordOpened(secret, keys + [pair], me, me1, peer, index, s', r);
    hide SideInv, SentInv, LinkInv, Genuine, OpenedAs;
    PairAfterNew(secret, keys, me, peer, index, pair, DeliverSide(me, index, m.body, pair));
  }

  lemma DeliverKeepsPair(secret: Secret, keys: seq<Raw>, me: Side, peer: Side, index: nat, pair: Raw)
    requires PairInv(secret, keys, me, peer) && index < |peer.sent|
    requires IsKey(pair) && pair !in keys
    requires InOrder(me, peer.sent[index].body.key) && WithinLimit(me.session, peer.sent[index].body)
    ensures
      DeliversWell(secret, if IsNewKey(me.session, peer.sent[index].body.key) then keys + [pair] else keys,
                   me, peer, index, pair)
  {
    hide DeliversWell, SlotsInv, Distinct, PeerKeys, LinkInv, AdvanceN, SeedOf, SlotKey, ChainAt, RootAt, BuildAad;
    var m := peer.sent[index];
    assert Genuine(secret, keys, peer, m);
    Classify(secret, keys, me, peer, m);
    if m.epoch == me.epoch - 1 {
      DeliverCurrent(secret, keys, me, peer, index, pair);
    } else {
      DeliverNew(secret, keys, me, peer, index, pair);
    }
  }

  lemma SendKeepsPair(secret: Secret, keys: seq<Raw>, me: Side, peer: Side, text: string)
    requires PairInv(secret, keys, me, peer)
    ensures PairInv(secret, keys, SendSide(me, text), peer)
  {
    hide SlotsInv, SentInv, Genuine, Distinct, PeerKeys, AdvanceN, SeedOf, SlotKey, ChainAt, RootAt;
    if me.session.sending.Some? {
      var me', m := SendSide(me, text), Sent(Encrypt(me.session, text).1.value, text, me.epoch);
      NewBodyGenuine(secret, keys, me, text);
      SideAfterSend(secret, keys, me, text);
      SentAfterSend(secret, keys, me, me', m);
      NotReceivedYet(secret, keys, me, peer, m.Slot());
    }
  }

  lemma NewBodyGenuine(secret: Secret, keys: seq<Raw>, me: Side, text: string)
    requires Distinct(keys) && ChainsInv(secret, keys, me.session, me.epoch) && me.epoch >= 1
    ensures Genuine(secret, keys, SendSide(me, text), Sent(Encrypt(me.session, text).1.value, text, me.epoch))
  {
    SeedOfAt(secret, keys, me.epoch);
  }

  lemma SideAfterSend(secret: Secret, keys: seq<Raw>, me: Side, text: string)
    requires SideInv(secret, keys, me) && me.epoch >= 1
    ensures SideInv(secret, keys, SendSide(me, text))
  {
    var me' := SendSide(me, text);
    assert Bookkeeping(me'.seen, me'.session);
  }

  lemma SentAfterSend(secret: Secret, keys: seq<Raw>, me: Side, me': Side, m: Sent)
    requires SentInv(secret, keys, me) && Distinct(keys) && Genuine(secret, keys, me', m)
    requires me'.epoch == me.epoch == m.epoch && me'.sent == me.sent + [m]
    requires m.body.number == me.session.sendCount && me'.session.sendCount == m.body.number + 1
    ensures SentInv(secret, keys, me')
  {
    forall k | 0 <= k < |me.sent|
      ensures Genuine(secret, keys, me', me.sent[k]) && me.sent[k].Slot() != m.Slot()
    {
      assert Genuine(secret, keys, me, me.sent[k]);
    }
  }

  // The number about to be used on the current chain has not been received.
  lemma NotReceivedYet(secret: Secret, keys: seq<Raw>, me: Side, peer: Side, slot: Slot)
    requires PairInv(secret, keys, me, peer)
    requires slot == Slot(me.session.sendCount, keys[me.epoch])
    ensures slot !in peer.session.decrypted
  {
    assert slot in peer.session.decrypted ==> SlotInv(peer.seen, peer.session, slot);
  }

  // Every legal step keeps the two parties in lockstep.
  lemma StepInv(w: World, e: Event)
    requires Inv(w) && Legal(w, e)
    ensures Inv(Step(w, e))
    ensures e.Deliver? ==>
      var me, m := Get(w, e.to), Peer(w, e.to).sent[e.index];
      if e.index in me.delivered
      then Answer(w, e) == Err(Replay) && Step(w, e) == w
      else Answer(w, e) == Ok(m.text) && Get(Step(w, e), e.to).delivered == me.delivered + {e.index}
  {
    hide Receive, SideInv, SentInv, LinkInv, Distinct;
    match e
    case Send(from, text) =>
      SendKeepsPair(w.secret, w.keys, Get(w, from), Peer(w, from), text);
    case Deliver(to, index, pair) =>
      DeliverKeepsPair(w.secret, w.keys, Get(w, to), Peer(w, to), index, pair);
      if index in Get(w, to).delivered {
        ReplayChangesNoKeys(w, to, index);
      }
  }

  lemma ReplayChangesNoKeys(w: World, to: Party, index: nat)
    requires Inv(w) && index < |Peer(w, to).sent| && index in Get(w, to).delivered
    requires InOrder(Get(w, to), Peer(w, to).sent[index].body.key)
    ensures !IsNewKey(Get(w, to).session, Peer(w, to).sent[index].body.key)
  {
    var me, m := Get(w, to), Peer(w, to).sent[index];
    assert SlotInv(me.seen, me.session, m.Slot());
  }

  // ------------------------------------------------------------------
  // Runs
  // ------------------------------------------------------------------

  predicate LegalRun(w: World, es: seq<Event>)
    decreases |es|, 0
  {
    es == [] || (LegalRun(w, es[..|es| - 1]) && Legal(RunTo(w, es[..|es| - 1]), es[|es| - 1]))
  }

  function RunTo(w: World, es: seq<Event>): World
    requires LegalRun(w, es)
    decreases |es|, 1
  {
    if es == [] then w else Step(RunTo(w, es[..|es| - 1]), es[|es| - 1])
  }

  predicate DeliveredIn(es: seq<Event>, to: Party, index: nat) {
    exists k :: 0 <= k < |es| && es[k].Deliver? && es[k].to == to && es[k].index == index
  }

  lemma DeliveredInLast(es: seq<Event>, to: Party, index: nat)
    requires es != []
    ensures
      var last := es[|es| - 1];
      DeliveredIn(es, to, index) <==>
        DeliveredIn(es[..|es| - 1], to, index) || (last.Deliver? && last.to == to && last.index == index)
  {
    var before := es[..|es| - 1];
    if DeliveredIn(es, to, index) {
      var k :| 0 <= k < |es| && es[k].Deliver? && es[k].to == to && es[k].index == index;
      assert k < |before| ==> before[k] == es[k];
    }
    if DeliveredIn(before, to, index) {
      var k :| 0 <= k < |before| && before[k].Deliver? && before[k].to == to && before[k].index == index;
      assert es[k] == before[k];
    }
  }

  lemma StepDelivers(w: World, e: Event)
    requires Inv(w) && Legal(w, e)
    ensures Inv(Step(w, e))
    ensures forall to, index :: index in Get(Step(w, e), to).delivered <==>
      index in Get(w, to).delivered || (e.Deliver? && e.to == to && e.index == index)
  {
    hide Inv, Decrypt, Encrypt, InOrder, WithinLimit;
    StepInv(w, e);
    assert forall to :: (e.Send? || e.to != to) ==> Get(Step(w, e), to).delivered == Get(w, to).delivered;
  }

  lemma {:induction false} RunInv(w: World, es: seq<Event>)
    requires Inv(w) && LegalRun(w, es)
    ensures Inv(RunTo(w, es))
    ensures forall to, index ::
      index in Get(RunTo(w, es), to).delivered <==> index in Get(w, to).delivered || DeliveredIn(es, to, index)
  {
    hide Inv, DeliveredIn, Legal, Step, Get;
    if es == [] {
      NothingDelivered();
    } else {
      var before, e := es[..|es| - 1], es[|es| - 1];
      RunInv(w, before);
      StepDelivers(RunTo(w, before), e);
      forall to, index
        ensures DeliveredIn(es, to, index)
           <==> DeliveredIn(before, to, index) || (e.Deliver? && e.to == to && e.index == index)
      {
        DeliveredInLast(es, to, index);
      }
    }
  }

  lemma NothingDelivered()
    ensures forall to, index :: !DeliveredIn([], to, index)
  {
  }

  // In every run from establishSessions, the first delivery of a body yields the
  // plaintext it was made from, and any later one is refused and changes nothing.
  lemma DeliverOnce(alice: Device, bob: Device, ephemeral: Raw, pair: Raw, es: seq<Event>, e: Event)
    requires alice.Valid() && bob.Valid() && IsKey(ephemeral) && IsKey(pair) && pair != bob.signedPreKey
    requires Establish(alice, bob, ephemeral, pair).Ok? && LegalRun(Establish(alice, bob, ephemeral, pair).value, es)
    requires e.Deliver? && Legal(RunTo(Establish(alice, bob, ephemeral, pair).value, es), e)
    ensures
      var w := RunTo(Establish(alice, bob, ephemeral, pair).value, es);
      if DeliveredIn(es, e.to, e.index)
      then Answer(w, e) == Err(Replay) && Step(w, e) == w
      else Answer(w, e) == Ok(Peer(w, e.to).sent[e.index].text)
  {
    hide Inv, Decrypt;
    var w0 := Establish(alice, bob, ephemeral, pair).value;
    EstablishInv(alice, bob, ephemeral, pair);
    RunInv(w0, es);
    StepInv(RunTo(w0, es), e);
    assert Get(w0, e.to).delivered == {};
  }

  // In every reachable world the sending chains are neighbours. A party of epoch e
  // sends on chain e, sendCount advances from its seed, and receives on chain e - 1,
  // receiveCount advances from its seed, whether or not the peer has moved on; the
  // skipped and decrypted numbers of that chain partition what it passed.
  lemma Lockstep(w: World, p: Party)
    requires Inv(w)
    ensures w.alice.epoch == w.bob.epoch + 1 || w.bob.epoch == w.alice.epoch + 1
    ensures
      var e, me := Get(w, p).epoch, Get(w, p).session;
      && e < |w.keys| && me.mine == w.keys[e] && (me.sending.Some? <==> e >= 1) && (me.receiving.Some? <==> e >= 2)
      && (e >= 1 ==> me.sending == Some(AdvanceN(ChainAt(w.secret, w.keys, e), me.sendCount)))
      && (e >= 2 ==>
            && me.theirs == Some(w.keys[e - 1])
            && me.receiving == Some(AdvanceN(ChainAt(w.secret, w.keys, e - 1), me.receiveCount))
            && (forall n: int ::
                  0 <= n < me.receiveCount <==> Slot(n, me.PeerKey()) in me.skipped.Keys + me.decrypted)
            && me.skipped.Keys !! me.decrypted)
    // While the peer still sends on that chain, it is ahead by what is on the way.
    ensures
      var me, peer := Get(w, p).session, Peer(w, p).session;
      me.theirs == Some(peer.mine) && me.receiving.Some? ==>
        && me.receiveCount <= peer.sendCount
        && peer.sending == Some(AdvanceN(me.receiving.value, peer.sendCount - me.receiveCount))
  {
    hide SentInv, SlotsInv, Genuine, PeerKeys, AdvanceN, ChainAt, RootAt, Bookkeeping;
    var me, peer := Get(w, p), Peer(w, p);
    if me.epoch >= 2 {
      SideBookkeeping(w.secret, w.keys, me);
      Partition(me.seen, me.session);
    }
    if me.session.theirs == Some(peer.session.mine) && me.session.receiving.Some? {
      assert w.keys[me.epoch - 1] == w.keys[peer.epoch];
      assert me.epoch == peer.epoch + 1;
      AdvanceNSum(ChainAt(w.secret, w.keys, peer.epoch), me.session.receiveCount,
                  peer.session.sendCount - me.session.receiveCount);
    }
  }

  lemma SideBookkeeping(secret: Secret, keys: seq<Raw>, me: Side)
    requires SideInv(secret, keys, me)
    ensures Bookkeeping(me.seen, me.session)
  {
  }

  lemma Partition(seen: set<Raw>, s: State)
    requires Bookkeeping(seen, s) && s.receiving.Some?
    ensures s.skipped.Keys !! s.decrypted
    ensures forall n: int :: 0 <= n < s.receiveCount <==> Slot(n, s.PeerKey()) in s.skipped.Keys + s.decrypted
  {
    forall n: int
      ensures 0 <= n < s.receiveCount <==> Slot(n, s.PeerKey()) in s.skipped.Keys + s.decrypted
    {
      var slot := Slot(n, s.PeerKey());
      assert slot in s.skipped || slot in s.decrypted ==> SlotInv(seen, s, slot);
    }
  }

  // ------------------------------------------------------------------
  // When a genuine body opens at all
  // ------------------------------------------------------------------

  // The loop only moves the chain; it never changes the peer's key.
  lemma {:induction false} SkipToChain(s: State, target: int)
    requires s.receiving.Some?
    ensures var (r, stop) := SkipTo(s, target);
      stop.None? ==> r.receiving == Some(AdvanceN(s.receiving.value, Gap(s, target)))
    decreases target - s.receiveCount
  {
    if s.receiveCount >= target {
    } else {
      var s1 := SkipOne(s);
      if |s1.skipped| <= MAX_SKIPPED_KEYS {
        SkipToChain(s1, target);
        AdvanceNFront(s.receiving.value, Gap(s1, target));
      }
    }
  }

  lemma ForeignChainFails(s: State, body: Body)
    requires s.receiving.Some? && s.receiveCount == 0 && body.number >= 0
    requires Slot(body.number, s.PeerKey()) !in s.skipped
    requires body.box.key != MessageKey(AdvanceN(s.receiving.value, body.number))
    ensures Receive(s, body).1.Err?
  {
    SkipToChain(s, body.number);
    var (r, stop) := SkipTo(s, body.number);
    assert stop.None? ==> r.receiving == Some(AdvanceN(s.receiving.value, body.number));
    assert stop.None? ==> OpenBody(MessageKey(r.receiving.value), body).None?;
  }

  // The chain derived for an old key is none of the schedule.
  lemma OldChainDiffers(secret: Secret, keys: seq<Raw>, s: State, e: nat, i: nat, key: Raw, pair: Raw, number: nat)
    requires Schedule(secret, keys) && ChainsInv(secret, keys, s, e) && 1 <= i < e && key == keys[i]
    ensures SlotKey(secret, keys, Slot(number, key)) != MessageKey(AdvanceN(ChainKey(s.root, Dh(s.mine, key)), number))
  {
    SeedOfAt(secret, keys, i);
    RootAtDepth(secret, keys, i - 1);
    RootAtDepth(secret, keys, e);
    var seed, chain := ChainAt(secret, keys, i), ChainKey(s.root, Dh(s.mine, key));
    if AdvanceN(seed, number) == AdvanceN(chain, number) {
      AdvanceNInjective(seed, number, chain, number);
    }
  }

  // A body of a chain already left behind opens only with a stored key.
  lemma AnswerOld(secret: Secret, keys: seq<Raw>, me: Side, peer: Side, m: Sent, pair: Raw)
    requires Schedule(secret, keys) && SideInv(secret, keys, me) && Neighbours(keys, me.epoch, peer.epoch)
    requires Genuine(secret, keys, peer, m) && m.epoch < me.epoch - 1
    requires IsKey(pair) && pair !in keys
    ensures !InOrder(me, m.body.key)
    ensures Decrypt(me.session, m.body, pair).0 != me.session
    ensures
      var r := Decrypt(me.session, m.body, pair).1;
      if m.Slot() in me.session.decrypted then r == Err(Replay)
      else if m.Slot() in me.session.skipped then r == Ok(m.text)
      else r.Err?
  {
    hide Distinct, PeerKeys, AdvanceN, SeedOf, SlotKey, ChainAt, RootAt, BuildAad, SkipTo;
    Classify(secret, keys, me, peer, m);
    var s := me.session;
    var s1 := RatchetOn(s, m.body.key, pair);
    assert Decrypt(s, m.body, pair) == Receive(s1, m.body);
    ReceiveKeepsMine(s1, m.body);
    assert s.mine != pair;
    if m.Slot() !in s.decrypted && m.Slot() !in s.skipped {
      OldChainDiffers(secret, keys, s, me.epoch, m.epoch, m.body.key, pair, m.body.number);
      ForeignChainFails(s1, m.body);
    }
  }

  lemma ReceiveKeepsMine(s: State, body: Body)
    ensures Receive(s, body).0.mine == s.mine
  {
    SkipToKeepsMine(s, body.number);
  }

  lemma {:induction false} SkipToKeepsMine(s: State, target: int)
    ensures SkipTo(s, target).0.mine == s.mine
    decreases target - s.receiveCount
  {
    if s.receiveCount >= target || s.receiving.None? || |SkipOne(s).skipped| > MAX_SKIPPED_KEYS {
    } else {
      SkipToKeepsMine(SkipOne(s), target);
    }
  }

  // A genuine body not opened before opens exactly when its key is stored, or
  // when it comes in key order and within the limit; nothing else comes out.
  lemma OpensExactlyWhen(w: World, e: Event)
    requires Inv(w) && e.Deliver? && Enabled(w, e)
    requires e.index !in Get(w, e.to).delivered
    ensures
      var me, m := Get(w, e.to), Peer(w, e.to).sent[e.index];
      && (Answer(w, e).Ok? ==> Answer(w, e) == Ok(m.text))
      && (Answer(w, e).Ok? <==>
            m.Slot() in me.session.skipped || (InOrder(me, m.body.key) && WithinLimit(me.session, m.body)))
  {
    hide Receive, SlotsInv, Distinct, PeerKeys, AdvanceN, SeedOf, SlotKey, ChainAt, RootAt;
    var me, peer := Get(w, e.to), Peer(w, e.to);
    var m := peer.sent[e.index];
    assert Genuine(w.secret, w.keys, peer, m);
    Classify(w.secret, w.keys, me, peer, m);
    if m.epoch == me.epoch - 1 {
      AnswerCurrent(w.secret, w.keys, me, peer, m, e.pair);
    } else if m.epoch == me.epoch + 1 {
      AnswerNew(w.secret, w.keys, me, peer, m, e.pair);
    } else {
      AnswerOld(w.secret, w.keys, me, peer, m, e.pair);
    }
  }

  // A body opened before is always refused, but the refusal leaves the session
  // as it was exactly when the body's key is still the current one.
  lemma ReplayExactlyWhen(w: World, e: Event)
    requires Inv(w) && e.Deliver? && Enabled(w, e)
    requires e.index in Get(w, e.to).delivered
    ensures
      var me, m := Get(w, e.to), Peer(w, e.to).sent[e.index];
      && Answer(w, e) == Err(Replay)
      && (Get(Step(w, e), e.to).session == me.session <==> me.session.theirs == Some(m.body.key))
  {
    hide Receive, SlotsInv, Distinct, PeerKeys, AdvanceN, SeedOf, SlotKey, ChainAt, RootAt;
    var me, peer := Get(w, e.to), Peer(w, e.to);
    var m := peer.sent[e.index];
    assert Genuine(w.secret, w.keys, peer, m);
    Classify(w.secret, w.keys, me, peer, m);
    if m.epoch == me.epoch - 1 {
      AnswerCurrent(w.secret, w.keys, me, peer, m, e.pair);
    } else if m.epoch == me.epoch + 1 {
      AnswerNew(w.secret, w.keys, me, peer, m, e.pair);
    } else {
      AnswerOld(w.secret, w.keys, me, peer, m, e.pair);
    }
  }

  // ------------------------------------------------------------------
  // A message that is lost
  // ------------------------------------------------------------------

  lemma RunOneMore(w: World, es: seq<Event>, e: Event)
    requires LegalRun(w, es) && Legal(RunTo(w, es), e)
    ensures LegalRun(w, es + [e]) && RunTo(w, es + [e]) == Step(RunTo(w, es), e)
  {
    assert (es + [e])[..|es|] == es;
  }

  // A side with nothing stored, able to send, that has seen `seen` and sent `n` bodies.
  ghost predicate Tidy(me: Side, mine: Raw, theirs: Raw, sendCount: nat, seen: set<Raw>, n: nat) {
    && me.session.skipped == map[] && me.session.sending.Some?
    && me.session.mine == mine && me.session.theirs == Some(theirs) && me.session.sendCount == sendCount
    && me.seen == seen && |me.sent| == n
    && forall slot :: slot in me.session.decrypted ==> slot.key in seen
  }

  lemma SendTidy(w: World, p: Party, text: string, mine: Raw, theirs: Raw, count: nat, seen: set<Raw>, n: nat)
    requires Tidy(Get(w, p), mine, theirs, count, seen, n)
    ensures
      var e, me := Send(p, text), Get(w, p);
      var w' := Step(w, e);
      var me' := Get(w', p);
      && Legal(w, e) && w'.keys == w.keys && Peer(w', p) == Peer(w, p)
      && Tidy(me', mine, theirs, count + 1, seen, n + 1) && me'.sent[..n] == me.sent
      && me'.sent[n].body.key == mine && me'.sent[n].body.number == count && me'.delivered == me.delivered
  {
  }

  // The first body of a new chain, delivered first, leaves nothing behind.
  lemma FirstOfChainTidy(w: World, to: Party, index: nat, pair: Raw, key: Raw)
    requires index < |Peer(w, to).sent| && IsKey(pair) && pair !in w.keys
    requires Peer(w, to).sent[index].body.key == key && Peer(w, to).sent[index].body.number == 0 && IsKey(key)
    requires Get(w, to).session.skipped == map[] && key !in Get(w, to).seen && Get(w, to).session.theirs != Some(key)
    requires forall slot :: slot in Get(w, to).session.decrypted ==> slot.key in Get(w, to).seen
    ensures
      var e, me := Deliver(to, index, pair), Get(w, to);
      && Legal(w, e)
      && var w' := Step(w, e);
         var me' := Get(w', to);
         && w'.keys == w.keys + [pair] && Peer(w', to) == Peer(w, to)
         && Tidy(me', pair, key, 0, me.seen + {key}, |me.sent|) && me'.sent == me.sent
         && me'.delivered <= me.delivered + {index}
  {
  }

  lemma RoundOne(w: World, k: Raw, a: Raw, b: Raw)
    requires w.keys == [k, a] && IsKey(a) && IsKey(b) && b !in w.keys
    requires Tidy(w.alice, a, k, 0, {}, 0) && w.bob == Side(Fresh(w.bob.session.root, k), 0, [], {}, {})
    ensures
      var w1 := Step(w, Send(Alice, "one"));
      var w2 := Step(w1, Send(Alice, "two"));
      && Legal(w, Send(Alice, "one")) && Legal(w1, Send(Alice, "two")) && Legal(w2, Deliver(Bob, 0, b))
      && var w3 := Step(w2, Deliver(Bob, 0, b));
         && w3.keys == [k, a, b]
         && Tidy(w3.alice, a, k, 2, {}, 2) && |w3.alice.sent| == 2
         && w3.alice.sent[0].body.key == a && w3.alice.sent[1].body.key == a
         && Tidy(w3.bob, b, a, 0, {a}, 0) && w3.bob.delivered <= {0}
  {
    hide Step, Legal;
    SendTidy(w, Alice, "one", a, k, 0, {}, 0);
    var w1 := Step(w, Send(Alice, "one"));
    SendTidy(w1, Alice, "two", a, k, 1, {}, 1);
    var w2 := Step(w1, Send(Alice, "two"));
    assert w2.alice.sent[..1][0] == w1.alice.sent[0];
    FirstOfChainTidy(w2, Bob, 0, b, a);
  }

  // `me` answers on its new chain, and the peer takes the answer.
  lemma NextRound(w: World, p: Party, text: string, mine: Raw, theirs: Raw, seen: set<Raw>, n: nat,
                  peerMine: Raw, peerTheirs: Raw, count: nat, peerSeen: set<Raw>, m: nat, pair: Raw)
    requires Tidy(Get(w, p), mine, theirs, 0, seen, n) && Tidy(Peer(w, p), peerMine, peerTheirs, count, peerSeen, m)
    requires IsKey(mine) && IsKey(pair) && pair !in w.keys && mine !in peerSeen && mine != peerTheirs
    ensures
      var w1, to := Step(w, Send(p, text)), if p.Alice? then Bob else Alice;
      && Legal(w, Send(p, text)) && Legal(w1, Deliver(to, n, pair))
      && var w2 := Step(w1, Deliver(to, n, pair));
         && w2.keys == w.keys + [pair]
         && Tidy(Get(w2, p), mine, theirs, 1, seen, n + 1)
         && |Get(w2, p).sent| == n + 1 && Get(w2, p).sent[..n] == Get(w, p).sent
         && Get(w2, p).delivered == Get(w, p).delivered
         && Tidy(Get(w2, to), pair, mine, 0, peerSeen + {mine}, m) && Get(w2, to).sent == Peer(w, p).sent
         && Get(w2, to).delivered <= Peer(w, p).delivered + {n}
  {
    hide Step, Legal;
    SendTidy(w, p, text, mine, theirs, 0, seen, n);
    var w1, to := Step(w, Send(p, text)), if p.Alice? then Bob else Alice;
    assert Peer(w1, to) == Get(w1, p);
    FirstOfChainTidy(w1, to, n, pair, mine);
  }

  function HeldUp(b: Raw, c: Raw, d: Raw): seq<Event> {
    [Send(Alice, "one"), Send(Alice, "two"), Deliver(Bob, 0, b), Send(Bob, "three"),
     Deliver(Alice, 0, c), Send(Alice, "four"), Deliver(Bob, 2, d)]
  }

  lemma LateRun(w: World, k: Raw, a: Raw, b: Raw, c: Raw, d: Raw, e: Raw)
    requires Inv(w) && w.keys == [k, a]
    requires Tidy(w.alice, a, k, 0, {}, 0) && w.bob == Side(Fresh(w.bob.session.root, k), 0, [], {}, {})
    requires IsKey(a) && IsKey(b) && IsKey(c) && IsKey(d) && IsKey(e)
    requires a != k && b !in [k, a] && c !in [k, a, b] && d !in [k, a, b, c] && e !in [k, a, b, c, d]
    ensures LegalRun(w, HeldUp(b, c, d)) && WentOn(RunTo(w, HeldUp(b, c, d)), a, c, d, e)
  {
    hide RunTo, LegalRun, Step, Inv, Decrypt, Tidy, WithinLimit, InOrder, DeliveredIn;
    RoundOne(w, k, a, b);
    var w1 := Step(w, Send(Alice, "one"));
    var w2 := Step(w1, Send(Alice, "two"));
    var w3 := Step(w2, Deliver(Bob, 0, b));
    NextRound(w3, Bob, "three", b, a, {a}, 0, a, k, 2, {}, 2, c);
    var w4 := Step(w3, Send(Bob, "three"));
    var w5 := Step(w4, Deliver(Alice, 0, c));
    NextRound(w5, Alice, "four", c, b, {} + {b}, 2, b, a, 1, {a}, 1, d);
    var w6 := Step(w5, Send(Alice, "four"));
    var w7 := Step(w6, Deliver(Bob, 2, d));
    RunOfSeven(w, Send(Alice, "one"), Send(Alice, "two"), Deliver(Bob, 0, b), Send(Bob, "three"),
               Deliver(Alice, 0, c), Send(Alice, "four"), Deliver(Bob, 2, d));
    RunInv(w, HeldUp(b, c, d));
    assert w7.alice.sent[..2][1] == w3.alice.sent[1] && w7.alice.sent[..2][0] == w3.alice.sent[0];
    FirstIsDelivered(b, c, d);
  }

  lemma FirstIsDelivered(b: Raw, c: Raw, d: Raw)
    ensures DeliveredIn(HeldUp(b, c, d), Bob, 0)
  {
    assert HeldUp(b, c, d)[2] == Deliver(Bob, 0, b);
  }

  // Bob has received under Alice's next key `c`; her first message under `a` was
  // opened and her second was not.
  ghost predicate WentOn(w: World, a: Raw, c: Raw, d: Raw, e: Raw) {
    && Inv(w) && Tidy(w.bob, d, c, 0, {a} + {c}, 1) && a != c && IsKey(e) && e !in w.keys
    && 0 in w.bob.delivered && 1 !in w.bob.delivered
    && |w.alice.sent| > 1 && w.alice.sent[0].body.key == a && w.alice.sent[1].body.key == a
  }

  lemma RunOfSeven(w: World, e1: Event, e2: Event, e3: Event, e4: Event, e5: Event, e6: Event, e7: Event)
    requires Legal(w, e1) && Legal(Step(w, e1), e2)
    requires Legal(Step(Step(w, e1), e2), e3)
    requires
      var w3 := Step(Step(Step(w, e1), e2), e3);
      Legal(w3, e4) && Legal(Step(w3, e4), e5) && Legal(Step(Step(w3, e4), e5), e6)
      && Legal(Step(Step(Step(w3, e4), e5), e6), e7)
    ensures LegalRun(w, [e1, e2, e3, e4, e5, e6, e7])
    ensures RunTo(w, [e1, e2, e3, e4, e5, e6, e7])
         == Step(Step(Step(Step(Step(Step(Step(w, e1), e2), e3), e4), e5), e6), e7)
  {
    hide Legal, Step;
    assert LegalRun(w, []) && RunTo(w, []) == w;
    hide LegalRun, RunTo;
    RunOneMore(w, [], e1);
    assert [] + [e1] == [e1];
    RunOneMore(w, [e1], e2);
    assert [e1] + [e2] == [e1, e2];
    RunOneMore(w, [e1, e2], e3);
    assert [e1, e2] + [e3] == [e1, e2, e3];
    RunOneMore(w, [e1, e2, e3], e4);
    assert [e1, e2, e3] + [e4] == [e1, e2, e3, e4];
    RunOneMore(w, [e1, e2, e3, e4], e5);
    assert [e1, e2, e3, e4] + [e5] == [e1, e2, e3, e4, e5];
    RunOneMore(w, [e1, e2, e3, e4, e5], e6);
    assert [e1, e2, e3, e4, e5] + [e6] == [e1, e2, e3, e4, e5, e6];
    RunOneMore(w, [e1, e2, e3, e4, e5, e6], e7);
    assert [e1, e2, e3, e4, e5, e6] + [e7] == [e1, e2, e3, e4, e5, e6, e7];
  }

  lemma HeldUpRun(alice: Device, bob: Device, ephemeral: Raw, a: Raw, b: Raw, c: Raw, d: Raw, e: Raw)
    requires alice.Valid() && bob.Valid() && IsKey(ephemeral)
    requires IsKey(a) && IsKey(b) && IsKey(c) && IsKey(d) && IsKey(e)
    requires var k := bob.signedPreKey;
      a !in [k] && b !in [k, a] && c !in [k, a, b] && d !in [k, a, b, c] && e !in [k, a, b, c, d]
    ensures
      var start := Establish(alice, bob, ephemeral, a);
      start.Ok? && LegalRun(start.value, HeldUp(b, c, d)) && WentOn(RunTo(start.value, HeldUp(b, c, d)), a, c, d, e)
  {
    EstablishInv(alice, bob, ephemeral, a);
    var w0 := Establish(alice, bob, ephemeral, a).value;
    assert Tidy(w0.alice, a, bob.signedPreKey, 0, {}, 0) && w0.keys == [bob.signedPreKey, a];
    assert w0.bob == Side(Fresh(w0.bob.session.root, bob.signedPreKey), 0, [], {}, {});
    LateRun(w0, bob.signedPreKey, a, b, c, d, e);
  }

  // Alice sends two messages; the second is held up until Bob, having answered the
  // first, has received a message under her next key. It can then not be opened.
  lemma LateMessageLost(alice: Device, bob: Device, ephemeral: Raw, a: Raw, b: Raw, c: Raw, d: Raw, e: Raw)
    requires alice.Valid() && bob.Valid() && IsKey(ephemeral)
    requires IsKey(a) && IsKey(b) && IsKey(c) && IsKey(d) && IsKey(e)
    requires var k := bob.signedPreKey;
      a !in [k] && b !in [k, a] && c !in [k, a, b] && d !in [k, a, b, c] && e !in [k, a, b, c, d]
    ensures
      var start, es := Establish(alice, bob, ephemeral, a), HeldUp(b, c, d);
      && start.Ok? && LegalRun(start.value, es)
      && var w := RunTo(start.value, es);
         Enabled(w, Deliver(Bob, 1, e)) && 1 !in w.bob.delivered && Answer(w, Deliver(Bob, 1, e)).Err?
  {
    hide Establish, LegalRun, RunTo, Inv, Decrypt;
    HeldUpRun(alice, bob, ephemeral, a, b, c, d, e);
    OpensExactlyWhen(RunTo(Establish(alice, bob, ephemeral, a).value, HeldUp(b, c, d)), Deliver(Bob, 1, e));
  }

  // In the same state a second copy of the first message is refused, and the
  // refusal does change Bob's session.
  lemma ReplayChangesSession(alice: Device, bob: Device, ephemeral: Raw, a: Raw, b: Raw, c: Raw, d: Raw, e: Raw)
    requires alice.Valid() && bob.Valid() && IsKey(ephemeral)
    requires IsKey(a) && IsKey(b) && IsKey(c) && IsKey(d) && IsKey(e)
    requires var k := bob.signedPreKey;
      a !in [k] && b !in [k, a] && c !in [k, a, b] && d !in [k, a, b, c] && e !in [k, a, b, c, d]
    ensures
      var start, es := Establish(alice, bob, ephemeral, a), HeldUp(b, c, d);
      && start.Ok? && LegalRun(start.value, es)
      && var w, again := RunTo(start.value, es), Deliver(Bob, 0, e);
         && Enabled(w, again) && 0 in w.bob.delivered && Answer(w, again) == Err(Replay)
         && Step(w, again).bob.session != w.bob.session
  {
    hide Establish, LegalRun, RunTo, Inv, Decrypt, DeliverSide;
    HeldUpRun(alice, bob, ephemeral, a, b, c, d, e);
    ReplayExactlyWhen(RunTo(Establish(alice, bob, ephemeral, a).value, HeldUp(b, c, d)), Deliver(Bob, 0, e));
  }
}

/**
 What a call of `decrypt` that does not succeed leaves behind. The session moves
 before the body is opened, so a body that does not open costs the key that a genuine
 body of its number needed.
 */
module FailedDecrypt {
  import opened Common
  import opened Crypto
  import opened Ratchet
  import opened RatchetRun

  // The body was sealed with that key, for its own header.
  predicate Fits(key: Secret, body: Body) {
    body.box.key == key && body.box.aad == BuildAad(body.key, body.number, body.previous)
  }

  // ------------------------------------------------------------------
  // Refused with nothing changed
  // ------------------------------------------------------------------

  lemma BadKeyKeeps(s: State, body: Body, pair: Raw)
    requires |body.key.bytes| > 0 && s.theirs != Some(body.key)
    ensures |body.key.bytes| != 32 ==> Decrypt(s, body, pair) == (s, Err(BadKey))
    ensures |body.key.bytes| == 32 ==>
      Decrypt(s, body, pair).0.mine == pair && Decrypt(s, body, pair).0.theirs == Some(body.key)
  {
    if |body.key.bytes| == 32 {
      SkipToKeepsEnds(Aligned(s, body.key, pair), body.number);
    }
  }

  lemma {:induction false} SkipToKeepsEnds(s: State, target: int)
    ensures SkipTo(s, target).0.mine == s.mine && SkipTo(s, target).0.theirs == s.theirs
    ensures SkipTo(s, target).0.decrypted == s.decrypted
    decreases target - s.receiveCount
  {
    if s.receiveCount >= target || s.receiving.None? || |SkipOne(s).skipped| > MAX_SKIPPED_KEYS {
    } else {
      SkipToKeepsEnds(SkipOne(s), target);
    }
  }

  // Before anything was received: a body without a new key finds no chain.
  lemma NoChainYet(s: State, body: Body, pair: Raw)
    requires s.receiving.None? && !IsNewKey(s, body.key) && s.skipped == map[] && s.decrypted == {}
    ensures Decrypt(s, body, pair) == (s, Err(NoReceivingChain))
  {
  }

  lemma NothingToSendOn(s: State, text: string)
    requires s.sending.None?
    ensures Encrypt(s, text) == (s, Err(NoSendingChain))
  {
  }

  // A number opened before under the key the session stands on is refused, whatever
  // the body, and the session stays where it stands.
  lemma ReplayRefused(s: State, body: Body, pair: Raw)
    requires !IsNewKey(s, body.key) && Slot(body.number, s.PeerKey()) in s.decrypted
    ensures Decrypt(s, body, pair) == (s, Err(Replay))
  {
  }

  // ------------------------------------------------------------------
  // The next key is burnt
  // ------------------------------------------------------------------

  // The chain key with which the session expects body `number`.
  function Expected(s: State, number: int): Secret
    requires s.receiving.Some? && number >= s.receiveCount
  {
    AdvanceN(s.receiving.value, number - s.receiveCount)
  }

  // A body not met before, not behind the chain and within the limit, the session
  // standing on its key.
  ghost predicate Ahead(s: State, body: Body) {
    && s.receiving.Some? && NothingAhead(s)
    && body.number >= s.receiveCount && |s.skipped| + (body.number - s.receiveCount) <= 2000
    && Slot(body.number, s.PeerKey()) !in s.skipped && Slot(body.number, s.PeerKey()) !in s.decrypted
  }

  // The keys of the numbers passed are stored, the chain stands one past the body's
  // number, and the number itself is recorded nowhere.
  ghost predicate Burnt(s: State, r: State, body: Body)
    requires s.receiving.Some? && body.number >= s.receiveCount
  {
    && r == s.(skipped := r.skipped, receiving := r.receiving, receiveCount := body.number + 1)
    && r.receiving == Some(NextChain(Expected(s, body.number)))
    && HoldsGap(s, r, body.number)
    && Slot(body.number, s.PeerKey()) !in r.skipped && Slot(body.number, s.PeerKey()) !in r.decrypted
  }

  // Whether it opens or not, the key that the body's number had is gone.
  lemma NextKeyBurnt(s: State, body: Body, pair: Raw)
    requires IsNewKey(s, body.key) ==> IsKey(body.key)
    requires Ahead(Aligned(s, body.key, pair), body)
    ensures
      var a, (r, text) := Aligned(s, body.key, pair), Decrypt(s, body, pair);
      if Fits(MessageKey(Expected(a, body.number)), body) then text == Ok(body.box.plaintext)
      else text == Err(Forged) && Burnt(a, r, body)
  {
    var a := Aligned(s, body.key, pair);
    SkipToClosed(a, body.number);
    ChainAfter(a, body.number);
    hide SkipTo, AdvanceN, BuildAad, NothingAhead, RatchetOn, IsNewKey;
    var r := SkipTo(a, body.number).0;
    assert StoredUpTo(a, r, body.number);
    assert Slot(body.number, a.PeerKey()) !in r.skipped;
  }

  lemma ChainAfter(s: State, number: int)
    requires s.receiving.Some? && number >= s.receiveCount
    ensures AdvanceN(s.receiving.value, Gap(s, number)) == Expected(s, number)
  {
  }

  function Advances(chain: Secret): nat {
    if chain.NextChain? then 1 + Advances(chain.chain) else 0
  }

  lemma ChainMoves(chain: Secret)
    ensures NextChain(chain) != chain
  {
    assert Advances(NextChain(chain)) == Advances(chain) + 1;
  }

  // After that, the genuine body of that number does not open: it is tried with the
  // key after its own, and that key is burnt too.
  lemma GenuineLost(s: State, r: State, bad: Body, good: Body, pair: Raw)
    requires s.receiving.Some? && bad.number >= s.receiveCount && Burnt(s, r, bad)
    requires good.number == bad.number && r.theirs == Some(good.key)
    requires Fits(MessageKey(Expected(s, bad.number)), good)
    ensures Decrypt(r, good, pair).1 == Err(Forged)
    ensures Decrypt(r, good, pair).0
         == r.(receiving := Some(NextChain(r.receiving.value)), receiveCount := r.receiveCount + 1)
  {
    ChainMoves(Expected(s, bad.number));
    hide Expected, HoldsGap, BuildAad;
  }

  // ------------------------------------------------------------------
  // A stored key is burnt
  // ------------------------------------------------------------------

  lemma StoredKeyBurnt(s: State, body: Body, pair: Raw)
    requires !IsNewKey(s, body.key) && s.skipped.Keys !! s.decrypted
    requires Slot(body.number, s.PeerKey()) in s.skipped && !Fits(s.skipped[Slot(body.number, s.PeerKey())], body)
    ensures Decrypt(s, body, pair) == (s.(skipped := s.skipped - {Slot(body.number, s.PeerKey())}), Err(Forged))
  {
    hide BuildAad;
  }

  // The genuine body whose key was stored does not open afterwards.
  lemma GenuineStoredLost(secret: Secret, keys: seq<Raw>, me: Side, m: Sent, bad: Body, pair: Raw, pair': Raw)
    requires SideInv(secret, keys, me) && Distinct(keys)
    requires 2 <= me.epoch && m.epoch == me.epoch - 1 && m.body.key == keys[m.epoch]
    requires Fits(SlotKey(secret, keys, m.Slot()), m.body) && m.Slot() in me.session.skipped
    requires bad.key == m.body.key && bad.number == m.body.number && !Fits(SlotKey(secret, keys, m.Slot()), bad)
    ensures Decrypt(me.session, bad, pair).1 == Err(Forged)
    ensures Decrypt(Decrypt(me.session, bad, pair).0, m.body, pair').1 == Err(Forged)
  {
    var s := me.session;
    var seed := ChainAt(secret, keys, m.epoch);
    SeedOfAt(secret, keys, m.epoch);
    assert SlotInv(me.seen, s, m.Slot());
    assert SlotKey(secret, keys, m.Slot()) == MessageKey(AdvanceN(seed, m.body.number));
    hide SeedOf, SlotKey, RootAt, ChainAt, BuildAad, PeerKeys, Distinct;
    StoredKeyBurnt(s, bad, pair);
    if AdvanceN(seed, m.body.number) == AdvanceN(seed, s.receiveCount) {
      AdvanceNInjective(seed, m.body.number, seed, s.receiveCount);
    }
    hide AdvanceN;
  }

  // ------------------------------------------------------------------
  // The limit
  // ------------------------------------------------------------------

  // A number too far ahead is refused, but only after the map has been filled to one
  // over the limit of 2000 with the keys of the numbers passed on the way.
  lemma {:induction false} LimitLeaves(s: State, target: int)
    requires s.receiving.Some? && NothingAhead(s) && |s.skipped| <= 2000
    requires target > s.receiveCount && |s.skipped| + (target - s.receiveCount) > 2000
    ensures
      var (r, stop) := SkipTo(s, target);
      && stop == Some(SkipLimit) && |r.skipped| == 2001
      && MovedOn(s, r, s.receiveCount + 2001 - |s.skipped|)
      && HoldsGap(s, r, s.receiveCount + 2001 - |s.skipped|)
    decreases target - s.receiveCount
  {
    hide MovedOn, HoldsGap, NothingAhead, AdvanceN, SkipTo, SkipOne;
    var s1, reached := SkipOne(s), s.receiveCount + 2001 - |s.skipped|;
    SkipOneEffect(s);
    SkipToStep(s, target);
    if |s.skipped| == 2000 {
      NothingMoved(s1);
    } else {
      LimitLeaves(s1, target);
    }
    var r := SkipTo(s, target).0;
    MovedOneMore(s, r, reached);
    HoldsOneMore(s, r, reached);
  }

  lemma SkipOneEffect(s: State)
    requires s.receiving.Some? && NothingAhead(s)
    ensures
      var s1 := SkipOne(s);
      && s1.receiving.Some? && s1.receiveCount == s.receiveCount + 1 && |s1.skipped| == |s.skipped| + 1
      && NothingAhead(s1)
  {
  }

  lemma SkipToStep(s: State, target: int)
    requires s.receiving.Some? && s.receiveCount < target
    ensures SkipTo(s, target)
         == if |SkipOne(s).skipped| > 2000 then (SkipOne(s), Some(SkipLimit)) else SkipTo(SkipOne(s), target)
  {
  }

  lemma NothingMoved(s: State)
    requires s.receiving.Some?
    ensures MovedOn(s, s, s.receiveCount) && HoldsGap(s, s, s.receiveCount)
  {
  }

  lemma TooFarRefused(s: State, body: Body, pair: Raw)
    requires !IsNewKey(s, body.key) && s.receiving.Some? && NothingAhead(s) && |s.skipped| <= 2000
    requires body.number > s.receiveCount && |s.skipped| + (body.number - s.receiveCount) > 2000
    requires Slot(body.number, s.PeerKey()) !in s.skipped && Slot(body.number, s.PeerKey()) !in s.decrypted
    ensures
      var (r, text) := Decrypt(s, body, pair);
      && text == Err(SkipLimit) && |r.skipped| == 2001 && r.decrypted == s.decrypted
      && r.receiveCount == s.receiveCount + 2001 - |s.skipped|
  {
    LimitLeaves(s, body.number);
  }

  // ------------------------------------------------------------------
  // A message lost to a forgery
  // ------------------------------------------------------------------

  // From establishSessions: a forged body in the name of Alice's first message reaches
  // Bob before it. He refuses the forgery, and then the message too.
  lemma ForgeryLosesMessage(alice: Device, bob: Device, ephemeral: Raw, a: Raw, b: Raw, c: Raw, box: Sealed)
    requires alice.Valid() && bob.Valid() && IsKey(ephemeral) && IsKey(a) && a != bob.signedPreKey
    ensures
      var start := Establish(alice, bob, ephemeral, a);
      && start.Ok?
      && var w := RatchetRun.Step(start.value, Send(Alice, "hello"));
         && |w.alice.sent| == 1
         && var good := w.alice.sent[0].body;
            var bad := good.(box := box);
            var (s, text) := Decrypt(w.bob.session, bad, b);
            && (box.key != good.box.key ==>
                  text == Err(Forged) && Decrypt(s, good, c).1 == Err(Forged))
            && Decrypt(w.bob.session, good, b).1 == Ok("hello")
  {
    EstablishInv(alice, bob, ephemeral, a);
    var w0 := Establish(alice, bob, ephemeral, a).value;
    var w := RatchetRun.Step(w0, Send(Alice, "hello"));
    var good := w.alice.sent[0].body;
    FirstBody(w0, bob.signedPreKey, a);
    hide Establish, RatchetRun.Inv, RatchetRun.Step;
    FirstLost(w.bob.session, good, box, b, c);
  }

  // Alice's first body, and Bob who has yet to receive: the keys meet.
  lemma FirstBody(w: World, k: Raw, a: Raw)
    requires RatchetRun.Inv(w) && w.keys == [k, a] && w.alice.epoch == 1 && w.bob.epoch == 0
    requires w.alice.sent == [] && w.alice.session.sendCount == 0 && IsKey(a)
    requires w.bob.session == Fresh(w.bob.session.root, k)
    ensures
      var v := RatchetRun.Step(w, Send(Alice, "hello"));
      && |v.alice.sent| == 1 && v.bob == w.bob
      && var body := v.alice.sent[0].body;
         && body.number == 0 && body.key == a && body.box.plaintext == "hello"
         && Fits(MessageKey(ChainKey(w.bob.session.root, Dh(k, a))), body)
  {
    assert ChainAt(w.secret, w.keys, 1) == ChainKey(RootAt(w.secret, w.keys, 0), Dh(k, a));
    hide SlotsInv, SentInv, LinkInv, BuildAad, PeerKeys, Distinct;
  }

  lemma FirstLost(s: State, good: Body, box: Sealed, b: Raw, c: Raw)
    requires s == Fresh(s.root, s.mine) && good.number == 0 && IsKey(good.key)
    requires Fits(MessageKey(ChainKey(s.root, Dh(s.mine, good.key))), good)
    ensures Decrypt(s, good, b).1 == Ok(good.box.plaintext)
    ensures box.key != good.box.key ==>
      var (r, text) := Decrypt(s, good.(box := box), b);
      text == Err(Forged) && Decrypt(r, good, c).1 == Err(Forged)
  {
    var bad, a := good.(box := box), Aligned(s, good.key, b);
    assert Ahead(a, good) && Ahead(a, bad);
    assert Expected(a, 0) == ChainKey(s.root, Dh(s.mine, good.key));
    hide Expected, BuildAad, Decrypt;
    NextKeyBurnt(s, good, b);
    NextKeyBurnt(s, bad, b);
    if box.key != good.box.key {
      GenuineLost(a, Decrypt(s, bad, b).0, bad, good, c);
    }
  }
}

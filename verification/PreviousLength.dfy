/**
 What previous_chain_length says in server/src/client/e2ee.ts: how far it is the
 length of the sender's previous chain.
 */
module PreviousLength {
  import opened Common
  import opened Crypto
  import opened Ratchet
  import opened RatchetRun

  // How many of the bodies were sent on chain `epoch`.
  function OnChain(sent: seq<Sent>, epoch: int): nat {
    if sent == [] then 0
    else OnChain(sent[..|sent| - 1], epoch) + (if sent[|sent| - 1].epoch == epoch then 1 else 0)
  }

  // The length that a body of chain `epoch` announces. The side that opens the
  // conversation sends first on chain 1; it ratchets to chain 3 with its first receive,
  // which records 0 whatever it sent.
  function Announces(sent: seq<Sent>, epoch: int): nat {
    if epoch == 3 then 0 else OnChain(sent, epoch - 2)
  }

  ghost predicate CountsInv(me: Side) {
    && me.session.sendCount == OnChain(me.sent, me.epoch)
    && me.session.previousSendCount == Announces(me.sent, me.epoch)
    && (me.session.receiving.Some? <==> me.epoch >= 2)
    && (forall k :: 0 <= k < |me.sent| ==>
          && 1 <= me.sent[k].epoch <= me.epoch
          && me.sent[k].body.previous == Announces(me.sent, me.sent[k].epoch))
  }

  lemma OnChainOneMore(sent: seq<Sent>, m: Sent, epoch: int)
    ensures OnChain(sent + [m], epoch) == OnChain(sent, epoch) + (if m.epoch == epoch then 1 else 0)
  {
    assert (sent + [m])[..|sent|] == sent;
  }

  lemma {:induction false} NoneOnChain(sent: seq<Sent>, epoch: int)
    requires forall k :: 0 <= k < |sent| ==> sent[k].epoch != epoch
    ensures OnChain(sent, epoch) == 0
  {
    if sent == [] {
    } else {
      NoneOnChain(sent[..|sent| - 1], epoch);
    }
  }

  lemma SendAppends(me: Side, text: string)
    requires me.session.sending.Some?
    ensures
      var after := SendSide(me, text);
      && |after.sent| == |me.sent| + 1 && after.sent == me.sent + [after.sent[|me.sent|]]
      && after.sent[|me.sent|].epoch == me.epoch == after.epoch
      && after.sent[|me.sent|].body.previous == me.session.previousSendCount == after.session.previousSendCount
      && after.session.sendCount == me.session.sendCount + 1 && after.session.receiving == me.session.receiving
  {
    hide BuildAad;
  }

  lemma SendCounts(me: Side, text: string)
    requires CountsInv(me) && (me.session.sending.Some? ==> me.epoch >= 1)
    ensures CountsInv(SendSide(me, text))
  {
    if me.session.sending.Some? {
      SendAppends(me, text);
      hide OnChain, SendSide;
      var after := SendSide(me, text);
      var m := after.sent[|me.sent|];
      forall epoch: int
        ensures OnChain(after.sent, epoch) == OnChain(me.sent, epoch) + (if m.epoch == epoch then 1 else 0)
      {
        OnChainOneMore(me.sent, m, epoch);
      }
    }
  }

  lemma DeliverCounts(me: Side, index: nat, body: Body, pair: Raw)
    requires CountsInv(me) && (IsNewKey(me.session, body.key) ==> IsKey(body.key))
    ensures CountsInv(DeliverSide(me, index, body, pair))
  {
    ReceiveKeepsCounts(Aligned(me.session, body.key, pair), body);
    if IsNewKey(me.session, body.key) {
      NoneOnChain(me.sent, me.epoch + 2);
      if me.epoch < 1 {
        NoneOnChain(me.sent, me.epoch);
      }
    }
    hide Receive, OnChain;
  }

  lemma ReceiveKeepsCounts(s: State, body: Body)
    ensures
      var r := Receive(s, body).0;
      && r.sendCount == s.sendCount && r.previousSendCount == s.previousSendCount
      && (r.receiving.Some? <==> s.receiving.Some?)
  {
    SkipToKeepsCounts(s, body.number);
    hide SkipTo;
  }

  lemma {:induction false} SkipToKeepsCounts(s: State, target: int)
    ensures
      var r := SkipTo(s, target).0;
      && r.sendCount == s.sendCount && r.previousSendCount == s.previousSendCount
      && (r.receiving.Some? <==> s.receiving.Some?)
    decreases target - s.receiveCount
  {
    if s.receiveCount >= target || s.receiving.None? || |SkipOne(s).skipped| > MAX_SKIPPED_KEYS {
    } else {
      SkipToKeepsCounts(SkipOne(s), target);
    }
  }

  lemma StepCounts(w: World, e: Event)
    requires Inv(w) && Legal(w, e) && CountsInv(w.alice) && CountsInv(w.bob)
    ensures CountsInv(Step(w, e).alice) && CountsInv(Step(w, e).bob)
  {
    var p := if e.Send? then e.from else e.to;
    SidesOf(w, p);
    hide Inv, CountsInv, Decrypt, Encrypt, InOrder, WithinLimit;
    match e
    case Send(from, text) => SendCounts(Get(w, from), text);
    case Deliver(to, index, pair) => DeliverCounts(Get(w, to), index, Peer(w, to).sent[index].body, pair);
  }

  lemma SidesOf(w: World, p: Party)
    requires Inv(w)
    ensures Get(w, p).session.sending.Some? ==> Get(w, p).epoch >= 1
    ensures forall k :: 0 <= k < |Peer(w, p).sent| ==> IsKey(Peer(w, p).sent[k].body.key)
  {
    hide SlotsInv, LinkInv, PeerKeys, RootAt, ChainAt, SlotKey, BuildAad, Distinct;
    forall k | 0 <= k < |Peer(w, p).sent|
      ensures IsKey(Peer(w, p).sent[k].body.key)
    {
      assert Genuine(w.secret, w.keys, Peer(w, p), Peer(w, p).sent[k]);
    }
  }

  lemma {:induction false} RunCounts(w: World, es: seq<Event>)
    requires Inv(w) && LegalRun(w, es) && CountsInv(w.alice) && CountsInv(w.bob)
    ensures CountsInv(RunTo(w, es).alice) && CountsInv(RunTo(w, es).bob)
  {
    hide Inv, CountsInv, Step, Legal;
    if es == [] {
    } else {
      RunCounts(w, es[..|es| - 1]);
      RunInv(w, es[..|es| - 1]);
      StepCounts(RunTo(w, es[..|es| - 1]), es[|es| - 1]);
    }
  }

  // In every legal run, a body announces exactly how many messages its sender sent on
  // its chain before that; except that the opener's second chain, chain 3, announces 0.
  lemma AnnouncesPreviousChain(alice: Device, bob: Device, ephemeral: Raw, pair: Raw, es: seq<Event>, p: Party, k: nat)
    requires alice.Valid() && bob.Valid() && IsKey(ephemeral) && IsKey(pair) && pair != bob.signedPreKey
    requires Establish(alice, bob, ephemeral, pair).Ok? && LegalRun(Establish(alice, bob, ephemeral, pair).value, es)
    requires k < |Get(RunTo(Establish(alice, bob, ephemeral, pair).value, es), p).sent|
    ensures
      var sent := Get(RunTo(Establish(alice, bob, ephemeral, pair).value, es), p).sent;
      && (sent[k].epoch != 3 ==> sent[k].body.previous == OnChain(sent, sent[k].epoch - 2))
      && (sent[k].epoch == 3 ==> sent[k].body.previous == 0)
  {
    var w := Establish(alice, bob, ephemeral, pair).value;
    EstablishInv(alice, bob, ephemeral, pair);
    assert CountsInv(w.alice) && CountsInv(w.bob);
    hide Establish, LegalRun, RunTo, Inv;
    RunCounts(w, es);
  }
}

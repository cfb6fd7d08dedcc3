/**
 The Double Ratchet session of server/src/client/e2ee.ts: what one call of
 `encrypt` or `decrypt` does to a session, and the class that does it in place.
 */
module Ratchet {
  import opened Common
  import opened Crypto

  const MAX_SKIPPED_KEYS := 2000

  // One wire body. `number` and `previous` come from the network, so a forged
  // body may carry any integers and any key bytes.
  datatype Body = Body(box: Sealed, number: int, previous: int, key: Raw)

  datatype Failure = NoSendingChain | BadKey | Replay | NoReceivingChain | SkipLimit | Forged

  // The text `${message_number}-${ratchet_key}` under which keys are remembered.
  datatype Slot = Slot(number: int, key: Raw)

  datatype State = State(
    root: Secret,
    sending: Option<Secret>,
    receiving: Option<Secret>,
    mine: Raw,
    theirs: Option<Raw>,
    sendCount: nat,
    receiveCount: nat,
    previousSendCount: nat,
    skipped: map<Slot, Secret>,
    decrypted: set<Slot>)
  {
    // theirRatchetRaw ?? Buffer.alloc(0)
    function PeerKey(): Raw {
      if theirs.Some? then theirs.value else Raw([])
    }
  }

  function OpenBody(key: Secret, body: Body): Option<string> {
    Open(key, BuildAad(body.key, body.number, body.previous), body.box)
  }

  function Fresh(root: Secret, mine: Raw): State {
    State(root, None, None, mine, None, 0, 0, 0, map[], {})
  }

  // initSender; `pair` is the ratchet pair it generates.
  function InitSender(secret: Secret, theirs: Raw, pair: Raw): Outcome<State, Failure> {
    if !IsKey(theirs) then Err(BadKey)
    else
      var dh := Dh(pair, theirs);
      Ok(Fresh(RootKey(secret, dh), pair).(sending := Some(ChainKey(secret, dh)), theirs := Some(theirs)))
  }

  // ------------------------------------------------------------------
  // encrypt
  // ------------------------------------------------------------------

  function Encrypt(s: State, plaintext: string): (State, Outcome<Body, Failure>) {
    match s.sending
    case None => (s, Err(NoSendingChain))
    case Some(chain) =>
      var box := Sealed(MessageKey(chain), BuildAad(s.mine, s.sendCount, s.previousSendCount), plaintext);
      (s.(sending := Some(NextChain(chain)), sendCount := s.sendCount + 1),
       Ok(Body(box, s.sendCount, s.previousSendCount, s.mine)))
  }

  // ------------------------------------------------------------------
  // decrypt
  // ------------------------------------------------------------------

  predicate IsNewKey(s: State, key: Raw) {
    |key.bytes| > 0 && s.theirs != Some(key)
  }

  // A DH ratchet step on `key`, generating `pair`; `previous` is the count that
  // the two callers record differently.
  function NewChains(s: State, key: Raw, pair: Raw, previous: nat): State {
    var root := RootKey(s.root, Dh(s.mine, key));
    s.(root := RootKey(root, Dh(pair, key)),
       sending := Some(ChainKey(root, Dh(pair, key))),
       receiving := Some(ChainKey(s.root, Dh(s.mine, key))),
       mine := pair,
       theirs := Some(key),
       sendCount := 0,
       receiveCount := 0,
       previousSendCount := previous)
  }

  function RatchetOn(s: State, key: Raw, pair: Raw): State {
    NewChains(s, key, pair, if s.receiving.Some? then s.sendCount else 0)
  }

  // The state when the loop starts.
  function Aligned(s: State, key: Raw, pair: Raw): State {
    if IsNewKey(s, key) then RatchetOn(s, key, pair) else s
  }

  // The loop: stores one key per message passed over, until the counter reaches
  // `target` or an error stops it.
  function SkipTo(s: State, target: int): (State, Option<Failure>)
    decreases target - s.receiveCount
  {
    if s.receiveCount >= target then (s, None)
    else
      match s.receiving
      case None => (s, Some(NoReceivingChain))
      case Some(chain) =>
        var s1 := s.(skipped := s.skipped[Slot(s.receiveCount, s.PeerKey()) := MessageKey(chain)],
                     receiving := Some(NextChain(chain)),
                     receiveCount := s.receiveCount + 1);
        if |s1.skipped| > MAX_SKIPPED_KEYS then (s1, Some(SkipLimit)) else SkipTo(s1, target)
  }

  // Takes the next key of the receiving chain and opens the body with it.
  function TakeNext(s: State, body: Body, slot: Slot): (State, Outcome<string, Failure>) {
    match s.receiving
    case None => (s, Err(NoReceivingChain))
    case Some(chain) =>
      var s1 := s.(receiving := Some(NextChain(chain)), receiveCount := s.receiveCount + 1);
      match OpenBody(MessageKey(chain), body)
      case None => (s1, Err(Forged))
      case Some(plaintext) => (s1.(decrypted := s1.decrypted + {slot}), Ok(plaintext))
  }

  // decrypt after the key check.
  function Receive(s: State, body: Body): (State, Outcome<string, Failure>) {
    var slot := Slot(body.number, s.PeerKey());
    if slot in s.decrypted then (s, Err(Replay))
    else if slot in s.skipped then
      var s1 := s.(skipped := s.skipped - {slot});
      match OpenBody(s.skipped[slot], body)
      case None => (s1, Err(Forged))
      case Some(plaintext) => (s1.(decrypted := s1.decrypted + {slot}), Ok(plaintext))
    else
      var (s1, stop) := SkipTo(s, body.number);
      if stop.Some? then (s1, Err(stop.value)) else TakeNext(s1, body, slot)
  }

  function Decrypt(s: State, body: Body, pair: Raw): (State, Outcome<string, Failure>) {
    if IsNewKey(s, body.key) && !IsKey(body.key) then (s, Err(BadKey))
    else Receive(Aligned(s, body.key, pair), body)
  }

  // ------------------------------------------------------------------
  // The session object
  // ------------------------------------------------------------------

  class RatchetSession {
    var rootKey: Secret
    var sendingChainKey: Option<Secret>
    var receivingChainKey: Option<Secret>
    var myRatchet: Raw
    var theirRatchetRaw: Option<Raw>
    var sendCount: nat
    var receiveCount: nat
    var previousSendCount: nat
    var skipped: map<Slot, Secret>
    var decrypted: set<Slot>

    ghost function Abs(): State
      reads this
    {
      State(rootKey, sendingChainKey, receivingChainKey, myRatchet, theirRatchetRaw,
            sendCount, receiveCount, previousSendCount, skipped, decrypted)
    }

    constructor (rootKey: Secret, myRatchet: Raw)
      ensures Abs() == Fresh(rootKey, myRatchet)
    {
      this.rootKey, this.myRatchet := rootKey, myRatchet;
      sendingChainKey, receivingChainKey, theirRatchetRaw := None, None, None;
      sendCount, receiveCount, previousSendCount := 0, 0, 0;
      skipped, decrypted := map[], {};
    }

    static method InitSenderSession(secret: Secret, theirs: Raw, pair: Raw)
      returns (r: Outcome<RatchetSession, Failure>)
      ensures r.Ok? ==> fresh(r.value) && Ok(r.value.Abs()) == InitSender(secret, theirs, pair)
      ensures r.Err? ==> InitSender(secret, theirs, pair) == Err(r.error)
    {
      if !IsKey(theirs) {
        return Err(BadKey);
      }
      var session := new RatchetSession(secret, pair);
      var dh := Dh(pair, theirs);
      session.rootKey := RootKey(secret, dh);
      session.sendingChainKey := Some(ChainKey(secret, dh));
      session.theirRatchetRaw := Some(theirs);
      return Ok(session);
    }

    method EncryptText(plaintext: string) returns (r: Outcome<Body, Failure>)
      modifies this
      ensures (Abs(), r) == Encrypt(old(Abs()), plaintext)
    {
      if sendingChainKey.None? {
        return Err(NoSendingChain);
      }
      var key := MessageKey(sendingChainKey.value);
      sendingChainKey := Some(NextChain(sendingChainKey.value));
      var aad := BuildAad(myRatchet, sendCount, previousSendCount);
      var body := Body(Sealed(key, aad, plaintext), sendCount, previousSendCount, myRatchet);
      sendCount := sendCount + 1;
      return Ok(body);
    }

    method DecryptBody(body: Body, pair: Raw) returns (r: Outcome<string, Failure>)
      modifies this
      ensures (Abs(), r) == Decrypt(old(Abs()), body, pair)
    {
      if |body.key.bytes| > 0 && theirRatchetRaw != Some(body.key) {
        if !IsKey(body.key) {
          return Err(BadKey);
        }
        if receivingChainKey.Some? {
          DhRatchetStep(body.key, pair);
        } else {
          InitReceiverChains(body.key, pair);
        }
      }
      r := OpenWithCurrentKeys(body);
    }

    // The part of decrypt after the key check.
    method OpenWithCurrentKeys(body: Body) returns (r: Outcome<string, Failure>)
      modifies this
      ensures (Abs(), r) == Receive(old(Abs()), body)
    {
      var peer := if theirRatchetRaw.Some? then theirRatchetRaw.value else Raw([]);
      var slot := Slot(body.number, peer);
      if slot in decrypted {
        return Err(Replay);
      }
      if slot in skipped {
        var stored := skipped[slot];
        skipped := skipped - {slot};
        var text := OpenBody(stored, body);
        if text.None? {
          return Err(Forged);
        }
        decrypted := decrypted + {slot};
        return Ok(text.value);
      }
      var stop := StoreSkippedKeys(body.number, peer);
      if stop.Some? {
        return Err(stop.value);
      }
      if receivingChainKey.None? {
        return Err(NoReceivingChain);
      }
      var key := MessageKey(receivingChainKey.value);
      receivingChainKey := Some(NextChain(receivingChainKey.value));
      receiveCount := receiveCount + 1;
      var text := OpenBody(key, body);
      if text.None? {
        return Err(Forged);
      }
      decrypted := decrypted + {slot};
      return Ok(text.value);
    }

    // The loop of decrypt.
    method StoreSkippedKeys(target: int, peer: Raw) returns (stop: Option<Failure>)
      requires peer == Abs().PeerKey()
      modifies this
      ensures (Abs(), stop) == SkipTo(old(Abs()), target)
    {
      while receiveCount < target
        invariant peer == Abs().PeerKey()
        invariant SkipTo(Abs(), target) == SkipTo(old(Abs()), target)
        decreases target - receiveCount
      {
        if receivingChainKey.None? {
          return Some(NoReceivingChain);
        }
        skipped := skipped[Slot(receiveCount, peer) := MessageKey(receivingChainKey.value)];
        receivingChainKey := Some(NextChain(receivingChainKey.value));
        receiveCount := receiveCount + 1;
        if |skipped| > MAX_SKIPPED_KEYS {
          return Some(SkipLimit);
        }
      }
      return None;
    }

    method InitReceiverChains(key: Raw, pair: Raw)
      modifies this
      ensures Abs() == NewChains(old(Abs()), key, pair, 0)
    {
      var dh := Dh(myRatchet, key);
      receivingChainKey := Some(ChainKey(rootKey, dh));
      rootKey := RootKey(rootKey, dh);
      theirRatchetRaw := Some(key);
      previousSendCount, sendCount, receiveCount := 0, 0, 0;
      var sendDh := Dh(pair, key);
      sendingChainKey := Some(ChainKey(rootKey, sendDh));
      rootKey := RootKey(rootKey, sendDh);
      myRatchet := pair;
    }

    method DhRatchetStep(key: Raw, pair: Raw)
      modifies this
      ensures Abs() == NewChains(old(Abs()), key, pair, old(sendCount))
    {
      var dh := Dh(myRatchet, key);
      receivingChainKey := Some(ChainKey(rootKey, dh));
      rootKey := RootKey(rootKey, dh);
      previousSendCount := sendCount;
      sendCount, receiveCount := 0, 0;
      theirRatchetRaw := Some(key);
      var sendDh := Dh(pair, key);
      sendingChainKey := Some(ChainKey(rootKey, sendDh));
      rootKey := RootKey(rootKey, sendDh);
      myRatchet := pair;
    }
  }
}

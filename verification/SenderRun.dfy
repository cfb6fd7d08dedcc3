/**
 One session of server/src/client/e2ee.ts against any network whatever: the
 bodies given to `decrypt` may be forged, replayed or out of order.
 */
module SenderRun {
  import opened Common
  import opened Crypto
  import opened Ratchet

  datatype Op =
    | Encrypting(text: string)
    | Decrypting(body: Body, pair: Raw)

  // A body with the seed of the chain it was made on.
  datatype Emission = Emission(body: Body, seed: Secret)

  // `known` holds every key that the session has held or been shown.
  datatype Sender = Sender(s: State, seed: Secret, emitted: seq<Emission>, known: set<Raw>)

  function StartSender(secret: Secret, theirs: Raw, pair: Raw): Sender
    requires IsKey(theirs)
  {
    Sender(InitSender(secret, theirs, pair).value, ChainKey(secret, Dh(pair, theirs)), [], {pair, theirs})
  }

  function StartReceiver(secret: Secret, pair: Raw): Sender {
    Sender(Fresh(secret, pair), secret, [], {pair})
  }

  // A generated pair is one never met before.
  predicate Enabled(x: Sender, op: Op) {
    op.Decrypting? ==> IsKey(op.pair) && op.pair !in x.known + {op.body.key}
  }

  predicate Ratchets(s: State, key: Raw) {
    IsNewKey(s, key) && IsKey(key)
  }

  function Step(x: Sender, op: Op): Sender {
    match op
    case Encrypting(text) =>
      var (s, r) := Encrypt(x.s, text);
      x.(s := s, emitted := if r.Ok? then x.emitted + [Emission(r.value, x.seed)] else x.emitted)
    case Decrypting(body, pair) =>
      x.(s := Decrypt(x.s, body, pair).0,
         seed := if Ratchets(x.s, body.key)
                 then ChainKey(RootKey(x.s.root, Dh(x.s.mine, body.key)), Dh(pair, body.key))
                 else x.seed,
         known := x.known + {body.key, pair})
  }

  predicate EnabledRun(x: Sender, ops: seq<Op>)
    decreases ops
  {
    ops == [] || (Enabled(x, ops[0]) && EnabledRun(Step(x, ops[0]), ops[1..]))
  }

  function Run(x: Sender, ops: seq<Op>): Sender
    decreases ops
  {
    if ops == [] then x else Run(Step(x, ops[0]), ops[1..])
  }

  // ------------------------------------------------------------------
  // What decrypt leaves alone
  // ------------------------------------------------------------------

  predicate SameSendingHalf(s: State, t: State) {
    s.root == t.root && s.sending == t.sending && s.mine == t.mine && s.theirs == t.theirs && s.sendCount == t.sendCount
  }

  lemma {:induction false} SkipToKeepsSending(s: State, target: int)
    ensures SameSendingHalf(SkipTo(s, target).0, s)
    decreases target - s.receiveCount
  {
    if s.receiveCount >= target || s.receiving.None? {
    } else {
      var s1 := s.(skipped := s.skipped[Slot(s.receiveCount, s.PeerKey()) := MessageKey(s.receiving.value)],
                   receiving := Some(NextChain(s.receiving.value)),
                   receiveCount := s.receiveCount + 1);
      SkipToKeepsSending(s1, target);
    }
  }

  lemma DecryptKeepsSending(s: State, body: Body, pair: Raw)
    ensures SameSendingHalf(Decrypt(s, body, pair).0,
                            if Ratchets(s, body.key) then RatchetOn(s, body.key, pair) else s)
  {
    SkipToKeepsSending(Aligned(s, body.key, pair), body.number);
  }

  // ------------------------------------------------------------------
  // The invariant
  // ------------------------------------------------------------------

  ghost predicate EmissionInv(x: Sender, e: Emission) {
    && e.seed.ChainKey? && e.seed.dh.DhOutput?
    && e.body.key in e.seed.dh.ends && e.seed.dh.ends <= x.known
    && e.body.number >= 0
    && e.body.box.key == MessageKey(AdvanceN(e.seed, e.body.number))
    && e.body.box.aad == BuildAad(e.body.key, e.body.number, e.body.previous)
    && (e.body.key == x.s.mine ==> e.body.number < x.s.sendCount)
    && (e.body.key != x.s.mine ==> x.s.mine !in e.seed.dh.ends)
  }

  ghost predicate Later(e: Emission, f: Emission)
    requires e.seed.ChainKey? && e.seed.dh.DhOutput?
  {
    if e.body.key == f.body.key then e.body.number < f.body.number else f.body.key !in e.seed.dh.ends
  }

  ghost predicate Inv(x: Sender) {
    && x.s.mine in x.known
    && (x.s.sending.Some? ==>
          && x.seed.ChainKey? && x.s.theirs.Some? && x.s.theirs.value in x.known
          && x.seed.dh == Dh(x.s.mine, x.s.theirs.value)
          && x.s.sending.value == AdvanceN(x.seed, x.s.sendCount))
    && (forall i :: 0 <= i < |x.emitted| ==> EmissionInv(x, x.emitted[i]))
    && (forall i, j :: 0 <= i < j < |x.emitted| ==> Later(x.emitted[i], x.emitted[j]))
  }

  lemma StepInv(x: Sender, op: Op)
    requires Inv(x) && Enabled(x, op)
    ensures Inv(Step(x, op))
  {
    hide AdvanceN, BuildAad, Decrypt, SkipTo;
    var y := Step(x, op);
    match op
    case Encrypting(text) =>
      if x.s.sending.Some? {
        EncryptAdvances(x, text);
        forall i | 0 <= i < |x.emitted|
          ensures EmissionInv(y, x.emitted[i]) && Later(x.emitted[i], y.emitted[|x.emitted|])
        {
          assert EmissionInv(x, x.emitted[i]);
        }
      }
    case Decrypting(body, pair) =>
      DecryptKeepsSending(x.s, body, pair);
      if Ratchets(x.s, body.key) {
        AdvanceNone(y.seed);
      }
      forall i | 0 <= i < |x.emitted|
        ensures EmissionInv(y, x.emitted[i])
      {
        assert EmissionInv(x, x.emitted[i]);
      }
  }

  lemma EncryptAdvances(x: Sender, text: string)
    requires x.s.sending.Some? && x.seed.ChainKey? && x.s.sending.value == AdvanceN(x.seed, x.s.sendCount)
    ensures Encrypt(x.s, text).0.sending == Some(AdvanceN(x.seed, x.s.sendCount + 1))
  {
  }

  lemma AdvanceNone(seed: Secret)
    ensures AdvanceN(seed, 0) == seed
  {
  }

  lemma {:induction false} RunInv(x: Sender, ops: seq<Op>)
    requires Inv(x) && EnabledRun(x, ops)
    ensures Inv(Run(x, ops))
    decreases ops
  {
    if ops == [] {
    } else {
      StepInv(x, ops[0]);
      RunInv(Step(x, ops[0]), ops[1..]);
    }
  }

  lemma Distinguished(e: Emission, f: Emission, x: Sender)
    requires EmissionInv(x, e) && EmissionInv(x, f) && Later(e, f)
    ensures e.body.box.key != f.body.box.key
    ensures (e.body.number, e.body.key) != (f.body.number, f.body.key)
    ensures e.body.number < WORD && f.body.number < WORD ==> e.body.box.aad != f.body.box.aad
  {
    hide AdvanceN, BuildAad;
    if AdvanceN(e.seed, e.body.number) == AdvanceN(f.seed, f.body.number) {
      AdvanceNInjective(e.seed, e.body.number, f.seed, f.body.number);
    }
    AadInjective(e.body.key, e.body.number, e.body.previous, f.body.key, f.body.number, f.body.previous);
  }

  // Over every run of encrypt and decrypt, whatever decrypt is given, no two
  // bodies share a (ratchet key, message number) pair or a message key, and
  // below 2^32 messages a chain no two share their associated data.
  lemma NeverReused(x: Sender, ops: seq<Op>, secret: Secret, theirs: Raw, pair: Raw)
    requires IsKey(theirs) && theirs != pair
    requires x == StartSender(secret, theirs, pair) || x == StartReceiver(secret, pair)
    requires EnabledRun(x, ops)
    ensures
      var sent := Run(x, ops).emitted;
      forall i, j :: 0 <= i < j < |sent| ==>
        var b, c := sent[i].body, sent[j].body;
        && b.box.key != c.box.key
        && (b.number, b.key) != (c.number, c.key)
        && (b.number < WORD && c.number < WORD ==> b.box.aad != c.box.aad)
  {
    RunInv(x, ops);
    var y := Run(x, ops);
    forall i, j | 0 <= i < j < |y.emitted|
      ensures
        var b, c := y.emitted[i].body, y.emitted[j].body;
        && b.box.key != c.box.key
        && (b.number, b.key) != (c.number, c.key)
        && (b.number < WORD && c.number < WORD ==> b.box.aad != c.box.aad)
    {
      Distinguished(y.emitted[i], y.emitted[j], y);
    }
  }
}

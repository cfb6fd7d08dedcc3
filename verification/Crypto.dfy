/**
 Symbolic cryptography of server/src/client/e2ee.ts.

 A key pair is named by its raw public half, so the private half of `k` is
 written `k` as well. Derived secrets are terms: HKDF and HMAC outputs are
 injective constructors, and a Diffie-Hellman output is the unordered pair of
 the key pairs it joins. Base64 texts are identified with the bytes they encode.
 */
module Crypto {
  import opened Common

  newtype Byte = x: int | 0 <= x < 256

  datatype Raw = Raw(bytes: seq<Byte>)

  datatype Secret =
    | DhOutput(ends: set<Raw>)
    | X3dhSecret(parts: seq<Secret>)
    | RootKey(root: Secret, dh: Secret)
    | ChainKey(root: Secret, dh: Secret)
    | NextChain(chain: Secret)
    | MessageKey(chain: Secret)

  const KEY_BYTES := 32

  // The length test of x25519PublicFromRaw.
  predicate IsKey(raw: Raw) {
    |raw.bytes| == KEY_BYTES
  }

  function Dh(mine: Raw, theirs: Raw): Secret {
    DhOutput({mine, theirs})
  }

  lemma DhCommutes(a: Raw, b: Raw)
    ensures Dh(a, b) == Dh(b, a)
  {
    assert {a, b} == {b, a};
  }

  // The chain key `n` advances after `seed`.
  function AdvanceN(seed: Secret, n: nat): Secret {
    if n == 0 then seed else NextChain(AdvanceN(seed, n - 1))
  }

  lemma {:induction false} AdvanceNFront(seed: Secret, n: nat)
    ensures AdvanceN(NextChain(seed), n) == AdvanceN(seed, n + 1)
  {
    if n == 0 {
    } else {
      AdvanceNFront(seed, n - 1);
    }
  }

  // A chain key determines its seed and its position.
  lemma {:induction false} AdvanceNInjective(a: Secret, n: nat, b: Secret, m: nat)
    requires a.ChainKey? && b.ChainKey?
    requires AdvanceN(a, n) == AdvanceN(b, m)
    ensures a == b && n == m
  {
    if n == 0 || m == 0 {
    } else {
      AdvanceNInjective(a, n - 1, b, m - 1);
    }
  }

  // ------------------------------------------------------------------
  // Authenticated encryption
  // ------------------------------------------------------------------

  // Ciphertext, nonce and tag of one AES-GCM call, as one box.
  datatype Sealed = Sealed(key: Secret, aad: seq<Byte>, plaintext: string)

  function Open(key: Secret, aad: seq<Byte>, box: Sealed): (r: Option<string>)
    ensures r.Some? <==> box == Sealed(key, aad, box.plaintext)
    ensures r.Some? ==> r.value == box.plaintext
  {
    if box.key == key && box.aad == aad then Some(box.plaintext) else None
  }

  const WORD := 0x1_0000_0000

  // writeUInt32LE(n >>> 0): the low 32 bits, least significant byte first.
  function UInt32LE(n: int): (r: seq<Byte>)
    ensures |r| == 4
  {
    var w := n % WORD;
    [(w % 256) as Byte, (w / 256 % 256) as Byte, (w / 65536 % 256) as Byte, (w / 16777216 % 256) as Byte]
  }

  function BuildAad(key: Raw, number: int, previous: int): seq<Byte> {
    key.bytes + UInt32LE(number) + UInt32LE(previous)
  }

  lemma UInt32LEInjective(n: int, m: int)
    requires UInt32LE(n) == UInt32LE(m)
    ensures n % WORD == m % WORD
  {
    forall k | k == n || k == m
      ensures var b := UInt32LE(k);
        k % WORD == b[0] as int + 256 * (b[1] as int) + 65536 * (b[2] as int) + 16777216 * (b[3] as int)
    {
      Recompose(k % WORD);
    }
  }

  lemma Recompose(w: int)
    requires 0 <= w < WORD
    ensures w == w % 256 + 256 * (w / 256 % 256) + 65536 * (w / 65536 % 256) + 16777216 * (w / 16777216 % 256)
  {
    assert w / 65536 == w / 256 / 256;
    assert w / 16777216 == w / 256 / 256 / 256;
  }

  // The associated data of two messages coincide exactly when the key and both
  // 32-bit counters do.
  lemma AadInjective(k: Raw, n: int, p: int, k': Raw, n': int, p': int)
    ensures BuildAad(k, n, p) == BuildAad(k', n', p')
       <==> k == k' && n % WORD == n' % WORD && p % WORD == p' % WORD
  {
    var a, a' := BuildAad(k, n, p), BuildAad(k', n', p');
    if a == a' {
      assert |k.bytes| == |k'.bytes|;
      assert k.bytes == a[..|k.bytes|] && k'.bytes == a'[..|k.bytes|];
      assert UInt32LE(n) == a[|k.bytes|..|k.bytes| + 4] && UInt32LE(n') == a'[|k.bytes|..|k.bytes| + 4];
      assert UInt32LE(p) == a[|k.bytes| + 4..] && UInt32LE(p') == a'[|k.bytes| + 4..];
      UInt32LEInjective(n, n');
      UInt32LEInjective(p, p');
    }
  }

  // ------------------------------------------------------------------
  // X3DH
  // ------------------------------------------------------------------

  datatype Device = Device(identity: Raw, signedPreKey: Raw, oneTimePreKey: Raw) {
    predicate Valid() {
      IsKey(identity) && IsKey(signedPreKey) && IsKey(oneTimePreKey)
    }

    function Bundle(): PreKeyBundle {
      PreKeyBundle(identity, signedPreKey, Some(oneTimePreKey))
    }
  }

  datatype PreKeyBundle = PreKeyBundle(identity: Raw, signedPreKey: Raw, oneTimePreKey: Option<Raw>)

  datatype SenderResult = SenderResult(secret: Secret, ephemeral: Raw, usedOneTimePreKey: bool)

  datatype X3dhError = BadKeyLength

  // x3dhSender; `ephemeral` is the pair it generates.
  function X3dhSender(me: Device, bundle: PreKeyBundle, ephemeral: Raw): Outcome<SenderResult, X3dhError> {
    if !IsKey(bundle.identity) || !IsKey(bundle.signedPreKey) then Err(BadKeyLength)
    else
      var parts := [Dh(me.identity, bundle.signedPreKey), Dh(ephemeral, bundle.identity),
                    Dh(ephemeral, bundle.signedPreKey)];
      match bundle.oneTimePreKey
      case None => Ok(SenderResult(X3dhSecret(parts), ephemeral, false))
      case Some(oneTime) =>
        if !IsKey(oneTime) then Err(BadKeyLength)
        else Ok(SenderResult(X3dhSecret(parts + [Dh(ephemeral, oneTime)]), ephemeral, true))
  }

  // x3dhReceiver
  function X3dhReceiver(me: Device, senderIdentity: Raw, senderEphemeral: Raw, usedOneTimePreKey: bool)
    : Outcome<Secret, X3dhError>
  {
    if !IsKey(senderIdentity) || !IsKey(senderEphemeral) then Err(BadKeyLength)
    else
      var parts := [Dh(me.signedPreKey, senderIdentity), Dh(me.identity, senderEphemeral),
                    Dh(me.signedPreKey, senderEphemeral)];
      Ok(X3dhSecret(if usedOneTimePreKey then parts + [Dh(me.oneTimePreKey, senderEphemeral)] else parts))
  }

  // Both sides derive one secret, with or without a one-time key, exactly when
  // the receiver is told the truth about that key.
  lemma X3dhAgreement(alice: Device, bob: Device, ephemeral: Raw, withOneTime: bool, claimed: bool)
    requires alice.Valid() && bob.Valid() && IsKey(ephemeral)
    ensures
      var bundle := if withOneTime then bob.Bundle() else bob.Bundle().(oneTimePreKey := None);
      var sent := X3dhSender(alice, bundle, ephemeral);
      && sent.Ok?
      && sent.value.usedOneTimePreKey == withOneTime
      && (X3dhReceiver(bob, alice.identity, sent.value.ephemeral, claimed) == Ok(sent.value.secret)
          <==> claimed == withOneTime)
  {
    DhCommutes(alice.identity, bob.signedPreKey);
    DhCommutes(ephemeral, bob.identity);
    DhCommutes(ephemeral, bob.signedPreKey);
    DhCommutes(ephemeral, bob.oneTimePreKey);
    var shared := [Dh(alice.identity, bob.signedPreKey), Dh(ephemeral, bob.identity), Dh(ephemeral, bob.signedPreKey)];
    assert |shared + [Dh(ephemeral, bob.oneTimePreKey)]| == 4;
  }

  lemma DhSame(a: Raw, b: Raw, c: Raw, d: Raw)
    requires Dh(a, b) == Dh(c, d)
    ensures (a == c && b == d) || (a == d && b == c)
  {
    assert Dh(a, b).ends == {a, b} && Dh(c, d).ends == {c, d};
    assert a in {c, d} && b in {c, d} && c in {a, b} && d in {a, b};
  }

  // The secret binds every key that went into it: whoever derives it as a receiver has
  // Bob's keys and was told Alice's, each in its place.
  lemma SecretBinds(alice: Device, bob: Device, ephemeral: Raw, other: Device, identity: Raw, sent: Raw,
                    withOneTime: bool, claimed: bool)
    requires alice.Valid() && bob.Valid() && IsKey(ephemeral) && IsKey(identity) && IsKey(sent)
    requires alice.identity != bob.signedPreKey && ephemeral != bob.signedPreKey && ephemeral != alice.identity
    ensures
      var bundle := if withOneTime then bob.Bundle() else bob.Bundle().(oneTimePreKey := None);
      X3dhReceiver(other, identity, sent, claimed) == Ok(X3dhSender(alice, bundle, ephemeral).value.secret) <==>
        && claimed == withOneTime && identity == alice.identity && sent == ephemeral
        && other.signedPreKey == bob.signedPreKey && other.identity == bob.identity
        && (withOneTime ==> other.oneTimePreKey == bob.oneTimePreKey)
  {
    var bundle := if withOneTime then bob.Bundle() else bob.Bundle().(oneTimePreKey := None);
    X3dhAgreement(alice, bob, ephemeral, withOneTime, claimed);
    SenderParts(alice, bob, ephemeral, withOneTime);
    ReceiverParts(other, identity, sent, claimed);
    var parts := X3dhSender(alice, bundle, ephemeral).value.secret.parts;
    var theirs := X3dhReceiver(other, identity, sent, claimed).value.parts;
    hide X3dhSender, X3dhReceiver, Dh;
    if parts == theirs {
      DhSame(alice.identity, bob.signedPreKey, other.signedPreKey, identity);
      DhSame(ephemeral, bob.signedPreKey, other.signedPreKey, sent);
      DhSame(ephemeral, bob.identity, other.identity, sent);
      if withOneTime {
        assert parts[3] == theirs[3];
        DhSame(ephemeral, bob.oneTimePreKey, other.oneTimePreKey, sent);
      }
    }
  }

  lemma SenderParts(alice: Device, bob: Device, ephemeral: Raw, withOneTime: bool)
    requires alice.Valid() && bob.Valid() && IsKey(ephemeral)
    ensures
      var bundle := if withOneTime then bob.Bundle() else bob.Bundle().(oneTimePreKey := None);
      var sent := X3dhSender(alice, bundle, ephemeral);
      && sent.Ok? && sent.value.secret.X3dhSecret?
      && var parts := sent.value.secret.parts;
         && |parts| == (if withOneTime then 4 else 3)
         && parts[0] == Dh(alice.identity, bob.signedPreKey) && parts[1] == Dh(ephemeral, bob.identity)
         && parts[2] == Dh(ephemeral, bob.signedPreKey)
         && (withOneTime ==> parts[3] == Dh(ephemeral, bob.oneTimePreKey))
  {
  }

  lemma ReceiverParts(bob: Device, identity: Raw, ephemeral: Raw, claimed: bool)
    requires IsKey(identity) && IsKey(ephemeral)
    ensures
      var derived := X3dhReceiver(bob, identity, ephemeral, claimed);
      && derived.Ok? && derived.value.X3dhSecret?
      && var parts := derived.value.parts;
         && |parts| == (if claimed then 4 else 3)
         && parts[0] == Dh(bob.signedPreKey, identity) && parts[1] == Dh(bob.identity, ephemeral)
         && parts[2] == Dh(bob.signedPreKey, ephemeral)
         && (claimed ==> parts[3] == Dh(bob.oneTimePreKey, ephemeral))
  {
  }

  // Keys of any length but 32 bytes are refused by both sides.
  lemma OnlyWholeKeys(me: Device, bundle: PreKeyBundle, ephemeral: Raw, identity: Raw, sent: Raw, claimed: bool)
    ensures X3dhSender(me, bundle, ephemeral).Ok? <==>
      && |bundle.identity.bytes| == 32 && |bundle.signedPreKey.bytes| == 32
      && (bundle.oneTimePreKey.Some? ==> |bundle.oneTimePreKey.value.bytes| == 32)
    ensures X3dhReceiver(me, identity, sent, claimed).Ok? <==> |identity.bytes| == 32 && |sent.bytes| == 32
  {
  }
}

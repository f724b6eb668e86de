/** The cryptographic primitives the protocol uses (NaCl signing, Box,
    SecretBox, HKDF, SHA-256, the re-randomisable identifiers), as abstract
    functions carried in a record. Nothing here models an algorithm.

    Signing is modelled symbolically: a signed message is a 64-byte tag
    followed by the message, and verification recomputes the tag for the
    verifying key, so that `verify(sign(m)) == m` is a theorem rather than an
    assumption. Box decryption is abstract; the properties the protocol
    relies on are stated as predicates and used as hypotheses. */
module Crypto {
  import opened Common
  import opened Text

  /** A byte string of a fixed length: public keys, verifying keys. */
  type Key32 = s: string | |s| == 32 && IsBytes(s)
    witness ZeroBytes(32)

  type Signature = s: string | |s| == 64 && IsBytes(s)
    witness ZeroBytes(64)

  function ZeroBytes(n: nat): (r: string)
    ensures |r| == n && IsBytes(r)
  {
    seq(n, i => 0 as char)
  }

  type Bytes = s: string | IsBytes(s)

  datatype Primitives = Primitives(
    /** verifying key of a signing key */
    verfOf: string -> Key32,
    /** the signature the signing key behind the given verifying key puts on a message */
    tag: (Key32, string) -> Signature,
    /** public key of a private key */
    pubOf: string -> Key32,
    /** `Box(myPriv, theirPub).encrypt(m, nonce)` (the random nonce folded in) */
    boxSeal: (string, Key32, string) -> string,
    /** `Box(myPriv, theirPub).decrypt(c)`; `None` is CryptoError */
    boxOpen: (string, string, string) -> Option<string>)

  /** `SigningKey(sk).sign(m)`: signature followed by the message. */
  function Sign(p: Primitives, sk: string, m: string): (r: string)
    ensures |r| == 64 + |m| && r[64..] == m
    ensures IsBytes(m) ==> IsBytes(r)
  {
    p.tag(p.verfOf(sk), m) + m
  }

  /** `VerifyKey(vk).verify(sm)`: the message when the signature matches,
      `None` (BadSignatureError) otherwise. */
  function Verify(p: Primitives, vk: Key32, sm: string): (r: Option<string>)
    ensures r.Some? ==> sm == p.tag(vk, r.value) + r.value
  {
    if |sm| >= 64 && sm[..64] == p.tag(vk, sm[64..]) then Some(sm[64..]) else None
  }

  /** Verification with the matching key recovers what was signed. */
  lemma VerifySigned(p: Primitives, sk: string, m: string)
    ensures Verify(p, p.verfOf(sk), Sign(p, sk, m)) == Some(m)
  {
    var sm := Sign(p, sk, m);
    assert sm[..64] == p.tag(p.verfOf(sk), m);
  }

  /** A box from `a` to `b` opens with `b`'s private key and `a`'s public
      key: both ends derive the same shared key. */
  ghost predicate BoxPairSound(p: Primitives)
  {
    forall a, b, m :: p.boxOpen(b, p.pubOf(a), p.boxSeal(a, p.pubOf(b), m)) == Some(m)
  }

  /** The box hypothesis is consistent: a transparent "box" that prefixes
      the recipient's public key satisfies it, so lemmas assuming it are not
      vacuous. */
  lemma BoxPairSoundSatisfiable()
    ensures exists p :: BoxPairSound(p)
  {
    var pubOf: string -> Key32 := priv => ZeroBytes(32);
    var boxSeal: (string, Key32, string) -> string := (priv, pub, m) => pub + m;
    var boxOpen: (string, string, string) -> Option<string> :=
      (priv, pub, c) => if |c| >= 32 && c[..32] == pubOf(priv) then Some(c[32..]) else None;
    var p := Primitives(_ => ZeroBytes(32), (_, _) => ZeroBytes(64), pubOf, boxSeal, boxOpen);
    forall a, b, m
      ensures p.boxOpen(b, p.pubOf(a), p.boxSeal(a, p.pubOf(b), m)) == Some(m)
    {
      var c := p.boxSeal(a, p.pubOf(b), m);
      assert c[..32] == pubOf(b) && c[32..] == m;
    }
    assert BoxPairSound(p);
  }
}

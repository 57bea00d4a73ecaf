/**
 The engine's cryptographic primitives as a free term algebra.

 HKDF, HMAC, X25519 and ML-KEM outputs are constructors of `Secret`, so that
 "different inputs give different outputs" and "no key is derived from itself" are
 facts about a datatype.  The one equation the protocol needs, the commutativity of
 Diffie-Hellman, holds because a shared secret is named by the set of its two ends.
 */
module Symbolic {
  datatype Option<+T> = None | Some(value: T) {
    predicate IsFailure() { None? }

    function PropagateFailure<U>(): Option<U>
      requires None?
    {
      None
    }

    function Extract(): T
      requires Some?
    {
      value
    }
  }

  type byte = x: int | 0 <= x < 256

  const U32_LIMIT: int := 0x1_0000_0000

  type u32 = x: int | 0 <= x < U32_LIMIT

  lemma Regroup<T>(a: seq<T>, b: seq<T>, c: seq<T>)
    ensures a + (b + c) == (a + b) + c
  {
  }

  function Repeat<T>(x: T, n: nat): seq<T> { seq(n, _ => x) }

  /** Unsigned 32-bit increment, which wraps. */
  function Succ32(x: u32): u32 { (x + 1) % U32_LIMIT }

  /** An X25519 key.  Public and private halves of one pair carry the same name; a
      `FromIdentity` key is an Ed25519 identity key converted to the Montgomery form. */
  datatype DhKey = Random(id: nat) | FromIdentity(id: nat) | SmallOrder(id: nat)

  /** Identity number 0 stands for the Ed25519 keys that have no Montgomery form. */
  predicate Converts(identity: nat) { identity != 0 }

  /** KEM key 0 stands for the keys with which the KEM library fails. */
  predicate KemWorks(kem: nat) { kem != 0 }

  /** HKDF info strings: "ZiaCrypteX3DH" and "ZiaCryptePQXDH". */
  datatype Label = X3dh | Pqxdh

  /** Thirty-two byte secrets. */
  datatype Secret =
    | Zero
    | Atom(id: nat)
    | Shared(ends: set<DhKey>)
    | RootOf(root: Secret, dh: Secret)
    | ChainOf(root: Secret, dh: Secret)
    | NextOf(chain: Secret)
    | MessageOf(chain: Secret)
    | Encapsulated(kem: nat, coins: nat)
    | Rejected(kem: nat, ciphertext: KemCipher)
    | SessionKey(info: Label, ikm: seq<Secret>)

  /** ML-KEM ciphertexts, `Garbage` being any string that no encapsulation produced. */
  datatype KemCipher = Capsule(kem: nat, coins: nat) | Garbage(id: nat)

  /** X25519.  A small-order peer key gives the all-zero output. */
  function Dh(mine: DhKey, theirs: DhKey): Secret {
    if theirs.SmallOrder? then Zero else Shared({mine, theirs})
  }

  /** Decapsulation never reports a bad ciphertext: it answers with an unrelated secret. */
  function Decapsulate(kem: nat, c: KemCipher): Secret {
    if c.Capsule? && c.kem == kem then Encapsulated(kem, c.coins) else Rejected(kem, c)
  }

  /** ChaCha20-Poly1305 output; `Noise` is any string that no encryption produced. */
  datatype Cipher<AD> = Sealed(key: Secret, ad: AD, plain: seq<byte>) | Noise(id: nat)

  /** Authenticated decryption succeeds only under the sealing key and additional data. */
  function Open<AD(==)>(key: Secret, ad: AD, c: Cipher<AD>): Option<seq<byte>> {
    if c.Sealed? && c.key == key && c.ad == ad then Some(c.plain) else None
  }

  /** The chain key reached from `c` by `k` turns of the symmetric ratchet. */
  function Advance(c: Secret, k: nat): Secret {
    if k == 0 then c else NextOf(Advance(c, k - 1))
  }

  /** How many turns lie behind a chain key. */
  function Turn(chain: Secret): nat {
    match chain case NextOf(c) => Turn(c) + 1 case _ => 0
  }

  lemma {:induction false} AdvanceShift(c: Secret, k: nat)
    ensures Advance(NextOf(c), k) == Advance(c, k + 1)
  {
    if k != 0 { AdvanceShift(c, k - 1); }
  }

  lemma {:induction false} AdvancePlus(c: Secret, j: nat, k: nat)
    ensures Advance(Advance(c, j), k) == Advance(c, j + k)
  {
    if k != 0 { AdvancePlus(c, j, k - 1); }
  }

  datatype Status =
    | InvalidArg
    | NotInitialized
    | CryptoFailure
    | SessionNotFound
    | SignatureInvalid
    | ReplayDetected
    | SkippedKeyLimit
    | BundleExhausted

  datatype Result<+T> = Ok(value: T) | Err(status: Status)
}

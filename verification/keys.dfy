/**
 Symbolic key material (clients/windows/src/crypto.rs).

 A secret key is an identifier; its public key is the point of that identifier, or text that does
 not decode to 32 bytes.  Every 32-byte value the protocol derives is a free term, so two derived
 values are equal only when they were derived in the same way.
 */
module Keys {
  import opened Wrappers

  type Secret = nat

  datatype PublicKey = Point(secret: Secret) | Undecodable(text: nat)

  datatype Key =
    | Zero
    | Agreed(lo: Secret, hi: Secret)
    | X3dhRoot(dh1: Key, dh2: Key, dh3: Key)
    | RootFrom(root: Key, dh: Key)
    | ChainFrom(root: Key, dh: Key)
    | NextChain(chain: Key)
    | MessageKey(chain: Key)

  datatype CryptoError = InvalidKey | RandomFailed

  /** The Diffie-Hellman value of two secrets, whichever side computes it. */
  function Agreement(a: Secret, b: Secret): Key {
    if a <= b then Agreed(a, b) else Agreed(b, a)
  }

  function NaclBoxBefore(peer: PublicKey, own: Secret): Result<Key, CryptoError> {
    match peer
    case Point(secret) => Success(Agreement(secret, own))
    case Undecodable(_) => Failure(InvalidKey)
  }

  /** Both ends of an agreement compute the same value, and no other pair of secrets computes it. */
  lemma AgreementIsSymmetricAndInjective(a: Secret, b: Secret, c: Secret, d: Secret)
    ensures NaclBoxBefore(Point(a), b) == NaclBoxBefore(Point(b), a)
    ensures Agreement(a, b) == Agreement(c, d) <==> (a == c && b == d) || (a == d && b == c)
  {
  }

  function KdfRoot(root: Key, dh: Key): (Key, Key) {
    (RootFrom(root, dh), ChainFrom(root, dh))
  }

  function KdfChain(chain: Key): (Key, Key) {
    (NextChain(chain), MessageKey(chain))
  }

  /** The chain key after n steps. */
  function ChainAt(chain: Key, n: nat): (k: Key) {
    if n == 0 then chain else NextChain(ChainAt(chain, n - 1))
  }

  lemma {:induction false} ChainAtStep(chain: Key, n: nat)
    ensures ChainAt(NextChain(chain), n) == ChainAt(chain, n + 1)
  {
    if n > 0 {
      ChainAtStep(chain, n - 1);
    }
  }

  lemma {:induction false} ChainAtAdd(chain: Key, m: nat, n: nat)
    ensures ChainAt(ChainAt(chain, m), n) == ChainAt(chain, m + n)
  {
    if n > 0 {
      ChainAtAdd(chain, m, n - 1);
    }
  }

  /** The secret a key was derived from, through any number of derivations. */
  function Base(k: Key): Key {
    match k
    case RootFrom(root, _) => Base(root)
    case ChainFrom(root, _) => Base(root)
    case NextChain(chain) => Base(chain)
    case MessageKey(chain) => Base(chain)
    case _ => k
  }

  lemma {:induction false} ChainAtBase(chain: Key, n: nat)
    ensures Base(ChainAt(chain, n)) == Base(chain)
  {
    if n > 0 {
      ChainAtBase(chain, n - 1);
    }
  }

  /** How many root derivations lie below a key. */
  function Depth(k: Key): nat {
    match k
    case RootFrom(root, _) => Depth(root) + 1
    case ChainFrom(root, _) => Depth(root) + 1
    case NextChain(chain) => Depth(chain)
    case _ => 0
  }

  /** How many chain steps a chain key is away from the start of its chain. */
  function Steps(k: Key): nat {
    if k.NextChain? then Steps(k.chain) + 1 else 0
  }

  lemma {:induction false} ChainAtMeasures(chain: Key, n: nat)
    ensures Depth(ChainAt(chain, n)) == Depth(chain)
    ensures Steps(ChainAt(chain, n)) == Steps(chain) + n
  {
    if n > 0 {
      ChainAtMeasures(chain, n - 1);
    }
  }
}

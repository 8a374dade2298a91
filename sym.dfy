/**
 * Symmetric encryption with a pre-shared (precomputed) key: key generation,
 * `enc` and `dec`, with their guard order and error kinds.  The box primitive
 * itself (curve25519xsalsa20poly1305 seal/open with a precomputed key) is a
 * parameter, and the lemmas assume of it only what authenticated encryption
 * promises (`Authenticated`).
 */
module Sym {
  import opened Errors

  /** Length of a precomputed box key (`PRECOMPUTEDKEYBYTES`). */
  const PRECOMPUTEDKEYBYTES: nat := 32

  /** Length of a box nonce (`NONCEBYTES`). */
  const NONCEBYTES: nat := 24

  /** Largest plaintext `enc` accepts. */
  const MAX_PLAINTEXT: nat := 4096

  const SIZE_LIMIT_MESSAGE: string := "enc is specd for <= 4096 bytes"

  /** A nonce as the random nonce generator returns it. */
  type Nonce = n: Bytes | |n| == NONCEBYTES witness seq(NONCEBYTES, _ => 0)

  /** `PrecomputedKey::from_slice` succeeds exactly on slices of the key length. */
  predicate IsKey(psk: Bytes) { |psk| == PRECOMPUTEDKEYBYTES }

  /** `Nonce::from_slice` succeeds exactly on slices of the nonce length. */
  predicate IsNonce(nonce: Bytes) { |nonce| == NONCEBYTES }

  /**
   * The box primitive: `seal(data, nonce, key)` is the ciphertext,
   * `open(ciphertext, nonce, key)` the plaintext or `None` when
   * authentication fails.
   */
  datatype Cipher = Cipher(
    seal: (Bytes, Bytes, Bytes) -> Bytes,
    open: (Bytes, Bytes, Bytes) -> Option<Bytes>)

  /**
   * What authenticated encryption guarantees, idealised: opening a sealed
   * text with the same nonce and key gives the plaintext back; whatever opens
   * was sealed under that nonce and key; and a sealed text does not open
   * under any other well-formed key.
   */
  ghost predicate Authenticated(c: Cipher)
  {
    && (forall d, n, k :: IsNonce(n) && IsKey(k) ==> c.open(c.seal(d, n, k), n, k) == Some(d))
    && (forall t, n, k :: c.open(t, n, k).Some? ==> t == c.seal(c.open(t, n, k).value, n, k))
    && (forall d, n, k, k' :: IsKey(k) && IsKey(k') && k != k' ==> c.open(c.seal(d, n, k), n, k') == None)
  }

  /**
   * A symbolic cipher: the ciphertext records key, nonce and plaintext, and
   * opens only under that key and nonce.  It is no cipher at all, but it shows
   * that the assumptions in `Authenticated` can be met together.
   */
  function SymbolicCipher(): Cipher
  {
    Cipher(
      (d: Bytes, n: Bytes, k: Bytes) => k + n + d,
      (t: Bytes, n: Bytes, k: Bytes) =>
        if |t| >= |k| + |n| && t[..|k|] == k && t[|k|..|k| + |n|] == n
        then Some(t[|k| + |n|..]) else None)
  }

  lemma SymbolicCipherIsAuthenticated()
    ensures Authenticated(SymbolicCipher())
  {
    var c := SymbolicCipher();
    forall d, n, k | IsNonce(n) && IsKey(k)
      ensures c.open(c.seal(d, n, k), n, k) == Some(d)
    {
      var t := k + n + d;
      assert t[..|k|] == k && t[|k|..|k| + |n|] == n && t[|k| + |n|..] == d;
    }
    forall t, n, k | c.open(t, n, k).Some?
      ensures t == c.seal(c.open(t, n, k).value, n, k)
    {
      assert t == t[..|k|] + t[|k|..|k| + |n|] + t[|k| + |n|..];
    }
    forall d, n, k, k' | IsKey(k) && IsKey(k') && k != k'
      ensures c.open(c.seal(d, n, k), n, k') == None
    {
      var t := k + n + d;
      assert t[..|k'|] == k;
    }
  }

  /**
   * `rand_bytes(n)`: the next `n` bytes of the entropy source, or a failure
   * when the source cannot supply them.
   */
  function RandBytes(entropy: Bytes, n: nat): (r: Result<Bytes, Error>)
    ensures r.Ok? ==> n <= |entropy| && r.value == entropy[..n]
    ensures r.Err? <==> |entropy| < n
  {
    if |entropy| < n then Err(RandomSource) else Ok(entropy[..n])
  }

  /** `gen_random_psk`: a random key of exactly the precomputed-key length. */
  function GenRandomPsk(entropy: Bytes): (r: Result<Bytes, Error>)
    ensures r.Ok? ==> IsKey(r.value)
    ensures r.Err? ==> r.error == RandomSource && |entropy| < PRECOMPUTEDKEYBYTES
  {
    RandBytes(entropy, PRECOMPUTEDKEYBYTES)
  }

  /**
   * `enc`: rejects plaintext over 4096 bytes before looking at the key, then
   * rejects a key of the wrong length; otherwise returns the fresh nonce and
   * the sealed data.
   */
  function Enc(data: Bytes, psk: Bytes, nonce: Nonce, c: Cipher): (r: Result<(Bytes, Bytes), Error>)
    ensures |data| > MAX_PLAINTEXT ==> r == Err(Msg(SIZE_LIMIT_MESSAGE))
    ensures |data| <= MAX_PLAINTEXT && !IsKey(psk) ==> r == Err(InvalidPresharedKey)
    ensures r.Ok? <==> |data| <= MAX_PLAINTEXT && IsKey(psk)
    ensures r.Ok? ==> IsNonce(r.value.0) && r.value == (nonce, c.seal(data, nonce, psk))
  {
    if |data| > MAX_PLAINTEXT then Err(Msg(SIZE_LIMIT_MESSAGE))
    else if !IsKey(psk) then Err(InvalidPresharedKey)
    else Ok((nonce, c.seal(data, nonce, psk)))
  }

  /**
   * `dec`: checks the nonce's shape, then the key's, then authenticates; each
   * failure has its own error kind.
   */
  function Dec(data: Bytes, nonce: Bytes, psk: Bytes, c: Cipher): (r: Result<Bytes, Error>)
    ensures !IsNonce(nonce) ==> r == Err(InvalidNonce)
    ensures IsNonce(nonce) && !IsKey(psk) ==> r == Err(InvalidPresharedKey)
    ensures IsNonce(nonce) && IsKey(psk) ==>
      r == (if c.open(data, nonce, psk).Some? then Ok(c.open(data, nonce, psk).value) else Err(FailedToDecrypt))
    ensures r.Err? ==> r.error == InvalidNonce || r.error == InvalidPresharedKey || r.error == FailedToDecrypt
  {
    if !IsNonce(nonce) then Err(InvalidNonce)
    else if !IsKey(psk) then Err(InvalidPresharedKey)
    else match c.open(data, nonce, psk)
      case Some(v) => Ok(v)
      case None => Err(FailedToDecrypt)
  }

  /** A plaintext of exactly the limit is still accepted. */
  lemma EncAcceptsLimit(data: Bytes, psk: Bytes, nonce: Nonce, c: Cipher)
    requires |data| == MAX_PLAINTEXT && IsKey(psk)
    ensures Enc(data, psk, nonce, c).Ok?
  {
  }

  /** A freshly generated key is accepted by `enc` for any admissible plaintext. */
  lemma GeneratedKeyIsAccepted(entropy: Bytes, data: Bytes, nonce: Nonce, c: Cipher)
    requires GenRandomPsk(entropy).Ok? && |data| <= MAX_PLAINTEXT
    ensures Enc(data, GenRandomPsk(entropy).value, nonce, c).Ok?
  {
  }

  /** Decrypting what `enc` produced, with the same key, gives the plaintext. */
  lemma EncDecRoundTrip(data: Bytes, psk: Bytes, nonce: Nonce, c: Cipher)
    requires Authenticated(c)
    requires Enc(data, psk, nonce, c).Ok?
    ensures var (n, t) := Enc(data, psk, nonce, c).value; Dec(t, n, psk, c) == Ok(data)
  {
  }

  /**
   * A ciphertext other than the one `enc` produced never decrypts to the
   * original plaintext: it fails to authenticate, or it is the sealing of a
   * different plaintext.
   */
  lemma TamperedIsRejected(data: Bytes, psk: Bytes, nonce: Nonce, c: Cipher, forged: Bytes)
    requires Authenticated(c)
    requires Enc(data, psk, nonce, c).Ok? && forged != Enc(data, psk, nonce, c).value.1
    ensures Dec(forged, nonce, psk, c) != Ok(data)
    ensures Dec(forged, nonce, psk, c) == Err(FailedToDecrypt) ||
            (Dec(forged, nonce, psk, c).Ok? && forged == c.seal(Dec(forged, nonce, psk, c).value, nonce, psk))
  {
  }

  /** Decrypting with a different well-formed key reports an authentication failure. */
  lemma WrongKeyFailsToDecrypt(data: Bytes, psk: Bytes, other: Bytes, nonce: Nonce, c: Cipher)
    requires Authenticated(c)
    requires Enc(data, psk, nonce, c).Ok? && IsKey(other) && other != psk
    ensures var (n, t) := Enc(data, psk, nonce, c).value; Dec(t, n, other, c) == Err(FailedToDecrypt)
  {
  }
}

/** The AEAD record layer: implicit nonce counter, length checks and sequence discipline. */
module SecureRecords {
  import opened Bytes

  const TAG_LENGTH := 16
  const MAX_PLAINTEXT := 65536
  const NONCE_LENGTH := 12

  /**
    The AEAD of section 2.8 of RFC 8439 as functions of (key, nonce, text), so that every result
    below holds for any cipher with the laws of `Ideal`; `opening` is how the receiving library
    call with that key and nonce behaves, an error of it ending the session in every receiver.
   */
  datatype Cipher = Cipher(
    seal: (Data, Data, Data) -> Data,
    open: (Data, Data, Data) -> Option<Data>,
    opening: (Data, Data) -> Library)

  /** What the cipher library does on one call: a context may be unavailable, a call may fail. */
  datatype Library = Works | NoContext | Fails

  ghost predicate Ideal(c: Cipher) {
    && (forall k, n, p :: |c.seal(k, n, p)| == |p| + TAG_LENGTH)
    && (forall k, n, p :: c.open(k, n, c.seal(k, n, p)) == Some(p))
    && (forall k, n, t :: c.open(k, n, t).Some? ==> |t| == |c.open(k, n, t).value| + TAG_LENGTH)
    && (forall k, n :: c.opening(k, n) == Works)
  }

  /** A cipher meeting the laws: the text in clear, tagged with the nonce. */
  function Tag(nonce: Data): (t: Data)
    ensures |t| == TAG_LENGTH
  {
    if |nonce| == NONCE_LENGTH then nonce + [0, 0, 0, 0] else seq(TAG_LENGTH, i => 1)
  }

  function TaggingCipher(): Cipher {
    Cipher((k, n, p) => p + Tag(n),
           (k, n, t) => if |t| >= TAG_LENGTH && t[|t| - TAG_LENGTH..] == Tag(n)
                        then Some(t[..|t| - TAG_LENGTH]) else None,
           (k, n) => Works)
  }

  lemma {:induction false} TaggingCipherIsIdeal()
    ensures Ideal(TaggingCipher())
  {
    var c := TaggingCipher();
    forall k: Data, n: Data, p: Data
      ensures c.open(k, n, c.seal(k, n, p)) == Some(p)
    {
      var t := p + Tag(n);
      assert t[|t| - TAG_LENGTH..] == Tag(n) && t[..|t| - TAG_LENGTH] == p;
    }
  }

  // ---- nonces ----------------------------------------------------------------------------

  /** Exclusive or of the low k bits, bit by bit. */
  function XorBits(a: nat, b: nat, k: nat): nat {
    if k == 0 then 0 else 2 * XorBits(a / 2, b / 2, k - 1) + if a % 2 == b % 2 then 0 else 1
  }

  function Pow2(k: nat): nat {
    if k == 0 then 1 else 2 * Pow2(k - 1)
  }

  lemma {:induction false} XorBitsRange(a: nat, b: nat, k: nat)
    ensures XorBits(a, b, k) < Pow2(k)
  {
    if k > 0 {
      XorBitsRange(a / 2, b / 2, k - 1);
    }
  }

  lemma {:induction false} XorBitsInjective(a: nat, x: nat, y: nat, k: nat)
    requires x < Pow2(k) && y < Pow2(k)
    requires XorBits(a, x, k) == XorBits(a, y, k)
    ensures x == y
  {
    if k > 0 {
      XorBitsInjective(a / 2, x / 2, y / 2, k - 1);
    }
  }

  lemma {:induction false} XorBitsZero(a: nat, k: nat)
    requires a < Pow2(k)
    ensures XorBits(a, 0, k) == a
  {
    if k > 0 {
      XorBitsZero(a / 2, k - 1);
    }
  }

  function Xor(a: Byte, b: Byte): Byte {
    XorBitsRange(a, b, 8);
    assert Pow2(8) == 256;
    XorBits(a, b, 8)
  }

  lemma {:induction false} XorInjective(a: Byte, x: Byte, y: Byte)
    requires Xor(a, x) == Xor(a, y)
    ensures x == y
  {
    assert Pow2(8) == 256;
    XorBitsInjective(a, x, y, 8);
  }

  lemma {:induction false} XorZero(a: Byte)
    ensures Xor(a, 0) == a
  {
    assert Pow2(8) == 256;
    XorBitsZero(a, 8);
  }

  function Bit(n: nat, i: nat): nat {
    if i == 0 then n % 2 else Bit(n / 2, i - 1)
  }

  lemma {:induction false} XorBitsBit(a: nat, b: nat, k: nat, i: nat)
    requires i < k
    ensures Bit(XorBits(a, b, k), i) == (if Bit(a, i) != Bit(b, i) then 1 else 0)
  {
    if i > 0 {
      XorBitsBit(a / 2, b / 2, k - 1, i - 1);
    }
  }

  /** A bit of the exclusive or is set exactly where the two bits differ. */
  lemma {:induction false} XorBit(a: Byte, b: Byte, i: nat)
    requires i < 8
    ensures Bit(Xor(a, b), i) == (if Bit(a, i) != Bit(b, i) then 1 else 0)
  {
    XorBitsBit(a, b, 8, i);
  }

  type Iv = s: Data | |s| == NONCE_LENGTH witness seq(NONCE_LENGTH, i => 0)
  type Counter = n: nat | n < TWO_64

  function Advance(n: Counter): Counter {
    (n + 1) % TWO_64
  }

  /** Section 5.3 of RFC 8446: the big-endian counter, padded left with zeros, XORed into the IV. */
  function NonceFor(iv: Iv, n: Counter): (nonce: Iv)
  {
    var padded := [0, 0, 0, 0] + BigEndian(n, 8);
    seq(NONCE_LENGTH, i requires 0 <= i < NONCE_LENGTH => Xor(iv[i], padded[i]))
  }

  lemma {:induction false} NoncePrefix(iv: Iv, n: Counter)
    ensures forall i :: 0 <= i < 4 ==> NonceFor(iv, n)[i] == iv[i]
  {
    forall i | 0 <= i < 4
      ensures NonceFor(iv, n)[i] == iv[i]
    {
      XorZero(iv[i]);
    }
  }

  /** Byte 4 + i is the IV byte XORed with the counter shifted right by (7 - i) bytes. */
  lemma {:induction false} NonceDigit(iv: Iv, n: Counter, i: nat)
    requires i < 8
    ensures NonceFor(iv, n)[4 + i] == Xor(iv[4 + i], n / Pow256(7 - i) % 256)
  {
    BigEndianDigit(n, 8, i);
  }

  lemma {:induction false} NoncesDistinct(iv: Iv, m: Counter, n: Counter)
    requires m != n
    ensures NonceFor(iv, m) != NonceFor(iv, n)
    ensures NonceFor(iv, m)[..4] == iv[..4] == NonceFor(iv, n)[..4]
  {
    var x, y := BigEndian(m, 8), BigEndian(n, 8);
    if x == y {
      assert Pow256(8) == TWO_64;
      BigEndianInjective(m, n, 8);
    } else {
      var i :| 0 <= i < 8 && x[i] != y[i];
      if NonceFor(iv, m)[4 + i] == NonceFor(iv, n)[4 + i] {
        XorInjective(iv[4 + i], x[i], y[i]);
      }
    }
    NoncePrefix(iv, m);
    NoncePrefix(iv, n);
  }

  /** One direction of a session: the cipher with the key and IV that both ends use for it. */
  datatype Direction = Direction(cipher: Cipher, key: Data, iv: Iv)

  // ---- records ---------------------------------------------------------------------------

  datatype RecordError = TooLarge | BadLength | LibraryError | AuthenticationFailed

  datatype Step = Step(result: Result<Data, RecordError>, next: Counter)

  /** `seal`: the counter moves exactly when a nonce was taken, so also when the cipher then fails. */
  function Sealing(d: Direction, n: Counter, plaintext: Data, lib: Library): Step {
    if |plaintext| > MAX_PLAINTEXT then Step(Err(TooLarge), n)
    else match lib
      case NoContext => Step(Err(LibraryError), n)
      case Fails => Step(Err(LibraryError), Advance(n))
      case Works => Step(Ok(d.cipher.seal(d.key, NonceFor(d.iv, n), plaintext)), Advance(n))
  }

  function Opening(d: Direction, n: Counter, sealed: Data, lib: Library): Step {
    if |sealed| < TAG_LENGTH || |sealed| - TAG_LENGTH > MAX_PLAINTEXT then Step(Err(BadLength), n)
    else match lib
      case NoContext => Step(Err(LibraryError), n)
      case Fails => Step(Err(LibraryError), Advance(n))
      case Works =>
        match d.cipher.open(d.key, NonceFor(d.iv, n), sealed)
        case Some(p) => Step(Ok(p), Advance(n))
        case None => Step(Err(AuthenticationFailed), Advance(n))
  }

  class SecureRecord {
    const dir: Direction
    var sequence: Counter

    constructor (dir: Direction)
      ensures this.dir == dir && sequence == 0
    {
      this.dir, sequence := dir, 0;
    }

    method NextNonce() returns (nonce: array<Byte>)
      modifies this`sequence
      ensures fresh(nonce) && nonce[..] == NonceFor(dir.iv, old(sequence))
      ensures sequence == Advance(old(sequence))
    {
      nonce := new Byte[NONCE_LENGTH](i requires 0 <= i < NONCE_LENGTH => dir.iv[i]);
      var n := sequence;
      sequence := Advance(sequence);
      ghost var whole := NonceFor(dir.iv, n);
      NoncePrefix(dir.iv, n);
      for i := 0 to 8
        invariant sequence == Advance(n)
        invariant forall k :: 0 <= k < 4 + i ==> nonce[k] == whole[k]
        invariant forall k :: 4 + i <= k < NONCE_LENGTH ==> nonce[k] == dir.iv[k]
      {
        NonceDigit(dir.iv, n, i);
        nonce[4 + i] := Xor(nonce[4 + i], n / Pow256(7 - i) % 256);
      }
    }

    method Seal(plaintext: Data, lib: Library) returns (r: Result<Data, RecordError>)
      modifies this`sequence
      ensures Step(r, sequence) == Sealing(dir, old(sequence), plaintext, lib)
    {
      if |plaintext| > MAX_PLAINTEXT {
        return Err(TooLarge);
      }
      if lib == NoContext {
        return Err(LibraryError);
      }
      var nonce := NextNonce();
      if lib == Fails {
        return Err(LibraryError);
      }
      return Ok(dir.cipher.seal(dir.key, nonce[..], plaintext));
    }

    method Open(sealed: Data, lib: Library) returns (r: Result<Data, RecordError>)
      modifies this`sequence
      ensures Step(r, sequence) == Opening(dir, old(sequence), sealed, lib)
    {
      if |sealed| < TAG_LENGTH || |sealed| - TAG_LENGTH > MAX_PLAINTEXT {
        return Err(BadLength);
      }
      if lib == NoContext {
        return Err(LibraryError);
      }
      var nonce := NextNonce();
      if lib == Fails {
        return Err(LibraryError);
      }
      match dir.cipher.open(dir.key, nonce[..], sealed)
      case Some(p) => return Ok(p);
      case None => return Err(AuthenticationFailed);
    }
  }

  /** When sealing succeeds, when it moves the counter and to where, and each of its errors. */
  lemma {:induction false} SealingExactly(d: Direction, n: Counter, plaintext: Data, lib: Library)
    ensures var s := Sealing(d, n, plaintext, lib);
            && (s.result == Err(TooLarge) <==> |plaintext| > 65536)
            && (s.result == Err(LibraryError) <==> |plaintext| <= 65536 && lib != Works)
            && (s.result.Ok? ==> s.result.value == d.cipher.seal(d.key, NonceFor(d.iv, n), plaintext))
            && s.next == (if |plaintext| > 65536 || lib == NoContext then n else (n + 1) % 0x1_0000_0000_0000_0000)
  {
    hide NonceFor;
  }

  /** The same of opening, whose counter also moves when the text is not authentic. */
  lemma {:induction false} OpeningExactly(d: Direction, n: Counter, sealed: Data, lib: Library)
    ensures var o, p := Opening(d, n, sealed, lib), d.cipher.open(d.key, NonceFor(d.iv, n), sealed);
            var legal := 16 <= |sealed| <= 65552;
            && (o.result == Err(BadLength) <==> !legal)
            && (o.result == Err(LibraryError) <==> legal && lib != Works)
            && (o.result == Err(AuthenticationFailed) <==> legal && lib == Works && p == None)
            && (o.result.Ok? <==> legal && lib == Works && p.Some?)
            && (o.result.Ok? ==> p == Some(o.result.value))
            && o.next == (if !legal || lib == NoContext then n else (n + 1) % 0x1_0000_0000_0000_0000)
  {
    hide NonceFor;
  }

  /** A record opens to what was sealed when both ends stand at the same counter. */
  lemma {:induction false} SealedOpens(d: Direction, n: Counter, plaintext: Data)
    requires Ideal(d.cipher) && |plaintext| <= MAX_PLAINTEXT
    ensures var s := Sealing(d, n, plaintext, Works);
            && s.result.Ok? && |s.result.value| == |plaintext| + TAG_LENGTH
            && Opening(d, n, s.result.value, Works) == Step(Ok(plaintext), s.next)
  {
    var nonce := NonceFor(d.iv, n);
    assert |d.cipher.seal(d.key, nonce, plaintext)| == |plaintext| + TAG_LENGTH;
    assert d.cipher.open(d.key, nonce, d.cipher.seal(d.key, nonce, plaintext)) == Some(plaintext);
  }
}

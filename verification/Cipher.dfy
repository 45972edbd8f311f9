/** The rolling-offset cipher over octets, with Base64 around it. */
module Cipher {
  import opened Base64
  import opened Modular

  // ---------------------------------------------------------------- letters of the C locale

  predicate Upper(c: Octet) {
    65 <= c <= 90
  }

  predicate Lower(c: Octet) {
    97 <= c <= 122
  }

  predicate Alpha(c: Octet) {
    Upper(c) || Lower(c)
  }

  /** The offset a key letter stands for, whatever its case. */
  function Offset(key: Octet): (n: nat)
    requires Alpha(key)
    ensures n < 26
  {
    if Upper(key) then key - 65 else key - 97
  }

  /** Letters move round the alphabet of their case; anything else stays. */
  function EncodeChar(c: Octet, key: Octet): Octet {
    if !Alpha(c) || !Alpha(key) then c
    else if Upper(c) then 65 + (c - 65 + Offset(key)) % 26
    else 97 + (c - 97 + Offset(key)) % 26
  }

  function DecodeChar(c: Octet, key: Octet): Octet {
    if !Alpha(c) || !Alpha(key) then c
    else if Upper(c) then 65 + (26 + (c - 65) - Offset(key)) % 26
    else 97 + (26 + (c - 97) - Offset(key)) % 26
  }

  /** The letter after a letter in its case; after the last comes the first. */
  function NextLetter(c: Octet): (r: Octet)
    requires Alpha(c)
    ensures Upper(r) == Upper(c) && Lower(r) == Lower(c)
  {
    if c == 90 then 65 else if c == 122 then 97 else c + 1
  }

  /** The lower-case letter for an upper-case one. */
  function ToLower(c: Octet): Octet {
    if Upper(c) then c + 32 else c
  }

  /** What enciphering a character means, by the alphabet alone: the key letter A leaves it, each
      next key letter gives the next letter of the same case, the case of the key is of no account,
      and what is not a letter, or has no letter for key, stays. */
  lemma KeyLetterMoves(c: Octet, key: Octet)
    ensures !Alpha(c) || !Alpha(key) ==> EncodeChar(c, key) == c
    ensures key in {65, 97} ==> EncodeChar(c, key) == c
    ensures Alpha(c) && Alpha(key) ==> Alpha(EncodeChar(c, key))
    ensures Alpha(c) && Alpha(key) ==> EncodeChar(c, NextLetter(key)) == NextLetter(EncodeChar(c, key))
    ensures EncodeChar(c, key) == EncodeChar(c, ToLower(key))
  {
    NextOffset(key);
    hide Offset;
    if Alpha(c) && Alpha(key) {
      hide NextLetter, ToLower;
      OneOn(if Upper(c) then c - 65 else c - 97, Offset(key));
      NextIsNext(c, key);
    }
  }

  lemma NextIsNext(c: Octet, key: Octet)
    requires Alpha(c) && Alpha(key)
    ensures Alpha(EncodeChar(c, key))
    ensures EncodeChar(c, NextLetter(key)) == NextLetter(EncodeChar(c, key))
  {
    NextOffset(key);
    hide Offset;
    OneOn(if Upper(c) then c - 65 else c - 97, Offset(key));
  }

  lemma NextOffset(key: Octet)
    ensures Alpha(key) ==>
      Offset(NextLetter(key)) == (Offset(key) + 1) % 26 && Offset(ToLower(key)) == Offset(key)
    ensures key in {65, 97} ==> Offset(key) == 0
    ensures Alpha(ToLower(key)) == Alpha(key)
  {
  }

  lemma OneOn(x: nat, n: nat)
    requires x < 26 && n < 26
    ensures (x + (n + 1) % 26) % 26 == if (x + n) % 26 == 25 then 0 else (x + n) % 26 + 1
    ensures n == 0 ==> (x + n) % 26 == x
  {
  }

  /** The key is repeated along the text: each stretch as long as the key is enciphered like the
      first, and within it each character by the key character in its place. */
  lemma KeyRepeats(a: seq<Octet>, b: seq<Octet>, key: seq<Octet>)
    requires key != [] && |a| == |key|
    ensures Encipher(a + b, key) == Encipher(a, key) + Encipher(b, key)
    ensures |Encipher(a, key)| == |a| && forall i :: 0 <= i < |a| ==> Encipher(a, key)[i] == EncodeChar(a[i], key[i])
  {
    hide Encipher, EncodeChar;
    var e, f, g := Encipher(a + b, key), Encipher(a, key), Encipher(b, key);
    EncipherLength(a + b, key); EncipherLength(a, key); EncipherLength(b, key);
    forall i | 0 <= i < |a| ensures e[i] == f[i] == EncodeChar(a[i], key[i]) {
      RemainderUnique(i, 0, i, |key|);
      EncipherAt(a + b, key, i);
      EncipherAt(a, key, i);
    }
    forall i | 0 <= i < |b| ensures e[|a| + i] == g[i] { NextLap(a, b, key, i); }
    assert e == f + g;
  }

  lemma NextLap(a: seq<Octet>, b: seq<Octet>, key: seq<Octet>, i: nat)
    requires key != [] && |a| == |key| && i < |b|
    ensures |Encipher(a + b, key)| == |a| + |b| && |Encipher(b, key)| == |b|
    ensures Encipher(a + b, key)[|a| + i] == Encipher(b, key)[i]
  {
    hide Encipher, EncodeChar;
    EncipherLength(a + b, key); EncipherLength(b, key);
    EncipherAt(a + b, key, |a| + i);
    EncipherAt(b, key, i);
    OneLapOn(|a| + i, |key|);
  }

  lemma EncipherLength(data: seq<Octet>, key: seq<Octet>)
    requires key != []
    ensures |Encipher(data, key)| == |data|
  {
  }

  lemma EncipherAt(data: seq<Octet>, key: seq<Octet>, i: nat)
    requires key != [] && i < |data|
    ensures |Encipher(data, key)| == |data| && Encipher(data, key)[i] == EncodeChar(data[i], key[i % |key|])
  {
  }

  lemma OneLapOn(i: nat, n: nat)
    requires 0 < n <= i
    ensures i % n == (i - n) % n
  {
    RemainderUnique(i, (i - n) / n + 1, (i - n) % n, n);
  }

  lemma CharGoesRound(c: Octet, key: Octet)
    ensures DecodeChar(EncodeChar(c, key), key) == c
  {
    hide Offset;
    if Alpha(c) && Alpha(key) { AroundAndBack(if Upper(c) then c - 65 else c - 97, Offset(key)); }
  }

  /** Round the alphabet and back. */
  lemma AroundAndBack(x: nat, n: nat)
    requires x < 26 && n < 26
    ensures (26 + (x + n) % 26 - n) % 26 == x
  {
    if x + n < 26 {
      assert (x + n) % 26 == x + n;
    } else {
      assert (x + n) % 26 == x + n - 26;
    }
  }

  // ---------------------------------------------------------------- texts

  function Encipher(data: seq<Octet>, key: seq<Octet>): seq<Octet>
    requires key != []
  {
    seq(|data|, i requires 0 <= i < |data| => EncodeChar(data[i], key[i % |key|]))
  }

  function Decipher(data: seq<Octet>, key: seq<Octet>): seq<Octet>
    requires key != []
  {
    seq(|data|, i requires 0 <= i < |data| => DecodeChar(data[i], key[i % |key|]))
  }

  lemma TextGoesRound(data: seq<Octet>, key: seq<Octet>)
    requires key != []
    ensures Decipher(Encipher(data, key), key) == data
  {
    var e := Encipher(data, key);
    var d := Decipher(e, key);
    forall i | 0 <= i < |data| ensures d[i] == data[i] {
      CharGoesRound(data[i], key[i % |key|]);
    }
  }

  // ---------------------------------------------------------------- the operations

  method EncryptLoop(data: seq<Octet>, key: seq<Octet>) returns (r: seq<Octet>)
    requires key != []
    ensures r == Encipher(data, key)
  {
    r := [];
    var i := 0;
    while i < |data|
      invariant 0 <= i <= |data| && r == Encipher(data, key)[..i]
    {
      r := r + [EncodeChar(data[i], key[i % |key|])];
      i := i + 1;
    }
  }

  method DecryptLoop(data: seq<Octet>, key: seq<Octet>) returns (r: seq<Octet>)
    requires key != []
    ensures r == Decipher(data, key)
  {
    r := [];
    var i := 0;
    while i < |data|
      invariant 0 <= i <= |data| && r == Decipher(data, key)[..i]
    {
      r := r + [DecodeChar(data[i], key[i % |key|])];
      i := i + 1;
    }
  }

  /** What is left of a length in a 32-bit word. */
  function Cut(n: nat): (r: nat)
    ensures r <= n && r < 0x1_0000_0000
  {
    n % 0x1_0000_0000
  }

  /** The enciphered text, of which the length given to the encoding is a 32-bit word. */
  function Encrypted(data: seq<Octet>, key: seq<Octet>): string
    requires key != []
  {
    Encode(Encipher(data, key)[..Cut(|data|)])
  }

  /** `encryptStringBasic` with Base64 on. */
  method Encrypt(data: seq<Octet>, key: seq<Octet>) returns (r: string)
    requires key != []
    ensures r == Encrypted(data, key)
  {
    var e := EncryptLoop(data, key);
    r := Base64Encode(e, Cut(|e|));
  }

  /** `decryptStringBasic` with Base64 on. */
  method Decrypt(text: string, key: seq<Octet>) returns (r: seq<Octet>)
    requires key != []
    ensures r == Decipher(Decode(text), key)
    ensures forall data: seq<Octet> :: text == Encrypted(data, key) ==> r == data[..Cut(|data|)]
  {
    var e := Base64Decode(text);
    r := DecryptLoop(e, key);
    forall data: seq<Octet> | text == Encrypted(data, key) ensures r == data[..Cut(|data|)] {
      EncryptionGoesRoundIff(data, key);
    }
  }

  /** For every key that is not empty decryption gives back what the cut length leaves of the data:
      all of it exactly if there are less than 2^32 octets. */
  lemma EncryptionGoesRoundIff(data: seq<Octet>, key: seq<Octet>)
    requires key != []
    ensures Decipher(Decode(Encrypted(data, key)), key) == data[..Cut(|data|)]
    ensures Decipher(Decode(Encrypted(data, key)), key) == data <==> |data| < 0x1_0000_0000
  {
    var front := data[..Cut(|data|)];
    assert Encipher(data, key)[..Cut(|data|)] == Encipher(front, key);
    RoundTrip(Encipher(front, key));
    TextGoesRound(front, key);
  }
}

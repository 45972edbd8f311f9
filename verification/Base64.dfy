/** The Base64 encoding of section 4 of RFC 4648. */
module Base64 {

  type Octet = b: int | 0 <= b < 256

  const UPPER: string := "ABCDEFGHIJKLM" + "NOPQRSTUVWXYZ"
  const LOWER: string := "abcdefghijklm" + "nopqrstuvwxyz"
  const ALPHABET: string := UPPER + LOWER + "0123456789+/"

  predicate InAlphabet(c: char) {
    'A' <= c <= 'Z' || 'a' <= c <= 'z' || '0' <= c <= '9' || c == '+' || c == '/'
  }

  /** The place of a character in the alphabet; any other character gives 255. */
  function Find(c: char): Octet {
    if 'A' <= c <= 'Z' then c as int - 'A' as int
    else if 'a' <= c <= 'z' then c as int - 'a' as int + 26
    else if '0' <= c <= '9' then c as int - '0' as int + 52
    else if c == '+' then 62 else if c == '/' then 63 else 255
  }

  function Letter(x: int): char
    requires 0 <= x < 64
  {
    if x < 26 then ('A' as int + x) as char
    else if x < 52 then ('a' as int + x - 26) as char
    else if x < 62 then ('0' as int + x - 52) as char
    else if x == 62 then '+' else '/'
  }

  lemma LetterFound(x: int)
    requires 0 <= x < 64
    ensures InAlphabet(Letter(x)) && Find(Letter(x)) == x && Letter(x) != '='
  {
  }

  /** The characters taken for letters are exactly those of the table. */
  lemma OnlyLettersAreFound(c: char)
    ensures InAlphabet(c) <==> exists k :: 0 <= k < |ALPHABET| && ALPHABET[k] == c
  {
    LettersAreTheTable();
    if InAlphabet(c) {
      var k := Find(c) as nat;
      assert LetterAt(k) && ALPHABET[k] == c;
    } else {
      forall k | 0 <= k < |ALPHABET| ensures ALPHABET[k] != c {
        assert LetterAt(k);
        LetterFound(k);
      }
    }
  }

  predicate LetterAt(x: int) {
    0 <= x < |ALPHABET| ==> x < 64 && ALPHABET[x] == Letter(x)
  }

  /** `Letter` is the table of the source. */
  lemma LettersAreTheTable()
    ensures |ALPHABET| == 64 && forall x :: LetterAt(x)
  {
  }

  // ---------------------------------------------------------------- groups

  /** Three octets as four groups of six bits. */
  function Sextet(a: Octet, b: Octet, c: Octet, k: nat): (x: int)
    requires k < 4
    ensures 0 <= x < 64
  {
    if k == 0 then a / 4
    else if k == 1 then (a % 4) * 16 + b / 16
    else if k == 2 then (b % 16) * 4 + c / 64
    else c % 64
  }

  /** Four groups of six bits as three octets, each cut to eight bits. */
  function Octets(w: Octet, x: Octet, y: Octet, z: Octet, k: nat): Octet
    requires k < 3
  {
    if k == 0 then (w * 4 + x / 16 % 4) % 256
    else if k == 1 then (x % 16 * 16 + y / 4 % 16) % 256
    else (y % 4 * 64 + z) % 256
  }

  lemma GroupGoesRound(a: Octet, b: Octet, c: Octet)
    ensures var (w, x, y, z) := (Sextet(a, b, c, 0), Sextet(a, b, c, 1), Sextet(a, b, c, 2), Sextet(a, b, c, 3));
      Octets(w, x, y, z, 0) == a && Octets(w, x, y, z, 1) == b && Octets(w, x, y, z, 2) == c
  {
    FirstOctet(a, b);
    SecondOctet(a, b, c);
    ThirdOctet(b, c);
  }

  /** The four groups are the digits to the base 64 of the number of which the three octets are the
      digits to the base 256, the highest first. */
  lemma GroupIsNumber(a: Octet, b: Octet, c: Octet)
    ensures Sextet(a, b, c, 0) * 262144 + Sextet(a, b, c, 1) * 4096 + Sextet(a, b, c, 2) * 64 + Sextet(a, b, c, 3)
            == a * 65536 + b * 256 + c
  {
  }

  lemma FirstOctet(a: Octet, b: Octet)
    ensures (a / 4 * 4 + (a % 4 * 16 + b / 16) / 16 % 4) % 256 == a
  {
    Join(a % 4, b / 16);
  }

  lemma SecondOctet(a: Octet, b: Octet, c: Octet)
    ensures ((a % 4 * 16 + b / 16) % 16 * 16 + (b % 16 * 4 + c / 64) / 4 % 16) % 256 == b
  {
    Join(a % 4, b / 16);
    Join(b % 16, c / 64);
  }

  lemma ThirdOctet(b: Octet, c: Octet)
    ensures ((b % 16 * 4 + c / 64) % 4 * 64 + c % 64) % 256 == c
  {
    Join(b % 16, c / 64);
  }

  /** Bits packed side by side come apart again. */
  lemma Join(q: int, r: int)
    requires 0 <= q < 16 && 0 <= r < 16
    ensures (q * 16 + r) / 16 == q && (q * 16 + r) % 16 == r
    ensures r < 4 ==> (q * 4 + r) / 4 == q && (q * 4 + r) % 4 == r
  {
  }

  function Letters(a: Octet, b: Octet, c: Octet, n: nat): string
    requires n <= 4
  {
    seq(n, k requires 0 <= k < n => Letter(Sextet(a, b, c, k)))
  }

  function Encode(q: seq<Octet>): string {
    if q == [] then ""
    else if |q| == 1 then Letters(q[0], 0, 0, 2) + "=="
    else if |q| == 2 then Letters(q[0], q[1], 0, 3) + "="
    else Letters(q[0], q[1], q[2], 4) + Encode(q[3..])
  }

  /** The characters up to the first that is not of the alphabet. */
  function Body(s: string): string {
    if s == "" || s[0] == '=' || !InAlphabet(s[0]) then "" else [s[0]] + Body(s[1..])
  }

  /** The value of the k-th character of a group; a missing one counts as a zero byte, which is not
      of the alphabet. */
  function ValueAt(s: string, k: nat): Octet {
    if k < |s| then Find(s[k]) else 255
  }

  function OctetAt(s: string, k: nat): Octet
    requires k < 3
  {
    Octets(ValueAt(s, 0), ValueAt(s, 1), ValueAt(s, 2), ValueAt(s, 3), k)
  }

  function Group(s: string, n: nat): seq<Octet>
    requires n <= 3
  {
    seq(n, k requires 0 <= k < n => OctetAt(s, k))
  }

  /** Groups of four characters; what is left over gives one octet less than it has characters. */
  function DecodeBody(s: string): seq<Octet> {
    if |s| >= 4 then Group(s[..4], 3) + DecodeBody(s[4..])
    else if s == "" then []
    else Group(s, |s| - 1)
  }

  function Decode(s: string): seq<Octet> {
    DecodeBody(Body(s))
  }

  // ---------------------------------------------------------------- the round trip

  /** The letters of an encoding, without the padding. */
  function Plain(q: seq<Octet>): string {
    if q == [] then ""
    else if |q| == 1 then Letters(q[0], 0, 0, 2)
    else if |q| == 2 then Letters(q[0], q[1], 0, 3)
    else Letters(q[0], q[1], q[2], 4) + Plain(q[3..])
  }

  lemma {:induction false} BodyOfLetters(s: string, rest: string)
    requires forall k :: 0 <= k < |s| ==> InAlphabet(s[k]) && s[k] != '='
    requires rest == "" || rest[0] == '='
    ensures Body(s + rest) == s
  {
    if s == "" {
      assert s + rest == rest;
    } else {
      assert (s + rest)[1..] == s[1..] + rest;
      BodyOfLetters(s[1..], rest);
    }
  }

  function Padding(n: nat): string {
    if n % 3 == 1 then "==" else if n % 3 == 2 then "=" else ""
  }

  lemma {:induction false} EncodePlain(q: seq<Octet>)
    ensures Encode(q) == Plain(q) + Padding(|q|)
    ensures forall k :: 0 <= k < |Plain(q)| ==> InAlphabet(Plain(q)[k]) && Plain(q)[k] != '='
  {
    LettersAreFine(q);
    if |q| >= 3 {
      EncodePlain(q[3..]);
      var l := Letters(q[0], q[1], q[2], 4);
      assert l + (Plain(q[3..]) + Padding(|q|)) == (l + Plain(q[3..])) + Padding(|q|);
      assert Padding(|q[3..]|) == Padding(|q|);
    }
  }

  /** An encoding is whole groups of four; the padding stands exactly where the letters of the given
      octets end. */
  lemma EncodingIsPadded(q: seq<Octet>, k: nat)
    ensures |Encode(q)| == (|q| + 2) / 3 * 4
    ensures k < |Encode(q)| ==> (Encode(q)[k] == '=' <==> 3 * k >= 4 * |q|)
  {
    hide Encode, Plain, InAlphabet;
    EncodePlain(q);
    PlainLength(q);
    PaddedLength(|q|);
  }

  lemma PaddedLength(n: nat)
    ensures (4 * n + 2) / 3 + |Padding(n)| == (n + 2) / 3 * 4
    ensures forall k :: 3 * k >= 4 * n <==> k >= (4 * n + 2) / 3
  {
    var m := n / 3;
    assert n == 3 * m + n % 3;
  }

  lemma {:induction false} PlainLength(q: seq<Octet>)
    ensures |Plain(q)| == (4 * |q| + 2) / 3
  {
    if |q| >= 3 { PlainLength(q[3..]); }
  }

  lemma LettersAreFine(q: seq<Octet>)
    ensures forall a: Octet, b: Octet, c: Octet, n: nat, k: nat :: k < n <= 4 ==>
      InAlphabet(Letters(a, b, c, n)[k]) && Letters(a, b, c, n)[k] != '='
  {
    forall a: Octet, b: Octet, c: Octet, n: nat, k: nat | k < n <= 4
      ensures InAlphabet(Letters(a, b, c, n)[k]) && Letters(a, b, c, n)[k] != '='
    {
      LetterFound(Sextet(a, b, c, k));
    }
  }

  lemma {:induction false} PlainGoesRound(q: seq<Octet>)
    ensures DecodeBody(Plain(q)) == q
  {
    if |q| >= 3 {
      var l := Letters(q[0], q[1], q[2], 4);
      assert (l + Plain(q[3..]))[..4] == l && (l + Plain(q[3..]))[4..] == Plain(q[3..]);
      GroupDecodes(q[0], q[1], q[2], 3);
      PlainGoesRound(q[3..]);
      assert q == [q[0], q[1], q[2]] + q[3..];
    } else if |q| == 2 {
      GroupDecodes(q[0], q[1], 0, 2);
      assert q == [q[0], q[1]];
    } else if |q| == 1 {
      GroupDecodes(q[0], 0, 0, 1);
      assert q == [q[0]];
    }
  }

  /** Decoding the first n + 1 letters of a group gives its first n octets. */
  lemma GroupDecodes(a: Octet, b: Octet, c: Octet, n: nat)
    requires 1 <= n <= 3
    ensures Group(Letters(a, b, c, n + 1), n) == [a, b, c][..n]
  {
    var s := Letters(a, b, c, n + 1);
    forall k: nat | k < 4 ensures ValueAt(s, k) == if k <= n then Sextet(a, b, c, k) else 255 {
      LetterFound(Sextet(a, b, c, k));
    }
    hide Letters, ValueAt;
    forall k: nat | k < n ensures OctetAt(s, k) == [a, b, c][k] {
      OctetsOf(a, b, c, ValueAt(s, 2), ValueAt(s, 3), n, k);
    }
  }

  /** The k-th octet does not need the later groups of six bits. */
  lemma OctetsOf(a: Octet, b: Octet, c: Octet, y: Octet, z: Octet, n: nat, k: nat)
    requires k < n <= 3 && (n >= 2 ==> y == Sextet(a, b, c, 2)) && (n >= 3 ==> z == Sextet(a, b, c, 3))
    ensures Octets(Sextet(a, b, c, 0), Sextet(a, b, c, 1), y, z, k) == [a, b, c][k]
  {
    GroupGoesRound(a, b, c);
  }

  /** Decoding undoes encoding, for every sequence of octets. */
  lemma RoundTrip(q: seq<Octet>)
    ensures Decode(Encode(q)) == q
  {
    EncodePlain(q);
    BodyOfLetters(Plain(q), Padding(|q|));
    PlainGoesRound(q);
  }

  // ---------------------------------------------------------------- the loops

  /** The first n letters of a group. */
  method PutLetters(three: array<Octet>, n: nat) returns (letters: string)
    requires three.Length == 3 && n <= 4
    ensures letters == Letters(three[0], three[1], three[2], n)
  {
    letters := "";
    var i := 0;
    while i < n
      invariant 0 <= i <= n && letters == Letters(three[0], three[1], three[2], i)
    {
      letters := letters + [Letter(Sextet(three[0], three[1], three[2], i))];
      i := i + 1;
    }
  }

  /** A group that is not full: zeros for the missing octets, then padding. */
  method PutLast(three: array<Octet>, n: nat) returns (letters: string)
    requires three.Length == 3 && 1 <= n <= 2
    modifies three
    ensures letters == Encode(old(three[..n]))
  {
    var j := n;
    while j < 3
      invariant n <= j <= 3 && three[..n] == old(three[..n]) && forall k :: n <= k < j ==> three[k] == 0
    {
      three[j] := 0;
      j := j + 1;
    }
    LastGroup(three[..], n);
    letters := PutLetters(three, n + 1);
    hide Encode, Letters;
    var i := n;
    while i < 3
      invariant n <= i <= 3
      invariant Encode(old(three[..n])) == letters + (if i == 1 then "==" else if i == 2 then "=" else "")
    {
      letters := letters + "=";
      i := i + 1;
    }
  }

  /** The length is a 32-bit word. */
  method Base64Encode(bytes: seq<Octet>, len: nat) returns (ret: string)
    requires len <= |bytes| && len < 0x1_0000_0000
    ensures ret == Encode(bytes[..len])
  {
    hide Encode, Letters, SoFar;
    ret := "";
    var three := new Octet[3](_ => 0);
    var i, next := 0, 0;
    ghost var q := bytes[..len];
    NoneSoFar(q);
    while next < len
      invariant 0 <= i < 3 && 0 <= next <= len && SoFar(q, next, ret, three[..i])
      decreases len - next
    {
      ghost var held := three[..i];
      three[i] := bytes[next];
      assert three[..i + 1] == held + [q[next]];
      OneMore(q, next, ret, held);
      i, next := i + 1, next + 1;
      if i == 3 {
        var letters := PutLetters(three, 4);
        GroupDone(q, next, ret, three[..3]);
        ret := ret + letters;
        i := 0;
      }
    }
    AllSoFar(q, ret, three[..i]);
    if i > 0 {
      var letters := PutLast(three, i);
      ret := ret + letters;
    } else {
      assert three[..0] == [];
    }
  }

  /** `ret` is put out, `held` are the octets of the group begun, the others are still to come. */
  ghost predicate SoFar(q: seq<Octet>, next: nat, ret: string, held: seq<Octet>) {
    next <= |q| && Encode(q) == ret + Encode(held + q[next..])
  }

  lemma NoneSoFar(q: seq<Octet>)
    ensures SoFar(q, 0, "", [])
  {
    assert [] + q[0..] == q;
  }

  lemma OneMore(q: seq<Octet>, next: nat, ret: string, held: seq<Octet>)
    requires SoFar(q, next, ret, held) && next < |q|
    ensures SoFar(q, next + 1, ret, held + [q[next]])
  {
    hide Encode;
    assert held + q[next..] == held + [q[next]] + q[next + 1..];
  }

  lemma GroupDone(q: seq<Octet>, next: nat, ret: string, held: seq<Octet>)
    requires SoFar(q, next, ret, held) && |held| == 3
    ensures SoFar(q, next, ret + Letters(held[0], held[1], held[2], 4), [])
  {
    hide Encode, Letters;
    FullGroup(held, q[next..]);
    Glue(ret, Letters(held[0], held[1], held[2], 4), Encode(q[next..]));
    assert [] + q[next..] == q[next..];
  }

  lemma AllSoFar(q: seq<Octet>, ret: string, held: seq<Octet>)
    requires SoFar(q, |q|, ret, held)
    ensures Encode(q) == ret + Encode(held)
    ensures held == [] ==> Encode(q) == ret
  {
    assert held + q[|q|..] == held;
    assert Encode([]) == "" && ret + "" == ret;
  }

  lemma Glue<T>(a: seq<T>, b: seq<T>, c: seq<T>)
    ensures a + (b + c) == (a + b) + c
  {
  }

  lemma FullGroup(three: seq<Octet>, rest: seq<Octet>)
    requires |three| == 3
    ensures Encode(three + rest) == Letters(three[0], three[1], three[2], 4) + Encode(rest)
  {
    assert (three + rest)[3..] == rest;
  }

  lemma LastGroup(three: seq<Octet>, i: nat)
    requires |three| == 3 && 1 <= i <= 2 && forall k :: i <= k < 3 ==> three[k] == 0
    ensures Encode(three[..i]) == Letters(three[0], three[1], three[2], i + 1) + Padding(i)
  {
  }

  /** The first n octets of a group of which `have` characters are there. */
  method TakeOctets(four: array<char>, have: nat, n: nat) returns (octets: seq<Octet>)
    requires four.Length == 4 && 2 <= have <= 4 && n <= 3
    ensures octets == Group(four[..have], n)
  {
    octets := [];
    var i := 0;
    while i < n
      invariant 0 <= i <= n && octets == Group(four[..have], i)
    {
      var at2 := if have > 2 then Find(four[2]) else 255;
      var at3 := if have > 3 then Find(four[3]) else 255;
      octets := octets + [Octets(Find(four[0]), Find(four[1]), at2, at3, i)];
      i := i + 1;
    }
  }

  method Base64Decode(s: string) returns (ret: seq<Octet>)
    ensures ret == Decode(s)
  {
    hide DecodeBody, Body, Group;
    ret := [];
    var four := new char[4](_ => '=');
    var i, next := 0, 0;
    assert s[0..] == s && four[..0] + Body(s) == Body(s);
    while next < |s| && s[next] != '=' && InAlphabet(s[next])
      invariant 0 <= i < 4 && 0 <= next <= |s|
      invariant Decode(s) == ret + DecodeBody(four[..i] + Body(s[next..]))
      decreases |s| - next
    {
      ghost var before, rest := four[..i] + Body(s[next..]), Body(s[next + 1..]);
      BodyStep(s, next);
      four[i] := s[next];
      assert before == four[..i + 1] + rest;
      i, next := i + 1, next + 1;
      if i == 4 {
        var octets := TakeOctets(four, 4, 3);
        assert four[..4] == four[..];
        FullDecode(four[..], rest);
        Glue(ret, octets, DecodeBody(rest));
        ret := ret + octets;
        i := 0;
        assert four[..0] + rest == rest;
      }
    }
    BodyStep(s, next);
    assert four[..i] + "" == four[..i];
    LastDecode(four[..i]);
    if i > 1 {
      var octets := TakeOctets(four, i, i - 1);
      ret := ret + octets;
    }
  }

  lemma BodyStep(s: string, k: nat)
    requires k <= |s|
    ensures Body(s[k..]) == if k == |s| || s[k] == '=' || !InAlphabet(s[k]) then "" else [s[k]] + Body(s[k + 1..])
  {
    if k < |s| { assert s[k..][1..] == s[k + 1..]; }
  }

  lemma LastDecode(left: string)
    requires |left| < 4
    ensures DecodeBody(left) == if |left| <= 1 then [] else Group(left, |left| - 1)
  {
  }

  lemma FullDecode(four: string, rest: string)
    requires |four| == 4
    ensures DecodeBody(four + rest) == Group(four, 3) + DecodeBody(rest)
  {
    assert (four + rest)[..4] == four && (four + rest)[4..] == rest;
  }
}

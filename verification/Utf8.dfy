/** The UTF-8 conversion of section 2 of RFC 2279, in both directions, with bounded output and
    input that may end in the middle of a character. */
module Utf8 {

  type Octet = b: int | 0 <= b < 256

  /** Characters have 31 bits. */
  type Char = c: int | 0 <= c < 0x8000_0000

  datatype Result = Ok | Partial | Error

  /** What a conversion did: the result, how much input was consumed, what was put out. */
  datatype Converted<T> = Converted(result: Result, consumed: nat, output: seq<T>)

  function Before<T>(consumed: nat, output: seq<T>, c: Converted<T>): Converted<T> {
    Converted(c.result, consumed + c.consumed, output + c.output)
  }

  // ---------------------------------------------------------------- octets

  predicate InvalidLeading(o: Octet) {
    0x7f < o < 0xc0 || o > 0xfd
  }

  predicate InvalidContinuing(o: Octet) {
    o < 0x80 || 0xbf < o
  }

  function OctetCount(lead: Octet): nat {
    if lead <= 0x7f then 1
    else if 0xc0 <= lead <= 0xdf then 2
    else if 0xe0 <= lead <= 0xef then 3
    else if 0xf0 <= lead <= 0xf7 then 4
    else if 0xf8 <= lead <= 0xfb then 5
    else 6
  }

  function ContinuingOut(c: Char): (k: nat)
    ensures k <= 5
  {
    if c < 0x80 then 0 else if c < 0x800 then 1 else if c < 0x10000 then 2
    else if c < 0x200000 then 3 else if c < 0x4000000 then 4 else 5
  }

  /** What marks the first octet of a character of 1 + k octets. */
  function Marker(k: nat): (m: Octet) {
    if k == 0 then 0x00 else if k == 1 then 0xc0 else if k == 2 then 0xe0
    else if k == 3 then 0xf0 else if k == 4 then 0xf8 else 0xfc
  }

  /** The character without its lowest k groups of six bits. */
  function Shift6(c: nat, k: nat): nat {
    if k == 0 then c else Shift6(c, k - 1) / 64
  }

  // ---------------------------------------------------------------- one character

  /** The last k octets of a character. */
  function Continuing(c: Char, k: nat): seq<Octet> {
    if k == 0 then [] else [0x80 + Shift6(c, k - 1) % 64] + Continuing(c, k - 1)
  }

  function Encode(c: Char): seq<Octet> {
    LeadFits(c);
    var k := ContinuingOut(c);
    [Marker(k) + Shift6(c, k)] + Continuing(c, k)
  }

  datatype Decoded = Bad(at: nat) | Short | Good(code: Char, length: nat)

  /** What comes before `need` more groups of six bits stays below this, so 31 bits suffice. */
  function Limit(need: nat): nat {
    if need == 0 then 0x8000_0000 else if need == 1 then 0x200_0000 else if need == 2 then 0x8_0000
    else if need == 3 then 0x2000 else if need == 4 then 0x80 else 2
  }

  /** Take in `need` more octets from position `at` on; `code` is what came so far. */
  function DecodeRest(q: seq<Octet>, at: nat, need: nat, code: nat): Decoded
    requires at <= |q| && need <= 5 && code < Limit(need)
    decreases need
  {
    if need == 0 then Good(code, at)
    else if at == |q| then Short
    else if InvalidContinuing(q[at]) then Bad(at)
    else DecodeRest(q, at + 1, need - 1, code * 64 + (q[at] - 0x80))
  }

  function Decode(q: seq<Octet>): Decoded
    requires q != []
  {
    if InvalidLeading(q[0]) then Bad(0)
    else
      var k := OctetCount(q[0]) - 1;
      DecodeRest(q, 1, k, q[0] - Marker(k))
  }

  // ---------------------------------------------------------------- a whole run

  /** Convert octets to at most `room` characters. */
  function DoIn(q: seq<Octet>, room: nat): Converted<Char>
    decreases room
  {
    if q == [] then Converted(Ok, 0, [])
    else if room == 0 then Converted(Partial, 0, [])
    else
      match Decode(q)
      case Bad(at) => Converted(Error, at, [])
      case Short => Converted(Partial, 0, [])
      case Good(c, n) => if n <= |q| then Before(n, [c], DoIn(q[n..], room - 1)) else Converted(Partial, 0, [])
  }

  /** Convert characters to at most `room` octets; a character is put out whole or not at all. */
  function DoOut(s: seq<Char>, room: nat): Converted<Octet>
    decreases |s|
  {
    if s == [] then Converted(Ok, 0, [])
    else if room == 0 || |Encode(s[0])| > room then Converted(Partial, 0, [])
    else Before(1, Encode(s[0]), DoOut(s[1..], room - |Encode(s[0])|))
  }

  function EncodeAll(s: seq<Char>): seq<Octet> {
    if s == [] then [] else Encode(s[0]) + EncodeAll(s[1..])
  }

  // ---------------------------------------------------------------- a character goes round

  /** The first octet carries what six bits for each further octet leave, and its value tells how
      many further octets there are. */
  lemma LeadFits(c: Char)
    ensures var k := ContinuingOut(c);
      && Marker(k) + Shift6(c, k) < 256 && OctetCount(Marker(k) + Shift6(c, k)) == k + 1
      && !InvalidLeading(Marker(k) + Shift6(c, k))
  {
    assert Shift6(c, 0) == c && Shift6(c, 1) == c / 64;
    assert Shift6(c, 2) == Shift6(c, 1) / 64 && Shift6(c, 3) == Shift6(c, 2) / 64;
    assert Shift6(c, 4) == Shift6(c, 3) / 64 && Shift6(c, 5) == Shift6(c, 4) / 64;
  }

  lemma {:induction false} ContinuingLength(c: Char, k: nat)
    ensures |Continuing(c, k)| == k
  {
    if k > 0 { ContinuingLength(c, k - 1); }
  }

  /** Taking in the last k octets of a character restores its lower bits. */
  lemma {:induction false} RestGoesRound(c: Char, k: nat, q: seq<Octet>, at: nat)
    requires at + k <= |q| && q[at..at + k] == Continuing(c, k) && k <= 5
    requires Shift6(c, k) < Limit(k)
    ensures DecodeRest(q, at, k, Shift6(c, k)) == Good(c, at + k)
    decreases k
  {
    if k > 0 {
      var o := q[at];
      assert q[at..at + k][0] == o && q[at..at + k][1..] == q[at + 1..at + k];
      assert Continuing(c, k)[1..] == Continuing(c, k - 1);
      assert o == 0x80 + Shift6(c, k - 1) % 64;
      assert Shift6(c, k) * 64 + (o - 0x80) == Shift6(c, k - 1);
      RestGoesRound(c, k - 1, q, at + 1);
    }
  }

  /** Decoding what encoding put out gives the character back, whatever follows. */
  lemma CharGoesRound(c: Char, rest: seq<Octet>)
    ensures Decode(Encode(c) + rest) == Good(c, |Encode(c)|)
  {
    var k := ContinuingOut(c);
    LeadFits(c);
    ContinuingLength(c, k);
    var q := Encode(c) + rest;
    assert q[0] == Marker(k) + Shift6(c, k);
    assert q[1..1 + k] == Continuing(c, k);
    RestGoesRound(c, k, q, 1);
  }

  /** How many characters fit in six bits for each of k further octets and what the first has left. */
  function Capacity(k: nat): nat {
    if k == 0 then 0x80 else if k == 1 then 0x20 * 64 else if k == 2 then 0x10 * 64 * 64
    else if k == 3 then 8 * 64 * 64 * 64 else if k == 4 then 4 * 64 * 64 * 64 * 64 else 2 * 64 * 64 * 64 * 64 * 64
  }

  function Pow64(k: nat): nat {
    if k == 0 then 1 else 64 * Pow64(k - 1)
  }

  lemma {:induction false} RestBelow(q: seq<Octet>, at: nat, need: nat, code: nat, bound: nat)
    requires at <= |q| && need <= 5 && code < Limit(need) && code < bound
    ensures var d := DecodeRest(q, at, need, code);
      d.Good? ==> d.length == at + need && d.code < bound * Pow64(need)
    decreases need
  {
    if need > 0 && at < |q| && !InvalidContinuing(q[at]) {
      RestBelow(q, at + 1, need - 1, code * 64 + (q[at] - 0x80), bound * 64);
      assert bound * 64 * Pow64(need - 1) == bound * (64 * Pow64(need - 1));
    }
  }

  /** The first octet of 1 + k holds less than this. */
  lemma LeadBelow(o: Octet)
    requires !InvalidLeading(o)
    ensures var k := OctetCount(o) - 1;
      && k <= 5 && Marker(k) <= o && o - Marker(k) < Limit(k)
      && (o - Marker(k) + 1) * Pow64(k) <= Capacity(k)
  {
    assert Pow64(5) == 64 * Pow64(4) && Pow64(4) == 64 * Pow64(3) && Pow64(3) == 64 * Pow64(2);
    assert Pow64(2) == 64 * Pow64(1) && Pow64(1) == 64 * Pow64(0);
  }

  /** Encoding gives the shortest octets that decode to the character. */
  lemma EncodingIsShortest(q: seq<Octet>)
    requires q != [] && Decode(q).Good?
    ensures Decode(q).code < 0x8000_0000 && |Encode(Decode(q).code)| <= Decode(q).length
  {
    LeadBelow(q[0]);
    var k := OctetCount(q[0]) - 1;
    var lead := q[0] - Marker(k);
    RestBelow(q, 1, k, lead, lead + 1);
    EncodeLength(Decode(q).code);
  }

  /** Decoding undoes encoding, for all texts of characters below 2^31. */
  lemma {:induction false} TextGoesRound(s: seq<Char>, room: nat)
    requires room >= |s|
    ensures DoIn(EncodeAll(s), room) == Converted(Ok, |EncodeAll(s)|, s)
    decreases |s|
  {
    if s != [] {
      var e, others := Encode(s[0]), EncodeAll(s[1..]);
      assert EncodeAll(s) == e + others;
      hide *;
      CharGoesRound(s[0], others);
      EncodeLength(s[0]);
      InFirst(e + others, room);
      TextGoesRound(s[1..], room - 1);
      OneBefore(s, e, others);
    }
  }

  lemma OneBefore(s: seq<Char>, e: seq<Octet>, others: seq<Octet>)
    requires s != []
    ensures (e + others)[|e|..] == others
    ensures Before(|e|, [s[0]], Converted(Ok, |others|, s[1..])) == Converted(Ok, |e + others|, s)
  {
  }

  /** With room for all of it a text is put out in full. */
  lemma {:induction false} OutPutsAll(s: seq<Char>, room: nat)
    requires room >= |EncodeAll(s)|
    ensures DoOut(s, room) == Converted(Ok, |s|, EncodeAll(s))
    decreases |s|
  {
    if s != [] { OutPutsAll(s[1..], room - |Encode(s[0])|); }
  }

  // ---------------------------------------------------------------- cutting and resuming

  /** What an octet sequence decodes to does not depend on what follows, unless it is too short. */
  lemma {:induction false} RestStable(a: seq<Octet>, b: seq<Octet>, at: nat, need: nat, code: nat)
    requires at <= |a| && need <= 5 && code < Limit(need)
    ensures var d := DecodeRest(a, at, need, code);
      && (!d.Short? ==> DecodeRest(a + b, at, need, code) == d)
      && (d.Good? ==> at <= d.length <= |a|)
      && (d.Bad? ==> at <= d.at < |a|)
    decreases need
  {
    if need > 0 && at < |a| && !InvalidContinuing(a[at]) {
      RestStable(a, b, at + 1, need - 1, code * 64 + (a[at] - 0x80));
    }
  }

  lemma DecodeStable(a: seq<Octet>, b: seq<Octet>)
    requires a != []
    ensures var d := Decode(a);
      && (!d.Short? ==> Decode(a + b) == d)
      && (d.Good? ==> 1 <= d.length <= |a|)
      && (d.Bad? ==> d.at < |a|)
  {
    if !InvalidLeading(a[0]) {
      var k := OctetCount(a[0]) - 1;
      RestStable(a, b, 1, k, a[0] - Marker(k));
    }
  }

  /** How many octets settle what the first character is. */
  function End(d: Decoded): nat {
    match d
    case Bad(at) => at + 1
    case Short => 0
    case Good(_, n) => n
  }

  lemma {:induction false} RestEnds(q: seq<Octet>, at: nat, need: nat, code: nat)
    requires at <= |q| && need <= 5 && code < Limit(need)
    ensures var d := DecodeRest(q, at, need, code);
      !d.Short? ==> at <= End(d) <= |q| && DecodeRest(q[..End(d)], at, need, code) == d
    decreases need
  {
    if need > 0 && at < |q| && !InvalidContinuing(q[at]) {
      RestEnds(q, at + 1, need - 1, code * 64 + (q[at] - 0x80));
    }
  }

  lemma DecodeEnds(q: seq<Octet>)
    requires q != [] && !Decode(q).Short?
    ensures 0 < End(Decode(q)) <= |q| && Decode(q[..End(Decode(q))]) == Decode(q)
  {
    if !InvalidLeading(q[0]) {
      var n := OctetCount(q[0]) - 1;
      RestEnds(q, 1, n, q[0] - Marker(n));
    }
  }

  /** Octets that are too few to tell the first character are a beginning of one. */
  lemma DecodeCut(q: seq<Octet>, k: nat)
    requires 0 < k <= |q| && !Decode(q).Short?
    ensures Decode(q[..k]) == if k < End(Decode(q)) then Short else Decode(q)
  {
    hide Decode;
    var a, e := q[..k], End(Decode(q));
    DecodeEnds(q);
    assert q == a + q[k..];
    DecodeStable(a, q[k..]);
    if e <= k {
      assert a == q[..e] + a[e..];
      DecodeStable(q[..e], a[e..]);
    }
  }

  /** A run that ends in an error stands at the first octet that makes it one: what comes before it
      is no error by itself, with that octet it is. */
  lemma {:induction false} ErrorIsFirst(q: seq<Octet>, room: nat, k: nat)
    requires DoIn(q, room).result == Error && k <= |q|
    ensures DoIn(q, room).consumed < |q|
    ensures DoIn(q[..k], room).result == Error <==> k > DoIn(q, room).consumed
    decreases room
  {
    hide Decode, DoIn;
    if q == [] || room == 0 {
      InNothing(q, room);
      assert false;
    }
    assert q + [] == q;
    DecodeStable(q, []);
    InFirst(q, room);
    if k == 0 {
      InNothing(q[..0], room);
    } else if !Decode(q).Short? {
      DecodeCut(q, k);
      InFirst(q[..k], room);
    }
    if Decode(q).Good? {
      var n := Decode(q).length;
      ErrorIsFirst(q[n..], room - 1, if k >= n then k - n else 0);
      if k >= n { assert q[..k][n..] == q[n..][..k - n]; }
    }
  }

  lemma BeforeTwice<T>(n: nat, x: seq<T>, m: nat, y: seq<T>, c: Converted<T>)
    ensures Before(n, x, Before(m, y, c)) == Before(n + m, x + y, c)
  {
    assert x + (y + c.output) == (x + y) + c.output;
  }

  /** A run goes on from where an earlier one stopped, if that was not an error. */
  function Resume(run: Converted<Char>, q: seq<Octet>, room: nat): Converted<Char>
    requires run.consumed <= |q| && |run.output| <= room
  {
    if run.result == Error then run
    else Before(run.consumed, run.output, DoIn(q[run.consumed..], room - |run.output|))
  }

  lemma DropTwice<T>(a: seq<T>, b: seq<T>, n: nat, m: nat)
    requires n <= |a| && m <= |a| - n
    ensures (a + b)[n..] == a[n..] + b && (a[n..] + b)[m..] == (a + b)[n + m..]
  {
  }

  /** Cutting the input after a, and the room to `first`, and going on from where that run stopped
      gives what one run gives; an error is the same error. */
  lemma {:induction false} InRestarts(a: seq<Octet>, b: seq<Octet>, first: nat, room: nat)
    requires first <= room
    ensures var run := DoIn(a, first);
      run.consumed <= |a| && |run.output| <= first && DoIn(a + b, room) == Resume(run, a + b, room)
    decreases first
  {
    hide Decode, DoIn, Resume;
    if a == [] || first == 0 {
      InNothing(a, first);
      NothingBefore(a + b, room);
    } else {
      DecodeStable(a, b);
      InFirst(a, first);
      InFirst(a + b, room);
      match Decode(a)
      case Bad(at) => ErrorStays(DoIn(a, first), a + b, room);
      case Short => NothingBefore(a + b, room);
      case Good(c, n) =>
        InRestarts(a[n..], b, first - 1, room - 1);
        DropTwice(a, b, n, DoIn(a[n..], first - 1).consumed);
        ResumeLater(DoIn(a[n..], first - 1), a, b, room, c, n);
    }
  }

  lemma InNothing(q: seq<Octet>, room: nat)
    requires q == [] || room == 0
    ensures DoIn(q, room) == Converted(if q == [] then Ok else Partial, 0, [])
  {
  }

  /** The first step of a run. */
  lemma InFirst(q: seq<Octet>, room: nat)
    requires q != [] && room > 0
    ensures match Decode(q)
      case Bad(at) => DoIn(q, room) == Converted(Error, at, [])
      case Short => DoIn(q, room) == Converted(Partial, 0, [])
      case Good(c, n) => n <= |q| ==> DoIn(q, room) == Before(n, [c], DoIn(q[n..], room - 1))
  {
  }

  lemma ErrorStays(run: Converted<Char>, q: seq<Octet>, room: nat)
    requires run.consumed <= |q| && |run.output| <= room && run.result == Error
    ensures Resume(run, q, room) == run
  {
  }

  lemma NothingBefore(q: seq<Octet>, room: nat)
    ensures Resume(Converted(Ok, 0, []), q, room) == Resume(Converted(Partial, 0, []), q, room) == DoIn(q, room)
  {
    hide DoIn;
    assert q[0..] == q;
    var c := DoIn(q, room);
    assert [] + c.output == c.output;
  }

  lemma ResumeLater(run: Converted<Char>, a: seq<Octet>, b: seq<Octet>, room: nat, c: Char, n: nat)
    requires n <= |a| && run.consumed <= |a| - n && |run.output| < room
    ensures Before(n, [c], Resume(run, a[n..] + b, room - 1)) == Resume(Before(n, [c], run), a + b, room)
  {
    hide DoIn;
    DropTwice(a, b, n, run.consumed);
    if run.result != Error {
      BeforeTwice(n, [c], run.consumed, run.output, DoIn((a + b)[n + run.consumed..], room - 1 - |run.output|));
    }
  }

  function ResumeOut(run: Converted<Octet>, s: seq<Char>, room: nat): Converted<Octet>
    requires run.consumed <= |s| && |run.output| <= room
  {
    Before(run.consumed, run.output, DoOut(s[run.consumed..], room - |run.output|))
  }

  /** The same for putting out, which never ends in an error. */
  lemma {:induction false} OutRestarts(a: seq<Char>, b: seq<Char>, first: nat, room: nat)
    requires first <= room
    ensures var run := DoOut(a, first);
      && run.consumed <= |a| && |run.output| <= first && run.result != Error
      && DoOut(a + b, room) == ResumeOut(run, a + b, room)
    decreases |a|
  {
    hide Encode, DoOut, ResumeOut;
    OutStep(a, first);
    if a == [] || |Encode(a[0])| > first {
      NothingBeforeOut(a + b, room);
    } else {
      var e := Encode(a[0]);
      assert (a + b)[0] == a[0];
      OutStep(a + b, room);
      OutRestarts(a[1..], b, first - |e|, room - |e|);
      DropTwice(a, b, 1, 0);
      ResumeOutLater(DoOut(a[1..], first - |e|), a, b, room, e);
    }
  }

  lemma NothingBeforeOut(s: seq<Char>, room: nat)
    ensures ResumeOut(Converted(Ok, 0, []), s, room) == ResumeOut(Converted(Partial, 0, []), s, room) == DoOut(s, room)
  {
    hide DoOut;
    assert s[0..] == s;
    var c := DoOut(s, room);
    assert [] + c.output == c.output;
  }

  lemma ResumeOutLater(run: Converted<Octet>, a: seq<Char>, b: seq<Char>, room: nat, e: seq<Octet>)
    requires a != [] && run.consumed <= |a| - 1 && |run.output| + |e| <= room
    ensures Before(1, e, ResumeOut(run, a[1..] + b, room - |e|)) == ResumeOut(Before(1, e, run), a + b, room)
  {
    hide DoOut;
    DropTwice(a, b, 1, run.consumed);
    BeforeTwice(1, e, run.consumed, run.output, DoOut((a + b)[1 + run.consumed..], room - |e| - |run.output|));
  }

  // ---------------------------------------------------------------- the conversion loops

  /** One character: the first octet, then the further octets one by one.  `d` says at which octet
      it went wrong, that the input ended, or the character and where it ends. */
  method ReadOne(q: seq<Octet>) returns (d: Decoded)
    requires q != []
    ensures d == Decode(q)
  {
    hide DecodeRest, Decode, OctetCount, Marker, Limit, InvalidLeading;
    LeadStep(q);
    if InvalidLeading(q[0]) {
      return Bad(0);
    }
    var count := OctetCount(q[0]) - 1;
    var ucs: nat := q[0] - Marker(count);
    var from, i := 1, 0;
    RestStep(q, 1, count, ucs);
    while i != count && from != |q|
      invariant 0 <= i <= count && from == 1 + i <= |q| && ucs < Limit(count - i)
      invariant Decode(q) == DecodeRest(q, from, count - i, ucs)
      decreases count - i
    {
      RestStep(q, from, count - i, ucs);
      if InvalidContinuing(q[from]) {
        return Bad(from);
      }
      ucs := ucs * 64 + (q[from] - 0x80);
      from, i := from + 1, i + 1;
    }
    RestStep(q, from, count - i, ucs);
    d := if i != count then Short else Good(ucs, from);
  }

  lemma LeadStep(q: seq<Octet>)
    requires q != []
    ensures InvalidLeading(q[0]) ==> Decode(q) == Bad(0)
    ensures var k := OctetCount(q[0]) - 1;
      !InvalidLeading(q[0]) ==>
        0 <= k <= 5 && Marker(k) <= q[0] && q[0] - Marker(k) < Limit(k)
          && Decode(q) == DecodeRest(q, 1, k, q[0] - Marker(k))
  {
    hide DecodeRest;
  }

  /** Read octets, fill an array of characters; `fromNext` and `toNext` say how far it came. */
  method ConvertIn(from: seq<Octet>, target: array<Char>) returns (result: Result, fromNext: nat, toNext: nat)
    modifies target
    ensures toNext <= target.Length
    ensures DoIn(from, target.Length) == Converted(result, fromNext, target[..toNext])
  {
    fromNext, toNext := 0, 0;
    hide DoIn, Decode, Before, InSoFar;
    InStarts(from, target.Length);
    while fromNext < |from| && toNext < target.Length
      invariant fromNext <= |from| && toNext <= target.Length
      invariant InSoFar(from, target.Length, fromNext, target[..toNext])
      decreases target.Length - toNext
    {
      ghost var done := target[..toNext];
      InGoesOn(from, target.Length, fromNext, done);
      var d := ReadOne(from[fromNext..]);
      match d
      case Bad(at) =>
        return Error, fromNext + at, toNext;
      case Short =>
        return Partial, fromNext, toNext;
      case Good(c, n) =>
        target[toNext] := c;
        assert target[..toNext + 1] == done + [c];
        fromNext, toNext := fromNext + n, toNext + 1;
    }
    InStops(from, target.Length, fromNext, target[..toNext]);
    result := if fromNext == |from| then Ok else Partial;
  }

  /** k octets in and `done` put out, the run goes on with the rest. */
  ghost predicate InSoFar(s: seq<Octet>, room: nat, k: nat, done: seq<Char>) {
    && k <= |s| && |done| <= room
    && DoIn(s, room) == Before(k, done, DoIn(s[k..], room - |done|))
  }

  lemma InStarts(s: seq<Octet>, room: nat)
    ensures InSoFar(s, room, 0, [])
  {
    hide DoIn;
    assert s[0..] == s;
    var c := DoIn(s, room);
    assert [] + c.output == c.output;
  }

  /** One character more, or the end at a wrong or cut one. */
  lemma InGoesOn(s: seq<Octet>, room: nat, k: nat, done: seq<Char>)
    requires InSoFar(s, room, k, done) && k < |s| && |done| < room
    ensures match Decode(s[k..])
      case Bad(at) => DoIn(s, room) == Converted(Error, k + at, done)
      case Short => DoIn(s, room) == Converted(Partial, k, done)
      case Good(c, n) => 0 < n <= |s| - k && InSoFar(s, room, k + n, done + [c])
  {
    hide DoIn, Decode;
    InFirst(s[k..], room - |done|);
    DecodeStable(s[k..], []);
    assert done + [] == done;
    match Decode(s[k..])
    case Bad(_) =>
    case Short =>
    case Good(c, n) =>
      assert s[k..][n..] == s[k + n..];
      BeforeTwice(k, done, n, [c], DoIn(s[k + n..], room - |done| - 1));
  }

  lemma InStops(s: seq<Octet>, room: nat, k: nat, done: seq<Char>)
    requires InSoFar(s, room, k, done) && (k == |s| || |done| == room)
    ensures DoIn(s, room) == Converted(if k == |s| then Ok else Partial, k, done)
  {
    hide DoIn;
    InNothing(s[k..], room - |done|);
    assert done + [] == done;
  }

  lemma RestStep(q: seq<Octet>, at: nat, need: nat, code: nat)
    requires at <= |q| && need <= 5 && code < Limit(need)
    ensures need == 0 ==> DecodeRest(q, at, need, code) == Good(code, at)
    ensures need > 0 && at == |q| ==> DecodeRest(q, at, need, code).Short?
    ensures need > 0 && at < |q| && InvalidContinuing(q[at]) ==> DecodeRest(q, at, need, code) == Bad(at)
    ensures need > 0 && at < |q| && !InvalidContinuing(q[at]) ==>
      var c := code * 64 + (q[at] - 0x80);
      c < Limit(need - 1) && DecodeRest(q, at, need, code) == DecodeRest(q, at + 1, need - 1, c)
  {
  }

  /** One character into the array, as far as there is room; `end` is where it stopped. */
  method WriteOne(c: Char, target: array<Octet>, start: nat) returns (end: nat)
    requires start < target.Length
    modifies target
    ensures start < end <= target.Length && target[..start] == old(target[..start])
    ensures end == if start + |Encode(c)| <= target.Length then start + |Encode(c)| else target.Length
    ensures target[start..end] == Encode(c)[..end - start]
  {
    hide Encode;
    var count := ContinuingOut(c);
    LeadFits(c);
    EncodeParts(c);
    ghost var e := Encode(c);
    target[start] := Marker(count) + Shift6(c, count);
    var i := 0;
    end := start + 1;
    while i != count && end != target.Length
      invariant 0 <= i <= count && end == start + 1 + i <= target.Length
      invariant target[..start] == old(target[..start])
      invariant target[start..end] == e[..1 + i]
      decreases count - i
    {
      assert OctetAt(c, i);
      target[end] := 0x80 + Shift6(c, count - i - 1) % 64;
      assert target[start..end + 1] == target[start..end] + [e[1 + i]];
      i, end := i + 1, end + 1;
    }
  }

  /** Read characters, fill an array of octets.  Behind `toNext` the array may hold the start of a
      character that did not fit. */
  method ConvertOut(from: seq<Char>, target: array<Octet>) returns (result: Result, fromNext: nat, toNext: nat)
    modifies target
    ensures toNext <= target.Length
    ensures DoOut(from, target.Length) == Converted(result, fromNext, target[..toNext])
  {
    fromNext, toNext := 0, 0;
    hide DoOut, Encode, Before, OutSoFar;
    OutStarts(from, target.Length);
    while fromNext < |from| && toNext < target.Length
      invariant fromNext <= |from| && toNext <= target.Length
      invariant OutSoFar(from, target.Length, fromNext, target[..toNext])
      decreases |from| - fromNext
    {
      ghost var done := target[..toNext];
      EncodeLength(from[fromNext]);
      var end := WriteOne(from[fromNext], target, toNext);
      if end - toNext < 1 + ContinuingOut(from[fromNext]) {
        OutStops(from, target.Length, fromNext, done);
        return Partial, fromNext, toNext;
      }
      OutGoesOn(from, target.Length, fromNext, done, target[..], end);
      fromNext, toNext := fromNext + 1, end;
    }
    OutStops(from, target.Length, fromNext, target[..toNext]);
    result := if fromNext == |from| then Ok else Partial;
  }

  lemma EncodeLength(c: Char)
    ensures |Encode(c)| == 1 + ContinuingOut(c)
  {
    EncodeParts(c);
  }

  /** k characters in and `done` put out, the run goes on with the rest. */
  ghost predicate OutSoFar(s: seq<Char>, room: nat, k: nat, done: seq<Octet>) {
    && k <= |s| && |done| <= room
    && DoOut(s, room) == Before(k, done, DoOut(s[k..], room - |done|))
  }

  lemma OutStarts(s: seq<Char>, room: nat)
    ensures OutSoFar(s, room, 0, [])
  {
    hide DoOut;
    assert s[0..] == s;
    var c := DoOut(s, room);
    assert [] + c.output == c.output;
  }

  /** One character more: its octets stand behind what is done. */
  lemma OutGoesOn(s: seq<Char>, room: nat, k: nat, done: seq<Octet>, t: seq<Octet>, end: nat)
    requires OutSoFar(s, room, k, done) && k < |s| && end <= |t| <= room
    requires end == |done| + |Encode(s[k])| && t[..|done|] == done && t[|done|..end] == Encode(s[k])
    ensures OutSoFar(s, room, k + 1, t[..end])
  {
    hide DoOut, Encode;
    OutStep(s[k..], room - |done|);
    var e := Encode(s[k]);
    assert t[..end] == done + e;
    assert s[k..][1..] == s[k + 1..];
    BeforeTwice(k, done, 1, e, DoOut(s[k + 1..], room - |done| - |e|));
  }

  /** No further character, or no room for it. */
  lemma OutStops(s: seq<Char>, room: nat, k: nat, done: seq<Octet>)
    requires OutSoFar(s, room, k, done) && (k < |s| ==> |done| + |Encode(s[k])| > room)
    ensures DoOut(s, room) == Converted(if k == |s| then Ok else Partial, k, done)
  {
    hide DoOut, Encode;
    OutStep(s[k..], room - |done|);
    assert done + [] == done;
  }

  lemma OutStep(s: seq<Char>, room: nat)
    ensures s == [] ==> DoOut(s, room) == Converted(Ok, 0, [])
    ensures s != [] && |Encode(s[0])| > room ==> DoOut(s, room) == Converted(Partial, 0, [])
    ensures s != [] && |Encode(s[0])| <= room ==>
      DoOut(s, room) == Before(1, Encode(s[0]), DoOut(s[1..], room - |Encode(s[0])|))
    ensures s != [] ==> |Encode(s[0])| > 0
  {
    if s != [] { assert |Encode(s[0])| > 0; }
    hide Encode;
  }

  /** The octets of a character one by one. */
  lemma EncodeParts(c: Char)
    ensures var e, k := Encode(c), ContinuingOut(c);
      && |e| == 1 + k && e[0] == Marker(k) + Shift6(c, k)
      && forall i: nat :: i < k ==> OctetAt(c, i)
  {
    var k := ContinuingOut(c);
    ContinuingParts(c, k);
    forall i: nat | i < k ensures OctetAt(c, i) {
      assert Encode(c)[1 + i] == Continuing(c, k)[i];
    }
  }

  ghost predicate OctetAt(c: Char, i: nat) {
    var k := ContinuingOut(c);
    i < k ==> |Encode(c)| == 1 + k && Encode(c)[1 + i] == 0x80 + Shift6(c, k - i - 1) % 64
  }

  lemma {:induction false} ContinuingParts(c: Char, k: nat)
    ensures |Continuing(c, k)| == k && forall i :: 0 <= i < k ==>
      Continuing(c, k)[i] == 0x80 + Shift6(c, k - i - 1) % 64
  {
    if k > 0 {
      ContinuingParts(c, k - 1);
      assert forall i :: 0 < i < k ==> Continuing(c, k)[i] == Continuing(c, k - 1)[i - 1];
    }
  }
}

/** The byte buffer, plain or circular, of fixed size or growing on demand, updated in place; it
    holds a queue of bytes. */
module ByteBuffers {
  import opened Wrappers
  import opened Bits
  import opened BitTrick

  type Byte = b: int | 0 <= b < 256

  // ---------------------------------------------------------------- positions and contents

  /** The bytes between the read and the write position, going round the end if need be. */
  function Window(d: seq<Byte>, r: nat, w: nat): seq<Byte>
    requires r <= |d| && w <= |d|
  {
    if w < r then d[r..] + d[..w] else d[r..w]
  }

  /** `source` stored from `position` on, going round the end if need be. */
  function Put(d: seq<Byte>, position: nat, source: seq<Byte>): seq<Byte>
    requires position <= |d| && |source| <= |d|
  {
    var k := |d| - position;
    if |source| <= k then d[..position] + source + d[position + |source|..]
    else source[k..] + d[|source| - k..position] + source[..k]
  }

  function Get(d: seq<Byte>, position: nat, size: nat): seq<Byte>
    requires position <= |d| && size <= |d|
  {
    if position + size <= |d| then d[position..position + size] else d[position..] + d[..position + size - |d|]
  }

  function Advance(position: nat, bytes: nat, length: nat): nat {
    if position + bytes >= length then position + bytes - length else position + bytes
  }

  lemma PutLength(d: seq<Byte>, position: nat, source: seq<Byte>)
    requires position <= |d| && |source| <= |d|
    ensures |Put(d, position, source)| == |d|
  {
  }

  /** Storing round the end, in two pieces. */
  lemma PutRound(d: seq<Byte>, position: nat, source: seq<Byte>)
    requires position <= |d| && |source| <= |d| && position + |source| > |d|
    ensures var k := |d| - position;
      var d1 := d[..position] + source[..k];
      source[k..] + d1[|source| - k..] == Put(d, position, source)
  {
    var k := |d| - position;
    var d1 := d[..position] + source[..k];
    assert d1[|source| - k..] == d[|source| - k..position] + source[..k];
  }

  /** Writing behind the contents of a circular store appends to them. */
  lemma WriteAppends(d: seq<Byte>, r: nat, w: nat, source: seq<Byte>)
    requires r < |d| && w < |d| && |Window(d, r, w)| + |source| < |d|
    ensures var (d', w') := (Put(d, w, source), Advance(w, |source|, |d|));
      |d'| == |d| && w' < |d| && Window(d', r, w') == Window(d, r, w) + source
  {
    var d', w' := Put(d, w, source), Advance(w, |source|, |d|);
    PutLength(d, w, source);
    if w < r { WriteLow(d, r, w, source); }
    else if w + |source| < |d| { WriteHigh(d, r, w, source); }
    else { WriteRound(d, r, w, source); }
  }

  lemma WriteLow(d: seq<Byte>, r: nat, w: nat, source: seq<Byte>)
    requires w < r < |d| && |d| - r + w + |source| < |d|
    ensures var d' := d[..w] + source + d[w + |source|..];
      d'[r..] + d'[..w + |source|] == (d[r..] + d[..w]) + source
  {
    var d' := d[..w] + source + d[w + |source|..];
    assert d'[..w + |source|] == d[..w] + source;
    assert d'[r..] == d[r..];
  }

  lemma WriteHigh(d: seq<Byte>, r: nat, w: nat, source: seq<Byte>)
    requires r <= w && w + |source| < |d|
    ensures var d' := d[..w] + source + d[w + |source|..];
      d'[r..w + |source|] == d[r..w] + source
  {
  }

  lemma WriteRound(d: seq<Byte>, r: nat, w: nat, source: seq<Byte>)
    requires r <= w < |d| && w + |source| >= |d| && w - r + |source| < |d|
    ensures var d', k := Put(d, w, source), |d| - w;
      |d'| == |d| && |source| - k < r && d'[r..] + d'[..|source| - k] == d[r..w] + source
  {
    var d', k := Put(d, w, source), |d| - w;
    PutLength(d, w, source);
    if |source| == k {
      assert d' == d[..w] + source;
      assert d'[r..] == d[r..w] + source;
    } else {
      assert d'[..|source| - k] == source[k..];
      assert d'[r..] == d[r..w] + source[..k];
      assert source == source[..k] + source[k..];
    }
  }

  /** Reading at the read position of a circular store takes from the front of its contents. */
  lemma ReadTakes(d: seq<Byte>, r: nat, w: nat, size: nat)
    requires r < |d| && w < |d| && size <= |Window(d, r, w)|
    ensures var r' := Advance(r, size, |d|);
      r' < |d| && Get(d, r, size) == Window(d, r, w)[..size] && Window(d, r', w) == Window(d, r, w)[size..]
  {
    var r' := Advance(r, size, |d|);
    if w < r {
      var q := d[r..] + d[..w];
      if r + size < |d| {
        assert q[size..] == d[r + size..] + d[..w] && q[..size] == d[r..r + size];
      } else {
        assert q[size..] == d[r'..w];
        assert q[..size] == d[r..] + d[..r'];
      }
    } else {
      assert d[r..w][size..] == d[r + size..w] && d[r..w][..size] == d[r..r + size];
    }
  }

  // ---------------------------------------------------------------- copying in memory

  method CopyIn(a: array<Byte>, position: nat, source: seq<Byte>)
    requires position + |source| <= a.Length
    modifies a
    ensures a[..] == old(a[..position]) + source + old(a[position + |source|..])
  {
    var i := 0;
    while i < |source|
      invariant 0 <= i <= |source|
      invariant forall j :: 0 <= j < i ==> a[position + j] == source[j]
      invariant forall j :: 0 <= j < a.Length && !(position <= j < position + i) ==> a[j] == old(a[j])
    {
      a[position + i] := source[i];
      i := i + 1;
    }
    assert a[..position] == old(a[..position]);
    assert a[position..position + |source|] == source;
    assert a[position + |source|..] == old(a[position + |source|..]);
  }

  /** Move n bytes down to the start; source and target may overlap. */
  method MoveDown(a: array<Byte>, from: nat, n: nat)
    requires from + n <= a.Length
    modifies a
    ensures a[..] == old(a[from..from + n]) + old(a[n..])
  {
    var i := 0;
    while i < n
      invariant 0 <= i <= n
      invariant forall j :: 0 <= j < i ==> a[j] == old(a[from + j])
      invariant forall j :: i <= j < a.Length ==> a[j] == old(a[j])
    {
      a[i] := a[from + i];
      i := i + 1;
    }
  }

  // ---------------------------------------------------------------- the buffer

  /** The largest power of two in a word. */
  const MOST: nat := 0x8000_0000_0000_0000

  /** How large the store becomes when `needed` bytes do not fit. */
  function Grown(needed: nat, circular: bool): nat {
    RoundUp(needed) + if circular then 1 else 0
  }

  class Buffer {
    const circular: bool
    const onDemand: bool
    var data: array<Byte>
    var readPos: nat
    var writePos: nat
    /** The bytes written and not yet read. */
    ghost var contents: seq<Byte>

    ghost predicate Valid()
      reads this, data
    {
      && (if circular then
            if data.Length == 0 then readPos == writePos == 0 else readPos < data.Length && writePos < data.Length
          else readPos <= writePos <= data.Length)
      && contents == Window(data[..], readPos, writePos)
    }

    /** Without a size the buffer is empty and grows; with one it never does. */
    constructor (circular: bool, size: Option<nat>)
      requires size.Some? ==> size.value > 0
      ensures Valid() && fresh(data) && contents == [] && this.circular == circular
      ensures onDemand <==> size.None?
      ensures size.None? ==> data.Length == 0
      ensures size.Some? ==> data.Length == size.value + if circular then 1 else 0
    {
      this.circular, onDemand := circular, size.None?;
      data := new Byte[if size.None? then 0 else if circular then size.value + 1 else size.value](_ => 0);
      readPos, writePos, contents := 0, 0, [];
    }

    method DataSize() returns (n: nat)
      requires Valid()
      ensures n == |contents|
    {
      if !circular {
        n := writePos - readPos;
      } else if writePos < readPos {
        n := data.Length - readPos + writePos;
      } else {
        n := writePos - readPos;
      }
    }

    /** In a word of 64 bits: a circular buffer without a store claims the largest word. */
    method AllocatedSize() returns (n: nat)
      ensures !circular ==> n == data.Length
      ensures circular ==> n == if data.Length == 0 then 0xFFFF_FFFF_FFFF_FFFF else data.Length - 1
    {
      n := if !circular then data.Length else if data.Length == 0 then 0xFFFF_FFFF_FFFF_FFFF else data.Length - 1;
    }

    method FreeSize() returns (n: nat)
      requires Valid()
      ensures !circular ==> n + |contents| == data.Length
      ensures circular && data.Length > 0 ==> n + |contents| + 1 == data.Length
    {
      var a := AllocatedSize();
      var d := DataSize();
      n := a - d;
    }

    /** Move the contents to the start of the store.  A plain buffer without contents is left alone. */
    method Crunch()
      requires Valid()
      modifies this`readPos, this`writePos, data
      ensures Valid() && contents == old(contents)
      ensures circular || |contents| > 0 ==> readPos == 0 && writePos == |contents|
      ensures !circular && |contents| == 0 ==> readPos == old(readPos) && writePos == old(writePos)
    {
      var size := DataSize();
      if !circular {
        if size > 0 && readPos > 0 {
          MoveDown(data, readPos, size);
          writePos, readPos := size, 0;
        }
      } else {
        if writePos < readPos {
          var temporary := data[readPos..] + data[..writePos];
          CopyIn(data, 0, temporary);
        } else if size > 0 && readPos > 0 {
          MoveDown(data, readPos, size);
        }
        writePos, readPos := size, 0;
      }
    }

    /** A larger store with the same contents. */
    method Resize(size: nat)
      requires Valid() && onDemand && size > data.Length
      modifies this`data, this`readPos, this`writePos, data
      ensures Valid() && contents == old(contents) && data.Length == size && fresh(data)
      ensures circular ==> readPos == 0 && writePos == |contents|
      ensures !circular ==> readPos == old(readPos) && writePos == old(writePos)
    {
      if circular {
        Crunch();
      }
      var larger := new Byte[size](_ => 0);
      CopyIn(larger, 0, data[..]);
      assert larger[..data.Length] == data[..];
      assert larger[readPos..writePos] == data[readPos..writePos];
      data := larger;
    }

    method SetArray(position: nat, source: seq<Byte>)
      requires position <= data.Length && |source| <= data.Length
      requires !circular ==> position + |source| <= data.Length
      modifies data
      ensures data[..] == Put(old(data[..]), position, source)
    {
      if circular && position + |source| > data.Length {
        var toEnd := data.Length - position;
        ghost var d := data[..];
        CopyIn(data, position, source[..toEnd]);
        assert data[..] == d[..position] + source[..toEnd];
        CopyIn(data, 0, source[toEnd..]);
        PutRound(d, position, source);
      } else {
        CopyIn(data, position, source);
      }
    }

    method GetArray(position: nat, size: nat) returns (bytes: seq<Byte>)
      requires position <= data.Length && size <= data.Length
      requires !circular ==> position + size <= data.Length
      ensures bytes == Get(data[..], position, size)
    {
      if circular && position + size > data.Length {
        var toEnd := data.Length - position;
        bytes := data[position..] + data[..size - toEnd];
      } else {
        bytes := data[position..position + size];
      }
    }

    /** The read position and what follows it end at the write position. */
    lemma PlainSize()
      requires Valid()
      ensures !circular ==> writePos == readPos + |contents|
    {
    }

    /** A buffer of fixed size must have room; one that grows takes the least power of two that
        holds what is in it and what comes, plus one if circular. */
    method WriteArray(source: seq<Byte>)
      requires Valid()
      requires !onDemand ==> |contents| + |source| + (if circular then 1 else readPos) <= data.Length
      requires onDemand ==> |contents| + |source| + (if circular then 0 else readPos) <= MOST
      modifies this, data
      ensures Valid() && contents == old(contents) + source && (!circular ==> readPos == old(readPos))
      ensures var used := old(|contents|) + |source| + if circular then 0 else old(readPos);
        if used + (if circular then 1 else 0) <= old(data.Length) then data == old(data)
        else fresh(data) && data.Length == Grown(used, circular)
    {
      hide RoundUp, Window, Pow2;
      PlainSize();
      if !circular {
        WritePlain(source);
      } else {
        WriteCircular(source);
      }
    }

    method WritePlain(source: seq<Byte>)
      requires Valid() && !circular
      requires !onDemand ==> writePos + |source| <= data.Length
      requires onDemand ==> writePos + |source| <= MOST
      modifies this, data
      ensures Valid() && contents == old(contents) + source && readPos == old(readPos)
      ensures if old(writePos) + |source| <= old(data.Length) then data == old(data)
        else fresh(data) && data.Length == Grown(old(writePos) + |source|, circular)
    {
      hide RoundUp, Window, Put, Pow2;
      PlainSize();
      if onDemand && data.Length < writePos + |source| {
        GrowsEnough(writePos + |source|);
        var size := RoundUpToPowerOfTwo(writePos + |source|);
        Resize(size);
      }
      StorePlain(source);
    }

    /** There is room: store behind the contents. */
    method StorePlain(source: seq<Byte>)
      requires Valid() && !circular && writePos + |source| <= data.Length
      modifies this`writePos, this`contents, data
      ensures Valid() && contents == old(contents) + source
    {
      ghost var d := data[..];
      SetArray(writePos, source);
      assert data[..] == d[..writePos] + source + d[writePos + |source|..];
      assert data[readPos..writePos + |source|] == d[readPos..writePos] + source;
      writePos := writePos + |source|;
      contents := contents + source;
    }

    method WriteCircular(source: seq<Byte>)
      requires Valid() && circular
      requires !onDemand ==> |contents| + |source| + 1 <= data.Length
      requires onDemand ==> |contents| + |source| <= MOST
      modifies this, data
      ensures Valid() && contents == old(contents) + source
      ensures var used := old(|contents|) + |source|;
        if used + 1 <= old(data.Length) then data == old(data)
        else fresh(data) && data.Length == Grown(used, circular)
    {
      MakeRoom(|source|);
      StoreCircular(source);
    }

    /** Grow a circular buffer that grows and has no room. */
    method MakeRoom(bytes: nat)
      requires Valid() && circular
      requires !onDemand ==> |contents| + bytes + 1 <= data.Length
      requires onDemand ==> |contents| + bytes <= MOST
      modifies this`data, this`readPos, this`writePos, data
      ensures Valid() && contents == old(contents) && |contents| + bytes < data.Length
      ensures if old(|contents|) + bytes + 1 <= old(data.Length) then data == old(data)
        else fresh(data) && data.Length == Grown(old(|contents|) + bytes, circular)
    {
      hide RoundUp, Window, Pow2;
      var size := DataSize();
      if onDemand && data.Length < size + bytes + 1 {
        GrowsEnough(size + bytes);
        var rounded := RoundUpToPowerOfTwo(size + bytes);
        Resize(rounded + 1);
      }
    }

    method StoreCircular(source: seq<Byte>)
      requires Valid() && circular && |contents| + |source| < data.Length
      modifies this`writePos, this`contents, data
      ensures Valid() && contents == old(contents) + source
    {
      WriteAppends(data[..], readPos, writePos, source);
      SetArray(writePos, source);
      writePos := Advance(writePos, |source|, data.Length);
      contents := contents + source;
    }

    /** Out of data: a circular buffer refuses.  A plain one looks only at the size of its store: it
        goes past its write position, and then its positions are no longer in order. */
    method Rskip(bytes: nat) returns (ok: bool)
      requires Valid() && (!circular ==> readPos + bytes <= data.Length)
      modifies this`readPos, this`contents
      ensures ok <==> !circular || bytes <= old(|contents|)
      ensures Valid() <==> circular || bytes <= old(|contents|)
      ensures bytes <= old(|contents|) ==> contents == old(contents)[bytes..]
      ensures bytes > old(|contents|) ==> contents == old(contents)
      ensures !circular ==> readPos == old(readPos) + bytes
      ensures !ok ==> readPos == old(readPos)
    {
      PlainSize();
      var size := DataSize();
      if !circular {
        readPos := readPos + bytes;
      } else {
        if bytes > size {
          return false;
        }
        if data.Length > 0 { ReadTakes(data[..], readPos, writePos, bytes); }
        readPos := Advance(readPos, bytes, data.Length);
      }
      if bytes <= |contents| {
        contents := contents[bytes..];
      }
      ok := true;
    }

    /** Take bytes off the front. */
    method ReadArray(size: nat) returns (bytes: seq<Byte>)
      requires Valid() && size <= |contents|
      modifies this`readPos, this`contents
      ensures Valid() && bytes == old(contents)[..size] && contents == old(contents)[size..]
    {
      PlainSize();
      if data.Length > 0 && circular { ReadTakes(data[..], readPos, writePos, size); }
      bytes := GetArray(readPos, size);
      var ok := Rskip(size);
    }

    /** Move bytes from another buffer.  They are read in one stretch, with whatever lies in memory
        beyond the store of the source. */
    method Append(source: Buffer, size: nat, beyond: seq<Byte>)
      requires Valid() && source.Valid() && source != this && source.data != data
      requires size <= |source.contents| && |beyond| >= size
      requires !onDemand ==> |contents| + size + (if circular then 1 else readPos) <= data.Length
      requires onDemand ==> |contents| + size + (if circular then 0 else readPos) <= MOST
      modifies this, data, source`readPos, source`contents
      ensures Valid() && source.Valid() && old(source.readPos) <= |source.data[..]|
      ensures contents == old(contents) + Stretch(old(source.data[..]), old(source.readPos), size, beyond)
      ensures source.contents == old(source.contents)[size..]
    {
      source.PlainSize();
      var stretch := Stretch(source.data[..], source.readPos, size, beyond);
      WriteArray(stretch);
      var ok := source.Rskip(size);
    }
  }

  /** `size` bytes from a position on, without going round the end. */
  function Stretch(d: seq<Byte>, position: nat, size: nat, beyond: seq<Byte>): (q: seq<Byte>)
    requires position <= |d| && size <= |beyond|
    ensures |q| == size
  {
    (d[position..] + beyond)[..size]
  }

  /** What is appended is the front of the contents of the source, whatever lies beyond its store,
      exactly if these bytes do not go round the end. */
  lemma StretchIsFrontIff(d: seq<Byte>, r: nat, w: nat, size: nat)
    requires r <= |d| && w <= |d| && size <= |Window(d, r, w)|
    ensures (forall beyond :: |beyond| >= size ==> Stretch(d, r, size, beyond) == Window(d, r, w)[..size]) <==>
      r + size <= |d|
  {
    if r + size <= |d| {
      forall beyond: seq<Byte> | |beyond| >= size ensures Stretch(d, r, size, beyond) == Window(d, r, w)[..size] {
        assert (d[r..] + beyond)[..size] == d[r..r + size];
        assert Window(d, r, w)[..size] == d[r..r + size];
      }
    } else {
      var k := |d| - r;
      var other: Byte := if Window(d, r, w)[k] == 0 then 1 else 0;
      var beyond: seq<Byte> := seq(size, i => other);
      assert Stretch(d, r, size, beyond)[k] == other;
    }
  }

  lemma MostIsPower()
    ensures Pow2(63) == MOST && Pow2(64) == 2 * MOST
  {
    hide Pow2;
    SmallPowers();
    PowSum(8, 8);
    PowSum(16, 16);
    PowSum(8, 7);
    PowSum(16, 15);
    PowSum(32, 31);
    WordIsTwice(63);
  }

  lemma SmallPowers()
    ensures Pow2(7) == 128 && Pow2(8) == 256
  {
    assert Pow2(4) == 16;
    PowSum(4, 4);
  }

  /** Rounding covers what is needed, whatever that is. */
  lemma GrowsEnough(needed: nat)
    requires needed <= MOST
    ensures needed < Pow2(64) && RoundUp(needed) >= needed
  {
    hide Pow2, RoundUp;
    MostIsPower();
    RoundUpIsLeast(needed);
  }
}

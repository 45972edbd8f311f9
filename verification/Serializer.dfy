/** Typed values written to and read from the byte queue, and the size probe. */
module Serializer {
  import opened Wrappers
  import opened ByteBuffers

  type Bytes = seq<Byte>

  /** A fixed-size type is copied byte by byte; vectors and lists differ in the limit checked when
      they are read. */
  datatype Type =
    | Fixed(size: nat)
    | Boolean
    | Text
    | Vector(elem: Type)
    | List(elem: Type)
    | Mapping(key: Type, value: Type)
    | Pair(first: Type, second: Type)

  datatype Value =
    | Raw(bytes: Bytes)
    | Flag(on: bool)
    | Str(text: Bytes)
    | Items(items: seq<Value>)
    | Entries(entries: seq<Entry>)
    | Both(first: Value, second: Value)

  datatype Entry = Entry(key: Value, value: Value)

  /** The length limits. */
  const MAX_TEXT: nat := 8192
  const MAX_VECTOR: nat := 65536
  const MAX_LIST: nat := 65536

  /** Lengths are cut to 32 bits. */
  const WORDS: nat := 0x1_0000_0000

  function Cut(n: nat): (r: nat)
    ensures r <= n && r < WORDS && (n < WORDS ==> r == n)
  {
    n % WORDS
  }

  // ---------------------------------------------------------------- what may be written

  ghost predicate Keys(entries: seq<Entry>) {
    forall i, j :: 0 <= i < j < |entries| ==> entries[i].key != entries[j].key
  }

  /** A value of the type that passes every check of writing: all containers are checked against
      the limit of vectors. */
  ghost predicate Writable(v: Value, t: Type)
    decreases v
  {
    match t
    case Fixed(size) => v.Raw? && |v.bytes| == size
    case Boolean => v.Flag?
    case Text => v.Str? && |v.text| <= MAX_TEXT
    case Vector(e) => v.Items? && |v.items| <= MAX_VECTOR && AllWritable(v.items, e)
    case List(e) => v.Items? && |v.items| <= MAX_VECTOR && AllWritable(v.items, e)
    case Mapping(_, _) => v.Entries? && |v.entries| <= MAX_VECTOR && Keys(v.entries) && EntriesWritable(v.entries, t)
    case Pair(a, b) => v.Both? && Writable(v.first, a) && Writable(v.second, b)
  }

  ghost predicate AllWritable(items: seq<Value>, e: Type)
    decreases items
  {
    items == [] || (Writable(items[0], e) && AllWritable(items[1..], e))
  }

  ghost predicate EntriesWritable(entries: seq<Entry>, t: Type)
    requires t.Mapping?
    decreases entries
  {
    entries == [] || (EntryWritable(entries[0], t) && EntriesWritable(entries[1..], t))
  }

  ghost predicate EntryWritable(x: Entry, t: Type)
    requires t.Mapping?
    decreases x
  {
    Writable(x.key, t.key) && Writable(x.value, t.value)
  }

  /** The checks of writing alone, made on the cut lengths: texts against their limit, all containers
      against that of vectors. */
  predicate Within(v: Value)
    decreases v
  {
    match v
    case Raw(_) => true
    case Flag(_) => true
    case Str(text) => Cut(|text|) <= MAX_TEXT
    case Items(items) => Cut(|items|) <= MAX_VECTOR && AllWithin(items)
    case Entries(entries) => Cut(|entries|) <= MAX_VECTOR && EntriesWithin(entries)
    case Both(x, y) => Within(x) && Within(y)
  }

  predicate AllWithin(items: seq<Value>)
    decreases items
  {
    items == [] || (Within(items[0]) && AllWithin(items[1..]))
  }

  predicate EntriesWithin(entries: seq<Entry>)
    decreases entries
  {
    entries == [] || (EntryWithin(entries[0]) && EntriesWithin(entries[1..]))
  }

  predicate EntryWithin(x: Entry)
    decreases x
  {
    Within(x.key) && Within(x.value)
  }

  /** The value is of the type, whatever its lengths. */
  ghost predicate HasType(v: Value, t: Type)
    decreases v
  {
    match t
    case Fixed(size) => v.Raw? && |v.bytes| == size
    case Boolean => v.Flag?
    case Text => v.Str?
    case Vector(e) => v.Items? && AllHaveType(v.items, e)
    case List(e) => v.Items? && AllHaveType(v.items, e)
    case Mapping(_, _) => v.Entries? && Keys(v.entries) && EntriesHaveType(v.entries, t)
    case Pair(a, b) => v.Both? && HasType(v.first, a) && HasType(v.second, b)
  }

  ghost predicate AllHaveType(items: seq<Value>, e: Type)
    decreases items
  {
    items == [] || (HasType(items[0], e) && AllHaveType(items[1..], e))
  }

  ghost predicate EntriesHaveType(entries: seq<Entry>, t: Type)
    requires t.Mapping?
    decreases entries
  {
    entries == [] || (EntryHasType(entries[0], t) && EntriesHaveType(entries[1..], t))
  }

  ghost predicate EntryHasType(x: Entry, t: Type)
    requires t.Mapping?
    decreases x
  {
    HasType(x.key, t.key) && HasType(x.value, t.value)
  }

  /** No length is cut. */
  predicate Uncut(v: Value)
    decreases v
  {
    match v
    case Raw(_) => true
    case Flag(_) => true
    case Str(text) => |text| < WORDS
    case Items(items) => |items| < WORDS && AllUncut(items)
    case Entries(entries) => |entries| < WORDS && EntriesUncut(entries)
    case Both(x, y) => Uncut(x) && Uncut(y)
  }

  predicate AllUncut(items: seq<Value>)
    decreases items
  {
    items == [] || (Uncut(items[0]) && AllUncut(items[1..]))
  }

  predicate EntriesUncut(entries: seq<Entry>)
    decreases entries
  {
    entries == [] || (EntryUncut(entries[0]) && EntriesUncut(entries[1..]))
  }

  predicate EntryUncut(x: Entry)
    decreases x
  {
    Uncut(x.key) && Uncut(x.value)
  }

  /** A value may be written with its true lengths exactly if it is of the type, passes the checks
      of writing, and has no length that these cut. */
  lemma {:induction false} WritableIff(v: Value, t: Type)
    ensures Writable(v, t) <==> HasType(v, t) && Within(v) && Uncut(v)
    decreases v
  {
    match t
    case Fixed(_) =>
    case Boolean =>
    case Text =>
    case Vector(e) => if v.Items? { AllWritableIff(v.items, e); }
    case List(e) => if v.Items? { AllWritableIff(v.items, e); }
    case Mapping(_, _) => if v.Entries? { EntriesWritableIff(v.entries, t); }
    case Pair(a, b) =>
      if v.Both? {
        WritableIff(v.first, a);
        WritableIff(v.second, b);
      }
  }

  lemma {:induction false} AllWritableIff(items: seq<Value>, e: Type)
    ensures AllWritable(items, e) <==> AllHaveType(items, e) && AllWithin(items) && AllUncut(items)
    decreases items
  {
    hide Writable, HasType, Within, Uncut;
    if items != [] {
      WritableIff(items[0], e);
      AllWritableIff(items[1..], e);
    }
  }

  lemma {:induction false} EntriesWritableIff(entries: seq<Entry>, t: Type)
    requires t.Mapping?
    ensures EntriesWritable(entries, t) <==>
      EntriesHaveType(entries, t) && EntriesWithin(entries) && EntriesUncut(entries)
    decreases entries
  {
    hide EntryWritable, EntryHasType, EntryWithin, EntryUncut;
    if entries != [] {
      EntryWritableIff(entries[0], t);
      EntriesWritableIff(entries[1..], t);
    }
  }

  lemma {:induction false} EntryWritableIff(x: Entry, t: Type)
    requires t.Mapping?
    ensures EntryWritable(x, t) <==> EntryHasType(x, t) && EntryWithin(x) && EntryUncut(x)
    decreases x
  {
    hide Writable, HasType, Within, Uncut;
    WritableIff(x.key, t.key);
    WritableIff(x.value, t.value);
  }

  // ---------------------------------------------------------------- writing

  /** Four bytes, lowest first. */
  function Word32(n: nat): Bytes {
    [n % 256, n / 256 % 256, n / 256 / 256 % 256, n / 256 / 256 / 256 % 256]
  }

  /** The value of bytes of which each counts 256 times the one before it. */
  function Number(q: Bytes): nat {
    if q == [] then 0 else q[0] + 256 * Number(q[1..])
  }

  /** A length is written as four bytes, the lowest first, of which the value is the length if that is
      below 2^32. */
  lemma LengthIsNumber(n: nat)
    ensures |Word32(n)| == 4 && Number(Word32(n)) == Cut(n)
  {
    var a := n / 256;
    var b := a / 256;
    var c := b / 256;
    FourBytes(n % 256, a % 256, b % 256, c % 256);
    hide Number;
    FourDigits(n, a, b, c, c / 256);
  }

  lemma FourDigits(n: nat, a: nat, b: nat, c: nat, d: nat)
    requires a == n / 256 && b == a / 256 && c == b / 256 && d == c / 256
    ensures n % 256 + 256 * (a % 256 + 256 * (b % 256 + 256 * (c % 256))) == n - WORDS * d
    ensures n % WORDS == n - WORDS * d
  {
    FourPlaces(n, a, b, c, d);
  }

  /** Splitting off one byte after the other. */
  lemma FourPlaces(n: nat, a: nat, b: nat, c: nat, d: nat)
    requires a == n / 256 && b == a / 256 && c == b / 256 && d == c / 256
    ensures n == n % 256 + 256 * (a % 256 + 256 * (b % 256 + 256 * (c % 256))) + WORDS * d
  {
    OneByte(n); OneByte(a); OneByte(b); OneByte(c);
  }

  lemma OneByte(n: nat)
    ensures n == n % 256 + 256 * (n / 256)
  {
  }

  lemma FourBytes(a: Byte, b: Byte, c: Byte, d: Byte)
    ensures Number([a, b, c, d]) == a + 256 * (b + 256 * (c + 256 * d)) < WORDS
  {
    assert [d][1..] == [] && Number([d]) == d;
    assert [c, d][1..] == [d] && Number([c, d]) == c + 256 * d;
    assert [b, c, d][1..] == [c, d] && Number([b, c, d]) == b + 256 * (c + 256 * d);
    assert [a, b, c, d][1..] == [b, c, d];
  }

  function Write(v: Value): Bytes
    decreases v
  {
    match v
    case Raw(bytes) => bytes
    case Flag(on) => [if on then 1 else 0]
    case Str(text) => Word32(|text|) + text[..Cut(|text|)]
    case Items(items) => Word32(|items|) + WriteAll(items)
    case Entries(entries) => Word32(|entries|) + WriteEntries(entries)
    case Both(a, b) => Write(a) + Write(b)
  }

  function WriteAll(items: seq<Value>): Bytes
    decreases items
  {
    if items == [] then [] else Write(items[0]) + WriteAll(items[1..])
  }

  function WriteEntries(entries: seq<Entry>): Bytes
    decreases entries
  {
    if entries == [] then [] else WriteEntry(entries[0]) + WriteEntries(entries[1..])
  }

  function WriteEntry(e: Entry): Bytes
    decreases e
  {
    Write(e.key) + Write(e.value)
  }

  /** What is appended to a buffer: it ends where the first check fails. */
  function Emitted(v: Value): Bytes
    decreases v
  {
    match v
    case Raw(_) => Write(v)
    case Flag(_) => Write(v)
    case Str(text) => if Cut(|text|) > MAX_TEXT then [] else Write(v)
    case Items(items) => if Cut(|items|) > MAX_VECTOR then [] else Word32(|items|) + AllEmitted(items)
    case Entries(entries) => if Cut(|entries|) > MAX_VECTOR then [] else Word32(|entries|) + EntriesEmitted(entries)
    case Both(a, b) => Emitted(a) + if Within(a) then Emitted(b) else []
  }

  function AllEmitted(items: seq<Value>): Bytes
    decreases items
  {
    if items == [] then [] else Emitted(items[0]) + if Within(items[0]) then AllEmitted(items[1..]) else []
  }

  function EntriesEmitted(entries: seq<Entry>): Bytes
    decreases entries
  {
    if entries == [] then []
    else EntryEmitted(entries[0]) + if EntryWithin(entries[0]) then EntriesEmitted(entries[1..]) else []
  }

  function EntryEmitted(x: Entry): Bytes
    decreases x
  {
    Emitted(x.key) + if Within(x.key) then Emitted(x.value) else []
  }

  /** A value that passes every check is written as a whole. */
  lemma {:induction false} AllIsEmitted(v: Value)
    requires Within(v)
    ensures Emitted(v) == Write(v)
    decreases v
  {
    match v
    case Raw(_) =>
    case Flag(_) =>
    case Str(_) =>
    case Items(items) => ItemsEmitted(items);
    case Entries(entries) => MappingEmitted(entries);
    case Both(a, b) =>
      AllIsEmitted(a);
      AllIsEmitted(b);
  }

  lemma {:induction false} ItemsEmitted(items: seq<Value>)
    requires AllWithin(items)
    ensures AllEmitted(items) == WriteAll(items)
    decreases items
  {
    hide Emitted, Write, Within;
    if items != [] {
      AllIsEmitted(items[0]);
      ItemsEmitted(items[1..]);
    }
  }

  lemma {:induction false} MappingEmitted(entries: seq<Entry>)
    requires EntriesWithin(entries)
    ensures EntriesEmitted(entries) == WriteEntries(entries)
    decreases entries
  {
    hide EntryEmitted, WriteEntry, EntryWithin;
    if entries != [] {
      EntryIsEmitted(entries[0]);
      MappingEmitted(entries[1..]);
    }
  }

  lemma {:induction false} EntryIsEmitted(x: Entry)
    requires EntryWithin(x)
    ensures EntryEmitted(x) == WriteEntry(x)
    decreases x
  {
    hide Emitted, Write, Within;
    AllIsEmitted(x.key);
    AllIsEmitted(x.value);
  }

  // ---------------------------------------------------------------- reading

  datatype Parsed<T> = Failed | Parsed(value: T, rest: Bytes)

  function TakeBytes(q: Bytes, n: nat): Parsed<Bytes> {
    if |q| < n then Failed else Parsed(q[..n], q[n..])
  }

  function ReadWord32(q: Bytes): Parsed<nat> {
    if |q| < 4 then Failed
      else Parsed(q[0] + 256 * (q[1] as int + 256 * (q[2] as int + 256 * (q[3] as int))), q[4..])
  }

  function Read(t: Type, q: Bytes): Parsed<Value>
    decreases t, 1, 0
  {
    match t
    case Fixed(size) =>
      (match TakeBytes(q, size) case Failed => Failed case Parsed(b, rest) => Parsed(Raw(b), rest))
    case Boolean =>
      (match TakeBytes(q, 1) case Failed => Failed case Parsed(b, rest) => Parsed(Flag(b[0] > 0), rest))
    case Text =>
      (match ReadWord32(q)
       case Failed => Failed
       case Parsed(n, rest) =>
         if n > MAX_TEXT then Failed
         else match TakeBytes(rest, n) case Failed => Failed case Parsed(b, rest) => Parsed(Str(b), rest))
    case Vector(e) =>
      (match ReadWord32(q)
       case Failed => Failed
       case Parsed(n, rest) => if n > MAX_VECTOR then Failed else ReadItems(e, n, [], rest))
    case List(e) =>
      (match ReadWord32(q)
       case Failed => Failed
       case Parsed(n, rest) => if n > MAX_LIST then Failed else ReadItems(e, n, [], rest))
    case Mapping(_, _) =>
      (match ReadWord32(q)
       case Failed => Failed
       case Parsed(n, rest) => if n > MAX_LIST then Failed else ReadEntries(t, n, [], rest))
    case Pair(a, b) =>
      (match Read(a, q)
       case Failed => Failed
       case Parsed(x, rest) =>
         match Read(b, rest) case Failed => Failed case Parsed(y, rest) => Parsed(Both(x, y), rest))
  }

  /** n more elements behind those read already. */
  function ReadItems(e: Type, n: nat, done: seq<Value>, q: Bytes): Parsed<Value>
    decreases e, 1, n
  {
    if n == 0 then Parsed(Items(done), q)
    else match Read(e, q)
      case Failed => Failed
      case Parsed(x, rest) => ReadItems(e, n - 1, done + [x], rest)
  }

  /** Assigning to a key that is there already replaces its value. */
  function Assign(entries: seq<Entry>, key: Value, value: Value): seq<Entry> {
    if entries == [] then [Entry(key, value)]
    else if entries[0].key == key then [Entry(key, value)] + entries[1..]
    else [entries[0]] + Assign(entries[1..], key, value)
  }

  function ReadEntries(t: Type, n: nat, done: seq<Entry>, q: Bytes): Parsed<Value>
    requires t.Mapping?
    decreases t, 0, n
  {
    if n == 0 then Parsed(Entries(done), q)
    else match Read(t.key, q)
      case Failed => Failed
      case Parsed(x, rest) =>
        match Read(t.value, rest)
        case Failed => Failed
        case Parsed(y, rest) => ReadEntries(t, n - 1, Assign(done, x, y), rest)
  }

  // ---------------------------------------------------------------- the round trip

  lemma WordRoundTrip(n: nat, rest: Bytes)
    requires n < WORDS
    ensures ReadWord32(Word32(n) + rest) == Parsed(n, rest)
  {
    var q := Word32(n) + rest;
    assert q[4..] == rest && q[..4] == Word32(n);
    var a := n / 256;
    var b := a / 256;
    var c := b / 256;
    assert n == 256 * a + n % 256 && a == 256 * b + a % 256 && b == 256 * c + b % 256;
    assert c < 256;
  }

  lemma TakeRoundTrip(b: Bytes, rest: Bytes)
    ensures TakeBytes(b + rest, |b|) == Parsed(b, rest)
  {
  }

  lemma {:induction false} AssignNew(done: seq<Entry>, key: Value, value: Value)
    requires forall i :: 0 <= i < |done| ==> done[i].key != key
    ensures Assign(done, key, value) == done + [Entry(key, value)]
  {
    if done != [] {
      AssignNew(done[1..], key, value);
      assert done == [done[0]] + done[1..];
    }
  }

  /** Reading what was written gives the value back and leaves the bytes behind it untouched. */
  lemma {:induction false} RoundTrip(v: Value, t: Type, rest: Bytes)
    requires Writable(v, t)
    ensures Read(t, Write(v) + rest) == Parsed(v, rest)
    decreases v
  {
    hide Word32, ReadWord32;
    match t
    case Fixed(_) => TakeRoundTrip(v.bytes, rest);
    case Boolean => TakeRoundTrip(Write(v), rest);
    case Text =>
      assert v.text[..Cut(|v.text|)] == v.text;
      Counted(|v.text|, v.text, rest);
      TakeRoundTrip(v.text, rest);
    case Vector(e) =>
      Counted(|v.items|, WriteAll(v.items), rest);
      ItemsRoundTrip(v.items, e, [], rest);
      assert [] + v.items == v.items;
    case List(e) =>
      Counted(|v.items|, WriteAll(v.items), rest);
      ItemsRoundTrip(v.items, e, [], rest);
      assert [] + v.items == v.items;
    case Mapping(_, _) =>
      Counted(|v.entries|, WriteEntries(v.entries), rest);
      assert [] + v.entries == v.entries;
      EntriesRoundTrip(v.entries, t, [], rest);
    case Pair(a, b) =>
      Assoc(Write(v.first), Write(v.second), rest);
      RoundTrip(v.first, a, Write(v.second) + rest);
      RoundTrip(v.second, b, rest);
  }

  /** A count in front of what it counts. */
  lemma Counted(n: nat, body: Bytes, rest: Bytes)
    requires n < WORDS
    ensures ReadWord32((Word32(n) + body) + rest) == Parsed(n, body + rest)
  {
    hide Word32, ReadWord32;
    Assoc(Word32(n), body, rest);
    WordRoundTrip(n, body + rest);
  }

  lemma Assoc(a: Bytes, b: Bytes, c: Bytes)
    ensures (a + b) + c == a + (b + c)
  {
  }

  lemma {:induction false} ItemsRoundTrip(items: seq<Value>, e: Type, done: seq<Value>, rest: Bytes)
    requires AllWritable(items, e)
    ensures ReadItems(e, |items|, done, WriteAll(items) + rest)
      == Parsed(Items(done + items), rest)
    decreases items
  {
    hide Read, Write, Writable;
    if items != [] {
      var x, others := items[0], items[1..];
      Assoc(Write(x), WriteAll(others), rest);
      RoundTrip(x, e, WriteAll(others) + rest);
      ItemsRoundTrip(others, e, done + [x], rest);
      Shift(done, items);
    } else {
      assert done + items == done && WriteAll(items) + rest == rest;
    }
  }

  lemma Shift<T>(done: seq<T>, q: seq<T>)
    requires q != []
    ensures done + q == done + [q[0]] + q[1..]
  {
  }

  lemma NewKey(done: seq<Entry>, entries: seq<Entry>)
    requires Keys(done + entries) && entries != []
    ensures forall i :: 0 <= i < |done| ==> done[i].key != entries[0].key
  {
    assert (done + entries)[|done|] == entries[0];
    assert forall i :: 0 <= i < |done| ==> (done + entries)[i] == done[i];
  }

  lemma {:induction false} EntryRoundTrip(x: Entry, t: Type, tail: Bytes)
    requires t.Mapping? && EntryWritable(x, t)
    ensures Read(t.key, WriteEntry(x) + tail)
      == Parsed(x.key, Write(x.value) + tail)
    ensures Read(t.value, Write(x.value) + tail)
      == Parsed(x.value, tail)
    decreases x
  {
    hide Read, Write, Writable;
    Assoc(Write(x.key), Write(x.value), tail);
    RoundTrip(x.key, t.key, Write(x.value) + tail);
    RoundTrip(x.value, t.value, tail);
  }

  lemma {:induction false} EntriesRoundTrip(entries: seq<Entry>, t: Type, done: seq<Entry>, rest: Bytes)
    requires t.Mapping? && Keys(done + entries) && EntriesWritable(entries, t)
    ensures ReadEntries(t, |entries|, done, WriteEntries(entries) + rest)
      == Parsed(Entries(done + entries), rest)
    decreases entries
  {
    hide Read, Write, Writable;
    if entries != [] {
      var x, others := entries[0], entries[1..];
      var tail := WriteEntries(others) + rest;
      Assoc(WriteEntry(x), WriteEntries(others), rest);
      EntryRoundTrip(x, t, tail);
      NewKey(done, entries);
      AssignNew(done, x.key, x.value);
      Shift(done, entries);
      hide Keys;
      EntriesRoundTrip(others, t, done + [x], rest);
    } else {
      assert done + entries == done && WriteEntries(entries) + rest == rest;
    }
  }

  // ---------------------------------------------------------------- what reading returns

  lemma {:induction false} AllWritableSnoc(items: seq<Value>, x: Value, e: Type)
    requires AllWritable(items, e) && Writable(x, e)
    ensures AllWritable(items + [x], e)
    decreases items
  {
    hide Writable;
    if items == [] {
      assert [] + [x] == [x] && [x][1..] == [];
    } else {
      assert (items + [x])[1..] == items[1..] + [x];
      AllWritableSnoc(items[1..], x, e);
    }
  }

  /** Assigning leaves every key once, and adds at most one entry. */
  lemma {:induction false} AssignFacts(done: seq<Entry>, key: Value, value: Value, t: Type)
    requires t.Mapping? && Keys(done) && EntriesWritable(done, t) && EntryWritable(Entry(key, value), t)
    ensures var r := Assign(done, key, value);
      && Keys(r) && EntriesWritable(r, t) && |r| <= |done| + 1
      && (forall i :: 0 <= i < |r| ==> r[i].key == key || exists j :: 0 <= j < |done| && done[j].key == r[i].key)
    decreases done
  {
    hide EntryWritable;
    var r := Assign(done, key, value);
    if done == [] {
      assert r == [Entry(key, value)] && r[1..] == [];
    } else if done[0].key == key {
      assert r[1..] == done[1..] && forall i :: 0 <= i < |r| ==> r[i].key == done[i].key;
    } else {
      var rest := done[1..];
      assert Keys(rest) by { assert forall i :: 0 <= i < |rest| ==> rest[i] == done[i + 1]; }
      AssignFacts(rest, key, value, t);
      assert r == [done[0]] + Assign(rest, key, value);
      AssignKeys(done, key, Assign(rest, key, value));
    }
  }

  lemma AssignKeys(done: seq<Entry>, key: Value, q: seq<Entry>)
    requires Keys(done) && done != [] && done[0].key != key && Keys(q)
    requires forall i :: 0 <= i < |q| ==>
      q[i].key == key || exists j :: 0 <= j < |done| - 1 && done[1..][j].key == q[i].key
    ensures Keys([done[0]] + q)
    ensures var r := [done[0]] + q;
      forall i :: 0 <= i < |r| ==> r[i].key == key || exists j :: 0 <= j < |done| && done[j].key == r[i].key
  {
    var r := [done[0]] + q;
    forall i | 0 <= i < |q| ensures q[i].key != done[0].key
      && (q[i].key == key || exists j :: 0 <= j < |done| && done[j].key == q[i].key) {
      if q[i].key != key {
        var j :| 0 <= j < |done| - 1 && done[1..][j].key == q[i].key;
        assert done[j + 1].key == q[i].key;
      }
    }
    assert forall i :: 0 < i < |r| ==> r[i] == q[i - 1];
  }

  /** Whatever the bytes are: what reading returns is a value of the type within all limits, so that
      it can be written again. */
  lemma {:induction false} ReadIsWritable(t: Type, q: Bytes)
    ensures Read(t, q).Parsed? ==> Writable(Read(t, q).value, t)
    decreases t, 1, 0
  {
    hide ReadWord32;
    match t
    case Fixed(_) =>
    case Boolean =>
    case Text =>
    case Vector(e) =>
      if ReadWord32(q).Parsed? && ReadWord32(q).value <= MAX_VECTOR {
        ItemsAreWritable(e, ReadWord32(q).value, [], ReadWord32(q).rest);
      }
    case List(e) =>
      if ReadWord32(q).Parsed? && ReadWord32(q).value <= MAX_LIST {
        ItemsAreWritable(e, ReadWord32(q).value, [], ReadWord32(q).rest);
      }
    case Mapping(_, _) =>
      if ReadWord32(q).Parsed? && ReadWord32(q).value <= MAX_LIST {
        EntriesAreWritable(t, ReadWord32(q).value, [], ReadWord32(q).rest);
      }
    case Pair(a, b) =>
      ReadIsWritable(a, q);
      if Read(a, q).Parsed? { ReadIsWritable(b, Read(a, q).rest); }
  }

  lemma {:induction false} ItemsAreWritable(e: Type, n: nat, done: seq<Value>, q: Bytes)
    requires AllWritable(done, e)
    ensures var r := ReadItems(e, n, done, q);
      r.Parsed? ==> r.value.Items? && |r.value.items| == |done| + n && AllWritable(r.value.items, e)
    decreases e, 1, n
  {
    hide Read, Writable, AllWritable;
    if n > 0 {
      ReadIsWritable(e, q);
      if Read(e, q).Parsed? {
        var x := Read(e, q).value;
        AllWritableSnoc(done, x, e);
        ItemsAreWritable(e, n - 1, done + [x], Read(e, q).rest);
      }
    }
  }

  lemma {:induction false} EntriesAreWritable(t: Type, n: nat, done: seq<Entry>, q: Bytes)
    requires t.Mapping? && Keys(done) && EntriesWritable(done, t)
    ensures var r := ReadEntries(t, n, done, q);
      r.Parsed? ==>
        r.value.Entries? && |r.value.entries| <= |done| + n && Keys(r.value.entries)
          && EntriesWritable(r.value.entries, t)
    decreases t, 0, n
  {
    hide Read, Writable, EntriesWritable, Keys, Assign;
    if n > 0 {
      ReadIsWritable(t.key, q);
      if Read(t.key, q).Parsed? {
        var rest := Read(t.key, q).rest;
        ReadIsWritable(t.value, rest);
        if Read(t.value, rest).Parsed? {
          var x, y := Read(t.key, q).value, Read(t.value, rest).value;
          AssignFacts(done, x, y, t);
          EntriesAreWritable(t, n - 1, Assign(done, x, y), Read(t.value, rest).rest);
        }
      }
    }
  }

  /** What has been read, from whatever bytes, is written and read back unchanged. */
  lemma ReadAgain(t: Type, q: Bytes, rest: Bytes)
    requires Read(t, q).Parsed?
    ensures var v := Read(t, q).value;
      Within(v) && Read(t, Write(v) + rest) == Parsed(v, rest)
  {
    ReadIsWritable(t, q);
    WritableIff(Read(t, q).value, t);
    RoundTrip(Read(t, q).value, t, rest);
  }

  /** Of the values of the type that pass the checks of writing exactly those come back whose lengths
      the checks do not cut. */
  lemma ComesBackIff(v: Value, t: Type, rest: Bytes)
    requires HasType(v, t) && Within(v)
    ensures Read(t, Write(v) + rest) == Parsed(v, rest) <==> Uncut(v)
  {
    WritableIff(v, t);
    if Uncut(v) {
      RoundTrip(v, t, rest);
    } else if Read(t, Write(v) + rest) == Parsed(v, rest) {
      ReadIsWritable(t, Write(v) + rest);
    }
  }

  /** A text of 2^32 octets passes the check and is written, and read back, as the empty text. */
  lemma LongText(v: Value, rest: Bytes)
    requires v.Str? && |v.text| == WORDS
    ensures HasType(v, Text) && Within(v) && Read(Text, Write(v) + rest) == Parsed(Str([]), rest)
  {
    assert Write(v) == Write(Str([]));
    RoundTrip(Str([]), Text, rest);
  }

  // ---------------------------------------------------------------- the size probe

  /** The types whose elements are probed one by one. */
  predicate Variable(t: Type) {
    t.Text? || t.Vector? || t.List? || t.Mapping?
  }

  function Probe(v: Value, t: Type): nat
    decreases t, 1, 0
  {
    match t
    case Fixed(size) => size
    case Boolean => 1
    case Text => if v.Str? then |v.text| + 4 else 0
    case Vector(e) => if v.Items? then 4 + ProbeItems(v.items, e) else 0
    case List(e) => if v.Items? then 4 + ProbeItems(v.items, e) else 0
    case Mapping(_, _) => if v.Entries? then 4 + ProbeEntries(v.entries, t) else 0
    case Pair(a, b) => if v.Both? then Probe(v.first, a) + Probe(v.second, b) else 0
  }

  /** Elements not on the list of variable types are all taken to be as large as the first. */
  function ProbeItems(items: seq<Value>, e: Type): nat
    decreases e, 2, |items|
  {
    if items == [] then 0
    else if Variable(e) then Probe(items[0], e) + ProbeItems(items[1..], e)
    else |items| * Probe(items[0], e)
  }

  function ProbeEntries(entries: seq<Entry>, t: Type): nat
    requires t.Mapping?
    decreases t, 0, |entries|
  {
    if entries == [] then 0
    else
      var first := Probe(entries[0].key, t.key) + Probe(entries[0].value, t.value);
      if Variable(t.key) || Variable(t.value) then first + ProbeEntries(entries[1..], t)
      else |entries| * first
  }

  /** All values of the type take the same number of bytes. */
  predicate FixedSize(t: Type) {
    t.Fixed? || t.Boolean? || (t.Pair? && FixedSize(t.first) && FixedSize(t.second))
  }

  function SizeOf(t: Type): nat
    requires FixedSize(t)
  {
    match t
    case Fixed(size) => size
    case Boolean => 1
    case Pair(a, b) => SizeOf(a) + SizeOf(b)
  }

  /** Container elements are of fixed size or on the list of variable types, all the way down. */
  predicate Probed(t: Type) {
    match t
    case Fixed(_) => true
    case Boolean => true
    case Text => true
    case Vector(e) => Probed(e) && (Variable(e) || FixedSize(e))
    case List(e) => Probed(e) && (Variable(e) || FixedSize(e))
    case Mapping(k, e) =>
      Probed(k) && Probed(e) && (Variable(k) || Variable(e) || (FixedSize(k) && FixedSize(e)))
    case Pair(a, b) => Probed(a) && Probed(b)
  }

  lemma {:induction false} FixedWrites(v: Value, t: Type)
    requires FixedSize(t) && Writable(v, t)
    ensures |Write(v)| == SizeOf(t) == Probe(v, t)
    decreases t
  {
    if t.Pair? {
      FixedWrites(v.first, t.first);
      FixedWrites(v.second, t.second);
    }
  }

  /** For such a type the probe says exactly how many bytes are written. */
  lemma {:induction false} ProbeIsExact(v: Value, t: Type)
    requires Probed(t) && Writable(v, t)
    ensures Probe(v, t) == |Write(v)|
    decreases v
  {
    match t
    case Fixed(_) =>
    case Boolean =>
    case Text =>
    case Vector(e) => ItemsExact(v.items, e);
    case List(e) => ItemsExact(v.items, e);
    case Mapping(_, _) => EntriesExact(v.entries, t);
    case Pair(a, b) =>
      ProbeIsExact(v.first, a);
      ProbeIsExact(v.second, b);
  }

  lemma {:induction false} ItemsExact(items: seq<Value>, e: Type)
    requires Probed(e) && (Variable(e) || FixedSize(e)) && AllWritable(items, e)
    ensures ProbeItems(items, e) == |WriteAll(items)|
    decreases items
  {
    hide Write, Probe, Probed, Writable, SizeOf;
    if items != [] {
      ProbeIsExact(items[0], e);
      ItemsExact(items[1..], e);
      if !Variable(e) {
        FixedWrites(items[0], e);
        if |items| > 1 { FixedWrites(items[1], e); }
        Times(|items|, SizeOf(e));
      }
    }
  }

  lemma Times(n: nat, z: nat)
    requires n > 0
    ensures n * z == z + (n - 1) * z && (n == 1 ==> n * z == z)
  {
  }

  lemma {:induction false} EntryExact(x: Entry, t: Type)
    requires t.Mapping? && Probed(t.key) && Probed(t.value) && EntryWritable(x, t)
    ensures Probe(x.key, t.key) + Probe(x.value, t.value) == |WriteEntry(x)|
    decreases x
  {
    hide Write, Probe, Writable, Probed;
    ProbeIsExact(x.key, t.key);
    ProbeIsExact(x.value, t.value);
  }

  lemma {:induction false} EntriesExact(entries: seq<Entry>, t: Type)
    requires t.Mapping? && Probed(t) && EntriesWritable(entries, t)
    ensures ProbeEntries(entries, t) == |WriteEntries(entries)|
    decreases entries
  {
    assert Probed(t.key) && Probed(t.value);
    hide Write, Probe, Writable, SizeOf;
    if entries != [] {
      EntryExact(entries[0], t);
      EntriesExact(entries[1..], t);
      if !Variable(t.key) && !Variable(t.value) {
        FixedEntry(entries[0], t);
        if |entries| > 1 { FixedEntry(entries[1], t); }
        Times(|entries|, SizeOf(t.key) + SizeOf(t.value));
      }
    }
  }

  lemma FixedEntry(x: Entry, t: Type)
    requires t.Mapping? && FixedSize(t.key) && FixedSize(t.value) && EntryWritable(x, t)
    ensures Probe(x.key, t.key) + Probe(x.value, t.value) == SizeOf(t.key) + SizeOf(t.value) == |WriteEntry(x)|
  {
    hide Write, Probe, Writable, SizeOf;
    FixedWrites(x.key, t.key);
    FixedWrites(x.value, t.value);
  }

  // ---------------------------------------------------------------- where the probe is wrong

  /** No type of the source has size zero. */
  predicate Sized(t: Type) {
    match t
    case Fixed(size) => size > 0
    case Boolean => true
    case Text => true
    case Vector(e) => Sized(e)
    case List(e) => Sized(e)
    case Mapping(k, e) => Sized(k) && Sized(e)
    case Pair(a, b) => Sized(a) && Sized(b)
  }

  /** A value with every text and container empty. */
  function Small(t: Type): Value {
    match t
    case Fixed(size) => Raw(seq(size, i => 0))
    case Boolean => Flag(false)
    case Text => Str([])
    case Vector(_) => Items([])
    case List(_) => Items([])
    case Mapping(_, _) => Entries([])
    case Pair(a, b) => Both(Small(a), Small(b))
  }

  /** One of another size, for a type that is not of fixed size. */
  function Bigger(t: Type): Value {
    match t
    case Fixed(_) => Small(t)
    case Boolean => Small(t)
    case Text => Str([0])
    case Vector(e) => Items([Small(e)])
    case List(e) => Items([Small(e)])
    case Mapping(k, e) => Entries([Entry(Small(k), Small(e))])
    case Pair(a, b) => if FixedSize(a) then Both(Small(a), Bigger(b)) else Both(Bigger(a), Small(b))
  }

  /** Another one of the same size, for a type of fixed size. */
  function Other(t: Type): Value {
    match t
    case Fixed(size) => Raw(seq(size, i => 1))
    case Boolean => Flag(true)
    case Pair(a, b) => Both(Other(a), Small(b))
    case _ => Small(t)
  }

  /** A value that the probe gets wrong. */
  function Misprobed(t: Type): Value {
    match t
    case Vector(e) => Items(if Probed(e) then [Small(e), Bigger(e)] else [Misprobed(e)])
    case List(e) => Items(if Probed(e) then [Small(e), Bigger(e)] else [Misprobed(e)])
    case Mapping(k, e) =>
      if !Probed(k) then Entries([Entry(Misprobed(k), Small(e))])
      else if !Probed(e) then Entries([Entry(Small(k), Misprobed(e))])
      else if !FixedSize(k) then Entries([Entry(Small(k), Small(e)), Entry(Bigger(k), Small(e))])
      else Entries([Entry(Small(k), Small(e)), Entry(Other(k), Bigger(e))])
    case Pair(a, b) => if !Probed(a) then Both(Misprobed(a), Small(b)) else Both(Small(a), Misprobed(b))
    case _ => Small(t)
  }

  lemma {:induction false} SmallFacts(t: Type)
    requires Sized(t)
    ensures Writable(Small(t), t) && Probe(Small(t), t) == |Write(Small(t))| > 0
    decreases t
  {
    if t.Pair? {
      SmallFacts(t.first);
      SmallFacts(t.second);
    }
  }

  lemma {:induction false} BiggerFacts(t: Type)
    requires Sized(t) && !FixedSize(t)
    ensures Writable(Bigger(t), t) && |Write(Bigger(t))| > |Write(Small(t))| && Bigger(t) != Small(t)
    decreases t
  {
    match t
    case Text =>
    case Vector(e) => SmallFacts(e); OneItem(Small(e), e);
    case List(e) => SmallFacts(e); OneItem(Small(e), e);
    case Mapping(k, e) => SmallFacts(k); SmallFacts(e); OneEntry(Entry(Small(k), Small(e)), t);
    case Pair(a, b) =>
      SmallFacts(a);
      SmallFacts(b);
      if FixedSize(a) { BiggerFacts(b); } else { BiggerFacts(a); }
  }

  lemma {:induction false} OtherFacts(t: Type)
    requires Sized(t) && FixedSize(t)
    ensures Writable(Other(t), t) && Other(t) != Small(t)
    decreases t
  {
    if t.Pair? {
      OtherFacts(t.first);
      SmallFacts(t.second);
    } else if t.Fixed? {
      assert Other(t).bytes[0] != Small(t).bytes[0];
    }
  }

  lemma OneItem(x: Value, e: Type)
    ensures WriteAll([x]) == Write(x) && (AllWritable([x], e) <==> Writable(x, e))
    ensures ProbeItems([x], e) == Probe(x, e)
  {
    hide Write, Writable, Probe;
    assert [x][1..] == [];
    assert Write(x) + [] == Write(x);
  }

  lemma TwoItems(x: Value, y: Value, e: Type)
    ensures |WriteAll([x, y])| == |Write(x)| + |Write(y)|
    ensures AllWritable([x, y], e) <==> Writable(x, e) && Writable(y, e)
    ensures !Variable(e) ==> ProbeItems([x, y], e) == 2 * Probe(x, e)
  {
    hide Write, Writable, Probe;
    assert [x, y][1..] == [y];
    OneItem(y, e);
  }

  lemma OneEntry(x: Entry, t: Type)
    requires t.Mapping?
    ensures WriteEntries([x]) == WriteEntry(x) && (EntriesWritable([x], t) <==> EntryWritable(x, t))
    ensures ProbeEntries([x], t) == Probe(x.key, t.key) + Probe(x.value, t.value)
  {
    hide Write, Writable, Probe;
    assert [x][1..] == [];
    assert WriteEntry(x) + [] == WriteEntry(x);
  }

  lemma TwoEntries(x: Entry, y: Entry, t: Type)
    requires t.Mapping?
    ensures |WriteEntries([x, y])| == |WriteEntry(x)| + |WriteEntry(y)|
    ensures EntriesWritable([x, y], t) <==> EntryWritable(x, t) && EntryWritable(y, t)
    ensures !Variable(t.key) && !Variable(t.value) ==>
      ProbeEntries([x, y], t) == 2 * (Probe(x.key, t.key) + Probe(x.value, t.value))
  {
    hide Write, Writable, Probe;
    assert [x, y][1..] == [y];
    OneEntry(y, t);
  }

  lemma {:induction false} MisprobedFacts(t: Type)
    requires Sized(t) && !Probed(t)
    ensures Writable(Misprobed(t), t) && Probe(Misprobed(t), t) != |Write(Misprobed(t))|
    decreases t, 1
  {
    match t
    case Vector(e) => MisprobedItems(e);
    case List(e) => MisprobedItems(e);
    case Mapping(k, e) => MisprobedMapping(t);
    case Pair(a, b) =>
      SmallFacts(a);
      SmallFacts(b);
      if !Probed(a) { MisprobedFacts(a); } else { MisprobedFacts(b); }
  }

  lemma {:induction false} MisprobedItems(e: Type)
    requires Sized(e) && !(Probed(e) && (Variable(e) || FixedSize(e)))
    ensures var q := if Probed(e) then [Small(e), Bigger(e)] else [Misprobed(e)];
      AllWritable(q, e) && ProbeItems(q, e) != |WriteAll(q)|
    decreases e, 2
  {
    hide Write, Writable, Probe, Small, Bigger, Misprobed, AllWritable, WriteAll, ProbeItems;
    if Probed(e) {
      SmallFacts(e);
      BiggerFacts(e);
      TwoItems(Small(e), Bigger(e), e);
    } else {
      MisprobedFacts(e);
      OneItem(Misprobed(e), e);
    }
  }

  lemma {:induction false} MisprobedMapping(t: Type)
    requires t.Mapping? && Sized(t) && !Probed(t)
    ensures Writable(Misprobed(t), t) && Probe(Misprobed(t), t) != |Write(Misprobed(t))|
    decreases t, 0
  {
    var k, e := t.key, t.value;
    SmallFacts(k);
    SmallFacts(e);
    MapFacts(Misprobed(t), t);
    hide Writable, Write, Probe;
    if !Probed(k) {
      MisprobedFacts(k);
      OneEntry(Entry(Misprobed(k), Small(e)), t);
    } else if !Probed(e) {
      MisprobedFacts(e);
      OneEntry(Entry(Small(k), Misprobed(e)), t);
    } else if !FixedSize(k) {
      BiggerFacts(k);
      TwoEntries(Entry(Small(k), Small(e)), Entry(Bigger(k), Small(e)), t);
    } else {
      OtherFacts(k);
      BiggerFacts(e);
      FixedWrites(Small(k), k);
      FixedWrites(Other(k), k);
      TwoEntries(Entry(Small(k), Small(e)), Entry(Other(k), Bigger(e)), t);
    }
  }

  /** A map by its entries. */
  lemma MapFacts(v: Value, t: Type)
    requires t.Mapping? && v.Entries?
    ensures |Write(v)| == 4 + |WriteEntries(v.entries)| && Probe(v, t) == 4 + ProbeEntries(v.entries, t)
    ensures Writable(v, t) <==>
      |v.entries| <= MAX_VECTOR && Keys(v.entries) && EntriesWritable(v.entries, t)
  {
  }

  /** The probe is right for all values of a type exactly if the elements of its containers are of
      fixed size or on the list of variable types. */
  lemma ProbeIsRightIff(t: Type)
    requires Sized(t)
    ensures Probed(t) <==> forall v :: Writable(v, t) ==> Probe(v, t) == |Write(v)|
  {
    hide Probed, Writable, Probe, Write;
    if Probed(t) {
      forall v | Writable(v, t) ensures Probe(v, t) == |Write(v)| {
        ProbeIsExact(v, t);
      }
    } else {
      MisprobedFacts(t);
    }
  }

  // ---------------------------------------------------------------- on a buffer

  /** There is room for n more bytes, or the buffer may grow to hold them. */
  ghost predicate Room(b: Buffer, n: nat)
    reads b, b.data
  {
    && (!b.onDemand ==> |b.contents| + n + (if b.circular then 1 else b.readPos) <= b.data.Length)
    && (b.onDemand ==> |b.contents| + n + (if b.circular then 0 else b.readPos) <= MOST)
  }

  method WriteBytes(b: Buffer, bytes: Bytes, ghost more: nat)
    requires b.Valid() && Room(b, |bytes| + more)
    modifies b, b.data
    ensures b.Valid() && b.contents == old(b.contents) + bytes && Room(b, more)
    ensures b.data == old(b.data) || fresh(b.data)
  {
    b.WriteArray(bytes);
  }

  /** Write a value behind the contents; `more` bytes can still be written after it.  It stops at the
      first text or container that is longer than its limit; what was written before stays. */
  method WriteValue(b: Buffer, v: Value, ghost more: nat) returns (ok: bool)
    requires b.Valid() && Room(b, |Emitted(v)| + more)
    modifies b, b.data
    ensures b.Valid() && (ok <==> Within(v)) && b.contents == old(b.contents) + Emitted(v) && Room(b, more)
    ensures b.data == old(b.data) || fresh(b.data)
    decreases v
  {
    hide Buffer.Valid, Room, Word32, Cut;
    ok := true;
    match v
    case Raw(bytes) => WriteBytes(b, bytes, more);
    case Flag(on) => WriteBytes(b, [if on then 1 else 0], more);
    case Str(text) =>
      var n := Cut(|text|);
      if n > MAX_TEXT {
        WriteNothing(b);
        return false;
      }
      WriteBytes(b, Word32(|text|), n + more);
      WriteBytes(b, text[..n], more);
    case Items(items) =>
      if Cut(|items|) > MAX_VECTOR {
        WriteNothing(b);
        return false;
      }
      WriteBytes(b, Word32(|items|), |AllEmitted(items)| + more);
      ok := WriteItems(b, items, more);
    case Entries(entries) =>
      if Cut(|entries|) > MAX_VECTOR {
        WriteNothing(b);
        return false;
      }
      WriteBytes(b, Word32(|entries|), |EntriesEmitted(entries)| + more);
      ok := WriteMapping(b, entries, more);
    case Both(x, y) =>
      ok := WriteValue(b, x, |if Within(x) then Emitted(y) else []| + more);
      if ok {
        ok := WriteValue(b, y, more);
      } else {
        WriteNothing(b);
      }
  }

  lemma WriteNothing(b: Buffer)
    ensures b.contents + [] == b.contents
  {
  }

  method WriteItems(b: Buffer, items: seq<Value>, ghost more: nat) returns (ok: bool)
    requires b.Valid() && Room(b, |AllEmitted(items)| + more)
    modifies b, b.data
    ensures b.Valid() && (ok <==> AllWithin(items)) && b.contents == old(b.contents) + AllEmitted(items)
    ensures Room(b, more)
    ensures b.data == old(b.data) || fresh(b.data)
    decreases items
  {
    hide Buffer.Valid, Room, Emitted, Within;
    ok := true;
    if items != [] {
      ok := WriteValue(b, items[0], |if Within(items[0]) then AllEmitted(items[1..]) else []| + more);
      if ok {
        ok := WriteItems(b, items[1..], more);
      }
    }
  }

  method WriteMapping(b: Buffer, entries: seq<Entry>, ghost more: nat) returns (ok: bool)
    requires b.Valid() && Room(b, |EntriesEmitted(entries)| + more)
    modifies b, b.data
    ensures b.Valid() && (ok <==> EntriesWithin(entries)) && Room(b, more)
    ensures b.contents == old(b.contents) + EntriesEmitted(entries)
    ensures b.data == old(b.data) || fresh(b.data)
    decreases entries
  {
    hide Buffer.Valid, Room, EntryEmitted, EntryWithin;
    ok := true;
    if entries != [] {
      ok := WriteEntryTo(b, entries[0], |if EntryWithin(entries[0]) then EntriesEmitted(entries[1..]) else []| + more);
      if ok {
        ok := WriteMapping(b, entries[1..], more);
      }
    }
  }

  method WriteEntryTo(b: Buffer, x: Entry, ghost more: nat) returns (ok: bool)
    requires b.Valid() && Room(b, |EntryEmitted(x)| + more)
    modifies b, b.data
    ensures b.Valid() && (ok <==> EntryWithin(x)) && b.contents == old(b.contents) + EntryEmitted(x) && Room(b, more)
    ensures b.data == old(b.data) || fresh(b.data)
    decreases x
  {
    hide Buffer.Valid, Room, Emitted, Within;
    ok := WriteValue(b, x.key, |if Within(x.key) then Emitted(x.value) else []| + more);
    if ok {
      ok := WriteValue(b, x.value, more);
    }
  }

  method TakeFront(b: Buffer, n: nat) returns (r: Option<Bytes>)
    requires b.Valid()
    modifies b`readPos, b`contents
    ensures b.Valid()
    ensures match TakeBytes(old(b.contents), n)
      case Failed => r.None?
      case Parsed(x, rest) => r == Some(x) && b.contents == rest
  {
    var size := b.DataSize();
    if size < n {
      return None;
    }
    var bytes := b.ReadArray(n);
    r := Some(bytes);
  }

  method TakeWord32(b: Buffer) returns (r: Option<nat>)
    requires b.Valid()
    modifies b`readPos, b`contents
    ensures b.Valid()
    ensures match ReadWord32(old(b.contents))
      case Failed => r.None?
      case Parsed(n, rest) => r == Some(n) && b.contents == rest
  {
    var w := TakeFront(b, 4);
    if w.None? {
      return None;
    }
    var q := w.value;
    r := Some(q[0] + 256 * (q[1] as int + 256 * (q[2] as int + 256 * (q[3] as int))));
  }

  /** Read a value of the type off the front. */
  method ReadValue(b: Buffer, t: Type) returns (r: Option<Value>)
    requires b.Valid()
    modifies b`readPos, b`contents
    ensures b.Valid()
    ensures match Read(t, old(b.contents))
      case Failed => r.None?
      case Parsed(v, rest) => r == Some(v) && b.contents == rest
    decreases t, 1, 0
  {
    hide Buffer.Valid, ReadWord32, TakeBytes;
    match t
    case Fixed(size) =>
      var bytes := TakeFront(b, size);
      r := if bytes.None? then None else Some(Raw(bytes.value));
    case Boolean =>
      TakesOne(b.contents);
      var bytes := TakeFront(b, 1);
      r := if bytes.None? then None else Some(Flag(bytes.value[0] > 0));
    case Text =>
      var n := TakeWord32(b);
      if n.None? || n.value > MAX_TEXT {
        return None;
      }
      var bytes := TakeFront(b, n.value);
      r := if bytes.None? then None else Some(Str(bytes.value));
    case Vector(e) =>
      var n := TakeWord32(b);
      if n.None? || n.value > MAX_VECTOR {
        return None;
      }
      r := ReadAll(b, e, n.value);
    case List(e) =>
      var n := TakeWord32(b);
      if n.None? || n.value > MAX_LIST {
        return None;
      }
      r := ReadAll(b, e, n.value);
    case Mapping(_, _) =>
      var n := TakeWord32(b);
      if n.None? || n.value > MAX_LIST {
        return None;
      }
      r := ReadMapping(b, t, n.value);
    case Pair(x, y) =>
      var first := ReadValue(b, x);
      if first.None? {
        return None;
      }
      var second := ReadValue(b, y);
      r := if second.None? then None else Some(Both(first.value, second.value));
  }

  lemma TakesOne(q: Bytes)
    ensures TakeBytes(q, 1).Parsed? ==> |TakeBytes(q, 1).value| == 1
  {
  }

  method ReadAll(b: Buffer, e: Type, n: nat) returns (r: Option<Value>)
    requires b.Valid()
    modifies b`readPos, b`contents
    ensures b.Valid()
    ensures match ReadItems(e, n, [], old(b.contents))
      case Failed => r.None?
      case Parsed(v, rest) => r == Some(v) && b.contents == rest
    decreases e, 2, n
  {
    hide Buffer.Valid, Read;
    var i, items := 0, [];
    while i < n
      invariant 0 <= i <= n && b.Valid()
      invariant ReadItems(e, n, [], old(b.contents)) == ReadItems(e, n - i, items, b.contents)
    {
      var x := ReadValue(b, e);
      if x.None? {
        return None;
      }
      items := items + [x.value];
      i := i + 1;
    }
    r := Some(Items(items));
  }

  method ReadMapping(b: Buffer, t: Type, n: nat) returns (r: Option<Value>)
    requires b.Valid() && t.Mapping?
    modifies b`readPos, b`contents
    ensures b.Valid()
    ensures match ReadEntries(t, n, [], old(b.contents))
      case Failed => r.None?
      case Parsed(v, rest) => r == Some(v) && b.contents == rest
    decreases t, 0, n
  {
    hide Buffer.Valid, Read, Assign;
    var i, entries := 0, [];
    while i < n
      invariant 0 <= i <= n && b.Valid()
      invariant ReadEntries(t, n, [], old(b.contents)) == ReadEntries(t, n - i, entries, b.contents)
    {
      var x := ReadValue(b, t.key);
      if x.None? {
        return None;
      }
      var y := ReadValue(b, t.value);
      if y.None? {
        return None;
      }
      entries := Assign(entries, x.value, y.value);
      i := i + 1;
    }
    r := Some(Entries(entries));
  }

  /** Through a buffer, plain or circular, of fixed size or growing, whatever bytes follow: the value
      read is the value written, and the bytes behind it are still there. */
  method WriteThenRead(b: Buffer, v: Value, t: Type, behind: Bytes) returns (r: Option<Value>)
    requires b.Valid() && b.contents == [] && Room(b, |Write(v)| + |behind|)
    requires Writable(v, t)
    modifies b, b.data
    ensures b.Valid() && r == Some(v) && b.contents == behind
  {
    hide Buffer.Valid, Room, Write, Read, Writable, Within;
    WritableIff(v, t);
    AllIsEmitted(v);
    var ok := WriteValue(b, v, |behind|);
    assert [] + Write(v) == Write(v);
    assert |behind| + 0 == |behind|;
    WriteBytes(b, behind, 0);
    RoundTrip(v, t, behind);
    r := ReadValue(b, t);
  }
}

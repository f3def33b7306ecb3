/**
 The GGUF v3 header: the writer's layout, the bounded little-endian reader and the
 recursive value skipper. Scalars are kept as their raw bytes, strings as UTF-8.
 */
module Gguf {
  import opened Numeric
  import opened Types
  import opened Utf8

  const MAX_STRING_LEN: nat := 64 * 1024
  const MAX_METADATA_ENTRIES: nat := 256 * 1024
  const SUPPORTED_VERSION: nat := 3
  const MAGIC: Bytes := [0x47, 0x47, 0x55, 0x46]
  const TYPE_UINT32: nat := 4
  const TYPE_STRING: nat := 8
  const TYPE_ARRAY: nat := 9

  datatype ParseError =
    | Truncated | BadMagic | BadVersion | TooManyEntries | StringTooLong | BadUtf8 | ArrayTooLong | UnknownType

  datatype Result<+T> = Ok(value: T) | Err(error: ParseError) {
    predicate IsFailure() { Err? }

    function PropagateFailure<U>(): Result<U>
      requires Err?
    {
      Err(error)
    }

    function Extract(): T
      requires Ok?
    {
      value
    }
  }

  datatype Header = Header(tensorCount: nat, metadataCount: nat, architecture: Option<Bytes>, fileType: Option<nat>)

  // ----- Little-endian integers -----

  function Le(n: nat, w: nat): (b: Bytes)
    ensures |b| == w
  {
    if w == 0 then [] else [n % 256] + Le(n / 256, w - 1)
  }

  function FromLe(b: Bytes): nat {
    if b == [] then 0 else b[0] + 256 * FromLe(b[1..])
  }

  lemma {:induction false} LeRoundTrip(n: nat, w: nat)
    requires n < Pow256(w)
    ensures FromLe(Le(n, w)) == n
  {
    if w > 0 {
      LeRoundTrip(n / 256, w - 1);
      assert Le(n, w)[1..] == Le(n / 256, w - 1);
    }
  }

  lemma LowByte(lo: u8, high: nat)
    ensures (lo + 256 * high) % 256 == lo && (lo + 256 * high) / 256 == high
  {
  }

  lemma {:induction false} FromLeRoundTrip(b: Bytes)
    ensures FromLe(b) < Pow256(|b|) && Le(FromLe(b), |b|) == b
  {
    if b != [] {
      FromLeRoundTrip(b[1..]);
      LowByte(b[0], FromLe(b[1..]));
      assert b == [b[0]] + b[1..];
    }
  }

  // ----- Documents and their encoding -----

  datatype Value = Scalar(ty: nat, raw: Bytes) | Str(text: Bytes) | Arr(elemTy: nat, elems: seq<Value>)

  /** Byte width of a scalar type, 0 for strings, arrays and unknown types. */
  function Width(ty: nat): nat {
    if ty in {0, 1, 7} then 1 else if ty in {2, 3} then 2 else if ty in {4, 5, 6} then 4
      else if ty in {10, 11, 12} then 8 else 0
  }

  /** Scalars of types 0, 1 and 7 take one byte, of 2 and 3 two, of 4 to 6 four, of 10 to 12 eight; no other
      type is a scalar. */
  lemma WidthsAre(ty: nat)
    ensures (Width(ty) == 1 <==> ty in {0, 1, 7}) && (Width(ty) == 2 <==> ty in {2, 3})
    ensures (Width(ty) == 4 <==> 4 <= ty <= 6) && (Width(ty) == 8 <==> 10 <= ty <= 12)
    ensures Width(ty) > 0 <==> ty in {0, 1, 2, 3, 4, 5, 6, 7, 10, 11, 12}
  {
  }

  function TypeOf(v: Value): nat {
    match v
    case Scalar(ty, _) => ty
    case Str(_) => TYPE_STRING
    case Arr(_, _) => TYPE_ARRAY
  }

  predicate GoodString(s: Bytes) {
    |s| <= MAX_STRING_LEN && IsUtf8(s)
  }

  /** A value the format can hold within the parser's caps, arrays nested to any depth. */
  predicate Good(v: Value) {
    match v
    case Scalar(ty, raw) => Width(ty) > 0 && |raw| == Width(ty)
    case Str(text) => GoodString(text)
    case Arr(elemTy, elems) =>
      elemTy < Pow256(4) && |elems| <= MAX_METADATA_ENTRIES && forall e :: e in elems ==> Good(e) && TypeOf(e) == elemTy
  }

  function WriteString(s: Bytes): Bytes {
    Le(|s|, 8) + s
  }

  function Write(v: Value): Bytes
    decreases v, 0
  {
    match v
    case Scalar(_, raw) => raw
    case Str(text) => WriteString(text)
    case Arr(elemTy, elems) => Le(elemTy, 4) + Le(|elems|, 8) + WriteAll(elems)
  }

  function WriteAll(vs: seq<Value>): Bytes
    decreases vs, 0
  {
    if vs == [] then [] else Write(vs[0]) + WriteAll(vs[1..])
  }

  datatype Entry = Entry(key: Bytes, value: Value)

  datatype Doc = Doc(tensorCount: nat, entries: seq<Entry>)

  predicate GoodEntry(e: Entry) {
    GoodString(e.key) && Good(e.value)
  }

  predicate GoodDoc(d: Doc) {
    d.tensorCount < Pow256(8) && |d.entries| <= MAX_METADATA_ENTRIES && forall e :: e in d.entries ==> GoodEntry(e)
  }

  function WriteEntry(e: Entry): Bytes {
    WriteString(e.key) + Le(TypeOf(e.value), 4) + Write(e.value)
  }

  function WriteEntries(es: seq<Entry>): Bytes
    decreases |es|
  {
    if es == [] then [] else WriteEntry(es[0]) + WriteEntries(es[1..])
  }

  function WriteDoc(d: Doc): Bytes {
    MAGIC + Le(SUPPORTED_VERSION, 4) + Le(d.tensorCount, 8) + Le(|d.entries|, 8) + WriteEntries(d.entries)
  }

  function Ascii(s: string): Bytes
    requires forall i :: 0 <= i < |s| ==> s[i] < 128 as char
  {
    seq(|s|, i requires 0 <= i < |s| => s[i] as int as u8)
  }

  function ArchitectureKey(): Bytes {
    Ascii("general.architecture")
  }

  function FileTypeKey(): Bytes {
    Ascii("general.file_type")
  }

  /** One entry read into the header: the last of each known key wins. */
  function Noted(h: Header, e: Entry): Header {
    if e.key == ArchitectureKey() && e.value.Str? then h.(architecture := Some(e.value.text))
    else if e.key == FileTypeKey() && e.value.Scalar? && e.value.ty == TYPE_UINT32 then
      h.(fileType := Some(FromLe(e.value.raw)))
    else h
  }

  function NotedAll(h: Header, es: seq<Entry>): Header
    decreases |es|
  {
    if es == [] then h else NotedAll(Noted(h, es[0]), es[1..])
  }

  function HeaderOf(d: Doc): Header {
    NotedAll(Header(d.tensorCount, |d.entries|, None, None), d.entries)
  }

  // ----- What the parser answers, on the bytes still unread -----

  datatype Read<+T> = Read(value: T, rest: Bytes)

  function Take(s: Bytes, n: nat): (r: Result<Read<Bytes>>)
    ensures r.Ok? ==> |r.value.rest| == |s| - n && s == r.value.value + r.value.rest
  {
    if n > |s| then Err(Truncated) else Ok(Read(s[..n], s[n..]))
  }

  function TakeUint(s: Bytes, w: nat): (r: Result<Read<nat>>)
    ensures r.Ok? ==> |r.value.rest| == |s| - w
  {
    var raw :- Take(s, w);
    Ok(Read(FromLe(raw.value), raw.rest))
  }

  function TakeString(s: Bytes): (r: Result<Read<Bytes>>)
    ensures r.Ok? ==> |r.value.rest| <= |s| - 8
  {
    var len :- TakeUint(s, 8);
    if len.value > MAX_STRING_LEN then Err(StringTooLong)
    else
      var text :- Take(len.rest, len.value);
      if IsUtf8(text.value) then Ok(text) else Err(BadUtf8)
  }

  /** What remains after one value of type `ty`; every value takes at least one byte. */
  function Skip(s: Bytes, ty: nat): (r: Result<Bytes>)
    ensures r.Ok? ==> |r.value| < |s|
    decreases |s|, 0, 0
  {
    if Width(ty) > 0 then
      var raw :- Take(s, Width(ty));
      Ok(raw.rest)
    else if ty == TYPE_STRING then
      var text :- TakeString(s);
      Ok(text.rest)
    else if ty == TYPE_ARRAY then
      var elemTy :- TakeUint(s, 4);
      var n :- TakeUint(elemTy.rest, 8);
      if n.value > MAX_METADATA_ENTRIES then Err(ArrayTooLong) else SkipMany(n.rest, elemTy.value, n.value)
    else Err(UnknownType)
  }

  function SkipMany(s: Bytes, ty: nat, n: nat): (r: Result<Bytes>)
    ensures r.Ok? ==> |r.value| <= |s|
    decreases |s|, 1, n
  {
    if n == 0 then Ok(s)
    else
      var rest :- Skip(s, ty);
      SkipMany(rest, ty, n - 1)
  }

  /** Reads or skips the value of an entry with this key and type. */
  function ParseField(key: Bytes, ty: nat, s: Bytes, h: Header): (r: Result<Read<Header>>)
    ensures r.Ok? ==> |r.value.rest| < |s|
  {
    if key == ArchitectureKey() && ty == TYPE_STRING then
      var text :- TakeString(s);
      Ok(Read(h.(architecture := Some(text.value)), text.rest))
    else if key == FileTypeKey() && ty == TYPE_UINT32 then
      var n :- TakeUint(s, 4);
      Ok(Read(h.(fileType := Some(n.value)), n.rest))
    else
      var rest :- Skip(s, ty);
      Ok(Read(h, rest))
  }

  function ParseEntry(s: Bytes, h: Header): Result<Read<Header>> {
    var key :- TakeString(s);
    var ty :- TakeUint(key.rest, 4);
    ParseField(key.value, ty.value, ty.rest, h)
  }

  function ParseEntries(s: Bytes, h: Header, n: nat): Result<Read<Header>>
    decreases n
  {
    if n == 0 then Ok(Read(h, s))
    else
      var one :- ParseEntry(s, h);
      ParseEntries(one.rest, one.value, n - 1)
  }

  function Parse(buf: Bytes): Result<Header> {
    var magic :- Take(buf, 4);
    if magic.value != MAGIC then Err(BadMagic)
    else
      var version :- TakeUint(magic.rest, 4);
      if version.value != SUPPORTED_VERSION then Err(BadVersion)
      else
        var tensors :- TakeUint(version.rest, 8);
        var count :- TakeUint(tensors.rest, 8);
        if count.value > MAX_METADATA_ENTRIES then Err(TooManyEntries)
        else
          var all :- ParseEntries(count.rest, Header(tensors.value, count.value, None, None), count.value);
          Ok(all.value)
  }

  // ----- The reader -----

  class Reader {
    const buf: Bytes
    var pos: nat

    ghost predicate Valid()
      reads this
    {
      pos <= |buf|
    }

    function Rest(): Bytes
      requires Valid()
      reads this
    {
      buf[pos..]
    }

    constructor (buf: Bytes)
      ensures Valid() && Rest() == buf
    {
      this.buf, pos := buf, 0;
      new;
      assert buf[0..] == buf;
    }

    method ReadBytes(n: nat) returns (r: Result<Bytes>)
      requires Valid()
      modifies this
      ensures Valid()
      ensures match Take(old(Rest()), n)
        case Ok(read) => r == Ok(read.value) && Rest() == read.rest
        case Err(e) => r == Err(e)
    {
      if pos + n > |buf| {
        return Err(Truncated);
      }
      r := Ok(buf[pos..pos + n]);
      assert buf[pos..][..n] == buf[pos..pos + n] && buf[pos..][n..] == buf[pos + n..];
      pos := pos + n;
    }

    method ReadUint(w: nat) returns (r: Result<nat>)
      requires Valid()
      modifies this
      ensures Valid()
      ensures match TakeUint(old(Rest()), w)
        case Ok(read) => r == Ok(read.value) && Rest() == read.rest
        case Err(e) => r == Err(e)
    {
      var raw :- ReadBytes(w);
      r := Ok(FromLe(raw));
    }

    method ReadString() returns (r: Result<Bytes>)
      requires Valid()
      modifies this
      ensures Valid()
      ensures match TakeString(old(Rest()))
        case Ok(read) => r == Ok(read.value) && Rest() == read.rest
        case Err(e) => r == Err(e)
    {
      var len :- ReadUint(8);
      if len > MAX_STRING_LEN {
        return Err(StringTooLong);
      }
      var text :- ReadBytes(len);
      r := if IsUtf8(text) then Ok(text) else Err(BadUtf8);
    }

    method SkipValue(ty: nat) returns (r: Result<()>)
      requires Valid()
      modifies this
      ensures Valid()
      ensures match Skip(old(Rest()), ty)
        case Ok(rest) => r.Ok? && Rest() == rest
        case Err(e) => r == Err(e)
      decreases |Rest()|
    {
      if Width(ty) > 0 {
        var _ :- ReadBytes(Width(ty));
      } else if ty == TYPE_STRING {
        var _ :- ReadString();
      } else if ty == TYPE_ARRAY {
        var elemTy :- ReadUint(4);
        var n :- ReadUint(8);
        if n > MAX_METADATA_ENTRIES {
          return Err(ArrayTooLong);
        }
        ghost var start := Rest();
        for i := 0 to n
          invariant Valid() && |Rest()| <= |start| < |old(Rest())|
          invariant SkipMany(start, elemTy, n) == SkipMany(Rest(), elemTy, n - i)
        {
          var _ :- SkipValue(elemTy);
        }
      } else {
        return Err(UnknownType);
      }
      r := Ok(());
    }
  }

  method ReadEntry(reader: Reader, h: Header) returns (r: Result<Header>)
    requires reader.Valid()
    modifies reader
    ensures reader.Valid()
    ensures match ParseEntry(old(reader.Rest()), h)
      case Ok(read) => r == Ok(read.value) && reader.Rest() == read.rest
      case Err(e) => r == Err(e)
  {
    hide ArchitectureKey, FileTypeKey;
    var key :- reader.ReadString();
    var ty :- reader.ReadUint(4);
    if key == ArchitectureKey() && ty == TYPE_STRING {
      var text :- reader.ReadString();
      r := Ok(h.(architecture := Some(text)));
    } else if key == FileTypeKey() && ty == TYPE_UINT32 {
      var n :- reader.ReadUint(4);
      r := Ok(h.(fileType := Some(n)));
    } else {
      var _ :- reader.SkipValue(ty);
      r := Ok(h);
    }
  }

  method ParseHeaderBytes(buf: Bytes) returns (r: Result<Header>)
    ensures r == Parse(buf)
  {
    hide ParseEntry, Take, TakeUint, Reader.Valid, Reader.Rest;
    var reader := new Reader(buf);
    var magic :- reader.ReadBytes(4);
    if magic != MAGIC {
      return Err(BadMagic);
    }
    var version :- reader.ReadUint(4);
    if version != SUPPORTED_VERSION {
      return Err(BadVersion);
    }
    var tensorCount :- reader.ReadUint(8);
    var metadataCount :- reader.ReadUint(8);
    if metadataCount > MAX_METADATA_ENTRIES {
      return Err(TooManyEntries);
    }
    var h := Header(tensorCount, metadataCount, None, None);
    ghost var start, h0 := reader.Rest(), h;
    for i := 0 to metadataCount
      invariant reader.Valid()
      invariant ParseEntries(start, h0, metadataCount) == ParseEntries(reader.Rest(), h, metadataCount - i)
    {
      h :- ReadEntry(reader, h);
    }
    r := Ok(h);
  }

  // ----- Writing then parsing -----

  lemma TakeWritten(a: Bytes, rest: Bytes)
    ensures Take(a + rest, |a|) == Ok(Read(a, rest))
  {
  }

  lemma TakeUintWritten(n: nat, w: nat, rest: Bytes)
    requires n < Pow256(w)
    ensures TakeUint(Le(n, w) + rest, w) == Ok(Read(n, rest))
  {
    LeRoundTrip(n, w);
    TakeWritten(Le(n, w), rest);
  }

  lemma Pow256Values()
    ensures Pow256(4) == 0x1_0000_0000 && Pow256(8) == 0x1_0000_0000_0000_0000
  {
    assert Pow256(2) == 0x1_0000;
    assert Pow256(4) == 256 * (256 * Pow256(2));
    assert Pow256(6) == 256 * (256 * Pow256(4));
  }

  lemma TakeStringWritten(s: Bytes, rest: Bytes)
    requires GoodString(s)
    ensures TakeString(WriteString(s) + rest) == Ok(Read(s, rest))
  {
    Pow256Values();
    assert WriteString(s) + rest == Le(|s|, 8) + (s + rest);
    TakeUintWritten(|s|, 8, s + rest);
    TakeWritten(s, rest);
  }

  lemma {:induction false} SkipWritten(v: Value, rest: Bytes)
    requires Good(v)
    ensures Skip(Write(v) + rest, TypeOf(v)) == Ok(rest)
    decreases v, 0, 0
  {
    match v
    case Scalar(_, raw) => TakeWritten(raw, rest);
    case Str(text) => TakeStringWritten(text, rest);
    case Arr(elemTy, elems) =>
      Pow256Values();
      var tail := WriteAll(elems) + rest;
      assert Write(v) + rest == Le(elemTy, 4) + (Le(|elems|, 8) + tail);
      TakeUintWritten(elemTy, 4, Le(|elems|, 8) + tail);
      TakeUintWritten(|elems|, 8, tail);
      SkipManyWritten(elems, elemTy, rest);
  }

  lemma {:induction false} SkipManyWritten(vs: seq<Value>, ty: nat, rest: Bytes)
    requires forall v :: v in vs ==> Good(v) && TypeOf(v) == ty
    ensures SkipMany(WriteAll(vs) + rest, ty, |vs|) == Ok(rest)
    decreases vs, 0, |vs|
  {
    if vs == [] {
      assert [] + rest == rest;
    } else {
      var later := WriteAll(vs[1..]) + rest;
      assert WriteAll(vs) + rest == Write(vs[0]) + later;
      SkipWritten(vs[0], later);
      SkipManyWritten(vs[1..], ty, rest);
    }
  }

  lemma ParseEntryWritten(e: Entry, h: Header, rest: Bytes)
    requires GoodEntry(e)
    ensures ParseEntry(WriteEntry(e) + rest, h) == Ok(Read(Noted(h, e), rest))
  {
    hide ArchitectureKey, FileTypeKey;
    var ty := TypeOf(e.value);
    var body := Write(e.value) + rest;
    Pow256Values();
    assert ty < Pow256(4);
    assert WriteEntry(e) + rest == WriteString(e.key) + (Le(ty, 4) + body);
    TakeStringWritten(e.key, Le(ty, 4) + body);
    TakeUintWritten(ty, 4, body);
    SkipWritten(e.value, rest);
    if e.value.Str? {
      TakeStringWritten(e.value.text, rest);
    } else if e.value.Scalar? {
      TakeWritten(e.value.raw, rest);
    }
  }

  lemma {:induction false} ParseEntriesWritten(es: seq<Entry>, h: Header, rest: Bytes)
    requires forall e :: e in es ==> GoodEntry(e)
    ensures ParseEntries(WriteEntries(es) + rest, h, |es|) == Ok(Read(NotedAll(h, es), rest))
    decreases |es|
  {
    hide ArchitectureKey, FileTypeKey, ParseEntry, Noted, WriteEntry;
    if es == [] {
      assert [] + rest == rest;
    } else {
      var later := WriteEntries(es[1..]) + rest;
      assert WriteEntries(es) + rest == WriteEntry(es[0]) + later;
      ParseEntryWritten(es[0], h, later);
      ParseEntriesWritten(es[1..], Noted(h, es[0]), rest);
    }
  }

  /** Every document within the caps, written and followed by anything, parses back. */
  lemma WriteThenParse(d: Doc, suffix: Bytes)
    requires GoodDoc(d)
    ensures Parse(WriteDoc(d) + suffix) == Ok(HeaderOf(d))
  {
    hide ArchitectureKey, FileTypeKey, ParseEntry, ParseEntries, WriteEntries, NotedAll;
    Pow256Values();
    var body := WriteEntries(d.entries) + suffix;
    var afterTensors := Le(|d.entries|, 8) + body;
    var afterVersion := Le(d.tensorCount, 8) + afterTensors;
    var afterMagic := Le(SUPPORTED_VERSION, 4) + afterVersion;
    assert WriteDoc(d) + suffix == MAGIC + afterMagic;
    TakeWritten(MAGIC, afterMagic);
    TakeUintWritten(SUPPORTED_VERSION, 4, afterVersion);
    TakeUintWritten(d.tensorCount, 8, afterTensors);
    TakeUintWritten(|d.entries|, 8, body);
    ParseEntriesWritten(d.entries, Header(d.tensorCount, |d.entries|, None, None), suffix);
  }

  // ----- Whatever parses was written so -----

  lemma TakenUint(s: Bytes, w: nat)
    requires TakeUint(s, w).Ok?
    ensures var read := TakeUint(s, w).value; read.value < Pow256(w) && s == Le(read.value, w) + read.rest
  {
    FromLeRoundTrip(s[..w]);
  }

  lemma TakenString(s: Bytes)
    requires TakeString(s).Ok?
    ensures var read := TakeString(s).value; GoodString(read.value) && s == WriteString(read.value) + read.rest
  {
    TakenUint(s, 8);
  }

  lemma SkippedScalar(s: Bytes, ty: nat)
    requires Width(ty) > 0 && Skip(s, ty).Ok?
    ensures Width(ty) <= |s| && Good(Scalar(ty, s[..Width(ty)]))
    ensures s == Write(Scalar(ty, s[..Width(ty)])) + Skip(s, ty).value
  {
    hide FromLe, Le, SkipMany;
  }

  lemma SkippedString(s: Bytes)
    requires Skip(s, TYPE_STRING).Ok?
    ensures TakeString(s).Ok?
    ensures var v := Str(TakeString(s).value.value); Good(v) && s == Write(v) + Skip(s, TYPE_STRING).value
  {
    assert Width(TYPE_STRING) == 0;
    hide WriteString, TakeString, SkipMany, GoodString, Le, FromLe, Width;
    TakenString(s);
  }

  /** The element type and count of a skipped array, and what follows them. */
  lemma ArrayHead(s: Bytes, ty: nat) returns (elemTy: nat, n: nat, body: Bytes)
    requires Width(ty) == 0 && ty != TYPE_STRING && Skip(s, ty).Ok?
    ensures ty == TYPE_ARRAY && elemTy < Pow256(4) && n <= MAX_METADATA_ENTRIES && |body| < |s|
    ensures s == Le(elemTy, 4) + (Le(n, 8) + body) && SkipMany(body, elemTy, n).Ok?
      && Skip(s, ty) == SkipMany(body, elemTy, n)
  {
    TakenUint(s, 4);
    var first := TakeUint(s, 4).value;
    TakenUint(first.rest, 8);
    hide TakeUint, Le, SkipMany, Pow256;
    var second := TakeUint(first.rest, 8).value;
    elemTy, n, body := first.value, second.value, second.rest;
  }

  lemma Regroup(a: Bytes, b: Bytes, c: Bytes, d: Bytes)
    ensures a + (b + (c + d)) == a + b + c + d
  {
  }

  lemma ArrayWritten(elemTy: nat, elems: seq<Value>, rest: Bytes)
    requires elemTy < Pow256(4) && |elems| <= MAX_METADATA_ENTRIES && forall v :: v in elems ==>
      Good(v) && TypeOf(v) == elemTy
    ensures Good(Arr(elemTy, elems))
    ensures Write(Arr(elemTy, elems)) + rest == Le(elemTy, 4) + (Le(|elems|, 8) + (WriteAll(elems) + rest))
  {
    hide Le, WriteAll, Pow256;
    Regroup(Le(elemTy, 4), Le(|elems|, 8), WriteAll(elems), rest);
  }

  lemma {:induction false} SkippedIsValue(s: Bytes, ty: nat) returns (v: Value)
    requires Skip(s, ty).Ok?
    ensures Good(v) && TypeOf(v) == ty && s == Write(v) + Skip(s, ty).value
    decreases |s|, 0, 0
  {
    hide Skip, Good, Write, Le, Pow256, Width, TakeString;
    if Width(ty) > 0 {
      SkippedScalar(s, ty);
      v := Scalar(ty, s[..Width(ty)]);
    } else if ty == TYPE_STRING {
      SkippedString(s);
      v := Str(TakeString(s).value.value);
    } else {
      var elemTy, n, body := ArrayHead(s, ty);
      var elems := SkippedAreValues(body, elemTy, n);
      ArrayWritten(elemTy, elems, SkipMany(body, elemTy, n).value);
      v := Arr(elemTy, elems);
    }
  }

  lemma {:induction false} SkippedAreValues(s: Bytes, ty: nat, n: nat) returns (vs: seq<Value>)
    requires SkipMany(s, ty, n).Ok?
    ensures |vs| == n && (forall v :: v in vs ==> Good(v) && TypeOf(v) == ty)
    ensures s == WriteAll(vs) + SkipMany(s, ty, n).value
    decreases |s|, 1, n
  {
    if n == 0 {
      vs := [];
      assert [] + s == s;
    } else {
      hide Good, Write, TypeOf, Width, TakeUint, TakeString;
      var v := SkippedIsValue(s, ty);
      var later := SkippedAreValues(Skip(s, ty).value, ty, n - 1);
      vs := [v] + later;
      assert vs[1..] == later;
    }
  }

  lemma ParsedIsValue(key: Bytes, ty: nat, s: Bytes, h: Header) returns (v: Value)
    requires ParseField(key, ty, s, h).Ok?
    ensures var read := ParseField(key, ty, s, h).value;
      Good(v) && TypeOf(v) == ty && s == Write(v) + read.rest && read.value == Noted(h, Entry(key, v))
  {
    hide ArchitectureKey, FileTypeKey;
    if key == ArchitectureKey() && ty == TYPE_STRING {
      TakenString(s);
      v := Str(TakeString(s).value.value);
    } else if key == FileTypeKey() && ty == TYPE_UINT32 {
      v := Scalar(TYPE_UINT32, s[..4]);
    } else {
      v := SkippedIsValue(s, ty);
    }
  }

  lemma ParsedIsEntry(s: Bytes, h: Header) returns (e: Entry)
    requires ParseEntry(s, h).Ok?
    ensures var read := ParseEntry(s, h).value;
      GoodEntry(e) && s == WriteEntry(e) + read.rest && read.value == Noted(h, e)
  {
    hide ParseField, Noted, WriteString, Write, Le, TakeString, TakeUint;
    var key := TakeString(s).value;
    var ty := TakeUint(key.rest, 4).value;
    TakenString(s);
    TakenUint(key.rest, 4);
    var v := ParsedIsValue(key.value, ty.value, ty.rest, h);
    e := Entry(key.value, v);
    Regroup(WriteString(key.value), Le(ty.value, 4), Write(v), ParseEntry(s, h).value.rest);
  }

  lemma {:induction false} ParsedAreEntries(s: Bytes, h: Header, n: nat) returns (es: seq<Entry>)
    requires ParseEntries(s, h, n).Ok?
    ensures var read := ParseEntries(s, h, n).value;
      && |es| == n && (forall e :: e in es ==> GoodEntry(e))
      && s == WriteEntries(es) + read.rest && read.value == NotedAll(h, es)
    decreases n
  {
    hide ArchitectureKey, FileTypeKey, ParseEntry, Noted, WriteEntry;
    if n == 0 {
      es := [];
      assert [] + s == s;
    } else {
      var e := ParsedIsEntry(s, h);
      var one := ParseEntry(s, h).value;
      var later := ParsedAreEntries(one.rest, one.value, n - 1);
      es := [e] + later;
      assert es[1..] == later;
    }
  }

  lemma ParsedIsDoc(buf: Bytes) returns (d: Doc, suffix: Bytes)
    requires Parse(buf).Ok?
    ensures GoodDoc(d) && buf == WriteDoc(d) + suffix && Parse(buf) == Ok(HeaderOf(d))
  {
    hide ArchitectureKey, FileTypeKey, ParseEntry, ParseEntries, WriteEntries, NotedAll, TakeUint, Le, GoodEntry;
    var magic := Take(buf, 4).value;
    assert buf == MAGIC + magic.rest;
    var version := TakeUint(magic.rest, 4).value;
    var tensors := TakeUint(version.rest, 8).value;
    var count := TakeUint(tensors.rest, 8).value;
    TakenUint(magic.rest, 4);
    TakenUint(version.rest, 8);
    TakenUint(tensors.rest, 8);
    var h := Header(tensors.value, count.value, None, None);
    var es := ParsedAreEntries(count.rest, h, count.value);
    d := Doc(tensors.value, es);
    suffix := ParseEntries(count.rest, h, count.value).value.rest;
    Regroup(Le(version.value, 4), Le(tensors.value, 8), Le(count.value, 8), WriteEntries(es) + suffix);
    assert WriteDoc(d) + suffix ==
      MAGIC + (Le(version.value, 4) + Le(tensors.value, 8) + Le(count.value, 8) + (WriteEntries(es) + suffix));
  }

  /** The parser accepts a buffer exactly when it starts with a document within the
      caps, and then answers that document's header. */
  lemma ParseExactly(buf: Bytes, h: Header)
    ensures Parse(buf) == Ok(h) <==>
      exists d: Doc, suffix: Bytes :: GoodDoc(d) && buf == WriteDoc(d) + suffix && h == HeaderOf(d)
  {
    if Parse(buf) == Ok(h) {
      var d, suffix := ParsedIsDoc(buf);
      assert GoodDoc(d) && buf == WriteDoc(d) + suffix && h == HeaderOf(d);
    }
    if d: Doc, suffix: Bytes :| GoodDoc(d) && buf == WriteDoc(d) + suffix && h == HeaderOf(d) {
      WriteThenParse(d, suffix);
    }
  }

  // ----- What the header says -----

  predicate NamesArchitecture(e: Entry) {
    e.key == Ascii("general.architecture") && e.value.Str?
  }

  predicate NamesFileType(e: Entry) {
    e.key == Ascii("general.file_type") && e.value.Scalar? && e.value.ty == 4
  }

  /** Index of the last entry that satisfies `p`, if there is one. */
  ghost predicate IsLast(es: seq<Entry>, i: nat, p: Entry -> bool) {
    i < |es| && p(es[i]) && forall j :: i < j < |es| ==> !p(es[j])
  }

  lemma NotedAllSnoc(h: Header, es: seq<Entry>, e: Entry)
    ensures NotedAll(h, es + [e]) == Noted(NotedAll(h, es), e)
    decreases |es|
  {
    if es == [] {
      assert [] + [e] == [e];
    } else {
      assert (es + [e])[1..] == es[1..] + [e];
      NotedAllSnoc(Noted(h, es[0]), es[1..], e);
    }
  }

  lemma KeysDiffer()
    ensures ArchitectureKey() != FileTypeKey()
  {
    assert |ArchitectureKey()| == 20 && |FileTypeKey()| == 17;
  }

  lemma {:induction false} CountsNoted(h: Header, es: seq<Entry>)
    ensures NotedAll(h, es).tensorCount == h.tensorCount && NotedAll(h, es).metadataCount == h.metadataCount
    decreases |es|
  {
    if es != [] {
      CountsNoted(Noted(h, es[0]), es[1..]);
    }
  }

  lemma {:induction false} LastArchitecture(h: Header, es: seq<Entry>)
    ensures (forall e :: e in es ==> !NamesArchitecture(e)) ==> NotedAll(h, es).architecture == h.architecture
    ensures forall i: nat :: IsLast(es, i, NamesArchitecture) ==>
      NotedAll(h, es).architecture == Some(es[i].value.text)
  {
    if es != [] {
      hide Ascii;
      var n := |es| - 1;
      var earlier := es[..n];
      assert es == earlier + [es[n]];
      LastArchitecture(h, earlier);
      NotedAllSnoc(h, earlier, es[n]);
      assert es[n] in es && forall e :: e in earlier ==> e in es;
      KeysDiffer();
      forall i: nat | IsLast(es, i, NamesArchitecture)
        ensures NotedAll(h, es).architecture == Some(es[i].value.text)
      {
        if i < n {
          assert earlier[i] == es[i] && forall j :: i < j < n ==> earlier[j] == es[j];
          assert IsLast(earlier, i, NamesArchitecture);
        }
      }
    }
  }

  lemma {:induction false} LastFileType(h: Header, es: seq<Entry>)
    ensures (forall e :: e in es ==> !NamesFileType(e)) ==> NotedAll(h, es).fileType == h.fileType
    ensures forall i: nat :: IsLast(es, i, NamesFileType) ==>
      NotedAll(h, es).fileType == Some(FromLe(es[i].value.raw))
  {
    if es != [] {
      hide Ascii;
      var n := |es| - 1;
      var earlier := es[..n];
      assert es == earlier + [es[n]];
      LastFileType(h, earlier);
      NotedAllSnoc(h, earlier, es[n]);
      assert es[n] in es && forall e :: e in earlier ==> e in es;
      KeysDiffer();
      forall i: nat | IsLast(es, i, NamesFileType)
        ensures NotedAll(h, es).fileType == Some(FromLe(es[i].value.raw))
      {
        if i < n {
          assert earlier[i] == es[i] && forall j :: i < j < n ==> earlier[j] == es[j];
          assert IsLast(earlier, i, NamesFileType);
        }
      }
    }
  }

  /** The header of a document counts its tensors and entries; it has the architecture of the last entry
      "general.architecture" that is a string and the number of the last "general.file_type" that is an
      unsigned 32-bit integer, or none where there is no such entry. */
  lemma HeaderExactly(d: Doc)
    ensures var h := HeaderOf(d);
      && h.tensorCount == d.tensorCount && h.metadataCount == |d.entries|
      && ((forall e :: e in d.entries ==> !NamesArchitecture(e)) ==> h.architecture == None)
      && ((forall e :: e in d.entries ==> !NamesFileType(e)) ==> h.fileType == None)
      && (forall i: nat :: IsLast(d.entries, i, NamesArchitecture) ==> h.architecture == Some(d.entries[i].value.text))
      && (forall i: nat :: IsLast(d.entries, i, NamesFileType) ==> h.fileType == Some(FromLe(d.entries[i].value.raw)))
  {
    hide NotedAll, Ascii;
    var start := Header(d.tensorCount, |d.entries|, None, None);
    CountsNoted(start, d.entries);
    LastArchitecture(start, d.entries);
    LastFileType(start, d.entries);
  }
}

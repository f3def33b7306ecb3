/**
 UTF-8 by the grammar of section 4 of RFC 3629, the greedy scan that finds how far a
 byte string is well formed, and the streaming buffer built on it.
 */
module Utf8 {
  import opened Numeric

  type Bytes = seq<u8>

  predicate Tail(b: u8) {
    0x80 <= b <= 0xBF
  }

  /** Whether `b` may follow the lead byte of a longer sequence. */
  predicate Second(lead: u8, b: u8) {
    if 0xC2 <= lead <= 0xDF then Tail(b)
    else if lead == 0xE0 then 0xA0 <= b <= 0xBF
    else if lead == 0xED then 0x80 <= b <= 0x9F
    else if 0xE1 <= lead <= 0xEF then Tail(b)
    else if lead == 0xF0 then 0x90 <= b <= 0xBF
    else if 0xF1 <= lead <= 0xF3 then Tail(b)
    else lead == 0xF4 && 0x80 <= b <= 0x8F
  }

  /** One encoded character. */
  predicate IsChar(c: Bytes) {
    if |c| == 1 then c[0] <= 0x7F
    else if |c| == 2 then 0xC2 <= c[0] <= 0xDF && Second(c[0], c[1])
    else if |c| == 3 then 0xE0 <= c[0] <= 0xEF && Second(c[0], c[1]) && Tail(c[2])
    else |c| == 4 && 0xF0 <= c[0] <= 0xF4 && Second(c[0], c[1]) && Tail(c[2]) && Tail(c[3])
  }

  function Flatten(cs: seq<Bytes>): Bytes {
    if cs == [] then [] else cs[0] + Flatten(cs[1..])
  }

  predicate AllChars(cs: seq<Bytes>) {
    forall c :: c in cs ==> IsChar(c)
  }

  /** A sequence of encoded characters. */
  ghost predicate WellFormed(s: Bytes) {
    exists cs :: AllChars(cs) && Flatten(cs) == s
  }

  /** A Unicode scalar value: a code point that is no surrogate. */
  predicate IsScalar(cp: nat) {
    cp <= 0xD7FF || 0xE000 <= cp <= 0x10FFFF
  }

  /** The shortest encoding of a code point (section 3 of RFC 3629): six bits to each tail byte. */
  function Encoded(cp: nat): (c: Bytes)
    requires cp <= 0x10FFFF
  {
    if cp <= 0x7F then [cp]
    else if cp <= 0x7FF then [0xC0 + cp / 64, 0x80 + cp % 64]
    else if cp <= 0xFFFF then [0xE0 + cp / 4096, 0x80 + cp / 64 % 64, 0x80 + cp % 64]
    else [0xF0 + cp / 262144, 0x80 + cp / 4096 % 64, 0x80 + cp / 64 % 64, 0x80 + cp % 64]
  }

  /** The code point that the bits of a character spell. */
  function Decoded(c: Bytes): nat
    requires IsChar(c)
  {
    if |c| == 1 then c[0]
    else
      var lead: nat, b: nat := c[0], c[1] - 0x80;
      if |c| == 2 then (lead - 0xC0) * 64 + b
      else
        var b': nat := c[2] - 0x80;
        if |c| == 3 then ((lead - 0xE0) * 64 + b) * 64 + b'
        else
          var b'': nat := c[3] - 0x80;
          (((lead - 0xF0) * 64 + b) * 64 + b') * 64 + b''
  }

  /** Six more bits, and back. */
  lemma SixBits(high: nat, low: nat)
    requires low < 64
    ensures (high * 64 + low) / 64 == high && (high * 64 + low) % 64 == low
  {
  }

  lemma DivByBlocks(cp: nat)
    ensures cp / 64 / 64 == cp / 4096 && cp / 4096 / 64 == cp / 262144
  {
  }

  lemma TwoBytes(a: nat, b: nat, cp: nat)
    requires 0xC2 <= a <= 0xDF && 0x80 <= b <= 0xBF && cp == (a - 0xC0) * 64 + (b - 0x80)
    ensures 0x7F < cp <= 0x7FF && 0xC0 + cp / 64 == a && 0x80 + cp % 64 == b
  {
  }

  lemma ThreeBytes(a: nat, b: nat, c: nat, cp: nat)
    requires 0xE0 <= a <= 0xEF && 0x80 <= b <= 0xBF && 0x80 <= c <= 0xBF && (a == 0xE0 ==> 0xA0 <= b)
    requires cp == ((a - 0xE0) * 64 + (b - 0x80)) * 64 + (c - 0x80)
    ensures 0x7FF < cp <= 0xFFFF && 0xE0 + cp / 4096 == a && 0x80 + cp / 64 % 64 == b && 0x80 + cp % 64 == c
    ensures a == 0xED && b <= 0x9F ==> cp <= 0xD7FF
    ensures (a < 0xED ==> cp <= 0xD7FF) && (a > 0xED ==> cp >= 0xE000)
  {
    DivByBlocks(cp);
    SixBits(a - 0xE0, b - 0x80);
    SixBits((a - 0xE0) * 64 + (b - 0x80), c - 0x80);
  }

  lemma FourBytes(a: nat, b: nat, c: nat, d: nat, cp: nat)
    requires 0xF0 <= a <= 0xF4 && 0x80 <= b <= 0xBF && 0x80 <= c <= 0xBF && 0x80 <= d <= 0xBF
    requires (a == 0xF0 ==> 0x90 <= b) && (a == 0xF4 ==> b <= 0x8F)
    requires cp == (((a - 0xF0) * 64 + (b - 0x80)) * 64 + (c - 0x80)) * 64 + (d - 0x80)
    ensures 0xFFFF < cp <= 0x10FFFF && 0xF0 + cp / 262144 == a && 0x80 + cp / 4096 % 64 == b
    ensures 0x80 + cp / 64 % 64 == c && 0x80 + cp % 64 == d
  {
    DivByBlocks(cp);
    var high: nat := (a - 0xF0) * 64 + (b - 0x80);
    SixBits(a - 0xF0, b - 0x80);
    SixBits(high, c - 0x80);
    SixBits(high * 64 + (c - 0x80), d - 0x80);
  }

  lemma DecodedIsScalar(c: Bytes)
    requires IsChar(c)
    ensures IsScalar(Decoded(c)) && Encoded(Decoded(c)) == c
  {
    if |c| == 2 {
      TwoBytes(c[0], c[1], Decoded(c));
    } else if |c| == 3 {
      ThreeBytes(c[0], c[1], c[2], Decoded(c));
    } else if |c| == 4 {
      FourBytes(c[0], c[1], c[2], c[3], Decoded(c));
    }
  }

  lemma ScalarIsChar(cp: nat)
    requires IsScalar(cp)
    ensures IsChar(Encoded(cp)) && Decoded(Encoded(cp)) == cp
  {
    DivByBlocks(cp);
  }

  /** The grammar describes exactly the encodings of the scalar values, and tells them apart. */
  lemma CharsAreScalars(c: Bytes)
    ensures IsChar(c) <==> exists cp :: IsScalar(cp) && c == Encoded(cp)
    ensures forall cp :: IsScalar(cp) && c == Encoded(cp) ==> IsChar(c) && Decoded(c) == cp
  {
    if IsChar(c) {
      DecodedIsScalar(c);
    }
    forall cp | IsScalar(cp) && c == Encoded(cp)
      ensures IsChar(c) && Decoded(c) == cp
    {
      ScalarIsChar(cp);
    }
  }

  // ----- The greedy scan -----

  /** Length of the character `s` starts with, 0 if it starts with none. */
  function CharLen(s: Bytes): (n: nat)
    ensures n <= 4 && n <= |s|
    ensures n > 0 ==> IsChar(s[..n])
  {
    if |s| >= 1 && IsChar(s[..1]) then 1
    else if |s| >= 2 && IsChar(s[..2]) then 2
    else if |s| >= 3 && IsChar(s[..3]) then 3
    else if |s| >= 4 && IsChar(s[..4]) then 4
    else 0
  }

  /** How far `s` is well formed, in whole characters. */
  function ValidUpTo(s: Bytes): (n: nat)
    ensures n <= |s|
    decreases |s|
  {
    var n := CharLen(s);
    if n == 0 then 0 else n + ValidUpTo(s[n..])
  }

  predicate IsUtf8(s: Bytes) {
    ValidUpTo(s) == |s|
  }

  /** The grammar is prefix-free: what starts with a character starts with no other. */
  lemma CharLenOfChar(c: Bytes, rest: Bytes)
    requires IsChar(c)
    ensures CharLen(c + rest) == |c|
  {
    var s := c + rest;
    assert s[..|c|] == c;
    assert forall k :: 1 <= k <= |c| ==> s[..k][0] == c[0];
  }

  /** After whole characters the scan goes on where they end. */
  lemma {:induction false} ScanAfterChars(cs: seq<Bytes>, rest: Bytes)
    requires AllChars(cs)
    ensures ValidUpTo(Flatten(cs) + rest) == |Flatten(cs)| + ValidUpTo(rest)
    decreases |cs|
  {
    if cs == [] {
      assert [] + rest == rest;
    } else {
      var c, later := cs[0], Flatten(cs[1..]) + rest;
      assert c in cs;
      assert Flatten(cs) + rest == c + later;
      CharLenOfChar(c, later);
      assert (c + later)[|c|..] == later;
      ScanAfterChars(cs[1..], rest);
    }
  }

  lemma {:induction false} ScannedIsWellFormed(s: Bytes)
    ensures WellFormed(s[..ValidUpTo(s)])
    decreases |s|
  {
    var n := CharLen(s);
    if n == 0 {
      assert AllChars([]) && Flatten([]) == s[..0];
    } else {
      ScannedIsWellFormed(s[n..]);
      var cs :| AllChars(cs) && Flatten(cs) == s[n..][..ValidUpTo(s[n..])];
      var more := [s[..n]] + cs;
      assert more[1..] == cs;
      assert Flatten(more) == s[..n] + Flatten(cs) == s[..ValidUpTo(s)];
    }
  }

  lemma PrefixWithinScan(s: Bytes, k: nat)
    requires k <= |s| && WellFormed(s[..k])
    ensures k <= ValidUpTo(s)
  {
    var cs :| AllChars(cs) && Flatten(cs) == s[..k];
    ScanAfterChars(cs, s[k..]);
    assert s[..k] + s[k..] == s;
  }

  /** The scan stops at the end of the longest well-formed prefix. */
  lemma ScanFindsLongest(s: Bytes)
    ensures WellFormed(s[..ValidUpTo(s)])
    ensures forall k :: 0 <= k <= |s| && WellFormed(s[..k]) ==> k <= ValidUpTo(s)
    ensures IsUtf8(s) <==> WellFormed(s)
  {
    hide WellFormed, ValidUpTo;
    ScannedIsWellFormed(s);
    forall k | 0 <= k <= |s| && WellFormed(s[..k])
      ensures k <= ValidUpTo(s)
    {
      PrefixWithinScan(s, k);
    }
    assert s[..|s|] == s;
  }

  /** Scanning `a + b` is scanning `a` and then its remainder with `b`. */
  lemma ScanSplits(a: Bytes, b: Bytes)
    ensures ValidUpTo(a + b) == ValidUpTo(a) + ValidUpTo(a[ValidUpTo(a)..] + b)
  {
    ScannedIsWellFormed(a);
    var n := ValidUpTo(a);
    var cs :| AllChars(cs) && Flatten(cs) == a[..n];
    ScanAfterChars(cs, a[n..] + b);
    assert a + b == a[..n] + (a[n..] + b);
  }

  // ----- Lossy decoding -----

  /** Length of the longest start of a character at the head of `s`, at least 1. */
  function BadPart(s: Bytes): (n: nat)
    requires s != []
    ensures 1 <= n <= |s|
  {
    if |s| == 1 || !Second(s[0], s[1]) then 1
    else if |s| == 2 || s[0] < 0xE0 || !Tail(s[2]) then 2
    else 3
  }

  /** `p` is the start of some character. */
  ghost predicate Starts(p: Bytes) {
    exists t :: IsChar(p + t)
  }

  /** Bytes that may stand before the last of a longer character. */
  predicate Opens(p: Bytes) {
    if |p| == 1 then 0xC2 <= p[0] <= 0xF4
    else if |p| == 2 then 0xE0 <= p[0] && Second(p[0], p[1])
    else |p| == 3 && 0xF0 <= p[0] && Second(p[0], p[1]) && Tail(p[2])
  }

  lemma Completed(p: Bytes)
    requires Opens(p)
    ensures Starts(p)
  {
    var second: u8 := if p[0] == 0xE0 then 0xA0 else if p[0] == 0xF0 then 0x90 else 0x80;
    var all := if |p| > 1 then p else p + [second];
    assert Second(all[0], all[1]);
    var t := (if |p| > 1 then [] else [second])
      + if p[0] < 0xE0 then [] else if p[0] < 0xF0 then (if |all| == 2 then [0x80] else [])
        else (if |all| == 2 then [0x80, 0x80] else [0x80]);
    assert IsChar(p + t);
  }

  lemma StartsOpen(p: Bytes)
    requires p != [] && Starts(p) && !IsChar(p)
    ensures Opens(p)
  {
    var t :| IsChar(p + t);
    assert (p + t)[..|p|] == p;
    assert t == [] ==> p + t == p;
    assert (p + t)[0] == p[0] && (|p| > 1 ==> (p + t)[1] == p[1]) && (|p| > 2 ==> (p + t)[2] == p[2]);
  }

  lemma OpensUpTo(s: Bytes, k: nat)
    requires 0 < k <= |s| && Opens(s[..k])
    ensures k > 1 ==> Second(s[0], s[1])
    ensures k > 2 ==> Tail(s[2]) && 0xF0 <= s[0]
    ensures k < 4
  {
  }

  lemma NoCharAt(s: Bytes, k: nat)
    requires CharLen(s) == 0 && k <= |s|
    ensures !IsChar(s[..k])
  {
  }

  /** Where no character begins, the bad part is the longest start of a character there, or a single byte. */
  lemma BadPartExactly(s: Bytes)
    requires s != [] && CharLen(s) == 0
    ensures BadPart(s) == 1 || Starts(s[..BadPart(s)])
    ensures forall k :: BadPart(s) < k <= |s| ==> !Starts(s[..k])
  {
    var n := BadPart(s);
    if n > 1 {
      assert IsChar(s[..2]) <==> 0xC2 <= s[0] <= 0xDF;
      assert n == 3 ==> (IsChar(s[..3]) <==> 0xE0 <= s[0] <= 0xEF);
      Completed(s[..n]);
    }
    forall k | n < k <= |s|
      ensures !Starts(s[..k])
    {
      NoCharAt(s, k);
      if Starts(s[..k]) {
        StartsOpen(s[..k]);
        OpensUpTo(s, k);
      }
    }
  }

  const REPLACEMENT: Bytes := [0xEF, 0xBF, 0xBD]

  /** Each ill-formed part replaced by U+FFFD. */
  function Lossy(s: Bytes): Bytes
    decreases |s|
  {
    if s == [] then []
    else
      var n := CharLen(s);
      if n > 0 then s[..n] + Lossy(s[n..]) else REPLACEMENT + Lossy(s[BadPart(s)..])
  }

  /** Whole characters are kept. */
  lemma LossyKeepsChars(c: Bytes, rest: Bytes)
    requires IsChar(c)
    ensures Lossy(c + rest) == c + Lossy(rest)
  {
    CharLenOfChar(c, rest);
    assert (c + rest)[..|c|] == c && (c + rest)[|c|..] == rest;
  }

  /** Elsewhere the longest start of a character, or else one byte, becomes U+FFFD. */
  lemma LossyReplaces(s: Bytes, n: nat)
    requires 0 < n <= |s| && forall k :: 0 <= k <= |s| ==> !IsChar(s[..k])
    requires n == 1 || Starts(s[..n])
    requires forall k :: n < k <= |s| ==> !Starts(s[..k])
    ensures Lossy(s) == [0xEF, 0xBF, 0xBD] + Lossy(s[n..])
  {
    assert CharLen(s) == 0;
    BadPartExactly(s);
    assert n == BadPart(s);
  }

  lemma {:induction false} LossyIsUtf8(s: Bytes)
    ensures IsUtf8(Lossy(s))
    decreases |s|
  {
    if s != [] {
      var n := CharLen(s);
      var c := if n > 0 then s[..n] else REPLACEMENT;
      var rest := if n > 0 then s[n..] else s[BadPart(s)..];
      LossyIsUtf8(rest);
      assert IsChar(c);
      CharLenOfChar(c, Lossy(rest));
      assert (c + Lossy(rest))[|c|..] == Lossy(rest);
    }
  }

  lemma {:induction false} LossyIdentityExactly(s: Bytes)
    ensures Lossy(s) == s <==> IsUtf8(s)
    decreases |s|
  {
    LossyIsUtf8(s);
    if IsUtf8(s) && s != [] {
      var n := CharLen(s);
      LossyIdentityExactly(s[n..]);
      assert s == s[..n] + s[n..];
    }
  }

  // ----- The streaming buffer -----

  /** Text returned and bytes kept by one feed. */
  function Fed(pending: Bytes, bytes: Bytes): (Bytes, Bytes) {
    var all := pending + bytes;
    (all[..ValidUpTo(all)], all[ValidUpTo(all)..])
  }

  class PieceBuffer {
    var pending: Bytes

    constructor ()
      ensures pending == []
    {
      pending := [];
    }

    /** Takes in `bytes` and returns the text that is complete. */
    method Feed(bytes: Bytes) returns (out: Bytes)
      modifies this
      ensures out == Fed(old(pending), bytes).0 && pending == Fed(old(pending), bytes).1
      ensures out + pending == old(pending) + bytes && IsUtf8(out)
    {
      pending := pending + bytes;
      ghost var all := pending;
      ScanFindsLongest(all);
      var validUpTo := ValidUpTo(pending);
      if validUpTo == |pending| {
        out := pending;
        pending := [];
      } else {
        out := pending[..validUpTo];
        pending := pending[validUpTo..];
      }
      ScanFindsLongest(out);
      assert all[..|all|] == all;
    }

    /** Returns what is left, invalid parts replaced, and empties the buffer. */
    method Flush() returns (out: Bytes)
      modifies this
      ensures pending == [] && out == Lossy(old(pending)) && IsUtf8(out)
      ensures IsUtf8(old(pending)) <==> out == old(pending)
    {
      LossyIsUtf8(pending);
      LossyIdentityExactly(pending);
      out := Lossy(pending);
      pending := [];
    }
  }

  /** Text returned so far and bytes kept after feeding `chunks` to an empty buffer. */
  function FedAll(chunks: seq<Bytes>): (Bytes, Bytes) {
    if chunks == [] then ([], [])
    else
      var (text, pending) := FedAll(chunks[..|chunks| - 1]);
      var (out, rest) := Fed(pending, chunks[|chunks| - 1]);
      (text + out, rest)
  }

  function Joined(chunks: seq<Bytes>): Bytes {
    if chunks == [] then [] else Joined(chunks[..|chunks| - 1]) + chunks[|chunks| - 1]
  }

  lemma SplitAt(a: Bytes, b: Bytes, n: nat, m: nat)
    requires n <= |a| && m <= |a[n..] + b|
    ensures (a + b)[..n + m] == a[..n] + (a[n..] + b)[..m]
    ensures (a + b)[n + m..] == (a[n..] + b)[m..]
  {
    assert a + b == a[..n] + (a[n..] + b);
  }

  /** However a stream is cut, the text returned is its longest well-formed prefix and
      the buffer holds exactly the rest. */
  lemma {:induction false} StreamingEqualsBatch(chunks: seq<Bytes>)
    ensures var all := Joined(chunks);
      FedAll(chunks) == (all[..ValidUpTo(all)], all[ValidUpTo(all)..])
    ensures WellFormed(FedAll(chunks).0)
    ensures forall k :: 0 <= k <= |Joined(chunks)| && WellFormed(Joined(chunks)[..k]) ==> k <= |FedAll(chunks).0|
  {
    var all := Joined(chunks);
    ScanFindsLongest(all);
    hide ValidUpTo, WellFormed;
    if chunks != [] {
      var before, last := chunks[..|chunks| - 1], chunks[|chunks| - 1];
      StreamingEqualsBatch(before);
      var a := Joined(before);
      ScanSplits(a, last);
      SplitAt(a, last, ValidUpTo(a), ValidUpTo(a[ValidUpTo(a)..] + last));
    }
  }

  /** Four bytes that start with no character never will. */
  lemma FourBytesDecide(r: Bytes, t: Bytes)
    requires |r| >= 4
    ensures CharLen(r + t) == CharLen(r)
  {
    var s := r + t;
    assert s[..1] == r[..1] && s[..2] == r[..2] && s[..3] == r[..3] && s[..4] == r[..4];
  }

  lemma {:induction false} StopsAtNoChar(s: Bytes)
    ensures CharLen(s[ValidUpTo(s)..]) == 0
    decreases |s|
  {
    var n := CharLen(s);
    if n > 0 {
      StopsAtNoChar(s[n..]);
      assert s[n..][ValidUpTo(s[n..])..] == s[ValidUpTo(s)..];
    } else {
      assert s[0..] == s;
    }
  }

  /** While the stream can still become well formed the buffer holds at most three bytes. */
  lemma PendingAtMostThree(s: Bytes, t: Bytes)
    requires WellFormed(s + t)
    ensures |s| - ValidUpTo(s) <= 3
  {
    ScanFindsLongest(s + t);
    ScanSplits(s, t);
    var r := s[ValidUpTo(s)..];
    StopsAtNoChar(s);
    if |r| >= 4 {
      FourBytesDecide(r, t);
      assert false;
    }
  }

  predicate Lead(b: u8) {
    0xC2 <= b <= 0xF4
  }

  /** The bytes are no start of a character, whatever follows. */
  predicate Hopeless(s: Bytes)
    requires s != []
  {
    CharLen(s) == 0 && (!Lead(s[0]) || BadPart(s) < |s|)
  }

  /** Bytes that make a character of a start of one. */
  function Completion(s: Bytes): Bytes
    requires s != []
  {
    var second := if s[0] == 0xE0 then 0xA0 else if s[0] == 0xF0 then 0x90 else 0x80;
    if |s| == 1 then [second, 0x80, 0x80] else [0x80, 0x80]
  }

  lemma CompletionCompletes(s: Bytes)
    requires s != [] && CharLen(s) == 0 && !Hopeless(s)
    ensures CharLen(s + Completion(s)) > 0
  {
    var c := s + Completion(s);
    assert c[..1] == [c[0]] && c[..2] == [c[0], c[1]] && c[..3] == [c[0], c[1], c[2]];
    if |c| >= 4 {
      assert c[..4] == [c[0], c[1], c[2], c[3]];
    }
  }

  lemma HopelessStays(s: Bytes, t: Bytes)
    requires s != [] && Hopeless(s)
    ensures CharLen(s + t) == 0
  {
    var c := s + t;
    assert forall k :: 1 <= k <= |s| ==> s[..k] == c[..k];
  }

  /** No continuation completes a character exactly when the pending bytes are hopeless. */
  lemma StuckExactly(pending: Bytes)
    requires pending != []
    ensures Hopeless(pending) <==> forall t :: CharLen(pending + t) == 0
  {
    if Hopeless(pending) {
      forall t
        ensures CharLen(pending + t) == 0
      {
        HopelessStays(pending, t);
      }
    } else if CharLen(pending) == 0 {
      CompletionCompletes(pending);
    } else {
      assert pending + [] == pending;
    }
  }

  /** From then on no feed returns anything, and the buffer only grows. */
  lemma StuckForever(pending: Bytes, bytes: Bytes)
    requires pending != [] && Hopeless(pending)
    ensures Fed(pending, bytes) == ([], pending + bytes) && Hopeless(pending + bytes)
  {
    HopelessStays(pending, bytes);
    forall t
      ensures CharLen(pending + bytes + t) == 0
    {
      assert pending + bytes + t == pending + (bytes + t);
      HopelessStays(pending, bytes + t);
    }
    StuckExactly(pending + bytes);
  }
}

/** The chunked transfer decoder (ChunkedDecodingStream in src/hal/Esp32Network.cpp), as
    the inverse of the chunked transfer coding of section 7.1 of RFC 9112. A wait for a
    byte that times out or finds the connection closed counts as the end of the input. */
module Chunked {
  import opened Bytes

  const CR: byte := 13
  const LF: byte := 10
  const CRLF: seq<byte> := [13, 10]
  const HEX_CAP: nat := 11
  const LONG_MAX: int := 0x7FFF_FFFF

  // ---------------------------------------------------------------- strtol, base 16

  predicate IsSpace(b: byte) {
    b == 32 || 9 <= b <= 13
  }

  predicate IsHex(b: byte) {
    48 <= b <= 57 || 65 <= b <= 70 || 97 <= b <= 102
  }

  function HexDigit(b: byte): nat
    requires IsHex(b)
  {
    if b <= 57 then b - 48 else if b <= 70 then b - 55 else b - 87
  }

  // The number spelt by the leading hex digits, after `n`.
  function HexFrom(s: seq<byte>, n: nat): nat {
    if s == [] || !IsHex(s[0]) then n else HexFrom(s[1..], 16 * n + HexDigit(s[0]))
  }

  function SkipSpace(s: seq<byte>): seq<byte> {
    if s != [] && IsSpace(s[0]) then SkipSpace(s[1..]) else s
  }

  // An 0x prefix counts only before a digit.
  function SkipPrefix(s: seq<byte>): seq<byte> {
    if |s| >= 3 && s[0] == 48 && (s[1] == 120 || s[1] == 88) && IsHex(s[2]) then s[2..] else s
  }

  // strtol(s, nullptr, 16) where long has 32 bits: it saturates.
  function Strtol16(s: seq<byte>): int {
    var t := SkipSpace(s);
    if t != [] && t[0] == 45 then
      var n: int := HexFrom(SkipPrefix(t[1..]), 0);
      if n > LONG_MAX + 1 then -LONG_MAX - 1 else -n
    else
      var n := HexFrom(SkipPrefix(if t != [] && t[0] == 43 then t[1..] else t), 0);
      if n > LONG_MAX then LONG_MAX else n
  }

  // ---------------------------------------------------------------- the decoder, as values

  // The bytes still to come, the data left in the current chunk, and the end flag.
  datatype Decoder = Decoder(client: seq<byte>, remaining: int, done: bool)

  function Head(s: seq<byte>): int {
    if s == [] then -1 else s[0]
  }

  function Tail(s: seq<byte>): seq<byte> {
    if s == [] then [] else s[1..]
  }

  // A size line: what was kept of it, the input behind it, and whether it ended in CR LF.
  datatype Line = Line(hex: seq<byte>, rest: seq<byte>, ok: bool)

  function Keep(hex: seq<byte>, b: byte): seq<byte> {
    if |hex| < HEX_CAP then hex + [b] else hex
  }

  function SizeLine(s: seq<byte>, hex: seq<byte>): Line {
    if s == [] then Line(hex, [], false)
    else if s[0] == CR then Line(hex, Tail(s[1..]), Head(s[1..]) == LF)
    else SizeLine(s[1..], Keep(hex, s[0]))
  }

  // The decoder moved on to a body byte, if there is one.
  function Ensured(d: Decoder): Decoder {
    if d.done || d.remaining > 0 then d
    else
      var l := SizeLine(d.client, []);
      if !l.ok then Decoder(l.rest, d.remaining, true)
      else
        var n := Strtol16(l.hex);
        if n <= 0 then Decoder(Tail(Tail(l.rest)), n, true) else Decoder(l.rest, n, false)
  }

  function AfterRead(d: Decoder): Decoder {
    var e := Ensured(d);
    if e.done then e
    else if e.client == [] then e.(done := true)
    else if e.remaining == 1 then Decoder(Tail(Tail(e.client[1..])), 0, false)
    else Decoder(e.client[1..], e.remaining - 1, false)
  }

  function ReadResult(d: Decoder): int {
    var e := Ensured(d);
    if e.done then -1 else Head(e.client)
  }

  // ---------------------------------------------------------------- the code

  class ChunkedDecodingStream {
    var client: seq<byte>
    var remaining: int
    var done: bool

    ghost function Value(): Decoder
      reads this
    {
      Decoder(client, remaining, done)
    }

    constructor (c: seq<byte>)
      ensures Value() == Decoder(c, 0, false)
    {
      client := c;
      remaining := 0;
      done := false;
    }

    method WaitForByte(consume: bool) returns (b: int)
      modifies this`client
      ensures b == Head(old(client))
      ensures client == if consume then Tail(old(client)) else old(client)
    {
      if client == [] {
        return -1;
      }
      b := client[0];
      if consume {
        client := client[1..];
      }
    }

    // Reads one size line into at most HEX_CAP characters of `hex`.
    method ReadSizeLine(hex: array<byte>) returns (len: nat, ok: bool)
      requires hex.Length == HEX_CAP + 1
      modifies this`client, hex
      ensures len <= HEX_CAP && Line(hex[..len], client, ok) == SizeLine(old(client), [])
    {
      len := 0;
      while client != []
        invariant len <= HEX_CAP && SizeLine(client, hex[..len]) == SizeLine(old(client), [])
        decreases |client|
      {
        ghost var before, kept := client, hex[..len];
        var b := WaitForByte(true);
        if b == CR {
          var nl := WaitForByte(true);
          return len, nl == LF;
        }
        if len < HEX_CAP {
          hex[len] := b;
          len := len + 1;
        }
        assert hex[..len] == Keep(kept, before[0]);
      }
      ok := false;
    }

    method EnsureChunk() returns (ok: bool)
      modifies this
      ensures Value() == Ensured(old(Value())) && ok == !done
    {
      if done {
        return false;
      }
      if remaining > 0 {
        return true;
      }
      var hex := new byte[HEX_CAP + 1];
      var len, whole := ReadSizeLine(hex);
      if !whole {
        done := true;
        return false;
      }
      remaining := Strtol16(hex[..len]);
      if remaining <= 0 {
        done := true;
        var _ := WaitForByte(true);
        var _ := WaitForByte(true);
        return false;
      }
      return true;
    }

    method Read() returns (b: int)
      modifies this
      ensures Value() == AfterRead(old(Value())) && b == ReadResult(old(Value()))
    {
      var ok := EnsureChunk();
      if !ok {
        return -1;
      }
      b := WaitForByte(true);
      if b < 0 {
        done := true;
        return -1;
      }
      remaining := remaining - 1;
      if remaining == 0 {
        var _ := WaitForByte(true);
        var _ := WaitForByte(true);
      }
    }

    method Peek() returns (b: int)
      modifies this
      ensures Value() == Ensured(old(Value())) && b == ReadResult(old(Value()))
    {
      var ok := EnsureChunk();
      if !ok {
        return -1;
      }
      b := WaitForByte(false);
    }
  }

  // ---------------------------------------------------------------- any input at all

  function After(d: Decoder, n: nat): Decoder {
    if n == 0 then d else AfterRead(After(d, n - 1))
  }

  function NthRead(d: Decoder, n: nat): int {
    ReadResult(After(d, n))
  }

  // Peeking shows the next read and does not disturb it or any later one.
  lemma EnsuredTwice(d: Decoder)
    ensures Ensured(Ensured(d)) == Ensured(d) && AfterRead(Ensured(d)) == AfterRead(d)
    ensures ReadResult(Ensured(d)) == ReadResult(d)
  {
  }

  lemma {:induction false} PeekAgrees(d: Decoder, n: nat)
    ensures ReadResult(Ensured(d)) == ReadResult(d)
    ensures NthRead(Ensured(d), n) == NthRead(d, n)
    ensures n > 0 ==> After(Ensured(d), n) == After(d, n)
  {
    EnsuredTwice(d);
    hide Ensured, AfterRead, ReadResult;
    if n == 1 {
      assert After(d, 0) == d && After(Ensured(d), 0) == Ensured(d);
    } else if n > 1 {
      PeekAgrees(d, n - 1);
    }
  }

  // The end, once reported, is final.
  lemma {:induction false} EndIsFinal(d: Decoder, n: nat)
    requires ReadResult(d) == -1
    ensures NthRead(d, n) == -1 && AfterRead(After(d, n)).done
  {
    if n > 0 {
      EndIsFinal(d, n - 1);
    }
  }

  lemma {:induction false} ReadsInTwoParts(d: Decoder, a: nat, b: nat)
    ensures After(d, a + b) == After(After(d, a), b)
  {
    hide AfterRead;
    if b > 0 {
      ReadsInTwoParts(d, a, b - 1);
    }
  }

  lemma ReadsOn(d: Decoder, a: nat, b: nat)
    ensures NthRead(d, a + b) == NthRead(After(d, a), b)
  {
    hide ReadResult, After;
    ReadsInTwoParts(d, a, b);
  }

  // ---------------------------------------------------------------- the coding

  // A chunk: its size in hex digits (leading zeros allowed), its extensions, its data.
  datatype Chunk = Chunk(size: seq<byte>, ext: seq<byte>, data: seq<byte>)

  // Extensions start with a semicolon or the blank before it and hold no line break.
  predicate ExtensionOk(ext: seq<byte>) {
    CR !in ext && (ext != [] ==> ext[0] == 59 || ext[0] == 32 || ext[0] == 9)
  }

  predicate AllHex(s: seq<byte>) {
    forall i | 0 <= i < |s| :: IsHex(s[i])
  }

  predicate ChunkOk(c: Chunk) {
    && c.data != [] && 0 < |c.size| <= HEX_CAP && AllHex(c.size) && HexFrom(c.size, 0) == |c.data| <= LONG_MAX
    && ExtensionOk(c.ext)
  }

  predicate LastOk(zeros: seq<byte>, ext: seq<byte>) {
    zeros != [] && (forall i | 0 <= i < |zeros| :: zeros[i] == 48) && ExtensionOk(ext)
  }

  predicate ChunksOk(cs: seq<Chunk>) {
    forall c | c in cs :: ChunkOk(c)
  }

  // Chunks, the last chunk, and whatever follows: the trailer section and the final line.
  function Encoded(cs: seq<Chunk>, zeros: seq<byte>, ext: seq<byte>, trailer: seq<byte>): seq<byte> {
    if cs == [] then zeros + ext + (CRLF + trailer)
    else cs[0].size + cs[0].ext + (CRLF + (cs[0].data + (CRLF + Encoded(cs[1..], zeros, ext, trailer))))
  }

  function Body(cs: seq<Chunk>): seq<byte> {
    if cs == [] then [] else cs[0].data + Body(cs[1..])
  }

  // ---------------------------------------------------------------- size lines

  // A line without CR is kept up to the cap.
  function Kept(hex: seq<byte>, line: seq<byte>): seq<byte>
    decreases line
  {
    if line == [] then hex else Kept(Keep(hex, line[0]), line[1..])
  }

  lemma {:induction false} LineScanned(line: seq<byte>, more: seq<byte>, hex: seq<byte>)
    requires CR !in line
    ensures SizeLine(line + (CRLF + more), hex) == Line(Kept(hex, line), more, true)
  {
    if line == [] {
      assert line + (CRLF + more) == [CR] + ([LF] + more);
      assert ([LF] + more)[1..] == more;
    } else {
      LineScanned(line[1..], more, Keep(hex, line[0]));
      assert (line + (CRLF + more))[1..] == line[1..] + (CRLF + more);
    }
  }

  lemma {:induction false} KeptStarts(hex: seq<byte>, line: seq<byte>)
    requires |hex| <= HEX_CAP
    ensures Kept(hex, line) == if |hex + line| <= HEX_CAP then hex + line else (hex + line)[..HEX_CAP]
    decreases line
  {
    if line != [] {
      KeptStarts(Keep(hex, line[0]), line[1..]);
      assert hex + line == hex + [line[0]] + line[1..];
    } else {
      assert hex + line == hex;
    }
  }

  // Reading digits stops at the first byte that is none.
  lemma {:induction false} DigitsStop(digits: seq<byte>, junk: seq<byte>, n: nat)
    requires AllHex(digits) && (junk != [] ==> !IsHex(junk[0]))
    ensures HexFrom(digits + junk, n) == HexFrom(digits, n)
  {
    if digits == [] {
      assert digits + junk == junk;
    } else {
      DigitsStop(digits[1..], junk, 16 * n + HexDigit(digits[0]));
      assert (digits + junk)[1..] == digits[1..] + junk;
    }
  }

  // A size field with the start of its extensions reads as the size.
  lemma SizeParsed(size: seq<byte>, junk: seq<byte>)
    requires size != [] && AllHex(size) && (junk != [] ==> junk[0] == 59 || junk[0] == 32 || junk[0] == 9)
    requires HexFrom(size, 0) <= LONG_MAX
    ensures Strtol16(size + junk) == HexFrom(size, 0)
  {
    var s := size + junk;
    assert IsHex(s[0]) && SkipSpace(s) == s;
    if |s| >= 2 {
      assert s[1] == if |size| >= 2 then size[1] else junk[0];
    }
    assert SkipPrefix(s) == s;
    DigitsStop(size, junk, 0);
  }

  lemma SizeLineParsed(size: seq<byte>, ext: seq<byte>, more: seq<byte>)
    requires 0 < |size| <= HEX_CAP && AllHex(size) && HexFrom(size, 0) <= LONG_MAX && ExtensionOk(ext)
    ensures var l := SizeLine(size + ext + (CRLF + more), []);
      l.ok && l.rest == more && Strtol16(l.hex) == HexFrom(size, 0)
  {
    var line := size + ext;
    assert CR !in line;
    LineScanned(line, more, []);
    KeptStarts([], line);
    assert [] + line == line;
    if |line| <= HEX_CAP {
      SizeParsed(size, ext);
    } else {
      var junk := ext[..HEX_CAP - |size|];
      assert line[..HEX_CAP] == size + junk;
      SizeParsed(size, junk);
    }
  }

  lemma {:induction false} ZerosAreZero(zeros: seq<byte>)
    requires forall i | 0 <= i < |zeros| :: zeros[i] == 48
    ensures AllHex(zeros) && HexFrom(zeros, 0) == 0
  {
    if zeros != [] {
      ZerosAreZero(zeros[1..]);
    }
  }

  // The last chunk may have any number of zeros: those past the cap are not even kept.
  lemma LastLineParsed(zeros: seq<byte>, ext: seq<byte>, more: seq<byte>)
    requires LastOk(zeros, ext)
    ensures var l := SizeLine(zeros + ext + (CRLF + more), []);
      l.ok && l.rest == more && Strtol16(l.hex) == 0
  {
    ZerosAreZero(zeros);
    if |zeros| <= HEX_CAP {
      SizeLineParsed(zeros, ext, more);
    } else {
      var head := zeros[..HEX_CAP];
      LongSizeKept(zeros, ext, more);
      assert head + [] == head;
      ZerosAreZero(head);
      SizeParsed(head, []);
    }
  }

  // ---------------------------------------------------------------- decoding

  // Inside a chunk: the data still to come, and the input behind them.
  function Inside(data: seq<byte>, behind: seq<byte>): Decoder {
    Decoder(data + behind, |data|, false)
  }

  // Reading the last byte also swallows the next two, meant to be CR LF.
  function Past(behind: seq<byte>): Decoder {
    Decoder(Tail(Tail(behind)), 0, false)
  }

  lemma ReadInside(data: seq<byte>, behind: seq<byte>)
    requires data != []
    ensures ReadResult(Inside(data, behind)) == data[0]
    ensures AfterRead(Inside(data, behind)) == if |data| == 1 then Past(behind) else Inside(data[1..], behind)
  {
    assert (data + behind)[1..] == data[1..] + behind;
    if |data| == 1 {
      assert data[1..] + behind == behind;
    }
  }

  lemma {:induction false} ReadsInside(data: seq<byte>, behind: seq<byte>, n: nat)
    requires n < |data|
    ensures NthRead(Inside(data, behind), n) == data[n]
    ensures After(Inside(data, behind), n + 1) == if n + 1 == |data| then Past(behind) else Inside(data[n + 1..], behind)
  {
    hide Inside, Past, AfterRead, ReadResult;
    if n == 0 {
      assert data[0..] == data;
      assert After(Inside(data, behind), 0) == Inside(data, behind);
      ReadInside(data, behind);
    } else {
      ReadsInside(data, behind, n - 1);
      ReadInside(data[n..], behind);
      assert data[n..][1..] == data[n + 1..];
    }
  }

  // The decoder just before a chunk.
  function Before(cs: seq<Chunk>, zeros: seq<byte>, ext: seq<byte>, trailer: seq<byte>): Decoder {
    Decoder(Encoded(cs, zeros, ext, trailer), 0, false)
  }

  lemma ChunkOpens(cs: seq<Chunk>, zeros: seq<byte>, ext: seq<byte>, trailer: seq<byte>)
    requires cs != [] && ChunkOk(cs[0])
    ensures Ensured(Before(cs, zeros, ext, trailer)) == Inside(cs[0].data, CRLF + Encoded(cs[1..], zeros, ext, trailer))
  {
    AnyChunkOpens(cs[0], cs[0].data + (CRLF + Encoded(cs[1..], zeros, ext, trailer)));
  }

  // The first chunk comes out, and leaves the decoder before the next one.
  lemma FirstChunk(cs: seq<Chunk>, zeros: seq<byte>, ext: seq<byte>, trailer: seq<byte>, n: nat)
    requires cs != [] && ChunkOk(cs[0])
    ensures n < |cs[0].data| ==> NthRead(Before(cs, zeros, ext, trailer), n) == cs[0].data[n]
    ensures After(Before(cs, zeros, ext, trailer), |cs[0].data|) == Before(cs[1..], zeros, ext, trailer)
  {
    hide Ensured, AfterRead, ReadResult, Inside;
    var d, data, next := Before(cs, zeros, ext, trailer), cs[0].data, Encoded(cs[1..], zeros, ext, trailer);
    var more := CRLF + next;
    assert Tail(Tail(more)) == next;
    ChunkOpens(cs, zeros, ext, trailer);
    PeekAgrees(d, n);
    PeekAgrees(d, |data|);
    ReadsInside(data, more, |data| - 1);
    if n < |data| {
      ReadsInside(data, more, n);
    }
  }

  lemma LastChunkEnds(zeros: seq<byte>, ext: seq<byte>, trailer: seq<byte>, n: nat)
    requires LastOk(zeros, ext)
    ensures NthRead(Before([], zeros, ext, trailer), n) == -1
  {
    LastLineParsed(zeros, ext, trailer);
    EndIsFinal(Before([], zeros, ext, trailer), n);
  }

  // For every body, every way of cutting it into chunks, and every choice of leading
  // zeros, extensions and trailer: the reads are the body, and then the end for ever.
  lemma {:induction false} DecodesEveryChunking(cs: seq<Chunk>, zeros: seq<byte>, ext: seq<byte>, trailer: seq<byte>, n: nat)
    requires ChunksOk(cs) && LastOk(zeros, ext)
    ensures NthRead(Before(cs, zeros, ext, trailer), n) == if n < |Body(cs)| then Body(cs)[n] else -1
    decreases cs
  {
    hide Before, NthRead, AfterRead, After, ChunkOk, LastOk;
    if cs == [] {
      LastChunkEnds(zeros, ext, trailer, n);
    } else {
      var size := |cs[0].data|;
      FirstChunk(cs, zeros, ext, trailer, n);
      if n >= size {
        ReadsOn(Before(cs, zeros, ext, trailer), size, n - size);
        DecodesEveryChunking(cs[1..], zeros, ext, trailer, n - size);
      }
    }
  }

  // Two chunkings of one body cannot be told apart.
  lemma ChunkingIsInvisible(cs: seq<Chunk>, ds: seq<Chunk>, zeros: seq<byte>, ext: seq<byte>, trailer: seq<byte>, n: nat)
    requires ChunksOk(cs) && ChunksOk(ds) && LastOk(zeros, ext) && Body(cs) == Body(ds)
    ensures NthRead(Before(cs, zeros, ext, trailer), n) == NthRead(Before(ds, [48], [], CRLF), n)
  {
    hide Before, NthRead, ChunkOk;
    DecodesEveryChunking(cs, zeros, ext, trailer, n);
    DecodesEveryChunking(ds, [48], [], CRLF, n);
  }

  // What strtol makes of anything else (section 7.22.1.4 of ISO/IEC 9899:2011): white space
  // before the number is skipped, a sign and one 0x before a digit are read, the value
  // saturates, and without digits it is 0.
  lemma StrtolLaws(s: seq<byte>, c: byte)
    ensures c in {32, 9, 10, 11, 12, 13} ==> Strtol16([c] + s) == Strtol16(s)
    ensures s == [] || (!IsSpace(s[0]) && !IsHex(s[0]) && s[0] != 43 && s[0] != 45) ==> Strtol16(s) == 0
  {
    assert ([c] + s)[1..] == s;
  }

  lemma SignsAndPrefix(s: seq<byte>)
    requires s != [] && AllHex(s)
    ensures var n: int := HexFrom(s, 0);
      && Strtol16(s) == Strtol16([43] + s) == (if n > 2147483647 then 2147483647 else n)
      && Strtol16([45] + s) == (if n > 2147483648 then -2147483648 else -n)
      && Strtol16([48, 120] + s) == Strtol16([48, 88] + s) == Strtol16(s)
  {
    SkipNothing(s);
    assert ([43] + s)[1..] == ([45] + s)[1..] == s;
    assert ([48, 120] + s)[2..] == ([48, 88] + s)[2..] == s;
    hide HexFrom, HexDigit;
  }

  lemma SkipNothing(s: seq<byte>)
    requires s != [] && AllHex(s)
    ensures SkipSpace(s) == s && SkipPrefix(s) == s
  {
  }

  // So a size that is not positive ends the stream, whatever was meant by it.
  lemma NoPositiveSizeEnds(line: seq<byte>, more: seq<byte>, n: nat)
    requires CR !in line && |line| <= HEX_CAP && Strtol16(line) <= 0
    ensures NthRead(Decoder(line + (CRLF + more), 0, false), n) == -1
  {
    hide Strtol16;
    LineScanned(line, more, []);
    KeptStarts([], line);
    assert [] + line == line;
    hide SizeLine;
    EndIsFinal(Decoder(line + (CRLF + more), 0, false), n);
  }

  // ---------------------------------------------------------------- sizes as they are printed

  const LOWER: seq<byte> := [48, 49, 50, 51, 52, 53, 54, 55, 56, 57, 97, 98, 99, 100, 101, 102]
  const UPPER: seq<byte> := [48, 49, 50, 51, 52, 53, 54, 55, 56, 57, 65, 66, 67, 68, 69, 70]

  // A size in hexadecimal without leading zeros, in digits of either case.
  function Printed(n: nat, digits: seq<byte>): (s: seq<byte>)
    requires |digits| == 16
    ensures s != []
  {
    if n < 16 then [digits[n]] else Printed(n / 16, digits) + [digits[n % 16]]
  }

  // The digits mean the number they were printed from.
  lemma {:induction false} PrintedIsRead(n: nat, digits: seq<byte>)
    requires digits == LOWER || digits == UPPER
    ensures AllHex(Printed(n, digits)) && HexFrom(Printed(n, digits), 0) == n
  {
    if n >= 16 {
      PrintedIsRead(n / 16, digits);
      HexOfTwoParts(Printed(n / 16, digits), [digits[n % 16]], 0);
      DigitIs(n % 16, digits, n / 16);
    } else {
      DigitIs(n, digits, 0);
    }
  }

  lemma DigitIs(d: nat, digits: seq<byte>, n: nat)
    requires d < 16 && (digits == LOWER || digits == UPPER)
    ensures IsHex(digits[d]) && HexFrom([digits[d]], n) == 16 * n + d
  {
    assert [digits[d]][1..] == [];
    if digits == LOWER {} else {}
  }

  lemma PrintedLength(n: nat, digits: seq<byte>)
    requires |digits| == 16 && n <= 2147483647
    ensures |Printed(n, digits)| <= 8
  {
    PrintedShort(n, digits, 8);
  }

  lemma {:induction false} PrintedShort(n: nat, digits: seq<byte>, k: nat)
    requires |digits| == 16 && k > 0 && n < Pow16(k)
    ensures |Printed(n, digits)| <= k
    decreases k
  {
    if n >= 16 && k > 1 {
      PrintedShort(n / 16, digits, k - 1);
    }
  }

  function Pow16(k: nat): nat {
    if k == 0 then 1 else 16 * Pow16(k - 1)
  }

  // A body printed in chunks of any sizes up to 2^31 - 1 is read back, and then the end.
  function PrintedChunks(parts: seq<seq<byte>>, digits: seq<byte>): (cs: seq<Chunk>)
    requires |digits| == 16
    ensures |cs| == |parts|
  {
    seq(|parts|, i requires 0 <= i < |parts| => Chunk(Printed(|parts[i]|, digits), [], parts[i]))
  }

  function Joined(parts: seq<seq<byte>>): seq<byte> {
    if parts == [] then [] else parts[0] + Joined(parts[1..])
  }

  lemma {:induction false} PrintedBody(parts: seq<seq<byte>>, digits: seq<byte>)
    requires |digits| == 16
    ensures Body(PrintedChunks(parts, digits)) == Joined(parts)
  {
    if parts != [] {
      PrintedBody(parts[1..], digits);
      assert PrintedChunks(parts, digits)[1..] == PrintedChunks(parts[1..], digits);
    }
  }

  lemma PrintedChunksDecode(parts: seq<seq<byte>>, digits: seq<byte>, n: nat)
    requires (digits == LOWER || digits == UPPER) && forall p | p in parts :: 0 < |p| <= 2147483647
    ensures NthRead(Before(PrintedChunks(parts, digits), [48], [], CRLF), n) == if n < |Joined(parts)| then Joined(parts)[n] else -1
  {
    hide Before, NthRead, Printed;
    var cs := PrintedChunks(parts, digits);
    forall c | c in cs
      ensures ChunkOk(c)
    {
      var i :| 0 <= i < |cs| && cs[i] == c;
      assert parts[i] in parts;
      PrintedIsRead(|parts[i]|, digits);
      PrintedLength(|parts[i]|, digits);
    }
    PrintedBody(parts, digits);
    DecodesEveryChunking(cs, [48], [], CRLF, n);
  }

  // ---------------------------------------------------------------- how far the promise goes

  lemma {:induction false} HexOfTwoParts(a: seq<byte>, b: seq<byte>, n: nat)
    requires AllHex(a)
    ensures HexFrom(a + b, n) == HexFrom(b, HexFrom(a, n))
  {
    if a == [] {
      assert a + b == b;
    } else {
      HexOfTwoParts(a[1..], b, 16 * n + HexDigit(a[0]));
      assert (a + b)[1..] == a[1..] + b;
    }
  }

  lemma {:induction false} HexGrows(b: seq<byte>, n: nat)
    requires AllHex(b)
    ensures HexFrom(b, n) >= n && (b != [] && n > 0 ==> HexFrom(b, n) > n)
  {
    if b != [] {
      HexGrows(b[1..], 16 * n + HexDigit(b[0]));
    }
  }

  lemma LongSizeKept(size: seq<byte>, ext: seq<byte>, more: seq<byte>)
    requires |size| > HEX_CAP && AllHex(size) && ExtensionOk(ext)
    ensures SizeLine(size + ext + (CRLF + more), []) == Line(size[..HEX_CAP], more, true)
  {
    var line := size + ext;
    assert CR !in line;
    LineScanned(line, more, []);
    KeptStarts([], line);
    assert [] + line == line && line[..HEX_CAP] == size[..HEX_CAP];
  }

  lemma StrtolSaturates(s: seq<byte>)
    ensures Strtol16(s) <= LONG_MAX
  {
  }

  // The size of a chunk is read right exactly if its field takes no more than the eleven
  // characters that are kept and its value fits a long; the coding itself allows any
  // number of leading zeros and any size.
  lemma SizeIsReadIff(size: seq<byte>, ext: seq<byte>, more: seq<byte>)
    requires size != [] && AllHex(size) && 0 < HexFrom(size, 0) && ExtensionOk(ext)
    ensures Strtol16(SizeLine(size + ext + (CRLF + more), []).hex) == HexFrom(size, 0) <==>
      |size| <= 11 && HexFrom(size, 0) <= 2147483647
  {
    hide Strtol16, SizeLine;
    StrtolSaturates(SizeLine(size + ext + (CRLF + more), []).hex);
    if |size| <= HEX_CAP && HexFrom(size, 0) <= LONG_MAX {
      SizeLineParsed(size, ext, more);
    } else if |size| > HEX_CAP {
      var head, tail := size[..HEX_CAP], size[HEX_CAP..];
      assert head + tail == size;
      LongSizeKept(size, ext, more);
      HexOfTwoParts(head, tail, 0);
      HexGrows(tail, HexFrom(head, 0));
      if HexFrom(head, 0) <= LONG_MAX {
        assert head + [] == head;
        SizeParsed(head, []);
      }
    }
  }

  // Eleven leading zeros end the stream at once, whatever chunk they announce.
  lemma ElevenZerosEndTheStream(size: seq<byte>, ext: seq<byte>, more: seq<byte>, n: nat)
    requires |size| > HEX_CAP && AllHex(size) && ExtensionOk(ext) && forall i | 0 <= i < HEX_CAP :: size[i] == 48
    ensures NthRead(Decoder(size + ext + (CRLF + more), 0, false), n) == -1
  {
    hide Strtol16, SizeLine, HexFrom;
    var head := size[..HEX_CAP];
    LongSizeKept(size, ext, more);
    assert head + [] == head;
    ZerosAreZero(head);
    SizeParsed(head, []);
    EndIsFinal(Decoder(size + ext + (CRLF + more), 0, false), n);
  }

  // For one: a chunk of the single byte A, its size written with eleven zeros before the 1.
  // The coding means [65]; the decoder reads nothing.
  lemma TwelveDigitSize(n: nat)
    ensures var size := seq(HEX_CAP, _ => 48) + [49];
      HexFrom(size, 0) == 1 && NthRead(Decoder(size + [] + (CRLF + ([65] + CRLF)), 0, false), n) == -1
  {
    hide SizeLine;
    var zeros: seq<byte> := seq(HEX_CAP, _ => 48);
    ZerosAreZero(zeros);
    HexOfTwoParts(zeros, [49], 0);
    ElevenZerosEndTheStream(zeros + [49], [], [65] + CRLF, n);
  }

  // A size line cut short is not taken for one.
  lemma {:induction false} CutLine(line: seq<byte>, more: seq<byte>, k: nat, hex: seq<byte>)
    requires CR !in line && k <= |line| + 2 + |more|
    ensures var cut := (line + (CRLF + more))[..k];
      if k < |line| + 2 then !SizeLine(cut, hex).ok else cut == line + (CRLF + more[..k - |line| - 2])
  {
    var all := line + (CRLF + more);
    if k < |line| + 2 && k > 0 {
      assert all[..k][1..] == all[1..][..k - 1];
      if line == [] {
        assert all[..k] == [CR];
      } else {
        assert all[1..] == line[1..] + (CRLF + more);
        CutLine(line[1..], more, k - 1, Keep(hex, line[0]));
      }
    }
  }

  // A chunk whose data stop early: the bytes that came, and then the end.
  lemma {:induction false} ShortData(s: seq<byte>, r: nat, n: nat)
    requires |s| <= r && 0 < r
    ensures NthRead(Decoder(s, r, false), n) == if n < |s| then s[n] else -1
    decreases |s|
  {
    hide AfterRead, ReadResult;
    var d := Decoder(s, r, false);
    ShortRead(s, r);
    assert After(d, 0) == d;
    if s == [] {
      EndIsFinal(d, n);
    } else if n > 0 {
      ReadsInTwoParts(d, 1, n - 1);
      if r == 1 {
        CutInLine([], n - 1);
      } else {
        ShortData(s[1..], r - 1, n - 1);
      }
    }
  }

  lemma ShortRead(s: seq<byte>, r: nat)
    requires |s| <= r && 0 < r
    ensures ReadResult(Decoder(s, r, false)) == if s == [] then -1 else s[0]
    ensures s != [] ==> AfterRead(Decoder(s, r, false)) == if r == 1 then Decoder([], 0, false) else Decoder(s[1..], r - 1, false)
  {
  }

  predicate Honest(read: int, body: seq<byte>, n: nat) {
    read == -1 || (n < |body| && read == body[n])
  }

  lemma CutInLine(s: seq<byte>, n: nat)
    requires !SizeLine(s, []).ok
    ensures NthRead(Decoder(s, 0, false), n) == -1
  {
    EndIsFinal(Decoder(s, 0, false), n);
  }

  lemma CutEnd(zeros: seq<byte>, ext: seq<byte>, trailer: seq<byte>, k: nat, n: nat)
    requires LastOk(zeros, ext) && k <= |zeros| + |ext| + 2 + |trailer|
    ensures NthRead(Decoder((zeros + ext + (CRLF + trailer))[..k], 0, false), n) == -1
  {
    hide ReadResult, AfterRead, After, LastOk;
    var line := zeros + ext;
    assert CR !in line by {
      LastLineHasNoBreak(zeros, ext);
    }
    CutLine(line, trailer, k, []);
    if k < |line| + 2 {
      CutInLine((line + (CRLF + trailer))[..k], n);
    } else {
      LastChunkEnds(zeros, ext, trailer[..k - |line| - 2], n);
    }
  }

  lemma LastLineHasNoBreak(zeros: seq<byte>, ext: seq<byte>)
    requires LastOk(zeros, ext)
    ensures CR !in zeros + ext
  {
  }

  // The whole size line came, and j bytes behind it.
  lemma CutInData(c: Chunk, next: seq<byte>, j: nat, n: nat)
    requires ChunkOk(c) && j <= |c.data| + 2 + |next|
    ensures var cut := (c.data + (CRLF + next))[..j];
      var d := Decoder(c.size + c.ext + (CRLF + cut), 0, false);
      && (n < |c.data| || j <= |c.data| ==> Honest(NthRead(d, n), c.data, n))
      && (j > |c.data| && n >= |c.data| ==>
           NthRead(d, n) == NthRead(Decoder(next[..if j >= |c.data| + 2 then j - |c.data| - 2 else 0], 0, false), n - |c.data|))
  {
    hide NthRead, After, Ensured, ChunkOk;
    var size, cut := |c.data|, (c.data + (CRLF + next))[..j];
    var d := Decoder(c.size + c.ext + (CRLF + cut), 0, false);
    AnyChunkOpens(c, cut);
    PeekAgrees(d, n);
    if j <= size {
      assert cut == c.data[..j];
      ShortData(cut, size, n);
    } else {
      var behind := (CRLF + next)[..j - size];
      assert cut == c.data + behind;
      if n < size {
        ReadsInside(c.data, behind, n);
      } else {
        ReadsBehind(c.data, behind, n);
        TwoBytesOn(next, j - size);
      }
    }
  }

  lemma AnyChunkOpens(c: Chunk, cut: seq<byte>)
    requires ChunkOk(c)
    ensures c.data != []
    ensures Ensured(Decoder(c.size + c.ext + (CRLF + cut), 0, false)) == Decoder(cut, |c.data|, false)
  {
    SizeLineParsed(c.size, c.ext, cut);
  }

  lemma ReadsBehind(data: seq<byte>, behind: seq<byte>, n: nat)
    requires data != [] && n >= |data|
    ensures NthRead(Inside(data, behind), n) == NthRead(Past(behind), n - |data|)
  {
    hide ReadResult, AfterRead, Inside, Past;
    ReadsInside(data, behind, |data| - 1);
    ReadsInTwoParts(Inside(data, behind), |data|, n - |data|);
  }

  lemma TwoBytesOn(next: seq<byte>, j: nat)
    requires 0 < j <= 2 + |next|
    ensures Tail(Tail((CRLF + next)[..j])) == next[..if j >= 2 then j - 2 else 0]
  {
    var s := (CRLF + next)[..j];
    if j == 1 {
      assert s == [CR];
    } else {
      assert s == [CR] + ([LF] + next[..j - 2]);
      assert s[1..] == [LF] + next[..j - 2];
    }
  }

  lemma CutChunk(c: Chunk, next: seq<byte>, k: nat, n: nat)
    requires ChunkOk(c) && k <= |c.size| + |c.ext| + 4 + |c.data| + |next|
    ensures var d := Decoder((c.size + c.ext + (CRLF + (c.data + (CRLF + next))))[..k], 0, false);
      var skip := |c.size| + |c.ext| + 2 + |c.data|;
      && (n < |c.data| || k <= skip ==> Honest(NthRead(d, n), c.data, n))
      && (k > skip && n >= |c.data| ==>
           NthRead(d, n) == NthRead(Decoder(next[..if k >= skip + 2 then k - skip - 2 else 0], 0, false), n - |c.data|))
  {
    var line, more := c.size + c.ext, c.data + (CRLF + next);
    assert CR !in line by {
      SizeHasNoBreak(c);
    }
    hide NthRead, SizeLine, ChunkOk;
    CutLine(line, more, k, []);
    if k < |line| + 2 {
      CutInLine((line + (CRLF + more))[..k], n);
    } else {
      CutInData(c, next, k - |line| - 2, n);
    }
  }

  lemma SizeHasNoBreak(c: Chunk)
    requires ChunkOk(c)
    ensures CR !in c.size + c.ext
  {
  }

  // A connection cut anywhere never yields a wrong byte: what is read is a prefix of the
  // body, and then the end.
  lemma {:induction false} CutNeverLies(cs: seq<Chunk>, zeros: seq<byte>, ext: seq<byte>, trailer: seq<byte>, k: nat, n: nat)
    requires ChunksOk(cs) && LastOk(zeros, ext) && k <= |Encoded(cs, zeros, ext, trailer)|
    ensures Honest(NthRead(Decoder(Encoded(cs, zeros, ext, trailer)[..k], 0, false), n), Body(cs), n)
    decreases cs
  {
    hide NthRead, ChunkOk, LastOk;
    if cs == [] {
      CutEnd(zeros, ext, trailer, k, n);
    } else {
      var c, next := cs[0], Encoded(cs[1..], zeros, ext, trailer);
      var skip := |c.size| + |c.ext| + 2 + |c.data|;
      CutChunk(c, next, k, n);
      if k > skip && n >= |c.data| {
        CutNeverLies(cs[1..], zeros, ext, trailer, if k >= skip + 2 then k - skip - 2 else 0, n - |c.data|);
      }
    }
  }
}

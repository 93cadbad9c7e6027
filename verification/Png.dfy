/** The PNG container recogniser and the chunk grammar it decides (RFC 2083, sections 3.1, 3.2 and
    4.1). Like the code, the grammar leaves CRCs and compressed pixels unchecked, and does not ask
    for chunk lengths below 2^31. */
module Png {
  import opened Prelude

  type bytes = seq<byte>

  const SIGNATURE: bytes := [0x89, 0x50, 0x4e, 0x47, 0x0d, 0x0a, 0x1a, 0x0a]
  const IHDR: bytes := [0x49, 0x48, 0x44, 0x52]
  const IDAT: bytes := [0x49, 0x44, 0x41, 0x54]
  const IEND: bytes := [0x49, 0x45, 0x4e, 0x44]

  // Big-endian 32-bit words.
  function Read32(p: bytes): uint32
    requires |p| >= 4
  {
    p[0] as int * 0x100_0000 + p[1] as int * 0x1_0000 + p[2] as int * 0x100 + p[3] as int
  }

  function Write32(n: uint32): (p: bytes)
    ensures |p| == 4
  {
    [n / 0x100_0000, n / 0x1_0000 % 0x100, n / 0x100 % 0x100, n % 0x100]
  }

  lemma WriteThenRead(n: uint32, rest: bytes)
    ensures Read32(Write32(n) + rest) == n
  {
    var a, b, c := n / 0x100, n / 0x1_0000, n / 0x100_0000;
    assert n == a * 0x100 + n % 0x100;
    assert a == b * 0x100 + a % 0x100;
    assert b == c * 0x100 + b % 0x100;
  }

  lemma ReadThenWrite(p: bytes)
    requires |p| >= 4
    ensures Write32(Read32(p)) == p[..4]
  {
    var n := Read32(p);
    assert n / 0x100 == p[0] as int * 0x1_0000 + p[1] as int * 0x100 + p[2] as int;
    assert n / 0x1_0000 == p[0] as int * 0x100 + p[1] as int;
    assert n / 0x100_0000 == p[0];
  }

  datatype Chunk = Chunk(kind: bytes, body: bytes, crc: bytes) {
    ghost predicate Sized() {
      |kind| == 4 && |crc| == 4 && |body| < TWO_32
    }
  }

  // Length, type, data and CRC of one chunk (section 3.2).
  function Encode(c: Chunk): (p: bytes)
    requires c.Sized()
    ensures |p| == |c.body| + 12
  {
    Write32(|c.body|) + c.kind + c.body + c.crc
  }

  ghost predicate AllSized(cs: seq<Chunk>) {
    forall k :: 0 <= k < |cs| ==> cs[k].Sized()
  }

  function EncodeAll(cs: seq<Chunk>): bytes
    requires AllSized(cs)
  {
    if cs == [] then [] else Encode(cs[0]) + EncodeAll(cs[1..])
  }

  // A header chunk of 13 bytes whose width and height are not zero (section 4.1.1).
  predicate IsHeader(c: Chunk) {
    c.kind == IHDR && |c.body| == 13 && Read32(c.body) != 0 && Read32(c.body[4..]) != 0
  }

  predicate IsImageData(c: Chunk) {
    c.kind == IDAT && c.body != []
  }

  // The header is first and the only one, some image data follows, and an empty IEND is last and
  // the only one (sections 4.1.1, 4.1.3 and 4.1.4).
  ghost predicate WellFormed(cs: seq<Chunk>) {
    && AllSized(cs)
    && cs != []
    && IsHeader(cs[0])
    && (forall k :: 0 < k < |cs| ==> cs[k].kind != IHDR)
    && (exists k :: 0 <= k < |cs| && IsImageData(cs[k]))
    && cs[|cs| - 1].kind == IEND && cs[|cs| - 1].body == []
    && (forall k :: 0 <= k < |cs| - 1 ==> cs[k].kind != IEND)
  }

  ghost predicate IsPng(data: bytes) {
    exists cs: seq<Chunk> :: WellFormed(cs) && data == SIGNATURE + EncodeAll(cs)
  }

  lemma EncodeThree(a: Chunk, b: Chunk, c: Chunk)
    requires a.Sized() && b.Sized() && c.Sized()
    ensures AllSized([a, b, c]) && EncodeAll([a, b, c]) == Encode(a) + (Encode(b) + (Encode(c) + []))
  {
    hide Encode;
    assert [a, b, c][1..] == [b, c] && [b, c][1..] == [c] && [c][1..] == [];
    assert EncodeAll([c]) == Encode(c) + [];
    assert EncodeAll([b, c]) == Encode(b) + EncodeAll([c]);
  }

  lemma ThreeAreWellFormed(a: Chunk, b: Chunk, c: Chunk)
    requires a.Sized() && b.Sized() && c.Sized()
    requires IsHeader(a) && IsImageData(b) && c.kind == IEND && c.body == []
    ensures WellFormed([a, b, c])
  {
    hide Read32;
    assert [a, b, c][1] == b;
  }

  // The smallest containers, byte by byte: the signature, a header of 13 bytes with width and height,
  // some image data, and the end.
  lemma SmallestContainers(header: bytes, pixels: bytes, a: bytes, b: bytes, c: bytes)
    requires |header| == 13 && header[..4] != [0, 0, 0, 0] && header[4..8] != [0, 0, 0, 0]
    requires 0 < |pixels| < TWO_32 && |a| == 4 && |b| == 4 && |c| == 4
    ensures IsPng([0x89, 0x50, 0x4e, 0x47, 0x0d, 0x0a, 0x1a, 0x0a]
                  + (([0, 0, 0, 13] + [0x49, 0x48, 0x44, 0x52] + header + a)
                     + ((Write32(|pixels|) + [0x49, 0x44, 0x41, 0x54] + pixels + b)
                        + (([0, 0, 0, 0] + [0x49, 0x45, 0x4e, 0x44] + [] + c) + []))))
  {
    var first, second, last := Chunk(IHDR, header, a), Chunk(IDAT, pixels, b), Chunk(IEND, [], c);
    assert IsHeader(first) by {
      assert header[4..][..4] == header[4..8];
      NotZero(header);
      NotZero(header[4..]);
    }
    hide Read32;
    assert Encode(first) == [0, 0, 0, 13] + [0x49, 0x48, 0x44, 0x52] + header + a;
    assert Encode(last) == [0, 0, 0, 0] + [0x49, 0x45, 0x4e, 0x44] + [] + c;
    hide Encode, IsHeader, Write32;
    EncodeThree(first, second, last);
    ThreeAreWellFormed(first, second, last);
  }

  lemma NotZero(p: bytes)
    requires |p| >= 4 && p[..4] != [0, 0, 0, 0]
    ensures Read32(p) != 0
  {
    if Read32(p) == 0 {
      ReadThenWrite(p);
    }
  }

  // The chunk at the front of the bytes, when its length field fits.
  ghost predicate Fits(s: bytes) {
    |s| >= 12 && Read32(s) <= |s| - 12
  }

  ghost function Front(s: bytes): (c: Chunk)
    requires Fits(s)
    ensures c.Sized() && s == Encode(c) + s[Read32(s) + 12..]
  {
    var size := Read32(s);
    ReadThenWrite(s);
    assert s == s[..4] + s[4..8] + s[8..8 + size] + s[8 + size..size + 12] + s[size + 12..];
    Chunk(s[4..8], s[8..8 + size], s[8 + size..size + 12])
  }

  // The encoding of a chunk can be told from whatever follows it.
  lemma FrontOfEncoding(c: Chunk, rest: bytes)
    requires c.Sized()
    ensures var s := Encode(c) + rest;
            Fits(s) && Front(s) == c && s[Read32(s) + 12..] == rest && Read32(s) == |c.body|
  {
    var s := Encode(c) + rest;
    assert s == Write32(|c.body|) + (c.kind + c.body + c.crc + rest);
    WriteThenRead(|c.body|, c.kind + c.body + c.crc + rest);
    assert s[4..8] == c.kind;
    assert s[8..8 + |c.body|] == c.body;
    assert s[8 + |c.body|..|c.body| + 12] == c.crc;
  }

  // No two chunk lists have one encoding.
  lemma {:induction false} EncodingIsUnique(cs: seq<Chunk>, ds: seq<Chunk>)
    requires AllSized(cs) && AllSized(ds) && EncodeAll(cs) == EncodeAll(ds)
    ensures cs == ds
  {
    if cs != [] && ds != [] {
      FrontOfEncoding(cs[0], EncodeAll(cs[1..]));
      FrontOfEncoding(ds[0], EncodeAll(ds[1..]));
      EncodingIsUnique(cs[1..], ds[1..]);
      assert cs == [cs[0]] + cs[1..] && ds == [ds[0]] + ds[1..];
    }
  }

  // The loop of the recogniser over the bytes still unread.
  ghost predicate Scan(s: bytes, first: bool, image: bool)
    decreases |s|
  {
    Fits(s) &&
    var c := Front(s);
    var image' := image || IsImageData(c);
    var rest := s[Read32(s) + 12..];
    && (if first then IsHeader(c) else c.kind != IHDR)
    && if c.kind == IEND then image' && c.body == [] && rest == [] else Scan(rest, false, image')
  }

  // What Scan looks for: a chunk list that may end a well-formed one.
  ghost predicate Tail(cs: seq<Chunk>, first: bool, image: bool) {
    && AllSized(cs)
    && cs != []
    && (if first then IsHeader(cs[0]) else cs[0].kind != IHDR)
    && (forall k :: 0 < k < |cs| ==> cs[k].kind != IHDR)
    && (image || exists k :: 0 <= k < |cs| && IsImageData(cs[k]))
    && cs[|cs| - 1].kind == IEND && cs[|cs| - 1].body == []
    && (forall k :: 0 <= k < |cs| - 1 ==> cs[k].kind != IEND)
  }

  lemma TailOfTail(cs: seq<Chunk>, first: bool, image: bool)
    requires Tail(cs, first, image) && cs[0].kind != IEND
    ensures Tail(cs[1..], false, image || IsImageData(cs[0]))
  {
    if !image && !IsImageData(cs[0]) {
      var k :| 0 <= k < |cs| && IsImageData(cs[k]);
      assert cs[1..][k - 1] == cs[k];
    }
  }

  lemma {:induction false} TailIsScanned(cs: seq<Chunk>, first: bool, image: bool)
    requires Tail(cs, first, image)
    ensures Scan(EncodeAll(cs), first, image)
  {
    FrontOfEncoding(cs[0], EncodeAll(cs[1..]));
    if cs[0].kind == IEND {
      assert |cs| == 1;
    } else {
      TailOfTail(cs, first, image);
      TailIsScanned(cs[1..], false, image || IsImageData(cs[0]));
    }
  }

  lemma {:induction false} ScannedIsTail(s: bytes, first: bool, image: bool) returns (cs: seq<Chunk>)
    requires Scan(s, first, image)
    ensures Tail(cs, first, image) && s == EncodeAll(cs)
    decreases |s|
  {
    var c := Front(s);
    var rest := s[Read32(s) + 12..];
    hide Fits, Front, Encode, Read32;
    if c.kind == IEND {
      cs := [c];
      assert EncodeAll(cs[1..]) == [];
    } else {
      var ds := ScannedIsTail(rest, false, image || IsImageData(c));
      cs := [c] + ds;
      TailExtends(c, ds, first, image);
    }
  }

  lemma TailExtends(c: Chunk, ds: seq<Chunk>, first: bool, image: bool)
    requires Tail(ds, false, image || IsImageData(c)) && c.Sized() && c.kind != IEND
    requires if first then IsHeader(c) else c.kind != IHDR
    ensures Tail([c] + ds, first, image) && EncodeAll([c] + ds) == Encode(c) + EncodeAll(ds)
  {
    hide Encode, IsHeader;
    var cs := [c] + ds;
    assert cs[1..] == ds;
    if !image && !IsImageData(c) {
      var k :| 0 <= k < |ds| && IsImageData(ds[k]);
      assert cs[k + 1] == ds[k];
    } else if !image {
      assert IsImageData(cs[0]);
    }
  }

  lemma ScanDecidesGrammar(data: bytes)
    ensures IsPng(data) <==> |data| >= 8 && data[..8] == SIGNATURE && Scan(data[8..], true, false)
  {
    if IsPng(data) {
      var cs: seq<Chunk> :| WellFormed(cs) && data == SIGNATURE + EncodeAll(cs);
      assert data[8..] == EncodeAll(cs);
      TailIsScanned(cs, true, false);
    }
    if |data| >= 8 && data[..8] == SIGNATURE && Scan(data[8..], true, false) {
      var cs := ScannedIsTail(data[8..], true, false);
      assert data == SIGNATURE + EncodeAll(cs) && WellFormed(cs);
    }
  }

  // One turn of the loop, on the bytes as they lie in the buffer.
  lemma ScanTurn(s: bytes, first: bool, image: bool)
    requires Fits(s)
    ensures var kind, size := s[4..8], Read32(s);
            var image' := image || (kind == IDAT && size != 0);
            Scan(s, first, image) <==>
            && (if first then kind == IHDR && size == 13 && Read32(s[8..12]) != 0 && Read32(s[12..16]) != 0
                else kind != IHDR)
            && (if kind == IEND then image' && size == 0 && size + 12 == |s| else Scan(s[size + 12..], false, image'))
  {
    var c := Front(s);
    assert c.kind == s[4..8] && |c.body| == Read32(s);
    if Read32(s) == 13 {
      assert s[8..12] == c.body[..4] && s[12..16] == c.body[4..][..4];
      assert Read32(s[8..12]) == Read32(c.body) && Read32(s[12..16]) == Read32(c.body[4..]);
    }
  }

  // Arithmetic of the code's size_t.
  function SizeSub(a: uint64, b: uint64): uint64 {
    (a - b) % TWO_64
  }

  // HasPngStructure accepts exactly the well-formed containers; no data is a null pointer. The
  // caller passes at most 16 KiB; the proof needs no more than a length below 2^32, which keeps
  // `size + 12` from wrapping.
  method HasPngStructure(input: Option<bytes>) returns (accepted: bool)
    requires input.Some? ==> |input.value| < TWO_32
    ensures accepted <==> input.Some? && IsPng(input.value)
  {
    hide Scan, IsPng, Read32;
    if input.None? {
      return false;
    }
    var data, length := input.value, |input.value|;
    ScanDecidesGrammar(data);
    if length < 8 || data[..8] != SIGNATURE {
      return false;
    }
    var hasImageData := false;
    var offset: uint64 := 8;
    while SizeSub(length, offset) >= 12
      invariant 8 <= offset <= length
      invariant Scan(data[8..], true, false) <==> Scan(data[offset..], offset == 8, hasImageData)
      decreases length - offset
    {
      var chunk := data[offset..];
      var size := Read32(chunk);
      if size > SizeSub(SizeSub(length, offset), 12) {
        TooShort(chunk, offset == 8, hasImageData);
        return false;
      }
      ScanTurn(chunk, offset == 8, hasImageData);
      var isHeader := chunk[4..8] == IHDR;
      if offset == 8 {
        if !isHeader || size != 13 || Read32(chunk[8..12]) == 0 || Read32(chunk[12..16]) == 0 {
          return false;
        }
      } else if isHeader {
        return false;
      }
      if chunk[4..8] == IDAT && size != 0 {
        hasImageData := true;
      }
      offset := offset + Wrap32(size + 12);
      assert data[offset..] == chunk[size + 12..];
      if chunk[4..8] == IEND {
        return hasImageData && size == 0 && offset == length;
      }
    }
    TooShort(data[offset..], offset == 8, hasImageData);
    return false;
  }

  lemma TooShort(s: bytes, first: bool, image: bool)
    requires !Fits(s)
    ensures !Scan(s, first, image)
  {
  }
}

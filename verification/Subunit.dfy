/** The in-place checksum rewrite of a subunit v2 stream (nix/lib/subunit-crc.py). */
module Subunit {
  import opened Wrappers
  import opened Text

  type Byte = b: int | 0 <= b < 256

  // ---- CRC-32, as section 8 of RFC 1952 gives it ---------------------------------------

  function CrcBits(c: bv32, n: nat): bv32
    decreases n
  {
    if n == 0 then c else CrcBits(if c & 1 == 1 then 0xEDB88320 ^ (c >> 1) else c >> 1, n - 1)
  }

  function CrcByte(c: bv32, b: Byte): bv32 { CrcBits((c ^ (b as bv32)) & 0xFF, 8) ^ (c >> 8) }

  function CrcUpdate(c: bv32, bytes: seq<Byte>): bv32
    decreases |bytes|
  {
    if bytes == [] then c else CrcUpdate(CrcByte(c, bytes[0]), bytes[1..])
  }

  function Crc32(bytes: seq<Byte>): int { (CrcUpdate(0xFFFFFFFF, bytes) ^ 0xFFFFFFFF) as int }

  function BigEndian4(c: int): (r: seq<Byte>)
    requires 0 <= c < 0x1_0000_0000
    ensures |r| == 4
  {
    [c / 256 / 256 / 256, c / 256 / 256 % 256, c / 256 % 256, c % 256]
  }

  function BigEndian(bytes: seq<Byte>): nat {
    if bytes == [] then 0 else BigEndian(bytes[..|bytes| - 1]) * 256 + bytes[|bytes| - 1]
  }

  /** The four bytes read back as the number. */
  lemma ReadsBack(c: int)
    requires 0 <= c < 0x1_0000_0000
    ensures BigEndian(BigEndian4(c)) == c
  {
    var r := BigEndian4(c);
    assert r[..3][..2] == r[..2] && r[..2][..1] == r[..1] && r[..1][..0] == [];
    assert BigEndian(r[..1]) == c / 256 / 256 / 256;
    assert BigEndian(r[..2]) == c / 256 / 256;
    assert BigEndian(r[..3]) == c / 256;
  }

  function Checksum(body: seq<Byte>): seq<Byte> { BigEndian4(Crc32(body)) }

  // ---- packet headers ----------------------------------------------------------------------

  /** Python's slice: what lies beyond the end is left out. */
  function Slice(s: seq<Byte>, lo: nat, hi: nat): seq<Byte>
    requires lo <= hi
  {
    if lo >= |s| then [] else if hi >= |s| then s[lo..] else s[lo..hi]
  }

  lemma SliceFrom(s: seq<Byte>, pos: nat, lo: nat, hi: nat)
    requires pos <= |s| && lo <= hi
    ensures Slice(s, pos + lo, pos + hi) == Slice(s[pos..], lo, hi)
  {}

  /** The bytes of the length field after its first. */
  function Extra(s: seq<Byte>): nat { if 3 < |s| then s[3] / 64 else 0 }

  /** Without the two top bits of a number of 1 + extra bytes. */
  function Masked(x: nat, extra: nat): nat {
    if extra == 0 then x % 0x40 else if extra == 1 then x % 0x4000
    else if extra == 2 then x % 0x40_0000 else x % 0x4000_0000
  }

  /** The length field of the packet s starts with. */
  function LengthField(s: seq<Byte>): nat { Masked(BigEndian(Slice(s, 3, 4 + Extra(s))), Extra(s)) }

  predicate StartsWithPacket(s: seq<Byte>) {
    s != [] && s[0] == 0xB3 && 8 + Extra(s) <= LengthField(s) <= |s| && s[1] / 16 == 2
  }

  /** A length field cut off by the end of the stream never passes. */
  lemma CutOffIsRefused(s: seq<Byte>)
    requires |s| < 4 + Extra(s)
    ensures !StartsWithPacket(s)
  {}

  /** The length of the packet s starts with, 0 for none. */
  function PacketLength(s: seq<Byte>): nat { if StartsWithPacket(s) then LengthField(s) else 0 }

  // ---- the format, as a writer lays it out ---------------------------------------------------

  /** x in n big-endian bytes. */
  function Bytes(x: nat, n: nat): (r: seq<Byte>)
    ensures |r| == n
    decreases n
  {
    if n == 0 then [] else Bytes(x / 256, n - 1) + [x % 256]
  }

  function Power256(n: nat): nat { if n == 0 then 1 else 256 * Power256(n - 1) }

  lemma {:induction false} BytesReadBack(x: nat, n: nat)
    requires x < Power256(n)
    ensures BigEndian(Bytes(x, n)) == x
    decreases n
  {
    if n > 0 {
      BytesReadBack(x / 256, n - 1);
      var r := Bytes(x, n);
      assert r[..|r| - 1] == Bytes(x / 256, n - 1);
    }
  }

  /** A subunit Number of 1 + extra bytes keeps extra in its two top bits, so it counts
      below 2^(8 * extra + 6). */
  function Limit(extra: nat): nat { 64 * Power256(extra) }

  function Number(x: nat, extra: nat): (r: seq<Byte>)
    requires extra <= 3 && x < Limit(extra)
    ensures |r| == 1 + extra
  {
    Bytes(extra * Limit(extra) + x, 1 + extra)
  }

  lemma {:induction false} FirstByte(x: nat, n: nat, top: nat)
    requires top * Power256(n) <= x < (top + 1) * Power256(n) && top < 256
    ensures Bytes(x, n + 1)[0] == top
    decreases n
  {
    if n == 0 {
      assert Bytes(x, 1) == Bytes(x / 256, 0) + [x % 256];
    } else {
      DividesOut(x, top, Power256(n - 1));
      FirstByte(x / 256, n - 1, top);
      assert Bytes(x, n + 1) == Bytes(x / 256, n) + [x % 256];
    }
  }

  lemma DividesOut(x: nat, top: nat, p: nat)
    requires top * (256 * p) <= x < (top + 1) * (256 * p)
    ensures top * p <= x / 256 < (top + 1) * p
  {
    assert top * (256 * p) == 256 * (top * p) && (top + 1) * (256 * p) == 256 * ((top + 1) * p);
  }

  lemma TopBits(y: nat, x: nat, extra: nat)
    requires extra <= 3 && x < Limit(extra) && y == extra * Limit(extra) + x
    ensures Bytes(y, 1 + extra)[0] / 64 == extra
  {
    LeadingByte(y, x, extra);
    FirstByte(y, extra, y / Power256(extra));
  }

  lemma LowBits(y: nat, x: nat, extra: nat)
    requires extra <= 3 && x < Limit(extra) && y == extra * Limit(extra) + x
    ensures y < Power256(1 + extra) && Masked(y, extra) == x
  {
    Limits(extra);
  }

  /** What the reader makes of a Number: how many bytes follow, and the value. */
  lemma NumberReadsBack(x: nat, extra: nat)
    requires extra <= 3 && x < Limit(extra)
    ensures Number(x, extra)[0] / 64 == extra
    ensures Masked(BigEndian(Number(x, extra)), extra) == x
  {
    var y := extra * Limit(extra) + x;
    TopBits(y, x, extra);
    LowBits(y, x, extra);
    BytesReadBack(y, 1 + extra);
  }

  lemma LeadingByte(y: nat, x: nat, extra: nat)
    requires extra <= 3 && x < Limit(extra) && y == extra * Limit(extra) + x
    ensures var p := Power256(extra);
            p > 0 && y / p * p <= y < (y / p + 1) * p && y / p < 256 && y / p / 64 == extra
  {
    Limits(extra);
    if extra == 0 {
    } else if extra == 1 {
      assert y / 256 / 64 == 1;
    } else if extra == 2 {
      assert y / 0x1_0000 / 64 == 2;
    } else {
      assert y / 0x100_0000 / 64 == 3;
    }
  }

  lemma Limits(extra: nat)
    requires extra <= 3
    ensures Power256(extra) == if extra == 0 then 1 else if extra == 1 then 0x100 else if extra == 2 then 0x1_0000 else 0x100_0000
    ensures Power256(1 + extra) == 256 * Power256(extra)
    ensures Limit(extra) == if extra == 0 then 0x40 else if extra == 1 then 0x4000 else if extra == 2 then 0x40_0000 else 0x4000_0000
  {
    assert Power256(1) == 256 && Power256(2) == 0x1_0000 && Power256(3) == 0x100_0000;
  }

  /** What a packet is made of: the four low bits beside the version, the second flag
      byte, the width of the length field and the body. */
  datatype Packet = Packet(flags0: nat, flags1: Byte, extra: nat, body: seq<Byte>)
  {
    function Length(): nat { 8 + extra + |body| }

    predicate Writable() { flags0 < 16 && extra <= 3 && Length() < Limit(extra) }
  }

  /** The bytes ahead of the checksum. */
  function Head(p: Packet): (r: seq<Byte>)
    requires p.Writable()
    ensures |r| == p.Length() - 4
  {
    [0xB3, 0x20 + p.flags0, p.flags1] + Number(p.Length(), p.extra) + p.body
  }

  lemma LengthFieldOf(s: seq<Byte>, x: nat, extra: nat)
    requires extra <= 3 && x < Limit(extra) && 4 + extra <= |s| && s[3..4 + extra] == Number(x, extra)
    ensures Extra(s) == extra && LengthField(s) == x
  {
    NumberReadsBack(x, extra);
    assert s[3] == s[3..4 + extra][0];
    assert Slice(s, 3, 4 + extra) == s[3..4 + extra];
  }

  /** A stream that begins with a written packet, whatever its checksum and whatever
      follows, begins with a packet of that length. */
  lemma WrittenIsRead(p: Packet, crc: seq<Byte>, rest: seq<Byte>)
    requires p.Writable() && |crc| == 4
    ensures PacketLength(Head(p) + crc + rest) == p.Length()
  {
    var s := Head(p) + crc + rest;
    assert s[0] == 0xB3 && s[1] == 0x20 + p.flags0;
    assert s[3..4 + p.extra] == Number(p.Length(), p.extra);
    LengthFieldOf(s, p.Length(), p.extra);
  }

  lemma {:induction false} BytesOfBigEndian(b: seq<Byte>)
    ensures BigEndian(b) < Power256(|b|) && Bytes(BigEndian(b), |b|) == b
  {
    if b != [] {
      BytesOfBigEndian(b[..|b| - 1]);
      assert b == b[..|b| - 1] + [b[|b| - 1]];
    }
  }

  lemma {:induction false} TopOfBigEndian(b: seq<Byte>)
    requires b != []
    ensures b[0] * Power256(|b| - 1) <= BigEndian(b) < (b[0] + 1) * Power256(|b| - 1)
  {
    var n := |b| - 1;
    if n > 0 {
      TopOfBigEndian(b[..n]);
      ScalesUp(BigEndian(b[..n]), b[n], b[0], Power256(n - 1));
    } else {
      assert BigEndian(b[..0]) == 0;
    }
  }

  lemma ScalesUp(x: nat, low: Byte, top: nat, p: nat)
    requires top * p <= x < (top + 1) * p
    ensures top * (256 * p) <= x * 256 + low < (top + 1) * (256 * p)
  {
    assert top * (256 * p) == 256 * (top * p) && (top + 1) * (256 * p) == 256 * ((top + 1) * p);
  }

  lemma NumberOfBytes(b: seq<Byte>)
    requires b != [] && |b| == 1 + b[0] / 64
    ensures var extra := b[0] / 64;
            Masked(BigEndian(b), extra) < Limit(extra) && b == Number(Masked(BigEndian(b), extra), extra)
  {
    var extra, y := b[0] / 64, BigEndian(b);
    BytesOfBigEndian(b);
    TopOfBigEndian(b);
    Limits(extra);
    SplitTop(y, b[0]);
  }

  lemma SplitTop(y: nat, top: Byte)
    requires top * Power256(top / 64) <= y < (top + 1) * Power256(top / 64)
    ensures y == top / 64 * Limit(top / 64) + Masked(y, top / 64)
  {
    Limits(top / 64);
  }

  function PacketOf(s: seq<Byte>): Packet
    requires StartsWithPacket(s)
  {
    Packet(s[1] % 16, s[2], Extra(s), s[4 + Extra(s)..LengthField(s) - 4])
  }

  lemma HeadSlices(s: seq<Byte>, i: nat, j: nat)
    requires 3 <= i <= j <= |s|
    ensures s[..j] == [s[0], s[1], s[2]] + s[3..i] + s[i..j]
  {}

  lemma PacketFits(s: seq<Byte>)
    requires StartsWithPacket(s)
    ensures var p := PacketOf(s);
            p.Writable() && p.Length() == LengthField(s) && Number(p.Length(), p.extra) == s[3..4 + Extra(s)]
  {
    var b := Slice(s, 3, 4 + Extra(s));
    assert b == s[3..4 + Extra(s)] && b[0] == s[3];
    NumberOfBytes(b);
  }

  /** Every packet the reader accepts is laid out as a writer would. */
  lemma ReadIsWritten(s: seq<Byte>)
    requires StartsWithPacket(s)
    ensures var p := PacketOf(s);
            p.Writable() && p.Length() == PacketLength(s) && Head(p) == s[..PacketLength(s) - 4]
  {
    PacketFits(s);
    HeadSlices(s, 4 + Extra(s), LengthField(s) - 4);
    assert 0x20 + s[1] % 16 == s[1];
  }

  // ---- streams of packets ----------------------------------------------------------------------

  type Header = seq<Byte> -> nat

  type Trailer = seq<Byte> -> seq<Byte>

  predicate Framed(h: Header, s: seq<Byte>, t: seq<Byte>) {
    8 <= h(s) <= |s| && |t| == |s| && t[..h(s) - 4] == s[..h(s) - 4] ==> h(t) == h(s)
  }

  /** A header reads nothing of the checksum that ends its packet. */
  ghost predicate Framing(h: Header) { forall s, t {:trigger Framed(h, s, t)} :: Framed(h, s, t) }

  /** The signature, flags and length field end before the checksum starts, because
      a packet is at least 8 + extra bytes long. */
  lemma PacketsFrame()
    ensures Framing(PacketLength)
  {
    forall s, t {:trigger Framed(PacketLength, s, t)} ensures Framed(PacketLength, s, t) {
      if StartsWithPacket(s) && |t| == |s| && t[..LengthField(s) - 4] == s[..LengthField(s) - 4] {
        SameHeader(s, t);
      }
    }
  }

  lemma SameHeader(s: seq<Byte>, t: seq<Byte>)
    requires StartsWithPacket(s) && |t| == |s| && t[..LengthField(s) - 4] == s[..LengthField(s) - 4]
    ensures StartsWithPacket(t) && LengthField(t) == LengthField(s)
  {
    assert forall i :: 0 <= i < LengthField(s) - 4 ==> t[i] == t[..LengthField(s) - 4][i] == s[i];
    assert Slice(t, 3, 4 + Extra(s)) == Slice(s, 3, 4 + Extra(s));
  }

  /** The whole stream is packets. */
  predicate Parses(h: Header, s: seq<Byte>)
    decreases |s|
  {
    s == [] || (8 <= h(s) <= |s| && Parses(h, s[h(s)..]))
  }

  function Lengths(h: Header, s: seq<Byte>): seq<nat>
    requires Parses(h, s)
    decreases |s|
  {
    if s == [] then [] else [h(s)] + Lengths(h, s[h(s)..])
  }

  /** Position i lies in the checksum field of a packet. */
  predicate InChecksum(h: Header, s: seq<Byte>, i: nat)
    requires Parses(h, s) && i < |s|
    decreases |s|
  {
    if i < h(s) then h(s) - 4 <= i else InChecksum(h, s[h(s)..], i - h(s))
  }

  /** Every packet ends with the checksum of the bytes before it. */
  predicate Valid(h: Header, sum: Trailer, s: seq<Byte>)
    requires Parses(h, s)
    decreases |s|
  {
    s == [] || (s[h(s) - 4..h(s)] == sum(s[..h(s) - 4]) && Valid(h, sum, s[h(s)..]))
  }

  /** The stream with every checksum rewritten. */
  function Fixed(h: Header, sum: Trailer, s: seq<Byte>): seq<Byte>
    requires Parses(h, s)
    decreases |s|
  {
    if s == [] then [] else s[..h(s) - 4] + sum(s[..h(s) - 4]) + Fixed(h, sum, s[h(s)..])
  }

  // ---- the script ----------------------------------------------------------------------------

  method Stamp(data: array<Byte>, pos: nat, end: nat)
    requires pos + 4 <= end <= data.Length
    modifies data
    ensures data[..end - 4] == old(data[..end - 4]) && data[end..] == old(data[end..])
    ensures data[end - 4..end] == Checksum(old(data[pos..end - 4]))
  {
    var crc := Checksum(data[pos..end - 4]);
    data[end - 4], data[end - 3], data[end - 2], data[end - 1] := crc[0], crc[1], crc[2], crc[3];
  }

  /** The header check at pos. */
  method HeaderAt(data: array<Byte>, pos: nat) returns (length: nat)
    requires pos < data.Length
    ensures length == PacketLength(data[pos..])
  {
    ghost var rest := data[pos..];
    var extra := if pos + 3 < data.Length then data[pos + 3] / 64 else 0;
    length := Masked(BigEndian(Slice(data[..], pos + 3, pos + 4 + extra)), extra);
    SliceFrom(data[..], pos, 3, 4 + extra);
    assert data[..][pos..] == rest;
    if data[pos] != 0xB3 || !(8 + extra <= length <= data.Length - pos) || data[pos + 1] / 16 != 2 {
      return 0;
    }
  }

  lemma ThreeParts(s: seq<Byte>, i: nat, j: nat)
    requires i <= j <= |s|
    ensures s == s[..i] + s[i..j] + s[j..] && s[..j] == s[..i] + s[i..j]
  {}

  lemma Cut(a: seq<Byte>, b: seq<Byte>, c: seq<Byte>)
    ensures (a + b + c)[..|a|] == a && (a + b + c)[|a|..|a| + |b|] == b && (a + b + c)[|a| + |b|..] == c
  {}

  lemma Suffixes(s: seq<Byte>, pos: nat, n: nat, m: nat)
    requires pos + n <= |s| && m <= n
    ensures s[pos..][n..] == s[pos + n..] && s[pos..][..m] == s[pos..pos + m] && s[..pos + m] == s[..pos] + s[pos..pos + m]
  {}

  /** One packet done: what is left to do is the rest of the stream. */
  lemma OnePacket(h: Header, sum: Trailer, before: seq<Byte>, after: seq<Byte>, pos: nat, end: nat)
    requires pos < |before| == |after| && 8 <= h(before[pos..]) && end == pos + h(before[pos..]) <= |before|
    requires after[..end - 4] == before[..end - 4] && after[end..] == before[end..]
    requires after[end - 4..end] == sum(before[pos..end - 4])
    ensures Parses(h, before[pos..]) <==> Parses(h, after[end..])
    ensures Parses(h, before[pos..]) ==> after[..end] + Fixed(h, sum, after[end..]) == before[..pos] + Fixed(h, sum, before[pos..])
  {
    Suffixes(before, pos, end - pos, end - pos - 4);
    ThreeParts(after, end - 4, end);
    if Parses(h, before[pos..]) {
      var body := before[pos..end - 4];
      Regroup(before[..pos], body, sum(body));
      Regroup(before[..pos], body + sum(body), Fixed(h, sum, before[end..]));
    }
  }

  /** What is done, then what is left to do. */
  ghost predicate Ahead(h: Header, sum: Trailer, before: seq<Byte>, now: seq<Byte>, pos: nat)
    requires pos <= |now|
  {
    (Parses(h, before) <==> Parses(h, now[pos..]))
    && (Parses(h, before) ==> now[..pos] + Fixed(h, sum, now[pos..]) == Fixed(h, sum, before))
  }

  /** The packet loop, in place. It stops at the first byte that starts no packet. */
  method Rewrite(data: array<Byte>) returns (bad: Option<nat>)
    modifies data
    ensures bad.None? <==> Parses(PacketLength, old(data[..]))
    ensures bad.None? ==> data[..] == Fixed(PacketLength, Checksum, old(data[..]))
  {
    ghost var before := data[..];
    var pos := 0;
    assert before[0..] == before && before[..0] == [];
    while pos < data.Length
      invariant 0 <= pos <= data.Length && Ahead(PacketLength, Checksum, before, data[..], pos)
    {
      ghost var now := data[..];
      var length := HeaderAt(data, pos);
      assert now[pos..] == data[pos..];
      if length == 0 {
        return Some(pos);
      }
      PacketsFrame();
      var end := pos + length;
      assert data[pos..end - 4] == now[pos..end - 4];
      Stamp(data, pos, end);
      OnePacket(PacketLength, Checksum, now, data[..], pos, end);
      pos := end;
    }
    assert data[..][pos..] == [] && data[..][..pos] == data[..];
    return None;
  }

  class File {
    var content: seq<Byte>

    /** The stream is written back only when all of it parsed. */
    method Recompute() returns (bad: Option<nat>)
      modifies this
      ensures bad.None? <==> Parses(PacketLength, old(content))
      ensures content == if Parses(PacketLength, old(content)) then Fixed(PacketLength, Checksum, old(content)) else old(content)
    {
      var data := new Byte[|content|](i requires 0 <= i < |content| reads this => content[i]);
      assert data[..] == content;
      bad := Rewrite(data);
      if bad.Some? {
        return;
      }
      content := data[..];
    }
  }

  // ---- what the rewrite keeps and gives ----------------------------------------------------------

  ghost predicate FourByte(sum: Trailer) { forall b :: |sum(b)| == 4 }

  lemma {:induction false} FixedLength(h: Header, sum: Trailer, s: seq<Byte>)
    requires Parses(h, s) && FourByte(sum)
    ensures |Fixed(h, sum, s)| == |s|
    decreases |s|
  {
    if s != [] {
      FixedLength(h, sum, s[h(s)..]);
    }
  }

  lemma FixedHead(h: Header, sum: Trailer, s: seq<Byte>)
    requires Framing(h) && Parses(h, s) && FourByte(sum) && s != []
    ensures var t, n := Fixed(h, sum, s), h(s);
            |t| == |s| && h(t) == n && t[..n - 4] == s[..n - 4] && t[n - 4..n] == sum(s[..n - 4])
            && t[n..] == Fixed(h, sum, s[n..])
  {
    FixedLength(h, sum, s);
    var n := h(s);
    Cut(s[..n - 4], sum(s[..n - 4]), Fixed(h, sum, s[n..]));
    assert Framed(h, s, Fixed(h, sum, s));
  }

  lemma ParsesOn(h: Header, sum: Trailer, t: seq<Byte>, n: nat)
    requires t != [] && 8 <= n == h(t) <= |t| && Parses(h, t[n..])
    ensures Parses(h, t) && Lengths(h, t) == [n] + Lengths(h, t[n..])
    ensures Valid(h, sum, t) <==> t[n - 4..n] == sum(t[..n - 4]) && Valid(h, sum, t[n..])
  {}

  lemma HeadIsValid(h: Header, sum: Trailer, s: seq<Byte>, t: seq<Byte>, n: nat)
    requires Parses(h, s) && s != [] && n == h(s) == h(t) && |t| == |s|
    requires t[..n - 4] == s[..n - 4] && t[n - 4..n] == sum(s[..n - 4])
    requires Parses(h, t[n..]) && Lengths(h, t[n..]) == Lengths(h, s[n..]) && Valid(h, sum, t[n..])
    ensures Parses(h, t) && Lengths(h, t) == Lengths(h, s) && Valid(h, sum, t)
  {
    ParsesOn(h, sum, t, n);
  }

  /** The rewritten stream parses into packets of the same lengths, and every
      checksum is right. */
  lemma {:induction false} FixedIsValid(h: Header, sum: Trailer, s: seq<Byte>)
    requires Framing(h) && Parses(h, s) && FourByte(sum)
    ensures |Fixed(h, sum, s)| == |s| && Parses(h, Fixed(h, sum, s))
    ensures Lengths(h, Fixed(h, sum, s)) == Lengths(h, s)
    ensures Valid(h, sum, Fixed(h, sum, s))
    decreases |s|
  {
    if s != [] {
      var n := h(s);
      FixedHead(h, sum, s);
      FixedIsValid(h, sum, s[n..]);
      HeadIsValid(h, sum, s, Fixed(h, sum, s), n);
    }
  }

  /** Every byte outside the checksum fields keeps its value. */
  lemma {:induction false} FixedKeepsTheRest(h: Header, sum: Trailer, s: seq<Byte>, i: nat)
    requires Framing(h) && Parses(h, s) && FourByte(sum) && i < |s| && !InChecksum(h, s, i)
    ensures |Fixed(h, sum, s)| == |s| && Fixed(h, sum, s)[i] == s[i]
    decreases |s|
  {
    var n, t := h(s), Fixed(h, sum, s);
    FixedHead(h, sum, s);
    if i < n {
      assert t[i] == t[..n - 4][i];
    } else {
      FixedKeepsTheRest(h, sum, s[n..], i - n);
      assert t[i] == t[n..][i - n];
    }
  }

  ghost predicate AgreeOutside(h: Header, s: seq<Byte>, t: seq<Byte>)
    requires Parses(h, s)
  {
    |t| == |s| && forall i :: 0 <= i < |s| && !InChecksum(h, s, i) ==> t[i] == s[i]
  }

  lemma AgreeParts(h: Header, s: seq<Byte>, t: seq<Byte>)
    requires Parses(h, s) && s != [] && AgreeOutside(h, s, t)
    ensures t[..h(s) - 4] == s[..h(s) - 4] && AgreeOutside(h, s[h(s)..], t[h(s)..])
  {
    var n := h(s);
    forall i | 0 <= i < n - 4 ensures t[i] == s[i] {
      assert !InChecksum(h, s, i);
    }
    forall i | 0 <= i < |s| - n && !InChecksum(h, s[n..], i) ensures t[n..][i] == s[n..][i] {
      assert !InChecksum(h, s, i + n);
    }
  }

  lemma ValidParts(h: Header, sum: Trailer, t: seq<Byte>, n: nat)
    requires Parses(h, t) && Valid(h, sum, t) && t != [] && n == h(t)
    ensures 8 <= n <= |t| && t[n - 4..n] == sum(t[..n - 4]) && Parses(h, t[n..]) && Valid(h, sum, t[n..])
  {}

  lemma Assemble(h: Header, sum: Trailer, s: seq<Byte>, t: seq<Byte>, n: nat)
    requires Parses(h, s) && s != [] && n == h(s) && |t| == |s|
    requires t[..n - 4] == s[..n - 4] && t[n - 4..n] == sum(s[..n - 4]) && t[n..] == Fixed(h, sum, s[n..])
    ensures t == Fixed(h, sum, s)
  {
    ThreeParts(t, n - 4, n);
  }

  /** The rewrite is the only stream that agrees with the old one outside the
      checksum fields and has every checksum right. */
  lemma {:induction false} FixedIsTheOnly(h: Header, sum: Trailer, s: seq<Byte>, t: seq<Byte>)
    requires Framing(h) && Parses(h, s) && AgreeOutside(h, s, t) && Parses(h, t) && Valid(h, sum, t)
    ensures t == Fixed(h, sum, s)
    decreases |s|
  {
    if s != [] {
      var n := h(s);
      AgreeParts(h, s, t);
      assert Framed(h, s, t);
      ValidParts(h, sum, t, n);
      FixedIsTheOnly(h, sum, s[n..], t[n..]);
      Assemble(h, sum, s, t, n);
    }
  }

  /** The rewrite of a stream that parses: same length and packet boundaries, every
      byte outside the checksum fields as it was, every packet's last four bytes the
      big-endian CRC-32 of the bytes before them; and a second run changes nothing. */
  lemma RewriteIsRight(s: seq<Byte>)
    requires Parses(PacketLength, s)
    ensures var t := Fixed(PacketLength, Checksum, s);
            Parses(PacketLength, t) && Lengths(PacketLength, t) == Lengths(PacketLength, s)
            && AgreeOutside(PacketLength, s, t) && Valid(PacketLength, Checksum, t)
            && Fixed(PacketLength, Checksum, t) == t
  {
    PacketsFrame();
    var t := Fixed(PacketLength, Checksum, s);
    FixedIsValid(PacketLength, Checksum, s);
    forall i | 0 <= i < |s| && !InChecksum(PacketLength, s, i) ensures t[i] == s[i] {
      FixedKeepsTheRest(PacketLength, Checksum, s, i);
    }
    FixedIsTheOnly(PacketLength, Checksum, t, t);
  }
  // ---- the streams a writer makes ---------------------------------------------------------------

  ghost predicate Layout(ps: seq<Packet>, crcs: seq<seq<Byte>>) {
    |crcs| == |ps| && (forall i :: 0 <= i < |ps| ==> ps[i].Writable()) && forall i :: 0 <= i < |crcs| ==> |crcs[i]| == 4
  }

  /** The packets in order, each behind its head the four bytes given for it. */
  ghost function Stream(ps: seq<Packet>, crcs: seq<seq<Byte>>): seq<Byte>
    requires Layout(ps, crcs)
  {
    if ps == [] then [] else Head(ps[0]) + crcs[0] + Stream(ps[1..], crcs[1..])
  }

  ghost function Checksums(ps: seq<Packet>): (crcs: seq<seq<Byte>>)
    requires forall i :: 0 <= i < |ps| ==> ps[i].Writable()
    ensures Layout(ps, crcs)
  {
    if ps == [] then [] else [Checksum(Head(ps[0]))] + Checksums(ps[1..])
  }

  ghost function PacketLengths(ps: seq<Packet>): seq<nat> {
    if ps == [] then [] else [ps[0].Length()] + PacketLengths(ps[1..])
  }

  lemma FixedOn(h: Header, sum: Trailer, t: seq<Byte>, n: nat)
    requires t != [] && Parses(h, t) && n == h(t)
    ensures Fixed(h, sum, t) == t[..n - 4] + sum(t[..n - 4]) + Fixed(h, sum, t[n..])
  {}

  lemma FirstWritten(p: Packet, crc: seq<Byte>, rest: seq<Byte>)
    requires p.Writable() && |crc| == 4 && Parses(PacketLength, rest)
    ensures var s := Head(p) + crc + rest;
            Parses(PacketLength, s) && Lengths(PacketLength, s) == [p.Length()] + Lengths(PacketLength, rest)
            && Fixed(PacketLength, Checksum, s) == Head(p) + Checksum(Head(p)) + Fixed(PacketLength, Checksum, rest)
  {
    var s, n := Head(p) + crc + rest, p.Length();
    WrittenIsRead(p, crc, rest);
    Cut(Head(p), crc, rest);
    assert s[n..] == rest && s[..n - 4] == Head(p);
    ParsesOn(PacketLength, Checksum, s, n);
    FixedOn(PacketLength, Checksum, s, n);
  }

  /** A stream of written packets is read back packet by packet, whatever its
      checksums are, and the rewrite gives every packet the checksum its writer would. */
  lemma {:induction false} RewriteOfWritten(ps: seq<Packet>, crcs: seq<seq<Byte>>)
    requires Layout(ps, crcs)
    ensures var s := Stream(ps, crcs);
            Parses(PacketLength, s) && Lengths(PacketLength, s) == PacketLengths(ps)
            && Fixed(PacketLength, Checksum, s) == Stream(ps, Checksums(ps))
  {
    if ps != [] {
      RewriteOfWritten(ps[1..], crcs[1..]);
      FirstWritten(ps[0], crcs[0], Stream(ps[1..], crcs[1..]));
      StreamOfChecksums(ps);
    }
  }

  lemma StreamOfChecksums(ps: seq<Packet>)
    requires ps != [] && forall i :: 0 <= i < |ps| ==> ps[i].Writable()
    ensures Stream(ps, Checksums(ps)) == Head(ps[0]) + Checksum(Head(ps[0])) + Stream(ps[1..], Checksums(ps[1..]))
  {
    assert Checksums(ps)[1..] == Checksums(ps[1..]);
  }

  lemma OneMorePacket(p: Packet, crc: seq<Byte>, ps: seq<Packet>, crcs: seq<seq<Byte>>)
    requires p.Writable() && |crc| == 4 && Layout(ps, crcs)
    ensures Layout([p] + ps, [crc] + crcs)
    ensures Stream([p] + ps, [crc] + crcs) == Head(p) + crc + Stream(ps, crcs)
  {
    assert ([p] + ps)[1..] == ps && ([crc] + crcs)[1..] == crcs;
  }

  /** The streams the script accepts are exactly those. */
  lemma {:induction false} AcceptedIsWritten(s: seq<Byte>) returns (ps: seq<Packet>, crcs: seq<seq<Byte>>)
    requires Parses(PacketLength, s)
    ensures Layout(ps, crcs) && s == Stream(ps, crcs)
    decreases |s|
  {
    ps, crcs := [], [];
    if s != [] {
      var n := PacketLength(s);
      ps, crcs := AcceptedIsWritten(s[n..]);
      ReadIsWritten(s);
      ThreeParts(s, n - 4, n);
      var p, crc := PacketOf(s), s[n - 4..n];
      OneMorePacket(p, crc, ps, crcs);
      ps, crcs := [p] + ps, [crc] + crcs;
    }
  }

  lemma AcceptsExactlyWritten(s: seq<Byte>)
    ensures Parses(PacketLength, s) <==> exists ps, crcs :: Layout(ps, crcs) && s == Stream(ps, crcs)
  {
    if Parses(PacketLength, s) {
      var ps, crcs := AcceptedIsWritten(s);
    }
    if ps, crcs :| Layout(ps, crcs) && s == Stream(ps, crcs) {
      RewriteOfWritten(ps, crcs);
    }
  }

  // ---- the check value of CRC-32 -----------------------------------------------------------------

  function CrcBit(c: bv32): bv32 { if c & 1 == 1 then 0xEDB88320 ^ (c >> 1) else c >> 1 }

  function EightBits(c: bv32): bv32 { CrcBit(CrcBit(CrcBit(CrcBit(CrcBit(CrcBit(CrcBit(CrcBit(c)))))))) }

  lemma BitByBit(c: bv32)
    ensures CrcBits(c, 8) == EightBits(c)
  {
    var c1 := CrcBit(c);
    var c2 := CrcBit(c1);
    var c3 := CrcBit(c2);
    var c4 := CrcBit(c3);
    assert CrcBits(c, 8) == CrcBits(c1, 7) == CrcBits(c2, 6) == CrcBits(c3, 5) == CrcBits(c4, 4);
    var c5 := CrcBit(c4);
    var c6 := CrcBit(c5);
    var c7 := CrcBit(c6);
    assert CrcBits(c4, 4) == CrcBits(c5, 3) == CrcBits(c6, 2) == CrcBits(c7, 1);
    assert CrcBits(c7, 1) == CrcBits(CrcBit(c7), 0);
  }

  lemma TableEntries()
    ensures CrcBits(0xCE, 8) == 0x7CDCEFB7
    ensures CrcBits(0x7A, 8) == 0xB0D09822
    ensures CrcBits(0x01, 8) == 0x77073096
    ensures CrcBits(0x19, 8) == 0x646BA8C0
    ensures CrcBits(0x69, 8) == 0x346ED9FC
    ensures CrcBits(0xD5, 8) == 0xF6B9265B
    ensures CrcBits(0xA9, 8) == 0xAF0A1B4C
    ensures CrcBits(0x58, 8) == 0x65B0D9C6
    ensures CrcBits(0x69, 8) == 0x346ED9FC
  {
    BitByBit(0xCE);
    BitByBit(0x7A);
    BitByBit(0x01);
    BitByBit(0x19);
    BitByBit(0x69);
    BitByBit(0xD5);
    BitByBit(0xA9);
    BitByBit(0x58);
    BitByBit(0x69);
  }

  lemma OneByte(c: bv32, b: Byte, x: bv32, entry: bv32, next: bv32)
    requires (c ^ (b as bv32)) & 0xFF == x && CrcBits(x, 8) == entry && entry ^ (c >> 8) == next
    ensures CrcByte(c, b) == next
  {}

  // The digits 1 to 9 in ASCII, one after another.

  lemma DigitsToThree()
    ensures CrcByte(0xFFFFFFFF, 0x31) == 0x7C231048
    ensures CrcByte(0x7C231048, 0x32) == 0xB0ACBB32
    ensures CrcByte(0xB0ACBB32, 0x33) == 0x77B79C2D
  {
    TableEntries();
    OneByte(0xFFFFFFFF, 0x31, 0xCE, 0x7CDCEFB7, 0x7C231048);
    OneByte(0x7C231048, 0x32, 0x7A, 0xB0D09822, 0xB0ACBB32);
    OneByte(0xB0ACBB32, 0x33, 0x01, 0x77073096, 0x77B79C2D);
  }

  lemma DigitsToSix()
    ensures CrcByte(0x77B79C2D, 0x34) == 0x641C1F5C
    ensures CrcByte(0x641C1F5C, 0x35) == 0x340AC5E3
    ensures CrcByte(0x340AC5E3, 0x36) == 0xF68D2C9E
  {
    TableEntries();
    OneByte(0x77B79C2D, 0x34, 0x19, 0x646BA8C0, 0x641C1F5C);
    OneByte(0x641C1F5C, 0x35, 0x69, 0x346ED9FC, 0x340AC5E3);
    OneByte(0x340AC5E3, 0x36, 0xD5, 0xF6B9265B, 0xF68D2C9E);
  }

  lemma DigitsToNine()
    ensures CrcByte(0xF68D2C9E, 0x37) == 0xAFFC9660
    ensures CrcByte(0xAFFC9660, 0x38) == 0x651F2550
    ensures CrcByte(0x651F2550, 0x39) == 0x340BC6D9
  {
    TableEntries();
    OneByte(0xF68D2C9E, 0x37, 0xA9, 0xAF0A1B4C, 0xAFFC9660);
    OneByte(0xAFFC9660, 0x38, 0x58, 0x65B0D9C6, 0x651F2550);
    OneByte(0x651F2550, 0x39, 0x69, 0x346ED9FC, 0x340BC6D9);
  }

  /** The check value every description of CRC-32 gives for them. */
  lemma CheckValue()
    ensures Crc32([0x31, 0x32, 0x33, 0x34, 0x35, 0x36, 0x37, 0x38, 0x39]) == 0xCBF43926
  {
    DigitsToThree();
    DigitsToSix();
    DigitsToNine();
    var bytes: seq<Byte> := [0x31, 0x32, 0x33, 0x34, 0x35, 0x36, 0x37, 0x38, 0x39];
    Onward(0xFFFFFFFF, 0x31, [0x32, 0x33, 0x34, 0x35, 0x36, 0x37, 0x38, 0x39]);
    Onward(0x7C231048, 0x32, [0x33, 0x34, 0x35, 0x36, 0x37, 0x38, 0x39]);
    Onward(0xB0ACBB32, 0x33, [0x34, 0x35, 0x36, 0x37, 0x38, 0x39]);
    Onward(0x77B79C2D, 0x34, [0x35, 0x36, 0x37, 0x38, 0x39]);
    Onward(0x641C1F5C, 0x35, [0x36, 0x37, 0x38, 0x39]);
    Onward(0x340AC5E3, 0x36, [0x37, 0x38, 0x39]);
    Onward(0xF68D2C9E, 0x37, [0x38, 0x39]);
    Onward(0xAFFC9660, 0x38, [0x39]);
    Onward(0x651F2550, 0x39, []);
  }

  lemma Onward(c: bv32, b: Byte, rest: seq<Byte>)
    ensures CrcUpdate(c, [b] + rest) == CrcUpdate(CrcByte(c, b), rest)
  {
    assert ([b] + rest)[1..] == rest;
  }
}

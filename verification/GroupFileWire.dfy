/** The packets of a group file transfer (helper/group_file.c): packing and
    unpacking are inverse in both directions, so every packet has one meaning and
    every meaning one packet. */
module GroupFileWire {
  import opened Basics
  import opened Utf8
  import opened Utf8Validators

  const ID_BYTES: nat := 16
  const HASH_BYTES: nat := 32
  const COMMON: nat := 22
  const OFFER_FIXED: nat := 64
  const DATA_FIXED: nat := 30
  const PACKET_MAX: nat := 1373
  const DATA_MAX: nat := 1343
  const FILE_MAX: nat := 8 * 1024 * 1024
  const U64_END: nat := 0x1_0000_0000_0000_0000

  const OFFER: Byte := 1
  const ACCEPT: Byte := 2
  const CANCEL: Byte := 3
  const DATA: Byte := 4
  const DONE: Byte := 5
  const ACK: Byte := 6
  const FAIL: Byte := 7

  /** The letters OQGF1. */
  const MAGIC: seq<Byte> := [0x4f, 0x51, 0x47, 0x46, 0x31]

  datatype Offer = Offer(id: seq<Byte>, size: nat, hash: seq<Byte>, image: bool, name: seq<Byte>)
  datatype Chunk = Chunk(id: seq<Byte>, offset: nat, bytes: seq<Byte>)
  datatype Control = Control(kind: Byte, id: seq<Byte>)

  // --- Numbers, most significant byte first ------------------------------------------------------

  function Pow256(n: nat): nat { if n == 0 then 1 else 256 * Pow256(n - 1) }

  function Big(v: nat, n: nat): (s: seq<Byte>)
    ensures |s| == n
  {
    if n == 0 then [] else Big(v / 256, n - 1) + [v % 256]
  }

  function FromBig(s: seq<Byte>): nat {
    if s == [] then 0 else FromBig(s[..|s| - 1]) * 256 + s[|s| - 1]
  }

  lemma {:induction false} BigReads(v: nat, n: nat)
    requires v < Pow256(n)
    ensures FromBig(Big(v, n)) == v
  {
    if n > 0 {
      BigReads(v / 256, n - 1);
      assert Big(v, n)[..n - 1] == Big(v / 256, n - 1);
    }
  }

  lemma {:induction false} ReadsBig(s: seq<Byte>)
    ensures FromBig(s) < Pow256(|s|) && Big(FromBig(s), |s|) == s
  {
    if s != [] {
      ReadsBig(s[..|s| - 1]);
      assert FromBig(s) / 256 == FromBig(s[..|s| - 1]);
      assert s == s[..|s| - 1] + [s[|s| - 1]];
    }
  }

  lemma EightBytes()
    ensures Pow256(8) == U64_END
  {
    assert Pow256(4) == 0x1_0000_0000;
    assert Pow256(8) == 256 * (256 * (256 * (256 * Pow256(4))));
  }

  /** Writes the number byte by byte from the top. */
  method PutU64(out: array<Byte>, at: nat, value: nat)
    requires at + 8 <= out.Length && value < U64_END
    modifies out
    ensures out[at..at + 8] == Big(value, 8)
    ensures forall k :: 0 <= k < out.Length && !(at <= k < at + 8) ==> out[k] == old(out[k])
  {
    var rest := value;
    for i := 8 downto 0
      invariant Big(value, 8) == Big(rest, i) + out[at + i..at + 8]
      invariant forall k :: 0 <= k < out.Length && !(at + i <= k < at + 8) ==> out[k] == old(out[k])
    {
      ghost var low := out[at + i + 1..at + 8];
      out[at + i] := rest % 256;
      assert out[at + i..at + 8] == [rest % 256] + low;
      rest := rest / 256;
    }
  }

  method GetU64(packet: seq<Byte>, at: nat) returns (value: nat)
    requires at + 8 <= |packet|
    ensures value == FromBig(packet[at..at + 8]) < U64_END
  {
    value := 0;
    for i := 0 to 8
      invariant value == FromBig(packet[at..at + i])
    {
      assert packet[at..at + i + 1][..i] == packet[at..at + i];
      value := value * 256 + packet[at + i];
    }
    ReadsBig(packet[at..at + 8]);
    EightBytes();
  }

  // --- The packets ----------------------------------------------------------------------------------

  function Header(kind: Byte, id: seq<Byte>): seq<Byte> { MAGIC + [kind] + id }

  predicate OfferOk(o: Offer) {
    && |o.id| == ID_BYTES && |o.hash| == HASH_BYTES && 0 < o.size <= FILE_MAX
    && 0 < |o.name| <= FILE_NAME_MAX && Accepted(o.name, FileRefusal())
  }

  function OfferPacket(o: Offer): seq<Byte> {
    Header(OFFER, o.id) + Big(o.size, 8) + [if o.image then 1 else 0, |o.name| % 256] + o.hash + o.name
  }

  predicate Begins(p: seq<Byte>, kind: Byte) {
    |p| >= COMMON && p[..5] == MAGIC && p[5] == kind
  }

  function OfferOf(p: seq<Byte>): Option<Offer> {
    if !Begins(p, OFFER) || |p| < OFFER_FIXED then None
    else
      var o := Offer(p[6..22], FromBig(p[22..30]), p[32..64], p[30] == 1, p[64..]);
      if p[31] == 0 || p[31] > 128 || |p| != OFFER_FIXED + p[31] || p[30] > 1 then None
      else if o.size == 0 || o.size > FILE_MAX || !Accepted(o.name, FileRefusal()) then None
      else Some(o)
  }

  predicate ChunkOk(c: Chunk) {
    |c.id| == ID_BYTES && c.offset < U64_END && 0 < |c.bytes| <= DATA_MAX
  }

  function ChunkPacket(c: Chunk): seq<Byte> { Header(DATA, c.id) + Big(c.offset, 8) + c.bytes }

  function ChunkOf(p: seq<Byte>): Option<Chunk> {
    if !Begins(p, DATA) || |p| <= DATA_FIXED || |p| > PACKET_MAX || |p| - DATA_FIXED > DATA_MAX then None
    else Some(Chunk(p[6..22], FromBig(p[22..30]), p[30..]))
  }

  predicate ControlKind(kind: Byte) {
    kind == ACCEPT || kind == CANCEL || kind == DONE || kind == ACK || kind == FAIL
  }

  predicate ControlOk(c: Control) { |c.id| == ID_BYTES && ControlKind(c.kind) }

  function ControlPacket(c: Control): seq<Byte> { Header(c.kind, c.id) }

  function ControlOf(p: seq<Byte>): Option<Control> {
    if |p| != COMMON || p[..5] != MAGIC || !ControlKind(p[5]) then None else Some(Control(p[5], p[6..]))
  }

  // --- The theorems ---------------------------------------------------------------------------------

  lemma HeaderParts(kind: Byte, id: seq<Byte>, rest: seq<Byte>)
    requires |id| == ID_BYTES
    ensures var p := Header(kind, id) + rest;
            Begins(p, kind) && p[6..22] == id && p[22..] == rest
  {
  }

  lemma HeaderOf(p: seq<Byte>, kind: Byte)
    requires Begins(p, kind)
    ensures p == Header(kind, p[6..22]) + p[22..]
  {
  }

  /** A packet means an offer exactly when it is the packet of a proper offer. */
  lemma OfferIsCanonical(p: seq<Byte>, o: Offer)
    ensures OfferOf(p) == Some(o) <==> OfferOk(o) && p == OfferPacket(o)
  {
    if OfferOk(o) && p == OfferPacket(o) {
      OfferReads(o);
    }
    if OfferOf(p) == Some(o) {
      OfferWrites(p);
    }
  }

  /** Where the parts of an offer lie in its packet. */
  lemma OfferParts(o: Offer)
    requires OfferOk(o)
    ensures var p := OfferPacket(o);
            && Begins(p, OFFER) && p[6..22] == o.id && |p| == OFFER_FIXED + |o.name|
            && p[22..30] == Big(o.size, 8) && p[30] == (if o.image then 1 else 0) && p[31] == |o.name| % 256
            && p[32..64] == o.hash && p[64..] == o.name
  {
    var p := OfferPacket(o);
    var rest := Big(o.size, 8) + [if o.image then 1 else 0, |o.name| % 256] + o.hash + o.name;
    assert p == Header(OFFER, o.id) + rest;
    HeaderParts(OFFER, o.id, rest);
    assert p[22..30] == rest[..8] == Big(o.size, 8);
    assert p[32..64] == rest[10..42] == o.hash;
    assert p[64..] == rest[42..] == o.name;
    assert p[30] == rest[8] && p[31] == rest[9];
  }

  lemma OfferReads(o: Offer)
    requires OfferOk(o)
    ensures OfferOf(OfferPacket(o)) == Some(o)
  {
    OfferParts(o);
    EightBytes();
    BigReads(o.size, 8);
  }

  lemma OfferWrites(p: seq<Byte>)
    requires OfferOf(p).Some?
    ensures OfferOk(OfferOf(p).value) && p == OfferPacket(OfferOf(p).value)
  {
    var o := OfferOf(p).value;
    HeaderOf(p, OFFER);
    ReadsBig(p[22..30]);
    assert p[22..] == p[22..30] + [p[30], p[31]] + p[32..64] + p[64..];
  }

  /** The same for the chunks of data. */
  lemma ChunkIsCanonical(p: seq<Byte>, c: Chunk)
    ensures ChunkOf(p) == Some(c) <==> ChunkOk(c) && p == ChunkPacket(c)
  {
    EightBytes();
    if ChunkOk(c) && p == ChunkPacket(c) {
      var rest := Big(c.offset, 8) + c.bytes;
      assert p == Header(DATA, c.id) + rest;
      HeaderParts(DATA, c.id, rest);
      BigReads(c.offset, 8);
      assert p[22..30] == rest[..8] == Big(c.offset, 8);
      assert p[30..] == rest[8..] == c.bytes;
    }
    if ChunkOf(p) == Some(c) {
      HeaderOf(p, DATA);
      ReadsBig(p[22..30]);
      assert p[22..] == p[22..30] + p[30..];
    }
  }

  lemma ControlIsCanonical(p: seq<Byte>, c: Control)
    ensures ControlOf(p) == Some(c) <==> ControlOk(c) && p == ControlPacket(c)
  {
    if ControlOk(c) && p == ControlPacket(c) {
      assert p == Header(c.kind, c.id) + [];
      HeaderParts(c.kind, c.id, []);
      assert p[6..] == p[6..22];
    }
    if ControlOf(p) == Some(c) {
      HeaderOf(p, c.kind);
      assert p[6..] == p[6..22];
    }
  }

  /** No packet has two meanings. */
  lemma OneMeaning(p: seq<Byte>)
    ensures !(OfferOf(p).Some? && ChunkOf(p).Some?)
    ensures !(OfferOf(p).Some? && ControlOf(p).Some?)
    ensures !(ChunkOf(p).Some? && ControlOf(p).Some?)
  {
  }

  // --- Packing in place ---------------------------------------------------------------------------------

  method Copy(out: array<Byte>, at: nat, source: seq<Byte>)
    requires at + |source| <= out.Length
    modifies out
    ensures out[at..at + |source|] == source
    ensures forall k :: 0 <= k < out.Length && !(at <= k < at + |source|) ==> out[k] == old(out[k])
  {
    for i := 0 to |source|
      invariant out[at..at + i] == source[..i]
      invariant forall k :: 0 <= k < out.Length && !(at <= k < at + i) ==> out[k] == old(out[k])
    {
      out[at + i] := source[i];
    }
  }

  /** The common header and the number behind it. */
  method PackHead(out: array<Byte>, kind: Byte, id: seq<Byte>, number: nat)
    requires |id| == ID_BYTES && number < U64_END && out.Length >= DATA_FIXED
    modifies out
    ensures out[..DATA_FIXED] == Header(kind, id) + Big(number, 8)
  {
    Copy(out, 0, MAGIC);
    out[5] := kind;
    Copy(out, 6, id);
    assert out[0..5] == MAGIC && out[5] == kind && out[6..22] == id;
    PutU64(out, COMMON, number);
    assert out[0..5] == MAGIC && out[5] == kind && out[6..22] == id && out[22..30] == Big(number, 8);
    assert out[..30] == out[0..5] + [out[5]] + out[6..22] + out[22..30];
  }

  method PackData(out: array<Byte>, id: seq<Byte>, offset: nat, bytes: seq<Byte>) returns (length: int)
    requires |id| == ID_BYTES && offset < U64_END
    modifies out
    ensures length >= 0 <==> ChunkOk(Chunk(id, offset, bytes)) && DATA_FIXED + |bytes| <= out.Length
    ensures length >= 0 ==> length <= out.Length && out[..length] == ChunkPacket(Chunk(id, offset, bytes))
  {
    length := DATA_FIXED + |bytes|;
    if |bytes| == 0 || |bytes| > DATA_MAX || length > out.Length || length > PACKET_MAX {
      return -1;
    }
    PackHead(out, DATA, id, offset);
    ghost var head := out[..30];
    Copy(out, DATA_FIXED, bytes);
    assert out[..30] == head && out[30..length] == bytes;
    assert out[..length] == out[..30] + out[30..length];
  }

  method PackOffer(out: array<Byte>, o: Offer) returns (length: int)
    requires |o.id| == ID_BYTES && |o.hash| == HASH_BYTES
    modifies out
    ensures length >= 0 <==> OfferOk(o) && OFFER_FIXED + |o.name| <= out.Length
    ensures length >= 0 ==> length <= out.Length && out[..length] == OfferPacket(o)
  {
    if o.size == 0 || o.size > FILE_MAX {
      return -1;
    }
    var named := FileNameOk(o.name);
    length := OFFER_FIXED + |o.name|;
    if !named || length > out.Length || length > PACKET_MAX {
      return -1;
    }
    PackHead(out, OFFER, o.id, o.size);
    ghost var head := out[..30];
    out[30] := if o.image then 1 else 0;
    out[31] := |o.name|;
    Copy(out, 32, o.hash);
    Copy(out, OFFER_FIXED, o.name);
    assert out[..30] == head && out[32..64] == o.hash && out[64..length] == o.name;
    assert out[..length] == out[..30] + [out[30], out[31]] + out[32..64] + out[64..length];
  }

  method PackControl(out: array<Byte>, c: Control) returns (length: int)
    requires |c.id| == ID_BYTES
    modifies out
    ensures length >= 0 <==> ControlOk(c) && COMMON <= out.Length
    ensures length >= 0 ==> length <= out.Length && out[..length] == ControlPacket(c)
  {
    if out.Length < COMMON || !ControlKind(c.kind) {
      return -1;
    }
    Copy(out, 0, MAGIC);
    out[5] := c.kind;
    Copy(out, 6, c.id);
    length := COMMON;
    assert out[0..5] == MAGIC && out[5] == c.kind && out[6..22] == c.id;
    assert out[..length] == out[0..5] + [out[5]] + out[6..22];
  }

  method UnpackData(packet: seq<Byte>) returns (c: Option<Chunk>)
    ensures c == ChunkOf(packet)
  {
    if !Begins(packet, DATA) || |packet| <= DATA_FIXED || |packet| > PACKET_MAX || |packet| - DATA_FIXED > DATA_MAX {
      return None;
    }
    var offset := GetU64(packet, COMMON);
    return Some(Chunk(packet[6..22], offset, packet[DATA_FIXED..]));
  }

  method UnpackOffer(packet: seq<Byte>) returns (o: Option<Offer>)
    ensures o == OfferOf(packet)
  {
    if !Begins(packet, OFFER) || |packet| < OFFER_FIXED {
      return None;
    }
    var nameLength: int := packet[31];
    if nameLength == 0 || nameLength > 128 || |packet| != OFFER_FIXED + nameLength || packet[30] > 1 {
      return None;
    }
    var size := GetU64(packet, COMMON);
    var named := FileNameOk(packet[OFFER_FIXED..]);
    if size == 0 || size > FILE_MAX || !named {
      return None;
    }
    return Some(Offer(packet[6..22], size, packet[32..64], packet[30] == 1, packet[OFFER_FIXED..]));
  }
}

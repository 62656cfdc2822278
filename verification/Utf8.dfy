/** UTF-8 as section 3 of RFC 3629 defines it, and the helper's independent
    validators: byte ranges (helper/text.c), decode and check (helper/file.c), and
    the passphrase count (helper/identity.c). */
module Utf8 {
  import opened Basics

  type Byte = b: int | 0 <= b < 256

  // --- The standard -----------------------------------------------------------------------------

  predicate Scalar(c: int) { 0 <= c <= 0x10ffff && !(0xd800 <= c <= 0xdfff) }

  function Encode(c: int): (bytes: seq<Byte>)
    requires Scalar(c)
    ensures 1 <= |bytes| <= 4
  {
    if c < 0x80 then [c]
    else if c < 0x800 then [0xc0 + c / 64, 0x80 + c % 64]
    else if c < 0x10000 then [0xe0 + c / 4096, 0x80 + c / 64 % 64, 0x80 + c % 64]
    else [0xf0 + c / 262144, 0x80 + c / 4096 % 64, 0x80 + c / 64 % 64, 0x80 + c % 64]
  }

  function EncodeAll(cs: seq<int>): seq<Byte>
    requires forall i :: 0 <= i < |cs| ==> Scalar(cs[i])
  {
    if cs == [] then [] else Encode(cs[0]) + EncodeAll(cs[1..])
  }

  // --- Decoding ------------------------------------------------------------------------------------

  predicate Tail(b: Byte) { 0x80 <= b <= 0xbf }

  /** How many bytes follow a leading byte; 4 if it cannot lead. */
  function Following(lead: Byte): nat {
    if lead < 0x80 then 0
    else if 0xc2 <= lead <= 0xdf then 1
    else if 0xe0 <= lead <= 0xef then 2
    else if 0xf0 <= lead <= 0xf4 then 3
    else 4
  }

  predicate Shaped(s: seq<Byte>) {
    s != [] && Following(s[0]) < 4 && Following(s[0]) < |s|
    && forall i :: 1 <= i <= Following(s[0]) ==> Tail(s[i])
  }

  function Two(a: int, b: int): int { (a - 0xc0) * 64 + (b - 0x80) }

  function Three(a: int, b: int, c: int): int { (a - 0xe0) * 4096 + (b - 0x80) * 64 + (c - 0x80) }

  function Four(a: int, b: int, c: int, d: int): int {
    (a - 0xf0) * 262144 + (b - 0x80) * 4096 + (c - 0x80) * 64 + (d - 0x80)
  }

  function ValueOf(s: seq<Byte>): int
    requires Shaped(s)
  {
    match Following(s[0])
    case 0 => s[0]
    case 1 => Two(s[0], s[1])
    case 2 => Three(s[0], s[1], s[2])
    case _ => Four(s[0], s[1], s[2], s[3])
  }

  /** Not overlong, not a surrogate, not past the last code point. */
  predicate Minimal(s: seq<Byte>)
    requires Shaped(s)
  {
    && Scalar(ValueOf(s))
    && (Following(s[0]) == 2 ==> ValueOf(s) >= 0x800)
    && (Following(s[0]) == 3 ==> ValueOf(s) >= 0x10000)
  }

  function First(s: seq<Byte>): Option<int> {
    if Shaped(s) && Minimal(s) then Some(ValueOf(s)) else None
  }

  lemma ThreeSplits(a: int, b: int, c: int)
    requires 0x80 <= b <= 0xbf && 0x80 <= c <= 0xbf
    ensures Three(a, b, c) / 4096 == a - 0xe0
    ensures Three(a, b, c) / 64 % 64 == b - 0x80 && Three(a, b, c) % 64 == c - 0x80
  {
    assert Three(a, b, c) / 64 == (a - 0xe0) * 64 + (b - 0x80);
  }

  lemma FourSplits(a: int, b: int, c: int, d: int)
    requires 0x80 <= b <= 0xbf && 0x80 <= c <= 0xbf && 0x80 <= d <= 0xbf
    ensures Four(a, b, c, d) / 262144 == a - 0xf0
    ensures Four(a, b, c, d) / 4096 % 64 == b - 0x80
    ensures Four(a, b, c, d) / 64 % 64 == c - 0x80 && Four(a, b, c, d) % 64 == d - 0x80
  {
    assert Four(a, b, c, d) / 64 == (a - 0xf0) * 4096 + (b - 0x80) * 64 + (c - 0x80);
    assert Four(a, b, c, d) / 4096 == (a - 0xf0) * 64 + (b - 0x80);
  }

  /** The first character is the one whose encoding the text begins with. */
  lemma FirstIsEncoded(s: seq<Byte>)
    requires First(s).Some?
    ensures Scalar(First(s).value) && |Encode(First(s).value)| == Following(s[0]) + 1
    ensures s[..Following(s[0]) + 1] == Encode(First(s).value)
  {
    var n := Following(s[0]);
    if n == 2 {
      ThreeSplits(s[0], s[1], s[2]);
    } else if n == 3 {
      FourSplits(s[0], s[1], s[2], s[3]);
    }
    var front, enc := s[..n + 1], Encode(First(s).value);
    assert forall i :: 0 <= i < n + 1 ==> front[i] == enc[i];
  }

  lemma LongestIsFirst(c: int, rest: seq<Byte>)
    requires Scalar(c) && 0x10000 <= c
    ensures First(Encode(c) + rest) == Some(c)
  {
    var s := Encode(c) + rest;
    assert forall i :: 0 <= i < |Encode(c)| ==> s[i] == Encode(c)[i];
    assert c / 64 == c / 4096 * 64 + c / 64 % 64;
    assert c / 4096 == c / 262144 * 64 + c / 4096 % 64;
  }

  lemma ShorterIsFirst(c: int, rest: seq<Byte>)
    requires Scalar(c) && c < 0x10000
    ensures First(Encode(c) + rest) == Some(c)
  {
    var s := Encode(c) + rest;
    assert forall i :: 0 <= i < |Encode(c)| ==> s[i] == Encode(c)[i];
    if 0x800 <= c {
      assert c / 64 == c / 4096 * 64 + c / 64 % 64;
    }
  }

  lemma EncodedIsFirst(c: int, rest: seq<Byte>)
    requires Scalar(c)
    ensures First(Encode(c) + rest) == Some(c)
  {
    if 0x10000 <= c { LongestIsFirst(c, rest); } else { ShorterIsFirst(c, rest); }
  }

  function Decode(s: seq<Byte>): Option<seq<int>> {
    if s == [] then Some([])
    else if First(s).None? then None
    else
      match Decode(s[Following(s[0]) + 1..])
      case None => None
      case Some(cs) => Some([First(s).value] + cs)
  }

  ghost predicate Scalars(cs: seq<int>) { forall i :: 0 <= i < |cs| ==> Scalar(cs[i]) }

  lemma EncodeHead(c: int, cs: seq<int>)
    requires Scalar(c) && Scalars(cs)
    ensures Scalars([c] + cs) && EncodeAll([c] + cs) == Encode(c) + EncodeAll(cs)
  {
    assert ([c] + cs)[1..] == cs;
  }

  lemma DecodeHead(s: seq<Byte>)
    requires s != [] && Decode(s).Some?
    ensures First(s).Some? && Following(s[0]) + 1 <= |s|
    ensures var rest := s[Following(s[0]) + 1..];
            Decode(rest).Some? && Decode(s).value == [First(s).value] + Decode(rest).value
  {
  }

  lemma Joined(s: seq<Byte>, n: nat, c: int, cs: seq<int>)
    requires n <= |s| && Scalar(c) && Scalars(cs) && s[..n] == Encode(c) && EncodeAll(cs) == s[n..]
    ensures Scalars([c] + cs) && EncodeAll([c] + cs) == s
  {
    EncodeHead(c, cs);
    assert s == s[..n] + s[n..];
  }

  lemma {:induction false} DecodedEncodes(s: seq<Byte>)
    requires Decode(s).Some?
    ensures Scalars(Decode(s).value) && EncodeAll(Decode(s).value) == s
    decreases |s|
  {
    if s != [] {
      DecodeHead(s);
      FirstIsEncoded(s);
      var n := Following(s[0]) + 1;
      DecodedEncodes(s[n..]);
      Joined(s, n, First(s).value, Decode(s[n..]).value);
    }
  }

  lemma {:induction false} EncodedDecodes(cs: seq<int>)
    requires Scalars(cs)
    ensures Decode(EncodeAll(cs)) == Some(cs)
  {
    if cs != [] {
      var rest := EncodeAll(cs[1..]);
      EncodedDecodes(cs[1..]);
      EncodedIsFirst(cs[0], rest);
      var s := Encode(cs[0]) + rest;
      FirstIsEncoded(s);
      assert s[Following(s[0]) + 1..] == rest;
      assert cs == [cs[0]] + cs[1..];
    }
  }

  /** Decoding inverts the encoding of the standard, in both directions. */
  lemma DecodeInvertsEncode(s: seq<Byte>, cs: seq<int>)
    ensures Decode(s) == Some(cs) <==> Scalars(cs) && EncodeAll(cs) == s
  {
    if Decode(s) == Some(cs) {
      DecodedEncodes(s);
    }
    if Scalars(cs) {
      EncodedDecodes(cs);
    }
  }

  /** Well formed, and no character is refused. */
  predicate Accepted(s: seq<Byte>, refused: int -> bool) {
    Decode(s).Some? && forall i :: 0 <= i < |Decode(s).value| ==> !refused(Decode(s).value[i])
  }

  lemma AcceptedStep(s: seq<Byte>, refused: int -> bool)
    requires s != []
    ensures Accepted(s, refused) <==>
              && First(s).Some? && !refused(First(s).value)
              && Accepted(s[Following(s[0]) + 1..], refused)
  {
    if First(s).Some? && Decode(s[Following(s[0]) + 1..]).Some? {
      var c, rest := First(s).value, Decode(s[Following(s[0]) + 1..]).value;
      var cs := [c] + rest;
      assert Decode(s).value == cs && cs[0] == c;
      assert forall i :: 0 <= i < |rest| ==> rest[i] == cs[i + 1];
    }
  }
}

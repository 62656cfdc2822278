/** The helper's UTF-8 checks, each accepting exactly the well-formed texts
    without the characters it refuses. */
module Utf8Validators {
  import opened Basics
  import opened Utf8

  const FILE_NAME_MAX: nat := 128
  const PASS_MAX: nat := 128
  const PASS_CHARACTERS: nat := 8

  predicate IsNul(c: int) { c == 0 }

  predicate IsControl(c: int) { c < 0x20 || 0x7f <= c <= 0x9f }

  function TextRefusal(rejectControls: bool): int -> bool {
    if rejectControls then (c: int) => IsControl(c) else (c: int) => IsNul(c)
  }

  predicate FormatControl(c: int) {
    || c == 0x00ad || 0x0600 <= c <= 0x0605 || c == 0x061c || c == 0x06dd || c == 0x070f
    || 0x0890 <= c <= 0x0891 || c == 0x08e2 || 0x17b4 <= c <= 0x17b5 || c == 0x180e
    || 0x200b <= c <= 0x200f || 0x202a <= c <= 0x202e || 0x2060 <= c <= 0x2064 || 0x2066 <= c <= 0x206f
    || c == 0xfeff || 0xfff9 <= c <= 0xfffb || c == 0x110bd || c == 0x110cd
    || 0x13430 <= c <= 0x1343f || 0x1bca0 <= c <= 0x1bca3 || 0x1d173 <= c <= 0x1d17a
    || c == 0xe0001 || 0xe0020 <= c <= 0xe007f
  }

  predicate NotInFileName(c: int) {
    IsControl(c) || c == 0x2f || c == 0x2028 || c == 0x2029 || FormatControl(c)
  }

  predicate NotInPass(c: int) { (c < 0x20 && c != 9) || c == 0x7f }

  function FileRefusal(): int -> bool { (c: int) => NotInFileName(c) }

  // --- The byte-range form ---------------------------------------------------------------------

  predicate InRanges(s: seq<Byte>)
    requires s != []
  {
    if s[0] < 0x80 then true
    else if 0xc2 <= s[0] <= 0xdf then |s| > 1 && Tail(s[1])
    else if 0xe0 <= s[0] <= 0xef then
      |s| > 2 && Tail(s[1]) && Tail(s[2]) && !(s[0] == 0xe0 && s[1] < 0xa0) && !(s[0] == 0xed && s[1] > 0x9f)
    else if 0xf0 <= s[0] <= 0xf4 then
      && |s| > 3 && Tail(s[1]) && Tail(s[2]) && Tail(s[3])
      && !(s[0] == 0xf0 && s[1] < 0x90) && !(s[0] == 0xf4 && s[1] > 0x8f)
    else false
  }

  /** The ranges of bytes are the ranges of values. */
  lemma RangesAreFirst(s: seq<Byte>)
    requires s != []
    ensures First(s).Some? <==> InRanges(s)
    ensures s[0] < 0x80 ==> First(s) == Some(s[0])
    ensures First(s).Some? && s[0] >= 0x80 ==> First(s).value >= 0x80
    ensures First(s).Some? && s[0] >= 0x80 ==> (First(s).value <= 0x9f <==> s[0] == 0xc2 && s[1] <= 0x9f)
  {
    if Shaped(s) && Following(s[0]) == 2 {
      assert ValueOf(s) == Three(s[0], s[1], s[2]);
    } else if Shaped(s) && Following(s[0]) == 3 {
      assert ValueOf(s) == Four(s[0], s[1], s[2], s[3]);
    }
  }

  method TextOk(value: seq<Byte>, rejectControls: bool) returns (ok: bool)
    ensures ok <==> Accepted(value, TextRefusal(rejectControls))
  {
    ghost var refused := TextRefusal(rejectControls);
    var offset := 0;
    while offset < |value|
      invariant offset <= |value|
      invariant Accepted(value, refused) <==> Accepted(value[offset..], refused)
    {
      ghost var s := value[offset..];
      AcceptedStep(s, refused);
      RangesAreFirst(s);
      var first := value[offset];
      if first == 0 || (rejectControls && (first < 0x20 || first == 0x7f)) {
        return false;
      }
      if first < 0x80 {
        offset := offset + 1;
      } else if 0xc2 <= first <= 0xdf {
        if offset + 1 >= |value| || value[offset + 1] < 0x80 || value[offset + 1] > 0xbf
           || (rejectControls && first == 0xc2 && value[offset + 1] <= 0x9f) {
          return false;
        }
        offset := offset + 2;
      } else if 0xe0 <= first <= 0xef {
        if offset + 2 >= |value| || value[offset + 1] < 0x80 || value[offset + 1] > 0xbf
           || value[offset + 2] < 0x80 || value[offset + 2] > 0xbf
           || (first == 0xe0 && value[offset + 1] < 0xa0) || (first == 0xed && value[offset + 1] > 0x9f) {
          return false;
        }
        offset := offset + 3;
      } else if 0xf0 <= first <= 0xf4 {
        if offset + 3 >= |value| || value[offset + 1] < 0x80 || value[offset + 1] > 0xbf
           || value[offset + 2] < 0x80 || value[offset + 2] > 0xbf
           || value[offset + 3] < 0x80 || value[offset + 3] > 0xbf
           || (first == 0xf0 && value[offset + 1] < 0x90) || (first == 0xf4 && value[offset + 1] > 0x8f) {
          return false;
        }
        offset := offset + 4;
      } else {
        return false;
      }
    }
    return true;
  }

  // --- The decode-then-check form ----------------------------------------------------------------

  /** The value of a leading byte and the tails read so far. */
  function Partial(s: seq<Byte>, n: nat): int
    requires s != [] && n < |s|
  {
    if n == 0 then
      match Following(s[0])
      case 0 => s[0]
      case 1 => s[0] as int - 0xc0
      case 2 => s[0] as int - 0xe0
      case _ => s[0] as int - 0xf0
    else Partial(s, n - 1) * 64 + (s[n] as int - 0x80)
  }

  lemma PartialIsValue(s: seq<Byte>)
    requires Shaped(s)
    ensures Partial(s, Following(s[0])) == ValueOf(s)
  {
    var n := Following(s[0]);
    if n > 0 {
      assert Partial(s, 1) == Partial(s, 0) * 64 + (s[1] as int - 0x80);
    }
    if n > 1 {
      assert Partial(s, 2) == Partial(s, 1) * 64 + (s[2] as int - 0x80);
    }
    if n > 2 {
      assert Partial(s, 3) == Partial(s, 2) * 64 + (s[3] as int - 0x80);
      assert ValueOf(s) == Four(s[0], s[1], s[2], s[3]);
    }
  }

  method FileNameOk(name: seq<Byte>) returns (ok: bool)
    ensures ok <==> 0 < |name| <= FILE_NAME_MAX && Accepted(name, FileRefusal())
  {
    if |name| == 0 || |name| > FILE_NAME_MAX {
      return false;
    }
    var i := 0;
    while i < |name|
      invariant i <= |name|
      invariant Accepted(name, FileRefusal()) <==> Accepted(name[i..], FileRefusal())
    {
      ghost var s := name[i..];
      AcceptedStep(s, FileRefusal());
      var next, codepoint := DecodeOne(name, i);
      if next == 0 || NotInFileName(codepoint) {
        return false;
      }
      i := next;
    }
    return true;
  }

  /** Reads one character; 0 if there is none. */
  method DecodeOne(name: seq<Byte>, at: nat) returns (next: nat, codepoint: int)
    requires at < |name|
    ensures next == 0 <==> First(name[at..]).None?
    ensures next != 0 ==> next == at + Following(name[at]) + 1 <= |name| && First(name[at..]) == Some(codepoint)
  {
    ghost var s := name[at..];
    var lead: int := name[at];
    var continuation;
    if lead < 0x80 {
      codepoint, continuation := lead, 0;
    } else if 0xc2 <= lead <= 0xdf {
      codepoint, continuation := lead - 0xc0, 1;
    } else if 0xe0 <= lead <= 0xef {
      codepoint, continuation := lead - 0xe0, 2;
    } else if 0xf0 <= lead <= 0xf4 {
      codepoint, continuation := lead - 0xf0, 3;
    } else {
      return 0, 0;
    }
    if continuation > |name| - at - 1 {
      return 0, 0;
    }
    for j := 0 to continuation
      invariant codepoint == Partial(s, j)
      invariant forall k :: 1 <= k <= j ==> Tail(s[k])
    {
      var byte: int := name[at + 1 + j];
      assert byte == s[j + 1];
      if byte < 0x80 || byte > 0xbf {
        return 0, 0;
      }
      codepoint := codepoint * 64 + (byte - 0x80);
    }
    PartialIsValue(s);
    if (continuation == 2 && codepoint < 0x800) || (continuation == 3 && codepoint < 0x10000)
       || codepoint > 0x10ffff || 0xd800 <= codepoint <= 0xdfff {
      return 0, 0;
    }
    next := at + continuation + 1;
  }

  // --- The passphrase --------------------------------------------------------------------------------

  /** A text ends at its first zero byte. */
  function At(s: seq<Byte>, i: nat): Byte { if i < |s| then s[i] else 0 }

  predicate NoZero(s: seq<Byte>) { forall i :: 0 <= i < |s| ==> s[i] != 0 }

  method PassOk(pass: seq<Byte>) returns (ok: bool)
    requires NoZero(pass)
    ensures ok <==> 0 < |pass| <= PASS_MAX && forall i :: 0 <= i < |pass| ==> !NotInPass(pass[i])
  {
    if |pass| == 0 || |pass| > PASS_MAX {
      return false;
    }
    for i := 0 to |pass|
      invariant forall k :: 0 <= k < i ==> !NotInPass(pass[k])
    {
      if (pass[i] < 0x20 && pass[i] != 9) || pass[i] == 0x7f {
        return false;
      }
    }
    return true;
  }

  /** A new passphrase: well formed, no control but the tab, at least 8 characters.
      The count is the number of characters of the standard. */
  method NewPassOk(pass: seq<Byte>) returns (ok: bool)
    requires NoZero(pass)
    ensures ok <==>
              && 0 < |pass| <= PASS_MAX && Accepted(pass, PassRefusal())
              && |Decode(pass).value| >= PASS_CHARACTERS
  {
    var plain := PassOk(pass);
    PassBytes(pass);
    if !plain {
      return false;
    }
    var p, characters := 0, 0;
    while p < |pass|
      invariant p <= |pass|
      invariant Decode(pass).Some? <==> Decode(pass[p..]).Some?
      invariant Decode(pass).Some? ==> |Decode(pass).value| == characters + |Decode(pass[p..]).value|
    {
      ghost var s := pass[p..];
      RangesAreFirst(s);
      assert forall i :: 1 <= i < 4 ==> At(pass, p + i) == At(s, i);
      var b0, b1, b2, b3 := pass[p], At(pass, p + 1), At(pass, p + 2), At(pass, p + 3);
      if b0 < 0x80 {
        p := p + 1;
      } else if 0xc2 <= b0 <= 0xdf && 0x80 <= b1 <= 0xbf {
        p := p + 2;
      } else if 0xe0 <= b0 <= 0xef && 0x80 <= b1 <= 0xbf && 0x80 <= b2 <= 0xbf
                && !(b0 == 0xe0 && b1 < 0xa0) && !(b0 == 0xed && b1 >= 0xa0) {
        p := p + 3;
      } else if 0xf0 <= b0 <= 0xf4 && 0x80 <= b1 <= 0xbf && 0x80 <= b2 <= 0xbf && 0x80 <= b3 <= 0xbf
                && !(b0 == 0xf0 && b1 < 0x90) && !(b0 == 0xf4 && b1 > 0x8f) {
        p := p + 4;
      } else {
        return false;
      }
      assert s[Following(s[0]) + 1..] == pass[p..];
      characters := characters + 1;
    }
    ok := characters >= PASS_CHARACTERS;
  }

  function PassRefusal(): int -> bool { (c: int) => NotInPass(c) }

  /** Refusing bytes refuses the same texts as refusing characters. */
  lemma {:induction false} PassBytes(pass: seq<Byte>)
    ensures Decode(pass).Some? ==>
              (Accepted(pass, PassRefusal()) <==> forall i :: 0 <= i < |pass| ==> !NotInPass(pass[i]))
    decreases |pass|
  {
    if pass != [] && First(pass).Some? {
      var n := Following(pass[0]) + 1;
      RangesAreFirst(pass);
      AcceptedStep(pass, PassRefusal());
      PassBytes(pass[n..]);
      assert forall i :: n <= i < |pass| ==> pass[i] == pass[n..][i - n];
      assert forall i :: 0 <= i < |pass| - n ==> pass[n..][i] == pass[n + i];
    }
  }
}

/** JSON strings (helper/json_io.c): the escape of outgoing text, the parser of
    request strings and the validator of whole documents. */
module JsonStrings {
  import opened Basics
  import opened Utf8
  import opened Utf8Validators

  const QUOTE: Byte := 0x22
  const BACKSLASH: Byte := 0x5c
  const TAB: Byte := 0x09
  const NEWLINE: Byte := 0x0a
  const RETURN: Byte := 0x0d

  // --- Escaping -------------------------------------------------------------------------------

  function EscapedByte(b: Byte): Option<seq<Byte>> {
    if b == QUOTE then Some([BACKSLASH, QUOTE])
    else if b == BACKSLASH then Some([BACKSLASH, BACKSLASH])
    else if b == NEWLINE then Some([BACKSLASH, 'n' as int])
    else if b == RETURN then Some([BACKSLASH, 'r' as int])
    else if b == TAB then Some([BACKSLASH, 't' as int])
    else if b < 0x20 then None
    else Some([b])
  }

  function Escaped(text: seq<Byte>): Option<seq<Byte>> {
    if text == [] then Some([])
    else if EscapedByte(text[0]).None? then None
    else Appended(EscapedByte(text[0]).value, Escaped(text[1..]))
  }

  method Escape(text: seq<Byte>, size: nat) returns (r: Option<seq<Byte>>)
    requires NoZero(text)
    ensures r == if Escaped(text).Some? && |Escaped(text).value| < size then Escaped(text) else None
  {
    if size == 0 {
      return None;
    }
    var out: seq<Byte> := [];
    var i := 0;
    assert text[0..] == text;
    AppendedNothing(Escaped(text));
    while i < |text|
      invariant i <= |text| && |out| < size
      invariant Escaped(text) == Appended(out, Escaped(text[i..]))
    {
      ghost var s := text[i..];
      assert s[0] == text[i] && s[1..] == text[i + 1..];
      var replacement: seq<Byte>;
      if text[i] == QUOTE {
        replacement := [BACKSLASH, QUOTE];
      } else if text[i] == BACKSLASH {
        replacement := [BACKSLASH, BACKSLASH];
      } else if text[i] == NEWLINE {
        replacement := [BACKSLASH, 'n' as int];
      } else if text[i] == RETURN {
        replacement := [BACKSLASH, 'r' as int];
      } else if text[i] == TAB {
        replacement := [BACKSLASH, 't' as int];
      } else if text[i] < 0x20 {
        return None;
      } else {
        replacement := [text[i]];
      }
      AppendedStep(out, replacement, Escaped(text[i + 1..]));
      if |out| + |replacement| + 1 > size {
        return None;
      }
      out := out + replacement;
      i := i + 1;
    }
    assert text[i..] == [] && out + [] == out;
    return Some(out);
  }

  function Appended(out: seq<Byte>, tail: Option<seq<Byte>>): Option<seq<Byte>> {
    if tail.None? then None else Some(out + tail.value)
  }

  lemma AppendedNothing(tail: Option<seq<Byte>>)
    ensures Appended([], tail) == tail
  {
    if tail.Some? {
      assert [] + tail.value == tail.value;
    }
  }

  lemma AppendedStep(out: seq<Byte>, replacement: seq<Byte>, tail: Option<seq<Byte>>)
    ensures Appended(out, Appended(replacement, tail)) == Appended(out + replacement, tail)
  {
    if tail.Some? {
      assert out + (replacement + tail.value) == out + replacement + tail.value;
    }
  }

  // --- Parsing a request string ---------------------------------------------------------------

  /** What a string holds and what follows its closing quote. */
  datatype Parsed = Parsed(content: seq<Byte>, rest: seq<Byte>)

  /** The byte after a backslash; the parser knows no `\r` and no `\u`. */
  function Unescaped(b: Byte): Option<Byte> {
    if b == 'n' as int then Some(NEWLINE)
    else if b == 't' as int then Some(TAB)
    else if b == QUOTE || b == BACKSLASH then Some(b)
    else None
  }

  function Prefixed(b: Byte, tail: Option<Parsed>): Option<Parsed> {
    if tail.None? then None else Some(Parsed([b] + tail.value.content, tail.value.rest))
  }

  /** Reads on after the opening quote. */
  function Unescape(s: seq<Byte>): Option<Parsed> {
    if s == [] then None
    else if s[0] == QUOTE then Some(Parsed([], s[1..]))
    else if s[0] == BACKSLASH then
      if |s| < 2 || Unescaped(s[1]).None? then None else Prefixed(Unescaped(s[1]).value, Unescape(s[2..]))
    else if s[0] < 0x20 then None
    else Prefixed(s[0], Unescape(s[1..]))
  }

  method ParseString(p: seq<Byte>, at: nat, size: nat) returns (r: Option<seq<Byte>>, next: nat)
    requires NoZero(p) && at <= |p| && size > 0
    ensures var parsed := if at < |p| && p[at] == QUOTE then Unescape(p[at + 1..]) else None;
            if parsed.Some? && |parsed.value.content| < size && Decode(parsed.value.content).Some? then
              r == Some(parsed.value.content) && next <= |p| && p[next..] == parsed.value.rest
            else r.None?
  {
    next := at;
    if at >= |p| || p[at] != QUOTE {
      return None, next;
    }
    var i := at + 1;
    ghost var whole := Unescape(p[i..]);
    var content: seq<Byte> := [];
    ContinuedNothing(whole);
    while i < |p| && p[i] != QUOTE
      invariant at < i <= |p| && |content| < size && NoZero(content)
      invariant whole == Continued(content, Unescape(p[i..]))
      decreases |p| - i
    {
      var ok, c, after := ParseChar(p, i);
      if !ok {
        return None, next;
      }
      ContinuedStep(content, c, Unescape(p[after..]));
      if |content| + 1 >= size {
        return None, next;
      }
      content, i := content + [c], after;
    }
    if i >= |p| {
      return None, next;
    }
    var ok := TextOk(content, false);
    NoZeroNoNul(content);
    assert p[i..][1..] == p[i + 1..] && content + [] == content;
    if !ok {
      return None, next;
    }
    return Some(content), i + 1;
  }

  /** One character of a string body, escaped or plain. */
  method ParseChar(p: seq<Byte>, i: nat) returns (ok: bool, c: Byte, next: nat)
    requires NoZero(p) && i < |p| && p[i] != QUOTE
    ensures !ok ==> Unescape(p[i..]).None?
    ensures ok ==> i < next <= |p| && c != 0 && Unescape(p[i..]) == Prefixed(c, Unescape(p[next..]))
  {
    ghost var s := p[i..];
    ok, c, next := true, p[i], i + 1;
    assert s[1..] == p[i + 1..];
    if p[i] == BACKSLASH {
      if i + 1 >= |p| {
        return false, 0, i;
      }
      assert s[1] == p[i + 1] && s[2..] == p[i + 2..];
      next := i + 2;
      if p[i + 1] == 'n' as int {
        c := NEWLINE;
      } else if p[i + 1] == 't' as int {
        c := TAB;
      } else if p[i + 1] == QUOTE || p[i + 1] == BACKSLASH {
        c := p[i + 1];
      } else {
        ok := false;
      }
    } else if p[i] < 0x20 {
      ok := false;
    }
  }

  /** The result when `content` has been read and `tail` is what the rest gives. */
  function Continued(content: seq<Byte>, tail: Option<Parsed>): Option<Parsed> {
    if tail.None? then None else Some(Parsed(content + tail.value.content, tail.value.rest))
  }

  lemma ContinuedNothing(tail: Option<Parsed>)
    ensures Continued([], tail) == tail
  {
    if tail.Some? {
      assert [] + tail.value.content == tail.value.content;
    }
  }

  lemma ContinuedStep(content: seq<Byte>, c: Byte, tail: Option<Parsed>)
    ensures Continued(content, Prefixed(c, tail)) == Continued(content + [c], tail)
  {
    if tail.Some? {
      assert content + ([c] + tail.value.content) == content + [c] + tail.value.content;
    }
  }

  lemma {:induction false} NoZeroNoNul(s: seq<Byte>)
    requires NoZero(s)
    ensures Accepted(s, TextRefusal(false)) <==> Decode(s).Some?
    decreases |s|
  {
    if s != [] && First(s).Some? {
      RangesAreFirst(s);
      AcceptedStep(s, TextRefusal(false));
      NoZeroNoNul(s[Following(s[0]) + 1..]);
    }
  }

  // --- Validating a document's strings ----------------------------------------------------------

  predicate Hex(b: Byte) { 0x30 <= b <= 0x39 || 0x41 <= b <= 0x46 || 0x61 <= b <= 0x66 }

  predicate Letter(b: Byte) {
    b == QUOTE || b == BACKSLASH || b == '/' as int || b == 'b' as int || b == 'f' as int || b == 'n' as int
    || b == 'r' as int || b == 't' as int
  }

  predicate FourHex(s: seq<Byte>) { |s| >= 4 && Hex(s[0]) && Hex(s[1]) && Hex(s[2]) && Hex(s[3]) }

  /** What follows the closing quote of a well-formed string body (section 7 of
      RFC 8259, the characters well formed). */
  function Valid(s: seq<Byte>): Option<seq<Byte>>
    decreases |s|
  {
    if s == [] then None
    else if s[0] == QUOTE then Some(s[1..])
    else if s[0] < 0x20 then None
    else if s[0] >= 0x80 then if First(s).None? then None else Valid(s[Following(s[0]) + 1..])
    else if s[0] != BACKSLASH then Valid(s[1..])
    else if |s| >= 2 && Letter(s[1]) then Valid(s[2..])
    else if |s| >= 2 && s[1] == 'u' as int && FourHex(s[2..]) then Valid(s[6..])
    else None
  }

  /** Reads one character that is not ASCII; 0 if there is none. */
  method ValidateChar(p: seq<Byte>, at: nat) returns (next: nat)
    requires NoZero(p) && at < |p| && p[at] >= 0x80
    ensures next == if First(p[at..]).None? then 0 else at + Following(p[at]) + 1
  {
    ghost var s := p[at..];
    RangesAreFirst(s);
    var need;
    if 0xc2 <= p[at] <= 0xdf {
      need := 1;
    } else if 0xe0 <= p[at] <= 0xef {
      need := 2;
    } else if 0xf0 <= p[at] <= 0xf4 {
      need := 3;
    } else {
      return 0;
    }
    for i := 1 to need + 1
      invariant forall k :: 1 <= k < i ==> at + k < |p| && Tail(s[k])
    {
      if At(p, at + i) < 0x80 || At(p, at + i) > 0xbf {
        return 0;
      }
    }
    if (p[at] == 0xe0 && p[at + 1] < 0xa0) || (p[at] == 0xed && p[at + 1] >= 0xa0)
       || (p[at] == 0xf0 && p[at + 1] < 0x90) || (p[at] == 0xf4 && p[at + 1] >= 0x90) {
      return 0;
    }
    return at + need + 1;
  }

  method FourDigits(p: seq<Byte>, from: nat) returns (ok: bool)
    requires from <= |p|
    ensures ok <==> FourHex(p[from..])
  {
    ghost var s := p[from..];
    for k := 0 to 4
      invariant k <= |s| && forall j :: 0 <= j < k ==> Hex(s[j])
    {
      if from + k >= |p| || !Hex(p[from + k]) {
        return false;
      }
      assert s[k] == p[from + k];
    }
    return true;
  }

  method ValidateString(p: seq<Byte>, at: nat) returns (next: Option<nat>)
    requires NoZero(p) && at <= |p|
    ensures var rest := if at < |p| && p[at] == QUOTE then Valid(p[at + 1..]) else None;
            && (next.Some? <==> rest.Some?)
            && (next.Some? ==> next.value <= |p| && p[next.value..] == rest.value)
  {
    if at >= |p| || p[at] != QUOTE {
      return None;
    }
    var i := at + 1;
    while i < |p| && p[i] != QUOTE
      invariant at < i <= |p|
      invariant Valid(p[at + 1..]) == Valid(p[i..])
      decreases |p| - i
    {
      ghost var s := p[i..];
      assert s[0] == p[i] && (|s| > 1 ==> s[1] == p[i + 1]);
      if p[i] < 0x20 {
        return None;
      }
      if p[i] >= 0x80 {
        var next := ValidateChar(p, i);
        if next == 0 {
          return None;
        }
        assert s[Following(s[0]) + 1..] == p[next..];
        i := next;
      } else if p[i] != BACKSLASH {
        assert s[1..] == p[i + 1..];
        i := i + 1;
      } else if i + 1 < |p| && Letter(p[i + 1]) {
        assert s[2..] == p[i + 2..];
        i := i + 2;
      } else {
        if i + 1 >= |p| || p[i + 1] != 'u' as int {
          return None;
        }
        assert s[2..] == p[i + 2..];
        var four := FourDigits(p, i + 2);
        if !four {
          return None;
        }
        assert s[6..] == p[i + 6..];
        i := i + 6;
      }
    }
    if i >= |p| {
      return None;
    }
    assert p[i..][1..] == p[i + 1..];
    return Some(i + 1);
  }

  // --- The theorems -------------------------------------------------------------------------------

  predicate NoReturn(text: seq<Byte>) { forall i :: 0 <= i < |text| ==> text[i] != RETURN }

  /** An escaped text, its closing quote and whatever follows. */
  function Closed(text: seq<Byte>, rest: seq<Byte>): seq<Byte>
    requires Escaped(text).Some?
  {
    Escaped(text).value + [QUOTE] + rest
  }

  lemma ClosedHead(text: seq<Byte>, rest: seq<Byte>)
    requires text != [] && Escaped(text).Some?
    ensures EscapedByte(text[0]).Some? && Escaped(text[1..]).Some?
    ensures Closed(text, rest) == EscapedByte(text[0]).value + Closed(text[1..], rest)
  {
  }

  /** The parser reads the first escaped byte back, but for a carriage return. */
  lemma UnescapeHead(text: seq<Byte>, rest: seq<Byte>)
    requires text != [] && Escaped(text).Some?
    ensures Escaped(text[1..]).Some?
    ensures Unescape(Closed(text, rest))
         == if text[0] == RETURN then None else Prefixed(text[0], Unescape(Closed(text[1..], rest)))
  {
    ClosedHead(text, rest);
    UnescapeByte(text[0], Closed(text[1..], rest));
  }

  lemma UnescapeByte(b: Byte, tail: seq<Byte>)
    requires EscapedByte(b).Some?
    ensures Unescape(EscapedByte(b).value + tail) == if b == RETURN then None else Prefixed(b, Unescape(tail))
  {
    var e := EscapedByte(b).value;
    var s := e + tail;
    assert s[|e|..] == tail;
  }

  /** The parser reads back what was escaped exactly when no carriage return was:
      it is escaped as a letter the parser does not know. */
  lemma {:induction false} UnescapeInvertsEscape(text: seq<Byte>, rest: seq<Byte>)
    requires Escaped(text).Some?
    ensures Unescape(Closed(text, rest)) == if NoReturn(text) then Some(Parsed(text, rest)) else None
    decreases |text|
  {
    if text == [] {
      assert Closed(text, rest)[1..] == rest;
    } else {
      UnescapeHead(text, rest);
      UnescapeInvertsEscape(text[1..], rest);
      assert text == [text[0]] + text[1..];
      assert NoReturn(text) <==> text[0] != RETURN && NoReturn(text[1..]);
    }
  }

  /** Bytes that are not ASCII pass the escape unchanged, and nothing else looks
      like one. */
  lemma ClosedByte(text: seq<Byte>, rest: seq<Byte>)
    requires Escaped(text).Some?
    ensures var s := Closed(text, rest);
            && s != []
            && (if text != [] && text[0] >= 0x80 then
                  s[0] == text[0] && Escaped(text[1..]).Some? && s[1..] == Closed(text[1..], rest)
                else s[0] < 0x80)
  {
    if text != [] {
      ClosedHead(text, rest);
      if text[0] >= 0x80 {
        assert Closed(text, rest)[1..] == Closed(text[1..], rest);
      }
    }
  }

  /** The first character is well formed after the escape exactly when it was before. */
  lemma SameFirst(text: seq<Byte>, rest: seq<Byte>)
    requires Escaped(text).Some? && text != [] && text[0] >= 0x80
    ensures First(Closed(text, rest)).Some? <==> First(text).Some?
    ensures First(text).Some? ==>
              var n := Following(text[0]) + 1;
              n <= |text| && Escaped(text[n..]).Some? && n <= |Closed(text, rest)|
              && Closed(text, rest)[n..] == Closed(text[n..], rest) && Closed(text, rest)[0] == text[0]
  {
    var s := Closed(text, rest);
    RangesAreFirst(s);
    RangesAreFirst(text);
    ClosedByte(text, rest);
    ClosedByte(text[1..], rest);
    if |text| > 1 && text[1] >= 0x80 {
      assert text[1..][1..] == text[2..] && s[1..][1..] == s[2..];
      ClosedByte(text[2..], rest);
      if |text| > 2 && text[2] >= 0x80 {
        assert text[2..][1..] == text[3..] && s[2..][1..] == s[3..];
        ClosedByte(text[3..], rest);
        if |text| > 3 && text[3] >= 0x80 {
          assert text[3..][1..] == text[4..] && s[3..][1..] == s[4..];
        }
      }
    }
  }

  /** The validator accepts a quoted escape exactly when the text is well formed. */
  lemma {:induction false} ValidatorAcceptsEscape(text: seq<Byte>, rest: seq<Byte>)
    requires Escaped(text).Some?
    ensures Valid(Closed(text, rest)) == if Decode(text).Some? then Some(rest) else None
    decreases |text|
  {
    var s := Closed(text, rest);
    if text == [] {
      assert s[1..] == rest;
    } else if text[0] >= 0x80 {
      SameFirst(text, rest);
      ClosedByte(text, rest);
      if First(text).Some? {
        ValidatorAcceptsEscape(text[Following(text[0]) + 1..], rest);
      }
    } else {
      RangesAreFirst(text);
      ClosedHead(text, rest);
      ValidatorAcceptsEscape(text[1..], rest);
      var e := EscapedByte(text[0]).value;
      assert s[|e|..] == Closed(text[1..], rest);
      assert s[0] == e[0] && s[|e| - 1] == e[|e| - 1];
    }
  }

  // --- All the validators ---------------------------------------------------------------------

  /** The text can be quoted and its quoted form is a well-formed string. */
  predicate JsonOk(text: seq<Byte>) {
    Escaped(text).Some? && Valid(Closed(text, [])) == Some([])
  }

  predicate NotInJson(c: int) { c < 0x20 && c != 9 && c != 10 && c != 13 }

  function JsonRefusal(): int -> bool { (c: int) => NotInJson(c) }

  /** What can be escaped: the bytes that would be refused are characters of their own. */
  lemma {:induction false} EscapesUnlessRefused(text: seq<Byte>)
    requires Decode(text).Some?
    ensures Escaped(text).Some? <==> Accepted(text, JsonRefusal())
    decreases |text|
  {
    if text != [] {
      RangesAreFirst(text);
      AcceptedStep(text, JsonRefusal());
      var n := Following(text[0]) + 1;
      EscapesUnlessRefused(text[n..]);
      if text[0] >= 0x80 {
        TailsEscape(text, n);
      }
    }
  }

  lemma {:induction false} TailsEscape(text: seq<Byte>, n: nat)
    requires n <= |text| && forall i :: 0 <= i < n ==> text[i] >= 0x80
    ensures Escaped(text).Some? <==> Escaped(text[n..]).Some?
  {
    if n > 0 {
      TailsEscape(text[1..], n - 1);
      assert text[1..][n - 1..] == text[n..];
    } else {
      assert text[0..] == text;
    }
  }

  /** Some validator would refuse one of the characters. */
  predicate Contested(text: seq<Byte>) { Decode(text).Some? && !Accepted(text, FileRefusal()) }

  /** The validators agree.  The quoted form of a text is accepted just like the
      others, but for its own characters; a text none of whose characters any of
      them refuses is accepted by all of them exactly when it is well formed; and
      what the strictest accepts all accept. */
  lemma ValidatorsAgree(text: seq<Byte>)
    ensures JsonOk(text) <==> Accepted(text, JsonRefusal())
    ensures !Contested(text) ==>
              && (Accepted(text, FileRefusal()) <==> Decode(text).Some?)
              && (Accepted(text, TextRefusal(true)) <==> Decode(text).Some?)
              && (Accepted(text, TextRefusal(false)) <==> Decode(text).Some?)
              && (Accepted(text, PassRefusal()) <==> Decode(text).Some?)
              && (JsonOk(text) <==> Decode(text).Some?)
    ensures Accepted(text, FileRefusal()) ==> Accepted(text, TextRefusal(true))
    ensures Accepted(text, TextRefusal(true)) ==>
              Accepted(text, TextRefusal(false)) && Accepted(text, PassRefusal()) && JsonOk(text)
  {
    if Escaped(text).Some? {
      ValidatorAcceptsEscape(text, []);
    }
    if Decode(text).Some? {
      EscapesUnlessRefused(text);
      var cs := Decode(text).value;
      forall i | 0 <= i < |cs|
        ensures !FileRefusal()(cs[i]) ==> !IsControl(cs[i])
        ensures !IsControl(cs[i]) ==> !IsNul(cs[i]) && !NotInPass(cs[i]) && !NotInJson(cs[i])
      {
      }
    }
  }
}

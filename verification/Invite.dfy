/** Invite links (helper/invite.c): what the helper parses and what it formats. */
module Invite {
  import opened Basics

  const ADDRESS_LENGTH: nat := 76
  const ID_MAX: nat := 64
  const URL_MAX: nat := 512
  const KEY_MAX: nat := 7
  const VALUE_MAX: nat := 80
  const EXPIRY_MAX: nat := 0x7fff_ffff_ffff_ffff
  const EXPIRY_DIGITS: nat := 19
  const PREFIX := "omaq://invite/"

  datatype Kind = Direct | Group

  datatype Invite = Invite(address: string, id: string, expiry: nat, kind: Kind, group: string, role: string, rk: string)

  // --- Characters ---------------------------------------------------------------------------------

  predicate IsHex(c: char) { '0' <= c <= '9' || 'a' <= c <= 'f' || 'A' <= c <= 'F' }

  predicate IsIdChar(c: char) { 'A' <= c <= 'Z' || 'a' <= c <= 'z' || '0' <= c <= '9' || c == '_' || c == '-' }

  predicate IsDigit(c: char) { '0' <= c <= '9' }

  predicate IsSpace(c: char) { c == ' ' || 9 as char <= c <= 13 as char }

  predicate AllHex(s: string) { forall i :: 0 <= i < |s| ==> IsHex(s[i]) }

  predicate AllId(s: string) { forall i :: 0 <= i < |s| ==> IsIdChar(s[i]) }

  predicate AllDigits(s: string) { forall i :: 0 <= i < |s| ==> IsDigit(s[i]) }

  function Lower(c: char): char {
    if 'A' <= c <= 'Z' then (c as int + 32) as char else c
  }

  function LowerAll(s: string): (r: string)
    ensures |r| == |s| && forall i :: 0 <= i < |s| ==> r[i] == Lower(s[i])
  {
    seq(|s|, i requires 0 <= i < |s| => Lower(s[i]))
  }

  predicate LowerHex(s: string) { AllHex(s) && LowerAll(s) == s }

  /** The first place of `c`, or the length. */
  function Find(s: string, c: char): (i: nat)
    ensures i <= |s| && (i < |s| ==> s[i] == c) && forall k :: 0 <= k < i ==> s[k] != c
    ensures i == |s| ==> c !in s
  {
    if s == [] then 0 else if s[0] == c then 0 else Find(s[1..], c) + 1
  }

  lemma FindAfter(a: string, c: char, b: string)
    requires c !in a
    ensures Find(a + [c] + b, c) == |a|
  {
    var s, i := a + [c] + b, Find(a + [c] + b, c);
    assert s[|a|] == c;
    assert forall k :: 0 <= k < |a| ==> s[k] == a[k];
  }

  function Stripped(s: string): string {
    if s != [] && IsSpace(s[0]) then Stripped(s[1..])
    else if s != [] && IsSpace(s[|s| - 1]) then Stripped(s[..|s| - 1])
    else s
  }

  function Value(s: string): nat
    requires AllDigits(s)
  {
    if s == [] then 0 else Value(s[..|s| - 1]) * 10 + (s[|s| - 1] as int - '0' as int)
  }

  predicate ExpiryOk(s: string) {
    0 < |s| <= EXPIRY_DIGITS && AllDigits(s) && Value(s) <= EXPIRY_MAX
  }

  // --- Parsing ----------------------------------------------------------------------------------------

  /** The fields read so far and which of them were seen. */
  datatype Fields = Fields(invite: Invite, i: bool, e: bool, k: bool, g: bool, r: bool, rk: bool)

  function Blank(address: string): Fields {
    Fields(Invite(address, "", 0, Direct, "", "", ""), false, false, false, false, false, false)
  }

  /** One field goes into the invite, if it is new and its value is in order. */
  function Take(f: Fields, key: string, value: string): Option<Fields> {
    if key == "i" then TakeId(f, value)
    else if key == "e" then TakeExpiry(f, value)
    else if key == "k" then TakeKind(f, value)
    else if key == "g" then TakeGroup(f, value)
    else if key == "r" then TakeRole(f, value)
    else if key == "rk" then TakeRk(f, value)
    else None
  }

  function TakeId(f: Fields, value: string): Option<Fields> {
    if f.i || !(1 <= |value| <= ID_MAX) || !AllId(value) then None
    else Some(f.(i := true, invite := f.invite.(id := value)))
  }

  function TakeExpiry(f: Fields, value: string): Option<Fields> {
    if f.e || !ExpiryOk(value) then None else Some(f.(e := true, invite := f.invite.(expiry := Value(value))))
  }

  function TakeKind(f: Fields, value: string): Option<Fields> {
    if f.k then None
    else if value == "direct" then Some(f.(k := true, invite := f.invite.(kind := Direct)))
    else if value == "group" then Some(f.(k := true, invite := f.invite.(kind := Group)))
    else None
  }

  function TakeGroup(f: Fields, value: string): Option<Fields> {
    if f.g || |value| != 64 || !AllHex(value) then None
    else Some(f.(g := true, invite := f.invite.(group := LowerAll(value))))
  }

  function TakeRole(f: Fields, value: string): Option<Fields> {
    if f.r || (value != "member" && value != "admin") then None
    else Some(f.(r := true, invite := f.invite.(role := value)))
  }

  function TakeRk(f: Fields, value: string): Option<Fields> {
    if f.rk || |value| != 64 || !AllHex(value) then None
    else Some(f.(rk := true, invite := f.invite.(rk := LowerAll(value))))
  }

  /** A field's key, its value and what follows the next `&`, if there is one. */
  datatype Piece = Piece(key: string, value: string, rest: Option<string>)

  function First(p: string): Option<Piece> {
    var eq := Find(p, '=');
    if eq == |p| || eq == 0 || eq > KEY_MAX then None
    else
      var q := p[eq + 1..];
      var amp := Find(q, '&');
      if amp >= VALUE_MAX then None
      else Some(Piece(p[..eq], q[..amp], if amp == |q| then None else Some(q[amp + 1..])))
  }

  function ParseFields(p: string, f: Fields): Option<Fields>
    decreases |p|
  {
    if p == [] then Some(f)
    else if First(p).None? then None
    else
      var piece := First(p).value;
      match Take(f, piece.key, piece.value)
      case None => None
      case Some(more) =>
        if piece.rest.None? then Some(more)
        else if piece.rest.value == [] then None
        else ParseFields(piece.rest.value, more)
  }

  function Finish(f: Fields): Option<Invite> {
    if !f.i || !f.e || !f.k then None
    else if f.invite.kind.Direct? then if f.g || f.r then None else Some(f.invite)
    else if !f.g || f.rk then None
    else
      var role := if f.r then f.invite.role else "member";
      if role != "member" then None else Some(f.invite.(role := role))
  }

  function ParseBody(u: string): Option<Invite> {
    if !(PREFIX <= u) || |u| < |PREFIX| + ADDRESS_LENGTH + 1 then None
    else
      var address := u[|PREFIX|..|PREFIX| + ADDRESS_LENGTH];
      if !AllHex(address) || u[|PREFIX| + ADDRESS_LENGTH] != '?' then None
      else
        match ParseFields(u[|PREFIX| + ADDRESS_LENGTH + 1..], Blank(LowerAll(address)))
        case None => None
        case Some(f) => Finish(f)
  }

  function Parsed(url: string): Option<Invite> {
    if |url| >= URL_MAX || Stripped(url) == [] then None else ParseBody(Stripped(url))
  }

  // --- The parser's loops --------------------------------------------------------------------------------

  method Trim(url: string) returns (r: Option<string>)
    ensures r == if |url| >= URL_MAX || Stripped(url) == [] then None else Some(Stripped(url))
  {
    if |url| >= URL_MAX {
      return None;
    }
    var start, end := 0, |url|;
    assert url[0..|url|] == url;
    while start < end && IsSpace(url[start])
      invariant 0 <= start <= end == |url|
      invariant Stripped(url) == Stripped(url[start..end])
    {
      assert url[start..end][1..] == url[start + 1..end];
      start := start + 1;
    }
    while end > start && IsSpace(url[end - 1])
      invariant start <= end <= |url|
      invariant start < end ==> !IsSpace(url[start])
      invariant Stripped(url) == Stripped(url[start..end])
    {
      ghost var s := url[start..end];
      assert s[..|s| - 1] == url[start..end - 1];
      end := end - 1;
    }
    if start == end {
      return None;
    }
    return Some(url[start..end]);
  }

  method ParseExpiry(s: string) returns (r: Option<nat>)
    ensures r == if ExpiryOk(s) then Some(Value(s)) else None
  {
    var v, digits := 0, 0;
    if s == [] || s[0] == '-' {
      return None;
    }
    while digits < |s|
      invariant digits <= |s| && AllDigits(s[..digits]) && v == Value(s[..digits]) <= EXPIRY_MAX
      invariant digits <= EXPIRY_DIGITS
    {
      assert s[..digits + 1][..digits] == s[..digits];
      if s[digits] < '0' || s[digits] > '9' {
        return None;
      }
      var d := s[digits] as int - '0' as int;
      if v > (EXPIRY_MAX - d) / 10 {
        Grows(s, digits + 1);
        return None;
      }
      v := v * 10 + d;
      digits := digits + 1;
      if digits > EXPIRY_DIGITS {
        return None;
      }
    }
    assert s[..|s|] == s;
    return Some(v);
  }

  lemma {:induction false} Grows(s: string, n: nat)
    requires n <= |s| && AllDigits(s[..n])
    ensures AllDigits(s) ==> Value(s[..n]) <= Value(s)
    decreases |s|
  {
    if n == |s| {
      assert s[..n] == s;
    } else if AllDigits(s) {
      Grows(s[..|s| - 1], n);
      assert s[..|s| - 1][..n] == s[..n];
    }
  }

  method Scan(s: string, from: nat, c: char) returns (i: nat)
    requires from <= |s|
    ensures i == from + Find(s[from..], c)
  {
    i := from;
    while i < |s| && s[i] != c
      invariant from <= i <= |s| && from + Find(s[from..], c) == i + Find(s[i..], c)
    {
      assert s[i..][1..] == s[i + 1..];
      i := i + 1;
    }
  }

  method CheckHex(s: string, from: nat, to: nat) returns (ok: bool)
    requires from <= to <= |s|
    ensures ok <==> AllHex(s[from..to])
  {
    for i := from to to
      invariant forall k :: from <= k < i ==> IsHex(s[k])
    {
      if !IsHex(s[i]) {
        assert s[from..to][i - from] == s[i];
        return false;
      }
    }
    return true;
  }

  method Parse(url: string) returns (r: Option<Invite>)
    ensures r == Parsed(url)
  {
    var trimmed := Trim(url);
    if trimmed.None? {
      return None;
    }
    var u := trimmed.value;
    var query := |PREFIX| + ADDRESS_LENGTH + 1;
    if !(PREFIX <= u) || |u| < query {
      return None;
    }
    var hex := CheckHex(u, |PREFIX|, query - 1);
    if !hex || u[query - 1] != '?' {
      return None;
    }
    var fields := ParseQuery(u[query..], Blank(LowerAll(u[|PREFIX|..query - 1])));
    if fields.None? {
      return None;
    }
    r := Finish(fields.value);
  }

  /** The field loop; `p` is what is left to read. */
  method ParseQuery(query: string, blank: Fields) returns (r: Option<Fields>)
    ensures r == ParseFields(query, blank)
  {
    var p, f := query, blank;
    while p != []
      invariant ParseFields(query, blank) == ParseFields(p, f)
      decreases |p|
    {
      var piece := ReadField(p);
      if piece.None? {
        return None;
      }
      var more := Take(f, piece.value.key, piece.value.value);
      if more.None? || piece.value.rest.None? {
        return more;
      }
      if piece.value.rest.value == [] {
        return None;
      }
      f, p := more.value, piece.value.rest.value;
    }
    return Some(f);
  }

  /** Splits the first field off. */
  method ReadField(p: string) returns (r: Option<Piece>)
    ensures r == First(p)
    ensures r.Some? && r.value.rest.Some? ==> |r.value.rest.value| < |p|
  {
    var eq := Scan(p, 0, '=');
    assert p[0..] == p;
    if eq == |p| || eq == 0 || eq > KEY_MAX {
      return None;
    }
    var amp := Scan(p, eq + 1, '&');
    var value := p[eq + 1..amp];
    assert p[eq + 1..][..amp - (eq + 1)] == value;
    if |value| >= VALUE_MAX {
      return None;
    }
    if amp == |p| {
      return Some(Piece(p[..eq], value, None));
    }
    assert p[eq + 1..][amp - (eq + 1) + 1..] == p[amp + 1..];
    return Some(Piece(p[..eq], value, Some(p[amp + 1..])));
  }
}

/** Formatting an accepted invite gives a link that parses to the same invite
    (helper/invite.c). */
module InviteRoundTrip {
  import opened Basics
  import opened Invite

  function Digit(d: nat): char
    requires d < 10
  {
    ('0' as int + d) as char
  }

  function Decimal(n: nat): (s: string)
    ensures |s| > 0
  {
    if n < 10 then [Digit(n)] else Decimal(n / 10) + [Digit(n % 10)]
  }

  function Query(inv: Invite): string {
    "i=" + inv.id + "&" + ("e=" + Decimal(inv.expiry) + "&" +
      (if inv.kind.Direct? then
         if inv.rk != "" then "k=" + "direct" + "&" + ("rk=" + inv.rk) else "k=" + "direct"
       else "k=" + "group" + "&" + ("g=" + inv.group + "&" + ("r=" + (if inv.role != "" then inv.role else "member")))))
  }

  function Text(inv: Invite): string { PREFIX + inv.address + "?" + Query(inv) }

  function Formatted(inv: Invite, size: nat): Option<string> {
    if size < 32 then None
    else if inv.kind.Group? && ((inv.role != "" && inv.role != "member") || |inv.group| != 64 || !AllHex(inv.group)) then None
    else if |Text(inv)| >= size then None
    else Some(Text(inv))
  }

  /** What the parser produces. */
  predicate Canonical(inv: Invite) {
    && |inv.address| == ADDRESS_LENGTH && LowerHex(inv.address)
    && 1 <= |inv.id| <= ID_MAX && AllId(inv.id)
    && inv.expiry <= EXPIRY_MAX
    && if inv.kind.Direct? then
         inv.group == "" && inv.role == "" && (inv.rk == "" || (|inv.rk| == 64 && LowerHex(inv.rk)))
       else
         |inv.group| == 64 && LowerHex(inv.group) && inv.role == "member" && inv.rk == ""
  }

  // --- What is parsed is canonical ------------------------------------------------------------------

  /** What every set of fields read so far satisfies. */
  predicate Sound(f: Fields) {
    var inv := f.invite;
    && |inv.address| == ADDRESS_LENGTH && LowerHex(inv.address)
    && (if f.i then 1 <= |inv.id| <= ID_MAX && AllId(inv.id) else inv.id == "")
    && inv.expiry <= EXPIRY_MAX
    && (if f.g then |inv.group| == 64 && LowerHex(inv.group) else inv.group == "")
    && (!f.r ==> inv.role == "")
    && (if f.rk then |inv.rk| == 64 && LowerHex(inv.rk) else inv.rk == "")
  }

  lemma LowerIsLower(s: string)
    requires AllHex(s)
    ensures LowerHex(LowerAll(s))
  {
    assert LowerAll(LowerAll(s)) == LowerAll(s);
  }

  lemma TakeHexSound(f: Fields, value: string)
    requires Sound(f)
    ensures TakeGroup(f, value).Some? ==> Sound(TakeGroup(f, value).value)
    ensures TakeRk(f, value).Some? ==> Sound(TakeRk(f, value).value)
  {
    if AllHex(value) {
      LowerIsLower(value);
    }
  }

  lemma TakeIdSound(f: Fields, value: string)
    requires Sound(f)
    ensures TakeId(f, value).Some? ==> Sound(TakeId(f, value).value)
  {
  }

  lemma TakeExpirySound(f: Fields, value: string)
    requires Sound(f)
    ensures TakeExpiry(f, value).Some? ==> Sound(TakeExpiry(f, value).value)
  {
  }

  lemma TakeRoleSound(f: Fields, value: string)
    requires Sound(f)
    ensures TakeRole(f, value).Some? ==> Sound(TakeRole(f, value).value)
  {
  }

  lemma TakeKindSound(f: Fields, value: string)
    requires Sound(f)
    ensures TakeKind(f, value).Some? ==> Sound(TakeKind(f, value).value)
  {
  }

  lemma TakeSound(f: Fields, key: string, value: string)
    requires Sound(f) && Take(f, key, value).Some?
    ensures Sound(Take(f, key, value).value)
  {
    if key == "g" || key == "rk" {
      TakeHexSound(f, value);
    } else {
      TakeIdSound(f, value);
      TakeExpirySound(f, value);
      TakeRoleSound(f, value);
      TakeKindSound(f, value);
    }
  }

  lemma {:induction false} ParseFieldsSound(p: string, f: Fields)
    requires Sound(f) && ParseFields(p, f).Some?
    ensures Sound(ParseFields(p, f).value)
    decreases |p|
  {
    if p != [] {
      var piece := First(p).value;
      TakeSound(f, piece.key, piece.value);
      if piece.rest.Some? {
        ParseFieldsSound(piece.rest.value, Take(f, piece.key, piece.value).value);
      }
    }
  }

  lemma ParsedIsCanonical(url: string)
    requires Parsed(url).Some?
    ensures Canonical(Parsed(url).value)
  {
    var u := Stripped(url);
    var address := u[|PREFIX|..|PREFIX| + ADDRESS_LENGTH];
    LowerIsLower(address);
    ParseFieldsSound(u[|PREFIX| + ADDRESS_LENGTH + 1..], Blank(LowerAll(address)));
  }

  // --- What is canonical is parsed back ---------------------------------------------------------------

  function Pow10(k: nat): nat { if k == 0 then 1 else 10 * Pow10(k - 1) }

  lemma {:induction false} DecimalParses(n: nat)
    ensures AllDigits(Decimal(n)) && Value(Decimal(n)) == n
  {
    if n < 10 {
      assert Decimal(n)[..0] == [];
    } else {
      DecimalParses(n / 10);
      assert Decimal(n)[..|Decimal(n)| - 1] == Decimal(n / 10);
    }
  }

  lemma {:induction false} DecimalFits(n: nat, k: nat)
    requires k > 0 && n < Pow10(k)
    ensures |Decimal(n)| <= k
  {
    assert Pow10(1) == 10;
    if n >= 10 {
      DecimalFits(n / 10, k - 1);
    }
  }

  lemma ExpiryParses(n: nat)
    requires n <= EXPIRY_MAX
    ensures ExpiryOk(Decimal(n)) && Value(Decimal(n)) == n
  {
    DecimalParses(n);
    assert Pow10(4) == 10000;
    assert Pow10(8) == 10000 * Pow10(4);
    assert Pow10(12) == 10000 * Pow10(8);
    assert Pow10(16) == 10000 * Pow10(12);
    assert Pow10(19) == 1000 * Pow10(16);
    DecimalFits(n, EXPIRY_DIGITS);
  }

  predicate Plain(s: string) { forall i :: 0 <= i < |s| ==> s[i] != '=' && s[i] != '&' }

  /** A field in front of others is split off. */
  lemma FirstOf(key: string, value: string, rest: string)
    requires 0 < |key| <= KEY_MAX && |value| < VALUE_MAX && Plain(key) && Plain(value)
    ensures First(key + "=" + value + "&" + rest) == Some(Piece(key, value, Some(rest)))
  {
    var p := key + "=" + value + "&" + rest;
    var q := value + "&" + rest;
    assert p == key + ['='] + q;
    FindAfter(key, '=', q);
    assert p[|key| + 1..] == q && p[..|key|] == key;
    assert q == value + ['&'] + rest;
    FindAfter(value, '&', rest);
    assert q[|value| + 1..] == rest && q[..|value|] == value;
  }

  lemma LastOf(key: string, value: string)
    requires 0 < |key| <= KEY_MAX && |value| < VALUE_MAX && Plain(key) && Plain(value)
    ensures First(key + "=" + value) == Some(Piece(key, value, None))
  {
    var p := key + "=" + value;
    assert p == key + ['='] + value;
    FindAfter(key, '=', value);
    assert p[|key| + 1..] == value && p[..|key|] == key;
    assert Find(value, '&') == |value|;
    assert value[..|value|] == value;
  }

  /** Reading a field moves its value into the invite. */
  lemma Keys(f: Fields, value: string)
    ensures Take(f, "i", value) == TakeId(f, value) && Take(f, "e", value) == TakeExpiry(f, value)
    ensures Take(f, "k", value) == TakeKind(f, value) && Take(f, "g", value) == TakeGroup(f, value)
    ensures Take(f, "r", value) == TakeRole(f, value) && Take(f, "rk", value) == TakeRk(f, value)
  {
  }

  lemma ReadsOn(key: string, value: string, rest: string, f: Fields)
    requires 0 < |key| <= KEY_MAX && |value| < VALUE_MAX && Plain(key) && Plain(value) && rest != []
    requires Take(f, key, value).Some?
    ensures ParseFields(key + "=" + value + "&" + rest, f) == ParseFields(rest, Take(f, key, value).value)
  {
    FirstOf(key, value, rest);
  }

  lemma ReadsLast(key: string, value: string, f: Fields)
    requires 0 < |key| <= KEY_MAX && |value| < VALUE_MAX && Plain(key) && Plain(value)
    ensures ParseFields(key + "=" + value, f) == Take(f, key, value)
  {
    LastOf(key, value);
  }

  lemma ReadsId(id: string, rest: string, f: Fields)
    requires 1 <= |id| <= ID_MAX && AllId(id) && rest != [] && !f.i
    ensures ParseFields("i" + "=" + id + "&" + rest, f)
         == ParseFields(rest, f.(i := true, invite := f.invite.(id := id)))
  {
    Keys(f, id);
    ReadsOn("i", id, rest, f);
  }

  lemma ReadsExpiry(n: nat, rest: string, f: Fields)
    requires n <= EXPIRY_MAX && rest != [] && !f.e
    ensures ParseFields("e" + "=" + Decimal(n) + "&" + rest, f)
         == ParseFields(rest, f.(e := true, invite := f.invite.(expiry := n)))
  {
    ExpiryParses(n);
    Keys(f, Decimal(n));
    ReadsOn("e", Decimal(n), rest, f);
  }

  lemma ReadsKind(value: string, rest: string, f: Fields)
    requires (value == "direct" || value == "group") && rest != [] && !f.k
    ensures ParseFields("k" + "=" + value + "&" + rest, f)
         == ParseFields(rest, f.(k := true, invite := f.invite.(kind := if value == "direct" then Direct else Group)))
  {
    Keys(f, value);
    ReadsOn("k", value, rest, f);
  }

  lemma ReadsGroup(value: string, rest: string, f: Fields)
    requires |value| == 64 && LowerHex(value) && rest != [] && !f.g
    ensures ParseFields("g" + "=" + value + "&" + rest, f)
         == ParseFields(rest, f.(g := true, invite := f.invite.(group := value)))
  {
    Keys(f, value);
    ReadsOn("g", value, rest, f);
  }

  lemma ReadsRole(f: Fields)
    requires !f.r
    ensures ParseFields("r" + "=" + "member", f) == Some(f.(r := true, invite := f.invite.(role := "member")))
  {
    Keys(f, "member");
    ReadsLast("r", "member", f);
  }

  lemma ReadsRk(value: string, f: Fields)
    requires |value| == 64 && LowerHex(value) && !f.rk
    ensures ParseFields("rk" + "=" + value, f) == Some(f.(rk := true, invite := f.invite.(rk := value)))
  {
    Keys(f, value);
    ReadsLast("rk", value, f);
  }

  lemma ReadsDirect(f: Fields)
    requires !f.k
    ensures ParseFields("k" + "=" + "direct", f) == Some(f.(k := true, invite := f.invite.(kind := Direct)))
  {
    Keys(f, "direct");
    ReadsLast("k", "direct", f);
  }

  /** What follows the expiry. */
  function Ending(inv: Invite): string {
    if inv.kind.Direct? then
      if inv.rk != "" then "k" + "=" + "direct" + "&" + ("rk" + "=" + inv.rk) else "k" + "=" + "direct"
    else "k" + "=" + "group" + "&" + GroupEnding(inv)
  }

  function GroupEnding(inv: Invite): string { "g" + "=" + inv.group + "&" + ("r" + "=" + "member") }

  /** The fields once the identifier and the expiry are read. */
  function Begun(inv: Invite): Fields {
    Fields(Invite(inv.address, inv.id, inv.expiry, Direct, "", "", ""), true, true, false, false, false, false)
  }

  lemma DirectParses(inv: Invite)
    requires Canonical(inv) && inv.kind.Direct?
    ensures var r := ParseFields(Ending(inv), Begun(inv)); r.Some? && Finish(r.value) == Some(inv)
  {
    var f := Begun(inv);
    if inv.rk != "" {
      ReadsKind("direct", "rk" + "=" + inv.rk, f);
      ReadsRk(inv.rk, f.(k := true));
    } else {
      ReadsDirect(f);
    }
  }

  lemma GroupEndingParses(inv: Invite, f: Fields)
    requires |inv.group| == 64 && LowerHex(inv.group) && !f.g && !f.r
    ensures ParseFields(GroupEnding(inv), f)
         == Some(f.(g := true, r := true, invite := f.invite.(group := inv.group, role := "member")))
  {
    ReadsGroup(inv.group, "r" + "=" + "member", f);
    ReadsRole(f.(g := true, invite := f.invite.(group := inv.group)));
  }

  lemma GroupParses(inv: Invite)
    requires Canonical(inv) && inv.kind.Group?
    ensures var r := ParseFields(Ending(inv), Begun(inv)); r.Some? && Finish(r.value) == Some(inv)
  {
    var f := Begun(inv);
    ReadsKind("group", GroupEnding(inv), f);
    GroupEndingParses(inv, f.(k := true, invite := f.invite.(kind := Group)));
  }

  lemma BeginningParses(inv: Invite, rest: string)
    requires Canonical(inv) && rest != []
    ensures ParseFields("i" + "=" + inv.id + "&" + ("e" + "=" + Decimal(inv.expiry) + "&" + rest), Blank(inv.address))
         == ParseFields(rest, Begun(inv))
  {
    var f := Blank(inv.address);
    ReadsId(inv.id, "e" + "=" + Decimal(inv.expiry) + "&" + rest, f);
    ReadsExpiry(inv.expiry, rest, f.(i := true, invite := f.invite.(id := inv.id)));
  }

  lemma QueryIs(inv: Invite)
    requires Canonical(inv)
    ensures Query(inv) == "i" + "=" + inv.id + "&" + ("e" + "=" + Decimal(inv.expiry) + "&" + Ending(inv))
    ensures Ending(inv) != []
  {
  }

  lemma QueryParses(inv: Invite)
    requires Canonical(inv)
    ensures var r := ParseFields(Query(inv), Blank(inv.address)); r.Some? && Finish(r.value) == Some(inv)
  {
    QueryIs(inv);
    BeginningParses(inv, Ending(inv));
    if inv.kind.Direct? { DirectParses(inv); } else { GroupParses(inv); }
  }

  lemma TextFits(inv: Invite)
    requires Canonical(inv)
    ensures |Text(inv)| <= 263
  {
    ExpiryParses(inv.expiry);
  }

  lemma TextParses(inv: Invite)
    requires Canonical(inv)
    ensures Parsed(Text(inv)) == Some(inv)
  {
    var u := Text(inv);
    TextFits(inv);
    QueryEnds(inv);
    assert Stripped(u) == u;
    assert u[..|PREFIX|] == PREFIX;
    assert u[|PREFIX|..|PREFIX| + ADDRESS_LENGTH] == inv.address;
    assert u[|PREFIX| + ADDRESS_LENGTH] == '?';
    assert u[|PREFIX| + ADDRESS_LENGTH + 1..] == Query(inv);
    QueryParses(inv);
  }

  /** The link begins and ends with characters that are not trimmed. */
  lemma QueryEnds(inv: Invite)
    requires Canonical(inv)
    ensures var u := Text(inv); u != [] && !IsSpace(u[0]) && !IsSpace(u[|u| - 1])
  {
    var u, q := Text(inv), Query(inv);
    assert u[0] == PREFIX[0];
    assert u[|u| - 1] == q[|q| - 1];
    if inv.kind.Direct? && inv.rk != "" {
      assert q[|q| - 1] == inv.rk[63];
    }
  }

  /** Every link the helper accepts can be formatted again within the 512 bytes, and
      the new link means the same invite. */
  lemma FormatInvertsParse(url: string)
    requires Parsed(url).Some?
    ensures var inv := Parsed(url).value;
            Formatted(inv, URL_MAX).Some? && Parsed(Formatted(inv, URL_MAX).value) == Some(inv)
  {
    ParsedIsCanonical(url);
    TextFits(Parsed(url).value);
    TextParses(Parsed(url).value);
  }

  /** And every canonical invite is the meaning of some link: parsing loses nothing. */
  lemma ParseInvertsFormat(inv: Invite)
    ensures Canonical(inv) <==> Formatted(inv, URL_MAX).Some? && Parsed(Formatted(inv, URL_MAX).value) == Some(inv)
  {
    if Canonical(inv) {
      TextFits(inv);
      TextParses(inv);
    }
    if Formatted(inv, URL_MAX).Some? && Parsed(Formatted(inv, URL_MAX).value) == Some(inv) {
      ParsedIsCanonical(Formatted(inv, URL_MAX).value);
    }
  }
}

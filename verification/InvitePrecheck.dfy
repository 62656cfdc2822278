/** The precheck of invite links in the user interface (Model.js) against the
    helper's parser: it never turns away a link the helper accepts. */
module InvitePrecheck {
  import opened Basics
  import opened Invite

  datatype Draft = Draft(seen: set<string>, id: string, expiry: string, kind: string, group: string, role: string,
                         rk: string)

  const NEW := Draft({}, "", "", "", "", "", "")

  /** White space as JavaScript's regular expressions know it. */
  predicate JsSpace(c: char) {
    var n := c as int;
    || 9 <= n <= 13 || n == 32 || n == 0xa0 || n == 0x1680 || 0x2000 <= n <= 0x200a || n == 0x2028 || n == 0x2029
    || n == 0x202f || n == 0x205f || n == 0x3000 || n == 0xfeff
  }

  function Split(s: string, c: char): seq<string>
    decreases |s|
  {
    var i := Find(s, c);
    if i == |s| then [s] else [s[..i]] + Split(s[i + 1..], c)
  }

  function Put(d: Draft, k: string, v: string): Option<Draft> {
    var seen := d.(seen := d.seen + {k});
    if k in d.seen then None
    else if k == "i" then Some(seen.(id := v))
    else if k == "e" then Some(seen.(expiry := v))
    else if k == "k" then Some(seen.(kind := v))
    else if k == "g" then Some(seen.(group := v))
    else if k == "r" then Some(seen.(role := v))
    else if k == "rk" then Some(seen.(rk := v))
    else None
  }

  function Part(d: Draft, part: string): Option<Draft> {
    var eq := Find(part, '=');
    if eq == |part| || eq < 1 then None else Put(d, part[..eq], part[eq + 1..])
  }

  function Parts(d: Draft, parts: seq<string>): Option<Draft>
    decreases |parts|
  {
    if parts == [] then Some(d)
    else
      match Part(d, parts[0])
      case None => None
      case Some(more) => Parts(more, parts[1..])
  }

  predicate DraftOk(d: Draft) {
    && d.id != "" && d.expiry != "" && d.kind != ""
    && (d.kind == "direct" || d.kind == "group")
    && !(d.kind == "direct" && (d.group != "" || d.role != ""))
    && !(d.rk != "" && (|d.rk| != 64 || !AllHex(d.rk)))
    && !(d.kind == "group" && (d.rk != "" || d.group == ""))
  }

  function Prechecked(url: string): Option<Draft> {
    if |url| >= URL_MAX || Stripped(url) == [] then None
    else
      var u := Stripped(url);
      if !(PREFIX <= u) || (exists i :: 0 <= i < |u| && JsSpace(u[i])) then None
      else
        var rest := u[|PREFIX|..];
        if |rest| < ADDRESS_LENGTH + 1 || !AllHex(rest[..ADDRESS_LENGTH]) || rest[ADDRESS_LENGTH] != '?' then None
        else
          match Parts(NEW, Split(rest[ADDRESS_LENGTH + 1..], '&'))
          case None => None
          case Some(d) => if DraftOk(d) then Some(d) else None
  }

  // --- The precheck's loop -------------------------------------------------------------------------

  method CheckParts(parts: seq<string>) returns (r: Option<Draft>)
    ensures r == Parts(NEW, parts)
  {
    var out := NEW;
    for i := 0 to |parts|
      invariant Parts(NEW, parts) == Parts(out, parts[i..])
    {
      assert parts[i..][0] == parts[i] && parts[i..][1..] == parts[i + 1..];
      var more := Part(out, parts[i]);
      if more.None? {
        return None;
      }
      out := more.value;
    }
    return Some(out);
  }

  // --- Both read the same fields ---------------------------------------------------------------------

  /** The helper has read a field with this key. */
  predicate Seen(f: Fields, key: string) {
    || (key == "i" && f.i) || (key == "e" && f.e) || (key == "k" && f.k) || (key == "g" && f.g) || (key == "r" && f.r)
    || (key == "rk" && f.rk)
  }

  predicate ValuesMatch(f: Fields, d: Draft) {
    && (d.id != "" <==> f.i) && (d.expiry != "" <==> f.e) && (d.group != "" <==> f.g) && (d.role != "" <==> f.r)
    && (if f.k then d.kind == (if f.invite.kind.Direct? then "direct" else "group") else d.kind == "")
    && (if f.rk then |d.rk| == 64 && AllHex(d.rk) else d.rk == "")
  }

  ghost predicate SeenMatch(f: Fields, d: Draft) {
    forall key :: key in d.seen <==> Seen(f, key)
  }

  ghost predicate Matches(f: Fields, d: Draft) { SeenMatch(f, d) && ValuesMatch(f, d) }

  predicate KnownKey(k: string) { k == "i" || k == "e" || k == "k" || k == "g" || k == "r" || k == "rk" }

  lemma KnownTake(f: Fields, key: string, value: string)
    requires Take(f, key, value).Some?
    ensures KnownKey(key) && '&' !in key
  {
  }

  lemma NewKey(f: Fields, key: string, value: string)
    requires Take(f, key, value).Some?
    ensures !Seen(f, key)
    ensures forall k :: Seen(Take(f, key, value).value, k) <==> Seen(f, k) || k == key
  {
    KnownTake(f, key, value);
  }

  lemma TakeSeen(f: Fields, d: Draft, key: string, value: string)
    requires SeenMatch(f, d) && Take(f, key, value).Some?
    ensures Put(d, key, value).Some? && SeenMatch(Take(f, key, value).value, Put(d, key, value).value)
  {
    NewKey(f, key, value);
    KnownTake(f, key, value);
    assert Put(d, key, value).value.seen == d.seen + {key};
  }

  lemma IdValue(f: Fields, d: Draft, value: string)
    requires ValuesMatch(f, d) && TakeId(f, value).Some?
    ensures ValuesMatch(TakeId(f, value).value, d.(id := value))
  {
  }

  lemma ExpiryValue(f: Fields, d: Draft, value: string)
    requires ValuesMatch(f, d) && TakeExpiry(f, value).Some?
    ensures ValuesMatch(TakeExpiry(f, value).value, d.(expiry := value))
  {
  }

  lemma KindValue(f: Fields, d: Draft, value: string)
    requires ValuesMatch(f, d) && TakeKind(f, value).Some?
    ensures ValuesMatch(TakeKind(f, value).value, d.(kind := value))
  {
  }

  lemma GroupValue(f: Fields, d: Draft, value: string)
    requires ValuesMatch(f, d) && TakeGroup(f, value).Some?
    ensures ValuesMatch(TakeGroup(f, value).value, d.(group := value))
  {
  }

  lemma RoleValue(f: Fields, d: Draft, value: string)
    requires ValuesMatch(f, d) && TakeRole(f, value).Some?
    ensures ValuesMatch(TakeRole(f, value).value, d.(role := value))
  {
  }

  lemma RkValue(f: Fields, d: Draft, value: string)
    requires ValuesMatch(f, d) && TakeRk(f, value).Some?
    ensures ValuesMatch(TakeRk(f, value).value, d.(rk := value))
  {
  }

  lemma TakeValues(f: Fields, d: Draft, key: string, value: string)
    requires ValuesMatch(f, d) && Take(f, key, value).Some? && Put(d, key, value).Some?
    ensures ValuesMatch(Take(f, key, value).value, Put(d, key, value).value)
  {
    var seen := d.(seen := d.seen + {key});
    assert ValuesMatch(f, seen);
    if key == "i" {
      IdValue(f, seen, value);
    } else if key == "e" {
      ExpiryValue(f, seen, value);
    } else if key == "k" {
      KindValue(f, seen, value);
    } else if key == "g" {
      GroupValue(f, seen, value);
    } else if key == "r" {
      RoleValue(f, seen, value);
    } else {
      RkValue(f, seen, value);
    }
  }

  lemma TakeMatches(f: Fields, d: Draft, key: string, value: string)
    requires Matches(f, d) && Take(f, key, value).Some?
    ensures Put(d, key, value).Some? && Matches(Take(f, key, value).value, Put(d, key, value).value)
  {
    TakeSeen(f, d, key, value);
    TakeValues(f, d, key, value);
  }

  function Whole(piece: Piece): string {
    piece.key + "=" + (if piece.rest.Some? then piece.value + "&" + piece.rest.value else piece.value)
  }

  lemma CutAt(s: string, i: nat)
    requires i < |s|
    ensures s == s[..i] + [s[i]] + s[i + 1..]
  {
  }

  lemma PieceIs(p: string)
    requires First(p).Some?
    ensures var piece := First(p).value;
            p == Whole(piece) && piece.key != "" && '=' !in piece.key && '&' !in piece.value
  {
    var eq := Find(p, '=');
    CutAt(p, eq);
    var q := p[eq + 1..];
    var amp := Find(q, '&');
    if amp < |q| {
      CutAt(q, amp);
    } else {
      assert q[..amp] == q;
    }
  }

  lemma Regroup(a: string, b: string, c: string)
    ensures a + (b + c) == a + b + c
  {
  }

  lemma SplitAt(a: string, b: string)
    requires '&' !in a
    ensures Split(a, '&') == [a] && Split(a + "&" + b, '&') == [a] + Split(b, '&')
  {
    FindAfter(a, '&', b);
    assert a + "&" + b == a + ['&'] + b;
    assert (a + "&" + b)[..|a|] == a && (a + "&" + b)[|a| + 1..] == b;
    assert Find(a, '&') == |a|;
  }

  /** The helper's first field is the precheck's first part. */
  lemma FirstIsPart(p: string)
    requires First(p).Some? && '&' !in First(p).value.key
    ensures var piece := First(p).value;
            Split(p, '&') == [piece.key + "=" + piece.value]
                             + (if piece.rest.Some? then Split(piece.rest.value, '&') else [])
  {
    var piece := First(p).value;
    PieceIs(p);
    var part := piece.key + "=" + piece.value;
    if piece.rest.Some? {
      Regroup(piece.key + "=", piece.value + "&", piece.rest.value);
      Regroup(piece.key + "=", piece.value, "&");
      SplitAt(part, piece.rest.value);
    } else {
      assert p == part;
      SplitAt(part, "");
    }
  }

  lemma PartOf(d: Draft, key: string, value: string)
    requires '=' !in key && key != ""
    ensures Part(d, key + "=" + value) == Put(d, key, value)
  {
    var part := key + "=" + value;
    FindAfter(key, '=', value);
    assert part == key + ['='] + value;
    assert part[..|key|] == key && part[|key| + 1..] == value;
  }

  lemma {:induction false} FieldsMatch(p: string, f: Fields, d: Draft)
    requires p != [] && Matches(f, d) && ParseFields(p, f).Some?
    ensures Parts(d, Split(p, '&')).Some? && Matches(ParseFields(p, f).value, Parts(d, Split(p, '&')).value)
    decreases |p|
  {
    var piece := First(p).value;
    var more := Take(f, piece.key, piece.value).value;
    PieceIs(p);
    KnownTake(f, piece.key, piece.value);
    FirstIsPart(p);
    PartOf(d, piece.key, piece.value);
    TakeMatches(f, d, piece.key, piece.value);
    var next := Put(d, piece.key, piece.value).value;
    var parts := Split(p, '&');
    if piece.rest.Some? {
      FieldsMatch(piece.rest.value, more, next);
      assert parts[1..] == Split(piece.rest.value, '&');
    } else {
      assert parts[1..] == [];
    }
  }

  // --- No white space ----------------------------------------------------------------------------------

  predicate Visible(s: string) { forall i :: 0 <= i < |s| ==> 33 as char <= s[i] <= 126 as char }

  lemma TakenIsVisible(f: Fields, key: string, value: string)
    requires Take(f, key, value).Some?
    ensures Visible(key) && Visible(value)
  {
    KnownTake(f, key, value);
  }

  lemma Joined(a: string, b: string)
    requires Visible(a) && Visible(b)
    ensures Visible(a + b)
  {
  }

  lemma WholeIsVisible(piece: Piece)
    requires Visible(piece.key) && Visible(piece.value) && (piece.rest.Some? ==> Visible(piece.rest.value))
    ensures Visible(Whole(piece))
  {
    Joined(piece.key, "=");
    if piece.rest.Some? {
      Joined(piece.value, "&");
      Joined(piece.value + "&", piece.rest.value);
      Joined(piece.key + "=", piece.value + "&" + piece.rest.value);
    } else {
      Joined(piece.key + "=", piece.value);
    }
  }

  lemma {:induction false} FieldsAreVisible(p: string, f: Fields)
    requires ParseFields(p, f).Some?
    ensures Visible(p)
    decreases |p|
  {
    if p != [] {
      var piece := First(p).value;
      TakenIsVisible(f, piece.key, piece.value);
      if piece.rest.Some? {
        FieldsAreVisible(piece.rest.value, Take(f, piece.key, piece.value).value);
      }
      WholeIsVisible(piece);
      PieceIs(p);
    }
  }

  lemma HexIsVisible(s: string)
    requires AllHex(s)
    ensures Visible(s)
  {
  }

  lemma LinkIsVisible(u: string)
    requires ParseBody(u).Some?
    ensures Visible(u)
  {
    var n := |PREFIX| + ADDRESS_LENGTH;
    var address, query := u[|PREFIX|..n], u[n + 1..];
    FieldsAreVisible(query, Blank(LowerAll(address)));
    HexIsVisible(address);
    PrefixIsVisible();
    PartsVisible(u, |PREFIX|, n);
  }

  lemma PartsVisible(u: string, m: nat, n: nat)
    requires m <= n < |u| && Visible(u[..m]) && Visible(u[m..n]) && u[n] == '?' && Visible(u[n + 1..])
    ensures Visible(u)
  {
    forall i | 0 <= i < |u| ensures 33 as char <= u[i] <= 126 as char {
      if i < m {
        assert u[i] == u[..m][i];
      } else if i < n {
        assert u[i] == u[m..n][i - m];
      } else if i > n {
        assert u[i] == u[n + 1..][i - n - 1];
      }
    }
  }

  lemma PrefixIsVisible()
    ensures Visible(PREFIX)
  {
  }

  lemma NoJsSpace(u: string)
    requires Visible(u)
    ensures forall i :: 0 <= i < |u| ==> !JsSpace(u[i])
  {
  }

  lemma BodyAdmitted(u: string)
    requires ParseBody(u).Some?
    ensures var query := u[|PREFIX| + ADDRESS_LENGTH + 1..];
            Parts(NEW, Split(query, '&')).Some? && DraftOk(Parts(NEW, Split(query, '&')).value)
  {
    var n := |PREFIX| + ADDRESS_LENGTH;
    FieldsMatch(u[n + 1..], Blank(LowerAll(u[|PREFIX|..n])), NEW);
  }

  /** Every link the helper accepts passes the precheck. */
  lemma PrecheckAdmitsAll(url: string)
    requires Parsed(url).Some?
    ensures Prechecked(url).Some?
  {
    var u := Stripped(url);
    var n := |PREFIX| + ADDRESS_LENGTH;
    LinkIsVisible(u);
    NoJsSpace(u);
    BodyAdmitted(u);
    var rest := u[|PREFIX|..];
    assert rest[..ADDRESS_LENGTH] == u[|PREFIX|..n] && rest[ADDRESS_LENGTH + 1..] == u[n + 1..];
  }
}

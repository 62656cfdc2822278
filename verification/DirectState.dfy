/** The migration of direct-conversation state (helper/direct_state.c): files kept
    under a friend number move to names bound to the friend's key, or to archive
    names.  Any step may fail, and a failure leaves the disk as a crash would. */
module DirectState {
  import opened Basics

  const ARCHIVES: nat := 10000
  const NUMBERS_MAX: nat := 1024
  const FRIENDS_MAX: nat := 64

  datatype Dir = History | Avatars | Rk | Ident | Sess

  /** A file name; `device` is present in the session directory only. */
  datatype Name =
    | Legacy(number: nat, device: Option<nat>)
    | Stable(key: string, device: Option<nat>)
    | Archive(of: Name, index: nat)
    | Temp(of: Name)

  datatype Path = Path(dir: Dir, name: Name)

  type Content = nat
  type Files = map<Path, Content>
  type FriendMap = map<nat, string>

  datatype Friend = Friend(number: nat, key: string)

  predicate Data(p: Path) { !p.name.Temp? }

  /** The friend number a name is filed under. */
  function NumberOf(n: Name): Option<nat> {
    match n
    case Legacy(number, _) => Some(number)
    case Temp(inner) => NumberOf(inner)
    case _ => None
  }

  /** The names a directory may hold; any other makes the collection fail. */
  predicate WellNamed(p: Path) {
    match p.name
    case Legacy(_, device) => device.Some? == p.dir.Sess?
    case Stable(_, device) => device.Some? == p.dir.Sess?
    case Archive(of, _) => NumberOf(of).Some?
    case Temp(of) => !p.dir.History? && !p.dir.Avatars? && (of.Legacy? || of.Stable?) && of.device.Some? == p.dir.Sess?
  }

  ghost predicate AllWellNamed(files: Files) {
    forall p :: p in files ==> WellNamed(p)
  }

  ghost predicate NumberGone(files: Files, n: nat) {
    forall p :: p in files ==> NumberOf(p.name) != Some(n)
  }

  ghost predicate NoLegacy(files: Files) {
    forall p :: p in files ==> NumberOf(p.name).None?
  }

  /** No new name under a number appears. */
  ghost predicate NoneNew(before: Files, after: Files) {
    forall p :: p in after && NumberOf(p.name).Some? ==> p in before
  }

  /** An archive name is left for the file. */
  ghost predicate HasRoom(files: Files, p: Path) {
    exists i :: 0 <= i < ARCHIVES && Path(p.dir, Archive(p.name, i)) !in files
  }

  ghost predicate Roomy(files: Files) {
    forall p :: p in files && p.name.Legacy? ==> HasRoom(files, p)
  }

  /** The names stay well formed, none appears under a number and there stays room
      for what is left. */
  ghost predicate Tidy(before: Files, after: Files) {
    NoneNew(before, after) && (AllWellNamed(before) ==> AllWellNamed(after)) && (Roomy(before) ==> Roomy(after))
  }

  // --- Where every file went ------------------------------------------------------------------

  function StablePath(p: Path, key: string): Path
    requires p.name.Legacy?
  {
    Path(p.dir, Stable(key, p.name.device))
  }

  /** A file under a number in the saved map whose key-bound name was free. */
  predicate Bound(orig: Files, saved: FriendMap, p: Path) {
    p.name.Legacy? && p.name.number in saved && StablePath(p, saved[p.name.number]) !in orig
  }

  /** `q` is where the file first seen at `p` may be. */
  predicate Allowed(orig: Files, saved: FriendMap, p: Path, q: Path) {
    q == p || (
      && p.name.Legacy? && q.dir == p.dir
      && if Bound(orig, saved, p) then q == StablePath(p, saved[p.name.number])
         else q.name.Archive? && q.name.of == p.name && q.name.index < ARCHIVES)
  }

  predicate SettledAt(orig: Files, files: Files, there: map<Path, Path>, back: map<Path, Path>, saved: FriendMap, p: Path)
    requires p in orig
  {
    && p in there && there[p] in files && files[there[p]] == orig[p]
    && there[p] in back && back[there[p]] == p
    && Allowed(orig, saved, p, there[p])
  }

  predicate CameFrom(orig: Files, there: map<Path, Path>, back: map<Path, Path>, q: Path) {
    q in back && back[q] in orig && Data(back[q]) && back[q] in there && there[back[q]] == q
  }

  /** Every file of `orig` is still there, with its content, under its own name or
      the one name it may move to, and there is nothing else. */
  ghost predicate Accounts(orig: Files, files: Files, there: map<Path, Path>, back: map<Path, Path>, saved: FriendMap) {
    && (forall p :: p in orig && Data(p) ==> SettledAt(orig, files, there, back, saved, p))
    && (forall q :: q in files && Data(q) ==> CameFrom(orig, there, back, q))
  }

  ghost predicate OneToOne(saved: FriendMap) {
    forall m, n :: m in saved && n in saved && saved[m] == saved[n] ==> m == n
  }

  function Renamed(files: Files, from: Path, to: Path): Files
    requires from in files
  {
    (files - {from})[to := files[from]]
  }

  lemma StillThere(orig: Files, files: Files, there: map<Path, Path>, back: map<Path, Path>, saved: FriendMap, p: Path)
    requires Accounts(orig, files, there, back, saved) && p in files && p.name.Legacy?
    ensures p in orig && there[p] == p && back[p] == p && orig[p] == files[p]
  {
    assert CameFrom(orig, there, back, p);
    assert SettledAt(orig, files, there, back, saved, back[p]);
  }

  /** The key-bound name is taken only if it was taken from the start. */
  lemma TakenFromTheStart(orig: Files, files: Files, there: map<Path, Path>, back: map<Path, Path>, saved: FriendMap, p: Path)
    requires Accounts(orig, files, there, back, saved) && OneToOne(saved)
    requires p in files && p.name.Legacy? && p.name.number in saved
    ensures StablePath(p, saved[p.name.number]) in files <==> StablePath(p, saved[p.name.number]) in orig
  {
    var s := StablePath(p, saved[p.name.number]);
    StillThere(orig, files, there, back, saved, p);
    if s in files {
      assert CameFrom(orig, there, back, s);
      assert SettledAt(orig, files, there, back, saved, back[s]);
    }
    if s in orig {
      assert SettledAt(orig, files, there, back, saved, s);
    }
  }

  lemma MoveAccounts(orig: Files, files: Files, there: map<Path, Path>, back: map<Path, Path>, saved: FriendMap,
                     p: Path, q: Path)
    requires Accounts(orig, files, there, back, saved) && p in files && p.name.Legacy?
    requires q !in files && Data(q) && q != p && Allowed(orig, saved, p, q)
    ensures Accounts(orig, Renamed(files, p, q), there[p := q], back[q := p], saved)
  {
    StillThere(orig, files, there, back, saved, p);
    var after, there', back' := Renamed(files, p, q), there[p := q], back[q := p];
    forall r | r in orig && Data(r) ensures SettledAt(orig, after, there', back', saved, r) {
      assert SettledAt(orig, files, there, back, saved, r);
    }
    forall r | r in after && Data(r) ensures CameFrom(orig, there', back', r) {
      if r != q {
        assert CameFrom(orig, there, back, r);
      }
    }
  }

  lemma MoveRoomy(files: Files, p: Path, q: Path)
    requires Roomy(files) && p in files && p.name.Legacy? && q !in files
    requires q.name.Stable? || (q.name.Archive? && q.name.of == p.name && q.dir == p.dir)
    ensures Roomy(Renamed(files, p, q))
  {
    var after := Renamed(files, p, q);
    forall r | r in after && r.name.Legacy? ensures HasRoom(after, r) {
      assert HasRoom(files, r);
      var i :| 0 <= i < ARCHIVES && Path(r.dir, Archive(r.name, i)) !in files;
      assert Path(r.dir, Archive(r.name, i)) !in after;
    }
  }

  lemma DropRoomy(files: Files, p: Path)
    requires Roomy(files)
    ensures Roomy(files - {p})
  {
    forall r | r in files - {p} && r.name.Legacy? ensures HasRoom(files - {p}, r) {
      assert HasRoom(files, r);
      var i :| 0 <= i < ARCHIVES && Path(r.dir, Archive(r.name, i)) !in files;
      assert Path(r.dir, Archive(r.name, i)) !in files - {p};
    }
  }

  lemma DropAccounts(orig: Files, files: Files, there: map<Path, Path>, back: map<Path, Path>, saved: FriendMap, p: Path)
    requires Accounts(orig, files, there, back, saved) && !Data(p)
    ensures Accounts(orig, files - {p}, there, back, saved)
  {
    forall r | r in orig && Data(r) ensures SettledAt(orig, files - {p}, there, back, saved, r) {
      assert SettledAt(orig, files, there, back, saved, r);
      assert Data(there[r]);
    }
  }

  // --- The home directory in place ----------------------------------------------------------------

  /** Every place a number may occur in, apart from its sessions. */
  predicate Single(p: Path, n: nat) {
    && NumberOf(p.name) == Some(n)
    && ((p.name == Legacy(n, None) && !p.dir.Sess?) || (p.name == Temp(Legacy(n, None)) && (p.dir.Rk? || p.dir.Ident?)))
  }

  predicate Session(p: Path, n: nat) {
    && p.dir.Sess?
    && match p.name
       case Legacy(m, Some(_)) => m == n
       case Temp(Legacy(m, Some(_))) => m == n
       case _ => false
  }

  lemma Enumerated(p: Path, n: nat)
    requires WellNamed(p) && NumberOf(p.name) == Some(n)
    ensures Single(p, n) || Session(p, n)
  {
  }

  ghost predicate SinglesGone(files: Files, n: nat) {
    && (forall dir :: dir != Sess ==> Path(dir, Legacy(n, None)) !in files)
    && Path(Rk, Temp(Legacy(n, None))) !in files && Path(Ident, Temp(Legacy(n, None))) !in files
  }

  ghost predicate SessionsGone(files: Files, n: nat) {
    forall p :: p in files ==> !Session(p, n)
  }

  lemma AllGone(files: Files, n: nat)
    requires AllWellNamed(files) && SinglesGone(files, n) && SessionsGone(files, n)
    ensures NumberGone(files, n)
  {
    forall p | p in files ensures NumberOf(p.name) != Some(n) {
      if NumberOf(p.name) == Some(n) {
        Enumerated(p, n);
      }
    }
  }

  /** Where a number's files go: under its key, or to an archive. */
  function Target(saved: FriendMap, n: nat, device: Option<nat>): Option<Name> {
    if n in saved then Some(Stable(saved[n], device)) else None
  }

  function KeyOf(saved: FriendMap, n: nat): Option<string> {
    if n in saved then Some(saved[n]) else None
  }

  function Renaming(key: Option<string>, device: Option<nat>): Option<Name> {
    if key.Some? then Some(Stable(key.value, device)) else None
  }

  /** The sessions of `n` that are left are those with `devices`. */
  ghost predicate OnlySessions(files: Files, n: nat, devices: seq<nat>) {
    forall p :: p in files && Session(p, n) ==> p.name.Legacy? && p.name.device.value in devices
  }

  ghost predicate Listed(files: Files, numbers: seq<nat>) {
    forall p :: p in files && NumberOf(p.name).Some? ==> NumberOf(p.name).value in numbers
  }

  lemma StaysGone(before: Files, after: Files, p: Path)
    requires NoneNew(before, after) && p !in before && NumberOf(p.name).Some?
    ensures p !in after
  {
  }

  lemma SessionNumber(p: Path, n: nat)
    requires Session(p, n)
    ensures NumberOf(p.name) == Some(n)
  {
  }

  lemma SinglesStayGone(before: Files, after: Files, n: nat)
    requires SinglesGone(before, n) && NoneNew(before, after)
    ensures SinglesGone(after, n)
  {
    StaysGone(before, after, Path(Rk, Temp(Legacy(n, None))));
    StaysGone(before, after, Path(Ident, Temp(Legacy(n, None))));
    forall dir | dir != Sess ensures Path(dir, Legacy(n, None)) !in after {
      StaysGone(before, after, Path(dir, Legacy(n, None)));
    }
  }

  lemma OneSessionLess(before: Files, after: Files, n: nat, devices: seq<nat>)
    requires devices != [] && OnlySessions(before, n, devices) && NoneNew(before, after)
    requires Path(Sess, Legacy(n, Some(devices[0]))) !in after
    ensures OnlySessions(after, n, devices[1..])
  {
    forall p | p in after && Session(p, n)
      ensures p.name.Legacy? && p.name.device.value in devices[1..]
    {
      SessionNumber(p, n);
      assert p in before;
      assert p == Path(Sess, Legacy(n, Some(p.name.device.value)));
    }
  }

  function Sessions(files: Files, n: nat): set<Path> {
    set p | p in files && Session(p, n) && p.name.Legacy?
  }

  ghost predicate FewSessions(files: Files, n: nat) { |Sessions(files, n)| <= NUMBERS_MAX }

  function Numbers(files: Files): set<nat> {
    set p | p in files && NumberOf(p.name).Some? :: NumberOf(p.name).value
  }

  /** Nothing stands in the way of a reconciliation but a failing file operation. */
  ghost predicate Manageable(files: Files) {
    && AllWellNamed(files) && Roomy(files) && |Numbers(files)| <= NUMBERS_MAX
    && forall n :: FewSessions(files, n)
  }

  lemma Smaller<T>(a: set<T>, b: set<T>)
    ensures a <= b ==> |a| <= |b|
  {
    if a <= b {
      assert b == a + (b - a);
    }
  }

  lemma FewerSessions(before: Files, after: Files, n: nat)
    requires NoneNew(before, after)
    ensures FewSessions(before, n) ==> FewSessions(after, n)
  {
    forall p | p in Sessions(after, n) ensures p in Sessions(before, n) {
      SessionNumber(p, n);
    }
    Smaller(Sessions(after, n), Sessions(before, n));
  }

  lemma NoneListed(before: Files, after: Files, numbers: seq<nat>)
    requires Listed(before, numbers) && NoneNew(before, after)
    requires forall k :: 0 <= k < |numbers| ==> NumberGone(after, numbers[k])
    ensures NoLegacy(after)
  {
    assert forall n :: n in numbers ==> NumberGone(after, n);
  }

  lemma SinglesDone(files: Files, dirs: seq<Dir>, n: nat)
    requires dirs == [History, Avatars, Rk, Ident]
    requires forall k :: 0 <= k < 4 ==> Path(dirs[k], Legacy(n, None)) !in files
    requires Path(Rk, Temp(Legacy(n, None))) !in files && Path(Ident, Temp(Legacy(n, None))) !in files
    ensures SinglesGone(files, n)
  {
    assert dirs[0] == History && dirs[1] == Avatars && dirs[2] == Rk && dirs[3] == Ident;
  }

  predicate FriendsValid(current: seq<Friend>) {
    forall i, j :: 0 <= i < j < |current| ==>
      current[i].number != current[j].number && current[i].key != current[j].key
  }

  function MapOf(current: seq<Friend>): FriendMap {
    if current == [] then map[]
    else
      var last := current[|current| - 1];
      MapOf(current[..|current| - 1])[last.number := last.key]
  }

  lemma {:induction false} MapOfMeans(current: seq<Friend>, n: nat)
    requires FriendsValid(current) && n in MapOf(current)
    ensures exists i :: 0 <= i < |current| && current[i] == Friend(n, MapOf(current)[n])
  {
    var last := |current| - 1;
    if current[last].number != n {
      MapOfMeans(current[..last], n);
      var i :| 0 <= i < last && current[..last][i] == Friend(n, MapOf(current[..last])[n]);
      assert current[i] == Friend(n, MapOf(current)[n]);
    }
  }

  lemma MapOfOneToOne(current: seq<Friend>)
    requires FriendsValid(current)
    ensures OneToOne(MapOf(current))
  {
    var m := MapOf(current);
    forall a, b | a in m && b in m && m[a] == m[b] ensures a == b {
      MapOfMeans(current, a);
      MapOfMeans(current, b);
    }
  }

  /** Every friend of the saved map is still a friend, under whatever number. */
  predicate AllPresent(m: FriendMap, current: seq<Friend>) {
    forall n :: n in m ==> exists i :: 0 <= i < |current| && current[i].key == m[n]
  }

  /** A file under a number no friend had. */
  predicate Unclaimed(p: Path, m: FriendMap) {
    NumberOf(p.name).Some? && NumberOf(p.name).value !in m
  }

  class Home {
    var files: Files
    var friends: Option<FriendMap>
    var reinvite: bool
    ghost var there: map<Path, Path>
    ghost var back: map<Path, Path>

    ghost predicate Holds(orig: Files, saved: FriendMap)
      reads this
    {
      OneToOne(saved) && Accounts(orig, files, there, back, saved)
    }

    method Unlink(p: Path, ghost orig: Files, ghost saved: FriendMap)
      requires Holds(orig, saved) && !Data(p)
      modifies this`files
      ensures Holds(orig, saved) && Tidy(old(files), files) && files == old(files) - {p}
    {
      DropAccounts(orig, files, there, back, saved, p);
      if Roomy(files) {
        DropRoomy(files, p);
      }
      files := files - {p};
    }

    /** How one file operation fares; in a calm run none fails. */
    static method Step(calm: bool) returns (ok: bool)
      ensures calm ==> ok
    {
      ok := *;
      ok := ok || calm;
    }

    /** Removes what a crashed writer left behind. */
    method CleanTemp(dir: Dir, name: Name, calm: bool, ghost orig: Files, ghost saved: FriendMap) returns (ok: bool)
      requires Holds(orig, saved)
      modifies this`files
      ensures Holds(orig, saved) && Tidy(old(files), files)
      ensures ok ==> Path(dir, Temp(name)) !in files
      ensures calm ==> ok
    {
      ok := Step(calm);
      if ok && Path(dir, Temp(name)) in files {
        Unlink(Path(dir, Temp(name)), orig, saved);
        ok := Step(calm);
      }
    }

    /** The first archive name that is free. */
    method ArchiveName(dir: Dir, name: Name) returns (r: Option<Name>)
      ensures r.Some? ==>
                && r.value.Archive? && r.value.of == name && r.value.index < ARCHIVES
                && Path(dir, r.value) !in files
                && forall i :: 0 <= i < r.value.index ==> Path(dir, Archive(name, i)) in files
      ensures r.None? ==> !HasRoom(files, Path(dir, name))
    {
      for i := 0 to ARCHIVES
        invariant forall k :: 0 <= k < i ==> Path(dir, Archive(name, k)) in files
      {
        if Path(dir, Archive(name, i)) !in files {
          return Some(Archive(name, i));
        }
      }
      return None;
    }

    /** Renames a number's entry to the key-bound name or, when that is taken or
        there is none, to an archive name. */
    method MigrateEntry(dir: Dir, name: Name, target: Option<Name>, calm: bool, ghost orig: Files, ghost saved: FriendMap)
      returns (ok: bool)
      requires Holds(orig, saved) && name.Legacy? && target == Target(saved, name.number, name.device)
      modifies this`files, this`there, this`back
      ensures Holds(orig, saved) && Tidy(old(files), files)
      ensures ok ==> Path(dir, name) !in files
      ensures calm && Roomy(old(files)) ==> ok
    {
      var p := Path(dir, name);
      ok := Step(calm);
      if !ok || p !in files {
        return;
      }
      assert Roomy(files) ==> HasRoom(files, p);
      ok := Step(calm);
      if !ok {
        return;
      }
      if name.number in saved {
        TakenFromTheStart(orig, files, there, back, saved, p);
      }
      var q;
      if target.Some? && Path(dir, target.value) !in files {
        q := Path(dir, target.value);
      } else {
        var archive := ArchiveName(dir, name);
        if archive.None? {
          return false;
        }
        q := Path(dir, archive.value);
      }
      if Roomy(files) {
        MoveRoomy(files, p, q);
      }
      MoveAccounts(orig, files, there, back, saved, p, q);
      files, there, back := Renamed(files, p, q), there[p := q], back[q := p];
      ok := Step(calm);
    }

    /** The devices a number has sessions with; sessions half written are removed. */
    method SessionNames(n: nat, calm: bool, ghost orig: Files, ghost saved: FriendMap) returns (ok: bool, devices: seq<nat>)
      requires Holds(orig, saved)
      modifies this`files
      ensures Holds(orig, saved) && Tidy(old(files), files)
      ensures ok ==> OnlySessions(files, n, devices)
      ensures calm && FewSessions(old(files), n) ==> ok
    {
      var todo := files.Keys;
      devices := [];
      ghost var counted: set<Path> := {};
      while todo != {}
        invariant Holds(orig, saved) && Tidy(old(files), files)
        invariant forall p :: p in files && Session(p, n) && p !in todo ==>
                    p.name.Legacy? && p.name.device.value in devices
        invariant |counted| == |devices| && counted <= Sessions(old(files), n) && counted !! todo
        decreases |todo|
      {
        var p :| p in todo;
        todo := todo - {p};
        if p in files && Session(p, n) {
          ok := Step(calm);
          SessionNumber(p, n);
          if p.name.Legacy? {
            Smaller(counted + {p}, Sessions(old(files), n));
          }
          if !ok || (p.name.Legacy? && |devices| >= NUMBERS_MAX) {
            return false, devices;
          }
          if p.name.Temp? {
            Unlink(p, orig, saved);
          } else {
            devices := devices + [p.name.device.value];
            counted := counted + {p};
          }
        }
      }
      ok := Step(calm);
    }

    method MoveSessions(n: nat, key: Option<string>, calm: bool, ghost orig: Files, ghost saved: FriendMap) returns (ok: bool)
      requires Holds(orig, saved) && key == KeyOf(saved, n)
      modifies this`files, this`there, this`back
      ensures Holds(orig, saved) && Tidy(old(files), files)
      ensures ok ==> SessionsGone(files, n)
      ensures calm && Roomy(old(files)) && FewSessions(old(files), n) ==> ok
    {
      var devices;
      ok, devices := SessionNames(n, calm, orig, saved);
      if !ok {
        return;
      }
      for i := 0 to |devices|
        invariant Holds(orig, saved) && Tidy(old(files), files) && OnlySessions(files, n, devices[i..])
      {
        var d := devices[i];
        ghost var before := files;
        ok := MigrateEntry(Sess, Legacy(n, Some(d)), Renaming(key, Some(d)), calm, orig, saved);
        if !ok {
          return;
        }
        OneSessionLess(before, files, n, devices[i..]);
      }
      ok := true;
    }

    method CleanNumber(n: nat, key: Option<string>, calm: bool, ghost orig: Files, ghost saved: FriendMap) returns (ok: bool)
      requires Holds(orig, saved)
      modifies this`files
      ensures Holds(orig, saved) && Tidy(old(files), files)
      ensures ok ==> Path(Rk, Temp(Legacy(n, None))) !in files && Path(Ident, Temp(Legacy(n, None))) !in files
      ensures calm ==> ok
    {
      ok := CleanTemp(Rk, Legacy(n, None), calm, orig, saved);
      if ok {
        ghost var before := files;
        ok := CleanTemp(Ident, Legacy(n, None), calm, orig, saved);
        StaysGone(before, files, Path(Rk, Temp(Legacy(n, None))));
      }
      if ok && key.Some? {
        ghost var before := files;
        ok := CleanTemp(Rk, Stable(key.value, None), calm, orig, saved);
        if ok {
          ok := CleanTemp(Ident, Stable(key.value, None), calm, orig, saved);
        }
        StaysGone(before, files, Path(Rk, Temp(Legacy(n, None))));
        StaysGone(before, files, Path(Ident, Temp(Legacy(n, None))));
      }
    }

    /** Everything under a number: history, avatar, keys, then the sessions. */
    method MoveNumber(n: nat, key: Option<string>, calm: bool, ghost orig: Files, ghost saved: FriendMap) returns (ok: bool)
      requires Holds(orig, saved) && AllWellNamed(files) && key == KeyOf(saved, n)
      modifies this`files, this`there, this`back
      ensures Holds(orig, saved) && Tidy(old(files), files)
      ensures ok ==> NumberGone(files, n)
      ensures calm && Roomy(old(files)) && FewSessions(old(files), n) ==> ok
    {
      ok := CleanNumber(n, key, calm, orig, saved);
      if !ok {
        return;
      }
      var dirs := [History, Avatars, Rk, Ident];
      for i := 0 to 4
        invariant Holds(orig, saved) && Tidy(old(files), files)
        invariant Path(Rk, Temp(Legacy(n, None))) !in files && Path(Ident, Temp(Legacy(n, None))) !in files
        invariant forall k :: 0 <= k < i ==> Path(dirs[k], Legacy(n, None)) !in files
      {
        ghost var before := files;
        ok := MigrateEntry(dirs[i], Legacy(n, None), Renaming(key, None), calm, orig, saved);
        if !ok {
          return;
        }
        StaysGone(before, files, Path(Rk, Temp(Legacy(n, None))));
        StaysGone(before, files, Path(Ident, Temp(Legacy(n, None))));
      }
      SinglesDone(files, dirs, n);
      ghost var singles := files;
      FewerSessions(old(files), files, n);
      ok := MoveSessions(n, key, calm, orig, saved);
      SinglesStayGone(singles, files, n);
      if ok {
        AllGone(files, n);
      }
    }

    /** Reads all directories: every number in use, or a failure. */
    method Collect(calm: bool) returns (ok: bool, numbers: seq<nat>)
      ensures ok ==> AllWellNamed(files) && Listed(files, numbers)
      ensures NoLegacy(files) ==> numbers == []
      ensures calm && AllWellNamed(files) && |Numbers(files)| <= NUMBERS_MAX ==> ok
    {
      var todo := files.Keys;
      numbers := [];
      ghost var counted: set<nat> := {};
      while todo != {}
        invariant forall p :: p in files && p !in todo ==>
                    WellNamed(p) && (NumberOf(p.name).Some? ==> NumberOf(p.name).value in numbers)
        invariant todo <= files.Keys
        invariant |counted| == |numbers| && counted <= Numbers(files)
        invariant forall x :: x in counted <==> x in numbers
        invariant NoLegacy(files) ==> numbers == []
        decreases |todo|
      {
        var p :| p in todo;
        todo := todo - {p};
        ok := Step(calm);
        if !ok || !WellNamed(p) {
          return false, numbers;
        }
        var n := NumberOf(p.name);
        if n.Some? && n.value !in numbers {
          assert n.value in Numbers(files);
          Smaller(counted + {n.value}, Numbers(files));
          if |numbers| >= NUMBERS_MAX {
            return false, numbers;
          }
          numbers := numbers + [n.value];
          counted := counted + {n.value};
        }
      }
      ok := Step(calm);
    }

    /** Moves every number's files. */
    method MoveAll(numbers: seq<nat>, m: FriendMap, calm: bool, ghost orig: Files, ghost saved: FriendMap)
      returns (ok: bool)
      requires Holds(orig, saved) && AllWellNamed(files) && Listed(files, numbers)
      requires m == saved || numbers == []
      modifies this`files, this`there, this`back, this`reinvite
      ensures Holds(orig, saved) && Tidy(old(files), files)
      ensures ok ==> NoLegacy(files)
      ensures old(reinvite) ==> reinvite
      ensures calm && Roomy(old(files)) && (forall n :: FewSessions(old(files), n)) ==> ok
      ensures ok && (exists n :: n in numbers && n !in m) ==> reinvite
    {
      for i := 0 to |numbers|
        invariant Holds(orig, saved) && Tidy(old(files), files) && AllWellNamed(files)
        invariant forall k :: 0 <= k < i ==> NumberGone(files, numbers[k])
        invariant old(reinvite) ==> reinvite
        invariant (exists k :: 0 <= k < i && numbers[k] !in m) ==> reinvite
      {
        var n := numbers[i];
        if n !in m {
          ok := Step(calm);
          if !ok {
            return;
          }
          reinvite := true;
        }
        FewerSessions(old(files), files, n);
        ok := MoveNumber(n, KeyOf(m, n), calm, orig, saved);
        if !ok {
          return;
        }
      }
      ok := true;
      NoneListed(old(files), files, numbers);
    }

    /** One reconciliation, from a fresh start or after failed ones.  `orig` and
        `saved` are the files and the friend map before the first. */
    method Reconcile(current: seq<Friend>, calm: bool, ghost orig: Files, ghost saved: FriendMap) returns (ok: bool)
      requires Holds(orig, saved) && (KnownFriends() == saved || NoLegacy(files))
      modifies this
      ensures Holds(orig, saved) && (KnownFriends() == saved || NoLegacy(files))
      ensures Tidy(old(files), files)
      ensures ok ==> NoLegacy(files) && friends == Some(MapOf(current)) && OneToOne(MapOf(current))
      ensures !ok ==> friends == old(friends) || (NoLegacy(files) && friends == Some(MapOf(current)))
      ensures (calm && Manageable(old(files)) && |current| <= FRIENDS_MAX && FriendsValid(current)
               && AllPresent(old(KnownFriends()), current)) ==> ok
      ensures ok && (exists p :: p in old(files) && Unclaimed(p, old(KnownFriends()))) ==> reinvite
    {
      if |current| > FRIENDS_MAX || !FriendsValid(current) {
        return false;
      }
      var numbers;
      ok, numbers := Collect(calm);
      var m := if friends.Some? then friends.value else map[];
      if !ok || (friends.Some? && !AllPresent(m, current)) {
        return false;
      }
      ok := MoveAll(numbers, m, calm, orig, saved);
      if !ok {
        return;
      }
      ok := Step(calm);
      if ok {
        MapOfOneToOne(current);
        friends := Some(MapOf(current));
        ok := Step(calm);
      }
    }

    function KnownFriends(): FriendMap
      reads this
    {
      if friends.Some? then friends.value else map[]
    }

    /** A new account begins: everything is where it was first seen. */
    ghost method BeginAccount(saved: FriendMap)
      requires OneToOne(saved)
      modifies this`there, this`back
      ensures Holds(files, saved)
    {
      there := map p | p in files && Data(p) :: p;
      back := there;
    }
  }

  // --- The theorems ---------------------------------------------------------------------------------

  /** Once no number is left: what was bound to a key lies under it, every other
      numbered file under an archive name, and all else where it was. */
  lemma WhereFilesEnd(orig: Files, files: Files, there: map<Path, Path>, back: map<Path, Path>, saved: FriendMap, p: Path)
    requires Accounts(orig, files, there, back, saved) && NoLegacy(files) && p in orig && Data(p)
    ensures there[p] in files && files[there[p]] == orig[p]
    ensures if !p.name.Legacy? then there[p] == p
            else if Bound(orig, saved, p) then there[p] == StablePath(p, saved[p.name.number])
            else there[p].dir == p.dir && there[p].name.Archive? && there[p].name.of == p.name && there[p] !in orig
  {
    assert SettledAt(orig, files, there, back, saved, p);
    forall q | q in orig && Data(q) && !q.name.Legacy? ensures there[q] == q && back[q] == q {
      assert SettledAt(orig, files, there, back, saved, q);
    }
  }

  /** At any time, after any failures: what lies under a key was there from the
      start or was filed under the number the saved map gives that key. */
  lemma NeverMisbound(orig: Files, files: Files, there: map<Path, Path>, back: map<Path, Path>, saved: FriendMap, q: Path)
    requires Accounts(orig, files, there, back, saved) && q in files && q.name.Stable?
    ensures || (q in orig && files[q] == orig[q])
            || (back[q] in orig && back[q].name.Legacy? && back[q].dir == q.dir && files[q] == orig[back[q]]
                && back[q].name.number in saved && saved[back[q].name.number] == q.name.key
                && back[q].name.device == q.name.device)
  {
    assert CameFrom(orig, there, back, q);
    assert SettledAt(orig, files, there, back, saved, back[q]);
  }

  /** No two files ever share a place. */
  lemma NothingOverwritten(orig: Files, files: Files, there: map<Path, Path>, back: map<Path, Path>, saved: FriendMap,
                           p: Path, q: Path)
    requires Accounts(orig, files, there, back, saved) && p in orig && q in orig && Data(p) && Data(q) && p != q
    ensures p in there && q in there && there[p] != there[q]
  {
    assert SettledAt(orig, files, there, back, saved, p) && SettledAt(orig, files, there, back, saved, q);
  }
}

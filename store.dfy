/** The install root of zyngInstaller.py as a value: the `<app>-<version>`
    directories, the `<app>-current` symlink and the `archives/` directory,
    with the transitions `atomic_move_into_place`, `clean_old_archives`,
    `rollback` and `uninstall` make on it. The clock's timestamp string
    (`time.strftime("%Y%m%d%H%M%S")`), the current time and the order in
    which the OS lists `archives/` are parameters. */
module VersionStore {
  import opened Wrappers
  import opened Text
  import opened Tree

  /** Where a symlink points: a directory of the install root or of `archives/`. */
  datatype Loc = InRoot(name: string) | InArchives(name: string)

  /** The install root: its directories by name, where the app's `current`
      symlink points (if it exists), and the entries of `archives/`. */
  datatype Root = Root(dirs: map<string, Dir>, current: Option<Loc>, archives: map<string, Dir>)

  datatype StoreError =
    | DestinationExists(path: string)
    | NoArchives
    | InvalidSelection

  function VersionedName(app: string, version: string): string {
    app + "-" + version
  }

  predicate Resolves(r: Root, loc: Loc) {
    match loc
    case InRoot(n) => n in r.dirs
    case InArchives(n) => n in r.archives
  }

  /** `current.exists()`: the symlink is there and its target exists. */
  predicate CurrentExists(r: Root) {
    r.current.Some? && Resolves(r, r.current.value)
  }

  /** `d` is found at `name` in `m`: there itself, or nested under `base`. */
  predicate Holds(m: map<string, Dir>, name: string, base: string, d: Dir) {
    name in m && (m[name] == d || (base in m[name].entries && m[name].entries[base] == Sub(d)))
  }

  /** Every entry of `before` is still in `after`, unchanged. */
  predicate Extends(before: Dir, after: Dir) {
    forall e :: e in before.entries ==> e in after.entries && after.entries[e] == before.entries[e]
  }

  /** `shutil.move(src, parent / name)` for a directory `d` whose own name is
      `base`: onto a fresh `name` it is a rename; onto an existing directory
      it moves `d` inside it (the directory's mtime becomes `now`), and
      shutil raises when that directory already holds `base`. */
  function MoveInto(m: map<string, Dir>, name: string, base: string, d: Dir, now: int): (r: Result<map<string, Dir>, StoreError>)
    ensures r.Err? <==> name in m && base in m[name].entries
    ensures r.Ok? ==> r.value.Keys == m.Keys + {name} && Holds(r.value, name, base, d)
    ensures r.Ok? ==> forall k :: k in m && k != name ==> r.value[k] == m[k]
    ensures r.Ok? && name in m ==> Extends(m[name], r.value[name])
    ensures name !in m ==> r == Ok(m[name := d])
  {
    if name !in m then Ok(m[name := d])
    else if base in m[name].entries then Err(DestinationExists(name + "/" + base))
    else Ok(m[name := Dir(m[name].entries[base := Sub(d)], now)])
  }

  /** `atomic_move_into_place`: an existing `<app>-<version>` is moved to
      `archives/<app>-<version>-<ts>` rather than deleted, the source tree is
      moved to `<app>-<version>`, and `current` is replaced by a link to it.
      The only failure is shutil refusing the archival move, before anything
      has changed. */
  function Deploy(r: Root, app: string, version: string, src: Dir, ts: string, now: int): (r': Result<Root, StoreError>)
    ensures r'.Ok? ==> r'.value.current == Some(InRoot(VersionedName(app, version)))
    ensures r'.Ok? ==> r'.value.dirs == r.dirs[VersionedName(app, version) := src]
    ensures r'.Ok? ==> CurrentExists(r'.value)
    ensures VersionedName(app, version) !in r.dirs ==> r'.Ok? && r'.value.archives == r.archives
    ensures r'.Ok? && VersionedName(app, version) in r.dirs ==>
      Holds(r'.value.archives, VersionedName(app, version) + "-" + ts, VersionedName(app, version), r.dirs[VersionedName(app, version)])
    ensures r'.Ok? ==> forall k :: k in r.archives ==> k in r'.value.archives && Extends(r.archives[k], r'.value.archives[k])
    ensures r'.Err? ==> VersionedName(app, version) in r.dirs
    ensures VersionedName(app, version) in r.dirs && VersionedName(app, version) + "-" + ts !in r.archives ==>
      r'.Ok? && r'.value.archives == r.archives[VersionedName(app, version) + "-" + ts := r.dirs[VersionedName(app, version)]]
  {
    var v := VersionedName(app, version);
    var archived := if v in r.dirs then MoveInto(r.archives, v + "-" + ts, v, r.dirs[v], now) else Ok(r.archives);
    match archived
    case Err(e) => Err(e)
    case Ok(a) => Ok(Root(r.dirs[v := src], Some(InRoot(v)), a))
  }

  /** An archive entry as `clean_old_archives` and `rollback` see it. */
  datatype Entry = Entry(name: string, mtime: int)

  /** The glob `<app>-*` (the app name taken literally): the name is the app
      name, a dash, and any rest. */
  predicate Matches(app: string, name: string)
    ensures Matches(app, name) <==> |app| < |name| && name == app + "-" + name[|app| + 1..]
  {
    StartsWith(name, app + "-")
  }

  /** `listing` is an order in which the OS may list the directory `m`. */
  predicate IsListing(listing: seq<string>, m: map<string, Dir>) {
    && (forall i, j :: 0 <= i < j < |listing| ==> listing[i] != listing[j])
    && (forall n :: n in listing ==> n in m)
    && (forall n :: n in m ==> n in listing)
  }

  predicate DistinctNames(es: seq<Entry>) {
    forall i, j :: 0 <= i < j < |es| ==> es[i].name != es[j].name
  }

  function Names(es: seq<Entry>): set<string> {
    set e | e in es :: e.name
  }

  lemma NamesAppend(es: seq<Entry>, e: Entry)
    ensures Names(es + [e]) == Names(es) + {e.name}
  {
    assert forall x :: x in es + [e] <==> x in es || x == e;
  }

  /** `archives_dir.glob(f"{app}-*")`: the matching entries in listing order. */
  function Globbed(listing: seq<string>, archives: map<string, Dir>, app: string): (es: seq<Entry>)
    requires forall n :: n in listing ==> n in archives
    ensures forall e :: e in es ==> e.name in listing
    ensures forall e :: e in es ==> e.name in archives && Matches(app, e.name) && e.mtime == archives[e.name].mtime
    ensures forall n :: n in listing && Matches(app, n) ==> Entry(n, archives[n].mtime) in es
    ensures (forall i, j :: 0 <= i < j < |listing| ==> listing[i] != listing[j]) ==> DistinctNames(es)
  {
    if listing == [] then []
    else
      var rest := Globbed(listing[1..], archives, app);
      assert forall n :: n in listing[1..] ==> n in listing;
      assert (forall i, j :: 0 <= i < j < |listing| ==> listing[i] != listing[j]) ==> listing[0] !in listing[1..];
      if Matches(app, listing[0]) then [Entry(listing[0], archives[listing[0]].mtime)] + rest else rest
  }

  predicate SortedNewestFirst(es: seq<Entry>) {
    forall i, j :: 0 <= i < j < |es| ==> es[i].mtime >= es[j].mtime
  }

  /** Places `e` before the first entry that is not newer than it. */
  function InsertNewestFirst(e: Entry, s: seq<Entry>): (r: seq<Entry>)
    ensures |r| == |s| + 1
  {
    if s == [] || s[0].mtime <= e.mtime then [e] + s
    else [s[0]] + InsertNewestFirst(e, s[1..])
  }

  /** Inserting adds `e` and loses nothing. */
  lemma {:induction false} InsertIsPermutation(e: Entry, s: seq<Entry>)
    ensures multiset(InsertNewestFirst(e, s)) == multiset(s) + multiset{e}
  {
    if s != [] && s[0].mtime > e.mtime {
      InsertIsPermutation(e, s[1..]);
      assert s == [s[0]] + s[1..];
    }
  }

  /** The inserted list holds `e` and the entries of `s`, and nothing else. */
  lemma InsertMembers(e: Entry, s: seq<Entry>)
    ensures forall x :: x in InsertNewestFirst(e, s) <==> x in s || x == e
  {
    InsertIsPermutation(e, s);
    forall x
      ensures x in InsertNewestFirst(e, s) <==> x in s || x == e
    {
      assert x in InsertNewestFirst(e, s) <==> x in multiset(InsertNewestFirst(e, s));
      assert x in s <==> x in multiset(s);
    }
  }

  /** Inserting into a newest-first list keeps it newest first. */
  lemma {:induction false} InsertKeepsOrder(e: Entry, s: seq<Entry>)
    requires SortedNewestFirst(s)
    ensures SortedNewestFirst(InsertNewestFirst(e, s))
  {
    if s != [] && s[0].mtime > e.mtime {
      var rest := InsertNewestFirst(e, s[1..]);
      InsertKeepsOrder(e, s[1..]);
      InsertMembers(e, s[1..]);
      assert forall k :: 0 <= k < |rest| ==> rest[k] in rest;
    }
  }

  lemma {:induction false} InsertKeepsNamesDistinct(e: Entry, s: seq<Entry>)
    requires DistinctNames(s) && e.name !in Names(s)
    ensures DistinctNames(InsertNewestFirst(e, s))
  {
    if s != [] && s[0].mtime > e.mtime {
      assert s == [s[0]] + s[1..];
      assert Names(s[1..]) <= Names(s);
      InsertKeepsNamesDistinct(e, s[1..]);
      InsertMembers(e, s[1..]);
      forall x | x in s[1..]
        ensures x.name != s[0].name
      {
        var m :| 0 <= m < |s[1..]| && s[1..][m] == x;
        assert s[m + 1] == x;
      }
      var rest := InsertNewestFirst(e, s[1..]);
      assert forall k :: 0 <= k < |rest| ==> rest[k] in rest;
      assert InsertNewestFirst(e, s) == [s[0]] + rest;
    }
  }

  lemma SameMembers(a: seq<Entry>, b: seq<Entry>)
    requires multiset(a) == multiset(b)
    ensures forall x :: x in a <==> x in b
  {
    forall x
      ensures x in a <==> x in b
    {
      assert x in a <==> x in multiset(a);
      assert x in b <==> x in multiset(b);
    }
  }

  /** `sorted(entries, key=getmtime, reverse=True)`: newest first, keeping
      the listing order among equal mtimes. */
  function SortNewestFirst(es: seq<Entry>): (r: seq<Entry>)
    ensures SortedNewestFirst(r)
    ensures multiset(r) == multiset(es)
    ensures forall x :: x in r <==> x in es
  {
    if es == [] then []
    else
      var rest := SortNewestFirst(es[1..]);
      assert es == [es[0]] + es[1..];
      InsertKeepsOrder(es[0], rest);
      InsertIsPermutation(es[0], rest);
      SameMembers(InsertNewestFirst(es[0], rest), es);
      InsertNewestFirst(es[0], rest)
  }

  /** The entries of `s` whose mtime is `t`, in order. */
  function WithMtime(s: seq<Entry>, t: int): seq<Entry> {
    if s == [] then []
    else (if s[0].mtime == t then [s[0]] else []) + WithMtime(s[1..], t)
  }

  lemma WithMtimeCons(x: Entry, s: seq<Entry>, t: int)
    ensures WithMtime([x] + s, t) == (if x.mtime == t then [x] else []) + WithMtime(s, t)
  {
    assert ([x] + s)[0] == x && ([x] + s)[1..] == s;
  }

  /** Insertion puts `e` ahead of every entry as old as it, and after every
      newer one. */
  lemma {:induction false} InsertWithMtime(e: Entry, s: seq<Entry>, t: int)
    ensures WithMtime(InsertNewestFirst(e, s), t) ==
      (if e.mtime == t then [e] else []) + WithMtime(s, t)
  {
    if s == [] || s[0].mtime <= e.mtime {
      assert InsertNewestFirst(e, s) == [e] + s;
      WithMtimeCons(e, s, t);
    } else {
      var rest := InsertNewestFirst(e, s[1..]);
      assert InsertNewestFirst(e, s) == [s[0]] + rest;
      assert s == [s[0]] + s[1..];
      WithMtimeCons(s[0], rest, t);
      WithMtimeCons(s[0], s[1..], t);
      InsertWithMtime(e, s[1..], t);
    }
  }

  /** `sorted(..., reverse=True)` is stable: entries with equal mtimes keep
      the order they had in the listing. */
  lemma {:induction false} SortIsStable(es: seq<Entry>, t: int)
    ensures WithMtime(SortNewestFirst(es), t) == WithMtime(es, t)
  {
    if es != [] {
      SortIsStable(es[1..], t);
      InsertWithMtime(es[0], SortNewestFirst(es[1..]), t);
    }
  }

  lemma {:induction false} SortKeepsNamesDistinct(es: seq<Entry>)
    requires DistinctNames(es)
    ensures DistinctNames(SortNewestFirst(es))
  {
    if es != [] {
      assert es == [es[0]] + es[1..];
      SortKeepsNamesDistinct(es[1..]);
      assert es[0].name !in Names(SortNewestFirst(es[1..]));
      InsertKeepsNamesDistinct(es[0], SortNewestFirst(es[1..]));
    }
  }

  /** The archive list `clean_old_archives` and `rollback` work from. */
  function ArchiveList(r: Root, app: string, listing: seq<string>): (es: seq<Entry>)
    requires IsListing(listing, r.archives)
    ensures SortedNewestFirst(es)
    ensures forall e :: e in es <==> e.name in r.archives && Matches(app, e.name) && e.mtime == r.archives[e.name].mtime
  {
    SortNewestFirst(Globbed(listing, r.archives, app))
  }

  /** Python's `s[k:]`, negative `k` counting from the end. */
  function SliceFrom<T>(s: seq<T>, k: int): (r: seq<T>)
    ensures k >= 0 ==> r == if k <= |s| then s[k..] else []
    ensures k < 0 ==> r == if -k <= |s| then s[|s| + k..] else s
  {
    if k >= 0 then (if k <= |s| then s[k..] else [])
    else if -k <= |s| then s[|s| + k..] else s
  }

  /** The entries `clean_old_archives(keep)` removes: a tail of the list,
      everything past the first `keep` or, for a negative `keep`, the last
      `-keep` entries. */
  function PruneVictims(sorted: seq<Entry>, keep: int): (v: seq<Entry>)
    ensures |v| <= |sorted| && v == sorted[|sorted| - |v|..]
    ensures keep >= 0 ==> |v| == if |sorted| <= keep then 0 else |sorted| - keep
    ensures keep < 0 ==> |v| == if -keep <= |sorted| then -keep else |sorted|
  {
    if |sorted| <= keep then [] else SliceFrom(sorted, keep)
  }

  /** `clean_old_archives(keep)`: every listed entry past the first `keep`
      of the newest-first list is removed; nothing else changes. */
  function Prune(r: Root, app: string, listing: seq<string>, keep: int): (r': Root)
    requires IsListing(listing, r.archives)
    ensures r'.dirs == r.dirs && r'.current == r.current
    ensures r'.archives.Keys <= r.archives.Keys
  {
    Root(r.dirs, r.current, r.archives - Names(PruneVictims(ArchiveList(r, app, listing), keep)))
  }

  /** The first step of `rollback`: when `current` is a symlink whose target
      exists, that target is moved to `archives/<name>-failed-<ts>`. */
  function RetireCurrent(r: Root, ts: string, now: int): (r': Result<Root, StoreError>)
    ensures !CurrentExists(r) ==> r' == Ok(r)
    ensures r'.Ok? ==> r'.value.current == r.current
    ensures CurrentExists(r) ==>
      var n := r.current.value.name;
      var failed := n + "-failed-" + ts;
      var kept := if r.current.value.InRoot? then r.archives else r.archives - {n};
      && (r'.Err? <==> failed in kept && n in kept[failed].entries)
      && (r'.Err? ==> r' == Err(DestinationExists(failed + "/" + n)))
    ensures r'.Ok? && CurrentExists(r) && r.current.value.InRoot? ==>
      var n := r.current.value.name;
      var failed := n + "-failed-" + ts;
      && r'.value.dirs == r.dirs - {n}
      && r'.value.archives.Keys == r.archives.Keys + {failed}
      && Holds(r'.value.archives, failed, n, r.dirs[n])
    ensures r'.Ok? && CurrentExists(r) && r.current.value.InArchives? ==>
      var n := r.current.value.name;
      var failed := n + "-failed-" + ts;
      && r'.value.dirs == r.dirs
      && r'.value.archives.Keys == (r.archives.Keys - {n}) + {failed}
      && n !in r'.value.archives
      && Holds(r'.value.archives, failed, n, r.archives[n])
  {
    if !CurrentExists(r) then Ok(r)
    else
      assert |r.current.value.name + "-failed-" + ts| > |r.current.value.name|;
      match r.current.value
      case InRoot(n) =>
        (match MoveInto(r.archives, n + "-failed-" + ts, n, r.dirs[n], now)
         case Err(e) => Err(e)
         case Ok(a) => Ok(Root(r.dirs - {n}, r.current, a)))
      case InArchives(n) =>
        (match MoveInto(r.archives - {n}, n + "-failed-" + ts, n, r.archives[n], now)
         case Err(e) => Err(e)
         case Ok(a) => Ok(Root(r.dirs, r.current, a)))
  }

  /** `rollback` with the user's answer `choice`: no matching archive, or an
      answer that is not an integer index into the newest-first list, aborts
      before anything moves; otherwise the current target is retired and
      `current` is pointed at the chosen entry, which itself is not moved. */
  function Rollback(r: Root, app: string, listing: seq<string>, choice: string, ts: string, now: int): (r': Result<Root, StoreError>)
    requires IsListing(listing, r.archives)
    ensures ArchiveList(r, app, listing) == [] ==> r' == Err(NoArchives)
    ensures ArchiveList(r, app, listing) != [] && ParseInt(Strip(choice)).None? ==> r' == Err(InvalidSelection)
    ensures (&& ArchiveList(r, app, listing) != [] && ParseInt(Strip(choice)).Some?
             && !(0 <= ParseInt(Strip(choice)).value < |ArchiveList(r, app, listing)|)) ==> r' == Err(InvalidSelection)
    ensures r'.Ok? ==>
      (&& ParseInt(Strip(choice)).Some?
       && 0 <= ParseInt(Strip(choice)).value < |ArchiveList(r, app, listing)|
       && r'.value.current == Some(InArchives(ArchiveList(r, app, listing)[ParseInt(Strip(choice)).value].name)))
    ensures r'.Ok? && !CurrentExists(r) ==> r'.value.dirs == r.dirs && r'.value.archives == r.archives
    ensures (&& ArchiveList(r, app, listing) != [] && ParseInt(Strip(choice)).Some?
             && 0 <= ParseInt(Strip(choice)).value < |ArchiveList(r, app, listing)|) ==>
      && (r'.Ok? <==> RetireCurrent(r, ts, now).Ok?)
      && (RetireCurrent(r, ts, now).Err? ==> r' == Err(RetireCurrent(r, ts, now).error))
    ensures r'.Ok? ==>
      r'.value == RetireCurrent(r, ts, now).value.(current := Some(InArchives(ArchiveList(r, app, listing)[ParseInt(Strip(choice)).value].name)))
  {
    var archives := ArchiveList(r, app, listing);
    if archives == [] then Err(NoArchives)
    else match ParseInt(Strip(choice))
      case None => Err(InvalidSelection)
      case Some(i) =>
        if i < 0 || i >= |archives| then Err(InvalidSelection)
        else match RetireCurrent(r, ts, now)
          case Err(e) => Err(e)
          case Ok(r1) => Ok(r1.(current := Some(InArchives(archives[i].name))))
  }

  /** `uninstall`: with `remove_all` the whole install root goes; otherwise
      only `<app>-<version>` is removed, and `current` is left as it is. */
  function Uninstall(r: Root, app: string, version: string, removeAll: bool): (r': Root)
    ensures removeAll ==> r' == Root(map[], None, map[])
    ensures !removeAll ==> r'.current == r.current && r'.archives == r.archives
    ensures !removeAll ==> r'.dirs.Keys == r.dirs.Keys - {VersionedName(app, version)}
    ensures !removeAll ==> forall k :: k in r'.dirs ==> r'.dirs[k] == r.dirs[k]
    ensures !removeAll && r.current == Some(InRoot(VersionedName(app, version))) ==> !CurrentExists(r')
  {
    if removeAll then Root(map[], None, map[])
    else Root(r.dirs - {VersionedName(app, version)}, r.current, r.archives)
  }
}

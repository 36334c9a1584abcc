/** What the install root's transitions promise, and the places where the
    code does less than a reader of its help text would expect. */
module VersionStoreProperties {
  import opened Wrappers
  import opened Text
  import opened Tree
  import opened VersionStore

  /** The directory `current` resolves to, if it resolves. */
  function Target(r: Root): (d: Option<Dir>)
    ensures d.Some? <==> CurrentExists(r)
  {
    if !CurrentExists(r) then None
    else match r.current.value
      case InRoot(n) => Some(r.dirs[n])
      case InArchives(n) => Some(r.archives[n])
  }

  /** The archive names the glob `<app>-*` matches. */
  function MatchingNames(archives: map<string, Dir>, app: string): set<string> {
    set n | n in archives && Matches(app, n)
  }

  /** How many of the newest-first entries `clean_old_archives(keep)` keeps:
      all when there are at most `keep`; else the first `keep`, or for a
      negative `keep` all but the last `-keep` (Python slicing). */
  function KeptCount(n: nat, keep: int): (k: nat)
    ensures k <= n
  {
    if n <= keep then n else if keep >= 0 then keep else if -keep <= n then n + keep else 0
  }

  lemma VictimsAreSuffix(s: seq<Entry>, keep: int)
    ensures PruneVictims(s, keep) == s[KeptCount(|s|, keep)..]
  {
  }

  lemma {:induction false} DistinctNamesCount(es: seq<Entry>)
    requires DistinctNames(es)
    ensures |Names(es)| == |es|
  {
    if es != [] {
      assert es == [es[0]] + es[1..];
      assert Names(es) == {es[0].name} + Names(es[1..]);
      assert es[0].name !in Names(es[1..]);
      DistinctNamesCount(es[1..]);
    }
  }

  /** With distinct names, a prefix and the rest of a list share no name. */
  lemma SplitNames(s: seq<Entry>, k: nat)
    requires DistinctNames(s) && k <= |s|
    ensures Names(s) == Names(s[..k]) + Names(s[k..])
    ensures Names(s[..k]) !! Names(s[k..])
    ensures DistinctNames(s[..k])
  {
    assert s == s[..k] + s[k..];
    forall n | n in Names(s[..k])
      ensures n !in Names(s[k..])
    {
      var i :| 0 <= i < k && s[i].name == n;
      assert forall j :: k <= j < |s| ==> s[j].name != s[i].name;
    }
  }

  /** The list both operations work from names every matching archive once. */
  lemma ArchiveListNamesMatches(r: Root, app: string, listing: seq<string>)
    requires IsListing(listing, r.archives)
    ensures DistinctNames(ArchiveList(r, app, listing))
    ensures Names(ArchiveList(r, app, listing)) == MatchingNames(r.archives, app)
    ensures forall e :: e in ArchiveList(r, app, listing) ==> e.name in r.archives && e.mtime == r.archives[e.name].mtime
  {
    var g := Globbed(listing, r.archives, app);
    SortKeepsNamesDistinct(g);
    forall n | n in MatchingNames(r.archives, app)
      ensures n in Names(ArchiveList(r, app, listing))
    {
      assert Entry(n, r.archives[n].mtime) in g;
    }
  }

  /** Removing the names of a suffix of a distinct list of the matching
      archives keeps exactly the names of the prefix. */
  lemma RemovingSuffixKeepsPrefixNames(archives: map<string, Dir>, app: string, s: seq<Entry>, k: nat)
    requires DistinctNames(s) && k <= |s|
    requires Names(s) == MatchingNames(archives, app)
    ensures var kept := archives - Names(s[k..]);
      && (forall n :: n in archives && Matches(app, n) ==> (n in kept <==> n in Names(s[..k])))
      && MatchingNames(kept, app) == Names(s[..k])
      && |MatchingNames(kept, app)| == k
  {
    SplitNames(s, k);
    DistinctNamesCount(s[..k]);
  }

  /** ... and when the list is newest first, every removed archive is at
      most as new as every kept one. */
  lemma RemovingSuffixKeepsNewest(archives: map<string, Dir>, app: string, s: seq<Entry>, k: nat)
    requires DistinctNames(s) && k <= |s| && SortedNewestFirst(s)
    requires Names(s) == MatchingNames(archives, app)
    requires forall e :: e in s ==> e.name in archives && e.mtime == archives[e.name].mtime
    ensures var kept := archives - Names(s[k..]);
      forall a, b :: a in kept && Matches(app, a) && b in archives && Matches(app, b) && b !in kept ==>
        archives[b].mtime <= archives[a].mtime
  {
    var kept := archives - Names(s[k..]);
    SplitNames(s, k);
    forall a, b | a in kept && Matches(app, a) && b in archives && Matches(app, b) && b !in kept
      ensures archives[b].mtime <= archives[a].mtime
    {
      assert a in Names(s[..k]);
      var i :| 0 <= i < k && s[i].name == a;
      var j :| k <= j < |s| && s[j].name == b;
      assert s[j] in s && s[i] in s;
    }
  }

  /** `clean_old_archives(keep)` keeps exactly the newest `KeptCount` of the
      matching archives, removes the others, and leaves every entry the glob
      does not match, the version directories and `current` alone. */
  lemma {:induction false} PruneKeepsNewest(r: Root, app: string, listing: seq<string>, keep: int)
    requires IsListing(listing, r.archives)
    ensures var s := ArchiveList(r, app, listing);
            var r' := Prune(r, app, listing, keep);
            var k := KeptCount(|MatchingNames(r.archives, app)|, keep);
      && |s| == |MatchingNames(r.archives, app)|
      && r'.dirs == r.dirs && r'.current == r.current
      && (forall n :: n in r'.archives ==> n in r.archives && r'.archives[n] == r.archives[n])
      && (forall n :: n in r.archives && !Matches(app, n) ==> n in r'.archives)
      && (forall n :: n in r.archives && Matches(app, n) ==> (n in r'.archives <==> n in Names(s[..k])))
      && |MatchingNames(r'.archives, app)| == k
      && (forall a, b :: a in r'.archives && Matches(app, a) && b in r.archives && Matches(app, b) && b !in r'.archives ==>
            r.archives[b].mtime <= r.archives[a].mtime)
  {
    var s := ArchiveList(r, app, listing);
    ArchiveListNamesMatches(r, app, listing);
    DistinctNamesCount(s);
    var k := KeptCount(|s|, keep);
    VictimsAreSuffix(s, keep);
    assert Prune(r, app, listing, keep).archives == r.archives - Names(s[k..]);
    RemovingSuffixKeepsPrefixNames(r.archives, app, s, k);
    RemovingSuffixKeepsNewest(r.archives, app, s, k);
  }

  /** With a non-negative `keep` that is the `keep` newest, or all of them. */
  lemma PruneKeepsAtMostKeep(r: Root, app: string, listing: seq<string>, keep: nat)
    requires IsListing(listing, r.archives)
    ensures var n := |MatchingNames(r.archives, app)|;
      |MatchingNames(Prune(r, app, listing, keep).archives, app)| == if n <= keep then n else keep
  {
    PruneKeepsNewest(r, app, listing, keep);
  }

  /** The two-archive root of `PruneCanRemoveCurrentTarget`: `current`
      points at the older archive. */
  function RolledBackRoot(): Root {
    Root(map[], Some(InArchives("z-1")), map["z-1" := Dir(map[], 1), "z-2" := Dir(map[], 2)])
  }

  lemma RolledBackRootGlob()
    ensures IsListing(["z-1", "z-2"], RolledBackRoot().archives)
    ensures Globbed(["z-1", "z-2"], RolledBackRoot().archives, "z") == [Entry("z-1", 1), Entry("z-2", 2)]
  {
    var r := RolledBackRoot();
    var listing := ["z-1", "z-2"];
    assert Matches("z", "z-1") && Matches("z", "z-2");
    assert listing[1..] == ["z-2"];
    assert Globbed(["z-2"], r.archives, "z") == [Entry("z-2", 2)];
  }

  lemma RolledBackRootArchiveList()
    ensures IsListing(["z-1", "z-2"], RolledBackRoot().archives)
    ensures ArchiveList(RolledBackRoot(), "z", ["z-1", "z-2"]) == [Entry("z-2", 2), Entry("z-1", 1)]
  {
    RolledBackRootGlob();
    TwoArchivesSorted();
  }

  lemma TwoArchivesSorted()
    ensures SortNewestFirst([Entry("z-1", 1), Entry("z-2", 2)]) == [Entry("z-2", 2), Entry("z-1", 1)]
  {
    var es := [Entry("z-1", 1), Entry("z-2", 2)];
    assert es[1..] == [Entry("z-2", 2)];
    assert SortNewestFirst([Entry("z-2", 2)]) == [Entry("z-2", 2)];
    assert InsertNewestFirst(Entry("z-1", 1), []) == [Entry("z-1", 1)];
    assert InsertNewestFirst(Entry("z-1", 1), [Entry("z-2", 2)]) == [Entry("z-2", 2), Entry("z-1", 1)];
  }

  /** Pruning looks only at mtimes: it can delete the archive `current`
      points at after a rollback, leaving the link dangling. */
  lemma PruneCanRemoveCurrentTarget()
    ensures var r := RolledBackRoot();
      && IsListing(["z-1", "z-2"], r.archives)
      && CurrentExists(r)
      && !CurrentExists(Prune(r, "z", ["z-1", "z-2"], 1))
  {
    var r := RolledBackRoot();
    RolledBackRootArchiveList();
    var victims := PruneVictims([Entry("z-2", 2), Entry("z-1", 1)], 1);
    assert victims == [Entry("z-1", 1)];
    assert "z-1" in Names(victims);
    assert Prune(r, "z", ["z-1", "z-2"], 1).archives == r.archives - Names(victims);
  }

  /** Retiring the current target deletes nothing: it is kept under
      `archives/<name>-failed-<ts>` and every other directory stays put. */
  lemma RetireCurrentKeepsEverything(r: Root, ts: string, now: int)
    requires RetireCurrent(r, ts, now).Ok?
    ensures var r' := RetireCurrent(r, ts, now).value;
      && (forall k :: k in r.dirs ==>
            (k in r'.dirs && r'.dirs[k] == r.dirs[k]) ||
            (r.current == Some(InRoot(k)) && Holds(r'.archives, k + "-failed-" + ts, k, r.dirs[k])))
      && (forall k :: k in r.archives ==>
            (k in r'.archives && Extends(r.archives[k], r'.archives[k])) ||
            (r.current == Some(InArchives(k)) && Holds(r'.archives, k + "-failed-" + ts, k, r.archives[k])))
  {
    if CurrentExists(r) {
      match r.current.value
      case InRoot(n) =>
        var a := MoveInto(r.archives, n + "-failed-" + ts, n, r.dirs[n], now);
        assert RetireCurrent(r, ts, now).value == Root(r.dirs - {n}, r.current, a.value);
      case InArchives(n) =>
        var a := MoveInto(r.archives - {n}, n + "-failed-" + ts, n, r.archives[n], now);
        assert RetireCurrent(r, ts, now).value == Root(r.dirs, r.current, a.value);
    }
  }

  /** `rollback` never deletes: whatever `current` resolved to is kept under
      `archives/<name>-failed-<ts>`, and every other directory stays put. */
  lemma RollbackNeverDeletes(r: Root, app: string, listing: seq<string>, choice: string, ts: string, now: int)
    requires IsListing(listing, r.archives)
    requires Rollback(r, app, listing, choice, ts, now).Ok?
    ensures var r' := Rollback(r, app, listing, choice, ts, now).value;
      && (forall k :: k in r.dirs ==>
            (k in r'.dirs && r'.dirs[k] == r.dirs[k]) ||
            (r.current == Some(InRoot(k)) && Holds(r'.archives, k + "-failed-" + ts, k, r.dirs[k])))
      && (forall k :: k in r.archives ==>
            (k in r'.archives && Extends(r.archives[k], r'.archives[k])) ||
            (r.current == Some(InArchives(k)) && Holds(r'.archives, k + "-failed-" + ts, k, r.archives[k])))
  {
    RetireCurrentKeepsEverything(r, ts, now);
    var r1 := RetireCurrent(r, ts, now).value;
    var r' := Rollback(r, app, listing, choice, ts, now).value;
    assert r'.dirs == r1.dirs && r'.archives == r1.archives;
  }

  lemma FailedNameIsNew(n: string, ts: string)
    ensures n + "-failed-" + ts != n
  {
    assert |n + "-failed-" + ts| > |n|;
  }

  /** Choosing the archive `current` already points at retires it to
      `<name>-failed-<ts>` and then links `current` to the old name, which
      no longer exists. */
  lemma RollbackToCurrentTargetDangles(r: Root, app: string, listing: seq<string>, choice: string, ts: string, now: int, n: string)
    requires IsListing(listing, r.archives)
    requires r.current == Some(InArchives(n)) && n in r.archives
    requires Rollback(r, app, listing, choice, ts, now).Ok?
    requires Rollback(r, app, listing, choice, ts, now).value.current == r.current
    ensures !CurrentExists(Rollback(r, app, listing, choice, ts, now).value)
  {
    FailedNameIsNew(n, ts);
    var a := MoveInto(r.archives - {n}, n + "-failed-" + ts, n, r.archives[n], now);
    assert RetireCurrent(r, ts, now) == Ok(Root(r.dirs, r.current, a.value));
    assert n !in a.value;
  }

  predicate AllDigits(s: string) {
    forall i :: 0 <= i < |s| ==> IsDigit(s[i])
  }

  lemma ArchiveNamesDiffer(v: string, ts: string, ts': string)
    requires AllDigits(ts)
    ensures v + "-" + ts != v + "-failed-" + ts'
  {
    var a := v + "-" + ts;
    var b := v + "-failed-" + ts';
    assert b[|v| + 1] == 'f';
    if |ts| > 0 {
      assert a[|v| + 1] == ts[0];
    }
  }

  /** Re-installing the installed version and rolling back to the archive
      that made makes `current` resolve to the tree it resolved to before. */
  lemma {:induction false} ReinstallThenRollbackRestores(r: Root, app: string, version: string, src: Dir, ts: string, now: int,
                                                         listing: seq<string>, choice: string, ts': string, now': int)
    requires VersionedName(app, version) in r.dirs && r.current == Some(InRoot(VersionedName(app, version)))
    requires VersionedName(app, version) + "-" + ts !in r.archives && AllDigits(ts)
    requires Deploy(r, app, version, src, ts, now).Ok?
    requires IsListing(listing, Deploy(r, app, version, src, ts, now).value.archives)
    requires Rollback(Deploy(r, app, version, src, ts, now).value, app, listing, choice, ts', now').Ok?
    requires Rollback(Deploy(r, app, version, src, ts, now).value, app, listing, choice, ts', now').value.current ==
             Some(InArchives(VersionedName(app, version) + "-" + ts))
    ensures Target(r) == Some(r.dirs[VersionedName(app, version)])
    ensures Target(Rollback(Deploy(r, app, version, src, ts, now).value, app, listing, choice, ts', now').value) ==
            Target(r)
  {
    var v := VersionedName(app, version);
    var r1 := Deploy(r, app, version, src, ts, now).value;
    assert r1.archives[v + "-" + ts] == r.dirs[v];
    assert r1.current == Some(InRoot(v)) && v in r1.dirs;
    ArchiveNamesDiffer(v, ts, ts');
    var a := MoveInto(r1.archives, v + "-failed-" + ts', v, r1.dirs[v], now');
    assert RetireCurrent(r1, ts', now') == Ok(Root(r1.dirs - {v}, r1.current, a.value));
    assert a.value[v + "-" + ts] == r.dirs[v];
  }

  /** Installing a second, different version archives nothing, so a
      following `rollback` finds nothing to return to: the code keeps older
      versions side by side, not under `archives/`. */
  lemma UpgradeLeavesNothingToRollBack(app: string, a: string, b: string, srcA: Dir, srcB: Dir,
                                       ts: string, now: int, choice: string, ts': string, now': int)
    requires a != b
    ensures var r0 := Root(map[], None, map[]);
            var r1 := Deploy(r0, app, a, srcA, ts, now);
      && r1.Ok?
      && var r2 := Deploy(r1.value, app, b, srcB, ts, now);
      && r2.Ok?
      && r2.value.archives == map[]
      && IsListing([], r2.value.archives)
      && Rollback(r2.value, app, [], choice, ts', now') == Err(NoArchives)
  {
    var r0 := Root(map[], None, map[]);
    var r1 := Deploy(r0, app, a, srcA, ts, now).value;
    assert r1.dirs.Keys == {VersionedName(app, a)};
    assert VersionedName(app, b)[|app| + 1..] == b;
    assert VersionedName(app, a)[|app| + 1..] == a;
    var r2 := Deploy(r1, app, b, srcB, ts, now).value;
    assert r2.archives == map[];
    assert Globbed([], r2.archives, app) == [];
  }
}

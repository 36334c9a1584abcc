/** The `Installer` object of zyngInstaller.py as far as it changes the
    install root: its methods update the version directories, the `current`
    link and `archives/` step by step, and each is proved to make exactly
    the transition the `VersionStore` function of the same name describes. */
module InstallerObject {
  import opened Wrappers
  import opened Text
  import opened Tree
  import opened PyValue
  import opened SourcePrep
  import opened VersionStore

  /** Why `install` stopped: preparing the source or placing it failed. */
  datatype InstallError = Prepare(prep: PrepError) | Place(store: StoreError)

  /** One order in which the OS may list the directory `m`; which one is
      left open. */
  method ListDirectory(m: map<string, Dir>) returns (listing: seq<string>)
    ensures IsListing(listing, m)
  {
    listing := [];
    var remaining := m.Keys;
    while remaining != {}
      invariant remaining <= m.Keys
      invariant forall n :: n in listing ==> n in m && n !in remaining
      invariant forall n :: n in m ==> n in listing || n in remaining
      invariant forall i, j :: 0 <= i < j < |listing| ==> listing[i] != listing[j]
      decreases remaining
    {
      var n :| n in remaining;
      listing := listing + [n];
      remaining := remaining - {n};
    }
  }

  class Installer {
    const app: string
    const version: string
    var dirs: map<string, Dir>
    var current: Option<Loc>
    var archives: map<string, Dir>

    /** The install root this object has in hand. */
    function State(): Root
      reads this
    {
      Root(dirs, current, archives)
    }

    constructor (app: string, version: string, root: Root)
      ensures this.app == app && this.version == version
      ensures State() == root
    {
      this.app := app;
      this.version := version;
      dirs := root.dirs;
      current := root.current;
      archives := root.archives;
    }

    /** `atomic_move_into_place` with the prepared tree `src`: on success
        the new state is `Deploy`'s; when shutil refuses the archival move
        nothing has changed. */
    method AtomicMoveIntoPlace(src: Dir, ts: string, now: int) returns (res: Result<(), StoreError>)
      modifies this
      ensures Deploy(old(State()), app, version, src, ts, now).Ok? ==>
        res.Ok? && State() == Deploy(old(State()), app, version, src, ts, now).value
      ensures Deploy(old(State()), app, version, src, ts, now).Err? ==>
        res == Err(Deploy(old(State()), app, version, src, ts, now).error) && State() == old(State())
    {
      var v := VersionedName(app, version);
      if v in dirs {
        var moved := MoveInto(archives, v + "-" + ts, v, dirs[v], now);
        if moved.Err? {
          return Err(moved.error);
        }
        archives := moved.value;
      }
      dirs := dirs[v := src];
      current := Some(InRoot(v));
      res := Ok(());
    }

    /** `clean_old_archives(keep)`: lists `archives/`, and when there are
        more matching entries than `keep` removes the victims; returns the
        listing it worked from. */
    method CleanOldArchives(keep: int) returns (listing: seq<string>)
      modifies this
      ensures IsListing(listing, old(archives))
      ensures State() == Prune(old(State()), app, listing, keep)
    {
      listing := ListDirectory(archives);
      var entries := ArchiveList(State(), app, listing);
      if |entries| <= keep {
        assert PruneVictims(entries, keep) == [];
        return;
      }
      RemoveArchives(SliceFrom(entries, keep));
    }

    /** The `shutil.rmtree` loop over the victims, one entry at a time. */
    method RemoveArchives(victims: seq<Entry>)
      modifies this
      ensures dirs == old(dirs) && current == old(current)
      ensures archives == old(archives) - Names(victims)
    {
      var i := 0;
      while i < |victims|
        invariant 0 <= i <= |victims|
        invariant dirs == old(dirs) && current == old(current)
        invariant archives == old(archives) - Names(victims[..i])
      {
        NamesAppend(victims[..i], victims[i]);
        assert victims[..i + 1] == victims[..i] + [victims[i]];
        archives := archives - {victims[i].name};
        i := i + 1;
      }
      assert victims[..i] == victims;
    }

    /** The first step of `rollback`: whatever `current` points at is moved
        into `archives/<name>-failed-<ts>`, or nothing happens when the link
        is missing or dangling. */
    method RetireCurrentTarget(ts: string, now: int) returns (res: Result<(), StoreError>)
      modifies this
      ensures RetireCurrent(old(State()), ts, now).Ok? ==>
        res.Ok? && State() == RetireCurrent(old(State()), ts, now).value
      ensures RetireCurrent(old(State()), ts, now).Err? ==>
        res == Err(RetireCurrent(old(State()), ts, now).error) && State() == old(State())
    {
      res := Ok(());
      if CurrentExists(State()) {
        match current.value
        case InRoot(n) =>
          var moved := MoveInto(archives, n + "-failed-" + ts, n, dirs[n], now);
          if moved.Err? {
            return Err(moved.error);
          }
          dirs := dirs - {n};
          archives := moved.value;
        case InArchives(n) =>
          var moved := MoveInto(archives - {n}, n + "-failed-" + ts, n, archives[n], now);
          if moved.Err? {
            return Err(moved.error);
          }
          archives := moved.value;
      }
    }

    /** `rollback` with the user's answer `choice`: returns the listing of
        `archives/` it worked from; on an error nothing has changed. */
    method Rollback(choice: string, ts: string, now: int) returns (listing: seq<string>, res: Result<(), StoreError>)
      modifies this
      ensures IsListing(listing, old(archives))
      ensures VersionStore.Rollback(old(State()), app, listing, choice, ts, now).Ok? ==>
        res.Ok? && State() == VersionStore.Rollback(old(State()), app, listing, choice, ts, now).value
      ensures VersionStore.Rollback(old(State()), app, listing, choice, ts, now).Err? ==>
        res == Err(VersionStore.Rollback(old(State()), app, listing, choice, ts, now).error) && State() == old(State())
    {
      listing := ListDirectory(archives);
      var entries := ArchiveList(State(), app, listing);
      if entries == [] {
        return listing, Err(NoArchives);
      }
      var i := ParseInt(Strip(choice));
      if i.None? || i.value < 0 || i.value >= |entries| {
        return listing, Err(InvalidSelection);
      }
      var target := entries[i.value].name;
      var retired := RetireCurrentTarget(ts, now);
      if retired.Err? {
        return listing, retired;
      }
      current := Some(InArchives(target));
      res := Ok(());
    }

    /** `uninstall(remove_all)`. */
    method Uninstall(removeAll: bool)
      modifies this
      ensures State() == VersionStore.Uninstall(old(State()), app, version, removeAll)
    {
      if removeAll {
        dirs := map[];
        current := None;
        archives := map[];
      } else {
        dirs := dirs - {VersionedName(app, version)};
      }
    }

    /** `install`: prepare the source, move it into place, then prune when
        `--auto-clean-archives` is given. A failure while preparing leaves
        the install root as it was, and so does a failed move; the pruning
        runs on the state after the move and cannot touch the new version. */
    method Install(source: Value, host: Host, ts: string, now: int, autoClean: bool, keep: int)
      returns (listing: seq<string>, res: Result<Prepared, InstallError>)
      modifies this
      ensures PrepareSource(source, host).Err? ==>
        res == Err(Prepare(PrepareSource(source, host).error)) && State() == old(State())
      ensures PrepareSource(source, host).Ok? ==>
        var deployed := Deploy(old(State()), app, version, PrepareSource(source, host).value.root, ts, now);
        && (deployed.Err? ==> res == Err(Place(deployed.error)) && State() == old(State()))
        && (deployed.Ok? && !autoClean ==> res == Ok(PrepareSource(source, host).value) && State() == deployed.value)
        && (deployed.Ok? && autoClean ==>
              && res == Ok(PrepareSource(source, host).value)
              && IsListing(listing, deployed.value.archives)
              && State() == Prune(deployed.value, app, listing, keep))
      ensures res.Ok? ==> current == Some(InRoot(VersionedName(app, version))) && CurrentExists(State())
    {
      listing := [];
      var prepared := PrepareSource(source, host);
      if prepared.Err? {
        return listing, Err(Prepare(prepared.error));
      }
      var placed := AtomicMoveIntoPlace(prepared.value.root, ts, now);
      if placed.Err? {
        return listing, Err(Place(placed.error));
      }
      if autoClean {
        listing := CleanOldArchives(keep);
      }
      res := Ok(prepared.value);
    }
  }
}

/** How the installer makes sure the external programs a package needs are
    present (zyngInstaller.py, `_detect_distro_family`,
    `_install_single_app`, `ensure_required_apps`). The contents of
    `/etc/os-release`, what `shutil.which` finds, the effective user id and
    the outcome of running a package manager are parameters. */
module AppProvisioning {
  import opened Wrappers
  import opened Text
  import opened PyValue
  import InstallerConfig

  /** The value of an `os-release` assignment: whitespace, then double
      quotes, then single quotes are stripped from both ends. */
  function Unquote(v: string): (r: string)
    ensures |r| <= |v|
    ensures TrimmedOf(r, v, Whitespace + {'"', '\''})
    ensures r != [] ==> r[0] != '\'' && r[|r| - 1] != '\''
  {
    var stripped := Strip(v);
    var once := StripChars(stripped, {'"'});
    var r := StripChars(once, {'\''});
    TrimmedOfTrans(v, stripped, once, Whitespace, {'"'});
    TrimmedOfTrans(v, once, r, Whitespace + {'"'}, {'\''});
    assert Whitespace + {'"'} + {'\''} == Whitespace + {'"', '\''};
    assert |once| <= |v| && |r| <= |once|;
    assert r != [] ==> r[0] !in {'\''} && r[|r| - 1] !in {'\''};
    r
  }

  /** `k, v = t.split("=", 1)` on a line that holds `=`, with the value unquoted. */
  function SplitAssignment(t: string): (r: Option<(string, string)>)
    ensures r.Some? <==> '=' in t
    ensures r.Some? ==> '=' !in r.value.0 && StartsWith(t, r.value.0 + "=")
    ensures r.Some? ==> r.value.1 == Unquote(t[|r.value.0| + 1..])
  {
    match IndexOf(t, '=')
    case None => None
    case Some(i) =>
      var key := t[..i];
      assert |key| == i && '=' !in key;
      assert t[..i + 1] == key + "=";
      Some((key, Unquote(t[i + 1..])))
  }

  /** One line of `/etc/os-release`: blank lines and lines without `=` are
      skipped; otherwise the key is everything before the first `=` and the
      value is the rest with whitespace, then double quotes, then single
      quotes stripped from both ends. */
  function ParseLine(line: string): (r: Option<(string, string)>)
    ensures r.Some? <==> '=' in Strip(line)
    ensures r.Some? ==> '=' !in r.value.0 && StartsWith(Strip(line), r.value.0 + "=")
    ensures r.Some? ==> r.value.1 == Unquote(Strip(line)[|r.value.0| + 1..])
  {
    var t := Strip(line);
    var r := SplitAssignment(t);
    assert r.Some? ==> |r.value.0| + 1 <= |t|;
    r
  }

  /** The assignment each line makes, if any. */
  function Assignments(lines: seq<string>): (ps: seq<Option<(string, string)>>)
    ensures |ps| == |lines| && forall i :: 0 <= i < |lines| ==> ps[i] == ParseLine(lines[i])
  {
    seq(|lines|, i requires 0 <= i < |lines| => ParseLine(lines[i]))
  }

  /** A dictionary filled by the assignments in order. */
  function Collect(ps: seq<Option<(string, string)>>): map<string, string> {
    if ps == [] then map[]
    else
      var d := Collect(ps[..|ps| - 1]);
      match ps[|ps| - 1]
      case None => d
      case Some(kv) => d[kv.0 := kv.1]
  }

  /** The `data` dictionary after reading `lines` in order. */
  function OsReleaseData(lines: seq<string>): map<string, string> {
    Collect(Assignments(lines))
  }

  predicate Assigns(p: Option<(string, string)>, key: string) {
    p.Some? && p.value.0 == key
  }

  /** A key is present exactly when some line assigns it ... */
  lemma {:induction false} AssignedKeys(ps: seq<Option<(string, string)>>, key: string)
    ensures key in Collect(ps) <==> exists i :: 0 <= i < |ps| && Assigns(ps[i], key)
  {
    if ps != [] {
      var init := ps[..|ps| - 1];
      AssignedKeys(init, key);
      if key in Collect(init) {
        var i :| 0 <= i < |init| && Assigns(init[i], key);
        assert Assigns(ps[i], key);
      }
    }
  }

  /** ... and it holds the value of the last line that does. */
  lemma {:induction false} LastAssignmentWins(ps: seq<Option<(string, string)>>, key: string)
    requires key in Collect(ps)
    ensures exists i ::
      && 0 <= i < |ps| && ps[i] == Some((key, Collect(ps)[key]))
      && forall j :: i < j < |ps| ==> !Assigns(ps[j], key)
  {
    var init := ps[..|ps| - 1];
    var last := ps[|ps| - 1];
    assert Collect(ps) == match last case None => Collect(init) case Some(kv) => Collect(init)[kv.0 := kv.1];
    if Assigns(last, key) {
      assert last == Some((key, Collect(ps)[key]));
    } else {
      assert key in Collect(init) && Collect(init)[key] == Collect(ps)[key];
      LastAssignmentWins(init, key);
      var i :| 0 <= i < |init| && init[i] == Some((key, Collect(init)[key])) &&
        forall j :: i < j < |init| ==> !Assigns(init[j], key);
      assert ps[i] == init[i];
      forall j | i < j < |ps|
        ensures !Assigns(ps[j], key)
      {
        if j < |init| {
          assert ps[j] == init[j];
        }
      }
    }
  }

  /** For `/etc/os-release`: a key is in `data` exactly when a line assigns
      it, and its value is the one the last such line gives. */
  lemma OsReleaseLastLineWins(lines: seq<string>, key: string)
    ensures key in OsReleaseData(lines) <==> exists i :: 0 <= i < |lines| && Assigns(ParseLine(lines[i]), key)
    ensures key in OsReleaseData(lines) ==>
      exists i ::
        && 0 <= i < |lines| && ParseLine(lines[i]) == Some((key, OsReleaseData(lines)[key]))
        && forall j :: i < j < |lines| ==> !Assigns(ParseLine(lines[j]), key)
  {
    var ps := Assignments(lines);
    AssignedKeys(ps, key);
    if key in Collect(ps) {
      LastAssignmentWins(ps, key);
    }
  }

  /** Reading one more line applies that line's assignment, if any. */
  lemma CollectStep(lines: seq<string>, i: nat)
    requires i < |lines|
    ensures Collect(Assignments(lines)[..i + 1]) ==
      match ParseLine(lines[i])
      case None => Collect(Assignments(lines)[..i])
      case Some(kv) => Collect(Assignments(lines)[..i])[kv.0 := kv.1]
  {
    var ps := Assignments(lines)[..i + 1];
    assert ps[..|ps| - 1] == Assignments(lines)[..i];
    assert ps[|ps| - 1] == ParseLine(lines[i]);
  }

  /** The reading loop of `_detect_distro_family`. */
  method ReadOsRelease(lines: seq<string>) returns (data: map<string, string>)
    ensures data == OsReleaseData(lines)
  {
    data := map[];
    var i := 0;
    while i < |lines|
      invariant 0 <= i <= |lines|
      invariant data == Collect(Assignments(lines)[..i])
    {
      CollectStep(lines, i);
      var kv := ParseLine(lines[i]);
      if kv.Some? {
        data := data[kv.value.0 := kv.value.1];
      }
      i := i + 1;
    }
    assert Assignments(lines)[..i] == Assignments(lines);
  }

  /** The lower-cased words. */
  function LowerWords(ws: seq<string>): (ids: set<string>)
    ensures forall w :: w in ws ==> Lower(w) in ids
    ensures forall id :: id in ids ==> exists w :: w in ws && id == Lower(w)
  {
    if ws == [] then {}
    else
      var init := ws[..|ws| - 1];
      var rest := LowerWords(init);
      assert forall w :: w in ws <==> w in init || w == ws[|ws| - 1];
      rest + {Lower(ws[|ws| - 1])}
  }

  lemma LowerWordsSnoc(ws: seq<string>, w: string)
    ensures LowerWords(ws + [w]) == LowerWords(ws) + {Lower(w)}
  {
    assert (ws + [w])[..|ws|] == ws;
  }

  /** `ID` and the words of `ID_LIKE`, lower-cased. */
  function Ids(data: map<string, string>): (ids: set<string>)
    ensures "ID" in data ==> Lower(data["ID"]) in ids
    ensures "ID_LIKE" in data ==> forall w :: w in Words(data["ID_LIKE"]) ==> Lower(w) in ids
    ensures forall id :: id in ids ==>
      ("ID" in data && id == Lower(data["ID"])) || ("ID_LIKE" in data && exists w :: w in Words(data["ID_LIKE"]) && id == Lower(w))
  {
    (if "ID" in data then {Lower(data["ID"])} else {})
      + (if "ID_LIKE" in data then LowerWords(Words(data["ID_LIKE"])) else {})
  }

  const ArchIds: set<string> := {"arch", "manjaro", "endeavouros"}
  const DebianIds: set<string> := {"debian", "ubuntu", "linuxmint", "raspbian"}
  const FedoraIds: set<string> := {"fedora", "rhel", "centos", "rocky", "almalinux"}

  /** The family for a set of ids, checked in the order arch, debian, fedora. */
  function Family(ids: set<string>): (f: Option<string>)
    ensures f == Some("arch") <==> ids * ArchIds != {}
    ensures f == Some("debian") <==> ids * ArchIds == {} && ids * DebianIds != {}
    ensures f == Some("fedora") <==> ids * ArchIds == {} && ids * DebianIds == {} && ids * FedoraIds != {}
    ensures f.None? <==> ids * (ArchIds + DebianIds + FedoraIds) == {}
  {
    if ids * ArchIds != {} then Some("arch")
    else if ids * DebianIds != {} then Some("debian")
    else if ids * FedoraIds != {} then Some("fedora")
    else None
  }

  /** `_detect_distro_family` for the given `/etc/os-release` (`None` when
      the file does not exist). */
  function DistroFamily(osRelease: Option<seq<string>>): Option<string> {
    match osRelease
    case None => None
    case Some(lines) => Family(Ids(OsReleaseData(lines)))
  }

  /** The id collection of `_detect_distro_family`. */
  method CollectIds(data: map<string, string>) returns (ids: set<string>)
    ensures ids == Ids(data)
  {
    ids := {};
    if "ID" in data {
      ids := ids + {Lower(data["ID"])};
    }
    if "ID_LIKE" in data {
      var like := AddLowerWords(ids, Words(data["ID_LIKE"]));
      ids := like;
    }
  }

  /** The loop over the words of `ID_LIKE`, adding each lower-cased. */
  method AddLowerWords(ids0: set<string>, parts: seq<string>) returns (ids: set<string>)
    ensures ids == ids0 + LowerWords(parts)
  {
    ids := ids0;
    var i := 0;
    while i < |parts|
      invariant 0 <= i <= |parts|
      invariant ids == ids0 + LowerWords(parts[..i])
    {
      assert parts[..i + 1] == parts[..i] + [parts[i]];
      LowerWordsSnoc(parts[..i], parts[i]);
      ids := ids + {Lower(parts[i])};
      i := i + 1;
    }
    assert parts[..i] == parts;
  }

  /** `_detect_distro_family` as the source runs it. */
  method DetectDistroFamily(osRelease: Option<seq<string>>) returns (family: Option<string>)
    ensures family == DistroFamily(osRelease)
  {
    if osRelease.None? {
      return None;
    }
    var data := ReadOsRelease(osRelease.value);
    var ids := CollectIds(data);
    family := Family(ids);
  }

  /** What the installer can observe of the machine: what `shutil.which`
      finds before any installation, whether it runs as root, where `sudo`
      is, whether a command exits with status 0, and what `shutil.which`
      finds once a package manager has run. */
  datatype Machine = Machine(
    onPath: set<string>,
    isRoot: bool,
    sudo: Option<string>,
    succeeds: seq<string> -> bool,
    onPathAfter: set<string>)

  /** The command prefix: nothing for root, `sudo` when it is found, and
      `None` when a non-root user has no `sudo`. */
  function SudoPrefix(m: Machine): (p: Option<seq<string>>)
    ensures m.isRoot ==> p == Some([])
    ensures !m.isRoot && m.sudo.Some? && m.sudo.value != [] ==> p == Some([m.sudo.value])
    ensures !m.isRoot && (m.sudo.None? || m.sudo.value == []) ==> p.None?
  {
    if m.isRoot then Some([])
    else if m.sudo.Some? && m.sudo.value != [] then Some([m.sudo.value])
    else None
  }

  /** The package-manager command for `app` on `family`; `None` for a family
      the installer does not know. With `--yes` on a Debian family the
      command is `apt-get install -y` without the app. */
  function InstallCommand(app: string, family: string, yes: bool, prefix: seq<string>): (cmd: Option<seq<string>>)
    ensures cmd.None? <==> family !in {"arch", "debian", "fedora"}
    ensures cmd.Some? ==> |prefix| + 3 <= |cmd.value| && cmd.value[..|prefix|] == prefix
    ensures cmd.Some? && !(family == "debian" && yes) ==> cmd.value[|cmd.value| - 1] == app
    ensures family == "arch" ==> cmd.Some? && ("--noconfirm" in cmd.value[|prefix|..] <==> yes || app == "--noconfirm")
    ensures family == "fedora" ==> cmd.Some? && ("-y" in cmd.value[|prefix|..] <==> yes || app == "-y")
    ensures family == "debian" ==> cmd.Some? && cmd.value[|prefix|..|prefix| + 2] == ["apt-get", "install"]
    ensures family == "arch" ==>
      cmd == Some(prefix + (["pacman", "-S", "--needed"] + (if yes then ["--noconfirm"] else []) + [app]))
    ensures family == "debian" ==>
      cmd == Some(prefix + (["apt-get", "install"] + (if yes then ["-y"] else [app])))
    ensures family == "fedora" ==>
      cmd == Some(prefix + (["dnf", "install"] + (if yes then ["-y"] else []) + [app]))
  {
    if family == "arch" then
      var tail := ["pacman", "-S", "--needed"] + (if yes then ["--noconfirm"] else []) + [app];
      assert (prefix + tail)[|prefix|..] == tail;
      assert "--noconfirm" in tail <==> yes || app == "--noconfirm" by {
        assert |"--noconfirm"| == 11 && |"pacman"| == 6 && |"-S"| == 2 && |"--needed"| == 8;
      }
      Some(prefix + tail)
    else if family == "debian" then
      Some(prefix + (["apt-get", "install"] + (if yes then ["-y"] else [app])))
    else if family == "fedora" then
      var tail := ["dnf", "install"] + (if yes then ["-y"] else []) + [app];
      assert (prefix + tail)[|prefix|..] == tail;
      assert "-y" in tail <==> yes || app == "-y" by {
        assert |"-y"| == 2 && |"dnf"| == 3 && |"install"| == 7;
      }
      Some(prefix + tail)
    else None
  }

  /** With `--yes`, a Debian-family install names no package at all. */
  lemma DebianYesOmitsApp(app: string, prefix: seq<string>)
    requires app !in prefix && app !in ["apt-get", "install", "-y"]
    ensures InstallCommand(app, "debian", true, prefix).Some?
    ensures app !in InstallCommand(app, "debian", true, prefix).value
  {
    var cmd := InstallCommand(app, "debian", true, prefix).value;
    assert cmd == prefix + ["apt-get", "install", "-y"];
    assert forall x :: x in cmd ==> x in prefix || x in ["apt-get", "install", "-y"];
  }

  /** `_install_single_app`: true when the app is already found, or when the
      command for its family could be built, ran successfully, and the app
      is found afterwards. */
  function InstallSingleApp(app: string, family: string, yes: bool, m: Machine): (ok: bool)
    ensures ok <==>
      || app in m.onPath
      || (&& SudoPrefix(m).Some?
          && InstallCommand(app, family, yes, SudoPrefix(m).value).Some?
          && m.succeeds(InstallCommand(app, family, yes, SudoPrefix(m).value).value)
          && app in m.onPathAfter)
    ensures app !in m.onPath && family !in {"arch", "debian", "fedora"} ==> !ok
  {
    if app in m.onPath then true
    else match SudoPrefix(m)
      case None => false
      case Some(prefix) =>
        match InstallCommand(app, family, yes, prefix)
        case None => false
        case Some(cmd) => m.succeeds(cmd) && app in m.onPathAfter
  }

  /** The required apps `shutil.which` does not find, in order. */
  function MissingApps(required: seq<string>, m: Machine): (missing: seq<string>)
    ensures |missing| <= |required|
    ensures forall a :: a in missing <==> a in required && a !in m.onPath
  {
    if required == [] then []
    else
      var rest := MissingApps(required[1..], m);
      assert forall a :: a in required <==> a == required[0] || a in required[1..];
      if required[0] !in m.onPath then [required[0]] + rest else rest
  }

  /** The apps of `missing` whose installation fails, in order. */
  function FailedApps(missing: seq<string>, family: string, yes: bool, m: Machine): (failed: seq<string>)
    ensures |failed| <= |missing|
    ensures forall a :: a in failed <==> a in missing && !InstallSingleApp(a, family, yes, m)
  {
    if missing == [] then []
    else
      var init := FailedApps(missing[..|missing| - 1], family, yes, m);
      var a := missing[|missing| - 1];
      assert missing == missing[..|missing| - 1] + [a];
      if !InstallSingleApp(a, family, yes, m) then init + [a] else init
  }

  /** The missing apps keep the order of the required list. */
  lemma {:induction false} MissingAppsAppend(a: seq<string>, b: seq<string>, m: Machine)
    ensures MissingApps(a + b, m) == MissingApps(a, m) + MissingApps(b, m)
  {
    if a == [] {
      assert a + b == b;
    } else {
      assert (a + b)[0] == a[0] && (a + b)[1..] == a[1..] + b;
      MissingAppsAppend(a[1..], b, m);
    }
  }

  /** The failed apps keep the order of the missing list. */
  lemma {:induction false} FailedAppsAppend(a: seq<string>, b: seq<string>, family: string, yes: bool, m: Machine)
    ensures FailedApps(a + b, family, yes, m) == FailedApps(a, family, yes, m) + FailedApps(b, family, yes, m)
  {
    if b == [] {
      assert a + b == a;
    } else {
      var ab := a + b;
      var init, x := b[..|b| - 1], b[|b| - 1];
      assert ab[..|ab| - 1] == a + init && ab[|ab| - 1] == x;
      var tail := if !InstallSingleApp(x, family, yes, m) then [x] else [];
      assert FailedApps(ab, family, yes, m) == FailedApps(a + init, family, yes, m) + tail;
      assert FailedApps(b, family, yes, m) == FailedApps(init, family, yes, m) + tail;
      FailedAppsAppend(a, init, family, yes, m);
    }
  }

  datatype ProvisionError =
    | BadRequiredApps                 // `required_apps` is neither a string nor iterable
    | NoFamily(missing: seq<string>)  // apps are missing and the distro family is unknown
    | Unmet(failed: seq<string>)      // some missing apps could not be installed

  /** `ensure_required_apps`. */
  method EnsureRequiredApps(table: seq<(string, Value)>, osRelease: Option<seq<string>>, yes: bool, m: Machine)
    returns (res: Result<(), ProvisionError>)
    ensures InstallerConfig.RequiredApps(table).Err? ==> res == Err(BadRequiredApps)
    ensures InstallerConfig.RequiredApps(table).Ok? ==>
      var missing := MissingApps(InstallerConfig.RequiredApps(table).value, m);
      && (missing == [] ==> res == Ok(()))
      && (missing != [] && DistroFamily(osRelease).None? ==> res == Err(NoFamily(missing)))
      && (missing != [] && DistroFamily(osRelease).Some? ==>
            var failed := FailedApps(missing, DistroFamily(osRelease).value, yes, m);
            res == if failed == [] then Ok(()) else Err(Unmet(failed)))
    ensures res.Ok? ==>
      (&& InstallerConfig.RequiredApps(table).Ok?
       && forall a :: a in InstallerConfig.RequiredApps(table).value ==>
            a in m.onPath || (DistroFamily(osRelease).Some? && InstallSingleApp(a, DistroFamily(osRelease).value, yes, m)))
  {
    var required := InstallerConfig.RequiredApps(table);
    if required.Err? {
      return Err(BadRequiredApps);
    }
    if required.value == [] {
      return Ok(());
    }
    var missing := MissingApps(required.value, m);
    if missing == [] {
      return Ok(());
    }
    var family := DetectDistroFamily(osRelease);
    if family.None? {
      return Err(NoFamily(missing));
    }
    var failed: seq<string> := [];
    var i := 0;
    while i < |missing|
      invariant 0 <= i <= |missing|
      invariant failed == FailedApps(missing[..i], family.value, yes, m)
    {
      assert missing[..i + 1][..i] == missing[..i];
      if !InstallSingleApp(missing[i], family.value, yes, m) {
        failed := failed + [missing[i]];
      }
      i := i + 1;
    }
    assert missing[..i] == missing;
    if failed != [] {
      return Err(Unmet(failed));
    }
    res := Ok(());
  }
}

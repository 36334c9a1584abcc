/** scripts/check_dependencies.py: which required system binaries are
    missing, which packages provide them, and the package-manager command
    offered for them. The contents of /etc/os-release, what `shutil.which`
    finds and the user's answer are parameters; nothing is run. */
module DependencyCheck {
  import opened Wrappers
  import opened Text

  const RequiredBinaries: seq<string> := ["ffmpeg", "gpg"]

  /** The package that provides a binary, where it differs or is known. */
  const PkgToBinary: map<string, string> := map["ffmpeg" := "ffmpeg", "gpg" := "gnupg"]

  datatype Distro = Arch | Debian | RedHat | Unknown

  /** `detect_distro`, given the text of /etc/os-release or `None` when it
      cannot be read: substring tests, Arch first, then Debian, then Red Hat. */
  function DetectDistro(osRelease: Option<string>): (d: Distro)
    ensures osRelease.None? ==> d == Unknown
    ensures osRelease.Some? ==> var data := osRelease.value;
      var arch := Contains(data, "Arch") || Contains(data, "arch");
      var debian := Contains(data, "Ubuntu") || Contains(data, "Debian");
      var redhat := Contains(data, "Fedora") || Contains(data, "Red Hat") || Contains(data, "rhel");
      && (d == Arch <==> arch)
      && (d == Debian <==> !arch && debian)
      && (d == RedHat <==> !arch && !debian && redhat)
      && (d == Unknown <==> !arch && !debian && !redhat)
  {
    match osRelease
    case None => Unknown
    case Some(data) =>
      if Contains(data, "Arch") || Contains(data, "arch") then Arch
      else if Contains(data, "Ubuntu") || Contains(data, "Debian") then Debian
      else if Contains(data, "Fedora") || Contains(data, "Red Hat") || Contains(data, "rhel") then RedHat
      else Unknown
  }

  /** `[b for b in bins if shutil.which(b) is None]`, with `onPath` the
      binaries `which` finds. */
  function Missing(bins: seq<string>, onPath: set<string>): (missing: seq<string>)
    ensures |missing| <= |bins|
    ensures forall b :: b in missing <==> b in bins && b !in onPath
  {
    if bins == [] then []
    else (if bins[0] !in onPath then [bins[0]] else []) + Missing(bins[1..], onPath)
  }

  /** The missing binaries come in the order of the list they are taken from. */
  lemma {:induction false} MissingAppend(a: seq<string>, b: seq<string>, onPath: set<string>)
    ensures Missing(a + b, onPath) == Missing(a, onPath) + Missing(b, onPath)
  {
    if a == [] {
      assert a + b == b;
    } else {
      assert (a + b)[1..] == a[1..] + b;
      MissingAppend(a[1..], b, onPath);
    }
  }

  /** With nothing on the path both binaries are missing, ffmpeg first. */
  lemma NothingOnPath()
    ensures Missing(RequiredBinaries, {}) == ["ffmpeg", "gpg"]
  {
    assert RequiredBinaries[1..] == ["gpg"];
    assert RequiredBinaries[1..][1..] == [];
  }

  /** `PKG_TO_BINARY.get(b, b)`. */
  function PackageFor(bin: string): (pkg: string)
    ensures bin !in PkgToBinary ==> pkg == bin
    ensures bin == "gpg" ==> pkg == "gnupg"
    ensures bin == "ffmpeg" ==> pkg == "ffmpeg"
  {
    if bin in PkgToBinary then PkgToBinary[bin] else bin
  }

  /** `[PKG_TO_BINARY.get(b, b) for b in missing]`: one package per missing
      binary, position by position. */
  function Packages(missing: seq<string>): (pkgs: seq<string>)
    ensures |pkgs| == |missing|
    ensures forall i :: 0 <= i < |missing| ==> pkgs[i] == PackageFor(missing[i])
  {
    if missing == [] then [] else [PackageFor(missing[0])] + Packages(missing[1..])
  }

  /** The command `prompt_install` runs: an argument vector, or one shell line. */
  datatype Command = Argv(args: seq<string>) | Shell(line: string)

  const ArchPrefix: seq<string> := ["pkexec", "pacman", "-S", "--noconfirm"]
  const RedHatPrefix: seq<string> := ["pkexec", "dnf", "install", "-y"]
  const DebianPrefix: seq<string> := ["pkexec", "apt", "update", "&&", "pkexec", "apt", "install", "-y"]

  /** The user agreed: the stripped, lower-cased answer starts with `y`. */
  predicate Agrees(answer: string) {
    StartsWith(Lower(Strip(answer)), "y")
  }

  /** `prompt_install(packages, distro)` with the user's `answer`: the
      command it runs, if any. */
  function PromptInstall(packages: seq<string>, distro: Distro, answer: string): (cmd: Option<Command>)
    ensures cmd.Some? <==> packages != [] && Agrees(answer) && distro != Unknown
    ensures cmd.Some? && distro == Arch ==> cmd.value == Argv(ArchPrefix + packages)
    ensures cmd.Some? && distro == RedHat ==> cmd.value == Argv(RedHatPrefix + packages)
    ensures cmd.Some? && distro == Debian ==>
      cmd.value == Shell(Join(DebianPrefix, " ") + " " + Join(packages, " "))
  {
    if packages == [] || !Agrees(answer) then None
    else match distro
      case Arch => Some(Argv(ArchPrefix + packages))
      case Debian =>
        JoinAppend(DebianPrefix, packages, " ");
        Some(Shell(Join(DebianPrefix + packages, " ")))
      case RedHat => Some(Argv(RedHatPrefix + packages))
      case Unknown => None
  }

  /** `main`: detect the distro, collect the missing binaries, and offer
      their packages; nothing is offered when nothing is missing. */
  function MainCommand(osRelease: Option<string>, onPath: set<string>, answer: string): (cmd: Option<Command>)
    ensures (forall b :: b in RequiredBinaries ==> b in onPath) ==> cmd.None?
    ensures cmd.Some? && cmd.value.Argv? ==>
      |cmd.value.args| >= 4 && cmd.value.args[4..] == Packages(Missing(RequiredBinaries, onPath))
    ensures cmd.Some? <==> Missing(RequiredBinaries, onPath) != [] && Agrees(answer) && DetectDistro(osRelease) != Unknown
  {
    var missing := Missing(RequiredBinaries, onPath);
    if missing == [] then None
    else
      assert missing[0] in missing;
      PromptInstall(Packages(missing), DetectDistro(osRelease), answer)
  }

  /** The Arch test is a substring test: `ID=arch` is Arch. */
  lemma ArchIdIsArch()
    ensures DetectDistro(Some("ID=arch")) == Arch
  {
    assert "ID=arch"[1..][1..][1..] == "arch";
    assert StartsWith("ID=arch"[1..][1..][1..], "arch");
  }

  /** A padded, capitalised `Yes` is a yes. */
  lemma PaddedYesAgrees()
    ensures Agrees(" Yes\n")
  {
    assert Lead(" Yes\n", Whitespace) == 1 by {
      assert " Yes\n"[1..] == "Yes\n";
      assert 'Y' !in Whitespace;
    }
    assert Trail(" Yes\n", Whitespace) == 1 by {
      assert " Yes\n"[..4] == " Yes";
      assert 's' !in Whitespace;
    }
    assert Strip(" Yes\n") == " Yes\n"[1..4] == "Yes";
    assert Lower("Yes")[..1] == "y";
  }

  /** On Arch with only gpg missing, a yes installs the gnupg package. */
  lemma GpgMissingOnArch()
    ensures MainCommand(Some("ID=arch"), {"ffmpeg"}, " Yes\n") == Some(Argv(["pkexec", "pacman", "-S", "--noconfirm", "gnupg"]))
  {
    assert RequiredBinaries[1..] == ["gpg"];
    assert Missing(RequiredBinaries, {"ffmpeg"}) == ["gpg"];
    assert Packages(["gpg"]) == ["gnupg"];
    ArchIdIsArch();
    PaddedYesAgrees();
    assert PromptInstall(["gnupg"], Arch, " Yes\n") == Some(Argv(ArchPrefix + ["gnupg"]));
    assert ArchPrefix + ["gnupg"] == ["pkexec", "pacman", "-S", "--noconfirm", "gnupg"];
  }
}

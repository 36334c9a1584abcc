/** `Installer.prepare_source` and what it calls (zyngInstaller.py): source
    dispatch, `download_or_copy`, the SHA-256 check, `verify_gpg`,
    `extract_archive`'s choice of root and `validate_app_structure`.
    Everything the run asks of its host (git, the network, local files, the
    digest, gpg, archive decoding) is a field of `Host`. */
module SourcePrep {
  import opened Wrappers
  import opened Text
  import opened PyValue
  import opened Tree

  datatype PrepError =
    | SourceNotTable
    | MissingSourceKey(key: string)
    | BadSourceValue(key: string)
    | UnknownSourceType(stype: Value)
    | GitNotFound
    | CloneFailed
    | FetchFailed(url: string)
    | SourceNotFound(path: string)
    | ShaMismatch(expected: string, actual: string)
    | GpgNotFound
    | KeyImportFailed
    | SignatureMissing
    | SignatureInvalid
    | UnrecognizedArchive
    | InvalidLayout(missing: string)

  datatype Format = Zip | Tar

  /** The answers of the run's environment:
      - `gitFound`, `clone`: `shutil.which("git")` and the tree `git clone`
        (and the optional checkout of `ref`) leaves, `None` when git fails;
      - `remote`: what downloading each URL yields, absent on a network error;
      - `local`: the readable local files by path (after `~` expansion);
      - `sha256Hex`: the hex SHA-256 digest of FIPS 180-4, left uninterpreted;
      - `gpgFound`, `keyImports`, `signatureValid`: whether gpg is on the
        PATH, whether `gpg --import` accepts a key file, and whether
        `gpg --verify signature data` exits with 0;
      - `isZip`, `isTar`, `unpack`: `zipfile.is_zipfile`, `tarfile.is_tarfile`
        and the extraction directory `extractall` produces. */
  datatype Host = Host(
    gitFound: bool,
    clone: Option<Dir>,
    remote: map<string, seq<byte>>,
    local: map<string, seq<byte>>,
    sha256Hex: seq<byte> -> string,
    gpgFound: bool,
    keyImports: seq<byte> -> bool,
    signatureValid: (seq<byte>, seq<byte>) -> bool,
    isZip: seq<byte> -> bool,
    isTar: seq<byte> -> bool,
    unpack: (Format, seq<byte>) -> Dir)

  predicate IsUrl(loc: string) {
    StartsWith(loc, "http://") || StartsWith(loc, "https://")
  }

  /** `download_or_copy`: a URL is downloaded, anything else is a local path
      that must exist; the result is the bytes left at the scratch file. */
  function Fetch(loc: string, host: Host): (r: Result<seq<byte>, PrepError>)
    ensures r.Ok? && IsUrl(loc) ==> loc in host.remote && r.value == host.remote[loc]
    ensures r.Ok? && !IsUrl(loc) ==> loc in host.local && r.value == host.local[loc]
    ensures r.Err? ==> r.error == if IsUrl(loc) then FetchFailed(loc) else SourceNotFound(loc)
  {
    if IsUrl(loc) then
      if loc in host.remote then Ok(host.remote[loc]) else Err(FetchFailed(loc))
    else if loc in host.local then Ok(host.local[loc]) else Err(SourceNotFound(loc))
  }

  /** The SHA-256 check of `prepare_source`: only a truthy `sha256` is
      checked, and the two hex strings are compared after `lower()`. */
  function CheckSha(artifact: seq<byte>, expected: Value, host: Host): (r: Option<PrepError>)
    ensures !Truthy(expected) ==> r.None?
    ensures expected.Str? ==> (r.None? <==> expected.s == [] || Lower(host.sha256Hex(artifact)) == Lower(expected.s))
    ensures r.Some? && expected.Str? ==> r.value == ShaMismatch(expected.s, host.sha256Hex(artifact))
  {
    if !Truthy(expected) then None
    else if !expected.Str? then Some(BadSourceValue("sha256"))
    else
      var actual := host.sha256Hex(artifact);
      if Lower(actual) != Lower(expected.s) then Some(ShaMismatch(expected.s, actual)) else None
  }

  lemma LowerIdempotent(s: string)
    ensures Lower(Lower(s)) == Lower(s)
  {
    assert forall i :: 0 <= i < |s| ==> LowerChar(LowerChar(s[i])) == LowerChar(s[i]);
  }

  /** The case of the configured digest does not matter: it is accepted
      exactly when its lower-case form is. */
  lemma CheckShaIgnoresCase(artifact: seq<byte>, expected: string, host: Host)
    ensures CheckSha(artifact, Str(expected), host).None? <==> CheckSha(artifact, Str(Lower(expected)), host).None?
  {
    LowerIdempotent(expected);
  }

  /** `gpg --import` succeeds for `gpg_key`, or there is no key to import:
      the key file is downloaded or read like any other location. */
  predicate KeyImportable(key: Value, host: Host) {
    !Truthy(key) || (key.Str? && Fetch(key.s, host).Ok? && host.keyImports(Fetch(key.s, host).value))
  }

  /** The bytes the artifact's scratch file holds when `gpg --verify` runs
      against it: the artifact itself, unless the scratch file is shared and
      a downloaded signature or key (the later download wins) replaced it. */
  function CheckedBytes(artifact: seq<byte>, key: Value, sig: string, host: Host, sharedScratch: bool): seq<byte> {
    if !sharedScratch then artifact
    else if IsUrl(sig) && sig in host.remote then host.remote[sig]
    else if key.Str? && IsUrl(key.s) && key.s in host.remote then host.remote[key.s]
    else artifact
  }

  /** `verify_gpg` returns normally: gpg is found, the key (if any) imports,
      a signature is given and `gpg --verify` accepts it for `checked`. */
  predicate GpgAccepts(checked: seq<byte>, key: Value, sig: Value, host: Host) {
    && host.gpgFound
    && KeyImportable(key, host)
    && sig.Str? && sig.s != []
    && Fetch(sig.s, host).Ok?
    && host.signatureValid(Fetch(sig.s, host).value, checked)
  }

  /** `verify_gpg` for the artifact `artifact`. `sharedScratch` says whether a
      downloaded key or signature is written to the artifact's own scratch
      file (`download_or_copy` always writes `tmpdir/download`). The result is
      what that scratch file holds afterwards: extraction reads it next. */
  function VerifyGpgWith(artifact: seq<byte>, key: Value, sig: Value, host: Host, sharedScratch: bool): (r: Result<seq<byte>, PrepError>)
    ensures !host.gpgFound ==> r == Err(GpgNotFound)
    ensures !Truthy(sig) ==> r.Err?
    ensures host.gpgFound && !Truthy(key) && !Truthy(sig) ==> r == Err(SignatureMissing)
    ensures r.Ok? ==> sig.Str? && (r.value == artifact || (sharedScratch && (IsUrl(sig.s) || (key.Str? && IsUrl(key.s)))))
    ensures r.Ok? <==> sig.Str? && GpgAccepts(CheckedBytes(artifact, key, sig.s, host, sharedScratch), key, sig, host)
    ensures r.Ok? ==> r.value == CheckedBytes(artifact, key, sig.s, host, sharedScratch)
  {
    if !host.gpgFound then Err(GpgNotFound)
    else
      var afterKey: Result<seq<byte>, PrepError> :=
        if !Truthy(key) then Ok(artifact)
        else if !key.Str? then Err(BadSourceValue("gpg_key"))
        else if IsUrl(key.s) then
          match Fetch(key.s, host)
          case Err(e) => Err(e)
          case Ok(keyBytes) =>
            if !host.keyImports(keyBytes) then Err(KeyImportFailed)
            else Ok(if sharedScratch then keyBytes else artifact)
        else if key.s !in host.local || !host.keyImports(host.local[key.s]) then Err(KeyImportFailed)
        else Ok(artifact);
      match afterKey
      case Err(e) => Err(e)
      case Ok(scratch) =>
        if !Truthy(sig) then Err(SignatureMissing)
        else if !sig.Str? then Err(BadSourceValue("gpg_signature"))
        else if IsUrl(sig.s) then
          match Fetch(sig.s, host)
          case Err(e) => Err(e)
          case Ok(sigBytes) =>
            var data := if sharedScratch then sigBytes else scratch;
            if host.signatureValid(sigBytes, data) then Ok(data) else Err(SignatureInvalid)
        else if sig.s in host.local && host.signatureValid(host.local[sig.s], scratch) then Ok(scratch)
        else Err(SignatureInvalid)
  }

  /** `verify_gpg` as written: key and signature downloads overwrite the artifact. */
  function VerifyGpgAsWritten(artifact: seq<byte>, key: Value, sig: Value, host: Host): (r: Result<seq<byte>, PrepError>)
    ensures r.Ok? && sig.Str? && IsUrl(sig.s) ==> sig.s in host.remote && r.value == host.remote[sig.s]
  {
    VerifyGpgWith(artifact, key, sig, host, true)
  }

  /** `verify_gpg` with a scratch file of its own for the key and the
      signature: the artifact that passed the checks is what is handed on. */
  function VerifyGpg(artifact: seq<byte>, key: Value, sig: Value, host: Host): (r: Result<seq<byte>, PrepError>)
    ensures r.Ok? ==> r.value == artifact
    ensures r == Ok(artifact) <==> GpgAccepts(artifact, key, sig, host)
    ensures r.Ok? ==> sig.Str? && (if IsUrl(sig.s) then sig.s in host.remote && host.signatureValid(host.remote[sig.s], artifact)
                                   else sig.s in host.local && host.signatureValid(host.local[sig.s], artifact))
  {
    VerifyGpgWith(artifact, key, sig, host, false)
  }

  /** The format `extract_archive` settles on: zip is tried before tar. */
  function Sniff(data: seq<byte>, host: Host): (r: Option<Format>)
    ensures r.None? <==> !host.isZip(data) && !host.isTar(data)
    ensures host.isZip(data) ==> r == Some(Zip)
  {
    if host.isZip(data) then Some(Zip) else if host.isTar(data) then Some(Tar) else None
  }

  /** The top-level entries of an extraction directory other than `__MACOSX`. */
  function TopEntries(extracted: Dir): set<string> {
    extracted.entries.Keys - {"__MACOSX"}
  }

  lemma SingletonMember(s: set<string>, a: string, b: string)
    requires |s| == 1 && a in s && b in s
    ensures a == b
  {
    assert |s - {a}| == 0;
  }

  /** The root `extract_archive` picks: the single remaining top-level entry
      when it is a directory, otherwise the extraction directory itself. */
  function ChooseRoot(extracted: Dir): (root: Dir)
    ensures (exists n :: TopEntries(extracted) == {n} && extracted.entries[n].Sub? && root == extracted.entries[n].dir)
         || (root == extracted && !exists n :: TopEntries(extracted) == {n} && extracted.entries[n].Sub?)
  {
    var names := TopEntries(extracted);
    if |names| != 1 then
      assert !exists n :: names == {n};
      extracted
    else
      assert forall a, b :: a in names && b in names ==> a == b by {
        forall a, b | a in names && b in names ensures a == b { SingletonMember(names, a, b); }
      }
      var n :| n in names;
      assert names == {n};
      match extracted.entries[n]
      case Sub(d) => d
      case File(_) => extracted
  }

  /** An archive whose contents sit in one folder (next to an optional
      `__MACOSX`) yields that folder as the root. */
  lemma SingleFolderIsRoot(extracted: Dir, name: string, folder: Dir)
    requires name != "__MACOSX"
    requires extracted.entries.Keys - {"__MACOSX"} == {name}
    requires extracted.entries[name] == Sub(folder)
    ensures ChooseRoot(extracted) == folder
  {
  }

  /** An archive with two or more top-level entries besides `__MACOSX`
      yields the extraction directory itself. */
  lemma SeveralEntriesKeepExtractionDir(extracted: Dir, a: string, b: string)
    requires a != b && a in extracted.entries && b in extracted.entries
    requires a != "__MACOSX" && b != "__MACOSX"
    ensures ChooseRoot(extracted) == extracted
  {
    var names := TopEntries(extracted);
    assert a in names && b in names;
    if |names| == 1 {
      SingletonMember(names, a, b);
    }
  }

  /** `validate_app_structure`: `src` and then `data` must exist under the
      root, the first one missing aborts; the result says whether the
      warning about a missing `requirements.txt` is printed. */
  function ValidateLayout(root: Dir): (r: Result<bool, PrepError>)
    ensures r.Ok? <==> HasEntry(root, "src") && HasEntry(root, "data")
    ensures !HasEntry(root, "src") ==> r == Err(InvalidLayout("src"))
    ensures HasEntry(root, "src") && !HasEntry(root, "data") ==> r == Err(InvalidLayout("data"))
    ensures r.Ok? ==> (r.value <==> !HasEntry(root, "requirements.txt"))
  {
    if !HasEntry(root, "src") then Err(InvalidLayout("src"))
    else if !HasEntry(root, "data") then Err(InvalidLayout("data"))
    else Ok(!HasEntry(root, "requirements.txt"))
  }

  /** A prepared source tree and whether the missing-requirements warning was printed. */
  datatype Prepared = Prepared(root: Dir, warnedNoRequirements: bool)

  /** `extract_archive` on the bytes at the scratch file. */
  function ExtractArchive(data: seq<byte>, host: Host): (r: Result<Prepared, PrepError>)
    ensures !host.isZip(data) && !host.isTar(data) ==> r == Err(UnrecognizedArchive)
    ensures r.Ok? ==> exists f :: Sniff(data, host) == Some(f) && r.value.root == ChooseRoot(host.unpack(f, data))
    ensures r.Ok? ==> HasEntry(r.value.root, "src") && HasEntry(r.value.root, "data")
    ensures Sniff(data, host).None? ==> r == Err(UnrecognizedArchive)
    ensures Sniff(data, host).Some? ==>
      var root := ChooseRoot(host.unpack(Sniff(data, host).value, data));
      && (r.Ok? <==> HasEntry(root, "src") && HasEntry(root, "data"))
      && (r.Err? ==> r == Err(ValidateLayout(root).error))
      && (r.Ok? ==> r.value == Prepared(root, !HasEntry(root, "requirements.txt")))
  {
    match Sniff(data, host)
    case None => Err(UnrecognizedArchive)
    case Some(f) =>
      var root := ChooseRoot(host.unpack(f, data));
      match ValidateLayout(root)
      case Err(e) => Err(e)
      case Ok(warn) => Ok(Prepared(root, warn))
  }

  /** `prepare_source`. The type defaults to `git`; `location` is looked up
      before the type is examined; `url` and `archive` fetch the artifact,
      check its digest, then its signature when a key or a signature is
      configured, then extract it; any other type aborts. A git clone is
      neither checked nor validated. */
  function PrepareSourceWith(source: Value, host: Host, sharedScratch: bool): (r: Result<Prepared, PrepError>)
    ensures !source.Dict? ==> r == Err(SourceNotTable)
    ensures source.Dict? && !Has(source.entries, "location") ==> r == Err(MissingSourceKey("location"))
    ensures source.Dict? && Has(source.entries, "location") ==>
      var stype := GetOr(source.entries, "type", Str("git"));
      stype != Str("git") && stype != Str("url") && stype != Str("archive") ==> r == Err(UnknownSourceType(stype))
    ensures source.Dict? && Has(source.entries, "location") && GetOr(source.entries, "type", Str("git")) == Str("git") ==>
      && (!host.gitFound ==> r == Err(GitNotFound))
      && (r.Ok? <==> host.gitFound && Get(source.entries, "location").Str? && host.clone.Some?)
      && (r.Ok? ==> r.value == Prepared(host.clone.value, false))
    ensures FetchedKind(source) ==>
      var cfg := source.entries;
      var fetched := Fetch(Get(cfg, "location").s, host);
      && (fetched.Err? ==> r == Err(fetched.error))
      && (fetched.Ok? && CheckSha(fetched.value, Get(cfg, "sha256"), host).Some? ==>
            r == Err(CheckSha(fetched.value, Get(cfg, "sha256"), host).value))
    ensures FetchedKind(source) ==>
      var cfg := source.entries;
      var fetched := Fetch(Get(cfg, "location").s, host);
      var key := Get(cfg, "gpg_key");
      var sig := Get(cfg, "gpg_signature");
      fetched.Ok? && CheckSha(fetched.value, Get(cfg, "sha256"), host).None? ==>
        if !Truthy(key) && !Truthy(sig) then r == ExtractArchive(fetched.value, host)
        else
          var checked := VerifyGpgWith(fetched.value, key, sig, host, sharedScratch);
          && (checked.Err? ==> r == Err(checked.error))
          && (checked.Ok? ==> r == ExtractArchive(checked.value, host))
  {
    if !source.Dict? then Err(SourceNotTable)
    else
      var cfg := source.entries;
      var stype := GetOr(cfg, "type", Str("git"));
      if !Has(cfg, "location") then Err(MissingSourceKey("location"))
      else
        var loc := Get(cfg, "location");
        if stype == Str("git") then
          if !host.gitFound then Err(GitNotFound)
          else if !loc.Str? then Err(BadSourceValue("location"))
          else match host.clone
            case None => Err(CloneFailed)
            case Some(d) => Ok(Prepared(d, false))
        else if stype == Str("url") || stype == Str("archive") then
          if !loc.Str? then Err(BadSourceValue("location"))
          else match Fetch(loc.s, host)
            case Err(e) => Err(e)
            case Ok(artifact) =>
              match CheckSha(artifact, Get(cfg, "sha256"), host)
              case Some(e) => Err(e)
              case None =>
                var key := Get(cfg, "gpg_key");
                var sig := Get(cfg, "gpg_signature");
                var checked :=
                  if !Truthy(key) && !Truthy(sig) then Ok(artifact)
                  else if sharedScratch then VerifyGpgAsWritten(artifact, key, sig, host)
                  else VerifyGpg(artifact, key, sig, host);
                match checked
                case Err(e) => Err(e)
                case Ok(data) => ExtractArchive(data, host)
        else Err(UnknownSourceType(stype))
  }

  /** `prepare_source` as written. */
  function PrepareSourceAsWritten(source: Value, host: Host): (r: Result<Prepared, PrepError>)
    ensures !source.Dict? ==> r == Err(SourceNotTable)
  {
    PrepareSourceWith(source, host, true)
  }

  /** `prepare_source` with separate scratch files for key and signature. */
  function PrepareSource(source: Value, host: Host): (r: Result<Prepared, PrepError>)
    ensures !source.Dict? ==> r == Err(SourceNotTable)
  {
    PrepareSourceWith(source, host, false)
  }

  /** A source table of type `url` or `archive` whose location is a string. */
  predicate FetchedKind(source: Value) {
    && source.Dict?
    && Has(source.entries, "location")
    && Get(source.entries, "location").Str?
    && var stype := GetOr(source.entries, "type", Str("git"));
       stype == Str("url") || stype == Str("archive")
  }

  /** A digest mismatch aborts before gpg and extraction: the outcome is the
      mismatch error whatever gpg or the archive decoders would answer. */
  lemma ShaMismatchAbortsFirst(source: Value, host: Host, other: Host, artifact: seq<byte>)
    requires FetchedKind(source)
    requires Fetch(Get(source.entries, "location").s, host) == Ok(artifact)
    requires other.remote == host.remote && other.local == host.local && other.sha256Hex == host.sha256Hex
    requires Get(source.entries, "sha256").Str?
    requires CheckSha(artifact, Get(source.entries, "sha256"), host).Some?
    ensures PrepareSource(source, host) == PrepareSource(source, other)
    ensures PrepareSource(source, host) == Err(ShaMismatch(Get(source.entries, "sha256").s, host.sha256Hex(artifact)))
  {
    assert Fetch(Get(source.entries, "location").s, other) == Ok(artifact);
    assert CheckSha(artifact, Get(source.entries, "sha256"), other) == CheckSha(artifact, Get(source.entries, "sha256"), host);
  }

  /** With separate scratch files, the tree that is deployed comes from the
      very bytes whose digest and signature were checked. */
  lemma PreparedFromCheckedArtifact(source: Value, host: Host, artifact: seq<byte>)
    requires FetchedKind(source)
    requires Fetch(Get(source.entries, "location").s, host) == Ok(artifact)
    requires PrepareSource(source, host).Ok?
    ensures CheckSha(artifact, Get(source.entries, "sha256"), host).None?
    ensures PrepareSource(source, host) == ExtractArchive(artifact, host)
  {
  }

  /** As written, a `gpg_signature` URL overwrites the artifact's scratch
      file: whatever is extracted comes from the signature's bytes. */
  lemma AsWrittenExtractsSignature(source: Value, host: Host, artifact: seq<byte>, sigUrl: string)
    requires FetchedKind(source)
    requires Fetch(Get(source.entries, "location").s, host) == Ok(artifact)
    requires Get(source.entries, "gpg_signature") == Str(sigUrl) && IsUrl(sigUrl)
    requires PrepareSourceAsWritten(source, host).Ok?
    ensures sigUrl in host.remote
    ensures PrepareSourceAsWritten(source, host) == ExtractArchive(host.remote[sigUrl], host)
  {
    var cfg := source.entries;
    assert Truthy(Get(cfg, "gpg_signature"));
    var checked := VerifyGpgAsWritten(artifact, Get(cfg, "gpg_key"), Get(cfg, "gpg_signature"), host);
    assert checked.Ok?;
  }

  /** A git source is cloned and used as it is, with no layout check and no
      warning about a missing `requirements.txt`. */
  lemma GitSourceIsCloned(entries: seq<(string, Value)>, host: Host, url: string, clone: Dir)
    requires Get(entries, "location") == Str(url)
    requires !Has(entries, "type") || Get(entries, "type") == Str("git")
    requires host.gitFound && host.clone == Some(clone)
    ensures PrepareSource(Dict(entries), host) == Ok(Prepared(clone, false))
    ensures PrepareSourceAsWritten(Dict(entries), host) == Ok(Prepared(clone, false))
  {
    assert Has(entries, "location");
    assert GetOr(entries, "type", Str("git")) == Str("git");
  }

  /** A fetched artifact whose digest matches and that has no gpg material,
      or whose signature checks out, is what gets extracted. */
  lemma CheckedArtifactIsExtracted(source: Value, host: Host, artifact: seq<byte>)
    requires FetchedKind(source)
    requires Fetch(Get(source.entries, "location").s, host) == Ok(artifact)
    requires CheckSha(artifact, Get(source.entries, "sha256"), host).None?
    requires var key := Get(source.entries, "gpg_key");
             var sig := Get(source.entries, "gpg_signature");
             (!Truthy(key) && !Truthy(sig)) || GpgAccepts(artifact, key, sig, host)
    ensures PrepareSource(source, host) == ExtractArchive(artifact, host)
  {
    var key := Get(source.entries, "gpg_key");
    var sig := Get(source.entries, "gpg_signature");
    if Truthy(key) || Truthy(sig) {
      assert VerifyGpg(artifact, key, sig, host) == Ok(artifact);
    }
  }

  /** With no key to import, a local detached signature that gpg accepts
      for the artifact lets `verify_gpg` pass the artifact on. */
  lemma LocalSignatureAccepted(artifact: seq<byte>, sigPath: string, host: Host)
    requires host.gpgFound && sigPath != [] && !IsUrl(sigPath)
    requires sigPath in host.local && host.signatureValid(host.local[sigPath], artifact)
    ensures VerifyGpg(artifact, Null, Str(sigPath), host) == Ok(artifact)
  {
    assert Fetch(sigPath, host) == Ok(host.local[sigPath]);
    assert GpgAccepts(artifact, Null, Str(sigPath), host);
  }

  /** Sharing the scratch file only matters for downloaded gpg material:
      with a local key and a local signature both variants agree. */
  lemma SharedScratchNeedsUrl(artifact: seq<byte>, key: Value, sig: Value, host: Host)
    requires !(key.Str? && IsUrl(key.s)) && !(sig.Str? && IsUrl(sig.s))
    ensures VerifyGpgAsWritten(artifact, key, sig, host) == VerifyGpg(artifact, key, sig, host)
  {
  }

  /** Hence `prepare_source` as written and the corrected one only part ways
      when `gpg_key` or `gpg_signature` is a URL. */
  lemma AsWrittenAgreesWithoutUrls(source: Value, host: Host)
    requires source.Dict?
    requires var key := Get(source.entries, "gpg_key"); !(key.Str? && IsUrl(key.s))
    requires var sig := Get(source.entries, "gpg_signature"); !(sig.Str? && IsUrl(sig.s))
    ensures PrepareSourceAsWritten(source, host) == PrepareSource(source, host)
  {
    if FetchedKind(source) {
      var fetched := Fetch(Get(source.entries, "location").s, host);
      if fetched.Ok? {
        SharedScratchNeedsUrl(fetched.value, Get(source.entries, "gpg_key"), Get(source.entries, "gpg_signature"), host);
      }
    }
  }

  /** The type defaults to `git`: a table without `type` behaves exactly as
      the same table with `type = "git"`. */
  lemma TypeDefaultsToGit(entries: seq<(string, Value)>, host: Host)
    requires !Has(entries, "type")
    ensures PrepareSource(Dict(entries), host) == PrepareSource(Dict([("type", Str("git"))] + entries), host)
  {
    var e2 := [("type", Str("git"))] + entries;
    assert e2[1..] == entries;
    assert Lookup(e2, "location") == Lookup(entries, "location");
    assert Lookup(e2, "type") == Some(Str("git"));
  }
}

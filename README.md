# d4: installer, download options and helper scripts in Dafny

This project models the non-GUI core of d4, a desktop front end for yt-dlp,
together with its version-managing installer. It covers:

- **zyngInstaller.py.** The `Installer` that reads a TOML configuration and
  prepares the application source (git clone, or a downloaded or copied
  archive checked by SHA-256 and gpg, then extracted and validated). It
  places the source under `<install root>/<name>-<version>`, points the
  `<name>-current` symlink at it, and archives earlier copies under
  `archives/`. It also prunes old archives, rolls back to an archive, and
  uninstalls. Before installing it can install required external
  applications with the distribution's package manager.
- **src/app/app_core.py.** The translation of the GUI's download options
  into a yt-dlp options dictionary, and the dependency check.
- **src/app/core/downloader.py.** The choice between a single URL and a
  batch file, the filtering of the batch file, the result messages, and
  the progress hook.
- **scripts/check_dependencies.py.** Distribution detection, the list of
  missing binaries, and the package-manager command it offers.
- **src/app/core/user_agents.py.** Picking a user-agent string from the
  desktop and mobile lists.

Modules, one per file:

- `Wrappers`: `Option` and `Result`.
- `Text`: Python's `strip`, `lower`, `split`, `join` and `int()` on strings.
- `PyValue`: TOML, JSON and Python values, their truthiness, and ordered
  dictionaries.
- `Tree`: directory trees.
- `InstallerConfig`: `load_config`, the names `__init__` derives, and
  `_get_required_apps`.
- `SourcePrep`: `prepare_source` and the functions it calls.
- `VersionStore`: the install root as a value, with one transition function
  per installer operation.
- `VersionStoreProperties`: what those transitions guarantee.
- `InstallerObject`: an `Installer` class whose methods update the install
  root in place. Each method is proved to make the transition its
  `VersionStore` function describes.
- `AppProvisioning`: `/etc/os-release` parsing, the distribution family,
  install commands, and `ensure_required_apps`.
- `AppCore`: `_build_ytdlp_options` and `check_dependencies`.
- `Downloader`: the `VideoDownloader` class (`download` and its helpers).
- `DependencyCheck`: scripts/check_dependencies.py.
- `UserAgentChoice`: `choose_random_user_agent`.

Everything the programs ask of their environment is a parameter. This
includes:

- the file system listing and mtimes;
- `shutil.which`, the effective uid, and the outcome of running a command;
- downloads, digests, gpg, and archive decoding (`SourcePrep.Host`);
- the user's answers and the random choice.

## Model

| member | source | states |
|---|---|---|
| InstallerConfig.LoadConfig | zyngInstaller.py:90-98 | a missing file is `ConfigNotFound`; success iff `name`, `version` and `source` are all present; otherwise the error names the first missing key in that order; success keeps the table and its `source` entry |
| InstallerConfig.InstallerLayout | zyngInstaller.py:75-80 | succeeds iff `name` and `version` are strings and `default_install_root`, when present, is a string (it is turned into a path even when overridden); each failure names its key, checked in the order the code evaluates them; a non-empty `--install-root` wins (with `~` expanded), else the configured root, else `~/.local/share/<name>-installs` |
| InstallerConfig.NonBlankStrings | zyngInstaller.py:141 | keeps exactly the string items that are not blank, never more items than given |
| InstallerConfig.RequiredApps | zyngInstaller.py:134-141 | a falsy or non-table `required_apps` gives no apps; it fails iff the chosen `apps`/`name` value is not a string, list or table; an app is returned iff it is non-blank and the value yields it (the string itself, a list item, a table key); a list gives its non-blank string items in order |
| InstallerConfig.RequiredAppsSingleString | zyngInstaller.py:138-141 | a single string under `apps` becomes a one-element list, or nothing when it is blank |
| SourcePrep.Fetch | zyngInstaller.py:291-302 | an `http://` or `https://` location yields the downloaded bytes, any other location the local file; each failure names the location |
| SourcePrep.CheckSha | zyngInstaller.py:259-265 | no check when `sha256` is falsy; otherwise the check passes iff the digests agree after lower-casing; a failure reports the expected and actual digest |
| SourcePrep.CheckShaIgnoresCase | zyngInstaller.py:263 | the check gives the same verdict for an expected digest and its lower-cased form |
| SourcePrep.VerifyGpgWith | zyngInstaller.py:304-324 | gpg missing fails first; without a signature verification fails; it succeeds iff gpg is found, the key (if any) is fetched and imports, the signature is a non-empty string that is fetched, and gpg accepts it for the bytes in the scratch file; it returns those bytes, which are the artifact unless the shared scratch file was overwritten by a downloaded key or signature |
| SourcePrep.VerifyGpg | zyngInstaller.py:304-324 | corrected verification: it passes the artifact on iff gpg is found, the key (if any) imports, and the given signature file (downloaded or local) is valid for that artifact |
| SourcePrep.LocalSignatureAccepted | zyngInstaller.py:317-324 | with no key, a local signature that gpg accepts for the artifact lets verification pass the artifact on |
| SourcePrep.VerifyGpgAsWritten | zyngInstaller.py:291-324 | as written: after a URL signature is fetched, the bytes that go on to extraction are the signature's |
| SourcePrep.Sniff | zyngInstaller.py:331-338 | zip is tried before tar; no format iff neither recognises the data |
| SourcePrep.ChooseRoot | zyngInstaller.py:339-340 | the root is the single top-level directory when `__MACOSX` aside there is exactly one entry and it is a directory; otherwise the extraction directory |
| SourcePrep.SingleFolderIsRoot | zyngInstaller.py:339-340 | a lone folder next to `__MACOSX` becomes the root |
| SourcePrep.SeveralEntriesKeepExtractionDir | zyngInstaller.py:340 | two real entries keep the extraction directory as the root |
| SourcePrep.ValidateLayout | zyngInstaller.py:346-353 | valid iff `src` and `data` exist, `src` checked first; the warning flag is set iff `requirements.txt` is absent |
| SourcePrep.ExtractArchive | zyngInstaller.py:326-344 | unrecognised data is an error; otherwise, with the root chosen from the data unpacked in the sniffed format, it succeeds iff that root has `src` and `data`, fails with the layout error otherwise, and on success warns iff `requirements.txt` is missing |
| SourcePrep.PrepareSourceWith | zyngInstaller.py:251-273 | a non-table, a missing `location` or an unknown `type` (default git) each give their own error; a git source succeeds iff git is found, the location is a string and the clone succeeds, and yields the clone with no warning; a url/archive source propagates a fetch error, then a digest mismatch, then a gpg error, and extracts the artifact (no key or signature) or what gpg left |
| SourcePrep.PrepareSourceAsWritten | zyngInstaller.py:251-273 | the code as written, with one scratch file for artifact, key and signature |
| SourcePrep.PrepareSource | zyngInstaller.py:251-273 | the corrected preparation; a non-table source is rejected |
| SourcePrep.ShaMismatchAbortsFirst | zyngInstaller.py:260-264 | a digest mismatch is the outcome whatever gpg or the archive decoders would say |
| SourcePrep.PreparedFromCheckedArtifact | zyngInstaller.py:258-271 | a successful archive preparation passed the digest check and extracts exactly the fetched artifact |
| SourcePrep.AsWrittenExtractsSignature | zyngInstaller.py:251-324 | as written, with a URL signature, a successful run extracts the downloaded signature instead of the artifact |
| SourcePrep.TypeDefaultsToGit | zyngInstaller.py:252 | a source without `type` behaves as `type = "git"` |
| SourcePrep.GitSourceIsCloned | zyngInstaller.py:274-289 | a git source with a string location, git on the path and a successful clone prepares the clone, unwarned, in both variants |
| SourcePrep.CheckedArtifactIsExtracted | zyngInstaller.py:258-271 | a fetched artifact whose digest matches and which has no gpg material, or passes gpg, is exactly what gets extracted |
| SourcePrep.SharedScratchNeedsUrl | zyngInstaller.py:303-319 | with a local key and a local signature, `verify_gpg` as written and corrected agree |
| SourcePrep.AsWrittenAgreesWithoutUrls | zyngInstaller.py:251-273 | `prepare_source` as written and corrected agree unless `gpg_key` or `gpg_signature` is a URL |
| VersionStore.MoveInto | zyngInstaller.py:355-365 | `shutil.move` into a free name puts the tree there; onto an existing directory it nests the tree inside it, failing iff that name is already taken inside; nothing else changes |
| VersionStore.Deploy | zyngInstaller.py:355-365 | on success `current` points at `<name>-<version>`, which holds the new tree and exists; an existing copy is archived as `<name>-<version>-<ts>`; no archive is lost; it fails only when archiving an existing copy fails |
| VersionStore.Matches | zyngInstaller.py:440 | the glob `<name>-*`: the entry name is the app name, a dash and any rest |
| VersionStore.Globbed | zyngInstaller.py:440 | exactly the listed archive entries matching `<name>-*`, with their mtimes; distinct names for a listing without repeats |
| VersionStore.InsertIsPermutation | zyngInstaller.py:440 | inserting into the newest-first list adds exactly that entry |
| VersionStore.InsertKeepsOrder | zyngInstaller.py:440 | insertion keeps the list sorted newest first |
| VersionStore.InsertKeepsNamesDistinct | zyngInstaller.py:440 | insertion of a new name keeps names distinct |
| VersionStore.SortNewestFirst | zyngInstaller.py:440 | `sorted(..., key=getmtime, reverse=True)`: sorted newest first, a permutation of its input |
| VersionStore.InsertWithMtime | zyngInstaller.py:440 | inserting an entry puts it ahead of every other entry with the same mtime and changes nothing else among them |
| VersionStore.SortIsStable | zyngInstaller.py:440 | the sort is stable: for every mtime, the entries with that mtime keep the order they had in the listing |
| VersionStore.SortKeepsNamesDistinct | zyngInstaller.py:440 | sorting keeps names distinct |
| VersionStore.ArchiveList | zyngInstaller.py:440 | the list `clean_old_archives` and `rollback` work from: sorted newest first, and an entry is in it iff it is a listed archive matching `<name>-*` with its mtime |
| VersionStore.PruneVictims | zyngInstaller.py:441-443 | the removed entries are a tail of the list: none when at most `keep` entries exist, else all but the first `keep`; for a negative `keep`, the last `-keep` entries (Python slicing) |
| VersionStore.Prune | zyngInstaller.py:439-445 | pruning only removes archives; the version directories and `current` stay |
| VersionStore.RetireCurrent | zyngInstaller.py:466-471 | when `current` does not resolve nothing moves; otherwise it fails iff `archives/<n>-failed-<ts>` already holds an entry `<n>`, and on success the target leaves the root or `archives/`, lands under `<n>-failed-<ts>`, and `current` is not touched |
| VersionStore.Rollback | zyngInstaller.py:447-476 | no matching archive is `NoArchives`; a choice that is not an integer or is out of range is `InvalidSelection`; a valid choice succeeds iff retiring `current` succeeds, and then the state is the retired one with `current` pointing at the chosen entry of the newest-first list; a retire error is passed on |
| VersionStore.Uninstall | zyngInstaller.py:489-497 | `remove_all` empties the root; otherwise only `<name>-<version>` goes, and a `current` that pointed at it dangles |
| VersionStoreProperties.Target | zyngInstaller.py:466-467 | `current` has a target iff it resolves |
| VersionStoreProperties.VictimsAreSuffix | zyngInstaller.py:441-443 | the removed entries are the newest-first list from `KeptCount` on, Python slicing included |
| VersionStoreProperties.ArchiveListNamesMatches | zyngInstaller.py:440 | the archive list names each matching archive exactly once, with its mtime |
| VersionStoreProperties.PruneKeepsNewest | zyngInstaller.py:439-445 | pruning keeps exactly `KeptCount` matching archives, every kept one at least as new as every removed one, and leaves unmatched entries, versions and `current` alone |
| VersionStoreProperties.PruneKeepsAtMostKeep | zyngInstaller.py:439-445 | with `keep >= 0` the matching archives left number `min(n, keep)` |
| VersionStoreProperties.PruneCanRemoveCurrentTarget | zyngInstaller.py:439-445 | pruning looks only at mtimes: after a rollback to an older archive it deletes `current`'s target |
| VersionStoreProperties.RetireCurrentKeepsEverything | zyngInstaller.py:466-471 | retiring deletes nothing: the old target is kept under `<name>-failed-<ts>` and every other directory stays |
| VersionStoreProperties.RollbackNeverDeletes | zyngInstaller.py:447-476 | a successful rollback deletes no tree |
| VersionStoreProperties.RollbackToCurrentTargetDangles | zyngInstaller.py:466-475 | choosing the archive `current` already points at retires it and leaves `current` dangling |
| VersionStoreProperties.ArchiveNamesDiffer | zyngInstaller.py:355-469 | a `<v>-<digits>` archive name never equals a `<v>-failed-<ts>` name |
| VersionStoreProperties.ReinstallThenRollbackRestores | zyngInstaller.py:355-476 | re-installing the installed version and rolling back to the archive it made restores what `current` resolved to |
| VersionStoreProperties.UpgradeLeavesNothingToRollBack | zyngInstaller.py:355-452 | installing a different version archives nothing, so rollback reports no archives |
| InstallerObject.ListDirectory | zyngInstaller.py:450 | yields each directory entry exactly once, in some order |
| InstallerObject.Installer.AtomicMoveIntoPlace | zyngInstaller.py:355-365 | the object's new state is `Deploy`'s; on failure nothing changed |
| InstallerObject.Installer.CleanOldArchives | zyngInstaller.py:439-445 | the new state is `Prune` over the listing it read |
| InstallerObject.Installer.RemoveArchives | zyngInstaller.py:443-445 | removes exactly the victims from `archives/` |
| InstallerObject.Installer.RetireCurrentTarget | zyngInstaller.py:466-471 | the new state is `VersionStore.RetireCurrent`'s; on an error nothing changed |
| InstallerObject.Installer.Rollback | zyngInstaller.py:447-476 | the new state is `VersionStore.Rollback`'s; on an error nothing changed |
| InstallerObject.Installer.Uninstall | zyngInstaller.py:489-497 | the new state is `VersionStore.Uninstall`'s |
| InstallerObject.Installer.Install | zyngInstaller.py:478-487 | a preparation or placement failure leaves the root unchanged; otherwise the new version is current and exists, followed by a prune when `--auto-clean-archives` is given |
| AppProvisioning.Unquote | zyngInstaller.py:116 | the value is the raw text with only whitespace, `"` and `'` removed from its two ends, and it keeps no single quote at either end |
| AppProvisioning.SplitAssignment | zyngInstaller.py:115-116 | `split("=", 1)`: defined iff the line has `=`; the key is everything before the first `=`, the value the unquoted rest |
| AppProvisioning.ParseLine | zyngInstaller.py:112-117 | a line counts iff its stripped form has `=`; the key is everything before the first `=`; the value is the rest after that `=`, stripped of whitespace, then of `"`, then of `'`, so it does not start or end with a single quote |
| AppProvisioning.Assignments | zyngInstaller.py:111-117 | one parse per line |
| AppProvisioning.AssignedKeys | zyngInstaller.py:109-117 | a key is in the data iff some line assigns it |
| AppProvisioning.LastAssignmentWins | zyngInstaller.py:117 | the value kept is the one from the last line assigning the key |
| AppProvisioning.OsReleaseLastLineWins | zyngInstaller.py:109-117 | the same two facts for the file's lines |
| AppProvisioning.CollectStep | zyngInstaller.py:111-118 | reading one more line of `os-release` sets that line's key to its value and leaves `data` alone for a line without `=` |
| AppProvisioning.ReadOsRelease | zyngInstaller.py:109-117 | the parsing loop builds `OsReleaseData` |
| AppProvisioning.LowerWords | zyngInstaller.py:123-124 | exactly the lower-cased words |
| AppProvisioning.Ids | zyngInstaller.py:119-124 | the ids are exactly lower-cased `ID` and the lower-cased words of `ID_LIKE` |
| AppProvisioning.Family | zyngInstaller.py:126-132 | arch wins over debian over fedora; no family iff no known id |
| AppProvisioning.CollectIds | zyngInstaller.py:119-124 | the loop computes `Ids` |
| AppProvisioning.AddLowerWords | zyngInstaller.py:123-124 | the `ID_LIKE` loop adds exactly `LowerWords` |
| AppProvisioning.DetectDistroFamily | zyngInstaller.py:101-132 | no file is no family; otherwise the family of the parsed ids |
| AppProvisioning.SudoPrefix | zyngInstaller.py:152-157 | root needs no prefix; otherwise `sudo`'s path, or no command at all when `sudo` is missing |
| AppProvisioning.InstallCommand | zyngInstaller.py:159-179 | a command iff the family is known; it starts with the prefix and ends with the app except for Debian with `--yes`; `--noconfirm` and `-y` appear iff `--yes`; the exact argv is `pacman -S --needed [--noconfirm] app`, `apt-get install app` or `apt-get install -y`, and `dnf install [-y] app` after the prefix |
| AppProvisioning.DebianYesOmitsApp | zyngInstaller.py:166-171 | with `--yes` on Debian the app is not in the command |
| AppProvisioning.InstallSingleApp | zyngInstaller.py:143-193 | succeeds iff the app is already on the PATH, or a command exists, runs and leaves the app on the PATH |
| AppProvisioning.MissingApps | zyngInstaller.py:201 | exactly the required apps not on the PATH |
| AppProvisioning.FailedApps | zyngInstaller.py:214-217 | exactly the missing apps whose installation fails |
| AppProvisioning.MissingAppsAppend | zyngInstaller.py:201 | the missing apps keep the order of the required list |
| AppProvisioning.FailedAppsAppend | zyngInstaller.py:214-217 | the failed apps keep the order in which they were tried |
| AppProvisioning.EnsureRequiredApps | zyngInstaller.py:195-225 | nothing missing is fine; missing apps without a family abort with that list; otherwise the run aborts iff some install fails; success means every app is present or was installed |
| AppCore.JoinPath | src/app/app_core.py:111 | the output template ends with the file name after a `/` under the output directory |
| AppCore.ReadFlags | src/app/app_core.py:128-168 | each flag is the truthiness of its GUI option |
| AppCore.PostProcessors | src/app/app_core.py:128-178 | one processor for audio, two for an embedded thumbnail, two for SponsorBlock; audio extraction comes first |
| AppCore.PostProcessorOrder | src/app/app_core.py:128-178 | the post-processors appear in the order the code appends them |
| AppCore.SponsorBlockAppends | src/app/app_core.py:168-178 | SponsorBlock and ModifyChapters come after everything else |
| AppCore.BuildOptions | src/app/app_core.py:105-180 | every yt-dlp option as a function of the GUI options: proxy as `socks5://`, cookies only when the file exists, formats, post-processor list, thumbnail, subtitles, info JSON, description, comments and chapters |
| AppCore.ConnectionOptions | src/app/app_core.py:110-125 | output template, empty hooks, proxy, cookies and ffmpeg location |
| AppCore.AddFormat | src/app/app_core.py:128-149 | format and the audio/embed post-processors |
| AppCore.AddExtras | src/app/app_core.py:138-166 | the thumbnail, subtitle, metadata, comment and chapter flags |
| AppCore.AddSponsorBlock | src/app/app_core.py:168-178 | appends SponsorBlock and ModifyChapters iff `sponsorblock` |
| AppCore.CheckDependencies | src/app/app_core.py:182-200 | success iff both yt-dlp and ffmpeg are available; each missing set has its exact message |
| Downloader.BatchUrls | src/app/core/downloader.py:69 | at most one URL per line, each stripped and non-empty |
| Downloader.BatchUrlsAppend | src/app/core/downloader.py:69 | filtering distributes over concatenation |
| Downloader.BatchUrlsMembership | src/app/core/downloader.py:69 | a URL is kept iff some line strips to it, is not blank and does not start with `#` |
| Downloader.IndentedCommentIsKept | src/app/core/downloader.py:69 | the comment test looks at the unstripped line: ` #x` is kept as `#x` |
| Downloader.CopyWithHook | src/app/core/downloader.py:49-51 | with a callback, `progress_hooks` becomes the one hook; every other key is unchanged |
| Downloader.DownloadSingle | src/app/core/downloader.py:43-60 | yt-dlp runs once on `[url]` with the hooked copy; the result and message follow the outcome |
| Downloader.DownloadBatch | src/app/core/downloader.py:62-88 | missing file, unreadable file and empty list give their messages without running; otherwise yt-dlp runs on the filtered URLs; success reports their count |
| Downloader.Download | src/app/core/downloader.py:21-41 | a batch file is read as a batch, anything else is one URL; success iff yt-dlp ran and completed |
| Downloader.AsDict | src/app/core/downloader.py:96-109 | the dictionary passed to the callback has exactly the keys in the code's order, status and filename first |
| Downloader.Hook | src/app/core/downloader.py:93-109 | a missing `status` is an error; `downloading` and `finished` emit their info and any other status is silent; the filename defaults to `Unknown` |
| Downloader.DownloadingProjection | src/app/core/downloader.py:95-104 | a downloading event gives the six keys, with the `total_bytes` fallback |
| Downloader.FinishedProjection | src/app/core/downloader.py:105-109 | a finished event gives two keys; other statuses call nothing |
| Downloader.HookReadsOnlyItsKeys | src/app/core/downloader.py:93-109 | the hook depends only on the seven keys it reads |
| DependencyCheck.DetectDistro | scripts/check_dependencies.py:24-35 | an unreadable file is `unknown`; otherwise substring tests in the code's order decide |
| DependencyCheck.Missing | scripts/check_dependencies.py:67 | exactly the binaries not on the PATH, in order |
| DependencyCheck.MissingAppend | scripts/check_dependencies.py:67 | filtering distributes over concatenation |
| DependencyCheck.NothingOnPath | scripts/check_dependencies.py:11-15 | with nothing installed both binaries are missing |
| DependencyCheck.PackageFor | scripts/check_dependencies.py:18-21 | `gpg` maps to `gnupg`, `ffmpeg` to itself, anything else to itself |
| DependencyCheck.Packages | scripts/check_dependencies.py:75 | the package for each missing binary, position by position |
| DependencyCheck.PromptInstall | scripts/check_dependencies.py:38-62 | a command iff there are packages, the answer starts with `y` and the distribution is known; Arch and Red Hat get argument lists, Debian a shell line joined with spaces |
| DependencyCheck.MainCommand | scripts/check_dependencies.py:65-76 | no command when every binary is present; otherwise the prompt's command for the mapped packages |
| DependencyCheck.ArchIdIsArch | scripts/check_dependencies.py:29-30 | `ID=arch` is Arch |
| DependencyCheck.PaddedYesAgrees | scripts/check_dependencies.py:43-44 | the answer is stripped and lower-cased before the `y` test |
| DependencyCheck.GpgMissingOnArch | scripts/check_dependencies.py:65-76 | on Arch with only ffmpeg installed the command is `pkexec pacman -S --noconfirm gnupg` |
| UserAgentChoice.UaStringsMembership | src/app/core/user_agents.py:64 | a string is a candidate iff some entry's `ua` is it |
| UserAgentChoice.ChooseUserAgent | src/app/core/user_agents.py:50-68 | no entries and no `ua` field are distinct errors; otherwise the result is a candidate |
| UserAgentChoice.ChosenComesFromAnEntry | src/app/core/user_agents.py:64-68 | the chosen string is the `ua` of some entry |
| UserAgentChoice.EveryUaCanBeChosen | src/app/core/user_agents.py:64-68 | every entry's `ua` can be chosen |
| UserAgentChoice.PickInRange | src/app/core/user_agents.py:68 | a pick within range chooses that candidate |
| UserAgentChoice.NoneIsEmpty | src/app/core/user_agents.py:55-58 | a missing list behaves as an empty one |
| PyValue.SetItem | src/app/core/downloader.py:51 | assigning a key sets it and leaves every other key alone; an existing key keeps its place, a new one is appended |
| Text.StripChars | zyngInstaller.py:116 | `strip(chars)`: the result is the input with characters of the set removed from its two ends only, none of the set is left at either end, and it is empty iff every character is in the set |
| Text.TrimmedOfTrans | zyngInstaller.py:116 | stripping one set and then another removes only characters of the two sets from the ends |
| Text.JoinAppend | scripts/check_dependencies.py:53 | joining with a separator distributes over concatenation |
| Text.ParseInt | zyngInstaller.py:458 | `int()` succeeds only on text containing a digit |
| Text.ParseIntValue | zyngInstaller.py:458 | `int()` case by case on the stripped text: blank is an error; well-formed digits (single `_` between digits) give their value, also after `+`; after `-` the negated value; anything else is an error |
| Text.ParseDecimal | zyngInstaller.py:458 | `int()` reads back the decimal digits of a natural number |
| Text.ParseNegated | zyngInstaller.py:458 | a minus sign before well-formed digits gives the negated value |
| Text.ParseNegativeDecimal | zyngInstaller.py:458 | `int()` reads back a minus sign and the decimal digits of a natural number as its negation |

## Left out

- Terminal output (`print`, `eprint`) is not modelled. The GUI, worker threads and `extract_info` are outside this model. The user-agent scraping (`UserAgents.fetch_useragents_json`, an HTTP request and HTML parsing) is not part of this model.
- `setup_venv_and_requirements`, `install_fonts`, `create_launcher`, `create_desktop_entry` and `main` are not modelled. `InstallerObject.Installer.Install` runs only preparation, placement and pruning.
- The system calls, downloads and user input are parameters. These include `tempfile`, `time.strftime` (a `ts` string parameter) and mtimes (`now`). They also include `subprocess`, `urllib`, `shutil.which`, `input()` and `secrets.choice` (a `pick` index).
- `verify_gpg` sets the process-wide `GNUPGHOME` variable, and the scratch directory is never removed. Neither is modelled.
- `git clone` and the `ref` checkout are modelled only by what they leave behind (`Host.clone`). The fallback to HEAD when the ref fetch fails is part of that answer.
- InstallerObject.ListDirectory: the order of `glob` is left open. It is any listing without repeats.
- VersionStore.Prune: file-system operations are taken to succeed, apart from the `shutil.move` clash that `RetireCurrent` models. `shutil.rmtree(old, ignore_errors=True)` can fail silently and leave a victim in place. `VersionStoreProperties.PruneKeepsNewest` (exactly `KeptCount` archives remain), `InstallerObject.Installer.RemoveArchives` and `InstallerObject.Installer.CleanOldArchives` hold only under that assumption.
- VersionStore.Matches: the glob `<app>-*` is read with the app name taken literally, so glob metacharacters in the name are not modelled. `archives/` holds only directories, so a plain file that the glob would also match cannot be represented.
- InstallerConfig.InstallerLayout: requires `version` to be a TOML string. Python formats any value into `<name>-<version>`. `ExpandUser` expands only `~` and `~/...` to the home parameter: a `~name/...` path, which `expanduser()` turns into another user's home (or a `RuntimeError` for an unknown user), is kept literally. Paths are not normalised.
- InstallerObject.Installer.Install: uses the corrected preparation `SourcePrep.PrepareSource`. As written, a URL `gpg_key` or `gpg_signature` overwrites the artifact's scratch file (see Findings). `SourcePrep.AsWrittenAgreesWithoutUrls` shows that the two differ only in that case.
- AppProvisioning.Machine: `onPath` is one snapshot taken before any install. Python calls `shutil.which(app)` again for each app (`_install_single_app`), so an app installed as a side effect of an earlier one is not seen as present.
- AppProvisioning.InstallSingleApp: when running as root with no package manager binary, `run()` raises `FileNotFoundError`, which the code does not catch. The model treats that as a failed install.
- Text.ParseInt: accepts ASCII digits only. Python's `int()` also accepts other Unicode decimal digits.
- AppProvisioning.LowerWords: `lower()` is modelled by `Text.Lower`, which lower-cases ASCII letters only. The same holds for every member that uses it: `AppProvisioning.Ids`, `AppProvisioning.DetectDistroFamily`, `SourcePrep.CheckSha`, and `DependencyCheck.PromptInstall`, `DependencyCheck.MainCommand` and `DependencyCheck.PaddedYesAgrees` (through `Agrees`). For example, Python lowers `ID=ROC\u212AY` (with a Kelvin sign) to `rocky`; the model does not.
- AppCore.JoinPath: models `Path(output_path) / name` as string concatenation with `/`. It does not model Python's path normalisation.
- Downloader.Download: the batch-file test (`exists()` and `is_file()`) is a boolean parameter. Reading the file is a `BatchRead` value. yt-dlp is the `run` parameter, and its outcome is one of four.
- Downloader.CopyWithHook: the hook closure is represented by a marker value naming the callback. The callback itself is not called.
- Downloader.DownloadBatch: the batch path is shown as given. `str(batch_file)` of a `Path` may normalise it.
- UserAgentChoice.ChooseUserAgent: entries are taken to be dictionaries. A non-dict entry would make Python raise.
- DependencyCheck.PromptInstall: returns the command instead of running it. A non-zero exit (`check=True`) is not modelled.

## Findings

| source | as written | input that shows it | evidently intended | confidence | as-written member | corrected member |
|---|---|---|---|---|---|---|
| zyngInstaller.py:291-319 | `download_or_copy` always writes `tmpdir/download`, so downloading a URL `gpg_key` or `gpg_signature` overwrites the fetched archive. With a URL signature, gpg is then asked to verify the signature against itself, which normally fails with "GPG signature verification failed". Only if gpg accepts does `extract_archive(path)` unpack the signature's bytes | `type = "url"` with `gpg_signature = "https://…/app.tar.gz.sig"` | each download gets its own file, and the archive that was checked is the one extracted | not executed | SourcePrep.AsWrittenExtractsSignature | SourcePrep.PreparedFromCheckedArtifact |

Some behaviour of the code is reproduced as written:

- Debian with `--yes` omits the app from the command (`AppProvisioning.DebianYesOmitsApp`).
- Pruning can delete `current`'s target (`VersionStoreProperties.PruneCanRemoveCurrentTarget`).
- Rollback moves the old target only when `current` is an existing symlink (`VersionStore.RetireCurrent`).
- Rolling back to the archive `current` already uses leaves `current` dangling.

The installer's design describes a rollback round trip: install A, install B, roll back to A. The code does not provide it. Installing a different version archives nothing, because older versions stay side by side in the install root. Only a re-install of the same version is archived, and `VersionStoreProperties.ReinstallThenRollbackRestores` proves the round trip for that case. `VersionStoreProperties.UpgradeLeavesNothingToRollBack` states what the code does.

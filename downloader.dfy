/** `VideoDownloader` (src/app/core/downloader.py): the choice between a
    single URL and a batch file, the URL filter for batch files, the
    result messages, and the dictionary the progress hook hands the
    callback. yt-dlp itself is the parameter `run`: it maps the option
    dictionary and the URL list it is given to the way the run ended. */
module Downloader {
  import opened Wrappers
  import opened Text
  import opened PyValue

  /** What opening and reading the batch file gave: its lines (each with
      its line break), `FileNotFoundError`, or some other failure. */
  datatype BatchRead = Lines(lines: seq<string>) | NotFound | Unreadable(reason: string)

  /** How a yt-dlp run ended: normally, with a `DownloadError`, with a
      `FileNotFoundError`, or with any other exception. */
  datatype RunOutcome = Completed | DownloadError(message: string) | FileMissing(message: string) | Failed(message: string)

  /** The options and URLs yt-dlp is run with. */
  type Invocation = (seq<(string, Value)>, seq<string>)

  /** The hook `_make_progress_hook` builds around the callback numbered
      `callback`, as it stands in the option dictionary. */
  function HookFor(callback: nat): Value {
    Dict([("progress_hook_for", Int(callback))])
  }

  /** A batch-file line names a URL when it is not blank and its raw text
      (before stripping) does not start with `#`. */
  predicate KeepLine(line: string) {
    Strip(line) != [] && !StartsWith(line, "#")
  }

  /** The URL list of a batch file: the kept lines, stripped, in order. */
  function BatchUrls(lines: seq<string>): (urls: seq<string>)
    ensures |urls| <= |lines|
    ensures forall k :: 0 <= k < |urls| ==> urls[k] != [] && Strip(urls[k]) == urls[k]
  {
    if lines == [] then []
    else (if KeepLine(lines[0]) then [Strip(lines[0])] else []) + BatchUrls(lines[1..])
  }

  /** Filtering a file in two pieces gives the two URL lists one after the
      other: the filter keeps the order of the lines. */
  lemma {:induction false} BatchUrlsAppend(a: seq<string>, b: seq<string>)
    ensures BatchUrls(a + b) == BatchUrls(a) + BatchUrls(b)
  {
    if a == [] {
      assert a + b == b;
    } else {
      assert (a + b)[1..] == a[1..] + b;
      BatchUrlsAppend(a[1..], b);
    }
  }

  /** A URL is in the list exactly when some kept line strips to it. */
  lemma {:induction false} BatchUrlsMembership(lines: seq<string>, url: string)
    ensures url in BatchUrls(lines) <==> exists i :: 0 <= i < |lines| && KeepLine(lines[i]) && Strip(lines[i]) == url
  {
    if lines != [] {
      BatchUrlsMembership(lines[1..], url);
      if url in BatchUrls(lines[1..]) {
        var i :| 0 <= i < |lines[1..]| && KeepLine(lines[1..][i]) && Strip(lines[1..][i]) == url;
        assert lines[i + 1] == lines[1..][i];
      }
      if exists i :: 0 <= i < |lines| && KeepLine(lines[i]) && Strip(lines[i]) == url {
        var i :| 0 <= i < |lines| && KeepLine(lines[i]) && Strip(lines[i]) == url;
        if i > 0 {
          assert lines[1..][i - 1] == lines[i];
        }
      }
    }
  }

  /** Only the raw text is tested for `#`: an indented comment line is
      kept as a URL, while the same line unindented is dropped. */
  lemma IndentedCommentIsKept()
    ensures BatchUrls([" #x"]) == ["#x"]
    ensures BatchUrls(["#x"]) == []
  {
    assert StartsWith(" #x", "#") == false by {
      assert " #x"[..1] == " ";
    }
    assert Lead(" #x", Whitespace) == 1 by {
      assert " #x"[1..] == "#x";
      assert '#' !in Whitespace;
    }
    assert Trail(" #x", Whitespace) == 0 by {
      assert 'x' !in Whitespace;
    }
    assert Strip(" #x") == " #x"[1..3] == "#x";
    assert StartsWith("#x", "#") by {
      assert "#x"[..1] == "#";
    }
  }

  /** `options.copy()`, then `opts['progress_hooks'] = [hook]` when a
      callback is given: the copy has the hook list and every other key of
      `options`, and without a callback it is `options` itself. The
      caller's dictionary is a value here and cannot change. */
  method CopyWithHook(options: seq<(string, Value)>, callback: Option<nat>) returns (opts: seq<(string, Value)>)
    ensures callback.None? ==> opts == options
    ensures callback.Some? ==> Lookup(opts, "progress_hooks") == Some(List([HookFor(callback.value)]))
    ensures forall k :: k != "progress_hooks" ==> Lookup(opts, k) == Lookup(options, k)
  {
    opts := options;
    if callback.Some? {
      opts := SetItem(opts, "progress_hooks", List([HookFor(callback.value)]));
    }
  }

  /** The options the downloader hands yt-dlp were made from `options` by
      `CopyWithHook`. */
  ghost predicate HookedCopy(opts: seq<(string, Value)>, options: seq<(string, Value)>, callback: Option<nat>) {
    && (callback.None? ==> opts == options)
    && (callback.Some? ==> Lookup(opts, "progress_hooks") == Some(List([HookFor(callback.value)])))
    && (forall k :: k != "progress_hooks" ==> Lookup(opts, k) == Lookup(options, k))
  }

  /** The message an exception from yt-dlp gives in single-URL mode. */
  function ErrorMessage(outcome: RunOutcome): string
    requires !outcome.Completed?
  {
    match outcome
    case DownloadError(e) => "Download error: " + e
    case FileMissing(e) => "Unexpected error: " + e
    case Failed(e) => "Unexpected error: " + e
  }

  /** `_download_single`: yt-dlp is run once on the URL. */
  method DownloadSingle(url: string, options: seq<(string, Value)>, callback: Option<nat>, run: Invocation -> RunOutcome)
    returns (ok: bool, message: string, invoked: Option<Invocation>)
    ensures invoked.Some? && invoked.value.1 == [url] && HookedCopy(invoked.value.0, options, callback)
    ensures ok <==> run(invoked.value).Completed?
    ensures ok ==> message == "Successfully downloaded: " + url
    ensures run(invoked.value).DownloadError? ==> message == "Download error: " + run(invoked.value).message
    ensures run(invoked.value).FileMissing? || run(invoked.value).Failed? ==>
      message == "Unexpected error: " + run(invoked.value).message
  {
    var opts := CopyWithHook(options, callback);
    invoked := Some((opts, [url]));
    var outcome := run((opts, [url]));
    if outcome.Completed? {
      return true, "Successfully downloaded: " + url, invoked;
    }
    ok, message := false, ErrorMessage(outcome);
  }

  /** `_download_batch`: the file is read and filtered; an empty URL list
      stops before yt-dlp is run; otherwise yt-dlp is run once on all the
      URLs. A `FileNotFoundError` raised by yt-dlp lands in the same
      handler as a missing batch file. */
  method DownloadBatch(path: string, options: seq<(string, Value)>, callback: Option<nat>, read: BatchRead,
                       run: Invocation -> RunOutcome)
    returns (ok: bool, message: string, invoked: Option<Invocation>)
    ensures read.NotFound? ==> !ok && invoked.None? && message == "Batch file not found: " + path
    ensures read.Unreadable? ==> !ok && invoked.None? && message == "Unexpected error: " + read.reason
    ensures read.Lines? && BatchUrls(read.lines) == [] ==> !ok && invoked.None? && message == "Batch file is empty"
    ensures read.Lines? && BatchUrls(read.lines) != [] ==>
      && invoked.Some? && invoked.value.1 == BatchUrls(read.lines) && HookedCopy(invoked.value.0, options, callback)
      && (ok <==> run(invoked.value).Completed?)
      && (ok ==> message == "Successfully downloaded " + Decimal(|BatchUrls(read.lines)|) + " video(s)")
      && (run(invoked.value).DownloadError? ==> message == "Download error: " + run(invoked.value).message)
      && (run(invoked.value).FileMissing? ==> message == "Batch file not found: " + path)
      && (run(invoked.value).Failed? ==> message == "Unexpected error: " + run(invoked.value).message)
  {
    invoked := None;
    match read
    case NotFound =>
      return false, "Batch file not found: " + path, invoked;
    case Unreadable(reason) =>
      return false, "Unexpected error: " + reason, invoked;
    case Lines(lines) =>
      var urls := BatchUrls(lines);
      if urls == [] {
        return false, "Batch file is empty", invoked;
      }
      var opts := CopyWithHook(options, callback);
      invoked := Some((opts, urls));
      var outcome := run((opts, urls));
      match outcome
      case Completed =>
        ok, message := true, "Successfully downloaded " + Decimal(|urls|) + " video(s)";
      case DownloadError(e) =>
        ok, message := false, "Download error: " + e;
      case FileMissing(_) =>
        ok, message := false, "Batch file not found: " + path;
      case Failed(e) =>
        ok, message := false, "Unexpected error: " + e;
  }

  /** `download`: batch mode exactly when the argument names an existing
      regular file (`isBatchFile`), else the argument is one URL. */
  method Download(urlOrBatch: string, options: seq<(string, Value)>, callback: Option<nat>, isBatchFile: bool,
                  read: BatchRead, run: Invocation -> RunOutcome)
    returns (ok: bool, message: string, invoked: Option<Invocation>)
    ensures !isBatchFile ==> invoked.Some? && invoked.value.1 == [urlOrBatch]
    ensures isBatchFile ==> invoked.Some? ==> read.Lines? && invoked.value.1 == BatchUrls(read.lines) != []
    ensures invoked.Some? ==> HookedCopy(invoked.value.0, options, callback)
    ensures ok <==> invoked.Some? && run(invoked.value).Completed?
    ensures ok && !isBatchFile ==> message == "Successfully downloaded: " + urlOrBatch
    ensures ok && isBatchFile ==> message == "Successfully downloaded " + Decimal(|BatchUrls(read.lines)|) + " video(s)"
  {
    if isBatchFile {
      ok, message, invoked := DownloadBatch(urlOrBatch, options, callback, read, run);
    } else {
      ok, message, invoked := DownloadSingle(urlOrBatch, options, callback, run);
    }
  }

  /** What the hook hands the callback: the progress of a running
      download, or the end of one. */
  datatype ProgressInfo =
    | Downloading(filename: Value, downloadedBytes: Value, totalBytes: Value, speed: Value, eta: Value)
    | Finished(filename: Value)

  const DownloadingKeys: seq<string> := ["status", "filename", "downloaded_bytes", "total_bytes", "speed", "eta"]
  const FinishedKeys: seq<string> := ["status", "filename"]

  /** The dict the callback receives, with its keys in insertion order. */
  function AsDict(p: ProgressInfo): (d: seq<(string, Value)>)
    ensures p.Downloading? ==> Keys(d) == DownloadingKeys
    ensures p.Finished? ==> Keys(d) == FinishedKeys
    ensures d[0] == ("status", Str(if p.Downloading? then "downloading" else "finished")) && d[1] == ("filename", p.filename)
  {
    match p
    case Downloading(filename, downloaded, total, speed, eta) =>
      [("status", Str("downloading")), ("filename", filename), ("downloaded_bytes", downloaded),
       ("total_bytes", total), ("speed", speed), ("eta", eta)]
    case Finished(filename) =>
      [("status", Str("finished")), ("filename", filename)]
  }

  /** What the hook does with one yt-dlp progress dict `d`: call the
      callback, do nothing, or raise the `KeyError` of `d['status']`. */
  datatype HookCall = Emit(info: ProgressInfo) | Silent | MissingStatus

  /** `d.get('total_bytes') or d.get('total_bytes_estimate', 0)`. */
  function TotalBytes(d: seq<(string, Value)>): Value {
    var t := Get(d, "total_bytes");
    if Truthy(t) then t else GetOr(d, "total_bytes_estimate", Int(0))
  }

  /** The hook made by `_make_progress_hook`. */
  function Hook(d: seq<(string, Value)>): (r: HookCall)
    ensures r.MissingStatus? <==> !Has(d, "status")
    ensures r.Emit? && r.info.Downloading? <==> Lookup(d, "status") == Some(Str("downloading"))
    ensures r.Emit? && r.info.Finished? <==> Lookup(d, "status") == Some(Str("finished"))
    ensures r.Emit? ==> r.info.filename == GetOr(d, "filename", Str("Unknown"))
  {
    match Lookup(d, "status")
    case None => MissingStatus
    case Some(status) =>
      if status == Str("downloading") then
        Emit(Downloading(GetOr(d, "filename", Str("Unknown")), GetOr(d, "downloaded_bytes", Int(0)), TotalBytes(d),
                         GetOr(d, "speed", Int(0)), GetOr(d, "eta", Int(0))))
      else if status == Str("finished") then
        Emit(Finished(GetOr(d, "filename", Str("Unknown"))))
      else Silent
  }

  /** While downloading, the callback gets the six keys in order; each
      value is copied from `d` when `d` has the key and defaults otherwise,
      and `total_bytes` falls back to the estimate when it is absent or
      falsy. */
  lemma DownloadingProjection(d: seq<(string, Value)>)
    requires Lookup(d, "status") == Some(Str("downloading"))
    ensures Hook(d).Emit? && Keys(AsDict(Hook(d).info)) == DownloadingKeys
    ensures var p := Hook(d).info;
      && (Has(d, "filename") ==> p.filename == Lookup(d, "filename").value)
      && (!Has(d, "filename") ==> p.filename == Str("Unknown"))
      && (Has(d, "downloaded_bytes") ==> p.downloadedBytes == Lookup(d, "downloaded_bytes").value)
      && (!Has(d, "downloaded_bytes") ==> p.downloadedBytes == Int(0))
      && (Has(d, "speed") ==> p.speed == Lookup(d, "speed").value)
      && (!Has(d, "speed") ==> p.speed == Int(0))
      && (Has(d, "eta") ==> p.eta == Lookup(d, "eta").value)
      && (!Has(d, "eta") ==> p.eta == Int(0))
      && (Truthy(Get(d, "total_bytes")) ==> p.totalBytes == Lookup(d, "total_bytes").value)
      && (!Truthy(Get(d, "total_bytes")) && Has(d, "total_bytes_estimate") ==> p.totalBytes == Lookup(d, "total_bytes_estimate").value)
      && (!Truthy(Get(d, "total_bytes")) && !Has(d, "total_bytes_estimate") ==> p.totalBytes == Int(0))
  {
  }

  /** When a download finishes, the callback gets only the status and the
      file name; any other status calls nothing. */
  lemma FinishedProjection(d: seq<(string, Value)>)
    requires Has(d, "status")
    ensures Lookup(d, "status") == Some(Str("finished")) ==> Hook(d).Emit? && Keys(AsDict(Hook(d).info)) == FinishedKeys
    ensures Lookup(d, "status") != Some(Str("downloading")) && Lookup(d, "status") != Some(Str("finished")) ==> Hook(d) == Silent
  {
  }

  /** The hook reads nothing of `d` but the status, the file name, the byte
      counts, the speed and the ETA. */
  lemma HookReadsOnlyItsKeys(d1: seq<(string, Value)>, d2: seq<(string, Value)>)
    requires Lookup(d1, "status") == Lookup(d2, "status") && Lookup(d1, "filename") == Lookup(d2, "filename")
    requires Lookup(d1, "downloaded_bytes") == Lookup(d2, "downloaded_bytes") && Lookup(d1, "total_bytes") == Lookup(d2, "total_bytes")
    requires Lookup(d1, "total_bytes_estimate") == Lookup(d2, "total_bytes_estimate")
    requires Lookup(d1, "speed") == Lookup(d2, "speed") && Lookup(d1, "eta") == Lookup(d2, "eta")
    ensures Hook(d1) == Hook(d2)
  {
  }
}

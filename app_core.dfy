/** The two decisions of `AppCore` (src/app/app_core.py) that do not talk to
    Qt: turning the GUI's download options into a yt-dlp option dictionary,
    and reporting which external tools are missing. What `Path.exists`,
    the dependency manager and `Path.parent` report are parameters. */
module AppCore {
  import opened Wrappers
  import opened Text
  import opened PyValue

  const TitleTemplate: string := "%(title)s.%(ext)s"

  /** `str(Path(dir) / name)` for a relative `name`: an empty directory adds
      nothing and a trailing `/` is not doubled. */
  function JoinPath(dir: string, name: string): (p: string)
    ensures dir == [] ==> p == name
    ensures dir != [] ==> |p| > |name| && StartsWith(p, dir) && p[|p| - |name|..] == name && p[|p| - |name| - 1] == '/'
  {
    if dir == [] then name
    else if dir[|dir| - 1] == '/' then dir + name
    else dir + "/" + name
  }

  /** The post-processor entries the builder can add. */
  const ExtractAudio: Value := Dict([("key", Str("FFmpegExtractAudio")), ("preferredcodec", Str("mp3")), ("preferredquality", Str("192"))])
  const EmbedSubtitle: Value := Dict([("key", Str("FFmpegEmbedSubtitle"))])
  const EmbedThumbnail: Value := Dict([("key", Str("EmbedThumbnail"))])
  const SponsorCategories: seq<Value> :=
    [Str("sponsor"), Str("intro"), Str("outro"), Str("selfpromo"), Str("interaction"), Str("preview"), Str("music_offtopic")]
  const SponsorBlock: Value := Dict([("key", Str("SponsorBlock")), ("categories", List(SponsorCategories))])
  const ModifyChapters: Value := Dict([("key", Str("ModifyChapters")), ("remove_sponsor_segments", List([Str("sponsor")]))])

  /** The yt-dlp option dictionary the builder returns. Each field is one
      key: a key the builder did not set is `None`, or `false` for the
      switches, whose only value is `True`. */
  datatype YtdlpOptions = YtdlpOptions(
    outtmpl: string, progressHooks: seq<Value>, proxy: Option<string>, cookiefile: Option<string>,
    ffmpegLocation: Option<string>, format: Option<string>, postprocessors: Option<seq<Value>>,
    writethumbnail: bool, writesubtitles: bool, writeautomaticsub: bool, subtitleslangs: Option<seq<string>>,
    writeinfojson: bool, writedescription: bool, getcomments: bool, splitChapters: bool)

  /** A GUI option is on when its value is truthy (`dict.get` gives `None`
      for a missing one). */
  predicate On(options: seq<(string, Value)>, key: string) {
    Truthy(Get(options, key))
  }

  /** The GUI options `_build_ytdlp_options` reads, each truthy or not. */
  datatype Flags = Flags(
    audioOnly: bool, writeThumbnail: bool, embedThumbnail: bool, writeSubs: bool,
    writeMetadata: bool, writeComments: bool, splitChapters: bool, sponsorblock: bool)

  function ReadFlags(options: seq<(string, Value)>): (f: Flags)
    ensures f.audioOnly == On(options, "audio_only") && f.writeThumbnail == On(options, "write_thumbnail")
    ensures f.embedThumbnail == On(options, "embed_thumbnail") && f.writeSubs == On(options, "write_subs")
    ensures f.writeMetadata == On(options, "write_metadata") && f.writeComments == On(options, "write_comments")
    ensures f.splitChapters == On(options, "split_chapters") && f.sponsorblock == On(options, "sponsorblock")
  {
    Flags(On(options, "audio_only"), On(options, "write_thumbnail"), On(options, "embed_thumbnail"),
          On(options, "write_subs"), On(options, "write_metadata"), On(options, "write_comments"),
          On(options, "split_chapters"), On(options, "sponsorblock"))
  }

  /** `opts.get('postprocessors', [])`. */
  function PostProcessorsOf(opts: YtdlpOptions): seq<Value> {
    if opts.postprocessors.Some? then opts.postprocessors.value else []
  }

  /** The post-processor list for the three options that add entries, in
      the order the builder appends them. */
  function PostProcessors(audio: bool, embed: bool, sponsor: bool): (pp: seq<Value>)
    ensures |pp| == (if audio then 1 else 0) + (if embed then 2 else 0) + (if sponsor then 2 else 0)
    ensures audio ==> pp[0] == ExtractAudio
  {
    (if audio then [ExtractAudio] else [])
      + (if embed then [EmbedSubtitle, EmbedThumbnail] else [])
      + (if sponsor then [SponsorBlock, ModifyChapters] else [])
  }

  /** The entries come in the order extract audio, embed subtitles, embed
      thumbnail, SponsorBlock, modify chapters; adding an option only
      appends to what the earlier ones produced. */
  lemma PostProcessorOrder(audio: bool, embed: bool, sponsor: bool)
    ensures var pp := PostProcessors(audio, embed, sponsor);
      && (audio ==> pp[0] == ExtractAudio)
      && (embed ==> var i := if audio then 1 else 0; pp[i] == EmbedSubtitle && pp[i + 1] == EmbedThumbnail)
      && (sponsor ==> pp[|pp| - 2] == SponsorBlock && pp[|pp| - 1] == ModifyChapters)
      && PostProcessors(audio, embed, false) <= pp
      && PostProcessors(audio, false, false) <= PostProcessors(audio, embed, false)
  {
  }

  /** The SponsorBlock option only appends its two entries. */
  lemma SponsorBlockAppends(audio: bool, embed: bool)
    ensures PostProcessors(audio, embed, false) + [SponsorBlock, ModifyChapters] == PostProcessors(audio, embed, true)
  {
  }

  /** `_build_ytdlp_options`: the dictionary is built key by key and the
      post-processor list appended to in place. Every key is stated by the
      GUI options that set it; a key no option sets is absent. */
  method BuildOptions(outputPath: string, options: seq<(string, Value)>, proxy: string, cookiesFile: string,
                      cookiesExist: bool, ffmpegDir: Option<string>)
    returns (opts: YtdlpOptions)
    ensures opts.outtmpl == JoinPath(outputPath, TitleTemplate) && opts.progressHooks == []
    ensures opts.proxy == if proxy != [] then Some("socks5://" + proxy) else None
    ensures opts.cookiefile == if cookiesFile != [] && cookiesExist then Some(cookiesFile) else None
    ensures opts.ffmpegLocation == ffmpegDir
    ensures opts.format == Some(if On(options, "audio_only") then "bestaudio/best" else "bestvideo+bestaudio/best")
    ensures var audio, embed, sponsor := On(options, "audio_only"), On(options, "embed_thumbnail"), On(options, "sponsorblock");
      opts.postprocessors == if audio || embed || sponsor then Some(PostProcessors(audio, embed, sponsor)) else None
    ensures opts.writethumbnail <==> On(options, "write_thumbnail") || On(options, "embed_thumbnail") || On(options, "write_metadata")
    ensures opts.writesubtitles == opts.writeautomaticsub == On(options, "write_subs")
    ensures opts.subtitleslangs == if On(options, "write_subs") then Some(["en"]) else None
    ensures opts.writeinfojson <==> On(options, "write_metadata") || On(options, "write_comments")
    ensures opts.writedescription == On(options, "write_metadata")
    ensures opts.getcomments == On(options, "write_comments")
    ensures opts.splitChapters == On(options, "split_chapters")
  {
    var f := ReadFlags(options);
    var base := ConnectionOptions(outputPath, proxy, cookiesFile, cookiesExist, ffmpegDir);
    var formatted := AddFormat(base, f);
    var extended := AddExtras(formatted, f);
    opts := AddSponsorBlock(extended, f);
    SponsorBlockAppends(f.audioOnly, f.embedThumbnail);
  }

  /** The output template, the progress hooks, the proxy, the cookie file
      and the ffmpeg location; nothing else is set yet. */
  method ConnectionOptions(outputPath: string, proxy: string, cookiesFile: string, cookiesExist: bool, ffmpegDir: Option<string>)
    returns (opts: YtdlpOptions)
    ensures opts == YtdlpOptions(JoinPath(outputPath, TitleTemplate), [],
      if proxy != [] then Some("socks5://" + proxy) else None,
      if cookiesFile != [] && cookiesExist then Some(cookiesFile) else None,
      ffmpegDir, None, None, false, false, false, None, false, false, false, false)
  {
    opts := YtdlpOptions(JoinPath(outputPath, TitleTemplate), [], None, None, None, None, None,
                         false, false, false, None, false, false, false, false);
    if proxy != [] {
      opts := opts.(proxy := Some("socks5://" + proxy));
    }
    if cookiesFile != [] && cookiesExist {
      opts := opts.(cookiefile := Some(cookiesFile));
    }
    if ffmpegDir.Some? {
      opts := opts.(ffmpegLocation := Some(ffmpegDir.value));
    }
  }

  /** The format, the audio extraction, `write_thumbnail` and `embed_thumbnail`. */
  method AddFormat(opts0: YtdlpOptions, f: Flags) returns (opts: YtdlpOptions)
    requires opts0.postprocessors == None
    ensures opts == opts0.(
      format := Some(if f.audioOnly then "bestaudio/best" else "bestvideo+bestaudio/best"),
      postprocessors := if f.audioOnly || f.embedThumbnail then Some(PostProcessors(f.audioOnly, f.embedThumbnail, false)) else None,
      writethumbnail := opts0.writethumbnail || f.writeThumbnail || f.embedThumbnail)
  {
    opts := opts0;
    if f.audioOnly {
      opts := opts.(format := Some("bestaudio/best"), postprocessors := Some([ExtractAudio]));
      assert [ExtractAudio] == PostProcessors(true, false, false);
    } else {
      opts := opts.(format := Some("bestvideo+bestaudio/best"));
    }
    if f.writeThumbnail {
      opts := opts.(writethumbnail := true);
    }
    if f.embedThumbnail {
      opts := opts.(writethumbnail := true);
      var pp := PostProcessorsOf(opts);
      opts := opts.(postprocessors := Some(pp));
      pp := pp + [EmbedSubtitle];
      opts := opts.(postprocessors := Some(pp));
      pp := pp + [EmbedThumbnail];
      opts := opts.(postprocessors := Some(pp));
      assert pp == PostProcessors(f.audioOnly, true, false);
    }
  }

  /** Subtitles, metadata, comments and chapters. */
  method AddExtras(opts0: YtdlpOptions, f: Flags) returns (opts: YtdlpOptions)
    ensures opts == opts0.(
      writesubtitles := opts0.writesubtitles || f.writeSubs,
      writeautomaticsub := opts0.writeautomaticsub || f.writeSubs,
      subtitleslangs := if f.writeSubs then Some(["en"]) else opts0.subtitleslangs,
      writethumbnail := opts0.writethumbnail || f.writeMetadata,
      writeinfojson := opts0.writeinfojson || f.writeMetadata || f.writeComments,
      writedescription := opts0.writedescription || f.writeMetadata,
      getcomments := opts0.getcomments || f.writeComments,
      splitChapters := opts0.splitChapters || f.splitChapters)
  {
    opts := opts0;
    if f.writeSubs {
      opts := opts.(writesubtitles := true, writeautomaticsub := true, subtitleslangs := Some(["en"]));
    }
    if f.writeMetadata {
      opts := opts.(writethumbnail := true, writeinfojson := true, writedescription := true);
    }
    if f.writeComments {
      opts := opts.(getcomments := true, writeinfojson := true);
    }
    if f.splitChapters {
      opts := opts.(splitChapters := true);
    }
  }

  /** The SponsorBlock entries, appended only for the `sponsorblock` option. */
  method AddSponsorBlock(opts0: YtdlpOptions, f: Flags) returns (opts: YtdlpOptions)
    ensures opts == if f.sponsorblock then opts0.(postprocessors := Some(PostProcessorsOf(opts0) + [SponsorBlock, ModifyChapters])) else opts0
  {
    opts := opts0;
    if f.sponsorblock {
      var pp := PostProcessorsOf(opts);
      opts := opts.(postprocessors := Some(pp));
      pp := pp + [SponsorBlock];
      opts := opts.(postprocessors := Some(pp));
      pp := pp + [ModifyChapters];
      opts := opts.(postprocessors := Some(pp));
      assert pp == PostProcessorsOf(opts0) + [SponsorBlock, ModifyChapters];
    }
  }

  /** `check_dependencies`: the missing tools are collected in the order
      yt-dlp, ffmpeg. */
  method CheckDependencies(ytdlpAvailable: bool, ffmpegAvailable: bool) returns (ok: bool, message: string)
    ensures ok <==> ytdlpAvailable && ffmpegAvailable
    ensures ok ==> message == "All dependencies available"
    ensures !ytdlpAvailable && !ffmpegAvailable ==> message == "Missing dependencies: yt-dlp, ffmpeg"
    ensures !ytdlpAvailable && ffmpegAvailable ==> message == "Missing dependencies: yt-dlp"
    ensures ytdlpAvailable && !ffmpegAvailable ==> message == "Missing dependencies: ffmpeg"
  {
    var missing: seq<string> := [];
    if !ytdlpAvailable {
      missing := missing + ["yt-dlp"];
    }
    if !ffmpegAvailable {
      missing := missing + ["ffmpeg"];
    }
    if missing != [] {
      assert Join(["ffmpeg"], ", ") == "ffmpeg";
      assert ["yt-dlp", "ffmpeg"][1..] == ["ffmpeg"];
      return false, "Missing dependencies: " + Join(missing, ", ");
    }
    return true, "All dependencies available";
  }
}

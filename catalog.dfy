/**
 * The stream catalog built by the analyze handler from the resolver's format
 * listing: one video option per height (the last qualifying descriptor of that
 * height wins), one audio track per language (the first qualifying descriptor
 * of that language wins), and the subtitle languages, each list sorted.
 */
module Catalog {
  import opened Wrappers
  import opened Strings
  import opened Dicts
  import opened Sorting

  /** One entry of the resolver's `formats` list; every field may be absent. */
  datatype Descriptor = Descriptor(
    formatId: Option<string>,
    vcodec: Option<string>,
    acodec: Option<string>,
    height: Option<int>,
    filesize: Option<int>,
    filesizeApprox: Option<int>,
    ext: Option<string>,
    language: Option<string>)

  /** An entry of `qualities`. The human-readable size text is not modelled. */
  datatype VideoOption = VideoOption(
    quality: string, height: int, filesizeBytes: int, formatId: string, ext: Option<string>)

  /** An entry of `audio_tracks`. */
  datatype AudioTrack = AudioTrack(lang: string, formatId: string)

  /** What the resolver extracted: metadata, formats and the keys of its `subtitles` dict. */
  datatype MediaInfo = MediaInfo(
    title: Option<string>,
    thumbnail: Option<string>,
    uploader: Option<string>,
    duration: Option<int>,
    formats: seq<Descriptor>,
    subtitleLangs: seq<string>)

  /** The success response of the analyze handler. */
  datatype StreamCatalog = StreamCatalog(
    title: Option<string>,
    thumbnail: Option<string>,
    channel: Option<string>,
    duration: Option<int>,
    qualities: seq<VideoOption>,
    audioTracks: seq<AudioTrack>,
    subtitles: seq<string>)

  /** The message of the `KeyError` raised by `f['format_id']` on a descriptor without one. */
  const MissingFormatId := "'format_id'"
  const UnknownLanguage := "Unknown"

  function Height(o: VideoOption): int { o.height }
  function Lang(t: AudioTrack): string { t.lang }
  /** A subtitle language code, which is its own sort key. */
  function SubtitleLang(code: string): string { code }

  /** `f.get('vcodec') != 'none'` and a truthy `height`. */
  predicate IsVideoCandidate(f: Descriptor) {
    f.vcodec != Some("none") && f.height.Some? && f.height.value != 0
  }

  /** `f.get('vcodec') == 'none' and f.get('acodec') != 'none'`. */
  predicate IsAudioCandidate(f: Descriptor) {
    f.vcodec == Some("none") && f.acodec != Some("none")
  }

  /** `f.get('filesize') or f.get('filesize_approx') or 0`: the first present, non-zero estimate. */
  function SizeEstimate(f: Descriptor): (n: int)
    ensures f.filesize.Some? && f.filesize.value != 0 ==> n == f.filesize.value
    ensures (f.filesize.None? || f.filesize.value == 0) && f.filesizeApprox.Some? ==> n == f.filesizeApprox.value
    ensures (f.filesize.None? || f.filesize.value == 0) && f.filesizeApprox.None? ==> n == 0
  {
    if f.filesize.Some? && f.filesize.value != 0 then f.filesize.value
    else if f.filesizeApprox.Some? && f.filesizeApprox.value != 0 then f.filesizeApprox.value
    else 0
  }

  /** `f.get('language') or 'Unknown'`: an absent or empty tag becomes "Unknown". */
  function LanguageOf(f: Descriptor): (lang: string)
    ensures lang != ""
    ensures f.language.Some? && f.language.value != "" ==> lang == f.language.value
    ensures !(f.language.Some? && f.language.value != "") ==> lang == "Unknown"
  {
    if f.language.Some? && f.language.value != "" then f.language.value else UnknownLanguage
  }

  /** The video option a qualifying descriptor contributes. */
  function OptionOf(f: Descriptor): (o: VideoOption)
    requires IsVideoCandidate(f) && f.formatId.Some?
    ensures o.height == f.height.value && o.formatId == f.formatId.value
    ensures o.quality == IntToString(f.height.value) + "p"
    ensures o.filesizeBytes == SizeEstimate(f) && o.ext == f.ext
  {
    var h := f.height.value;
    VideoOption(IntToString(h) + "p", h, SizeEstimate(f), f.formatId.value, f.ext)
  }

  /** The audio track a qualifying descriptor contributes. */
  function TrackOf(f: Descriptor): (t: AudioTrack)
    requires f.formatId.Some?
    ensures t.lang == LanguageOf(f) && t.formatId == f.formatId.value
  {
    AudioTrack(LanguageOf(f), f.formatId.value)
  }

  /** Among the first `n` descriptors, `fs[k]` is the last video candidate of its height. */
  ghost predicate LastOfHeight(fs: seq<Descriptor>, n: int, k: int) {
    && 0 <= k < n <= |fs|
    && IsVideoCandidate(fs[k])
    && forall j :: k < j < n && IsVideoCandidate(fs[j]) ==> fs[j].height.value != fs[k].height.value
  }

  /** `fs[k]` is the first audio candidate of its language. */
  ghost predicate FirstOfLanguage(fs: seq<Descriptor>, k: int) {
    && 0 <= k < |fs|
    && IsAudioCandidate(fs[k])
    && forall j :: 0 <= j < k && IsAudioCandidate(fs[j]) ==> LanguageOf(fs[j]) != LanguageOf(fs[k])
  }

  /** The analyze loops raise on a video candidate without a format id ... */
  ghost predicate VideoIdMissing(fs: seq<Descriptor>) {
    exists k :: 0 <= k < |fs| && IsVideoCandidate(fs[k]) && fs[k].formatId.None?
  }

  /** ... and on the first audio candidate of a language without one. */
  ghost predicate AudioIdMissing(fs: seq<Descriptor>) {
    exists k :: FirstOfLanguage(fs, k) && fs[k].formatId.None?
  }

  /** `o` is the option of the last video candidate of its height. */
  ghost predicate IsWinningOption(fs: seq<Descriptor>, o: VideoOption) {
    exists k :: LastOfHeight(fs, |fs|, k) && fs[k].formatId.Some? && o == OptionOf(fs[k])
  }

  /** `t` is the track of the first audio candidate of its language. */
  ghost predicate IsWinningTrack(fs: seq<Descriptor>, t: AudioTrack) {
    exists k :: FirstOfLanguage(fs, k) && fs[k].formatId.Some? && t == TrackOf(fs[k])
  }

  ghost predicate HasHeight(opts: seq<VideoOption>, h: int) {
    exists o :: o in opts && o.height == h
  }

  ghost predicate HasLanguage(tracks: seq<AudioTrack>, l: string) {
    exists t :: t in tracks && t.lang == l
  }

  /**
   * `opts` holds exactly the options of the last video candidate of each height:
   * every entry comes from such a descriptor, and every candidate height has an entry.
   */
  ghost predicate IsVideoCatalog(fs: seq<Descriptor>, opts: seq<VideoOption>) {
    && (forall o :: o in opts ==> IsWinningOption(fs, o))
    && (forall k :: 0 <= k < |fs| && IsVideoCandidate(fs[k]) ==> HasHeight(opts, fs[k].height.value))
  }

  /**
   * `tracks` holds exactly the tracks of the first audio candidate of each language.
   */
  ghost predicate IsAudioCatalog(fs: seq<Descriptor>, tracks: seq<AudioTrack>) {
    && (forall t :: t in tracks ==> IsWinningTrack(fs, t))
    && (forall k :: 0 <= k < |fs| && IsAudioCandidate(fs[k]) ==> HasLanguage(tracks, LanguageOf(fs[k])))
  }

  /**
   * What the first loop knows after `n` descriptors: every candidate so far has a
   * format id and an entry for its height, and each entry is the option of the
   * last candidate of that height so far (`source` names it).
   */
  ghost predicate VideoTable(fs: seq<Descriptor>, n: nat, d: Dict<int, VideoOption>, source: map<int, nat>) {
    && n <= |fs|
    && d.Valid()
    && (forall k :: 0 <= k < n && IsVideoCandidate(fs[k]) ==>
          fs[k].formatId.Some? && fs[k].height.value in d.entries)
    && (forall h :: h in d.entries ==>
          && h in source
          && LastOfHeight(fs, n, source[h])
          && fs[source[h]].height.value == h
          && fs[source[h]].formatId.Some?
          && d.entries[h] == OptionOf(fs[source[h]]))
  }

  /** A candidate of another height (or a non-candidate) keeps `fs[k]` the last of its height. */
  lemma LastOfHeightExtend(fs: seq<Descriptor>, n: nat, k: nat)
    requires LastOfHeight(fs, n, k) && n < |fs|
    requires IsVideoCandidate(fs[n]) ==> fs[n].height.value != fs[k].height.value
    ensures LastOfHeight(fs, n + 1, k)
  {
  }

  lemma VideoTableStep(fs: seq<Descriptor>, n: nat, d: Dict<int, VideoOption>, source: map<int, nat>)
    requires VideoTable(fs, n, d, source) && n < |fs|
    requires IsVideoCandidate(fs[n]) && fs[n].formatId.Some?
    ensures VideoTable(fs, n + 1, d.Put(fs[n].height.value, OptionOf(fs[n])), source[fs[n].height.value := n])
  {
    var h := fs[n].height.value;
    var d', source' := d.Put(h, OptionOf(fs[n])), source[h := n];
    forall k | 0 <= k < n + 1 && IsVideoCandidate(fs[k])
      ensures fs[k].formatId.Some? && fs[k].height.value in d'.entries
    {
    }
    forall h' | h' in d'.entries
      ensures h' in source' && LastOfHeight(fs, n + 1, source'[h'])
      ensures fs[source'[h']].height.value == h' && fs[source'[h']].formatId.Some?
      ensures d'.entries[h'] == OptionOf(fs[source'[h']])
    {
      if h' != h {
        assert h' in d.entries;
        LastOfHeightExtend(fs, n, source[h']);
      }
    }
  }

  lemma VideoTableSkip(fs: seq<Descriptor>, n: nat, d: Dict<int, VideoOption>, source: map<int, nat>)
    requires VideoTable(fs, n, d, source) && n < |fs| && !IsVideoCandidate(fs[n])
    ensures VideoTable(fs, n + 1, d, source)
  {
    forall h | h in d.entries ensures LastOfHeight(fs, n + 1, source[h]) {
      LastOfHeightExtend(fs, n, source[h]);
    }
  }

  lemma VideoTableDone(fs: seq<Descriptor>, d: Dict<int, VideoOption>, source: map<int, nat>)
    requires VideoTable(fs, |fs|, d, source)
    ensures IsVideoCatalog(fs, d.Values()) && DistinctKeys(d.Values(), Height)
  {
    VideoEntriesAreWinners(fs, d, source);
    VideoEntriesCoverCandidates(fs, d, source);
  }

  lemma VideoEntriesAreWinners(fs: seq<Descriptor>, d: Dict<int, VideoOption>, source: map<int, nat>)
    requires VideoTable(fs, |fs|, d, source)
    ensures forall o :: o in d.Values() ==> IsWinningOption(fs, o)
    ensures DistinctKeys(d.Values(), Height)
  {
    var values := d.Values();
    forall i | 0 <= i < |values|
      ensures d.keys[i] in d.entries && d.keys[i] in source
      ensures var k := source[d.keys[i]];
        LastOfHeight(fs, |fs|, k) && fs[k].formatId.Some? && values[i] == OptionOf(fs[k])
      ensures Height(values[i]) == d.keys[i]
    {
      var h := d.keys[i];
      assert h in d.entries;
      assert h in source && LastOfHeight(fs, |fs|, source[h]);
    }
    forall o | o in values ensures IsWinningOption(fs, o) {
      var i :| 0 <= i < |values| && values[i] == o;
      var k := source[d.keys[i]];
      assert LastOfHeight(fs, |fs|, k) && fs[k].formatId.Some? && o == OptionOf(fs[k]);
    }
  }

  lemma VideoEntriesCoverCandidates(fs: seq<Descriptor>, d: Dict<int, VideoOption>, source: map<int, nat>)
    requires VideoTable(fs, |fs|, d, source)
    ensures forall k :: 0 <= k < |fs| && IsVideoCandidate(fs[k]) ==> HasHeight(d.Values(), fs[k].height.value)
  {
    var values := d.Values();
    forall k | 0 <= k < |fs| && IsVideoCandidate(fs[k])
      ensures HasHeight(values, fs[k].height.value)
    {
      var h := fs[k].height.value;
      var i :| 0 <= i < |d.keys| && d.keys[i] == h;
      assert values[i] in values && values[i].height == h;
    }
  }

  /** The first loop of the analyze handler: fill `video_options` keyed by height. */
  method CollectVideoOptions(formats: seq<Descriptor>) returns (r: Result<seq<VideoOption>>)
    ensures r.Failure? <==> VideoIdMissing(formats)
    ensures r.Failure? ==> r.error == MissingFormatId
    ensures r.Success? ==> IsVideoCatalog(formats, r.value) && DistinctKeys(r.value, Height)
  {
    var options: Dict<int, VideoOption> := Empty();
    ghost var source: map<int, nat> := map[];
    var n := 0;
    while n < |formats|
      invariant VideoTable(formats, n, options, source)
    {
      var f := formats[n];
      if f.vcodec != Some("none") && f.height.Some? && f.height.value != 0 {
        var height := f.height.value;
        if f.formatId.None? {
          return Failure(MissingFormatId);
        }
        // Both branches of the source's `if height not in video_options` store the same record.
        VideoTableStep(formats, n, options, source);
        options := options.Put(height, VideoOption(IntToString(height) + "p", height, SizeEstimate(f), f.formatId.value, f.ext));
        source := source[height := n];
      } else {
        VideoTableSkip(formats, n, options, source);
      }
      n := n + 1;
    }
    VideoTableDone(formats, options, source);
    r := Success(options.Values());
  }

  /**
   * What the second loop knows after `n` descriptors: each first-of-language
   * candidate so far has a format id, every candidate's language has an entry,
   * and each entry is the track of the first candidate of that language.
   */
  ghost predicate AudioTable(fs: seq<Descriptor>, n: nat, d: Dict<string, AudioTrack>, source: map<string, nat>) {
    && n <= |fs|
    && d.Valid()
    && (forall k :: 0 <= k < n && FirstOfLanguage(fs, k) ==> fs[k].formatId.Some?)
    && (forall k :: 0 <= k < n && IsAudioCandidate(fs[k]) ==> LanguageOf(fs[k]) in d.entries)
    && (forall l :: l in d.entries ==>
          && l in source
          && source[l] < n
          && FirstOfLanguage(fs, source[l])
          && LanguageOf(fs[source[l]]) == l
          && fs[source[l]].formatId.Some?
          && d.entries[l] == TrackOf(fs[source[l]]))
  }

  lemma AudioTableInsert(fs: seq<Descriptor>, n: nat, d: Dict<string, AudioTrack>, source: map<string, nat>)
    requires AudioTable(fs, n, d, source) && n < |fs|
    requires IsAudioCandidate(fs[n]) && LanguageOf(fs[n]) !in d.entries
    ensures FirstOfLanguage(fs, n)
    ensures fs[n].formatId.Some? ==>
      AudioTable(fs, n + 1, d.Put(LanguageOf(fs[n]), TrackOf(fs[n])), source[LanguageOf(fs[n]) := n])
  {
    var l := LanguageOf(fs[n]);
    forall j | 0 <= j < n && IsAudioCandidate(fs[j]) ensures LanguageOf(fs[j]) != l {
      assert LanguageOf(fs[j]) in d.entries;
    }
    if fs[n].formatId.Some? {
      var d', source' := d.Put(l, TrackOf(fs[n])), source[l := n];
      forall k | 0 <= k < n + 1 && FirstOfLanguage(fs, k) ensures fs[k].formatId.Some? {
      }
      forall k | 0 <= k < n + 1 && IsAudioCandidate(fs[k]) ensures LanguageOf(fs[k]) in d'.entries {
      }
      forall l' | l' in d'.entries
        ensures l' in source' && source'[l'] < n + 1 && FirstOfLanguage(fs, source'[l'])
        ensures LanguageOf(fs[source'[l']]) == l' && fs[source'[l']].formatId.Some?
        ensures d'.entries[l'] == TrackOf(fs[source'[l']])
      {
        if l' != l {
          assert l' in d.entries;
        }
      }
    }
  }

  lemma AudioTableSkip(fs: seq<Descriptor>, n: nat, d: Dict<string, AudioTrack>, source: map<string, nat>)
    requires AudioTable(fs, n, d, source) && n < |fs|
    requires IsAudioCandidate(fs[n]) ==> LanguageOf(fs[n]) in d.entries
    ensures AudioTable(fs, n + 1, d, source)
  {
    var firstHere := FirstOfLanguage(fs, n);
    if IsAudioCandidate(fs[n]) {
      var j := source[LanguageOf(fs[n])];
      LaterNotFirst(fs, j, n);
    }
    assert !firstHere;
    forall k | 0 <= k < n + 1 && FirstOfLanguage(fs, k) ensures fs[k].formatId.Some? {
      if k == n {
        assert false;
      }
    }
    forall k | 0 <= k < n + 1 && IsAudioCandidate(fs[k]) ensures LanguageOf(fs[k]) in d.entries {
      if k == n {
        assert IsAudioCandidate(fs[n]);
      }
    }
  }

  /** A candidate after another of the same language is not the first of it. */
  lemma LaterNotFirst(fs: seq<Descriptor>, j: nat, n: nat)
    requires j < n < |fs| && IsAudioCandidate(fs[j]) && LanguageOf(fs[j]) == LanguageOf(fs[n])
    ensures !FirstOfLanguage(fs, n)
  {
  }

  lemma AudioTableDone(fs: seq<Descriptor>, d: Dict<string, AudioTrack>, source: map<string, nat>)
    requires AudioTable(fs, |fs|, d, source)
    ensures IsAudioCatalog(fs, d.Values()) && DistinctKeys(d.Values(), Lang)
  {
    AudioEntriesAreFirsts(fs, d, source);
    AudioEntriesCoverCandidates(fs, d, source);
  }

  lemma AudioEntriesAreFirsts(fs: seq<Descriptor>, d: Dict<string, AudioTrack>, source: map<string, nat>)
    requires AudioTable(fs, |fs|, d, source)
    ensures forall t :: t in d.Values() ==> IsWinningTrack(fs, t)
    ensures DistinctKeys(d.Values(), Lang)
  {
    var values := d.Values();
    forall i | 0 <= i < |values|
      ensures d.keys[i] in d.entries && d.keys[i] in source
      ensures var k := source[d.keys[i]];
        FirstOfLanguage(fs, k) && fs[k].formatId.Some? && values[i] == TrackOf(fs[k])
      ensures Lang(values[i]) == d.keys[i]
    {
      assert d.keys[i] in d.entries;
    }
    forall t | t in values ensures IsWinningTrack(fs, t) {
      var i :| 0 <= i < |values| && values[i] == t;
      var k := source[d.keys[i]];
      assert FirstOfLanguage(fs, k) && fs[k].formatId.Some? && t == TrackOf(fs[k]);
    }
  }

  lemma AudioEntriesCoverCandidates(fs: seq<Descriptor>, d: Dict<string, AudioTrack>, source: map<string, nat>)
    requires AudioTable(fs, |fs|, d, source)
    ensures forall k :: 0 <= k < |fs| && IsAudioCandidate(fs[k]) ==> HasLanguage(d.Values(), LanguageOf(fs[k]))
  {
    var values := d.Values();
    forall k | 0 <= k < |fs| && IsAudioCandidate(fs[k])
      ensures HasLanguage(values, LanguageOf(fs[k]))
    {
      var l := LanguageOf(fs[k]);
      var i :| 0 <= i < |d.keys| && d.keys[i] == l;
      assert values[i] in values && values[i].lang == l;
    }
  }

  /** The second loop of the analyze handler: fill `audio_map` keyed by language. */
  method CollectAudioTracks(formats: seq<Descriptor>) returns (r: Result<seq<AudioTrack>>)
    ensures r.Failure? <==> AudioIdMissing(formats)
    ensures r.Failure? ==> r.error == MissingFormatId
    ensures r.Success? ==> IsAudioCatalog(formats, r.value) && DistinctKeys(r.value, Lang)
  {
    var tracks: Dict<string, AudioTrack> := Empty();
    ghost var source: map<string, nat> := map[];
    var n := 0;
    while n < |formats|
      invariant AudioTable(formats, n, tracks, source)
    {
      var f := formats[n];
      if f.vcodec == Some("none") && f.acodec != Some("none") {
        var lang := if f.language.Some? && f.language.value != "" then f.language.value else UnknownLanguage;
        if lang !in tracks.entries {
          AudioTableInsert(formats, n, tracks, source);
          if f.formatId.None? {
            return Failure(MissingFormatId);
          }
          tracks := tracks.Put(lang, AudioTrack(lang, f.formatId.value));
          source := source[lang := n];
        } else {
          AudioTableSkip(formats, n, tracks, source);
        }
      } else {
        AudioTableSkip(formats, n, tracks, source);
      }
      n := n + 1;
    }
    AudioTableDone(formats, tracks, source);
    r := Success(tracks.Values());
  }

  /** The success response describes `info`: its metadata, and the three lists built and sorted. */
  ghost predicate IsCatalogOf(info: MediaInfo, c: StreamCatalog) {
    && c.title == info.title && c.thumbnail == info.thumbnail
    && c.channel == info.uploader && c.duration == info.duration
    && IsVideoCatalog(info.formats, c.qualities) && DescendingBy(c.qualities, Height)
    && IsAudioCatalog(info.formats, c.audioTracks) && AscendingBy(c.audioTracks, Lang)
    && multiset(c.subtitles) == multiset(info.subtitleLangs) && AscendingBy(c.subtitles, SubtitleLang)
  }

  lemma VideoCatalogPermuted(fs: seq<Descriptor>, a: seq<VideoOption>, b: seq<VideoOption>)
    requires IsVideoCatalog(fs, a) && multiset(a) == multiset(b)
    ensures IsVideoCatalog(fs, b)
  {
    forall o | o in b ensures IsWinningOption(fs, o) {
      assert o in multiset(a);
    }
    forall h | HasHeight(a, h) ensures HasHeight(b, h) {
      var o :| o in a && o.height == h;
      assert o in multiset(b);
    }
  }

  lemma AudioCatalogPermuted(fs: seq<Descriptor>, a: seq<AudioTrack>, b: seq<AudioTrack>)
    requires IsAudioCatalog(fs, a) && multiset(a) == multiset(b)
    ensures IsAudioCatalog(fs, b)
  {
    forall t | t in b ensures IsWinningTrack(fs, t) {
      assert t in multiset(a);
    }
    forall l | HasLanguage(a, l) ensures HasLanguage(b, l) {
      var t :| t in a && t.lang == l;
      assert t in multiset(b);
    }
  }

  /**
   * The analyze handler once the resolver has answered (or raised): the two
   * collecting loops, then `sorted` on the video options (height, descending),
   * on the audio tracks (language, ascending) and on the subtitle keys.
   * The subtitle keys are those of a dict, hence distinct.
   */
  method Analyze(extracted: Result<MediaInfo>) returns (r: Result<StreamCatalog>)
    requires extracted.Success? ==> DistinctKeys(extracted.value.subtitleLangs, SubtitleLang)
    ensures extracted.Failure? ==> r == Failure(extracted.error)
    ensures extracted.Success? ==>
      (r.Failure? <==> VideoIdMissing(extracted.value.formats) || AudioIdMissing(extracted.value.formats))
    ensures extracted.Success? && r.Failure? ==> r.error == MissingFormatId
    ensures r.Success? ==> extracted.Success? && IsCatalogOf(extracted.value, r.value)
  {
    if extracted.Failure? {
      return Failure(extracted.error);
    }
    var info := extracted.value;
    var video := CollectVideoOptions(info.formats);
    if video.Failure? {
      return Failure(video.error);
    }
    var audio := CollectAudioTracks(info.formats);
    if audio.Failure? {
      return Failure(audio.error);
    }
    var qualities := SortDescending(video.value, Height);
    VideoCatalogPermuted(info.formats, video.value, qualities);
    var audioTracks := SortAscending(audio.value, Lang);
    AudioCatalogPermuted(info.formats, audio.value, audioTracks);
    var subtitles := SortAscending(info.subtitleLangs, SubtitleLang);
    r := Success(StreamCatalog(info.title, info.thumbnail, info.uploader, info.duration,
                               qualities, audioTracks, subtitles));
  }

  /**
   * In a catalog, the entry for the height of the last qualifying descriptor of
   * that height is that descriptor's option (its format id, size and extension),
   * and it is the only entry of that height.
   */
  lemma LastDescriptorWinsHeight(fs: seq<Descriptor>, opts: seq<VideoOption>, k: nat)
    requires IsVideoCatalog(fs, opts) && DistinctKeys(opts, Height)
    requires LastOfHeight(fs, |fs|, k) && fs[k].formatId.Some?
    ensures exists i :: 0 <= i < |opts| && opts[i] == OptionOf(fs[k])
    ensures forall i :: 0 <= i < |opts| && opts[i].height == fs[k].height.value ==> opts[i] == OptionOf(fs[k])
  {
    var h := fs[k].height.value;
    var o :| o in opts && o.height == h;
    var k' :| LastOfHeight(fs, |fs|, k') && fs[k'].formatId.Some? && o == OptionOf(fs[k']);
    LastOfHeightUnique(fs, k, k');
    var i :| 0 <= i < |opts| && opts[i] == o;
    OnlyOneOfHeight(opts, i);
  }

  /** Two last descriptors of the same height are the same descriptor. */
  lemma LastOfHeightUnique(fs: seq<Descriptor>, k: nat, k': nat)
    requires LastOfHeight(fs, |fs|, k) && LastOfHeight(fs, |fs|, k')
    requires fs[k].height.value == fs[k'].height.value
    ensures k == k'
  {
  }

  lemma OnlyOneOfHeight(opts: seq<VideoOption>, i: nat)
    requires DistinctKeys(opts, Height) && i < |opts|
    ensures forall j :: 0 <= j < |opts| && opts[j].height == opts[i].height ==> opts[j] == opts[i]
  {
    forall j | 0 <= j < |opts| && opts[j].height == opts[i].height ensures opts[j] == opts[i] {
      assert Height(opts[j]) == Height(opts[i]);
    }
  }

  /**
   * In a catalog, the track for the language of the first qualifying audio
   * descriptor of that language is that descriptor's track, and it is the
   * only track of that language.
   */
  lemma FirstDescriptorWinsLanguage(fs: seq<Descriptor>, tracks: seq<AudioTrack>, k: nat)
    requires IsAudioCatalog(fs, tracks) && DistinctKeys(tracks, Lang)
    requires FirstOfLanguage(fs, k) && fs[k].formatId.Some?
    ensures exists i :: 0 <= i < |tracks| && tracks[i] == TrackOf(fs[k])
    ensures forall i :: 0 <= i < |tracks| && tracks[i].lang == LanguageOf(fs[k]) ==> tracks[i] == TrackOf(fs[k])
  {
    var l := LanguageOf(fs[k]);
    var t :| t in tracks && t.lang == l;
    var k' :| FirstOfLanguage(fs, k') && fs[k'].formatId.Some? && t == TrackOf(fs[k']);
    assert k' == k;
    var i :| 0 <= i < |tracks| && tracks[i] == t;
    forall j | 0 <= j < |tracks| && tracks[j].lang == l ensures tracks[j] == TrackOf(fs[k]) {
      assert Lang(tracks[j]) == Lang(tracks[i]);
    }
  }
}

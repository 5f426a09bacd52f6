/**
 * The download worker (`process_download`): the progress it reports through
 * `update_job`, the files it fetches, the ffmpeg command it runs and the way
 * the first exception ends the job.
 *
 * The effects the worker performs through yt-dlp, the filesystem and a
 * subprocess are parameters: an `Environment` says, for each fetch the worker
 * can make, whether a file was saved, none was found, or an exception was
 * raised, and whether the ffmpeg run fails.
 */
module Worker {
  import opened Wrappers
  import opened Strings
  import opened Registry
  import opened MergePlan

  /** The parameters `/api/download` passes to the worker thread. */
  datatype DownloadRequest = DownloadRequest(
    jobId: string,
    dlType: string,
    videoFormat: Option<string>,
    audioLangs: seq<string>,
    subLangs: seq<string>,
    hostUrl: string)

  /** A yt-dlp download followed by a glob for the file it should have written. */
  datatype FetchOutcome = Saved(path: string) | NoFile | Raised(message: string)

  /** The subtitle download: the file found per language, or the exception raised. */
  datatype SubsOutcome = SubsWritten(files: map<string, string>) | SubsRaised(message: string)

  /**
   * What the outside world does for one job: `fetch(selector, stem)` downloads
   * with yt-dlp format selector `selector` to `<stem>.<ext>` and globs for it;
   * `transcode(argv)` runs the command and yields the exception message when it fails.
   */
  datatype Environment = Environment(
    downloadDir: string,
    extractMp3: FetchOutcome,
    fetch: (string, string) -> FetchOutcome,
    fetchSubs: seq<string> -> SubsOutcome,
    transcode: seq<string> -> Option<string>)

  const Mp3Missing := "MP3 conversion failed"
  const VideoMissing := "Original video download failed"
  /** `str()` of the IndexError raised by `glob(...)[0]` on an empty result. */
  const IndexOutOfRange := "list index out of range"
  const DefaultVideoSelector := "bestvideo[ext=mp4]/bestvideo"
  const DefaultAudioSelector := "bestaudio"
  const VideoStem := "video"
  const DefaultAudioStem := "audio_default"

  function Progress(percentage: int, message: string): Record {
    map["percentage" := Int(percentage), "message" := Text(message)]
  }

  // The progress reports of a job, in the order the worker makes them.
  const Queued := Step("queued", Progress(0, "queued"))
  const Starting := Step("processing", Progress(5, "Starting..."))
  const FetchingMp3 := Step("downloading", Progress(20, "Downloading audio..."))
  const FetchingVideo := Step("downloading_video", Progress(10, "Downloading video..."))
  const FetchingSubs := Step("downloading_subs", Progress(50, "Downloading subtitles..."))
  const Merging := Step("merging", Progress(80, "Merging..."))

  function FetchingAudio(lang: string): Step {
    Step("downloading_audio", Progress(30, "Downloading audio (" + lang + ")..."))
  }

  function Filename(req: DownloadRequest): string {
    "download_" + req.jobId + "." + req.dlType
  }

  function DownloadUrl(req: DownloadRequest): string {
    req.hostUrl + "files/" + Filename(req)
  }

  /** `os.path.join(DOWNLOAD_DIR, final_filename)`; the directory has no trailing separator. */
  function FinalPath(req: DownloadRequest, env: Environment): string {
    env.downloadDir + "/" + Filename(req)
  }

  function Completed(req: DownloadRequest): Step {
    Step("completed", map[
      "percentage" := Int(100),
      "message" := Text("Ready"),
      "filename" := Text(Filename(req)),
      "download_url" := Text(DownloadUrl(req))])
  }

  function Failed(message: string): Step {
    Step("error", map["message" := Text(message)])
  }

  predicate IsMp3(req: DownloadRequest) {
    req.dlType == "mp3"
  }

  function AudioSteps(langs: seq<string>): (r: seq<Step>)
    ensures |r| == |langs|
    ensures forall i :: 0 <= i < |langs| ==> r[i] == FetchingAudio(langs[i])
  {
    seq(|langs|, i requires 0 <= i < |langs| => FetchingAudio(langs[i]))
  }

  function SubsSteps(req: DownloadRequest): seq<Step> {
    if req.subLangs == [] then [] else [FetchingSubs]
  }

  /** Every progress report the worker makes when nothing goes wrong, before the final one. */
  function Checkpoints(req: DownloadRequest): (r: seq<Step>)
    ensures |r| >= 2 && r[0] == Starting
  {
    if IsMp3(req) then [Starting, FetchingMp3]
    else [Starting, FetchingVideo] + AudioSteps(req.audioLangs) + SubsSteps(req) + [Merging]
  }

  /** The requested format id, unless absent or empty. */
  function VideoSelector(req: DownloadRequest): (sel: string)
    ensures req.videoFormat.Some? && req.videoFormat.value != "" ==> sel == req.videoFormat.value
    ensures !(req.videoFormat.Some? && req.videoFormat.value != "") ==> sel == DefaultVideoSelector
  {
    match req.videoFormat
    case Some(f) => if f != "" then f else DefaultVideoSelector
    case None => DefaultVideoSelector
  }

  /** The best audio tagged with `lang`, falling back to the best audio at all. */
  function AudioSelector(lang: string): string {
    "bestaudio[language=" + lang + "]/bestaudio"
  }

  function AudioStem(idx: nat): string {
    "audio_" + NatToString(idx)
  }

  /** What fetching the audio of the `idx`-th requested language yields. */
  function LanguageFetch(langs: seq<string>, fetch: (string, string) -> FetchOutcome, idx: nat): FetchOutcome
    requires idx < |langs|
  {
    fetch(AudioSelector(langs[idx]), AudioStem(idx))
  }

  /** The audio files saved for the first `n` requested languages; a failed language is skipped. */
  function LanguageAudio(langs: seq<string>, fetch: (string, string) -> FetchOutcome, n: nat): (r: seq<string>)
    requires n <= |langs|
    ensures |r| <= n
  {
    if n == 0 then []
    else
      var prev := LanguageAudio(langs, fetch, n - 1);
      match LanguageFetch(langs, fetch, n - 1)
      case Saved(p) => prev + [p]
      case _ => prev
  }

  /** The audio inputs of the merge, or the exception that ends the job. */
  function AudioFiles(req: DownloadRequest, env: Environment): Result<seq<string>> {
    if req.audioLangs == [] then
      match env.fetch(DefaultAudioSelector, DefaultAudioStem)
      case Saved(p) => Success([p])
      case NoFile => Failure(IndexOutOfRange)
      case Raised(m) => Failure(m)
    else Success(LanguageAudio(req.audioLangs, env.fetch, |req.audioLangs|))
  }

  /** The subtitle files found for the first `n` requested languages, in request order. */
  function FoundSubs(langs: seq<string>, files: map<string, string>, n: nat): (r: seq<SubtitleFile>)
    requires n <= |langs|
    ensures |r| <= n
  {
    if n == 0 then []
    else
      var prev := FoundSubs(langs, files, n - 1);
      var lang := langs[n - 1];
      if lang in files then prev + [SubtitleFile(files[lang], lang)] else prev
  }

  /** The subtitle inputs of the merge, or the exception that ends the job. */
  function SubtitleFiles(req: DownloadRequest, env: Environment): Result<seq<SubtitleFile>> {
    if req.subLangs == [] then Success([])
    else
      match env.fetchSubs(req.subLangs)
      case SubsRaised(m) => Failure(m)
      case SubsWritten(files) => Success(FoundSubs(req.subLangs, files, |req.subLangs|))
  }

  /** The exception that ends a job, and how many progress reports preceded it. */
  datatype Fault = Fault(after: nat, message: string)

  /** The first exception the worker's `try` block raises, if any. */
  function FirstFault(req: DownloadRequest, env: Environment): (r: Option<Fault>)
    ensures r.Some? ==> 2 <= r.value.after <= |Checkpoints(req)|
  {
    if IsMp3(req) then
      match Mp3Message(env.extractMp3)
      case None => None
      case Some(m) => Some(Fault(2, m))
    else Mp4Fault(req, env)
  }

  /** The first exception of the mp4 branch: video, default audio, subtitles, then ffmpeg. */
  function Mp4Fault(req: DownloadRequest, env: Environment): (r: Option<Fault>)
    requires !IsMp3(req)
    ensures r.Some? ==> 2 <= r.value.after <= |Checkpoints(req)|
  {
    match env.fetch(VideoSelector(req), VideoStem)
    case Raised(m) => Some(Fault(2, m))
    case NoFile => Some(Fault(2, VideoMissing))
    case Saved(video) =>
      match AudioFiles(req, env)
      case Failure(m) => Some(Fault(2, m))
      case Success(audios) =>
        match SubtitleFiles(req, env)
        case Failure(m) => Some(Fault(3 + |req.audioLangs|, m))
        case Success(subs) => MergeFault(req, env, video, audios, subs)
  }

  /** The ffmpeg run over the saved inputs, failing after every checkpoint. */
  function MergeFault(req: DownloadRequest, env: Environment, video: string, audios: seq<string>, subs: seq<SubtitleFile>): (r: Option<Fault>)
    ensures r.Some? ==> r.value.after == |Checkpoints(req)|
  {
    match env.transcode(MergeCommand(video, audios, subs, FinalPath(req, env)))
    case Some(m) => Some(Fault(|Checkpoints(req)|, m))
    case None => None
  }

  /** How many progress reports are made inside the `try` block. */
  function StagesCount(req: DownloadRequest, env: Environment): (n: nat)
    ensures 2 <= n <= |Checkpoints(req)|
  {
    match FirstFault(req, env)
    case None => |Checkpoints(req)|
    case Some(f) => f.after
  }

  /** The progress reports made inside the `try` block. */
  function StagesDone(req: DownloadRequest, env: Environment): seq<Step> {
    Checkpoints(req)[..StagesCount(req, env)]
  }

  /** The message of the exception that ends the `try` block, if any. */
  function FaultMessage(req: DownloadRequest, env: Environment): Option<string> {
    match FirstFault(req, env)
    case None => None
    case Some(f) => Some(f.message)
  }

  /** A fault the worker can meet: after the "processing" report and the first stage report at the earliest. */
  predicate Feasible(req: DownloadRequest, fault: Option<Fault>) {
    fault.Some? ==> 2 <= fault.value.after <= |Checkpoints(req)|
  }

  /** The `update_job` calls of a run that meets `fault`, or none, in order. */
  function Trace(req: DownloadRequest, fault: Option<Fault>): seq<Step>
    requires Feasible(req, fault)
  {
    match fault
    case None => Checkpoints(req) + [Completed(req)]
    case Some(f) => Checkpoints(req)[..f.after] + [Failed(f.message)]
  }

  /** Every `update_job` call the worker makes for the job, in order. */
  function JobTrace(req: DownloadRequest, env: Environment): seq<Step> {
    Trace(req, FirstFault(req, env))
  }

  /** The registry holds exactly what the calls `done` on job `id` made of `jobs0` from tick `t0` on. */
  ghost predicate Logged(reg: JobRegistry, id: string, jobs0: map<string, Record>, t0: nat, done: seq<Step>)
    reads reg
  {
    reg.ticks == t0 + |done| && reg.jobs == Replay(jobs0, id, Timed(done, reg.clock, t0))
  }

  /** One `update_job` call of the worker, recorded in the trace. */
  method Report(reg: JobRegistry, id: string, s: Step, ghost jobs0: map<string, Record>, ghost t0: nat, ghost done: seq<Step>)
    requires "status" !in s.fields
    requires Logged(reg, id, jobs0, t0, done)
    modifies reg
    ensures Logged(reg, id, jobs0, t0, done + [s])
  {
    var now := reg.clock(reg.ticks);
    reg.UpdateJob(id, s.status, s.fields);
    TimedAppend(done, [s], reg.clock, t0);
    assert Timed([s], reg.clock, t0 + |done|) == [Stamped(s, now)];
    ReplaySnoc(jobs0, id, Timed(done, reg.clock, t0), Stamped(s, now));
  }

  /** The audio stage: the default audio when no language was asked for, then one fetch per language. */
  method FetchAudio(reg: JobRegistry, req: DownloadRequest, env: Environment,
                    ghost jobs0: map<string, Record>, ghost t0: nat, ghost done: seq<Step>)
    returns (r: Result<seq<string>>)
    requires Logged(reg, req.jobId, jobs0, t0, done)
    modifies reg
    ensures r == AudioFiles(req, env)
    ensures Logged(reg, req.jobId, jobs0, t0, done + AudioSteps(req.audioLangs))
  {
    var audioFiles: seq<string> := [];
    if req.audioLangs == [] {
      assert done + AudioSteps(req.audioLangs) == done;
      var saved := env.fetch(DefaultAudioSelector, DefaultAudioStem);
      match saved {
        case Raised(m) => return Failure(m);
        case NoFile => return Failure(IndexOutOfRange);
        case Saved(p) =>
          audioFiles := audioFiles + [p];
          assert audioFiles == [p];
      }
      return Success(audioFiles);
    }
    var perLanguage := FetchLanguageAudio(reg, req, env, jobs0, t0, done);
    audioFiles := audioFiles + perLanguage;
    assert audioFiles == perLanguage;
    r := Success(audioFiles);
  }

  /** The loop over the requested languages; a language whose fetch fails or finds no file is skipped. */
  method FetchLanguageAudio(reg: JobRegistry, req: DownloadRequest, env: Environment,
                            ghost jobs0: map<string, Record>, ghost t0: nat, ghost done: seq<Step>)
    returns (audioFiles: seq<string>)
    requires Logged(reg, req.jobId, jobs0, t0, done)
    modifies reg
    ensures audioFiles == LanguageAudio(req.audioLangs, env.fetch, |req.audioLangs|)
    ensures Logged(reg, req.jobId, jobs0, t0, done + AudioSteps(req.audioLangs))
  {
    audioFiles := [];
    var langs := req.audioLangs;
    assert done + AudioSteps(langs[..0]) == done;
    for idx := 0 to |langs|
      invariant audioFiles == LanguageAudio(langs, env.fetch, idx)
      invariant Logged(reg, req.jobId, jobs0, t0, done + AudioSteps(langs[..idx]))
    {
      var lang := langs[idx];
      Report(reg, req.jobId, FetchingAudio(lang), jobs0, t0, done + AudioSteps(langs[..idx]));
      AudioStepsSnoc(langs, idx);
      var found := env.fetch(AudioSelector(lang), AudioStem(idx));
      if found.Saved? {
        audioFiles := audioFiles + [found.path];
      }
    }
    assert langs[..|langs|] == langs;
  }

  lemma AudioStepsSnoc(langs: seq<string>, idx: nat)
    requires idx < |langs|
    ensures forall done: seq<Step> {:trigger done + AudioSteps(langs[..idx + 1])} ::
      done + AudioSteps(langs[..idx + 1]) == done + AudioSteps(langs[..idx]) + [FetchingAudio(langs[idx])]
  {
    assert AudioSteps(langs[..idx + 1]) == AudioSteps(langs[..idx]) + [FetchingAudio(langs[idx])];
  }

  /** The subtitle stage: one download of all requested languages, then a glob per language. */
  method FetchSubtitles(reg: JobRegistry, req: DownloadRequest, env: Environment,
                        ghost jobs0: map<string, Record>, ghost t0: nat, ghost done: seq<Step>)
    returns (r: Result<seq<SubtitleFile>>)
    requires Logged(reg, req.jobId, jobs0, t0, done)
    modifies reg
    ensures r == SubtitleFiles(req, env)
    ensures Logged(reg, req.jobId, jobs0, t0, done + SubsSteps(req))
  {
    var subFiles: seq<SubtitleFile> := [];
    if req.subLangs == [] {
      assert done + SubsSteps(req) == done;
      return Success(subFiles);
    }
    Report(reg, req.jobId, FetchingSubs, jobs0, t0, done);
    var written := env.fetchSubs(req.subLangs);
    if written.SubsRaised? {
      return Failure(written.message);
    }
    subFiles := GlobSubtitles(req.subLangs, written.files);
    r := Success(subFiles);
  }

  /** The glob for each requested language's subtitle file; a language without one is skipped. */
  method GlobSubtitles(langs: seq<string>, files: map<string, string>) returns (subFiles: seq<SubtitleFile>)
    ensures subFiles == FoundSubs(langs, files, |langs|)
  {
    subFiles := [];
    for i := 0 to |langs|
      invariant subFiles == FoundSubs(langs, files, i)
    {
      var lang := langs[i];
      if lang in files {
        subFiles := subFiles + [SubtitleFile(files[lang], lang)];
      }
    }
  }

  /** The message of the mp3 branch's exception, if its download raises or leaves no file. */
  function Mp3Message(extracted: FetchOutcome): (r: Option<string>)
    ensures r == None <==> extracted.Saved?
    ensures extracted.Raised? ==> r == Some(extracted.message)
    ensures extracted.NoFile? ==> r == Some(Mp3Missing)
  {
    match extracted
    case Saved(_) => None
    case NoFile => Some(Mp3Missing)
    case Raised(m) => Some(m)
  }

  lemma Mp3Stages(req: DownloadRequest, env: Environment)
    requires IsMp3(req)
    ensures StagesDone(req, env) == [] + [Starting] + [FetchingMp3]
    ensures FaultMessage(req, env) == Mp3Message(env.extractMp3)
  {
    assert [] + [Starting] + [FetchingMp3] == [Starting, FetchingMp3];
  }

  /** The checkpoints of the mp4 branch, stage by stage. */
  lemma Mp4Checkpoints(req: DownloadRequest)
    requires !IsMp3(req)
    ensures var cps, a := Checkpoints(req), |req.audioLangs|;
      && |cps| == 3 + a + |SubsSteps(req)|
      && cps[..1] == [Starting]
      && cps[1..2] == [FetchingVideo]
      && cps[2..2 + a] == AudioSteps(req.audioLangs)
      && cps[2 + a..] == SubsSteps(req) + [Merging]
      && cps[2 + a..2 + a + |SubsSteps(req)|] == SubsSteps(req)
  {
    var a := |req.audioLangs|;
    var head := [Starting, FetchingVideo];
    var cps := head + AudioSteps(req.audioLangs) + SubsSteps(req) + [Merging];
    assert cps[1..2] == [cps[1]];
    assert cps[2..2 + a] == AudioSteps(req.audioLangs);
    assert cps[2 + a..] == SubsSteps(req) + [Merging];
  }

  /** Cutting a prefix of `s` at `j`, between `i` and its end. */
  lemma SliceSplit(s: seq<Step>, n: nat, i: nat, j: nat)
    requires i <= j <= n <= |s|
    ensures s[..n][i..] == s[i..j] + s[..n][j..]
  {
  }

  /** Every run of the mp4 branch starts with the "processing" report. */
  lemma Mp4Start(req: DownloadRequest, env: Environment)
    requires !IsMp3(req)
    ensures |StagesDone(req, env)| >= 2
    ensures StagesDone(req, env) == [] + [Starting] + StagesDone(req, env)[1..]
  {
    Mp4Checkpoints(req);
    SliceSplit(Checkpoints(req), StagesCount(req, env), 0, 1);
  }

  lemma FaultAtVideo(req: DownloadRequest, env: Environment)
    requires !IsMp3(req) && !env.fetch(VideoSelector(req), VideoStem).Saved?
    ensures |StagesDone(req, env)| == 2
    ensures StagesDone(req, env)[1..] == [FetchingVideo]
    ensures var video := env.fetch(VideoSelector(req), VideoStem);
      FaultMessage(req, env) == Some(if video.Raised? then video.message else VideoMissing)
  {
    Mp4Checkpoints(req);
    SliceSplit(Checkpoints(req), 2, 1, 2);
  }

  /** Once the video is saved, the "downloading_video" report is followed by the later stages. */
  lemma AfterVideo(req: DownloadRequest, env: Environment)
    requires !IsMp3(req) && env.fetch(VideoSelector(req), VideoStem).Saved?
    ensures |StagesDone(req, env)| >= 2
    ensures StagesDone(req, env)[1..] == [FetchingVideo] + StagesDone(req, env)[2..]
  {
    Mp4Checkpoints(req);
    SliceSplit(Checkpoints(req), StagesCount(req, env), 1, 2);
  }

  lemma FaultAtAudio(req: DownloadRequest, env: Environment)
    requires !IsMp3(req) && env.fetch(VideoSelector(req), VideoStem).Saved?
    requires AudioFiles(req, env).Failure?
    ensures req.audioLangs == []
    ensures |StagesDone(req, env)| == 2
    ensures StagesDone(req, env)[2..] == AudioSteps(req.audioLangs)
    ensures FaultMessage(req, env) == Some(AudioFiles(req, env).error)
  {
  }

  /** Once the audio is saved, its reports are followed by the later stages. */
  lemma AfterAudio(req: DownloadRequest, env: Environment)
    requires !IsMp3(req) && env.fetch(VideoSelector(req), VideoStem).Saved?
    requires AudioFiles(req, env).Success?
    ensures |StagesDone(req, env)| >= 2 + |req.audioLangs|
    ensures StagesDone(req, env)[2..] == AudioSteps(req.audioLangs) + StagesDone(req, env)[2 + |req.audioLangs|..]
  {
    Mp4Checkpoints(req);
    SliceSplit(Checkpoints(req), StagesCount(req, env), 2, 2 + |req.audioLangs|);
  }

  lemma FaultAtSubtitles(req: DownloadRequest, env: Environment)
    requires !IsMp3(req) && env.fetch(VideoSelector(req), VideoStem).Saved?
    requires AudioFiles(req, env).Success? && SubtitleFiles(req, env).Failure?
    ensures |StagesDone(req, env)| == 3 + |req.audioLangs|
    ensures StagesDone(req, env)[2 + |req.audioLangs|..] == SubsSteps(req)
    ensures FaultMessage(req, env) == Some(SubtitleFiles(req, env).error)
  {
    Mp4Checkpoints(req);
    var a := |req.audioLangs|;
    SliceSplit(Checkpoints(req), 3 + a, 2 + a, 3 + a);
  }

  lemma ReachesMerge(req: DownloadRequest, env: Environment)
    requires !IsMp3(req) && env.fetch(VideoSelector(req), VideoStem).Saved?
    requires AudioFiles(req, env).Success? && SubtitleFiles(req, env).Success?
    ensures StagesDone(req, env) == Checkpoints(req)
    ensures StagesDone(req, env)[2 + |req.audioLangs|..] == SubsSteps(req) + [Merging]
    ensures FaultMessage(req, env) == env.transcode(MergeCommand(env.fetch(VideoSelector(req), VideoStem).path,
      AudioFiles(req, env).value, SubtitleFiles(req, env).value, FinalPath(req, env)))
  {
    Mp4Checkpoints(req);
  }

  lemma Regroup(a: seq<Step>, b: seq<Step>, c: seq<Step>)
    ensures a + b + c == a + (b + c)
  {
  }

  /** The mp4 branch of the `try` block: video, audio, subtitles, merge. */
  method Mp4Stages(reg: JobRegistry, req: DownloadRequest, env: Environment,
                   ghost jobs0: map<string, Record>, ghost t0: nat, ghost done: seq<Step>)
    returns (failure: Option<string>)
    requires !IsMp3(req)
    requires Logged(reg, req.jobId, jobs0, t0, done)
    modifies reg
    ensures failure == FaultMessage(req, env)
    ensures |StagesDone(req, env)| >= 1
    ensures Logged(reg, req.jobId, jobs0, t0, done + StagesDone(req, env)[1..])
  {
    Mp4Start(req, env);
    Report(reg, req.jobId, FetchingVideo, jobs0, t0, done);
    var video := env.fetch(VideoSelector(req), VideoStem);
    if video.Raised? {
      FaultAtVideo(req, env);
      return Some(video.message);
    }
    if video.NoFile? {
      FaultAtVideo(req, env);
      return Some(VideoMissing);
    }
    failure := FetchAndMerge(reg, req, env, jobs0, t0, video.path, done + [FetchingVideo]);
    AfterVideo(req, env);
    Regroup(done, [FetchingVideo], StagesDone(req, env)[2..]);
  }

  /** The mp4 branch after the video was saved at `video`: audio, subtitles, merge. */
  method FetchAndMerge(reg: JobRegistry, req: DownloadRequest, env: Environment,
                       ghost jobs0: map<string, Record>, ghost t0: nat, video: string, ghost done: seq<Step>)
    returns (failure: Option<string>)
    requires !IsMp3(req) && env.fetch(VideoSelector(req), VideoStem) == Saved(video)
    requires Logged(reg, req.jobId, jobs0, t0, done)
    modifies reg
    ensures failure == FaultMessage(req, env)
    ensures |StagesDone(req, env)| >= 2
    ensures Logged(reg, req.jobId, jobs0, t0, done + StagesDone(req, env)[2..])
  {
    AfterVideo(req, env);
    var audios := FetchAudio(reg, req, env, jobs0, t0, done);
    if audios.Failure? {
      FaultAtAudio(req, env);
      return Some(audios.error);
    }
    failure := SubtitlesAndMerge(reg, req, env, jobs0, t0, video, audios.value, done + AudioSteps(req.audioLangs));
    AfterAudio(req, env);
    Regroup(done, AudioSteps(req.audioLangs), StagesDone(req, env)[2 + |req.audioLangs|..]);
  }

  /** The mp4 branch after the video and the audio were saved: subtitles, merge. */
  method SubtitlesAndMerge(reg: JobRegistry, req: DownloadRequest, env: Environment,
                           ghost jobs0: map<string, Record>, ghost t0: nat, video: string, audios: seq<string>,
                           ghost done: seq<Step>)
    returns (failure: Option<string>)
    requires !IsMp3(req) && env.fetch(VideoSelector(req), VideoStem) == Saved(video)
    requires AudioFiles(req, env) == Success(audios)
    requires Logged(reg, req.jobId, jobs0, t0, done)
    modifies reg
    ensures failure == FaultMessage(req, env)
    ensures |StagesDone(req, env)| >= 2 + |req.audioLangs|
    ensures Logged(reg, req.jobId, jobs0, t0, done + StagesDone(req, env)[2 + |req.audioLangs|..])
  {
    AfterAudio(req, env);
    var subs := FetchSubtitles(reg, req, env, jobs0, t0, done);
    if subs.Failure? {
      FaultAtSubtitles(req, env);
      return Some(subs.error);
    }
    failure := Merge(reg, req, env, jobs0, t0, video, audios, subs.value, done + SubsSteps(req));
    ReachesMerge(req, env);
    Regroup(done, SubsSteps(req), [Merging]);
  }

  /** The "merging" report and the ffmpeg run over the saved inputs. */
  method Merge(reg: JobRegistry, req: DownloadRequest, env: Environment,
               ghost jobs0: map<string, Record>, ghost t0: nat,
               video: string, audios: seq<string>, subs: seq<SubtitleFile>, ghost done: seq<Step>)
    returns (failure: Option<string>)
    requires Logged(reg, req.jobId, jobs0, t0, done)
    modifies reg
    ensures failure == env.transcode(MergeCommand(video, audios, subs, FinalPath(req, env)))
    ensures Logged(reg, req.jobId, jobs0, t0, done + [Merging])
  {
    Report(reg, req.jobId, Merging, jobs0, t0, done);
    var cmd := BuildMergeCommand(video, audios, subs, FinalPath(req, env));
    failure := env.transcode(cmd);
  }

  /** The `try` block of `process_download`, up to the final report. */
  method RunStages(reg: JobRegistry, req: DownloadRequest, env: Environment,
                   ghost jobs0: map<string, Record>, ghost t0: nat)
    returns (failure: Option<string>)
    requires Logged(reg, req.jobId, jobs0, t0, [])
    modifies reg
    ensures failure == FaultMessage(req, env)
    ensures Logged(reg, req.jobId, jobs0, t0, StagesDone(req, env))
  {
    Report(reg, req.jobId, Starting, jobs0, t0, []);
    if req.dlType == "mp3" {
      failure := Mp3Stage(reg, req, env, jobs0, t0, [] + [Starting]);
      Mp3Stages(req, env);
    } else {
      failure := Mp4Stages(reg, req, env, jobs0, t0, [] + [Starting]);
      Mp4Start(req, env);
    }
  }

  /** The mp3 branch of the `try` block: one download with audio extraction. */
  method Mp3Stage(reg: JobRegistry, req: DownloadRequest, env: Environment,
                  ghost jobs0: map<string, Record>, ghost t0: nat, ghost done: seq<Step>)
    returns (failure: Option<string>)
    requires Logged(reg, req.jobId, jobs0, t0, done)
    modifies reg
    ensures failure == Mp3Message(env.extractMp3)
    ensures Logged(reg, req.jobId, jobs0, t0, done + [FetchingMp3])
  {
    Report(reg, req.jobId, FetchingMp3, jobs0, t0, done);
    match env.extractMp3 {
      case Raised(m) => failure := Some(m);
      case NoFile => failure := Some(Mp3Missing);
      case Saved(_) => failure := None;
    }
  }

  /** Neither final report passes `status` among its fields. */
  lemma FinalReportsKeepStatus(req: DownloadRequest)
    ensures "status" !in Completed(req).fields
    ensures forall m :: "status" !in Failed(m).fields
  {
    assert "status"[0] == 's' && "percentage"[0] == 'p' && "message"[0] == 'm';
    assert "filename"[0] == 'f' && "download_url"[0] == 'd';
  }

  /** A job's reports are those of the `try` block, then the completion or the error report. */
  lemma JobTraceEnds(req: DownloadRequest, env: Environment)
    ensures FaultMessage(req, env).None? ==> JobTrace(req, env) == StagesDone(req, env) + [Completed(req)]
    ensures FaultMessage(req, env).Some? ==> JobTrace(req, env) == StagesDone(req, env) + [Failed(FaultMessage(req, env).value)]
  {
  }

  /** `process_download`: the stages, then "completed" with the download link, or "error" with the message. */
  method ProcessDownload(reg: JobRegistry, req: DownloadRequest, env: Environment)
    modifies reg
    ensures reg.ticks == old(reg.ticks) + |JobTrace(req, env)|
    ensures reg.jobs == Replay(old(reg.jobs), req.jobId, Timed(JobTrace(req, env), reg.clock, old(reg.ticks)))
  {
    ghost var jobs0, t0 := reg.jobs, reg.ticks;
    assert Timed([], reg.clock, t0) == [];
    var failure := RunStages(reg, req, env, jobs0, t0);
    JobTraceEnds(req, env);
    FinalReportsKeepStatus(req);
    match failure {
      case None =>
        Report(reg, req.jobId, Completed(req), jobs0, t0, StagesDone(req, env));
      case Some(m) =>
        Report(reg, req.jobId, Failed(m), jobs0, t0, StagesDone(req, env));
    }
  }

  /** The "queued" report `/api/download` makes before it starts the worker. */
  method Submit(reg: JobRegistry, req: DownloadRequest)
    modifies reg
    ensures reg.ticks == old(reg.ticks) + 1
    ensures reg.jobs == Replay(old(reg.jobs), req.jobId, Timed([Queued], reg.clock, old(reg.ticks)))
  {
    ghost var jobs0, t0 := reg.jobs, reg.ticks;
    assert Timed([], reg.clock, t0) == [];
    Report(reg, req.jobId, Queued, jobs0, t0, []);
  }
}

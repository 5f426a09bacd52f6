/**
 * What a client polling a download job can rely on, stated over the worker's
 * trace of `update_job` calls and the records they leave behind.
 */
module WorkerFacts {
  import opened Wrappers
  import opened Registry
  import opened MergePlan
  import opened Worker

  predicate Terminal(status: string) {
    status == "completed" || status == "error"
  }

  /** The whole life of a job that meets `fault`: the "queued" report, then the worker's reports. */
  function Life(req: DownloadRequest, fault: Option<Fault>): seq<Step>
    requires Feasible(req, fault)
  {
    [Queued] + Trace(req, fault)
  }

  /**
   * `Submit` followed by `ProcessDownload` leaves the job table as replaying
   * the job's whole life, with the fault the environment causes.
   */
  lemma JobLife(jobs: map<string, Record>, req: DownloadRequest, env: Environment, clock: nat -> int, t0: nat)
    ensures Feasible(req, FirstFault(req, env))
    ensures var queued := Replay(jobs, req.jobId, Timed([Queued], clock, t0));
      Replay(queued, req.jobId, Timed(JobTrace(req, env), clock, t0 + 1))
        == Replay(jobs, req.jobId, Timed(Life(req, FirstFault(req, env)), clock, t0))
  {
    TimedAppend([Queued], JobTrace(req, env), clock, t0);
    ReplayAppend(jobs, req.jobId, Timed([Queued], clock, t0), Timed(JobTrace(req, env), clock, t0 + 1));
  }

  /** The i-th progress report of a job that runs to the end, by position. */
  lemma CheckpointAt(req: DownloadRequest, k: nat)
    requires k < |Checkpoints(req)|
    ensures var c := Checkpoints(req);
      (IsMp3(req) ==> |c| == 2 && c == [Starting, FetchingMp3])
      && (!IsMp3(req) ==>
        |c| == 3 + |req.audioLangs| + |SubsSteps(req)|
        && (k == 0 ==> c[k] == Starting)
        && (k == 1 ==> c[k] == FetchingVideo)
        && (2 <= k < 2 + |req.audioLangs| ==> c[k] == FetchingAudio(req.audioLangs[k - 2]))
        && (k == 2 + |req.audioLangs| && req.subLangs != [] ==> c[k] == FetchingSubs)
        && (k == |c| - 1 ==> c[k] == Merging))
  {
    if !IsMp3(req) {
      var audio := AudioSteps(req.audioLangs);
      var c := Checkpoints(req);
      assert c == [Starting, FetchingVideo] + audio + SubsSteps(req) + [Merging];
      if 2 <= k < 2 + |req.audioLangs| {
        assert c[k] == audio[k - 2];
      }
    }
  }

  /** The two per-stage statuses of the same length differ (at the character after "downloading_"). */
  lemma AudioAndVideoStatusDiffer()
    ensures "downloading_audio" != "downloading_video"
  {
    assert "downloading_audio"[12] == 'a' && "downloading_video"[12] == 'v';
  }

  /** The percentage the k-th report carries: 5, then 20 (mp3) or 10, 30 per language, 50 for subtitles, 80. */
  lemma CheckpointLevel(req: DownloadRequest, k: nat)
    requires k < |Checkpoints(req)|
    ensures var c := Checkpoints(req);
      !Terminal(c[k].status)
      && Reported(c[k]) == Some(PercentageOf(c[k].fields))
      && PercentageOf(c[k].fields) == (
        if k == 0 then 5
        else if IsMp3(req) then 20
        else if k == 1 then 10
        else if k < 2 + |req.audioLangs| then 30
        else if k == |c| - 1 then 80
        else 50)
  {
    CheckpointAt(req, k);
  }

  /**
   * Every report before the final one is non-terminal, reports a percentage
   * between 5 and 80, and reports no less than the one before it.
   */
  lemma CheckpointLevels(req: DownloadRequest, k: nat)
    requires k < |Checkpoints(req)|
    ensures var c := Checkpoints(req);
      !Terminal(c[k].status)
      && Reported(c[k]) == Some(PercentageOf(c[k].fields))
      && 5 <= PercentageOf(c[k].fields) <= 80
      && (k + 1 < |c| ==> PercentageOf(c[k].fields) <= PercentageOf(c[k + 1].fields))
  {
    CheckpointLevel(req, k);
    if k + 1 < |Checkpoints(req)| {
      CheckpointLevel(req, k + 1);
      CheckpointAt(req, k);
    }
  }

  /** Which reports announce a per-language audio download and which the subtitle download, by position. */
  lemma CheckpointStatus(req: DownloadRequest, k: nat)
    requires k < |Checkpoints(req)|
    ensures var c := Checkpoints(req);
      && (c[k].status == "downloading_audio" <==> !IsMp3(req) && 2 <= k < 2 + |req.audioLangs|)
      && (c[k].status == "downloading_subs" <==> !IsMp3(req) && req.subLangs != [] && k == 2 + |req.audioLangs|)
  {
    CheckpointAt(req, k);
    AudioAndVideoStatusDiffer();
  }

  /**
   * Whatever stage raises, a job starts "processing", ends in exactly one
   * terminal status, and no report before the last one is terminal.
   */
  lemma TraceShape(req: DownloadRequest, fault: Option<Fault>)
    requires Feasible(req, fault)
    ensures var t := Trace(req, fault);
      |t| >= 2 && t[0] == Starting
      && Terminal(t[|t| - 1].status)
      && forall i :: 0 <= i < |t| - 1 ==> !Terminal(t[i].status)
  {
    var t := Trace(req, fault);
    var c := Checkpoints(req);
    forall i | 0 <= i < |t| - 1
      ensures !Terminal(t[i].status)
    {
      assert t[i] == c[i];
      CheckpointLevels(req, i);
    }
  }

  /** A job completes exactly when no stage raised; otherwise it ends in "error" with that message. */
  lemma CompletesIffNoFault(req: DownloadRequest, fault: Option<Fault>)
    requires Feasible(req, fault)
    ensures var t := Trace(req, fault);
      (t[|t| - 1].status == "completed" <==> fault.None?)
      && (t[|t| - 1].status == "error" <==> fault.Some?)
      && (fault.None? ==> t[|t| - 1] == Completed(req))
      && (fault.Some? ==> t[|t| - 1] == Failed(fault.value.message))
  {
  }

  /** The reports of a job's life by position: "queued", the stages reached, the final report. */
  lemma LifeAt(req: DownloadRequest, fault: Option<Fault>, i: nat)
    requires Feasible(req, fault) && i < |Life(req, fault)|
    ensures var life := Life(req, fault);
      var reached := |Trace(req, fault)| - 1;
      |life| == reached + 2
      && reached <= |Checkpoints(req)|
      && (i == 0 ==> life[i] == Queued)
      && (1 <= i <= reached ==> life[i] == Checkpoints(req)[i - 1])
      && (i == reached + 1 ==> life[i] == (if fault.None? then Completed(req) else Failed(fault.value.message)))
  {
  }

  /** The final report carries 100% on completion and no percentage on error. */
  lemma FinalReport(req: DownloadRequest, fault: Option<Fault>)
    ensures Reported(Completed(req)) == Some(100)
    ensures fault.Some? ==> Reported(Failed(fault.value.message)).None?
  {
    assert |"percentage"| != |"message"| && |"percentage"| != |"filename"| && |"percentage"| != |"download_url"|;
  }

  /** Every report but the final "error" one carries a percentage. */
  lemma LifeReports(req: DownloadRequest, fault: Option<Fault>, i: nat)
    requires Feasible(req, fault) && i < |Life(req, fault)|
    ensures Reported(Life(req, fault)[i]).None? <==> (i == |Life(req, fault)| - 1 && fault.Some?)
    ensures "percentage" in Life(req, fault)[i].fields ==> Life(req, fault)[i].fields["percentage"].Int?
  {
    LifeAt(req, fault, i);
    FinalReport(req, fault);
    var life := Life(req, fault);
    if 1 <= i < |life| - 1 {
      CheckpointLevels(req, i - 1);
    }
  }

  /** Adjacent reports never lower the percentage. */
  lemma LevelStep(req: DownloadRequest, fault: Option<Fault>, i: nat)
    requires Feasible(req, fault) && i + 1 < |Life(req, fault)| && Reported(Life(req, fault)[i + 1]).Some?
    ensures Reported(Life(req, fault)[i]).Some?
    ensures Reported(Life(req, fault)[i]).value <= Reported(Life(req, fault)[i + 1]).value
  {
    LifeAt(req, fault, i);
    if i == 0 {
      LevelStepStart(req, fault);
    } else if i + 2 < |Life(req, fault)| {
      LevelStepInside(req, fault, i);
    } else {
      LevelStepLast(req, fault, i);
    }
  }

  /** From "queued" to "processing". */
  lemma LevelStepStart(req: DownloadRequest, fault: Option<Fault>)
    requires Feasible(req, fault)
    ensures |Life(req, fault)| >= 3
    ensures Reported(Life(req, fault)[0]) == Some(0)
    ensures Reported(Life(req, fault)[1]) == Some(5)
  {
    LifeAt(req, fault, 0);
    LifeAt(req, fault, 1);
    CheckpointLevel(req, 0);
  }

  /** Between two checkpoints. */
  lemma LevelStepInside(req: DownloadRequest, fault: Option<Fault>, i: nat)
    requires Feasible(req, fault) && 1 <= i && i + 2 < |Life(req, fault)|
    ensures Reported(Life(req, fault)[i]).Some? && Reported(Life(req, fault)[i + 1]).Some?
    ensures Reported(Life(req, fault)[i]).value <= Reported(Life(req, fault)[i + 1]).value
  {
    LifeAt(req, fault, i);
    LifeAt(req, fault, i + 1);
    CheckpointLevels(req, i - 1);
  }

  /** Into the final report, when that report carries a percentage. */
  lemma LevelStepLast(req: DownloadRequest, fault: Option<Fault>, i: nat)
    requires Feasible(req, fault) && i + 2 == |Life(req, fault)| && Reported(Life(req, fault)[i + 1]).Some?
    ensures Reported(Life(req, fault)[i]).Some?
    ensures Reported(Life(req, fault)[i]).value <= Reported(Life(req, fault)[i + 1]).value
  {
    LifeAt(req, fault, i);
    LifeAt(req, fault, i + 1);
    FinalReport(req, fault);
    CheckpointLevels(req, i - 1);
  }

  /**
   * A run of reports in which every report but possibly the last carries an
   * integer percentage, and no report lowers the percentage of the one before.
   */
  ghost predicate ProgressLog(steps: seq<Step>) {
    && |steps| >= 1 && Reported(steps[0]).Some?
    && (forall i :: 0 <= i < |steps| ==> "percentage" in steps[i].fields ==> steps[i].fields["percentage"].Int?)
    && (forall i :: 0 <= i < |steps| - 1 ==> Reported(steps[i]).Some?)
    && (forall i :: 0 <= i < |steps| - 1 && Reported(steps[i + 1]).Some? ==> Reported(steps[i]).value <= Reported(steps[i + 1]).value)
  }

  /** A job's life is such a run. */
  lemma LifeIsProgressLog(req: DownloadRequest, fault: Option<Fault>)
    requires Feasible(req, fault)
    ensures ProgressLog(Life(req, fault))
  {
    var life := Life(req, fault);
    forall i | 0 <= i < |life|
      ensures "percentage" in life[i].fields ==> life[i].fields["percentage"].Int?
      ensures i < |life| - 1 ==> Reported(life[i]).Some?
    {
      LifeReports(req, fault, i);
    }
    forall i | 0 <= i < |life| - 1 && Reported(life[i + 1]).Some?
      ensures Reported(life[i]).value <= Reported(life[i + 1]).value
    {
      LevelStep(req, fault, i);
    }
  }

  /** In such a run, any two reported percentages are in order. */
  lemma {:induction false} ReportedMonotone(steps: seq<Step>, i: nat, j: nat)
    requires ProgressLog(steps) && i <= j < |steps|
    requires Reported(steps[j]).Some?
    ensures Reported(steps[i]).Some? && Reported(steps[i]).value <= Reported(steps[j]).value
  {
    if i < j {
      ReportedMonotone(steps, i, j - 1);
    }
  }

  /** Where the last reported percentage among the first `k` steps of such a run comes from. */
  function LastReportIndex(steps: seq<Step>, k: nat): (r: nat)
    requires ProgressLog(steps) && 1 <= k <= |steps|
    ensures r < k && Reported(steps[r]).Some?
  {
    if Reported(steps[k - 1]).Some? then k - 1 else k - 2
  }

  /** The last reported percentage among the first `k` steps, by looking at step `k - 1`. */
  lemma LastReportedAt(steps: seq<Step>, k: nat, p0: int)
    requires 1 <= k <= |steps|
    ensures Reported(steps[k - 1]).Some? ==> LastReported(steps[..k], p0) == Reported(steps[k - 1]).value
    ensures Reported(steps[k - 1]).None? ==> LastReported(steps[..k], p0) == LastReported(steps[..k - 1], p0)
  {
    assert steps[..k][..k - 1] == steps[..k - 1];
  }

  lemma LastReportedFrom(steps: seq<Step>, k: nat, p0: int)
    requires ProgressLog(steps) && 1 <= k <= |steps|
    ensures LastReported(steps[..k], p0) == Reported(steps[LastReportIndex(steps, k)]).value
  {
    LastReportedAt(steps, k, p0);
    if Reported(steps[k - 1]).None? {
      LastReportedAt(steps, k - 1, p0);
    }
  }

  /** The last reported percentage of a longer prefix of such a run is never lower. */
  lemma LastReportedMonotone(steps: seq<Step>, p0: int, i: nat, j: nat)
    requires ProgressLog(steps) && 1 <= i <= j <= |steps|
    ensures LastReported(steps[..i], p0) <= LastReported(steps[..j], p0)
  {
    LastReportedFrom(steps, i, p0);
    LastReportedFrom(steps, j, p0);
    var a, b := LastReportIndex(steps, i), LastReportIndex(steps, j);
    if a <= b {
      ReportedMonotone(steps, a, b);
    }
  }

  lemma ProgressLogPrefix(steps: seq<Step>, k: nat)
    requires ProgressLog(steps) && k <= |steps|
    ensures forall n :: 0 <= n < |steps[..k]| ==> "percentage" in steps[..k][n].fields ==> steps[..k][n].fields["percentage"].Int?
  {
  }

  /**
   * The percentage a client reads never goes down over a job's life: after
   * any `i` reports it is at most what it is after any `j >= i` reports.
   */
  lemma ProgressNeverDecreases(jobs: map<string, Record>, req: DownloadRequest, fault: Option<Fault>,
                               clock: nat -> int, t0: nat, i: nat, j: nat)
    requires Feasible(req, fault) && 1 <= i <= j <= |Life(req, fault)|
    ensures var life := Life(req, fault);
      var before := RecordOf(Replay(jobs, req.jobId, Timed(life[..i], clock, t0)), req.jobId);
      var after := RecordOf(Replay(jobs, req.jobId, Timed(life[..j], clock, t0)), req.jobId);
      PercentageOf(before) <= PercentageOf(after)
  {
    var life := Life(req, fault);
    var p0 := PercentageOf(RecordOf(jobs, req.jobId));
    LifeIsProgressLog(req, fault);
    ProgressLogPrefix(life, i);
    ProgressLogPrefix(life, j);
    ReplayPercentage(jobs, req.jobId, life[..i], clock, t0);
    ReplayPercentage(jobs, req.jobId, life[..j], clock, t0);
    LastReportedMonotone(life, p0, i, j);
  }

  /** Where a job can fail: after the first stage report, after the subtitle report, or in the merge. */
  lemma FaultPosition(req: DownloadRequest, env: Environment)
    requires FirstFault(req, env).Some?
    ensures var f := FirstFault(req, env).value;
      && (IsMp3(req) ==> f.after == 2)
      && (f.after == 2 || f.after == 3 + |req.audioLangs| || f.after == |Checkpoints(req)|)
      && (!IsMp3(req) && req.subLangs != [] && f.after == 3 + |req.audioLangs| ==>
            req.subLangs != [] && env.fetchSubs(req.subLangs).SubsRaised?
            && f.message == env.fetchSubs(req.subLangs).message)
  {
  }

  /** The "error" report is the last one, and it follows the report of the stage that raised. */
  lemma ErrorReportAt(req: DownloadRequest, fault: Option<Fault>, i: nat)
    requires Feasible(req, fault) && 1 <= i < |Trace(req, fault)|
    requires Trace(req, fault)[i].status == "error"
    ensures fault.Some?
    ensures i == fault.value.after && Trace(req, fault)[i] == Failed(fault.value.message)
    ensures Trace(req, fault)[i - 1] == Checkpoints(req)[i - 1]
  {
    var c := Checkpoints(req);
    if i < |c| {
      CheckpointLevels(req, i);
    }
    if fault.Some? && i < fault.value.after {
      CheckpointLevels(req, i);
    }
  }

  /** No job ends in "error" right after a per-language audio report: a failed language is skipped. */
  lemma AudioFailureNotFatal(req: DownloadRequest, env: Environment, i: nat)
    requires 1 <= i < |JobTrace(req, env)|
    requires JobTrace(req, env)[i].status == "error"
    ensures JobTrace(req, env)[i - 1].status != "downloading_audio"
  {
    ErrorReportAt(req, FirstFault(req, env), i);
    FaultPosition(req, env);
    CheckpointStatus(req, i - 1);
  }

  /** A job ends in "error" right after the subtitle report only when the subtitle download itself raised. */
  lemma MissingSubtitlesNotFatal(req: DownloadRequest, env: Environment, i: nat)
    requires 1 <= i < |JobTrace(req, env)|
    requires JobTrace(req, env)[i].status == "error" && JobTrace(req, env)[i - 1].status == "downloading_subs"
    ensures req.subLangs != [] && env.fetchSubs(req.subLangs).SubsRaised?
    ensures JobTrace(req, env)[i] == Failed(env.fetchSubs(req.subLangs).message)
  {
    ErrorReportAt(req, FirstFault(req, env), i);
    FaultPosition(req, env);
    CheckpointStatus(req, i - 1);
  }

  /** An audio file is merged exactly when its language's fetch saved it; failures leave no gap. */
  lemma {:induction false} LanguageAudioSaved(langs: seq<string>, fetch: (string, string) -> FetchOutcome, n: nat, p: string)
    requires n <= |langs|
    ensures p in LanguageAudio(langs, fetch, n) <==> exists i :: 0 <= i < n && LanguageFetch(langs, fetch, i) == Saved(p)
  {
    if n > 0 {
      LanguageAudioSaved(langs, fetch, n - 1, p);
      if LanguageFetch(langs, fetch, n - 1) == Saved(p) {
        assert p in LanguageAudio(langs, fetch, n);
      }
    }
  }

  /** Saved audio files keep the order of the requested languages. */
  lemma {:induction false} LanguageAudioOrder(langs: seq<string>, fetch: (string, string) -> FetchOutcome, m: nat, n: nat)
    requires m <= n <= |langs|
    ensures LanguageAudio(langs, fetch, m) <= LanguageAudio(langs, fetch, n)
  {
    if m < n {
      LanguageAudioOrder(langs, fetch, m, n - 1);
    }
  }

  /** With no language requested, exactly one audio input: the default best audio. */
  lemma DefaultAudioExactlyOne(req: DownloadRequest, env: Environment)
    requires req.audioLangs == [] && AudioFiles(req, env).Success?
    ensures env.fetch(DefaultAudioSelector, DefaultAudioStem).Saved?
    ensures AudioFiles(req, env).value == [env.fetch(DefaultAudioSelector, DefaultAudioStem).path]
  {
  }

  /** A subtitle file is merged exactly when its language was requested and a file was found for it. */
  lemma {:induction false} FoundSubsMembers(langs: seq<string>, files: map<string, string>, n: nat, s: SubtitleFile)
    requires n <= |langs|
    ensures s in FoundSubs(langs, files, n) <==>
      (exists i :: 0 <= i < n && langs[i] == s.lang) && s.lang in files && files[s.lang] == s.path
  {
    if n > 0 {
      FoundSubsMembers(langs, files, n - 1, s);
      if langs[n - 1] == s.lang && s.lang in files && files[s.lang] == s.path {
        assert s in FoundSubs(langs, files, n);
      }
    }
  }

  /** Found subtitles keep the order of the requested languages. */
  lemma {:induction false} FoundSubsOrder(langs: seq<string>, files: map<string, string>, m: nat, n: nat)
    requires m <= n <= |langs|
    ensures FoundSubs(langs, files, m) <= FoundSubs(langs, files, n)
  {
    if m < n {
      FoundSubsOrder(langs, files, m, n - 1);
    }
  }

  /** The record a client finally reads when the job completes: 100% and the download link. */
  lemma CompletedRecord(jobs: map<string, Record>, req: DownloadRequest, clock: nat -> int, t0: nat)
    ensures var rec := RecordOf(Replay(jobs, req.jobId, Timed(Life(req, None), clock, t0)), req.jobId);
      rec["status"] == Text("completed") && rec["percentage"] == Int(100) && rec["message"] == Text("Ready")
      && rec["filename"] == Text("download_" + req.jobId + "." + req.dlType)
      && rec["download_url"] == Text(req.hostUrl + "files/" + "download_" + req.jobId + "." + req.dlType)
  {
    var life := Life(req, None);
    ReplayLast(jobs, req.jobId, life, clock, t0);
    assert life[|life| - 1] == Completed(req);
    CompletedFields(req);
  }

  lemma CompletedFields(req: DownloadRequest)
    ensures var fields := Completed(req).fields;
      "status" !in fields && "updated_at" !in fields
      && "percentage" in fields && fields["percentage"] == Int(100)
      && "message" in fields && fields["message"] == Text("Ready")
      && "filename" in fields && fields["filename"] == Text("download_" + req.jobId + "." + req.dlType)
      && "download_url" in fields && fields["download_url"] == Text(req.hostUrl + "files/" + "download_" + req.jobId + "." + req.dlType)
  {
    var name := "download_" + req.jobId + "." + req.dlType;
    assert Filename(req) == name;
    assert DownloadUrl(req) == req.hostUrl + "files/" + name;
    assert |"message"| == 7 && |"download_url"| == 12 && |"filename"| == 8;
  }

  /** The record a client finally reads when a stage raised: "error" with the exception's message. */
  lemma FailedRecord(jobs: map<string, Record>, req: DownloadRequest, f: Fault, clock: nat -> int, t0: nat)
    requires Feasible(req, Some(f))
    ensures var rec := RecordOf(Replay(jobs, req.jobId, Timed(Life(req, Some(f)), clock, t0)), req.jobId);
      rec["status"] == Text("error") && rec["message"] == Text(f.message)
  {
    var life := Life(req, Some(f));
    ReplayLast(jobs, req.jobId, life, clock, t0);
    FailedLifeEnd(req, f);
    assert life[|life| - 1] == Failed(f.message);
    var fields := Failed(f.message).fields;
    assert "status" !in fields && "message" in fields && |"message"| != |"updated_at"|;
  }

  /** At the end of a job's life the record holds the last percentage reported. */
  lemma LifePercentage(jobs: map<string, Record>, req: DownloadRequest, fault: Option<Fault>, clock: nat -> int, t0: nat)
    requires Feasible(req, fault)
    ensures var life := Life(req, fault);
      var rec := RecordOf(Replay(jobs, req.jobId, Timed(life, clock, t0)), req.jobId);
      PercentageOf(rec) == LastReported(life[..|life|], PercentageOf(RecordOf(jobs, req.jobId)))
  {
    var life := Life(req, fault);
    LifeIsProgressLog(req, fault);
    assert life[..|life|] == life;
    ReplayPercentage(jobs, req.jobId, life, clock, t0);
  }

  /** A failed job keeps the percentage of the last stage it reached. */
  lemma FailedPercentage(jobs: map<string, Record>, req: DownloadRequest, f: Fault, clock: nat -> int, t0: nat)
    requires Feasible(req, Some(f))
    ensures var rec := RecordOf(Replay(jobs, req.jobId, Timed(Life(req, Some(f)), clock, t0)), req.jobId);
      Reported(Checkpoints(req)[f.after - 1]) == Some(PercentageOf(rec))
  {
    var life := Life(req, Some(f));
    LifePercentage(jobs, req, Some(f), clock, t0);
    LifeIsProgressLog(req, Some(f));
    LastReportedFrom(life, |life|, PercentageOf(RecordOf(jobs, req.jobId)));
    FailedLifeEnd(req, f);
  }

  lemma FailedLifeEnd(req: DownloadRequest, f: Fault)
    requires Feasible(req, Some(f))
    ensures var life := Life(req, Some(f));
      |life| == f.after + 2 && Reported(life[|life| - 1]).None? && life[|life| - 2] == Checkpoints(req)[f.after - 1]
  {
    LifeAt(req, Some(f), |Life(req, Some(f))| - 2);
    FinalReport(req, Some(f));
  }

  /** Download link and file name: a file name without '.' in the job id splits back into id and type. */
  function ParseFilename(name: string): (r: Option<(string, string)>)
  {
    if |name| < 9 || name[..9] != "download_" then None
    else
      var rest := name[9..];
      match FirstDot(rest)
      case None => None
      case Some(k) => Some((rest[..k], rest[k + 1..]))
  }

  /** The position of the first '.' in `s`. */
  function FirstDot(s: string): (r: Option<nat>)
    ensures r.Some? ==> r.value < |s| && s[r.value] == '.' && '.' !in s[..r.value]
    ensures r.None? ==> '.' !in s
  {
    if s == [] then None
    else if s[0] == '.' then Some(0)
    else match FirstDot(s[1..])
      case None => None
      case Some(k) => Some(k + 1)
  }

  lemma {:induction false} FirstDotAfter(a: string, b: string)
    requires '.' !in a
    ensures FirstDot(a + "." + b) == Some(|a|)
  {
    var s := a + "." + b;
    if a == [] {
      assert s[0] == '.';
    } else {
      assert s[0] == a[0];
      assert s[1..] == a[1..] + "." + b;
      FirstDotAfter(a[1..], b);
    }
  }

  lemma FilenameRoundTrip(req: DownloadRequest)
    requires '.' !in req.jobId
    ensures ParseFilename(Filename(req)) == Some((req.jobId, req.dlType))
  {
    var name := Filename(req);
    assert name[..9] == "download_";
    var rest := name[9..];
    assert rest == req.jobId + "." + req.dlType;
    FirstDotAfter(req.jobId, req.dlType);
    assert rest[..|req.jobId|] == req.jobId;
    assert rest[|req.jobId| + 1..] == req.dlType;
  }
}

# universal-yt-backend: job registry, stream catalog and download worker

A Dafny model of the core of a small Flask backend that lets a client
analyze a YouTube video and then download it as mp3 or as an mp4 with
chosen audio languages and subtitles. The model covers four pieces of
`app.py`:

- **The job registry.** `JOBS` and its only writer, `update_job`. The
  registry is the class `Registry.JobRegistry`. Its `UpdateJob` method
  upserts one record, sets `status`, merges the keyword fields and stamps
  `updated_at`. Time is an input: the i-th call reads `clock(i)`.
  `Registry.Replay` gives the table after a run of calls, as a function.
- **The stream catalog.** The parsing part of the analyze handler. It
  builds one video option per height, where the last qualifying descriptor
  of each height wins. It builds one audio track per language, where the
  first qualifying descriptor wins and a missing or empty tag becomes
  `Unknown`. It lists the subtitle languages. All three lists are sorted.
  Only two kinds of descriptor are indexed by `format_id`: a video
  candidate, and the first audio candidate of its language. When one of
  them lacks the field, the lookup raises `KeyError`, which the model
  returns as the message `'format_id'`. Other descriptors without the
  field raise nothing. `Catalog.Analyze` runs the two
  loops as methods over an insertion-ordered dictionary (`Dicts.Dict`), as
  the source does.
- **The download worker.** `process_download`, as a state machine that
  reports progress through `update_job`. The outside world is an
  `Environment` value:
  - `fetch(selector, stem)`: a yt-dlp download plus the glob for its file,
    which yields a saved path, no file, or a raised exception;
  - the mp3 download-and-extract;
  - the subtitle download;
  - `transcode(argv)`: the ffmpeg subprocess, which yields the failure
    message or nothing.

  The worker's statuses follow these paths:
  - mp3: `processing` → `downloading` → `completed`;
  - mp4: `processing` → `downloading_video` → `downloading_audio` (once per
    language) → `downloading_subs` (only when subtitles were asked for) →
    `merging` → `completed`.

  The first exception ends the job with `error`. These exceptions are
  fatal:
  - the video was not saved;
  - the default audio was not saved;
  - the subtitle download raised;
  - ffmpeg failed.

  A failed per-language audio fetch is skipped, and so is a subtitle
  language with no file.
- **The merge planner.** The ffmpeg argument list: `ffmpeg -y`, one `-i`
  per input in the order video, audios, subtitles, then one `-map k:v|a|s`
  per input, then a `language=` tag per subtitle stream, then the codec
  flags and the output path.

`Worker.ProcessDownload` is proved to leave the registry equal to
replaying `Worker.JobTrace`. `JobTrace` is the list of checkpoint reports
up to the first fault, followed by the completion report or the error
report. The lemmas in `WorkerFacts` state what a polling client can rely
on, over that trace.

## Model

| member | source | states |
|---|---|---|
| Registry.JobRegistry.UpdateJob | app.py:62-67 | only the record of `job_id` changes. It is created when missing. It gets the new `status`, every keyword field, and `updated_at` set to the current clock tick. Every other record is unchanged, and the tick advances by one |
| Registry.Merged | app.py:63-67 | the updated record has exactly the old keys, the field keys, `status` and `updated_at`. Fields override old values. Old values not overridden survive. `updated_at` is always the new stamp |
| Registry.ReplayFrame | app.py:62-67 | any run of `update_job` calls on one job leaves every other job's record untouched |
| Registry.ReplayAppend | app.py:62-67 | replaying two runs of calls one after the other equals replaying their concatenation |
| Registry.MergedPercentage | app.py:66 | a call that passes `percentage` sets it; a call that does not keeps the stored percentage |
| Registry.ReplayPercentage | app.py:62-67 | after a run of calls, the stored percentage is the last one any call reported, or the initial one if none did |
| Registry.TimedAppend | app.py:67 | the stamps of two consecutive runs of calls continue one another's clock ticks |
| Catalog.CollectVideoOptions | app.py:119-155 | fails exactly when some video candidate (vcodec not `none`, height truthy) lacks `format_id`, with the KeyError message. Otherwise it returns exactly the options of the last candidate of each height: every candidate height appears, and no height appears twice |
| Catalog.CollectAudioTracks | app.py:161-169 | fails exactly when the first audio-only candidate of some language lacks `format_id`. Otherwise it returns exactly one track per language, taken from the first candidate of that language, and covers every candidate's language |
| Catalog.Analyze | app.py:110-191 | an extraction exception passes through as the error. Otherwise the result fails exactly when a video or audio format id is missing. On success, title, thumbnail, uploader-as-channel and duration are copied. Qualities are the video catalog in strictly descending height. Audio tracks are the audio catalog in strictly ascending language. Subtitles are a permutation of the subtitle keys, strictly ascending |
| Catalog.LastDescriptorWinsHeight | app.py:135-155 | for the last candidate of a height, its option (format id, size, extension) is in the catalog and is the only entry of that height |
| Catalog.FirstDescriptorWinsLanguage | app.py:165-169 | for the first candidate of a language, its track is in the catalog and is the only entry of that language |
| Catalog.SizeEstimate | app.py:128 | a non-zero `filesize` is taken first, then a non-zero `filesize_approx`, and 0 otherwise |
| Catalog.LanguageOf | app.py:164 | a present, non-empty language tag is kept; an absent or empty tag becomes `Unknown` |
| Catalog.OptionOf | app.py:128-142 | an option carries its descriptor's height, format id, size estimate and extension, and the label is the height followed by `p` |
| Catalog.VideoCatalogPermuted | app.py:157 | reordering a video catalog (as `sorted` does) keeps it the catalog of the same formats |
| Catalog.AudioCatalogPermuted | app.py:171 | reordering an audio catalog keeps it the catalog of the same formats |
| Sorting.SortDescending | app.py:157 | the result is a permutation of its input, strictly descending by height |
| Sorting.SortAscending | app.py:171-175 | the result is a permutation of its input, strictly ascending by key in code-point order |
| Sorting.DescendingUnique | app.py:157 | at most one ordering of a collection is strictly descending, so the model's sort and Python's `sorted(..., reverse=True)` agree |
| Sorting.AscendingUnique | app.py:171-175 | at most one ordering of a collection is strictly ascending, so the model's sort and Python's `sorted` agree |
| Strings.LexLessTotal | app.py:171-175 | two distinct strings are ordered one way or the other |
| Strings.LexLessTransitive | app.py:171-175 | the string order is transitive |
| Strings.LexLessIrreflexive | app.py:171-175 | no string precedes itself |
| Strings.ParseNatToString | app.py:129 | decimal text for a number reads back as the same number |
| Strings.NatToStringInjective | app.py:374-403 | distinct indices give distinct decimal texts |
| MergePlan.BuildMergeCommand | app.py:367-407 | the argument list built step by step is `MergeCommand` of the video, the audio files, the subtitle files and the final path |
| MergePlan.VideoAndAudioInputs | app.py:370-381 | after the video and the audios, there is one `-i` pair and one `-map` pair per input, and the counter equals 1 plus the number of audio files |
| MergePlan.AddSubtitleInputs | app.py:384-391 | each subtitle file adds one `-i` pair and one `k:s` map, and the counter advances by the number of subtitle files |
| MergePlan.SubtitleMetadata | app.py:401-404 | the i-th subtitle file yields `-metadata:s:s:i` and `language=<its language>`, in order |
| MergePlan.MergeCommandLength | app.py:367-407 | the command has 2 + 4n + 2m + 7 arguments, for n inputs and m subtitle files |
| MergePlan.MergeCommandEnds | app.py:367-407 | the command starts with `ffmpeg -y` and ends with the codec flags and the output path |
| MergePlan.MergeCommandInputAt | app.py:373-385 | the k-th `-i` names the k-th input: the video first, then the audio files, then the subtitle files |
| MergePlan.MergeCommandMapAt | app.py:374-393 | the k-th `-map` after all inputs is `k:v` for the video, `k:a` for an audio file and `k:s` for a subtitle file |
| MergePlan.MergeCommandMetadataAt | app.py:401-404 | after the maps, the i-th metadata pair tags subtitle stream i with the i-th subtitle file's language |
| MergePlan.InputPathAt | app.py:373-385 | input k is the video when k is 0, audio file k-1 when k is at most the audio count, and otherwise a subtitle file |
| MergePlan.SubtitleStreamIndex | app.py:396-404 | input 1+A+i is a subtitle input preceded by exactly i subtitle maps, so `-metadata:s:s:i` addresses the i-th subtitle file's stream |
| MergePlan.NoSubtitleStreamsAmongFirst | app.py:396-399 | the video and audio inputs add no subtitle streams |
| MergePlan.MapSpecInjective | app.py:374-386 | distinct (index, kind) pairs give distinct map specifiers |
| Worker.Submit | app.py:214 | the request handler's `queued` report is one `update_job` call with percentage 0 |
| Worker.ProcessDownload | app.py:242-430 | the registry afterwards is the replay of `JobTrace`: the checkpoint reports up to the first fault, then `completed` or `error`. It takes one tick per report |
| Worker.RunStages | app.py:246-410 | the `try` block reports exactly the checkpoints before the first fault and returns that fault's message, or nothing when none occurs |
| Worker.Mp3Stage | app.py:262-283 | the mp3 branch reports `downloading` and fails with the download's exception, or with `MP3 conversion failed` when no mp3 was produced |
| Worker.Mp4Stages | app.py:289-302 | the mp4 branch reports `downloading_video`. It fails with the download's exception or `Original video download failed` when no file exists. Otherwise it continues with audio, subtitles and merge and reports what they report |
| Worker.FetchAudio | app.py:308-341 | without requested languages, the default best audio is fetched. A missing file raises IndexError, and a raised exception ends the stage. With requested languages, the result is the files of the languages that succeeded. One report is made per language |
| Worker.FetchLanguageAudio | app.py:323-341 | one `downloading_audio` report per requested language, in order. The files saved are exactly those of the languages whose fetch saved one, in request order |
| Worker.FetchSubtitles | app.py:343-361 | no subtitles requested: no report and no files. Otherwise one `downloading_subs` report, then the download's exception or the files found |
| Worker.GlobSubtitles | app.py:357-361 | the subtitle files found are those of the requested languages that have a file, in request order, paired with their language |
| Worker.Merge | app.py:363-410 | one `merging` report, then the failure of ffmpeg run on the planned command |
| Worker.VideoSelector | app.py:294 | a non-empty requested format id is used; otherwise `bestvideo[ext=mp4]/bestvideo` |
| Worker.Mp3Message | app.py:277-283 | the mp3 branch succeeds exactly when a file was saved. A raised exception keeps its message, and no file gives `MP3 conversion failed` |
| Worker.FirstFault | app.py:246-410 | a fault happens after the `processing` report and at least one stage report, and no later than the last checkpoint |
| Worker.FaultAtVideo | app.py:297-301 | when the video is not saved, the job made exactly two reports and fails with the exception or `Original video download failed` |
| Worker.FaultAtAudio | app.py:310-321 | the audio stage fails only when no language was requested, right after `downloading_video`, with the default audio's error |
| Worker.FaultAtSubtitles | app.py:345-354 | a subtitle download exception ends the job right after the `downloading_subs` report, with that message |
| Worker.ReachesMerge | app.py:363-410 | once all inputs are saved, every checkpoint is reported and the outcome is ffmpeg's on the planned command |
| Worker.JobTraceEnds | app.py:412-429 | a job's reports are those of the `try` block followed by `completed`, or followed by `error` with the fault's message |
| Worker.FinalReportsKeepStatus | app.py:419-429 | neither final report passes `status` among its keyword fields, so the positional status stands |
| WorkerFacts.JobLife | app.py:214-430 | submitting then running a job leaves the registry as replaying its whole life: `queued`, then the worker's trace |
| WorkerFacts.TraceShape | app.py:246-429 | every trace starts with `processing` and ends with exactly one terminal status. Nothing before the end is terminal |
| WorkerFacts.CompletesIffNoFault | app.py:412-429 | the last status is `completed` if and only if no fault occurred, and `error` if and only if one did. The final report is the completion record or the error record with the fault's message |
| WorkerFacts.CheckpointAt | app.py:248-364 | the checkpoint sequence: mp3 is `processing` then `downloading`. mp4 is `processing`, `downloading_video`, one `downloading_audio` per language, `downloading_subs` when asked, then `merging` |
| WorkerFacts.CheckpointLevel | app.py:248-364 | the percentages are 5, then 20 for mp3, and 10, 30 per language, 50, 80 for mp4. No checkpoint is terminal |
| WorkerFacts.CheckpointLevels | app.py:248-364 | checkpoint percentages lie between 5 and 80 and never decrease from one checkpoint to the next |
| WorkerFacts.CheckpointStatus | app.py:323-346 | a checkpoint is `downloading_audio` exactly at the per-language positions, and `downloading_subs` exactly at the position after them when subtitles were requested |
| WorkerFacts.LifeAt | app.py:214-429 | a job's life is `queued`, then the checkpoints reached, then the final report |
| WorkerFacts.FinalReport | app.py:419-429 | the completion report sets percentage 100, and the error report sets none |
| WorkerFacts.LifeReports | app.py:214-429 | every report except an error report carries a percentage, and every percentage is an integer |
| WorkerFacts.LifeIsProgressLog | app.py:214-429 | in a job's life, each reported percentage is at most the next one reported |
| WorkerFacts.ReportedMonotone | app.py:214-429 | in such a run of reports, any earlier percentage is at most any later one |
| WorkerFacts.LastReportedMonotone | app.py:214-429 | the last percentage reported by a prefix of such a run never exceeds that of a longer prefix |
| WorkerFacts.ProgressNeverDecreases | app.py:62-429 | the percentage a client reads in the job record never goes down as the job proceeds, including on error |
| WorkerFacts.FaultPosition | app.py:246-410 | a job fails after the first stage report, after the subtitle report (only from the subtitle download), or after `merging`. An mp3 job fails after `downloading` |
| WorkerFacts.ErrorReportAt | app.py:427-429 | an `error` report appears only at the fault's position, carries its message, and follows the last checkpoint reached |
| WorkerFacts.AudioFailureNotFatal | app.py:334-341 | an `error` report never directly follows a `downloading_audio` report: a failed language does not end the job |
| WorkerFacts.MissingSubtitlesNotFatal | app.py:353-361 | an error right after `downloading_subs` comes only from the subtitle download raising, with its message. A missing file does not cause one |
| WorkerFacts.LanguageAudioSaved | app.py:334-339 | a file is among the audio inputs if and only if some requested language's fetch saved it |
| WorkerFacts.LanguageAudioOrder | app.py:323-339 | the audio files of earlier languages are a prefix of those of later ones, so request order is kept |
| WorkerFacts.DefaultAudioExactlyOne | app.py:310-321 | without requested languages, a successful audio stage yields exactly one file, the default best audio |
| WorkerFacts.FoundSubsMembers | app.py:357-361 | a subtitle input belongs to the list if and only if its language was requested and a file was found for it |
| WorkerFacts.FoundSubsOrder | app.py:357-361 | the subtitle files of earlier languages are a prefix of those of later ones |
| WorkerFacts.CompletedFields | app.py:256-424 | the completion report sets percentage 100, message `Ready`, the file name `download_<id>.<type>` and the download URL `<host>files/<file name>` |
| WorkerFacts.CompletedRecord | app.py:214-424 | after a job without a fault, its record is `completed` with percentage 100, `Ready`, the file name and the download URL |
| WorkerFacts.FailedRecord | app.py:427-429 | after a fault, the record is `error` with the exception's message |
| WorkerFacts.FailedPercentage | app.py:427-429 | after a fault, the stored percentage is still the one from the last checkpoint reached |
| WorkerFacts.LifePercentage | app.py:62-429 | after a job's life, the stored percentage is the last one reported |
| WorkerFacts.FailedLifeEnd | app.py:427-429 | a failed life ends with the last checkpoint reached, then a report without a percentage |
| WorkerFacts.FilenameRoundTrip | app.py:256-257 | a file name built from a job id without '.' splits back into the job id and the download type |

## Left out

- The HTTP layer (routes, CORS, JSON parsing, `send_from_directory`, `/api/progress`) is not modelled. The model starts at the parsed request values.
- The URL checks of the analyze handler and the yt-dlp `extract_info` call are not modelled. `Catalog.Analyze` takes their outcome as a `Result<MediaInfo>`.
- `format_size` and the human-readable `filesize` field are left out, because they use floating point. The byte count `filesize_bytes` is modelled.
- Catalog.Analyze: requires the subtitle language list to hold no duplicates. The source takes the keys of a dict, which cannot repeat.
- Threads are not modelled. Each job runs to completion, and concurrent jobs interleaving their `update_job` calls is not covered.
- The filesystem is not modelled: `makedirs`, `rmtree`, `shutil.move` and the globs. Each download together with its glob is one `FetchOutcome`. A failing `shutil.move` in the mp3 branch is not modelled.
- `time.time()` is the clock function given to the registry, and `uuid4()` is the job id in the request.
- Logging is not modelled.
- Worker.FetchAudio: a request whose `audio` or `subtitle` value is not a list is not modelled, because requests carry sequences of strings.
- Worker.ProcessDownload: the download directory is assumed to have no trailing separator when the final path is joined.
- The subtitle download is one outcome for all requested languages: an exception, or the file found per language.
- WorkerFacts.FilenameRoundTrip: requires a job id without '.'. A `uuid4` string never contains one.
- The `WorkerFacts` lemmas over a `Feasible` fault hold for every fault the worker can meet. `WorkerFacts.JobLife` and `Worker.ProcessDownload` instantiate them with `Worker.FirstFault`.

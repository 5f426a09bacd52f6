/**
 * The merge planner: the argument list handed to ffmpeg to multiplex one
 * video file, the downloaded audio files and the downloaded subtitle files
 * into the final mp4, with one explicit stream map per input and a language
 * tag per subtitle stream.
 */
module MergePlan {
  import opened Strings

  const Ffmpeg := "ffmpeg"
  const CodecFlags := ["-c:v", "copy", "-c:a", "aac", "-c:s", "mov_text"]

  /** A downloaded subtitle file and the language it was requested under. */
  datatype SubtitleFile = SubtitleFile(path: string, lang: string)

  /** A list of flag/value pairs written out flat, as `cmd.extend([flag, value])` does. */
  function Pairs(ps: seq<(string, string)>): (r: seq<string>)
    ensures |r| == 2 * |ps|
  {
    if ps == [] then [] else Pairs(ps[..|ps| - 1]) + [ps[|ps| - 1].0, ps[|ps| - 1].1]
  }

  lemma {:induction false} PairsAt(ps: seq<(string, string)>, i: nat)
    requires i < |ps|
    ensures Pairs(ps)[2 * i] == ps[i].0 && Pairs(ps)[2 * i + 1] == ps[i].1
  {
    if i < |ps| - 1 {
      PairsAt(ps[..|ps| - 1], i);
    }
  }

  lemma PairsSnoc(ps: seq<(string, string)>, p: (string, string))
    ensures Pairs(ps + [p]) == Pairs(ps) + [p.0, p.1]
  {
    assert (ps + [p])[..|ps|] == ps;
  }

  function SubtitlePaths(subs: seq<SubtitleFile>): (r: seq<string>)
    ensures |r| == |subs|
  {
    seq(|subs|, i requires 0 <= i < |subs| => subs[i].path)
  }

  /** The inputs in the order they are given to ffmpeg: video, audios, subtitles. */
  function InputPaths(video: string, audios: seq<string>, subs: seq<SubtitleFile>): seq<string> {
    [video] + audios + SubtitlePaths(subs)
  }

  /** Which stream the k-th input contributes: its video, its audio or its subtitles. */
  function StreamKind(k: nat, audioCount: nat): char {
    if k == 0 then 'v' else if k <= audioCount then 'a' else 's'
  }

  /** ffmpeg's stream specifier `k:kind`. */
  function MapSpec(k: nat, kind: char): string {
    NatToString(k) + ":" + [kind]
  }

  function InputArgs(paths: seq<string>): (r: seq<(string, string)>)
    ensures |r| == |paths|
  {
    seq(|paths|, k requires 0 <= k < |paths| => ("-i", paths[k]))
  }

  function MapArgs(n: nat, audioCount: nat): (r: seq<(string, string)>)
    ensures |r| == n
  {
    seq(n, k requires 0 <= k < n => ("-map", MapSpec(k, StreamKind(k, audioCount))))
  }

  function MetadataArgs(subs: seq<SubtitleFile>): (r: seq<(string, string)>)
    ensures |r| == |subs|
  {
    seq(|subs|, i requires 0 <= i < |subs| => ("-metadata:s:s:" + NatToString(i), "language=" + subs[i].lang))
  }

  /** The program, `-y`, the inputs and their stream maps. */
  function Preamble(video: string, audios: seq<string>, subs: seq<SubtitleFile>): (r: seq<string>)
    ensures |r| == 2 + 4 * (1 + |audios| + |subs|)
  {
    var paths := InputPaths(video, audios, subs);
    [Ffmpeg, "-y"] + Pairs(InputArgs(paths)) + Pairs(MapArgs(|paths|, |audios|))
  }

  /** The whole ffmpeg argument list. */
  function MergeCommand(video: string, audios: seq<string>, subs: seq<SubtitleFile>, finalPath: string): seq<string> {
    Preamble(video, audios, subs) + Pairs(MetadataArgs(subs)) + CodecFlags + [finalPath]
  }

  lemma InputArgsSnoc(paths: seq<string>, x: string)
    ensures Pairs(InputArgs(paths + [x])) == Pairs(InputArgs(paths)) + ["-i", x]
  {
    assert InputArgs(paths + [x]) == InputArgs(paths) + [("-i", x)];
    PairsSnoc(InputArgs(paths), ("-i", x));
  }

  lemma MapArgsSnoc(n: nat, audioCount: nat)
    ensures Pairs(MapArgs(n + 1, audioCount)) == Pairs(MapArgs(n, audioCount)) + ["-map", MapSpec(n, StreamKind(n, audioCount))]
  {
    assert MapArgs(n + 1, audioCount) == MapArgs(n, audioCount) + [("-map", MapSpec(n, StreamKind(n, audioCount)))];
    PairsSnoc(MapArgs(n, audioCount), ("-map", MapSpec(n, StreamKind(n, audioCount))));
  }

  lemma SubtitlePathsSnoc(before: seq<string>, subs: seq<SubtitleFile>, j: nat)
    requires j < |subs|
    ensures before + SubtitlePaths(subs[..j + 1]) == (before + SubtitlePaths(subs[..j])) + [subs[j].path]
  {
    assert SubtitlePaths(subs[..j + 1]) == SubtitlePaths(subs[..j]) + [subs[j].path];
  }

  lemma MetadataArgsSnoc(subs: seq<SubtitleFile>, j: nat)
    requires j < |subs|
    ensures Pairs(MetadataArgs(subs[..j + 1]))
         == Pairs(MetadataArgs(subs[..j])) + ["-metadata:s:s:" + NatToString(j), "language=" + subs[j].lang]
  {
    var entry := ("-metadata:s:s:" + NatToString(j), "language=" + subs[j].lang);
    assert MetadataArgs(subs[..j + 1]) == MetadataArgs(subs[..j]) + [entry];
    PairsSnoc(MetadataArgs(subs[..j]), entry);
  }

  /**
   * The first half of the merge step: one `-i` pair per input and, grown in
   * step with it, one `-map` pair per input, for the video, then each audio
   * file, then each subtitle file.
   */
  method InputsAndMaps(video: string, audios: seq<string>, subs: seq<SubtitleFile>)
    returns (inputs: seq<string>, maps: seq<string>)
    ensures inputs == Pairs(InputArgs(InputPaths(video, audios, subs)))
    ensures maps == Pairs(MapArgs(1 + |audios| + |subs|, |audios|))
  {
    var inputCounter: nat;
    inputs, maps, inputCounter := VideoAndAudioInputs(video, audios);
    inputs, maps, inputCounter := AddSubtitleInputs(inputs, maps, inputCounter, [video] + audios, |audios|, subs);
  }

  /** The video input, mapped `0:v`, then the audio inputs, mapped `k:a` for k = 1 .. |audios|. */
  method VideoAndAudioInputs(video: string, audios: seq<string>)
    returns (inputs: seq<string>, maps: seq<string>, inputCounter: nat)
    ensures inputCounter == 1 + |audios|
    ensures inputs == Pairs(InputArgs([video] + audios))
    ensures maps == Pairs(MapArgs(inputCounter, |audios|))
  {
    inputs, maps, inputCounter := [], [], 0;
    ghost var added: seq<string> := [];

    InputArgsSnoc(added, video);
    MapArgsSnoc(inputCounter, |audios|);
    inputs := inputs + ["-i", video];
    maps := maps + ["-map", MapSpec(inputCounter, 'v')];
    added := added + [video];
    inputCounter := inputCounter + 1;

    for i := 0 to |audios|
      invariant inputCounter == 1 + i
      invariant added == [video] + audios[..i]
      invariant inputs == Pairs(InputArgs(added))
      invariant maps == Pairs(MapArgs(inputCounter, |audios|))
    {
      InputArgsSnoc(added, audios[i]);
      MapArgsSnoc(inputCounter, |audios|);
      inputs := inputs + ["-i", audios[i]];
      maps := maps + ["-map", MapSpec(inputCounter, 'a')];
      assert audios[..i + 1] == audios[..i] + [audios[i]];
      added := added + [audios[i]];
      inputCounter := inputCounter + 1;
    }
    assert audios[..|audios|] == audios;
  }

  /** The subtitle inputs, each mapped `k:s`, appended after the video and audio inputs. */
  method AddSubtitleInputs(inputs0: seq<string>, maps0: seq<string>, counter0: nat,
                           before: seq<string>, audioCount: nat, subs: seq<SubtitleFile>)
    returns (inputs: seq<string>, maps: seq<string>, inputCounter: nat)
    requires counter0 == |before| && audioCount < counter0
    requires inputs0 == Pairs(InputArgs(before))
    requires maps0 == Pairs(MapArgs(counter0, audioCount))
    ensures inputCounter == counter0 + |subs|
    ensures inputs == Pairs(InputArgs(before + SubtitlePaths(subs)))
    ensures maps == Pairs(MapArgs(inputCounter, audioCount))
  {
    inputs, maps, inputCounter := inputs0, maps0, counter0;
    ghost var added := before;
    assert SubtitlePaths(subs[..0]) == [];
    for j := 0 to |subs|
      invariant inputCounter == counter0 + j
      invariant added == before + SubtitlePaths(subs[..j])
      invariant inputs == Pairs(InputArgs(added))
      invariant maps == Pairs(MapArgs(inputCounter, audioCount))
    {
      InputArgsSnoc(added, subs[j].path);
      MapArgsSnoc(inputCounter, audioCount);
      SubtitlePathsSnoc(before, subs, j);
      inputs := inputs + ["-i", subs[j].path];
      maps := maps + ["-map", MapSpec(inputCounter, 's')];
      added := added + [subs[j].path];
      inputCounter := inputCounter + 1;
    }
    assert subs[..|subs|] == subs;
  }

  /** The language tags of the merge step: the i-th subtitle stream is tagged with the i-th language. */
  method SubtitleMetadata(subs: seq<SubtitleFile>) returns (meta: seq<string>)
    ensures meta == Pairs(MetadataArgs(subs))
  {
    meta := [];
    var currentSubIdx: nat := 0;
    assert MetadataArgs(subs[..0]) == [];
    for j := 0 to |subs|
      invariant currentSubIdx == j
      invariant meta == Pairs(MetadataArgs(subs[..j]))
    {
      MetadataArgsSnoc(subs, j);
      meta := meta + ["-metadata:s:s:" + NatToString(currentSubIdx), "language=" + subs[j].lang];
      currentSubIdx := currentSubIdx + 1;
    }
    assert subs[..|subs|] == subs;
  }

  /** The command construction of the merge step: inputs, then maps, then tags, codecs and the output. */
  method BuildMergeCommand(video: string, audios: seq<string>, subs: seq<SubtitleFile>, finalPath: string)
    returns (cmd: seq<string>)
    ensures cmd == MergeCommand(video, audios, subs, finalPath)
  {
    var inputs, maps := InputsAndMaps(video, audios, subs);
    var meta := SubtitleMetadata(subs);
    cmd := [Ffmpeg, "-y"] + inputs;
    cmd := cmd + maps;
    cmd := cmd + meta;
    cmd := cmd + CodecFlags;
    cmd := cmd + [finalPath];
  }

  /** The two characters of the stream kind and the separator end every specifier; the index is decimal. */
  lemma MapSpecInjective(a: nat, x: char, b: nat, y: char)
    requires MapSpec(a, x) == MapSpec(b, y)
    ensures a == b && x == y
  {
    var s := MapSpec(a, x);
    assert s[|s| - 1] == x && MapSpec(b, y)[|s| - 1] == y;
    assert s[..|s| - 2] == NatToString(a);
    assert MapSpec(b, y)[..|s| - 2] == NatToString(b);
    NatToStringInjective(a, b);
  }

  /** Which file is the k-th input: the video, then the audio files, then the subtitle files. */
  lemma InputPathAt(video: string, audios: seq<string>, subs: seq<SubtitleFile>, k: nat)
    requires k < 1 + |audios| + |subs|
    ensures StreamKind(k, |audios|) == 'v' ==> InputPaths(video, audios, subs)[k] == video
    ensures StreamKind(k, |audios|) == 'a' ==> InputPaths(video, audios, subs)[k] == audios[k - 1]
    ensures StreamKind(k, |audios|) == 's' ==> InputPaths(video, audios, subs)[k] == subs[k - 1 - |audios|].path
  {
  }

  /** Number of subtitle streams among the first k inputs. */
  function SubtitleStreamsBefore(k: nat, audioCount: nat): nat {
    if k == 0 then 0
    else SubtitleStreamsBefore(k - 1, audioCount) + (if StreamKind(k - 1, audioCount) == 's' then 1 else 0)
  }

  /**
   * The i-th subtitle file is input 1 + A + i and, because the maps follow input
   * order, output subtitle stream i: the stream `-metadata:s:s:i` addresses.
   */
  lemma {:induction false} SubtitleStreamIndex(audioCount: nat, i: nat)
    ensures StreamKind(1 + audioCount + i, audioCount) == 's'
    ensures SubtitleStreamsBefore(1 + audioCount + i, audioCount) == i
  {
    if i == 0 {
      NoSubtitleStreamsAmongFirst(1 + audioCount, audioCount);
    } else {
      SubtitleStreamIndex(audioCount, i - 1);
    }
  }

  lemma {:induction false} NoSubtitleStreamsAmongFirst(k: nat, audioCount: nat)
    requires k <= 1 + audioCount
    ensures SubtitleStreamsBefore(k, audioCount) == 0
  {
    if k > 0 {
      NoSubtitleStreamsAmongFirst(k - 1, audioCount);
    }
  }

  /** The k-th pair of a flat pair list appended to a command. */
  lemma {:induction false} PairAfter(pre: seq<string>, ps: seq<(string, string)>, k: nat)
    requires k < |ps|
    ensures (pre + Pairs(ps))[|pre| + 2 * k] == ps[k].0
    ensures (pre + Pairs(ps))[|pre| + 2 * k + 1] == ps[k].1
  {
    PairsAt(ps, k);
  }

  /** Length of the command: 2 + two per input + two per map + two per tag + 6 codec flags + output. */
  lemma MergeCommandLength(video: string, audios: seq<string>, subs: seq<SubtitleFile>, finalPath: string)
    ensures |MergeCommand(video, audios, subs, finalPath)| == 2 + 4 * (1 + |audios| + |subs|) + 2 * |subs| + 7
  {
  }

  /** An element of the first part of a command built by three further appends. */
  lemma InPrefix(x: seq<string>, y: seq<string>, z: seq<string>, w: seq<string>, i: nat)
    requires i < |x|
    ensures (x + y + z + w)[i] == x[i]
  {
  }

  lemma {:induction false} PreambleInputAt(video: string, audios: seq<string>, subs: seq<SubtitleFile>, k: nat)
    requires k < 1 + |audios| + |subs|
    ensures var preamble := Preamble(video, audios, subs);
      preamble[2 + 2 * k] == "-i" && preamble[3 + 2 * k] == InputPaths(video, audios, subs)[k]
  {
    var paths := InputPaths(video, audios, subs);
    PairAfter([Ffmpeg, "-y"], InputArgs(paths), k);
  }

  /** Input section: `-i` and the k-th input path at positions 2 + 2k and 3 + 2k. */
  lemma {:induction false} MergeCommandInputAt(video: string, audios: seq<string>, subs: seq<SubtitleFile>, finalPath: string, k: nat)
    requires k < 1 + |audios| + |subs|
    ensures var cmd := MergeCommand(video, audios, subs, finalPath);
      cmd[2 + 2 * k] == "-i" && cmd[3 + 2 * k] == InputPaths(video, audios, subs)[k]
  {
    PreambleInputAt(video, audios, subs, k);
    InPrefix(Preamble(video, audios, subs), Pairs(MetadataArgs(subs)), CodecFlags, [finalPath], 2 + 2 * k);
    InPrefix(Preamble(video, audios, subs), Pairs(MetadataArgs(subs)), CodecFlags, [finalPath], 3 + 2 * k);
  }

  lemma {:induction false} PreambleMapAt(video: string, audios: seq<string>, subs: seq<SubtitleFile>, k: nat)
    requires k < 1 + |audios| + |subs|
    ensures var n := 1 + |audios| + |subs|;
      var preamble := Preamble(video, audios, subs);
      preamble[2 + 2 * n + 2 * k] == "-map" && preamble[3 + 2 * n + 2 * k] == MapSpec(k, StreamKind(k, |audios|))
  {
    var paths := InputPaths(video, audios, subs);
    PairAfter([Ffmpeg, "-y"] + Pairs(InputArgs(paths)), MapArgs(|paths|, |audios|), k);
  }

  /** Map section, after all inputs: `-map` and `k:v`, `k:a` or `k:s` for the k-th input. */
  lemma {:induction false} MergeCommandMapAt(video: string, audios: seq<string>, subs: seq<SubtitleFile>, finalPath: string, k: nat)
    requires k < 1 + |audios| + |subs|
    ensures var n := 1 + |audios| + |subs|;
      var cmd := MergeCommand(video, audios, subs, finalPath);
      cmd[2 + 2 * n + 2 * k] == "-map" && cmd[3 + 2 * n + 2 * k] == MapSpec(k, StreamKind(k, |audios|))
  {
    var n := 1 + |audios| + |subs|;
    PreambleMapAt(video, audios, subs, k);
    InPrefix(Preamble(video, audios, subs), Pairs(MetadataArgs(subs)), CodecFlags, [finalPath], 2 + 2 * n + 2 * k);
    InPrefix(Preamble(video, audios, subs), Pairs(MetadataArgs(subs)), CodecFlags, [finalPath], 3 + 2 * n + 2 * k);
  }

  /** Tag section, after the maps: the i-th subtitle stream gets the i-th subtitle's language. */
  lemma {:induction false} MergeCommandMetadataAt(video: string, audios: seq<string>, subs: seq<SubtitleFile>, finalPath: string, i: nat)
    requires i < |subs|
    ensures var n := 1 + |audios| + |subs|;
      var cmd := MergeCommand(video, audios, subs, finalPath);
      cmd[2 + 4 * n + 2 * i] == "-metadata:s:s:" + NatToString(i)
      && cmd[3 + 4 * n + 2 * i] == "language=" + subs[i].lang
  {
    PairAfter(Preamble(video, audios, subs), MetadataArgs(subs), i);
  }

  /** The command starts with the program and `-y` and ends with the codec flags and the output path. */
  lemma MergeCommandEnds(video: string, audios: seq<string>, subs: seq<SubtitleFile>, finalPath: string)
    ensures var cmd := MergeCommand(video, audios, subs, finalPath);
      |cmd| >= 9 && cmd[..2] == [Ffmpeg, "-y"] && cmd[|cmd| - 7..] == CodecFlags + [finalPath]
  {
  }
}

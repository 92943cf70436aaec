/** Audio extraction (services/audio_extractor.py): the WAV path derived from
    a video path, the ffmpeg command line, and the order of the guards around
    the ffmpeg run. The file system and ffmpeg itself are outside the model:
    whether a file exists is a parameter, and ffmpeg is an oracle from its
    argument vector to what the run reported. */
module AudioExtractor {
  import opened Results
  import opened Text
  import PosixPath

  /** What running ffmpeg reported: its exit status and standard error, or
      that the executable could not be started. */
  datatype FfmpegRun = Exited(returnCode: int, stderr: string) | NotInstalled

  /** The exceptions `extract_audio` raises. */
  datatype ExtractError =
    | VideoNotFound(videoPath: string)
    | FfmpegFailed(stderr: string)
    | FfmpegNotFound
    | OutputNotCreated

  /** The text of the raised exception, as `str(e)` shows it to the caller. */
  function ErrorMessage(e: ExtractError): string
  {
    match e
    case VideoNotFound(p) => "Video file not found: " + p
    case FfmpegFailed(err) => "FFmpeg error: " + err
    case FfmpegNotFound => "FFmpeg not found. Please install ffmpeg."
    case OutputNotCreated => "Audio extraction failed - output file not created"
  }

  const AudioSuffix: string := "_audio.wav"

  /** The WAV path for a video: the video path with its final extension
      replaced by `_audio.wav`. */
  function OutputPath(videoPath: string): (r: string)
    ensures |r| >= |AudioSuffix| && r[|r| - |AudioSuffix|..] == AudioSuffix
    ensures r[..|r| - |AudioSuffix|] + PosixPath.SplitExt(videoPath).1 == videoPath
  {
    var base := PosixPath.SplitExt(videoPath).0;
    var r := base + AudioSuffix;
    assert r[..|r| - |AudioSuffix|] == base;
    r
  }

  /** The argument vector `extract_audio` runs: mono 16-bit PCM at 44.1 kHz,
      no video stream, overwriting the output. */
  function FfmpegCommand(ffmpegExe: string, videoPath: string, audioPath: string): (cmd: seq<string>)
    ensures |cmd| == 12 && cmd[0] == ffmpegExe && cmd[11] == audioPath
    ensures cmd[2] == "-i" && cmd[3] == videoPath
  {
    [ffmpegExe, "-y", "-i", videoPath, "-vn", "-acodec", "pcm_s16le", "-ar", "44100", "-ac", "1", audioPath]
  }

  /** `extract_audio(video_path)`. `videoExists` and `outputExists` say whether
      the video exists before the run and the WAV file exists after it. */
  function ExtractAudio(videoPath: string, videoExists: bool, ffmpegExe: string,
                        ffmpeg: seq<string> -> FfmpegRun, outputExists: bool): (r: Result<string, ExtractError>)
    // a missing video is reported before ffmpeg is consulted
    ensures !videoExists ==> r == Failure(VideoNotFound(videoPath))
    // a failing run is reported with its stderr, whether or not an output file exists
    ensures videoExists ==>
      match ffmpeg(FfmpegCommand(ffmpegExe, videoPath, OutputPath(videoPath)))
      case NotInstalled => r == Failure(FfmpegNotFound)
      case Exited(code, err) => code != 0 ==> r == Failure(FfmpegFailed(err))
    // success exactly when the video exists, ffmpeg exits with 0 and the output was written
    ensures var run := ffmpeg(FfmpegCommand(ffmpegExe, videoPath, OutputPath(videoPath)));
      r.Success? <==> videoExists && run.Exited? && run.returnCode == 0 && outputExists
    // ffmpeg exiting with 0 without writing the output is the last failure
    ensures var run := ffmpeg(FfmpegCommand(ffmpegExe, videoPath, OutputPath(videoPath)));
      videoExists && run.Exited? && run.returnCode == 0 && !outputExists ==> r == Failure(OutputNotCreated)
    ensures r.Success? ==> r.value == OutputPath(videoPath)
  {
    if !videoExists then Failure(VideoNotFound(videoPath))
    else
      var audioPath := OutputPath(videoPath);
      match ffmpeg(FfmpegCommand(ffmpegExe, videoPath, audioPath))
      case NotInstalled => Failure(FfmpegNotFound)
      case Exited(code, err) =>
        if code != 0 then Failure(FfmpegFailed(err))
        else if !outputExists then Failure(OutputNotCreated)
        else Success(audioPath)
  }

  /** The file name the upload handler gives the video of question `q`: a
      plain file name (no directory part) with the `.webm` extension. */
  function VideoFileName(q: nat): (name: string)
    ensures |name| > 5 && name[0] == 'q' && '/' !in name
    ensures name[|name| - 5..] == ".webm"
  {
    var digits := NatToString(q);
    var name := "q" + digits + "_video.webm";
    assert forall k :: 1 <= k < 1 + |digits| ==> name[k] == digits[k - 1];
    name
  }

  /** A file name that does not start with a dot loses exactly its extension
      (a dot followed by no dot or slash) to `splitext`, whatever directory
      prefix it is behind. */
  lemma SplitExtOfFileName(pre: string, base: string, ext: string)
    requires |base| > 0 && base[0] != '.' && '/' !in base
    requires |ext| > 0 && ext[0] == '.'
    requires forall k :: 1 <= k < |ext| ==> ext[k] != '.' && ext[k] != '/'
    ensures PosixPath.SplitExt(pre + base + ext) == (pre + base, ext)
  {
    var p := pre + base + ext;
    LastSlashBefore(pre, base, ext);
    LastDotAt(pre, base, ext);
    var sepIndex := PosixPath.RFind(p, '/');
    var dotIndex := PosixPath.RFind(p, '.');
    assert p[|pre|] == base[0];
    PosixPath.HasNonDotIff(p, sepIndex + 1, dotIndex);
    assert p[..dotIndex] == pre + base;
    assert p[dotIndex..] == ext;
  }

  /** The last slash of `pre + base + ext` lies in `pre`. */
  lemma LastSlashBefore(pre: string, base: string, ext: string)
    requires '/' !in base
    requires forall k :: 0 <= k < |ext| ==> ext[k] != '/'
    ensures PosixPath.RFind(pre + base + ext, '/') < |pre|
  {
    var name := base + ext;
    assert pre + base + ext == pre + name;
    assert '/' !in name by {
      forall k | 0 <= k < |name| ensures name[k] != '/' {
        if k < |base| { assert name[k] == base[k]; }
      }
    }
    PosixPath.RFindAppend(pre, name, '/');
  }

  /** The last dot of `pre + base + ext` is the first character of `ext`. */
  lemma LastDotAt(pre: string, base: string, ext: string)
    requires |ext| > 0 && ext[0] == '.'
    requires forall k :: 1 <= k < |ext| ==> ext[k] != '.'
    ensures PosixPath.RFind(pre + base + ext, '.') == |pre| + |base|
  {
    assert PosixPath.RFind(ext, '.') == 0;
    PosixPath.RFindAppend(pre + base, ext, '.');
  }

  /** The stem of the upload file name of question `q`: it starts with `q`
      and holds no slash. */
  lemma UploadStem(q: nat)
    ensures var base := "q" + NatToString(q) + "_video";
      base[0] == 'q' && '/' !in base
      && VideoFileName(q) == base + ".webm"
      && "q" + NatToString(q) + "_video_audio.wav" == base + AudioSuffix
  {
    var digits := NatToString(q);
    var base := "q" + digits + "_video";
    forall k | 0 <= k < |base| ensures base[k] != '/' {
      if 1 <= k < 1 + |digits| {
        assert base[k] == digits[k - 1];
        assert '0' <= digits[k - 1] <= '9';
      }
    }
  }

  /** For a video saved under the upload naming `q{id}_video.webm` in any
      folder, the extracted audio is `q{id}_video_audio.wav` in the same folder. */
  lemma UploadedVideoAudioPath(folder: string, q: nat)
    ensures OutputPath(PosixPath.Join(folder, VideoFileName(q)))
         == PosixPath.Join(folder, "q" + NatToString(q) + "_video_audio.wav")
  {
    var base := "q" + NatToString(q) + "_video";
    var pre := PosixPath.JoinPrefix(folder);
    UploadStem(q);
    assert (base + ".webm")[0] == 'q' && (base + AudioSuffix)[0] == 'q';
    assert pre + (base + ".webm") == pre + base + ".webm";
    assert pre + (base + AudioSuffix) == pre + base + AudioSuffix;
    SplitExtOfFileName(pre, base, ".webm");
  }
}

/**
 * The `/create-video` route of ser.js as a decision function: given what
 * multer stored, the description field, the request's timestamp, the Host
 * header and whether the encoder process reported an error, it yields the
 * manifest file the route writes, the encoder command it runs and the JSON
 * response it sends. The manifest is a script for the encoder's concat
 * demuxer: one `file '<path>'` line per upload, in upload order.
 */
module ConcatServer {
  import opened Wrappers
  import opened Text
  import opened Upload

  /** A file the route writes: its path and its text. */
  datatype ManifestFile = ManifestFile(path: string, text: string)

  /** Everything one request does: manifest written, command run, response sent. */
  datatype Effects = Effects(manifest: Option<ManifestFile>, command: Option<string>, response: Response)

  const InputPrefix: string := "uploads/input_"
  const InputSuffix: string := ".txt"

  /** `uploads/input_${timestamp}.txt`. */
  function InputPath(timestamp: nat): (p: string)
    ensures ' ' !in p
  {
    InputPrefix + NatToString(timestamp) + InputSuffix
  }

  /** One manifest line: `file '${file.path}'`, the path put in unescaped. */
  function ManifestLine(f: UploadedFile): string
  {
    "file '" + f.path + "'"
  }

  /** `files.map(file => `file '${file.path}'`).join('\n')`. */
  function Manifest(files: seq<UploadedFile>): string
  {
    Join(seq(|files|, i requires 0 <= i < |files| => ManifestLine(files[i])), '\n')
  }

  /** The encoder command line, a fixed template around the two paths. */
  function EncoderCommand(inputTxt: string, outputVideo: string): string
  {
    "ffmpeg -f concat -safe 0 -i " + inputTxt + " -vsync vfr -pix_fmt yuv420p " + outputVideo
  }

  /** The route handler. `encoderError` stands for the error `exec` reports to its callback. */
  function CreateVideo(files: Option<seq<UploadedFile>>, descriptionField: Option<string>,
                       timestamp: nat, host: Option<string>, encoderError: bool): (e: Effects)
    ensures NoFiles(files) <==> e.response.status == 400
    ensures NoFiles(files) ==> e == Effects(None, None, Response(400, ErrorBody(NoImagesMessage)))
    ensures !NoFiles(files) ==> e.manifest.Some? && e.command.Some?
    ensures !NoFiles(files) && encoderError ==> e.response == Response(500, ErrorBody(EncodeFailedMessage))
    ensures !NoFiles(files) && !encoderError ==>
              e.response == Response(200, VideoBody(VideoUrl(host, OutputPath(timestamp))))
  {
    var description := DescriptionOf(descriptionField);
    if NoFiles(files) then
      Effects(None, None, Response(400, ErrorBody(NoImagesMessage)))
    else
      var outputVideo := OutputPath(timestamp);
      var inputTxt := InputPath(timestamp);
      var fileList := Manifest(files.value);
      var cmd := EncoderCommand(inputTxt, outputVideo);
      var response :=
        if encoderError then Response(500, ErrorBody(EncodeFailedMessage))
        else Response(200, VideoBody(VideoUrl(host, outputVideo)));
      Effects(Some(ManifestFile(inputTxt, fileList)), Some(cmd), response)
  }

  /** The words of the command template, in order. */
  function CommandWords(inputTxt: string, outputVideo: string): seq<string>
  {
    ["ffmpeg", "-f", "concat", "-safe", "0", "-i", inputTxt,
     "-vsync", "vfr", "-pix_fmt", "yuv420p", outputVideo]
  }

  lemma CommandSpelledOut(inputTxt: string, outputVideo: string)
    ensures EncoderCommand(inputTxt, outputVideo) ==
      "ffmpeg" + " " + ("-f" + " " + ("concat" + " " + ("-safe" + " " + ("0" + " " + ("-i" + " " +
      (inputTxt + " " + ("-vsync" + " " + ("vfr" + " " + ("-pix_fmt" + " " + ("yuv420p" + " " + outputVideo))))))))))
  {
  }

  /** The command is its words joined by single spaces. */
  lemma CommandIsJoinedWords(inputTxt: string, outputVideo: string)
    ensures EncoderCommand(inputTxt, outputVideo) == Join(CommandWords(inputTxt, outputVideo), ' ')
  {
    var ws := CommandWords(inputTxt, outputVideo);
    CommandSpelledOut(inputTxt, outputVideo);
    assert Join(ws[10..], ' ') == "yuv420p" + " " + outputVideo;
    assert Join(ws[8..], ' ') == "vfr" + " " + ("-pix_fmt" + " " + Join(ws[10..], ' '));
    assert Join(ws[6..], ' ') == inputTxt + " " + ("-vsync" + " " + Join(ws[8..], ' '));
    assert Join(ws[4..], ' ') == "0" + " " + ("-i" + " " + Join(ws[6..], ' '));
    assert Join(ws[2..], ' ') == "concat" + " " + ("-safe" + " " + Join(ws[4..], ' '));
    assert Join(ws, ' ') == "ffmpeg" + " " + ("-f" + " " + Join(ws[2..], ' '));
  }

  /**
   * Split at spaces, the command is the fixed template: the manifest is the
   * argument of `-i` and the output path is the last word.
   */
  lemma CommandTokens(inputTxt: string, outputVideo: string)
    requires ' ' !in inputTxt && ' ' !in outputVideo
    ensures Split(EncoderCommand(inputTxt, outputVideo), ' ') ==
            ["ffmpeg", "-f", "concat", "-safe", "0", "-i", inputTxt,
             "-vsync", "vfr", "-pix_fmt", "yuv420p", outputVideo]
  {
    CommandIsJoinedWords(inputTxt, outputVideo);
    SplitJoin(CommandWords(inputTxt, outputVideo), ' ');
  }

  lemma ManifestLinesHaveNoNewline(files: seq<UploadedFile>)
    requires forall i :: 0 <= i < |files| ==> '\n' !in files[i].path
    ensures forall i :: 0 <= i < |files| ==> '\n' !in ManifestLine(files[i])
  {
    forall i | 0 <= i < |files|
      ensures '\n' !in ManifestLine(files[i])
    {
      var line := ManifestLine(files[i]);
      assert line == "file '" + files[i].path + "'";
      assert forall k :: 0 <= k < |line| ==> line[k] != '\n' by {
        forall k | 0 <= k < |line| ensures line[k] != '\n' {
          if 6 <= k < 6 + |files[i].path| {
            assert line[k] == files[i].path[k - 6];
          }
        }
      }
    }
  }

  /**
   * One manifest line per upload, in upload order, each `file '<path>'` with
   * the path verbatim (a quote in it is not escaped), as long as no path
   * holds a line break.
   */
  lemma ManifestFollowsUploadOrder(files: seq<UploadedFile>)
    requires |files| > 0
    requires forall i :: 0 <= i < |files| ==> '\n' !in files[i].path
    ensures var lines := Split(Manifest(files), '\n');
            && |lines| == |files|
            && forall i :: 0 <= i < |files| ==> lines[i] == "file '" + files[i].path + "'"
  {
    ManifestLinesHaveNoNewline(files);
    SplitJoin(seq(|files|, i requires 0 <= i < |files| => ManifestLine(files[i])), '\n');
  }

  /**
   * The route's frame order is the upload order: the manifest it writes for
   * a request with files has exactly one line per file of `req.files`, in
   * that order.
   */
  lemma FrameOrderIsUploadOrder(files: Option<seq<UploadedFile>>, descriptionField: Option<string>,
                                timestamp: nat, host: Option<string>, encoderError: bool)
    requires !NoFiles(files)
    requires forall i :: 0 <= i < |files.value| ==> '\n' !in files.value[i].path
    ensures var e := CreateVideo(files, descriptionField, timestamp, host, encoderError);
            && e.manifest.Some?
            && var lines := Split(e.manifest.value.text, '\n');
            && |lines| == |files.value|
            && forall i :: 0 <= i < |lines| ==> lines[i] == "file '" + files.value[i].path + "'"
  {
    ManifestFollowsUploadOrder(files.value);
  }

  /** The manifest starts with the first upload's line and has no trailing newline. */
  lemma ManifestEnds(files: seq<UploadedFile>)
    requires |files| > 0
    ensures var m := Manifest(files);
            && |m| >= 7 && m[..6] == "file '"
            && m[|m| - 1] == '\''
  {
    var lines := seq(|files|, i requires 0 <= i < |files| => ManifestLine(files[i]));
    JoinEnds(lines, '\n');
  }

  /**
   * A request with files writes the manifest at the path the command reads
   * with `-i`, and the manifest path and the output path carry the same
   * timestamp, the request's own.
   */
  lemma ManifestAndOutputShareTimestamp(files: Option<seq<UploadedFile>>, descriptionField: Option<string>,
                                        timestamp: nat, host: Option<string>, encoderError: bool)
    requires !NoFiles(files)
    ensures var e := CreateVideo(files, descriptionField, timestamp, host, encoderError);
            && e.manifest.Some? && e.command.Some?
            && var words := Split(e.command.value, ' ');
            && |words| == 12 && words[5] == "-i"
            && words[6] == e.manifest.value.path
            && words[6] == InputPath(timestamp) && words[11] == OutputPath(timestamp)
            && NumberBetween(words[6], InputPrefix, InputSuffix) == Some(timestamp)
            && NumberBetween(words[11], OutputPrefix, OutputSuffix) == Some(timestamp)
  {
    CommandTokens(InputPath(timestamp), OutputPath(timestamp));
    NumberBetweenRoundTrip(InputPrefix, timestamp, InputSuffix);
    OutputPathTimestamp(timestamp);
  }

  /** On success the URL ends with the path the encoder was told to write. */
  lemma VideoUrlNamesEncoderOutput(files: Option<seq<UploadedFile>>, descriptionField: Option<string>,
                                   timestamp: nat, host: Option<string>)
    requires !NoFiles(files)
    ensures var e := CreateVideo(files, descriptionField, timestamp, host, false);
            && e.command.Some?
            && var words := Split(e.command.value, ' ');
            && e.response == Response(200, VideoBody("https://" + HostText(host) + "/" + words[|words| - 1]))
  {
    CommandTokens(InputPath(timestamp), OutputPath(timestamp));
  }

  /** The description never changes what the route writes, runs or answers. */
  lemma DescriptionIgnored(files: Option<seq<UploadedFile>>, d1: Option<string>, d2: Option<string>,
                           timestamp: nat, host: Option<string>, encoderError: bool)
    ensures CreateVideo(files, d1, timestamp, host, encoderError) ==
            CreateVideo(files, d2, timestamp, host, encoderError)
  {
  }
}

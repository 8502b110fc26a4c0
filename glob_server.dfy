/**
 * The `/create-video` route of server.js as a decision function. This
 * variant writes no manifest: the encoder reads every `.jpg` file under
 * `uploads/` through a glob pattern, so its command depends on the request
 * only through the output path.
 */
module GlobServer {
  import opened Wrappers
  import opened Text
  import opened Upload

  /** Everything one request does: command run and response sent. */
  datatype Effects = Effects(command: Option<string>, response: Response)

  /** The input pattern, with the shell quotes that keep it away from the shell's own globbing. */
  const InputPattern: string := "\"uploads/*.jpg\""

  /** The encoder command line: a fixed template ending with the output path. */
  function GlobCommand(outputPath: string): string
  {
    "ffmpeg -pattern_type glob -framerate 1 -i " + InputPattern + " -c:v libx264 -r 30 -pix_fmt yuv420p " + outputPath
  }

  /** The route handler. `encoderError` stands for the error `exec` reports to its callback. */
  function CreateVideo(files: Option<seq<UploadedFile>>, descriptionField: Option<string>,
                       timestamp: nat, host: Option<string>, encoderError: bool): (e: Effects)
    ensures NoFiles(files) <==> e.response.status == 400
    ensures NoFiles(files) ==> e == Effects(None, Response(400, ErrorBody(NoImagesMessage)))
    ensures !NoFiles(files) ==> e.command.Some?
    ensures !NoFiles(files) && encoderError ==> e.response == Response(500, ErrorBody(EncodeFailedMessage))
    ensures !NoFiles(files) && !encoderError ==>
              e.response == Response(200, VideoBody(VideoUrl(host, OutputPath(timestamp))))
  {
    var description := DescriptionOf(descriptionField);
    if NoFiles(files) then
      Effects(None, Response(400, ErrorBody(NoImagesMessage)))
    else
      var outputPath := OutputPath(timestamp);
      var cmd := GlobCommand(outputPath);
      var response :=
        if encoderError then Response(500, ErrorBody(EncodeFailedMessage))
        else Response(200, VideoBody(VideoUrl(host, outputPath)));
      Effects(Some(cmd), response)
  }

  /** The words of the command template, in order. */
  function GlobCommandWords(outputPath: string): seq<string>
  {
    ["ffmpeg", "-pattern_type", "glob", "-framerate", "1", "-i", InputPattern,
     "-c:v", "libx264", "-r", "30", "-pix_fmt", "yuv420p", outputPath]
  }

  lemma GlobCommandHeadWords()
    ensures "ffmpeg -pattern_type glob -framerate 1 -i " ==
      "ffmpeg" + " " + ("-pattern_type" + " " + ("glob" + " " + ("-framerate" + " " + ("1" + " " + ("-i" + " ")))))
  {
  }

  lemma GlobCommandTailWords()
    ensures " -c:v libx264 -r 30 -pix_fmt yuv420p " ==
      " " + ("-c:v" + " " + ("libx264" + " " + ("-r" + " " + ("30" + " " + ("-pix_fmt" + " " + ("yuv420p" + " "))))))
  {
  }

  lemma GlobCommandSpelledOut(outputPath: string)
    ensures GlobCommand(outputPath) ==
      "ffmpeg" + " " + ("-pattern_type" + " " + ("glob" + " " + ("-framerate" + " " + ("1" + " " + ("-i" + " " +
      (InputPattern + " " + ("-c:v" + " " + ("libx264" + " " + ("-r" + " " + ("30" + " " + ("-pix_fmt" + " " +
      ("yuv420p" + " " + outputPath))))))))))))
  {
    GlobCommandHeadWords();
    GlobCommandTailWords();
  }

  lemma JoinFourteenWords(ws: seq<string>)
    requires |ws| == 14
    ensures Join(ws, ' ') ==
      ws[0] + " " + (ws[1] + " " + (ws[2] + " " + (ws[3] + " " + (ws[4] + " " + (ws[5] + " " +
      (ws[6] + " " + (ws[7] + " " + (ws[8] + " " + (ws[9] + " " + (ws[10] + " " + (ws[11] + " " +
      (ws[12] + " " + ws[13]))))))))))))
  {
    assert Join(ws[12..], ' ') == ws[12] + " " + ws[13];
    assert Join(ws[10..], ' ') == ws[10] + " " + (ws[11] + " " + Join(ws[12..], ' '));
    assert Join(ws[8..], ' ') == ws[8] + " " + (ws[9] + " " + Join(ws[10..], ' '));
    assert Join(ws[6..], ' ') == ws[6] + " " + (ws[7] + " " + Join(ws[8..], ' '));
    assert Join(ws[4..], ' ') == ws[4] + " " + (ws[5] + " " + Join(ws[6..], ' '));
    assert Join(ws[2..], ' ') == ws[2] + " " + (ws[3] + " " + Join(ws[4..], ' '));
    assert Join(ws, ' ') == ws[0] + " " + (ws[1] + " " + Join(ws[2..], ' '));
  }

  /** The command is its words joined by single spaces. */
  lemma GlobCommandIsJoinedWords(outputPath: string)
    ensures GlobCommand(outputPath) == Join(GlobCommandWords(outputPath), ' ')
  {
    JoinFourteenWords(GlobCommandWords(outputPath));
    GlobCommandSpelledOut(outputPath);
  }

  /**
   * Split at spaces, the command is the fixed template: the argument of `-i`
   * is the fixed pattern of every `.jpg` under `uploads/` and the output path is the last word.
   */
  lemma GlobCommandTokens(outputPath: string)
    requires ' ' !in outputPath
    ensures Split(GlobCommand(outputPath), ' ') ==
            ["ffmpeg", "-pattern_type", "glob", "-framerate", "1", "-i", "\"uploads/*.jpg\"",
             "-c:v", "libx264", "-r", "30", "-pix_fmt", "yuv420p", outputPath]
  {
    GlobCommandIsJoinedWords(outputPath);
    SplitJoin(GlobCommandWords(outputPath), ' ');
  }

  /**
   * The encoder's input does not depend on the request: two requests with
   * files at the same timestamp run the same command, whatever files and
   * descriptions they carry.
   */
  lemma CommandIgnoresUploads(files1: Option<seq<UploadedFile>>, files2: Option<seq<UploadedFile>>,
                              d1: Option<string>, d2: Option<string>, timestamp: nat,
                              host1: Option<string>, host2: Option<string>, err1: bool, err2: bool)
    requires !NoFiles(files1) && !NoFiles(files2)
    ensures CreateVideo(files1, d1, timestamp, host1, err1).command ==
            CreateVideo(files2, d2, timestamp, host2, err2).command
  {
  }

  /**
   * A request with files runs the template with the fixed input pattern;
   * its last word is the output path, which carries the request's timestamp.
   */
  lemma CommandReadsFixedPattern(files: Option<seq<UploadedFile>>, descriptionField: Option<string>,
                                 timestamp: nat, host: Option<string>, encoderError: bool)
    requires !NoFiles(files)
    ensures var e := CreateVideo(files, descriptionField, timestamp, host, encoderError);
            && e.command.Some?
            && var words := Split(e.command.value, ' ');
            && |words| == 14 && words[5] == "-i" && words[6] == "\"uploads/*.jpg\""
            && words[13] == OutputPath(timestamp)
            && NumberBetween(words[13], OutputPrefix, OutputSuffix) == Some(timestamp)
  {
    GlobCommandTokens(OutputPath(timestamp));
    OutputPathTimestamp(timestamp);
  }

  /** On success the URL ends with the path the encoder was told to write. */
  lemma VideoUrlNamesEncoderOutput(files: Option<seq<UploadedFile>>, descriptionField: Option<string>,
                                   timestamp: nat, host: Option<string>)
    requires !NoFiles(files)
    ensures var e := CreateVideo(files, descriptionField, timestamp, host, false);
            && e.command.Some?
            && var words := Split(e.command.value, ' ');
            && e.response == Response(200, VideoBody("https://" + HostText(host) + "/" + words[|words| - 1]))
  {
    GlobCommandTokens(OutputPath(timestamp));
  }

  /** The description never changes what the route runs or answers. */
  lemma DescriptionIgnored(files: Option<seq<UploadedFile>>, d1: Option<string>, d2: Option<string>,
                           timestamp: nat, host: Option<string>, encoderError: bool)
    ensures CreateVideo(files, d1, timestamp, host, encoderError) ==
            CreateVideo(files, d2, timestamp, host, encoderError)
  {
  }
}

/**
 * What the two variants of the upload server have in common: the file
 * records multer hands to the route, the multer file-naming rule, the
 * response shapes, the timestamped output path and the public video URL.
 */
module Upload {
  import opened Wrappers
  import opened Text

  /** One element of `req.files` as multer's disk storage fills it in. */
  datatype UploadedFile = UploadedFile(originalname: string, path: string)

  /** The JSON body of a response: `{ error }` or `{ videoUrl }`. */
  datatype Body = ErrorBody(error: string) | VideoBody(videoUrl: string)

  /** An HTTP response: status code and JSON body (`res.json` alone answers 200). */
  datatype Response = Response(status: nat, body: Body)

  const NoImagesMessage: string := "Không có ảnh nào được tải lên."
  const EncodeFailedMessage: string := "Không thể tạo video."
  const OutputPrefix: string := "uploads/output_"
  const OutputSuffix: string := ".mp4"

  /** `!files || files.length === 0`: the field is missing or holds no file. */
  predicate NoFiles(files: Option<seq<UploadedFile>>)
  {
    files.None? || |files.value| == 0
  }

  /** `req.body.description || ''`. */
  function DescriptionOf(field: Option<string>): string
  {
    match field
    case None => ""
    case Some(text) => if text == "" then "" else text
  }

  /** multer's `filename` callback: `${Date.now()}-${file.originalname}`. */
  function StoredName(now: nat, originalname: string): (name: string)
    ensures |name| > |originalname| && name[|name| - |originalname|..] == originalname
  {
    NatToString(now) + "-" + originalname
  }

  /** Reads a stored name back at its first '-': the time it was stored and the client's name. */
  function ParseStoredName(name: string): Option<(nat, string)>
  {
    var head := Split(name, '-')[0];
    if |head| < |name| then
      match ParseNat(head)
      case None => None
      case Some(now) => Some((now, name[|head| + 1..]))
    else None
  }

  /** A stored name keeps both the upload time and the client's file name intact. */
  lemma StoredNameRoundTrip(now: nat, originalname: string)
    ensures ParseStoredName(StoredName(now, originalname)) == Some((now, originalname))
  {
    var digits := NatToString(now);
    var name := StoredName(now, originalname);
    assert '-' !in digits;
    assert name == digits + ['-'] + originalname;
    SplitConcat(digits, originalname, '-');
    assert Split(name, '-')[0] == digits;
    assert name[|digits| + 1..] == originalname;
    NatToStringRoundTrip(now);
  }

  /** `uploads/output_${timestamp}.mp4`. */
  function OutputPath(timestamp: nat): (p: string)
    ensures ' ' !in p
  {
    OutputPrefix + NatToString(timestamp) + OutputSuffix
  }

  /** The output path names the request's timestamp and nothing else. */
  lemma OutputPathTimestamp(timestamp: nat)
    ensures NumberBetween(OutputPath(timestamp), OutputPrefix, OutputSuffix) == Some(timestamp)
  {
    NumberBetweenRoundTrip(OutputPrefix, timestamp, OutputSuffix);
  }

  /** `${req.headers.host}`: a missing header prints as "undefined". */
  function HostText(host: Option<string>): string
  {
    match host
    case None => "undefined"
    case Some(h) => h
  }

  /** `https://${req.headers.host}/${path}`. */
  function VideoUrl(host: Option<string>, path: string): (url: string)
    ensures |url| > |path| && url[|url| - |path|..] == path
    ensures |url| >= 8 && url[..8] == "https://"
  {
    "https://" + HostText(host) + "/" + path
  }
}

/**
 * The client of App.js: its pure helpers (playback time formatting, the
 * file name and MIME type sent for an image, the height of the description
 * box) and the component state that picking images, creating a video and
 * toggling playback update.
 */
module WebClient {
  import opened Wrappers
  import opened Text
  import opened Platform

  /** A multiple of a positive `b` leaves no remainder. */
  lemma MultipleMod(k: int, b: int)
    requires b > 0
    ensures (b * k) % b == 0
  {
    var x := b * k;
    var q := x / b;
    var m := x % b;
    assert x == b * q + m && 0 <= m < b;
    var d := k - q;
    assert m == b * d;
    assert d >= 1 ==> b * d >= b;
  }

  /**
   * JavaScript's `%` on integers: the remainder takes the sign of the
   * dividend and differs from it by a multiple of the divisor.
   */
  function JsRemainder(a: int, b: int): (r: int)
    requires b > 0
    ensures a >= 0 ==> 0 <= r < b
    ensures a < 0 ==> -b < r <= 0
    ensures (a - r) % b == 0
  {
    if a >= 0 then
      MultipleMod(a / b, b);
      assert a - a % b == b * (a / b);
      a % b
    else
      var q := (-a) / b;
      MultipleMod(-q, b);
      assert -a == b * q + (-a) % b;
      assert b * -q == -(b * q);
      assert a - -((-a) % b) == b * -q;
      -((-a) % b)
  }

  /**
   * `formatTime(millis)`. `Math.floor(x / n)` for a positive `n` is Dafny's
   * `/`; the `%` is JavaScript's, so negative inputs keep their sign.
   */
  function FormatTime(millis: int): string
  {
    var totalSeconds := millis / 1000;
    var minutes := totalSeconds / 60;
    var seconds := JsRemainder(totalSeconds, 60);
    IntToString(minutes) + ":" + (if seconds < 10 then "0" else "") + IntToString(seconds)
  }

  lemma TwoDigitSeconds(seconds: nat)
    requires seconds < 60
    ensures var ss := (if seconds < 10 then "0" else "") + NatToString(seconds);
            |ss| == 2 && AllDigits(ss) && DigitsValue(ss) == seconds
  {
    var ss := (if seconds < 10 then "0" else "") + NatToString(seconds);
    DigitsValueOfNatToString(seconds);
    if seconds < 10 {
      assert ss[..1] == "0";
    } else {
      assert NatToString(seconds) == NatToString(seconds / 10) + [DigitChar(seconds % 10)];
    }
  }

  /**
   * For a non-negative time the text is `<minutes>:<ss>`: minutes without
   * leading zeros and never capped, exactly two digits of seconds below 60,
   * and minutes * 60 + seconds is the whole number of seconds.
   */
  lemma FormatTimeReadsBack(millis: nat)
    ensures var r := FormatTime(millis);
            && |r| >= 4 && r[|r| - 3] == ':'
            && AllDigits(r[..|r| - 3]) && (r[0] == '0' ==> |r| == 4)
            && AllDigits(r[|r| - 2..])
            && DigitsValue(r[|r| - 2..]) < 60
            && DigitsValue(r[..|r| - 3]) * 60 + DigitsValue(r[|r| - 2..]) == millis / 1000
  {
    var totalSeconds := millis / 1000;
    var minutes := totalSeconds / 60;
    var seconds := totalSeconds % 60;
    var mm := NatToString(minutes);
    var ss := (if seconds < 10 then "0" else "") + NatToString(seconds);
    TwoDigitSeconds(seconds);
    DigitsValueOfNatToString(minutes);
    assert JsRemainder(totalSeconds, 60) == seconds;
    assert IntToString(minutes) == mm && IntToString(seconds) == NatToString(seconds);
    var r := FormatTime(millis);
    assert r == mm + ":" + ss;
    assert r[..|r| - 3] == mm;
    assert r[|r| - 2..] == ss;
  }

  /** An hour of playback reads `60:00`: minutes do not roll over into hours. */
  lemma FormatTimeOneHour()
    ensures FormatTime(3600000) == "60:00"
  {
    assert NatToString(60) == "60";
  }

  /** A negative time keeps JavaScript's signed remainder: -1 ms reads `-1:0-1`. */
  lemma FormatTimeNegative()
    ensures FormatTime(-1) == "-1:0-1"
  {
    assert -1 / 1000 == -1 && -1 / 60 == -1;
    assert JsRemainder(-1, 60) == -1;
    assert NatToString(1) == "1";
  }

  /** `uri.split('/').pop()`. */
  function FileName(uri: string): (name: string)
    ensures '/' !in name
    ensures '/' !in uri ==> name == uri
  {
    LastSegment(uri, '/')
  }

  /** The upload name is what follows the last '/' of the URI, or the whole URI. */
  lemma FileNameIsLastSegment(uri: string)
    ensures IsLastSegment(uri, '/', FileName(uri))
    ensures '/' !in uri ==> FileName(uri) == uri
  {
    LastSegmentOfSplit(uri, '/');
  }

  /** `\w` of a JavaScript regular expression without the `u` flag. */
  predicate IsWordChar(c: char)
  {
    ('A' <= c <= 'Z') || ('a' <= c <= 'z') || ('0' <= c <= '9') || c == '_'
  }

  /** Length of the longest run of word characters ending `s`. */
  function TrailingWordLength(s: string): (n: nat)
    ensures n <= |s|
    ensures forall i :: |s| - n <= i < |s| ==> IsWordChar(s[i])
    ensures n < |s| ==> !IsWordChar(s[|s| - n - 1])
  {
    if |s| == 0 || !IsWordChar(s[|s| - 1]) then 0
    else 1 + TrailingWordLength(s[..|s| - 1])
  }

  /** `/\.(\w+)$/.exec(filename)`: the captured group when the pattern matches. */
  function ExtensionMatch(filename: string): (m: Option<string>)
    ensures m.Some? ==> var ext := m.value;
              && 0 < |ext| < |filename|
              && filename[|filename| - |ext| - 1] == '.'
              && filename[|filename| - |ext|..] == ext
              && forall i :: 0 <= i < |ext| ==> IsWordChar(ext[i])
    ensures m.None? ==> forall i :: !PatternMatchesAt(filename, i)
  {
    var n := TrailingWordLength(filename);
    if 0 < n < |filename| && filename[|filename| - n - 1] == '.' then Some(filename[|filename| - n..])
    else None
  }

  /** `match ? `image/${match[1]}` : `image``. */
  function MimeType(filename: string): (t: string)
    ensures |t| >= 5 && t[..5] == "image"
    ensures t == "image" || (|t| > 6 && t[..6] == "image/")
  {
    match ExtensionMatch(filename)
    case Some(ext) => "image/" + ext
    case None => "image"
  }

  /** The pattern `\.(\w+)$` matches at index `i`: a dot, then word characters up to the end. */
  predicate PatternMatchesAt(filename: string, i: int)
  {
    && 0 <= i < |filename| - 1
    && filename[i] == '.'
    && forall j :: i < j < |filename| ==> IsWordChar(filename[j])
  }

  /**
   * The MIME type is `image/<ext>` exactly when the pattern matches, with
   * `<ext>` the run after the match's dot; otherwise it is just `image`.
   */
  lemma MimeTypeSpec(filename: string)
    ensures (exists i :: PatternMatchesAt(filename, i)) <==> MimeType(filename) != "image"
    ensures forall i :: PatternMatchesAt(filename, i) ==> MimeType(filename) == "image/" + filename[i + 1..]
  {
    var n := TrailingWordLength(filename);
    var k := |filename| - n - 1;
    if 0 < n < |filename| && filename[k] == '.' {
      assert PatternMatchesAt(filename, k);
      forall i | PatternMatchesAt(filename, i)
        ensures i == k
      {
      }
    } else {
      forall i | 0 <= i < |filename| - 1 && filename[i] == '.'
        ensures !PatternMatchesAt(filename, i)
      {
      }
    }
  }

  /** A few names and what the pattern makes of them. */
  lemma MimeTypeExamples()
    ensures MimeType("a.tar.gz") == "image/gz"
    ensures MimeType("a.b-c") == "image"
    ensures MimeType("photo") == "image"
    ensures MimeType("shot.") == "image"
  {
    MimeTypeSpec("a.tar.gz");
    assert PatternMatchesAt("a.tar.gz", 5);
    MimeTypeSpec("a.b-c");
    MimeTypeSpec("photo");
    MimeTypeSpec("shot.");
  }

  /**
   * The height of the description box:
   * `Math.max(35, description.length > 0 ? description.split('\n').length * 20 : 35)`.
   */
  function DescriptionHeight(description: string): (h: int)
    ensures h >= 35
    ensures '\n' !in description ==> h == 35
  {
    var lines := if |description| > 0 then |Split(description, '\n')| * 20 else 35;
    if lines > 35 then lines else 35
  }

  /**
   * 35 while the text has no line break; with k line breaks, 20 for each of
   * the k + 1 lines, which is at least 40.
   */
  lemma DescriptionHeightSpec(description: string)
    ensures var breaks := Count(description, '\n');
            && (breaks == 0 ==> DescriptionHeight(description) == 35)
            && (breaks > 0 ==> DescriptionHeight(description) == 20 * (breaks + 1) >= 40)
  {
    SplitCount(description, '\n');
  }

  /** The part appended for one selected image: its URI, name and MIME type. */
  function ImagePart(uri: string): Part
  {
    FilePart("images", uri, FileName(uri), MimeType(FileName(uri)))
  }

  /**
   * The `forEach` of `createVideo` and the `append` after it: one `images`
   * part per selected URI, in selection order, then one `description` part.
   */
  method BuildForm(uris: seq<string>, description: string) returns (form: FormData)
    ensures fresh(form)
    ensures |form.parts| == |uris| + 1
    ensures forall i :: 0 <= i < |uris| ==> form.parts[i] == ImagePart(uris[i])
    ensures form.parts[|uris|] == TextPart("description", description)
  {
    form := new FormData();
    var index := 0;
    while index < |uris|
      invariant 0 <= index <= |uris|
      invariant |form.parts| == index
      invariant forall i :: 0 <= i < index ==> form.parts[i] == ImagePart(uris[i])
    {
      var uri := uris[index];
      var filename := FileName(uri);
      var mimeType := MimeType(filename);
      form.Append(FilePart("images", uri, filename, mimeType));
      index := index + 1;
    }
    form.Append(TextPart("description", description));
  }

  /** The two calls the play/pause button makes on the player. */
  datatype PlayerCall = PlayAsync | PauseAsync

  /** The state of the App component. */
  class App {
    var selectedImages: seq<string>
    var description: string
    var videoUrl: Option<string>
    var loading: bool
    var isPlaying: bool

    /** The initial `useState` values. */
    constructor ()
      ensures selectedImages == [] && description == "" && videoUrl == None
      ensures !loading && !isPlaying
    {
      selectedImages := [];
      description := "";
      videoUrl := None;
      loading := false;
      isPlaying := false;
    }

    /**
     * `pickImages`: the video and the old selection are cleared before the
     * picker opens, so a cancelled pick leaves nothing selected; otherwise
     * the selection is the picked URIs in picker order.
     */
    method PickImages(result: PickResult)
      modifies this`videoUrl, this`selectedImages
      ensures videoUrl == None
      ensures result.Canceled? ==> selectedImages == []
      ensures result.Picked? ==> selectedImages == PickedUris(result.assets)
    {
      videoUrl := None;
      selectedImages := [];
      match result {
        case Canceled =>
        case Picked(assets) =>
          selectedImages := PickedUris(assets);
      }
    }

    /**
     * `createVideo` up to the request: with nothing selected it alerts and
     * returns without a form and without touching the state; otherwise it
     * sets `loading`, clears the video and returns the form it would post.
     */
    method CreateVideo() returns (form: Option<FormData>)
      modifies this`loading, this`videoUrl
      ensures |selectedImages| == 0 ==> form.None? && loading == old(loading) && videoUrl == old(videoUrl)
      ensures |selectedImages| > 0 ==> form.Some? && loading && videoUrl == None
      ensures form.Some? ==> fresh(form.value)
      ensures form.Some? ==>
                && |form.value.parts| == |selectedImages| + 1
                && (forall i :: 0 <= i < |selectedImages| ==> form.value.parts[i] == ImagePart(selectedImages[i]))
                && form.value.parts[|selectedImages|] == TextPart("description", description)
    {
      if |selectedImages| == 0 {
        form := None;
        return;
      }
      loading := true;
      videoUrl := None;
      var f := BuildForm(selectedImages, description);
      form := Some(f);
    }

    /**
     * `togglePlayPause`: with a mounted player it pauses a playing video or
     * plays a paused one and flips `isPlaying`; without one nothing happens.
     */
    method TogglePlayPause(playerMounted: bool) returns (call: Option<PlayerCall>)
      modifies this`isPlaying
      ensures playerMounted ==> isPlaying == !old(isPlaying)
      ensures playerMounted ==> call == Some(if old(isPlaying) then PauseAsync else PlayAsync)
      ensures !playerMounted ==> isPlaying == old(isPlaying) && call == None
    {
      call := None;
      if playerMounted {
        if isPlaying {
          call := Some(PauseAsync);
        } else {
          call := Some(PlayAsync);
        }
        isPlaying := !isPlaying;
      }
    }
  }
}

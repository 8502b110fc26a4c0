/**
 * The client of app/index.tsx: the part name sent for an image (with its
 * `image_<index>.jpg` fallback), the fixed declared type, the form it posts
 * and the state that picking images and creating a video update.
 */
module HomeScreen {
  import opened Wrappers
  import opened Text
  import opened Platform

  /** The declared type of every image part, whatever its name. */
  const ImageType: string := "image/jpeg"

  /** `uri.split('/').pop() || `image_${index}.jpg``: an empty last segment falls back. */
  function PartName(uri: string, index: nat): string
  {
    var segment := LastSegment(uri, '/');
    if segment == "" then "image_" + NatToString(index) + ".jpg" else segment
  }

  /**
   * The part name is never empty and holds no '/': it is the URI's last
   * segment, unless the URI is empty or ends with '/', when it is
   * `image_<index>.jpg`.
   */
  lemma PartNameSpec(uri: string, index: nat)
    ensures var name := PartName(uri, index);
            && name != "" && '/' !in name
            && ((|uri| == 0 || uri[|uri| - 1] == '/') ==> name == "image_" + NatToString(index) + ".jpg")
            && (!(|uri| == 0 || uri[|uri| - 1] == '/') ==> IsLastSegment(uri, '/', name))
  {
    LastSegmentOfSplit(uri, '/');
    var segment := LastSegment(uri, '/');
    var digits := NatToString(index);
    assert '/' !in digits;
    var fallback := "image_" + digits + ".jpg";
    assert forall k :: 0 <= k < |fallback| ==> fallback[k] != '/' by {
      forall k | 0 <= k < |fallback| ensures fallback[k] != '/' {
        if 6 <= k < 6 + |digits| {
          assert fallback[k] == digits[k - 6];
        }
      }
    }
  }

  /** Fallback names of different positions differ. */
  lemma FallbackNamesDistinct(i: nat, j: nat)
    requires i != j
    ensures "image_" + NatToString(i) + ".jpg" != "image_" + NatToString(j) + ".jpg"
  {
    NumberBetweenRoundTrip("image_", i, ".jpg");
    NumberBetweenRoundTrip("image_", j, ".jpg");
  }

  /** The part appended for the image at `index`. */
  function ImagePart(uri: string, index: nat): Part
  {
    FilePart("images", uri, PartName(uri, index), ImageType)
  }

  /**
   * The `forEach((uri, index) => ...)` of `createVideo` and the `append`
   * after it: one `images` part per URI, in list order, then one
   * `description` part.
   */
  method BuildForm(images: seq<string>, description: string) returns (form: FormData)
    ensures fresh(form)
    ensures |form.parts| == |images| + 1
    ensures forall i :: 0 <= i < |images| ==> form.parts[i] == ImagePart(images[i], i)
    ensures form.parts[|images|] == TextPart("description", description)
  {
    form := new FormData();
    var index := 0;
    while index < |images|
      invariant 0 <= index <= |images|
      invariant |form.parts| == index
      invariant forall i :: 0 <= i < index ==> form.parts[i] == ImagePart(images[i], i)
    {
      var uri := images[index];
      var filename := PartName(uri, index);
      var mimeType := ImageType;
      form.Append(FilePart("images", uri, filename, mimeType));
      index := index + 1;
    }
    form.Append(TextPart("description", description));
  }

  /** The state of the HomeScreen component. */
  class Screen {
    var images: seq<string>
    var description: string
    var videoUri: string
    var loading: bool

    /** The initial `useState` values. */
    constructor ()
      ensures images == [] && description == "" && videoUri == "" && !loading
    {
      images := [];
      description := "";
      videoUri := "";
      loading := false;
    }

    /**
     * `pickImages`: a completed pick replaces the list with the picked URIs
     * in picker order; a cancelled pick leaves it as it was.
     */
    method PickImages(result: PickResult)
      modifies this`images
      ensures result.Canceled? ==> images == old(images)
      ensures result.Picked? ==> images == PickedUris(result.assets)
    {
      if result.Picked? {
        images := PickedUris(result.assets);
      }
    }

    /**
     * `createVideo` up to the request: with no image it alerts and returns
     * without a form; otherwise it sets `loading` and returns the form it
     * would post.
     */
    method CreateVideo() returns (form: Option<FormData>)
      modifies this`loading
      ensures |images| == 0 ==> form.None? && loading == old(loading)
      ensures |images| > 0 ==> form.Some? && loading
      ensures form.Some? ==> fresh(form.value)
      ensures form.Some? ==>
                && |form.value.parts| == |images| + 1
                && (forall i :: 0 <= i < |images| ==> form.value.parts[i] == ImagePart(images[i], i))
                && form.value.parts[|images|] == TextPart("description", description)
    {
      if |images| == 0 {
        form := None;
        return;
      }
      loading := true;
      var f := BuildForm(images, description);
      form := Some(f);
    }
  }
}

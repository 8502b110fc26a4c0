/**
 * The platform objects both mobile clients use: the multipart `FormData`
 * they fill in before posting to the server, and the result the image
 * picker resolves with.
 */
module Platform {
  /** One part of a multipart form: a file reference or a text field. */
  datatype Part =
    | FilePart(field: string, uri: string, name: string, mimeType: string)
    | TextPart(field: string, value: string)

  /** `new FormData()`: an ordered list of parts that `append` extends at the end. */
  class FormData {
    var parts: seq<Part>

    constructor ()
      ensures parts == []
    {
      parts := [];
    }

    /** `formData.append(field, value)`. */
    method Append(p: Part)
      modifies this
      ensures parts == old(parts) + [p]
    {
      parts := parts + [p];
    }
  }

  /** One picked image. */
  datatype Asset = Asset(uri: string)

  /** What `launchImageLibraryAsync` resolves with: cancelled, or the picked assets in picker order. */
  datatype PickResult = Canceled | Picked(assets: seq<Asset>)

  /** `result.assets.map(asset => asset.uri)`. */
  function PickedUris(assets: seq<Asset>): (uris: seq<string>)
    ensures |uris| == |assets|
    ensures forall i :: 0 <= i < |assets| ==> uris[i] == assets[i].uri
  {
    if |assets| == 0 then [] else [assets[0].uri] + PickedUris(assets[1..])
  }
}

# image-to-video: a Dafny model of the upload pipeline and its clients

The system turns a list of images picked on a phone into a video. A mobile
client posts the images, as repeated `images` parts of a multipart form,
together with a `description` part, to `POST /create-video`. The server stores
each upload under `uploads/` with a timestamped name and runs the FFmpeg
encoder. It answers with the URL of the produced `.mp4`, or with an error.

This project models:

- **Both server variants as decision functions.** The request's file list,
  the description field, the timestamp (`Date.now()`), the `Host` header and
  the encoder's outcome are inputs. The outputs are what the route does: the
  manifest it writes, the command it runs and the JSON response it sends.
  - `ser.js` (module `ConcatServer`) writes a script for the concat demuxer:
    one `file '<path>'` line per upload, in upload order.
  - `server.js` (module `GlobServer`) runs a fixed glob over `uploads/*.jpg`.
    Its command depends on the request only through the output path.
- **Shared server pieces** (module `Upload`): the multer file-naming rule, the
  timestamped output path, the response shapes and the public URL.
- **The two clients.**
  - `App.js` is modelled in module `WebClient`. It holds the pure helpers:
    `m:ss` time formatting, file name and MIME type from a URI, and the
    description-box height. The component state is a class whose methods
    update it: picking, creating a video, play/pause. The form is built by a
    loop that appends to a `FormData` object.
  - `app/index.tsx` is modelled in module `HomeScreen`. It holds the part-name
    fallback, the fixed `image/jpeg` type, the form loop and the component
    state.
- **Platform objects and string helpers.** `FormData` and the picker result
  are in module `Platform`. Module `Text` holds JavaScript's `split`/`join` on
  one character, `split(c).pop()`, and decimal rendering of numbers.

What the code does not do, and the model therefore does not do either:

- There are no per-request workspaces. Every request writes into the one
  `uploads/` directory.
- Names are timestamp-only and not collision-resistant.
- Manifest paths are not escaped.
- There is no timeout on the encoder and no cleanup of temporary files.
- The description is not echoed in the response.

## Model

| member | source | states |
|---|---|---|
| Text.NatToString | ser.js:39-41 | A timestamp renders as a non-empty string of digits that starts with '0' only for 0. |
| Text.IntToString | App.js:183 | `${n}` for an integer starts with `-` exactly when the integer is negative. The rest is a non-empty digit string without leading zeros, whose value is the integer's magnitude. |
| Text.Split | App.js:79 | `s.split(c)` yields at least one part and no part holds `c`. It yields a single part, `s` itself, exactly when `c` does not occur. SplitCount, SplitJoin and JoinSplit relate it to `join`. |
| Text.Join | ser.js:44 | `parts.join(c)`. JoinEnds gives its first and last part, and SplitJoin gives that splitting it at `c` returns the parts. |
| Text.LastSegment | App.js:79 | `split(c).pop()` holds no `c`, and is the whole string when `c` does not occur. LastSegmentSpec characterises it completely. |
| Text.NatToStringRoundTrip | ser.js:40-41 | Reading a rendered timestamp back gives the same number, so a path keeps its timestamp exactly. |
| Text.LastSegmentSpec | App.js:79 | `split('/').pop()` returns exactly the one suffix that holds no '/' and is either the whole string or preceded by '/'. Both directions are stated. |
| Text.SplitJoin | ser.js:44 | Splitting a `join(sep)` at `sep` gives back the parts when no part holds `sep`. |
| Text.JoinSplit | App.js:79 | `Split` is invertible: joining the parts of `split(sep)` gives back the original string, so the `split` calls at App.js:79 and App.js:217 lose no character. |
| Text.SplitCount | App.js:217 | `s.split(c)` has one more element than there are occurrences of `c` in `s`. |
| Text.JoinEnds | ser.js:44 | A join starts with its first part and ends with its last part, with no separator after the last part. |
| Upload.NoFiles | ser.js:35 | The guard `!files \|\| files.length === 0`. CreateVideo of either server answers 400 exactly when it holds. |
| Upload.StoredName | ser.js:24-26 | multer's stored name `<now>-<originalname>` always ends with the client's original file name. |
| Upload.StoredNameRoundTrip | server.js:17-20 | Splitting a stored name at its first '-' gives back both the upload time and the original name, even when the original name holds '-'. |
| Upload.OutputPathTimestamp | ser.js:39-40 | The output path `uploads/output_<ts>.mp4` names exactly the request's timestamp. |
| Upload.OutputPath | ser.js:40 | `uploads/output_${timestamp}.mp4` holds no space, so it stays one word of the encoder command. OutputPathTimestamp reads the timestamp back from it. |
| Upload.HostText | ser.js:57 | `${req.headers.host}` prints a missing header as `undefined`. VideoUrlNamesEncoderOutput places it in the URL. |
| Upload.VideoUrl | ser.js:57 | The video URL starts with `https://` and ends with the output path. |
| ConcatServer.InputPath | ser.js:41 | `uploads/input_${timestamp}.txt` holds no space, so it stays one word of the encoder command. ManifestAndOutputShareTimestamp gives it as the `-i` argument. |
| ConcatServer.ManifestLine | ser.js:44 | The line for one file, `file '<path>'`. ManifestFollowsUploadOrder shows that every file gets exactly this line. |
| ConcatServer.Manifest | ser.js:44 | The lines joined by `\n`. ManifestFollowsUploadOrder and ManifestEnds state its lines and its ends. |
| ConcatServer.EncoderCommand | ser.js:47 | The concat command line. CommandTokens states its exact 12 words. |
| ConcatServer.CreateVideo | ser.js:31-60 | A missing or empty file list gives 400 with the fixed error, and the route then writes no manifest and runs no command. Otherwise it writes a manifest and runs a command. An encoder error gives 500 with the fixed message. Success gives 200 with `videoUrl` = `https://<host>/<output path>`. |
| ConcatServer.FrameOrderIsUploadOrder | ser.js:44-45 | The manifest the route writes has exactly one line per element of `req.files`, in that order. Line i is `file '<path of file i>'`. |
| ConcatServer.ManifestFollowsUploadOrder | ser.js:44 | The `map`/`join` expression yields one line per file, in order. Each path appears verbatim, and a `'` in it is not escaped. |
| ConcatServer.ManifestEnds | ser.js:44 | The manifest begins with `file '` and ends with `'`. There is no trailing newline. |
| ConcatServer.CommandTokens | ser.js:47 | Split at spaces, the command is the fixed 12-word template. The manifest path is the argument of `-i` and the output path is the last word. |
| ConcatServer.ManifestAndOutputShareTimestamp | ser.js:39-47 | The command reads, with `-i`, the path the manifest was written to. The manifest path is exactly `uploads/input_<ts>.txt` and the output path exactly `uploads/output_<ts>.mp4`. Both read back as the request's timestamp. |
| ConcatServer.VideoUrlNamesEncoderOutput | ser.js:56-58 | On success the URL is `https://<host>/` followed by the last word of the encoder command, the file the encoder was told to write. |
| ConcatServer.DescriptionIgnored | ser.js:33-58 | The description is read with `req.body.description \|\| ''`, but the value is never used. Two requests that differ only in the description write, run and answer the same. |
| GlobServer.GlobCommand | server.js:37 | The glob command line. GlobCommandTokens states its exact 14 words. |
| GlobServer.CreateVideo | server.js:25-49 | A missing or empty file list gives 400 with the fixed error and runs no command. Otherwise a command runs. An encoder error gives 500 with the fixed message. Success gives 200 with `videoUrl` = `https://<host>/<output path>`. |
| GlobServer.GlobCommandTokens | server.js:37 | Split at spaces, the command is the fixed 14-word template. The argument of `-i` is the quoted pattern of every `.jpg` under `uploads/`, and the output path is the last word. |
| GlobServer.CommandIgnoresUploads | server.js:33-37 | Any two requests with files at the same timestamp run the identical command, whatever files, descriptions, hosts and outcomes they have. |
| GlobServer.CommandReadsFixedPattern | server.js:33-37 | The encoder input is the fixed glob and not the request's files. The last word of the command is exactly `uploads/output_<ts>.mp4` and reads back as the request's timestamp. |
| GlobServer.VideoUrlNamesEncoderOutput | server.js:45-47 | On success the URL is `https://<host>/` followed by the last word of the encoder command. |
| GlobServer.DescriptionIgnored | server.js:27-47 | The description is read with `req.body.description \|\| ''`, but the value is never used. It changes neither the command nor the response. |
| Platform.FormData.constructor | App.js:77 | A new form has no parts. |
| Platform.FormData.Append | App.js:82 | `append` adds the part at the end and keeps the earlier parts. |
| Platform.PickedUris | App.js:63 | `assets.map(a => a.uri)` keeps the count and the picker order. |
| WebClient.FormatTime | App.js:179-184 | `formatTime` with JavaScript's floor division and signed remainder. FormatTimeReadsBack, FormatTimeOneHour and FormatTimeNegative state what it produces. |
| WebClient.FileName | App.js:79 | The name sent for a URI holds no '/', and is the URI itself when the URI has no '/'. |
| WebClient.ExtensionMatch | App.js:80 | A match is a non-empty run of word characters that ends the name and follows a dot. When there is no match, `\.(\w+)$` matches at no index. |
| WebClient.MimeType | App.js:80-81 | The type always starts with `image`. It is either `image` alone or `image/` followed by more. MimeTypeSpec gives exactly which. |
| WebClient.DescriptionHeight | App.js:217 | The height is never below 35, and is 35 for text without a line break. DescriptionHeightSpec gives the value for k breaks. |
| WebClient.ImagePart | App.js:79-82 | The `images` part for one URI: its URI, its file name and its MIME type. BuildForm shows one per selected URI. |
| WebClient.JsRemainder | App.js:182 | JavaScript's `%` with a positive divisor lies in [0, b) for a non-negative dividend and in (-b, 0] for a negative one. It differs from the dividend by a multiple of the divisor. Together these fix the truncated remainder for every input. |
| WebClient.FormatTimeReadsBack | App.js:179-184 | For non-negative milliseconds the text is `<minutes>:<ss>`. Minutes have no leading zero and `ss` is exactly two digits below 60. minutes × 60 + seconds = ⌊ms / 1000⌋. |
| WebClient.FormatTimeOneHour | App.js:180-183 | Minutes are not capped: 3,600,000 ms reads `60:00`. |
| WebClient.FormatTimeNegative | App.js:179-184 | With JavaScript's signed remainder, -1 ms reads `-1:0-1`. |
| WebClient.FileNameIsLastSegment | App.js:79 | The upload name is the part after the last '/' of the URI, or the whole URI when it has no '/'. |
| WebClient.TrailingWordLength | App.js:80 | The count covers word characters only, and the character before the run is not a word character. |
| WebClient.MimeTypeSpec | App.js:80-81 | The type is `image/<ext>` exactly when `\.(\w+)$` matches, and `<ext>` is the text after the match's dot. Otherwise the type is exactly `image`. |
| WebClient.MimeTypeExamples | App.js:80-81 | `a.tar.gz` gives `image/gz`. `a.b-c`, `photo` and `shot.` all give `image`. |
| WebClient.DescriptionHeightSpec | App.js:217 | The height is 35 when the text has no line break. With k breaks it is 20 × (k + 1), which is at least 40. |
| WebClient.BuildForm | App.js:77-84 | The form holds one `images` part per selected URI, in selection order, with the derived name and type. Exactly one `description` part follows. The form is a new object. |
| WebClient.App.constructor | App.js:30-34 | Initially there is no selection, no description, no video and nothing loading or playing. |
| WebClient.App.PickImages | App.js:52-66 | The video is cleared. A cancelled pick leaves the selection empty. A completed pick sets it to the picked URIs in picker order. |
| WebClient.App.CreateVideo | App.js:68-84 | With no selection there is no form, and `loading` and the video stay as they were. Otherwise `loading` is set, the video is cleared and the form is a new object, the ordered one described for BuildForm. |
| WebClient.App.TogglePlayPause | App.js:112-121 | With a mounted player it calls pause when playing and play when paused, then negates `isPlaying`. Without a player nothing changes and no call is made. |
| HomeScreen.PartName | app/index.tsx:45 | `uri.split('/').pop() \|\| `image_${index}.jpg``. PartNameSpec characterises it. |
| HomeScreen.ImagePart | app/index.tsx:45-51 | The `images` part for the URI at an index: its URI, its part name and the fixed `image/jpeg` type. BuildForm shows one per URI. |
| HomeScreen.PartNameSpec | app/index.tsx:45 | The part name is never empty and holds no '/'. It is the URI's last segment, unless the URI is empty or ends with '/'. Then it is `image_<index>.jpg`. |
| HomeScreen.FallbackNamesDistinct | app/index.tsx:45 | Fallback names for different positions differ. |
| HomeScreen.BuildForm | app/index.tsx:42-54 | The form holds one `images` part per URI, in list order, each declared `image/jpeg` whatever its name. Exactly one `description` part follows. The form is a new object. |
| HomeScreen.Screen.constructor | app/index.tsx:18-21 | Initially there are no images, the description and video are empty, and nothing is loading. |
| HomeScreen.Screen.PickImages | app/index.tsx:23-33 | A completed pick replaces the list with the picked URIs in picker order. A cancelled pick leaves the list unchanged. |
| HomeScreen.Screen.CreateVideo | app/index.tsx:35-54 | With no image there is no form and `loading` is unchanged. Otherwise `loading` is set and the form is a new object, the ordered one described for BuildForm. |

## Left out

- The manifest written by `writeFileSync` and the command passed to `exec` are outputs of the decision functions, not actions. The encoder's outcome is a boolean input. What FFmpeg does with the manifest or the glob is outside the model.
- The start-up `mkdirSync` of `uploads/` is not modelled. Neither are multer's per-file disk writes: Upload.StoredName gives only the naming rule.
- ConcatServer.CreateVideo: the route does not catch an exception from `writeFileSync`. That failure path is not modelled.
- ConcatServer.FrameOrderIsUploadOrder: holds only when no stored path contains a line break. A path that does contain one splits into extra manifest lines, because the route does not escape paths.
- ConcatServer.ManifestFollowsUploadOrder: holds under the same condition, for the same reason.
- multer's `file.path` is taken as given. How `path.join` normalises a client-supplied name into it is not part of this model.
- Which files the glob `uploads/*.jpg` matches at encoding time is not modelled. It depends on every earlier request and on the filesystem.
- Concurrency: the code has no locking, uniqueness or per-request isolation. Timestamp collisions between concurrent requests cannot be exhibited by this sequential model and are not claimed.
- Express, CORS, body parsing and static serving of `uploads/` are not modelled. Neither is the server start-up.
- WebClient.FormatTimeReadsBack: stated for non-negative integer milliseconds. Fractional, `NaN` or `undefined` durations from the player are not modelled.
- WebClient.App.CreateVideo: stops at the form it would post. The `fetch`, the handling of its reply (`setVideoUrl`, alerts) and the `setLoading(false)` in `finally` are network-dependent and are not modelled.
- HomeScreen.Screen.CreateVideo: stops at the form it would post, for the same reason. The `axios` request, the reply handling and the final `setLoading(false)` are not modelled.
- `Alert.alert` calls are not modelled, except that an empty selection yields no form.
- WebClient.App.TogglePlayPause: whether the video ref is mounted is an input. React sets it while rendering, and rendering is not modelled.
- The player's status callback, seeking, saving to the gallery and permission requests are device and player calls. They are not modelled.
- Rendering, styles, `Dimensions` and the floating-point layout constants are not modelled.

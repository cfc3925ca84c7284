# RemoteCam core, modelled in Dafny

RemoteCam turns an Android phone into a network camera. The model covers five parts of it:

- **`CamEngine`** owns the selected camera. It:
  - negotiates the camera's output format, sizes and fixed frame rates;
  - clamps the requested resolution and frame-rate indices;
  - picks a hardware frame rate and a skip ratio for the requested effective rate;
  - gates the capture callbacks by that ratio;
  - repacks YUV_420_888 frames into NV21 before JPEG compression;
  - offers the encoded frames to the stream channel;
  - broadcasts its state to the screen.
- **`HttpService`**:
  - keeps a salted SHA-256 password (`salt:hash`) and migrates legacy preferences;
  - hands out an access token on a correct login;
  - serves the frames as a `multipart/x-mixed-replace` MJPEG stream drawn from a bounded channel of 10 frames.
- **`Cam`**, the foreground service:
  - enters the foreground at most once;
  - dispatches the intents it receives to the engine and the HTTP service.
- **`CameraFragment`**, the screen:
  - maps the display rotation to degrees;
  - swaps the preview's width and height on quarter turns;
  - turns switch and spinner changes into `new_view_state` intents.
- **`IpUtil.getLocalIpAddress`** finds the address shown to the user. It prefers a `wlan` 192.168 address, then any IPv4 site-local address, then loopback.

The project has one module per concern:

| File | Module | What it holds |
|---|---|---|
| `common.dfy` | `Common` | options, bytes, blank strings, decimal rendering |
| `parcels.dfy` | `Parcels` | `ViewState`, `Data` and the other records |
| `frame_repack.dfy` | `FrameRepack` | the NV21 repack on an `array` |
| `capabilities.dfy` | `Capabilities` | capability negotiation |
| `pacing.dfy` | `FramePacing` | clamps, frame-rate choice, skip ratio, rotation |
| `http_auth.dfy` | `HttpAuth` | hashing, verification, migration |
| `mjpeg.dfy` | `Mjpeg` | the multipart byte stream and its parser |
| `http_service.dfy` | `Http` | the `FrameChannel` and `HttpService` classes |
| `engine.dfy` | `Engine` | the `CamEngine` class |
| `service.dfy` | `Service` | the `Cam` class |
| `fragment.dfy` | `Fragment` | the `CameraFragment` class |
| `iputil.dfy` | `IpUtil` | the address search |

Objects whose fields the app updates in place are classes. Pure computations are functions with lemmas about them.

The Android framework is modelled as inputs to the methods:

- the cameras the system enumerates (`None` when enumeration throws);
- the characteristics per camera id;
- whether the camera opens and the session is configured;
- the JPEG encoder and bitmap decoder;
- the SHA-256 digest;
- the salts and tokens drawn;
- whether the socket writes succeed;
- whether the server starts;
- whether `startForeground` succeeds;
- the network interfaces.

Calls the engine makes on the camera are kept as a trace of `HardwareCall`s. Broadcasts to the fragment and intents sent to the service are kept as sequences.

Kotlin semantics are written out where they differ from Dafny's:

- `toByte()` (signed, wrapping);
- `%` on `Int`, which truncates (`Rem`);
- `floor(a.toDouble() / e)`, which is Dafny's `/` for positive `e`;
- the stable `sortedByDescending`;
- `distinct()`, which keeps first occurrences;
- `minByOrNull`/`maxByOrNull`, which return the first extremal element.

## Model

| member | source | states |
|---|---|---|
| Common.AsciiBytes | app/src/main/java/com/samsung/android/scan3d/http/HttpService.kt:120-125 | `toByteArray()` of a header string has one byte per character, and each byte is that character's code |
| Common.Decimal | app/src/main/java/com/samsung/android/scan3d/http/HttpService.kt:122 | The rendered length is a non-empty run of decimal digits with no leading zero |
| Common.DecimalRoundTrip | app/src/main/java/com/samsung/android/scan3d/http/HttpService.kt:122 | Reading back the rendered `Content-Length` gives the frame size |
| Common.DecimalInjective | app/src/main/java/com/samsung/android/scan3d/http/HttpService.kt:122 | Distinct frame sizes render as distinct `Content-Length` values |
| FrameRepack.Zeros | app/src/main/java/com/samsung/android/scan3d/serv/CamEngine.kt:155 | A fresh `ByteArray(n)` holds n zero bytes |
| FrameRepack.LumaRows | app/src/main/java/com/samsung/android/scan3d/serv/CamEngine.kt:155-167 | The packed luma plane has `rows * width` bytes |
| FrameRepack.LumaRowsAt | app/src/main/java/com/samsung/android/scan3d/serv/CamEngine.kt:162-166 | Luma pixel (r, c) lands at `r*width+c` and comes from `r*rowStride+c` of the Y buffer |
| FrameRepack.ChromaRow | app/src/main/java/com/samsung/android/scan3d/serv/CamEngine.kt:174-179 | One chroma row yields two bytes per column |
| FrameRepack.ChromaRowAt | app/src/main/java/com/samsung/android/scan3d/serv/CamEngine.kt:174-179 | Column c of a chroma row is the V sample followed by the U sample, each read at `rowStart + c*pixelStride` |
| FrameRepack.ChromaRows | app/src/main/java/com/samsung/android/scan3d/serv/CamEngine.kt:171-180 | The interleaved chroma part has `2 * rows * cols` bytes |
| FrameRepack.ChromaRowsAt | app/src/main/java/com/samsung/android/scan3d/serv/CamEngine.kt:171-180 | Chroma pair (r, c) sits at `2*(r*cols+c)` in the interleaved part, V first and then U |
| FrameRepack.ChromaEndBound | app/src/main/java/com/samsung/android/scan3d/serv/CamEngine.kt:155-180 | The chroma part always ends inside the `width*height*3/2` array, including for odd sizes |
| FrameRepack.Nv21Parts | app/src/main/java/com/samsung/android/scan3d/serv/CamEngine.kt:155-180 | The NV21 array is the packed luma plane, then the interleaved VU rows, then a zero tail |
| FrameRepack.Nv21Length | app/src/main/java/com/samsung/android/scan3d/serv/CamEngine.kt:155 | The repacked frame is exactly `width*height*3/2` bytes long |
| FrameRepack.Nv21LumaAt | app/src/main/java/com/samsung/android/scan3d/serv/CamEngine.kt:155-167 | Every luma pixel of the output equals the Y sample at its row stride and column |
| FrameRepack.Nv21ChromaAt | app/src/main/java/com/samsung/android/scan3d/serv/CamEngine.kt:168-180 | Every chroma pair of the output after the luma plane is (V, U) read at its plane's row and pixel strides |
| FrameRepack.Nv21PaddingZero | app/src/main/java/com/samsung/android/scan3d/serv/CamEngine.kt:155-180 | The bytes past the chroma part, present for odd sizes, stay zero |
| FrameRepack.PackedRowsArePrefix | app/src/main/java/com/samsung/android/scan3d/serv/CamEngine.kt:158-160 | With `rowStride == width` the rows are back to back and form a prefix of the Y buffer |
| FrameRepack.PackedRowsFit | app/src/main/java/com/samsung/android/scan3d/serv/CamEngine.kt:158-160 | With `rowStride == width` the row reads fit exactly when `rows*width` bytes are present |
| FrameRepack.BulkCopyMatchesRowLoop | app/src/main/java/com/samsung/android/scan3d/serv/CamEngine.kt:158-167 | With `rowStride == width` the bulk `get` fails exactly when the row loop would, and otherwise copies the same luma bytes |
| FrameRepack.BulkGet | app/src/main/java/com/samsung/android/scan3d/serv/CamEngine.kt:159 | `ByteBuffer.get(dst, off, len)` copies `src[pos..pos+len]` into `dst[off..off+len]` and leaves the rest of `dst` unchanged |
| FrameRepack.CopyLuma | app/src/main/java/com/samsung/android/scan3d/serv/CamEngine.kt:156-167 | It succeeds exactly when every row read fits; the array then starts with the packed luma plane and is still zero after it |
| FrameRepack.CopyLumaPacked | app/src/main/java/com/samsung/android/scan3d/serv/CamEngine.kt:158-160 | The single bulk copy succeeds exactly when the rows fit and then writes the packed luma plane |
| FrameRepack.CopyLumaRows | app/src/main/java/com/samsung/android/scan3d/serv/CamEngine.kt:161-167 | The per-row loop succeeds exactly when every row fits and then writes the packed luma plane, leaving the tail zero |
| FrameRepack.CopyLumaRow | app/src/main/java/com/samsung/android/scan3d/serv/CamEngine.kt:163-165 | One row's `position` and `get` succeed exactly when that row fits and then append it behind the rows before it |
| FrameRepack.CopySample | app/src/main/java/com/samsung/android/scan3d/serv/CamEngine.kt:175-178 | One column reads V and then U and succeeds exactly when both are in their buffers, then appends the pair (V, U) |
| FrameRepack.CopyChromaRow | app/src/main/java/com/samsung/android/scan3d/serv/CamEngine.kt:172-179 | One row of V,U writes succeeds exactly when every sample is in its buffer and then appends that row's pairs |
| FrameRepack.CopyChromaRows | app/src/main/java/com/samsung/android/scan3d/serv/CamEngine.kt:171-180 | The row loop succeeds exactly when every sample of every row is in range and then appends all the interleaved rows |
| FrameRepack.CopyChroma | app/src/main/java/com/samsung/android/scan3d/serv/CamEngine.kt:168-180 | The chroma half succeeds exactly when every sample is in range and then appends the interleaved VU part after the luma plane |
| FrameRepack.RepackNv21 | app/src/main/java/com/samsung/android/scan3d/serv/CamEngine.kt:153-180 | The repack returns a value exactly when no read leaves its plane, and that value is the NV21 specification |
| FrameRepack.ConvertYuvToJpeg | app/src/main/java/com/samsung/android/scan3d/serv/CamEngine.kt:148-192 | A non-YUV_420_888 frame gives an empty result. Otherwise an out-of-range read fails the conversion, and a readable frame is the encoder's output for its NV21 repack at the requested quality |
| Capabilities.Reverse | app/src/main/java/com/samsung/android/scan3d/serv/CamEngine.kt:216 | `reversed()`: element i of the result is element `n-1-i` of the input |
| Capabilities.NegotiateOutput | app/src/main/java/com/samsung/android/scan3d/serv/CamEngine.kt:215-231 | The size list is never empty. The reversed JPEG sizes win when there are any, then the reversed YUV sizes with YUV format, then 1280x720 and 640x480 |
| Capabilities.Fixed | app/src/main/java/com/samsung/android/scan3d/serv/CamEngine.kt:235-239 | A range is kept exactly when it is reported and its lower bound equals its upper bound |
| Capabilities.CollectFixedRanges | app/src/main/java/com/samsung/android/scan3d/serv/CamEngine.kt:233-239 | The `forEach` loop collects exactly the fixed ranges in reported order, and nothing when the key is absent |
| Capabilities.Distinct | app/src/main/java/com/samsung/android/scan3d/serv/CamEngine.kt:241 | `distinct()` keeps every member, drops none and leaves no duplicates |
| Capabilities.InsertByLower | app/src/main/java/com/samsung/android/scan3d/serv/CamEngine.kt:241 | Insertion adds exactly that element: the result holds the list's elements and it |
| Capabilities.InsertKeepsSorted | app/src/main/java/com/samsung/android/scan3d/serv/CamEngine.kt:241 | Inserting into a list sorted by descending lower bound keeps it sorted |
| Capabilities.SortByLowerDesc | app/src/main/java/com/samsung/android/scan3d/serv/CamEngine.kt:241 | `sortedByDescending { it.lower }` returns a sorted permutation of its input |
| Capabilities.SameMultiset | app/src/main/java/com/samsung/android/scan3d/serv/CamEngine.kt:241 | Sorting keeps membership and the absence of duplicates |
| Capabilities.CountInNoDuplicates | app/src/main/java/com/samsung/android/scan3d/serv/CamEngine.kt:241 | In a list without duplicates each range occurs at most once |
| Capabilities.HardwareRangesSpec | app/src/main/java/com/samsung/android/scan3d/serv/CamEngine.kt:233-245 | The hardware list is non-empty, made of fixed ranges, strictly decreasing by lower bound, and holds exactly the fixed reported ranges. With no fixed range it is `[30,30]` |
| FramePacing.UiFpsRanges | app/src/main/java/com/samsung/android/scan3d/serv/CamEngine.kt:83 | The UI rates are `(v, v)` for each of 30, 15, 10, 5, 2 and 1, in that order |
| FramePacing.ClampIndex | app/src/main/java/com/samsung/android/scan3d/serv/CamEngine.kt:328-329 | The result is in range for a non-empty list and equals an in-range index. It is 0 otherwise |
| FramePacing.ClampIndexIdempotent | app/src/main/java/com/samsung/android/scan3d/serv/CamEngine.kt:328-330 | Clamping a clamped index changes nothing |
| FramePacing.AtLeast | app/src/main/java/com/samsung/android/scan3d/serv/CamEngine.kt:332 | The filter keeps exactly the ranges whose lower bound reaches the effective rate |
| FramePacing.MinByLower | app/src/main/java/com/samsung/android/scan3d/serv/CamEngine.kt:332 | `minByOrNull` is defined exactly for a non-empty list and returns a member of least lower bound |
| FramePacing.MaxByLower | app/src/main/java/com/samsung/android/scan3d/serv/CamEngine.kt:333 | `maxByOrNull` is defined exactly for a non-empty list and returns a member of greatest lower bound |
| FramePacing.ChooseHardwareFpsSpec | app/src/main/java/com/samsung/android/scan3d/serv/CamEngine.kt:332-334 | The camera rate is 30 without hardware rates. Otherwise it is the least hardware rate that reaches the effective rate, or the greatest rate when none does |
| FramePacing.FrameSkipRatio | app/src/main/java/com/samsung/android/scan3d/serv/CamEngine.kt:335 | The skip ratio is at least 1 |
| FramePacing.FrameSkipRatioSpec | app/src/main/java/com/samsung/android/scan3d/serv/CamEngine.kt:335 | For a positive effective rate e, ratio·e ≤ camera rate < (ratio+1)·e whenever the camera rate reaches e. The ratio is 1 when e is not positive or the camera rate is below 2e |
| FramePacing.FramesKeptCount | app/src/main/java/com/samsung/android/scan3d/serv/CamEngine.kt:366-370 | Of n callbacks after a restart, exactly n / ratio decode an image |
| FramePacing.Rem | app/src/main/java/com/samsung/android/scan3d/serv/CamEngine.kt:401 | Kotlin's `%`: the remainder is below the divisor in magnitude and takes the dividend's sign |
| FramePacing.RemCongruent | app/src/main/java/com/samsung/android/scan3d/serv/CamEngine.kt:401 | The truncated remainder differs from the dividend by a multiple of the divisor |
| FramePacing.PreviewRotation | app/src/main/java/com/samsung/android/scan3d/serv/CamEngine.kt:401 | The preview rotation is sensor minus display modulo 360, and lies in [0, 360) for angles in that range |
| HttpAuth.HexDigit | app/src/main/java/com/samsung/android/scan3d/http/HttpService.kt:48 | Each nibble renders as a lower-case hex digit |
| HttpAuth.HexDigitValue | app/src/main/java/com/samsung/android/scan3d/http/HttpService.kt:48 | A hex digit reads back as a nibble below 16 |
| HttpAuth.Hex | app/src/main/java/com/samsung/android/scan3d/http/HttpService.kt:48 | `%02x` per byte gives two lower-case hex digits per byte |
| HttpAuth.UnhexHex | app/src/main/java/com/samsung/android/scan3d/http/HttpService.kt:48 | The hex rendering is lossless: reading it back gives the digest bytes |
| HttpAuth.HashPassword | app/src/main/java/com/samsung/android/scan3d/http/HttpService.kt:44-49 | The hash is twice as long as the digest of `salt + password` and holds no `:` |
| HttpAuth.IndexOf | app/src/main/java/com/samsung/android/scan3d/http/HttpService.kt:56 | The first occurrence of a character, and none exactly when it is absent |
| HttpAuth.VerifyPassword | app/src/main/java/com/samsung/android/scan3d/http/HttpService.kt:51-61 | A stored value without `:` never verifies |
| HttpAuth.VerifySplitsAtFirstColon | app/src/main/java/com/samsung/android/scan3d/http/HttpService.kt:51-61 | For a salt without `:`, `salt:h` verifies a password exactly when that password's salted hash is h |
| HttpAuth.VerifyRoundTrip | app/src/main/java/com/samsung/android/scan3d/http/HttpService.kt:44-61 | A `salt:hash` made from a password verifies that password |
| HttpAuth.UuidHasNoColon | app/src/main/java/com/samsung/android/scan3d/http/HttpService.kt:40-42 | A UUID salt contains no `:`, so verification splits at the salt's end |
| HttpAuth.Migrate | app/src/main/java/com/samsung/android/scan3d/http/HttpService.kt:71-94 | Afterwards a hashed value is stored and flagged. An already hashed store is untouched. A migration removes the legacy plain password |
| HttpAuth.MigrationKeepsPassword | app/src/main/java/com/samsung/android/scan3d/http/HttpService.kt:76-88 | After migration the stored value accepts the legacy password, or "password" when there was none |
| HttpAuth.MigrateIdempotent | app/src/main/java/com/samsung/android/scan3d/http/HttpService.kt:71-94 | A second start keeps the migrated value, whatever salt it draws |
| Mjpeg.Part | app/src/main/java/com/samsung/android/scan3d/http/HttpService.kt:120-125 | The bytes written for a frame are strictly longer than the frame |
| Mjpeg.DigitRun | app/src/main/java/com/samsung/android/scan3d/http/HttpService.kt:122 | The longest prefix of digit bytes is found |
| Mjpeg.DigitBytesValueOfAscii | app/src/main/java/com/samsung/android/scan3d/http/HttpService.kt:122 | The ASCII bytes of a rendered length are digits with the same value |
| Mjpeg.ParseHeader | app/src/main/java/com/samsung/android/scan3d/http/HttpService.kt:120-123 | A header read consumes input |
| Mjpeg.ParsePart | app/src/main/java/com/samsung/android/scan3d/http/HttpService.kt:120-125 | A part read consumes input |
| Mjpeg.HeaderOfPart | app/src/main/java/com/samsung/android/scan3d/http/HttpService.kt:120-123 | The four header writes for length n read back as n, leaving what follows |
| Mjpeg.DigitRunOfDigits | app/src/main/java/com/samsung/android/scan3d/http/HttpService.kt:122 | The digit run of a rendered length ends at the `\r` that follows it |
| Mjpeg.ParsePartOfPart | app/src/main/java/com/samsung/android/scan3d/http/HttpService.kt:120-125 | A written part reads back as its frame, leaving what follows untouched |
| Mjpeg.ParseBodyOfBody | app/src/main/java/com/samsung/android/scan3d/http/HttpService.kt:118-131 | The multipart body of a sequence of frames parses back into those frames |
| Mjpeg.EmittedIsPrefix | app/src/main/java/com/samsung/android/scan3d/http/HttpService.kt:119-130 | A client receives a prefix of the frame's part: all of it when no write fails, and exactly k bytes when a write fails after k |
| Mjpeg.EmittedAllComplete | app/src/main/java/com/samsung/android/scan3d/http/HttpService.kt:118-131 | When every write succeeds, the producer's output is the multipart body of the drained frames |
| Mjpeg.EmittedAllAppend | app/src/main/java/com/samsung/android/scan3d/http/HttpService.kt:118-131 | The output for two runs of frames is the two outputs concatenated |
| Mjpeg.EmittedAllSnoc | app/src/main/java/com/samsung/android/scan3d/http/HttpService.kt:118-131 | Each drained frame appends what reached the client for it |
| Mjpeg.EmittedAllSplit | app/src/main/java/com/samsung/android/scan3d/http/HttpService.kt:127-130 | A failed write costs only its own frame. The frames before and after it are emitted as usual |
| Http.FrameChannel.constructor | app/src/main/java/com/samsung/android/scan3d/http/HttpService.kt:26 | The channel starts empty, open and bounded by its capacity |
| Http.FrameChannel.TrySend | app/src/main/java/com/samsung/android/scan3d/serv/CamEngine.kt:431-433 | A frame is enqueued exactly when the channel is open and not full. Otherwise nothing changes |
| Http.FrameChannel.Receive | app/src/main/java/com/samsung/android/scan3d/http/HttpService.kt:118 | Receiving removes the oldest buffered frame (FIFO) |
| Http.FrameChannel.Close | app/src/main/java/com/samsung/android/scan3d/http/HttpService.kt:252-254 | After closing the channel is closed, and the result says whether it was open |
| Http.Outcomes | app/src/main/java/com/samsung/android/scan3d/http/HttpService.kt:118-131 | One write outcome per drained frame, in order |
| Http.ServeLoginPage | app/src/main/java/com/samsung/android/scan3d/http/HttpService.kt:183-202 | The error line appears exactly for `loginFailed=true`, and the page is never cached |
| Http.HttpService.constructor | app/src/main/java/com/samsung/android/scan3d/http/HttpService.kt:24-29 | The stored preferences are migrated and an already hashed value is adopted. There is no token, no server, and an empty open channel of 10 |
| Http.HttpService.ChangePassword | app/src/main/java/com/samsung/android/scan3d/http/HttpService.kt:96-113 | A blank password is refused and changes nothing. Otherwise the new `salt:hash` is stored and accepts the new password, the legacy entry goes, and no token grants the stream |
| Http.HttpService.HandleLogin | app/src/main/java/com/samsung/android/scan3d/http/HttpService.kt:204-237 | A non-form body gets 415 and the token is kept. A correct password gets a fresh token and the stream page. Anything else clears the token and redirects to `/?loginFailed=true` |
| Http.HttpService.Producer | app/src/main/java/com/samsung/android/scan3d/http/HttpService.kt:115-139 | It drains the channel, and its output is the per-frame emission of exactly the buffered frames in order |
| Http.HttpService.HandleStream | app/src/main/java/com/samsung/android/scan3d/http/HttpService.kt:159-181 | The stream is served exactly when the submitted token equals a current one, with the multipart content type and the producer's output. Otherwise it is 401 and the channel is untouched |
| Http.HttpService.Start | app/src/main/java/com/samsung/android/scan3d/http/HttpService.kt:141-248 | `main()` leaves the server built and running |
| Http.HttpService.Stop | app/src/main/java/com/samsung/android/scan3d/http/HttpService.kt:250-262 | The channel ends up closed, and an already closed channel is untouched. A built server is stopped |
| Engine.ToSignedByteSpec | app/src/main/java/com/samsung/android/scan3d/serv/CamEngine.kt:351 | `quality.toByte()` is a signed byte congruent to the quality modulo 256, and equals it for 0..127 |
| Engine.FindSensor | app/src/main/java/com/samsung/android/scan3d/serv/CamEngine.kt:522 | `find` returns a camera with that id, and none exactly when no camera has it |
| Engine.SelectSpec | app/src/main/java/com/samsung/android/scan3d/serv/CamEngine.kt:328-340 | Both indices are in range and kept when already valid. The size and the effective rate are the selected entries. The camera rate is a hardware rate that reaches the effective rate when any does, and the skip ratio brackets it. The counter restarts at 0 |
| Engine.SelectIdempotent | app/src/main/java/com/samsung/android/scan3d/serv/CamEngine.kt:328-336 | Running the selection again on the indices it stored gives the same selection |
| Engine.CamEngine.constructor | app/src/main/java/com/samsung/android/scan3d/serv/CamEngine.kt:59-119 | Fields take their declared defaults. The camera list is the enumeration (empty if it throws). Camera "0" stays selected if present, else the first camera. Negotiated lists are non-empty |
| Engine.CamEngine.EnumerateAndNegotiate | app/src/main/java/com/samsung/android/scan3d/serv/CamEngine.kt:102-119 | A blank or unknown selected id falls back to the first camera, and negotiation then yields non-empty lists. Enumeration failure leaves the state alone |
| Engine.CamEngine.ResolvedCameraId | app/src/main/java/com/samsung/android/scan3d/serv/CamEngine.kt:198-202 | A non-blank id is kept. A blank one becomes the first camera's id when there is a camera |
| Engine.CamEngine.InitializeCharacteristics | app/src/main/java/com/samsung/android/scan3d/serv/CamEngine.kt:194-254 | The UI rates are reset. Characteristics exist exactly when the resolved id is known. The format, sizes and hardware rates are then negotiated from them, and otherwise take the fixed defaults of each fallback path. Both lists end non-empty |
| Engine.CamEngine.StopRunning | app/src/main/java/com/samsung/android/scan3d/serv/CamEngine.kt:261-273 | The session is stopped and closed if present and then dropped. The camera and the reader are closed if ever created, in that order |
| Engine.CamEngine.Restart | app/src/main/java/com/samsung/android/scan3d/serv/CamEngine.kt:275-284 | Each request launches one initialization while the scope is active, and none after `destroy` |
| Engine.CamEngine.Destroy | app/src/main/java/com/samsung/android/scan3d/serv/CamEngine.kt:489-495 | The camera is torn down as by `stopRunning`, and the scope is cancelled |
| Engine.CamEngine.RepeatingRequestSpec | app/src/main/java/com/samsung/android/scan3d/serv/CamEngine.kt:349-362 | The request has a JPEG orientation exactly for JPEG output, targets the fixed chosen rate, asks for continuous focus exactly when offered, and passes the quality as a byte |
| Engine.CamEngine.ApplySelection | app/src/main/java/com/samsung/android/scan3d/serv/CamEngine.kt:328-340 | The engine's pacing becomes the selection from the stored indices, and nothing else in the state changes |
| Engine.CamEngine.SetPacing | app/src/main/java/com/samsung/android/scan3d/serv/CamEngine.kt:331-336 | The hardware rate and the skip ratio are chosen for the effective rate, and the frame counter restarts |
| Engine.CamEngine.StartCapture | app/src/main/java/com/samsung/android/scan3d/serv/CamEngine.kt:343-364 | Hardware calls in order: reader, open (not for a blank id), session and repeating request. The outcome names the first failure. The preview shows exactly when wanted, not paused and with a surface |
| Engine.CamEngine.CurrentPacing | app/src/main/java/com/samsung/android/scan3d/serv/CamEngine.kt:84-89 | The pacing record holds exactly the engine's indices, size, rates, ratio and counter |
| Engine.CamEngine.SelectAndStart | app/src/main/java/com/samsung/android/scan3d/serv/CamEngine.kt:328-364 | The selection is applied. Capture starts exactly when the id is non-blank and open and session succeed, and the engine is then capturing. A session exists afterwards only if one existed before or capture started |
| Engine.CamEngine.Renegotiate | app/src/main/java/com/samsung/android/scan3d/serv/CamEngine.kt:320-326 | After the teardown, the run goes on exactly when characteristics are available for the selected id. The requested indices are untouched |
| Engine.CamEngine.InitializeCamera | app/src/main/java/com/samsung/android/scan3d/serv/CamEngine.kt:318-487 | Without characteristics it stops with pacing unchanged and no session. Otherwise the selection is applied, and capture runs exactly when the id is non-blank and open and session succeed. A session exists exactly when capture started. The closing `updateView` runs on the started and the no-characteristics paths. There it refills an empty camera list from its enumeration and broadcasts once, unless that enumeration throws. A failed open or session leaves the camera list and the broadcasts unchanged |
| Engine.CamEngine.ReportStarted | app/src/main/java/com/samsung/android/scan3d/serv/CamEngine.kt:485 | The final `updateView` broadcasts once, unless the list is empty and its enumeration throws. An empty list takes that enumeration's result. Selection and capture stay as they were |
| Engine.CamEngine.DecodedFramesCount | app/src/main/java/com/samsung/android/scan3d/serv/CamEngine.kt:366-370 | Since the last restart, exactly `counter / frameSkipRatio` callbacks decoded an image |
| Engine.CamEngine.OnCaptureCompleted | app/src/main/java/com/samsung/android/scan3d/serv/CamEngine.kt:364-483 | The counter advances, and only every ratio-th callback decodes. See below |
| Engine.CamEngine.ViewDataSpec | app/src/main/java/com/samsung/android/scan3d/serv/CamEngine.kt:497-534 | The error record with no camera; only cameras and UI rates while negotiation is incomplete. Otherwise the camera with the selected id, its orientation, the lists and the clamped indices |
| Engine.CamEngine.UpdateView | app/src/main/java/com/samsung/android/scan3d/serv/CamEngine.kt:497-534 | An empty camera list is replaced by this call's own enumeration, so a failed or empty `init` enumeration can recover. When that enumeration throws, the list stays as it was and nothing is broadcast. A non-empty list is kept. Negotiation is redone only when incomplete. Otherwise exactly one record for the resulting state is broadcast |
| Service.ParseActionSpec | app/src/main/java/com/samsung/android/scan3d/serv/Cam.kt:46-85 | Each of the seven action strings selects its own handler (both directions), and any other action is ignored |
| Service.NewEngine | app/src/main/java/com/samsung/android/scan3d/serv/Cam.kt:220-238 | The new engine is built for the cameras `init` reports. If that list is empty, the first `updateView`'s enumeration replaces it. The engine streams to the service's HTTP service, is not paused and has no surface. It has sent its data once, unless both enumerations failed to produce a list |
| Service.Cam.constructor | app/src/main/java/com/samsung/android/scan3d/serv/Cam.kt:31-36 | Creation enters the foreground, and the flag reflects whether that succeeded |
| Service.Cam.StartForegroundService | app/src/main/java/com/samsung/android/scan3d/serv/Cam.kt:90-145 | Once in the foreground nothing happens. Otherwise the foreground is entered and flagged exactly when `startForeground` succeeds |
| Service.Cam.ForegroundAtMostOnce | app/src/main/java/com/samsung/android/scan3d/serv/Cam.kt:42-44 | The foreground is entered at most once, and exactly once when the flag is set |
| Service.Cam.InitializeService | app/src/main/java/com/samsung/android/scan3d/serv/Cam.kt:147-174 | An existing HTTP service is kept untouched. Otherwise a new one is created with the migrated preferences and an empty open channel, and is connected to the engine exactly when its server starts |
| Service.Cam.StartCameraEngine | app/src/main/java/com/samsung/android/scan3d/serv/Cam.kt:216-243 | The previous engine is destroyed, and a fresh engine replaces it |
| Service.Cam.HandleNewViewState | app/src/main/java/com/samsung/android/scan3d/serv/Cam.kt:245-264 | The engine takes the new state, and restarts exactly when it differs from the old one. A missing state changes nothing |
| Service.Cam.HandleNewPreviewSurface | app/src/main/java/com/samsung/android/scan3d/serv/Cam.kt:266-299 | The engine always takes the surface, and a re-initialization is launched exactly when the preview is on |
| Service.Cam.OnPause | app/src/main/java/com/samsung/android/scan3d/serv/Cam.kt:54-59 | The engine is marked paused, and restarts exactly when it shows the preview |
| Service.Cam.OnResume | app/src/main/java/com/samsung/android/scan3d/serv/Cam.kt:61-63 | The engine is marked resumed, and nothing restarts |
| Service.Cam.RequestSensorData | app/src/main/java/com/samsung/android/scan3d/serv/Cam.kt:77-79 | The engine broadcasts its current record once, after an empty camera list is refilled from this call's enumeration. Nothing is sent when the list is empty and that enumeration throws |
| Service.Cam.Dispatch | app/src/main/java/com/samsung/android/scan3d/serv/Cam.kt:46-85 | Runs only the handler the action names. The engine reference, the HTTP service and the pending re-initializations change only under their own actions, and an unknown action or missing intent leaves the engine unchanged. Each handler's effect is stated as that handler states it: the new view state and its restart; the stored surface and the re-initialization queued exactly when the preview is on; pause with `viewState` and the surface kept; resume; and the sensor-data broadcast with the camera-list refill |
| Service.Cam.OnStartCommand | app/src/main/java/com/samsung/android/scan3d/serv/Cam.kt:38-88 | Returns START_STICKY after entering the foreground if needed, then has the effects stated for `Dispatch`: the engine reference, the HTTP service and the pending re-initializations change only under their own actions, each handler's effect is as it states, and an unknown action leaves the engine unchanged |
| Service.Cam.Kill | app/src/main/java/com/samsung/android/scan3d/serv/Cam.kt:301-309 | The engine is destroyed, the channel closed, a built server stopped, and the foreground left |
| Fragment.DisplayRotationDegrees | app/src/main/java/com/samsung/android/scan3d/fragments/CameraFragment.kt:120-129 | `ROTATION_0..270` map to 0, 90, 180 and 270, and anything else (no activity) to 0 |
| Fragment.EffectiveSizeSpec | app/src/main/java/com/samsung/android/scan3d/fragments/CameraFragment.kt:146-167 | The preview size is the raw size or its transpose. For right-angle orientations it is transposed exactly when one of sensor and display is sideways and the other is not |
| Fragment.QuarterTurnDifference | app/src/main/java/com/samsung/android/scan3d/fragments/CameraFragment.kt:155-159 | The rotation is a quarter turn exactly when sensor and display differ in sideways-ness |
| Fragment.FirstIndex | app/src/main/java/com/samsung/android/scan3d/fragments/CameraFragment.kt:215 | `indexOfFirst`: the first matching position, and none exactly when there is no match |
| Fragment.QualityIndex | app/src/main/java/com/samsung/android/scan3d/fragments/CameraFragment.kt:238-244 | The quality spinner shows the entry equal to the quality, and 80 when there is none |
| Fragment.SpinnerSelection | app/src/main/java/com/samsung/android/scan3d/fragments/CameraFragment.kt:270-271 | The resolution and frame-rate spinners show the engine's index when in range, else entry 0 |
| Fragment.CameraIds | app/src/main/java/com/samsung/android/scan3d/fragments/CameraFragment.kt:215 | The ids of the cameras in order |
| Fragment.CameraSelectionSpec | app/src/main/java/com/samsung/android/scan3d/fragments/CameraFragment.kt:215-217 | The camera spinner moves exactly when there are cameras. It points at the first camera with the selected id, the one the engine's `find` returns |
| Fragment.FindSensorFirst | app/src/main/java/com/samsung/android/scan3d/serv/CamEngine.kt:522 | `find` returns the camera at the first index with that id |
| Fragment.ViewStateIntentReachesService | app/src/main/java/com/samsung/android/scan3d/fragments/CameraFragment.kt:314-319 | The intent the fragment sends is dispatched by the service as a new view state carrying that state |
| Fragment.CameraFragment.constructor | app/src/main/java/com/samsung/android/scan3d/fragments/CameraFragment.kt:58-61 | Preview 1280x720, the initial view state, nothing sent |
| Fragment.CameraFragment.SendViewState | app/src/main/java/com/samsung/android/scan3d/fragments/CameraFragment.kt:314-319 | One `new_view_state` intent carrying the current state is sent |
| Fragment.CameraFragment.UpdateDisplayRotationStateIfNeeded | app/src/main/java/com/samsung/android/scan3d/fragments/CameraFragment.kt:119-136 | The state follows the display rotation, and is sent exactly when the rotation changed |
| Fragment.CameraFragment.UpdateMainData | app/src/main/java/com/samsung/android/scan3d/fragments/CameraFragment.kt:146-169 | With an in-range selection the preview takes that resolution's effective size. Otherwise it keeps its size |
| Fragment.CameraFragment.OnPreviewSwitch | app/src/main/java/com/samsung/android/scan3d/fragments/CameraFragment.kt:194-199 | The preview flag follows the switch, and is sent exactly when it changed |
| Fragment.CameraFragment.OnStreamSwitch | app/src/main/java/com/samsung/android/scan3d/fragments/CameraFragment.kt:200-205 | The stream flag follows the switch, and is sent exactly when it changed |
| Fragment.CameraFragment.OnCameraSelected | app/src/main/java/com/samsung/android/scan3d/fragments/CameraFragment.kt:219-230 | A camera with another id is selected, the resolution and frame-rate choices are reset, and the state is sent once. Otherwise nothing changes |
| Fragment.CameraFragment.OnQualitySelected | app/src/main/java/com/samsung/android/scan3d/fragments/CameraFragment.kt:245-252 | The quality becomes the picked entry, and is sent exactly when it changed |
| Fragment.CameraFragment.OnResolutionSelected | app/src/main/java/com/samsung/android/scan3d/fragments/CameraFragment.kt:272-278 | A position other than the engine's selection becomes the requested index and is sent. The same position changes nothing |
| Fragment.CameraFragment.OnFpsSelected | app/src/main/java/com/samsung/android/scan3d/fragments/CameraFragment.kt:298-304 | A position other than the engine's selection becomes the requested index and is sent. The same position changes nothing |
| IpUtil.FirstAddress | app/src/main/java/com/samsung/android/scan3d/util/IpUtil.kt:17-26 | The first qualifying address of an interface, and none exactly when none qualifies |
| IpUtil.Pass | app/src/main/java/com/samsung/android/scan3d/util/IpUtil.kt:14-44 | A pass returns the first match in interface-then-address order, and nothing exactly when no address matches |
| IpUtil.GetLocalIpAddressSpec | app/src/main/java/com/samsung/android/scan3d/util/IpUtil.kt:10-51 | Loopback when enumeration throws. Otherwise the first `wlan` 192.168 address if any, else the first site-local IPv4 address on an up interface, else loopback |
| IpUtil.NeverIpv6 | app/src/main/java/com/samsung/android/scan3d/util/IpUtil.kt:20 | The address returned never contains `:` |
| IpUtil.WlanWins | app/src/main/java/com/samsung/android/scan3d/util/IpUtil.kt:14-28 | A qualifying `wlan` 192.168 address wins over every other address, whatever the interface order |

`Engine.CamEngine.OnCaptureCompleted` states the whole callback:

- A JPEG image is passed through.
- A YUV image is the encoder's output for its NV21 repack, or empty when unreadable.
- Other formats, and a missing image, give nothing.
- Non-empty bytes are offered to the channel exactly when streaming is on and the HTTP service is wired. The channel grows by them exactly when accepted.
- A preview bitmap exists exactly when the preview shows and the decoder accepts the bytes. Its rotation is the sensor-to-display rotation.
- It is drawn exactly on a valid surface.

## Left out

- Camera2 and the framework are inputs, not behaviour. This covers the open and session callbacks, `acquireLatestImage`, `ImageReader`, `CameraManager` and `Selector.enumerateCameras`. Their outcomes are method parameters. The engine's `init` enumeration is a constructor argument, and every later `updateView` takes the outcome of its own enumeration as a separate argument, so a later call can find cameras that `init` did not.
- JPEG compression (`YuvImage.compressToJpeg`) and bitmap decoding (`BitmapFactory.decodeByteArray`) are opaque functions passed in. SHA-256 is a digest function passed in.
- Drawing on the preview surface is reduced to whether a bitmap is drawn. The aspect-fit rectangle, canvas locking and bitmap recycling are left out, and so is `setAspectRatio`.
- Coroutines and threads:
  - `restart()` counts the initializations it would launch rather than running them;
  - the re-initialization after a new preview surface is a queue of engines (`pendingInitializations`);
  - the handler and coroutine dispatchers are not modelled.
- Broadcast delivery, notifications, `PendingIntent`s and `DataQuick` (the rate feedback) are left out. Broadcasts are kept as the sequence of `Data` records sent.
- Logging, the security headers, the HTML text of the pages, Netty and the socket are left out. Writes to a client are a per-frame outcome, all bytes or a failure after k bytes.
- Engine.CamEngine.OnCaptureCompleted: `streamFrameCounter` is a `Long` and is modelled unbounded, because wrap-around after 2^63 callbacks is unreachable.
- FrameRepack.RepackNv21: `ByteArray(width * height * 3 / 2)` is computed in 32-bit `Int`. The model's `Nv21Size` is unbounded, so the overflow for `width * height * 3 >= 2^31` is not modelled. Camera output sizes are far below that.
- Engine.CamEngine.InitializeCamera: an exception from opening the camera or configuring the session is an outcome. The coroutine cancellation it causes is not modelled.
- Http.HttpService.Start: a failing `main()` is modelled as a server that never starts. A partially built server is not modelled.
- Service.Cam.InitializeService: `HttpService()` at `serv/Cam.kt:152` is called without the `Context` its constructor takes. The model passes the preferences it would read.
- `changePassword` is modelled on `HttpService`. No intent of `onStartCommand` reaches it, so the service has no path to it.
- IpUtil.GetLocalIpAddressSpec: an exception part-way through the enumeration is folded into "enumeration threw". Addresses found before it are not modelled.
- The fragment's lifecycle is not modelled:
  - view creation, resume and pause;
  - surface callbacks;
  - the kill and password buttons;
  - the password display, which reads a preference key `HttpService` does not define.
- `CameraActivity.kt` and `PermissionsFragment.kt` (permissions and navigation) are not part of this model.

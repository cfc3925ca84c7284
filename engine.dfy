/** `CamEngine`: owns the selected camera, negotiates its capabilities,
    (re)starts capture with the requested resolution and frame rate, paces
    the capture callbacks and hands encoded frames to the stream channel
    and the preview.

    The camera framework is outside the model: the cameras the system
    enumerates, the characteristics it reports per camera id, whether the
    open and the session configuration succeed, JPEG compression and bitmap
    decoding are inputs. What the engine asks of the hardware is kept as a
    trace of `HardwareCall`s. */
module Engine {
  import opened Common
  import opened Parcels
  import opened FrameRepack
  import opened FramePacing
  import opened Capabilities
  import opened Http

  /** `CaptureRequest` fields the engine sets. */
  datatype CaptureRequest = CaptureRequest(
    jpegQuality: int,
    jpegOrientation: Option<int>,
    targetFps: FpsRange,
    afMode: Option<int>)

  /** Calls the engine makes on the camera objects, in order. */
  datatype HardwareCall =
    | StopRepeating
    | CloseSession
    | CloseCamera
    | CloseReader
    | NewImageReader(width: int, height: int, format: int, maxImages: nat)
    | OpenCamera(cameraId: string)
    | CreateSession
    | SetRepeatingRequest(request: CaptureRequest)

  /** How a run of `initializeCamera` ended. */
  datatype InitOutcome =
    | Started
    | NoCharacteristics
    | OpenFailed
    | SessionFailed

  /** The latest image the reader holds when a capture completes. */
  datatype CapturedImage =
    | JpegImage(bytes: seq<byte>)
    | YuvImage(data: YuvImageData)
    | OtherImage(format: int)

  /** What one capture callback did: whether it decoded the image, the
      encoded bytes, whether they were offered to the channel and accepted,
      the rotation of the preview bitmap it produced (if any), and whether
      that bitmap was drawn. */
  datatype CaptureResult = CaptureResult(
    decoded: bool,
    bytes: seq<byte>,
    offered: bool,
    sent: bool,
    previewRotation: Option<int>,
    drawn: bool)

  /** `toByte()` of Kotlin: the low eight bits as a signed value. */
  function ToSignedByte(x: int): int
  {
    var m := x % 256;
    if m >= 128 then m - 256 else m
  }

  /** The result is a signed byte congruent to `x` modulo 256, and `x`
      itself when it already is one. */
  lemma ToSignedByteSpec(x: int)
    ensures var b := ToSignedByte(x);
      -128 <= b < 128 && (b - x) % 256 == 0 && (-128 <= x < 128 ==> b == x)
  {
  }

  /** `cameraList.find { it.cameraId == id }`: the first camera with that id. */
  function FindSensor(sensors: seq<SensorDesc>, id: string): (r: Option<SensorDesc>)
    ensures r.Some? ==> r.value in sensors && r.value.cameraId == id
    ensures r.None? <==> forall s :: s in sensors ==> s.cameraId != id
    ensures r.Some? && sensors[0].cameraId == id ==> r.value == sensors[0]
  {
    if sensors == [] then None
    else if sensors[0].cameraId == id then Some(sensors[0])
    else FindSensor(sensors[1..], id)
  }

  predicate HasCameraId(sensors: seq<SensorDesc>, id: string)
  {
    exists s :: s in sensors && s.cameraId == id
  }

  const ErrorSensor: SensorDesc := SensorDesc("Error", "No Cam", JPEG)

  /** The selection `initializeCamera` settles on: the stored (clamped)
      indices, the raw output size, the effective and the hardware frame
      rate, the skip ratio and the frame counter. */
  datatype Pacing = Pacing(
    resolutionIndex: Option<int>,
    fpsRangeIndex: Option<int>,
    width: int,
    height: int,
    effectiveFps: int,
    cameraFps: int,
    skipRatio: int,
    counter: nat)

  /** The selection step for the raw indices `res0` and `fps0`, the
      negotiated sizes and the fixed hardware rates: each index is clamped
      into its list, the output size is the selected size, the effective
      rate the selected UI rate, and the camera runs at the hardware rate
      chosen for it, skipping to keep roughly the effective rate. */
  function Select(res0: Option<int>, fps0: Option<int>, sizes: seq<Size>, hw: seq<FpsRange>): Pacing
    requires |sizes| > 0
  {
    var ri := ClampIndex(res0, |sizes|);
    var fi := ClampIndex(fps0, |UiFpsRanges()|);
    var e := UiFpsRanges()[fi].lower;
    var a := ChooseHardwareFps(hw, e);
    Pacing(Some(ri as int), Some(fi as int), sizes[ri].width, sizes[ri].height, e, a, FrameSkipRatio(a, e), 0)
  }

  /** What the selection guarantees: both indices in range, kept when they
      already were; the size and rate are the selected entries; the camera
      rate is one the hardware offers and reaches the effective rate when
      any hardware rate does; and the skip ratio keeps between `e` and `2e`
      of the camera's frames per second's worth. */
  lemma SelectSpec(res0: Option<int>, fps0: Option<int>, sizes: seq<Size>, hw: seq<FpsRange>)
    requires |sizes| > 0
    ensures var p := Select(res0, fps0, sizes, hw);
      var ri := p.resolutionIndex.value;
      var fi := p.fpsRangeIndex.value;
      p.resolutionIndex.Some? && 0 <= ri < |sizes| &&
      p.fpsRangeIndex.Some? && 0 <= fi < |DesiredEffectiveFps| &&
      (res0.Some? && 0 <= res0.value < |sizes| ==> ri == res0.value) &&
      (fps0.Some? && 0 <= fps0.value < |DesiredEffectiveFps| ==> fi == fps0.value) &&
      Size(p.width, p.height) == sizes[ri] &&
      p.effectiveFps == DesiredEffectiveFps[fi] &&
      (hw != [] ==> exists x :: x in hw && x.lower == p.cameraFps) &&
      ((exists x :: x in hw && x.lower >= p.effectiveFps) ==> p.cameraFps >= p.effectiveFps) &&
      p.skipRatio >= 1 &&
      (p.cameraFps >= p.effectiveFps ==>
        p.skipRatio * p.effectiveFps <= p.cameraFps < (p.skipRatio + 1) * p.effectiveFps) &&
      p.counter == 0
  {
    var fi := ClampIndex(fps0, |UiFpsRanges()|);
    var e := UiFpsRanges()[fi].lower;
    ChooseHardwareFpsSpec(hw, e);
    FrameSkipRatioSpec(ChooseHardwareFps(hw, e), e);
  }

  /** Selecting again from the indices a selection stored gives the same
      selection. */
  lemma SelectIdempotent(res0: Option<int>, fps0: Option<int>, sizes: seq<Size>, hw: seq<FpsRange>)
    requires |sizes| > 0
    ensures var p := Select(res0, fps0, sizes, hw);
      Select(p.resolutionIndex, p.fpsRangeIndex, sizes, hw) == p
  {
    ClampIndexIdempotent(res0, |sizes|);
    ClampIndexIdempotent(fps0, |UiFpsRanges()|);
  }

  class CamEngine {
    var http: HttpService?
    var resW: int
    var resH: int
    var insidePause: bool
    var isShowingPreview: bool
    var cameraList: seq<SensorDesc>
    var viewState: ViewState
    var chosenOutputFormat: int
    var fpsRanges: seq<FpsRange>
    var actualHardwareFpsRanges: seq<FpsRange>
    var effectiveFps: int
    var actualCameraFps: int
    var frameSkipRatio: int
    var streamFrameCounter: nat
    var characteristics: Option<Characteristics>
    var sizes: seq<Size>
    var previewSurface: Option<Surface>

    /** `session != null` */
    var hasSession: bool
    /** `this::camera.isInitialized` */
    var cameraOpened: bool
    /** `this::imageReader.isInitialized` */
    var readerCreated: bool
    /** `engineScope` not cancelled */
    var scopeActive: bool

    var hardwareCalls: seq<HardwareCall>
    /** The `Data` broadcasts sent to the fragment, oldest first. */
    var broadcasts: seq<EngineData>
    /** How often `restart()` was called, and how many initializations it launched. */
    var restartRequests: nat
    var launchedInitializations: nat
    /** Callbacks since the last restart that decoded their image. */
    ghost var decodedFrames: nat

    /** `Selector.enumerateCameras` as `init` calls it; `None` when it throws. */
    const enumeration: Option<seq<SensorDesc>>
    /** `getCameraCharacteristics`, which throws for an id not in the map. */
    const manager: map<string, Characteristics>

    ghost predicate Valid()
      reads this`frameSkipRatio, this`decodedFrames, this`streamFrameCounter
    {
      frameSkipRatio >= 1 &&
      decodedFrames == FramesKept(streamFrameCounter, frameSkipRatio)
    }

    /** The `init` block: every field starts at its declared value, then
        the cameras are enumerated and negotiated. */
    constructor (enumeration: Option<seq<SensorDesc>>, manager: map<string, Characteristics>)
      ensures Valid()
      ensures this.enumeration == enumeration && this.manager == manager
      ensures http == null && !insidePause && !isShowingPreview && previewSurface.None?
      ensures cameraList == (if enumeration.Some? then enumeration.value else [])
      ensures cameraList != [] && HasCameraId(cameraList, "0") ==> viewState.cameraId == "0"
      ensures cameraList != [] && !HasCameraId(cameraList, "0") ==> viewState.cameraId == cameraList[0].cameraId
      ensures cameraList != [] ==> |sizes| > 0 && |actualHardwareFpsRanges| > 0 && fpsRanges == UiFpsRanges()
      ensures hardwareCalls == [] && broadcasts == [] && scopeActive
      ensures restartRequests == 0 && launchedInitializations == 0
    {
      this.enumeration := enumeration;
      this.manager := manager;
      http := null;
      resW, resH := 1280, 720;
      insidePause, isShowingPreview := false, false;
      cameraList := [];
      viewState := InitialViewState;
      chosenOutputFormat := YUV_420_888;
      fpsRanges := [];
      actualHardwareFpsRanges := [];
      effectiveFps, actualCameraFps, frameSkipRatio := 30, 30, 1;
      streamFrameCounter := 0;
      characteristics := None;
      sizes := [];
      previewSurface := None;
      hasSession, cameraOpened, readerCreated, scopeActive := false, false, false, true;
      hardwareCalls, broadcasts := [], [];
      restartRequests, launchedInitializations := 0, 0;
      decodedFrames := 0;
      new;
      assert !IsBlank("0") by { assert !IsWhitespace("0"[0]); }
      EnumerateAndNegotiate();
    }

    /** The body of the `init` block: enumerate the cameras (an exception
        leaves the list empty) and, when there is one, fall back to the
        first camera if the selected id is blank or unknown, then
        negotiate. */
    method EnumerateAndNegotiate()
      modifies this`cameraList, this`fpsRanges, this`viewState, this`characteristics, this`sizes,
        this`chosenOutputFormat, this`actualHardwareFpsRanges
      ensures cameraList == if enumeration.Some? then enumeration.value else old(cameraList)
      ensures enumeration.None? ==> viewState == old(viewState)
      ensures enumeration.Some? && cameraList != [] ==>
        if !IsBlank(old(viewState.cameraId)) && HasCameraId(cameraList, old(viewState.cameraId))
        then viewState.cameraId == old(viewState.cameraId)
        else viewState.cameraId == cameraList[0].cameraId
      ensures enumeration.Some? && cameraList != [] ==>
        |sizes| > 0 && |actualHardwareFpsRanges| > 0 && fpsRanges == UiFpsRanges()
      ensures viewState.(cameraId := old(viewState.cameraId)) == old(viewState)
    {
      if enumeration.Some? {
        cameraList := enumeration.value;
        if cameraList != [] {
          if IsBlank(viewState.cameraId) || FindSensor(cameraList, viewState.cameraId).None? {
            viewState := viewState.(cameraId := cameraList[0].cameraId);
          }
          InitializeCharacteristics();
        }
      }
    }

    /** The camera id negotiation uses: a blank id falls back to the first
        camera when there is one. */
    function ResolvedCameraId(id: string): (r: string)
      reads this`cameraList
      ensures !IsBlank(id) ==> r == id
      ensures IsBlank(id) && cameraList != [] ==> r == cameraList[0].cameraId
    {
      if IsBlank(id) && cameraList != [] then cameraList[0].cameraId else id
    }

    /** Whether negotiation starting from `id` finds characteristics: there
        is a camera id to ask for, and the manager knows it. */
    predicate CharacteristicsAvailable(id: string)
      reads this`cameraList
    {
      !(IsBlank(id) && cameraList == []) && ResolvedCameraId(id) in manager
    }

    /** `initializeCharacteristics`: the UI frame rates are reset; a blank
        camera id falls back to the first camera, or with no camera to fixed
        defaults; otherwise the output format, sizes and hardware frame rates
        are negotiated from the camera's characteristics, with defaults when
        the camera id is unknown. Both lists end up non-empty on every path. */
    method InitializeCharacteristics()
      modifies this`fpsRanges, this`viewState, this`characteristics, this`sizes,
        this`chosenOutputFormat, this`actualHardwareFpsRanges
      ensures fpsRanges == UiFpsRanges()
      ensures |sizes| > 0 && |actualHardwareFpsRanges| > 0
      ensures viewState == old(viewState).(cameraId := ResolvedCameraId(old(viewState.cameraId)))
      ensures characteristics.Some? <==> CharacteristicsAvailable(old(viewState.cameraId))
      ensures characteristics.Some? ==>
        characteristics.value == manager[viewState.cameraId] &&
        Output(sizes, chosenOutputFormat) == NegotiateOutput(characteristics.value.configMap) &&
        actualHardwareFpsRanges == HardwareRanges(characteristics.value)
      ensures characteristics.None? ==>
        chosenOutputFormat == YUV_420_888 && actualHardwareFpsRanges == DefaultHardwareFps &&
        sizes == if IsBlank(old(viewState.cameraId)) && cameraList == [] then [Size(640, 480)] else DefaultSizes
    {
      fpsRanges := UiFpsRanges();
      if IsBlank(viewState.cameraId) {
        if cameraList != [] {
          viewState := viewState.(cameraId := cameraList[0].cameraId);
        } else {
          characteristics := None;
          sizes := [Size(640, 480)];
          chosenOutputFormat := YUV_420_888;
          actualHardwareFpsRanges := DefaultHardwareFps;
          return;
        }
      }
      if viewState.cameraId !in manager {
        characteristics := None;
        sizes := DefaultSizes;
        chosenOutputFormat := YUV_420_888;
        actualHardwareFpsRanges := DefaultHardwareFps;
        return;
      }
      var c := manager[viewState.cameraId];
      characteristics := Some(c);
      var out := NegotiateOutput(c.configMap);
      sizes := out.sizes;
      chosenOutputFormat := out.format;
      var fixed := CollectFixedRanges(c.aeTargetFpsRanges);
      actualHardwareFpsRanges := NormalizeHardwareRanges(fixed);
      if fixed == [] {
        assert actualHardwareFpsRanges == DefaultHardwareFps;
      } else {
        HardwareRangesSpec(c.aeTargetFpsRanges.value);
      }
    }

    /** `stopRunning`: stop the repeating request and close the session (if
        there is one), drop the session, then close the camera and the image
        reader if they were ever created. Failures of the close calls are
        swallowed, so the sequence always runs to the end. */
    method StopRunning()
      modifies this`hasSession, this`hardwareCalls
      ensures !hasSession
      ensures hardwareCalls == old(hardwareCalls)
        + (if old(hasSession) then [StopRepeating, CloseSession] else [])
        + (if cameraOpened then [CloseCamera] else [])
        + (if readerCreated then [CloseReader] else [])
    {
      if hasSession {
        hardwareCalls := hardwareCalls + [StopRepeating, CloseSession];
      }
      hasSession := false;
      if cameraOpened {
        hardwareCalls := hardwareCalls + [CloseCamera];
      }
      if readerCreated {
        hardwareCalls := hardwareCalls + [CloseReader];
      }
    }

    /** `restart()`: launches `initializeCamera` on the engine's scope; after
        `destroy` the scope is cancelled and nothing is launched. */
    method Restart()
      modifies this`restartRequests, this`launchedInitializations
      ensures restartRequests == old(restartRequests) + 1
      ensures launchedInitializations == old(launchedInitializations) + if scopeActive then 1 else 0
    {
      restartRequests := restartRequests + 1;
      if scopeActive {
        launchedInitializations := launchedInitializations + 1;
      }
    }

    /** `destroy()`: tear the camera down and cancel the scope. */
    method Destroy()
      modifies this`hasSession, this`hardwareCalls, this`scopeActive
      ensures !hasSession && !scopeActive
      ensures hardwareCalls == old(hardwareCalls)
        + (if old(hasSession) then [StopRepeating, CloseSession] else [])
        + (if cameraOpened then [CloseCamera] else [])
        + (if readerCreated then [CloseReader] else [])
    {
      StopRunning();
      scopeActive := false;
    }

    /** The request `initializeCamera` repeats: the JPEG quality as a byte,
        the sensor orientation for JPEG output, the chosen fixed hardware
        rate, and continuous-picture focus when the camera offers it. */
    function RepeatingRequest(): CaptureRequest
      reads this`viewState, this`chosenOutputFormat, this`actualCameraFps, this`characteristics
    {
      CaptureRequest(
        ToSignedByte(viewState.quality),
        if chosenOutputFormat == JPEG then Some(SensorOrientation(characteristics)) else None,
        FpsRange(actualCameraFps, actualCameraFps),
        if SupportsContinuousPicture(characteristics) then Some(AfModeContinuousPicture) else None)
    }

    /** The request carries the JPEG orientation exactly for JPEG output,
        targets the fixed hardware rate, asks for continuous-picture focus
        exactly when the camera offers it, and passes a quality that fits
        a signed byte unchanged. */
    lemma RepeatingRequestSpec()
      ensures var req := RepeatingRequest();
        (req.jpegOrientation.Some? <==> chosenOutputFormat == JPEG) &&
        (chosenOutputFormat == JPEG ==> req.jpegOrientation == Some(SensorOrientation(characteristics))) &&
        req.targetFps.lower == req.targetFps.upper == actualCameraFps &&
        (req.afMode.Some? <==> SupportsContinuousPicture(characteristics)) &&
        (req.afMode.Some? ==> req.afMode.value == AfModeContinuousPicture) &&
        (0 <= viewState.quality < 128 ==> req.jpegQuality == viewState.quality)
    {
      ToSignedByteSpec(viewState.quality);
    }

    /** The selection step of `initializeCamera`: clamp the resolution and
        frame-rate indices into range and record the raw output size, then
        set up the pacing for the chosen frame rate. */
    method ApplySelection()
      requires Valid() && |sizes| > 0 && fpsRanges == UiFpsRanges()
      modifies this`viewState, this`effectiveFps, this`actualCameraFps, this`frameSkipRatio,
        this`streamFrameCounter, this`decodedFrames, this`resW, this`resH
      ensures Valid()
      ensures SelectionApplied(old(viewState.resolutionIndex), old(viewState.fpsRangeIndex))
      ensures viewState == old(viewState).(resolutionIndex := viewState.resolutionIndex,
        fpsRangeIndex := viewState.fpsRangeIndex)
    {
      var ri := ClampIndex(viewState.resolutionIndex, |sizes|);
      var fi := ClampIndex(viewState.fpsRangeIndex, |fpsRanges|);
      viewState := viewState.(resolutionIndex := Some(ri as int), fpsRangeIndex := Some(fi as int));
      resW, resH := sizes[ri].width, sizes[ri].height;
      SetPacing(fpsRanges[fi].lower);
    }

    /** Pacing for the effective rate `e`: the hardware rate, the skip
        ratio, and a fresh frame counter. */
    method SetPacing(e: int)
      requires Valid()
      modifies this`effectiveFps, this`actualCameraFps, this`frameSkipRatio,
        this`streamFrameCounter, this`decodedFrames
      ensures Valid()
      ensures effectiveFps == e
      ensures actualCameraFps == ChooseHardwareFps(actualHardwareFpsRanges, e)
      ensures frameSkipRatio == FrameSkipRatio(actualCameraFps, e)
      ensures streamFrameCounter == 0
    {
      var actual := ChooseHardwareFps(actualHardwareFpsRanges, e);
      var ratio := FrameSkipRatio(actual, e);
      assert ratio >= 1 && FramesKept(0, ratio) == 0;
      effectiveFps, actualCameraFps, frameSkipRatio := e, actual, ratio;
      streamFrameCounter, decodedFrames := 0, 0;
    }

    /** The hardware step of `initializeCamera`: create the image reader,
        open the camera (which fails for a blank id or when the open fails),
        decide whether the preview is showing, create the session and set
        the repeating request. */
    method StartCapture(openOk: bool, sessionOk: bool) returns (outcome: InitOutcome)
      modifies this`hardwareCalls, this`readerCreated, this`cameraOpened, this`isShowingPreview, this`hasSession
      ensures var didOpen := !IsBlank(viewState.cameraId) && openOk;
        outcome == (if !didOpen then OpenFailed else if !sessionOk then SessionFailed else Started) &&
        hardwareCalls == old(hardwareCalls) + [NewImageReader(resW, resH, chosenOutputFormat, 4)]
          + (if didOpen then [OpenCamera(viewState.cameraId)] else [])
          + (if outcome == Started then [CreateSession, SetRepeatingRequest(RepeatingRequest())] else []) &&
        readerCreated && cameraOpened == (old(cameraOpened) || didOpen) &&
        hasSession == (old(hasSession) || outcome == Started) &&
        isShowingPreview == if didOpen then viewState.preview && !insidePause && previewSurface.Some?
          else old(isShowingPreview)
    {
      hardwareCalls := hardwareCalls + [NewImageReader(resW, resH, chosenOutputFormat, 4)];
      readerCreated := true;
      if IsBlank(viewState.cameraId) || !openOk {
        return OpenFailed;
      }
      hardwareCalls := hardwareCalls + [OpenCamera(viewState.cameraId)];
      cameraOpened := true;
      isShowingPreview := viewState.preview && !insidePause && previewSurface.Some?;
      if !sessionOk {
        return SessionFailed;
      }
      hardwareCalls := hardwareCalls + [CreateSession];
      hasSession := true;
      hardwareCalls := hardwareCalls + [SetRepeatingRequest(RepeatingRequest())];
      outcome := Started;
    }

    /** The selection the engine currently holds. */
    function CurrentPacing(): (p: Pacing)
      reads this`viewState, this`resW, this`resH, this`effectiveFps, this`actualCameraFps,
        this`frameSkipRatio, this`streamFrameCounter
      ensures p.resolutionIndex == viewState.resolutionIndex && p.fpsRangeIndex == viewState.fpsRangeIndex
      ensures p.width == resW && p.height == resH && p.counter == streamFrameCounter
      ensures p.effectiveFps == effectiveFps && p.cameraFps == actualCameraFps && p.skipRatio == frameSkipRatio
    {
      Pacing(viewState.resolutionIndex, viewState.fpsRangeIndex, resW, resH,
        effectiveFps, actualCameraFps, frameSkipRatio, streamFrameCounter)
    }

    /** The selection step ran from the raw indices `res0` and `fps0` on
        the current negotiation. */
    predicate SelectionApplied(res0: Option<int>, fps0: Option<int>)
      reads this`sizes, this`fpsRanges, this`viewState, this`resW, this`resH, this`effectiveFps,
        this`actualCameraFps, this`actualHardwareFpsRanges, this`frameSkipRatio, this`streamFrameCounter
    {
      |sizes| > 0 && fpsRanges == UiFpsRanges() &&
      CurrentPacing() == Select(res0, fps0, sizes, actualHardwareFpsRanges)
    }

    /** Capture is running: the session exists, the last call made on the
        hardware set the repeating request, and the preview shows exactly
        when it is wanted, not paused, and has a surface. */
    predicate Capturing()
      reads this`hasSession, this`hardwareCalls, this`isShowingPreview, this`insidePause, this`previewSurface,
        this`viewState, this`chosenOutputFormat, this`actualCameraFps, this`characteristics
    {
      hasSession && |hardwareCalls| > 0 &&
      hardwareCalls[|hardwareCalls| - 1] == SetRepeatingRequest(RepeatingRequest()) &&
      isShowingPreview == (viewState.preview && !insidePause && previewSurface.Some?)
    }

    /** The part of `initializeCamera` after a successful negotiation:
        select, open and start capturing. */
    method SelectAndStart(openOk: bool, sessionOk: bool) returns (outcome: InitOutcome)
      requires Valid() && characteristics.Some? && |sizes| > 0 && fpsRanges == UiFpsRanges()
      modifies this`viewState, this`effectiveFps, this`actualCameraFps, this`frameSkipRatio,
        this`streamFrameCounter, this`decodedFrames, this`resW, this`resH,
        this`hardwareCalls, this`readerCreated, this`cameraOpened, this`isShowingPreview, this`hasSession
      ensures Valid()
      ensures SelectionApplied(old(viewState.resolutionIndex), old(viewState.fpsRangeIndex))
      ensures outcome != NoCharacteristics
      ensures outcome == Started <==> !IsBlank(viewState.cameraId) && openOk && sessionOk
      ensures outcome == Started ==> Capturing()
      ensures hasSession == (old(hasSession) || outcome == Started)
    {
      ghost var res0, fps0 := viewState.resolutionIndex, viewState.fpsRangeIndex;
      ApplySelection();
      outcome := StartCapture(openOk, sessionOk);
      assert SelectionApplied(res0, fps0);
      if outcome == Started {
        assert Capturing();
      }
    }

    /** The first part of `initializeCamera`: tear the camera down and
        renegotiate; `ok` says whether negotiation found characteristics
        and non-empty lists, which is what the run needs to go on. */
    method Renegotiate() returns (ok: bool)
      requires Valid()
      modifies this`hasSession, this`hardwareCalls, this`fpsRanges, this`viewState, this`characteristics,
        this`sizes, this`chosenOutputFormat, this`actualHardwareFpsRanges
      ensures Valid() && !hasSession
      ensures ok <==> old(CharacteristicsAvailable(viewState.cameraId))
      ensures ok ==> Negotiated() && fpsRanges == UiFpsRanges()
      ensures viewState.resolutionIndex == old(viewState.resolutionIndex)
      ensures viewState.fpsRangeIndex == old(viewState.fpsRangeIndex)
    {
      StopRunning();
      InitializeCharacteristics();
      ok := !(characteristics.None? || sizes == [] || fpsRanges == [] || actualHardwareFpsRanges == []);
    }

    /** `initializeCamera`: tear down, renegotiate, and, when the camera's
        characteristics are available, select, open and start capturing;
        the fragment is told the result when negotiation failed or capture
        started. `openOk` and `sessionOk` say whether the camera open and the
        session configuration succeed; a failure ends the run by an
        exception. `listing` is what the `updateView` call enumerates when
        the camera list is still empty. */
    method InitializeCamera(openOk: bool, sessionOk: bool, listing: Option<seq<SensorDesc>>)
      returns (outcome: InitOutcome)
      requires Valid()
      modifies this
      ensures Valid()
      ensures outcome == NoCharacteristics <==> !old(CharacteristicsAvailable(viewState.cameraId))
      ensures outcome == NoCharacteristics ==>
        streamFrameCounter == old(streamFrameCounter) && frameSkipRatio == old(frameSkipRatio) && !hasSession
      ensures outcome != NoCharacteristics ==>
        characteristics.Some? && SelectionApplied(old(viewState.resolutionIndex), old(viewState.fpsRangeIndex))
      ensures outcome != NoCharacteristics ==>
        (outcome == Started <==> !IsBlank(viewState.cameraId) && openOk && sessionOk)
      ensures outcome == Started ==> Capturing()
      ensures hasSession <==> outcome == Started
      ensures outcome == Started || outcome == NoCharacteristics ==>
        cameraList == (if old(cameraList) == [] && listing.Some? then listing.value else old(cameraList)) &&
        broadcasts == old(broadcasts) + if old(cameraList) == [] && listing.None? then [] else [ViewData()]
      ensures outcome == OpenFailed || outcome == SessionFailed ==>
        cameraList == old(cameraList) && broadcasts == old(broadcasts)
    {
      var ok := Renegotiate();
      if !ok {
        UpdateView(listing);
        return NoCharacteristics;
      }
      ghost var res0, fps0 := viewState.resolutionIndex, viewState.fpsRangeIndex;
      outcome := SelectAndStart(openOk, sessionOk);
      if outcome == Started {
        ReportStarted(listing, res0, fps0);
      }
    }

    /** The `updateView` that ends a started run: negotiation is complete,
        so it changes only the camera list and the broadcasts, and capture
        and selection stay as they were. */
    method ReportStarted(listing: Option<seq<SensorDesc>>, ghost res0: Option<int>, ghost fps0: Option<int>)
      requires Valid() && Negotiated() && Capturing() && SelectionApplied(res0, fps0)
      modifies this`cameraList, this`broadcasts, this`fpsRanges, this`viewState, this`characteristics,
        this`sizes, this`chosenOutputFormat, this`actualHardwareFpsRanges
      ensures Valid() && Negotiated() && Capturing() && SelectionApplied(res0, fps0)
      ensures viewState == old(viewState) && characteristics == old(characteristics)
      ensures cameraList == if old(cameraList) == [] && listing.Some? then listing.value else old(cameraList)
      ensures broadcasts == old(broadcasts) + if old(cameraList) == [] && listing.None? then [] else [ViewData()]
    {
      UpdateView(listing);
    }

    /** Since the last restart exactly every `frameSkipRatio`-th callback
        decoded its image: `n` callbacks decoded `n / frameSkipRatio`. */
    lemma DecodedFramesCount()
      requires Valid()
      ensures decodedFrames == streamFrameCounter / frameSkipRatio
    {
      FramesKeptCount(streamFrameCounter, frameSkipRatio);
    }

    /** The capture callback. The counter advances on every callback; the
        image is decoded only on callbacks whose number is a multiple of the
        skip ratio (the others just release it). Non-empty bytes go to the
        stream channel when streaming is on and the service is wired; a
        preview bitmap is decoded only while the preview is showing, turned
        by the sensor-to-display rotation, and drawn on a valid surface.
        `latest` is the image the reader holds (`None`: none available),
        `compress` stands for the JPEG encoder, and `decodes` says whether
        the bitmap decoder accepts the bytes. */
    method OnCaptureCompleted(latest: Option<CapturedImage>,
                              compress: (seq<byte>, nat, nat, int) -> seq<byte>,
                              decodes: seq<byte> -> bool)
      returns (r: CaptureResult)
      requires Valid() && (http != null ==> http.channel.Valid())
      modifies this`streamFrameCounter, this`decodedFrames, if http != null then {http.channel} else {}
      ensures Valid() && (http != null ==> http.channel.Valid())
      ensures streamFrameCounter == old(streamFrameCounter) + 1
      ensures r.decoded <==> KeepsFrame(streamFrameCounter, frameSkipRatio)
      ensures !r.decoded ==> r.bytes == [] && r.previewRotation.None?
      ensures r.decoded && latest.Some? && latest.value.JpegImage? ==> r.bytes == latest.value.bytes
      ensures r.decoded && latest.Some? && latest.value.YuvImage? ==>
        var f := latest.value.data;
        r.bytes == if f.format == YUV_420_888 && Readable(f)
          then compress(Nv21(f), f.width, f.height, viewState.quality) else []
      ensures latest.None? || latest.value.OtherImage? ==> r.bytes == []
      ensures r.offered <==> r.bytes != [] && viewState.stream && http != null
      ensures http != null ==> http.channel.buffer == if r.sent then old(http.channel.buffer) + [r.bytes] else old(http.channel.buffer)
      ensures r.sent ==> r.offered
      ensures r.previewRotation.Some? <==> isShowingPreview && r.bytes != [] && decodes(r.bytes)
      ensures r.previewRotation.Some? ==>
        r.previewRotation.value == PreviewRotation(SensorOrientation(characteristics), viewState.displayRotationDegrees)
      ensures r.drawn <==> r.previewRotation.Some? && previewSurface.Some? && previewSurface.value.isValid
    {
      streamFrameCounter := streamFrameCounter + 1;
      var bytes: seq<byte> := [];
      var rotation: Option<int> := None;
      var decoded := KeepsFrame(streamFrameCounter, frameSkipRatio);
      if decoded {
        decodedFrames := decodedFrames + 1;
        if latest.Some? {
          match latest.value {
            case JpegImage(b) =>
              bytes := b;
            case YuvImage(f) =>
              var jpeg := ConvertYuvToJpeg(f, viewState.quality, compress);
              bytes := if jpeg.Some? then jpeg.value else [];
            case OtherImage(_) =>
              bytes := [];
          }
          if isShowingPreview && bytes != [] && decodes(bytes) {
            rotation := Some(PreviewRotation(SensorOrientation(characteristics), viewState.displayRotationDegrees));
          }
        }
      }
      var offered := bytes != [] && viewState.stream && http != null;
      var sent := false;
      if offered {
        sent := http.channel.TrySend(bytes);
      }
      var drawn := rotation.Some? && isShowingPreview && previewSurface.Some? && previewSurface.value.isValid;
      r := CaptureResult(decoded, bytes, offered, sent, rotation, drawn);
    }

    /** Negotiation has produced characteristics, sizes and frame rates. */
    predicate Negotiated()
      reads this`characteristics, this`sizes, this`fpsRanges
    {
      characteristics.Some? && sizes != [] && fpsRanges != []
    }

    /** The record `updateView` broadcasts for the current state: the
        cameras, the selected one (the first camera when the selected id is
        unknown), its sensor orientation, the sizes and frame rates with the
        selected indices clamped into range; with no camera, or when
        negotiation yielded nothing, an error record instead. */
    function ViewData(): EngineData
      reads this`cameraList, this`characteristics, this`sizes, this`fpsRanges, this`viewState
    {
      if cameraList == [] then EngineData([], ErrorSensor, 0, [], 0, [], 0)
      else if characteristics.None? || sizes == [] || fpsRanges == [] then
        EngineData(cameraList, cameraList[0], SensorOrientation(characteristics), [], 0, UiFpsRanges(), 0)
      else
        var found := FindSensor(cameraList, viewState.cameraId);
        EngineData(cameraList, if found.Some? then found.value else cameraList[0],
          SensorOrientation(characteristics), sizes, ClampIndex(viewState.resolutionIndex, |sizes|),
          fpsRanges, ClampIndex(viewState.fpsRangeIndex, |fpsRanges|))
    }

    /** What the record says: the error record with no camera; the
        cameras and the fixed UI rates only, when negotiation is
        incomplete; otherwise the selected camera (the one with the
        selected id when there is one), its orientation, the negotiated
        lists and the selected indices clamped into them. */
    lemma ViewDataSpec()
      ensures var d := ViewData();
        (cameraList == [] ==> d == EngineData([], ErrorSensor, 0, [], 0, [], 0)) &&
        (cameraList != [] && (characteristics.None? || sizes == [] || fpsRanges == []) ==>
          d == EngineData(cameraList, cameraList[0], SensorOrientation(characteristics), [], 0, UiFpsRanges(), 0))
      ensures var d := ViewData();
        cameraList != [] && characteristics.Some? && sizes != [] && fpsRanges != [] ==>
        d.sensors == cameraList && d.sensorSelected in cameraList &&
        (HasCameraId(cameraList, viewState.cameraId) ==> d.sensorSelected.cameraId == viewState.cameraId) &&
        d.sensorOrientation == SensorOrientation(characteristics) &&
        d.resolutions == sizes && d.fpsRanges == fpsRanges &&
        0 <= d.resolutionSelected < |sizes| && 0 <= d.fpsRangeSelected < |fpsRanges| &&
        (viewState.resolutionIndex.Some? && 0 <= viewState.resolutionIndex.value < |sizes| ==>
          d.resolutionSelected == viewState.resolutionIndex.value) &&
        (viewState.fpsRangeIndex.Some? && 0 <= viewState.fpsRangeIndex.value < |fpsRanges| ==>
          d.fpsRangeSelected == viewState.fpsRangeIndex.value)
    {
    }

    /** `updateView`: the camera list is enumerated again if still empty,
        `listing` being what that call returns (`None` when it throws, and
        then nothing is sent); negotiation is rerun when it is incomplete;
        then the record for the resulting state is sent. */
    method UpdateView(listing: Option<seq<SensorDesc>>)
      modifies this`cameraList, this`broadcasts, this`fpsRanges, this`viewState, this`characteristics,
        this`sizes, this`chosenOutputFormat, this`actualHardwareFpsRanges
      ensures cameraList == if old(cameraList) == [] && listing.Some? then listing.value else old(cameraList)
      ensures broadcasts == old(broadcasts) +
        if old(cameraList) == [] && listing.None? then [] else [ViewData()]
      ensures old(Negotiated()) ==>
        characteristics == old(characteristics) && sizes == old(sizes) && fpsRanges == old(fpsRanges) &&
        viewState == old(viewState) && chosenOutputFormat == old(chosenOutputFormat) &&
        actualHardwareFpsRanges == old(actualHardwareFpsRanges)
      ensures viewState.(cameraId := old(viewState.cameraId)) == old(viewState)
    {
      if cameraList == [] {
        if listing.None? {
          return;
        }
        cameraList := listing.value;
      }
      if cameraList != [] && !Negotiated() {
        InitializeCharacteristics();
      }
      broadcasts := broadcasts + [ViewData()];
    }
  }
}

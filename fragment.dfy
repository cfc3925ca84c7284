/** `CameraFragment`: the screen that shows the preview, offers the camera,
    quality, resolution and frame-rate choices and the two switches, and
    sends every change of the requested state to the service.

    Widgets are outside the model. A spinner or switch listener is a method
    taking the position or value the user picked and the engine record it
    was set up from. What the fragment sends is kept as the sequence of
    intents it produced. */
module Fragment {
  import opened Common
  import opened Parcels
  import opened FramePacing
  import opened Engine
  import opened Service

  /** `Surface.ROTATION_0` to `ROTATION_270` are 0 to 3; the display
      rotation is `None` when the fragment has no activity. */
  function DisplayRotationDegrees(rotation: Option<int>): (deg: int)
    ensures deg == 0 || deg == 90 || deg == 180 || deg == 270
    ensures rotation.Some? && 0 <= rotation.value < 4 ==> deg == 90 * rotation.value
    ensures !(rotation.Some? && 0 <= rotation.value < 4) ==> deg == 0
  {
    match rotation
    case Some(0) => 0
    case Some(1) => 90
    case Some(2) => 180
    case Some(3) => 270
    case _ => 0
  }

  /** The size the preview shows for a raw camera size: the bitmap is turned
      by the rotation the engine applies, so a quarter turn swaps width and
      height. */
  function EffectiveSize(raw: Size, sensorOrientation: int, displayRotation: int): Size
  {
    var rot := PreviewRotation(sensorOrientation, displayRotation);
    if rot == 90 || rot == 270 then Size(raw.height, raw.width) else raw
  }

  predicate IsQuarterTurn(degrees: int)
  {
    degrees == 0 || degrees == 90 || degrees == 180 || degrees == 270
  }

  /** The preview keeps the raw size or its transpose; for the right-angle
      orientations the sensor and the display report, it is transposed
      exactly when one of them is sideways and the other is not. */
  lemma EffectiveSizeSpec(raw: Size, sensorOrientation: int, displayRotation: int)
    ensures var s := EffectiveSize(raw, sensorOrientation, displayRotation);
      s == raw || s == Size(raw.height, raw.width)
    ensures IsQuarterTurn(sensorOrientation) && IsQuarterTurn(displayRotation) ==>
      var sideways := (sensorOrientation % 180 == 90) != (displayRotation % 180 == 90);
      EffectiveSize(raw, sensorOrientation, displayRotation) ==
        if sideways then Size(raw.height, raw.width) else raw
  {
    if IsQuarterTurn(sensorOrientation) && IsQuarterTurn(displayRotation) {
      var rot := PreviewRotation(sensorOrientation, displayRotation);
      assert 0 <= rot < 360 && (rot - (sensorOrientation - displayRotation)) % 360 == 0;
      QuarterTurnDifference(sensorOrientation, displayRotation, rot);
    }
  }

  lemma QuarterTurnDifference(a: int, b: int, rot: int)
    requires IsQuarterTurn(a) && IsQuarterTurn(b) && 0 <= rot < 360
    requires (rot - (a - b)) % 360 == 0
    ensures (rot == 90 || rot == 270) <==> ((a % 180 == 90) != (b % 180 == 90))
  {
    var d := a - b;
    assert -270 <= d <= 270 && d % 90 == 0;
    assert rot == d || rot == d + 360;
  }

  /** The index of the first element equal to `x`; `indexOfFirst`. */
  function FirstIndex<T(==)>(s: seq<T>, x: T): (r: Option<nat>)
    ensures r.Some? ==> r.value < |s| && s[r.value] == x && x !in s[..r.value]
    ensures r.None? <==> x !in s
  {
    if s == [] then None
    else if s[0] == x then Some(0)
    else
      var t := FirstIndex(s[1..], x);
      if t.None? then None
      else
        assert s[..t.value + 1] == [s[0]] + s[1..][..t.value];
        Some(t.value + 1)
  }

  /** The quality spinner's entries. */
  const Quals: seq<int> := [1, 10, 20, 30, 40, 50, 60, 70, 80, 90, 100]

  /** The quality spinner shows the entry equal to the requested quality,
      and 80 when there is none. */
  function QualityIndex(quality: int): (r: nat)
    ensures r < |Quals|
    ensures quality in Quals ==> Quals[r] == quality
    ensures quality !in Quals ==> Quals[r] == 80
  {
    var i := FirstIndex(Quals, quality);
    if i.Some? then i.value
    else
      assert Quals[8] == 80;
      FirstIndex(Quals, 80).value
  }

  /** The resolution and frame-rate spinners show the engine's selection
      when it is in range, else the first entry. */
  function SpinnerSelection(selected: int, size: nat): (r: nat)
    ensures size > 0 ==> r < size
    ensures 0 <= selected < size ==> r == selected
    ensures !(0 <= selected < size) ==> r == 0
  {
    ClampIndex(Some(selected), size)
  }

  function CameraIds(sensors: seq<SensorDesc>): (ids: seq<string>)
    ensures |ids| == |sensors|
    ensures forall i :: 0 <= i < |sensors| ==> ids[i] == sensors[i].cameraId
  {
    seq(|sensors|, i requires 0 <= i < |sensors| => sensors[i].cameraId)
  }

  /** The camera spinner shows the first camera with the selected camera's
      id, else the first camera; with no camera it is left alone. */
  function CameraSelection(data: EngineData): Option<nat>
  {
    var i := FirstIndex(CameraIds(data.sensors), data.sensorSelected.cameraId);
    if i.Some? then i
    else if data.sensors != [] then Some(0)
    else None
  }

  /** The camera spinner points at the camera the engine reported as
      selected: the engine's own `find` by id yields the same camera. */
  lemma CameraSelectionSpec(data: EngineData)
    ensures var sel := CameraSelection(data);
      (sel.Some? <==> data.sensors != []) &&
      (sel.Some? ==> sel.value < |data.sensors|)
    ensures var id := data.sensorSelected.cameraId;
      HasCameraId(data.sensors, id) ==>
        CameraSelection(data).Some? &&
        data.sensors[CameraSelection(data).value].cameraId == id &&
        FindSensor(data.sensors, id) == Some(data.sensors[CameraSelection(data).value])
  {
    var id := data.sensorSelected.cameraId;
    var ids := CameraIds(data.sensors);
    var i := FirstIndex(ids, id);
    if HasCameraId(data.sensors, id) {
      var s :| s in data.sensors && s.cameraId == id;
      var k :| 0 <= k < |data.sensors| && data.sensors[k] == s;
      assert ids[k] == id;
      assert i.Some?;
      FindSensorFirst(data.sensors, id, i.value);
    }
  }

  /** The engine's `find` by id returns the camera at the first index with
      that id. */
  lemma {:induction false} FindSensorFirst(sensors: seq<SensorDesc>, id: string, k: nat)
    requires k < |sensors| && sensors[k].cameraId == id
    requires forall j :: 0 <= j < k ==> sensors[j].cameraId != id
    ensures FindSensor(sensors, id) == Some(sensors[k])
  {
    if k > 0 {
      FindSensorFirst(sensors[1..], id, k - 1);
    }
  }

  /** The intent `sendViewState` sends. */
  function ViewStateIntent(v: ViewState): Intent
  {
    Intent(Some("new_view_state"), Some(v), None)
  }

  /** The service reads what the fragment sends as a new view state and
      finds the state it carries. */
  lemma ViewStateIntentReachesService(v: ViewState)
    ensures ActionOf(Some(ViewStateIntent(v))) == ActionNewViewState
    ensures ViewStateIntent(v).data == Some(v)
  {
    ParseActionSpec(Some("new_view_state"));
  }

  class CameraFragment {
    /** The preview's effective width and height. */
    var resW: int
    var resH: int
    var viewState: ViewState
    /** The intents sent to the service, oldest first. */
    var sent: seq<Intent>

    constructor ()
      ensures resW == 1280 && resH == 720
      ensures viewState == InitialViewState && sent == []
    {
      resW, resH := 1280, 720;
      viewState := InitialViewState;
      sent := [];
    }

    /** `sendViewState`: the current state goes to the service. */
    method SendViewState()
      modifies this`sent
      ensures sent == old(sent) + [ViewStateIntent(viewState)]
    {
      sent := sent + [ViewStateIntent(viewState)];
    }

    /** `updateDisplayRotationStateIfNeeded`: the state follows the display
        rotation and is sent only when the rotation changed. */
    method UpdateDisplayRotationStateIfNeeded(rotation: Option<int>)
      modifies this`viewState, this`sent
      ensures viewState == old(viewState).(displayRotationDegrees := DisplayRotationDegrees(rotation))
      ensures sent == old(sent) +
        if old(viewState.displayRotationDegrees) != viewState.displayRotationDegrees
        then [ViewStateIntent(viewState)] else []
    {
      var degrees := DisplayRotationDegrees(rotation);
      if viewState.displayRotationDegrees != degrees {
        viewState := viewState.(displayRotationDegrees := degrees);
        SendViewState();
      }
    }

    /** `updateMainData`: with a selected resolution in range, the preview
        takes the effective size of that resolution; otherwise it keeps its
        size. */
    method UpdateMainData(data: EngineData)
      modifies this`resW, this`resH
      ensures 0 <= data.resolutionSelected < |data.resolutions| ==>
        Size(resW, resH) == EffectiveSize(data.resolutions[data.resolutionSelected],
          data.sensorOrientation, viewState.displayRotationDegrees)
      ensures !(0 <= data.resolutionSelected < |data.resolutions|) ==>
        resW == old(resW) && resH == old(resH)
    {
      if |data.resolutions| > 0 && data.resolutionSelected >= 0 && data.resolutionSelected < |data.resolutions| {
        var raw := data.resolutions[data.resolutionSelected];
        var rot := PreviewRotation(data.sensorOrientation, viewState.displayRotationDegrees);
        if rot == 90 || rot == 270 {
          resW, resH := raw.height, raw.width;
        } else {
          resW, resH := raw.width, raw.height;
        }
      }
    }

    /** The preview switch: a change is stored and sent. */
    method OnPreviewSwitch(isChecked: bool)
      modifies this`viewState, this`sent
      ensures viewState == old(viewState).(preview := isChecked)
      ensures sent == old(sent) + if old(viewState.preview) != isChecked then [ViewStateIntent(viewState)] else []
    {
      if viewState.preview != isChecked {
        viewState := viewState.(preview := isChecked);
        SendViewState();
      }
    }

    /** The stream switch: a change is stored and sent. */
    method OnStreamSwitch(isChecked: bool)
      modifies this`viewState, this`sent
      ensures viewState == old(viewState).(stream := isChecked)
      ensures sent == old(sent) + if old(viewState.stream) != isChecked then [ViewStateIntent(viewState)] else []
    {
      if viewState.stream != isChecked {
        viewState := viewState.(stream := isChecked);
        SendViewState();
      }
    }

    /** The camera spinner: picking a camera with another id selects it,
        forgets the resolution and frame-rate choice, and sends the state
        once; picking the current camera, or a position past the list,
        does nothing. */
    method OnCameraSelected(data: EngineData, position: nat)
      modifies this`viewState, this`sent
      ensures var changes := position < |data.sensors| && data.sensors[position].cameraId != old(viewState.cameraId);
        (changes ==>
          viewState == old(viewState).(cameraId := data.sensors[position].cameraId,
            resolutionIndex := None, fpsRangeIndex := None) &&
          sent == old(sent) + [ViewStateIntent(viewState)]) &&
        (!changes ==> viewState == old(viewState) && sent == old(sent))
    {
      if position < |data.sensors| {
        var newCameraId := data.sensors[position].cameraId;
        if viewState.cameraId != newCameraId {
          viewState := viewState.(cameraId := newCameraId, resolutionIndex := None, fpsRangeIndex := None);
          SendViewState();
        }
      }
    }

    /** The quality spinner: a different quality is stored and sent. */
    method OnQualitySelected(position: nat)
      requires position < |Quals|
      modifies this`viewState, this`sent
      ensures viewState == old(viewState).(quality := Quals[position])
      ensures sent == old(sent) + if old(viewState.quality) != Quals[position] then [ViewStateIntent(viewState)] else []
    {
      var newQuality := Quals[position];
      if viewState.quality != newQuality {
        viewState := viewState.(quality := newQuality);
        SendViewState();
      }
    }

    /** The resolution spinner: a position other than the engine's selection
        becomes the requested index and is sent. */
    method OnResolutionSelected(data: EngineData, position: nat)
      modifies this`viewState, this`sent
      ensures data.resolutionSelected != position ==>
        viewState == old(viewState).(resolutionIndex := Some(position as int)) &&
        sent == old(sent) + [ViewStateIntent(viewState)]
      ensures data.resolutionSelected == position ==> viewState == old(viewState) && sent == old(sent)
    {
      if data.resolutionSelected != position {
        viewState := viewState.(resolutionIndex := Some(position as int));
        SendViewState();
      }
    }

    /** The frame-rate spinner: a position other than the engine's selection
        becomes the requested index and is sent. */
    method OnFpsSelected(data: EngineData, position: nat)
      modifies this`viewState, this`sent
      ensures data.fpsRangeSelected != position ==>
        viewState == old(viewState).(fpsRangeIndex := Some(position as int)) &&
        sent == old(sent) + [ViewStateIntent(viewState)]
      ensures data.fpsRangeSelected == position ==> viewState == old(viewState) && sent == old(sent)
    {
      if data.fpsRangeSelected != position {
        viewState := viewState.(fpsRangeIndex := Some(position as int));
        SendViewState();
      }
    }
  }
}

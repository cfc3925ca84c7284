/** The values that travel between the camera engine, the service and the
    fragment as Android parcels.  Each crossing copies the value, so they are
    modelled as immutable datatypes; a Kotlin `viewState.x = v` on a field
    becomes the reassignment `viewState := viewState.(x := v)`. */
module Parcels {
  import opened Common

  /** `CameraFragment.ViewState`: what the user asked for. */
  datatype ViewState = ViewState(
    preview: bool,
    stream: bool,
    cameraId: string,
    resolutionIndex: Option<int>,
    quality: int,
    fpsRangeIndex: Option<int>,
    displayRotationDegrees: int)

  /** The state both the engine and the fragment start from. */
  const InitialViewState: ViewState :=
    ViewState(true, false, "0", None, 80, None, 0)

  /** `ParcelableFpsRange` (and `android.util.Range<Int>` read through it). */
  datatype FpsRange = FpsRange(lower: int, upper: int)

  /** `android.util.Size`. */
  datatype Size = Size(width: int, height: int)

  /** `Selector.SensorDesc`: one camera the system reports. */
  datatype SensorDesc = SensorDesc(title: string, cameraId: string, format: int)

  /** `CamEngine.Data`: what the engine broadcasts to the fragment. */
  datatype EngineData = EngineData(
    sensors: seq<SensorDesc>,
    sensorSelected: SensorDesc,
    sensorOrientation: int,
    resolutions: seq<Size>,
    resolutionSelected: int,
    fpsRanges: seq<FpsRange>,
    fpsRangeSelected: int)

  /** `android.view.Surface`, as far as the engine looks at it: an identity
      and whether it is still valid for drawing. */
  datatype Surface = Surface(id: nat, isValid: bool)
}

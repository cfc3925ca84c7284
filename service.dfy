/** `Cam`, the foreground service that owns the camera engine and the HTTP
    service and turns the fragment's commands into calls on them.

    Android's side of it is outside the model: the notification,
    `startForeground` (whose success is an input), intents (a record of the
    action and the extras read), and the coroutine that re-initializes the
    camera after a new preview surface, which is kept as a queue of the
    engines it was launched for. */
module Service {
  import opened Common
  import opened Parcels
  import opened Capabilities
  import opened HttpAuth
  import opened Http
  import opened Engine

  /** `START_STICKY`. */
  const StartSticky: int := 1

  /** An intent sent to the service: its action and the two extras the
      handlers read, `data` and `surface` (each `None` when missing). */
  datatype Intent = Intent(action: Option<string>, data: Option<ViewState>, surface: Option<Surface>)

  /** The actions `onStartCommand` handles, and `Ignored` for every other. */
  datatype Action =
    | ActionStart
    | ActionPause
    | ActionResume
    | ActionStartCameraEngine
    | ActionNewViewState
    | ActionNewPreviewSurface
    | ActionRequestSensorData
    | ActionIgnored

  /** The `when (intent.action)` of `onStartCommand`. */
  function ParseAction(action: Option<string>): Action
  {
    if action.None? then ActionIgnored
    else
      var a := action.value;
      if a == "start" then ActionStart
      else if a == "onPause" then ActionPause
      else if a == "onResume" then ActionResume
      else if a == "start_camera_engine" then ActionStartCameraEngine
      else if a == "new_view_state" then ActionNewViewState
      else if a == "new_preview_surface" then ActionNewPreviewSurface
      else if a == "request_sensor_data" then ActionRequestSensorData
      else ActionIgnored
  }

  /** The action an optional intent asks for; no intent asks for nothing. */
  function ActionOf(intent: Option<Intent>): Action
  {
    if intent.Some? then ParseAction(intent.value.action) else ActionIgnored
  }

  /** Each of the seven action strings selects its own handler, and a
      missing or any other action is ignored. */
  lemma ParseActionSpec(action: Option<string>)
    ensures ParseAction(action) == ActionStart <==> action == Some("start")
    ensures ParseAction(action) == ActionPause <==> action == Some("onPause")
    ensures ParseAction(action) == ActionResume <==> action == Some("onResume")
    ensures ParseAction(action) == ActionStartCameraEngine <==> action == Some("start_camera_engine")
    ensures ParseAction(action) == ActionNewViewState <==> action == Some("new_view_state")
    ensures ParseAction(action) == ActionNewPreviewSurface <==> action == Some("new_preview_surface")
    ensures ParseAction(action) == ActionRequestSensorData <==> action == Some("request_sensor_data")
    ensures ParseAction(action) == ActionIgnored <==>
      action !in {Some("start"), Some("onPause"), Some("onResume"), Some("start_camera_engine"),
        Some("new_view_state"), Some("new_preview_surface"), Some("request_sensor_data")}
  {
  }

  /** What the world answers the service with: whether `startForeground`
      succeeds; the stored preferences, the fresh salt, the digest and
      whether the server starts, for the HTTP service `start` creates;
      what enumerating the cameras returns in a new engine's `init` and in
      the `updateView` calls after it, and the characteristics it sees. */
  datatype Environment = Environment(
    foregroundOk: bool,
    storedPrefs: Prefs,
    salt: string,
    digest: Digest,
    serverStarts: bool,
    enumeration: Option<seq<SensorDesc>>,
    listing: Option<seq<SensorDesc>>,
    manager: map<string, Characteristics>)

  /** A freshly started engine: built for these cameras, streaming to
      `http`, not paused, with no surface and no restart yet, having sent
      the fragment its data once (unless `init` found no camera and the
      second enumeration threw). An empty first list is replaced by the
      second enumeration's. */
  ghost predicate FreshlyStarted(e: CamEngine, enumeration: Option<seq<SensorDesc>>, listing: Option<seq<SensorDesc>>,
                          manager: map<string, Characteristics>, http: HttpService?)
    reads e
  {
    var first := if enumeration.Some? then enumeration.value else [];
    e.Valid() && e.http == http && e.enumeration == enumeration && e.manager == manager &&
    e.cameraList == (if first == [] && listing.Some? then listing.value else first) &&
    e.broadcasts == (if first == [] && listing.None? then [] else [e.ViewData()]) &&
    e.restartRequests == 0 && !e.insidePause && e.previewSurface.None? && e.scopeActive
  }

  /** The creation part of `startCameraEngine`: `CamEngine(this)`, the
      connection to the HTTP service, and the first `updateView`. */
  method NewEngine(enumeration: Option<seq<SensorDesc>>, listing: Option<seq<SensorDesc>>,
                   manager: map<string, Characteristics>, http: HttpService?) returns (e: CamEngine)
    ensures fresh(e) && FreshlyStarted(e, enumeration, listing, manager, http)
  {
    e := new CamEngine(enumeration, manager);
    if http != null {
      e.http := http;
    }
    e.UpdateView(listing);
  }

  class Cam {
    var engine: CamEngine?
    var http: HttpService?
    var isForegroundServiceStarted: bool
    /** How many times the service entered the foreground. */
    var foregroundStarts: nat
    /** The notification is showing (cleared by `stopForeground`). */
    var inForeground: bool
    /** The engines a `new_preview_surface` launched `initializeCamera` for,
        oldest first. */
    var pendingInitializations: seq<CamEngine>

    /** The engine is consistent, the HTTP service is, the engine streams
        to this service's HTTP service or to none, and the foreground was
        entered once if the flag is set and never otherwise. */
    ghost predicate Valid()
      reads this, engine, http, if http != null then {http.channel} else {}
    {
      (engine != null ==> engine.Valid() && (engine.http == null || engine.http == http)) &&
      (http != null ==> http.Valid()) &&
      foregroundStarts == (if isForegroundServiceStarted then 1 else 0) &&
      (inForeground ==> isForegroundServiceStarted)
    }

    /** The service is created, and `onCreate` enters the foreground. */
    constructor (foregroundOk: bool)
      ensures Valid()
      ensures engine == null && http == null && pendingInitializations == []
      ensures isForegroundServiceStarted == foregroundOk && inForeground == foregroundOk
    {
      engine := null;
      http := null;
      isForegroundServiceStarted := false;
      foregroundStarts := 0;
      inForeground := false;
      pendingInitializations := [];
      new;
      StartForegroundService(foregroundOk);
    }

    /** `startForegroundService`: does nothing once the service is in the
        foreground; otherwise posts the notification and enters the
        foreground, setting the flag only when that succeeds. */
    method StartForegroundService(foregroundOk: bool)
      modifies this`isForegroundServiceStarted, this`foregroundStarts, this`inForeground
      ensures isForegroundServiceStarted == (old(isForegroundServiceStarted) || foregroundOk)
      ensures foregroundStarts == old(foregroundStarts) + if !old(isForegroundServiceStarted) && foregroundOk then 1 else 0
      ensures inForeground == (old(inForeground) || (!old(isForegroundServiceStarted) && foregroundOk))
    {
      if isForegroundServiceStarted {
        return;
      }
      if foregroundOk {
        foregroundStarts := foregroundStarts + 1;
        inForeground := true;
        isForegroundServiceStarted := true;
      }
    }

    /** However often it is asked, the service enters the foreground at most
        once, and exactly once after a successful attempt. */
    lemma ForegroundAtMostOnce()
      requires Valid()
      ensures foregroundStarts <= 1
      ensures isForegroundServiceStarted <==> foregroundStarts == 1
    {
    }

    /** `initializeService`: creates the HTTP service only when there is
        none, starts its server and, when that succeeds, connects it to an
        existing engine. A server that fails to start leaves the new
        service in place, unconnected. */
    method InitializeService(storedPrefs: Prefs, salt: string, digest: Digest, serverStarts: bool)
      requires Valid()
      modifies this`http, engine
      ensures Valid()
      ensures engine == old(engine)
      ensures old(http) != null ==> http == old(http) && (engine != null ==> unchanged(engine))
      ensures old(http) == null ==>
        fresh(http) && fresh(http.channel) &&
        http.prefs == Migrate(storedPrefs, salt, digest) && http.mjpegAccessToken.None? &&
        http.channel.buffer == [] && !http.channel.closed &&
        http.serverRunning == serverStarts
      ensures old(http) == null && engine != null ==>
        engine.http == (if serverStarts then http else null) &&
        unchanged(engine`viewState, engine`insidePause, engine`previewSurface, engine`restartRequests)
    {
      if http == null {
        var h := new HttpService(storedPrefs, salt, digest);
        http := h;
        if serverStarts {
          h.Start();
          if engine != null {
            engine.http := h;
          }
        }
      }
    }

    /** `startCameraEngine`: destroys the current engine, creates a new one
        for the cameras the system reports, connects the HTTP service to it
        when there is one, and sends the fragment the initial data. */
    method StartCameraEngine(enumeration: Option<seq<SensorDesc>>, listing: Option<seq<SensorDesc>>,
                             manager: map<string, Characteristics>)
      requires Valid()
      modifies this`engine, engine
      ensures Valid()
      ensures old(engine) != null ==> !old(engine).scopeActive && !old(engine).hasSession
      ensures engine != null && fresh(engine) && FreshlyStarted(engine, enumeration, listing, manager, http)
    {
      if engine != null {
        engine.Destroy();
      }
      engine := NewEngine(enumeration, listing, manager, http);
    }

    /** `handleNewViewState`: with an engine and a state in the intent, the
        engine takes the new state, and restarts exactly when it differs
        from the one it had; otherwise nothing happens. */
    method HandleNewViewState(data: Option<ViewState>)
      requires Valid()
      modifies engine
      ensures Valid()
      ensures engine != null && data.Some? ==>
        engine.viewState == data.value &&
        engine.restartRequests == old(engine.restartRequests) + (if old(engine.viewState) != data.value then 1 else 0) &&
        unchanged(engine`insidePause, engine`previewSurface, engine`isShowingPreview)
      ensures engine != null && data.None? ==> unchanged(engine)
    {
      if engine != null && data.Some? {
        var previous := engine.viewState;
        engine.viewState := data.value;
        if previous != data.value {
          engine.Restart();
        }
      }
    }

    /** `handleNewPreviewSurface`: the engine always takes the surface, even
        a missing one; when the preview is switched on, a re-initialization
        of that engine is launched. */
    method HandleNewPreviewSurface(surface: Option<Surface>)
      requires Valid()
      modifies this`pendingInitializations, engine
      ensures Valid()
      ensures engine != null ==>
        engine.previewSurface == surface &&
        unchanged(engine`viewState, engine`insidePause, engine`restartRequests, engine`isShowingPreview)
      ensures pendingInitializations == old(pendingInitializations) +
        if engine != null && engine.viewState.preview then [engine] else []
    {
      if engine != null {
        engine.previewSurface := surface;
        if engine.viewState.preview {
          pendingInitializations := pendingInitializations + [engine];
        }
      }
    }

    /** The `onPause` action: the engine is marked paused and restarts
        exactly when it is showing the preview, so that it stops. */
    method OnPause()
      requires Valid()
      modifies engine
      ensures Valid()
      ensures engine != null ==>
        engine.insidePause &&
        engine.restartRequests == old(engine.restartRequests) + (if engine.isShowingPreview then 1 else 0) &&
        unchanged(engine`viewState, engine`previewSurface, engine`isShowingPreview)
    {
      if engine != null {
        engine.insidePause := true;
        if engine.isShowingPreview {
          engine.Restart();
        }
      }
    }

    /** The `onResume` action: the engine is marked resumed; nothing is
        restarted. */
    method OnResume()
      requires Valid()
      modifies engine
      ensures Valid()
      ensures engine != null ==>
        !engine.insidePause &&
        unchanged(engine`viewState, engine`previewSurface, engine`isShowingPreview,
          engine`restartRequests, engine`launchedInitializations)
    {
      if engine != null {
        engine.insidePause := false;
      }
    }

    /** The `request_sensor_data` action: the engine sends its data;
        `listing` is what it enumerates when its camera list is empty. */
    method RequestSensorData(listing: Option<seq<SensorDesc>>)
      requires Valid()
      modifies engine
      ensures Valid()
      ensures engine != null ==>
        engine.broadcasts == old(engine.broadcasts) +
          (if old(engine.cameraList) == [] && listing.None? then [] else [engine.ViewData()]) &&
        engine.cameraList == (if old(engine.cameraList) == [] && listing.Some? then listing.value else old(engine.cameraList)) &&
        unchanged(engine`insidePause, engine`previewSurface, engine`restartRequests)
    {
      if engine != null {
        engine.UpdateView(listing);
      }
    }

    /** `onStartCommand`: enters the foreground if not done yet, runs the
        handler the intent's action names (nothing for a missing intent or
        an unknown action) and asks to be restarted if killed. */
    method OnStartCommand(intent: Option<Intent>, env: Environment) returns (r: int)
      requires Valid()
      modifies this, engine, http
      ensures Valid()
      ensures r == StartSticky
      ensures isForegroundServiceStarted == (old(isForegroundServiceStarted) || env.foregroundOk)
      ensures ActionOf(intent) != ActionStartCameraEngine ==> engine == old(engine)
      ensures ActionOf(intent) != ActionStart ==> http == old(http)
      ensures ActionOf(intent) != ActionNewPreviewSurface ==> pendingInitializations == old(pendingInitializations)
      ensures ActionOf(intent) == ActionIgnored ==> engine != null ==> unchanged(engine)
      ensures ActionOf(intent) == ActionStart ==> old(http) != null ==> http == old(http)
      ensures ActionOf(intent) == ActionStart ==> old(http) == null ==> fresh(http)
      ensures ActionOf(intent) == ActionStartCameraEngine ==> fresh(engine) && FreshlyStarted(engine, env.enumeration, env.listing, env.manager, http)
      ensures ActionOf(intent) == ActionNewViewState && engine != null && intent.value.data.Some? ==>
        engine.viewState == intent.value.data.value &&
        engine.restartRequests == old(engine.restartRequests) + if old(engine.viewState) != intent.value.data.value then 1 else 0
      ensures ActionOf(intent) == ActionNewPreviewSurface && engine != null ==> engine.previewSurface == intent.value.surface
      ensures ActionOf(intent) == ActionPause && engine != null ==>
        engine.insidePause && engine.restartRequests == old(engine.restartRequests) + if engine.isShowingPreview then 1 else 0
      ensures ActionOf(intent) == ActionResume && engine != null ==>
        !engine.insidePause && engine.restartRequests == old(engine.restartRequests)
      ensures ActionOf(intent) == ActionPause && engine != null ==>
        unchanged(engine`viewState, engine`previewSurface)
      ensures ActionOf(intent) == ActionNewPreviewSurface ==>
        pendingInitializations == old(pendingInitializations) + if engine != null && engine.viewState.preview then [engine] else []
      ensures ActionOf(intent) == ActionRequestSensorData && engine != null ==>
        engine.broadcasts == old(engine.broadcasts) +
          (if old(engine.cameraList) == [] && env.listing.None? then [] else [engine.ViewData()]) &&
        engine.cameraList == (if old(engine.cameraList) == [] && env.listing.Some? then env.listing.value else old(engine.cameraList))
    {
      if !isForegroundServiceStarted {
        StartForegroundService(env.foregroundOk);
      }
      Dispatch(intent, env);
      r := StartSticky;
    }

    /** The `when (intent.action)` of `onStartCommand`: runs the handler the
        action names; a missing intent or an unknown action does nothing. */
    method Dispatch(intent: Option<Intent>, env: Environment)
      requires Valid()
      modifies this`engine, this`http, this`pendingInitializations, engine
      ensures Valid()
      ensures ActionOf(intent) != ActionStartCameraEngine ==> engine == old(engine)
      ensures ActionOf(intent) != ActionStart ==> http == old(http)
      ensures ActionOf(intent) != ActionNewPreviewSurface ==> pendingInitializations == old(pendingInitializations)
      ensures ActionOf(intent) == ActionIgnored ==> engine != null ==> unchanged(engine)
      ensures ActionOf(intent) == ActionStart ==> old(http) != null ==> http == old(http)
      ensures ActionOf(intent) == ActionStart ==> old(http) == null ==> fresh(http)
      ensures ActionOf(intent) == ActionStartCameraEngine ==> fresh(engine) && FreshlyStarted(engine, env.enumeration, env.listing, env.manager, http)
      ensures ActionOf(intent) == ActionNewViewState && engine != null && intent.value.data.Some? ==>
        engine.viewState == intent.value.data.value &&
        engine.restartRequests == old(engine.restartRequests) + if old(engine.viewState) != intent.value.data.value then 1 else 0
      ensures ActionOf(intent) == ActionNewPreviewSurface && engine != null ==> engine.previewSurface == intent.value.surface
      ensures ActionOf(intent) == ActionPause && engine != null ==>
        engine.insidePause && engine.restartRequests == old(engine.restartRequests) + if engine.isShowingPreview then 1 else 0
      ensures ActionOf(intent) == ActionResume && engine != null ==>
        !engine.insidePause && engine.restartRequests == old(engine.restartRequests)
      ensures ActionOf(intent) == ActionPause && engine != null ==>
        unchanged(engine`viewState, engine`previewSurface)
      ensures ActionOf(intent) == ActionNewPreviewSurface ==>
        pendingInitializations == old(pendingInitializations) + if engine != null && engine.viewState.preview then [engine] else []
      ensures ActionOf(intent) == ActionRequestSensorData && engine != null ==>
        engine.broadcasts == old(engine.broadcasts) +
          (if old(engine.cameraList) == [] && env.listing.None? then [] else [engine.ViewData()]) &&
        engine.cameraList == (if old(engine.cameraList) == [] && env.listing.Some? then env.listing.value else old(engine.cameraList))
    {
      match ActionOf(intent) {
        case ActionStart =>
          InitializeService(env.storedPrefs, env.salt, env.digest, env.serverStarts);
        case ActionPause =>
          OnPause();
        case ActionResume =>
          OnResume();
        case ActionStartCameraEngine =>
          StartCameraEngine(env.enumeration, env.listing, env.manager);
        case ActionNewViewState =>
          HandleNewViewState(intent.value.data);
        case ActionNewPreviewSurface =>
          HandleNewPreviewSurface(intent.value.surface);
        case ActionRequestSensorData =>
          RequestSensorData(env.listing);
        case ActionIgnored =>
      }
    }

    /** `kill`, run from `onDestroy`: destroys the engine, stops the HTTP
        service and leaves the foreground. The flag stays set. */
    method Kill()
      requires Valid()
      modifies this`inForeground, engine, if http != null then {http, http.channel} else {}
      ensures Valid()
      ensures !inForeground
      ensures engine != null ==> !engine.scopeActive && !engine.hasSession
      ensures http != null ==> http.channel.closed && (http.serverCreated ==> !http.serverRunning)
    {
      if engine != null {
        engine.Destroy();
      }
      if http != null {
        http.Stop();
      }
      inForeground := false;
    }
  }
}

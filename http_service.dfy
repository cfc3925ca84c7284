/** The HTTP side of the app: the bounded frame channel the camera engine
    feeds, the producer that drains it into an MJPEG response, the login
    page and its single access token, password changes, and shutdown.
    The web server itself (routing, headers, sockets) is not modelled; each
    handler is a method on the service's state. */
module Http {
  import opened Common
  import opened HttpAuth
  import opened Mjpeg

  /** `Channel<ByteArray>(10)`: a bounded FIFO of encoded frames that can be
      closed for sending. Frames already buffered stay receivable after
      the close. */
  class FrameChannel {
    const capacity: nat
    var buffer: seq<seq<byte>>
    var closed: bool

    predicate Valid()
      reads this
    {
      |buffer| <= capacity
    }

    constructor (capacity: nat)
      ensures this.capacity == capacity
      ensures buffer == [] && !closed
      ensures Valid()
    {
      this.capacity := capacity;
      buffer := [];
      closed := false;
    }

    /** `trySend`: enqueues the frame unless the channel is closed or full;
        a refused frame is dropped. */
    method TrySend(frame: seq<byte>) returns (sent: bool)
      requires Valid()
      modifies this`buffer
      ensures Valid()
      ensures sent <==> !closed && |old(buffer)| < capacity
      ensures buffer == if sent then old(buffer) + [frame] else old(buffer)
    {
      if !closed && |buffer| < capacity {
        buffer := buffer + [frame];
        sent := true;
      } else {
        sent := false;
      }
    }

    /** Takes the oldest buffered frame. */
    method Receive() returns (frame: seq<byte>)
      requires Valid() && buffer != []
      modifies this`buffer
      ensures Valid()
      ensures [frame] + buffer == old(buffer)
    {
      frame := buffer[0];
      buffer := buffer[1..];
    }

    /** `close()`: later sends are refused; reports whether it was open. */
    method Close() returns (wasOpen: bool)
      modifies this`closed
      ensures closed
      ensures wasOpen == !old(closed)
    {
      wasOpen := !closed;
      closed := true;
    }
  }

  /** The outcome of the writes for the frames a producer drains, in order:
      `outcome(i)` says how the writes of the `i`-th frame ended. */
  function Outcomes(outcome: nat -> WriteOutcome, n: nat): (r: seq<WriteOutcome>)
    ensures |r| == n
    ensures forall i :: 0 <= i < n ==> r[i] == outcome(i)
  {
    if n == 0 then [] else Outcomes(outcome, n - 1) + [outcome(n - 1)]
  }

  /** Answer to `GET /cam.mjpeg`. */
  datatype StreamResponse =
    | Unauthorized(message: string)
    | MjpegStream(contentType: string, body: seq<byte>, streamClosed: bool)

  /** Answer to `POST /`. */
  datatype LoginResponse =
    | UnsupportedMediaType(message: string)
    | StreamPage(imageSource: string)
    | RedirectLoginFailed(location: string)

  /** Answer to `GET /`: the login form, with the error line when the
      previous attempt failed, never cached. */
  datatype LoginPage = LoginPage(showError: bool, cacheControl: string)

  function Status(r: StreamResponse): int
  {
    if r.Unauthorized? then 401 else 200
  }

  function LoginStatus(r: LoginResponse): int
  {
    match r
    case UnsupportedMediaType(_) => 415
    case StreamPage(_) => 200
    case RedirectLoginFailed(_) => 302
  }

  const MjpegContentType: string := "multipart/x-mixed-replace; boundary=FRAME"
  const NoStore: string := "no-store, no-cache, must-revalidate"
  const StreamPath: string := "/cam.mjpeg?token="

  /** `GET /`: the error line appears exactly when the query parameter
      `loginFailed` is the string `true`. */
  function ServeLoginPage(loginFailed: Option<string>): (p: LoginPage)
    ensures p.showError <==> loginFailed.Some? && loginFailed.value == "true"
    ensures p.cacheControl == NoStore
  {
    LoginPage(loginFailed == Some("true"), NoStore)
  }

  class HttpService {
    const channel: FrameChannel
    /** SHA-256 of a string's UTF-8 bytes. */
    const digest: Digest
    /** The three preference entries, as last written. */
    var prefs: Prefs
    /** The stored `salt:hash`. */
    var currentPasswordHash: string
    var mjpegAccessToken: Option<string>
    /** `::engine.isInitialized`: the server was built by `main()`. */
    var serverCreated: bool
    var serverRunning: bool

    predicate Valid()
      reads this, channel
    {
      channel.Valid() && channel.capacity == 10 &&
      prefs.passwordHash == Some(currentPasswordHash) && prefs.isHashed
    }

    /** The `init` block: reads the preferences and runs the migration with
        the fresh salt `salt`. */
    constructor (stored: Prefs, salt: string, digest: Digest)
      ensures Valid() && fresh(channel)
      ensures prefs == Migrate(stored, salt, digest)
      ensures !NeedsMigration(stored) ==> currentPasswordHash == stored.passwordHash.value
      ensures channel.buffer == [] && !channel.closed
      ensures mjpegAccessToken.None? && !serverCreated && !serverRunning
      ensures this.digest == digest
    {
      channel := new FrameChannel(10);
      this.digest := digest;
      var p := Migrate(stored, salt, digest);
      prefs := p;
      currentPasswordHash := p.passwordHash.value;
      mjpegAccessToken := None;
      serverCreated := false;
      serverRunning := false;
    }

    /** The `/cam.mjpeg` condition: a token was submitted, one is current,
        and they are equal. */
    predicate StreamGranted(submitted: Option<string>)
      reads this
    {
      submitted.Some? && submitted == mjpegAccessToken && mjpegAccessToken.Some?
    }

    /** `changePassword`: a blank password is refused and nothing changes;
        otherwise the password is stored as `salt:hash` with the fresh salt
        `salt`, the legacy entry is removed, and the access token dropped. */
    method ChangePassword(newPassword: string, salt: string) returns (ok: bool)
      requires Valid() && IsUuidString(salt)
      modifies this`prefs, this`currentPasswordHash, this`mjpegAccessToken
      ensures Valid()
      ensures ok <==> !IsBlank(newPassword)
      ensures !ok ==> (prefs == old(prefs) && currentPasswordHash == old(currentPasswordHash)
        && mjpegAccessToken == old(mjpegAccessToken))
      ensures ok ==> (currentPasswordHash == salt + ":" + HashPassword(digest, newPassword, salt)
        && prefs == Prefs(Some(currentPasswordHash), true, None)
        && mjpegAccessToken.None?)
      ensures ok ==> VerifyPassword(digest, newPassword, currentPasswordHash)
      ensures ok ==> forall t :: !StreamGranted(t)
    {
      if IsBlank(newPassword) {
        return false;
      }
      currentPasswordHash := salt + ":" + HashPassword(digest, newPassword, salt);
      mjpegAccessToken := None;
      prefs := Prefs(Some(currentPasswordHash), true, None);
      UuidHasNoColon(salt);
      VerifyRoundTrip(digest, newPassword, salt);
      ok := true;
    }

    /** `POST /`: anything but a form body is refused with 415 and the
        token kept; the right password mints the token `freshToken` and
        answers with the page that embeds the stream; a missing or wrong
        password drops the token and redirects back to the form. */
    method HandleLogin(isFormUrlEncoded: bool, password: Option<string>, freshToken: string)
      returns (r: LoginResponse)
      requires Valid()
      modifies this`mjpegAccessToken
      ensures Valid()
      ensures !isFormUrlEncoded ==> LoginStatus(r) == 415 && mjpegAccessToken == old(mjpegAccessToken)
      ensures isFormUrlEncoded && password.Some? && VerifyPassword(digest, password.value, currentPasswordHash) ==>
        r == StreamPage(StreamPath + freshToken) && mjpegAccessToken == Some(freshToken)
        && StreamGranted(Some(freshToken))
      ensures isFormUrlEncoded && !(password.Some? && VerifyPassword(digest, password.value, currentPasswordHash)) ==>
        r == RedirectLoginFailed("/?loginFailed=true") && mjpegAccessToken.None?
        && forall t :: !StreamGranted(t)
    {
      if !isFormUrlEncoded {
        return UnsupportedMediaType("Content-Type must be application/x-www-form-urlencoded");
      }
      if password.Some? && VerifyPassword(digest, password.value, currentPasswordHash) {
        mjpegAccessToken := Some(freshToken);
        r := StreamPage(StreamPath + freshToken);
      } else {
        mjpegAccessToken := None;
        r := RedirectLoginFailed("/?loginFailed=true");
      }
    }

    /** `producer()`: drains the frames buffered in the channel, writing one
        multipart part per frame; a failed write ends only that frame's
        part. When the channel is closed and drained the output stream is
        closed; otherwise the producer waits for more frames. */
    method Producer(outcome: nat -> WriteOutcome) returns (written: seq<byte>, streamClosed: bool)
      requires Valid()
      modifies channel`buffer
      ensures Valid()
      ensures channel.buffer == []
      ensures written == EmittedAll(old(channel.buffer), Outcomes(outcome, |old(channel.buffer)|))
      ensures streamClosed == channel.closed
    {
      ghost var frames := channel.buffer;
      written := [];
      var i := 0;
      while channel.buffer != []
        invariant channel.Valid()
        invariant 0 <= i <= |frames| && channel.buffer == frames[i..]
        invariant written == EmittedAll(frames[..i], Outcomes(outcome, i))
        decreases |channel.buffer|
      {
        ghost var before := channel.buffer;
        var frame := channel.Receive();
        assert frame == before[0] == frames[i] && channel.buffer == before[1..];
        assert before[1..] == frames[i + 1..];
        assert frames[..i] + [frame] == frames[..i + 1];
        EmittedAllSnoc(frames[..i], Outcomes(outcome, i), frame, outcome(i));
        written := written + Emitted(frame, outcome(i));
        i := i + 1;
      }
      assert frames[..i] == frames;
      streamClosed := channel.closed;
    }

    /** `GET /cam.mjpeg`: with the current token the producer's output is
        served as a multipart stream; anything else gets 401. The token is
        not consumed. */
    method HandleStream(submitted: Option<string>, outcome: nat -> WriteOutcome) returns (r: StreamResponse)
      requires Valid()
      modifies channel`buffer
      ensures Valid()
      ensures r.MjpegStream? <==> old(StreamGranted(submitted))
      ensures Status(r) == 401 ==> channel.buffer == old(channel.buffer)
      ensures r.MjpegStream? ==> (r.contentType == MjpegContentType
        && r.body == EmittedAll(old(channel.buffer), Outcomes(outcome, |old(channel.buffer)|))
        && channel.buffer == [])
    {
      if StreamGranted(submitted) {
        var body, closed := Producer(outcome);
        r := MjpegStream(MjpegContentType, body, closed);
      } else {
        r := Unauthorized("Invalid or missing access token.");
      }
    }

    /** `main()`: builds and starts the server on port 59713. */
    method Start()
      modifies this`serverCreated, this`serverRunning
      ensures serverCreated && serverRunning
    {
      serverCreated := true;
      serverRunning := true;
    }

    /** `stop()`: closes the channel unless it is closed already, and stops
        the server if it was ever built. */
    method Stop()
      requires Valid()
      modifies channel`closed, this`serverRunning
      ensures Valid()
      ensures channel.closed
      ensures old(channel.closed) ==> unchanged(channel)
      ensures serverRunning == (old(serverRunning) && !serverCreated)
    {
      if !channel.closed {
        var _ := channel.Close();
      }
      if serverCreated {
        serverRunning := false;
      }
    }
  }
}

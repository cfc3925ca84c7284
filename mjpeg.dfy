/** The byte stream of `/cam.mjpeg`: a `multipart/x-mixed-replace` body with
    boundary `FRAME` (section 5.1.1 of RFC 2046), one part per JPEG frame,
    each part carrying its own Content-Type and Content-Length. */
module Mjpeg {
  import opened Common

  /** Everything of a part's header up to the decimal length: the ASCII
      bytes of `--FRAME\r\nContent-Type: image/jpeg\r\nContent-Length: `. */
  const HeadPrefix: seq<byte> := [
    45, 45, 70, 82, 65, 77, 69, 13, 10,
    67, 111, 110, 116, 101, 110, 116, 45, 84, 121, 112, 101, 58, 32,
    105, 109, 97, 103, 101, 47, 106, 112, 101, 103, 13, 10,
    67, 111, 110, 116, 101, 110, 116, 45, 76, 101, 110, 103, 116, 104, 58, 32]

  /** The end of the Content-Length line and the blank line, `\r\n\r\n`. */
  const HeadEnd: seq<byte> := [13, 10, 13, 10]

  /** The `\r\n` after the frame bytes. */
  const Crlf: seq<byte> := [13, 10]

  /** The four header writes of one frame: `--FRAME\r\n`,
      `Content-Type: image/jpeg\r\n`, `Content-Length: n\r\n` and `\r\n`. */
  function PartHeader(n: nat): seq<byte>
  {
    HeadPrefix + AsciiBytes(Decimal(n)) + HeadEnd
  }

  /** The bytes written for one frame when no write fails. */
  function Part(frame: seq<byte>): (p: seq<byte>)
    ensures |p| > |frame|
  {
    PartHeader(|frame|) + frame + Crlf
  }

  /** The whole body for a sequence of frames, each part complete. */
  function Body(frames: seq<seq<byte>>): seq<byte>
  {
    if frames == [] then [] else Part(frames[0]) + Body(frames[1..])
  }

  // Reading a body back.

  predicate IsDigitByte(b: byte)
  {
    48 <= b <= 57
  }

  /** Length of the longest prefix of digit bytes. */
  function DigitRun(s: seq<byte>): (n: nat)
    ensures n <= |s|
    ensures forall i :: 0 <= i < n ==> IsDigitByte(s[i])
    ensures n < |s| ==> !IsDigitByte(s[n])
  {
    if s != [] && IsDigitByte(s[0]) then 1 + DigitRun(s[1..]) else 0
  }

  /** Decimal value of a run of digit bytes, read left to right. */
  function DigitBytesValue(s: seq<byte>): nat
    requires forall i :: 0 <= i < |s| ==> IsDigitByte(s[i])
  {
    if s == [] then 0
    else
      assert IsDigitByte(s[|s| - 1]);
      DigitBytesValue(s[..|s| - 1]) * 10 + (s[|s| - 1] as int - 48)
  }

  lemma {:induction false} DigitBytesValueOfAscii(s: string)
    requires forall i :: 0 <= i < |s| ==> '0' <= s[i] <= '9'
    ensures forall i :: 0 <= i < |s| ==> IsDigitByte(AsciiBytes(s)[i])
    ensures DigitBytesValue(AsciiBytes(s)) == DigitsValue(s)
  {
    var b := AsciiBytes(s);
    forall i | 0 <= i < |s| ensures IsDigitByte(b[i]) && b[i] as int == s[i] as int {
      assert b[i] == LowByte(s[i]);
    }
    if s != [] {
      var n := |s| - 1;
      var init := s[..n];
      DigitBytesValueOfAscii(init);
      var bi := AsciiBytes(init);
      assert b[..n] == bi by {
        forall i | 0 <= i < n ensures b[..n][i] == bi[i] {
          assert bi[i] == LowByte(init[i]);
          assert init[i] == s[i];
        }
      }
      assert DigitBytesValue(b) == DigitBytesValue(bi) * 10 + (b[n] as int - 48);
    }
  }

  /** Reads a part's header: the fixed text, a decimal length `n` and the
      blank line; gives `n` and the bytes after the header. */
  function ParseHeader(s: seq<byte>): (r: Option<(nat, seq<byte>)>)
    ensures r.Some? ==> |r.value.1| < |s|
  {
    var head := HeadPrefix;
    if !(|head| <= |s| && s[..|head|] == head) then None
    else
      var t := s[|head|..];
      var d := DigitRun(t);
      if d == 0 then None
      else
        var u := t[d..];
        var blank := HeadEnd;
        if !(|blank| <= |u| && u[..|blank|] == blank) then None
        else Some((DigitBytesValue(t[..d]), u[|blank|..]))
  }

  /** Reads one part: its header, `n` bytes of frame and the closing CRLF;
      gives the frame and the bytes after the part. */
  function ParsePart(s: seq<byte>): (r: Option<(seq<byte>, seq<byte>)>)
    ensures r.Some? ==> |r.value.1| < |s|
  {
    match ParseHeader(s)
    case None => None
    case Some((n, v)) =>
      if n + 2 <= |v| && v[n..n + 2] == Crlf then Some((v[..n], v[n + 2..]))
      else None
  }

  /** Reads a whole body into its frames. */
  function ParseBody(s: seq<byte>): Option<seq<seq<byte>>>
    decreases |s|
  {
    if s == [] then Some([])
    else
      match ParsePart(s)
      case None => None
      case Some((frame, rest)) =>
        match ParseBody(rest)
        case None => None
        case Some(frames) => Some([frame] + frames)
  }

  lemma SplitAt<T>(a: seq<T>, b: seq<T>)
    ensures (a + b)[..|a|] == a && (a + b)[|a|..] == b
  {
  }

  /** A header written for length `n` reads back as `n`, leaving what follows. */
  lemma HeaderOfPart(n: nat, v: seq<byte>)
    ensures ParseHeader(PartHeader(n) + v) == Some((n, v))
  {
    var head, blank := HeadPrefix, HeadEnd;
    var digits := Decimal(n);
    var dig := AsciiBytes(digits);
    var s := PartHeader(n) + v;
    var t := dig + (blank + v);
    assert s == head + t;
    SplitAt(head, t);
    DigitBytesValueOfAscii(digits);
    DigitRunOfDigits(dig, blank + v);
    SplitAt(dig, blank + v);
    SplitAt(blank, v);
    DecimalRoundTrip(n);
  }

  /** A part reads back as its frame, leaving what follows untouched. */
  lemma ParsePartOfPart(frame: seq<byte>, rest: seq<byte>)
    ensures ParsePart(Part(frame) + rest) == Some((frame, rest))
  {
    var crlf := Crlf;
    var v := frame + (crlf + rest);
    assert Part(frame) + rest == PartHeader(|frame|) + v;
    HeaderOfPart(|frame|, v);
    SplitAt(frame, crlf + rest);
    SplitAt(crlf, rest);
    assert v[|frame|..|frame| + 2] == crlf;
  }

  lemma {:induction false} DigitRunOfDigits(dig: seq<byte>, after: seq<byte>)
    requires forall i :: 0 <= i < |dig| ==> IsDigitByte(dig[i])
    requires after != [] && !IsDigitByte(after[0])
    ensures DigitRun(dig + after) == |dig|
  {
    if dig != [] {
      assert (dig + after)[1..] == dig[1..] + after;
      DigitRunOfDigits(dig[1..], after);
    } else {
      assert dig + after == after;
    }
  }

  /** The body reads back as the frames it was built from. */
  lemma {:induction false} ParseBodyOfBody(frames: seq<seq<byte>>)
    ensures ParseBody(Body(frames)) == Some(frames)
  {
    if frames != [] {
      var rest := Body(frames[1..]);
      assert Body(frames) == Part(frames[0]) + rest;
      ParsePartOfPart(frames[0], rest);
      ParseBodyOfBody(frames[1..]);
      ParseBodyCons(Body(frames), frames[0], rest, frames[1..]);
      HeadTail(frames);
    }
  }

  lemma HeadTail<T>(s: seq<T>)
    requires s != []
    ensures [s[0]] + s[1..] == s
  {
  }

  /** A part followed by a body that reads back reads back as that part's
      frame in front. */
  lemma ParseBodyCons(s: seq<byte>, frame: seq<byte>, rest: seq<byte>, frames: seq<seq<byte>>)
    requires ParsePart(s) == Some((frame, rest)) && ParseBody(rest) == Some(frames)
    ensures ParseBody(s) == Some([frame] + frames)
  {
  }

  /** How the writes of one frame ended: all of them went out, or an
      exception was raised after the first `k` bytes of the part. */
  datatype WriteOutcome = Complete | FailedAfter(k: nat)

  /** The bytes that reach the client for one frame. */
  function Emitted(frame: seq<byte>, outcome: WriteOutcome): seq<byte>
  {
    var p := Part(frame);
    match outcome
    case Complete => p
    case FailedAfter(k) => if k < |p| then p[..k] else p
  }

  /** The client receives a prefix of the frame's part, all of it when
      every write went out. */
  lemma EmittedIsPrefix(frame: seq<byte>, outcome: WriteOutcome)
    ensures Emitted(frame, outcome) <= Part(frame)
    ensures outcome.Complete? ==> Emitted(frame, outcome) == Part(frame)
    ensures outcome.FailedAfter? && outcome.k < |Part(frame)| ==> |Emitted(frame, outcome)| == outcome.k
  {
  }

  /** What the producer writes for the frames it drained, frame by frame. */
  function EmittedAll(frames: seq<seq<byte>>, outcomes: seq<WriteOutcome>): seq<byte>
    requires |outcomes| == |frames|
  {
    if frames == [] then [] else Emitted(frames[0], outcomes[0]) + EmittedAll(frames[1..], outcomes[1..])
  }

  /** When every write succeeds the producer's output is the multipart body. */
  lemma {:induction false} EmittedAllComplete(frames: seq<seq<byte>>, outcomes: seq<WriteOutcome>)
    requires |outcomes| == |frames|
    requires forall i :: 0 <= i < |outcomes| ==> outcomes[i].Complete?
    ensures EmittedAll(frames, outcomes) == Body(frames)
  {
    if frames != [] {
      EmittedAllComplete(frames[1..], outcomes[1..]);
    }
  }

  /** The output for two runs of frames is the two outputs joined. */
  lemma {:induction false} EmittedAllAppend(f1: seq<seq<byte>>, o1: seq<WriteOutcome>, f2: seq<seq<byte>>, o2: seq<WriteOutcome>)
    requires |o1| == |f1| && |o2| == |f2|
    ensures EmittedAll(f1 + f2, o1 + o2) == EmittedAll(f1, o1) + EmittedAll(f2, o2)
  {
    if f1 == [] {
      assert f1 + f2 == f2 && o1 + o2 == o2;
    } else {
      assert (f1 + f2)[1..] == f1[1..] + f2 && (o1 + o2)[1..] == o1[1..] + o2;
      EmittedAllAppend(f1[1..], o1[1..], f2, o2);
    }
  }

  /** Writing one more frame appends what reached the client for it. */
  lemma EmittedAllSnoc(frames: seq<seq<byte>>, outcomes: seq<WriteOutcome>, frame: seq<byte>, outcome: WriteOutcome)
    requires |outcomes| == |frames|
    ensures EmittedAll(frames + [frame], outcomes + [outcome]) == EmittedAll(frames, outcomes) + Emitted(frame, outcome)
  {
    EmittedAllAppend(frames, outcomes, [frame], [outcome]);
    assert [frame][1..] == [] && [outcome][1..] == [];
  }

  /** A failed write costs only its own frame: the output splits at frame `i`
      into what was written before it, that frame's (possibly cut) part, and
      the frames after it, written as if nothing had happened. */
  lemma EmittedAllSplit(frames: seq<seq<byte>>, outcomes: seq<WriteOutcome>, i: nat)
    requires |outcomes| == |frames| && i < |frames|
    ensures EmittedAll(frames, outcomes) ==
      EmittedAll(frames[..i], outcomes[..i]) + Emitted(frames[i], outcomes[i])
      + EmittedAll(frames[i + 1..], outcomes[i + 1..])
  {
    var f2, o2 := frames[i..], outcomes[i..];
    assert frames == frames[..i] + f2 && outcomes == outcomes[..i] + o2;
    EmittedAllAppend(frames[..i], outcomes[..i], f2, o2);
    assert f2[1..] == frames[i + 1..] && o2[1..] == outcomes[i + 1..];
  }
}

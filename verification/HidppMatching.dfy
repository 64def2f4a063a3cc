/**
 src/linux/hidpp-device.c: sending a HID++ request and finding its response among the messages that
 arrive. A message is a buffer of twenty bytes: type, device, feature, function, parameters.
 */
module HidppMatching {
  import opened Wrappers

  const SIZE: nat := 20
  const SHORT: Byte := 0x10
  const LONG: Byte := 0x11
  const ERROR_MESSAGE: Byte := 0x8f

  /** What one read gives: at least a byte, and no more than the buffer holds. */
  type FrameBytes = s: seq<Byte> | 1 <= |s| <= SIZE witness [0]

  /** What waiting for input can give. The wait ends when the input does: the time is up. */
  datatype Input =
    | Frame(bytes: FrameBytes)
    | Interrupted
    | PollFailed
    | ReadFailed
    | TimedOut

  datatype Outcome =
    | Success
    | ProtocolError(code: Byte)
    | PollError
    | ReadError
    | Timeout
    | WriteError

  type Message = s: seq<Byte> | |s| == SIZE witness seq(SIZE, _ => 0)

  /** A read overwrites as many bytes as arrive. */
  function Overlaid(buffer: Message, bytes: seq<Byte>): Message
    requires |bytes| <= SIZE
  {
    bytes + buffer[|bytes|..]
  }

  /** hidpp_is_error; the code is the second parameter. */
  predicate IsError(m: Message) { m[0] == SHORT && m[2] == ERROR_MESSAGE }
  function ErrorCode(m: Message): Byte { m[5] }

  /** A request, or the header of a response. */
  datatype Header = Header(device: Byte, feature: Byte, function_: Byte)

  predicate FromDevice(m: Message, h: Header) { (m[0] == SHORT || m[0] == LONG) && m[1] == h.device }
  predicate Answers(m: Message, h: Header) { FromDevice(m, h) && m[2] == h.feature && m[3] == h.function_ }
  predicate Refuses(m: Message, h: Header) {
    FromDevice(m, h) && !Answers(m, h) && IsError(m) && m[3] == h.feature && m[4] == h.function_
  }

  datatype Received = Received(outcome: Outcome, buffer: Message, rest: seq<Input>)

  function Receive(buffer: Message, inputs: seq<Input>, h: Header): Received
    decreases |inputs|
  {
    if inputs == [] then Received(Timeout, buffer, [])
    else
      match inputs[0]
      case Interrupted => Receive(buffer, inputs[1..], h)
      case PollFailed => Received(PollError, buffer, inputs[1..])
      case ReadFailed => Received(ReadError, buffer, inputs[1..])
      case TimedOut => Received(Timeout, buffer, inputs[1..])
      case Frame(bytes) =>
        var m := Overlaid(buffer, bytes);
        if Answers(m, h) then Received(Success, m, inputs[1..])
        else if Refuses(m, h) then Received(ProtocolError(ErrorCode(m)), m, inputs[1..])
        else Receive(m, inputs[1..], h)
  }

  /** The conversation about one request: whether it can be written, and what arrives after it. */
  datatype Exchange = Exchange(writeOk: bool, inputs: seq<Input>)

  /** The next exchange. A device that is gone takes no requests. */
  function Next(script: seq<Exchange>): Exchange { if script == [] then Exchange(false, []) else script[0] }

  function Rest(script: seq<Exchange>): seq<Exchange> { if script == [] then [] else script[1..] }

  /** What an exchange gives for a request with a header, received into a buffer. */
  function Replied(buffer: Message, exchange: Exchange, h: Header): Received {
    if exchange.writeOk then Receive(buffer, exchange.inputs, h) else Received(WriteError, buffer, [])
  }

  function HeaderOf(m: Message): Header { Header(m[1], m[2], m[3]) }

  class Channel {
    // The environment: what is still to arrive, and the exchanges to come.
    var incoming: seq<Input>
    var script: seq<Exchange>

    // The requests that were written, or tried to.
    ghost var written: seq<seq<Byte>>

    constructor (script: seq<Exchange>)
      ensures this.script == script && incoming == [] && written == []
    {
      this.script, incoming, written := script, [], [];
    }

    /** The return value, and the error that is set beside it. */
    method ReadResp(h: Header, response: array<Byte>) returns (ret: bool, outcome: Outcome)
      requires response.Length == SIZE
      modifies this`incoming, response
      ensures Received(outcome, response[..], incoming) == Receive(old(response[..]), old(incoming), h)
      ensures ret <==> outcome == Success
    {
      ret, outcome := true, Success;
      while incoming != []
        invariant ret && outcome == Success
        invariant Receive(response[..], incoming, h) == Receive(old(response[..]), old(incoming), h)
        decreases |incoming|
      {
        var input := incoming[0];
        incoming := incoming[1..];
        match input {
          case Interrupted => continue;
          case PollFailed => return false, PollError;
          case ReadFailed => return false, ReadError;
          case TimedOut => return false, Timeout;
          case Frame(bytes) =>
        }
        ghost var before := response[..];
        forall i | 0 <= i < |input.bytes| {
          response[i] := input.bytes[i];
        }
        assert response[..] == Overlaid(before, input.bytes);
        if response[0] != SHORT && response[0] != LONG {
          continue;
        }
        if response[1] != h.device {
          continue;
        }
        if response[2] == h.feature && response[3] == h.function_ {
          return;
        }
        if response[0] == SHORT && response[2] == ERROR_MESSAGE && response[3] == h.feature && response[4] == h.function_ {
          outcome := ProtocolError(response[5]);
          ret := false;
          return;
        }
      }
      return false, Timeout;
    }

    /** Messages that are queued before the request are discarded. The response may overwrite the
        request: its header is read before anything is received. */
    method Cmd(request: array<Byte>, response: array<Byte>) returns (ret: bool, outcome: Outcome)
      requires request.Length == SIZE && response.Length == SIZE
      requires request[0] == SHORT || request[0] == LONG
      modifies this, response
      ensures Received(outcome, response[..], incoming)
           == Replied(old(response[..]), Next(old(script)), HeaderOf(old(request[..])))
      ensures script == Rest(old(script)) && (ret <==> outcome == Success)
      ensures written == old(written) + [old(request[..if request[0] == 0x10 then 7 else 20])]
    {
      written := written + [request[..if request[0] == SHORT then 7 else SIZE]];
      incoming := [];
      if script == [] {
        return false, WriteError;
      }
      var exchange := script[0];
      script := script[1..];
      if !exchange.writeOk {
        return false, WriteError;
      }
      incoming := exchange.inputs;
      ret, outcome := ReadResp(Header(request[1], request[2], request[3]), response);
    }
  }

  // ----- Which message ends the wait

  /** The buffer after some inputs, none of which ended the wait. */
  function Mixed(buffer: Message, inputs: seq<Input>): Message
    decreases |inputs|
  {
    if inputs == [] then buffer
    else Mixed(if inputs[0].Frame? then Overlaid(buffer, inputs[0].bytes) else buffer, inputs[1..])
  }

  /** An input after which the wait goes on. */
  predicate Passes(m: Message, i: Input, h: Header) {
    i.Interrupted? || (i.Frame? && !Answers(Overlaid(m, i.bytes), h) && !Refuses(Overlaid(m, i.bytes), h))
  }

  /** What an input that ends the wait decides. */
  predicate DecidedBy(m: Message, i: Input, h: Header, outcome: Outcome) {
    match i
    case Frame(bytes) =>
      var n := Overlaid(m, bytes);
      if Answers(n, h) then outcome == Success else Refuses(n, h) && outcome == ProtocolError(ErrorCode(n))
    case Interrupted => false
    case PollFailed => outcome == PollError
    case ReadFailed => outcome == ReadError
    case TimedOut => outcome == Timeout
  }

  /** For any stream, a request ends with the first input that does not pass, and what is in the buffer
      then, made of the bytes of that message and of older ones, decides. */
  lemma {:induction false} FirstDecides(buffer: Message, inputs: seq<Input>, h: Header) returns (k: nat)
    ensures k <= |inputs|
    ensures forall i :: 0 <= i < k ==> Passes(Mixed(buffer, inputs[..i]), inputs[i], h)
    ensures var r := Receive(buffer, inputs, h);
            if k == |inputs| then r.outcome == Timeout && r.rest == [] && r.buffer == Mixed(buffer, inputs)
            else
              var m := Mixed(buffer, inputs[..k]);
              && !Passes(m, inputs[k], h) && DecidedBy(m, inputs[k], h, r.outcome) && r.rest == inputs[k + 1..]
              && r.buffer == (if inputs[k].Frame? then Overlaid(m, inputs[k].bytes) else m)
    decreases |inputs|
  {
    if inputs == [] || !Passes(buffer, inputs[0], h) {
      return 0;
    }
    var next := if inputs[0].Frame? then Overlaid(buffer, inputs[0].bytes) else buffer;
    var tail := inputs[1..];
    k := FirstDecides(next, tail, h);
    forall i | 0 <= i <= k ensures Mixed(buffer, inputs[..i + 1]) == Mixed(next, tail[..i]) {
      assert inputs[..i + 1][1..] == tail[..i];
    }
    forall i | 0 <= i < k + 1 ensures Passes(Mixed(buffer, inputs[..i]), inputs[i], h) {
      if i > 0 {
        assert Mixed(buffer, inputs[..i]) == Mixed(next, tail[..i - 1]) && tail[i - 1] == inputs[i];
      }
    }
    k := k + 1;
  }

  // ----- What a message says by its own bytes

  /** Whether a frame with a whole header answers a request. */
  predicate FrameAnswers(bytes: seq<Byte>, h: Header) {
    && |bytes| >= 4 && (bytes[0] == SHORT || bytes[0] == LONG)
    && bytes[1] == h.device && bytes[2] == h.feature && bytes[3] == h.function_
  }

  /** Whether a frame that reaches to its error code refuses it. */
  predicate FrameRefuses(bytes: seq<Byte>, h: Header) {
    && |bytes| >= 6 && bytes[0] == SHORT && bytes[1] == h.device && !FrameAnswers(bytes, h)
    && bytes[2] == ERROR_MESSAGE && bytes[3] == h.feature && bytes[4] == h.function_
  }

  /** Whether what is left in the buffer completes a shorter frame to the header of an answer. */
  predicate Completes(m: Message, bytes: seq<Byte>, h: Header) {
    && 1 <= |bytes| < 4 && (bytes[0] == SHORT || bytes[0] == LONG)
    && (if |bytes| > 1 then bytes[1] else m[1]) == h.device
    && (if |bytes| > 2 then bytes[2] else m[2]) == h.feature
    && m[3] == h.function_
  }

  /** A frame with a whole header answers by its own bytes, and a shorter one exactly when older bytes
      complete it. */
  lemma AnswersExactly(m: Message, bytes: FrameBytes, h: Header)
    ensures Answers(Overlaid(m, bytes), h) <==> if |bytes| >= 4 then FrameAnswers(bytes, h) else Completes(m, bytes, h)
  {
    var n := Overlaid(m, bytes);
    assert n[0] == bytes[0];
  }

  /** A request succeeds with the first message that does not pass. That message is the response by its
      own bytes if and only if it has a whole header; else what was left in the buffer completed it. */
  lemma SuccessExactly(buffer: Message, inputs: seq<Input>, h: Header) returns (k: nat)
    requires Receive(buffer, inputs, h).outcome == Success
    ensures k < |inputs| && inputs[k].Frame?
    ensures forall i :: 0 <= i < k ==> Passes(Mixed(buffer, inputs[..i]), inputs[i], h)
    ensures FrameAnswers(inputs[k].bytes, h) <==> |inputs[k].bytes| >= 4
    ensures |inputs[k].bytes| < 4 ==> Completes(Mixed(buffer, inputs[..k]), inputs[k].bytes, h)
  {
    k := FirstDecides(buffer, inputs, h);
    AnswersExactly(Mixed(buffer, inputs[..k]), inputs[k].bytes, h);
  }

  /** Into the buffer that holds the request, a message without a whole header passes for the response
      exactly when it is the beginning of the request, but for its type. */
  lemma ShortMessagePassesForResponse(request: Message, bytes: FrameBytes)
    requires |bytes| < 4
    ensures Receive(request, [Frame(bytes)], HeaderOf(request)).outcome == Success
       <==> (bytes[0] == SHORT || bytes[0] == LONG) && bytes[1..] <= request[1..]
  {
    AnswersExactly(request, bytes, HeaderOf(request));
    OwnRequestCompletes(request, bytes);
  }

  lemma OwnRequestCompletes(request: Message, bytes: FrameBytes)
    requires |bytes| < 4
    ensures Completes(request, bytes, HeaderOf(request))
       <==> (bytes[0] == SHORT || bytes[0] == LONG) && bytes[1..] <= request[1..]
  {
    var tail := request[1..];
    assert tail[0] == request[1] && tail[1] == request[2];
    assert bytes[1..] == if |bytes| == 1 then [] else if |bytes| == 2 then [bytes[1]] else [bytes[1], bytes[2]];
  }

  /** Frames that are long enough to be read without older bytes. */
  predicate Whole(i: Input) { i.Frame? ==> |i.bytes| >= 6 }

  predicate AllWhole(inputs: seq<Input>) { forall i :: 0 <= i < |inputs| ==> Whole(inputs[i]) }

  /** An input that says nothing about a request, by its own bytes. */
  predicate Ignored(i: Input, h: Header) {
    i.Interrupted? || (i.Frame? && !FrameAnswers(i.bytes, h) && !FrameRefuses(i.bytes, h))
  }

  lemma PassesExactly(m: Message, i: Input, h: Header)
    requires Whole(i)
    ensures Passes(m, i, h) <==> Ignored(i, h)
  {
    if i.Frame? {
      AnswersExactly(m, i.bytes, h);
    }
  }

  /** The first input that is not ignored is an answer. */
  predicate AnsweredAt(inputs: seq<Input>, h: Header, k: nat) {
    && k < |inputs| && inputs[k].Frame? && FrameAnswers(inputs[k].bytes, h)
    && forall i :: 0 <= i < k ==> Ignored(inputs[i], h)
  }

  lemma AtMostOneFirst(inputs: seq<Input>, h: Header, j: nat, k: nat)
    requires AnsweredAt(inputs, h, j) && k <= |inputs|
    requires forall i :: 0 <= i < k ==> Ignored(inputs[i], h)
    requires k < |inputs| ==> !Ignored(inputs[k], h)
    ensures j == k
  {
    assert !Ignored(inputs[j], h);
  }

  /** Among whole messages a request succeeds if and only if the first one that is not ignored answers it,
      whatever was in the buffer. */
  lemma AnsweredExactly(buffer: Message, inputs: seq<Input>, h: Header)
    requires AllWhole(inputs)
    ensures Receive(buffer, inputs, h).outcome == Success <==> exists k :: AnsweredAt(inputs, h, k)
  {
    var k := FirstDecides(buffer, inputs, h);
    forall i | 0 <= i < k ensures Ignored(inputs[i], h) {
      PassesExactly(Mixed(buffer, inputs[..i]), inputs[i], h);
    }
    if k < |inputs| {
      var m := Mixed(buffer, inputs[..k]);
      PassesExactly(m, inputs[k], h);
      if inputs[k].Frame? {
        AnswersExactly(m, inputs[k].bytes, h);
      }
    }
    if j :| AnsweredAt(inputs, h, j) {
      AtMostOneFirst(inputs, h, j, k);
    }
    if Receive(buffer, inputs, h).outcome == Success {
      assert AnsweredAt(inputs, h, k);
    }
  }

  /** The bytes of the last frame that is read: that of the first input that is not ignored, or else the
      last one before it. Nothing is read from other inputs. */
  function LastHeard(inputs: seq<Input>, h: Header): (bytes: seq<Byte>)
    ensures |bytes| <= SIZE
  {
    if inputs == [] then []
    else
      var own := if inputs[0].Frame? then inputs[0].bytes else [];
      var later := if Ignored(inputs[0], h) then LastHeard(inputs[1..], h) else [];
      if later == [] then own else later
  }

  /** Among whole messages the buffer ends with the last one heard, or is as it was. */
  lemma {:induction false} BufferIsLastHeard(buffer: Message, inputs: seq<Input>, h: Header)
    requires AllWhole(inputs)
    ensures var heard, r := LastHeard(inputs, h), Receive(buffer, inputs, h).buffer;
            if heard == [] then r == buffer else |heard| >= 6 && heard <= r
    decreases |inputs|
  {
    if inputs != [] {
      PassesExactly(buffer, inputs[0], h);
      var next := if inputs[0].Frame? then Overlaid(buffer, inputs[0].bytes) else buffer;
      if Ignored(inputs[0], h) {
        assert AllWhole(inputs[1..]);
        BufferIsLastHeard(next, inputs[1..], h);
      }
    }
  }

  /** Whether an error message was the last one heard, whoever sent it and whatever it refuses. */
  predicate HearsError(inputs: seq<Input>, h: Header, code: Byte) {
    var heard := LastHeard(inputs, h);
    |heard| >= 6 && heard[0] == SHORT && heard[2] == ERROR_MESSAGE && heard[5] == code
  }

  /** Among whole messages the buffer ends with an error message of a code if and only if that was the last
      one heard, or nothing was and it was there before. */
  lemma LeavesErrorExactly(buffer: Message, inputs: seq<Input>, h: Header, code: Byte)
    requires AllWhole(inputs)
    ensures var r := Receive(buffer, inputs, h).buffer;
            IsError(r) && ErrorCode(r) == code <==>
              HearsError(inputs, h, code) || (LastHeard(inputs, h) == [] && IsError(buffer) && ErrorCode(buffer) == code)
  {
    BufferIsLastHeard(buffer, inputs, h);
    var heard, r := LastHeard(inputs, h), Receive(buffer, inputs, h).buffer;
    if heard != [] {
      assert r[0] == heard[0] && r[2] == heard[2] && r[5] == heard[5];
    }
  }

  /** A success leaves no error message in the buffer, unless the request was for that feature. */
  lemma SuccessIsNoError(buffer: Message, inputs: seq<Input>, h: Header)
    requires Receive(buffer, inputs, h).outcome == Success
    ensures Answers(Receive(buffer, inputs, h).buffer, h)
    ensures h.feature != ERROR_MESSAGE ==> !IsError(Receive(buffer, inputs, h).buffer)
  {
    var k := FirstDecides(buffer, inputs, h);
  }
}

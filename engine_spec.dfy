/**
  The protocol engine of src/lib.rs as values: every `Esp8266` operation is a function from the
  state of the driver and its fake capabilities (a `Device`) to the new state and the result.
  These functions are the specification the methods of `Driver.Esp8266` are proved against.
*/
module EngineSpec {
  import opened Wrappers
  import opened Bytes
  import opened Timing
  import opened DecimalText
  import Matcher

  /** `serial::Error<Rx::Error>`: the scan timed out, or the receiver failed with a code. */
  datatype SerialError = TimedOut | ReadFailed(code: int)

  /** `Error<R, T, P>`, with the pin and transmitter errors fixed to integer codes. */
  datatype Error =
    | TxError(txCode: int)
    | RxError(rx: SerialError)
    | PinError(pinCode: int)
    | UnexpectedResponse(response: Matcher.ATResponse)
    | Fmt
    | Capacity

  /** The phase of `send_data` an error came from. */
  datatype TransmissionStep = Connect | Send | Close

  datatype TransmissionError = TransmissionError(step: TransmissionStep, cause: Error)

  /** `TransmissionError::try_step`: success passes through untouched, an error is tagged with the phase. */
  function TryStep<T>(step: TransmissionStep, cause: Result<T, Error>): (r: Result<T, TransmissionError>)
    ensures r.Ok? <==> cause.Ok?
    ensures r.Ok? ==> r.value == cause.value
    ensures r.Err? ==> r.error.step == step && r.error.cause == cause.error
  {
    match cause
    case Ok(v) => Ok(v)
    case Err(e) => Err(TransmissionError(step, e))
  }

  datatype ConnectionType = Tcp | Udp {
    /** `ConnectionType::as_str`: the protocol name CIPSTART expects. */
    function AsStr(): (s: seq<Byte>)
      ensures |s| == 3
      ensures s == Ascii("TCP") <==> this == Tcp
      ensures s == Ascii("UDP") <==> this == Udp
    {
      assert Ascii("TCP")[0] != Ascii("UDP")[0];
      match this
      case Tcp => Ascii("TCP")
      case Udp => Ascii("UDP")
    }
  }

  const STARTUP_TIMEOUT: Second := Second(10)
  const DEFAULT_TIMEOUT: Second := Second(5)
  /** The settle time of `reset` and the pulse of `pull_some_current`. */
  const RESET_DELAY: Millisecond := Millisecond(10)
  const CURRENT_PULSE: Millisecond := Millisecond(500)
  /** Scan buffer of `wait_for_prompt`. */
  const PROMPT_BUFFER_SIZE: nat := 1
  /** Capacity of the port text: the length of the biggest `u16`. */
  const PORT_STRING_LENGTH: nat := 5
  /** Capacity of the payload-length text. */
  const LENGTH_STRING_LENGTH: nat := 4
  /** The module takes fewer than this many bytes per packet. */
  const MAX_PACKET_LENGTH: nat := 2048

  const AT: seq<Byte> := Ascii("AT")
  const CRLF: seq<Byte> := Ascii("\r\n")
  const CIPSTART: seq<Byte> := Ascii("AT+CIPSTART=\"")
  const QUOTE_COMMA_QUOTE: seq<Byte> := Ascii("\",\"")
  const QUOTE_COMMA: seq<Byte> := Ascii("\",")
  const CIPSEND: seq<Byte> := Ascii("AT+CIPSEND=")
  const CIPCLOSE_COMMAND: seq<Byte> := Ascii("+CIPCLOSE")
  const ECHO_OFF_COMMAND: seq<Byte> := Ascii("E0")

  /** What the fakes observed, in order. */
  datatype Event =
    | PinDriven(high: bool)                          // chip-enable set
    | Sent(bytes: seq<Byte>)                         // one successful `send_raw`
    | Scanned(capacity: nat, timeout: Millisecond)   // one `read_until_message`
    | Delayed(duration: Millisecond)                 // the engine waited out the timer

  /**
    What the next `read_until_message` ends with: the scan buffer and offset at which the
    classifier stopped it, or a receive error.
  */
  datatype Reply = Settled(ring: seq<Byte>, offset: nat) | Failed(error: SerialError)

  /**
    The driver with its fakes: the observation trace, the level of the chip-enable pin, the
    pin's script (one entry per level change still to come: the code that change fails with, or
    None for one that succeeds), the transmitter's script (likewise, one entry per `write_all`),
    and the replies the receiver has still to deliver. Once a script is used up, every later
    call succeeds.
  */
  datatype Device = Device(
    trace: seq<Event>,
    pinHigh: bool,
    pinScript: seq<Option<int>>,
    txScript: seq<Option<int>>,
    replies: seq<Reply>)

  /** The state after an operation and its result. */
  datatype Step<+E> = Step(dev: Device, result: Result<(), E>)

  /** The bytes an event put on the wire. */
  function SentBytes(e: Event): seq<Byte>
  {
    match e
    case Sent(b) => b
    case _ => []
  }

  /** The bytes that went out over the serial link, in order. */
  function Transmitted(trace: seq<Event>): seq<Byte>
  {
    if trace == [] then [] else Transmitted(trace[..|trace| - 1]) + SentBytes(trace[|trace| - 1])
  }

  /**
    The chip-enable pin set high or low. The change uses one entry of the pin's script; a
    failing change leaves the level and the trace as they were.
  */
  function SetPin(d: Device, high: bool): (r: Step<Error>)
    ensures NextFault(d.pinScript).Some? ==>
      r == Step(d.(pinScript := Consume(d.pinScript)), Err(PinError(NextFault(d.pinScript).value)))
    ensures NextFault(d.pinScript).None? ==> r.result.Ok? && r.dev.pinHigh == high && r.dev.trace == d.trace + [PinDriven(high)]
    ensures r.dev.pinScript == Consume(d.pinScript) && r.dev.txScript == d.txScript && r.dev.replies == d.replies
  {
    var used := d.(pinScript := Consume(d.pinScript));
    match NextFault(d.pinScript)
    case Some(code) => Step(used, Err(PinError(code)))
    case None => Step(used.(pinHigh := high, trace := d.trace + [PinDriven(high)]), Ok(()))
  }

  /** `power_down`. */
  function PowerDown(d: Device): (r: Step<Error>)
    ensures r.result.Ok? ==> !r.dev.pinHigh
    ensures r.result.Err? ==> r.dev == d.(pinScript := Consume(d.pinScript)) && r.result.error.PinError?
  {
    SetPin(d, false)
  }

  /** The fault of the next `write_all` or pin change, if the script gives it one. */
  function NextFault(script: seq<Option<int>>): Option<int>
  {
    if script == [] then None else script[0]
  }

  /**
    A script (of pin-change faults, write faults or scanner replies) once its next entry has been used; an
    exhausted script stays empty.
  */
  function Consume<T>(script: seq<T>): seq<T>
  {
    if script == [] then [] else script[1..]
  }

  /** A script once its next `k` entries have been used. */
  function Skip<T>(script: seq<T>, k: nat): seq<T>
  {
    if k <= |script| then script[k..] else []
  }

  /** Which of the next `n` writes is the first to fail, or `n` when all of them succeed. */
  function FirstFault(script: seq<Option<int>>, n: nat): (k: nat)
    ensures k <= n
    ensures k < n ==> k < |script| && script[k].Some?
    ensures forall j :: 0 <= j < k && j < |script| ==> script[j].None?
  {
    if n == 0 || NextFault(script).Some? then 0 else 1 + FirstFault(Consume(script), n - 1)
  }

  /** With nothing scripted, every write succeeds. */
  lemma {:induction false} NoFaultScripted(n: nat)
    ensures FirstFault([], n) == n
  {
    if n > 0 {
      NoFaultScripted(n - 1);
    }
  }

  lemma SkipConsume<T>(script: seq<T>, k: nat)
    ensures Skip(Consume(script), k) == Skip(script, k + 1)
    ensures Skip(script, 0) == script && Skip(script, 1) == Consume(script)
  {
  }

  /**
    `send_raw`: one `write_all`, which uses the transmitter's next script entry; a transmitter
    failure becomes `TxError` and nothing is recorded as sent.
  */
  function SendRaw(d: Device, bytes: seq<Byte>): (r: Step<Error>)
    ensures r.dev.pinHigh == d.pinHigh && r.dev.pinScript == d.pinScript && r.dev.replies == d.replies
    ensures r.dev.txScript == Consume(d.txScript)
    ensures r.result.Ok? <==> NextFault(d.txScript).None?
    ensures r.result.Err? ==> r.result.error == TxError(NextFault(d.txScript).value) && r.dev.trace == d.trace
    ensures r.result.Ok? ==> r.dev.trace == d.trace + [Sent(bytes)]
  {
    var used := d.(txScript := Consume(d.txScript));
    match NextFault(d.txScript)
    case Some(code) => Step(used, Err(TxError(code)))
    case None => Step(used.(trace := d.trace + [Sent(bytes)]), Ok(()))
  }

  /** Consecutive `send_raw` calls joined by `?`: the first failure ends the sequence. */
  function SendAll(d: Device, chunks: seq<seq<Byte>>): (r: Step<Error>)
    ensures r.dev.pinHigh == d.pinHigh && r.dev.pinScript == d.pinScript && r.dev.replies == d.replies
    ensures r.result.Err? ==> r.result.error.TxError?
    ensures |d.trace| <= |r.dev.trace| <= |d.trace| + |chunks|
    decreases |chunks|
  {
    if chunks == [] then Step(d, Ok(()))
    else
      var s := SendRaw(d, chunks[0]);
      if s.result.Err? then s else SendAll(s.dev, chunks[1..])
  }

  /** One `Sent` event per chunk. */
  function SentEvents(chunks: seq<seq<Byte>>): (events: seq<Event>)
    ensures |events| == |chunks|
    ensures forall i :: 0 <= i < |chunks| ==> events[i] == Sent(chunks[i])
  {
    seq(|chunks|, i requires 0 <= i < |chunks| => Sent(chunks[i]))
  }

  /** The state after the first chunk went out and then `sent` did, with `used` more entries. */
  lemma AfterFirstWrite(d: Device, first: seq<Byte>, sent: seq<seq<Byte>>, used: nat)
    ensures var after := d.(trace := d.trace + [Sent(first)], txScript := Consume(d.txScript));
      after.(trace := after.trace + SentEvents(sent), txScript := Skip(Consume(d.txScript), used))
      == d.(trace := d.trace + SentEvents([first] + sent), txScript := Skip(d.txScript, used + 1))
  {
    assert SentEvents([first] + sent) == [Sent(first)] + SentEvents(sent);
    SkipConsume(d.txScript, used);
  }

  /**
    A run of writes stops at its first failing chunk `k` with that write's error, having
    recorded the `k` chunks before it and used `k + 1` script entries; when no chunk fails it
    records every chunk in order. Nothing but the trace and the script changes.
  */
  lemma SendAllClosedForm(d: Device, chunks: seq<seq<Byte>>)
    ensures var k := FirstFault(d.txScript, |chunks|);
      SendAll(d, chunks) ==
        if k < |chunks| then
          Step(d.(trace := d.trace + SentEvents(chunks[..k]), txScript := Skip(d.txScript, k + 1)),
               Err(TxError(d.txScript[k].value)))
        else Step(d.(trace := d.trace + SentEvents(chunks), txScript := Skip(d.txScript, |chunks|)), Ok(()))
  {
    if FirstFault(d.txScript, |chunks|) < |chunks| {
      SendAllStopsAtFault(d, chunks);
    } else {
      SendAllWithoutFault(d, chunks);
    }
  }

  lemma {:induction false} SendAllStopsAtFault(d: Device, chunks: seq<seq<Byte>>)
    requires FirstFault(d.txScript, |chunks|) < |chunks|
    ensures var k := FirstFault(d.txScript, |chunks|);
      SendAll(d, chunks) ==
        Step(d.(trace := d.trace + SentEvents(chunks[..k]), txScript := Skip(d.txScript, k + 1)),
             Err(TxError(d.txScript[k].value)))
    decreases |chunks|
  {
    var script := d.txScript;
    SkipConsume(script, 0);
    if NextFault(script).Some? {
      assert d.trace + SentEvents(chunks[..0]) == d.trace;
    } else {
      var rest := chunks[1..];
      var after := d.(trace := d.trace + [Sent(chunks[0])], txScript := Consume(script));
      assert SendAll(d, chunks) == SendAll(after, rest);
      var k' := FirstFault(Consume(script), |rest|);
      assert FirstFault(script, |chunks|) == k' + 1;
      SendAllStopsAtFault(after, rest);
      assert script[k' + 1] == Consume(script)[k'];
      assert after.(trace := after.trace + SentEvents(rest[..k']), txScript := Skip(Consume(script), k' + 1))
          == d.(trace := d.trace + SentEvents(chunks[..k' + 1]), txScript := Skip(script, k' + 2)) by {
        AfterFirstWrite(d, chunks[0], rest[..k'], k' + 1);
        assert [chunks[0]] + rest[..k'] == chunks[..k' + 1];
      }
    }
  }

  lemma {:induction false} SendAllWithoutFault(d: Device, chunks: seq<seq<Byte>>)
    requires FirstFault(d.txScript, |chunks|) == |chunks|
    ensures SendAll(d, chunks) ==
      Step(d.(trace := d.trace + SentEvents(chunks), txScript := Skip(d.txScript, |chunks|)), Ok(()))
    decreases |chunks|
  {
    var script := d.txScript;
    SkipConsume(script, 0);
    if chunks == [] {
      assert d.trace + SentEvents(chunks) == d.trace;
    } else {
      var rest := chunks[1..];
      var after := d.(trace := d.trace + [Sent(chunks[0])], txScript := Consume(script));
      assert SendAll(d, chunks) == SendAll(after, rest);
      SendAllWithoutFault(after, rest);
      AfterFirstWrite(d, chunks[0], rest, |rest|);
      assert [chunks[0]] + rest == chunks;
    }
  }

  /** `send_at_command`. */
  function SendAtCommand(d: Device, command: seq<Byte>): (r: Step<Error>)
    ensures r.dev.pinHigh == d.pinHigh && r.dev.pinScript == d.pinScript && r.dev.replies == d.replies
    ensures r.result.Err? ==> r.result.error.TxError?
    ensures |r.dev.trace| <= |d.trace| + 3
  {
    SendAll(d, [AT, command, CRLF])
  }

  /**
    The outcome of `read_until_message` as the call sites see it: the value the classifier
    returned for the buffer the scan stopped at, or the receive error. A scan whose buffer has
    the wrong size or is not recognised, or for which no reply is left, ran out of time.
  */
  function ScanResult<T>(replies: seq<Reply>, capacity: nat, classify: (seq<Byte>, nat) -> Option<T>): Result<T, SerialError>
  {
    if replies == [] then Err(TimedOut)
    else match replies[0]
      case Failed(e) => Err(e)
      case Settled(ring, offset) =>
        var v := classify(ring, offset);
        if |ring| == capacity && v.Some? then Ok(v.value) else Err(TimedOut)
  }

  /**
    A scan succeeds exactly when the next reply is a settled buffer of the scan's capacity
    that the classifier accepts, and then yields the classifier's value; a receive failure
    passes through; anything else is a timeout.
  */
  lemma ScanOutcome<T>(replies: seq<Reply>, capacity: nat, classify: (seq<Byte>, nat) -> Option<T>)
    ensures var r := ScanResult(replies, capacity, classify);
      && (r.Ok? <==> replies != [] && replies[0].Settled? && |replies[0].ring| == capacity
                     && classify(replies[0].ring, replies[0].offset).Some?)
      && (r.Ok? ==> classify(replies[0].ring, replies[0].offset) == Some(r.value))
      && (replies != [] && replies[0].Failed? ==> r == Err(replies[0].error))
      && (r.Err? && (replies == [] || replies[0].Settled?) ==> r.error == TimedOut)
  {
  }

  /** The state after one scan: the scan is observed and its reply consumed. */
  function AfterScan(d: Device, capacity: nat, timeout: Millisecond): Device
  {
    d.(trace := d.trace + [Scanned(capacity, timeout)], replies := Consume(d.replies))
  }

  /**
    What `wait_for_at_response` makes of the scan: success for the expected response, the
    response actually seen otherwise, or the receive error.
  */
  function AtResponseResult(replies: seq<Reply>, expected: Matcher.ATResponse): Result<(), Error>
  {
    match ScanResult(replies, Matcher.AT_RESPONSE_BUFFER_SIZE, Matcher.ParseAtResponse)
    case Ok(response) => if response == expected then Ok(()) else Err(UnexpectedResponse(response))
    case Err(e) => Err(RxError(e))
  }

  /** `wait_for_at_response`: a 13-byte scan classified by `parse_at_response`. */
  function WaitForAtResponse(d: Device, expected: Matcher.ATResponse, timeout: Millisecond): (r: Step<Error>)
    ensures r.dev.trace == d.trace + [Scanned(Matcher.AT_RESPONSE_BUFFER_SIZE, timeout)] && r.dev.replies == Consume(d.replies)
    ensures r.dev.pinHigh == d.pinHigh && r.dev.pinScript == d.pinScript && r.dev.txScript == d.txScript
    ensures r.result.Ok? <==> ScanResult(d.replies, Matcher.AT_RESPONSE_BUFFER_SIZE, Matcher.ParseAtResponse) == Ok(expected)
    ensures r.result.Err? ==>
      r.result.error.RxError? || (r.result.error.UnexpectedResponse? && r.result.error.response != expected)
  {
    Step(AfterScan(d, Matcher.AT_RESPONSE_BUFFER_SIZE, timeout), AtResponseResult(d.replies, expected))
  }

  function WaitForOk(d: Device, timeout: Millisecond): Step<Error>
  {
    WaitForAtResponse(d, Matcher.ATResponse.Ok, timeout)
  }

  function WaitForGotIp(d: Device, timeout: Millisecond): Step<Error>
  {
    WaitForAtResponse(d, Matcher.ATResponse.WiFiGotIp, timeout)
  }

  /** What `wait_for_prompt` makes of the scan: success once `>` is seen, or the receive error. */
  function PromptResult(replies: seq<Reply>): Result<(), Error>
  {
    match ScanResult(replies, PROMPT_BUFFER_SIZE, Matcher.PromptSeen)
    case Ok(_) => Ok(())
    case Err(e) => Err(RxError(e))
  }

  /** `wait_for_prompt`: a 1-byte scan that stops at `>`. */
  function WaitForPrompt(d: Device, timeout: Millisecond): (r: Step<Error>)
    ensures r.dev.trace == d.trace + [Scanned(PROMPT_BUFFER_SIZE, timeout)] && r.dev.replies == Consume(d.replies)
    ensures r.dev.pinHigh == d.pinHigh && r.dev.pinScript == d.pinScript && r.dev.txScript == d.txScript
    ensures r.result.Ok? <==> ScanResult(d.replies, PROMPT_BUFFER_SIZE, Matcher.PromptSeen).Ok?
    ensures r.result.Err? ==> r.result.error.RxError?
  {
    Step(AfterScan(d, PROMPT_BUFFER_SIZE, timeout), PromptResult(d.replies))
  }

  /** The pieces of the CIPSTART command, one per `send_raw`. */
  function CipStartChunks(connectionType: ConnectionType, address: seq<Byte>, portText: seq<Byte>): seq<seq<Byte>>
  {
    [CIPSTART, connectionType.AsStr(), QUOTE_COMMA_QUOTE, address, QUOTE_COMMA, portText, CRLF]
  }

  /** `start_tcp_connection`: render the port, send CIPSTART, require `OK`. */
  function StartTcpConnection(d: Device, connectionType: ConnectionType, address: seq<Byte>, port: U16): (r: Step<Error>)
    ensures r.dev.pinHigh == d.pinHigh && r.dev.pinScript == d.pinScript
    ensures r.result.Err? ==> r.result.error.TxError? || r.result.error.RxError? || r.result.error.UnexpectedResponse?
    ensures r.result.Ok? ==> d.replies != [] && r.dev.replies == d.replies[1..]
  {
    PortAlwaysFits(port);
    match RenderInto(port, PORT_STRING_LENGTH)
    case None => Step(d, Err(Fmt))
    case Some(portText) =>
      var s := SendAll(d, CipStartChunks(connectionType, address, portText));
      if s.result.Err? then s else WaitForOk(s.dev, ToMillisecond(DEFAULT_TIMEOUT))
  }

  /** `start_transmission`: announce the payload length with CIPSEND. */
  function StartTransmission(d: Device, length: nat): (r: Step<Error>)
    requires length < MAX_PACKET_LENGTH
    ensures r.dev.pinHigh == d.pinHigh && r.dev.pinScript == d.pinScript && r.dev.replies == d.replies
    ensures r.result.Err? ==> r.result.error.TxError?
  {
    LengthAlwaysFits(length);
    match RenderInto(length, LENGTH_STRING_LENGTH)
    case None => Step(d, Err(Fmt))
    case Some(lengthText) => SendAll(d, [CIPSEND, lengthText, CRLF])
  }

  /** `transmit_data`: CIPSEND, the `>` prompt, the payload, `OK`. */
  function TransmitData(d: Device, data: seq<Byte>): (r: Step<Error>)
    requires |data| < MAX_PACKET_LENGTH
    ensures r.dev.pinHigh == d.pinHigh && r.dev.pinScript == d.pinScript
    ensures r.result.Err? ==> r.result.error.TxError? || r.result.error.RxError? || r.result.error.UnexpectedResponse?
    ensures r.result.Ok? ==> |d.replies| >= 2 && r.dev.replies == d.replies[2..]
  {
    var announce := StartTransmission(d, |data|);
    if announce.result.Err? then announce else
    var prompt := WaitForPrompt(announce.dev, ToMillisecond(DEFAULT_TIMEOUT));
    if prompt.result.Err? then prompt else
    var payload := SendRaw(prompt.dev, data);
    if payload.result.Err? then payload else
    WaitForOk(payload.dev, ToMillisecond(DEFAULT_TIMEOUT))
  }

  /** `close_connection`. */
  function CloseConnection(d: Device): (r: Step<Error>)
    ensures r.dev.pinHigh == d.pinHigh && r.dev.pinScript == d.pinScript
    ensures r.result.Err? ==> r.result.error.TxError? || r.result.error.RxError? || r.result.error.UnexpectedResponse?
    ensures r.result.Ok? ==> d.replies != [] && r.dev.replies == d.replies[1..]
  {
    var s := SendAtCommand(d, CIPCLOSE_COMMAND);
    if s.result.Err? then s else WaitForOk(s.dev, ToMillisecond(DEFAULT_TIMEOUT))
  }

  /** `send_data`: connect, send, close, each error tagged with its phase by `try_step`. */
  function SendData(d: Device, connectionType: ConnectionType, address: seq<Byte>, port: U16, data: seq<Byte>): (r: Step<TransmissionError>)
    requires |data| < MAX_PACKET_LENGTH
    ensures r.dev.pinHigh == d.pinHigh && r.dev.pinScript == d.pinScript
    ensures r.result.Err? ==>
      var cause := r.result.error.cause;
      cause.TxError? || cause.RxError? || cause.UnexpectedResponse?
    ensures r.result.Ok? ==> |d.replies| >= 4 && r.dev.replies == d.replies[4..]
  {
    var connect := StartTcpConnection(d, connectionType, address, port);
    match TryStep(Connect, connect.result)
    case Err(e) => Step(connect.dev, Err(e))
    case Ok(_) =>
      var send := TransmitData(connect.dev, data);
      match TryStep(Send, send.result)
      case Err(e) => Step(send.dev, Err(e))
      case Ok(_) =>
        var close := CloseConnection(send.dev);
        Step(close.dev, TryStep(Close, close.result))
  }

  /** A got-IP wait that ends the retry loop of `power_up` (success or a timeout) rather than being retried. */
  predicate EndsRetries(r: Result<(), Error>)
  {
    r.Ok? || r.error == RxError(TimedOut)
  }

  /**
    The retry loop of `power_up` from error count `errorCount`: wait for `WIFI GOT IP`; stop on
    success, on a timeout, or when the count has reached 255; otherwise count the error and retry.
  */
  function AwaitGotIp(d: Device, errorCount: nat): (r: Step<Error>)
    requires errorCount <= 255
    ensures r.dev.pinHigh == d.pinHigh && r.dev.pinScript == d.pinScript && r.dev.txScript == d.txScript
    ensures |d.trace| < |r.dev.trace| <= |d.trace| + 256 - errorCount
    ensures r.result.Err? ==> r.result.error.RxError? || r.result.error.UnexpectedResponse?
    decreases 255 - errorCount
  {
    var s := WaitForGotIp(d, ToMillisecond(STARTUP_TIMEOUT));
    if EndsRetries(s.result) || errorCount == 255 then s else AwaitGotIp(s.dev, errorCount + 1)
  }

  /** `power_up`: pin high, the got-IP retry loop, then echo off (`ATE0`) and `OK`. */
  function PowerUp(d: Device): (r: Step<Error>)
    ensures NextFault(d.pinScript).Some? ==>
      r == Step(d.(pinScript := Consume(d.pinScript)), Err(PinError(NextFault(d.pinScript).value)))
    ensures NextFault(d.pinScript).None? ==>
      r.dev.pinHigh && r.dev.pinScript == Consume(d.pinScript) && (r.result.Err? ==> !r.result.error.PinError?)
  {
    var pin := SetPin(d, true);
    if pin.result.Err? then pin else
    var gotIp := AwaitGotIp(pin.dev, 0);
    if gotIp.result.Err? then gotIp else EchoOff(gotIp.dev)
  }

  /** The tail of `power_up` once got-IP was seen: send `ATE0`, then wait for `OK`. */
  function EchoOff(d: Device): (r: Step<Error>)
    ensures r.dev.pinHigh == d.pinHigh && r.dev.pinScript == d.pinScript
    ensures r.result.Err? ==> r.result.error.TxError? || r.result.error.RxError? || r.result.error.UnexpectedResponse?
    ensures r.result.Ok? ==> d.replies != [] && r.dev.replies == d.replies[1..]
  {
    var echoOff := SendAtCommand(d, ECHO_OFF_COMMAND);
    if echoOff.result.Err? then echoOff else WaitForOk(echoOff.dev, ToMillisecond(DEFAULT_TIMEOUT))
  }

  /**
    `reset`: pin low, wait out the 10 ms settle time, power up. The pin can fail on either
    change: on the first nothing else happens; on the second the pin stays low after the delay.
  */
  function Reset(d: Device): (r: Step<Error>)
    ensures NextFault(d.pinScript).Some? ==>
      r == Step(d.(pinScript := Consume(d.pinScript)), Err(PinError(NextFault(d.pinScript).value)))
    ensures NextFault(d.pinScript).None? && NextFault(Consume(d.pinScript)).Some? ==>
      r == Step(d.(pinHigh := false, trace := d.trace + [PinDriven(false), Delayed(RESET_DELAY)],
                   pinScript := Consume(Consume(d.pinScript))),
                Err(PinError(NextFault(Consume(d.pinScript)).value)))
    ensures NextFault(d.pinScript).None? && NextFault(Consume(d.pinScript)).None? ==>
      r.dev.pinHigh && r.dev.pinScript == Consume(Consume(d.pinScript)) && (r.result.Err? ==> !r.result.error.PinError?)
  {
    var down := PowerDown(d);
    if down.result.Err? then down else
    PowerUp(down.dev.(trace := down.dev.trace + [Delayed(RESET_DELAY)]))
  }

  /**
    `pull_some_current`: pin high, wait 500 ms, pin low. If the pin fails on the second change
    it is left high after the pulse.
  */
  function PullSomeCurrent(d: Device): (r: Step<Error>)
    ensures NextFault(d.pinScript).Some? ==>
      r == Step(d.(pinScript := Consume(d.pinScript)), Err(PinError(NextFault(d.pinScript).value)))
    ensures NextFault(d.pinScript).None? && NextFault(Consume(d.pinScript)).Some? ==>
      r == Step(d.(pinHigh := true, trace := d.trace + [PinDriven(true), Delayed(CURRENT_PULSE)],
                   pinScript := Consume(Consume(d.pinScript))),
                Err(PinError(NextFault(Consume(d.pinScript)).value)))
    ensures NextFault(d.pinScript).None? && NextFault(Consume(d.pinScript)).None? ==>
      r.result.Ok? && !r.dev.pinHigh && r.dev.pinScript == Consume(Consume(d.pinScript)) &&
      r.dev.trace == d.trace + [PinDriven(true), Delayed(CURRENT_PULSE), PinDriven(false)]
    ensures r.dev.txScript == d.txScript && r.dev.replies == d.replies
  {
    var up := SetPin(d, true);
    if up.result.Err? then up else
    SetPin(up.dev.(trace := up.dev.trace + [Delayed(CURRENT_PULSE)]), false)
  }
}

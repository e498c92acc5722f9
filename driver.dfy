/**
  The stateful `Esp8266` driver of src/lib.rs. Its capabilities are fakes: the chip-enable pin
  records what it does in `trace` and follows a script of per-change failures (`pinScript`);
  the transmitter records what it writes and follows a script of per-write failures
  (`txScript`); the receiver hands the scanner pre-scripted `replies`; the timer is a
  `CountdownTimer`.
  Every engine method is proved to do what the function of the same name in EngineSpec says.
*/
module Driver {
  import opened Wrappers
  import opened Bytes
  import opened Timing
  import opened DecimalText
  import opened EngineSpec
  import Matcher

  class Esp8266 {
    var trace: seq<Event>
    var pinHigh: bool
    var pinScript: seq<Option<int>>
    var txScript: seq<Option<int>>
    var replies: seq<Reply>
    const timer: CountdownTimer

    /** The driver and its fakes as a value. */
    function Model(): Device
      reads this
    {
      Device(trace, pinHigh, pinScript, txScript, replies)
    }

    /** The struct literal of `new`: the driver takes its capabilities over, nothing is done yet. */
    constructor Assemble(timer: CountdownTimer, pinHigh: bool, pinScript: seq<Option<int>>, txScript: seq<Option<int>>, replies: seq<Reply>)
      ensures Model() == Device([], pinHigh, pinScript, txScript, replies) && this.timer == timer
    {
      this.trace := [];
      this.pinHigh := pinHigh;
      this.pinScript := pinScript;
      this.txScript := txScript;
      this.replies := replies;
      this.timer := timer;
    }

    /**
      `Esp8266::new`: the driver is returned only after `reset` has succeeded on it; otherwise
      reset's error is.
    */
    static method New(timer: CountdownTimer, pinHigh: bool, pinScript: seq<Option<int>>, txScript: seq<Option<int>>, replies: seq<Reply>)
      returns (r: Result<Esp8266, Error>)
      modifies timer
      ensures var s := EngineSpec.Reset(Device([], pinHigh, pinScript, txScript, replies));
        match r
        case Ok(driver) => s.result.Ok? && fresh(driver) && driver.Model() == s.dev && driver.timer == timer
        case Err(e) => s.result == Err(e)
    {
      var driver := new Esp8266.Assemble(timer, pinHigh, pinScript, txScript, replies);
      var reset := driver.Reset();
      match reset
      case Ok(_) => r := Ok(driver);
      case Err(e) => r := Err(e);
    }

    // The fake capabilities.

    /** `OutputPin::set_high` / `set_low` of the fake pin: the change uses the script's next entry. */
    method SetChipEnable(high: bool) returns (r: Result<(), int>)
      modifies this
      ensures r == match NextFault(old(pinScript)) case Some(code) => Err(code) case None => Ok(())
      ensures Model() == SetPin(old(Model()), high).dev
    {
      var fault := None;
      if pinScript != [] {
        fault := pinScript[0];
        pinScript := pinScript[1..];
      }
      match fault
      case Some(code) =>
        r := Err(code);
      case None =>
        pinHigh := high;
        trace := trace + [PinDriven(high)];
        r := Ok(());
    }

    /** `serial::write_all` on the fake transmitter: the write uses the script's next entry. */
    method WriteAll(bytes: seq<Byte>) returns (r: Result<(), int>)
      modifies this
      ensures r == match NextFault(old(txScript)) case Some(code) => Err(code) case None => Ok(())
      ensures Model() == EngineSpec.SendRaw(old(Model()), bytes).dev
    {
      var fault := None;
      if txScript != [] {
        fault := txScript[0];
        txScript := txScript[1..];
      }
      match fault
      case Some(code) =>
        r := Err(code);
      case None =>
        trace := trace + [Sent(bytes)];
        r := Ok(());
    }

    /**
      `serial::read_until_message` on the fake receiver: the scan is observed and ends with the
      next scripted reply.
    */
    method ReadUntilMessage<T>(timeout: Millisecond, capacity: nat, classify: (seq<Byte>, nat) -> Option<T>)
      returns (r: Result<T, SerialError>)
      modifies this
      ensures r == ScanResult(old(replies), capacity, classify)
      ensures Model() == AfterScan(old(Model()), capacity, timeout)
    {
      r := ScanResult(replies, capacity, classify);
      trace := trace + [Scanned(capacity, timeout)];
      if replies != [] {
        replies := replies[1..];
      }
    }

    // The engine.

    method SendRaw(bytes: seq<Byte>) returns (r: Result<(), Error>)
      modifies this
      ensures Step(Model(), r) == EngineSpec.SendRaw(old(Model()), bytes)
    {
      var written := WriteAll(bytes);
      match written
      case Ok(_) => r := Ok(());
      case Err(e) => r := Err(TxError(e));
    }

    /** A run of `send_raw(..)?` calls: the chunks are written in order until one write fails. */
    method SendAll(chunks: seq<seq<Byte>>) returns (r: Result<(), Error>)
      modifies this
      ensures Step(Model(), r) == EngineSpec.SendAll(old(Model()), chunks)
      decreases |chunks|
    {
      if chunks == [] {
        return Ok(());
      }
      r := SendRaw(chunks[0]);
      if r.Err? {
        return;
      }
      r := SendAll(chunks[1..]);
    }

    method PowerDown() returns (r: Result<(), Error>)
      modifies this
      ensures Step(Model(), r) == EngineSpec.PowerDown(old(Model()))
    {
      var driven := SetChipEnable(false);
      match driven
      case Ok(_) => r := Ok(());
      case Err(e) => r := Err(PinError(e));
    }

    method SendAtCommand(command: seq<Byte>) returns (r: Result<(), Error>)
      modifies this
      ensures Step(Model(), r) == EngineSpec.SendAtCommand(old(Model()), command)
    {
      r := SendAll([AT, command, CRLF]);
    }

    method WaitForAtResponse(expected: Matcher.ATResponse, timeout: Millisecond) returns (r: Result<(), Error>)
      modifies this
      ensures Step(Model(), r) == EngineSpec.WaitForAtResponse(old(Model()), expected, timeout)
    {
      var response := ReadUntilMessage(timeout, Matcher.AT_RESPONSE_BUFFER_SIZE, Matcher.ParseAtResponse);
      match response
      case Ok(actual) =>
        if actual == expected {
          r := Ok(());
        } else {
          r := Err(UnexpectedResponse(actual));
        }
      case Err(e) =>
        r := Err(RxError(e));
    }

    method WaitForOk(timeout: Millisecond) returns (r: Result<(), Error>)
      modifies this
      ensures Step(Model(), r) == EngineSpec.WaitForOk(old(Model()), timeout)
    {
      r := WaitForAtResponse(Matcher.ATResponse.Ok, timeout);
    }

    method WaitForGotIp(timeout: Millisecond) returns (r: Result<(), Error>)
      modifies this
      ensures Step(Model(), r) == EngineSpec.WaitForGotIp(old(Model()), timeout)
    {
      r := WaitForAtResponse(Matcher.ATResponse.WiFiGotIp, timeout);
    }

    method WaitForPrompt(timeout: Millisecond) returns (r: Result<(), Error>)
      modifies this
      ensures Step(Model(), r) == EngineSpec.WaitForPrompt(old(Model()), timeout)
    {
      var result := ReadUntilMessage(timeout, PROMPT_BUFFER_SIZE, Matcher.PromptSeen);
      match result
      case Ok(_) => r := Ok(());
      case Err(e) => r := Err(RxError(e));
    }

    method StartTcpConnection(connectionType: ConnectionType, address: seq<Byte>, port: U16) returns (r: Result<(), Error>)
      modifies this
      ensures Step(Model(), r) == EngineSpec.StartTcpConnection(old(Model()), connectionType, address, port)
    {
      var rendered := RenderInto(port, PORT_STRING_LENGTH);
      if rendered.None? {
        return Err(Fmt);
      }
      r := SendAll(CipStartChunks(connectionType, address, rendered.value));
      if r.Err? {
        return;
      }
      r := WaitForOk(ToMillisecond(DEFAULT_TIMEOUT));
    }

    method StartTransmission(length: nat) returns (r: Result<(), Error>)
      requires length < MAX_PACKET_LENGTH
      modifies this
      ensures Step(Model(), r) == EngineSpec.StartTransmission(old(Model()), length)
    {
      var rendered := RenderInto(length, LENGTH_STRING_LENGTH);
      if rendered.None? {
        return Err(Fmt);
      }
      var lengthText := rendered.value;
      r := SendAll([CIPSEND, lengthText, CRLF]);
    }

    method TransmitData(data: seq<Byte>) returns (r: Result<(), Error>)
      requires |data| < MAX_PACKET_LENGTH
      modifies this
      ensures Step(Model(), r) == EngineSpec.TransmitData(old(Model()), data)
    {
      r := StartTransmission(|data|);
      if r.Err? {
        return;
      }
      r := WaitForPrompt(ToMillisecond(DEFAULT_TIMEOUT));
      if r.Err? {
        return;
      }
      r := SendRaw(data);
      if r.Err? {
        return;
      }
      r := WaitForOk(ToMillisecond(DEFAULT_TIMEOUT));
    }

    method CloseConnection() returns (r: Result<(), Error>)
      modifies this
      ensures Step(Model(), r) == EngineSpec.CloseConnection(old(Model()))
    {
      r := SendAtCommand(CIPCLOSE_COMMAND);
      if r.Err? {
        return;
      }
      r := WaitForOk(ToMillisecond(DEFAULT_TIMEOUT));
    }

    method SendData(connectionType: ConnectionType, address: seq<Byte>, port: U16, data: seq<Byte>)
      returns (r: Result<(), TransmissionError>)
      requires |data| < MAX_PACKET_LENGTH
      modifies this
      ensures Step(Model(), r) == EngineSpec.SendData(old(Model()), connectionType, address, port, data)
    {
      var connect := StartTcpConnection(connectionType, address, port);
      r := TryStep(Connect, connect);
      if r.Err? {
        return;
      }
      var send := TransmitData(data);
      r := TryStep(Send, send);
      if r.Err? {
        return;
      }
      var close := CloseConnection();
      r := TryStep(Close, close);
    }

    method PowerUp() returns (r: Result<(), Error>)
      modifies this
      ensures Step(Model(), r) == EngineSpec.PowerUp(old(Model()))
    {
      var driven := SetChipEnable(true);
      if driven.Err? {
        return Err(PinError(driven.error));
      }
      ghost var start := Model();
      var errorCount := 0;
      while true
        invariant errorCount <= 255
        invariant AwaitGotIp(Model(), errorCount) == AwaitGotIp(start, 0)
        decreases 255 - errorCount
      {
        r := WaitForGotIp(ToMillisecond(STARTUP_TIMEOUT));
        if r.Ok? {
          break;
        }
        if r.error == RxError(TimedOut) {
          return;
        }
        if errorCount < 255 {
          errorCount := errorCount + 1;
          continue;
        }
        return;
      }
      r := SendAtCommand(ECHO_OFF_COMMAND);
      if r.Err? {
        return;
      }
      r := WaitForOk(ToMillisecond(DEFAULT_TIMEOUT));
    }

    /**
      `reset`. Besides the new state: the timer is started for the settle time and waited out
      exactly when the pin could be driven low, and is not touched otherwise.
    */
    method Reset() returns (r: Result<(), Error>)
      modifies this, timer
      ensures Step(Model(), r) == EngineSpec.Reset(old(Model()))
      ensures timer.starts == if NextFault(old(pinScript)).Some? then old(timer.starts) else old(timer.starts) + [RESET_DELAY]
      ensures NextFault(old(pinScript)).None? ==> timer.armed && timer.remaining == 0
    {
      r := PowerDown();
      if r.Err? {
        return;
      }
      timer.Start(RESET_DELAY);
      var _ := BlockOn(timer);
      trace := trace + [Delayed(RESET_DELAY)];
      r := PowerUp();
    }

    /** `pull_some_current`: a 500 ms pulse on the chip-enable pin. */
    method PullSomeCurrent() returns (r: Result<(), Error>)
      modifies this, timer
      ensures Step(Model(), r) == EngineSpec.PullSomeCurrent(old(Model()))
      ensures timer.starts == if NextFault(old(pinScript)).Some? then old(timer.starts) else old(timer.starts) + [CURRENT_PULSE]
    {
      var driven := SetChipEnable(true);
      if driven.Err? {
        return Err(PinError(driven.error));
      }
      timer.Start(CURRENT_PULSE);
      var _ := BlockOn(timer);
      trace := trace + [Delayed(CURRENT_PULSE)];
      driven := SetChipEnable(false);
      match driven
      case Ok(_) => r := Ok(());
      case Err(e) => r := Err(PinError(e));
    }
  }
}

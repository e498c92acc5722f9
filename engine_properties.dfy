/**
  What the protocol engine of src/lib.rs promises, proved about the functions of `EngineSpec`:
  the bytes each command puts on the wire, how a scan becomes a result, the phases of
  `send_data`, the retry policy of `power_up`, and the order of `reset`.
*/
module EngineProperties {
  import opened Wrappers
  import opened Bytes
  import opened Timing
  import opened DecimalText
  import opened EngineSpec
  import Matcher

  // ---------------------------------------------------------------------------------------
  // The transmit log
  // ---------------------------------------------------------------------------------------

  /** The chunks of a run of writes, joined. */
  function Concat(chunks: seq<seq<Byte>>): seq<Byte>
  {
    if chunks == [] then [] else Concat(chunks[..|chunks| - 1]) + chunks[|chunks| - 1]
  }

  /** One more event adds its bytes to the transmit log. */
  lemma TransmittedSnoc(t: seq<Event>, e: Event)
    ensures Transmitted(t + [e]) == Transmitted(t) + SentBytes(e)
  {
    assert (t + [e])[..|t|] == t;
  }

  /** The transmit log of two traces one after the other is the two logs one after the other. */
  lemma {:induction false} TransmittedAppend(t: seq<Event>, u: seq<Event>)
    ensures Transmitted(t + u) == Transmitted(t) + Transmitted(u)
    decreases |u|
  {
    if u == [] {
      assert t + u == t;
    } else {
      var u', e := u[..|u| - 1], u[|u| - 1];
      var tu := t + u;
      assert tu[..|tu| - 1] == t + u' && tu[|tu| - 1] == e;
      TransmittedAppend(t, u');
      var a, b, c := Transmitted(t), Transmitted(u'), SentBytes(e);
      assert Transmitted(u) == b + c by {
        assert u[..|u| - 1] == u';
      }
      calc {
        Transmitted(tu);
        (a + b) + c;
        { ConcatAssociative(a, b, c); }
        a + (b + c);
      }
    }
  }

  lemma ConcatAssociative(a: seq<Byte>, b: seq<Byte>, c: seq<Byte>)
    ensures (a + b) + c == a + (b + c)
  {
  }

  /** A run of successful writes puts its chunks on the wire, in order. */
  lemma {:induction false} TransmittedSentEvents(chunks: seq<seq<Byte>>)
    ensures Transmitted(SentEvents(chunks)) == Concat(chunks)
    decreases |chunks|
  {
    if chunks != [] {
      var n := |chunks|;
      assert SentEvents(chunks)[..n - 1] == SentEvents(chunks[..n - 1]);
      TransmittedSentEvents(chunks[..n - 1]);
    }
  }

  /** A scan, a pin change or a delay transmits nothing. */
  lemma QuietEvent(t: seq<Event>, e: Event)
    requires !e.Sent?
    ensures Transmitted(t + [e]) == Transmitted(t)
  {
    TransmittedSnoc(t, e);
  }

  lemma ConcatSnoc(chunks: seq<seq<Byte>>, c: seq<Byte>)
    ensures Concat(chunks + [c]) == Concat(chunks) + c
  {
    assert (chunks + [c])[..|chunks|] == chunks;
  }

  lemma Concat3(a: seq<Byte>, b: seq<Byte>, c: seq<Byte>)
    ensures Concat([a, b, c]) == a + b + c
  {
    ConcatSnoc([], a);
    assert [] + [a] == [a];
    ConcatSnoc([a], b);
    assert [a] + [b] == [a, b];
    ConcatSnoc([a, b], c);
    assert [a, b] + [c] == [a, b, c];
  }

  lemma Concat7(a: seq<Byte>, b: seq<Byte>, c: seq<Byte>, e: seq<Byte>, f: seq<Byte>, g: seq<Byte>, h: seq<Byte>)
    ensures Concat([a, b, c, e, f, g, h]) == a + b + c + e + f + g + h
  {
    Concat3(a, b, c);
    ConcatSnoc([a, b, c], e);
    assert [a, b, c] + [e] == [a, b, c, e];
    ConcatSnoc([a, b, c, e], f);
    assert [a, b, c, e] + [f] == [a, b, c, e, f];
    ConcatSnoc([a, b, c, e, f], g);
    assert [a, b, c, e, f] + [g] == [a, b, c, e, f, g];
    ConcatSnoc([a, b, c, e, f, g], h);
    assert [a, b, c, e, f, g] + [h] == [a, b, c, e, f, g, h];
  }

  /**
    A run of writes puts on the wire exactly the chunks before the first one whose write fails
    (all of them when none fails), reports that write's error if there is one, and changes
    nothing but the trace and the transmitter's script, of which it uses one entry per write
    attempted. With nothing scripted, every chunk goes out.
  */
  lemma SendAllOnTheWire(d: Device, chunks: seq<seq<Byte>>)
    ensures var s := SendAll(d, chunks);
      var k := FirstFault(d.txScript, |chunks|);
      && Transmitted(s.dev.trace) == Transmitted(d.trace) + Concat(chunks[..k])
      && (s.result.Ok? <==> k == |chunks|)
      && (k < |chunks| ==> s.result == Err(TxError(d.txScript[k].value)))
      && s.dev == d.(trace := s.dev.trace, txScript := Skip(d.txScript, if k < |chunks| then k + 1 else k))
      && (d.txScript == [] ==> k == |chunks| && s.dev.txScript == [])
  {
    SendAllClosedForm(d, chunks);
    NoFaultScripted(|chunks|);
    var k := FirstFault(d.txScript, |chunks|);
    assert chunks[..|chunks|] == chunks;
    TransmittedAppend(d.trace, SentEvents(chunks[..k]));
    TransmittedSentEvents(chunks[..k]);
  }

  /**
    `send_at_command(c)` writes `AT`, `c` and CR LF until a write fails: the parts before the
    failing one are on the wire and its error is returned; when none fails, exactly `AT`, `c`,
    CR LF went out.
  */
  lemma SendAtCommandOnTheWire(d: Device, command: seq<Byte>)
    ensures var s := SendAtCommand(d, command);
      var k := FirstFault(d.txScript, 3);
      && Transmitted(s.dev.trace) == Transmitted(d.trace) + Concat([AT, command, CRLF][..k])
      && (s.result.Ok? <==> k == 3)
      && (k < 3 ==> s.result == Err(TxError(d.txScript[k].value)))
      && (k == 3 ==> Transmitted(s.dev.trace) == Transmitted(d.trace) + AT + command + CRLF)
      && s.dev == d.(trace := s.dev.trace, txScript := Skip(d.txScript, if k < 3 then k + 1 else k))
      && (d.txScript == [] ==> k == 3 && s.dev.txScript == [])
  {
    var chunks := [AT, command, CRLF];
    SendAllOnTheWire(d, chunks);
    if FirstFault(d.txScript, 3) == 3 {
      AtCommandWritten(d, command);
    }
  }

  /** When its three writes succeed, `send_at_command(c)` writes exactly `AT` ++ c ++ CR LF. */
  lemma AtCommandWritten(d: Device, command: seq<Byte>)
    requires FirstFault(d.txScript, 3) == 3
    ensures SendAtCommand(d, command).result.Ok?
    ensures Transmitted(SendAtCommand(d, command).dev.trace) == Transmitted(d.trace) + AT + command + CRLF
    ensures SendAtCommand(d, command).dev == d.(trace := SendAtCommand(d, command).dev.trace, txScript := Skip(d.txScript, 3))
  {
    var chunks := [AT, command, CRLF];
    SendAllOnTheWire(d, chunks);
    Concat3(AT, command, CRLF);
    assert chunks[..3] == chunks;
  }

  // ---------------------------------------------------------------------------------------
  // From a scan to a result
  // ---------------------------------------------------------------------------------------

  /** The scan the receiver delivers after the bytes `received`, in a buffer of `capacity` bytes. */
  function Delivered(capacity: nat, received: seq<Byte>): Reply
    requires capacity > 0
  {
    var r := Matcher.Fill(capacity, received);
    Settled(r.bytes, r.offset)
  }

  /**
    `wait_for_at_response(expected)` succeeds exactly when the bytes received end with the
    expected response, reports `UnexpectedResponse(seen)` exactly when they end with another
    response `seen`, and reports a timeout when they end with none.
  */
  lemma AtResponseOnReceivedBytes(received: seq<Byte>, later: seq<Reply>, expected: Matcher.ATResponse, seen: Matcher.ATResponse)
    ensures var r := AtResponseResult([Delivered(Matcher.AT_RESPONSE_BUFFER_SIZE, received)] + later, expected);
      && (r == Ok(()) <==> IsSuffix(Matcher.Pattern(expected), received))
      && (r == Err(UnexpectedResponse(seen)) <==> seen != expected && IsSuffix(Matcher.Pattern(seen), received))
      && (r == Err(RxError(TimedOut)) <==> forall q :: !IsSuffix(Matcher.Pattern(q), received))
      && (r.Ok? || r.error.UnexpectedResponse? || r.error == RxError(TimedOut))
  {
    var f := Matcher.Fill(Matcher.AT_RESPONSE_BUFFER_SIZE, received);
    var parsed := Matcher.ParseAtResponse(f.bytes, f.offset);
    AtResponseOfParsed(f.bytes, f.offset, later, expected);
    forall q ensures parsed == Some(q) <==> IsSuffix(Matcher.Pattern(q), received) {
      Matcher.ParseAfterReceiving(received, q);
    }
    WaitOutcomeOfParsed(parsed, received, expected, seen);
  }

  /** The response wait's outcome, given a classifier result that names exactly the pattern the bytes end with. */
  lemma WaitOutcomeOfParsed(parsed: Option<Matcher.ATResponse>, received: seq<Byte>, expected: Matcher.ATResponse, seen: Matcher.ATResponse)
    requires forall q :: parsed == Some(q) <==> IsSuffix(Matcher.Pattern(q), received)
    ensures var r := match parsed
        case None => Err(RxError(TimedOut))
        case Some(response) => if response == expected then Ok(()) else Err(UnexpectedResponse(response));
      && (r == Ok(()) <==> IsSuffix(Matcher.Pattern(expected), received))
      && (r == Err(UnexpectedResponse(seen)) <==> seen != expected && IsSuffix(Matcher.Pattern(seen), received))
      && (r == Err(RxError(TimedOut)) <==> forall q :: !IsSuffix(Matcher.Pattern(q), received))
      && (r.Ok? || r.error.UnexpectedResponse? || r.error == RxError(TimedOut))
  {
    if parsed.Some? {
      assert IsSuffix(Matcher.Pattern(parsed.value), received);
    }
  }

  /** On a full 13-byte scan, the response wait reports what `parse_at_response` makes of it. */
  lemma AtResponseOfParsed(ring: seq<Byte>, offset: nat, later: seq<Reply>, expected: Matcher.ATResponse)
    requires |ring| == Matcher.AT_RESPONSE_BUFFER_SIZE
    ensures AtResponseResult([Settled(ring, offset)] + later, expected) ==
      match Matcher.ParseAtResponse(ring, offset)
      case None => Err(RxError(TimedOut))
      case Some(response) => if response == expected then Ok(()) else Err(UnexpectedResponse(response))
  {
    assert ([Settled(ring, offset)] + later)[0] == Settled(ring, offset);
  }

  /** A receive error, or no reply at all, surfaces from any response wait as `RxError`. */
  lemma AtResponseOnReceiveError(replies: seq<Reply>, expected: Matcher.ATResponse)
    requires replies == [] || replies[0].Failed?
    ensures AtResponseResult(replies, expected) == Err(RxError(if replies == [] then TimedOut else replies[0].error))
  {
  }

  /**
    `wait_for_prompt` succeeds exactly when the last byte received is `>`, and otherwise reports
    a timeout.
  */
  lemma PromptOnReceivedBytes(received: seq<Byte>, later: seq<Reply>)
    ensures var r := PromptResult([Delivered(PROMPT_BUFFER_SIZE, received)] + later);
      && (r == Ok(()) <==> |received| > 0 && received[|received| - 1] == Matcher.PROMPT)
      && (r.Err? ==> r.error == RxError(TimedOut))
  {
    Matcher.PromptAfterReceiving(received);
  }

  /** Every failure of `wait_for_prompt` is a receive error, the scanner's own. */
  lemma PromptFailuresAreReceiveErrors(replies: seq<Reply>)
    ensures var r := PromptResult(replies);
      && (r.Err? ==> r.error.RxError?)
      && (replies != [] && replies[0].Failed? ==> r == Err(RxError(replies[0].error)))
  {
  }

  // ---------------------------------------------------------------------------------------
  // The connection phases
  // ---------------------------------------------------------------------------------------

  /** The engine's two timeouts, in milliseconds. */
  lemma EngineTimeouts()
    ensures ToMillisecond(STARTUP_TIMEOUT) == Millisecond(10000)
    ensures ToMillisecond(DEFAULT_TIMEOUT) == Millisecond(5000)
  {
  }

  /** The scan of a wait for `OK`: the 13-byte buffer and the 5 s default timeout. */
  const OK_SCAN: Event := Scanned(Matcher.AT_RESPONSE_BUFFER_SIZE, Millisecond(5000))

  lemma ConsumeAfterSkip<T>(replies: seq<T>, n: nat)
    ensures Skip(replies, 0) == replies
    ensures Consume(Skip(replies, n)) == Skip(replies, n + 1)
  {
    assert replies[0..] == replies;
  }

  /** The CIPSTART command line for a connection. */
  function CipStartLine(connectionType: ConnectionType, address: seq<Byte>, port: U16): seq<Byte>
  {
    CIPSTART + connectionType.AsStr() + QUOTE_COMMA_QUOTE + address + QUOTE_COMMA + Decimal(port) + CRLF
  }

  /** The CIPSEND command line announcing a payload. */
  function CipSendLine(length: nat): seq<Byte>
  {
    CIPSEND + Decimal(length) + CRLF
  }

  /** The command line that closes the connection. */
  const CIPCLOSE_LINE: seq<Byte> := AT + CIPCLOSE_COMMAND + CRLF

  /**
    `start_tcp_connection` writes the CIPSTART line with the port in decimal (a `u16` always
    fits the 5-character buffer). A failing write ends it with that write's error, the pieces
    before it on the wire and no reply read; otherwise it waits for `OK`.
  */
  lemma StartTcpConnectionOnTheWire(d: Device, connectionType: ConnectionType, address: seq<Byte>, port: U16)
    ensures var s := StartTcpConnection(d, connectionType, address, port);
      var chunks := CipStartChunks(connectionType, address, Decimal(port));
      var k := FirstFault(d.txScript, 7);
      && (k < 7 ==>
            && s.result == Err(TxError(d.txScript[k].value))
            && Transmitted(s.dev.trace) == Transmitted(d.trace) + Concat(chunks[..k])
            && s.dev == d.(trace := s.dev.trace, txScript := Skip(d.txScript, k + 1)))
      && (k == 7 ==>
            && s.result == AtResponseResult(d.replies, Matcher.ATResponse.Ok)
            && Transmitted(s.dev.trace) == Transmitted(d.trace) + CipStartLine(connectionType, address, port)
            && s.dev.trace[|s.dev.trace| - 1] == OK_SCAN
            && s.dev == d.(trace := s.dev.trace, txScript := Skip(d.txScript, 7), replies := Consume(d.replies)))
      && (d.txScript == [] ==> k == 7)
  {
    NoFaultScripted(7);
    var chunks := CipStartChunks(connectionType, address, Decimal(port));
    var sent := SendAll(d, chunks);
    assert StartTcpConnection(d, connectionType, address, port) ==
      if sent.result.Err? then sent else WaitForOk(sent.dev, Millisecond(5000)) by {
      PortAlwaysFits(port);
      EngineTimeouts();
    }
    if FirstFault(d.txScript, 7) == 7 {
      CipStartWritten(d, connectionType, address, port);
      QuietEvent(sent.dev.trace, OK_SCAN);
    } else {
      SendAllOnTheWire(d, chunks);
    }
  }

  /** When its seven writes succeed, the CIPSTART line goes out whole. */
  lemma CipStartWritten(d: Device, connectionType: ConnectionType, address: seq<Byte>, port: U16)
    requires FirstFault(d.txScript, 7) == 7
    ensures var sent := SendAll(d, CipStartChunks(connectionType, address, Decimal(port)));
      && sent.result.Ok?
      && Transmitted(sent.dev.trace) == Transmitted(d.trace) + CipStartLine(connectionType, address, port)
      && sent.dev == d.(trace := sent.dev.trace, txScript := Skip(d.txScript, 7))
  {
    var chunks := CipStartChunks(connectionType, address, Decimal(port));
    SendAllOnTheWire(d, chunks);
    Concat7(CIPSTART, connectionType.AsStr(), QUOTE_COMMA_QUOTE, address, QUOTE_COMMA, Decimal(port), CRLF);
    assert chunks[..7] == chunks;
  }

  /**
    `transmit_data` announces the payload length with CIPSEND and sends the payload only once
    the `>` prompt has been seen, then waits for `OK`. A write that fails ends it with its
    error: during the announcement, with the pieces before it on the wire and no reply read;
    on the payload, with the announcement out and the prompt read.
  */
  lemma TransmitDataOnTheWire(d: Device, data: seq<Byte>)
    requires |data| < MAX_PACKET_LENGTH
    ensures var s := TransmitData(d, data);
      var announce := [CIPSEND, Decimal(|data|), CRLF];
      var k := FirstFault(d.txScript, 3);
      var prompt := PromptResult(d.replies);
      var payloadFault := NextFault(Skip(d.txScript, 3));
      && (k < 3 ==>
            && s.result == Err(TxError(d.txScript[k].value))
            && Transmitted(s.dev.trace) == Transmitted(d.trace) + Concat(announce[..k])
            && s.dev == d.(trace := s.dev.trace, txScript := Skip(d.txScript, k + 1)))
      && (k == 3 && prompt.Err? ==>
            && s.result == prompt
            && Transmitted(s.dev.trace) == Transmitted(d.trace) + CipSendLine(|data|)
            && s.dev == d.(trace := s.dev.trace, txScript := Skip(d.txScript, 3), replies := Skip(d.replies, 1)))
      && (k == 3 && prompt.Ok? && payloadFault.Some? ==>
            && s.result == Err(TxError(payloadFault.value))
            && Transmitted(s.dev.trace) == Transmitted(d.trace) + CipSendLine(|data|)
            && s.dev == d.(trace := s.dev.trace, txScript := Skip(d.txScript, 4), replies := Skip(d.replies, 1)))
      && (k == 3 && prompt.Ok? && payloadFault.None? ==>
            && s.result == AtResponseResult(Skip(d.replies, 1), Matcher.ATResponse.Ok)
            && Transmitted(s.dev.trace) == Transmitted(d.trace) + CipSendLine(|data|) + data
            && s.dev == d.(trace := s.dev.trace, txScript := Skip(d.txScript, 4), replies := Skip(d.replies, 2)))
      && (d.txScript == [] ==> k == 3 && payloadFault.None?)
  {
    NoFaultScripted(3);
    if FirstFault(d.txScript, 3) < 3 {
      TransmitDataStopsInAnnounce(d, data);
    } else {
      TransmitDataAfterAnnounce(d, data);
    }
  }

  /** A write of the CIPSEND line that fails ends `transmit_data` before any reply is read. */
  lemma TransmitDataStopsInAnnounce(d: Device, data: seq<Byte>)
    requires |data| < MAX_PACKET_LENGTH
    requires FirstFault(d.txScript, 3) < 3
    ensures var s := TransmitData(d, data);
      var k := FirstFault(d.txScript, 3);
      && s.result == Err(TxError(d.txScript[k].value))
      && Transmitted(s.dev.trace) == Transmitted(d.trace) + Concat([CIPSEND, Decimal(|data|), CRLF][..k])
      && s.dev == d.(trace := s.dev.trace, txScript := Skip(d.txScript, k + 1))
  {
    LengthAlwaysFits(|data|);
    SendAllOnTheWire(d, [CIPSEND, Decimal(|data|), CRLF]);
  }

  /** Once the CIPSEND line is out, `transmit_data` is the prompt, the payload and the `OK`. */
  lemma TransmitDataAfterAnnounce(d: Device, data: seq<Byte>)
    requires |data| < MAX_PACKET_LENGTH
    requires FirstFault(d.txScript, 3) == 3
    ensures var s := TransmitData(d, data);
      var prompt := PromptResult(d.replies);
      var payloadFault := NextFault(Skip(d.txScript, 3));
      && (prompt.Err? ==>
            && s.result == prompt
            && Transmitted(s.dev.trace) == Transmitted(d.trace) + CipSendLine(|data|)
            && s.dev == d.(trace := s.dev.trace, txScript := Skip(d.txScript, 3), replies := Skip(d.replies, 1)))
      && (prompt.Ok? && payloadFault.Some? ==>
            && s.result == Err(TxError(payloadFault.value))
            && Transmitted(s.dev.trace) == Transmitted(d.trace) + CipSendLine(|data|)
            && s.dev == d.(trace := s.dev.trace, txScript := Skip(d.txScript, 4), replies := Skip(d.replies, 1)))
      && (prompt.Ok? && payloadFault.None? ==>
            && s.result == AtResponseResult(Skip(d.replies, 1), Matcher.ATResponse.Ok)
            && Transmitted(s.dev.trace) == Transmitted(d.trace) + CipSendLine(|data|) + data
            && s.dev == d.(trace := s.dev.trace, txScript := Skip(d.txScript, 4), replies := Skip(d.replies, 2)))
  {
    LengthAlwaysFits(|data|);
    var announce := SendAll(d, [CIPSEND, Decimal(|data|), CRLF]);
    CipSendAnnounced(d, |data|);
    assert TransmitData(d, data) == (
      var prompt := WaitForPrompt(announce.dev, ToMillisecond(DEFAULT_TIMEOUT));
      if prompt.result.Err? then prompt else
      var payload := SendRaw(prompt.dev, data);
      if payload.result.Err? then payload else
      WaitForOk(payload.dev, ToMillisecond(DEFAULT_TIMEOUT)));
    var prompt := WaitForPrompt(announce.dev, ToMillisecond(DEFAULT_TIMEOUT));
    QuietEvent(announce.dev.trace, Scanned(PROMPT_BUFFER_SIZE, ToMillisecond(DEFAULT_TIMEOUT)));
    ConsumeAfterSkip(d.replies, 0);
    SkipConsume(d.txScript, 3);
    assert prompt.dev == d.(trace := prompt.dev.trace, txScript := Skip(d.txScript, 3), replies := Skip(d.replies, 1));
    if prompt.result.Ok? {
      PayloadThenOk(prompt.dev, data);
      ConsumeAfterSkip(d.replies, 1);
    }
  }

  /** After the prompt, `transmit_data` writes the payload and waits for `OK`. */
  lemma PayloadThenOk(p: Device, data: seq<Byte>)
    ensures var payload := SendRaw(p, data);
      var s := if payload.result.Err? then payload else WaitForOk(payload.dev, ToMillisecond(DEFAULT_TIMEOUT));
      var fault := NextFault(p.txScript);
      && (fault.Some? ==>
            && s.result == Err(TxError(fault.value))
            && s.dev == p.(txScript := Consume(p.txScript)))
      && (fault.None? ==>
            && s.result == AtResponseResult(p.replies, Matcher.ATResponse.Ok)
            && Transmitted(s.dev.trace) == Transmitted(p.trace) + data
            && s.dev == p.(trace := s.dev.trace, txScript := Consume(p.txScript), replies := Consume(p.replies)))
  {
    var payload := SendRaw(p, data);
    if payload.result.Ok? {
      TransmittedAppend(p.trace, [Sent(data)]);
      QuietEvent(payload.dev.trace, OK_SCAN);
    }
  }

  /** With no failing write among the three, the CIPSEND line goes out whole. */
  lemma CipSendAnnounced(d: Device, length: nat)
    requires FirstFault(d.txScript, 3) == 3
    ensures var announce := SendAll(d, [CIPSEND, Decimal(length), CRLF]);
      && announce.result.Ok?
      && Transmitted(announce.dev.trace) == Transmitted(d.trace) + CipSendLine(length)
      && announce.dev == d.(trace := announce.dev.trace, txScript := Skip(d.txScript, 3))
  {
    var chunks := [CIPSEND, Decimal(length), CRLF];
    SendAllOnTheWire(d, chunks);
    Concat3(CIPSEND, Decimal(length), CRLF);
    assert chunks[..3] == chunks;
  }

  /**
    `close_connection` writes `AT+CIPCLOSE` and waits for `OK`; a failing write ends it with
    that write's error, the parts before it on the wire and no reply read.
  */
  lemma CloseConnectionOnTheWire(d: Device)
    ensures var s := CloseConnection(d);
      var k := FirstFault(d.txScript, 3);
      && (k < 3 ==>
            && s.result == Err(TxError(d.txScript[k].value))
            && Transmitted(s.dev.trace) == Transmitted(d.trace) + Concat([AT, CIPCLOSE_COMMAND, CRLF][..k])
            && s.dev == d.(trace := s.dev.trace, txScript := Skip(d.txScript, k + 1)))
      && (k == 3 ==>
            && s.result == AtResponseResult(d.replies, Matcher.ATResponse.Ok)
            && Transmitted(s.dev.trace) == Transmitted(d.trace) + CIPCLOSE_LINE
            && s.dev == d.(trace := s.dev.trace, txScript := Skip(d.txScript, 3), replies := Consume(d.replies)))
  {
    SendAtCommandOnTheWire(d, CIPCLOSE_COMMAND);
    if FirstFault(d.txScript, 3) == 3 {
      CloseConnectionHealthy(d);
    }
  }

  lemma CloseConnectionHealthy(d: Device)
    requires FirstFault(d.txScript, 3) == 3
    ensures CloseConnection(d).result == AtResponseResult(d.replies, Matcher.ATResponse.Ok)
    ensures Transmitted(CloseConnection(d).dev.trace) == Transmitted(d.trace) + CIPCLOSE_LINE
    ensures CloseConnection(d).dev == d.(trace := CloseConnection(d).dev.trace, txScript := Skip(d.txScript, 3), replies := Consume(d.replies))
  {
    var command := SendAtCommand(d, CIPCLOSE_COMMAND);
    var t := command.dev.trace;
    assert Transmitted(t) == Transmitted(d.trace) + CIPCLOSE_LINE
        && command.dev == d.(trace := t, txScript := Skip(d.txScript, 3)) by {
      AtCommandWritten(d, CIPCLOSE_COMMAND);
    }
    assert CloseConnection(d) == Step(d.(trace := t + [OK_SCAN], txScript := Skip(d.txScript, 3), replies := Consume(d.replies)),
      AtResponseResult(d.replies, Matcher.ATResponse.Ok)) by {
      AtCommandWritten(d, CIPCLOSE_COMMAND);
      CloseConnectionWaits(d, command);
    }
    QuietEvent(t, OK_SCAN);
  }

  /** Once `AT+CIPCLOSE` is out, `close_connection` is one wait for `OK`. */
  lemma CloseConnectionWaits(d: Device, command: Step<Error>)
    requires command == SendAtCommand(d, CIPCLOSE_COMMAND) && command.result.Ok?
    requires command.dev == d.(trace := command.dev.trace, txScript := Skip(d.txScript, 3))
    ensures CloseConnection(d) == Step(d.(trace := command.dev.trace + [OK_SCAN], txScript := Skip(d.txScript, 3), replies := Consume(d.replies)),
      AtResponseResult(d.replies, Matcher.ATResponse.Ok))
  {
    EngineTimeouts();
  }

  /**
    `send_data` runs connect, send and close in that order. The first phase that fails ends the
    call with its error tagged by that phase, in the state that phase left (so later phases
    write and read nothing); it succeeds exactly when all three phases do.
  */
  lemma SendDataPhases(d: Device, connectionType: ConnectionType, address: seq<Byte>, port: U16, data: seq<Byte>)
    requires |data| < MAX_PACKET_LENGTH
    ensures var s := SendData(d, connectionType, address, port, data);
      var connect := StartTcpConnection(d, connectionType, address, port);
      var send := TransmitData(connect.dev, data);
      var close := CloseConnection(send.dev);
      && (connect.result.Err? ==> s == Step(connect.dev, Err(TransmissionError(Connect, connect.result.error))))
      && (connect.result.Ok? && send.result.Err? ==> s == Step(send.dev, Err(TransmissionError(Send, send.result.error))))
      && (connect.result.Ok? && send.result.Ok? ==> s.dev == close.dev)
      && (connect.result.Ok? && send.result.Ok? && close.result.Err? ==>
            s.result == Err(TransmissionError(Close, close.result.error)))
      && (s.result.Ok? <==> connect.result.Ok? && send.result.Ok? && close.result.Ok?)
  {
  }

  /**
    With a healthy transmitter, what `send_data` writes and reports is decided by the next four
    replies: `OK` to CIPSTART, the prompt, `OK` to the payload, `OK` to CIPCLOSE. The payload
    goes out only after a connection and a prompt, and CIPCLOSE only after the payload was
    acknowledged.
  */
  lemma SendDataOnTheWire(d: Device, connectionType: ConnectionType, address: seq<Byte>, port: U16, data: seq<Byte>)
    requires |data| < MAX_PACKET_LENGTH
    requires d.txScript == []
    ensures var s := SendData(d, connectionType, address, port, data);
      var connected := AtResponseResult(d.replies, Matcher.ATResponse.Ok);
      var prompted := PromptResult(Skip(d.replies, 1));
      var delivered := AtResponseResult(Skip(d.replies, 2), Matcher.ATResponse.Ok);
      var closed := AtResponseResult(Skip(d.replies, 3), Matcher.ATResponse.Ok);
      var start := Transmitted(d.trace) + CipStartLine(connectionType, address, port);
      && (connected.Err? ==>
            s.result == Err(TransmissionError(Connect, connected.error)) && Transmitted(s.dev.trace) == start)
      && (connected.Ok? && prompted.Err? ==>
            && s.result == Err(TransmissionError(Send, prompted.error))
            && Transmitted(s.dev.trace) == start + CipSendLine(|data|))
      && (connected.Ok? && prompted.Ok? && delivered.Err? ==>
            && s.result == Err(TransmissionError(Send, delivered.error))
            && Transmitted(s.dev.trace) == start + CipSendLine(|data|) + data)
      && (connected.Ok? && prompted.Ok? && delivered.Ok? ==>
            && s.result == TryStep(Close, closed)
            && Transmitted(s.dev.trace) == start + CipSendLine(|data|) + data + CIPCLOSE_LINE
            && s.dev.replies == Skip(d.replies, 4))
  {
    SendDataPhases(d, connectionType, address, port, data);
    var connect := StartTcpConnection(d, connectionType, address, port);
    StartTcpConnectionOnTheWire(d, connectionType, address, port);
    ConsumeAfterSkip(d.replies, 0);
    if connect.result.Ok? {
      assert connect.dev.replies == Skip(d.replies, 1);
      var send := TransmitData(connect.dev, data);
      TransmitDataOnTheWire(connect.dev, data);
      ConsumeAfterSkip(d.replies, 1);
      ConsumeAfterSkip(d.replies, 2);
      assert Skip(connect.dev.replies, 1) == Skip(d.replies, 2);
      assert Skip(connect.dev.replies, 2) == Skip(d.replies, 3);
      if send.result.Ok? {
        CloseConnectionOnTheWire(send.dev);
        ConsumeAfterSkip(d.replies, 3);
      }
    }
  }

  // ---------------------------------------------------------------------------------------
  // The retry policy of power_up
  // ---------------------------------------------------------------------------------------

  /** The result of got-IP attempt number `j` (from 0): the wait on the `j`-th reply. */
  function GotIpAttempt(replies: seq<Reply>, j: nat): Result<(), Error>
  {
    AtResponseResult(Skip(replies, j), Matcher.ATResponse.WiFiGotIp)
  }

  /**
    How many got-IP attempts the loop makes when it has already counted `errorCount` errors:
    one more than the index of the first attempt that succeeds or times out, capped at 256.
  */
  function AttemptCount(replies: seq<Reply>, errorCount: nat): (n: nat)
    requires errorCount <= 255
    ensures errorCount < n <= 256
    decreases 255 - errorCount
  {
    if EndsRetries(GotIpAttempt(replies, errorCount)) || errorCount == 255 then errorCount + 1
    else AttemptCount(replies, errorCount + 1)
  }

  /** The scans of `n` got-IP attempts. */
  function GotIpScans(n: nat): (events: seq<Event>)
    ensures |events| == n
  {
    seq(n, _ => Scanned(Matcher.AT_RESPONSE_BUFFER_SIZE, Millisecond(10000)))
  }

  /** The device after `n` got-IP attempts: `n` scans observed, `n` replies consumed. */
  function AfterAttempts(d: Device, n: nat): Device
  {
    d.(trace := d.trace + GotIpScans(n), replies := Skip(d.replies, n))
  }

  /**
    The attempt count is the first attempt that ends the loop: every attempt before it was a
    non-timeout failure, and it either succeeded, timed out, or was attempt 256.
  */
  lemma AttemptCountIsFirstStop(replies: seq<Reply>, errorCount: nat)
    requires errorCount <= 255
    ensures errorCount < AttemptCount(replies, errorCount) <= 256
    ensures forall j :: errorCount <= j < AttemptCount(replies, errorCount) - 1 ==> !EndsRetries(GotIpAttempt(replies, j))
    ensures EndsRetries(GotIpAttempt(replies, AttemptCount(replies, errorCount) - 1)) || AttemptCount(replies, errorCount) == 256
  {
    AttemptCountPassesFailures(replies, errorCount);
    AttemptCountEndsOnStop(replies, errorCount);
  }

  /** Every attempt before the last one was a non-timeout failure. */
  lemma {:induction false} AttemptCountPassesFailures(replies: seq<Reply>, errorCount: nat)
    requires errorCount <= 255
    ensures forall j :: errorCount <= j < AttemptCount(replies, errorCount) - 1 ==> !EndsRetries(GotIpAttempt(replies, j))
    decreases 255 - errorCount
  {
    if !(EndsRetries(GotIpAttempt(replies, errorCount)) || errorCount == 255) {
      var n := AttemptCount(replies, errorCount + 1);
      assert AttemptCount(replies, errorCount) == n;
      forall j | errorCount < j < n - 1
        ensures !EndsRetries(GotIpAttempt(replies, j))
      {
        AttemptCountPassesFailures(replies, errorCount + 1);
      }
    }
  }

  /** The last attempt succeeded, timed out, or was attempt 256. */
  lemma {:induction false} AttemptCountEndsOnStop(replies: seq<Reply>, errorCount: nat)
    requires errorCount <= 255
    ensures EndsRetries(GotIpAttempt(replies, AttemptCount(replies, errorCount) - 1)) || AttemptCount(replies, errorCount) == 256
    decreases 255 - errorCount
  {
    var n := AttemptCount(replies, errorCount);
    if EndsRetries(GotIpAttempt(replies, errorCount)) || errorCount == 255 {
      assert n == errorCount + 1;
    } else {
      assert n == AttemptCount(replies, errorCount + 1);
      AttemptCountEndsOnStop(replies, errorCount + 1);
    }
  }

  /** That first stop is unique: the count is pinned down by the attempts' results. */
  lemma {:induction false} AttemptCountOfFirstStop(replies: seq<Reply>, errorCount: nat, last: nat)
    requires errorCount <= last <= 255
    requires forall j :: errorCount <= j < last ==> !EndsRetries(GotIpAttempt(replies, j))
    requires EndsRetries(GotIpAttempt(replies, last)) || last == 255
    ensures AttemptCount(replies, errorCount) == last + 1
    decreases last - errorCount
  {
    if errorCount < last {
      AttemptCountOfFirstStop(replies, errorCount + 1, last);
    }
  }

  /**
    The retry loop from `errorCount` counted errors (after that many attempts) makes
    `AttemptCount` attempts in all and returns the result of the last one.
  */
  lemma {:induction false} AwaitGotIpClosedForm(d: Device, errorCount: nat)
    requires errorCount <= 255
    ensures var n := AttemptCount(d.replies, errorCount);
      AwaitGotIp(AfterAttempts(d, errorCount), errorCount) == Step(AfterAttempts(d, n), GotIpAttempt(d.replies, n - 1))
    decreases 255 - errorCount
  {
    GotIpAttemptStep(d, errorCount);
    if !(EndsRetries(GotIpAttempt(d.replies, errorCount)) || errorCount == 255) {
      AwaitGotIpClosedForm(d, errorCount + 1);
    }
  }

  /** Got-IP attempt number `k` adds one scan, consumes one reply and reports the `k`-th reply. */
  lemma GotIpAttemptStep(d: Device, k: nat)
    ensures WaitForGotIp(AfterAttempts(d, k), ToMillisecond(STARTUP_TIMEOUT)) == Step(AfterAttempts(d, k + 1), GotIpAttempt(d.replies, k))
  {
    var before := AfterAttempts(d, k);
    ConsumeAfterSkip(d.replies, k);
    assert before.trace + [Scanned(Matcher.AT_RESPONSE_BUFFER_SIZE, Millisecond(10000))] == d.trace + GotIpScans(k + 1);
  }

  /** Got-IP scans transmit nothing. */
  lemma {:induction false} GotIpScansAreQuiet(t: seq<Event>, n: nat)
    ensures Transmitted(t + GotIpScans(n)) == Transmitted(t)
    decreases n
  {
    if n == 0 {
      assert t + GotIpScans(n) == t;
    } else {
      var scan := Scanned(Matcher.AT_RESPONSE_BUFFER_SIZE, Millisecond(10000));
      assert GotIpScans(n) == GotIpScans(n - 1) + [scan];
      assert t + GotIpScans(n) == (t + GotIpScans(n - 1)) + [scan];
      QuietEvent(t + GotIpScans(n - 1), scan);
      GotIpScansAreQuiet(t, n - 1);
    }
  }

  /** The device once `power_up` has driven the pin high, using one entry of the pin's script. */
  function PoweredOn(d: Device): Device
  {
    d.(pinHigh := true, trace := d.trace + [PinDriven(true)], pinScript := Consume(d.pinScript))
  }

  /**
    `power_up` first drives the pin high (a pin failure uses its script entry and changes
    nothing else), then makes
    between 1 and 256 got-IP attempts, every one but the last a non-timeout failure. A failing
    last attempt is returned as it is, with nothing written; only after success does it send
    `ATE0` and wait for `OK`.
  */
  lemma PowerUpRetryPolicy(d: Device)
    ensures NextFault(d.pinScript).Some? ==>
      PowerUp(d) == Step(d.(pinScript := Consume(d.pinScript)), Err(PinError(NextFault(d.pinScript).value)))
    ensures NextFault(d.pinScript).None? ==>
      var n := AttemptCount(d.replies, 0);
      var last := GotIpAttempt(d.replies, n - 1);
      var ready := AfterAttempts(PoweredOn(d), n);
      && 1 <= n <= 256
      && (forall j :: 0 <= j < n - 1 ==> !EndsRetries(GotIpAttempt(d.replies, j)))
      && (n < 256 ==> EndsRetries(last))
      && (last.Err? ==> PowerUp(d) == Step(ready, last) && Transmitted(ready.trace) == Transmitted(d.trace))
      && (last.Ok? ==> PowerUp(d) == EchoOff(ready))
  {
    if NextFault(d.pinScript).None? {
      var n := AttemptCount(d.replies, 0);
      assert Transmitted(AfterAttempts(PoweredOn(d), n).trace) == Transmitted(d.trace) by {
        GotIpScansAreQuiet(PoweredOn(d).trace, n);
        QuietEvent(d.trace, PinDriven(true));
      }
      PowerUpClosedForm(d);
      AttemptCountIsFirstStop(d.replies, 0);
    }
  }

  /** `power_up` as the pin, the retry loop in closed form, and the echo-off tail. */
  lemma PowerUpClosedForm(d: Device)
    requires NextFault(d.pinScript).None?
    ensures var n := AttemptCount(d.replies, 0);
      var last := GotIpAttempt(d.replies, n - 1);
      var ready := AfterAttempts(PoweredOn(d), n);
      PowerUp(d) == if last.Err? then Step(ready, last) else EchoOff(ready)
  {
    var up := PoweredOn(d);
    var n := AttemptCount(d.replies, 0);
    var gotIp := AwaitGotIp(up, 0);
    assert SetPin(d, true) == Step(up, Ok(()));
    assert gotIp == Step(AfterAttempts(up, n), GotIpAttempt(d.replies, n - 1)) by {
      assert AfterAttempts(up, 0) == up by {
        ConsumeAfterSkip(up.replies, 0);
      }
      AwaitGotIpClosedForm(up, 0);
    }
    assert PowerUp(d) == if gotIp.result.Err? then gotIp else EchoOff(gotIp.dev) by {
      EngineTimeouts();
    }
  }

  /** A timeout on the first got-IP attempt ends `power_up` at once: one scan, no retry. */
  lemma PowerUpStopsOnTimeout(d: Device)
    requires NextFault(d.pinScript).None?
    requires GotIpAttempt(d.replies, 0) == Err(RxError(TimedOut))
    ensures PowerUp(d) == Step(AfterAttempts(PoweredOn(d), 1), Err(RxError(TimedOut)))
    ensures PowerUp(d).dev.trace == d.trace + [PinDriven(true), Scanned(Matcher.AT_RESPONSE_BUFFER_SIZE, Millisecond(10000))]
  {
    assert AttemptCount(d.replies, 0) == 1 by {
      AttemptCountOfFirstStop(d.replies, 0, 0);
    }
    PowerUpRetryPolicy(d);
  }

  /**
    Up to 255 non-timeout failures are tolerated: if the attempt after them succeeds,
    `power_up` goes on to switch echo off, having consumed exactly those replies.
  */
  lemma PowerUpOutlastsGarbage(d: Device, failures: nat)
    requires NextFault(d.pinScript).None?
    requires failures <= 255
    requires forall j :: 0 <= j < failures ==> !EndsRetries(GotIpAttempt(d.replies, j))
    requires GotIpAttempt(d.replies, failures) == Ok(())
    ensures PowerUp(d) == EchoOff(AfterAttempts(PoweredOn(d), failures + 1))
  {
    assert AttemptCount(d.replies, 0) == failures + 1 by {
      AttemptCountOfFirstStop(d.replies, 0, failures);
    }
    PowerUpRetryPolicy(d);
  }

  /**
    After 256 non-timeout failures `power_up` gives up with the last one's error, having
    written nothing and consumed no reply beyond the 256th.
  */
  lemma PowerUpGivesUp(d: Device)
    requires NextFault(d.pinScript).None?
    requires forall j :: 0 <= j < 256 ==> !EndsRetries(GotIpAttempt(d.replies, j))
    ensures PowerUp(d) == Step(AfterAttempts(PoweredOn(d), 256), GotIpAttempt(d.replies, 255))
    ensures PowerUp(d).result.Err? && PowerUp(d).result.error != RxError(TimedOut)
    ensures Transmitted(PowerUp(d).dev.trace) == Transmitted(d.trace)
  {
    assert AttemptCount(d.replies, 0) == 256 by {
      AttemptCountOfFirstStop(d.replies, 0, 255);
    }
    assert !EndsRetries(GotIpAttempt(d.replies, 255));
    PowerUpRetryPolicy(d);
  }

  /**
    A `power_up` with a working pin and transmitter writes exactly `ATE0` CR LF, and only when
    got-IP was seen.
  */
  lemma PowerUpWritesOnlyEchoOff(d: Device)
    requires NextFault(d.pinScript).None? && FirstFault(d.txScript, 3) == 3
    ensures var n := AttemptCount(d.replies, 0);
      var last := GotIpAttempt(d.replies, n - 1);
      && (last.Ok? ==>
            && Transmitted(PowerUp(d).dev.trace) == Transmitted(d.trace) + AT + ECHO_OFF_COMMAND + CRLF
            && PowerUp(d).result == AtResponseResult(Skip(d.replies, n), Matcher.ATResponse.Ok))
      && (last.Err? ==> Transmitted(PowerUp(d).dev.trace) == Transmitted(d.trace) && PowerUp(d).result == last)
  {
    PowerUpRetryPolicy(d);
    var n := AttemptCount(d.replies, 0);
    var ready := AfterAttempts(PoweredOn(d), n);
    EchoOffOnTheWire(ready);
    GotIpScansAreQuiet(PoweredOn(d).trace, n);
    QuietEvent(d.trace, PinDriven(true));
  }

  /** When its three writes succeed, switching echo off writes `ATE0` CR LF and reports the next reply. */
  lemma EchoOffOnTheWire(d: Device)
    requires FirstFault(d.txScript, 3) == 3
    ensures Transmitted(EchoOff(d).dev.trace) == Transmitted(d.trace) + AT + ECHO_OFF_COMMAND + CRLF
    ensures EchoOff(d).result == AtResponseResult(d.replies, Matcher.ATResponse.Ok)
  {
    var echoOff := SendAtCommand(d, ECHO_OFF_COMMAND);
    AtCommandWritten(d, ECHO_OFF_COMMAND);
    QuietEvent(echoOff.dev.trace, OK_SCAN);
  }

  // ---------------------------------------------------------------------------------------
  // reset
  // ---------------------------------------------------------------------------------------

  /**
    `reset` drives the pin low (a pin failure ends it with `PinError`, nothing else changed
    but the pin's script), waits the 10 ms settle time, then powers up.
  */
  lemma ResetOrder(d: Device)
    ensures NextFault(d.pinScript).Some? ==>
      Reset(d) == Step(d.(pinScript := Consume(d.pinScript)), Err(PinError(NextFault(d.pinScript).value)))
    ensures NextFault(d.pinScript).None? ==>
      Reset(d) == PowerUp(d.(pinHigh := false, trace := d.trace + [PinDriven(false), Delayed(Millisecond(10))],
                             pinScript := Consume(d.pinScript)))
  {
    if NextFault(d.pinScript).None? {
      var down := PowerDown(d);
      assert down.dev.trace + [Delayed(RESET_DELAY)] == d.trace + [PinDriven(false), Delayed(Millisecond(10))];
    }
  }

  /** A `power_up` whose first got-IP attempt succeeds goes straight on to switch echo off. */
  lemma PowerUpOnFirstGotIp(d: Device)
    requires NextFault(d.pinScript).None?
    requires GotIpAttempt(d.replies, 0) == Ok(())
    ensures PowerUp(d) == EchoOff(AfterAttempts(PoweredOn(d), 1))
  {
    AttemptCountOfFirstStop(d.replies, 0, 0);
    PowerUpClosedForm(d);
  }

  /** A reset whose first got-IP attempt succeeds goes straight on to switch echo off. */
  lemma ResetOnFirstGotIp(d: Device)
    requires NextFault(d.pinScript).None? && NextFault(Consume(d.pinScript)).None?
    requires GotIpAttempt(d.replies, 0) == Ok(())
    ensures var low := d.(pinHigh := false, trace := d.trace + [PinDriven(false), Delayed(Millisecond(10))],
                          pinScript := Consume(d.pinScript));
      Reset(d) == EchoOff(AfterAttempts(PoweredOn(low), 1))
  {
    var low := d.(pinHigh := false, trace := d.trace + [PinDriven(false), Delayed(Millisecond(10))],
                  pinScript := Consume(d.pinScript));
    ResetOrder(d);
    PowerUpOnFirstGotIp(low);
  }

  /** `u` begins with `t`. */
  predicate Extends(u: seq<Event>, t: seq<Event>)
  {
    |t| <= |u| && u[..|t|] == t
  }

  lemma ExtendsTransitive(v: seq<Event>, u: seq<Event>, t: seq<Event>)
    requires Extends(v, u) && Extends(u, t)
    ensures Extends(v, t)
  {
    assert v[..|t|] == v[..|u|][..|t|];
  }

  /** Every step of `power_up` after the pin only adds to the trace. */
  lemma EchoOffExtends(d: Device)
    ensures Extends(EchoOff(d).dev.trace, d.trace)
  {
    var echoOff := SendAtCommand(d, ECHO_OFF_COMMAND);
    SendAllClosedForm(d, [AT, ECHO_OFF_COMMAND, CRLF]);
    assert Extends(echoOff.dev.trace, d.trace);
    if echoOff.result.Ok? {
      var t := echoOff.dev.trace + [OK_SCAN];
      assert Extends(t, echoOff.dev.trace);
      ExtendsTransitive(t, echoOff.dev.trace, d.trace);
    }
  }

  /**
    When its three writes succeed, switching echo off changes only the trace, uses three script
    entries and consumes one reply.
  */
  lemma EchoOffState(d: Device)
    requires FirstFault(d.txScript, 3) == 3
    ensures EchoOff(d).dev == d.(trace := EchoOff(d).dev.trace, txScript := Skip(d.txScript, 3), replies := Consume(d.replies))
  {
    AtCommandWritten(d, ECHO_OFF_COMMAND);
  }

  /** `power_up` only adds to the trace, beginning with the pin driven high. */
  lemma PowerUpExtends(d: Device)
    requires NextFault(d.pinScript).None?
    ensures Extends(PowerUp(d).dev.trace, PoweredOn(d).trace)
  {
    PowerUpClosedForm(d);
    var n := AttemptCount(d.replies, 0);
    var up := PoweredOn(d);
    var ready := AfterAttempts(up, n);
    assert Extends(ready.trace, up.trace);
    if GotIpAttempt(d.replies, n - 1).Ok? {
      EchoOffExtends(ready);
      ExtendsTransitive(EchoOff(ready).dev.trace, ready.trace, up.trace);
    }
  }

  /** After a reset, the pin's history is low, settle, high, in that order. */
  lemma ResetDrivesPinLowThenHigh(d: Device)
    requires NextFault(d.pinScript).None? && NextFault(Consume(d.pinScript)).None?
    ensures Extends(Reset(d).dev.trace, d.trace + [PinDriven(false), Delayed(Millisecond(10)), PinDriven(true)])
  {
    var low := d.(pinHigh := false, trace := d.trace + [PinDriven(false), Delayed(Millisecond(10))],
                  pinScript := Consume(d.pinScript));
    ResetOrder(d);
    PowerUpExtends(low);
    assert PoweredOn(low).trace == d.trace + [PinDriven(false), Delayed(Millisecond(10)), PinDriven(true)];
  }
}

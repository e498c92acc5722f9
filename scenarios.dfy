/**
  Whole conversations with the module: bring-up after boot noise, a complete `send_data`, and
  a `send_data` whose close is refused.
*/
module EngineScenarios {
  import opened Wrappers
  import opened Bytes
  import opened DecimalText
  import opened EngineSpec
  import opened EngineProperties
  import Matcher

  /** A response-wait scan after the module sent `received`. */
  function AtReply(received: seq<Byte>): Reply
  {
    Delivered(Matcher.AT_RESPONSE_BUFFER_SIZE, received)
  }

  const OK_LINE: seq<Byte> := Matcher.Pattern(Matcher.ATResponse.Ok)
  const ERROR_LINE: seq<Byte> := Matcher.Pattern(Matcher.ATResponse.Error)
  const GOT_IP_LINE: seq<Byte> := Matcher.Pattern(Matcher.ATResponse.WiFiGotIp)

  /** What the module prints on a cold boot before it has an address: noise, then the got-IP line. */
  const BOOT_OUTPUT: seq<Byte> := Ascii("garbage\r\n") + GOT_IP_LINE

  /** What the module answers to `ATE0`: the echo, then `OK`. */
  const ECHO_OFF_ANSWER: seq<Byte> := Ascii("E0\r\n") + OK_LINE

  /** The prompt scan after the module sent `>`. */
  const PROMPT_REPLY: Reply := Delivered(PROMPT_BUFFER_SIZE, Ascii(">"))

  /** A wait for `expected` on bytes that end with it succeeds. */
  lemma ExpectOnReply(received: seq<Byte>, later: seq<Reply>, expected: Matcher.ATResponse)
    requires IsSuffix(Matcher.Pattern(expected), received)
    ensures AtResponseResult([AtReply(received)] + later, expected) == Ok(())
  {
    AtResponseOnReceivedBytes(received, later, expected, expected);
  }

  /**
    A module that answers the first got-IP wait with `WIFI GOT IP` and `ATE0` with `OK` is
    brought up by `reset` on the first attempt: the pin is left high, two replies are consumed,
    and the only bytes written are `ATE0` CR LF.
  */
  lemma ResetFirstTry(d: Device)
    requires d.pinScript == [] && d.txScript == []
    requires GotIpAttempt(d.replies, 0) == Ok(())
    requires AtResponseResult(Skip(d.replies, 1), Matcher.ATResponse.Ok) == Ok(())
    ensures Reset(d).result == Ok(()) && Reset(d).dev.pinHigh && Reset(d).dev.replies == Skip(d.replies, 2)
    ensures Transmitted(Reset(d).dev.trace) == Transmitted(d.trace) + AT + ECHO_OFF_COMMAND + CRLF
  {
    var low := d.(pinHigh := false, trace := d.trace + [PinDriven(false), Delayed(Timing.Millisecond(10))],
                  pinScript := Consume(d.pinScript));
    var ready := AfterAttempts(PoweredOn(low), 1);
    assert Reset(d) == EchoOff(ready) by {
      ResetOnFirstGotIp(d);
    }
    assert Transmitted(ready.trace) == Transmitted(d.trace) by {
      GotIpScansAreQuiet(PoweredOn(low).trace, 1);
      QuietEvent(low.trace, PinDriven(true));
      QuietEvent(d.trace, PinDriven(false));
      QuietEvent(d.trace + [PinDriven(false)], Delayed(Timing.Millisecond(10)));
      assert low.trace == d.trace + [PinDriven(false)] + [Delayed(Timing.Millisecond(10))];
    }
    assert ready.pinHigh && ready.txScript == [] && ready.replies == Skip(d.replies, 1);
    NoFaultScripted(3);
    EchoOffState(ready);
    EchoOffOnTheWire(ready);
    ConsumeAfterSkip(d.replies, 1);
  }

  /**
    A module that prints noise, then `WIFI GOT IP`, then answers `ATE0` with its echo and `OK`,
    is brought up by `reset` (and so by `new`) on the first got-IP attempt.
  */
  lemma StartupScenario(d: Device, boot: seq<Byte>, answer: seq<Byte>)
    requires d.pinScript == [] && d.txScript == []
    requires boot == BOOT_OUTPUT && answer == ECHO_OFF_ANSWER
    requires d.replies == [AtReply(boot), AtReply(answer)]
    ensures Reset(d).result == Ok(()) && Reset(d).dev.pinHigh && Reset(d).dev.replies == []
  {
    BootRepliesAccepted(d.replies, boot, answer);
    ResetFirstTry(d);
  }

  /** The boot output ends the got-IP wait at once, and the answer to `ATE0` is `OK`. */
  lemma BootRepliesAccepted(replies: seq<Reply>, boot: seq<Byte>, answer: seq<Byte>)
    requires boot == BOOT_OUTPUT && answer == ECHO_OFF_ANSWER
    requires replies == [AtReply(boot), AtReply(answer)]
    ensures GotIpAttempt(replies, 0) == Ok(())
    ensures AtResponseResult(Skip(replies, 1), Matcher.ATResponse.Ok) == Ok(())
    ensures Skip(replies, 2) == []
  {
    assert replies == [AtReply(BOOT_OUTPUT)] + [AtReply(answer)];
    BootOutputAccepted([AtReply(answer)]);
    assert Skip(replies, 1) == [AtReply(ECHO_OFF_ANSWER)] + [];
    EchoOffAnswerAccepted([]);
  }

  /** The boot output, ending in `WIFI GOT IP` CR LF, ends the first got-IP attempt. */
  lemma BootOutputAccepted(later: seq<Reply>)
    ensures GotIpAttempt([AtReply(BOOT_OUTPUT)] + later, 0) == Ok(())
  {
    SuffixOfConcat(Ascii("garbage\r\n"), GOT_IP_LINE);
    ConsumeAfterSkip([AtReply(BOOT_OUTPUT)] + later, 0);
    ExpectOnReply(BOOT_OUTPUT, later, Matcher.ATResponse.WiFiGotIp);
  }

  /** The echoed `ATE0` followed by `OK` CR LF satisfies an `OK` wait. */
  lemma EchoOffAnswerAccepted(later: seq<Reply>)
    ensures AtResponseResult([AtReply(ECHO_OFF_ANSWER)] + later, Matcher.ATResponse.Ok) == Ok(())
  {
    SuffixOfConcat(Ascii("E0\r\n"), OK_LINE);
    ExpectOnReply(ECHO_OFF_ANSWER, later, Matcher.ATResponse.Ok);
  }

  /** The address and payload of the scenarios. */
  const ADDRESS: seq<Byte> := Ascii("192.168.1.1")
  const PAYLOAD: seq<Byte> := Ascii("hi")

  /**
    What `send_data(Tcp, "192.168.1.1", 80, "hi")` writes: the CIPSTART line with `80`, the
    CIPSEND line with `2`, the payload, the CIPCLOSE line.
  */
  const SEND_DATA_WIRE: seq<Byte> :=
    CIPSTART + Ascii("TCP") + QUOTE_COMMA_QUOTE + ADDRESS + QUOTE_COMMA + Ascii("80") + CRLF
    + CIPSEND + Ascii("2") + CRLF
    + PAYLOAD
    + AT + CIPCLOSE_COMMAND + CRLF

  lemma SendDataWireSpelledOut()
    ensures Transmitted([]) + CipStartLine(Tcp, ADDRESS, 80) + CipSendLine(|PAYLOAD|) + PAYLOAD + CIPCLOSE_LINE == SEND_DATA_WIRE
  {
    assert Decimal(80) == Ascii("80");
    assert Decimal(2) == Ascii("2");
  }

  /** The replies of a `send_data` whose phases are all acknowledged, with the answer to CIPCLOSE given. */
  function SendDataReplies(ok: seq<Byte>, closeAnswer: seq<Byte>): seq<Reply>
  {
    [AtReply(ok), PROMPT_REPLY, AtReply(ok), AtReply(closeAnswer)]
  }

  lemma SendDataRepliesAccepted(ok: seq<Byte>, closeAnswer: seq<Byte>)
    requires ok == OK_LINE
    ensures AtResponseResult(SendDataReplies(ok, closeAnswer), Matcher.ATResponse.Ok) == Ok(())
    ensures PromptResult(Skip(SendDataReplies(ok, closeAnswer), 1)) == Ok(())
    ensures AtResponseResult(Skip(SendDataReplies(ok, closeAnswer), 2), Matcher.ATResponse.Ok) == Ok(())
    ensures Skip(SendDataReplies(ok, closeAnswer), 3) == [AtReply(closeAnswer)] + []
  {
    var replies := SendDataReplies(ok, closeAnswer);
    assert replies == [AtReply(ok)] + replies[1..];
    OkLineAccepted(replies[1..]);
    assert Skip(replies, 1) == [PROMPT_REPLY] + replies[2..];
    PromptAccepted(replies[2..]);
    assert Skip(replies, 2) == [AtReply(ok)] + replies[3..];
    OkLineAccepted(replies[3..]);
  }

  /** A reply ending in `OK` CR LF satisfies an `OK` wait. */
  lemma OkLineAccepted(later: seq<Reply>)
    ensures AtResponseResult([AtReply(OK_LINE)] + later, Matcher.ATResponse.Ok) == Ok(())
  {
    SuffixOfConcat([], OK_LINE);
    ExpectOnReply(OK_LINE, later, Matcher.ATResponse.Ok);
  }

  /** A `>` satisfies a prompt wait. */
  lemma PromptAccepted(later: seq<Reply>)
    ensures PromptResult([PROMPT_REPLY] + later) == Ok(())
  {
    PromptOnReceivedBytes(Ascii(">"), later);
  }

  /**
    Every phase answered `OK` (and `>`): `send_data(Tcp, "192.168.1.1", 80, "hi")` succeeds,
    writing the three command lines and the payload and consuming the four replies.
  */
  lemma SendDataScenario(d: Device, ok: seq<Byte>)
    requires d.trace == [] && d.txScript == []
    requires ok == OK_LINE && d.replies == SendDataReplies(ok, ok)
    ensures var s := SendData(d, Tcp, ADDRESS, 80, PAYLOAD);
      s.result == Ok(()) && Transmitted(s.dev.trace) == SEND_DATA_WIRE && s.dev.replies == []
  {
    SendDataRepliesAccepted(ok, ok);
    SuffixOfConcat([], ok);
    ExpectOnReply(ok, [], Matcher.ATResponse.Ok);
    SendDataOnTheWire(d, Tcp, ADDRESS, 80, PAYLOAD);
    SendDataWireSpelledOut();
  }

  /**
    The module refuses CIPCLOSE with `ERROR`: the payload was still written, and the result is
    a close-phase error carrying the response.
  */
  lemma CloseRefusedScenario(d: Device, ok: seq<Byte>, refusal: seq<Byte>)
    requires d.trace == [] && d.txScript == []
    requires ok == OK_LINE && refusal == ERROR_LINE && d.replies == SendDataReplies(ok, refusal)
    ensures var s := SendData(d, Tcp, ADDRESS, 80, PAYLOAD);
      && s.result == Err(TransmissionError(Close, UnexpectedResponse(Matcher.ATResponse.Error)))
      && Transmitted(s.dev.trace) == SEND_DATA_WIRE
  {
    SendDataRepliesAccepted(ok, refusal);
    SuffixOfConcat([], refusal);
    AtResponseOnReceivedBytes(refusal, [], Matcher.ATResponse.Ok, Matcher.ATResponse.Error);
    SendDataOnTheWire(d, Tcp, ADDRESS, 80, PAYLOAD);
    SendDataWireSpelledOut();
  }
}

# esp01 protocol engine in Dafny

This project models the protocol engine of the `esp01` driver. The driver runs an ESP8266 WiFi module over a serial link with AT commands. The model covers three parts:

- **The response recogniser** (`Matcher`). `compare_circular_buffer` is a tail-anchored comparison of a ring buffer with a byte pattern. It reads backward from the byte just before `offset`, over `min(len buffer, len pattern)` bytes, and uses true modulo. `parse_at_response` tries `OK\r\n`, `ERROR\r\n`, `busy p...\r\n` and `WIFI GOT IP\r\n` in that order. The ring-buffer discipline is modelled too: each byte is written at the offset, then the offset advances modulo the capacity (`Ring`, `Write`, `Fill`). This ties the comparison to "the received bytes end with the pattern".
- **The `Esp8266` driver** (`EngineSpec`, `Driver`, `EngineProperties`, `EngineScenarios`).
  - `EngineSpec` gives each operation as a function on a `Device` value. A `Device` holds the driver and its fake capabilities: the observation trace, the chip-enable level, the pin's per-change script, the transmitter's per-write script, and the scripted scanner replies.
  - `Driver.Esp8266` is a class with those fields, and each of its methods is proved equal to the matching function.
  - The `EngineSpec` function is the model of each source function, and the properties in the table are stated about it. The `Driver` method of the same name is the same operation written as a step-by-step update of the object, and its `ensures` ties it to that function.
  - `EngineProperties` proves what the engine promises: the exact bytes each command writes, how a scan becomes a result, the phase tagging of `send_data`, the retry policy of `power_up`, and the order of steps in `reset`.
  - `EngineScenarios` works through complete conversations with the module.
- **Durations and the timer** (`Timing`). This covers `Second`, `Millisecond` and the ×1000 conversion in `u32`. The `LongTimer` contract is modelled as a `CountdownTimer` fake: after `start(d)` it reports not-ready `d` times, then ready.

Decimal rendering of the port and the payload length (done by `itoa` into an `ArrayString` in the source) is `DecimalText`. It defines a pure `Decimal` function, a `Value` function that reads the text back, and capacity bounds.

The fakes work as follows:

- **Transmitter.** Each `send_raw` (one `serial::write_all`) uses the next entry of the transmitter's script. An entry `Some(code)` makes that write fail with `code`, and nothing is recorded. An entry `None`, or an exhausted script, lets the write succeed, and a `Sent(bytes)` event is appended to the trace. `Transmitted(trace)` is the transmit log. So any write of a sequence can be the one that fails.
- **Pin.** Each `set_high` or `set_low` uses the next entry of the pin's script, in the same way. An entry `Some(code)` makes that change fail with `code`, and the level and the trace stay as they were. An entry `None`, or an exhausted script, lets the change succeed, and `PinDriven(level)` is appended to the trace. So either change of `reset` or `pull_some_current` can be the one that fails.
- **Receiver and scanner.** Each `serial::read_until_message` appends `Scanned(capacity, timeout)` to the trace and consumes the next scripted `Reply`. A reply is either `Settled(ring, offset)`, the buffer at which the classifier stopped, or `Failed(error)`, a receive error (a timeout or another failure).
- **Timer.** The `CountdownTimer` records every start. Each blocking wait appends `Delayed(duration)` to the trace.

Details of the source that the model keeps as written:

- **Echo-off command.** The echo-off command is `ATE0`, with no space (src/lib.rs:240).
- **CIPSTART spacing.** The connect command is `AT+CIPSTART="TCP","<addr>",<port>`, with no spaces (src/lib.rs:274-280).
- **Port rendering overflow.** A port that did not fit would be reported as `Error::Fmt`, because `itoa::fmt` returns `fmt::Result` (src/lib.rs:272). The model says so, and it also proves that this overflow never happens for a `u16`.
- **Payload of 2048 bytes or more.** The length check runs only inside the send phase (src/lib.rs:286), after CIPSTART has been written and acknowledged. The model states the check as a precondition of `StartTransmission`, `TransmitData` and `SendData`.

## Model

| member | source | states |
|---|---|---|
| `Timing.ToMillisecond` | src/timing.rs:90-94 | Converting `Second(d)` yields a whole number of milliseconds that is exactly `d` seconds (`m % 1000 == 0`, `m / 1000 == d`), within `u32` for `d <= 4294967` |
| `Timing.ConversionOverflowsPastBound` | src/timing.rs:92 | Past 4294967 s the product `d * 1000` leaves `u32`, so the conversion's precondition is exact |
| `Timing.ToMillisecondStrictlyMonotone` | src/timing.rs:92 | `d1 < d2` if and only if `ms(d1) < ms(d2)` |
| `Timing.CountdownTimer.Start` | src/timing.rs:75-81 | `start(d)` arms the countdown with `d` and records the start |
| `Timing.CountdownTimer.Wait` | src/timing.rs:67-73 | `wait` is ready exactly when the started duration has elapsed. Otherwise one tick passes |
| `Timing.BlockOn` | src/lib.rs:209-210 | `block!(timer.wait())` ends, after exactly `remaining + 1` polls, with the timer run down and its starts unchanged |
| `EngineProperties.EngineTimeouts` | src/lib.rs:132-133 | The startup timeout is `Millisecond(10000)` and the default timeout is `Millisecond(5000)` |
| `DecimalText.ValueOfDecimal` | src/lib.rs:270-272 | Reading the decimal text of `n` back yields `n` |
| `DecimalText.Decimal` | src/lib.rs:272 | The rendered text of a number is at least one digit, all decimal digits, with no leading zero |
| `DecimalText.DecimalLengthBound` | src/lib.rs:268-269 | A number below 10^k has at most k digits |
| `DecimalText.RenderInto` | src/lib.rs:270-272 | Rendering into a fixed-capacity string succeeds exactly when the digits fit. On success the text is all digits, within the capacity, and reads back as the number |
| `DecimalText.PortAlwaysFits` | src/lib.rs:268-272 | Every `u16` port renders into the 5-byte buffer, so six or more digits cannot occur |
| `DecimalText.LengthAlwaysFits` | src/lib.rs:285-289 | Every length below 2048 renders into the 4-byte buffer |
| `DecimalText.SamplePorts` | src/lib.rs:268-272 | Port 8080 renders as `"8080"` and reads back as 8080. Port 65535 renders as `"65535"`, which uses all 5 bytes |
| `Matcher.RingIndex` | src/lib.rs:414 | Every index the comparison reads is inside the ring, for any offset. The sum `len + offset - 1 - back` that the remainder is taken of is never negative, so the `usize` subtraction cannot underflow |
| `Matcher.RingIndexIsTrueModulo` | src/lib.rs:412-414 | Adding the length before the remainder gives the true modulo `(offset - 1 - i) mod len`, even when `offset - 1 - i` is negative |
| `Matcher.CompareCircularBuffer` | src/lib.rs:404-421 | Returns true exactly when, for every `i < min(len buf, len pattern)`, `buf[(len + offset - 1 - i) % len] == pattern[len pattern - 1 - i]`. An empty buffer or pattern gives true |
| `Matcher.Pattern` | src/lib.rs:17-22 | Each recognised response has at most `AT_RESPONSE_BUFFER_SIZE = 13` bytes and ends in CR LF |
| `Matcher.ParseAtResponse` | src/lib.rs:375-391 | Returns a response only if its pattern matches the tail, and no earlier response in the order Ok, Error, Busy, WiFiGotIp matches. Returns None exactly when no pattern matches |
| `Matcher.PatternsExclusive` | src/lib.rs:376-385 | On a ring of 3 or more bytes, no two patterns match at once |
| `Matcher.ParseIsUnambiguous` | src/lib.rs:375-391 | On a ring of 3 or more bytes, the classifier names a response exactly when that response's pattern matches |
| `Matcher.ShortRingMatchesAll` | src/lib.rs:393-396 | On a 2-byte ring holding CR LF, every pattern matches on the overlap |
| `Matcher.ShortRingNeedsPriority` | src/lib.rs:375-378 | On that 2-byte ring, only the priority order decides, and it picks Ok |
| `Matcher.Write` | src/lib.rs:398-402 | Writing one byte keeps the ring's size and leaves the offset inside the ring |
| `Matcher.Fill` | src/lib.rs:312 | A zeroed scan buffer after any stream of bytes keeps its capacity, with the offset inside it |
| `Matcher.FillBack` | src/lib.rs:398-402 | Reading backward from the offset gives the received bytes newest first, then the initial zeroes |
| `Matcher.ShortStreamNoMatch` | src/lib.rs:312 | A stream shorter than a pattern with no zero bytes cannot match that pattern in the zeroed buffer |
| `Matcher.TailMatchesIffSuffix` | src/lib.rs:393-402 | For a zero-free pattern no longer than the ring, the tail-anchored comparison holds exactly when the received bytes end with the pattern |
| `Matcher.ParseAfterReceiving` | src/lib.rs:312-319 | After a stream passes through the 13-byte scan buffer, the classifier reports a response exactly when the stream ends with that response's full pattern. No pattern is truncated |
| `Matcher.PromptAfterReceiving` | src/lib.rs:342-356 | Through the 1-byte buffer, the prompt is seen exactly when the newest byte is `>` |
| `Matcher.PromptSeen` | src/lib.rs:348-355 | On the 1-byte buffer, the prompt classifier answers exactly when that byte is `>`. It never answers for a buffer without `>` |
| `EngineSpec.TryStep` | src/lib.rs:88-98 | `try_step` passes Ok through unchanged. An error comes back tagged with the given step and carries the same cause |
| `EngineSpec.ConnectionType.AsStr` | src/lib.rs:106-113 | Returns `TCP` exactly for Tcp and `UDP` exactly for Udp |
| `EngineSpec.SendAllClosedForm` | src/lib.rs:274-280 | A run of `send_raw` calls joined by `?` stops at the first chunk whose write fails, with that write's `TxError`. By then the chunks before it are recorded and one script entry per attempted write is used. When no write fails, every chunk is recorded in order. Nothing else changes |
| `EngineSpec.SendAllStopsAtFault` | src/lib.rs:274-280 | When write k of the run fails: the first k chunks are recorded, k + 1 script entries are used, and the result is that write's `TxError` |
| `EngineSpec.SendAllWithoutFault` | src/lib.rs:274-280 | When no write of the run fails: every chunk is recorded in order, one script entry per chunk is used, and the result is Ok |
| `EngineSpec.SetPin` | src/lib.rs:201 | A level change uses one entry of the pin's script. If the entry is a fault, it returns `PinError` with that code and changes nothing else. Otherwise it sets the level and records it. The transmitter and the replies are untouched |
| `EngineSpec.PowerDown` | src/lib.rs:200-202 | On success the pin is low. On failure the result is a `PinError`, and nothing but the pin's script has changed |
| `EngineSpec.SendRaw` | src/lib.rs:363-368 | `send_raw` uses one script entry. It succeeds exactly when that entry is not a fault, and then records the bytes. Otherwise it returns `TxError` with the entry's code and records nothing. The pin and the replies are untouched |
| `EngineSpec.SendAll` | src/lib.rs:274-280 | A run of writes changes neither the pin nor the replies. It can fail only with `TxError`, and it records at most one event per chunk |
| `EngineSpec.SendAtCommand` | src/lib.rs:300-305 | `send_at_command` changes neither the pin nor the replies. It can fail only with `TxError`, and it records at most three writes |
| `EngineSpec.ScanOutcome` | src/lib.rs:313-319 | The scanner outcome is Ok exactly when the next reply is a settled buffer of the scan's capacity that the classifier accepts, with the classifier's value. A receive failure passes through unchanged. Any other case is a timeout |
| `EngineSpec.WaitForAtResponse` | src/lib.rs:307-332 | One 13-byte scan is recorded and one reply consumed. The result is Ok exactly when the scanner returns the expected response. Any error is an `RxError` or an `UnexpectedResponse` naming a different response. The pin and the script are untouched |
| `EngineSpec.WaitForPrompt` | src/lib.rs:341-361 | One 1-byte scan is recorded and one reply consumed. The result is Ok exactly when the prompt classifier accepts the buffer. Any error is an `RxError` |
| `EngineSpec.StartTcpConnection` | src/lib.rs:261-282 | The pin is untouched. Errors are only `TxError`, `RxError` or `UnexpectedResponse`. Success consumes exactly one reply |
| `EngineSpec.StartTransmission` | src/lib.rs:284-295 | For a length below 2048, the pin and the replies are untouched, and the only possible error is `TxError` |
| `EngineSpec.TransmitData` | src/lib.rs:254-259 | The pin is untouched. Errors are only `TxError`, `RxError` or `UnexpectedResponse`. Success consumes exactly two replies |
| `EngineSpec.CloseConnection` | src/lib.rs:192-195 | The pin is untouched. Errors are only `TxError`, `RxError` or `UnexpectedResponse`. Success consumes exactly one reply |
| `EngineSpec.SendData` | src/lib.rs:175-190 | The pin is untouched. A failure's cause is only `TxError`, `RxError` or `UnexpectedResponse`. Success consumes exactly four replies |
| `EngineSpec.AwaitGotIp` | src/lib.rs:222-237 | The retry loop from `error_count` makes at least one and at most `256 - error_count` scans. It leaves the pin and the script untouched, and fails only with `RxError` or `UnexpectedResponse` |
| `EngineSpec.PowerUp` | src/lib.rs:217-244 | If `set_high` fails, the result is `PinError` with its code and nothing but the pin's script has changed. Otherwise it ends with the pin high, one pin entry used, and never with `PinError` |
| `EngineSpec.EchoOff` | src/lib.rs:239-241 | The tail of `power_up` after got-IP leaves the pin alone. It fails only with `TxError`, `RxError` or `UnexpectedResponse`, and success consumes exactly one reply |
| `EngineSpec.Reset` | src/lib.rs:207-218 | If `set_low` fails, the result is `PinError` with its code and nothing but the pin's script has changed. If `set_low` succeeds and `power_up`'s `set_high` fails, the result is that `PinError`, with the pin low, the trace showing pin low and the 10 ms delay, and two pin entries used. If both succeed, it ends with the pin high and never with `PinError` |
| `EngineSpec.PullSomeCurrent` | src/lib.rs:246-252 | If the first change fails, the result is `PinError` and nothing but the pin's script has changed. If only the second fails, the result is its `PinError`, with the pin left high after pin high and the 500 ms delay. Otherwise it records pin high, the delay and pin low, and ends low. It never touches the transmitter or the replies |
| `Driver.Esp8266.Assemble` | src/lib.rs:168 | The struct literal of `new`: the driver owns its capabilities and has done nothing yet |
| `Driver.Esp8266.New` | src/lib.rs:165-173 | `new` always runs `reset`. It returns a fresh driver in reset's final state exactly when reset succeeds, and reset's error otherwise |
| `Driver.Esp8266.SetChipEnable` | src/lib.rs:201 | The fake pin uses its script's next entry. It sets the level, or fails with that entry's code and leaves the rest of the state unchanged |
| `Driver.Esp8266.WriteAll` | src/lib.rs:364 | The fake transmitter takes its next script entry. A failing entry returns its code and records nothing. Otherwise the bytes are appended to the log |
| `Driver.Esp8266.ReadUntilMessage` | src/lib.rs:313-319 | The scanner consumes one reply and returns the classifier's value for the buffer it stopped at, or the receive error |
| `Driver.Esp8266.SendRaw` | src/lib.rs:363-368 | `send_raw` writes the bytes, and a transmitter failure becomes `TxError` |
| `Driver.Esp8266.SendAll` | src/lib.rs:274-280 | A run of `send_raw(..)?` calls has the same effect as `EngineSpec.SendAll`: the chunks go out in order until one write fails |
| `Driver.Esp8266.PowerDown` | src/lib.rs:200-202 | Drives the pin low. A pin failure becomes `PinError` |
| `Driver.Esp8266.SendAtCommand` | src/lib.rs:300-305 | Has the same effect as `SendAll(AT, command, CR LF)` |
| `Driver.Esp8266.WaitForAtResponse` | src/lib.rs:307-332 | Runs a 13-byte scan. Returns Ok for the expected response, `UnexpectedResponse(actual)` for any other response, and `RxError(e)` for a scan error |
| `Driver.Esp8266.WaitForOk` | src/lib.rs:334-336 | Waits for Ok |
| `Driver.Esp8266.WaitForGotIp` | src/lib.rs:337-339 | Waits for WiFiGotIp |
| `Driver.Esp8266.WaitForPrompt` | src/lib.rs:341-361 | Runs a 1-byte scan that stops at `>`. Any scan error becomes `RxError` |
| `Driver.Esp8266.StartTcpConnection` | src/lib.rs:261-282 | Renders the port into 5 bytes, writes the 7 CIPSTART chunks in order, then waits for Ok. Stops at the first failure |
| `Driver.Esp8266.StartTransmission` | src/lib.rs:284-295 | For a length below 2048, renders it into 4 bytes and writes `AT+CIPSEND=`, the digits and CR LF |
| `Driver.Esp8266.TransmitData` | src/lib.rs:254-259 | Runs CIPSEND, the prompt, the payload and the Ok, in that order. Stops at the first failure |
| `Driver.Esp8266.CloseConnection` | src/lib.rs:192-195 | Writes `AT+CIPCLOSE`, then waits for Ok |
| `Driver.Esp8266.SendData` | src/lib.rs:175-190 | Runs connect, send and close, each through `try_step` with its own tag, and stops at the first failing phase |
| `Driver.Esp8266.PowerUp` | src/lib.rs:217-244 | The pin goes high, then the `error_count` retry loop runs, then `ATE0` is sent and Ok is required. The loop invariant keeps the remaining attempts equal to the closed-form retry function |
| `Driver.Esp8266.Reset` | src/lib.rs:207-212 | Pin low, then a 10 ms timer start and blocking wait, then `power_up`. The timer is started, and waited out, exactly when `set_low` succeeded |
| `Driver.Esp8266.PullSomeCurrent` | src/lib.rs:246-252 | Pin high, then a 500 ms wait, then pin low. Each pin failure becomes `PinError`. The timer is started exactly when the first change succeeded |
| `EngineProperties.SendAllOnTheWire` | src/lib.rs:274-280 | Consecutive writes add exactly the concatenation of the chunks before the first failing write to the transmit log. The run succeeds if and only if no write fails, and then it sends every chunk. A failure returns that write's code. Only the trace and the script change. A transmitter with nothing scripted sends everything |
| `EngineProperties.SendAtCommandOnTheWire` | src/lib.rs:300-305 | `send_at_command(c)` puts the parts of `AT` ++ c ++ CR LF before its first failing write on the wire. It succeeds, with all three parts sent, exactly when none of its three writes fails |
| `EngineProperties.AtCommandWritten` | src/lib.rs:300-305 | When its three writes succeed, `send_at_command(c)` succeeds, writes exactly `AT` ++ c ++ CR LF and uses three script entries, changing nothing else |
| `EngineProperties.AtResponseOnReceivedBytes` | src/lib.rs:307-332 | After a stream of bytes: Ok if and only if the stream ends with the expected pattern. `UnexpectedResponse(seen)` if and only if it ends with another response's pattern. A timeout if and only if it ends with none. No other outcome is possible |
| `EngineProperties.AtResponseOfParsed` | src/lib.rs:321-331 | On a full 13-byte scan, the wait reports exactly what `parse_at_response` returned, mapped to Ok, `UnexpectedResponse` or a timeout |
| `EngineProperties.AtResponseOnReceiveError` | src/lib.rs:328-330 | A scanner error surfaces unchanged as `RxError(e)` |
| `EngineProperties.PromptOnReceivedBytes` | src/lib.rs:341-361 | `wait_for_prompt` succeeds exactly when the last byte received is `>`. Otherwise it reports a timeout |
| `EngineProperties.PromptFailuresAreReceiveErrors` | src/lib.rs:357-360 | Every failure of `wait_for_prompt` is an `RxError` carrying the scanner's own error |
| `EngineProperties.StartTcpConnectionOnTheWire` | src/lib.rs:261-282 | When all 7 writes succeed, it writes exactly `AT+CIPSTART="` ++ (TCP or UDP) ++ `","` ++ address ++ `",` ++ decimal(port) ++ CR LF, then makes a single wait for Ok with the 5 s timeout. When write k fails, it stops with that `TxError`, the first k chunks are on the wire, and no reply has been read |
| `EngineProperties.CipStartWritten` | src/lib.rs:274-280 | When its seven writes succeed, exactly the CIPSTART line goes out and seven script entries are used |
| `EngineProperties.TransmitDataOnTheWire` | src/lib.rs:254-259 | Four outcomes. A failing CIPSEND write stops it with the chunks before it on the wire. A failed prompt returns the receive error after the whole CIPSEND line. A failing payload write returns its `TxError` with only the CIPSEND line sent. Otherwise the line and the payload are sent and the Ok wait decides. Each outcome gives the exact script entries and replies used |
| `EngineProperties.TransmitDataStopsInAnnounce` | src/lib.rs:284-293 | A failing CIPSEND write ends `transmit_data` with that `TxError` and the chunks before it on the wire, before any reply is read |
| `EngineProperties.CipSendAnnounced` | src/lib.rs:291-293 | When its three writes succeed, the CIPSEND announcement writes exactly `AT+CIPSEND=` ++ decimal(length) ++ CR LF and uses three script entries |
| `EngineProperties.TransmitDataAfterAnnounce` | src/lib.rs:255-258 | After the CIPSEND line, the prompt decides first. Then the payload write, then the Ok wait. Each outcome gives the exact bytes sent, script entries used and replies consumed |
| `EngineProperties.PayloadThenOk` | src/lib.rs:257-258 | After the prompt, a failing payload write returns its `TxError` and sends nothing. Otherwise exactly the payload is sent and the next reply decides the Ok wait |
| `EngineProperties.CloseConnectionOnTheWire` | src/lib.rs:192-195 | A failing write stops it with the parts of `AT+CIPCLOSE` CR LF before that write on the wire and no reply read. Otherwise it writes exactly `AT+CIPCLOSE` CR LF, then reports the Ok wait, consuming one reply |
| `EngineProperties.CloseConnectionHealthy` | src/lib.rs:193-194 | When its three writes succeed, closing changes only the trace, the script (three entries used) and the replies (one consumed) |
| `EngineProperties.SendDataPhases` | src/lib.rs:175-190 | The phases run in the order connect, send, close. The first failing phase's error comes back tagged with that phase, in the state that phase left. The call succeeds if and only if all three phases succeed |
| `EngineProperties.SendDataOnTheWire` | src/lib.rs:175-190 | With nothing scripted to fail on the transmitter, the next four replies decide what `send_data` writes and returns. A failed phase leaves on the wire the bytes of the phases before it, plus the bytes the failing phase wrote before its failing wait: the CIPSTART line for a refused connect, the CIPSEND line for a missing prompt, and the CIPSEND line and the payload for a missing final `OK` |
| `EngineProperties.AttemptCount` | src/lib.rs:222-237 | The number of got-IP attempts is between 1 and 256 |
| `EngineProperties.AttemptCountIsFirstStop` | src/lib.rs:222-237 | Every attempt before the last was a non-timeout failure. The last attempt succeeded, timed out, or was attempt 256 |
| `EngineProperties.AttemptCountPassesFailures` | src/lib.rs:222-237 | Every attempt before the last was a non-timeout failure |
| `EngineProperties.AttemptCountEndsOnStop` | src/lib.rs:222-237 | The last attempt succeeded, timed out, or was attempt 256 |
| `EngineProperties.AttemptCountOfFirstStop` | src/lib.rs:222-237 | The attempt count is fixed by the first attempt that ends the loop |
| `EngineProperties.AwaitGotIpClosedForm` | src/lib.rs:223-237 | The retry loop makes `AttemptCount` scans and returns the last attempt's result |
| `EngineProperties.PowerUpRetryPolicy` | src/lib.rs:217-244 | The pin goes high first, and a pin failure changes nothing but the pin's script. Then 1 to 256 attempts are made, and every attempt but the last is a non-timeout failure. A failing last attempt is returned as is, with nothing written. Only after success are `ATE0` and Ok done |
| `EngineProperties.PowerUpClosedForm` | src/lib.rs:217-244 | `power_up` is the pin change, then the retry loop in closed form, then echo-off |
| `EngineProperties.PowerUpStopsOnTimeout` | src/lib.rs:226 | A timeout on the first attempt returns at once, after one scan and no retry |
| `EngineProperties.PowerUpOutlastsGarbage` | src/lib.rs:227-231 | Up to 255 non-timeout failures followed by a success still lead on to echo-off |
| `EngineProperties.PowerUpGivesUp` | src/lib.rs:232-234 | After 256 non-timeout failures it returns the last error, which is not a timeout, having written nothing |
| `EngineProperties.PowerUpWritesOnlyEchoOff` | src/lib.rs:239-243 | With a working pin and echo-off writes that succeed, the only bytes `power_up` writes are `ATE0` CR LF, and only after got-IP |
| `EngineProperties.EchoOffOnTheWire` | src/lib.rs:240-241 | When its three writes succeed, echo-off writes `ATE0` CR LF and reports the Ok wait on the next reply |
| `EngineProperties.ResetOrder` | src/lib.rs:207-212 | A pin failure on the way low gives `PinError` and changes nothing but the pin's script. Otherwise: pin low, a 10 ms delay, then `power_up` on the rest of the pin's script |
| `EngineProperties.PowerUpOnFirstGotIp` | src/lib.rs:224-225 | Got-IP on the first attempt goes straight to echo-off |
| `EngineProperties.ResetOnFirstGotIp` | src/lib.rs:207-225 | A reset whose first got-IP attempt succeeds goes straight to echo-off |
| `EngineProperties.PowerUpExtends` | src/lib.rs:217-244 | When `set_high` succeeds, `power_up` only adds to the trace, and starts with the pin driven high |
| `EngineProperties.ResetDrivesPinLowThenHigh` | src/lib.rs:207-218 | When both pin changes succeed, the trace after a reset shows pin low, then the 10 ms delay, then pin high, in that order |
| `EngineScenarios.ResetFirstTry` | src/lib.rs:207-244 | A module that answers got-IP and Ok at once is brought up. The pin is left high, two replies are consumed, and only `ATE0` CR LF is written |
| `EngineScenarios.BootRepliesAccepted` | src/lib.rs:224-241 | Boot noise followed by `WIFI GOT IP` ends the first attempt with success. The echo and `OK` then satisfy the echo-off wait |
| `EngineScenarios.BootOutputAccepted` | src/lib.rs:224-230 | A reply ending in `WIFI GOT IP` CR LF ends the first got-IP attempt with success |
| `EngineScenarios.EchoOffAnswerAccepted` | src/lib.rs:241 | The echo of `ATE0` followed by `OK` CR LF satisfies the `OK` wait |
| `EngineScenarios.StartupScenario` | src/lib.rs:165-173 | Boot noise, then `WIFI GOT IP`, then `E0` CR LF `OK` CR LF: `reset` (and so `new`) succeeds |
| `EngineScenarios.SendDataWireSpelledOut` | src/lib.rs:274-293 | For `(Tcp, "192.168.1.1", 80, "hi")`, the CIPSTART line has `80` and the CIPSEND line has `2` |
| `EngineScenarios.SendDataRepliesAccepted` | src/lib.rs:175-190 | `OK`, `>` and `OK` satisfy connect, the prompt and the payload wait |
| `EngineScenarios.OkLineAccepted` | src/lib.rs:307-332 | A reply ending in `OK` CR LF satisfies an `OK` wait |
| `EngineScenarios.PromptAccepted` | src/lib.rs:348-355 | A reply ending in `>` satisfies the prompt wait |
| `EngineScenarios.SendDataScenario` | src/lib.rs:175-190 | When every phase is acknowledged, `send_data(Tcp, "192.168.1.1", 80, "hi")` succeeds. It writes the two command lines, the payload and CIPCLOSE, and consumes the four replies |
| `EngineScenarios.CloseRefusedScenario` | src/lib.rs:189 | When the module answers CIPCLOSE with `ERROR`, the result is a Close-tagged `UnexpectedResponse(Error)`, and the payload has still been written |

## Left out

- `serial::read_until_message` and `serial::write_all` (src/serial.rs) are not part of this model. They appear only as the contract at their call sites. A scan consumes one scripted reply: either the buffer at which the classifier stopped, or a receive error. A write either appends its bytes or fails with the transmitter's code. Byte-by-byte polling, `WouldBlock` handling and the timeout race inside the scanner are not modelled. A scripted buffer of the wrong size, a buffer the classifier rejects, and a missing reply are all read as a timeout.
- `Driver.Esp8266.ReadUntilMessage`: does not touch the timer. In the source the scanner starts and polls `self.timer`, but that happens inside serial.rs, which is not part of this model. The timeout it is given is recorded in the trace.
- The generic error types `R`, `T` and `P` of `Error<R, T, P>` are fixed to integer codes. `serial::Error` is `TimedOut` or `ReadFailed(code)`.
- How many bytes of a chunk reach the wire before its `write_all` fails is up to serial.rs, which is not part of this model. The model records none of a failing chunk.
- `EngineProperties.SendDataOnTheWire`: stated only for a transmitter with nothing scripted to fail. Write failures inside `send_data` are covered by `SendDataPhases` together with the per-phase lemmas (`StartTcpConnectionOnTheWire`, `TransmitDataOnTheWire`, `CloseConnectionOnTheWire`).
- `Driver.Esp8266.SendAll`: the source writes each chunk with its own `send_raw(..)?` line. The driver runs the same calls, in the same order and with the same stop at the first failure, through one recursive method.
- `itoa::fmt` and `ArrayString` are replaced by `DecimalText.Decimal` with a capacity check. The `From<fmt::Error>` and `From<CapacityError>` conversions and the `return_type!` macros appear only as the `Fmt` and `Capacity` error variants. No operation of the model produces `Capacity`, because the code never reaches `CapacityError`.
- `assert!(message_length < 2048)` is a panic in the source. Here it is a precondition of `StartTransmission`, `TransmitData` and `SendData`, so the path where `send_data` has already connected and then panics is not modelled.
- `nb::block!` on the timer and its `.unwrap()`: with the fake timer, the blocking wait always ends and cannot fail (`Timing.BlockOn`).
- The sample `LongTimer` implementation in the doc comment of src/timing.rs is not compiled code. It uses `f32` arithmetic and is not modelled.
- `Matcher.CompareCircularBuffer`: integers are unbounded. The source's `usize` sum `len + offset` would overflow only for an offset within `len` of `usize::MAX`, which the ring discipline never produces, since the offset stays below the capacity.
- Concurrency, real time and hardware electrical behaviour are outside the model.

/**
  The response recogniser of src/lib.rs: the tail-anchored comparison of a ring buffer
  with a pattern, and the classifier that tries the four terminal responses in priority order.
*/
module Matcher {
  import opened Bytes
  import opened Wrappers

  /** Length of the longest recognised response, `WIFI GOT IP\r\n`: the size of the scan buffer. */
  const AT_RESPONSE_BUFFER_SIZE: nat := 13

  function Min(a: nat, b: nat): nat
  {
    if a <= b then a else b
  }

  /**
    The index the comparison reads for the byte `back` places before the newest byte of a
    ring of `len` bytes whose oldest byte sits at `offset`. The source adds `len` before
    taking the remainder so that the subtraction never goes below zero; the index is in
    bounds for every offset.
  */
  function RingIndex(len: nat, offset: nat, back: nat): (k: nat)
    requires back < len
    ensures 0 <= len + offset - 1 - back
    ensures k < len
  {
    (len + offset - 1 - back) % len
  }

  /** A remainder of a value below twice the modulus. */
  lemma ModInRange(x: int, m: int)
    requires m > 0 && 0 <= x < 2 * m
    ensures x % m == if x < m then x else x - m
  {
  }

  lemma MulAtLeast(k: int, m: int)
    requires k >= 1 && m > 0
    ensures k * m >= m
  {
    if k > 1 {
      MulAtLeast(k - 1, m);
      assert k * m == (k - 1) * m + m;
    }
  }

  /** The remainder is determined by any division of `a` by `m` with a remainder in range. */
  lemma ModUnique(a: int, m: int, q: int, r: int)
    requires m > 0 && 0 <= r < m && a == q * m + r
    ensures a % m == r
  {
    var q', r' := a / m, a % m;
    assert a == q' * m + r';
    if q > q' {
      MulAtLeast(q - q', m);
      assert false;
    }
    if q < q' {
      MulAtLeast(q' - q, m);
      assert false;
    }
  }

  /**
    Adding the length is what turns Rust's remainder into true modulo: the index equals
    `(offset - 1 - back) mod len`, even where `offset - 1 - back` is negative.
  */
  lemma RingIndexIsTrueModulo(len: nat, offset: nat, back: nat)
    requires back < len
    ensures RingIndex(len, offset, back) == (offset - 1 - back) % len
  {
    var x := offset - 1 - back;
    var q, r := x / len, x % len;
    assert x == q * len + r;
    assert x + len == (q + 1) * len + r;
    ModUnique(x + len, len, q + 1, r);
  }

  /** For an offset inside the ring, the index without any remainder. */
  lemma RingIndexInRange(len: nat, offset: nat, back: nat)
    requires back < len && offset < len
    ensures RingIndex(len, offset, back) == if back < offset then offset - 1 - back else len + offset - 1 - back
  {
    ModInRange(len + offset - 1 - back, len);
  }

  /**
    The ring, read backwards from the newest byte, agrees with the pattern read backwards
    from its end, over the bytes both have.
  */
  predicate TailMatches(ring: seq<Byte>, offset: nat, pattern: seq<Byte>)
  {
    forall back :: 0 <= back < Min(|ring|, |pattern|) ==>
      ring[RingIndex(|ring|, offset, back)] == pattern[|pattern| - 1 - back]
  }

  /** `compare_circular_buffer`: an indexed loop with an early exit on the first differing byte. */
  method CompareCircularBuffer(ring: seq<Byte>, offset: nat, pattern: seq<Byte>) returns (equal: bool)
    ensures equal <==> TailMatches(ring, offset, pattern)
    ensures |ring| == 0 || |pattern| == 0 ==> equal
  {
    var length := Min(|ring|, |pattern|);
    for i := 0 to length
      invariant forall back :: 0 <= back < i ==>
        ring[RingIndex(|ring|, offset, back)] == pattern[|pattern| - 1 - back]
    {
      assert 0 <= |ring| + offset - 1 - i;
      var ringIndex := (|ring| + offset - 1 - i) % |ring|;
      var patternIndex := |pattern| - 1 - i;
      if ring[ringIndex] != pattern[patternIndex] {
        assert ringIndex == RingIndex(|ring|, offset, i);
        return false;
      }
    }
    return true;
  }

  /** The terminal responses the engine recognises (`ATResponse`). */
  datatype ATResponse = Ok | Error | Busy | WiFiGotIp

  /** The exact bytes that end each response. */
  function Pattern(response: ATResponse): (p: seq<Byte>)
    ensures 4 <= |p| <= AT_RESPONSE_BUFFER_SIZE
    ensures p[|p| - 2..] == [13, 10]
  {
    match response
    case Ok => ['O' as Byte, 'K' as Byte, '\r' as Byte, '\n' as Byte]
    case Error => ['E' as Byte, 'R' as Byte, 'R' as Byte, 'O' as Byte, 'R' as Byte, '\r' as Byte, '\n' as Byte]
    case Busy => ['b' as Byte, 'u' as Byte, 's' as Byte, 'y' as Byte, ' ' as Byte, 'p' as Byte, '.' as Byte, '.' as Byte, '.' as Byte, '\r' as Byte, '\n' as Byte]
    case WiFiGotIp =>
      ['W' as Byte, 'I' as Byte, 'F' as Byte, 'I' as Byte, ' ' as Byte, 'G' as Byte, 'O' as Byte, 'T' as Byte, ' ' as Byte, 'I' as Byte, 'P' as Byte, '\r' as Byte, '\n' as Byte]
  }

  /** Position in the order `parse_at_response` tries the patterns. */
  function Priority(response: ATResponse): nat
  {
    match response
    case Ok => 0
    case Error => 1
    case Busy => 2
    case WiFiGotIp => 3
  }

  /**
    `parse_at_response`: the first response, in priority order, whose pattern matches
    the tail of the ring; None exactly when no pattern matches.
  */
  function ParseAtResponse(ring: seq<Byte>, offset: nat): (r: Option<ATResponse>)
    ensures r.Some? ==> TailMatches(ring, offset, Pattern(r.value))
    ensures r.Some? ==> forall q :: Priority(q) < Priority(r.value) ==> !TailMatches(ring, offset, Pattern(q))
    ensures r.None? <==> forall q :: !TailMatches(ring, offset, Pattern(q))
  {
    if TailMatches(ring, offset, Pattern(ATResponse.Ok)) then Some(ATResponse.Ok)
    else if TailMatches(ring, offset, Pattern(ATResponse.Error)) then Some(ATResponse.Error)
    else if TailMatches(ring, offset, Pattern(Busy)) then Some(Busy)
    else if TailMatches(ring, offset, Pattern(WiFiGotIp)) then Some(WiFiGotIp)
    else None
  }

  /**
    The four patterns differ in their third byte from the end, so on a ring of three or
    more bytes no two of them match at once.
  */
  lemma PatternsExclusive(ring: seq<Byte>, offset: nat, a: ATResponse, b: ATResponse)
    requires |ring| >= 3
    requires TailMatches(ring, offset, Pattern(a)) && TailMatches(ring, offset, Pattern(b))
    ensures a == b
  {
    var k := RingIndex(|ring|, offset, 2);
    assert ring[k] == Pattern(a)[|Pattern(a)| - 3];
    assert ring[k] == Pattern(b)[|Pattern(b)| - 3];
  }

  /**
    On a ring of three or more bytes (the scan buffer has 13) the priority order never
    decides anything: the classifier names a response exactly when its pattern matches.
  */
  lemma ParseIsUnambiguous(ring: seq<Byte>, offset: nat, response: ATResponse)
    requires |ring| >= 3
    ensures ParseAtResponse(ring, offset) == Some(response) <==> TailMatches(ring, offset, Pattern(response))
  {
    var r := ParseAtResponse(ring, offset);
    if TailMatches(ring, offset, Pattern(response)) {
      assert r.Some?;
      PatternsExclusive(ring, offset, r.value, response);
    }
  }

  /** On a two-byte ring holding CRLF every pattern matches ... */
  lemma ShortRingMatchesAll(q: ATResponse)
    ensures TailMatches([13, 10], 0, Pattern(q))
  {
    var p := Pattern(q);
    assert p[|p| - 2..][0] == 13 && p[|p| - 2..][1] == 10;
    forall back | 0 <= back < Min(2, |p|)
      ensures [13, 10][RingIndex(2, 0, back)] == p[|p| - 1 - back]
    {
      RingIndexInRange(2, 0, back);
    }
  }

  /** ... so there only the priority order decides, and it picks `Ok`. */
  lemma ShortRingNeedsPriority()
    ensures ParseAtResponse([13, 10], 0) == Some(ATResponse.Ok)
  {
    ShortRingMatchesAll(ATResponse.Ok);
  }

  // The ring-buffer discipline the comparison assumes: bytes are written at the offset,
  // the offset then moves on modulo the capacity, so it always points at the oldest byte.

  datatype Ring = Ring(bytes: seq<Byte>, offset: nat)

  /** One received byte written into the ring. */
  function Write(ring: Ring, b: Byte): (r: Ring)
    requires ring.offset < |ring.bytes|
    ensures |r.bytes| == |ring.bytes| && r.offset < |r.bytes|
  {
    Ring(ring.bytes[ring.offset := b], (ring.offset + 1) % |ring.bytes|)
  }

  /** A zeroed ring of `capacity` bytes after `received` has been written into it byte by byte. */
  function Fill(capacity: nat, received: seq<Byte>): (r: Ring)
    requires capacity > 0
    ensures |r.bytes| == capacity && r.offset < capacity
  {
    if received == [] then Ring(seq(capacity, _ => 0), 0)
    else Write(Fill(capacity, received[..|received| - 1]), received[|received| - 1])
  }

  /**
    Reading backwards from the offset yields the received bytes newest first, then the
    zeroes the ring started with.
  */
  lemma {:induction false} FillBack(capacity: nat, received: seq<Byte>, back: nat)
    requires back < capacity
    ensures var r := Fill(capacity, received);
      r.bytes[RingIndex(capacity, r.offset, back)]
        == if back < |received| then received[|received| - 1 - back] else 0
  {
    if received != [] {
      var n := |received|;
      var before := received[..n - 1];
      var prev := Fill(capacity, before);
      var r := Fill(capacity, received);
      assert r == Write(prev, received[n - 1]);
      ModInRange(prev.offset + 1, capacity);
      RingIndexInRange(capacity, r.offset, back);
      var k := RingIndex(capacity, r.offset, back);
      if back == 0 {
        assert k == prev.offset;
      } else {
        RingIndexInRange(capacity, prev.offset, back - 1);
        assert k == RingIndex(capacity, prev.offset, back - 1);
        assert k != prev.offset;
        FillBack(capacity, before, back - 1);
      }
    }
  }

  /** Fewer bytes received than a zero-free pattern has: the ring's zero filling cannot match it. */
  lemma ShortStreamNoMatch(capacity: nat, received: seq<Byte>, pattern: seq<Byte>)
    requires |received| < |pattern| <= capacity
    requires forall i :: 0 <= i < |pattern| ==> pattern[i] != 0
    ensures var r := Fill(capacity, received); !TailMatches(r.bytes, r.offset, pattern)
  {
    var r := Fill(capacity, received);
    var n := |received|;
    FillBack(capacity, received, n);
    assert r.bytes[RingIndex(capacity, r.offset, n)] == 0;
    assert pattern[|pattern| - 1 - n] != 0;
  }

  /**
    For a pattern no longer than the ring and free of zero bytes, the tail-anchored
    comparison on the filled ring holds exactly when the received bytes end with the pattern.
  */
  lemma TailMatchesIffSuffix(capacity: nat, received: seq<Byte>, pattern: seq<Byte>)
    requires 0 < capacity && |pattern| <= capacity
    requires forall i :: 0 <= i < |pattern| ==> pattern[i] != 0
    ensures var r := Fill(capacity, received);
      TailMatches(r.bytes, r.offset, pattern) <==> IsSuffix(pattern, received)
  {
    var r := Fill(capacity, received);
    var n := |received|;
    if n < |pattern| {
      ShortStreamNoMatch(capacity, received, pattern);
    }
    forall back | 0 <= back < |pattern|
      ensures r.bytes[RingIndex(capacity, r.offset, back)]
        == if back < n then received[n - 1 - back] else 0
    {
      FillBack(capacity, received, back);
    }
    if TailMatches(r.bytes, r.offset, pattern) {
      var tail := received[n - |pattern|..];
      forall i | 0 <= i < |pattern| ensures tail[i] == pattern[i] {
        var back := |pattern| - 1 - i;
        assert r.bytes[RingIndex(capacity, r.offset, back)] == pattern[|pattern| - 1 - back];
      }
    }
    if IsSuffix(pattern, received) {
      var tail := received[n - |pattern|..];
      forall back | 0 <= back < |pattern|
        ensures r.bytes[RingIndex(capacity, r.offset, back)] == pattern[|pattern| - 1 - back]
      {
        assert tail[|pattern| - 1 - back] == received[n - 1 - back];
      }
    }
  }

  /**
    After the bytes of `received` have gone through the 13-byte scan buffer, the classifier
    reports a response exactly when the received bytes end with that response's full pattern.
  */
  lemma ParseAfterReceiving(received: seq<Byte>, response: ATResponse)
    ensures var r := Fill(AT_RESPONSE_BUFFER_SIZE, received);
      ParseAtResponse(r.bytes, r.offset) == Some(response) <==> IsSuffix(Pattern(response), received)
  {
    var r := Fill(AT_RESPONSE_BUFFER_SIZE, received);
    var p := Pattern(response);
    assert forall i :: 0 <= i < |p| ==> p[i] != 0 by {
      match response
      case Ok =>
      case Error =>
      case Busy =>
      case WiFiGotIp =>
    }
    ParseIsUnambiguous(r.bytes, r.offset, response);
    TailMatchesIffSuffix(AT_RESPONSE_BUFFER_SIZE, received, p);
  }

  /** The data-entry prompt byte `>`. */
  const PROMPT: Byte := '>' as int

  /** The classifier `wait_for_prompt` hands the scanner: the first byte of its buffer is `>`. */
  function PromptSeen(ring: seq<Byte>, offset: nat): (r: Option<()>)
    ensures |ring| == 1 ==> (r.Some? <==> ring == [PROMPT])
    ensures r.Some? ==> PROMPT in ring
  {
    if |ring| > 0 && ring[0] == PROMPT then Some(()) else None
  }

  /** Through the 1-byte prompt buffer, the prompt is seen exactly when the newest received byte is `>`. */
  lemma PromptAfterReceiving(received: seq<Byte>)
    ensures var r := Fill(1, received);
      PromptSeen(r.bytes, r.offset) == Some(()) <==> |received| > 0 && received[|received| - 1] == PROMPT
  {
    var r := Fill(1, received);
    FillBack(1, received, 0);
    assert RingIndex(1, r.offset, 0) == 0;
  }
}

/**
  Decimal rendering of unsigned numbers into fixed-capacity strings, the job `itoa::fmt`
  does into an `ArrayString` in src/lib.rs. Specified here as a pure function plus length bounds.
*/
module DecimalText {
  import opened Bytes
  import opened Wrappers

  /** Every byte is an ASCII digit. */
  predicate IsDigits(s: seq<Byte>)
  {
    forall i :: 0 <= i < |s| ==> '0' as int <= s[i] <= '9' as int
  }

  /** The shortest decimal text of `n`, most significant digit first. */
  function Decimal(n: nat): (s: seq<Byte>)
    ensures 1 <= |s| && IsDigits(s)
    ensures |s| > 1 ==> s[0] != '0' as int
  {
    if n < 10 then ['0' as int + n] else Decimal(n / 10) + ['0' as int + n % 10]
  }

  /** The number a string of digits denotes. */
  function Value(s: seq<Byte>): nat
    requires IsDigits(s)
  {
    if s == [] then 0 else 10 * Value(s[..|s| - 1]) + (s[|s| - 1] - '0' as int)
  }

  function Pow10(k: nat): nat
  {
    if k == 0 then 1 else 10 * Pow10(k - 1)
  }

  /** Reading the rendered text back yields the number: nothing is lost or altered. */
  lemma {:induction false} ValueOfDecimal(n: nat)
    ensures Value(Decimal(n)) == n
  {
    if n >= 10 {
      var s := Decimal(n);
      assert s[..|s| - 1] == Decimal(n / 10);
      ValueOfDecimal(n / 10);
    }
  }

  /** A number below 10^k needs at most k digits. */
  lemma {:induction false} DecimalLengthBound(n: nat, k: nat)
    requires 1 <= k && n < Pow10(k)
    ensures |Decimal(n)| <= k
  {
    if n >= 10 {
      DecimalLengthBound(n / 10, k - 1);
    }
  }

  /**
    Writing the digits of `n` into an empty fixed-capacity string: the digits when they fit,
    and a formatting error (None) when they would overflow the capacity.
  */
  function RenderInto(n: nat, capacity: nat): (r: Option<seq<Byte>>)
    ensures r.Some? <==> |Decimal(n)| <= capacity
    ensures r.Some? ==> |r.value| <= capacity && IsDigits(r.value) && Value(r.value) == n
  {
    ValueOfDecimal(n);
    if |Decimal(n)| <= capacity then Some(Decimal(n)) else None
  }

  /** Every `u16` renders into the 5-byte port buffer: six or more digits cannot occur. */
  lemma PortAlwaysFits(port: U16)
    ensures RenderInto(port, 5) == Some(Decimal(port))
  {
    assert Pow10(5) == 100000;
    DecimalLengthBound(port, 5);
  }

  /** Every payload length below 2048 renders into the 4-byte length buffer. */
  lemma LengthAlwaysFits(length: nat)
    requires length < 2048
    ensures RenderInto(length, 4) == Some(Decimal(length))
  {
    assert Pow10(4) == 10000;
    DecimalLengthBound(length, 4);
  }

  /** The sample values: 8080 reads back as "8080", and the largest port takes all five bytes. */
  lemma SamplePorts()
    ensures Decimal(8080) == Ascii("8080") && Value(Decimal(8080)) == 8080
    ensures Decimal(65535) == Ascii("65535")
  {
    ValueOfDecimal(8080);
  }
}

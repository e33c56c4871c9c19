/** The fixed-width conversions the handlers apply to unbounded integers, and the parsing of a path segment. */
module Words {
  import opened Wrappers

  const TWO_63: nat := 0x8000_0000_0000_0000
  const TWO_64: nat := 0x1_0000_0000_0000_0000
  const MAX_UINT80: nat := 0xFFFF_FFFF_FFFF_FFFF_FFFF
  const TWO_255: int := 0x8000_0000_0000_0000_0000_0000_0000_0000_0000_0000_0000_0000_0000_0000_0000_0000
  const TWO_256: nat := 2 * TWO_255

  /** `big.Int.Uint64` on a non-negative value: the low 64 bits. */
  function Uint64(x: nat): (r: nat) {
    x % TWO_64
  }

  /** `big.Int.Int64` on a non-negative value, and `int64` of a `uint64`: the low 64 bits in two's complement. */
  function Int64(x: nat): (r: int) {
    var low := x % TWO_64;
    if low < TWO_63 then low else low - TWO_64
  }

  /** The 256-bit word the ABI encoder writes for an integer of any size. */
  function Word(x: int): (r: nat) {
    x % TWO_256
  }

  /** How the contract reads a word as an `int256`. */
  function SignedWord(w: nat): (r: int) {
    if w < TWO_255 then w else w - TWO_256
  }

  ghost predicate FitsInt256(x: int) {
    -TWO_255 <= x < TWO_255
  }

  lemma SignedWordRoundTrip(x: int)
    ensures SignedWord(Word(x)) == x <==> FitsInt256(x)
  {
    if FitsInt256(x) && x < 0 {
      assert Word(x + TWO_256) == Word(x);
    }
  }

  /**
   Each conversion keeps the number modulo its width and lands in its range, which fixes its result for
   every argument: 64 bits unsigned and signed, 256 bits unsigned and signed.
   */
  lemma ConversionsByCongruence(x: nat, y: int)
    ensures 0 <= Uint64(x) < 18446744073709551616 && (x - Uint64(x)) % 18446744073709551616 == 0
    ensures -9223372036854775808 <= Int64(x) < 9223372036854775808 && (x - Int64(x)) % 18446744073709551616 == 0
    ensures 0 <= Word(y) < TWO_256 && (y - Word(y)) % TWO_256 == 0
    ensures -TWO_255 <= SignedWord(Word(y)) < TWO_255 && (y - SignedWord(Word(y))) % TWO_256 == 0
    ensures TWO_256 == TWO_64 * TWO_64 * TWO_64 * TWO_64 == 2 * TWO_255 && TWO_64 == 18446744073709551616 == 2 * TWO_63
    ensures MAX_UINT80 == 65536 * TWO_64 - 1
  {
  }

  // ---- The round identifier of a request path ----

  predicate AllDigits(s: string) {
    forall i | 0 <= i < |s| :: '0' <= s[i] <= '9'
  }

  /** The number a string of decimal digits denotes. */
  function Decimal(s: string): (n: nat)
    requires AllDigits(s)
  {
    if s == "" then 0 else 10 * Decimal(s[..|s| - 1]) + (s[|s| - 1] as int - '0' as int)
  }

  /** `strconv.ParseUint(s, 10, 64)`. */
  function ParseUint(s: string): Option<nat> {
    if s != "" && AllDigits(s) && Decimal(s) < TWO_64 then Some(Decimal(s)) else None
  }

  function Digit(d: nat): (c: char)
    requires d < 10
    ensures c as int == '0' as int + d
  {
    "0123456789"[d]
  }

  /** The decimal text of a number, without leading zeros. */
  function Render(n: nat): (s: string)
    ensures s != "" && AllDigits(s)
  {
    var digit := [Digit(n % 10)];
    if n < 10 then digit else Render(n / 10) + digit
  }

  lemma {:induction false} ParseRendered(n: nat)
    ensures Decimal(Render(n)) == n
    ensures ParseUint(Render(n)) == if n < TWO_64 then Some(n) else None
  {
    var s := Render(n);
    if n >= 10 {
      ParseRendered(n / 10);
      assert s[..|s| - 1] == Render(n / 10);
    } else {
      assert s[..|s| - 1] == "";
    }
  }

  function Zeros(k: nat): (s: string)
    ensures |s| == k && forall i | 0 <= i < k :: s[i] == '0'
  {
    if k == 0 then "" else "0" + Zeros(k - 1)
  }

  lemma {:induction false} ZerosIgnored(k: nat, s: string)
    requires s != ""
    ensures ParseUint(Zeros(k) + s) == ParseUint(s)
  {
    if k == 0 {
      assert Zeros(0) + s == s;
    } else {
      ZerosIgnored(k - 1, s);
      LeadingZerosIgnored(Zeros(k - 1) + s);
      assert Zeros(k) + s == "0" + (Zeros(k - 1) + s);
    }
  }

  function ValueOf(c: char): (d: nat)
    requires '0' <= c <= '9'
    ensures d < 10 && Digit(d) == c
  {
    c as int - '0' as int
  }

  lemma RenderSnoc(n: nat, d: nat)
    requires 0 < n && d < 10
    ensures Render(10 * n + d) == Render(n) + [Digit(d)]
  {
    assert (10 * n + d) / 10 == n && (10 * n + d) % 10 == d;
  }

  lemma DecimalSnoc(front: string, c: char)
    requires AllDigits(front) && '0' <= c <= '9'
    ensures AllDigits(front + [c]) && Decimal(front + [c]) == 10 * Decimal(front) + ValueOf(c)
  {
    assert (front + [c])[..|front|] == front;
  }

  /** One more digit after zeros and the text of n. */
  lemma RenderedSnoc(k: nat, n: nat, d: nat) returns (j: nat)
    requires d < 10
    ensures Zeros(k) + Render(n) + [Digit(d)] == Zeros(j) + Render(10 * n + d)
  {
    if n == 0 {
      j := k + 1;
      ZerosSnoc(k);
      assert Render(0) == "0" && Render(d) == [Digit(d)];
    } else {
      j := k;
      RenderSnoc(n, d);
      assert Zeros(k) + Render(n) + [Digit(d)] == Zeros(k) + (Render(n) + [Digit(d)]);
    }
  }

  lemma OneDigit(c: char)
    requires '0' <= c <= '9'
    ensures Decimal([c]) == ValueOf(c) && Render(ValueOf(c)) == [c]
  {
    DecimalSnoc("", c);
    assert "" + [c] == [c];
  }

  /** Digits are leading zeros followed by the text of the number they denote; the number 0 keeps one zero. */
  lemma {:induction false} DigitsAreRendered(s: string) returns (k: nat)
    requires s != "" && AllDigits(s)
    ensures s == Zeros(k) + Render(Decimal(s))
  {
    var n := |s| - 1;
    var front, last := s[..n], s[n];
    assert s == front + [last];
    if n == 0 {
      k := 0;
      OneDigit(last);
      assert s == [last] == Zeros(0) + [last];
    } else {
      DecimalSnoc(front, last);
      var i := DigitsAreRendered(front);
      k := RenderedSnoc(i, Decimal(front), ValueOf(last));
    }
  }

  lemma {:induction false} ZerosSnoc(k: nat)
    ensures Zeros(k) + "0" == Zeros(k + 1)
  {
    if k > 0 {
      ZerosSnoc(k - 1);
    }
  }

  /**
   What the parser accepts: a path denotes n if and only if n has 64 bits and the path is the decimal
   text of n after any number of zeros. Every other path is refused.
   */
  lemma ParseUintExactly(s: string, n: nat)
    ensures ParseUint(s) == Some(n) <==>
              n < 18446744073709551616 && exists k: nat :: s == Zeros(k) + Render(n)
  {
    if ParseUint(s) == Some(n) {
      var k := DigitsAreRendered(s);
    }
    if k: nat :| n < TWO_64 && s == Zeros(k) + Render(n) {
      ZerosIgnored(k, Render(n));
      ParseRendered(n);
    }
  }

  /** No sign, space, letter or other character is accepted anywhere in a path. */
  lemma OnlyDigitsAccepted(s: string)
    ensures ParseUint(s).Some? ==> s != "" && forall c | c in s :: c in "0123456789"
  {
    if ParseUint(s).Some? {
      forall c | c in s
        ensures c in "0123456789"
      {
        assert "0123456789"[ValueOf(c)] == Digit(ValueOf(c)) == c;
      }
    }
  }

  /** Paths such as `7` and `007` name the same round although they are cached under different keys. */
  lemma {:induction false} LeadingZerosIgnored(s: string)
    requires s != ""
    ensures ParseUint("0" + s) == ParseUint(s)
  {
    assert AllDigits("0" + s) <==> AllDigits(s) by {
      assert forall i | 0 <= i < |s| :: ("0" + s)[i + 1] == s[i];
    }
    if AllDigits(s) {
      LeadingZeroValue(s);
    }
  }

  lemma {:induction false} LeadingZeroValue(s: string)
    requires AllDigits(s) && AllDigits("0" + s)
    ensures Decimal("0" + s) == Decimal(s)
  {
    var t := "0" + s;
    if s == "" {
      assert t[..|t| - 1] == "";
    } else {
      assert t[..|t| - 1] == "0" + s[..|s| - 1];
      LeadingZeroValue(s[..|s| - 1]);
    }
  }
}

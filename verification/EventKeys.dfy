/** The keys of the event log: an event number printed by `format!("{:020}", n)`
    and read back by `str::parse::<u64>`. */
module EventKeys {
  import opened Wrappers
  import opened Ordering

  /** One more than the greatest u64. */
  const U64: nat := 0x1_0000_0000_0000_0000

  /** The number of characters `{:020}` pads to. */
  const WIDTH: nat := 20

  function Digit(d: nat): char
    requires d < 10
  {
    ('0' as int + d) as char
  }

  predicate IsDigit(c: char) {
    '0' <= c <= '9'
  }

  /** Decimal notation without padding. */
  function Decimal(n: nat): string {
    if n < 10 then [Digit(n)] else Decimal(n / 10) + [Digit(n % 10)]
  }

  function Zeros(k: nat): string {
    seq(k, _ => '0')
  }

  /** `{:0w}`: zeros on the left up to width w; a longer number is not cut. */
  function ZeroPad(s: string, w: nat): string {
    if |s| < w then Zeros(w - |s|) + s else s
  }

  function Key(n: nat): string {
    ZeroPad(Decimal(n), WIDTH)
  }

  predicate AllDigits(s: string) {
    forall i :: 0 <= i < |s| ==> IsDigit(s[i])
  }

  /** The number a string of digits denotes. */
  function Value(s: string): nat
    requires AllDigits(s)
  {
    if s == "" then 0 else Value(s[..|s| - 1]) * 10 + (s[|s| - 1] as int - '0' as int)
  }

  /** `str::parse::<u64>`: an optional plus sign, at least one digit, no overflow. */
  function ParseU64(s: string): Option<nat> {
    var digits := if s != "" && s[0] == '+' then s[1..] else s;
    if digits != "" && AllDigits(digits) && Value(digits) < U64 then Some(Value(digits)) else None
  }

  function Pow10(w: nat): nat {
    if w == 0 then 1 else 10 * Pow10(w - 1)
  }

  // ------------------------------------------------------------- printing

  lemma {:induction false} DecimalValue(n: nat)
    ensures Decimal(n) != "" && AllDigits(Decimal(n)) && Value(Decimal(n)) == n
  {
    if n >= 10 {
      DecimalValue(n / 10);
      assert Decimal(n)[..|Decimal(n)| - 1] == Decimal(n / 10);
    } else {
      assert Decimal(n)[..0] == "";
    }
  }

  lemma {:induction false} DecimalLength(n: nat, w: nat)
    requires n < Pow10(w) && w > 0
    ensures |Decimal(n)| <= w
  {
    if n >= 10 {
      DecimalLength(n / 10, w - 1);
    }
  }

  lemma {:induction false} ZerosValue(k: nat, s: string)
    requires AllDigits(s)
    ensures AllDigits(Zeros(k) + s) && Value(Zeros(k) + s) == Value(s)
  {
    var t := Zeros(k) + s;
    if s != "" {
      ZerosValue(k, s[..|s| - 1]);
      assert t[..|t| - 1] == Zeros(k) + s[..|s| - 1];
    } else if k > 0 {
      ZerosValue(k - 1, "");
      assert t[..|t| - 1] == Zeros(k - 1) + "";
    }
  }

  lemma U64FitsWidth()
    ensures U64 <= Pow10(WIDTH)
  {
    assert Pow10(10) == 10_000_000_000;
    assert Pow10(20) == 100_000_000_000_000_000_000;
  }

  lemma KeyShape(n: nat)
    requires n < U64
    ensures |Key(n)| == WIDTH && AllDigits(Key(n)) && Value(Key(n)) == n
  {
    U64FitsWidth();
    DecimalValue(n);
    DecimalLength(n, WIDTH);
    ZerosValue(WIDTH - |Decimal(n)|, Decimal(n));
  }

  // -------------------------------------------------------- main results

  /** Reading a key back gives the event number. */
  lemma ParseKey(n: nat)
    requires n < U64
    ensures ParseU64(Key(n)) == Some(n)
  {
    KeyShape(n);
    assert Key(n)[0] != '+' by { assert IsDigit(Key(n)[0]); }
  }

  lemma KeyInjective(m: nat, n: nat)
    requires m < U64 && n < U64 && Key(m) == Key(n)
    ensures m == n
  {
    ParseKey(m);
    ParseKey(n);
  }

  // Among digit strings of one length, lexicographic and numeric order agree.
  lemma {:induction false} DigitsOrder(a: string, b: string)
    requires |a| == |b| && AllDigits(a) && AllDigits(b)
    ensures LexLess(a, b) <==> Value(a) < Value(b)
    ensures a == b <==> Value(a) == Value(b)
  {
    if a != "" {
      var i := |a| - 1;
      DigitsOrder(a[..i], b[..i]);
      assert a == a[..i] + [a[i]] && b == b[..i] + [b[i]];
      assert IsDigit(a[i]) && IsDigit(b[i]);
      LexSnoc(a[..i], a[i], b[..i], b[i]);
    }
  }

  /** The ordered map sorts event keys by event number. */
  lemma KeyOrder(m: nat, n: nat)
    requires m < U64 && n < U64
    ensures LexLess(Key(m), Key(n)) <==> m < n
  {
    KeyShape(m);
    KeyShape(n);
    DigitsOrder(Key(m), Key(n));
  }

  /** Twenty digits is enough and unpadded decimal is not: `10` sorts before `9`. */
  lemma UnpaddedOrderFails()
    ensures LexLess(Decimal(10), Decimal(9))
  {
    assert Decimal(10) == "10" && Decimal(9) == "9";
  }
}

/**
 * The offer block: the two quantity pickers (subscription and one-time),
 * the order bump with its clamped quantity and toast, and the countdown to
 * midnight shown as two-digit hours, minutes and seconds.
 */
module OfferSection {
  import opened JsText

  // ---------------------------------------------------------------------------
  // Countdown arithmetic
  // ---------------------------------------------------------------------------

  const MsPerHour := 3600000
  const MsPerMinute := 60000
  const MsPerSecond := 1000

  /** `Math.floor(a / b)` for a positive divisor. */
  function FloorDiv(a: int, b: int): int
    requires b > 0
  {
    a / b
  }

  /**
   * JavaScript's `a % b`: the remainder takes the sign of the dividend, is
   * smaller than the divisor in magnitude, and differs from the dividend by
   * a multiple of the divisor.
   */
  function JsRem(a: int, b: int): (r: int)
    requires b > 0
    ensures a >= 0 ==> 0 <= r < b
    ensures a < 0 ==> -b < r <= 0
    ensures (a - r) % b == 0
  {
    if a >= 0 then
      assert a - a % b == (a / b) * b;
      MultipleRem(a / b, b);
      a % b
    else
      var q := (-a) / b;
      assert -a == q * b + (-a) % b;
      assert a - -((-a) % b) == (-q) * b;
      MultipleRem(-q, b);
      -((-a) % b)
  }

  /** A multiple of `b` leaves no remainder. */
  lemma MultipleRem(q: int, b: int)
    requires b > 0
    ensures (q * b) % b == 0
  {
    RemainderUnique(q * b, q, 0, b);
  }

  /** The hours field: the whole hours left. */
  function CountdownHours(diff: int): (h: int)
    ensures diff >= 0 ==> h >= 0
    ensures h * MsPerHour <= diff < h * MsPerHour + MsPerHour
  {
    FloorDiv(diff, MsPerHour)
  }

  /** The minutes field: a clock reading for the time left. */
  function CountdownMinutes(diff: int): (m: int)
    ensures diff >= 0 ==> 0 <= m < 60
  {
    FloorDiv(JsRem(diff, MsPerHour), MsPerMinute)
  }

  /** The seconds field: a clock reading for the time left. */
  function CountdownSeconds(diff: int): (s: int)
    ensures diff >= 0 ==> 0 <= s < 60
  {
    FloorDiv(JsRem(diff, MsPerMinute), MsPerSecond)
  }

  /**
   * For the time left until midnight (never negative), minutes and seconds
   * are clock readings, and the three fields account for the whole time
   * left to within the second they truncate.
   */
  lemma CountdownDecomposition(diff: int)
    requires diff >= 0
    ensures var h, m, s := CountdownHours(diff), CountdownMinutes(diff), CountdownSeconds(diff);
      && h >= 0 && 0 <= m < 60 && 0 <= s < 60
      && h * MsPerHour + m * MsPerMinute + s * MsPerSecond <= diff
      && diff < h * MsPerHour + m * MsPerMinute + s * MsPerSecond + MsPerSecond
  {
    var h, rh := diff / MsPerHour, diff % MsPerHour;
    var m, rm := rh / MsPerMinute, rh % MsPerMinute;
    assert CountdownMinutes(diff) == m;
    RemainderUnique(diff, h * 60 + m, rm, MsPerMinute);
    assert CountdownSeconds(diff) == rm / MsPerSecond;
  }

  /** A quotient and remainder that recompose `a` are `a / b` and `a % b`. */
  lemma RemainderUnique(a: int, q: int, r: int, b: int)
    requires b > 0 && a == q * b + r && 0 <= r < b
    ensures a % b == r
  {
    var d := q - a / b;
    assert d * b == a % b - r;
  }

  /**
   * `String(n).padStart(2, "0")`. A field is never shorter than two
   * characters; it shows every value below 100 in exactly two digits, never
   * loses digits of a larger value, and reads back as the number it shows.
   */
  function Pad2(n: int): (t: string)
    ensures 2 <= |t|
    ensures n >= 0 ==> AllDigits(t) && ParseDecimal(t) == n
    ensures 0 <= n < 100 ==> |t| <= 2
  {
    PaddedNumeral(n);
    PadStart(IntToString(n), 2, '0')
  }

  lemma PaddedNumeral(n: int)
    ensures var t := PadStart(IntToString(n), 2, '0');
      && |t| >= 2
      && (n >= 0 ==> AllDigits(t) && ParseDecimal(t) == n)
      && (0 <= n < 100 ==> |t| == 2)
  {
    if n >= 0 {
      PadDigits(IntToString(n), PadStart(IntToString(n), 2, '0'));
      if n < 100 {
        NatToDecimalLength(n);
      }
    }
  }

  /** Zeros put in front of a numeral keep it a numeral of the same value. */
  lemma PadDigits(d: string, t: string)
    requires AllDigits(d) && t == PadStart(d, 2, '0')
    ensures AllDigits(t) && ParseDecimal(t) == ParseDecimal(d)
  {
    if |d| < 2 {
      ParseLeadingZeros(2 - |d|, d);
    }
  }

  lemma NatToDecimalLength(n: nat)
    requires n < 100
    ensures |NatToDecimal(n)| <= 2
  {
    if n >= 10 {
      assert NatToDecimal(n) == NatToDecimal(n / 10) + [DigitChar(n % 10)];
    }
  }

  /** The hours, minutes and seconds shown when `diff` milliseconds are left. */
  function CountdownText(diff: int): (string, string, string) {
    (Pad2(CountdownHours(diff)), Pad2(CountdownMinutes(diff)), Pad2(CountdownSeconds(diff)))
  }

  // ---------------------------------------------------------------------------
  // Quantity pickers and the order bump
  // ---------------------------------------------------------------------------

  /** The pack counts offered by both pickers, in display order. */
  const QuantityOptions: seq<nat> := [1, 2, 3, 5]

  const BumpMin := 1
  const BumpMax := 5

  /** The minus button: `Math.max(1, bumpQty - 1)`. */
  function BumpDecrement(q: int): (r: int)
    ensures r >= BumpMin
    ensures q > BumpMin ==> r == q - 1
    ensures q <= BumpMin ==> r == BumpMin
  {
    if q - 1 > BumpMin then q - 1 else BumpMin
  }

  /** The plus button: `Math.min(5, bumpQty + 1)`. */
  function BumpIncrement(q: int): (r: int)
    ensures r <= BumpMax
    ensures q < BumpMax ==> r == q + 1
    ensures q >= BumpMax ==> r == BumpMax
  {
    if q + 1 < BumpMax then q + 1 else BumpMax
  }

  /** A toast message and how long it stays, in milliseconds. */
  datatype Toast = Toast(text: string, durationMs: nat)

  /** The toast after a bump toggle: it names the new state and shows for two seconds. */
  function BumpToast(added: bool): (toast: Toast)
    ensures toast.durationMs == 2000
    ensures added <==> toast.text == "\U{2705} D3+K2 added"
    ensures !added <==> toast.text == "\U{274C} D3+K2 removed"
  {
    Toast(if added then "\U{2705} D3+K2 added" else "\U{274C} D3+K2 removed", 2000)
  }

  class Offer {
    var subQty: int
    var oneTimeQty: int
    var bumpAdded: bool
    var bumpQty: int
    var hours: string
    var minutes: string
    var seconds: string

    /** The bump quantity stays within the buttons' range. */
    ghost predicate Valid()
      reads this
    {
      BumpMin <= bumpQty <= BumpMax
    }

    /**
     * Two subscription packs preselected, no one-time pack, no bump, one
     * bump unit, and a placeholder countdown until the first update.
     */
    constructor ()
      ensures Valid()
      ensures subQty == 2 && oneTimeQty == 0 && !bumpAdded && bumpQty == 1
      ensures hours == "06" && minutes == "42" && seconds == "18"
    {
      subQty, oneTimeQty, bumpAdded, bumpQty := 2, 0, false, 1;
      hours, minutes, seconds := "06", "42", "18";
    }

    /** The subscription option at `i` is marked selected. */
    predicate SubSelected(i: nat)
      reads this
    {
      i < |QuantityOptions| && subQty == QuantityOptions[i]
    }

    predicate OneTimeSelected(i: nat)
      reads this
    {
      i < |QuantityOptions| && oneTimeQty == QuantityOptions[i]
    }

    /** Choosing subscription option `i` selects it and only it. */
    method ChooseSubscription(i: nat)
      requires i < |QuantityOptions|
      modifies this`subQty
      ensures subQty == QuantityOptions[i]
      ensures forall j: nat :: SubSelected(j) <==> j == i
    {
      subQty := QuantityOptions[i];
    }

    /** Choosing one-time option `i` selects it and only it. */
    method ChooseOneTime(i: nat)
      requires i < |QuantityOptions|
      modifies this`oneTimeQty
      ensures oneTimeQty == QuantityOptions[i]
      ensures forall j: nat :: OneTimeSelected(j) <==> j == i
    {
      oneTimeQty := QuantityOptions[i];
    }

    /** `handleBumpToggle`: flips the bump and announces the new state. */
    method ToggleBump() returns (toast: Toast)
      modifies this`bumpAdded
      ensures bumpAdded == !old(bumpAdded)
      ensures toast == BumpToast(bumpAdded)
    {
      var next := !bumpAdded;
      bumpAdded := next;
      toast := BumpToast(next);
    }

    method DecrementBump()
      requires Valid()
      modifies this`bumpQty
      ensures Valid() && bumpQty == BumpDecrement(old(bumpQty))
    {
      bumpQty := if bumpQty - 1 > BumpMin then bumpQty - 1 else BumpMin;
    }

    method IncrementBump()
      requires Valid()
      modifies this`bumpQty
      ensures Valid() && bumpQty == BumpIncrement(old(bumpQty))
    {
      bumpQty := if bumpQty + 1 < BumpMax then bumpQty + 1 else BumpMax;
    }

    /** The countdown's `update`, given the milliseconds left until midnight. */
    method UpdateCountdown(diff: int)
      modifies this`hours, this`minutes, this`seconds
      ensures (hours, minutes, seconds) == CountdownText(diff)
    {
      var text := CountdownText(diff);
      hours := text.0;
      minutes := text.1;
      seconds := text.2;
    }
  }
}

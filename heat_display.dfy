/**
  The heat display (Assets/Scripts/DisplayClickIncrement.cs): an integer counter
  that steps on each click while the display switch is on, wraps back to its
  minimum past its maximum, and is shown zero-padded to three digits. Its value
  is the heat reading the welding gun classifies.
*/
module HeatDisplay {
  import opened Switch

  /** The counter's shipped settings. */
  const DefaultValue: int := 0
  const DefaultMin: int := 0
  const DefaultMax: int := 200
  const DefaultStep: int := 5

  /** The counter after one effective click: `step` more, or `minValue` once past `maxValue`. */
  function NextValue(v: int, step: int, minValue: int, maxValue: int): (r: int)
    ensures v + step <= maxValue ==> r == v + step
    ensures maxValue < v + step ==> r == minValue
    ensures minValue <= v <= maxValue && 0 <= step ==> minValue <= r <= maxValue
  {
    var w := v + step;
    if w > maxValue then minValue else w
  }

  /** The counter after `k` effective clicks from the shipped settings. */
  function DefaultClicks(k: nat): int
  {
    if k == 0 then DefaultValue else NextValue(DefaultClicks(k - 1), DefaultStep, DefaultMin, DefaultMax)
  }

  /** From the shipped settings the counter runs 5, 10, ..., 200 and then wraps to 0: a cycle of 41 clicks. */
  lemma {:induction false} DefaultClicksCycle(k: nat)
    ensures DefaultClicks(k) == 5 * (k % 41)
  {
    if k > 0 {
      DefaultClicksCycle(k - 1);
      if (k - 1) % 41 == 40 {
        assert k % 41 == 0;
      } else {
        assert k % 41 == (k - 1) % 41 + 1;
      }
    }
  }

  // ---------------------------------------------------------------------------
  // The "D3" text
  // ---------------------------------------------------------------------------

  predicate IsDigit(c: char)
  {
    '0' <= c <= '9'
  }

  function DigitChar(d: int): (c: char)
    requires 0 <= d < 10
    ensures IsDigit(c) && (c as int) - ('0' as int) == d
  {
    ('0' as int + d) as char
  }

  /** The decimal digits of `n`, without leading zeros. */
  function Digits(n: nat): (s: string)
    ensures 1 <= |s|
    ensures forall i :: 0 <= i < |s| ==> IsDigit(s[i])
    ensures n < 10 ==> |s| == 1
    ensures n < 100 ==> |s| <= 2
    ensures n < 1000 ==> |s| <= 3
    ensures 0 < n ==> s[0] != '0'
    ensures 100 <= n ==> 3 <= |s|
    ensures 1000 <= n ==> 4 <= |s|
    decreases n
  {
    if n < 10 then [DigitChar(n)] else Digits(n / 10) + [DigitChar(n % 10)]
  }

  function Zeros(k: nat): (s: string)
    ensures |s| == k && forall i :: 0 <= i < k ==> s[i] == '0'
  {
    if k == 0 then [] else Zeros(k - 1) + ['0']
  }

  /** `s` with zeros in front up to three characters. */
  function PadTo3(s: string): (r: string)
    ensures |r| == if |s| < 3 then 3 else |s|
    ensures 3 <= |s| ==> r == s
  {
    if |s| < 3 then Zeros(3 - |s|) + s else s
  }

  /** `int.ToString("D3")`: the digits zero-padded to at least three, after a minus sign when negative. */
  function FormatD3(v: int): (t: string)
    ensures 0 <= v ==> 3 <= |t| && forall i :: 0 <= i < |t| ==> IsDigit(t[i])
    ensures 0 <= v < 1000 ==> |t| == 3
    ensures v < 0 ==> 4 <= |t| && t[0] == '-' && forall i :: 1 <= i < |t| ==> IsDigit(t[i])
    ensures 1000 <= v ==> 4 <= |t| && t[0] != '0'
    ensures v <= -1000 ==> 5 <= |t|
    ensures 0 <= v ==> |t| == 3 || t[0] != '0'
    ensures v < 0 ==> |t| == 4 || t[1] != '0'
  {
    if v < 0 then "-" + PadTo3(Digits(-v)) else PadTo3(Digits(v))
  }

  /** The number a string of decimal digits denotes. */
  function DecimalValue(s: string): int
  {
    if s == [] then 0 else 10 * DecimalValue(s[..|s| - 1]) + ((s[|s| - 1] as int) - ('0' as int))
  }

  /** The number a "D3" text denotes. */
  function ReadD3(t: string): int
  {
    if |t| > 0 && t[0] == '-' then -DecimalValue(t[1..]) else DecimalValue(t)
  }

  lemma {:induction false} DigitsValue(n: nat)
    ensures DecimalValue(Digits(n)) == n
    decreases n
  {
    if n >= 10 {
      var s := Digits(n);
      assert s[..|s| - 1] == Digits(n / 10);
      DigitsValue(n / 10);
    }
  }

  lemma {:induction false} LeadingZerosValue(k: nat, s: string)
    ensures DecimalValue(Zeros(k) + s) == DecimalValue(s)
    decreases |s|
  {
    if s == [] {
      assert Zeros(k) + s == Zeros(k);
      ZerosValue(k);
    } else {
      var z := Zeros(k) + s;
      assert z[..|z| - 1] == Zeros(k) + s[..|s| - 1];
      LeadingZerosValue(k, s[..|s| - 1]);
    }
  }

  lemma {:induction false} ZerosValue(k: nat)
    ensures DecimalValue(Zeros(k)) == 0
  {
    if k > 0 {
      assert Zeros(k)[..k - 1] == Zeros(k - 1);
      ZerosValue(k - 1);
    }
  }

  /** Reading the "D3" text gives back the counter value. */
  lemma FormatD3RoundTrip(v: int)
    ensures ReadD3(FormatD3(v)) == v
  {
    var n: nat := if v < 0 then -v else v;
    DigitsValue(n);
    var d := Digits(n);
    if |d| < 3 {
      LeadingZerosValue(3 - |d|, d);
    }
    if v < 0 {
      assert FormatD3(v)[1..] == PadTo3(d);
    } else {
      assert FormatD3(v)[0] != '-';
    }
  }

  /** The heat display. */
  class DisplayClickIncrement {
    /** The display power switch; `null` when none is assigned. */
    const switchToggle: SwitchToggle?
    /** A text component is assigned. */
    const hasDisplayText: bool
    const minValue: int
    const maxValue: int
    const step: int
    var value: int
    /** The displayed text. */
    var text: string

    /**
      A display with the inspector's start value, range and step (the shipped
      ones are `DefaultValue`, `DefaultMin`, `DefaultMax` and `DefaultStep`).
    */
    constructor(switchToggle: SwitchToggle?, hasDisplayText: bool,
                value: int, minValue: int, maxValue: int, step: int)
      ensures this.switchToggle == switchToggle && this.hasDisplayText == hasDisplayText
      ensures this.value == value && this.minValue == minValue && this.maxValue == maxValue && this.step == step
      ensures text == ""
    {
      this.switchToggle := switchToggle;
      this.hasDisplayText := hasDisplayText;
      this.minValue := minValue;
      this.maxValue := maxValue;
      this.step := step;
      this.value := value;
      text := "";
    }

    /** The display is powered: a switch is assigned and it is on. */
    predicate Powered()
      reads this, switchToggle
    {
      switchToggle != null && switchToggle.isOn
    }

    /**
      A click steps the counter only while the display is powered, and then shows
      the new value.
    */
    method OnDisplayClicked()
      modifies this
      ensures value == (if old(Powered()) then NextValue(old(value), step, minValue, maxValue) else old(value))
      ensures text == (if old(Powered()) && hasDisplayText then FormatD3(value) else old(text))
    {
      if switchToggle != null && switchToggle.isOn {
        value := value + step;
        if value > maxValue {
          value := minValue;
        }
        if hasDisplayText {
          text := FormatD3(value);
        }
      }
    }

    /** Each frame the text shows the value while powered and is empty otherwise. */
    method Update()
      modifies this
      ensures value == old(value)
      ensures text == (if !hasDisplayText then old(text) else if Powered() then FormatD3(value) else "")
    {
      if switchToggle != null && switchToggle.isOn {
        if hasDisplayText {
          text := FormatD3(value);
        }
      } else {
        if hasDisplayText {
          text := "";
        }
      }
    }
  }
}

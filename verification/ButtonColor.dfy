/** The ripple colour of a button, computed from the colour of the button. */
module ButtonColor {
  import opened Basics

  datatype Rgb = Rgb(red: real, green: real, blue: real)

  function Abs(x: real): real {
    if x < 0.0 then -x else x
  }

  // The remainder operator of the language truncates the quotient.
  function Rem(x: real, y: real): real
    requires y > 0.0
  {
    var q := x / y;
    x - y * (if q < 0.0 then -((-q).Floor) else q.Floor) as real
  }

  function Round(x: real): int {
    (x + 0.5).Floor
  }

  // ---- hexadecimal text ----

  predicate IsHexDigit(c: char) {
    '0' <= c <= '9' || 'a' <= c <= 'f' || 'A' <= c <= 'F'
  }

  function DigitValue(c: char): (r: int)
    requires IsHexDigit(c)
    ensures 0 <= r < 16
  {
    if c <= '9' then c as int - '0' as int
    else if c <= 'F' then c as int - 'A' as int + 10
    else c as int - 'a' as int + 10
  }

  function Digit(n: int): (c: char)
    requires 0 <= n < 16
    ensures IsHexDigit(c) && DigitValue(c) == n
  {
    if n < 10 then n as char + '0' else (n - 10) as char + 'a'
  }

  // The number as text in base 16.
  function HexText(n: nat): string {
    if n < 16 then [Digit(n)] else HexText(n / 16) + [Digit(n % 16)]
  }

  function ParseHex(text: string): nat
    requires forall c <- text :: IsHexDigit(c)
  {
    if text == [] then 0 else 16 * ParseHex(text[..|text| - 1]) + DigitValue(text[|text| - 1])
  }

  function HexByte(value: real): string {
    var text := HexText(Max(0, Min(255, Round(value))));
    (if |text| < 2 then "0" else "") + text
  }

  predicate IsColor(value: string) {
    |value| == 7 && value[0] == '#' && forall i :: 1 <= i < 7 ==> IsHexDigit(value[i])
  }

  function Channel(value: string, k: nat): (r: int)
    requires IsColor(value) && k < 3
    ensures 0 <= r <= 255
  {
    var text := value[1 + 2 * k..3 + 2 * k];
    ChannelRange(text);
    ParseHex(text)
  }

  lemma ChannelRange(text: string)
    requires |text| == 2 && IsHexDigit(text[0]) && IsHexDigit(text[1])
    ensures forall c <- text :: IsHexDigit(c)
    ensures ParseHex(text) == 16 * DigitValue(text[0]) + DigitValue(text[1])
  {
    assert text[..1][..0] == [];
    assert ParseHex(text[..1]) == DigitValue(text[0]);
  }

  // A byte is written as exactly the two digits that are read back as the rounded value.
  lemma HexByteValue(value: real)
    ensures var text := HexByte(value);
      && |text| == 2 && IsHexDigit(text[0]) && IsHexDigit(text[1])
      && 16 * DigitValue(text[0]) + DigitValue(text[1]) == Max(0, Min(255, Round(value)))
  {
    var n := Max(0, Min(255, Round(value)));
    if n >= 16 {
      assert HexText(n / 16) == [Digit(n / 16)];
    }
  }

  // Digits are read in both cases and written in lower case.
  lemma HexDigits(n: nat)
    requires n < 16
    ensures Digit(n) == "0123456789abcdef"[n]
    ensures IsHexDigit("0123456789abcdef"[n]) && DigitValue("0123456789abcdef"[n]) == n
    ensures IsHexDigit("0123456789ABCDEF"[n]) && DigitValue("0123456789ABCDEF"[n]) == n
  {
  }

  lemma ChannelDigits(value: string, k: nat)
    requires IsColor(value) && k < 3
    ensures Channel(value, k) == 16 * DigitValue(value[1 + 2 * k]) + DigitValue(value[2 + 2 * k])
  {
    ChannelRange(value[1 + 2 * k..3 + 2 * k]);
  }

  // Rounding takes the nearest integer, the greater one of two.
  lemma RoundIsNearest(x: real)
    ensures Round(x) as real - 0.5 <= x < Round(x) as real + 0.5
  {
  }

  // ---- the colour wheel ----

  function Hue(red: int, green: int, blue: int): real {
    var maximum := Max(red, Max(green, blue));
    var delta := maximum - Min(red, Min(green, blue));
    var hue :=
      if delta != 0 && maximum == red then
        60.0 * Rem((green - blue) as real / delta as real, 6.0)
      else if delta != 0 && maximum == green then
        60.0 * ((blue - red) as real / delta as real + 2.0)
      else if delta != 0 then
        60.0 * ((red - green) as real / delta as real + 4.0)
      else 0.0;
    if hue < 0.0 then hue + 360.0 else hue
  }

  function Saturation(maximum: int, minimum: int): real {
    if maximum == 0 then 0.0 else (maximum - minimum) as real / maximum as real
  }

  function NextValue(maximum: int): int {
    Max(0, Min(255, maximum + if maximum > 128 then -32 else 32))
  }

  function Wheel(hue: real, chroma: real): Rgb {
    var x := chroma * (1.0 - Abs(Rem(hue / 60.0, 2.0) - 1.0));
    if hue < 60.0 then Rgb(chroma, x, 0.0)
    else if hue < 120.0 then Rgb(x, chroma, 0.0)
    else if hue < 180.0 then Rgb(0.0, chroma, x)
    else if hue < 240.0 then Rgb(0.0, x, chroma)
    else if hue < 300.0 then Rgb(x, 0.0, chroma)
    else Rgb(chroma, 0.0, x)
  }

  // The wheel's colour, brought to the value that is wanted.
  function Compose(hue: real, saturation: real, nextValue: real): Rgb {
    var chroma := nextValue * saturation;
    var m := nextValue - chroma;
    var next := Wheel(hue, chroma);
    Rgb(next.red + m, next.green + m, next.blue + m)
  }

  // The channels before they are rounded.
  function Shifted(red: int, green: int, blue: int): Rgb {
    var maximum := Max(red, Max(green, blue));
    var minimum := Min(red, Min(green, blue));
    Compose(Hue(red, green, blue), Saturation(maximum, minimum), NextValue(maximum) as real)
  }

  function ButtonRipple(value: string): Option<string> {
    if !IsColor(value) then None
    else
      var next := Shifted(Channel(value, 0), Channel(value, 1), Channel(value, 2));
      Some("#" + HexByte(next.red) + HexByte(next.green) + HexByte(next.blue))
  }

  // ---- what the wheel amounts to ----

  // The share of the chroma that the middle channel gets, by the position on the wheel in sixths.
  function Share(p: real): real {
    if p <= 1.0 then p
    else if p <= 2.0 then 2.0 - p
    else if p <= 3.0 then p - 2.0
    else if p <= 4.0 then 4.0 - p
    else if p <= 5.0 then p - 4.0
    else 6.0 - p
  }

  // Which channel is the largest, the middle and the smallest there.
  function Arranged(p: real, largest: real, middle: real, smallest: real): Rgb {
    if p <= 1.0 then Rgb(largest, middle, smallest)
    else if p <= 2.0 then Rgb(middle, largest, smallest)
    else if p <= 3.0 then Rgb(smallest, largest, middle)
    else if p <= 4.0 then Rgb(smallest, middle, largest)
    else if p <= 5.0 then Rgb(middle, smallest, largest)
    else Rgb(largest, smallest, middle)
  }

  lemma Triangle(p: real)
    requires 0.0 <= p < 6.0
    ensures 1.0 - Abs(Rem(p, 2.0) - 1.0) == Share(p)
  {
    var q := p / 2.0;
    assert 0.0 <= q < 3.0;
    assert q.Floor == if q < 1.0 then 0 else if q < 2.0 then 1 else 2;
  }

  lemma SmallRem(t: real)
    requires -1.0 <= t <= 1.0
    ensures Rem(t, 6.0) == t
  {
    var q := t / 6.0;
    assert -1.0 < q < 1.0;
    assert q < 0.0 ==> (-q).Floor == 0;
    assert q >= 0.0 ==> q.Floor == 0;
  }

  // ---- arithmetic of proportions ----

  lemma Cancel(w: real, v: real, d: real)
    requires d > 0.0
    ensures w * d == v * d ==> w == v
    ensures w * d <= v * d ==> w <= v
  {
    assert w * d - v * d == (w - v) * d;
  }

  lemma Ratio(n: real, d: real)
    requires d > 0.0 && -d <= n <= d
    ensures -1.0 <= n / d <= 1.0 && (-n) / d == -(n / d)
    ensures (n >= 0.0 ==> n / d >= 0.0) && (n < 0.0 ==> n / d < 0.0)
    ensures (n == d ==> n / d == 1.0) && (n == -d ==> n / d == -1.0)
  {
    var q, r := n / d, (-n) / d;
    assert q * d == n && r * d == -n;
    assert (-q) * d == -n;
    Cancel(r, -q, d);
    Cancel(q, 1.0, d);
    Cancel(-1.0, q, d);
    Cancel(0.0, q, d);
  }

  // A part of the chroma is the part of the value.
  lemma PartOfChroma(v: real, max: real, d: real, n: real)
    requires max > 0.0 && d > 0.0
    ensures v * (d / max) * (n / d) == n * v / max
  {
    var q, t, w := d / max, n / d, n / max;
    assert q * max == d && t * d == n && w * max == n;
    assert q * t * max == t * (q * max);
    Cancel(q * t, w, max);
    assert v * q * t == v * (q * t);
    assert v * w == n * v / max;
  }

  lemma Spread(whole: real, part: real, v: real, max: real)
    requires max > 0.0
    ensures whole * v / max - part * v / max == (whole - part) * v / max
    ensures max * v / max == v
  {
    assert whole * v - part * v == (whole - part) * v;
  }

  // The largest, the smallest and the middle channel, put together from the chroma.
  lemma Parts(v: real, max: real, min: real, mid: real, chroma: real)
    requires min < max && max > 0.0 && chroma == v * ((max - min) / max)
    ensures chroma + (v - chroma) == Proportion(max, v, max) && 0.0 + (v - chroma) == Proportion(min, v, max)
    ensures chroma * ((mid - min) / (max - min)) + (v - chroma) == Proportion(mid, v, max)
  {
    var d := max - min;
    assert chroma == d * v / max by {
      PartOfChroma(v, max, d, d);
      Ratio(d, d);
      assert v * (d / max) * 1.0 == v * (d / max);
    }
    PartOfChroma(v, max, d, mid - min);
    Spread(max, d, v, max);
    Spread(mid, mid - min, v, max);
  }

  // The sixth of the wheel a hue is in.
  lemma SixthOf(p: real, k: int)
    ensures 60.0 * p / 60.0 == p
    ensures 60.0 * p < 60.0 * k as real <==> p < k as real
  {
  }

  lemma WheelAt(p: real, chroma: real)
    requires 0.0 <= p < 6.0
    ensures Wheel(60.0 * p, chroma) == Arranged(p, chroma, chroma * Share(p), 0.0)
  {
    Triangle(p);
    SixthOf(p, 1);
    SixthOf(p, 2);
    SixthOf(p, 3);
    SixthOf(p, 4);
    SixthOf(p, 5);
    WheelEdges(p, chroma);
  }

  // Between two sixths the middle channel is the largest one or the smallest one.
  lemma WheelEdges(p: real, chroma: real)
    ensures p == 1.0 || p == 3.0 || p == 5.0 ==> chroma * Share(p) == chroma
    ensures p == 2.0 || p == 4.0 ==> chroma * Share(p) == 0.0
  {
    assert chroma * 1.0 == chroma && chroma * 0.0 == 0.0;
  }

  // The largest, the middle and the smallest channel of a composed colour.
  predicate AreParts(largest: real, middle: real, smallest: real, share: real, saturation: real, v: real) {
    var chroma := v * saturation;
    var m := v - chroma;
    largest == chroma + m && middle == chroma * share + m && smallest == 0.0 + m
  }

  lemma ComposeAt(p: real, saturation: real, v: real, largest: real, middle: real, smallest: real)
    requires 0.0 <= p < 6.0 && AreParts(largest, middle, smallest, Share(p), saturation, v)
    ensures Compose(60.0 * p, saturation, v) == Arranged(p, largest, middle, smallest)
  {
    WheelAt(p, v * saturation);
  }

  predicate IsByte(x: int) {
    0 <= x <= 255
  }

  function Proportion(channel: real, v: real, max: real): real
    requires max > 0.0
  {
    channel * v / max
  }

  function Scaled(channel: int, maximum: int): real
    requires maximum >= 0
  {
    if maximum == 0 then 32.0 else Proportion(channel as real, NextValue(maximum) as real, maximum as real)
  }

  // A position on the wheel that arranges the channels and gives the middle one its share.
  ghost predicate IsPosition(p: real, color: Rgb, largest: real, middle: real, smallest: real)
    requires smallest < largest
  {
    && 0.0 <= p < 6.0
    && Arranged(p, largest, middle, smallest) == color
    && Share(p) == (middle - smallest) / (largest - smallest)
  }

  lemma RedPosition(red: real, green: real, blue: real, t: real)
    requires green <= red && blue <= red && (green < red || blue < red)
    requires t == (green - blue) / (red - if green < blue then green else blue)
    ensures -1.0 <= t <= 1.0
    ensures green >= blue ==> t >= 0.0 && IsPosition(t, Rgb(red, green, blue), red, green, blue)
    ensures green < blue ==> t < 0.0 && IsPosition(t + 6.0, Rgb(red, green, blue), red, blue, green)
  {
    var d := red - if green < blue then green else blue;
    Ratio(green - blue, d);
    assert blue - green == -(green - blue);
  }

  lemma GreenPosition(red: real, green: real, blue: real, t: real)
    requires red < green && blue <= green
    requires t == (blue - red) / (green - if red < blue then red else blue)
    ensures blue >= red ==> IsPosition(t + 2.0, Rgb(red, green, blue), green, blue, red)
    ensures blue < red ==> IsPosition(t + 2.0, Rgb(red, green, blue), green, red, blue)
    ensures t + 2.0 >= 0.0
  {
    var d := green - if red < blue then red else blue;
    Ratio(blue - red, d);
    assert red - blue == -(blue - red);
  }

  lemma BluePosition(red: real, green: real, blue: real, t: real)
    requires red < blue && green < blue
    requires t == (red - green) / (blue - if red < green then red else green)
    ensures red >= green ==> IsPosition(t + 4.0, Rgb(red, green, blue), blue, red, green)
    ensures red < green ==> IsPosition(t + 4.0, Rgb(red, green, blue), blue, green, red)
    ensures t + 4.0 >= 0.0
  {
    var d := blue - if red < green then red else green;
    Ratio(red - green, d);
    assert green - red == -(red - green);
  }

  function Reals(red: int, green: int, blue: int): Rgb {
    Rgb(red as real, green as real, blue as real)
  }

  // The hue is a position of the colour, in degrees.
  lemma HueIsPosition(red: int, green: int, blue: int, maximum: int, minimum: int, middle: int) returns (p: real)
    requires !(red == green == blue)
    requires maximum == Max(red, Max(green, blue)) && minimum == Min(red, Min(green, blue))
    requires middle == red + green + blue - maximum - minimum
    ensures Hue(red, green, blue) == 60.0 * p
    ensures IsPosition(p, Reals(red, green, blue), maximum as real, middle as real, minimum as real)
  {
    var d := (maximum - minimum) as real;
    if maximum == red {
      var t := (green - blue) as real / d;
      RedPosition(red as real, green as real, blue as real, t);
      SmallRem(t);
      p := if t < 0.0 then t + 6.0 else t;
    } else if maximum == green {
      GreenPosition(red as real, green as real, blue as real, (blue - red) as real / d);
      p := (blue - red) as real / d + 2.0;
    } else {
      BluePosition(red as real, green as real, blue as real, (red - green) as real / d);
      p := (red - green) as real / d + 4.0;
    }
  }

  lemma ScaledParts(maximum: int, minimum: int, middle: int, share: real)
    requires 0 <= minimum <= middle <= maximum && minimum < maximum
    requires share == (middle as real - minimum as real) / (maximum as real - minimum as real)
    ensures var v, max := NextValue(maximum) as real, maximum as real;
      AreParts(Proportion(max, v, max), Proportion(middle as real, v, max), Proportion(minimum as real, v, max),
        share, Saturation(maximum, minimum), v)
  {
    assert (maximum - minimum) as real == maximum as real - minimum as real;
    Parts(NextValue(maximum) as real, maximum as real, minimum as real, middle as real,
      NextValue(maximum) as real * Saturation(maximum, minimum));
  }

  lemma Rearranged(p: real, color: Rgb, maximum: int, middle: int, minimum: int, v: real)
    requires Arranged(p, maximum as real, middle as real, minimum as real) == color && maximum > 0
    ensures var max := maximum as real;
      Arranged(p, Proportion(max, v, max), Proportion(middle as real, v, max), Proportion(minimum as real, v, max))
        == Rgb(Proportion(color.red, v, max), Proportion(color.green, v, max), Proportion(color.blue, v, max))
  {
  }

  // Every channel keeps its proportion to the largest one, and the grey 32 stands for black.
  lemma ShiftedScales(red: int, green: int, blue: int)
    requires IsByte(red) && IsByte(green) && IsByte(blue)
    ensures var maximum := Max(red, Max(green, blue));
      Shifted(red, green, blue) == Rgb(Scaled(red, maximum), Scaled(green, maximum), Scaled(blue, maximum))
  {
    if red == green == blue {
      GreyScales(red);
    } else {
      var maximum, minimum := Max(red, Max(green, blue)), Min(red, Min(green, blue));
      var middle := red + green + blue - maximum - minimum;
      var p := HueIsPosition(red, green, blue, maximum, minimum, middle);
      var v := NextValue(maximum) as real;
      Composed(p, Reals(red, green, blue), maximum, middle, minimum, v);
    }
  }

  lemma Composed(p: real, color: Rgb, maximum: int, middle: int, minimum: int, v: real)
    requires 0 <= minimum <= middle <= maximum && minimum < maximum && v == NextValue(maximum) as real
    requires IsPosition(p, color, maximum as real, middle as real, minimum as real)
    ensures var max := maximum as real;
      Compose(60.0 * p, Saturation(maximum, minimum), v)
        == Rgb(Proportion(color.red, v, max), Proportion(color.green, v, max), Proportion(color.blue, v, max))
  {
    var max := maximum as real;
    ScaledParts(maximum, minimum, middle, Share(p));
    ComposeAt(p, Saturation(maximum, minimum), v,
      Proportion(max, v, max), Proportion(middle as real, v, max), Proportion(minimum as real, v, max));
    Rearranged(p, color, maximum, middle, minimum, v);
  }

  lemma GreyScales(value: int)
    requires value >= 0
    ensures Shifted(value, value, value) == Rgb(Scaled(value, value), Scaled(value, value), Scaled(value, value))
  {
    var v := NextValue(value) as real;
    assert Saturation(value, value) == 0.0;
    assert v * 0.0 == 0.0;
    WheelAt(0.0, 0.0);
    if value > 0 {
      Spread(0.0, 0.0, v, value as real);
    }
  }

  // The clamp never acts, and no channel leaves the range of a byte.
  lemma ScaledRange(channel: int, maximum: int)
    requires 0 <= channel <= maximum <= 255
    ensures NextValue(maximum) == maximum + (if maximum > 128 then -32 else 32)
    ensures 0.0 <= Scaled(channel, maximum) <= 223.0
  {
    if maximum > 0 {
      Shares(channel as real, NextValue(maximum) as real, maximum as real);
    }
  }

  lemma Shares(c: real, v: real, max: real)
    requires 0.0 <= c <= max && max > 0.0 && v >= 0.0
    ensures 0.0 <= Proportion(c, v, max) <= v
  {
    assert (max - c) * v >= 0.0 && c * v >= 0.0;
    var w := c * v / max;
    assert w * max == c * v && v * max == c * v + (max - c) * v;
    Cancel(w, v, max);
    Cancel(0.0, w, max);
  }

  lemma RippleChannels(a: string, b: string, c: string)
    requires |a| == |b| == |c| == 2
    requires forall i :: 0 <= i < 2 ==> IsHexDigit(a[i]) && IsHexDigit(b[i]) && IsHexDigit(c[i])
    ensures var text := "#" + a + b + c;
      && IsColor(text)
      && Channel(text, 0) == 16 * DigitValue(a[0]) + DigitValue(a[1])
      && Channel(text, 1) == 16 * DigitValue(b[0]) + DigitValue(b[1])
      && Channel(text, 2) == 16 * DigitValue(c[0]) + DigitValue(c[1])
  {
    var text := "#" + a + b + c;
    assert text[1..3] == a && text[3..5] == b && text[5..7] == c;
    ChannelRange(a);
    ChannelRange(b);
    ChannelRange(c);
  }

  // A result exists exactly for a colour, is a colour, and each of its channels is the rounded proportional one.
  lemma RippleScales(value: string)
    ensures ButtonRipple(value).Some? <==> IsColor(value)
    ensures IsColor(value) <==> |value| == 7 && value[0] == '#' && forall i :: 1 <= i < 7 ==>
      '0' <= value[i] <= '9' || 'a' <= value[i] <= 'f' || 'A' <= value[i] <= 'F'
    ensures IsColor(value) ==>
      var maximum := Max(Channel(value, 0), Max(Channel(value, 1), Channel(value, 2)));
      var ripple := ButtonRipple(value).value;
      && IsColor(ripple)
      && Channel(ripple, 0) == Round(Scaled(Channel(value, 0), maximum))
      && Channel(ripple, 1) == Round(Scaled(Channel(value, 1), maximum))
      && Channel(ripple, 2) == Round(Scaled(Channel(value, 2), maximum))
  {
    if IsColor(value) {
      var red, green, blue := Channel(value, 0), Channel(value, 1), Channel(value, 2);
      var maximum := Max(red, Max(green, blue));
      ShiftedScales(red, green, blue);
      var a, b, c := Scaled(red, maximum), Scaled(green, maximum), Scaled(blue, maximum);
      WrittenByte(red, maximum);
      WrittenByte(green, maximum);
      WrittenByte(blue, maximum);
      RippleChannels(HexByte(a), HexByte(b), HexByte(c));
    }
  }

  lemma WrittenByte(channel: int, maximum: int)
    requires 0 <= channel <= maximum <= 255
    ensures var text := HexByte(Scaled(channel, maximum));
      && |text| == 2 && IsHexDigit(text[0]) && IsHexDigit(text[1])
      && 16 * DigitValue(text[0]) + DigitValue(text[1]) == Round(Scaled(channel, maximum))
  {
    ScaledRange(channel, maximum);
    HexByteValue(Scaled(channel, maximum));
  }
}

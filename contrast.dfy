/**
 * Text colour for a tier background: black on light colours, white on dark ones, by the
 * ITU-R BT.601 luma weights (item 2.5.1: 0.299, 0.587, 0.114). Two revisions exist:
 * `Validated` (app/utils.ts) checks the digits and warns, `LengthOnly` (app/lib/utils.ts,
 * repeated in app/page.tsx) checks only the length.
 */
module Contrast {
  import opened Wrappers
  import opened JsString

  const Black: string := "#000000"
  const White: string := "#FFFFFF"

  /** The luma weights scaled by 1000: luminance > 0.5 becomes Weighted > 127500. */
  function Weighted(r: int, g: int, b: int): int {
    299 * r + 587 * g + 114 * b
  }

  /** The three channels as `parseInt` reads them; `None` is NaN. */
  datatype Channels = Channels(r: Option<int>, g: Option<int>, b: Option<int>)

  /** The three channels of a 3- or 6-character colour. */
  function ReadChannels(hex: string): Channels
    requires |hex| == 3 || |hex| == 6
  {
    Channels(ReadChannel(hex, 0), ReadChannel(hex, 1), ReadChannel(hex, 2))
  }

  /**
   * Channel `i`, read by `parseInt` in base 16 from two characters: digit `i` written twice in
   * the short form, digits `2i` and `2i + 1` in the long form.
   */
  function ReadChannel(hex: string, i: nat): Option<int>
    requires |hex| == 3 || |hex| == 6
    requires i < 3
  {
    if |hex| == 3 then ParseIntHex([hex[i], hex[i]])
    else ParseIntHex([hex[2 * i], hex[2 * i + 1]])
  }

  /** `luminance > 0.5 ? black : white`; a NaN channel makes the comparison false. */
  function ByLuminance(c: Channels): (color: string)
    ensures color == Black <==> c.r.Some? && c.g.Some? && c.b.Some? &&
                                Weighted(c.r.value, c.g.value, c.b.value) > 127500
    ensures color == Black || color == White
  {
    if c.r.Some? && c.g.Some? && c.b.Some? && Weighted(c.r.value, c.g.value, c.b.value) > 127500
    then Black else White
  }

  /** The validation pattern: three or six hex digits and nothing else. */
  predicate IsHexColor(hex: string) {
    (|hex| == 3 || |hex| == 6) && AllHex(hex)
  }

  /** Result of the validating variant: the colour and whether `console.warn` was called. */
  datatype Verdict = Verdict(color: string, warned: bool)

  /** `getContrastingTextColor` of app/utils.ts. */
  function Validated(hexColor: Option<string>): (v: Verdict)
    ensures v.color == Black || v.color == White
    ensures v.warned <==> hexColor.Some? && hexColor.value != "" &&
                          !IsHexColor(RemoveFirst(hexColor.value, '#'))
    ensures v.warned ==> v.color == Black
    ensures (hexColor.None? || hexColor.value == "") ==> v == Verdict(Black, false)
  {
    if hexColor.None? || hexColor.value == "" then Verdict(Black, false)
    else
      var hex := RemoveFirst(hexColor.value, '#');
      if !IsHexColor(hex) then Verdict(Black, true)
      else Verdict(ByLuminance(ReadChannels(hex)), false)
  }

  /** `getContrastingTextColor` of app/lib/utils.ts and app/page.tsx. */
  function LengthOnly(hexColor: Option<string>): (color: string)
    ensures color == Black || color == White
    ensures (hexColor.None? || hexColor.value == "") ==> color == Black
    ensures hexColor.Some? ==>
      (|RemoveFirst(hexColor.value, '#')| != 3 && |RemoveFirst(hexColor.value, '#')| != 6 ==> color == Black)
  {
    if hexColor.None? || hexColor.value == "" then Black
    else
      var hex := RemoveFirst(hexColor.value, '#');
      if |hex| != 6 && |hex| != 3 then Black
      else ByLuminance(ReadChannels(hex))
  }

  /** Channel values of a string that passes the validation. */
  function Digits(hex: string): (int, int, int)
    requires IsHexColor(hex)
  {
    if |hex| == 3 then
      (17 * HexDigitValue(hex[0]), 17 * HexDigitValue(hex[1]), 17 * HexDigitValue(hex[2]))
    else
      (16 * HexDigitValue(hex[0]) + HexDigitValue(hex[1]),
       16 * HexDigitValue(hex[2]) + HexDigitValue(hex[3]),
       16 * HexDigitValue(hex[4]) + HexDigitValue(hex[5]))
  }

  /** On valid digits `parseInt` reads exactly the channel values. */
  lemma ReadValidChannels(hex: string)
    requires IsHexColor(hex)
    ensures var (r, g, b) := Digits(hex); ReadChannels(hex) == Channels(Some(r), Some(g), Some(b))
  {
    if |hex| == 3 {
      ReadShort(hex);
    } else {
      assert IsHexDigit(hex[0]) && IsHexDigit(hex[1]) && IsHexDigit(hex[2]);
      assert IsHexDigit(hex[3]) && IsHexDigit(hex[4]) && IsHexDigit(hex[5]);
      ReadLong(hex);
    }
  }

  lemma ReadShort(hex: string)
    requires |hex| == 3 && IsHexDigit(hex[0]) && IsHexDigit(hex[1]) && IsHexDigit(hex[2])
    ensures ReadChannels(hex) == Channels(Some(17 * HexDigitValue(hex[0])),
      Some(17 * HexDigitValue(hex[1])), Some(17 * HexDigitValue(hex[2])))
  {
    ParseDoubled(hex[0]); ParseDoubled(hex[1]); ParseDoubled(hex[2]);
  }

  lemma ReadLong(hex: string)
    requires |hex| == 6
    requires IsHexDigit(hex[0]) && IsHexDigit(hex[1]) && IsHexDigit(hex[2])
    requires IsHexDigit(hex[3]) && IsHexDigit(hex[4]) && IsHexDigit(hex[5])
    ensures ReadChannels(hex) == Channels(
      Some(16 * HexDigitValue(hex[0]) + HexDigitValue(hex[1])),
      Some(16 * HexDigitValue(hex[2]) + HexDigitValue(hex[3])),
      Some(16 * HexDigitValue(hex[4]) + HexDigitValue(hex[5])))
  {
    ParsePair(hex[0], hex[1]); ParsePair(hex[2], hex[3]); ParsePair(hex[4], hex[5]);
  }


  /** For a valid colour the answer is black exactly when the weighted luma exceeds 127500. */
  lemma ValidatedBlackIff(s: string)
    requires IsHexColor(RemoveFirst(s, '#'))
    ensures var (r, g, b) := Digits(RemoveFirst(s, '#'));
      Validated(Some(s)) == Verdict(if Weighted(r, g, b) > 127500 then Black else White, false)
  {
    ReadValidChannels(RemoveFirst(s, '#'));
  }

  /** On 3- or 6-digit hex input the two revisions agree. */
  lemma VariantsAgreeOnHex(s: string)
    requires IsHexColor(RemoveFirst(s, '#'))
    ensures LengthOnly(Some(s)) == Validated(Some(s)).color
  {
  }

  /** A colour `"#" + h` with six hex digits is read two digits per channel. */
  lemma LongForm(h: string)
    requires |h| == 6 && AllHex(h)
    ensures LengthOnly(Some("#" + h)) == ByLuminance(Channels(
      Some(16 * HexDigitValue(h[0]) + HexDigitValue(h[1])),
      Some(16 * HexDigitValue(h[2]) + HexDigitValue(h[3])),
      Some(16 * HexDigitValue(h[4]) + HexDigitValue(h[5]))))
  {
    RemoveLeadingHash(h);
    assert IsHexDigit(h[0]) && IsHexDigit(h[1]) && IsHexDigit(h[2]);
    assert IsHexDigit(h[3]) && IsHexDigit(h[4]) && IsHexDigit(h[5]);
    ReadLong(h);
  }

  /** Removing the leading `#` of `"#" + h` leaves `h`. */
  lemma RemoveLeadingHash(h: string)
    ensures RemoveFirst("#" + h, '#') == h
  {
    assert ("#" + h)[0] == '#';
    assert IndexOf("#" + h, '#') == 0;
    assert ("#" + h)[1..] == h;
  }

  /** The short form means the long form with every digit doubled, in both revisions. */
  lemma ShortFormDoubles(a: char, b: char, c: char)
    ensures Validated(Some("#" + [a, b, c])) == Validated(Some("#" + [a, a, b, b, c, c]))
    ensures LengthOnly(Some("#" + [a, b, c])) == LengthOnly(Some("#" + [a, a, b, b, c, c]))
  {
    var short, long := [a, b, c], [a, a, b, b, c, c];
    RemoveLeadingHash(short);
    RemoveLeadingHash(long);
    SameChannels(a, b, c);
    SameValidity(a, b, c);
  }

  lemma SameValidity(a: char, b: char, c: char)
    ensures IsHexColor([a, b, c]) <==> IsHexColor([a, a, b, b, c, c])
  {
    var short, long := [a, b, c], [a, a, b, b, c, c];
    assert IsHexColor(short) <==> IsHexDigit(a) && IsHexDigit(b) && IsHexDigit(c) by {
      assert short[0] == a && short[1] == b && short[2] == c;
    }
    assert IsHexColor(long) <==> IsHexDigit(a) && IsHexDigit(b) && IsHexDigit(c) by {
      assert long[0] == a && long[2] == b && long[4] == c;
    }
  }

  lemma SameChannels(a: char, b: char, c: char)
    ensures ReadChannels([a, b, c]) == ReadChannels([a, a, b, b, c, c])
  {
    SameChannel([a, b, c], 0); SameChannel([a, b, c], 1); SameChannel([a, b, c], 2);
    assert Double([a, b, c]) == [a, a, b, b, c, c];
  }

  function Double(h: string): string
    requires |h| == 3
  {
    [h[0], h[0], h[1], h[1], h[2], h[2]]
  }

  lemma SameChannel(h: string, i: nat)
    requires |h| == 3 && i < 3
    ensures ReadChannel(h, i) == ReadChannel(Double(h), i)
  {
    assert Double(h)[2 * i] == h[i] && Double(h)[2 * i + 1] == h[i];
  }

  /** `"#XYZ"` has the right length but no hex digits: white here, black with a warning in app/utils.ts. */
  lemma NonHexShortFormDiverges()
    ensures LengthOnly(Some("#XYZ")) == White
    ensures Validated(Some("#XYZ")) == Verdict(Black, true)
  {
    RemoveLeadingHash("XYZ");
    ParseDoubled('X');
    assert !IsHexDigit("XYZ"[0]);
  }

  /** The light-background expectations of app/__tests__/utils.test.ts. */
  lemma LightTestVectors(s: string)
    requires s == "#FFFFFF" || s == "#FFF" || s == "#ABEBC6"
    ensures Validated(Some(s)) == Verdict(Black, false)
  {
    var h := if s == "#FFFFFF" then "FFFFFF" else if s == "#FFF" then "FFF" else "ABEBC6";
    assert s == "#" + h;
    HexCase(s, h);
  }

  /** The dark-background expectations of app/__tests__/utils.test.ts. */
  lemma DarkTestVectors(s: string)
    requires s == "#000000" || s == "#000" || s == "#C0392B" || s == "#273746"
    ensures Validated(Some(s)) == Verdict(White, false)
  {
    var h := if s == "#000000" then "000000" else if s == "#000" then "000"
             else if s == "#C0392B" then "C0392B" else "273746";
    assert s == "#" + h;
    HexCase(s, h);
  }

  /** The malformed-input expectations of app/__tests__/utils.test.ts: black, with a warning. */
  lemma MalformedTestVectors()
    ensures Validated(Some("#12345")) == Verdict(Black, true)
    ensures Validated(Some("blue")) == Verdict(Black, true)
    ensures Validated(Some("#XYZ")) == Verdict(Black, true)
  {
    FiveDigits();
    NoHash();
    NonHexShortFormDiverges();
  }

  lemma FiveDigits()
    ensures Validated(Some("#12345")) == Verdict(Black, true)
  {
    RemoveLeadingHash("12345");
    assert "#12345" == "#" + "12345";
  }

  lemma NoHash()
    ensures Validated(Some("blue")) == Verdict(Black, true)
  {
    var s := "blue";
    assert '#' !in s;
    assert !IsHexDigit(s[2]);
  }

  lemma HexCase(s: string, h: string)
    requires s == "#" + h && IsHexColor(h)
    ensures var (r, g, b) := Digits(h);
      Validated(Some(s)) == Verdict(if Weighted(r, g, b) > 127500 then Black else White, false)
  {
    RemoveLeadingHash(h);
    ValidatedBlackIff(s);
  }
}

/** The emoji tables of src/modules/mendotran/emojis.ts and the colour rule
    `getBusColor`, which picks a line's colour from the leading digit of its
    number. */
module Emojis {
  import opened Wrappers
  import opened Text

  /** `METRO_EMOJI`. */
  const MetroEmoji: string := "\U{1F689}"

  /** `BUS_COLOR_LIST`: one colour per leading digit; index 0 is the colour
      for lines outside 100..999. The 600s and the 700s share a colour. */
  const BusColorList: seq<string> := [
    "\U{1F532}", "\U{1F7E5}", "\U{2B1C}", "\U{1F7E9}", "\U{1F7E8}",
    "\U{1F7E7}", "\U{1F7E6}", "\U{1F7E6}", "\U{1F7EA}", "\U{1F7EB}"]

  /** `EMOJI_TIME`: for each hour of a twelve-hour clock face, the emoji for
      the full hour and the one for the half hour. */
  const EmojiTime: seq<seq<string>> := [
    ["\U{1F55B}", "\U{1F567}"], ["\U{1F550}", "\U{1F55C}"],
    ["\U{1F551}", "\U{1F55D}"], ["\U{1F552}", "\U{1F55E}"],
    ["\U{1F553}", "\U{1F55F}"], ["\U{1F554}", "\U{1F560}"],
    ["\U{1F555}", "\U{1F561}"], ["\U{1F556}", "\U{1F562}"],
    ["\U{1F557}", "\U{1F563}"], ["\U{1F558}", "\U{1F564}"],
    ["\U{1F559}", "\U{1F565}"], ["\U{1F55A}", "\U{1F566}"]]

  /** The table index `getBusColor` reads: the leading character of
      `String(+linea)` when `+linea` lies in 100..999, 0 otherwise. */
  function BusColorIndex(linea: string): (i: nat)
    ensures i < |BusColorList|
  {
    match JsNumber(linea)
    case Some(n) =>
      if 100 <= n < 1000 then DigitValue(NatToString(n)[0]) else 0
    case None => 0
  }

  /** `getBusColor`. */
  function GetBusColor(linea: string): (color: string)
    ensures color in BusColorList
  {
    BusColorList[BusColorIndex(linea)]
  }

  /** The first digit of a three-digit number is its hundreds digit. */
  lemma LeadingDigitOfThreeDigits(n: nat)
    requires 100 <= n < 1000
    ensures DigitValue(NatToString(n)[0]) == n / 100
  {
    assert NatToString(n) == NatToString(n / 10) + [DigitChar(n % 10)];
    assert NatToString(n / 10) == NatToString(n / 100) + [DigitChar(n / 10 % 10)];
    assert NatToString(n / 100) == [DigitChar(n / 100)];
  }

  /** A line from 100 to 999 gets the colour of its hundreds digit, which is
      never the out-of-range colour's index 0. */
  lemma InRangeColour(linea: string, n: int)
    requires JsNumber(linea) == Some(n) && 100 <= n < 1000
    ensures BusColorIndex(linea) == n / 100
    ensures 1 <= BusColorIndex(linea) <= 9
    ensures GetBusColor(linea) == BusColorList[n / 100]
  {
    LeadingDigitOfThreeDigits(n);
  }

  /** A line below 100, from 1000 on, or not a number gets entry 0. */
  lemma OutOfRangeColour(linea: string)
    requires JsNumber(linea).None? || JsNumber(linea).value < 100 || JsNumber(linea).value >= 1000
    ensures BusColorIndex(linea) == 0
    ensures GetBusColor(linea) == BusColorList[0]
  {
  }

  /** The 600s and the 700s cannot be told apart by colour. */
  lemma SixHundredsLookLikeSevenHundreds(a: string, b: string)
    requires JsNumber(a).Some? && 600 <= JsNumber(a).value < 700
    requires JsNumber(b).Some? && 700 <= JsNumber(b).value < 800
    ensures GetBusColor(a) == GetBusColor(b)
  {
    InRangeColour(a, JsNumber(a).value);
    InRangeColour(b, JsNumber(b).value);
  }

  /** Every other pair of hundreds gets two different colours. */
  lemma OtherHundredsDiffer(a: string, b: string)
    requires JsNumber(a).Some? && 100 <= JsNumber(a).value < 1000
    requires JsNumber(b).Some? && 100 <= JsNumber(b).value < 1000
    requires JsNumber(a).value / 100 != JsNumber(b).value / 100
    requires {JsNumber(a).value / 100, JsNumber(b).value / 100} != {6, 7}
    ensures GetBusColor(a) != GetBusColor(b)
  {
    InRangeColour(a, JsNumber(a).value);
    InRangeColour(b, JsNumber(b).value);
  }

  /** The shapes of the tables. */
  lemma TableShapes()
    ensures |BusColorList| == 10
    ensures |EmojiTime| == 12
    ensures forall h :: 0 <= h < |EmojiTime| ==> |EmojiTime[h]| == 2
  {
  }
}

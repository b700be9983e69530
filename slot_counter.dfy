/** The slot display of the lottery: draw numbers joined by '-' are shown joined by ','. */
module SlotCounter {

  /** `numberString.replace(/-/g, ',')`. */
  function FormatSlot(s: string): string
  {
    if s == [] then [] else [if s[0] == '-' then ',' else s[0]] + FormatSlot(s[1..])
  }

  /** Each '-' becomes ',' in place; every other character, and the length, are kept. */
  lemma {:induction false} FormatSlotPointwise(s: string)
    ensures |FormatSlot(s)| == |s|
    ensures forall i :: 0 <= i < |s| ==> FormatSlot(s)[i] == if s[i] == '-' then ',' else s[i]
  {
    if s != [] {
      FormatSlotPointwise(s[1..]);
      assert forall i :: 1 <= i < |s| ==> s[i] == s[1..][i - 1];
    }
  }

  /** The display holds no hyphen, and formatting again changes nothing. */
  lemma FormatSlotIdempotent(s: string)
    ensures '-' !in FormatSlot(s)
    ensures FormatSlot(FormatSlot(s)) == FormatSlot(s)
  {
    FormatSlotPointwise(s);
    FormatSlotPointwise(FormatSlot(s));
  }

  /** A string without hyphens is shown as it is. */
  lemma FormatSlotNoHyphen(s: string)
    requires '-' !in s
    ensures FormatSlot(s) == s
  {
    FormatSlotPointwise(s);
  }

  /**
   * The SlotCounter's value: the formattedNumber state, which starts as the raw prop and
   * holds its formatted form once the effect has run for it.
   */
  function Displayed(numberString: string, effectRan: bool): (shown: string)
    ensures |shown| == |numberString|
    ensures effectRan ==> '-' !in shown
  {
    FormatSlotPointwise(numberString);
    FormatSlotIdempotent(numberString);
    if effectRan then FormatSlot(numberString) else numberString
  }

  /**
   * The first render shows the raw string, so a string with a hyphen is shown differently
   * before and after the effect, and one without a hyphen is shown the same.
   */
  lemma DisplayedBeforeEffect(numberString: string)
    ensures Displayed(numberString, false) == numberString
    ensures Displayed(numberString, false) == Displayed(numberString, true) <==> '-' !in numberString
  {
    FormatSlotIdempotent(numberString);
    if '-' !in numberString {
      FormatSlotNoHyphen(numberString);
    }
  }
}

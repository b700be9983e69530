/**
 * The rolling digit strip of the lottery page: the reel of digits each wheel scrolls through,
 * the parsing of the number string into digits, where the separators are drawn, and the
 * per-digit "stopped" flags.
 */
module RollingCounter {
  import opened Common

  const ROLLS: nat := 2
  const DIGIT_HEIGHT: int := 104
  const INITIAL_OFFSET: int := 38
  const EXTRA_NUMBERS_AFTER: nat := 5
  const EXTRA_NUMBERS_BEFORE: nat := 2

  /** JavaScript's `x % 10`: the remainder takes the sign of `x`. */
  function Rem10(x: int): int
  {
    if x >= 0 then x % 10 else -((-x) % 10)
  }

  // ---------------------------------------------------------------------------------------
  // getNumbers
  // ---------------------------------------------------------------------------------------

  /** The first `m` entries of 0, 1, ..., 9, 0, 1, ... */
  function Cycle(m: nat): seq<int>
  {
    seq(m, k => k % 10)
  }

  /** ROLLS full turns of the wheel. */
  function Rolls(): seq<int>
  {
    Cycle(ROLLS * 10)
  }

  /** The EXTRA_NUMBERS_BEFORE entries pushed ahead of `v`: (v - n + 10) % 10 for n = 2, 1. */
  function Before(v: int): seq<int>
  {
    seq(EXTRA_NUMBERS_BEFORE, j => Rem10(v - (EXTRA_NUMBERS_BEFORE - j) + 10))
  }

  /** The EXTRA_NUMBERS_AFTER entries pushed after `v`: (v + n) % 10 for n = 1 .. 5. */
  function After(v: int): seq<int>
  {
    seq(EXTRA_NUMBERS_AFTER, j => Rem10(v + j + 1))
  }

  /** What the reel shows before the landing run: two turns, or the previous digit's run and two more turns. */
  function Lead(previous: Option<int>): seq<int>
  {
    match previous
    case None => Rolls()
    case Some(p) => Rolls() + Before(p) + [p] + Rolls()
  }

  /** The run that ends the reel: two digits above the target, the target, five below. */
  function Landing(target: int): seq<int>
  {
    Before(target) + [target] + After(target)
  }

  /** The reel getNumbers builds. */
  function Reel(target: int, previous: Option<int>): seq<int>
  {
    Lead(previous) + Landing(target)
  }

  /** The nested loops that push ROLLS turns of 0..9. */
  method PushRolls(numbers: seq<int>) returns (r: seq<int>)
    ensures r == numbers + Rolls()
  {
    r := numbers;
    for i := 0 to ROLLS
      invariant r == numbers + Cycle(i * 10)
    {
      for n := 0 to 10
        invariant r == numbers + Cycle(i * 10 + n)
      {
        assert Cycle(i * 10 + n + 1) == Cycle(i * 10 + n) + [n];
        r := r + [n];
      }
    }
  }

  /** `for (let n = EXTRA_NUMBERS_BEFORE; n > 0; n--) numbers.push((v - n + 10) % 10)` */
  method PushBefore(numbers: seq<int>, v: int) returns (r: seq<int>)
    ensures r == numbers + Before(v)
  {
    r := numbers;
    var n := EXTRA_NUMBERS_BEFORE;
    while n > 0
      invariant 0 <= n <= EXTRA_NUMBERS_BEFORE
      invariant r == numbers + Before(v)[..EXTRA_NUMBERS_BEFORE - n]
    {
      assert Before(v)[..EXTRA_NUMBERS_BEFORE - n + 1] ==
        Before(v)[..EXTRA_NUMBERS_BEFORE - n] + [Rem10(v - n + 10)];
      r := r + [Rem10(v - n + 10)];
      n := n - 1;
    }
    assert Before(v)[..EXTRA_NUMBERS_BEFORE] == Before(v);
  }

  /** `for (let n = 1; n <= EXTRA_NUMBERS_AFTER; n++) numbers.push((v + n) % 10)` */
  method PushAfter(numbers: seq<int>, v: int) returns (r: seq<int>)
    ensures r == numbers + After(v)
  {
    r := numbers;
    for n := 1 to EXTRA_NUMBERS_AFTER + 1
      invariant r == numbers + After(v)[..n - 1]
    {
      assert After(v)[..n] == After(v)[..n - 1] + [Rem10(v + n)];
      r := r + [Rem10(v + n)];
    }
    assert After(v)[..EXTRA_NUMBERS_AFTER] == After(v);
  }

  /** getNumbers: the reel for one wheel, from rest or from the digit it showed before. */
  method GetNumbers(targetValue: int, previousValue: Option<int>) returns (numbers: seq<int>)
    ensures numbers == Reel(targetValue, previousValue)
  {
    numbers := [];
    if previousValue.None? {
      numbers := PushRolls(numbers);
      numbers := PushBefore(numbers, targetValue);
      numbers := numbers + [targetValue];
      numbers := PushAfter(numbers, targetValue);
    } else {
      numbers := PushRolls(numbers);
      numbers := PushBefore(numbers, previousValue.value);
      numbers := numbers + [previousValue.value];
      numbers := PushRolls(numbers);
      numbers := PushBefore(numbers, targetValue);
      numbers := numbers + [targetValue];
      numbers := PushAfter(numbers, targetValue);
    }
  }

  /** The reel row the animation scrolls to. */
  function TargetRow(numbers: seq<int>): int
  {
    |numbers| - EXTRA_NUMBERS_AFTER - 1
  }

  /** The `y` the wheel animates to. */
  function AnimateY(numbers: seq<int>): int
  {
    -TargetRow(numbers) * DIGIT_HEIGHT + INITIAL_OFFSET
  }

  /**
   * The reel has 28 entries from rest and 51 from a previous digit, starts with two turns
   * of 0..9, and the row the animation offset lands on holds the target digit.
   */
  lemma ReelShape(target: int, previous: Option<int>)
    ensures |Reel(target, previous)| ==
      if previous.None?
      then ROLLS * 10 + EXTRA_NUMBERS_BEFORE + 1 + EXTRA_NUMBERS_AFTER
      else 2 * (ROLLS * 10) + 2 * EXTRA_NUMBERS_BEFORE + 2 + EXTRA_NUMBERS_AFTER
    ensures |Reel(target, previous)| == if previous.None? then 28 else 51
    ensures forall i :: 0 <= i < ROLLS * 10 ==> Reel(target, previous)[i] == i % 10
    ensures (INITIAL_OFFSET - AnimateY(Reel(target, previous))) / DIGIT_HEIGHT
      == TargetRow(Reel(target, previous))
    ensures Reel(target, previous)[TargetRow(Reel(target, previous))] == target
  {
    var r := Reel(target, previous);
    var row := TargetRow(r);
    assert INITIAL_OFFSET - AnimateY(r) == row * DIGIT_HEIGHT;
  }

  /** The landing run of a digit `t` reads (t-2)%10, (t-1)%10, t, (t+1)%10, ..., (t+5)%10. */
  lemma LandingDigits(t: int)
    requires 0 <= t <= 9
    ensures |Landing(t)| == EXTRA_NUMBERS_BEFORE + 1 + EXTRA_NUMBERS_AFTER
    ensures forall j :: 0 <= j < |Landing(t)| ==> Landing(t)[j] == (t + j - EXTRA_NUMBERS_BEFORE) % 10
  {
    forall j | 0 <= j < |Landing(t)| ensures Landing(t)[j] == (t + j - EXTRA_NUMBERS_BEFORE) % 10 {
      if j < EXTRA_NUMBERS_BEFORE {
        assert Landing(t)[j] == Before(t)[j] == Rem10(t - (EXTRA_NUMBERS_BEFORE - j) + 10);
        assert (t + j + 8) % 10 == (t + j - 2) % 10;
      } else if j > EXTRA_NUMBERS_BEFORE {
        assert Landing(t)[j] == After(t)[j - 3] == Rem10(t + (j - 3) + 1);
      }
    }
  }

  /**
   * For a digit target, the rows from two above the target row to the end of the reel read
   * (t-2)%10, (t-1)%10, t, (t+1)%10, ..., (t+5)%10.
   */
  lemma ReelWindow(target: int, previous: Option<int>)
    requires 0 <= target <= 9
    ensures TargetRow(Reel(target, previous)) + EXTRA_NUMBERS_AFTER + 1 == |Reel(target, previous)|
    ensures forall i :: TargetRow(Reel(target, previous)) - EXTRA_NUMBERS_BEFORE <= i < |Reel(target, previous)| ==>
      Reel(target, previous)[i] == (target + (i - TargetRow(Reel(target, previous)))) % 10
  {
    var r := Reel(target, previous);
    var lead := |Lead(previous)|;
    LandingDigits(target);
    forall i | TargetRow(r) - EXTRA_NUMBERS_BEFORE <= i < |r|
      ensures r[i] == (target + (i - TargetRow(r))) % 10
    {
      assert r[i] == Landing(target)[i - lead];
    }
  }

  /** From a previous digit p, entries 20, 21, 22 read (p-2)%10, (p-1)%10, p, then two more turns. */
  lemma ReelFromPrevious(target: int, p: int)
    requires 0 <= p <= 9
    ensures Reel(target, Some(p))[20..23] == [(p - 2) % 10, (p - 1) % 10, p]
    ensures Reel(target, Some(p))[23..43] == Rolls()
  {
    var r := Reel(target, Some(p));
    LandingDigits(p);
    assert Landing(p)[..3] == Before(p) + [p];
    assert r == Rolls() + (Before(p) + [p]) + Rolls() + Landing(target);
    assert r[20..23] == Before(p) + [p];
  }

  /** With digit inputs every entry of the reel is a digit. */
  lemma ReelDigits(target: int, previous: Option<int>)
    requires 0 <= target <= 9
    requires previous.Some? ==> 0 <= previous.value <= 9
    ensures forall i :: 0 <= i < |Reel(target, previous)| ==> 0 <= Reel(target, previous)[i] <= 9
  {
    var r := Reel(target, previous);
    LandingDigits(target);
    assert forall x :: x in Rolls() ==> 0 <= x <= 9;
    assert forall x :: x in Landing(target) ==> 0 <= x <= 9;
    if previous.Some? {
      LandingDigits(previous.value);
      forall x | x in Before(previous.value) ensures 0 <= x <= 9 {
        var j :| 0 <= j < |Before(previous.value)| && Before(previous.value)[j] == x;
        assert Landing(previous.value)[j] == x;
      }
    }
    assert forall x :: x in r ==> 0 <= x <= 9;
    forall i | 0 <= i < |r| ensures 0 <= r[i] <= 9 {
      assert r[i] in r;
    }
  }

  // ---------------------------------------------------------------------------------------
  // Parsing the number string
  // ---------------------------------------------------------------------------------------

  /** `s.replace(/-/g, '')` */
  function StripHyphens(s: string): string
  {
    if s == [] then []
    else (if s[0] == '-' then [] else [s[0]]) + StripHyphens(s[1..])
  }

  function HyphenCount(s: string): nat
  {
    multiset(s)['-']
  }

  /**
   * Stripping removes exactly the hyphens: none is left, the length drops by their number,
   * every other character keeps its multiplicity, and a string without hyphens is unchanged.
   */
  lemma {:induction false} StripHyphensSpec(s: string)
    ensures '-' !in StripHyphens(s)
    ensures |StripHyphens(s)| == |s| - HyphenCount(s)
    ensures forall c :: c != '-' ==> multiset(StripHyphens(s))[c] == multiset(s)[c]
    ensures '-' !in s ==> StripHyphens(s) == s
  {
    if s != [] {
      StripHyphensSpec(s[1..]);
      assert s == [s[0]] + s[1..];
    }
  }

  /** Stripping works character by character, so it keeps the order of the digits. */
  lemma {:induction false} StripHyphensAppend(a: string, b: string)
    ensures StripHyphens(a + b) == StripHyphens(a) + StripHyphens(b)
  {
    if a != [] {
      StripHyphensAppend(a[1..], b);
      assert (a + b)[1..] == a[1..] + b;
    } else {
      assert a + b == b;
    }
  }

  lemma {:induction false} StripHyphensKeepsDigits(s: string)
    requires forall i :: 0 <= i < |s| ==> s[i] == '-' || IsAsciiDigit(s[i])
    ensures forall i :: 0 <= i < |StripHyphens(s)| ==> IsAsciiDigit(StripHyphens(s)[i])
  {
    if s != [] {
      StripHyphensKeepsDigits(s[1..]);
    }
  }

  function DigitValue(c: char): int
  {
    c as int - '0' as int
  }

  /** The `numbers` memo: hyphens removed, each remaining character read as a digit. */
  function ParseNumbers(numberString: string): seq<int>
    requires forall i :: 0 <= i < |numberString| ==> numberString[i] == '-' || IsAsciiDigit(numberString[i])
  {
    if numberString == "" then []
    else
      var digits := StripHyphens(numberString);
      seq(|digits|, i requires 0 <= i < |digits| => DigitValue(digits[i]))
  }

  /**
   * Parsing yields one value in 0..9 per non-hyphen character, read in order; the empty
   * string yields no digits.
   */
  lemma ParseNumbersSpec(numberString: string)
    requires forall i :: 0 <= i < |numberString| ==> numberString[i] == '-' || IsAsciiDigit(numberString[i])
    ensures |ParseNumbers(numberString)| == |numberString| - HyphenCount(numberString)
    ensures forall i :: 0 <= i < |ParseNumbers(numberString)| ==>
      0 <= ParseNumbers(numberString)[i] <= 9 &&
      ParseNumbers(numberString)[i] == DigitValue(StripHyphens(numberString)[i])
    ensures numberString == "" ==> ParseNumbers(numberString) == []
  {
    StripHyphensSpec(numberString);
    StripHyphensKeepsDigits(numberString);
  }

  /** `new Array(numberString.replace(/-/g, '').length).fill(false)` */
  function InitialStopped(numberString: string): seq<bool>
  {
    seq(|StripHyphens(numberString)|, _ => false)
  }

  /** The initial flags: one per parsed digit, none stopped. */
  lemma InitialStoppedSpec(numberString: string)
    requires forall i :: 0 <= i < |numberString| ==> numberString[i] == '-' || IsAsciiDigit(numberString[i])
    ensures |InitialStopped(numberString)| == |ParseNumbers(numberString)|
    ensures forall i :: 0 <= i < |InitialStopped(numberString)| ==> !InitialStopped(numberString)[i]
  {
  }

  // ---------------------------------------------------------------------------------------
  // Separators
  // ---------------------------------------------------------------------------------------

  /** `(index + 1) % 2 === 0 && index !== numbers.length - 1` */
  predicate ShowHyphen(index: nat, length: nat)
  {
    (index + 1) % 2 == 0 && index != length - 1
  }

  /** A separator follows a digit exactly when its index is odd and it is not the last digit. */
  lemma ShowHyphenSpec(index: nat, length: nat)
    requires index < length
    ensures ShowHyphen(index, length) <==> index % 2 == 1 && index < length - 1
  {
  }

  /** The number of separators drawn after the first `k` wheels. */
  function HyphensShown(k: nat, length: nat): nat
  {
    if k == 0 then 0 else HyphensShown(k - 1, length) + (if ShowHyphen(k - 1, length) then 1 else 0)
  }

  lemma {:induction false} HyphensShownPrefix(k: nat, length: nat)
    requires k < length
    ensures HyphensShown(k, length) == k / 2
  {
    if k > 0 {
      HyphensShownPrefix(k - 1, length);
    }
  }

  /** The digits are drawn in pairs: n wheels get (n - 1) / 2 separators. */
  lemma HyphensShownTotal(length: nat)
    requires length >= 1
    ensures HyphensShown(length, length) == (length - 1) / 2
  {
    HyphensShownPrefix(length - 1, length);
  }

  // ---------------------------------------------------------------------------------------
  // handleAnimationComplete
  // ---------------------------------------------------------------------------------------

  /**
   * The state updater of handleAnimationComplete: copy, then set position `index`. Past the
   * end JavaScript grows the array with holes; a hole reads as undefined, which is falsy, so
   * it is modelled as false.
   */
  function MarkStopped(prev: seq<bool>, index: nat): seq<bool>
  {
    if index < |prev| then prev[index := true]
    else prev + seq(index - |prev|, _ => false) + [true]
  }

  /** Only position `index` becomes true; the length is kept when `index` is in range. */
  lemma MarkStoppedSpec(prev: seq<bool>, index: nat)
    ensures |MarkStopped(prev, index)| == if index < |prev| then |prev| else index + 1
    ensures MarkStopped(prev, index)[index]
    ensures forall j :: 0 <= j < |prev| && j != index ==> MarkStopped(prev, index)[j] == prev[j]
    ensures forall j :: |prev| <= j < index ==> !MarkStopped(prev, index)[j]
  {
  }

  /** Completions applied in the given order. */
  function MarkAll(prev: seq<bool>, order: seq<nat>): seq<bool>
    decreases |order|
  {
    if order == [] then prev else MarkAll(MarkStopped(prev, order[0]), order[1..])
  }

  /**
   * Wheels finish in any order: after the completions in `order` (all in range), a flag is
   * set exactly when it was set before or its wheel has finished.
   */
  lemma {:induction false} MarkAllSpec(prev: seq<bool>, order: seq<nat>)
    requires forall k :: 0 <= k < |order| ==> order[k] < |prev|
    ensures |MarkAll(prev, order)| == |prev|
    ensures forall j :: 0 <= j < |prev| ==> (MarkAll(prev, order)[j] <==> prev[j] || j in order)
    decreases |order|
  {
    if order != [] {
      var next := MarkStopped(prev, order[0]);
      MarkAllSpec(next, order[1..]);
      assert order == [order[0]] + order[1..];
    }
  }
}

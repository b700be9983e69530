/**
 * The lottery login form: the two input validators (regular expressions written out as
 * character predicates), the phone-input filter, the order of decisions on submit, and the
 * submit button's enabled state.
 */
module LotteryAuth {
  import opened Common

  // ---------------------------------------------------------------------------------------
  // Validators
  // ---------------------------------------------------------------------------------------

  /** The characters `.` does not match: the ECMAScript line terminators. */
  predicate IsLineTerminator(c: char)
  {
    c == '\n' || c == '\r' || c == '\U{2028}' || c == '\U{2029}'
  }

  /** `\d{n}$` from the start of `s`: exactly `n` digits, then the end of the input. */
  predicate DigitsToEnd(s: string, n: nat)
    decreases n
  {
    if n == 0 then s == [] else s != [] && IsAsciiDigit(s[0]) && DigitsToEnd(s[1..], n - 1)
  }

  /** `.+` matching all of `s`. */
  predicate DotPlus(s: string)
  {
    s != [] && forall i :: 0 <= i < |s| ==> !IsLineTerminator(s[i])
  }

  /** validatePhone: `/^993\d{8}$/.test(value)`. */
  predicate ValidatePhone(value: string)
  {
    |value| >= 3 && value[..3] == "993" && DigitsToEnd(value[3..], 8)
  }

  /**
   * validateCode: `/^.+-\d{10}$/.test(value)`. The matcher may backtrack `.+` to any split,
   * so the test succeeds when some split `value[..k]`, '-', ten digits to the end exists.
   */
  predicate ValidateCode(value: string)
  {
    exists k :: 0 < k < |value| && DotPlus(value[..k]) && value[k] == '-' && DigitsToEnd(value[k + 1..], 10)
  }

  /** `\d{n}$` holds exactly of strings of `n` ASCII digits. */
  lemma {:induction false} DigitsToEndSpec(s: string, n: nat)
    ensures DigitsToEnd(s, n) <==> |s| == n && forall i :: 0 <= i < |s| ==> IsAsciiDigit(s[i])
    decreases n
  {
    if n > 0 && s != [] {
      DigitsToEndSpec(s[1..], n - 1);
      if |s| == n && forall i :: 0 <= i < |s| ==> IsAsciiDigit(s[i]) {
        assert forall i :: 0 <= i < |s[1..]| ==> s[1..][i] == s[i + 1];
      }
      if DigitsToEnd(s, n) {
        forall i | 0 <= i < |s| ensures IsAsciiDigit(s[i]) {
          if i > 0 {
            assert s[i] == s[1..][i - 1];
          }
        }
      }
    }
  }

  /** A valid phone is exactly "993" followed by eight ASCII digits, eleven characters in all. */
  lemma ValidatePhoneSpec(value: string)
    ensures ValidatePhone(value) <==>
      |value| == 11 && value[..3] == "993" && forall i :: 3 <= i < 11 ==> IsAsciiDigit(value[i])
  {
    if |value| >= 3 {
      DigitsToEndSpec(value[3..], 8);
      assert forall i :: 3 <= i < |value| ==> value[3..][i - 3] == value[i];
    }
  }

  /**
   * A valid code is at least twelve characters: a non-empty prefix free of line terminators
   * (it may itself hold '-'), the '-' eleven from the end, and ten ASCII digits.
   */
  lemma ValidateCodeSpec(value: string)
    ensures ValidateCode(value) <==>
      && |value| >= 12
      && value[|value| - 11] == '-'
      && (forall i :: |value| - 10 <= i < |value| ==> IsAsciiDigit(value[i]))
      && (forall i :: 0 <= i < |value| - 11 ==> !IsLineTerminator(value[i]))
  {
    var n := |value|;
    if ValidateCode(value) {
      var k :| 0 < k < n && DotPlus(value[..k]) && value[k] == '-' && DigitsToEnd(value[k + 1..], 10);
      DigitsToEndSpec(value[k + 1..], 10);
      assert k == n - 11;
      forall i | n - 10 <= i < n ensures IsAsciiDigit(value[i]) {
        assert value[k + 1..][i - k - 1] == value[i];
      }
      forall i | 0 <= i < n - 11 ensures !IsLineTerminator(value[i]) {
        assert value[..k][i] == value[i];
      }
    }
    if n >= 12 && value[n - 11] == '-' && (forall i :: n - 10 <= i < n ==> IsAsciiDigit(value[i]))
      && (forall i :: 0 <= i < n - 11 ==> !IsLineTerminator(value[i]))
    {
      var k := n - 11;
      DigitsToEndSpec(value[k + 1..], 10);
      assert forall j :: k + 1 <= j < n ==> value[k + 1..][j - k - 1] == value[j];
      assert DotPlus(value[..k]);
    }
  }

  /** The placeholder of the phone input is a valid phone; with a '+' in front it is not. */
  lemma PhonePlaceholder()
    ensures ValidatePhone("99363123456")
    ensures !ValidatePhone("+99363123456")
  {
    var p := "99363123456";
    assert p[..3] == "993";
    DigitsToEndSpec(p[3..], 8);
    assert "+99363123456"[..3][0] == '+';
  }

  /** Any line-terminator-free prefix, a '-' and ten digits make a valid code. */
  lemma CodeFromParts(prefix: string, digits: string)
    requires DotPlus(prefix)
    requires |digits| == 10 && forall i :: 0 <= i < 10 ==> IsAsciiDigit(digits[i])
    ensures ValidateCode(prefix + "-" + digits)
  {
    var v := prefix + "-" + digits;
    var k := |prefix|;
    assert v[..k] == prefix;
    assert v[k + 1..] == digits;
    DigitsToEndSpec(digits, 10);
  }

  /** A code of eleven characters or fewer is rejected. */
  lemma ShortCodeRejected(value: string)
    requires |value| <= 11
    ensures !ValidateCode(value)
  {
    ValidateCodeSpec(value);
  }

  // ---------------------------------------------------------------------------------------
  // Input filter
  // ---------------------------------------------------------------------------------------

  /** JavaScript's `s.length`: UTF-16 code units, two for a character above U+FFFF. */
  function Utf16Length(s: string): nat
  {
    if s == [] then 0 else (if s[0] as int <= 0xFFFF then 1 else 2) + Utf16Length(s[1..])
  }

  /**
   * A string counts between one and two code units per character, and exactly one per
   * character when every character is in the Basic Multilingual Plane.
   */
  lemma {:induction false} Utf16LengthSpec(s: string)
    ensures |s| <= Utf16Length(s) <= 2 * |s|
    ensures (forall i :: 0 <= i < |s| ==> s[i] as int <= 0xFFFF) <==> Utf16Length(s) == |s|
  {
    if s != [] {
      Utf16LengthSpec(s[1..]);
      assert forall i :: 1 <= i < |s| ==> s[1..][i - 1] == s[i];
    }
  }

  /** Code-unit lengths add up over concatenation. */
  lemma {:induction false} Utf16LengthAppend(a: string, b: string)
    ensures Utf16Length(a + b) == Utf16Length(a) + Utf16Length(b)
  {
    if a == [] {
      assert a + b == b;
    } else {
      Utf16LengthAppend(a[1..], b);
      assert (a + b)[0] == a[0] && (a + b)[1..] == a[1..] + b;
    }
  }

  /**
   * `value.replace(/\\D/g, "")`. The pattern `\\D` is an escaped backslash followed by `D`,
   * so the literal two-character text "\D" is what gets removed, scanning left to right.
   */
  function RemoveBackslashD(s: string): string
  {
    if |s| >= 2 && s[0] == '\\' && s[1] == 'D' then RemoveBackslashD(s[2..])
    else if s == [] then []
    else [s[0]] + RemoveBackslashD(s[1..])
  }

  /** The filter never lengthens its input, and text without a backslash passes through unchanged. */
  lemma {:induction false} RemoveBackslashDLength(s: string)
    ensures |RemoveBackslashD(s)| <= |s|
    ensures '\\' !in s ==> RemoveBackslashD(s) == s
  {
    if |s| >= 2 && s[0] == '\\' && s[1] == 'D' {
      RemoveBackslashDLength(s[2..]);
    } else if s != [] {
      RemoveBackslashDLength(s[1..]);
      assert s == [s[0]] + s[1..];
      if '\\' !in s {
        assert '\\' !in s[1..];
      }
    }
  }

  /** The filter keeps the multiplicity of every character other than a backslash and 'D'. */
  lemma {:induction false} RemoveBackslashDKeeps(s: string, c: char)
    requires c != '\\' && c != 'D'
    ensures multiset(RemoveBackslashD(s))[c] == multiset(s)[c]
  {
    if |s| >= 2 && s[0] == '\\' && s[1] == 'D' {
      RemoveBackslashDKeeps(s[2..], c);
      assert s == [s[0], s[1]] + s[2..];
    } else if s != [] {
      RemoveBackslashDKeeps(s[1..], c);
      assert s == [s[0]] + s[1..];
    }
  }

  /** The length drops by two for every backslash, and for every 'D', that the filter deletes. */
  lemma {:induction false} RemoveBackslashDPairs(s: string)
    ensures |s| + 2 * multiset(RemoveBackslashD(s))['\\'] == |RemoveBackslashD(s)| + 2 * multiset(s)['\\']
    ensures |s| + 2 * multiset(RemoveBackslashD(s))['D'] == |RemoveBackslashD(s)| + 2 * multiset(s)['D']
  {
    if |s| >= 2 && s[0] == '\\' && s[1] == 'D' {
      RemoveBackslashDPairs(s[2..]);
      assert s == [s[0], s[1]] + s[2..];
    } else if s != [] {
      RemoveBackslashDPairs(s[1..]);
      assert s == [s[0]] + s[1..];
    }
  }

  /** The filter is not idempotent: deleting one pair can bring two characters together into another. */
  lemma RemoveBackslashDNotIdempotent()
    ensures RemoveBackslashD("\\\\DD") == "\\D"
    ensures RemoveBackslashD(RemoveBackslashD("\\\\DD")) == ""
  {
    assert "\\\\DD"[1..] == "\\DD";
    assert "\\DD"[2..] == "D";
    assert "D"[1..] == "";
    assert "\\D"[2..] == "";
  }

  // ---------------------------------------------------------------------------------------
  // Submit
  // ---------------------------------------------------------------------------------------

  const PHONE_ERROR: string := "Telefon belgisi nädogry"
  const CODE_ERROR: string := "Açar nädogry"
  const REQUEST_ERROR: string := "Telefon belgisi ýa-da açar nädogry"

  /** What handleSubmit does after clearing the error. */
  datatype Decision = PhoneRejected | CodeRejected | SendRequest

  /** The phone is checked first; the code only for a valid phone; the request only for both. */
  function SubmitDecision(phone: string, code: string): Decision
  {
    if !ValidatePhone(phone) then PhoneRejected
    else if !ValidateCode(code) then CodeRejected
    else SendRequest
  }

  /** The error message a decision leaves behind before any request completes. */
  function DecisionError(d: Decision): Option<string>
  {
    match d
    case PhoneRejected => Some(PHONE_ERROR)
    case CodeRejected => Some(CODE_ERROR)
    case SendRequest => None
  }

  /**
   * A request goes out exactly for a well-formed phone and code, so never with an empty
   * input; a bad phone is reported whatever the code, a bad code only with a good phone.
   */
  lemma SubmitDecisionSpec(phone: string, code: string)
    ensures SubmitDecision(phone, code) == SendRequest <==>
      && |phone| == 11 && phone[..3] == "993" && (forall i :: 3 <= i < 11 ==> IsAsciiDigit(phone[i]))
      && |code| >= 12 && code[|code| - 11] == '-'
      && (forall i :: |code| - 10 <= i < |code| ==> IsAsciiDigit(code[i]))
      && (forall i :: 0 <= i < |code| - 11 ==> !IsLineTerminator(code[i]))
    ensures SubmitDecision(phone, code) == PhoneRejected <==> !ValidatePhone(phone)
    ensures SubmitDecision(phone, code) == SendRequest ==> phone != "" && code != ""
  {
    ValidatePhoneSpec(phone);
    ValidateCodeSpec(code);
  }

  /** The outcome of the authentication request. */
  datatype AuthResponse = Answered(errorMessage: Option<string>) | Threw

  class LotteryAuthForm {
    var phone: string
    var code: string
    var error: Option<string>
    var isLoading: bool
    /** The phone and code held by a handleSubmit suspended at its request. */
    var inFlight: Option<(string, string)>
    /** The credentials passed to setAuth (and stored, before navigating to the lottery page). */
    var signedInAs: Option<(string, string)>

    ghost predicate Valid()
      reads this
    {
      isLoading <==> inFlight.Some?
    }

    /** The submit button's `disabled`: loading, or either input empty. */
    predicate SubmitDisabled()
      reads this
    {
      isLoading || phone == "" || code == ""
    }

    constructor ()
      ensures Valid()
      ensures phone == "" && code == "" && error == None && !isLoading
      ensures inFlight == None && signedInAs == None
    {
      phone, code := "", "";
      error := None;
      isLoading := false;
      inFlight, signedInAs := None, None;
    }

    /** handlePhoneChange: filter, then keep the result only if it has at most eleven UTF-16 code units. */
    method HandlePhoneChange(input: string)
      requires Valid()
      modifies this
      ensures Valid()
      ensures phone == if Utf16Length(RemoveBackslashD(input)) <= 11 then RemoveBackslashD(input) else old(phone)
      ensures code == old(code) && error == old(error) && isLoading == old(isLoading)
      ensures inFlight == old(inFlight) && signedInAs == old(signedInAs)
    {
      var value := RemoveBackslashD(input);
      if Utf16Length(value) <= 11 {
        phone := value;
      }
    }

    /** handleCodeChange: the input is stored as typed. */
    method HandleCodeChange(input: string)
      requires Valid()
      modifies this
      ensures Valid()
      ensures code == input
      ensures phone == old(phone) && error == old(error) && isLoading == old(isLoading)
      ensures inFlight == old(inFlight) && signedInAs == old(signedInAs)
    {
      code := input;
    }

    /**
     * handleSubmit up to its request. It is not reached while loading: the disabled submit
     * button blocks the form's submission.
     */
    method HandleSubmit() returns (d: Decision)
      requires Valid() && !isLoading
      modifies this
      ensures Valid()
      ensures d == SubmitDecision(old(phone), old(code))
      ensures error == DecisionError(d)
      ensures isLoading == (d == SendRequest) && SubmitDisabled() == (d == SendRequest || old(SubmitDisabled()))
      ensures inFlight == if d == SendRequest then Some((old(phone), old(code))) else None
      ensures phone == old(phone) && code == old(code) && signedInAs == old(signedInAs)
    {
      error := None;
      if !ValidatePhone(phone) {
        error := Some(PHONE_ERROR);
        return PhoneRejected;
      }
      if !ValidateCode(code) {
        error := Some(CODE_ERROR);
        return CodeRejected;
      }
      isLoading := true;
      inFlight := Some((phone, code));
      return SendRequest;
    }

    /**
     * handleSubmit after its request: a truthy errorMessage is shown, a thrown request shows
     * the generic message, any other answer signs in with the captured credentials; loading
     * ends on every path.
     */
    method FinishRequest(response: AuthResponse)
      requires Valid() && inFlight.Some?
      modifies this
      ensures Valid() && !isLoading && inFlight == None
      ensures error == match response
        case Answered(m) => if Truthy(m) then Some(m.value) else old(error)
        case Threw => Some(REQUEST_ERROR)
      ensures signedInAs == if response.Answered? && !Truthy(response.errorMessage)
        then old(inFlight) else old(signedInAs)
      ensures phone == old(phone) && code == old(code)
      ensures SubmitDisabled() == (phone == "" || code == "")
    {
      match response {
        case Answered(m) =>
          if Truthy(m) {
            error := Some(m.value);
          } else {
            signedInAs := inFlight;
          }
        case Threw =>
          error := Some(REQUEST_ERROR);
      }
      isLoading := false;
      inFlight := None;
    }
  }

  /** Text in the Basic Multilingual Plane has one code unit per character. */
  lemma BmpLength(s: string)
    requires forall i :: 0 <= i < |s| ==> s[i] as int <= 0xFFFF
    ensures Utf16Length(s) == |s|
  {
    Utf16LengthSpec(s);
  }

  /** A character above U+FFFF adds two code units. */
  lemma AstralCharCountsTwo(s: string, c: char)
    requires c as int > 0xFFFF
    ensures Utf16Length(s + [c]) == Utf16Length(s) + 2
  {
    Utf16LengthAppend(s, [c]);
    assert [c][1..] == [];
  }

  /** A phone with a letter in it is rejected. */
  lemma LetterPhoneRejected()
    ensures !ValidatePhone("99363a12345")
  {
    ValidatePhoneSpec("99363a12345");
    assert "99363a12345"[5] == 'a';
  }

  /**
   * Typed text is not reduced to digits: a '+' prefix makes the input too long to keep, as
   * does a character outside the Basic Multilingual Plane, which counts as two code units.
   */
  method TooLongInputsAreIgnored(plus: string, ten: string)
    requires plus == "+99363123456" && ten == "9936312345"
  {
    var f := new LotteryAuthForm();
    RemoveBackslashDLength(plus);
    Utf16LengthSpec(plus);
    f.HandlePhoneChange(plus);
    assert f.phone == "";
    BmpLength(ten);
    AstralCharCountsTwo(ten, '\U{1F600}');
    RemoveBackslashDLength(ten + ['\U{1F600}']);
    f.HandlePhoneChange(ten + ['\U{1F600}']);
    assert f.phone == "";
  }

  /** A letter survives the filter and is kept in the phone field. */
  method TypedLetterIsKept(letter: string)
    requires letter == "99363a12345"
  {
    var f := new LotteryAuthForm();
    RemoveBackslashDLength(letter);
    BmpLength(letter);
    f.HandlePhoneChange(letter);
    assert f.phone == letter;
  }

  /** A phone holding a letter fails the phone check on submit, whatever the code. */
  method LetterPhoneFailsSubmit(f: LotteryAuthForm)
    requires f.Valid() && !f.isLoading && f.phone == "99363a12345"
    modifies f
  {
    LetterPhoneRejected();
    var d := f.HandleSubmit();
    assert d == PhoneRejected && f.error == Some(PHONE_ERROR) && !f.isLoading;
  }
}

/** The login page: a phone step, in which a one-time code is requested, and a
    code step, in which the code is typed and confirmed. The page state is the
    phone and code inputs, the pending confirmation, the loading flag and the
    error line; the handlers update it step by step. Firebase's answers (code
    sent or not, code accepted or not) are parameters. */
module Login {
  import opened Base

  // ---------------------------------------------------------------------------
  // The code input filter

  predicate IsDigit(c: char)
  {
    '0' <= c <= '9'
  }

  predicate AllDigits(s: string)
  {
    forall i :: 0 <= i < |s| ==> IsDigit(s[i])
  }

  /** `value.replace(/\D/g, '')`: the digits of `value`, in order. */
  function DigitsOnly(value: string): (r: string)
    ensures |r| <= |value|
    ensures AllDigits(r)
  {
    if value == [] then []
    else
      var last := value[|value| - 1];
      DigitsOnly(value[..|value| - 1]) + (if IsDigit(last) then [last] else [])
  }

  /** The filter keeps every digit and only digits. */
  lemma {:induction false} DigitsOnlyMembers(value: string, c: char)
    ensures c in DigitsOnly(value) <==> c in value && IsDigit(c)
  {
    if value != [] {
      var n := |value| - 1;
      DigitsOnlyMembers(value[..n], c);
      assert value == value[..n] + [value[n]];
    }
  }

  /** Filtering the parts of a string and joining them is filtering the whole. */
  lemma {:induction false} DigitsOnlyConcat(a: string, b: string)
    ensures DigitsOnly(a + b) == DigitsOnly(a) + DigitsOnly(b)
  {
    if b == [] {
      assert a + b == a;
    } else {
      var n := |b| - 1;
      assert (a + b)[..|a + b| - 1] == a + b[..n];
      DigitsOnlyConcat(a, b[..n]);
    }
  }

  /** A string of digits passes unchanged. */
  lemma {:induction false} DigitsOnlyKeepsDigits(value: string)
    requires AllDigits(value)
    ensures DigitsOnly(value) == value
  {
    if value != [] {
      var n := |value| - 1;
      DigitsOnlyKeepsDigits(value[..n]);
      assert value == value[..n] + [value[n]];
    }
  }

  /** Filtering twice gives what filtering once gave. */
  lemma DigitsOnlyIdempotent(value: string)
    ensures DigitsOnly(DigitsOnly(value)) == DigitsOnly(value)
  {
    DigitsOnlyKeepsDigits(DigitsOnly(value));
  }

  /** A string without digits filters to nothing. */
  lemma DigitsOnlyOfNonDigits(junk: string)
    requires forall i :: 0 <= i < |junk| ==> !IsDigit(junk[i])
    ensures DigitsOnly(junk) == []
  {
    if DigitsOnly(junk) != [] {
      var c := DigitsOnly(junk)[0];
      DigitsOnlyMembers(junk, c);
    }
  }

  /** Inserting non-digits anywhere changes nothing. */
  lemma DigitsOnlyIgnoresNonDigits(a: string, junk: string, b: string)
    requires forall i :: 0 <= i < |junk| ==> !IsDigit(junk[i])
    ensures DigitsOnly(a + junk + b) == DigitsOnly(a + b)
  {
    DigitsOnlyConcat(a + junk, b);
    DigitsOnlyConcat(a, junk);
    DigitsOnlyConcat(a, b);
    DigitsOnlyOfNonDigits(junk);
    assert DigitsOnly(a) + [] == DigitsOnly(a);
  }

  // ---------------------------------------------------------------------------
  // The page

  /** The pending sign-in, for the number the code was sent to. */
  datatype Confirmation = Confirmation(phone: string)

  /** Firebase's answer to `signInWithPhoneNumber`: the code was sent, or an
      error with its message (possibly none). */
  datatype SendAnswer = Sent | SendFailed(message: Option<string>)

  const BadPhone: string := "Please enter a valid phone number"
  const SendFailedText: string := "Failed to send OTP. Please try again."
  const BadCode: string := "Please enter a valid 6-digit OTP"
  const WrongCode: string := "Invalid OTP. Please try again."

  class LoginPage {
    var phone: string
    var otp: string
    var confirmation: Option<Confirmation>
    var loading: bool
    var error: string
    /** `router.push('/')` after a confirmed code. */
    var signedIn: bool

    /** Between two events nothing is loading, the code field holds digits
        only, and a sign-in went through a confirmation. */
    ghost predicate Valid()
      reads this
    {
      !loading && AllDigits(otp) && (signedIn ==> confirmation.Some?)
    }

    /** The phone step is shown exactly while no confirmation is pending. */
    predicate PhoneStep()
      reads this
    {
      confirmation.None?
    }

    constructor ()
      ensures Valid() && PhoneStep()
      ensures phone == "" && otp == "" && error == "" && !signedIn
    {
      phone := "";
      otp := "";
      confirmation := None;
      loading := false;
      error := "";
      signedIn := false;
    }

    /** The phone input. */
    method PhoneChanged(value: string)
      requires Valid()
      modifies this
      ensures Valid()
      ensures phone == value
      ensures otp == old(otp) && confirmation == old(confirmation) && error == old(error)
      ensures signedIn == old(signedIn)
    {
      phone := value;
    }

    /** The code input: only its digits are kept. */
    method OtpChanged(value: string)
      requires Valid()
      modifies this
      ensures Valid()
      ensures otp == DigitsOnly(value)
      ensures phone == old(phone) && confirmation == old(confirmation) && error == old(error)
      ensures signedIn == old(signedIn)
    {
      otp := DigitsOnly(value);
    }

    /** `sendOtp`: a number shorter than 10 characters is refused before
        anything else and leaves the step as it was; otherwise the code is
        requested, and on success the code step opens for that number, while a
        failure shows Firebase's message or the default one. */
    method SendOtp(answer: SendAnswer)
      requires Valid()
      modifies this
      ensures Valid()
      ensures phone == old(phone) && otp == old(otp) && signedIn == old(signedIn)
      ensures (phone == "" || |phone| < 10) ==> error == BadPhone && confirmation == old(confirmation)
      ensures !(phone == "" || |phone| < 10) && answer.Sent? ==>
        confirmation == Some(Confirmation(phone)) && error == ""
      ensures !(phone == "" || |phone| < 10) && answer.SendFailed? ==>
        confirmation == old(confirmation) && error == OrElse(answer.message, SendFailedText)
    {
      if phone == "" || |phone| < 10 {
        error := BadPhone;
        return;
      }
      loading := true;
      error := "";
      match answer {
        case Sent =>
          confirmation := Some(Confirmation(phone));
          error := "";
        case SendFailed(message) =>
          error := OrElse(message, SendFailedText);
      }
      loading := false;
    }

    /** `verifyOtp`: a code that is not exactly 6 characters is refused before
        anything else; otherwise the pending confirmation checks it, and the
        user is signed in when it is accepted. Without a pending confirmation
        the call fails as a wrong code does. */
    method VerifyOtp(accepted: bool)
      requires Valid()
      modifies this
      ensures Valid()
      ensures phone == old(phone) && otp == old(otp) && confirmation == old(confirmation)
      ensures (otp == "" || |otp| != 6) ==> error == BadCode && signedIn == old(signedIn)
      ensures !(otp == "" || |otp| != 6) ==>
        if accepted && confirmation.Some? then signedIn && error == ""
        else error == WrongCode && signedIn == old(signedIn)
    {
      if otp == "" || |otp| != 6 {
        error := BadCode;
        return;
      }
      loading := true;
      error := "";
      if confirmation.Some? && accepted {
        signedIn := true;
      } else {
        error := WrongCode;
      }
      loading := false;
    }

    /** "Change Phone Number": back to the phone step with an empty code and no
        error; the number typed stays. Once signed in the page has navigated
        away, so the button is no longer there. */
    method ChangePhone()
      requires Valid() && !signedIn
      modifies this
      ensures Valid() && PhoneStep()
      ensures confirmation == None && otp == "" && error == ""
      ensures phone == old(phone) && signedIn == old(signedIn)
    {
      confirmation := None;
      otp := "";
      error := "";
    }
  }
}

/**
 * The login form: phone number and code fields, the checks run before each submit, and the
 * step back from the code to the phone number.
 */
module Login {
  import opened Wrappers
  import opened Text
  import opened Seqs
  import opened Auth

  /** `/^[6-9]\d{9}$/`: ten ASCII digits, the first one 6 to 9. */
  predicate ValidPhoneNumber(phone: string) {
    |phone| == 10 && '6' <= phone[0] <= '9' && forall i :: 1 <= i < 10 ==> IsDigit(phone[i])
  }

  /** A valid number is a ten-digit number from 6000000000 up. */
  lemma ValidPhoneNumberValue(phone: string)
    ensures ValidPhoneNumber(phone) <==>
      |phone| == 10 && AllDigits(phone) && DigitsValue(phone) >= 6000000000
  {
    if |phone| == 10 && AllDigits(phone) {
      DigitsValueLeading(phone);
      DigitsValueBound(phone[1..]);
      assert Pow10(9) == 1000000000 by {
        assert Pow10(3) == 1000;
        assert Pow10(6) == 1000 * Pow10(3) by {
          assert Pow10(6) == 10 * Pow10(5) == 100 * Pow10(4) == 1000 * Pow10(3);
        }
        assert Pow10(9) == 1000 * Pow10(6) by {
          assert Pow10(9) == 10 * Pow10(8) == 100 * Pow10(7) == 1000 * Pow10(6);
        }
      }
    }
  }

  const PhoneRequired := "Phone number is required"
  const PhoneInvalid := "Please enter a valid 10-digit Indian phone number"
  const OtpRequired := "OTP is required"
  const OtpLength := "OTP must be 6 digits"

  /** The phone check: required first, then the format. */
  function PhoneError(phone: string): (e: Option<string>)
    ensures e.None? <==> ValidPhoneNumber(phone)
    ensures phone == "" ==> e == Some(PhoneRequired)
    ensures phone != "" && !ValidPhoneNumber(phone) ==> e == Some(PhoneInvalid)
  {
    if phone == "" then Some(PhoneRequired)
    else if !ValidPhoneNumber(phone) then Some(PhoneInvalid)
    else None
  }

  /** The code check: required first, then six characters. */
  function OtpError(otp: string): (e: Option<string>)
    ensures e.None? <==> |otp| == 6
    ensures otp == "" ==> e == Some(OtpRequired)
    ensures otp != "" && |otp| != 6 ==> e == Some(OtpLength)
  {
    if otp == "" then Some(OtpRequired)
    else if |otp| != 6 then Some(OtpLength)
    else None
  }

  /** A code that passes the form's check is always accepted by the session. */
  lemma FormCheckedCodeAccepted(otp: string)
    requires OtpError(otp).None?
    ensures OtpAccepted(otp)
  {
  }

  /** `value.replace(/\D/g, '')`: the digits of the text, in order. */
  function DigitsOnly(s: string): (r: string)
    ensures AllDigits(r)
    ensures IsSubsequence(r, s)
    ensures forall i :: 0 <= i < |s| && IsDigit(s[i]) ==> multiset(r)[s[i]] == multiset(s)[s[i]]
    ensures AllDigits(s) ==> r == s
  {
    FilterAll(s, IsDigit);
    FilterCounts(s, IsDigit);
    Filter(s, IsDigit)
  }

  /** Stripping twice is stripping once. */
  lemma DigitsOnlyIdempotent(s: string)
    ensures DigitsOnly(DigitsOnly(s)) == DigitsOnly(s)
  {
  }

  class LoginForm {
    var phoneNumber: string
    var otp: string
    var phoneError: Option<string>
    var otpError: Option<string>
    const auth: AuthState

    /** The code field never holds anything but digits. */
    ghost predicate Valid()
      reads this, auth
    {
      AllDigits(otp) && auth.Valid()
    }

    constructor Open(session: AuthState)
      requires session.Valid()
      ensures Valid() && auth == session
      ensures phoneNumber == "" && otp == "" && phoneError.None? && otpError.None?
    {
      auth := session;
      phoneNumber := "";
      otp := "";
      phoneError := None;
      otpError := None;
    }

    method EditPhone(text: string)
      requires Valid()
      modifies this
      ensures Valid() && phoneNumber == text
      ensures otp == old(otp) && phoneError == old(phoneError) && otpError == old(otpError)
    {
      phoneNumber := text;
    }

    /** Typing in the code field keeps only the digits typed. */
    method EditOtp(text: string)
      requires Valid()
      modifies this
      ensures Valid() && otp == DigitsOnly(text)
      ensures phoneNumber == old(phoneNumber) && phoneError == old(phoneError) && otpError == old(otpError)
    {
      otp := DigitsOnly(text);
    }

    /**
     * `handleSendOTP`: clears the errors; a missing or malformed number sets exactly one phone
     * error and stops; a valid one asks the session to send the code.
     */
    method HandleSendOTP() returns (sent: bool)
      requires Valid()
      modifies this, auth
      ensures Valid()
      ensures sent <==> ValidPhoneNumber(phoneNumber)
      ensures phoneError == PhoneError(phoneNumber) && otpError.None?
      ensures sent ==> auth.otpSent && !auth.loading
      ensures !sent ==> auth.otpSent == old(auth.otpSent) && auth.loading == old(auth.loading)
      ensures auth.user == old(auth.user) && auth.otpVerified == old(auth.otpVerified)
      ensures phoneNumber == old(phoneNumber) && otp == old(otp)
    {
      phoneError, otpError := None, None;
      if phoneNumber == "" {
        phoneError := Some(PhoneRequired);
        return false;
      }
      if !ValidPhoneNumber(phoneNumber) {
        phoneError := Some(PhoneInvalid);
        return false;
      }
      var _ := auth.SendOTP(phoneNumber);
      sent := true;
    }

    /**
     * `handleVerifyOTP`: clears the errors; a missing or short code sets exactly one code error
     * and stops; a six-digit code is verified, which then always signs the farmer in.
     */
    method HandleVerifyOTP(now: nat) returns (verified: bool)
      requires Valid()
      modifies this, auth
      ensures Valid()
      ensures verified <==> |otp| == 6
      ensures otpError == OtpError(otp) && phoneError.None?
      ensures verified ==> auth.user == Some(LoginUser(phoneNumber, now)) && auth.otpVerified
      ensures !verified ==> auth.user == old(auth.user) && auth.otpVerified == old(auth.otpVerified)
      ensures auth.otpSent == old(auth.otpSent)
      ensures phoneNumber == old(phoneNumber) && otp == old(otp)
    {
      phoneError, otpError := None, None;
      if otp == "" {
        otpError := Some(OtpRequired);
        return false;
      }
      if |otp| != 6 {
        otpError := Some(OtpLength);
        return false;
      }
      var _ := auth.VerifyOTP(phoneNumber, otp, now);
      verified := true;
    }

    /** `handleBackToPhone`: empties the code and clears the session's flags. */
    method HandleBackToPhone()
      requires Valid()
      modifies this, auth
      ensures Valid() && otp == ""
      ensures !auth.otpSent && !auth.otpVerified && auth.user == old(auth.user)
      ensures phoneNumber == old(phoneNumber)
    {
      otp := "";
      auth.ResetOTP();
    }
  }
}

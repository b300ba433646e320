/**
 * The login session: who is signed in, whether a one-time code was sent and accepted, and the
 * copy of the signed-in user kept across visits.
 */
module Auth {
  import opened Wrappers
  import opened Text

  /** The signed-in farmer; `createdAt` is the sign-in time. */
  datatype User = User(id: string, phoneNumber: string, name: string, role: string, createdAt: int)

  /** What `sendOTP` and `verifyOTP` return: success (with the user, after a verification) or an error. */
  datatype AuthResult = Success(user: Option<User>) | Failure(error: string)

  /** The code check: "123456", or any code of six characters. */
  predicate OtpAccepted(otp: string) {
    otp == "123456" || |otp| == 6
  }

  /** The "123456" clause adds nothing: a code is accepted exactly when it has six characters. */
  lemma OtpAcceptedIffSix(otp: string)
    ensures OtpAccepted(otp) <==> |otp| == 6
  {
  }

  /** The user created by a successful verification at time `now`. */
  function LoginUser(phone: string, now: nat): (u: User)
    ensures u.phoneNumber == phone && u.role == "farmer" && u.createdAt == now
    ensures |u.name| >= 7 && u.name[..7] == "Farmer " && u.name[7..] == TakeLast(phone, 4)
    ensures AllDigits(u.id) && DigitsValue(u.id) == now
  {
    NatToStringRoundTrip(now);
    User(NatToString(now), phone, "Farmer " + TakeLast(phone, 4), "farmer", now)
  }

  class AuthState {
    var user: Option<User>
    var loading: bool
    var otpSent: bool
    var otpVerified: bool
    /** The saved copy of the signed-in user. */
    ghost var storedUser: Option<User>

    /** The saved copy always matches the signed-in user. */
    ghost predicate Valid()
      reads this
    {
      storedUser == user
    }

    predicate IsAuthenticated()
      reads this
    {
      user.Some?
    }

    /** Start-up: a saved user is signed in again; loading ends. */
    constructor Restore(saved: Option<User>)
      ensures Valid()
      ensures user == saved && storedUser == saved
      ensures !loading && !otpSent && !otpVerified
    {
      user := saved;
      storedUser := saved;
      loading := false;
      otpSent := false;
      otpVerified := false;
    }

    /** `sendOTP`: marks the code as sent and succeeds; loading is over when it returns. */
    method SendOTP(phone: string) returns (r: AuthResult)
      requires Valid()
      modifies this
      ensures Valid()
      ensures r == Success(None)
      ensures otpSent && !loading
      ensures user == old(user) && otpVerified == old(otpVerified) && storedUser == old(storedUser)
    {
      loading := true;
      otpSent := true;
      r := Success(None);
      loading := false;
    }

    /**
     * `verifyOTP`: a six-character code signs the farmer in and saves the user; any other code
     * fails with "Invalid OTP" and changes nothing but the loading flag.
     */
    method VerifyOTP(phone: string, otp: string, now: nat) returns (r: AuthResult)
      requires Valid()
      modifies this
      ensures Valid() && !loading && otpSent == old(otpSent)
      ensures |otp| == 6 ==> user == Some(LoginUser(phone, now)) && otpVerified && r == Success(user)
      ensures |otp| == 6 ==> IsAuthenticated()
      ensures |otp| != 6 ==> user == old(user) && otpVerified == old(otpVerified) && r == Failure("Invalid OTP")
    {
      loading := true;
      if otp == "123456" || |otp| == 6 {
        var u := LoginUser(phone, now);
        user := Some(u);
        otpVerified := true;
        storedUser := Some(u);
        r := Success(Some(u));
      } else {
        r := Failure("Invalid OTP");
      }
      loading := false;
    }

    /** `logout`: signs out, clears both flags and removes the saved user. */
    method Logout()
      modifies this
      ensures Valid() && !IsAuthenticated()
      ensures user.None? && storedUser.None? && !otpSent && !otpVerified
      ensures loading == old(loading)
    {
      user := None;
      otpSent := false;
      otpVerified := false;
      storedUser := None;
    }

    /** `resetOTP`: clears both flags and keeps the user. */
    method ResetOTP()
      modifies this
      ensures !otpSent && !otpVerified
      ensures user == old(user) && storedUser == old(storedUser) && loading == old(loading)
    {
      otpSent := false;
      otpVerified := false;
    }
  }
}

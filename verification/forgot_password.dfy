/**
 * The forgot-password page: one form that first requests a one-time code
 * for an e-mail address and, once a code was sent, verifies it and moves
 * on to the change-password page with the address in the query string.
 */
module ForgotPassword {
  import opened Common
  import opened Uri

  /** Where a successful verification navigates. */
  function ChangePasswordRoute(email: string): (route: string)
    ensures "/change-password?email=" <= route
    ensures route[|"/change-password?email="|..] == EncodeURIComponent(email)
  {
    "/change-password?email=" + EncodeURIComponent(email)
  }

  /** The query carries exactly the one parameter: the encoded address
      holds no '&', '=' or '#', and decodes back to the address's bytes. */
  lemma RouteCarriesEmail(email: string)
    ensures var q := ChangePasswordRoute(email)[|"/change-password?email="|..];
      (forall i | 0 <= i < |q| :: q[i] != '&' && q[i] != '=' && q[i] != '#') &&
      PercentDecode(q) == Some(Utf8Bytes(email))
  {
    EncodedIsSafe(email);
    DecodeEncode(email);
  }

  class ForgotPasswordPage {
    var email: string
    var otp: string
    var otpSent: bool

    constructor ()
      ensures email == "" && otp == "" && !otpSent
    {
      email := "";
      otp := "";
      otpSent := false;
    }

    /** `disabled={otpSent}` on the e-mail input. */
    predicate EmailDisabled()
      reads this
    {
      otpSent
    }

    /** The code input is rendered only after a code was sent. */
    predicate OtpVisible()
      reads this
    {
      otpSent
    }

    method EditEmail(value: string)
      requires !EmailDisabled()
      modifies this
      ensures email == value && otp == old(otp) && otpSent == old(otpSent)
    {
      email := value;
    }

    method EditOtp(value: string)
      requires OtpVisible()
      modifies this
      ensures otp == value && email == old(email) && otpSent == old(otpSent)
    {
      otp := value;
    }

    /** Requesting a code: `otpSent` becomes true only when the request
        succeeds; a failure changes nothing. */
    method HandleSendOtp(serverOk: bool)
      modifies this
      ensures otpSent == (old(otpSent) || serverOk)
      ensures email == old(email) && otp == old(otp)
    {
      if serverOk {
        otpSent := true;
      }
    }

    /** Verifying the code: on success, the route to the change-password
        page for the current address; nothing changes either way. */
    method HandleVerifyOtp(serverOk: bool) returns (route: Option<string>)
      ensures route.Some? <==> serverOk
      ensures route.Some? ==> route.value == ChangePasswordRoute(email)
    {
      if serverOk {
        route := Some(ChangePasswordRoute(email));
      } else {
        route := None;
      }
    }

    /** The form's submit: it requests a code until one was sent and
        verifies from then on; `otpSent` never goes back to false. */
    method Submit(serverOk: bool) returns (route: Option<string>)
      modifies this
      ensures old(otpSent) ==> otpSent && route == (if serverOk then Some(ChangePasswordRoute(email)) else None)
      ensures !old(otpSent) ==> route == None && otpSent == serverOk
      ensures email == old(email) && otp == old(otp)
    {
      if otpSent {
        route := HandleVerifyOtp(serverOk);
      } else {
        HandleSendOtp(serverOk);
        route := None;
      }
    }
  }

  /** The whole flow: a failed request keeps the page on the e-mail step,
      a successful one opens the code step and locks the address, and a
      successful verification leads to the change-password page for it. */
  method Flow(address: string, code: string) returns (route: Option<string>)
    ensures route == Some(ChangePasswordRoute(address))
  {
    var page := new ForgotPasswordPage();
    page.EditEmail(address);
    var r := page.Submit(false);
    assert r == None && !page.otpSent;
    r := page.Submit(true);
    assert page.EmailDisabled() && page.OtpVisible();
    page.EditOtp(code);
    route := page.Submit(true);
  }
}

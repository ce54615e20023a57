/**
 * The change-password page: a new password under a small policy, its
 * confirmation, and on success a sign-out from this browser.
 */
module ChangePassword {
  import opened Common
  import opened JsText
  import opened Patterns
  import opened Storage
  import opened RequireAuth

  datatype Field = NewPassword | ConfirmPassword

  const FieldRequired: string := "This field is required"
  const TooShort: string := "Password must be at least 6 characters"
  const NeedsNumber: string := "Password must contain at least one number"
  const NeedsSpecial: string := "Password must contain at least one special character (!@#$%^&*)"
  const Mismatch: string := "Passwords do not match"

  /** The first policy rule a new password breaks, or "". */
  function PasswordMessage(v: string): string {
    if v == "" then FieldRequired
    else if Length(v) < 6 then TooShort
    else if !HasDigit(v) then NeedsNumber
    else if !HasSpecial(v) then NeedsSpecial
    else ""
  }

  /** The confirmation check against the new password held at the time. */
  function ConfirmMessage(v: string, newPassword: string): string {
    if v == "" then FieldRequired
    else if v != newPassword then Mismatch
    else ""
  }

  /** The policy: a password is accepted exactly when it is at least six
      UTF-16 code units long and has a digit and one of `!@#$%^&*`; each
      rejection names the first rule broken. */
  lemma PasswordPolicy(v: string)
    ensures PasswordMessage(v) == "" <==> Length(v) >= 6 && HasDigit(v) && HasSpecial(v)
    ensures PasswordMessage(v) == TooShort <==> 0 < Length(v) < 6
    ensures PasswordMessage(v) == NeedsNumber <==> Length(v) >= 6 && !HasDigit(v)
    ensures PasswordMessage(v) == NeedsSpecial <==> Length(v) >= 6 && HasDigit(v) && !HasSpecial(v)
  {
  }

  /** Five characters are long enough when one of them lies outside the
      Basic Multilingual Plane: "ab1!" followed by an emoji is accepted. */
  lemma SurrogatePairCountsTwice(c: char)
    requires c as int >= 0x1_0000
    ensures PasswordMessage(['a', 'b', '1', '!', c]) == ""
  {
    var v := ['a', 'b', '1', '!', c];
    assert v == ['a', 'b', '1', '!'] + [c];
    LengthConcat(['a', 'b', '1', '!'], [c]);
    assert Length([c]) == 2 by {
      assert [c][1..] == [];
    }
    assert IsAsciiDigit(v[2]) && IsSpecial(v[3]);
  }

  /** A confirmation passes exactly when it repeats a non-empty new
      password. */
  lemma ConfirmRule(v: string, newPassword: string)
    ensures ConfirmMessage(v, newPassword) == "" <==> v == newPassword && newPassword != ""
  {
  }

  /** The body sent to the server: the e-mail from the query string is
      included only when it is present and not empty. */
  datatype ChangeRequest = ChangeRequest(newPassword: string, confirmPassword: string, email: Option<string>)

  function RequestFor(newPassword: string, confirmPassword: string, email: Option<string>): (r: ChangeRequest)
    ensures r.newPassword == newPassword && r.confirmPassword == confirmPassword
    ensures r.email.Some? <==> email.Some? && email.value != ""
    ensures r.email.Some? ==> r.email == email
  {
    ChangeRequest(newPassword, confirmPassword, if email.Some? && email.value != "" then email else None)
  }

  class Page {
    const email: Option<string>
    var newPassword: string
    var confirmPassword: string
    var errors: map<Field, string>

    constructor (email: Option<string>)
      ensures this.email == email
      ensures newPassword == "" && confirmPassword == "" && errors == map[]
    {
      this.email := email;
      newPassword := "";
      confirmPassword := "";
      errors := map[];
    }

    /** Typing a new password re-checks that field only; the confirmation
        slot keeps its verdict on the previous password. */
    method EditNewPassword(v: string) returns (valid: bool)
      modifies this
      ensures newPassword == v && confirmPassword == old(confirmPassword)
      ensures errors == old(errors)[NewPassword := PasswordMessage(v)]
      ensures valid <==> PasswordMessage(v) == ""
    {
      newPassword := v;
      errors := errors[NewPassword := PasswordMessage(v)];
      valid := PasswordMessage(v) == "";
    }

    method EditConfirmPassword(v: string) returns (valid: bool)
      modifies this
      ensures confirmPassword == v && newPassword == old(newPassword)
      ensures errors == old(errors)[ConfirmPassword := ConfirmMessage(v, newPassword)]
      ensures valid <==> ConfirmMessage(v, newPassword) == ""
    {
      confirmPassword := v;
      errors := errors[ConfirmPassword := ConfirmMessage(v, newPassword)];
      valid := ConfirmMessage(v, newPassword) == "";
    }

    /** The submit check runs both field checks on the current values;
        it passes exactly when the new password meets the policy and the
        confirmation repeats it. */
    method ValidateForm() returns (ok: bool)
      modifies this
      ensures newPassword == old(newPassword) && confirmPassword == old(confirmPassword)
      ensures errors == old(errors)[NewPassword := PasswordMessage(newPassword)][ConfirmPassword := ConfirmMessage(confirmPassword, newPassword)]
      ensures ok <==> Length(newPassword) >= 6 && HasDigit(newPassword) && HasSpecial(newPassword) && confirmPassword == newPassword
    {
      var newValid := EditNewPassword(newPassword);
      var confirmValid := EditConfirmPassword(confirmPassword);
      PasswordPolicy(newPassword);
      ConfirmRule(confirmPassword, newPassword);
      ok := newValid && confirmValid;
    }

    /** Submit: on a passing check the request is sent; when it succeeds,
        the token and the stored user are removed, so the route guard
        sends the next protected page to the login screen. */
    method HandleSubmit(store: BrowserStorage, serverOk: bool) returns (outcome: SubmitOutcome, sent: Option<ChangeRequest>)
      modifies this, store
      ensures newPassword == old(newPassword) && confirmPassword == old(confirmPassword)
      ensures outcome == Blocked <==>
        !(Length(newPassword) >= 6 && HasDigit(newPassword) && HasSpecial(newPassword) && confirmPassword == newPassword)
      ensures sent == (if outcome == Blocked then None else Some(RequestFor(newPassword, confirmPassword, email)))
      ensures outcome != Blocked ==> (outcome == Saved <==> serverOk)
      ensures store.local == (if outcome == Saved then old(store.local) - {TokenKey, UserKey} else old(store.local))
      ensures store.session == old(store.session)
      ensures outcome == Saved ==> Guard(store.local) == Redirect("/Login", true)
    {
      var ok := ValidateForm();
      if !ok {
        outcome := Blocked;
        sent := None;
        return;
      }
      sent := Some(RequestFor(newPassword, confirmPassword, email));
      if serverOk {
        store.local := store.local - {TokenKey};
        store.local := store.local - {UserKey};
        outcome := Saved;
      } else {
        outcome := SaveFailed;
      }
    }
  }

  /** Changing the new password after a matching confirmation leaves the
      confirmation shown as matching, though the submit check then finds
      the mismatch and blocks. */
  method StaleConfirmation(first: string, second: string) returns (shown: string, outcome: SubmitOutcome)
    requires first != "" && first != second
    ensures shown == ""
    ensures outcome == Blocked
  {
    var page := new Page(None);
    var _ := page.EditNewPassword(first);
    var _ := page.EditConfirmPassword(first);
    var _ := page.EditNewPassword(second);
    shown := page.errors[ConfirmPassword];
    var store := new BrowserStorage(map[], map[]);
    var sent;
    outcome, sent := page.HandleSubmit(store, true);
  }
}

/** The sign-in gate in front of the application: a six-state status machine
    driven by the store's auth listener, the redirect result, sign-in and
    sign-out, with a fail-closed email allowlist. */
module FirebaseAuth {
  import opened Wrappers

  datatype Status = Loading | Unconfigured | Unauthenticated | Checking | Allowed | Denied

  datatype FirebaseUser = FirebaseUser(uid: string, email: Option<string>)

  /** What reading `companies/{COMPANY_ID}/settings/access` produced. */
  datatype AccessRead =
    | ReadFailed
    | NoDocument
    | AccessDocument(allowedEmails: Option<seq<string>>)

  /** `checkAllowlist`: false when the read fails or the document is missing;
      otherwise whether the email (null read as "") is listed, a missing list
      counting as empty. */
  function CheckAllowlist(read: AccessRead, user: FirebaseUser): (allowed: bool)
    ensures read == ReadFailed || read == NoDocument ==> !allowed
    ensures allowed ==> read.AccessDocument? && read.allowedEmails.Some?
    ensures read.AccessDocument? ==> (allowed <==> user.email.GetOr("") in read.allowedEmails.GetOr([]))
  {
    match read
    case ReadFailed => false
    case NoDocument => false
    case AccessDocument(list) => user.email.GetOr("") in list.GetOr([])
  }

  /** A user without an email is admitted only if the empty string itself is listed. */
  lemma NoEmailNeedsEmptyEntry(read: AccessRead, uid: string)
    ensures CheckAllowlist(read, FirebaseUser(uid, None)) ==> read.AccessDocument? && "" in read.allowedEmails.value
  {
  }

  /** An error as the SDK reports it: an optional code and an optional message. */
  datatype AuthError = AuthError(code: Option<string>, message: Option<string>)

  /** The fixed code-to-text table of `getErrorMessage`. */
  function MappedMessage(code: string): Option<string> {
    if code == "auth/popup-blocked" then Some("Popup blocked. Please allow popups or try again.")
    else if code == "auth/popup-closed-by-user" then Some("Sign-in popup was closed")
    else if code == "auth/operation-not-supported-in-this-environment" then Some("Sign-in not supported in this context")
    else if code == "auth/network-request-failed" then Some("Network error. Please check your connection.")
    else if code == "auth/internal-error" then Some("Internal authentication error. Please try again.")
    else None
  }

  function MessageOr(err: AuthError): string {
    if Truthy(err.message) then err.message.value else "Unknown error"
  }

  /** `getErrorMessage`: without a code, the message or "Unknown error"; with a
      mapped code, the mapped text; with any other code, the message or "Unknown error". */
  function ErrorMessage(err: AuthError): (text: string)
    ensures !Truthy(err.code) ==> text == MessageOr(err)
    ensures Truthy(err.code) && MappedMessage(err.code.value).Some? ==> text == MappedMessage(err.code.value).value
    ensures Truthy(err.code) && MappedMessage(err.code.value).None? ==> text == MessageOr(err)
  {
    if !Truthy(err.code) then MessageOr(err)
    else match MappedMessage(err.code.value)
      case Some(mapped) => mapped
      case None => MessageOr(err)
  }

  /** The user is always shown some text: the message is never empty. */
  lemma ErrorMessageNeverEmpty(err: AuthError)
    ensures ErrorMessage(err) != ""
  {
  }

  /** `${user.email}` in a template literal: a null email prints as "null". */
  function EmailText(email: Option<string>): string {
    email.GetOr("null")
  }

  function DeniedMessage(user: FirebaseUser): string {
    EmailText(user.email) + " is not authorized. Contact your administrator."
  }

  /** How `signInWithPopup` ended. */
  datatype PopupOutcome = PopupSignedIn | PopupRejected(err: AuthError)

  predicate FallsBackToRedirect(err: AuthError) {
    err.code == Some("auth/popup-blocked") || err.code == Some("auth/operation-not-supported-in-this-environment")
  }

  /** The provider's state. */
  class AuthProvider {
    const configured: bool
    var status: Status
    var firebaseUser: Option<FirebaseUser>
    var error: Option<string>
    /** Whether the auth-state listener is installed. */
    var listening: bool
    /** Whether a redirect sign-in was started. */
    var redirecting: bool

    /** The status is "unconfigured" exactly when the store is not configured, and
        the listener is installed exactly when it is. */
    ghost predicate Valid()
      reads this
    {
      (status == Unconfigured <==> !configured) && (listening <==> configured)
    }

    /** Mounting the provider: the initial status, and the listener installed only when configured. */
    constructor (configured: bool)
      ensures Valid()
      ensures this.configured == configured
      ensures status == (if configured then Loading else Unconfigured)
      ensures firebaseUser == None && error == None && !redirecting
    {
      this.configured := configured;
      status := if configured then Loading else Unconfigured;
      firebaseUser, error := None, None;
      listening := configured;
      redirecting := false;
    }

    /** The listener's synchronous part: no user means "unauthenticated" with the
        error cleared; a user moves the status to "checking" while the allowlist is read. */
    method AuthStateChanged(user: Option<FirebaseUser>)
      requires Valid() && listening
      modifies this`status, this`firebaseUser, this`error
      ensures Valid()
      ensures firebaseUser == user
      ensures user == None ==> status == Unauthenticated && error == None
      ensures user != None ==> status == Checking && error == old(error)
    {
      firebaseUser := user;
      if user == None {
        status := Unauthenticated;
        error := None;
        return;
      }
      status := Checking;
    }

    /** The listener's continuation once the allowlist read for `user` is back:
        "allowed" exactly when the check passes, otherwise "denied" with an error
        naming the email. */
    method AllowlistChecked(user: FirebaseUser, read: AccessRead)
      requires Valid() && listening
      modifies this`status, this`error
      ensures Valid()
      ensures status == (if CheckAllowlist(read, user) then Allowed else Denied)
      ensures error == (if CheckAllowlist(read, user) then old(error) else Some(DeniedMessage(user)))
    {
      var allowed := CheckAllowlist(read, user);
      status := if allowed then Allowed else Denied;
      if !allowed {
        error := Some(DeniedMessage(user));
      }
    }

    /** The mount-time redirect check: when the redirect returned a user, the
        allowlist decides the status as in the listener; no user, or an error
        reading the result, changes nothing. */
    method RedirectResult(result: Option<FirebaseUser>, read: AccessRead)
      requires Valid() && listening
      modifies this`status, this`error
      ensures Valid()
      ensures result == None ==> status == old(status) && error == old(error)
      ensures result != None ==>
        && status == (if CheckAllowlist(read, result.value) then Allowed else Denied)
        && error == (if CheckAllowlist(read, result.value) then old(error) else Some(DeniedMessage(result.value)))
    {
      if result != None {
        AllowlistChecked(result.value, read);
      }
    }

    /** `signInWithGoogle`: clears the error and tries the popup. A closed popup
        leaves no error; a blocked or unsupported popup falls back to a redirect;
        any other failure, or a failed redirect, sets "Sign-in failed: " and the
        mapped message. The status itself is left to the listener. */
    method SignInWithGoogle(popup: PopupOutcome, redirectFailure: Option<AuthError>)
      requires Valid()
      modifies this`error, this`redirecting
      ensures Valid()
      ensures popup == PopupSignedIn ==> error == None && redirecting == old(redirecting)
      ensures popup.PopupRejected? && popup.err.code == Some("auth/popup-closed-by-user") ==>
        error == None && redirecting == old(redirecting)
      ensures popup.PopupRejected? && FallsBackToRedirect(popup.err) ==>
        if redirectFailure == None then error == None && redirecting
        else error == Some("Sign-in failed: " + ErrorMessage(redirectFailure.value)) && redirecting == old(redirecting)
      ensures popup.PopupRejected? && !FallsBackToRedirect(popup.err)
              && popup.err.code != Some("auth/popup-closed-by-user") ==>
        error == Some("Sign-in failed: " + ErrorMessage(popup.err)) && redirecting == old(redirecting)
    {
      error := None;
      match popup
      case PopupSignedIn =>
      case PopupRejected(err) =>
        if FallsBackToRedirect(err) {
          if redirectFailure == None {
            redirecting := true;
          } else {
            error := Some("Sign-in failed: " + ErrorMessage(redirectFailure.value));
          }
        } else if err.code == Some("auth/popup-closed-by-user") {
          return;
        } else {
          error := Some("Sign-in failed: " + ErrorMessage(err));
        }
    }

    /** `signOut`: once the store's sign-out resolves, no user, "unauthenticated" and
        no error. When it rejects (always so when unconfigured, there being no auth
        instance), the rejection propagates and nothing changes. */
    method SignOut(failure: Option<AuthError>) returns (r: Result<Unit>)
      requires Valid()
      modifies this`status, this`firebaseUser, this`error
      ensures Valid()
      ensures r.Ok? <==> configured && failure == None
      ensures r.Ok? ==> firebaseUser == None && status == Unauthenticated && error == None
      ensures r.Err? ==> firebaseUser == old(firebaseUser) && status == old(status) && error == old(error)
    {
      if !configured {
        return Err("auth instance is undefined");
      }
      if failure != None {
        return Err(ErrorMessage(failure.value));
      }
      firebaseUser := None;
      status := Unauthenticated;
      error := None;
      r := Ok(Unit);
    }
  }

  /** With the store unconfigured the status is "unconfigured" for good: no
      listener runs, and sign-in and sign-out leave the status alone. */
  method UnconfiguredStaysUnconfigured(p: AuthProvider, popup: PopupOutcome, redirectFailure: Option<AuthError>, failure: Option<AuthError>)
    requires p.Valid() && !p.configured
    modifies p
    ensures p.status == Unconfigured && !p.listening
  {
    p.SignInWithGoogle(popup, redirectFailure);
    var _ := p.SignOut(failure);
  }
}

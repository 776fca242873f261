/** The sign-up form: three text fields and a loading flag. Pressing Sign Up
    checks, in order, that no field is empty, that the two passwords agree
    and that the password has at least six characters; only then does it
    call the external account-creation service, with the loading flag set
    around the call. */
module Auth {

  const MinPasswordLength: nat := 6
  const EmailInUseCode := "auth/email-already-in-use"
  const EmailInUseMessage := "An account with this email already exists"

  /** How the account-creation service answers: it resolves, or it throws
      an error with a code and a message. */
  datatype AuthReply = Created | AuthError(code: string, message: string)

  datatype SignupOutcome =
    | MissingFields
    | PasswordMismatch
    | PasswordTooShort
    | AccountCreated
    | CreationFailed(message: string)

  /** The alert the form raises: a title and a message. */
  datatype Alert = Alert(title: string, message: string)

  /** What the handler does, in order: each change of the loading flag and
      each call of the account-creation service. */
  datatype SignupEvent = LoadingSet(loading: bool) | CreateUserCalled(email: string, password: string)

  /** All three checks pass. */
  predicate Eligible(email: string, password: string, confirmPassword: string)
  {
    email != [] && password != [] && confirmPassword != [] &&
    password == confirmPassword && |password| >= MinPasswordLength
  }

  /** The catch block's message: a fixed text for an address already in use,
      otherwise the error's own message. */
  function FailureMessage(code: string, message: string): (m: string)
    ensures code == EmailInUseCode ==> m == EmailInUseMessage
    ensures code != EmailInUseCode ==> m == message
  {
    if code == EmailInUseCode then EmailInUseMessage else message
  }

  /** `handleSignup` on the field values and the service's answer. An
      account is created only for a form that passes every check and a
      service that resolves; a failure carries the mapped message of the
      service's error. */
  function Signup(email: string, password: string, confirmPassword: string, reply: AuthReply): (o: SignupOutcome)
    ensures o == AccountCreated ==> reply.Created? && Eligible(email, password, confirmPassword)
    ensures o.CreationFailed? ==>
      reply.AuthError? && Eligible(email, password, confirmPassword) &&
      o.message == FailureMessage(reply.code, reply.message)
  {
    if email == [] || password == [] || confirmPassword == [] then MissingFields
    else if password != confirmPassword then PasswordMismatch
    else if |password| < MinPasswordLength then PasswordTooShort
    else match reply
      case Created => AccountCreated
      case AuthError(code, message) => CreationFailed(FailureMessage(code, message))
  }

  /** The alert each outcome raises: "Success" only for a created account,
      and a failure shows the message it carries. */
  function AlertFor(outcome: SignupOutcome): (a: Alert)
    ensures a.title == "Success" <==> outcome == AccountCreated
    ensures outcome == MissingFields ==> a.message == "Please fill in all fields"
    ensures outcome.CreationFailed? ==> a.message == outcome.message
  {
    match outcome
    case MissingFields => Alert("Error", "Please fill in all fields")
    case PasswordMismatch => Alert("Error", "Passwords do not match")
    case PasswordTooShort => Alert("Error", "Password should be at least 6 characters")
    case AccountCreated => Alert("Success", "Account created successfully!")
    case CreationFailed(message) => Alert("Error", message)
  }

  /** The value of the loading flag after the events of `t`: the last one
      set, or false when none was. */
  ghost function LastLoading(t: seq<SignupEvent>): bool
  {
    if t == [] then false
    else if t[|t| - 1].LoadingSet? then t[|t| - 1].loading
    else LastLoading(t[..|t| - 1])
  }

  /** Every call of the service happened while the loading flag was set. */
  ghost predicate CallsWhileLoading(t: seq<SignupEvent>)
  {
    forall i :: 0 <= i < |t| && t[i].CreateUserCalled? ==> LastLoading(t[..i])
  }

  /** Appending one event: a flag change sets the flag, a call keeps it, and
      a call made while the flag is set keeps every call inside it. */
  lemma {:induction false} AppendEvent(t: seq<SignupEvent>, e: SignupEvent)
    requires CallsWhileLoading(t)
    requires e.CreateUserCalled? ==> LastLoading(t)
    ensures LastLoading(t + [e]) == if e.LoadingSet? then e.loading else LastLoading(t)
    ensures CallsWhileLoading(t + [e])
  {
    var u := t + [e];
    assert u[..|u| - 1] == t;
    forall i | 0 <= i < |u| && u[i].CreateUserCalled? ensures LastLoading(u[..i]) {
      if i < |t| {
        assert u[..i] == t[..i];
        assert u[i] == t[i];
      }
    }
  }

  class SignupForm {
    var email: string
    var password: string
    var confirmPassword: string
    var loading: bool
    /** Everything the handler has done so far. */
    ghost var trace: seq<SignupEvent>

    /** The flag is the one the trace last set, and the service was only ever
        called while it was set. */
    ghost predicate Valid()
      reads this
    {
      loading == LastLoading(trace) && CallsWhileLoading(trace)
    }

    constructor ()
      ensures email == [] && password == [] && confirmPassword == []
      ensures !loading && trace == []
      ensures Valid()
    {
      email, password, confirmPassword := [], [], [];
      loading := false;
      trace := [];
    }

    /** `handleSignup`. The button is disabled while `loading` holds, so the
        handler is entered only with `loading` false, and it leaves it false.
        The service is called, with `loading` set, exactly when every check
        passes; the fields are cleared only when it succeeds. */
    method HandleSignup(reply: AuthReply) returns (outcome: SignupOutcome)
      requires Valid() && !loading
      modifies this
      ensures Valid()
      ensures outcome == Signup(old(email), old(password), old(confirmPassword), reply)
      ensures !loading
      ensures trace == old(trace) +
        if Eligible(old(email), old(password), old(confirmPassword))
        then [LoadingSet(true), CreateUserCalled(old(email), old(password)), LoadingSet(false)]
        else []
      ensures outcome == AccountCreated ==> email == [] && password == [] && confirmPassword == []
      ensures outcome != AccountCreated ==>
        email == old(email) && password == old(password) && confirmPassword == old(confirmPassword)
    {
      if email == [] || password == [] || confirmPassword == [] {
        return MissingFields;
      }
      if password != confirmPassword {
        return PasswordMismatch;
      }
      if |password| < MinPasswordLength {
        return PasswordTooShort;
      }
      loading := true;
      AppendEvent(trace, LoadingSet(true));
      trace := trace + [LoadingSet(true)];
      AppendEvent(trace, CreateUserCalled(email, password));
      trace := trace + [CreateUserCalled(email, password)];
      match reply {
        case Created =>
          email, password, confirmPassword := [], [], [];
          outcome := AccountCreated;
        case AuthError(code, message) =>
          outcome := CreationFailed(FailureMessage(code, message));
      }
      loading := false;
      AppendEvent(trace, LoadingSet(false));
      trace := trace + [LoadingSet(false)];
    }
  }

  /** An empty field is reported before anything else, whatever the other
      fields hold and whatever the service would answer. */
  lemma EmptyFieldFirst(email: string, password: string, confirmPassword: string, reply: AuthReply)
    requires email == [] || password == [] || confirmPassword == []
    ensures Signup(email, password, confirmPassword, reply) == MissingFields
    ensures !Eligible(email, password, confirmPassword)
  {
  }

  /** Different passwords are reported as a mismatch, even when the password
      is also too short. */
  lemma MismatchBeforeLength(email: string, password: string, confirmPassword: string, reply: AuthReply)
    requires email != [] && password != [] && confirmPassword != []
    ensures password != confirmPassword <==> Signup(email, password, confirmPassword, reply) == PasswordMismatch
  {
  }

  /** A matching password is rejected as too short exactly when it has fewer
      than six characters; six is enough. */
  lemma LengthBoundary(email: string, password: string, reply: AuthReply)
    requires email != [] && password != []
    ensures Signup(email, password, password, reply) == PasswordTooShort <==> |password| < MinPasswordLength
  {
  }

  /** The service's answer matters exactly when all checks pass: then a
      success creates the account and a failure carries the mapped message. */
  lemma AttemptOnlyWhenEligible(email: string, password: string, confirmPassword: string, reply: AuthReply)
    ensures
      var o := Signup(email, password, confirmPassword, reply);
      (o == AccountCreated || o.CreationFailed?) <==> Eligible(email, password, confirmPassword)
    ensures Eligible(email, password, confirmPassword) ==>
      (reply.Created? ==> Signup(email, password, confirmPassword, reply) == AccountCreated) &&
      (reply.AuthError? ==>
         Signup(email, password, confirmPassword, reply) == CreationFailed(FailureMessage(reply.code, reply.message)))
    ensures !Eligible(email, password, confirmPassword) ==>
      forall other: AuthReply ::
        Signup(email, password, confirmPassword, other) == Signup(email, password, confirmPassword, reply)
  {
  }

  // Client usage: what a caller can conclude from the contracts alone.

  /** A complete press calls the service once with the flag raised around
      it, and after a success a second press meets the emptied fields. */
  method SignupScenario(reply: AuthReply)
  {
    var form := new SignupForm();
    form.email, form.password, form.confirmPassword := "a@b.c", "secret", "secret";
    var o := form.HandleSignup(reply);
    assert form.trace == [LoadingSet(true), CreateUserCalled("a@b.c", "secret"), LoadingSet(false)];
    assert reply.Created? <==> o == AccountCreated;
    assert reply == AuthError(EmailInUseCode, "x") ==> o == CreationFailed(EmailInUseMessage);
    var p := form.HandleSignup(reply);
    assert reply.Created? ==> p == MissingFields && |form.trace| == 3;
  }

}

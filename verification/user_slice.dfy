/** The user slice: the signed-in user, the last sign-in error and a loading
    flag, changed only by five named actions. */
module UserSlice {
  import opened Wrappers
  import opened Records
  import Traces

  datatype UserState = UserState(currentUser: Option<User>, error: Option<string>, loading: bool)

  datatype UserAction =
    | SigninStart
    | SigninSuccess(user: User)
    | SigninFailure(message: string)
    | Signout
    | UpdateUserSuccess(user: User)

  const Initial: UserState := UserState(None, None, false)

  function Start(s: UserState): (r: UserState)
    ensures r.loading && r.error.None?
    ensures r.currentUser == s.currentUser
  {
    s.(loading := true, error := None)
  }

  function Success(s: UserState, u: User): (r: UserState)
    ensures r == UserState(Some(u), None, false)
  {
    s.(loading := false, currentUser := Some(u), error := None)
  }

  function Failure(s: UserState, message: string): (r: UserState)
    ensures !r.loading && r.error == Some(message)
    ensures r.currentUser == s.currentUser
  {
    s.(loading := false, error := Some(message))
  }

  function SignOut(s: UserState): (r: UserState)
    ensures r == Initial
  {
    s.(currentUser := None, error := None, loading := false)
  }

  function UpdateUser(s: UserState, u: User): (r: UserState)
    ensures r.currentUser == Some(u)
    ensures r.loading == s.loading && r.error == s.error
  {
    s.(currentUser := Some(u))
  }

  function Reduce(s: UserState, a: UserAction): UserState {
    match a
    case SigninStart => Start(s)
    case SigninSuccess(u) => Success(s, u)
    case SigninFailure(m) => Failure(s, m)
    case Signout => SignOut(s)
    case UpdateUserSuccess(u) => UpdateUser(s, u)
  }

  /** Signing out is a reset, and doing it twice is doing it once. */
  lemma SignoutResets(s: UserState)
    ensures SignOut(SignOut(s)) == SignOut(s) == Initial
    ensures Initial.currentUser.None? && Initial.error.None? && !Initial.loading
  {
  }

  /** Whatever came before, a trace ending in a sign-out leaves the initial state. */
  lemma TraceEndingInSignout(s: UserState, acts: seq<UserAction>)
    ensures Traces.Run(Reduce, s, acts + [Signout]) == Initial
  {
    Traces.RunSnoc(Reduce, s, acts, Signout);
  }

  /** The user after a trace, read backwards: the last success or update sets
      it, the last sign-out clears it; start and failure are transparent. */
  function UserAfter(init: Option<User>, acts: seq<UserAction>): Option<User>
    decreases |acts|
  {
    if |acts| == 0 then init
    else match acts[|acts| - 1]
      case SigninSuccess(u) => Some(u)
      case UpdateUserSuccess(u) => Some(u)
      case Signout => None
      case _ => UserAfter(init, acts[..|acts| - 1])
  }

  /** The error after a trace: the last failure's message, unless a start,
      success or sign-out came later; updates are transparent. */
  function ErrorAfter(init: Option<string>, acts: seq<UserAction>): Option<string>
    decreases |acts|
  {
    if |acts| == 0 then init
    else match acts[|acts| - 1]
      case SigninFailure(m) => Some(m)
      case UpdateUserSuccess(_) => ErrorAfter(init, acts[..|acts| - 1])
      case _ => None
  }

  /** Loading after a trace: true exactly when the last action other than an
      update is a start. */
  function LoadingAfter(init: bool, acts: seq<UserAction>): bool
    decreases |acts|
  {
    if |acts| == 0 then init
    else match acts[|acts| - 1]
      case SigninStart => true
      case UpdateUserSuccess(_) => LoadingAfter(init, acts[..|acts| - 1])
      case _ => false
  }

  /** Every reachable user state is described field by field by the backward
      readings above. */
  lemma {:induction false} RunCharacterised(s: UserState, acts: seq<UserAction>)
    ensures Traces.Run(Reduce, s, acts)
         == UserState(UserAfter(s.currentUser, acts), ErrorAfter(s.error, acts), LoadingAfter(s.loading, acts))
    decreases |acts|
  {
    if |acts| > 0 {
      var init := acts[..|acts| - 1];
      var last := acts[|acts| - 1];
      assert acts == init + [last];
      Traces.RunSnoc(Reduce, s, init, last);
      RunCharacterised(s, init);
    }
  }
}

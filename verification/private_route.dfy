/** The access guard: protected content renders only for a signed-in user;
    otherwise nothing renders and the browser is sent to the sign-in page. */
module PrivateRoute {
  import opened Wrappers
  import opened Records
  import UserSlice

  const SignInPath: string := "/sign-in"

  /** What the guard renders: nothing, or the children as they are. */
  datatype Rendered<C> = Nothing | Children(content: C)

  datatype GuardOutcome<C> = GuardOutcome(rendered: Rendered<C>, redirect: Option<string>)

  /** The render and its effect: a user object is always truthy, so the
      decision is on presence alone. */
  function Guard<C>(currentUser: Option<User>, children: C): (r: GuardOutcome<C>)
    ensures r.rendered.Nothing? <==> currentUser.None?
    ensures r.rendered.Children? ==> r.rendered.content == children
    ensures r.redirect.Some? <==> currentUser.None?
    ensures r.redirect.Some? ==> r.redirect.value == SignInPath
  {
    if currentUser.None? then GuardOutcome(Nothing, Some(SignInPath))
    else GuardOutcome(Children(children), None)
  }

  /** After a sign-out the guard hides its content and redirects; after a
      successful sign-in it shows the content and stays put. */
  lemma GuardFollowsUserSlice<C>(s: UserSlice.UserState, u: User, children: C)
    ensures Guard(UserSlice.SignOut(s).currentUser, children) == GuardOutcome(Nothing, Some(SignInPath))
    ensures Guard(UserSlice.Success(s, u).currentUser, children) == GuardOutcome(Children(children), None)
  {
  }

  /** The effect re-runs when `currentUser` changes. Over a sequence of
      renders, the redirects issued are the renders where the user is absent
      and either it is the first render or the user just changed. */
  function Redirects(users: seq<Option<User>>): (n: nat)
    ensures n <= |users|
    decreases |users|
  {
    if |users| == 0 then 0
    else
      var last := users[|users| - 1];
      var runs := |users| == 1 || users[|users| - 2] != last;
      Redirects(users[..|users| - 1]) + (if runs && last.None? then 1 else 0)
  }

  /** Staying signed out across any number of renders redirects once. */
  lemma {:induction false} OneRedirectPerAbsence(k: nat)
    requires k >= 1
    ensures Redirects(seq(k, i => None)) == 1
  {
    if k > 1 {
      var users: seq<Option<User>> := seq(k, i => None);
      assert users[..k - 1] == seq(k - 1, i => None);
      OneRedirectPerAbsence(k - 1);
    }
  }

  /** A signed-in user is never redirected, however often the page renders. */
  lemma {:induction false} NoRedirectWhileSignedIn(users: seq<Option<User>>)
    requires forall i :: 0 <= i < |users| ==> users[i].Some?
    ensures Redirects(users) == 0
    decreases |users|
  {
    if |users| > 0 {
      NoRedirectWhileSignedIn(users[..|users| - 1]);
    }
  }
}

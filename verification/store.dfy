/** The root store. As written it combines only the user slice, so actions of
    the listing-edit slice reach no reducer and change nothing. The corrected
    store registers both slices. */
module Store {
  import opened Wrappers
  import opened Records
  import UserSlice
  import ListingEditSlice
  import Traces

  /** Any action dispatched through the store: one of the user slice's or one
      of the listing-edit slice's. */
  datatype RootAction =
    | UserAct(user: UserSlice.UserAction)
    | EditAct(edit: ListingEditSlice.EditAction)

  /** The store as written: a single `user` key. */
  datatype RootState = RootState(user: UserSlice.UserState)

  /** The corrected store: both slices registered. */
  datatype FullRootState = FullRootState(user: UserSlice.UserState, listingEdit: ListingEditSlice.EditState)

  /** Dispatch in the store as written: the combined reducer hands every action
      to the user reducer, which ignores the listing-edit action types. */
  function Dispatch(s: RootState, a: RootAction): (r: RootState)
    ensures a.EditAct? ==> r == s
    ensures a.UserAct? ==> r.user == UserSlice.Reduce(s.user, a.user)
  {
    match a
    case UserAct(u) => RootState(UserSlice.Reduce(s.user, u))
    case EditAct(_) => s
  }

  /** Dispatch in the corrected store: each slice reduces its own actions. */
  function DispatchFull(s: FullRootState, a: RootAction): (r: FullRootState)
    ensures a.EditAct? ==> r.user == s.user && r.listingEdit == ListingEditSlice.Reduce(s.listingEdit, a.edit)
    ensures a.UserAct? ==> r.listingEdit == s.listingEdit && r.user == UserSlice.Reduce(s.user, a.user)
  {
    match a
    case UserAct(u) => s.(user := UserSlice.Reduce(s.user, u))
    case EditAct(e) => s.(listingEdit := ListingEditSlice.Reduce(s.listingEdit, e))
  }

  /** The two dispatches the owned-listings page issues on "Edit". */
  function EditDispatches(l: Listing): (acts: seq<RootAction>)
    ensures |acts| == 2 && acts[0].EditAct? && acts[1].EditAct?
    ensures acts[0].edit.SetEditId? && acts[0].edit.id == Some(l.id)
    ensures acts[1].edit.SetEditData? && acts[1].edit.data == Some(l)
  {
    [EditAct(ListingEditSlice.SetEditId(Some(l.id))), EditAct(ListingEditSlice.SetEditData(Some(l)))]
  }

  /** As written, choosing "Edit" on any listing leaves the store exactly as it
      was: the edit target is recorded nowhere a later screen could read it. */
  lemma {:induction false} EditIsLostAsWritten(s: RootState, l: Listing)
    ensures Traces.Run(Dispatch, s, EditDispatches(l)) == s
  {
    var acts := EditDispatches(l);
    assert acts[1..] == [acts[1]];
    assert Traces.Run(Dispatch, s, acts) == Traces.Run(Dispatch, s, acts[1..]);
    assert Traces.Run(Dispatch, s, [acts[1]]) == Traces.Run(Dispatch, s, []);
  }

  /** With the slice registered, "Edit" records the listing and its id
      together and leaves the user untouched, whatever was being edited before. */
  lemma {:induction false} EditIsRecordedWhenRegistered(s: FullRootState, l: Listing)
    ensures var r := Traces.Run(DispatchFull, s, EditDispatches(l));
            r.listingEdit == ListingEditSlice.EditState(Some(l.id), Some(l)) && r.user == s.user
  {
    var acts := EditDispatches(l);
    var s1 := DispatchFull(s, acts[0]);
    assert acts[1..] == [acts[1]];
    assert Traces.Run(DispatchFull, s, acts) == Traces.Run(DispatchFull, s1, [acts[1]]);
    assert Traces.Run(DispatchFull, s1, [acts[1]]) == Traces.Run(DispatchFull, DispatchFull(s1, acts[1]), []);
  }

  /** The user slice behaves identically in both stores. */
  lemma {:induction false} UserSliceAgrees(s: RootState, e: ListingEditSlice.EditState, acts: seq<UserSlice.UserAction>)
    ensures Traces.Run(DispatchFull, FullRootState(s.user, e), Lift(acts)).user
         == Traces.Run(Dispatch, s, Lift(acts)).user
         == Traces.Run(UserSlice.Reduce, s.user, acts)
    decreases |acts|
  {
    if |acts| > 0 {
      assert Lift(acts)[1..] == Lift(acts[1..]);
      UserSliceAgrees(RootState(UserSlice.Reduce(s.user, acts[0])), e, acts[1..]);
    }
  }

  function Lift(acts: seq<UserSlice.UserAction>): (r: seq<RootAction>)
    ensures |r| == |acts|
    ensures forall i :: 0 <= i < |acts| ==> r[i] == UserAct(acts[i])
  {
    seq(|acts|, i requires 0 <= i < |acts| => UserAct(acts[i]))
  }
}

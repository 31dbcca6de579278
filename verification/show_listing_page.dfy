/** The owned-listings page: the fetch guarded by the signed-in user's id,
    the list update after a confirmed delete, the edit dispatch, and which of
    loading, error, empty or grid is rendered. */
module ShowListingPage {
  import opened Wrappers
  import opened JsText
  import opened Records
  import ListingEditSlice
  import ShowListing
  import Traces

  datatype PageState = PageState(listings: seq<Listing>, loading: bool, error: string)

  const Initial: PageState := PageState([], true, "")

  // ---------------------------------------------------------------------------
  // Fetching

  /** The id to ask for: `_id` when truthy, else `id`; none when neither is
      truthy (no user counts as neither). */
  function UserIdFor(currentUser: Option<User>): (r: Option<string>)
    ensures r.None? <==> currentUser.None? || (!StrTruthy(currentUser.value.dbId) && !StrTruthy(currentUser.value.id))
    ensures r.Some? ==> r.value != ""
    ensures r.Some? && StrTruthy(currentUser.value.dbId) ==> r == currentUser.value.dbId
    ensures r.Some? && !StrTruthy(currentUser.value.dbId) ==> r == currentUser.value.id
  {
    if currentUser.None? then None
    else if StrTruthy(currentUser.value.dbId) then currentUser.value.dbId
    else if StrTruthy(currentUser.value.id) then currentUser.value.id
    else None
  }

  /** The server's answer to the owned-listings request. */
  datatype FetchOutcome = Loaded(listings: seq<Listing>) | FetchFailed(serverMessage: Option<string>)

  /** `fetchListings`: without a usable id the page reports "User not logged
      in" and sends nothing; otherwise the request for that id either replaces
      the list or sets the server's message (or a fixed fallback). Loading ends
      in every case. `outcome` is the answer to the request for `UserIdFor`. */
  function FetchListings(s: PageState, currentUser: Option<User>, outcome: FetchOutcome): (r: PageState)
    ensures !r.loading
    ensures UserIdFor(currentUser).None? ==> r == s.(error := "User not logged in", loading := false)
    ensures UserIdFor(currentUser).Some? && outcome.Loaded? ==> r.listings == outcome.listings && r.error == s.error
    ensures UserIdFor(currentUser).Some? && outcome.FetchFailed? ==>
              r.listings == s.listings && r.error == OrStr(outcome.serverMessage, "Failed to fetch listings")
  {
    if UserIdFor(currentUser).None? then s.(error := "User not logged in", loading := false)
    else match outcome
      case Loaded(ls) => s.(listings := ls, loading := false)
      case FetchFailed(m) => s.(error := OrStr(m, "Failed to fetch listings"), loading := false)
  }

  // ---------------------------------------------------------------------------
  // Deleting

  /** `prev.filter((l) => l._id !== id)`. */
  function RemoveById(listings: seq<Listing>, id: string): (r: seq<Listing>)
    ensures |r| <= |listings|
    ensures forall l :: l in r <==> l in listings && l.id != id
    decreases |listings|
  {
    if |listings| == 0 then []
    else
      assert forall l :: l in listings <==> l == listings[0] || l in listings[1..];
      (if listings[0].id == id then [] else [listings[0]]) + RemoveById(listings[1..], id)
  }

  /** Removal works piecewise, so the survivors keep their relative order. */
  lemma {:induction false} RemoveByIdAppend(a: seq<Listing>, b: seq<Listing>, id: string)
    ensures RemoveById(a + b, id) == RemoveById(a, id) + RemoveById(b, id)
    decreases |a|
  {
    if |a| > 0 {
      assert (a + b)[1..] == a[1..] + b;
      RemoveByIdAppend(a[1..], b, id);
    } else {
      assert a + b == b;
    }
  }

  /** A list with no listing of that id is left exactly as it was. */
  lemma {:induction false} RemoveAbsentId(listings: seq<Listing>, id: string)
    requires forall i :: 0 <= i < |listings| ==> listings[i].id != id
    ensures RemoveById(listings, id) == listings
    decreases |listings|
  {
    if |listings| > 0 {
      RemoveAbsentId(listings[1..], id);
      assert listings == [listings[0]] + listings[1..];
    }
  }

  /** The answer to the confirmation toast and to the delete request. */
  datatype DeleteOutcome = Cancelled | Deleted | DeleteFailed(serverMessage: Option<string>)

  datatype Notice = Success(text: string) | Error(text: string)

  datatype DeleteResult = DeleteResult(state: PageState, notice: Option<Notice>)

  /** `handleDelete`: nothing happens until the user confirms; a successful
      delete drops every listing with that id, a failed one changes nothing
      but shows the server's message or "Delete failed". */
  function HandleDelete(s: PageState, id: string, outcome: DeleteOutcome): (r: DeleteResult)
    ensures outcome.Cancelled? ==> r == DeleteResult(s, None)
    ensures outcome.Deleted? ==>
      r.state == s.(listings := RemoveById(s.listings, id)) && r.notice == Some(Success("Listing deleted successfully!"))
    ensures outcome.DeleteFailed? ==>
      r.state == s && r.notice == Some(Error(OrStr(outcome.serverMessage, "Delete failed")))
  {
    match outcome
    case Cancelled => DeleteResult(s, None)
    case Deleted => DeleteResult(s.(listings := RemoveById(s.listings, id)), Some(Success("Listing deleted successfully!")))
    case DeleteFailed(m) => DeleteResult(s, Some(Error(OrStr(m, "Delete failed"))))
  }

  // ---------------------------------------------------------------------------
  // Editing

  /** `handleEdit`: the id, then the listing, dispatched one after the other. */
  function EditActions(l: Listing): seq<ListingEditSlice.EditAction> {
    [ListingEditSlice.SetEditId(Some(l.id)), ListingEditSlice.SetEditData(Some(l))]
  }

  /** In the edit slice the two dispatches leave the id and the snapshot
      paired on the chosen listing, whatever was being edited before. */
  lemma {:induction false} HandleEditPairs(s: ListingEditSlice.EditState, l: Listing)
    ensures Traces.Run(ListingEditSlice.Reduce, s, EditActions(l)) == ListingEditSlice.EditState(Some(l.id), Some(l))
  {
    ListingEditSlice.RunCharacterised(s, EditActions(l));
    var acts := EditActions(l);
    assert acts[..|acts| - 1] == [acts[0]];
    assert [acts[0]][..0] == [];
  }

  // ---------------------------------------------------------------------------
  // Rendering

  datatype View = LoadingView | ErrorView(message: string) | EmptyView | GridView(cards: seq<ShowListing.OwnedCard>)

  /** Loading wins over an error, an error over an empty list, and only a
      non-empty list renders the grid. */
  function Render(s: PageState): (r: View)
    ensures r.LoadingView? <==> s.loading
    ensures r.ErrorView? <==> !s.loading && s.error != ""
    ensures r.ErrorView? ==> r.message == s.error
    ensures r.EmptyView? <==> !s.loading && s.error == "" && |s.listings| == 0
    ensures r.GridView? ==> r.cards == ShowListing.Cards(s.listings) && |r.cards| > 0
  {
    if s.loading then LoadingView
    else if s.error != "" then ErrorView(s.error)
    else if |s.listings| == 0 then EmptyView
    else GridView(ShowListing.Cards(s.listings))
  }

  /** Opening the page without a usable id ends on the error message. */
  lemma NoUserRendersError(currentUser: Option<User>, outcome: FetchOutcome)
    requires UserIdFor(currentUser).None?
    ensures Render(FetchListings(Initial, currentUser, outcome)) == ErrorView("User not logged in")
  {
  }

  /** A first fetch that returns listings renders one card per listing. */
  lemma LoadedRendersGrid(currentUser: Option<User>, listings: seq<Listing>)
    requires UserIdFor(currentUser).Some? && |listings| > 0
    ensures Render(FetchListings(Initial, currentUser, Loaded(listings))) == GridView(ShowListing.Cards(listings))
  {
  }

  /** Deleting the last remaining listing turns the grid into "No listings found". */
  lemma DeletingLastListingEmptiesPage(l: Listing)
    ensures Render(HandleDelete(PageState([l], false, ""), l.id, Deleted).state) == EmptyView
  {
  }
}

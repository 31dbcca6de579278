# Real-estate listing front end: a Dafny model of its client-side logic

The application is a thin React/Next.js front end for property listings. Its
logic lives in small state transitions and list operations inside its
components. This project models that logic as pure Dafny functions over
immutable records and sequences, and proves properties about them:

- **Listing-edit slice** (`ListingEditSlice`). This Redux slice holds the id of
  the listing under edit and a snapshot of it. It has two independent setters
  and a clear.
- **User slice** (`UserSlice`). This holds the signed-in user, the last
  sign-in error and a loading flag, changed by five actions.
- **Root store** (`Store`). As written, the store registers only the user
  slice. See Findings.
- **Image batch editor** (`ImagesUpload`). An ordered list mixes remote URLs
  and pending local files. It has a whole-batch capacity check, removal by
  position, clear-all, drag-and-drop, and bookkeeping for which local previews
  are revoked.
- **Field components** (`FieldRules`). `Input` and `Textarea` build
  required/min/max rules. A validator of our own checks values against them.
- **Listing form** (`ListingForm`). It derives default values with `||`,
  stamps the owner, validates, and builds the submit payload. Its host page
  always creates a new listing.
- **Home page** (`HomePage`, `HomeGrid`, `ForSale`, `ForRent`,
  `RecentOffer`). The page derives three capped views. Each section pads to
  exactly eight slots and has its own badge and price rules.
- **Owned-listings page** (`ShowListingPage`, `ShowListing`). It covers the
  fetch guard, delete-by-id, the edit dispatch, render precedence, and the
  per-card price and type label.
- **Access guard** (`PrivateRoute`). It either renders the children or
  redirects to `/sign-in`.
- **Chat widget** (`Chat`). It covers the greeting by hour, the submit guard,
  message order, the reply fallback chain, and the open/close timer.

Helper modules: `Wrappers` (Option), `JsText` (JavaScript truthiness, `||`,
ASCII case mapping, `trim`, integer-to-decimal rendering), `Traces` (folding
an action sequence through a reducer) and `Records` (the listing, user and
grid-slot records).

The model treats these as inputs: network replies, clock hours, timer firing,
the user's answer to the delete confirmation, and the key used for sorting.

Behaviours of the code that the model keeps as written:

- The listing-edit slice has no operation that sets the id and the snapshot
  together. "Edit" dispatches the two setters one after the other.
  `ListingEditSlice.SetIdAloneKeepsStaleData` shows that the id setter alone
  leaves the pair out of step.
- The recent-offers filter needs a *truthy* discount, so a listing with a
  discount of `0` is excluded.
- The three home-page sections guard the saving or strike-through with
  `{discountPrice && (...)}`. React prints a falsy number as text, so a
  discount of `0` shows a bare "0" beside the price. The model keeps that
  case apart (`HomeGrid.DiscountTail`). The recent-offers view never reaches
  it (`RecentOffer.OffersViewStrikesThrough`).
- When `offer` is off, the form neither checks nor removes `discountPrice`,
  so a stale value stays in the payload.
- The listing page renders the form without `initialData`, so "Edit" never
  pre-fills it. The `||` defaults also replace a zero room count and an
  empty type (`ListingForm.EditRoundTrip`).
- The home page sorts by `new Date(_id)`. For non-date identifiers every key
  is NaN, so the stable sort keeps the input order. The model sorts by a
  caller-supplied rank, and a constant rank reproduces the NaN behaviour
  (`HomePage.ConstantRankKeepsOrder`).

## Model

| member | source | states |
|---|---|---|
| ListingEditSlice.SetId | src/app/redux/feature/listingEditSlice.ts:10-12 | setting the id replaces only the id; the snapshot is untouched |
| ListingEditSlice.SetData | src/app/redux/feature/listingEditSlice.ts:13-15 | setting the snapshot replaces only the snapshot; the id is untouched |
| ListingEditSlice.Clear | src/app/redux/feature/listingEditSlice.ts:16-19 | clearing yields the initial state, both fields null |
| ListingEditSlice.ClearIdempotent | src/app/redux/feature/listingEditSlice.ts:5-19 | the initial state has both fields null; clearing twice equals clearing once equals the initial state |
| ListingEditSlice.SettersCommute | src/app/redux/feature/listingEditSlice.ts:10-15 | the two setters commute and together yield exactly the given pair |
| ListingEditSlice.RunCharacterised | src/app/redux/feature/listingEditSlice.ts:10-19 | after any dispatch sequence, the id depends only on the last id-setter or clear, and the snapshot only on the last data-setter or clear |
| ListingEditSlice.SetIdAloneKeepsStaleData | src/app/redux/feature/listingEditSlice.ts:10-12 | a new id dispatched alone leaves the previous listing's snapshot in place |
| UserSlice.Start | src/app/redux/feature/userSlice.ts:20-23 | sign-in start sets loading, clears the error, keeps the user |
| UserSlice.Success | src/app/redux/feature/userSlice.ts:24-28 | sign-in success yields exactly (user, no error, not loading) from any state |
| UserSlice.Failure | src/app/redux/feature/userSlice.ts:29-32 | failure stops loading, records the message, keeps the user |
| UserSlice.SignOut | src/app/redux/feature/userSlice.ts:33-37 | sign-out yields the initial state from any state |
| UserSlice.UpdateUser | src/app/redux/feature/userSlice.ts:38-40 | a profile update replaces only the user; loading and error are untouched |
| UserSlice.SignoutResets | src/app/redux/feature/userSlice.ts:10-37 | the initial state is (null, null, false); sign-out is idempotent |
| UserSlice.TraceEndingInSignout | src/app/redux/feature/userSlice.ts:33-37 | any action history followed by a sign-out ends in the initial state |
| UserSlice.RunCharacterised | src/app/redux/feature/userSlice.ts:19-41 | after any dispatch sequence, each field is fixed by the last action that writes it (updates touch only the user) |
| Store.Dispatch | src/app/redux/store.ts:6-8 | as written, listing-edit actions leave the root state unchanged; user actions go to the user reducer |
| Store.DispatchFull | src/app/redux/store.ts:6-8 | with both slices registered, each action changes only its own slice |
| Store.EditDispatches | src/app/show-listing/page.tsx:38-40 | "Edit" dispatches two listing-edit actions, id first, then data |
| Store.EditIsLostAsWritten | src/app/redux/store.ts:6-8 | in the store as written, "Edit" on any listing leaves the whole store unchanged |
| Store.EditIsRecordedWhenRegistered | src/app/redux/feature/listingEditSlice.ts:10-15 | in the corrected store, "Edit" records the listing and its id together and leaves the user unchanged |
| Store.UserSliceAgrees | src/app/redux/store.ts:6-8 | for user actions, both stores behave exactly like the user reducer alone |
| ImagesUpload.MaxImages | src/components/common/ImagesUpload.tsx:21 | the limit is 10 when the prop is absent, and the prop's value otherwise, including 0 |
| ImagesUpload.HandleImageUpload | src/components/common/ImagesUpload.tsx:44-61 | no file list does nothing; a batch larger than the remaining slots gets the alert text and no change; otherwise the list becomes the old entries followed by the new files in selection order |
| ImagesUpload.SliceTo | src/components/common/ImagesUpload.tsx:58 | JavaScript `slice(0, end)`: an end at or past the length keeps everything, a negative end counts back from the length, and one past the start gives nothing |
| ImagesUpload.UploadKeepsCapacity | src/components/common/ImagesUpload.tsx:48-60 | an accepted upload into a list within the limit stays within the limit |
| ImagesUpload.HandleDrop | src/components/common/ImagesUpload.tsx:83-92 | a drop with files is exactly a picker upload; an empty drop does nothing |
| ImagesUpload.FullListRefusesDrops | src/components/common/ImagesUpload.tsx:143 | a full list disables the picker, and every non-empty drop onto it is refused |
| ImagesUpload.WithoutIndex | src/components/common/ImagesUpload.tsx:64 | removing position i drops exactly that entry and shifts the later ones left; an out-of-range index changes nothing |
| ImagesUpload.RevokedOnRemove | src/components/common/ImagesUpload.tsx:66-69 | a preview is released exactly when the removed entry is an in-range pending file, never for a URL |
| ImagesUpload.RemoveImage | src/components/common/ImagesUpload.tsx:63-72 | the filter loop produces the list without that position, plus the preview release |
| ImagesUpload.FilesOf | src/components/common/ImagesUpload.tsx:75-77 | the files whose previews are revoked are exactly the list's pending files; URLs are skipped |
| ImagesUpload.ClearAllImages | src/components/common/ImagesUpload.tsx:74-79 | clearing empties the list and revokes exactly the pending files' previews |
| ImagesUpload.Previews | src/components/common/ImagesUpload.tsx:30-34 | one preview per entry: a URL is shown directly, a pending file through an object URL |
| ImagesUpload.PreviewCleanup | src/components/common/ImagesUpload.tsx:37-41 | on each change, exactly the object URLs made for the old list's pending files are revoked |
| ImagesUpload.Tiles | src/components/common/ImagesUpload.tsx:160-162 | one tile per entry in list order, carrying the entry's position and preview, except that a remote entry with an empty URL renders nothing |
| ImagesUpload.TilesWithoutEmptySources | src/components/common/ImagesUpload.tsx:160-162 | when no entry is a remote empty URL, tile i is exactly entry i's preview, one per entry |
| ImagesUpload.SessionKeepsCapacity | src/components/common/ImagesUpload.tsx:44-79 | any sequence of picks, drops, removals and clears that starts within the limit stays within it |
| ImagesUpload.SessionEntriesAccounted | src/components/common/ImagesUpload.tsx:44-79 | every entry left after a session was either there at the start or chosen by one of its picks or drops |
| FieldRules.InputRules | src/components/common/Input.tsx:49-59 | a required rule exists only when `required` is true, with "<label or name> is required"; a min or max rule exists exactly when that bound is given, with "Minimum/Maximum value is <n>" |
| FieldRules.TextareaRules | src/components/common/Textarea.tsx:35-37 | only a required rule, with the same message; never min or max |
| FieldRules.Validate | src/components/common/Input.tsx:49-59 | our validator over those rules: no error exactly when every present rule is met; an empty required field reports the required message |
| FieldRules.UnconstrainedInputAcceptsAll | src/components/common/Input.tsx:25 | with `required` left at its default and no bounds, every value is accepted |
| FieldRules.EmptyRequiredFieldMessage | src/components/common/Input.tsx:50 | an empty required field reports "<label or name> is required", for both components |
| FieldRules.ErrorLine | src/components/common/Input.tsx:69 | the error line is present exactly when an error is, and it shows that error's message |
| FieldRules.ErrorShownIffInvalid | src/components/common/Textarea.tsx:43 | an error line shows exactly when the value breaks a rule of the field |
| JsText.ParseNatToString | src/components/common/Input.tsx:53 | the decimal text printed for a bound reads back as that bound |
| JsText.IntToStringInjective | src/components/common/Input.tsx:57 | different bounds give different messages |
| ListingForm.DefaultValues | src/components/listing/Listing.tsx:51-64 | without initial data: empty texts, prices 0, one room each, flags false, type "rent", no owner; with it, each of the twelve properties is taken only when truthy, else its default |
| ListingForm.InitialImages | src/components/listing/Listing.tsx:38-40 | the image list starts as the initial URLs in order, or empty when they are absent |
| ListingForm.EditRoundTrip | src/components/listing/Listing.tsx:51-64 | opening the form on a listing reproduces it exactly when both room counts are non-zero and the type is non-empty; the images keep their order |
| ListingForm.StampUserRef | src/components/listing/Listing.tsx:69-73 | the owner becomes the user's `_id` when that is truthy; a user with only `id` is not stamped |
| ListingForm.StampReachesPayload | src/components/listing/Listing.tsx:69-80 | stamping the owner never changes whether the form submits, loading or not; a submitted payload then carries the user's `_id` and otherwise the entered values and images |
| ListingForm.FormMaxImages | src/components/listing/Listing.tsx:255 | the form's image editor is capped at 10 |
| ListingForm.ButtonLabel | src/components/listing/Listing.tsx:270-274 | "Saving..." exactly while loading; otherwise "Update Listing" exactly when initial data is given, else "Create Listing" |
| ListingForm.Checks | src/components/listing/Listing.tsx:97-223 | the rule-carrying fields; the discount field is among them, fifth, exactly when the discount input is shown, which is while the offer is on |
| ListingForm.ErrorsEmptyIff | src/components/listing/Listing.tsx:87 | the form has no errors exactly when every registered field meets its rules |
| ListingForm.HandleSubmit | src/components/listing/Listing.tsx:74-267 | nothing is sent while `loading` disables the submit button; when the payload is sent, it is the form values with the current image list |
| ListingForm.ChecksMeanValid | src/components/listing/Listing.tsx:97-223 | every registered field meets its rules exactly when the texts are non-empty and the price, room counts and, with the offer on, the discount are at least 1 |
| ListingForm.SubmitIffValid | src/components/listing/Listing.tsx:97-267 | the payload is sent exactly when the form is not loading, the texts are non-empty, the price and room counts are at least 1, and so is the discount when the offer is on |
| ListingForm.StaleDiscountIsSubmitted | src/components/listing/Listing.tsx:178-190 | with the offer off and otherwise valid values, the form submits exactly when not loading, and the unchecked discount travels unchanged |
| ListingForm.SavingBlocksSubmit | src/components/listing/Listing.tsx:265-274 | while the button reads "Saving..." nothing can be submitted |
| ListingForm.SubmittedImagesWithinCap | src/components/listing/Listing.tsx:252-258 | for a form seeded with at most 10 images, the submitted images are the editor's list after the session, never more than 10 |
| ListingForm.HostRequest | src/app/listing/page.tsx:18-20 | the host always issues a create with the payload |
| ListingForm.HostedSubmitCreatesWithinCap | src/app/listing/page.tsx:14-40 | the hosting page passes no `loading`, so valid values are always submitted, and every submission is a create of the entered values with the editor's images, at most 10 |
| ListingForm.HostedFormIsAlwaysCreate | src/app/listing/page.tsx:40 | as hosted, the form starts from the defaults with no images and its button reads "Create Listing" |
| HomePage.Filter | src/app/page.tsx:38-39 | the filtered list holds only matching listings, every match of the input, and nothing outside the input |
| HomePage.FilterCounts | src/app/page.tsx:38-39 | each matching listing appears in the filtered list exactly as often as in the input, and non-matching ones not at all |
| HomePage.FilterSingle | src/app/page.tsx:38-39 | a single listing is kept exactly when it matches |
| HomePage.FilterAppend | src/app/page.tsx:38-39 | filtering distributes over concatenation, so the matches keep their input order |
| HomePage.Insert | src/app/page.tsx:40 | inserting into a list sorted by rank keeps it sorted and adds exactly that listing |
| HomePage.SortByRank | src/app/page.tsx:46 | the sort is a permutation whose result is ordered by descending rank |
| HomePage.ConstantRankKeepsOrder | src/app/page.tsx:52 | when all keys tie, as with NaN keys, the input order is kept |
| HomePage.TakePage | src/app/page.tsx:41 | the first min(8, n) listings |
| HomePage.ViewProperties | src/app/page.tsx:38-53 | each view holds only matching listings and is a sub-multiset of the fetched list |
| HomePage.ViewSizeAndOrder | src/app/page.tsx:38-53 | each view has exactly min(8, number of matches) listings, ordered by descending rank |
| HomePage.RentAndSaleDisjoint | src/app/page.tsx:44-53 | no listing is in both the rent and the sale view |
| HomePage.FetchListings | src/app/page.tsx:31-61 | a successful fetch sets the three views; a failure leaves the state unchanged |
| HomePage.FailedFetchShowsNothing | src/app/page.tsx:27-60 | a failed first fetch leaves all three views empty |
| HomePage.FetchedViewsWellFormed | src/app/page.tsx:34-57 | after a fetch: offers all have a truthy discount, the types match case-insensitively, at most eight per view, and rent and sale are disjoint |
| HomeGrid.Padded | src/components/home/ForRent.tsx:36-40 | exactly eight slots: slot i holds listing i if it exists, otherwise a placeholder |
| HomeGrid.PadToEight | src/components/home/ForSale.tsx:36-41 | the copy-push-slice loop yields exactly that grid |
| HomeGrid.ShortListPadded | src/components/home/RecentOffer.tsx:25-28 | fewer than eight: all listings, then 8 - n placeholders |
| HomeGrid.LongListTruncated | src/components/home/RecentOffer.tsx:29 | eight or more: the first eight in input order |
| HomeGrid.Guarded | src/components/home/ForSale.tsx:122 | `discount && (span)`: nothing for an undefined discount, a bare "0" exactly for a zero discount, and the span exactly for a truthy one |
| HomeGrid.Savings | src/components/home/ForSale.tsx:122-129 | nothing without a discount, a bare "0" exactly for a zero discount, otherwise a saving that adds up with the discount to the regular price |
| Records.Thumbnail | src/components/home/ForSale.tsx:79-93 | the thumbnail is the first image exactly when the slot has a non-empty image list |
| ForSale.Render | src/components/home/ForSale.tsx:68-133 | eight cards; each card's image is its slot's thumbnail; "FOR SALE", the price and the details block appear exactly for listings with an id, "Great Deal" only for those with an offer, a bare "0" follows the price exactly when the discount is 0, and placeholders are inert |
| ForRent.Render | src/components/home/ForRent.tsx:67-122 | eight cards; each card's image is its slot's thumbnail; "FOR RENT", the price overlay and the details block appear together, exactly for listings with an id; a bare "0" follows the price exactly when the discount is 0; placeholders are inert |
| RecentOffer.PriceOf | src/components/home/RecentOffer.tsx:99-107 | the shown price is the discount whenever it is defined, even 0, and otherwise the regular price; the regular price is struck through exactly for a truthy discount, and a zero discount prints a bare "0" in its place |
| RecentOffer.Render | src/components/home/RecentOffer.tsx:50-111 | eight cards; each card's image is its slot's thumbnail; "OFFER" needs an id and the offer flag; the favourite button, the price and the details block appear exactly for an id |
| RecentOffer.TruthyDiscountsStrike | src/components/home/RecentOffer.tsx:99-107 | over listings with truthy discounts, every priced card shows the discount and strikes the regular price through |
| RecentOffer.OffersViewStrikesThrough | src/components/home/RecentOffer.tsx:99-107 | fed the recent-offers view, no card prints the bare "0": each priced card shows its discount and strikes the regular price through |
| ShowListing.ShownPrice | src/components/show-listing/ShowListing.tsx:77 | the discount when truthy, otherwise the regular price, so a zero discount falls back |
| ShowListing.Gallery | src/components/show-listing/ShowListing.tsx:41-58 | "No images" exactly when the list is missing or empty; otherwise all URLs in order |
| ShowListing.Cards | src/components/show-listing/ShowListing.tsx:35-124 | one card per listing in order; Edit hands back the whole listing, Delete only its id; badge iff offer; the type label is the type with its first character upper-cased and the rest unchanged |
| ShowListing.PriceRulesDifferOnlyOnZeroDiscount | src/components/show-listing/ShowListing.tsx:77 | this card and the recent-offers card disagree on a price exactly when the discount is 0 and the regular price is not |
| JsText.Capitalize | src/components/show-listing/ShowListing.tsx:80 | the first character is upper-cased and the rest is kept; the length is unchanged |
| ShowListingPage.UserIdFor | src/app/show-listing/page.tsx:70-76 | no id when neither `_id` nor `id` is truthy; otherwise `_id` if truthy, else `id` |
| ShowListingPage.FetchListings | src/app/show-listing/page.tsx:67-91 | with no id: "User not logged in" and no request; otherwise the list or the server's message, else "Failed to fetch listings"; loading ends in every case |
| ShowListingPage.RemoveById | src/app/show-listing/page.tsx:58 | the survivors are exactly the listings whose id differs |
| ShowListingPage.RemoveByIdAppend | src/app/show-listing/page.tsx:58 | removal distributes over concatenation, so the survivors keep their order |
| ShowListingPage.RemoveAbsentId | src/app/show-listing/page.tsx:58 | an id that no listing carries leaves the list identical |
| ShowListingPage.HandleDelete | src/app/show-listing/page.tsx:46-65 | cancelled: nothing happens; deleted: that id is removed and a success notice shown; failed: the list is unchanged and the server's message, else "Delete failed", is shown |
| ShowListingPage.HandleEditPairs | src/app/show-listing/page.tsx:38-40 | in the edit slice, the two dispatches leave the id and the snapshot both on the chosen listing |
| ShowListingPage.Render | src/app/show-listing/page.tsx:93-114 | loading takes precedence over error, error over an empty list, and the grid shows only for a non-empty list |
| ShowListingPage.NoUserRendersError | src/app/show-listing/page.tsx:70-74 | without a usable id the page ends on "User not logged in" |
| ShowListingPage.LoadedRendersGrid | src/app/show-listing/page.tsx:82-112 | a first fetch returning listings renders one card per listing |
| ShowListingPage.DeletingLastListingEmptiesPage | src/app/show-listing/page.tsx:101-104 | deleting the only listing leads to "No listings found" |
| PrivateRoute.Guard | src/components/private-route/PrivateRoute.tsx:16-28 | renders nothing and redirects to "/sign-in" exactly when no user is present; otherwise renders the children unchanged and never redirects |
| PrivateRoute.GuardFollowsUserSlice | src/components/private-route/PrivateRoute.tsx:24-28 | after a sign-out the guard redirects; after a sign-in it shows the content |
| PrivateRoute.Redirects | src/components/private-route/PrivateRoute.tsx:16-21 | counts the effect runs that redirect, which are never more than the renders |
| PrivateRoute.OneRedirectPerAbsence | src/components/private-route/PrivateRoute.tsx:16-21 | staying signed out across any number of renders redirects exactly once |
| PrivateRoute.NoRedirectWhileSignedIn | src/components/private-route/PrivateRoute.tsx:18 | a signed-in user is never redirected |
| Chat.Greeting | src/components/chat/Chat.tsx:27-32 | before 12 "Good morning", before 18 "Good afternoon", otherwise "Good evening" |
| Chat.Toggle | src/components/chat/Chat.tsx:34-55 | opening empties the conversation, shows typing and arms the timer; closing disarms it and keeps the conversation |
| Chat.Close | src/components/chat/Chat.tsx:165 | closing an already closed widget changes nothing |
| Chat.TimerFires | src/components/chat/Chat.tsx:40-48 | an armed timer replaces the conversation with exactly the greeting; otherwise nothing happens |
| Chat.OpenThenGreet | src/components/chat/Chat.tsx:37-47 | opening and then the timer leaves exactly one assistant greeting |
| Chat.CloseCancelsGreeting | src/components/chat/Chat.tsx:50 | closing before the timer fires means no greeting arrives |
| Chat.HandleSubmit | src/components/chat/Chat.tsx:62-76 | a blank prompt or a request in flight is a no-op; otherwise the user message is appended, the prompt cleared, loading set, and the original prompt sent |
| Chat.SubmitGuard | src/components/chat/Chat.tsx:64 | a request is sent exactly when the prompt has a non-whitespace character and nothing is loading |
| JsText.TrimEmptyIffBlank | src/components/chat/Chat.tsx:64 | `trim()` gives the empty string exactly when every character is JavaScript whitespace |
| Chat.DisabledMeansNoop | src/components/chat/Chat.tsx:278 | the send button is disabled exactly when a submit would do nothing |
| Chat.HandleKeyDown | src/components/chat/Chat.tsx:105-110 | Enter without Shift submits; any other key does nothing |
| Chat.ReplyText | src/components/chat/Chat.tsx:78-98 | on success `text`, else `response`, else "No response from AI"; a non-OK status or a thrown error gives the apology; never empty |
| Chat.ReceiveReply | src/components/chat/Chat.tsx:84-102 | the reply is appended after the existing messages and loading ends, whatever the outcome |
| Chat.ExchangeOrder | src/components/chat/Chat.tsx:66-102 | a full exchange appends the user message and then the assistant's, leaving the prompt empty and loading off |
| Chat.NoSecondRequestInFlight | src/components/chat/Chat.tsx:64 | while a request is in flight, neither submit nor Enter sends another |
| JsText.ToLower | src/app/page.tsx:45 | lower-casing maps every character and keeps the length |

## Findings

| source | as written | input that shows it | evidently intended | confidence | as-written member | corrected member |
|---|---|---|---|---|---|---|
| src/app/redux/store.ts:6-8 | The root reducer combines only the user slice. The listing-edit slice's actions are dispatched (src/app/show-listing/page.tsx:39-40) but reach no reducer. | Any listing `l` and any store state `s`: "Edit" on `l` leaves `s` unchanged, so the edit target is stored nowhere. | Register the listing-edit slice beside the user slice, so "Edit" records `l._id` and `l` together. | high; not executed | Store.EditIsLostAsWritten | Store.EditIsRecordedWhenRegistered |

The rest of the model uses the slice reducer itself, which is the corrected
store's `listingEdit` part (`ShowListingPage.HandleEditPairs`).

## Left out

- Network calls are inputs. These include the listing, user and delete
  requests, the chat endpoint and its language-model route, the third-party
  sign-in popup, and Firebase. The model takes each outcome as a parameter.
  Nothing is sent.
- The sort key `new Date(_id).getTime()` is not computed. The model sorts by
  a rank supplied by the caller.
- HomePage.SortByRank: stability is proved only for tied keys
  (`ConstantRankKeepsOrder`), not for mixed keys.
- Numbers are mathematical integers. There is no floating point, NaN or
  `toLocaleString` formatting. Number truthiness is "defined and non-zero".
- Case mapping covers ASCII letters only. Unicode case mapping is not modelled
  (for example `ß` upper-cases to two characters).
- react-hook-form is not modelled. `FieldRules.Validate` is our own validator
  over the rule records. Number fields hold integers, not the strings a form
  library would hand back. The `Select` and `Checkbox` wrappers register no
  rules, so the type and the flags are never validated.
- The store's persistence layer and developer tooling are library
  configuration and are left out.
- UserSlice.Success: the sign-in and update payloads are always user objects.
  A null payload is not modelled.
- A home-page listing without a `type` would make `toLowerCase` throw, and the
  whole fetch would fall into the catch. In the model `type` is always a
  string, so this case does not arise.
- Browser resources are left out: creating and revoking object URLs becomes
  the returned lists of revoked files, and `alert`, `confirm`, toasts,
  scrolling and the two-second delay are not modelled. The greeting timer is a
  flag plus a `TimerFires` event.
- Presentational markup is not modelled: names, addresses, room counts,
  feature icons, links and styling.
- Screens outside this core are not modelled: listing details, profile,
  sign-in, sign-up, about, contact, footer, hero and navbar.
- Navigation is not modelled: "Edit" then routes to `/listing`, and the
  access guard routes to `/sign-in`. The guard's redirect is returned as a
  path.
- ImagesUpload.Tiles: describes the render after the preview effect has run.
  The render in between, which still reads the previous list's preview URLs,
  is not modelled.

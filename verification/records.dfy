/** The records the components exchange: a listing as the backend returns it,
    the signed-in user, and a slot of a fixed-size home-page grid. */
module Records {
  import opened Wrappers

  /** A listing as fetched from the backend. `discountPrice` may be absent;
      `imageUrls` is optional because the owned-listings card reads it with
      `?.`; `listingType` is the source's `type` field ("rent" or "sale", but
      any string is carried as it is). */
  datatype Listing = Listing(
    id: string,
    name: string,
    description: string,
    address: string,
    regularPrice: int,
    discountPrice: Option<int>,
    bathroom: int,
    bedroom: int,
    furnished: bool,
    parking: bool,
    listingType: string,
    offer: bool,
    imageUrls: Option<seq<string>>
  )

  /** The signed-in user's profile; only the two identifier properties the
      components read are kept (`_id` from the backend, `id` from elsewhere). */
  datatype User = User(dbId: Option<string>, id: Option<string>, username: string)

  /** One slot of a home-page grid: a listing, or the `{}` placeholder pushed
      to reach eight slots. */
  datatype Slot = Filled(listing: Listing) | Placeholder

  /** `listing._id` is truthy: a filled slot whose identifier is non-empty. */
  predicate HasId(slot: Slot) {
    slot.Filled? && slot.listing.id != ""
  }

  /** `listing.imageUrls && listing.imageUrls.length > 0 ? imageUrls[0] : none`. */
  function Thumbnail(slot: Slot): (r: Option<string>)
    ensures r.Some? <==> slot.Filled? && slot.listing.imageUrls.Some? && |slot.listing.imageUrls.value| > 0
    ensures r.Some? ==> r.value == slot.listing.imageUrls.value[0]
  {
    if slot.Filled? && slot.listing.imageUrls.Some? && |slot.listing.imageUrls.value| > 0
    then Some(slot.listing.imageUrls.value[0])
    else None
  }
}

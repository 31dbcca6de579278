/** The owned-listings grid: one card per listing, each with its gallery,
    offer badge, price, capitalised type and Edit/Delete buttons. */
module ShowListing {
  import opened Wrappers
  import opened JsText
  import opened Records
  import RecentOffer

  /** What a card's buttons hand back: Edit passes the whole listing, Delete
      only its identifier. */
  datatype OwnedCard = OwnedCard(
    gallery: Option<seq<string>>,   // None renders "No images"
    offerBadge: bool,
    price: int,
    typeLabel: string,
    onEdit: Listing,
    onDelete: string)

  /** `discountPrice || regularPrice`: a zero discount falls back to the
      regular price. */
  function ShownPrice(l: Listing): (r: int)
    ensures NumTruthy(l.discountPrice) ==> r == l.discountPrice.value
    ensures !NumTruthy(l.discountPrice) ==> r == l.regularPrice
  {
    OrNum(l.discountPrice, l.regularPrice)
  }

  /** `imageUrls?.length > 0`: missing and empty lists both give "No images";
      otherwise every URL is shown in order. */
  function Gallery(l: Listing): (r: Option<seq<string>>)
    ensures r.None? <==> l.imageUrls.None? || |l.imageUrls.value| == 0
    ensures r.Some? ==> r == l.imageUrls
  {
    if l.imageUrls.Some? && |l.imageUrls.value| > 0 then l.imageUrls else None
  }

  function CardOf(l: Listing): OwnedCard {
    OwnedCard(Gallery(l), l.offer, ShownPrice(l), Capitalize(l.listingType), l, l.id)
  }

  /** The grid: one card per listing, in input order, each wired to its own
      listing. */
  function Cards(listings: seq<Listing>): (r: seq<OwnedCard>)
    ensures |r| == |listings|
    ensures forall i :: 0 <= i < |listings| ==>
      && r[i].onEdit == listings[i]
      && r[i].onDelete == listings[i].id
      && (r[i].offerBadge <==> listings[i].offer)
      && r[i].price == ShownPrice(listings[i])
      && r[i].gallery == Gallery(listings[i])
      && r[i].typeLabel == Capitalize(listings[i].listingType)
      && |r[i].typeLabel| == |listings[i].listingType|
      && ToLower(r[i].typeLabel) == ToLower(listings[i].listingType)
  {
    forall i | 0 <= i < |listings| ensures ToLower(Capitalize(listings[i].listingType)) == ToLower(listings[i].listingType) {
      LowerOfCapitalized(listings[i].listingType);
    }
    seq(|listings|, i requires 0 <= i < |listings| => CardOf(listings[i]))
  }

  /** The owned-listings card and the recent-offers card price a listing the
      same way except for a zero discount: the former falls back to the
      regular price, the latter shows 0. */
  lemma PriceRulesDifferOnlyOnZeroDiscount(l: Listing)
    ensures ShownPrice(l) == RecentOffer.PriceOf(l).shown
        <==> l.discountPrice != Some(0) || l.regularPrice == 0
  {
  }
}

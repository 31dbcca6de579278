/** The "for rent" home-page section: eight cards, each with a thumbnail, a
    "FOR RENT" badge and a monthly price overlay with the saving. */
module ForRent {
  import opened Wrappers
  import opened Records
  import HomeGrid

  /** The price overlay: the regular monthly price and what the discount
      guard renders beside it (nothing, a bare "0", or the saving). */
  datatype PriceTag = PriceTag(monthly: int, save: HomeGrid.DiscountTail<int>)

  datatype RentCard = RentCard(
    thumbnail: Option<string>,
    rentBadge: bool,
    price: Option<PriceTag>,
    details: bool)

  function CardOf(slot: Slot): RentCard {
    RentCard(
      Thumbnail(slot),
      HasId(slot),
      if HasId(slot) then Some(PriceTag(slot.listing.regularPrice, HomeGrid.Savings(slot.listing))) else None,
      HasId(slot))
  }

  /** The section's eight cards: the badge and the price overlay appear
      together, exactly on the slots of listings that have an id. */
  function Render(listings: seq<Listing>): (r: seq<RentCard>)
    ensures |r| == 8
    ensures forall i :: 0 <= i < 8 ==> r[i].thumbnail == Thumbnail(HomeGrid.Padded(listings)[i])
    ensures forall i :: 0 <= i < 8 ==> (r[i].details <==> i < |listings| && listings[i].id != "")
    ensures forall i :: 0 <= i < 8 ==>
      (r[i].rentBadge <==> i < |listings| && listings[i].id != "")
    ensures forall i :: 0 <= i < 8 ==> (r[i].price.Some? <==> r[i].rentBadge)
    ensures forall i :: 0 <= i < |listings| && i < 8 && listings[i].id != "" ==>
      r[i].price == Some(PriceTag(listings[i].regularPrice, HomeGrid.Savings(listings[i])))
    ensures forall i :: 0 <= i < |listings| && i < 8 && listings[i].id != "" ==>
      (r[i].price.value.save.BareZero? <==> listings[i].discountPrice == Some(0))
    ensures forall i :: |listings| <= i < 8 ==> r[i] == RentCard(None, false, None, false)
  {
    var slots := HomeGrid.Padded(listings);
    seq(8, i requires 0 <= i < 8 => CardOf(slots[i]))
  }
}

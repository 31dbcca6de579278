/** The "for sale" home-page section: eight cards, each with a thumbnail, a
    "FOR SALE" badge, a "Great Deal" badge for offers, and a price overlay
    with the saving. */
module ForSale {
  import opened Wrappers
  import opened Records
  import HomeGrid

  /** The price overlay: the regular price and what the discount guard
      renders beside it (nothing, a bare "0", or the saving). */
  datatype PriceTag = PriceTag(regular: int, save: HomeGrid.DiscountTail<int>)

  datatype SaleCard = SaleCard(
    thumbnail: Option<string>,
    saleBadge: bool,
    greatDeal: bool,
    price: Option<PriceTag>,
    details: bool)

  function CardOf(slot: Slot): SaleCard {
    SaleCard(
      Thumbnail(slot),
      HasId(slot),
      HasId(slot) && slot.listing.offer,
      if HasId(slot) then Some(PriceTag(slot.listing.regularPrice, HomeGrid.Savings(slot.listing))) else None,
      HasId(slot))
  }

  /** The section's eight cards. Slot i carries listing i's badges and price
      when listing i exists and has an id; every other slot is an inert
      placeholder card. */
  function Render(listings: seq<Listing>): (r: seq<SaleCard>)
    ensures |r| == 8
    ensures forall i :: 0 <= i < 8 ==> r[i].thumbnail == Thumbnail(HomeGrid.Padded(listings)[i])
    ensures forall i :: 0 <= i < 8 ==> (r[i].details <==> i < |listings| && listings[i].id != "")
    ensures forall i :: 0 <= i < 8 ==>
      (r[i].saleBadge <==> i < |listings| && listings[i].id != "")
    ensures forall i :: 0 <= i < 8 ==>
      (r[i].greatDeal <==> i < |listings| && listings[i].id != "" && listings[i].offer)
    ensures forall i :: 0 <= i < 8 ==>
      (r[i].price.Some? <==> i < |listings| && listings[i].id != "")
    ensures forall i :: 0 <= i < |listings| && i < 8 && listings[i].id != "" ==>
      r[i].price == Some(PriceTag(listings[i].regularPrice, HomeGrid.Savings(listings[i])))
    ensures forall i :: 0 <= i < |listings| && i < 8 && listings[i].id != "" ==>
      (r[i].price.value.save.BareZero? <==> listings[i].discountPrice == Some(0))
    ensures forall i :: |listings| <= i < 8 ==> r[i] == SaleCard(None, false, false, None, false)
  {
    var slots := HomeGrid.Padded(listings);
    seq(8, i requires 0 <= i < 8 => CardOf(slots[i]))
  }
}

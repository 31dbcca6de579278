/** The "recent offers" home-page section: eight cards, each with a
    thumbnail, an "OFFER" badge, a favourite button and a price overlay that
    shows the discounted price and strikes through the regular one. */
module RecentOffer {
  import opened Wrappers
  import opened JsText
  import opened Records
  import HomeGrid
  import HomePage

  /** The price overlay: the price shown, and what the discount guard renders
      beside it (nothing, a bare "0", or the struck-through regular price). */
  datatype OfferPrice = OfferPrice(shown: int, struck: HomeGrid.DiscountTail<int>)

  datatype OfferCard = OfferCard(
    thumbnail: Option<string>,
    offerBadge: bool,
    favourite: bool,
    price: Option<OfferPrice>,
    details: bool)

  /** `discountPrice?.toLocaleString() || regularPrice.toLocaleString()`: a
      defined discount renders to a non-empty string even when it is 0, so
      any defined discount is shown. The strike-through needs a truthy one;
      a zero discount prints a bare "0" in its place. */
  function PriceOf(l: Listing): (r: OfferPrice)
    ensures r.shown == l.discountPrice.GetOr(l.regularPrice)
    ensures r.struck.NoTail? <==> l.discountPrice.None?
    ensures r.struck.BareZero? <==> l.discountPrice == Some(0)
    ensures r.struck.Shown? <==> NumTruthy(l.discountPrice)
    ensures r.struck.Shown? ==> r.struck.content == l.regularPrice
  {
    OfferPrice(
      if l.discountPrice.Some? then l.discountPrice.value else l.regularPrice,
      HomeGrid.Guarded(l.discountPrice, l.regularPrice))
  }

  function CardOf(slot: Slot): OfferCard {
    OfferCard(
      Thumbnail(slot),
      HasId(slot) && slot.listing.offer,
      HasId(slot),
      if HasId(slot) then Some(PriceOf(slot.listing)) else None,
      HasId(slot))
  }

  /** The section's eight cards: the offer badge needs an id and the offer
      flag, the favourite button and the price only an id. */
  function Render(listings: seq<Listing>): (r: seq<OfferCard>)
    ensures |r| == 8
    ensures forall i :: 0 <= i < 8 ==> r[i].thumbnail == Thumbnail(HomeGrid.Padded(listings)[i])
    ensures forall i :: 0 <= i < 8 ==> (r[i].details <==> i < |listings| && listings[i].id != "")
    ensures forall i :: 0 <= i < 8 ==>
      (r[i].offerBadge <==> i < |listings| && listings[i].id != "" && listings[i].offer)
    ensures forall i :: 0 <= i < 8 ==>
      (r[i].favourite <==> i < |listings| && listings[i].id != "")
    ensures forall i :: 0 <= i < 8 ==>
      (r[i].price.Some? <==> i < |listings| && listings[i].id != "")
    ensures forall i :: 0 <= i < |listings| && i < 8 && listings[i].id != "" ==>
      r[i].price == Some(PriceOf(listings[i]))
    ensures forall i :: |listings| <= i < 8 ==> r[i] == OfferCard(None, false, false, None, false)
  {
    var slots := HomeGrid.Padded(listings);
    seq(8, i requires 0 <= i < 8 => CardOf(slots[i]))
  }

  /** A card with a price over a listing with a truthy discount shows the
      discounted price and strikes the regular one through. */
  lemma TruthyDiscountsStrike(listings: seq<Listing>)
    requires forall k :: 0 <= k < |listings| ==> NumTruthy(listings[k].discountPrice)
    ensures var r := Render(listings);
            forall i :: 0 <= i < 8 && r[i].price.Some? ==>
              && listings[i].discountPrice == Some(r[i].price.value.shown)
              && r[i].price.value.struck == HomeGrid.Shown(listings[i].regularPrice)
  {
    var r := Render(listings);
    forall i | 0 <= i < 8 && r[i].price.Some?
      ensures listings[i].discountPrice == Some(r[i].price.value.shown)
      ensures r[i].price.value.struck == HomeGrid.Shown(listings[i].regularPrice)
    {
      assert r[i].price == Some(PriceOf(listings[i]));
    }
  }

  /** Fed the recent-offers view, the section never prints the bare "0": the
      view keeps only listings with a truthy discount, so every card with a
      price shows the discounted price and strikes the regular one through. */
  lemma OffersViewStrikesThrough(all: seq<Listing>, rank: Listing -> int)
    ensures var v := HomePage.View(HomePage.RecentOffers, all, rank);
            var r := Render(v);
            forall i :: 0 <= i < 8 && r[i].price.Some? ==>
              && v[i].discountPrice == Some(r[i].price.value.shown)
              && r[i].price.value.struck == HomeGrid.Shown(v[i].regularPrice)
  {
    var v := HomePage.View(HomePage.RecentOffers, all, rank);
    HomePage.ViewProperties(HomePage.RecentOffers, all, rank);
    assert forall k :: 0 <= k < |v| ==> NumTruthy(v[k].discountPrice);
    TruthyDiscountsStrike(v);
  }
}

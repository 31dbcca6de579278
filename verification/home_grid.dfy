/** The fixed eight-slot grid the three home-page sections render: the
    listings first, then `{}` placeholders when there are fewer than eight. */
module HomeGrid {
  import opened Wrappers
  import opened JsText
  import opened Records

  const Slots: nat := 8

  /** The grid by definition: slot i shows listing i when there is one, and a
      placeholder otherwise. */
  function Padded(listings: seq<Listing>): (r: seq<Slot>)
    ensures |r| == Slots
    ensures forall i :: 0 <= i < Slots ==> r[i] == (if i < |listings| then Filled(listings[i]) else Placeholder)
  {
    seq(Slots, i requires 0 <= i < Slots => if i < |listings| then Filled(listings[i]) else Placeholder)
  }

  function AsSlots(listings: seq<Listing>): (r: seq<Slot>)
    ensures |r| == |listings|
    ensures forall i :: 0 <= i < |listings| ==> r[i] == Filled(listings[i])
  {
    seq(|listings|, i requires 0 <= i < |listings| => Filled(listings[i]))
  }

  function Placeholders(n: nat): (r: seq<Slot>)
    ensures |r| == n
    ensures forall i :: 0 <= i < n ==> r[i] == Placeholder
  {
    seq(n, i requires 0 <= i < n => Placeholder)
  }

  /** The component's code: copy the list, push placeholders while it is
      shorter than eight, then keep the first eight. The input is never
      touched; the copy is what grows. */
  method PadToEight(listings: seq<Listing>) returns (finalListings: seq<Slot>)
    ensures finalListings == Padded(listings)
  {
    var displayListings := AsSlots(listings);
    while |displayListings| < Slots
      invariant |displayListings| >= |listings|
      invariant forall i :: 0 <= i < |displayListings| ==>
                  displayListings[i] == (if i < |listings| then Filled(listings[i]) else Placeholder)
      decreases Slots - |displayListings|
    {
      displayListings := displayListings + [Placeholder];
    }
    finalListings := displayListings[..Slots];
  }

  /** Fewer than eight listings: all of them, then 8 - n placeholders. */
  lemma ShortListPadded(listings: seq<Listing>)
    requires |listings| < Slots
    ensures Padded(listings) == AsSlots(listings) + Placeholders(Slots - |listings|)
  {
  }

  /** Eight or more listings: the first eight, in input order. */
  lemma LongListTruncated(listings: seq<Listing>)
    requires |listings| >= Slots
    ensures Padded(listings) == AsSlots(listings[..Slots])
  {
  }

  /** What `{listing.discountPrice && (<span>…</span>)}` renders beside a
      price. An undefined discount renders nothing. A zero discount is a
      falsy number, and React prints a falsy number as text, so a bare "0"
      appears. Any other discount renders the span. */
  datatype DiscountTail<T> = NoTail | BareZero | Shown(content: T)

  function Guarded<T>(discount: Option<int>, content: T): (r: DiscountTail<T>)
    ensures r.NoTail? <==> discount.None?
    ensures r.BareZero? <==> discount == Some(0)
    ensures r.Shown? <==> NumTruthy(discount)
    ensures r.Shown? ==> r.content == content
  {
    if discount.None? then NoTail else if discount.value == 0 then BareZero else Shown(content)
  }

  /** The saving advertised under a price in the for-sale and for-rent
      overlays: `regularPrice - discountPrice` behind the discount guard. */
  function Savings(l: Listing): (r: DiscountTail<int>)
    ensures r.NoTail? <==> l.discountPrice.None?
    ensures r.BareZero? <==> l.discountPrice == Some(0)
    ensures r.Shown? <==> NumTruthy(l.discountPrice)
    ensures r.Shown? ==> r.content + l.discountPrice.value == l.regularPrice
  {
    Guarded(l.discountPrice, l.regularPrice - l.discountPrice.GetOr(0))
  }
}

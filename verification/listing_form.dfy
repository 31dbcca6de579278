/** The create/edit listing form: default values derived from `initialData`
    with `||`, owner stamping from the signed-in user, the validation rules its
    fields register, and the submitted payload. Also the page that hosts it. */
module ListingForm {
  import opened Wrappers
  import opened JsText
  import opened Records
  import opened FieldRules
  import ImagesUpload

  /** `Partial<Listing>`: every property may be absent. */
  datatype InitialData = InitialData(
    name: Option<string>,
    description: Option<string>,
    address: Option<string>,
    regularPrice: Option<int>,
    discountPrice: Option<int>,
    bathroom: Option<int>,
    bedroom: Option<int>,
    furnished: Option<bool>,
    parking: Option<bool>,
    listingType: Option<string>,
    offer: Option<bool>,
    imageUrls: Option<seq<string>>,
    userRef: Option<string>
  )

  /** The values the form holds and submits (without the image list). */
  datatype FormValues = FormValues(
    name: string,
    description: string,
    address: string,
    regularPrice: int,
    discountPrice: int,
    bathroom: int,
    bedroom: int,
    furnished: bool,
    parking: bool,
    listingType: string,
    offer: bool,
    userRef: string
  )

  /** `x || false` on an optional boolean. */
  function OrFalse(b: Option<bool>): (r: bool)
    ensures r <==> b == Some(true)
  {
    b.Some? && b.value
  }

  /** The `defaultValues` given to the form. Every property is read with
      `initialData?.p || default`, so a falsy value (an empty string, a zero)
      is replaced by the default exactly as an absent one is. */
  function DefaultValues(init: Option<InitialData>): (r: FormValues)
    ensures init.None? ==> r == FormValues("", "", "", 0, 0, 1, 1, false, false, "rent", false, "")
    ensures init.Some? ==>
      (&& r.bedroom == OrNum(init.value.bedroom, 1)
       && r.bathroom == OrNum(init.value.bathroom, 1)
       && r.listingType == OrStr(init.value.listingType, "rent")
       && r.name == OrStr(init.value.name, "")
       && r.description == OrStr(init.value.description, "")
       && r.address == OrStr(init.value.address, "")
       && r.regularPrice == OrNum(init.value.regularPrice, 0)
       && r.discountPrice == OrNum(init.value.discountPrice, 0)
       && r.furnished == (init.value.furnished == Some(true))
       && r.parking == (init.value.parking == Some(true))
       && r.offer == (init.value.offer == Some(true))
       && r.userRef == OrStr(init.value.userRef, ""))
  {
    match init
    case None => FormValues("", "", "", 0, 0, 1, 1, false, false, "rent", false, "")
    case Some(d) =>
      FormValues(
        OrStr(d.name, ""),
        OrStr(d.description, ""),
        OrStr(d.address, ""),
        OrNum(d.regularPrice, 0),
        OrNum(d.discountPrice, 0),
        OrNum(d.bathroom, 1),
        OrNum(d.bedroom, 1),
        OrFalse(d.furnished),
        OrFalse(d.parking),
        OrStr(d.listingType, "rent"),
        OrFalse(d.offer),
        OrStr(d.userRef, ""))
  }

  /** `initialData?.imageUrls || []`: an array is truthy even when empty, so
      only an absent list falls back; every seeded entry is a remote URL. */
  function InitialImages(init: Option<InitialData>): (r: seq<ImagesUpload.ImageEntry>)
    ensures init.None? || init.value.imageUrls.None? ==> r == []
    ensures init.Some? && init.value.imageUrls.Some? ==>
              |r| == |init.value.imageUrls.value|
              && forall i :: 0 <= i < |r| ==> r[i] == ImagesUpload.Remote(init.value.imageUrls.value[i])
  {
    if init.Some? && init.value.imageUrls.Some? then
      var urls := init.value.imageUrls.value;
      seq(|urls|, i requires 0 <= i < |urls| => ImagesUpload.Remote(urls[i]))
    else []
  }

  /** A fetched listing handed over as `initialData`. The fetched record
      carries no `userRef`. */
  function FromListing(l: Listing): InitialData {
    InitialData(Some(l.name), Some(l.description), Some(l.address), Some(l.regularPrice),
                l.discountPrice, Some(l.bathroom), Some(l.bedroom), Some(l.furnished),
                Some(l.parking), Some(l.listingType), Some(l.offer), l.imageUrls, None)
  }

  /** The form shows exactly the listing's values. */
  predicate Prefilled(v: FormValues, l: Listing) {
    && v.name == l.name && v.description == l.description && v.address == l.address
    && v.regularPrice == l.regularPrice && v.discountPrice == l.discountPrice.GetOr(0)
    && v.bathroom == l.bathroom && v.bedroom == l.bedroom
    && v.furnished == l.furnished && v.parking == l.parking
    && v.listingType == l.listingType && v.offer == l.offer
  }

  /** Opening the form on a listing reproduces it exactly when its room counts
      are non-zero and its type is non-empty: those are the only fields whose
      default differs from their falsy value. */
  lemma EditRoundTrip(l: Listing)
    ensures Prefilled(DefaultValues(Some(FromListing(l))), l)
        <==> l.bedroom != 0 && l.bathroom != 0 && l.listingType != ""
    ensures l.imageUrls.Some? ==>
              InitialImages(Some(FromListing(l))) == ImagesUpload.AsRemote(l.imageUrls.value)
  {
    if l.imageUrls.Some? {
      var urls := l.imageUrls.value;
      assert InitialImages(Some(FromListing(l))) == ImagesUpload.AsRemote(urls);
    }
  }

  /** The owner-stamping effect: once the signed-in user has a truthy `_id`,
      `userRef` becomes that id; a user known only by `id` is not stamped. */
  function StampUserRef(v: FormValues, currentUser: Option<User>): (r: FormValues)
    ensures currentUser.Some? && StrTruthy(currentUser.value.dbId) ==> r == v.(userRef := currentUser.value.dbId.value)
    ensures !(currentUser.Some? && StrTruthy(currentUser.value.dbId)) ==> r == v
  {
    if currentUser.Some? && StrTruthy(currentUser.value.dbId) then v.(userRef := currentUser.value.dbId.value) else v
  }

  /** The object handed to the host's `onSubmit`: the form values with
      `imageUrls` set to the editor's current list. */
  datatype Payload = Payload(values: FormValues, imageUrls: seq<ImagesUpload.ImageEntry>)

  function OnFormSubmit(v: FormValues, images: seq<ImagesUpload.ImageEntry>): (r: Payload)
    ensures r.values == v && r.imageUrls == images
  {
    Payload(v, images)
  }

  /** The discount input is rendered only while the offer box is ticked. */
  predicate DiscountInputShown(v: FormValues) {
    v.offer
  }

  /** The form's image editor is capped at ten. */
  function FormMaxImages(): (r: int)
    ensures r == 10
  {
    ImagesUpload.MaxImages(Some(10))
  }

  /** The submit button's label. */
  function ButtonLabel(loading: bool, init: Option<InitialData>): (r: string)
    ensures loading <==> r == "Saving..."
    ensures !loading ==> (init.Some? <==> r == "Update Listing")
    ensures !loading && init.None? ==> r == "Create Listing"
  {
    if loading then "Saving..." else if init.Some? then "Update Listing" else "Create Listing"
  }

  // ---------------------------------------------------------------------------
  // Validation

  /** One registered field: its name, the rules it registered and its value. */
  datatype FieldCheck = FieldCheck(field: string, rules: Rules, value: FieldValue)

  /** The fields registered with rules, as the form declares them; the
      discount field exists only while the offer box is ticked. The type select
      and the checkboxes register no rules. */
  function Checks(v: FormValues): (r: seq<FieldCheck>)
    ensures |r| == (if DiscountInputShown(v) then 7 else 6)
    ensures forall i :: 0 <= i < |r| ==> (r[i].field == "discountPrice" <==> DiscountInputShown(v) && i == 4)
  {
    [ FieldCheck("name", InputRules("name", Some("Property Name"), Some(true), None, None), Text(v.name)),
      FieldCheck("description", TextareaRules("description", Some("Description"), Some(true)), Text(v.description)),
      FieldCheck("address", InputRules("address", Some("Address"), Some(true), None, None), Text(v.address)),
      FieldCheck("regularPrice", InputRules("regularPrice", Some("Regular Price"), Some(true), Some(1), None), Num(v.regularPrice)) ]
    + (if v.offer
       then [FieldCheck("discountPrice", InputRules("discountPrice", Some("Discount Price"), Some(true), Some(1), None), Num(v.discountPrice))]
       else [])
    + [ FieldCheck("bedroom", InputRules("bedroom", Some("Bedrooms"), Some(true), Some(1), None), Num(v.bedroom)),
        FieldCheck("bathroom", InputRules("bathroom", Some("Bathrooms"), Some(true), Some(1), None), Num(v.bathroom)) ]
  }

  datatype FieldError = FieldError(field: string, message: string)

  /** The failing fields with their messages, in declaration order. */
  function Errors(checks: seq<FieldCheck>): (r: seq<FieldError>)
    ensures |r| <= |checks|
    decreases |checks|
  {
    if |checks| == 0 then []
    else
      var c := checks[0];
      var here := Validate(c.rules, c.value);
      (if here.Some? then [FieldError(c.field, here.value)] else []) + Errors(checks[1..])
  }

  lemma {:induction false} ErrorsEmptyIff(checks: seq<FieldCheck>)
    ensures Errors(checks) == [] <==> forall i :: 0 <= i < |checks| ==> Satisfies(checks[i].rules, checks[i].value)
    decreases |checks|
  {
    if |checks| > 0 {
      ErrorsEmptyIff(checks[1..]);
      assert forall i :: 1 <= i < |checks| ==> checks[i] == checks[1..][i - 1];
    }
  }

  /** The form's own meaning of "valid": the three texts are filled in, price
      and room counts are at least 1, and so is the discount while the offer is
      on. A stale discount with the offer off is not looked at. */
  predicate Valid(v: FormValues) {
    && v.name != "" && v.description != "" && v.address != ""
    && v.regularPrice >= 1 && v.bedroom >= 1 && v.bathroom >= 1
    && (v.offer ==> v.discountPrice >= 1)
  }

  /** Submitting: `loading` disables the form's only submit button, which
      blocks both the click and the implicit submission by Enter; otherwise
      the payload reaches the host only when no field has an error. */
  function HandleSubmit(loading: bool, v: FormValues, images: seq<ImagesUpload.ImageEntry>): (r: Option<Payload>)
    ensures loading ==> r.None?
    ensures r.Some? ==> r.value == OnFormSubmit(v, images)
  {
    if loading then None
    else if Errors(Checks(v)) == [] then Some(OnFormSubmit(v, images))
    else None
  }

  /** A required text input is met exactly by a non-empty text. */
  lemma RequiredTextRule(name: string, labelText: string, t: string)
    ensures Satisfies(InputRules(name, Some(labelText), Some(true), None, None), Text(t)) <==> t != ""
    ensures Satisfies(TextareaRules(name, Some(labelText), Some(true)), Text(t)) <==> t != ""
  {
  }

  /** A required number input with minimum 1 is met exactly by a number of at
      least 1. */
  lemma MinOneRule(name: string, labelText: string, n: int)
    ensures Satisfies(InputRules(name, Some(labelText), Some(true), Some(1), None), Num(n)) <==> n >= 1
  {
  }

  /** Every registered field meets its rules exactly for valid values. */
  lemma ChecksMeanValid(v: FormValues)
    ensures (forall i :: 0 <= i < |Checks(v)| ==> Satisfies(Checks(v)[i].rules, Checks(v)[i].value)) <==> Valid(v)
  {
    var cs := Checks(v);
    var k := if v.offer then 1 else 0;
    RequiredTextRule("name", "Property Name", v.name);
    RequiredTextRule("description", "Description", v.description);
    RequiredTextRule("address", "Address", v.address);
    MinOneRule("regularPrice", "Regular Price", v.regularPrice);
    MinOneRule("discountPrice", "Discount Price", v.discountPrice);
    MinOneRule("bedroom", "Bedrooms", v.bedroom);
    MinOneRule("bathroom", "Bathrooms", v.bathroom);
    assert |cs| == 6 + k;
    assert Satisfies(cs[0].rules, cs[0].value) <==> v.name != "";
    assert Satisfies(cs[1].rules, cs[1].value) <==> v.description != "";
    assert Satisfies(cs[2].rules, cs[2].value) <==> v.address != "";
    assert Satisfies(cs[3].rules, cs[3].value) <==> v.regularPrice >= 1;
    assert v.offer ==> (Satisfies(cs[4].rules, cs[4].value) <==> v.discountPrice >= 1);
    assert Satisfies(cs[4 + k].rules, cs[4 + k].value) <==> v.bedroom >= 1;
    assert Satisfies(cs[5 + k].rules, cs[5 + k].value) <==> v.bathroom >= 1;
    if Valid(v) {
      forall i | 0 <= i < |cs| ensures Satisfies(cs[i].rules, cs[i].value) {
        if i == 4 && v.offer {
        } else if i >= 4 {
          assert i == 4 + k || i == 5 + k;
        }
      }
    }
  }

  /** The payload is sent exactly for valid values while nothing is saving. */
  lemma SubmitIffValid(loading: bool, v: FormValues, images: seq<ImagesUpload.ImageEntry>)
    ensures HandleSubmit(loading, v, images).Some? <==> !loading && Valid(v)
  {
    ErrorsEmptyIff(Checks(v));
    ChecksMeanValid(v);
  }

  /** With the offer off, whatever discount is left in the form is neither
      checked nor removed: it travels in the payload. */
  lemma StaleDiscountIsSubmitted(loading: bool, v: FormValues, images: seq<ImagesUpload.ImageEntry>)
    requires !v.offer && Valid(v)
    ensures HandleSubmit(loading, v, images).Some? <==> !loading
    ensures HandleSubmit(loading, v, images).Some? ==>
      HandleSubmit(loading, v, images).value.values.discountPrice == v.discountPrice
  {
    SubmitIffValid(loading, v, images);
  }

  /** While the button reads "Saving..." nothing can be submitted. */
  lemma SavingBlocksSubmit(loading: bool, init: Option<InitialData>, v: FormValues, images: seq<ImagesUpload.ImageEntry>)
    ensures ButtonLabel(loading, init) == "Saving..." ==> HandleSubmit(loading, v, images).None?
  {
  }

  /** The form's image list starts from `initialData`, changes only through
      the editor's reports, and is what the payload carries; seeded with at
      most ten images, the submitted list never holds more than ten. */
  lemma {:induction false} SubmittedImagesWithinCap(loading: bool, init: Option<InitialData>, ops: seq<ImagesUpload.EditorOp>, v: FormValues)
    requires |InitialImages(init)| <= 10
    ensures var images := ImagesUpload.ApplyAll(InitialImages(init), FormMaxImages(), ops);
            var sent := HandleSubmit(loading, v, images);
            sent.Some? ==> sent.value.imageUrls == images && |sent.value.imageUrls| <= 10
  {
    ImagesUpload.SessionKeepsCapacity(InitialImages(init), FormMaxImages(), ops);
  }

  // ---------------------------------------------------------------------------
  // The hosting page

  /** The listing page renders the form without `initialData`. */
  const HostInitialData: Option<InitialData> := None

  /** Nor does it pass `loading`, so the prop keeps its default, false. */
  const HostLoading: bool := false

  /** The request the hosting page sends with a payload: always a create. */
  datatype Request = Create(payload: Payload) | Update(id: string, payload: Payload)

  function HostRequest(p: Payload): (r: Request)
    ensures r.Create? && r.payload == p
  {
    Create(p)
  }

  /** Hosted as it is, the form always starts from the default values,
      with no images, and its idle button always reads "Create Listing". */
  lemma HostedFormIsAlwaysCreate()
    ensures DefaultValues(HostInitialData) == FormValues("", "", "", 0, 0, 1, 1, false, false, "rent", false, "")
    ensures InitialImages(HostInitialData) == []
    ensures ButtonLabel(HostLoading, HostInitialData) == "Create Listing"
  {
  }

  /** Stamping the owner never changes whether the form submits, since no rule
      reads `userRef`; a submitted payload then carries the user's `_id`, with
      every other field as entered and the editor's images. */
  lemma StampReachesPayload(loading: bool, v: FormValues, u: Option<User>, images: seq<ImagesUpload.ImageEntry>)
    ensures HandleSubmit(loading, StampUserRef(v, u), images).Some? <==> HandleSubmit(loading, v, images).Some?
    ensures var sent := HandleSubmit(loading, StampUserRef(v, u), images);
            sent.Some? && u.Some? && StrTruthy(u.value.dbId) ==>
              sent.value == Payload(v.(userRef := u.value.dbId.value), images)
  {
    SubmitIffValid(loading, v, images);
    SubmitIffValid(loading, StampUserRef(v, u), images);
  }

  /** On the hosting page, which never marks the form as saving, valid values
      are always submitted, and every submission becomes a create request
      carrying the editor's images, at most ten of them. */
  lemma HostedSubmitCreatesWithinCap(ops: seq<ImagesUpload.EditorOp>, v: FormValues)
    ensures var images := ImagesUpload.ApplyAll(InitialImages(HostInitialData), FormMaxImages(), ops);
            var sent := HandleSubmit(HostLoading, v, images);
            && (sent.Some? <==> Valid(v))
            && (sent.Some? ==>
                  var req := HostRequest(sent.value);
                  && req.Create?
                  && req.payload == Payload(v, images)
                  && |req.payload.imageUrls| <= 10)
  {
    SubmittedImagesWithinCap(HostLoading, HostInitialData, ops, v);
    SubmitIffValid(HostLoading, v, ImagesUpload.ApplyAll(InitialImages(HostInitialData), FormMaxImages(), ops));
  }
}

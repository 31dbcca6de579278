/** The listing-edit slice: which listing is being edited and a snapshot of
    it. Two independent setters and a clear; nothing sets both at once. */
module ListingEditSlice {
  import opened Wrappers
  import opened Records
  import Traces

  datatype EditState = EditState(editId: Option<string>, editData: Option<Listing>)

  datatype EditAction =
    | SetEditId(id: Option<string>)
    | SetEditData(data: Option<Listing>)
    | ClearEdit

  const Initial: EditState := EditState(None, None)

  function SetId(s: EditState, id: Option<string>): (r: EditState)
    ensures r.editId == id
    ensures r.editData == s.editData
  {
    s.(editId := id)
  }

  function SetData(s: EditState, data: Option<Listing>): (r: EditState)
    ensures r.editData == data
    ensures r.editId == s.editId
  {
    s.(editData := data)
  }

  function Clear(s: EditState): (r: EditState)
    ensures r == Initial
  {
    EditState(None, None)
  }

  function Reduce(s: EditState, a: EditAction): EditState {
    match a
    case SetEditId(id) => SetId(s, id)
    case SetEditData(d) => SetData(s, d)
    case ClearEdit => Clear(s)
  }

  /** The two setters commute. */
  lemma SettersCommute(s: EditState, id: Option<string>, data: Option<Listing>)
    ensures SetData(SetId(s, id), data) == SetId(SetData(s, data), id)
    ensures SetData(SetId(s, id), data) == EditState(id, data)
  {
  }

  /** Clearing twice is clearing once, and lands on the initial state. */
  lemma ClearIdempotent(s: EditState)
    ensures Clear(Clear(s)) == Clear(s) == Initial
    ensures Initial.editId.None? && Initial.editData.None?
  {
  }

  /** The edited id after a trace, read backwards: the last id-setter or clear
      decides it; data-setters are transparent. */
  function IdAfter(init: Option<string>, acts: seq<EditAction>): Option<string>
    decreases |acts|
  {
    if |acts| == 0 then init
    else match acts[|acts| - 1]
      case SetEditId(id) => id
      case ClearEdit => None
      case SetEditData(_) => IdAfter(init, acts[..|acts| - 1])
  }

  /** The snapshot after a trace, read backwards: the last data-setter or clear
      decides it; id-setters are transparent. */
  function DataAfter(init: Option<Listing>, acts: seq<EditAction>): Option<Listing>
    decreases |acts|
  {
    if |acts| == 0 then init
    else match acts[|acts| - 1]
      case SetEditData(d) => d
      case ClearEdit => None
      case SetEditId(_) => DataAfter(init, acts[..|acts| - 1])
  }

  /** Any dispatch sequence leaves each field determined by its own setter and
      the clears alone: the two setters never interfere. */
  lemma {:induction false} RunCharacterised(s: EditState, acts: seq<EditAction>)
    ensures Traces.Run(Reduce, s, acts) == EditState(IdAfter(s.editId, acts), DataAfter(s.editData, acts))
    decreases |acts|
  {
    if |acts| > 0 {
      var init := acts[..|acts| - 1];
      var last := acts[|acts| - 1];
      assert acts == init + [last];
      Traces.RunSnoc(Reduce, s, init, last);
      RunCharacterised(s, init);
    }
  }

  /** Dispatching only a new id leaves a stale snapshot in place. */
  lemma SetIdAloneKeepsStaleData(l: Listing, m: Listing)
    requires l != m
    ensures var r := Traces.Run(Reduce, EditState(Some(l.id), Some(l)), [SetEditId(Some(m.id))]);
            r.editId == Some(m.id) && r.editData == Some(l) && r.editData != Some(m)
  {
  }
}

/** The image batch editor: an ordered list mixing already-uploaded URLs and
    newly chosen local files, with a capacity check that rejects a whole
    selection, removal by position, clear-all, and the bookkeeping of which
    local previews get revoked. The editor owns no list of its own: every
    change is reported to the host through `onImagesChange`, modelled as the
    `ImagesChanged` outcome. */
module ImagesUpload {
  import opened Wrappers
  import opened JsText

  /** A local file chosen by the user; `handle` distinguishes two files with
      the same name. */
  datatype FileRef = FileRef(name: string, handle: nat)

  /** An entry of the list: a pending local file or an existing remote URL. */
  datatype ImageEntry = Pending(file: FileRef) | Remote(url: string)

  const DefaultMaxImages: int := 10

  /** `maxImages = 10` as a destructuring default: only an absent prop
      falls back, an explicit 0 stays 0. */
  function MaxImages(prop: Option<int>): (r: int)
    ensures prop.None? ==> r == DefaultMaxImages
    ensures prop.Some? ==> r == prop.value
  {
    prop.GetOr(DefaultMaxImages)
  }

  /** What one upload attempt does. */
  datatype UploadResult =
    | NoFiles                               // no file list: nothing happens
    | CapacityAlert(message: string)        // the whole batch is refused
    | ImagesChanged(images: seq<ImageEntry>)  // onImagesChange fires with this list

  function AsEntries(files: seq<FileRef>): (r: seq<ImageEntry>)
    ensures |r| == |files|
    ensures forall i :: 0 <= i < |files| ==> r[i] == Pending(files[i])
  {
    seq(|files|, i requires 0 <= i < |files| => Pending(files[i]))
  }

  function AsRemote(urls: seq<string>): (r: seq<ImageEntry>)
    ensures |r| == |urls|
    ensures forall i :: 0 <= i < |urls| ==> r[i] == Remote(urls[i])
  {
    seq(|urls|, i requires 0 <= i < |urls| => Remote(urls[i]))
  }

  /** `a.slice(0, end)`: a negative end counts back from the length. */
  function SliceTo<T>(a: seq<T>, end: int): (r: seq<T>)
    ensures end >= |a| ==> r == a
    ensures 0 <= end <= |a| ==> r == a[..end]
    ensures end < 0 ==> r == (if |a| + end >= 0 then a[..|a| + end] else [])
    ensures |r| <= |a|
  {
    if end >= |a| then a
    else if end >= 0 then a[..end]
    else if |a| + end >= 0 then a[..|a| + end]
    else []
  }

  function CapacityMessage(maxImages: int, remaining: int): string {
    "You can only upload up to " + IntToString(maxImages) + " images. "
      + IntToString(remaining) + " slots remaining."
  }

  /** `handleImageUpload`: a selection larger than the remaining slots is
      refused whole with an alert; otherwise its files are appended after the
      existing entries, in selection order. */
  function HandleImageUpload(images: seq<ImageEntry>, maxImages: int, files: Option<seq<FileRef>>): (r: UploadResult)
    ensures files.None? <==> r.NoFiles?
    ensures r.CapacityAlert? <==> files.Some? && |files.value| > maxImages - |images|
    ensures r.CapacityAlert? ==> r.message == CapacityMessage(maxImages, maxImages - |images|)
    ensures r.ImagesChanged? ==> r.images == images + AsEntries(files.value)
  {
    if files.None? then NoFiles
    else
      var fileArray := files.value;
      var remainingSlots := maxImages - |images|;
      if |fileArray| > remainingSlots then CapacityAlert(CapacityMessage(maxImages, remainingSlots))
      else
        var filesToAdd := SliceTo(fileArray, remainingSlots);
        ImagesChanged(images + AsEntries(filesToAdd))
  }

  /** An accepted upload never takes the list past the limit it started within. */
  lemma UploadKeepsCapacity(images: seq<ImageEntry>, maxImages: int, files: Option<seq<FileRef>>)
    requires |images| <= maxImages
    ensures var r := HandleImageUpload(images, maxImages, files);
            r.ImagesChanged? ==> |images| <= |r.images| <= maxImages
  {
  }

  /** `handleDrop`: a drop with files goes through the picker's path; an empty
      drop does nothing. */
  function HandleDrop(images: seq<ImageEntry>, maxImages: int, files: seq<FileRef>): (r: UploadResult)
    ensures |files| == 0 ==> r.NoFiles?
    ensures |files| > 0 ==> r == HandleImageUpload(images, maxImages, Some(files))
  {
    if |files| > 0 then HandleImageUpload(images, maxImages, Some(files)) else NoFiles
  }

  /** The file picker is disabled once the list is full (the drop zone is not). */
  predicate PickerEnabled(images: seq<ImageEntry>, maxImages: int) {
    |images| < maxImages
  }

  /** A full list refuses every non-empty drop even though the picker is off. */
  lemma FullListRefusesDrops(images: seq<ImageEntry>, maxImages: int, files: seq<FileRef>)
    requires |images| >= maxImages && |files| > 0
    ensures !PickerEnabled(images, maxImages)
    ensures HandleDrop(images, maxImages, files).CapacityAlert?
  {
  }

  // ---------------------------------------------------------------------------
  // Removal

  /** The list without position `index`; an index outside the list removes nothing. */
  function WithoutIndex(images: seq<ImageEntry>, index: int): (r: seq<ImageEntry>)
    ensures 0 <= index < |images| ==> |r| == |images| - 1
    ensures 0 <= index < |images| ==> forall j :: 0 <= j < index ==> r[j] == images[j]
    ensures 0 <= index < |images| ==> forall j :: index <= j < |r| ==> r[j] == images[j + 1]
    ensures !(0 <= index < |images|) ==> r == images
  {
    if 0 <= index < |images| then images[..index] + images[index + 1..] else images
  }

  /** The local preview released by removing position `index`: the entry's own
      preview when it is a pending file. Out of range, the source revokes an
      undefined URL, which releases nothing. */
  function RevokedOnRemove(images: seq<ImageEntry>, index: int): (r: Option<FileRef>)
    ensures r.Some? <==> 0 <= index < |images| && images[index].Pending?
    ensures r.Some? ==> r.value == images[index].file
  {
    if 0 <= index < |images| && images[index].Pending? then Some(images[index].file) else None
  }

  /** `removeImage`: `images.filter((_, i) => i !== index)` as the loop it is,
      plus the revocation of the removed entry's preview. */
  method RemoveImage(images: seq<ImageEntry>, index: int) returns (updated: seq<ImageEntry>, revoked: Option<FileRef>)
    ensures updated == WithoutIndex(images, index)
    ensures revoked == RevokedOnRemove(images, index)
  {
    updated := [];
    var i := 0;
    while i < |images|
      invariant 0 <= i <= |images|
      invariant updated == WithoutIndex(images[..i], index)
    {
      if i != index {
        updated := updated + [images[i]];
      }
      assert images[..i + 1] == images[..i] + [images[i]];
      i := i + 1;
    }
    assert images[..|images|] == images;
    revoked := RevokedOnRemove(images, index);
  }

  // ---------------------------------------------------------------------------
  // Clearing and preview bookkeeping

  /** The pending files of a list, in list order; remote URLs are skipped. */
  function FilesOf(images: seq<ImageEntry>): (r: seq<FileRef>)
    ensures |r| <= |images|
    ensures forall f :: f in r <==> Pending(f) in images
    decreases |images|
  {
    if |images| == 0 then []
    else
      var rest := FilesOf(images[1..]);
      assert forall e :: e in images <==> e == images[0] || e in images[1..];
      if images[0].Pending? then [images[0].file] + rest else rest
  }

  datatype Cleared = Cleared(images: seq<ImageEntry>, revoked: seq<FileRef>)

  /** `clearAllImages`: the list becomes empty and every pending file's preview
      is revoked; remote URLs are never revoked. */
  function ClearAllImages(images: seq<ImageEntry>): (r: Cleared)
    ensures r.images == []
    ensures forall f :: f in r.revoked <==> Pending(f) in images
  {
    Cleared([], FilesOf(images))
  }

  /** What a preview shows: a remote URL directly, or an object URL made for a
      pending file. */
  datatype Preview = Direct(url: string) | ObjectUrl(file: FileRef)

  function Previews(images: seq<ImageEntry>): (r: seq<Preview>)
    ensures |r| == |images|
    ensures forall i :: 0 <= i < |images| ==> (r[i].ObjectUrl? <==> images[i].Pending?)
    ensures forall i :: 0 <= i < |images| && images[i].Remote? ==> r[i] == Direct(images[i].url)
    ensures forall i :: 0 <= i < |images| && images[i].Pending? ==> r[i] == ObjectUrl(images[i].file)
  {
    seq(|images|, i requires 0 <= i < |images| =>
      match images[i]
      case Remote(u) => Direct(u)
      case Pending(f) => ObjectUrl(f))
  }

  /** When the list changes (or the editor unmounts) the previous effect's
      cleanup revokes the object URL of every pending file of the old list. */
  function PreviewCleanup(previous: seq<ImageEntry>): (r: seq<FileRef>)
    ensures forall f :: f in r <==> ObjectUrl(f) in Previews(previous)
  {
    var ps := Previews(previous);
    assert forall f :: ObjectUrl(f) in ps <==> Pending(f) in previous by {
      forall f ensures ObjectUrl(f) in ps <==> Pending(f) in previous {
        if ObjectUrl(f) in ps {
          var i :| 0 <= i < |ps| && ps[i] == ObjectUrl(f);
          assert previous[i] == Pending(f);
        }
        if Pending(f) in previous {
          var i :| 0 <= i < |previous| && previous[i] == Pending(f);
          assert ps[i] == ObjectUrl(f);
        }
      }
    }
    FilesOf(previous)
  }

  /** A rendered preview tile: the list position its remove button passes on,
      and what it shows. */
  datatype Tile = Tile(index: nat, preview: Preview)

  /** An entry renders nothing when its source is empty. An object URL is
      never empty, so only a remote entry `""` is skipped. */
  predicate Skipped(e: ImageEntry) {
    e == Remote("")
  }

  /** The tiles of the first `n` entries, in list order. */
  function Tiles(images: seq<ImageEntry>, n: nat): (r: seq<Tile>)
    requires n <= |images|
    ensures |r| <= n
    ensures forall i :: 0 <= i < |r| ==>
      && r[i].index < n
      && !Skipped(images[r[i].index])
      && r[i].preview == Previews(images)[r[i].index]
    ensures forall i, k :: 0 <= i < k < |r| ==> r[i].index < r[k].index
    ensures forall j :: 0 <= j < n && !Skipped(images[j]) ==> Tile(j, Previews(images)[j]) in r
    decreases n
  {
    if n == 0 then []
    else
      var rest := Tiles(images, n - 1);
      if Skipped(images[n - 1]) then rest else rest + [Tile(n - 1, Previews(images)[n - 1])]
  }

  /** Every entry but a remote `""` gets a tile, so a list without one shows
      exactly one tile per entry, tile i for entry i. */
  lemma {:induction false} TilesWithoutEmptySources(images: seq<ImageEntry>, n: nat)
    requires n <= |images|
    requires forall j :: 0 <= j < n ==> !Skipped(images[j])
    ensures |Tiles(images, n)| == n
    ensures forall i :: 0 <= i < n ==> Tiles(images, n)[i] == Tile(i, Previews(images)[i])
    decreases n
  {
    if n > 0 {
      TilesWithoutEmptySources(images, n - 1);
      var rest := Tiles(images, n - 1);
      assert Tiles(images, n) == rest + [Tile(n - 1, Previews(images)[n - 1])];
    }
  }

  // ---------------------------------------------------------------------------
  // A session of edits

  datatype EditorOp =
    | Pick(files: Option<seq<FileRef>>)
    | Drop(dropped: seq<FileRef>)
    | Remove(index: int)
    | ClearAll

  /** The host's list after one user gesture: it is replaced exactly when the
      editor reports a change. */
  function Apply(images: seq<ImageEntry>, maxImages: int, op: EditorOp): seq<ImageEntry> {
    match op
    case Pick(files) =>
      var r := HandleImageUpload(images, maxImages, files);
      if r.ImagesChanged? then r.images else images
    case Drop(files) =>
      var r := HandleDrop(images, maxImages, files);
      if r.ImagesChanged? then r.images else images
    case Remove(i) => WithoutIndex(images, i)
    case ClearAll => ClearAllImages(images).images
  }

  function ApplyAll(images: seq<ImageEntry>, maxImages: int, ops: seq<EditorOp>): seq<ImageEntry>
    decreases |ops|
  {
    if |ops| == 0 then images else ApplyAll(Apply(images, maxImages, ops[0]), maxImages, ops[1..])
  }

  /** The capacity is an invariant of every editing session that starts within it. */
  lemma {:induction false} SessionKeepsCapacity(images: seq<ImageEntry>, maxImages: int, ops: seq<EditorOp>)
    requires |images| <= maxImages
    ensures |ApplyAll(images, maxImages, ops)| <= maxImages
    decreases |ops|
  {
    if |ops| > 0 {
      var next := Apply(images, maxImages, ops[0]);
      if ops[0].Pick? {
        UploadKeepsCapacity(images, maxImages, ops[0].files);
      } else if ops[0].Drop? && |ops[0].dropped| > 0 {
        UploadKeepsCapacity(images, maxImages, Some(ops[0].dropped));
      }
      assert |next| <= maxImages;
      SessionKeepsCapacity(next, maxImages, ops[1..]);
    }
  }

  /** Every entry that survives a session is either an entry it started with
      or a file some gesture of the session chose. */
  lemma {:induction false} SessionEntriesAccounted(images: seq<ImageEntry>, maxImages: int, ops: seq<EditorOp>, e: ImageEntry)
    requires e in ApplyAll(images, maxImages, ops)
    ensures e in images || (e.Pending? && Chosen(e.file, ops))
    decreases |ops|
  {
    if |ops| > 0 {
      var next := Apply(images, maxImages, ops[0]);
      SessionEntriesAccounted(next, maxImages, ops[1..], e);
      if e in next && e !in images {
        match ops[0]
        case Pick(files) =>
          var r := HandleImageUpload(images, maxImages, files);
          assert e in AsEntries(files.value);
        case Drop(files) =>
          assert e in AsEntries(files);
        case Remove(_) =>
        case ClearAll =>
      }
    }
  }

  /** The file `f` is chosen by some pick or drop of the session. */
  predicate Chosen(f: FileRef, ops: seq<EditorOp>) {
    exists k :: 0 <= k < |ops| && ChosenBy(f, ops[k])
  }

  predicate ChosenBy(f: FileRef, op: EditorOp) {
    (op.Pick? && op.files.Some? && f in op.files.value) || (op.Drop? && f in op.dropped)
  }
}

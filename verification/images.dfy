/** The image-list editor of the admin form (`ImageInput`) and the card's choice of
    which image to show (`ObjectCard`). The invariant these keep is that a
    non-empty image list has exactly one primary image. */
module ImageEditing {
  import opened Wrappers
  import opened Text
  import opened Seqs
  import opened Catalog

  function IsPrimary(img: Image): bool {
    img.isPrimary
  }

  function PrimaryCount(images: seq<Image>): nat {
    CountWhere(IsPrimary, images)
  }

  /** `images.some(img => img.isPrimary)`. */
  predicate HasPrimary(images: seq<Image>) {
    exists k :: 0 <= k < |images| && images[k].isPrimary
  }

  /** A non-empty list has exactly one primary image. */
  predicate PrimaryInvariant(images: seq<Image>) {
    |images| == 0 || PrimaryCount(images) == 1
  }

  /** Two images show the same picture with the same caption. */
  predicate SameContent(a: Image, b: Image) {
    a.url == b.url && a.caption == b.caption
  }

  lemma HasPrimaryIff(images: seq<Image>)
    ensures HasPrimary(images) <==> PrimaryCount(images) > 0
  {
    CountWhereZero(IsPrimary, images);
  }

  /** The editor: the image list plus the two text boxes for a new image. */
  datatype ImageDraft = ImageDraft(images: seq<Image>, url: string, caption: string)

  /** `addImage`: a url that trims to empty changes nothing; otherwise one image with
      the trimmed url and caption is appended, primary exactly when it is the first,
      and both boxes are cleared. */
  function AddImage(d: ImageDraft): (r: ImageDraft)
    ensures Trim(d.url) == "" ==> r == d
    ensures Trim(d.url) != "" ==>
      && r.url == "" && r.caption == ""
      && |r.images| == |d.images| + 1
      && r.images[..|d.images|] == d.images
      && r.images[|d.images|].url == Trim(d.url)
      && r.images[|d.images|].caption == Trim(d.caption)
      && (r.images[|d.images|].isPrimary <==> |d.images| == 0)
  {
    var url := Trim(d.url);
    if url != "" then
      ImageDraft(d.images + [Image(url, Trim(d.caption), |d.images| == 0)], "", "")
    else
      d
  }

  lemma AddImageKeepsInvariant(d: ImageDraft)
    requires PrimaryInvariant(d.images)
    ensures PrimaryInvariant(AddImage(d).images)
  {
    var r := AddImage(d);
    if Trim(d.url) != "" {
      var added := r.images[|d.images|];
      assert r.images == d.images + [added];
      CountWhereAppend(IsPrimary, d.images, [added]);
      assert [added][1..] == [];
    }
  }

  /** `removeImage`: drops the image at `idx` (an index outside the list drops
      nothing); if images remain and none of them is primary, the first is promoted. */
  function RemoveImage(images: seq<Image>, idx: int): (r: seq<Image>)
    ensures |r| == if 0 <= idx < |images| then |images| - 1 else |images|
    ensures forall k :: 0 <= k < |r| ==> SameContent(r[k], RemoveAt(images, idx)[k])
    ensures forall k :: 1 <= k < |r| ==> r[k] == RemoveAt(images, idx)[k]
    ensures |r| > 0 ==> HasPrimary(r)
    ensures HasPrimary(RemoveAt(images, idx)) ==> r == RemoveAt(images, idx)
  {
    var kept := RemoveAt(images, idx);
    if |kept| > 0 && !HasPrimary(kept) then
      var r := kept[0 := kept[0].(isPrimary := true)];
      assert r[0].isPrimary;
      r
    else
      kept
  }

  /** Removing an image from a list with exactly one primary leaves exactly one
      primary (or an empty list); at most one primary also stays at most one. */
  lemma RemoveImageKeepsInvariant(images: seq<Image>, idx: int)
    ensures PrimaryCount(images) <= 1 ==> PrimaryCount(RemoveImage(images, idx)) <= 1
    ensures PrimaryInvariant(images) ==> PrimaryInvariant(RemoveImage(images, idx))
  {
    var kept := RemoveAt(images, idx);
    var r := RemoveImage(images, idx);
    if 0 <= idx < |images| {
      CountWhereRemoveAt(IsPrimary, images, idx);
    }
    assert PrimaryCount(kept) <= PrimaryCount(images);
    HasPrimaryIff(kept);
    if |kept| > 0 && !HasPrimary(kept) {
      assert r[1..] == kept[1..];
      assert PrimaryCount(r) == 1 + PrimaryCount(kept[1..]);
      assert PrimaryCount(kept) == PrimaryCount(kept[1..]);
    }
    HasPrimaryIff(r);
  }

  /** `setPrimary`: the image at `idx` becomes the only primary; urls and captions stay. */
  function SetPrimary(images: seq<Image>, idx: int): (r: seq<Image>)
    ensures |r| == |images|
    ensures forall k :: 0 <= k < |r| ==> SameContent(r[k], images[k]) && (r[k].isPrimary <==> k == idx)
  {
    seq(|images|, k requires 0 <= k < |images| => images[k].(isPrimary := k == idx))
  }

  /** Index of the first primary image at or after `from`. */
  function FindPrimary(images: seq<Image>, from: nat): (r: Option<nat>)
    requires from <= |images|
    ensures r.Some? ==> from <= r.value < |images| && images[r.value].isPrimary
    ensures r.Some? ==> forall j :: from <= j < r.value ==> !images[j].isPrimary
    ensures r.None? ==> forall j :: from <= j < |images| ==> !images[j].isPrimary
    decreases |images| - from
  {
    if from == |images| then None
    else if images[from].isPrimary then Some(from)
    else FindPrimary(images, from + 1)
  }

  /** The card image: `images.find(img => img.isPrimary) || images[0]`. */
  function PrimaryImage(images: seq<Image>): (r: Option<Image>)
    ensures r.None? <==> |images| == 0
    ensures HasPrimary(images) ==>
      exists k :: 0 <= k < |images| && r == Some(images[k]) && images[k].isPrimary
                  && forall j :: 0 <= j < k ==> !images[j].isPrimary
    ensures |images| > 0 && !HasPrimary(images) ==> r == Some(images[0])
  {
    match FindPrimary(images, 0)
    case Some(k) => Some(images[k])
    case None => if |images| == 0 then None else Some(images[0])
  }

  /** Under the invariant, the card shows the one primary image. */
  lemma PrimaryImageIsThePrimary(images: seq<Image>, k: int)
    requires PrimaryInvariant(images)
    requires 0 <= k < |images| && images[k].isPrimary
    ensures PrimaryImage(images) == Some(images[k])
  {
    CountWhereOne(IsPrimary, images, k);
  }

  /** After `setPrimary(idx)` the list keeps the invariant and the card shows image `idx`. */
  lemma SetPrimarySelects(images: seq<Image>, idx: int)
    requires 0 <= idx < |images|
    ensures PrimaryInvariant(SetPrimary(images, idx))
    ensures PrimaryImage(SetPrimary(images, idx)) == Some(SetPrimary(images, idx)[idx])
  {
    var r := SetPrimary(images, idx);
    CountWhereOne(IsPrimary, r, idx);
    PrimaryImageIsThePrimary(r, idx);
  }

  /** Removing the image just added restores the list, provided the list was empty
      or already had a primary (so no promotion happens). */
  lemma RemoveUndoesAdd(d: ImageDraft)
    requires Trim(d.url) != ""
    requires |d.images| == 0 || HasPrimary(d.images)
    ensures RemoveImage(AddImage(d).images, |d.images|) == d.images
  {
    var added := AddImage(d).images;
    assert RemoveAt(added, |d.images|) == d.images;
  }
}

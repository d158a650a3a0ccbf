/** The image bookkeeping of the product routes (routes/ProductRoutes.js):
    a product keeps its gallery URLs and, position by position, the storage
    handles needed to delete them. On update the kept URLs and the new
    uploads are merged, the handles are carried along, and the handles that
    fell out are scheduled for deletion. */
module Gallery {
  import opened Js
  import opened ProductModel

  /** What the storage service answers for one uploaded file: its public
      URL and its deletion handle. */
  datatype Upload = Upload(url: string, fileId: string)

  /** The `existingGallery` form field: absent, a single value, or an
      array of values. */
  datatype ExistingGallery = Absent | One(url: string) | Many(urls: seq<string>)

  /** The kept URLs: a truthy single value counts as a one-element list,
      an array is taken as it is, anything falsy as no list. */
  function ExistingUrls(g: ExistingGallery): (r: seq<string>)
    ensures g.One? && g.url != "" ==> r == [g.url]
    ensures g.Many? ==> r == g.urls
    ensures g.Absent? || (g.One? && g.url == "") ==> r == []
  {
    match g
    case Absent => []
    case One(url) => if url != "" then [url] else []
    case Many(urls) => urls
  }

  /** `gallery.indexOf(url)`: the first position of the URL, or -1. */
  function IndexOfUrl(gallery: seq<string>, url: string): (r: int)
    ensures -1 <= r < |gallery|
    ensures r == -1 <==> url !in gallery
    ensures r >= 0 ==> gallery[r] == url && url !in gallery[..r]
  {
    if |gallery| == 0 then -1
    else if gallery[0] == url then 0
    else
      var k := IndexOfUrl(gallery[1..], url);
      if k == -1 then -1
      else
        assert gallery[..k + 1] == [gallery[0]] + gallery[1..][..k];
        k + 1
  }

  /** The handle a kept URL takes over: the one stored at the URL's first
      position in the old gallery, when there is a truthy one, else null. */
  function KeptId(gallery: seq<string>, galleryIds: seq<Option<string>>, url: string): Option<string>
  {
    var idx := IndexOfUrl(gallery, url);
    if idx != -1 && idx < |galleryIds| && Present(galleryIds[idx]) then galleryIds[idx] else None
  }

  function KeptIds(gallery: seq<string>, galleryIds: seq<Option<string>>, urls: seq<string>): (r: seq<Option<string>>)
    ensures |r| == |urls|
    ensures forall i :: 0 <= i < |urls| ==> r[i] == KeptId(gallery, galleryIds, urls[i])
  {
    seq(|urls|, i requires 0 <= i < |urls| => KeptId(gallery, galleryIds, urls[i]))
  }

  function UploadUrls(ups: seq<Upload>): (r: seq<string>)
    ensures |r| == |ups|
    ensures forall i :: 0 <= i < |ups| ==> r[i] == ups[i].url
  {
    seq(|ups|, i requires 0 <= i < |ups| => ups[i].url)
  }

  function UploadIds(ups: seq<Upload>): (r: seq<Option<string>>)
    ensures |r| == |ups|
    ensures forall i :: 0 <= i < |ups| ==> r[i] == Some(ups[i].fileId)
  {
    seq(|ups|, i requires 0 <= i < |ups| => Some(ups[i].fileId))
  }

  /** A kept URL only ever takes over a handle that was stored for that very
      URL in the old gallery, and it gets none exactly when the URL is not
      in the old gallery or the handle at its first position is missing or
      falsy. */
  lemma KeptIdFromOldGallery(gallery: seq<string>, galleryIds: seq<Option<string>>, url: string)
    ensures KeptId(gallery, galleryIds, url).Some? ==>
      && KeptId(gallery, galleryIds, url).value != ""
      && exists j :: 0 <= j < |gallery| && j < |galleryIds| && gallery[j] == url
                     && galleryIds[j] == KeptId(gallery, galleryIds, url)
    ensures KeptId(gallery, galleryIds, url).None? <==>
      || url !in gallery
      || IndexOfUrl(gallery, url) >= |galleryIds|
      || !Present(galleryIds[IndexOfUrl(gallery, url)])
  {
  }

  /** `finalGallery[0] || placeholder` */
  function MainImage(gallery: seq<string>): (r: string)
    ensures |gallery| > 0 && gallery[0] != "" ==> r == gallery[0]
    ensures |gallery| == 0 || gallery[0] == "" ==> r == Placeholder
  {
    if |gallery| > 0 && gallery[0] != "" then gallery[0] else Placeholder
  }

  /** `finalGalleryIds[0] || null` */
  function MainImageId(ids: seq<Option<string>>): (r: Option<string>)
    ensures r.Some? ==> |ids| > 0 && r == ids[0] && r.value != ""
    ensures r.None? ==> |ids| == 0 || !Present(ids[0])
  {
    if |ids| > 0 && Present(ids[0]) then ids[0] else None
  }

  /** `oldIds.filter(id => id && !finalIds.includes(id))` */
  function IdsToDelete(oldIds: seq<Option<string>>, finalIds: seq<Option<string>>): (r: seq<string>)
    ensures |r| <= |oldIds|
  {
    if |oldIds| == 0 then []
    else
      (if Present(oldIds[0]) && oldIds[0] !in finalIds then [oldIds[0].value] else [])
      + IdsToDelete(oldIds[1..], finalIds)
  }

  /** A handle is deleted exactly when it is truthy, was stored for the old
      gallery, and is not carried into the new one. */
  lemma {:induction false} IdsToDeleteExactly(oldIds: seq<Option<string>>, finalIds: seq<Option<string>>, x: string)
    ensures x in IdsToDelete(oldIds, finalIds) <==> x != "" && Some(x) in oldIds && Some(x) !in finalIds
  {
    if |oldIds| > 0 {
      IdsToDeleteExactly(oldIds[1..], finalIds, x);
      assert oldIds == [oldIds[0]] + oldIds[1..];
    }
  }

  /** The truthy handles, in order: what the delete route hands to the
      storage service (`if (!id) continue`). */
  function PresentIds(ids: seq<Option<string>>): (r: seq<string>)
    ensures |r| <= |ids|
  {
    if |ids| == 0 then []
    else (if Present(ids[0]) then [ids[0].value] else []) + PresentIds(ids[1..])
  }

  lemma {:induction false} PresentIdsExactly(ids: seq<Option<string>>, x: string)
    ensures x in PresentIds(ids) <==> x != "" && Some(x) in ids
  {
    if |ids| > 0 {
      PresentIdsExactly(ids[1..], x);
      assert ids == [ids[0]] + ids[1..];
    }
  }

  /** Walking the handles one more step adds that handle when it is
      truthy. */
  lemma {:induction false} PresentIdsSnoc(ids: seq<Option<string>>, x: Option<string>)
    ensures PresentIds(ids + [x]) == PresentIds(ids) + (if Present(x) then [x.value] else [])
  {
    if |ids| > 0 {
      assert (ids + [x])[1..] == ids[1..] + [x];
      PresentIdsSnoc(ids[1..], x);
    } else {
      assert ids + [x] == [x];
      assert [x][1..] == [];
    }
  }

  /** An update that keeps no image schedules every stored handle for
      deletion, just as deleting the product would. */
  lemma {:induction false} EmptyGalleryDeletesAll(oldIds: seq<Option<string>>)
    ensures IdsToDelete(oldIds, []) == PresentIds(oldIds)
  {
    if |oldIds| > 0 {
      EmptyGalleryDeletesAll(oldIds[1..]);
    }
  }

  /** With distinct URLs, an image found at position i keeps handle i. */
  lemma KeptIdAtOwnPosition(gallery: seq<string>, galleryIds: seq<Option<string>>, i: int)
    requires 0 <= i < |gallery| == |galleryIds|
    requires forall i, j :: 0 <= i < j < |gallery| ==> gallery[i] != gallery[j]
    requires Present(galleryIds[i])
    ensures KeptId(gallery, galleryIds, gallery[i]) == galleryIds[i]
  {
    var k := IndexOfUrl(gallery, gallery[i]);
    assert gallery[k] == gallery[i];
  }

  /** Resubmitting the whole old gallery, with no uploads, over a gallery of
      distinct URLs whose handles are all stored, keeps every handle at its
      position and deletes nothing. */
  lemma KeepAllKeepsIds(gallery: seq<string>, galleryIds: seq<Option<string>>)
    requires |galleryIds| == |gallery|
    requires forall i, j :: 0 <= i < j < |gallery| ==> gallery[i] != gallery[j]
    requires forall i :: 0 <= i < |galleryIds| ==> Present(galleryIds[i])
    ensures KeptIds(gallery, galleryIds, gallery) + UploadIds([]) == galleryIds
    ensures IdsToDelete(galleryIds, galleryIds) == []
  {
    forall i | 0 <= i < |gallery|
      ensures KeptId(gallery, galleryIds, gallery[i]) == galleryIds[i]
    {
      KeptIdAtOwnPosition(gallery, galleryIds, i);
    }
    assert UploadIds([]) == [];
    var kept := KeptIds(gallery, galleryIds, gallery);
    assert kept + [] == kept;
    assert kept == galleryIds;
    if IdsToDelete(galleryIds, galleryIds) != [] {
      var x := IdsToDelete(galleryIds, galleryIds)[0];
      IdsToDeleteExactly(galleryIds, galleryIds, x);
    }
  }
}

/**
  The asset library view: the size unit shown for each asset, the three
  per-type sections, the upload handlers that hand every chosen or
  dropped file to the store, and the drag payload of an asset card.
*/
module MediaAssets {
  import opened PageTypes
  import opened AssetList
  import opened Dnd
  import opened Page

  datatype SizeUnit = B | KB | MB

  /** The bytes in one of each unit. */
  function UnitBytes(u: SizeUnit): nat {
    match u
    case B => 1
    case KB => 1024
    case MB => 1024 * 1024
  }

  /** The unit `formatFileSize` picks (the `toFixed(1)` text itself is not modelled). */
  function FileSizeUnit(bytes: int): (u: SizeUnit)
    ensures u == B <==> bytes < 1024
    ensures u == KB <==> 1024 <= bytes < 1024 * 1024
    ensures u == MB <==> 1024 * 1024 <= bytes
  {
    if bytes < 1024 then B
    else if bytes < 1024 * 1024 then KB
    else MB
  }

  /**
    For a non-negative size the shown figure is at least one of the
    chosen unit (except for plain bytes) and below 1024 of it (except for
    megabytes, the largest unit); a larger file never gets a smaller unit.
  */
  lemma FileSizeUnitScale(bytes: int, larger: int)
    requires 0 <= bytes <= larger
    ensures var u := FileSizeUnit(bytes);
      && (u != B ==> UnitBytes(u) <= bytes)
      && (u != MB ==> bytes < 1024 * UnitBytes(u))
    ensures UnitBytes(FileSizeUnit(bytes)) <= UnitBytes(FileSizeUnit(larger))
  {
  }

  /** `assets.filter(a => a.type === t)` */
  function ByType(assets: seq<Asset>, t: AssetType): (r: seq<Asset>)
    ensures |r| <= |assets|
    ensures forall a :: a in r <==> a in assets && a.kind == t
  {
    if assets == [] then []
    else if assets[0].kind == t then [assets[0]] + ByType(assets[1..], t)
    else ByType(assets[1..], t)
  }

  /**
    The image, video and audio sections partition the library: their
    sizes add up to the library's and together they hold every asset
    exactly as often as the library does.
  */
  lemma {:induction false} SectionsPartition(assets: seq<Asset>)
    ensures |ByType(assets, Image)| + |ByType(assets, Video)| + |ByType(assets, Audio)| == |assets|
    ensures multiset(ByType(assets, Image)) + multiset(ByType(assets, Video)) + multiset(ByType(assets, Audio))
            == multiset(assets)
  {
    if assets != [] {
      SectionsPartition(assets[1..]);
      assert assets == [assets[0]] + assets[1..];
    }
  }

  /** Each section keeps library order: the filter distributes over concatenation. */
  lemma {:induction false} ByTypeConcat(a: seq<Asset>, b: seq<Asset>, t: AssetType)
    ensures ByType(a + b, t) == ByType(a, t) + ByType(b, t)
  {
    if a == [] {
      assert a + b == b;
    } else {
      assert (a + b)[1..] == a[1..] + b;
      ByTypeConcat(a[1..], b, t);
    }
  }

  /** `handleDragStart`: the card's id under the format the drop zone reads. */
  function DragStartPayload(dt: DataTransfer, assetId: string): DataTransfer {
    SetData(dt, AssetIdKey, assetId)
  }

  /**
    The id a scene's drop zone reads back is the dragged card's id, so a
    card of the library always resolves to an asset with that id.
  */
  lemma DragPayloadResolves(dt: DataTransfer, assets: seq<Asset>, k: nat)
    requires k < |assets|
    ensures GetData(DragStartPayload(dt, assets[k].id), AssetIdKey) == assets[k].id
    ensures var found := FindAsset(assets, GetData(DragStartPayload(dt, assets[k].id), AssetIdKey));
      found.Some? && found.value.id == assets[k].id
  {
    assert assets[k] in assets;
  }

  /** The records the store appends for the files, in list order. */
  function NewAssets(files: seq<FileInfo>, urls: seq<string>, ids: seq<string>): (r: seq<Asset>)
    requires |urls| == |files| && |ids| == |files|
    ensures |r| == |files|
    ensures forall i :: 0 <= i < |files| ==> r[i] == NewAsset(ids[i], files[i], urls[i])
  {
    seq(|files|, i requires 0 <= i < |files| => NewAsset(ids[i], files[i], urls[i]))
  }

  /**
    `handleFileChange` and `handleDrop`: `Array.from(files).forEach(onAddAsset)`,
    each file with the locator and id the caller supplies for it.
  */
  method DispatchFiles(editor: Editor, files: seq<FileInfo>, urls: seq<string>, ids: seq<string>)
    requires editor.Valid() && |urls| == |files| && |ids| == |files|
    modifies editor
    ensures editor.Valid()
    ensures editor.assets == old(editor.assets) + NewAssets(files, urls, ids)
    ensures editor.scenes == old(editor.scenes) && editor.selectedScene == old(editor.selectedScene)
    ensures editor.confirmAction == old(editor.confirmAction)
    ensures editor.showConfirmModal == old(editor.showConfirmModal)
  {
    var i := 0;
    while i < |files|
      invariant 0 <= i <= |files|
      invariant editor.Valid()
      invariant editor.assets == old(editor.assets) + NewAssets(files[..i], urls[..i], ids[..i])
      invariant editor.scenes == old(editor.scenes) && editor.selectedScene == old(editor.selectedScene)
      invariant editor.confirmAction == old(editor.confirmAction)
      invariant editor.showConfirmModal == old(editor.showConfirmModal)
    {
      editor.AddAsset(files[i], urls[i], ids[i]);
      assert NewAssets(files[..i + 1], urls[..i + 1], ids[..i + 1])
          == NewAssets(files[..i], urls[..i], ids[..i]) + [NewAsset(ids[i], files[i], urls[i])];
      i := i + 1;
    }
    assert files[..i] == files && urls[..i] == urls && ids[..i] == ids;
  }
}

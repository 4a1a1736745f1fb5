/**
  The asset library's list operations: the record `addAsset` builds from
  an uploaded file, its MIME-prefix kind inference, the id lookup the
  storyboard's drop uses, and the id filter of a confirmed delete.
*/
module AssetList {
  import opened PageTypes

  /**
    What the model keeps of a browser `File`: its name, its declared MIME
    type and its size in bytes.
  */
  datatype FileInfo = FileInfo(name: string, mimeType: string, size: int)

  /** `String.prototype.startsWith` */
  predicate StartsWith(s: string, prefix: string) {
    |prefix| <= |s| && s[..|prefix|] == prefix
  }

  /**
    `file.type.startsWith('image/') ? 'image' :
     file.type.startsWith('video/') ? 'video' : 'audio'`
  */
  function InferType(mimeType: string): (t: AssetType)
    ensures t == Image <==> StartsWith(mimeType, "image/")
    ensures t == Video <==> !StartsWith(mimeType, "image/") && StartsWith(mimeType, "video/")
    ensures t == Audio <==> !StartsWith(mimeType, "image/") && !StartsWith(mimeType, "video/")
  {
    if StartsWith(mimeType, "image/") then Image
    else if StartsWith(mimeType, "video/") then Video
    else Audio
  }

  /** The record `addAsset` appends; `url` is the locator allocated for the file. */
  function NewAsset(id: string, file: FileInfo, url: string): (a: Asset)
    ensures a.id == id && a.name == file.name && a.url == url && a.size == file.size
    ensures a.kind == InferType(file.mimeType)
    ensures a.thumbnail == Some(url) <==> a.kind == Image
    ensures a.thumbnail.None? <==> a.kind != Image
  {
    var kind := InferType(file.mimeType);
    Asset(id, kind, file.name, url, file.size, if kind == Image then Some(url) else None)
  }

  /** `[...assets, newAsset]` */
  function AppendAsset(assets: seq<Asset>, id: string, file: FileInfo, url: string): (r: seq<Asset>)
    ensures |r| == |assets| + 1 && r[..|assets|] == assets
    ensures r[|assets|] == NewAsset(id, file, url)
  {
    assets + [NewAsset(id, file, url)]
  }

  /** `assets.find(a => a.id === assetId)`: the first asset with that id. */
  function FindAsset(assets: seq<Asset>, id: string): (r: Option<Asset>)
    ensures r.None? <==> forall a :: a in assets ==> a.id != id
    ensures r.Some? ==> exists k :: 0 <= k < |assets| && assets[k] == r.value && r.value.id == id &&
                                      forall j :: 0 <= j < k ==> assets[j].id != id
  {
    if assets == [] then None
    else if assets[0].id == id then Some(assets[0])
    else
      var r := FindAsset(assets[1..], id);
      if r.Some? then
        var k :| 0 <= k < |assets[1..]| && assets[1..][k] == r.value && r.value.id == id &&
                 forall j :: 0 <= j < k ==> assets[1..][j].id != id;
        assert assets[k + 1] == r.value;
        r
      else
        r
  }

  /** `assets.filter(asset => asset.id !== id)` */
  function RemoveAssets(assets: seq<Asset>, id: string): (r: seq<Asset>)
    ensures |r| <= |assets|
    ensures forall a :: a in r <==> a in assets && a.id != id
  {
    if assets == [] then []
    else if assets[0].id != id then [assets[0]] + RemoveAssets(assets[1..], id)
    else RemoveAssets(assets[1..], id)
  }

  /** The filter keeps the survivors in library order: it distributes over concatenation. */
  lemma {:induction false} RemoveAssetsConcat(a: seq<Asset>, b: seq<Asset>, id: string)
    ensures RemoveAssets(a + b, id) == RemoveAssets(a, id) + RemoveAssets(b, id)
  {
    if a == [] {
      assert a + b == b;
    } else {
      assert (a + b)[1..] == a[1..] + b;
      RemoveAssetsConcat(a[1..], b, id);
    }
  }

  /** Deleting an id that no asset carries leaves the library as it was. */
  lemma {:induction false} RemoveUnknownAsset(assets: seq<Asset>, id: string)
    requires forall a :: a in assets ==> a.id != id
    ensures RemoveAssets(assets, id) == assets
  {
    if assets != [] {
      assert assets[0] in assets;
      assert forall a :: a in assets[1..] ==> a in assets;
      RemoveUnknownAsset(assets[1..], id);
    }
  }
}

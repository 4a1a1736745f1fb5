/**
  The storyboard's scene cards: live reordering while a card is dragged
  over the others, and binding a library asset to a scene by dropping it
  on the card's media zone.
*/
module Storyboard {
  import opened PageTypes
  import opened SceneList
  import opened AssetList
  import opened Dnd
  import opened Page

  /** The drag item `{ index }`; the hover handler re-points its index. */
  class DragItem {
    var index: nat

    constructor (index: nat)
      ensures this.index == index
    {
      this.index := index;
    }
  }

  /**
    One hover of the dragged card over the card at `hoverIndex`: the list
    and the tracked index afterwards. Equal indices do nothing; otherwise
    the scene moves to the hovered slot and the index follows it.
  */
  function HoverStep(s: seq<Scene>, dragIndex: nat, hoverIndex: nat): (r: (seq<Scene>, nat))
    requires dragIndex < |s| && hoverIndex < |s|
    ensures |r.0| == |s| && r.1 == hoverIndex
    ensures dragIndex == hoverIndex ==> r.0 == s
    ensures dragIndex != hoverIndex ==> r.0 == Moved(s, dragIndex, hoverIndex)
    ensures r.0[r.1] == s[dragIndex]
  {
    if dragIndex == hoverIndex then (s, dragIndex)
    else (Moved(s, dragIndex, hoverIndex), hoverIndex)
  }

  /** A hover rearranges the same scenes and keeps the total duration. */
  lemma HoverStepKeeps(s: seq<Scene>, dragIndex: nat, hoverIndex: nat)
    requires dragIndex < |s| && hoverIndex < |s|
    ensures multiset(HoverStep(s, dragIndex, hoverIndex).0) == multiset(s)
    ensures TotalDuration(HoverStep(s, dragIndex, hoverIndex).0) == TotalDuration(s)
  {
    if dragIndex != hoverIndex {
      MovedIsPermutation(s, dragIndex, hoverIndex);
      MovedKeepsTotal(s, dragIndex, hoverIndex);
    }
  }

  /** Every hover target is a card of the list. */
  ghost predicate InRange(hovers: seq<nat>, n: nat) {
    forall k :: 0 <= k < |hovers| ==> hovers[k] < n
  }

  /** The hovers after the first are still cards of the list. */
  lemma InRangeTail(hovers: seq<nat>, n: nat)
    requires hovers != [] && InRange(hovers, n)
    ensures InRange(hovers[1..], n)
  {
    forall k | 0 <= k < |hovers| - 1 ensures hovers[1..][k] < n {
      assert hovers[1..][k] == hovers[k + 1];
    }
  }

  /** A whole drag gesture: the hovers in the order they happen. */
  function Gesture(s: seq<Scene>, dragIndex: nat, hovers: seq<nat>): (r: (seq<Scene>, nat))
    requires dragIndex < |s| && InRange(hovers, |s|)
    ensures |r.0| == |s| && r.1 < |s|
    decreases |hovers|
  {
    if hovers == [] then (s, dragIndex)
    else
      var next := HoverStep(s, dragIndex, hovers[0]);
      Gesture(next.0, next.1, hovers[1..])
  }

  /** The tracked index ends at the last card hovered, or where it started without any. */
  lemma {:induction false} GestureTracksLastHover(s: seq<Scene>, dragIndex: nat, hovers: seq<nat>)
    requires dragIndex < |s| && InRange(hovers, |s|)
    ensures Gesture(s, dragIndex, hovers).1 == if hovers == [] then dragIndex else hovers[|hovers| - 1]
    decreases |hovers|
  {
    if hovers != [] {
      var next := HoverStep(s, dragIndex, hovers[0]);
      InRangeTail(hovers, |s|);
      GestureTracksLastHover(next.0, next.1, hovers[1..]);
      LastOfTail(hovers);
    }
  }

  /** A list of two or more ends where its tail ends. */
  lemma LastOfTail<T>(xs: seq<T>)
    requires xs != []
    ensures |xs| >= 2 ==> xs[1..][|xs| - 2] == xs[|xs| - 1]
    ensures |xs| == 1 ==> xs[|xs| - 1] == xs[0] && xs[1..] == []
  {
  }

  /**
    After any sequence of hovers the dragged scene sits at the tracked
    index, and the list is a permutation of the original with the same
    total duration.
  */
  lemma {:induction false} GestureKeepsDragged(s: seq<Scene>, dragIndex: nat, hovers: seq<nat>)
    requires dragIndex < |s| && InRange(hovers, |s|)
    ensures Gesture(s, dragIndex, hovers).0[Gesture(s, dragIndex, hovers).1] == s[dragIndex]
    ensures multiset(Gesture(s, dragIndex, hovers).0) == multiset(s)
    ensures TotalDuration(Gesture(s, dragIndex, hovers).0) == TotalDuration(s)
    decreases |hovers|
  {
    if hovers != [] {
      var next := HoverStep(s, dragIndex, hovers[0]);
      HoverStepKeeps(s, dragIndex, hovers[0]);
      InRangeTail(hovers, |s|);
      GestureKeepsDragged(next.0, next.1, hovers[1..]);
    }
  }

  /** The card's `hover` handler (the `ref.current` guard is not modelled). */
  method Hover(editor: Editor, item: DragItem, hoverIndex: nat)
    requires editor.Valid() && item.index < |editor.scenes| && hoverIndex < |editor.scenes|
    modifies editor, item
    ensures editor.Valid()
    ensures (editor.scenes, item.index) == HoverStep(old(editor.scenes), old(item.index), hoverIndex)
    ensures editor.assets == old(editor.assets) && editor.selectedScene == old(editor.selectedScene)
    ensures editor.confirmAction == old(editor.confirmAction)
    ensures editor.showConfirmModal == old(editor.showConfirmModal)
  {
    var dragIndex := item.index;
    if dragIndex == hoverIndex {
      return;
    }
    editor.MoveScene(dragIndex, hoverIndex);
    item.index := hoverIndex;
  }

  /**
    The update `handleMediaDrop` computes for a dropped asset id: none
    when no asset has that id; otherwise `media` for an image or a video
    and `voiceover` for audio, and never both.
  */
  function MediaDropPatch(assets: seq<Asset>, assetId: string): (p: Option<Patch>)
    ensures p.None? <==> forall a :: a in assets ==> a.id != assetId
    ensures p.Some? ==> p.value.script.None? && p.value.duration.None? && p.value.transition.None?
    ensures p.Some? ==> (p.value.media.Some? <==> p.value.voiceover.None?)
    ensures p.Some? ==>
      var a := FindAsset(assets, assetId).value;
      if a.kind == Audio then p.value.voiceover == Some(Some(Voiceover(a.url, a.name)))
      else p.value.media == Some(Some(Media(a.kind, a.url, a.name)))
  {
    match FindAsset(assets, assetId)
    case None => None
    case Some(a) =>
      if a.kind == Image || a.kind == Video then
        Some(Patch(None, None, None, Some(Some(Media(a.kind, a.url, a.name))), None))
      else
        Some(Patch(None, None, None, None, Some(Some(Voiceover(a.url, a.name)))))
  }

  /**
    The scene list after a drop of `assetId` on the card of scene
    `sceneId`. Only the binding slot the asset's kind selects changes, and
    only on the target scene: an image or video replaces `media` and keeps
    `voiceover`; audio replaces `voiceover` and keeps `media`; an unknown
    id changes nothing.
  */
  function DropOnScene(s: seq<Scene>, sceneId: string, assets: seq<Asset>, assetId: string): (r: seq<Scene>)
    ensures |r| == |s|
    ensures forall i :: 0 <= i < |s| ==>
      r[i].id == s[i].id && r[i].script == s[i].script &&
      r[i].duration == s[i].duration && r[i].transition == s[i].transition
    ensures forall i :: 0 <= i < |s| && s[i].id != sceneId ==> r[i] == s[i]
    ensures (forall a :: a in assets ==> a.id != assetId) ==> r == s
    ensures FindAsset(assets, assetId).Some? && FindAsset(assets, assetId).value.kind != Audio ==>
      var a := FindAsset(assets, assetId).value;
      forall i :: 0 <= i < |s| && s[i].id == sceneId ==>
        r[i].media == Some(Media(a.kind, a.url, a.name)) && r[i].voiceover == s[i].voiceover
    ensures FindAsset(assets, assetId).Some? && FindAsset(assets, assetId).value.kind == Audio ==>
      var a := FindAsset(assets, assetId).value;
      forall i :: 0 <= i < |s| && s[i].id == sceneId ==>
        r[i].voiceover == Some(Voiceover(a.url, a.name)) && r[i].media == s[i].media
  {
    match MediaDropPatch(assets, assetId)
    case None => s
    case Some(p) => UpdateScenes(s, sceneId, p)
  }

  /** The update behind the "Remove media" button. */
  const RemoveMediaPatch := Patch(None, None, None, Some(None), None)

  /** The update behind the "Remove voiceover" button. */
  const RemoveVoiceoverPatch := Patch(None, None, None, None, Some(None))

  /** "Remove media" clears that scene's `media` and nothing else. */
  lemma RemoveMediaOnly(s: seq<Scene>, sceneId: string)
    ensures var r := UpdateScenes(s, sceneId, RemoveMediaPatch);
      |r| == |s| &&
      forall i :: 0 <= i < |s| ==> r[i] == if s[i].id == sceneId then s[i].(media := None) else s[i]
  {
  }

  /** "Remove voiceover" clears that scene's `voiceover` and nothing else. */
  lemma RemoveVoiceoverOnly(s: seq<Scene>, sceneId: string)
    ensures var r := UpdateScenes(s, sceneId, RemoveVoiceoverPatch);
      |r| == |s| &&
      forall i :: 0 <= i < |s| ==> r[i] == if s[i].id == sceneId then s[i].(voiceover := None) else s[i]
  {
  }

  /** `handleMediaDrop` on the card of scene `sceneId`. */
  method HandleMediaDrop(editor: Editor, sceneId: string, payload: DataTransfer)
    requires editor.Valid()
    modifies editor
    ensures editor.Valid()
    ensures editor.scenes == DropOnScene(old(editor.scenes), sceneId, old(editor.assets), GetData(payload, AssetIdKey))
    ensures editor.assets == old(editor.assets) && editor.selectedScene == old(editor.selectedScene)
    ensures editor.confirmAction == old(editor.confirmAction)
    ensures editor.showConfirmModal == old(editor.showConfirmModal)
  {
    var assetId := GetData(payload, AssetIdKey);
    var p := MediaDropPatch(editor.assets, assetId);
    if p.Some? {
      editor.UpdateScene(sceneId, p.value);
    }
  }
}

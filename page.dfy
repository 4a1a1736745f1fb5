/**
  The editor's page-level store: the scene list, the asset library, the
  selected scene and the single confirmation slot, with the handlers
  that the page passes down to its components.
*/
module Page {
  import opened PageTypes
  import opened SceneList
  import opened AssetList

  /** What the pending dialog's confirm button does. */
  datatype ConfirmKind =
    | DismissNotice                   // "Cannot Delete": only closes the dialog
    | RemoveScene(sceneId: string)    // "Delete Scene"
    | RemoveAsset(assetId: string)    // "Delete Asset"
    | ResetProject                    // "New Project"

  /** `confirmAction`: a title, a message and the confirm behaviour. */
  datatype ConfirmAction = ConfirmAction(title: string, message: string, onConfirm: ConfirmKind)

  function CannotDeleteNotice(): ConfirmAction {
    ConfirmAction("Cannot Delete", "You must have at least one scene in your project.", DismissNotice)
  }

  function DeleteSceneRequest(id: string): ConfirmAction {
    ConfirmAction("Delete Scene",
      "Are you sure you want to delete this scene? This action cannot be undone.",
      RemoveScene(id))
  }

  function DeleteAssetRequest(id: string): ConfirmAction {
    ConfirmAction("Delete Asset",
      "Are you sure you want to delete this asset? It will be removed from all scenes using it.",
      RemoveAsset(id))
  }

  function NewProjectRequest(): ConfirmAction {
    ConfirmAction("New Project",
      "Creating a new project will discard all current work. Continue?",
      ResetProject)
  }

  /**
    The selection after a confirmed delete of `id`: when the deleted scene
    was selected, the first scene of the list as it was BEFORE the delete.
  */
  function SelectionAfterDelete(s: seq<Scene>, selected: string, id: string): (r: string)
    requires |s| >= 1
    ensures selected in Ids(s) ==> r in Ids(s)
    ensures selected != id ==> r == selected
    ensures r == id <==> selected == id && s[0].id == id
    ensures selected == id ==> r == s[0].id
    ensures selected == id && s[0].id != id ==>
              |RemoveScenes(s, id)| >= 1 && r == RemoveScenes(s, id)[0].id
  {
    if selected == id then s[0].id else selected
  }

  /**
    When the selection names a scene of a list of at least two scenes with
    distinct ids, it survives a delete exactly when it is not the case that
    the deleted scene was both selected and first: then the selection is
    left on the id that was just removed. A selection that already dangles
    keeps dangling after the delete of another scene.
  */
  lemma SelectionAfterDeleteExists(s: seq<Scene>, selected: string, id: string)
    requires UniqueIds(s) && |s| >= 2 && selected in Ids(s)
    ensures SelectionAfterDelete(s, selected, id) in Ids(RemoveScenes(s, id))
            <==> !(selected == id && s[0].id == id)
  {
    var r := RemoveScenes(s, id);
    var sel := SelectionAfterDelete(s, selected, id);
    if sel != id {
      var sc :| sc in s && sc.id == sel;
      assert sc in r;
    }
  }

  /** Moves the element at `from` to `to`, shifting the ones in between by one. */
  method MoveInPlace<T>(a: array<T>, from: nat, to: nat)
    requires from < a.Length && to < a.Length
    modifies a
    ensures a[..] == Moved(old(a[..]), from, to)
  {
    var x := a[from];
    if from < to {
      var i := from;
      while i < to
        invariant from <= i <= to
        invariant forall k :: 0 <= k < from ==> a[k] == old(a[k])
        invariant forall k :: from <= k < i ==> a[k] == old(a[k + 1])
        invariant forall k :: i <= k < a.Length ==> a[k] == old(a[k])
      {
        a[i] := a[i + 1];
        i := i + 1;
      }
      a[to] := x;
    } else if to < from {
      var i := from;
      while i > to
        invariant to <= i <= from
        invariant forall k :: 0 <= k <= i ==> a[k] == old(a[k])
        invariant forall k :: i < k <= from ==> a[k] == old(a[k - 1])
        invariant forall k :: from < k < a.Length ==> a[k] == old(a[k])
      {
        a[i] := a[i - 1];
        i := i - 1;
      }
      a[to] := x;
    }
    forall k | 0 <= k < a.Length ensures a[k] == Moved(old(a[..]), from, to)[k] {
      MovedAt(old(a[..]), from, to, k);
    }
  }

  /** Where every element of a moved list comes from. */
  lemma MovedAt<T>(s: seq<T>, from: nat, to: nat, k: nat)
    requires from < |s| && to < |s| && k < |s|
    ensures Moved(s, from, to)[k] ==
      if k == to then s[from]
      else if from < to && from <= k < to then s[k + 1]
      else if to < from && to < k <= from then s[k - 1]
      else s[k]
  {
    var r := Moved(s, from, to);
    if k < to {
      assert r[k] == Without(r, to)[k];
    } else if k > to {
      assert r[k] == Without(r, to)[k - 1];
    }
  }

  class Editor {
    var scenes: seq<Scene>
    var assets: seq<Asset>
    var selectedScene: string
    var confirmAction: Option<ConfirmAction>
    var showConfirmModal: bool

    /**
      The store's invariant: at least one scene, distinct scene ids, and a
      visible "Delete Scene" dialog only while two or more scenes exist.
    */
    ghost predicate Valid()
      reads this
    {
      && |scenes| >= 1
      && UniqueIds(scenes)
      && (showConfirmModal && confirmAction.Some? && confirmAction.value.onConfirm.RemoveScene?
          ==> |scenes| >= 2)
    }

    constructor ()
      ensures Valid()
      ensures scenes == InitialScenes() && assets == [] && selectedScene == FirstSceneId
      ensures confirmAction.None? && !showConfirmModal
    {
      scenes := InitialScenes();
      assets := [];
      selectedScene := FirstSceneId;
      confirmAction := None;
      showConfirmModal := false;
    }

    /** `addScene`, with the caller supplying the fresh id. */
    method AddScene(id: string)
      requires Valid() && id !in Ids(scenes)
      modifies this
      ensures Valid()
      ensures scenes == AppendScene(old(scenes), id) && selectedScene == id
      ensures assets == old(assets)
      ensures confirmAction == old(confirmAction) && showConfirmModal == old(showConfirmModal)
    {
      scenes := AppendScene(scenes, id);
      selectedScene := id;
    }

    /** `updateScene(id, updates)` */
    method UpdateScene(id: string, p: Patch)
      requires Valid()
      modifies this
      ensures Valid()
      ensures scenes == UpdateScenes(old(scenes), id, p)
      ensures assets == old(assets) && selectedScene == old(selectedScene)
      ensures confirmAction == old(confirmAction) && showConfirmModal == old(showConfirmModal)
    {
      UpdateKeepsIds(scenes, id, p);
      scenes := UpdateScenes(scenes, id, p);
    }

    /** `onSelectScene` */
    method SelectScene(id: string)
      requires Valid()
      modifies this
      ensures Valid()
      ensures selectedScene == id
      ensures scenes == old(scenes) && assets == old(assets)
      ensures confirmAction == old(confirmAction) && showConfirmModal == old(showConfirmModal)
    {
      selectedScene := id;
    }

    /**
      `deleteScene(id)`: only fills the confirmation slot. With a single
      scene the slot gets the "Cannot Delete" notice instead.
    */
    method DeleteScene(id: string)
      requires Valid()
      modifies this
      ensures Valid()
      ensures scenes == old(scenes) && assets == old(assets) && selectedScene == old(selectedScene)
      ensures showConfirmModal
      ensures confirmAction == Some(if |scenes| == 1 then CannotDeleteNotice() else DeleteSceneRequest(id))
    {
      if |scenes| == 1 {
        confirmAction := Some(CannotDeleteNotice());
        showConfirmModal := true;
        return;
      }
      confirmAction := Some(DeleteSceneRequest(id));
      showConfirmModal := true;
    }

    /** `moveScene(dragIndex, hoverIndex)` on a copy of the list, then stored. */
    method MoveScene(dragIndex: nat, hoverIndex: nat)
      requires Valid() && dragIndex < |scenes| && hoverIndex < |scenes|
      modifies this
      ensures Valid()
      ensures scenes == Moved(old(scenes), dragIndex, hoverIndex)
      ensures assets == old(assets) && selectedScene == old(selectedScene)
      ensures confirmAction == old(confirmAction) && showConfirmModal == old(showConfirmModal)
    {
      var s := scenes;
      var a := new Scene[|s|](i requires 0 <= i < |s| => s[i]);
      assert a[..] == s;
      MoveInPlace(a, dragIndex, hoverIndex);
      MovedKeepsUnique(s, dragIndex, hoverIndex);
      scenes := a[..];
    }

    /** `addAsset(file)`, with the locator and the id supplied by the caller. */
    method AddAsset(file: FileInfo, url: string, id: string)
      requires Valid()
      modifies this
      ensures Valid()
      ensures assets == AppendAsset(old(assets), id, file, url)
      ensures scenes == old(scenes) && selectedScene == old(selectedScene)
      ensures confirmAction == old(confirmAction) && showConfirmModal == old(showConfirmModal)
    {
      assets := AppendAsset(assets, id, file, url);
    }

    /** `deleteAsset(id)`: only fills the confirmation slot. */
    method DeleteAsset(id: string)
      requires Valid()
      modifies this
      ensures Valid()
      ensures scenes == old(scenes) && assets == old(assets) && selectedScene == old(selectedScene)
      ensures showConfirmModal && confirmAction == Some(DeleteAssetRequest(id))
    {
      confirmAction := Some(DeleteAssetRequest(id));
      showConfirmModal := true;
    }

    /** The header's "New Project": only fills the confirmation slot. */
    method NewProject()
      requires Valid()
      modifies this
      ensures Valid()
      ensures scenes == old(scenes) && assets == old(assets) && selectedScene == old(selectedScene)
      ensures showConfirmModal && confirmAction == Some(NewProjectRequest())
    {
      confirmAction := Some(NewProjectRequest());
      showConfirmModal := true;
    }

    /**
      The dialog's Cancel, close button and backdrop: hide the dialog and
      change nothing else (the record stays in the slot).
    */
    method Cancel()
      requires Valid()
      modifies this
      ensures Valid()
      ensures !showConfirmModal && confirmAction == old(confirmAction)
      ensures scenes == old(scenes) && assets == old(assets) && selectedScene == old(selectedScene)
    {
      showConfirmModal := false;
    }

    /**
      The dialog's Confirm: run the pending action on the current state,
      then hide the dialog. The dialog is rendered only while
      `showConfirmModal && confirmAction`, hence the precondition.
    */
    method Confirm()
      requires Valid() && showConfirmModal && confirmAction.Some?
      modifies this
      ensures Valid()
      ensures !showConfirmModal && confirmAction == old(confirmAction)
      ensures old(confirmAction.value.onConfirm).DismissNotice? ==>
        scenes == old(scenes) && assets == old(assets) && selectedScene == old(selectedScene)
      ensures old(confirmAction.value.onConfirm).RemoveScene? ==>
        var id := old(confirmAction.value.onConfirm).sceneId;
        && scenes == RemoveScenes(old(scenes), id)
        && selectedScene == SelectionAfterDelete(old(scenes), old(selectedScene), id)
        && assets == old(assets)
      ensures old(confirmAction.value.onConfirm).RemoveAsset? ==>
        && assets == RemoveAssets(old(assets), old(confirmAction.value.onConfirm).assetId)
        && scenes == old(scenes) && selectedScene == old(selectedScene)
      ensures old(confirmAction.value.onConfirm).ResetProject? ==>
        scenes == InitialScenes() && assets == [] && selectedScene == FirstSceneId
    {
      match confirmAction.value.onConfirm
      case DismissNotice =>
        showConfirmModal := false;
      case RemoveScene(id) =>
        RemoveLeavesOne(scenes, id);
        var before := scenes;
        scenes := RemoveScenes(scenes, id);
        if selectedScene == id {
          selectedScene := before[0].id;
        }
        showConfirmModal := false;
      case RemoveAsset(id) =>
        assets := RemoveAssets(assets, id);
        showConfirmModal := false;
      case ResetProject =>
        scenes := InitialScenes();
        assets := [];
        selectedScene := FirstSceneId;
        showConfirmModal := false;
    }
  }
}

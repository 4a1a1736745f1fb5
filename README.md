# Timeline editor state, modelled in Dafny

This project models the in-memory state of a browser-based video
storyboard editor and the rules that change it:

- the ordered **scene list** (script text, duration, transition, optional
  media and voiceover bindings) with its add, merge-update, delete and
  splice-move operations;
- the **asset library** (uploaded images, videos and audio) with kind
  inference from the MIME type and deletion;
- the single-slot **confirmation dialog** that guards scene deletion, asset
  deletion and "New Project";
- the storyboard's **live drag-reorder** (each hover moves the dragged
  scene and re-points the tracked index) and the **media drop** that binds
  an asset to a scene;
- the **export dialog**: a settings record edited one control at a time and
  a simulated progress counter advanced by a repeating timer;
- the script editor's and the asset view's **derived values**: current
  scene, scene number, total duration, the `parseInt(value) || 5` duration
  field, size units, per-type sections and the upload dispatch loop.

Modules, one per source file or concern:

| module | file | models |
|---|---|---|
| `PageTypes` | `page_types.dfy` | the `Scene`/`Asset` records and `Partial<Scene>` merge |
| `SceneList` | `scene_list.dfy` | the new scene lists the page's handlers compute |
| `AssetList` | `asset_list.dfy` | the new asset lists and the asset record built from a file |
| `Page` | `page.dfy` | the page's store as a class `Editor`, and the in-place splice |
| `Dnd` | `dnd.dfy` | the string payload of an HTML5 drag |
| `Storyboard` | `storyboard.dfy` | hover reorder tracking and the media drop |
| `ExportModal` | `export_modal.dfy` | settings, the progress state machine, the size estimate |
| `ScriptEditor` | `script_editor.dfy` | current scene, numbering, duration parsing, field edits |
| `MediaAssets` | `media_assets.dfy` | size units, type sections, upload dispatch, drag payload |

The page's state (`scenes`, `assets`, `selectedScene`, `confirmAction`,
`showConfirmModal`) is the class `Page.Editor`; each handler is a method
whose postcondition gives the whole new state. Its invariant `Valid()`
says the list is never empty and scene ids are distinct. It also says a
visible "Delete Scene" dialog implies at least two scenes. The export
dialog's state is the class `ExportModal.ExportDialog`; its methods are
tied to the pure state machine `Tick`/`Ticks`, about which the lemmas
are proved.

In these places the code behaves in ways a reader might not expect; the
model follows the code:

- Export completes on the 11th tick. The tick that finds the progress
  already at 100 completes the export, rather than the tick that reaches 100.
- After a confirmed delete of the selected scene, the selection becomes the
  first scene of the list as it was before the delete. When the deleted
  scene was first, the selection is left on an id no scene has (lemma
  `Page.SelectionAfterDeleteExists`).
- Durations are not limited to 1..60. Any nonzero parsed integer reaches the
  scene; only `NaN` and 0 fall back to 5.
- An audio asset dropped on a scene's media zone is bound as its voiceover;
  it is not ignored.
- Closing the export dialog does not stop the timer.
- The storyboard and the media library are on different tabs
  (app/page.tsx:180 and :190) and are never shown together. So dragging an
  asset card cannot reach a scene's media zone on the page as written. The
  media-drop handler (`Storyboard.HandleMediaDrop`) is modelled as the code
  defines it.

## Model

| member | source | states |
|---|---|---|
| `PageTypes.Merge` | app/page.tsx:61-65 | `{...scene, ...updates}`: each key present in the update replaces that field, every absent key keeps it, the id never changes |
| `SceneList.InitialScenes` | app/page.tsx:40-42 | the editor starts (and a new project restarts, page.tsx:151) with exactly one scene: id `'1'` with the same defaults `addScene` gives (empty script, 5 seconds, fade, no media, no voiceover) |
| `SceneList.AppendScene` | app/page.tsx:50-59 | `addScene` appends exactly one scene with `script=""`, `duration=5`, `transition=fade`, keeps the earlier scenes, and keeps ids distinct when the new id is fresh |
| `SceneList.UpdateScenes` | app/page.tsx:61-65 | `updateScene` keeps the length and every id, merges the update into every scene with the id, and leaves all others equal |
| `SceneList.UpdateUnknownId` | app/page.tsx:61-65 | an update addressed to an id no scene has leaves the list identical |
| `SceneList.UpdateKeepsIds` | app/page.tsx:61-65 | an update keeps the set of ids, so distinct ids stay distinct |
| `SceneList.UpdateAt` | app/page.tsx:61-65 | with distinct ids, updating the id at position k is a point update of that position |
| `SceneList.RemoveScenes` | app/page.tsx:82 | the delete filter keeps exactly the scenes whose id differs |
| `SceneList.RemoveUnknownId` | app/page.tsx:82 | deleting an id no scene has leaves the list identical |
| `SceneList.RemoveAt` | app/page.tsx:82 | with distinct ids, a confirmed delete removes exactly the one position and keeps the others in order |
| `SceneList.RemoveAtKeepsUnique` | app/page.tsx:82 | after removing one position the ids are still distinct |
| `SceneList.RemoveLeavesOne` | app/page.tsx:67-89 | a delete that passed the "more than one scene" test leaves at least one scene, and the ids stay distinct |
| `SceneList.Moved` | app/page.tsx:92-97 | `moveScene(from, to)` keeps the length, puts the old `scenes[from]` at `to`, and leaves the other scenes in their relative order |
| `SceneList.MovedIsPermutation` | app/page.tsx:92-97 | a move is a permutation (same multiset of scenes) |
| `SceneList.MovedSame` | app/page.tsx:92-97 | moving a scene onto its own index changes nothing |
| `SceneList.MovedKeepsTotal` | app/page.tsx:92-97 | a move leaves the sum of durations unchanged |
| `SceneList.MovedKeepsUnique` | app/page.tsx:92-97 | a move keeps scene ids distinct |
| `SceneList.TotalDuration` | app/components/ScriptEditor.tsx:43 | the left-to-right `reduce` of the durations equals their plain sum, defined independently from the first scene on |
| `AssetList.InferType` | app/page.tsx:101-102 | the kind is `image` iff the MIME type starts with `image/`, `video` iff it starts with `video/` and not `image/`, `audio` otherwise |
| `AssetList.NewAsset` | app/page.tsx:104-111 | the new asset carries the file's name and size, the given url and id, the inferred kind, and `thumbnail == url` exactly when the kind is image |
| `AssetList.AppendAsset` | app/page.tsx:113 | `addAsset` appends the new asset last and keeps the earlier ones |
| `AssetList.FindAsset` | app/components/Storyboard.tsx:55 | `find` returns nothing iff no asset has the id, and otherwise the first asset with it |
| `AssetList.RemoveAssets` | app/page.tsx:121 | a confirmed asset delete keeps exactly the assets whose id differs |
| `AssetList.RemoveAssetsConcat` | app/page.tsx:121 | the asset filter keeps library order |
| `AssetList.RemoveUnknownAsset` | app/page.tsx:121 | deleting an id no asset has leaves the library identical |
| `Page.SelectionAfterDelete` | app/page.tsx:83-85 | a selection other than the deleted id is kept; a selected deleted scene hands the selection to the first scene of the list as it was before the delete, which is the first remaining scene when the deleted one was not first; a selected scene of the list leads to a scene of the old list; the result is the deleted id exactly when the deleted scene was both selected and first |
| `Page.SelectionAfterDeleteExists` | app/page.tsx:83-85 | when the selection named a scene of the list (distinct ids, at least two scenes), after a confirmed delete it names a remaining scene iff the deleted scene was not both selected and first |
| `Page.MovedAt` | app/page.tsx:92-97 | after a move, the scenes between the two indices shift by one toward `from` and all others stay put |
| `Page.MoveInPlace` | app/page.tsx:93-95 | the splice-out/splice-in on the copied array leaves it equal to `Moved` of its old contents |
| `Page.Editor.constructor` | app/page.tsx:40-48 | one default scene `'1'`, no assets, selection `'1'`, empty confirmation slot, dialog hidden |
| `Page.Editor.AddScene` | app/page.tsx:50-59 | appends the default scene, selects its id, changes nothing else, keeps the invariant |
| `Page.Editor.UpdateScene` | app/page.tsx:61-65 | the list becomes `UpdateScenes` of the old one; nothing else changes |
| `Page.Editor.SelectScene` | app/components/ScriptEditor.tsx:78 | only the selection changes |
| `Page.Editor.DeleteScene` | app/page.tsx:67-90 | never removes anything; the slot gets "Cannot Delete" when one scene exists and "Delete Scene" otherwise, and the dialog is shown |
| `Page.Editor.MoveScene` | app/page.tsx:92-97 | the list becomes `Moved` of the old one; nothing else changes; the invariant holds |
| `Page.Editor.AddAsset` | app/page.tsx:99-114 | the library becomes `AppendAsset` of the old one; scenes and selection are untouched |
| `Page.Editor.DeleteAsset` | app/page.tsx:116-126 | overwrites the slot with "Delete Asset" and shows the dialog, mutating nothing else |
| `Page.Editor.NewProject` | app/page.tsx:146-158 | overwrites the slot with "New Project" and shows the dialog, mutating nothing else |
| `Page.Editor.Cancel` | app/page.tsx:212 | hides the dialog and changes nothing else |
| `Page.Editor.Confirm` | app/page.tsx:67-158 | runs the pending action: the notice only hides; scene delete filters and moves the selection to the pre-delete first id when it was selected; asset delete filters the library and leaves every scene; reset restores one default scene, no assets, selection `'1'` |
| `Storyboard.DragItem.constructor` | app/components/Storyboard.tsx:30 | the drag item starts at the dragged card's index |
| `Storyboard.HoverStep` | app/components/Storyboard.tsx:38-47 | equal indices leave the list as it is (line 43); otherwise the list becomes `Moved(dragIndex, hoverIndex)` (line 45); the tracked index becomes `hoverIndex` (line 46) and the dragged scene is found there |
| `Storyboard.HoverStepKeeps` | app/components/Storyboard.tsx:38-47 | one hover rearranges the same scenes (same multiset) and keeps the total duration |
| `Storyboard.Gesture` | app/components/Storyboard.tsx:38-47 | a gesture of several hovers keeps the list's length and the tracked index within it |
| `Storyboard.GestureTracksLastHover` | app/components/Storyboard.tsx:46 | after a gesture the tracked index is the last card hovered, or the starting index when there was no hover |
| `Storyboard.GestureKeepsDragged` | app/components/Storyboard.tsx:38-47 | after any sequence of hovers the dragged scene sits at the tracked index, the multiset of scenes and the total duration are unchanged |
| `Storyboard.Hover` | app/components/Storyboard.tsx:38-47 | equal indices do nothing; otherwise `onMoveScene(dragIndex, hoverIndex)` then `item.index := hoverIndex` |
| `Storyboard.MediaDropPatch` | app/components/Storyboard.tsx:52-73 | no update iff the asset id is unknown; otherwise only `media` (image/video) or only `voiceover` (audio) is written, never both, with the asset's url and name |
| `Storyboard.DropOnScene` | app/components/Storyboard.tsx:52-73 | a drop changes only the target scene's slot chosen by the asset's kind: image/video set `media` and keep `voiceover`, audio sets `voiceover` and keeps `media`; script, duration, transition and other scenes are kept; an unknown id changes nothing |
| `Storyboard.RemoveMediaOnly` | app/components/Storyboard.tsx:134 | "Remove media" clears that scene's `media` and nothing else |
| `Storyboard.RemoveVoiceoverOnly` | app/components/Storyboard.tsx:163 | "Remove voiceover" clears that scene's `voiceover` and nothing else |
| `Storyboard.HandleMediaDrop` | app/components/Storyboard.tsx:52-73 | reads `assetId` from the drop payload and applies the resolved update, if any, to that scene |
| `ExportModal.ApplyChange` | app/components/ExportModal.tsx:105-196 | each settings control's `{ ...settings, field: value }` replaces exactly its own field with the chosen value and keeps the other five |
| `ExportModal.Tick` | app/components/ExportModal.tsx:39-47 | on a consistent, armed state a tick keeps "never exporting and complete at once" and the other invariants, never lowers progress, never passes 100, and completes exactly when progress was already 100 |
| `ExportModal.Ticks` | app/components/ExportModal.tsx:38-48 | once the interval is cleared no tick changes anything; from a consistent state any number of ticks keeps it consistent and never lowers progress |
| `ExportModal.TicksBeforeCompletion` | app/components/ExportModal.tsx:33-47 | the k-th tick after the start, for k up to 10, shows 10k percent and is still exporting |
| `ExportModal.CompletesOnEleventhTick` | app/components/ExportModal.tsx:40-44 | the 11th tick completes the export at 100 and clears the interval; later ticks change nothing |
| `ExportModal.ProgressMonotone` | app/components/ExportModal.tsx:39-47 | from the start, progress never decreases, stays within 0..100, and every reached state is consistent |
| `ExportModal.SizeTenthsOfMB` | app/components/ExportModal.tsx:239 | the estimate is half a MB per second of the scenes' summed durations |
| `ExportModal.SizeOfTwoTenSecondScenes` | app/components/ExportModal.tsx:239 | two 10-second scenes give a 10.0 MB estimate |
| `ExportModal.ExportDialog.constructor` | app/components/ExportModal.tsx:20-31 | defaults 1080p, mp4, high, no watermark, empty text, no branding; idle at 0 |
| `ExportModal.ExportDialog.ChangeSetting` | app/components/ExportModal.tsx:105-196 | a control changes its field only when enabled (not exporting, not complete, and the text box only while the watermark is on) |
| `ExportModal.ExportDialog.PressExport` | app/components/ExportModal.tsx:256-259 | the export button starts exporting at 0 with the timer armed only when neither exporting nor complete |
| `ExportModal.ExportDialog.TimerTick` | app/components/ExportModal.tsx:38-48 | a timer firing applies `Tick` and keeps the state consistent |
| `ScriptEditor.CurrentScene` | app/components/ScriptEditor.tsx:27 | the current scene is absent iff no scene has the selected id, and otherwise a scene with that id |
| `ScriptEditor.FindIndex` | app/components/ScriptEditor.tsx:109 | -1 iff no scene has the id, otherwise the first index holding it |
| `ScriptEditor.CurrentSceneAtIndex` | app/components/ScriptEditor.tsx:109 | the current scene is the one at the first matching index, and its shown number is that index plus one, between 1 and the scene count |
| `ScriptEditor.ParseInt` | app/components/ScriptEditor.tsx:145 | `parseInt` gives `NaN` exactly when no digit follows the optional sign; a value after `-` is at most 0, any other value at least 0 |
| `ScriptEditor.ParseIntRender` | app/components/ScriptEditor.tsx:145 | the text of any integer, followed by a non-digit tail, parses back to that integer |
| `ScriptEditor.DurationInput` | app/components/ScriptEditor.tsx:145 | the stored duration is never 0: `NaN` and every parsed 0 give 5, a nonzero parsed integer passes through |
| `ScriptEditor.DecimalValue` | app/components/ScriptEditor.tsx:145 | reading the decimal digits of n gives back n |
| `ScriptEditor.DurationInputPassesThrough` | app/components/ScriptEditor.tsx:142-145 | any nonzero integer typed, negative or above 60 included, reaches the scene unchanged (JavaScript's rounding above 2^53 aside); a fraction or exponent after it is dropped |
| `ScriptEditor.DurationInputNoDigits` | app/components/ScriptEditor.tsx:145 | an empty field or text with no leading digit or sign gives 5 |
| `ScriptEditor.DurationInputZero` | app/components/ScriptEditor.tsx:145 | a typed 0 or -0 with any non-digit tail gives 5 |
| `ScriptEditor.EditsTouchOneField` | app/components/ScriptEditor.tsx:124-158 | with distinct ids, the script, duration and transition edits each replace one field of the current scene and nothing else |
| `ScriptEditor.EditScript` | app/components/ScriptEditor.tsx:124 | the script box sets `script` on every scene with the selected id and leaves all others; without a current scene nothing changes |
| `ScriptEditor.EditDuration` | app/components/ScriptEditor.tsx:145 | the duration field sets `duration` to `parseInt(value) \|\| 5` on every scene with the selected id and leaves all others |
| `ScriptEditor.EditTransition` | app/components/ScriptEditor.tsx:158 | the transition select sets `transition` on every scene with the selected id and leaves all others |
| `ScriptEditor.AssistPrompt` | app/components/ScriptEditor.tsx:29-34 | AI assist sends nothing iff there is no current scene, and otherwise the current scene's script |
| `ScriptEditor.SuggestionAfter` | app/components/ScriptEditor.tsx:33-40 | a failed call leaves the suggestion panel as it was; scene state is not an input or an output |
| `MediaAssets.FileSizeUnit` | app/components/MediaAssets.tsx:39-43 | "B" iff under 1024 bytes, "KB" iff under 1024*1024, "MB" otherwise |
| `MediaAssets.FileSizeUnitScale` | app/components/MediaAssets.tsx:39-43 | the shown figure is at least 1 of a KB/MB unit and below 1024 of a B/KB unit; larger files never get smaller units |
| `MediaAssets.ByType` | app/components/MediaAssets.tsx:62-64 | a section holds exactly the library's assets of its type |
| `MediaAssets.SectionsPartition` | app/components/MediaAssets.tsx:62-64 | the three sections partition the library: counts add up, multisets add up |
| `MediaAssets.ByTypeConcat` | app/components/MediaAssets.tsx:62-64 | each section keeps library order |
| `MediaAssets.DragPayloadResolves` | app/components/MediaAssets.tsx:58-60 | the drag puts exactly the card's id under `assetId`, which the drop handler reads back and resolves to an asset with that id |
| `MediaAssets.NewAssets` | app/components/MediaAssets.tsx:17-19 | one new asset per file, in list order |
| `MediaAssets.DispatchFiles` | app/components/MediaAssets.tsx:14-37 | each chosen or dropped file is handed to `addAsset` once, in list order, each call a transition on the current store; scenes and the dialog are untouched |

## Left out

- Rendering, styling and accessibility markup, and the header, sidebar and confirmation dialog components. The dialog's Cancel, close button and backdrop all call `onCancel`, and its Confirm calls `onConfirm`; these are `Editor.Cancel` and `Editor.Confirm`.
- Timer timing: the 300 ms period is not modelled; each firing is an explicit `TimerTick`. Closing the export dialog (close button or backdrop) during an export does not clear the interval in the code. The model treats closing as discarding the dialog object and claims nothing about the ticks that follow.
- Foreign calls: `URL.createObjectURL` is replaced by a url parameter, and no locator is ever revoked. `Date.now()` ids are replaced by caller-supplied ids; `AddScene` requires its id to be fresh. The code does not guarantee fresh ids.
- The random AI suggestion and the asynchronous service call are left out. Only what is sent (`AssistPrompt`) and the panel update (`SuggestionAfter`) are modelled.
- Float formatting: `toFixed(1)` output is not modelled. The size estimate is kept in tenths of a MB (`SizeTenthsOfMB`, total duration times 5), and file sizes only by the chosen unit.
- react-dnd and HTML5 drag internals, including the `ref.current` guard. A hover is modelled as `(dragIndex, hoverIndex)` and a drop as a payload map plus a scene id.
- React stale closures and batching: every handler is modelled as a transition on the current state. In the code, a multi-file upload calls `addAsset` once per file, but every call builds `[...assets, newAsset]` from the same captured `assets`. So only the last file of a multi-file upload stays in the library, while `MediaAssets.DispatchFiles` keeps them all.
- The delete confirmation filters the `scenes` captured when the dialog opened, and reads the `selectedScene` captured then (page.tsx:83). The model reads both when the dialog is confirmed.
- `ScriptEditor.DurationInputPassesThrough` and `ScriptEditor.ParseIntRender` do not hold above 2^53, because JavaScript numbers are modelled as unbounded `int` while `parseInt` of such an integer returns a rounded double.
- `ScriptEditor.ParseInt`: leading whitespace and the `0x` hexadecimal prefix that `parseInt` also accepts are not modelled, because a number field's value never holds them.
- `PageTypes.Patch` has no `id` field, although `Partial<Scene>` admits one, because no caller passes it.
- Asset deletion does not cascade into scenes, and no locator is released. This follows the code, whose dialog text says otherwise.
- `Page.Editor.MoveScene` requires both indices to be valid positions; out-of-range behaviour of `splice` is not modelled.
- `ExportModal.ExportDialog.PressExport` and `ChangeSetting` model a disabled or unrendered control as a click that does nothing. `handleExport` itself has no guard.

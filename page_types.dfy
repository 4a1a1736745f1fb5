/**
  The records of the timeline editor: scenes, the media and voiceover
  bindings they carry, library assets, and the partial update that
  `updateScene` merges into a scene.
*/
module PageTypes {

  datatype Option<T> = None | Some(value: T)

  /** `transition: 'fade' | 'slide' | 'none'` */
  datatype Transition = Fade | Slide | NoTransition

  /** `Asset.type: 'image' | 'video' | 'audio'` */
  datatype AssetType = Image | Video | Audio

  /** A scene's media slot only ever holds an image or a video. */
  type VisualType = t: AssetType | !t.Audio? witness Image

  /** The denormalised copy `{type, url, name}` a scene keeps of an asset. */
  datatype Media = Media(kind: VisualType, url: string, name: string)

  /** The denormalised copy `{url, name}` of an audio asset. */
  datatype Voiceover = Voiceover(url: string, name: string)

  /** One timeline unit; `media` and `voiceover` are the optional fields. */
  datatype Scene = Scene(
    id: string,
    script: string,
    duration: int,
    transition: Transition,
    media: Option<Media>,
    voiceover: Option<Voiceover>)

  /** A library entry; `thumbnail` is the optional field. */
  datatype Asset = Asset(
    id: string,
    kind: AssetType,
    name: string,
    url: string,
    size: int,
    thumbnail: Option<string>)

  /**
    `Partial<Scene>` as the callers build it: `None` means the key is
    absent from the update object. For `media` and `voiceover`, a key that
    is present with the value `undefined` is `Some(None)`.
  */
  datatype Patch = Patch(
    script: Option<string>,
    duration: Option<int>,
    transition: Option<Transition>,
    media: Option<Option<Media>>,
    voiceover: Option<Option<Voiceover>>)

  /** `{ ...scene, ...updates }`: a present key overrides, an absent one keeps. */
  function Merge(sc: Scene, p: Patch): (r: Scene)
    ensures r.id == sc.id
    ensures p.script.None? ==> r.script == sc.script
    ensures p.script.Some? ==> r.script == p.script.value
    ensures p.duration.None? ==> r.duration == sc.duration
    ensures p.duration.Some? ==> r.duration == p.duration.value
    ensures p.transition.None? ==> r.transition == sc.transition
    ensures p.transition.Some? ==> r.transition == p.transition.value
    ensures p.media.None? ==> r.media == sc.media
    ensures p.media.Some? ==> r.media == p.media.value
    ensures p.voiceover.None? ==> r.voiceover == sc.voiceover
    ensures p.voiceover.Some? ==> r.voiceover == p.voiceover.value
  {
    Scene(
      sc.id,
      if p.script.Some? then p.script.value else sc.script,
      if p.duration.Some? then p.duration.value else sc.duration,
      if p.transition.Some? then p.transition.value else sc.transition,
      if p.media.Some? then p.media.value else sc.media,
      if p.voiceover.Some? then p.voiceover.value else sc.voiceover)
  }
}

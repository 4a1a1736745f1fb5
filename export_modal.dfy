/**
  The export dialog: the settings record, edited one control at a time,
  and the simulated progress that a repeating timer advances by 10 per
  tick until the export is complete.
*/
module ExportModal {
  import opened PageTypes
  import opened SceneList

  datatype Resolution = R1080p | R720p | R480p
  datatype Format = Mp4 | Mov
  datatype Quality = High | Medium | Low

  datatype ExportSettings = ExportSettings(
    resolution: Resolution,
    format: Format,
    quality: Quality,
    includeWatermark: bool,
    watermarkText: string,
    brandingLogo: bool)

  /** The settings the dialog opens with. */
  function DefaultSettings(): ExportSettings {
    ExportSettings(R1080p, Mp4, High, false, "", false)
  }

  /** One settings control's `onChange`/`onClick`: `{ ...settings, field: value }`. */
  datatype SettingChange =
    | SetResolution(resolution: Resolution)
    | SetFormat(format: Format)
    | SetQuality(quality: Quality)
    | SetIncludeWatermark(watermark: bool)
    | SetWatermarkText(text: string)
    | SetBrandingLogo(branding: bool)

  /** Each change sets its own field to the chosen value and keeps all five others. */
  function ApplyChange(s: ExportSettings, c: SettingChange): (r: ExportSettings)
    ensures if c.SetResolution? then r.resolution == c.resolution else r.resolution == s.resolution
    ensures if c.SetFormat? then r.format == c.format else r.format == s.format
    ensures if c.SetQuality? then r.quality == c.quality else r.quality == s.quality
    ensures if c.SetIncludeWatermark? then r.includeWatermark == c.watermark else r.includeWatermark == s.includeWatermark
    ensures if c.SetWatermarkText? then r.watermarkText == c.text else r.watermarkText == s.watermarkText
    ensures if c.SetBrandingLogo? then r.brandingLogo == c.branding else r.brandingLogo == s.brandingLogo
  {
    match c
    case SetResolution(v) => s.(resolution := v)
    case SetFormat(v) => s.(format := v)
    case SetQuality(v) => s.(quality := v)
    case SetIncludeWatermark(v) => s.(includeWatermark := v)
    case SetWatermarkText(v) => s.(watermarkText := v)
    case SetBrandingLogo(v) => s.(brandingLogo := v)
  }

  /**
    `isExporting`, `exportProgress`, `exportComplete`, and whether the
    interval that drives the ticks is still registered.
  */
  datatype Progress = Progress(isExporting: bool, percent: int, complete: bool, timerArmed: bool)

  /** The three phases the dialog shows. */
  datatype Phase = Idle | Exporting | Complete

  function PhaseOf(p: Progress): Phase {
    if p.complete then Complete else if p.isExporting then Exporting else Idle
  }

  /** The state a freshly opened dialog starts in. */
  const Opened := Progress(false, 0, false, false)

  /** The state `handleExport` leaves: exporting from 0, with the interval armed. */
  const Started := Progress(true, 0, false, true)

  /** What every reachable state satisfies. */
  predicate Consistent(p: Progress) {
    && !(p.isExporting && p.complete)
    && 0 <= p.percent <= 100
    && p.percent % 10 == 0
    && (p.timerArmed <==> p.isExporting)
    && (p.complete ==> p.percent == 100)
  }

  /**
    The settings controls and the export button are usable only outside
    an export: they are disabled while exporting, and the settings panel
    and the button are replaced by the summary once complete.
  */
  predicate ControlsEnabled(p: Progress) {
    !p.isExporting && !p.complete
  }

  /** The watermark text box is rendered only while the watermark box is ticked. */
  predicate ControlAvailable(p: Progress, s: ExportSettings, c: SettingChange) {
    ControlsEnabled(p) && (c.SetWatermarkText? ==> s.includeWatermark)
  }

  /**
    The `setExportProgress(prev => ...)` updater run by one timer tick. On
    a consistent state with the timer armed it keeps the state consistent,
    never lowers the percentage, never passes 100, and completes the export
    exactly when the percentage was already 100.
  */
  function Tick(p: Progress): (r: Progress)
    ensures Consistent(p) && p.timerArmed ==>
      && Consistent(r)
      && p.percent <= r.percent <= 100
      && (r.complete <==> p.percent == 100)
  {
    if p.percent >= 100 then Progress(false, 100, true, false)
    else p.(percent := p.percent + 10)
  }

  /**
    `n` timer ticks; once the interval is cleared no tick arrives. From a
    consistent state, the state stays consistent and the percentage never
    goes down.
  */
  function Ticks(p: Progress, n: nat): (r: Progress)
    ensures !p.timerArmed ==> r == p
    ensures Consistent(p) ==> Consistent(r) && p.percent <= r.percent
    decreases n
  {
    if n == 0 || !p.timerArmed then p else Ticks(Tick(p), n - 1)
  }

  /** The first ten ticks after the start count 10, 20, ..., 100 and keep exporting. */
  lemma {:induction false} TicksBeforeCompletion(k: nat)
    requires k <= 10
    ensures Ticks(Started, k) == Progress(true, 10 * k, false, true)
  {
    if k > 0 {
      TicksBeforeCompletion(k - 1);
      TicksSplit(Started, k - 1, 1);
    }
  }

  /** Ticking `m` then `n` times is ticking `m + n` times. */
  lemma {:induction false} TicksSplit(p: Progress, m: nat, n: nat)
    ensures Ticks(p, m + n) == Ticks(Ticks(p, m), n)
    decreases m
  {
    if m > 0 && p.timerArmed {
      TicksSplit(Tick(p), m - 1, n);
    }
  }

  /**
    The eleventh tick completes the export and clears the interval; no
    later tick changes anything.
  */
  lemma CompletesOnEleventhTick(k: nat)
    requires k >= 11
    ensures Ticks(Started, 10).isExporting && !Ticks(Started, 10).complete
    ensures Ticks(Started, k) == Progress(false, 100, true, false)
    ensures PhaseOf(Ticks(Started, k)) == Complete
  {
    TicksBeforeCompletion(10);
    TicksSplit(Started, 10, k - 10);
    assert Ticks(Started, 10) == Progress(true, 100, false, true);
    assert Ticks(Progress(true, 100, false, true), k - 10)
        == Ticks(Progress(false, 100, true, false), k - 11);
  }

  /** Along any run of ticks from the start the percentage never decreases and stays within 0..100. */
  lemma ProgressMonotone(k: nat)
    ensures 0 <= Ticks(Started, k).percent <= Ticks(Started, k + 1).percent <= 100
    ensures Consistent(Ticks(Started, k))
  {
    if k < 10 {
      TicksBeforeCompletion(k);
      TicksBeforeCompletion(k + 1);
    } else if k == 10 {
      TicksBeforeCompletion(10);
      CompletesOnEleventhTick(11);
    } else {
      CompletesOnEleventhTick(k);
      CompletesOnEleventhTick(k + 1);
    }
  }

  /**
    The size shown on completion, `totalDuration * 0.5` MB, in tenths of a
    MB: half a megabyte per second of the scenes' summed durations.
  */
  function SizeTenthsOfMB(scenes: seq<Scene>): (r: int)
    ensures r == 5 * SumOfDurations(scenes)
  {
    TotalDuration(scenes) * 5
  }

  /** Two ten-second scenes give an estimate of 10.0 MB. */
  lemma SizeOfTwoTenSecondScenes(a: Scene, b: Scene)
    requires a.duration == 10 && b.duration == 10
    ensures SizeTenthsOfMB([a, b]) == 100
  {
    assert [a][..0] == [];
    assert TotalDuration([a]) == 10;
    assert [a, b][..1] == [a];
    assert TotalDuration([a, b]) == 20;
  }

  class ExportDialog {
    var settings: ExportSettings
    var isExporting: bool
    var exportProgress: int
    var exportComplete: bool
    var timerArmed: bool

    function State(): Progress
      reads this
    {
      Progress(isExporting, exportProgress, exportComplete, timerArmed)
    }

    ghost predicate Valid()
      reads this
    {
      Consistent(State())
    }

    /** Opening the dialog: default settings, idle, progress 0. */
    constructor ()
      ensures Valid()
      ensures settings == DefaultSettings() && State() == Opened && PhaseOf(State()) == Idle
    {
      settings := DefaultSettings();
      isExporting := false;
      exportProgress := 0;
      exportComplete := false;
      timerArmed := false;
    }

    /** A settings control is used; a disabled or hidden control does nothing. */
    method ChangeSetting(c: SettingChange)
      requires Valid()
      modifies this
      ensures Valid()
      ensures State() == old(State())
      ensures settings == if ControlAvailable(old(State()), old(settings), c)
                          then ApplyChange(old(settings), c) else old(settings)
    {
      if !isExporting && !exportComplete && (c.SetWatermarkText? ==> settings.includeWatermark) {
        settings := ApplyChange(settings, c);
      }
    }

    /** The "Export Video" button, which runs `handleExport` when enabled. */
    method PressExport()
      requires Valid()
      modifies this
      ensures Valid()
      ensures settings == old(settings)
      ensures State() == if ControlsEnabled(old(State())) then Started else old(State())
    {
      if !isExporting && !exportComplete {
        isExporting := true;
        exportProgress := 0;
        timerArmed := true;
      }
    }

    /** One firing of the interval registered by `handleExport`. */
    method TimerTick()
      requires Valid() && timerArmed
      modifies this
      ensures Valid()
      ensures settings == old(settings)
      ensures State() == Tick(old(State()))
    {
      if exportProgress >= 100 {
        timerArmed := false;
        isExporting := false;
        exportComplete := true;
        exportProgress := 100;
      } else {
        exportProgress := exportProgress + 10;
      }
    }
  }
}

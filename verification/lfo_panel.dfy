/** The LFO sub-panel: its timer tick, which decides whether the tempo-sync
    switch and the synced rate and phase controls are shown, the preset
    browser and the random table shuffle it registers. */
module LfoPanel {
  import opened Basics
  import WavetableView

  /** The LFO preview's shape: 129 bars spanning three wave cycles. */
  const PreviewBars: nat := 129
  const PreviewCycles: nat := 3

  /** Visibility of the controls the tick manages; the waveform and width
      controls are always visible and are not tracked. */
  datatype Controls = Controls(isSync: bool, rateFree: bool, rateSync: bool, phase: bool)

  datatype Panel = Panel(
    controls: Controls,
    isSync: int,               // cached sync bit; -1 until the first tick with a playhead
    view: WavetableView.View,  // the wavetable preview
    browserOpen: bool)         // whether the preset browser is shown

  /** A freshly constructed panel: the four managed controls hidden, no sync
      bit cached, the browser closed. */
  function Init(): (p: Panel)
    ensures p.controls == Controls(false, false, false, false)
    ensures p.isSync == -1 && Agrees(p.controls, p.isSync)
    ensures !p.browserOpen && p.view == WavetableView.Init()
  {
    Panel(Controls(false, false, false, false), -1, WavetableView.Init(), false)
  }

  /** The sync switch's state as the tick reads it: off below one half. */
  function SyncBit(v: real): (bit: int)
    ensures bit == 0 || bit == 1
    ensures bit == 0 <==> v < 0.5
  {
    if v < 0.5 then 0 else 1
  }

  /** The controls shown with a playhead once the sync bit is `bit`. */
  function ShowingFor(bit: int): Controls
  {
    Controls(true, bit == 0, bit == 1, bit == 1)
  }

  /** The controls shown without a playhead: only the free rate. */
  const FreeOnly: Controls := Controls(false, true, false, false)

  /** The rate and phase controls show what the cached bit says, or nothing
      has been cached yet. */
  ghost predicate Agrees(c: Controls, cache: int)
  {
    cache == -1 || (c.rateSync == (cache == 1) && c.phase == (cache == 1) && c.rateFree == (cache == 0))
  }

  /** The outcome of the sync part of one tick: the controls, the new cache
      and the gestured write to the sync parameter, if any. */
  datatype SyncResult = SyncResult(controls: Controls, isSync: int, write: Option<real>)

  /** The sync parameter's value after the tick's write, if it made one. */
  function ValueAfter(v: real, write: Option<real>): real
  {
    if write.Some? then write.value else v
  }

  /** The sync part of the tick exactly as the panel does it. Without a
      playhead the free rate is forced on, the switch is hidden and a sync
      value above one half is written back to 0; the cache is left alone.
      With a playhead the switch is shown and the rate and phase controls are
      switched only when the sync bit differs from the cache. */
  function SyncStepAsWritten(c: Controls, cache: int, hasPlayHead: bool, syncValue: real): (r: SyncResult)
    ensures !hasPlayHead ==> r.controls == FreeOnly && r.isSync == cache
    ensures !hasPlayHead ==> (r.write == Some(0.0) <==> syncValue > 0.5) && (r.write == None <==> syncValue <= 0.5)
    ensures !hasPlayHead ==> ValueAfter(syncValue, r.write) <= 0.5
    ensures hasPlayHead ==> r.write == None && r.controls.isSync
    ensures hasPlayHead && SyncBit(syncValue) != cache ==>
              r.isSync == SyncBit(syncValue) && r.controls == ShowingFor(SyncBit(syncValue))
    ensures hasPlayHead && SyncBit(syncValue) == cache ==> r.isSync == cache && r.controls == c.(isSync := true)
  {
    if hasPlayHead then
      var bit := SyncBit(syncValue);
      if cache != bit then
        if bit == 1 then SyncResult(Controls(true, false, true, true), bit, None)
        else SyncResult(Controls(true, true, false, false), bit, None)
      else SyncResult(c.(isSync := true), cache, None)
    else
      SyncResult(FreeOnly, cache, if syncValue > 0.5 then Some(0.0) else None)
  }

  /** The stale cache, shown on a concrete run: with the sync value at
      exactly one half the switch reads "on", nothing is written while the
      playhead is gone (the value is not above one half), and when the
      playhead returns the bit equals the untouched cache, so the free rate
      stays shown and the synced rate and phase stay hidden. */
  lemma StaleSyncCacheShowsWrongRate()
    ensures var r1 := SyncStepAsWritten(Init().controls, Init().isSync, true, 0.5);
            var r2 := SyncStepAsWritten(r1.controls, r1.isSync, false, 0.5);
            var r3 := SyncStepAsWritten(r2.controls, r2.isSync, true, 0.5);
            && r2.write == None
            && SyncBit(0.5) == 1
            && r3.controls.isSync && r3.controls.rateFree && !r3.controls.rateSync && !r3.controls.phase
            && !Agrees(r3.controls, r3.isSync)
  {
  }

  /** The stale cache without a value of one half: the switch is
      modulatable, so the sum read on the next tick can stay above one half
      although 0 was written. Here the sum stays at 0.8 throughout; the
      write happens, yet the tick after the playhead returns still shows
      the free rate while the switch reads "on". */
  lemma StaleSyncCacheWithModulatedSum()
    ensures var r1 := SyncStepAsWritten(Init().controls, Init().isSync, true, 0.8);
            var r2 := SyncStepAsWritten(r1.controls, r1.isSync, false, 0.8);
            var r3 := SyncStepAsWritten(r2.controls, r2.isSync, true, 0.8);
            && r2.write == Some(0.0)
            && SyncBit(0.8) == 1
            && r3.controls.isSync && r3.controls.rateFree && !r3.controls.rateSync && !r3.controls.phase
            && !Agrees(r3.controls, r3.isSync)
  {
  }

  /** The stale cache with a plain on/off switch: on with a playhead, the
      playhead goes away (0 is written), and the switch is set back on, by
      automation or a patch load, before the playhead returns. The tick
      after that still shows the free rate while the switch reads "on". */
  lemma StaleSyncCacheAfterSwitchReturns()
    ensures var r1 := SyncStepAsWritten(Init().controls, Init().isSync, true, 1.0);
            var r2 := SyncStepAsWritten(r1.controls, r1.isSync, false, 1.0);
            var r3 := SyncStepAsWritten(r2.controls, r2.isSync, true, 1.0);
            && r2.write == Some(0.0)
            && r3.controls.isSync && r3.controls.rateFree && !r3.controls.rateSync && !r3.controls.phase
            && !Agrees(r3.controls, r3.isSync)
  {
  }

  /** The sync part of the tick with the cache kept honest: when the
      playhead is missing the controls are forced to the free state, so the
      cache records the free state (0) as well. Everything else is as written. */
  function SyncStep(c: Controls, cache: int, hasPlayHead: bool, syncValue: real): (r: SyncResult)
    ensures !hasPlayHead ==> r.controls == FreeOnly && r.isSync == 0
    ensures !hasPlayHead ==> (r.write == Some(0.0) <==> syncValue > 0.5) && (r.write == None <==> syncValue <= 0.5)
    ensures !hasPlayHead ==> ValueAfter(syncValue, r.write) <= 0.5
    ensures hasPlayHead ==> r == SyncStepAsWritten(c, cache, hasPlayHead, syncValue)
  {
    if hasPlayHead then SyncStepAsWritten(c, cache, hasPlayHead, syncValue)
    else SyncResult(FreeOnly, 0, if syncValue > 0.5 then Some(0.0) else None)
  }

  /** The corrected step keeps the controls in agreement with the cache, and
      after any tick with a playhead they show what the sync value says. */
  lemma SyncStepAgrees(c: Controls, cache: int, hasPlayHead: bool, syncValue: real)
    ensures Agrees(c, cache) ==>
              Agrees(SyncStep(c, cache, hasPlayHead, syncValue).controls, SyncStep(c, cache, hasPlayHead, syncValue).isSync)
    ensures Agrees(c, cache) && hasPlayHead ==>
              var r := SyncStep(c, cache, hasPlayHead, syncValue);
              r.isSync == SyncBit(syncValue)
              && r.controls.rateSync == (syncValue >= 0.5)
              && r.controls.phase == (syncValue >= 0.5)
              && r.controls.rateFree == (syncValue < 0.5)
  {
  }

  /** One tick's inputs: whether the host offers a playhead, and the values
      of the sync and waveform parameters. */
  datatype TickInput = TickInput(hasPlayHead: bool, syncValue: real, waveformValue: real)

  /** The outcome of a tick: the panel, the gestured write to the sync
      parameter, and whether the preview asked to be repainted. */
  datatype Ticked = Ticked(panel: Panel, write: Option<real>, previewRepaint: bool)

  /** The panel's timer: the preview follows the waveform parameter, then
      the sync step decides the controls. */
  function Tick(p: Panel, i: TickInput): (r: Ticked)
    ensures r.panel.view.tablesPhase == i.waveformValue
    ensures r.previewRepaint <==> p.view.tablesPhase != i.waveformValue
    ensures r.panel.browserOpen == p.browserOpen
    ensures Agrees(p.controls, p.isSync) ==> Agrees(r.panel.controls, r.panel.isSync)
    ensures Agrees(p.controls, p.isSync) && i.hasPlayHead ==>
              r.panel.controls.isSync
              && r.panel.controls.rateSync == (i.syncValue >= 0.5)
              && r.panel.controls.rateFree == (i.syncValue < 0.5)
    ensures var sync := SyncStep(p.controls, p.isSync, i.hasPlayHead, i.syncValue);
            r.panel.controls == sync.controls && r.panel.isSync == sync.isSync && r.write == sync.write
    ensures !i.hasPlayHead ==>
              r.panel.controls == FreeOnly && r.panel.isSync == 0
              && (r.write == Some(0.0) <==> i.syncValue > 0.5) && (r.write == None <==> i.syncValue <= 0.5)
    ensures i.hasPlayHead ==> r.write == None
  {
    var updated := WavetableView.Update(p.view, i.waveformValue);
    var sync := SyncStep(p.controls, p.isSync, i.hasPlayHead, i.syncValue);
    SyncStepAgrees(p.controls, p.isSync, i.hasPlayHead, i.syncValue);
    Ticked(p.(controls := sync.controls, isSync := sync.isSync, view := updated.view), sync.write, updated.repaint)
  }

  function Run(p: Panel, ins: seq<TickInput>): Panel
    decreases |ins|
  {
    if ins == [] then p else Run(Tick(p, ins[0]).panel, ins[1..])
  }

  /** Whatever the host does to the playhead and the parameters, the rate
      and phase controls never disagree with the cached sync bit; so after
      every tick with a playhead they show what the sync value says. */
  lemma {:induction false} RunAgrees(p: Panel, ins: seq<TickInput>)
    requires Agrees(p.controls, p.isSync)
    ensures Agrees(Run(p, ins).controls, Run(p, ins).isSync)
    decreases |ins|
  {
    if ins != [] {
      RunAgrees(Tick(p, ins[0]).panel, ins[1..]);
    }
  }

  /** From construction on, every tick with a playhead leaves the synced
      rate and phase controls shown exactly when the sync value is at least
      one half, and the free rate exactly when it is below. */
  lemma TickWithPlayHeadShowsSyncValue(ins: seq<TickInput>, i: TickInput)
    requires i.hasPlayHead
    ensures var c := Tick(Run(Init(), ins), i).panel.controls;
            c.isSync && c.rateSync == (i.syncValue >= 0.5) && c.phase == (i.syncValue >= 0.5)
            && c.rateFree == (i.syncValue < 0.5)
  {
    var p := Run(Init(), ins);
    RunAgrees(Init(), ins);
    SyncStepAgrees(p.controls, p.isSync, i.hasPlayHead, i.syncValue);
  }

  /** The LFO's preview as it is instantiated: 129 bars over three cycles,
      each the bar for the negated sample at its wrapped phase. */
  method PaintPreview(tables: (real, real) -> real, tablesPhase: real, b: Rect)
    returns (bars: seq<WavetableView.Bar>)
    ensures |bars| == PreviewBars == 129
    ensures forall i :: 0 <= i < PreviewBars ==>
              bars[i] == WavetableView.BarFor(b, PreviewBars, i,
                           tables(tablesPhase, WavetableView.BarPhase(PreviewBars, PreviewCycles, i)) * -1.0)
    ensures forall i :: 0 <= i < PreviewBars ==> bars[i].h >= 0.0
  {
    bars := WavetableView.Paint(tables, tablesPhase, b, PreviewBars, PreviewCycles);
  }

  /** The regeneration presets for the LFO's wavetables. */
  datatype Preset = Weierstrasz | Triangles | Sinc

  /** The browser's entries, in the order they are listed. */
  const BrowserEntries: seq<Preset> := [Weierstrasz, Triangles, Sinc]

  /** The browser button: shows the preset browser when hidden, hides it otherwise. */
  function ToggleBrowser(p: Panel): (r: Panel)
    ensures r.browserOpen == !p.browserOpen
    ensures r.(browserOpen := p.browserOpen) == p
  {
    p.(browserOpen := !p.browserOpen)
  }

  /** Pressing the browser button twice leaves the panel as it was. */
  lemma ToggleBrowserTwice(p: Panel)
    ensures ToggleBrowser(ToggleBrowser(p)) == p
  {
  }

  /** Picking a browser entry: its preset is regenerated (the returned
      preset; the tables live outside the panel, and the preview repaints)
      and the browser closes. */
  function PickEntry(p: Panel, entry: nat): (r: (Panel, Preset))
    requires entry < |BrowserEntries|
    ensures !r.0.browserOpen
    ensures r.0.(browserOpen := p.browserOpen) == p
    ensures r.1 == BrowserEntries[entry]
  {
    (p.(browserOpen := false), BrowserEntries[entry])
  }

  /** Every preset can be reached from the browser, through exactly one entry. */
  lemma EveryPresetPickable(p: Panel, pr: Preset)
    ensures exists entry :: 0 <= entry < |BrowserEntries| && PickEntry(p, entry).1 == pr
    ensures forall e1, e2 :: 0 <= e1 < e2 < |BrowserEntries| ==> PickEntry(p, e1).1 != PickEntry(p, e2).1
  {
    match pr
    case Weierstrasz => assert PickEntry(p, 0).1 == pr;
    case Triangles => assert PickEntry(p, 1).1 == pr;
    case Sinc => assert PickEntry(p, 2).1 == pr;
  }

  /** The random table shuffle the LFO registers with the randomizer:
      `floor(u * 3)` picks Sinc, Triangles or Weierstrasz for a uniform
      `u` in [0, 1), each on a third of the range. */
  function ShufflePreset(u: real): (pr: Preset)
    requires 0.0 <= u < 1.0
    ensures pr == Sinc <==> u < 1.0 / 3.0
    ensures pr == Triangles <==> 1.0 / 3.0 <= u < 2.0 / 3.0
    ensures pr == Weierstrasz <==> 2.0 / 3.0 <= u
  {
    var v := (u * 3.0).Floor;
    if v == 0 then Sinc
    else if v == 1 then Triangles
    else Weierstrasz
  }
}

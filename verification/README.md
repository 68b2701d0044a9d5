# Modulator slot panel of the NEL-19 vibrato plugin, as pure transitions

This project models the logic inside the modulation panel of the NEL-19
vibrato plugin (`Source/dsp/ModsGUI.h`) and proves properties of it in
Dafny. The panel shows, per modulator slot, one of seven modulator
sub-panels (Perlin noise, audio-rate oscillator, dropout, envelope
follower, macro, pitch bend, LFO), a selector popup to switch between them,
and a randomizer that rolls the active sub-panel's parameters. Under the
widget code it holds a few small state machines, modelled here as pure
functions over immutable datatypes:

- `ModSlot` — one slot (`ModComp`): `setMod`/`updateMod`, the selector
  button, the selector's buttons, the slot timer with the mix-depth mirror,
  the notification handler, and an invariant over every run of events.
- `SubPanels` — the parameter arrays of the seven sub-panels and what each
  `activate` registers with the randomizer.
- `LfoPanel` — the LFO sub-panel's timer (tempo-sync visibility), its
  preset browser and its random table shuffle.
- `Adsr` — the audio-rate modulator's envelope preview: the change gate and
  the path.
- `WavetableView` — the wavetable preview: the repaint gate, the phase wrap
  and the bar geometry of its paint routine.
- `ModTypes`, `Basics` — the modulator kinds, parameter identifiers,
  randomizer entries, and float geometry as reals.

Visibility of the seven sub-panels is a `set<Kind>` (one flag per panel).
Parameter reads (the engine's current type, the mix and sync parameters,
the playhead query) are inputs of the transitions; gestured writes,
repaint requests, the kill-popups broadcast and the `onModChange` calls
are outputs or logged fields. The wavetable lookup is a function parameter.

Behaviour of the code that is easy to misread, and that the model keeps:

- The slot's notification handler reacts only to "patch updated"; a
  kill-popups notification does not close the slot's own selector.
- Without a playhead the LFO writes 0 to the sync parameter only when its
  value is above one half, not whenever it is non-zero.
- `setMod` with the sentinel `NumMods` hides every sub-panel, clears the
  randomizer and the input label, but leaves the modulator label as it was.
- Clicking the button of the already active kind in the selector returns
  early from `setMod`, so the popup stays open.

## Model

| member | source | states |
|---|---|---|
| `SubPanels.PanelPids` | Source/dsp/ModsGUI.h:71-498 | each sub-panel's parameter array, in declaration order; every parameter belongs to that kind and none repeats |
| `SubPanels.AddParams` | Source/dsp/ModsGUI.h:93-96 | the registration loop appends each parameter of this slot in array order after the entries already held, keeping those |
| `SubPanels.Registered` | Source/dsp/ModsGUI.h:827-860 | the entries held while a kind is active: Perlin 3, AudioRate 9, Dropout 5, EnvFol 4, Macro 1, LFO 6 parameters then the table shuffle, Pitchwheel and the sentinel none; all belong to the active kind and slot; the shuffle is there iff the LFO is active |
| `SubPanels.Activate` | Source/dsp/ModsGUI.h:93-538 | the six `activate` operations (Perlin 93-98, AudioRate 255-260, Dropout 324-329, EnvFol 377-382, Macro 426-431, LFO 521-538) each append exactly the registered entries of their panel (for the LFO: its six parameters and then the table-shuffle action) |
| `ModSlot.Init` | Source/dsp/ModsGUI.h:755-811 | a new slot holds the sentinel type, shows no sub-panel, registers nothing, has the selector closed, an empty change log, depth 0 and the given offset, and satisfies the slot invariant |
| `ModSlot.HideSteps` | Source/dsp/ModsGUI.h:817-823 | each `setVisible(false)` step shows a subset of what was visible before, and a hidden panel stays hidden in every later step |
| `ModSlot.HidingAllLeavesNone` | Source/dsp/ModsGUI.h:817-823 | after hiding the seven panels in order none is visible |
| `ModSlot.HidingNeverAddsPanels` | Source/dsp/ModsGUI.h:817-823 | no step of the hiding shows more panels than were visible before it |
| `ModSlot.ResetEndsHiding` | Source/dsp/ModsGUI.h:816-825 | the visibility the reset leaves is the state after its last `setVisible(false)` call |
| `ModSlot.Reset` | Source/dsp/ModsGUI.h:816-825 | after storing the new type, hiding all panels and clearing the randomizer, nothing is visible or registered |
| `ModSlot.Switch` | Source/dsp/ModsGUI.h:827-860 | the switch adds exactly the panel of the type to the visible set and exactly its registered entries to the randomizer, touching nothing but labels otherwise |
| `ModSlot.SetMod` | Source/dsp/ModsGUI.h:813-867 | same type: nothing changes and onModChange is not called; otherwise exactly the new type's panel is visible (none for the sentinel), the randomizer holds exactly its entries, the selector is closed, onModChange is called once with the type, the input label is "midi in >>" for AudioRate and Pitchwheel, "audio in >>" for EnvFol and empty otherwise, and the label names the kind (unchanged for the sentinel) |
| `ModSlot.SetModIdempotent` | Source/dsp/ModsGUI.h:813-815 | a repeated `setMod` with the same type changes nothing and logs no second callback |
| `ModSlot.SwitchNeverShowsTwo` | Source/dsp/ModsGUI.h:817-860 | if at most one panel was visible, no state a switch passes through shows two |
| `ModSlot.SwitchPassesThroughNone` | Source/dsp/ModsGUI.h:817-860 | a changing switch passes through a state with no panel visible right before the new type's panel appears |
| `ModSlot.ToggleSelector` | Source/dsp/ModsGUI.h:778-791 | the selector button flips the popup flag, broadcasting kill-popups exactly when it opens, and changes nothing else |
| `ModSlot.ToggleSelectorTwice` | Source/dsp/ModsGUI.h:778-791 | two presses of the selector button restore the slot, and exactly one of them broadcasts kill-popups |
| `ModSlot.Choose` | Source/dsp/ModsGUI.h:659-695 | a selector button sets its kind; the popup closes unless the kind was already active; a changed slot shows only that kind |
| `ModSlot.MixDepth` | Source/dsp/ModsGUI.h:943-945 | the first slot mirrors the complement of the mix value, the second slot the value itself |
| `ModSlot.MixDepthCrossfade` | Source/dsp/ModsGUI.h:943-945 | for one mix value the two slots' depths add up to one, and a mix value in [0, 1] keeps both depths in [0, 1] |
| `ModSlot.Tick` | Source/dsp/ModsGUI.h:939-951 | the slot timer re-synchronises with the engine's type and stores the mirrored depth, repainting exactly when the depth changed |
| `ModSlot.TickSettles` | Source/dsp/ModsGUI.h:939-951 | a second tick with the same inputs changes nothing and does not repaint |
| `ModSlot.Notify` | Source/dsp/ModsGUI.h:733-745 | a patch update runs the full `setMod` with the engine's type (panel, randomizer, closed selector, one change callback), any other notification changes nothing, and no notification is consumed |
| `ModSlot.StepKeepsConsistent` | Source/dsp/ModsGUI.h:813-867 | every event keeps the visible panel and the registered entries following the current type |
| `ModSlot.RunKeepsConsistent` | Source/dsp/ModsGUI.h:813-867 | over any sequence of events the invariant holds and at most one sub-panel is visible |
| `ModSlot.ReachableSlotsConsistent` | Source/dsp/ModsGUI.h:755-867 | every slot reachable from construction shows at most one panel, the one of its type, and registers exactly that type's entries |
| `LfoPanel.Init` | Source/dsp/ModsGUI.h:499-519 | a new LFO panel hides the four managed controls, caches no sync bit (-1), keeps the browser hidden and its preview at table phase 0 |
| `LfoPanel.SyncBit` | Source/dsp/ModsGUI.h:582 | the sync bit is 0 exactly when the value is below one half, and 1 otherwise |
| `LfoPanel.SyncStepAsWritten` | Source/dsp/ModsGUI.h:578-609 | without a playhead: switch, synced rate and phase hidden, free rate shown, cache kept, a write of 0 exactly when the value read is above one half, so the value it leaves written is at most one half; with a playhead: switch shown, no write; if the bit differs from the cache the cache takes it and synced rate and phase are shown iff it is 1, the free rate iff 0; otherwise the controls are untouched |
| `LfoPanel.StaleSyncCacheShowsWrongRate` | Source/dsp/ModsGUI.h:600-609 | with the sync value at exactly one half, playhead present, absent, present again: no write happens and the last tick shows the free rate while the switch reads on |
| `LfoPanel.StaleSyncCacheWithModulatedSum` | Source/dsp/ModsGUI.h:578-609 | with a value sum of 0.8 that survives the write of 0, playhead present, absent, present again: the write happens and the last tick still shows the free rate while the switch reads on |
| `LfoPanel.StaleSyncCacheAfterSwitchReturns` | Source/dsp/ModsGUI.h:578-609 | with a plain switch at 1: playhead present, absent (0 written), the switch set back on before the playhead returns: the last tick shows the free rate while the switch reads on |
| `LfoPanel.SyncStep` | Source/dsp/ModsGUI.h:600-609 | the corrected step: as written, except that without a playhead the cache records the free state it forces |
| `LfoPanel.SyncStepAgrees` | Source/dsp/ModsGUI.h:578-609 | the corrected step keeps the controls agreeing with the cache, and after a tick with a playhead they show what the sync value says |
| `LfoPanel.Tick` | Source/dsp/ModsGUI.h:574-610 | the LFO timer stores the waveform value in the preview, repainting iff it changed, and then takes its controls, cache and gestured write from the corrected sync step: without a playhead only the free rate, cache 0, and a write of 0 exactly when the value is above one half; with a playhead no write; agreement is kept |
| `LfoPanel.RunAgrees` | Source/dsp/ModsGUI.h:574-610 | for the corrected tick (not the code as written, see Findings): over any sequence of ticks the controls keep agreeing with the cached bit |
| `LfoPanel.TickWithPlayHeadShowsSyncValue` | Source/dsp/ModsGUI.h:578-598 | for the corrected tick (not the code as written, see Findings): from construction on, every tick with a playhead shows the switch, the synced rate and phase iff the value is at least one half, and the free rate iff it is below |
| `LfoPanel.PaintPreview` | Source/dsp/ModsGUI.h:480 | the LFO's preview paints 129 bars over three wave cycles, each the bar for the negated sample at its wrapped phase, none with negative height |
| `LfoPanel.ToggleBrowser` | Source/dsp/ModsGUI.h:509-512 | the browser button flips the browser's visibility and nothing else |
| `LfoPanel.ToggleBrowserTwice` | Source/dsp/ModsGUI.h:509-512 | two presses of the browser button restore the panel |
| `LfoPanel.PickEntry` | Source/dsp/ModsGUI.h:617-646 | picking an entry regenerates that entry's preset and hides the browser |
| `LfoPanel.EveryPresetPickable` | Source/dsp/ModsGUI.h:617-646 | each of the three presets is reached through exactly one browser entry |
| `LfoPanel.ShufflePreset` | Source/dsp/ModsGUI.h:525-535 | the random shuffle picks Sinc on the first third of [0, 1), Triangles on the second, Weierstrasz on the last |
| `WavetableView.Init` | Source/dsp/ModsGUI.h:17-21 | a new preview holds table phase 0 |
| `WavetableView.FirstUpdateRepaints` | Source/dsp/ModsGUI.h:17-29 | the first `update` repaints exactly when its phase is not 0 |
| `WavetableView.Update` | Source/dsp/ModsGUI.h:22-29 | `update(p)` stores `p` and repaints exactly when `p` differs from the stored phase; without a repaint nothing changes |
| `WavetableView.UpdateIdempotent` | Source/dsp/ModsGUI.h:22-29 | a repeated `update` with the same phase is a no-op |
| `WavetableView.Frac` | Source/dsp/ModsGUI.h:49-51 | the reference for the wrap: a value in [0, 1) that differs from its argument by an integer |
| `WavetableView.WrapPhase` | Source/dsp/ModsGUI.h:49-51 | the subtract-one loop yields the fractional part of a non-negative phase, in [0, 1), and leaves a phase below one alone |
| `WavetableView.CyclesBefore` | Source/dsp/ModsGUI.h:45-49 | the unwrapped phase of a bar is non-negative |
| `WavetableView.BarPhase` | Source/dsp/ModsGUI.h:45-51 | the wrapped phase each bar samples lies in [0, 1) |
| `WavetableView.BarFor` | Source/dsp/ModsGUI.h:57-63 | a bar spans between the middle line and the scaled sample, whichever lies higher, so its height is non-negative and its top is at most the middle line |
| `WavetableView.Paint` | Source/dsp/ModsGUI.h:40-65 | `paint` draws `numRects` bars, each the bar for the negated table sample at the stored table phase and its wrapped phase, with non-negative height |
| `Adsr.Init` | Source/dsp/ModsGUI.h:132-145 | a new preview caches a negative value for each of the four envelope values and holds an empty path |
| `Adsr.FirstUpdateRebuilds` | Source/dsp/ModsGUI.h:141-160 | because the cache starts at -1, the first unforced read of a non-negative attack rebuilds the path |
| `Adsr.BuildPath` | Source/dsp/ModsGUI.h:161-207 | the path has four corners from bottom-left to bottom-right; with a non-zero attack+decay+release the attack peak sits on the top edge at x0 + w*a/(a+d+r) and the decay ends at that plus w*d/(a+d+r) on the sustain level bottom - h*s; otherwise a flat line at the sustain level spans the full width |
| `Adsr.PathShape` | Source/dsp/ModsGUI.h:174-196 | for non-negative values with a positive sum and a sustain in [0, 1], the corners run left to right inside the bounds, the sustain level lies inside them, and the release takes exactly w*r/(a+d+r) of the width |
| `Adsr.FlatPath` | Source/dsp/ModsGUI.h:197-202 | with zero attack, decay and release the sustain line is horizontal, h*s above the bottom, across the full width |
| `Adsr.Update` | Source/dsp/ModsGUI.h:146-160 | the path is rebuilt iff forced or one of the four values differs from the cache; afterwards the cache holds the values; without a rebuild nothing changes |
| `Adsr.UpdateSettles` | Source/dsp/ModsGUI.h:146-160 | an unforced update with the values just cached does not rebuild |

## Findings

| source | as written | input that shows it | evidently intended | confidence | as-written member | corrected member |
|---|---|---|---|---|---|---|
| Source/dsp/ModsGUI.h:600-609 | without a playhead the LFO tick forces the free-rate controls but keeps the cached sync bit | sync value exactly 0.5 over three ticks: playhead present (bit 1, synced controls shown), absent (free rate shown, no write because 0.5 is not above one half), present again (bit 1 equals the stale cache, controls untouched: free rate shown while the switch reads on) | the cache records the free state the branch forces, so the next tick with a playhead re-evaluates the controls | not executed; needs only that the sync switch's value sum is at least one half when the playhead returns, however it got there: exactly one half (no write), a modulated sum the write of 0 does not bring down, or a plain 0/1 switch set back on by automation or a patch load while the playhead was away | `LfoPanel.StaleSyncCacheShowsWrongRate`, `LfoPanel.StaleSyncCacheWithModulatedSum`, `LfoPanel.StaleSyncCacheAfterSwitchReturns` | `LfoPanel.SyncStep` |

## Left out

- LfoPanel.SyncStepAsWritten: the sync switch is read as a value sum (its value plus modulation) but written as a plain value; the model takes each tick's sum as an input and does not promise that the sum read on the next tick is the 0 written, so "at most one half afterwards" is about the written value only.
- LfoPanel.SyncStep: the same gap as for the as-written step; the written value is at most one half, the next tick's value sum is an unconstrained input.
- All `paint` and `resized` layout, `nelG::Layout` placement, colours, fonts, the shared theme state and `visualizeGroup`: presentation in a toolkit outside this model. The envelope and bar geometry take their bounds as an input.
- The component tree, the timer rates (4, 8 and 24 Hz) and the mouse-event passthroughs: event-loop plumbing; each tick is one call of a step function.
- The 100 ms sleep in the patch-update handler: timing and threading; the handler is modelled as "patch updated: re-synchronise, consume nothing".
- The `std::sin` window and the colour interpolation of the wavetable preview: floating-point presentation.
- Wavetable generation (Sinc, Triangles, Weierstrasz) and the 3-D wavetable lookup: defined in files that are not part of this model; the lookup is a function parameter and a regeneration is an output naming the preset.
- `randomizeAll` and the randomizer's internals: defined outside this file; the randomizer is the sequence of entries registered with it.
- `addButtonsToRandomizer`: it appends the LFO's sync switch to a randomizer owned by the caller, which this model does not hold.
- The repaint calls on the labels and on the preview after a browser pick, and the selector's placement when it opens: presentation.
- IEEE float semantics (NaN comparisons, rounding of `1/max` and of `nextFloat() * 3`): floats are reals.
- The order of the modulator kinds: the enumeration is declared in `Modulator.h`, which is not part of this model; the order of the selector buttons is used.

/** One modulator slot of the panel: which modulator it shows, which
    sub-panel is visible, what its randomizer holds, its two labels, the
    selector popup, the log of change callbacks and the mirrored mix depth.
    Every handler is a pure transition on `Slot`. */
module ModSlot {
  import opened ModTypes
  import opened SubPanels

  datatype Slot = Slot(
    modType: ModType,         // the modulator currently shown
    visible: set<Kind>,       // the sub-panels currently visible
    randomizer: seq<Entry>,   // entries registered with the slot's randomizer
    modLabel: string,         // the modulator's name
    inputLabel: string,       // the hint naming the modulator's input
    selectorOpen: bool,       // whether the selector popup exists
    modChanges: seq<ModType>, // the arguments of every onModChange call so far
    modDepth: real,           // the mirrored mix depth the border colour follows
    mOff: int)                // the slot's parameter offset

  /** A freshly constructed slot: no modulator chosen yet, every sub-panel
      hidden, nothing registered. */
  function Init(mOff: int): (s: Slot)
    ensures Consistent(s) && s.visible == {}
    ensures s.modType == NumMods && s.randomizer == [] && !s.selectorOpen
    ensures s.modChanges == [] && s.modDepth == 0.0 && s.mOff == mOff
  {
    Slot(NumMods, {}, [], "", "", false, [], 0.0, mOff)
  }

  /** The sub-panels that should be visible while `t` is the modulator. */
  function PanelsFor(t: ModType): set<Kind>
  {
    if t == NumMods then {} else {t}
  }

  /** The invariant the slot keeps between events: the visible sub-panel and
      the randomizer's content both follow the current modulator. */
  ghost predicate Consistent(s: Slot)
  {
    s.visible == PanelsFor(s.modType) && s.randomizer == Registered(s.modType, s.mOff)
  }

  /** The visibility after each `setVisible(false)` call when hiding the
      panels `ps` in turn, starting from `vis`. */
  function HideSteps(vis: set<Kind>, ps: seq<Kind>): (tr: seq<set<Kind>>)
    ensures |tr| == |ps|
    ensures forall i :: 0 <= i < |tr| ==> tr[i] <= vis
    ensures forall i, j :: 0 <= j <= i < |tr| ==> ps[j] !in tr[i]
    decreases |ps|
  {
    if ps == [] then []
    else
      var v := vis - {ps[0]};
      var rest := HideSteps(v, ps[1..]);
      [v] + rest
  }

  /** The first half of a switch: the new type is stored, every sub-panel
      is hidden, the randomizer is cleared and the input label emptied.
      The states the hiding passes through are `HideSteps`; `ResetEndsHiding`
      shows the visibility kept here is the last of them. */
  function Reset(s: Slot, t: ModType): (r: Slot)
    ensures r.visible == {} && r.randomizer == [] && r.modType == t
    ensures r.(modType := s.modType, visible := s.visible, randomizer := s.randomizer, inputLabel := s.inputLabel) == s
  {
    s.(modType := t, visible := {}, randomizer := [], inputLabel := "")
  }

  /** The second half of a switch: the `switch (t)` that activates the one
      sub-panel of `t` and names it. The sentinel matches no case. */
  function Switch(s: Slot, t: ModType): (r: Slot)
    ensures r.visible == s.visible + PanelsFor(t)
    ensures r.randomizer == s.randomizer + Registered(t, s.mOff)
    ensures r.(visible := s.visible, randomizer := s.randomizer, modLabel := s.modLabel, inputLabel := s.inputLabel) == s
  {
    match t
    case Perlin =>
      s.(visible := s.visible + {Perlin}, randomizer := Activate(s.randomizer, Perlin, s.mOff),
         modLabel := "Perlin")
    case AudioRate =>
      s.(visible := s.visible + {AudioRate}, randomizer := Activate(s.randomizer, AudioRate, s.mOff),
         modLabel := "AudioRate", inputLabel := "midi in >>")
    case Dropout =>
      s.(visible := s.visible + {Dropout}, randomizer := Activate(s.randomizer, Dropout, s.mOff),
         modLabel := "Dropout")
    case EnvFol =>
      s.(visible := s.visible + {EnvFol}, randomizer := Activate(s.randomizer, EnvFol, s.mOff),
         modLabel := "Envelope\nFollower", inputLabel := "audio in >>")
    case Macro =>
      s.(visible := s.visible + {Macro}, randomizer := Activate(s.randomizer, Macro, s.mOff),
         modLabel := "Macro")
    case Pitchwheel =>
      s.(visible := s.visible + {Pitchwheel}, modLabel := "Pitchbend", inputLabel := "midi in >>")
    case LFO =>
      s.(visible := s.visible + {LFO}, randomizer := Activate(s.randomizer, LFO, s.mOff),
         modLabel := "LFO")
    case NumMods => s
  }

  /** `setMod(t)`: nothing happens when `t` is already the modulator;
      otherwise the slot hides everything, activates exactly the panel of
      `t`, closes the selector and reports `t` once through onModChange. */
  function SetMod(s: Slot, t: ModType): (r: Slot)
    ensures s.modType == t ==> r == s
    ensures s.modType != t ==>
              && r.modType == t
              && r.visible == PanelsFor(t)
              && r.randomizer == Registered(t, s.mOff)
              && !r.selectorOpen
              && r.modChanges == s.modChanges + [t]
              && r.modDepth == s.modDepth
              && r.mOff == s.mOff
    ensures s.modType != t ==>
              r.inputLabel == (if t == AudioRate || t == Pitchwheel then "midi in >>"
                               else if t == EnvFol then "audio in >>"
                               else "")
    ensures s.modType != t ==>
              r.modLabel == (match t
                          case Perlin => "Perlin"
                          case AudioRate => "AudioRate"
                          case Dropout => "Dropout"
                          case EnvFol => "Envelope\nFollower"
                          case Macro => "Macro"
                          case Pitchwheel => "Pitchbend"
                          case LFO => "LFO"
                          case NumMods => s.modLabel)
    ensures Consistent(r) || r == s
  {
    if s.modType == t then s
    else
      var shown := Switch(Reset(s, t), t);
      shown.(selectorOpen := false, modChanges := s.modChanges + [t])
  }

  /** Calling `setMod` again with the same type changes nothing. */
  lemma SetModIdempotent(s: Slot, t: ModType)
    ensures SetMod(SetMod(s, t), t) == SetMod(s, t)
    ensures |SetMod(SetMod(s, t), t).modChanges| == |s.modChanges| + (if s.modType == t then 0 else 1)
  {
  }

  /** The visibility states a `setMod(t)` call passes through: one per
      hidden panel, then the one after the switch; none when it returns early. */
  function SetModTrace(s: Slot, t: ModType): seq<set<Kind>>
  {
    if s.modType == t then [] else HideSteps(s.visible, PanelOrder) + [SetMod(s, t).visible]
  }

  lemma SubsetCard(a: set<Kind>, b: set<Kind>)
    requires a <= b
    ensures |a| <= |b|
  {
    assert b == a + (b - a);
  }

  /** Hiding the seven panels in order leaves none visible. */
  lemma HidingAllLeavesNone(vis: set<Kind>)
    ensures HideSteps(vis, PanelOrder)[|PanelOrder| - 1] == {}
  {
  }

  /** The visibility `Reset` leaves is the state after the last of its
      `setVisible(false)` calls. */
  lemma ResetEndsHiding(s: Slot, t: ModType)
    ensures Reset(s, t).visible == HideSteps(s.visible, PanelOrder)[|PanelOrder| - 1]
  {
    HidingAllLeavesNone(s.visible);
  }

  /** While panels are hidden one by one, no state shows more panels than
      the one before hiding began. */
  lemma HidingNeverAddsPanels(vis: set<Kind>, ps: seq<Kind>)
    ensures forall i :: 0 <= i < |HideSteps(vis, ps)| ==> |HideSteps(vis, ps)[i]| <= |vis|
  {
    var steps := HideSteps(vis, ps);
    forall i | 0 <= i < |steps|
      ensures |steps[i]| <= |vis|
    {
      SubsetCard(steps[i], vis);
    }
  }

  /** Switching never shows two sub-panels at once. */
  lemma {:induction false} SwitchNeverShowsTwo(s: Slot, t: ModType)
    requires |s.visible| <= 1
    ensures forall i :: 0 <= i < |SetModTrace(s, t)| ==> |SetModTrace(s, t)[i]| <= 1
  {
    if s.modType != t {
      var steps := HideSteps(s.visible, PanelOrder);
      assert SetModTrace(s, t) == steps + [PanelsFor(t)];
      HidingNeverAddsPanels(s.visible, PanelOrder);
    }
  }

  /** A switch passes through a state in which no sub-panel is visible,
      right before the new one appears. */
  lemma {:induction false} SwitchPassesThroughNone(s: Slot, t: ModType)
    requires s.modType != t
    ensures |SetModTrace(s, t)| == |PanelOrder| + 1
    ensures SetModTrace(s, t)[|PanelOrder| - 1] == {}
    ensures SetModTrace(s, t)[|PanelOrder|] == PanelsFor(t)
  {
    var steps := HideSteps(s.visible, PanelOrder);
    var tr := SetModTrace(s, t);
    assert SetMod(s, t).visible == PanelsFor(t);
    assert tr == steps + [PanelsFor(t)];
    HidingAllLeavesNone(s.visible);
    assert tr[|PanelOrder| - 1] == steps[|PanelOrder| - 1];
  }

  /** The result of the selector button's click handler: the slot and
      whether a kill-popups notification was broadcast. */
  datatype Toggled = Toggled(slot: Slot, killPopUp: bool)

  /** The selector button: opens the selector popup (asking every other
      popup to close) when none is open, and closes it otherwise. */
  function ToggleSelector(s: Slot): (r: Toggled)
    ensures r.slot.selectorOpen == !s.selectorOpen
    ensures r.killPopUp <==> !s.selectorOpen
    ensures r.slot.(selectorOpen := s.selectorOpen) == s
  {
    if !s.selectorOpen then Toggled(s.(selectorOpen := true), true)
    else Toggled(s.(selectorOpen := false), false)
  }

  /** Pressing the selector button twice leaves the slot as it was, and
      only the opening press broadcasts kill-popups. */
  lemma ToggleSelectorTwice(s: Slot)
    ensures ToggleSelector(ToggleSelector(s).slot).slot == s
    ensures ToggleSelector(s).killPopUp != ToggleSelector(ToggleSelector(s).slot).killPopUp
  {
  }

  /** Clicking one of the selector's buttons: `setMod` with that button's
      kind. The popup closes, unless the kind is already the current one,
      in which case `setMod` returns early and the popup stays open. */
  function Choose(s: Slot, k: Kind): (r: Slot)
    requires s.selectorOpen
    ensures r.selectorOpen <==> s.modType == k
    ensures r.modType == k
    ensures s.modType != k ==> r.visible == {k}
  {
    SetMod(s, k)
  }

  /** The depth the border colour follows: the mix parameter's value for
      the second slot, its complement for the first. */
  function MixDepth(mOff: int, valSum: real): (d: real)
    ensures mOff == 0 ==> d + valSum == 1.0
    ensures mOff != 0 ==> d == valSum
  {
    if mOff == 0 then 1.0 - valSum else valSum
  }

  /** The two slots' borders crossfade: their depths for the same mix value
      add up to one, and a mix value in [0, 1] gives a depth in [0, 1]. */
  lemma MixDepthCrossfade(mOff: int, v: real)
    requires mOff != 0
    ensures MixDepth(0, v) + MixDepth(mOff, v) == 1.0
    ensures 0.0 <= v <= 1.0 ==> 0.0 <= MixDepth(0, v) <= 1.0 && 0.0 <= MixDepth(mOff, v) <= 1.0
  {
  }

  /** The result of a timer tick: the slot and whether it asked to be repainted. */
  datatype Ticked = Ticked(slot: Slot, repaint: bool)

  /** The slot's timer: re-synchronises with the engine's current type,
      then mirrors the mix parameter, repainting only when the depth changed. */
  function Tick(s: Slot, current: ModType, mixValue: real): (r: Ticked)
    ensures r.slot.modDepth == MixDepth(s.mOff, mixValue)
    ensures r.repaint <==> s.modDepth != MixDepth(s.mOff, mixValue)
    ensures r.slot.(modDepth := s.modDepth) == SetMod(s, current)
  {
    var synced := SetMod(s, current);
    var v := MixDepth(s.mOff, mixValue);
    if synced.modDepth != v then Ticked(synced.(modDepth := v), true)
    else Ticked(synced, false)
  }

  /** A second tick with the same inputs changes nothing and does not repaint. */
  lemma TickSettles(s: Slot, current: ModType, mixValue: real)
    ensures Tick(Tick(s, current, mixValue).slot, current, mixValue)
            == Ticked(Tick(s, current, mixValue).slot, false)
  {
    var t1 := Tick(s, current, mixValue);
    SetModIdempotent(s, current);
    assert t1.slot.modType == current;
  }

  /** The notifications the slot can receive. */
  datatype Notification = PatchUpdated | KillPopUp | OtherNotification

  /** The result of the notification handler: the slot and whether the
      handler consumed the notification. */
  datatype Notified = Notified(slot: Slot, consumed: bool)

  /** The slot's notification handler: a patch update re-synchronises with
      the engine's current type (`updateMod`); nothing is ever consumed. */
  function Notify(s: Slot, n: Notification, current: ModType): (r: Notified)
    ensures !r.consumed
    ensures n == PatchUpdated ==> r.slot.modType == current && r.slot == SetMod(s, current)
    ensures n != PatchUpdated ==> r.slot == s
  {
    if n == PatchUpdated then Notified(SetMod(s, current), false)
    else Notified(s, false)
  }

  /** Everything that can happen to a slot: the selector button, a button
      of the open selector, the slot's timer, a notification. */
  datatype Event =
    | SelectorButton
    | SelectorChoice(kind: Kind)
    | TimerTick(current: ModType, mixValue: real)
    | Notice(n: Notification, current: ModType)

  function Step(s: Slot, e: Event): Slot
  {
    match e
    case SelectorButton => ToggleSelector(s).slot
    case SelectorChoice(k) => if s.selectorOpen then Choose(s, k) else s
    case TimerTick(c, m) => Tick(s, c, m).slot
    case Notice(n, c) => Notify(s, n, c).slot
  }

  function Run(s: Slot, es: seq<Event>): Slot
    decreases |es|
  {
    if es == [] then s else Run(Step(s, es[0]), es[1..])
  }

  lemma StepKeepsConsistent(s: Slot, e: Event)
    requires Consistent(s)
    ensures Consistent(Step(s, e))
  {
  }

  /** From construction on, whatever happens, the visible sub-panel and the
      registered entries follow the current modulator, so at most one
      sub-panel is ever visible between events. */
  lemma {:induction false} RunKeepsConsistent(s: Slot, es: seq<Event>)
    requires Consistent(s)
    ensures Consistent(Run(s, es))
    ensures |Run(s, es).visible| <= 1
    decreases |es|
  {
    if es != [] {
      StepKeepsConsistent(s, es[0]);
      RunKeepsConsistent(Step(s, es[0]), es[1..]);
    }
  }

  lemma ReachableSlotsConsistent(mOff: int, es: seq<Event>)
    ensures Consistent(Run(Init(mOff), es))
    ensures |Run(Init(mOff), es).visible| <= 1
  {
    RunKeepsConsistent(Init(mOff), es);
  }
}

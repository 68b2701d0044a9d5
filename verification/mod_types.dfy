/** The modulator kinds a slot can show, and the parameters each kind exposes. */
module ModTypes {

  /** The modulator kinds, in declaration order, followed by the sentinel
      `NumMods` that a slot holds before its first switch. */
  datatype ModType = Perlin | AudioRate | Dropout | EnvFol | Macro | Pitchwheel | LFO | NumMods

  /** The seven real kinds: every kind that owns a sub-panel. */
  type Kind = t: ModType | t != NumMods witness Perlin

  /** The sub-panels in the order the slot hides them. */
  const PanelOrder: seq<Kind> := [Perlin, AudioRate, Dropout, EnvFol, Macro, Pitchwheel, LFO]

  /** Parameter identifiers of the first modulator slot; the second slot uses
      the same identifiers shifted by its offset. */
  datatype Pid =
    | Perlin0FreqHz | Perlin0Octaves | Perlin0Width
    | AudioRate0Oct | AudioRate0Semi | AudioRate0Fine | AudioRate0Width | AudioRate0RetuneSpeed
    | AudioRate0Atk | AudioRate0Dcy | AudioRate0Sus | AudioRate0Rls
    | Dropout0Decay | Dropout0Spin | Dropout0Chance | Dropout0Smooth | Dropout0Width
    | EnvFol0Attack | EnvFol0Release | EnvFol0Gain | EnvFol0Width
    | Macro0
    | Pitchbend0Smooth
    | LFO0FreeSync | LFO0RateFree | LFO0RateSync | LFO0Waveform | LFO0Phase | LFO0Width

  /** A parameter of a particular slot: `withOffset(pid, mOff)`. */
  datatype ParamRef = ParamRef(pid: Pid, offset: int)

  /** What a randomizer can hold: a parameter to roll, or the LFO's action
      that regenerates its wavetables from a random preset. */
  datatype Entry = ParamEntry(param: ParamRef) | TableShuffle

  /** The kind whose sub-panel declares the parameter. */
  function Owner(pid: Pid): Kind
  {
    match pid
    case Perlin0FreqHz | Perlin0Octaves | Perlin0Width => Perlin
    case AudioRate0Oct | AudioRate0Semi | AudioRate0Fine | AudioRate0Width | AudioRate0RetuneSpeed
       | AudioRate0Atk | AudioRate0Dcy | AudioRate0Sus | AudioRate0Rls => AudioRate
    case Dropout0Decay | Dropout0Spin | Dropout0Chance | Dropout0Smooth | Dropout0Width => Dropout
    case EnvFol0Attack | EnvFol0Release | EnvFol0Gain | EnvFol0Width => EnvFol
    case Macro0 => Macro
    case Pitchbend0Smooth => Pitchwheel
    case LFO0FreeSync | LFO0RateFree | LFO0RateSync | LFO0Waveform | LFO0Phase | LFO0Width => LFO
  }
}

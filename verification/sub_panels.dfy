/** The seven modulator sub-panels: the parameters each declares and what
    its `activate` registers with the slot's randomizer. */
module SubPanels {
  import opened ModTypes

  /** The parameters a sub-panel declares, in the order of its parameter array. */
  function PanelPids(k: Kind): (ps: seq<Pid>)
    ensures forall i :: 0 <= i < |ps| ==> Owner(ps[i]) == k
    ensures forall i, j :: 0 <= i < j < |ps| ==> ps[i] != ps[j]
  {
    match k
    case Perlin => [Perlin0FreqHz, Perlin0Octaves, Perlin0Width]
    case AudioRate => [AudioRate0Oct, AudioRate0Semi, AudioRate0Fine, AudioRate0Width, AudioRate0RetuneSpeed,
                       AudioRate0Atk, AudioRate0Dcy, AudioRate0Sus, AudioRate0Rls]
    case Dropout => [Dropout0Decay, Dropout0Spin, Dropout0Chance, Dropout0Smooth, Dropout0Width]
    case EnvFol => [EnvFol0Attack, EnvFol0Release, EnvFol0Gain, EnvFol0Width]
    case Macro => [Macro0]
    case Pitchwheel => [Pitchbend0Smooth]
    case LFO => [LFO0FreeSync, LFO0RateFree, LFO0RateSync, LFO0Waveform, LFO0Phase, LFO0Width]
  }

  /** Every sub-panel but the pitch-bend one has an `activate` operation;
      the pitch-bend panel is only ever made visible. */
  predicate HasActivate(k: Kind) { k != Pitchwheel }

  /** The registration loop of `activate`: each parameter is added to the
      randomizer in array order, after what it already holds. */
  function AddParams(r: seq<Entry>, pids: seq<Pid>, mOff: int): (r': seq<Entry>)
    ensures |r'| == |r| + |pids|
    ensures r'[..|r|] == r
    ensures forall i :: 0 <= i < |pids| ==> r'[|r| + i] == ParamEntry(ParamRef(pids[i], mOff))
    decreases |pids|
  {
    if pids == [] then r
    else AddParams(r + [ParamEntry(ParamRef(pids[0], mOff))], pids[1..], mOff)
  }

  /** What a slot's randomizer holds while modulator `t` is active: the
      panel's parameters of this slot, plus the table shuffle for the LFO;
      nothing for the pitch-bend panel and for the sentinel. */
  function Registered(t: ModType, mOff: int): (r: seq<Entry>)
    ensures t == Perlin ==> |r| == 3
    ensures t == AudioRate ==> |r| == 9
    ensures t == Dropout ==> |r| == 5
    ensures t == EnvFol ==> |r| == 4
    ensures t == Macro ==> |r| == 1
    ensures t == LFO ==> |r| == 6 + 1 && r[6] == TableShuffle
    ensures t == Pitchwheel || t == NumMods ==> r == []
    ensures forall i :: 0 <= i < |r| && r[i].ParamEntry? ==> Owner(r[i].param.pid) == t && r[i].param.offset == mOff
    ensures TableShuffle in r <==> t == LFO
  {
    if t == NumMods || t == Pitchwheel then []
    else
      var ps := PanelPids(t);
      var params := seq(|ps|, i requires 0 <= i < |ps| => ParamEntry(ParamRef(ps[i], mOff)));
      assert TableShuffle !in params;
      params + (if t == LFO then [TableShuffle] else [])
  }

  /** `activate(randomizer)` as far as the randomizer is concerned: appends
      exactly the entries `Registered` names for the panel. */
  function Activate(r: seq<Entry>, k: Kind, mOff: int): (r': seq<Entry>)
    requires HasActivate(k)
    ensures r' == r + Registered(k, mOff)
  {
    var withParams := AddParams(r, PanelPids(k), mOff);
    if k == LFO then withParams + [TableShuffle] else withParams
  }

}

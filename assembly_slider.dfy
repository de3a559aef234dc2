/**
 * The assembly slider: a range input over [0, 1] in steps of 0.01 that
 * writes the explode level, a percentage read-out and a three-way status
 * line (assembled, fully separated, separating).
 */
module AssemblySlider {
  import opened UseModelStore

  datatype Status = Assembled | FullySeparated | Separating

  /** Exactly 0 is assembled, exactly 1 fully separated, anything else in between. */
  function StatusOf(level: real): (s: Status)
    ensures s == Assembled <==> level == 0.0
    ensures s == FullySeparated <==> level == 1.0
    ensures s == Separating <==> level != 0.0 && level != 1.0
  {
    if level == 0.0 then Assembled
    else if level == 1.0 then FullySeparated
    else Separating
  }

  function StatusLabel(s: Status): string {
    match s
    case Assembled => "조립됨"
    case FullySeparated => "완전 분리"
    case Separating => "분리 중..."
  }

  /** `getStatusText`: the three labels are told apart by the level alone. */
  function StatusText(level: real): (t: string)
    ensures t == "조립됨" <==> level == 0.0
    ensures t == "완전 분리" <==> level == 1.0
    ensures t == "분리 중..." <==> level != 0.0 && level != 1.0
  {
    StatusLabel(StatusOf(level))
  }

  /** `Math.round`: the nearest integer, halves rounded up. */
  function Round(x: real): (n: int)
    ensures x - 0.5 < n as real <= x + 0.5
  {
    (x + 0.5).Floor
  }

  /** The read-out `Math.round(explodeLevel * 100)`. */
  function DisplayPercent(level: real): (p: int)
    ensures level * 100.0 - 0.5 < p as real <= level * 100.0 + 0.5
  {
    Round(level * 100.0)
  }

  /** A level in [0, 1] shows a percentage between 0 and 100. */
  lemma PercentInRange(level: real)
    requires 0.0 <= level <= 1.0
    ensures 0 <= DisplayPercent(level) <= 100
  {
  }

  /** A higher level never shows a lower percentage. */
  lemma PercentMonotone(a: real, b: real)
    requires a <= b
    ensures DisplayPercent(a) <= DisplayPercent(b)
  {
  }

  /** At every slider step k/100 the read-out is exactly k. */
  lemma PercentAtSliderStep(k: nat)
    requires k <= 100
    ensures DisplayPercent(SliderValue(k)) == k
  {
  }

  /**
   * The read-out and the status can disagree for a level between the
   * slider's steps: 0.004 shows 0% while the status says separating. The
   * slider itself never produces such a level (`SliderStepsAgree`).
   */
  lemma ZeroPercentWhileSeparating()
    ensures DisplayPercent(0.004) == 0 && StatusText(0.004) == "분리 중..."
  {
  }

  const SliderMin: real := 0.0
  const SliderMax: real := 1.0
  const SliderStep: real := 0.01

  /** The value the range input reports at its `k`-th step. */
  function SliderValue(k: nat): (v: real)
    ensures k <= 100 ==> SliderMin <= v <= SliderMax
    ensures v == SliderMin + k as real * SliderStep
  {
    k as real / 100.0
  }

  datatype Slider = Slider(min: real, max: real, step: real, value: real, disabled: bool)
  datatype SliderView = SliderView(percent: int, slider: Slider, status: string, loadingNote: bool)

  /**
   * What the component shows for the store's level and loading flag: the
   * slider holds the level and is disabled exactly while loading, and the
   * loading note appears exactly while loading.
   */
  function Render(level: real, isLoading: bool): (v: SliderView)
    ensures v.slider == Slider(SliderMin, SliderMax, SliderStep, level, isLoading)
    ensures v.percent == DisplayPercent(level) && v.status == StatusText(level)
    ensures v.loadingNote <==> isLoading
  {
    SliderView(DisplayPercent(level), Slider(SliderMin, SliderMax, SliderStep, level, isLoading), StatusText(level), isLoading)
  }

  /** `handleChange`: the slider's value becomes the store's explode level; nothing else changes. */
  method HandleChange(store: ModelStore, value: real)
    modifies store`explodeLevel
    ensures store.explodeLevel == value
    ensures store.isLoading == old(store.isLoading) && store.modelParts == old(store.modelParts)
  {
    store.SetExplodeLevel(value);
  }

  /** At every slider step the read-out is 0% exactly when the status is "조립됨" and 100% exactly when it is "완전 분리". */
  lemma SliderStepsAgree(k: nat)
    requires k <= 100
    ensures DisplayPercent(SliderValue(k)) == 0 <==> StatusText(SliderValue(k)) == "조립됨"
    ensures DisplayPercent(SliderValue(k)) == 100 <==> StatusText(SliderValue(k)) == "완전 분리"
  {
    PercentAtSliderStep(k);
  }

  /** Moving the slider to its first or last step shows the matching status and read-out. */
  lemma EndStepsShowEndStatus()
    ensures StatusText(SliderValue(0)) == "조립됨" && DisplayPercent(SliderValue(0)) == 0
    ensures StatusText(SliderValue(100)) == "완전 분리" && DisplayPercent(SliderValue(100)) == 100
  {
    PercentAtSliderStep(0);
    PercentAtSliderStep(100);
  }
}

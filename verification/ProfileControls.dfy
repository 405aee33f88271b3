/** A profile's record and the scalar half of it: offsets, lock unit, power limit and fan. */
module ProfileControls {
  import opened Ints
  import opened Text
  import opened Ini
  import opened Options

  const VF_NUM_POINTS: nat := 128
  const MAX_POINT_MHZ := 5000
  const POWER_MIN := 50
  const POWER_MAX := 150

  datatype Error = BadArguments | EmptySlot | BadKey(key: Key) | PowerOutOfRange | NonMonotone | PreTailAboveLock

  datatype Result<T> = Ok(value: T) | Err(error: Error) {
    predicate IsFailure() { Err? }

    function PropagateFailure<U>(): Result<U>
      requires Err?
    { Err(error) }

    function Extract(): T
      requires Ok?
    { value }
  }

  /** One requested VF point and whether its MHz is a projection of the GPU offset. */
  datatype CurvePoint = CurvePoint(has: bool, mhz: int, fromOffset: bool)

  const NO_POINT := CurvePoint(false, 0, false)

  type Points = p: seq<CurvePoint> | |p| == VF_NUM_POINTS witness seq(VF_NUM_POINTS, _ => NO_POINT)

  datatype GpuOffset = GpuOffset(has: bool, mhz: int, excludeLow: int)

  const LOCK_NONE := 0
  const LOCK_FLATTEN := 1
  const LOCK_HARD := 2

  datatype Lock = Lock(has: bool, ci: int, mhz: int, mode: int, tracks: bool) {
    /** A complete lock: an anchor index together with its frequency. */
    predicate Complete() {
      has && ci >= 0 && mhz > 0
    }
  }

  datatype Setting = Setting(has: bool, value: int)

  datatype FanMode = FanAuto | FanFixed | FanCurveMode

  /** The automatic flag of the record is `mode == FanAuto` throughout; the curve body is opaque. */
  datatype FanIntent = FanIntent(has: bool, mode: FanMode, percent: int)

  datatype Settings = Settings(
    gpu: GpuOffset, lock: Lock, mem: Setting, power: Setting, fan: FanIntent, fanCurve: string)

  datatype Desired = Desired(points: Points, settings: Settings)

  const DEFAULT_LOCK := Lock(false, 0, 0, LOCK_NONE, true)
  const DEFAULT_FAN := FanIntent(false, FanAuto, 0)
  const DEFAULT_FAN_CURVE := ""

  // -------------------------------------------------------------- reading

  /** An optional integer key: absent is fine, malformed is an error. */
  function OptionalInt(e: Entries, k: Key): Result<Option<I32>> {
    match ReadInt(e, k)
    case Absent => Ok(None)
    case Malformed => Err(BadKey(k))
    case Got(v) => Ok(Some(v))
  }

  function ReadGpuOffset(e: Entries): Result<GpuOffset> {
    var mhz :- OptionalInt(e, GpuOffsetMHz);
    var count :- OptionalInt(e, ExcludeLowCount);
    var legacy: Option<I32> :- if count.Some? then Ok(None) else OptionalInt(e, ExcludeLow70);
    Ok(GpuOffset(mhz.Some?, if mhz.Some? then mhz.value else 0,
                 if count.Some? then count.value
                 else if legacy.Some? && legacy.value != 0 then 70
                 else 0))
  }

  /** lock_ci was written, whatever its value. */
  predicate LockCiExplicit(e: Entries) {
    !ReadInt(e, LockCi).Absent?
  }

  /** The lock unit from its four keys as read; an anchor or a frequency alone already claims a lock. */
  function LockFrom(ciRead: Result<Option<I32>>, mhzRead: Result<Option<I32>>,
                    tracksRead: Result<Option<I32>>, modeRead: Result<Option<I32>>): Result<Lock> {
    var ci :- ciRead;
    var atCi := if ci.Some? then DEFAULT_LOCK.(has := ci.value >= 0, ci := ci.value) else DEFAULT_LOCK;
    var mhz :- mhzRead;
    if mhz.Some? && mhz.value < 0 then Err(BadKey(LockMHz))
    else
      var at := if mhz.Some? && mhz.value > 0 then atCi.(has := true, mhz := mhz.value) else atCi;
      var tracks :- tracksRead;
      var tracking := if tracks.Some? then at.(tracks := tracks.value != 0) else at;
      var mode :- modeRead;
      Ok(if mode.Some? then (if LOCK_NONE <= mode.value <= LOCK_HARD then tracking.(mode := mode.value) else tracking)
         else if tracking.has then tracking.(mode := LOCK_FLATTEN)
         else tracking)
  }

  function ReadLock(e: Entries): Result<Lock> {
    LockFrom(OptionalInt(e, LockCi), OptionalInt(e, LockMHz), OptionalInt(e, LockTracksAnchor), OptionalInt(e, LockModeKey))
  }

  function ReadMem(e: Entries): Result<Setting> {
    var v :- OptionalInt(e, MemOffsetMHz);
    Ok(if v.Some? then Setting(true, v.value) else Setting(false, 0))
  }

  function ReadPower(e: Entries): Result<Setting> {
    var v :- OptionalInt(e, PowerLimitPct);
    if v.None? then Ok(Setting(false, 100))
    else if v.value < POWER_MIN || v.value > POWER_MAX then Err(PowerOutOfRange)
    else Ok(Setting(true, v.value))
  }

  function FanModeName(mode: FanMode): string {
    match mode case FanAuto => "auto" case FanFixed => "fixed" case FanCurveMode => "curve"
  }

  function ParseFanMode(t: string): Option<FanMode> {
    var l := LowerAll(t);
    if l == "auto" || l == "default" then Some(FanAuto)
    else if l == "fixed" || l == "manual" then Some(FanFixed)
    else if l == "curve" then Some(FanCurveMode)
    else None
  }

  function ClampPercent(v: int): int {
    if v < 0 then 0 else if v > 100 then 100 else v
  }

  function ReadFanMode(e: Entries): Result<Option<FanMode>> {
    var t := Trim(ReadText(e, FanModeKey, 64));
    if t == "" then Ok(None)
    else match ParseFanMode(t) case Some(m) => Ok(Some(m)) case None => Err(BadKey(FanModeKey))
  }

  /** The old single fan key: "auto" or a percentage; None when absent. */
  function ReadFanValue(e: Entries): Result<Option<FanIntent>> {
    var t := Trim(ReadText(e, Fan, 64));
    if t == "" then Ok(None)
    else if LowerAll(t) == "auto" then Ok(Some(FanIntent(true, FanAuto, 0)))
    else match ParseInt(t)
      case None => Err(BadKey(Fan))
      case Some(v) => if 0 <= v <= 100 then Ok(Some(FanIntent(true, FanFixed, v))) else Err(BadKey(Fan))
  }

  function ReadFan(e: Entries): Result<FanIntent> {
    var mode :- ReadFanMode(e);
    var byMode := if mode.Some? then FanIntent(true, mode.value, 0) else DEFAULT_FAN;
    var value :- ReadFanValue(e);
    var byValue :=
      if value.None? then byMode
      else if mode.None? then value.value
      else if mode.value == FanFixed && value.value.mode != FanAuto then byMode.(percent := value.value.percent)
      else byMode;
    var fixed :- OptionalInt(e, FanFixedPct);
    Ok(if fixed.Some? && (mode.None? || byValue.mode == FanFixed) then FanIntent(true, FanFixed, ClampPercent(fixed.value))
       else byValue)
  }

  function ReadFanCurve(e: Entries): string {
    if FanCurveBody in e then e[FanCurveBody] else DEFAULT_FAN_CURVE
  }

  function ReadControls(e: Entries, fanCurve: Entries): Result<Settings> {
    var gpu :- ReadGpuOffset(e);
    var lock :- ReadLock(e);
    var mem :- ReadMem(e);
    var power :- ReadPower(e);
    var fan :- ReadFan(e);
    Ok(Settings(gpu, lock, mem, power, fan, ReadFanCurve(fanCurve)))
  }

  // ------------------------------------------------- the trust-boundary clamp

  function Clamp(v: int, lo: int, hi: int): int {
    if v < lo then lo else if v > hi then hi else v
  }

  function Clamped(c: Settings): Settings {
    c.(gpu := c.gpu.(mhz := if c.gpu.has then Clamp(c.gpu.mhz, -1000, 1000) else c.gpu.mhz,
                     excludeLow := Clamp(c.gpu.excludeLow, 0, VF_NUM_POINTS)),
       lock := c.lock.(ci := Clamp(c.lock.ci, -1, VF_NUM_POINTS - 1), mhz := if c.lock.mhz > MAX_POINT_MHZ then MAX_POINT_MHZ else c.lock.mhz,
                       mode := Clamp(c.lock.mode, LOCK_NONE, LOCK_HARD)),
       mem := if c.mem.has then c.mem.(value := Clamp(c.mem.value, -3000, 3000)) else c.mem,
       power := if c.power.has then c.power.(value := Clamp(if c.power.value == 0 then 100 else c.power.value, POWER_MIN, POWER_MAX)) else c.power,
       fan := if c.fan.has then c.fan.(percent := ClampPercent(c.fan.percent)) else c.fan)
  }
}

/** The curve half of a profile read: loops that fill, rewrite and clear the requested points in place. */
module ProfileCurve {
  import opened Ints
  import opened Text
  import opened Ini
  import opened ProfileControls
  import opened Options

  const MIN_VISIBLE_MV := 700

  // ------------------------------------------------------ the live GPU's curve

  /** A live VF point; frequency 0 means "not populated". */
  datatype VfPoint = VfPoint(freqKHz: U32, voltUv: U32, offsetKHz: I32) {
    predicate Populated() { freqKHz != 0 }
    predicate Visible() { freqKHz != 0 && voltUv / 1000 >= MIN_VISIBLE_MV }
  }

  type Curve = c: seq<VfPoint> | |c| == VF_NUM_POINTS witness seq(VF_NUM_POINTS, _ => VfPoint(0, 0, 0))

  datatype ReadMode = ForEditor | ForOwnership

  /** Two curves with the same populated points. */
  predicate SameMask(a: Curve, b: Curve) {
    forall i :: 0 <= i < VF_NUM_POINTS ==> a[i].Populated() == b[i].Populated()
  }

  /** How many populated points precede point `i`. */
  function Ordinal(curve: Curve, i: nat): nat
    requires i <= VF_NUM_POINTS
  {
    if i == 0 then 0 else Ordinal(curve, i - 1) + if curve[i - 1].Populated() then 1 else 0
  }

  /** The GPU-offset component of one point: the lowest `excludeLow` populated points get none. */
  function ComponentMHz(curve: Curve, i: nat, gpu: GpuOffset): int
    requires i < VF_NUM_POINTS
  {
    if gpu.mhz == 0 then 0
    else if gpu.excludeLow > 0 && curve[i].Populated() && Ordinal(curve, i) < gpu.excludeLow then 0
    else gpu.mhz
  }

  // --------------------------------------------------------- explicit points

  datatype PointRead = Skipped | Refused(key: Key) | Taken(mhz: int)

  /** Saved as hidden: by its own mark, or, without one, by a voltage below the visible ones. */
  predicate SavedHidden(e: Entries, i: nat) {
    var mark, mv := ReadInt(e, Point(i, Visibility)), ReadInt(e, Point(i, Millivolt));
    mark == Got(0) || (mark == Absent && mv.Got? && 0 < mv.value < MIN_VISIBLE_MV)
  }

  /** A point is taken exactly when its frequency is a positive number, its mark is readable and it is
      not hidden; what is there but not readable refuses the section, naming the key. */
  function ReadPoint(e: Entries, i: nat): (r: PointRead)
    ensures r.Taken? ==> 0 < r.mhz <= MAX_POINT_MHZ
    ensures
      var mhz, mark := ReadInt(e, Point(i, Mhz)), ReadInt(e, Point(i, Visibility));
      && (r.Taken? <==> mhz.Got? && mhz.value > 0 && mark != Malformed && !SavedHidden(e, i))
      && (r.Taken? ==> r.mhz == Min(mhz.value, MAX_POINT_MHZ))
      && (r.Refused? <==> mhz == Malformed || (mhz.Got? && (mhz.value <= 0 || mark == Malformed)))
      && (r.Refused? ==> r.key == Point(i, if mhz == Malformed || mhz.value <= 0 then Mhz else Visibility))
  {
    match ReadInt(e, Point(i, Mhz))
    case Absent => Skipped
    case Malformed => Refused(Point(i, Mhz))
    case Got(v) =>
      if v <= 0 then Refused(Point(i, Mhz))
      else
        var mhz := if v > MAX_POINT_MHZ then MAX_POINT_MHZ else v;
        match ReadInt(e, Point(i, Visibility))
        case Malformed => Refused(Point(i, Visibility))
        case Got(visible) => if visible == 0 then Skipped else Taken(mhz)
        case Absent =>
          match ReadInt(e, Point(i, Millivolt))
          case Got(mv) => if 0 < mv < MIN_VISIBLE_MV then Skipped else Taken(mhz)
          case _ => Taken(mhz)
  }

  /** What the section says about each point. */
  function PointReader(e: Entries): nat -> PointRead {
    (i: nat) => ReadPoint(e, i)
  }

  /** The first key from point `i` on that makes the section unreadable. */
  function FirstRefusal(read: nat -> PointRead, i: nat): Option<Key>
    requires i <= VF_NUM_POINTS
    decreases VF_NUM_POINTS - i
  {
    if i == VF_NUM_POINTS then None
    else if read(i).Refused? then Some(read(i).key)
    else FirstRefusal(read, i + 1)
  }

  function PointAt(read: nat -> PointRead, i: nat): CurvePoint {
    if read(i).Taken? then CurvePoint(true, read(i).mhz, false) else NO_POINT
  }

  function PointsRead(read: nat -> PointRead): Points {
    seq(VF_NUM_POINTS, i requires 0 <= i < VF_NUM_POINTS => PointAt(read, i))
  }

  method LoadPoints(read: nat -> PointRead, points: array<CurvePoint>) returns (refused: Option<Key>)
    requires points.Length == VF_NUM_POINTS
    requires forall i :: 0 <= i < VF_NUM_POINTS ==> points[i] == NO_POINT
    modifies points
    ensures refused == FirstRefusal(read, 0)
    ensures refused.None? ==> points[..] == PointsRead(read)
  {
    ghost var first := FirstRefusal(read, 0);
    var i := 0;
    while i < VF_NUM_POINTS
      invariant 0 <= i <= VF_NUM_POINTS
      invariant forall j :: 0 <= j < i ==> points[j] == PointAt(read, j)
      invariant forall j :: i <= j < VF_NUM_POINTS ==> points[j] == NO_POINT
      invariant first == FirstRefusal(read, i)
    {
      var r := read(i);
      if r.Refused? { return Some(r.key); }
      if r.Taken? { points[i] := CurvePoint(true, r.mhz, false); }
      i := i + 1;
    }
    return None;
  }

  // ------------------------------------------------- provenance of the values

  datatype Decode = Unmarked | Absolute | WithOrigin | BasePlusOffset

  const WITH_ORIGIN := "absolute_with_origin"
  const BASE_PLUS_OFFSET := "base_plus_gpu_offset"

  function SectionDecode(e: Entries): Decode {
    var t := Trim(ReadText(e, CurveSemantics, 64));
    if t == "" then Unmarked
    else if LowerAll(t) == WITH_ORIGIN then WithOrigin
    else if LowerAll(t) == BASE_PLUS_OFFSET then BasePlusOffset
    else Absolute
  }

  predicate Projected(e: Entries, i: nat) {
    var v := ReadInt(e, Point(i, FromGpuOffset));
    v.Got? && v.value != 0
  }

  function OriginReader(e: Entries): nat -> bool {
    (i: nat) => Projected(e, i)
  }

  function WithOrigins(projected: nat -> bool, p: Points): Points {
    seq(VF_NUM_POINTS, i requires 0 <= i < VF_NUM_POINTS => p[i].(fromOffset := p[i].has && projected(i)))
  }

  method RestoreOrigins(projected: nat -> bool, points: array<CurvePoint>)
    requires points.Length == VF_NUM_POINTS
    modifies points
    ensures points[..] == WithOrigins(projected, old(points[..]))
  {
    var i := 0;
    while i < VF_NUM_POINTS
      invariant 0 <= i <= VF_NUM_POINTS
      invariant forall j :: 0 <= j < i ==>
        points[j] == old(points[j]).(fromOffset := old(points[j]).has && projected(j))
      invariant forall j :: i <= j < VF_NUM_POINTS ==> points[j] == old(points[j])
    {
      points[i] := points[i].(fromOffset := false);
      if points[i].has && projected(i) {
        points[i] := points[i].(fromOffset := true);
      }
      i := i + 1;
    }
  }

  /** An unmarked section holds base MHz when adding the offset, and only that, lands on the lock. */
  predicate UsesBase(decode: Decode, c: Settings, p: Points, curve: Curve) {
    match decode
    case BasePlusOffset => c.gpu.has && c.gpu.mhz != 0
    case Unmarked =>
      && c.gpu.has && c.gpu.mhz != 0
      && c.lock.Complete() && c.lock.ci < VF_NUM_POINTS && p[c.lock.ci].has
      && ComponentMHz(curve, c.lock.ci, c.gpu) > 0
      && p[c.lock.ci].mhz != c.lock.mhz
      && p[c.lock.ci].mhz + ComponentMHz(curve, c.lock.ci, c.gpu) == c.lock.mhz
    case _ => false
  }

  function FromBase(p: CurvePoint, component: int): CurvePoint {
    if !p.has then p
    else if p.mhz + component <= 0 then NO_POINT
    else CurvePoint(true, p.mhz + component, true)
  }

  function AllFromBase(p: Points, gpu: GpuOffset, curve: Curve): Points {
    seq(VF_NUM_POINTS, i requires 0 <= i < VF_NUM_POINTS => FromBase(p[i], ComponentMHz(curve, i, gpu)))
  }

  method RestoreFromBase(points: array<CurvePoint>, gpu: GpuOffset, curve: Curve)
    requires points.Length == VF_NUM_POINTS
    modifies points
    ensures points[..] == if gpu.has && gpu.mhz != 0 then AllFromBase(old(points[..]), gpu, curve) else old(points[..])
  {
    if !gpu.has || gpu.mhz == 0 { return; }
    var i := 0;
    while i < VF_NUM_POINTS
      invariant 0 <= i <= VF_NUM_POINTS
      invariant forall j :: 0 <= j < i ==> points[j] == FromBase(old(points[j]), ComponentMHz(curve, j, gpu))
      invariant forall j :: i <= j < VF_NUM_POINTS ==> points[j] == old(points[j])
    {
      if points[i].has {
        var absolute := points[i].mhz + ComponentMHz(curve, i, gpu);
        points[i] := if absolute <= 0 then NO_POINT else CurvePoint(true, absolute, true);
      }
      i := i + 1;
    }
  }

  // ------------------------------------- readback artifacts of older builds

  /** Whether a saved point was visible: its own key, else (in the editor only) the live curve. */
  predicate SavedVisible(e: Entries, i: nat, fallback: bool) {
    match ReadInt(e, Point(i, Visibility))
    case Got(v) => v != 0
    case _ => fallback
  }

  function VisibilityReader(e: Entries, mode: ReadMode, curve: Curve): nat -> bool {
    if mode == ForOwnership then (i: nat) => SavedVisible(e, i, true)
    else (i: nat) => SavedVisible(e, i, i < VF_NUM_POINTS && curve[i].Visible())
  }

  function OffsetReader(e: Entries): nat -> IntRead {
    (i: nat) => ReadInt(e, Point(i, OffsetKHz))
  }

  predicate TailFlat(visible: nat -> bool, p: Points, lock: Lock) {
    forall i :: 0 <= lock.ci <= i < VF_NUM_POINTS && p[i].has && visible(i) ==> p[i].mhz == lock.mhz
  }

  function TailCount(visible: nat -> bool, p: Points, i: nat): nat
    requires i <= VF_NUM_POINTS
    decreases VF_NUM_POINTS - i
  {
    if i == VF_NUM_POINTS then 0
    else TailCount(visible, p, i + 1) + if p[i].has && visible(i) then 1 else 0
  }

  method CountFlatTail(visible: nat -> bool, points: array<CurvePoint>, lock: Lock) returns (flat: bool, count: nat)
    requires points.Length == VF_NUM_POINTS && 0 <= lock.ci < VF_NUM_POINTS
    ensures flat == (TailFlat(visible, points[..], lock) && TailCount(visible, points[..], lock.ci) > 0)
    ensures flat ==> count == TailCount(visible, points[..], lock.ci)
  {
    ghost var p: Points := points[..];
    var i := lock.ci;
    count := 0;
    while i < VF_NUM_POINTS
      invariant lock.ci <= i <= VF_NUM_POINTS
      invariant TailCount(visible, p, lock.ci) == count + TailCount(visible, p, i)
      invariant forall j :: lock.ci <= j < i && p[j].has && visible(j) ==> p[j].mhz == lock.mhz
    {
      if points[i].has && visible(i) {
        count := count + 1;
        if points[i].mhz != lock.mhz {
          assert p[i].has;
          return false, count;
        }
      }
      i := i + 1;
    }
    flat := count > 0;
  }

  /** The two points below the anchor climb to it in steps of at most 60 MHz. */
  predicate TwoHighPoints(p: Points, lock: Lock)
    requires 3 <= lock.ci < VF_NUM_POINTS
  {
    && p[lock.ci - 1].has && p[lock.ci - 2].has
    && p[lock.ci - 2].mhz < p[lock.ci - 1].mhz < lock.mhz
    && lock.mhz - p[lock.ci - 1].mhz <= 60 && p[lock.ci - 1].mhz - p[lock.ci - 2].mhz <= 60
  }

  /** A visible point saved with no offset of its own: stock scaffolding, not intent. */
  predicate Scaffold(p: CurvePoint, visible: bool, offset: IntRead) {
    p.has && visible && offset == Got(0)
  }

  function WithoutScaffold(visible: nat -> bool, offset: nat -> IntRead, p: Points, n: nat): Points {
    seq(VF_NUM_POINTS, i requires 0 <= i < VF_NUM_POINTS =>
      if i < n && Scaffold(p[i], visible(i), offset(i)) then NO_POINT else p[i])
  }

  /** A lone point far below the climb whose saved offset looks like a readback. */
  predicate Artifact(visible: nat -> bool, offset: nat -> IntRead, p: Points, lock: Lock)
    requires 3 <= lock.ci < VF_NUM_POINTS
  {
    var i := lock.ci - 3;
    && p[i].has
    && p[i + 1].mhz > p[i].mhz && p[i + 1].mhz - p[i].mhz >= 150
    && offset(i).Got? && 60000 <= Magnitude(offset(i).value) <= 250000
    && visible(i)
  }

  /** A lock without any GPU offset, over a flat visible tail of at least four points. */
  predicate NeedsRepair(visible: nat -> bool, c: Settings, p: Points) {
    && c.lock.has && 3 <= c.lock.ci < VF_NUM_POINTS && c.lock.mhz != 0
    && !(c.gpu.has && c.gpu.mhz != 0) && c.gpu.excludeLow <= 0
    && TailFlat(visible, p, c.lock) && TailCount(visible, p, c.lock.ci) >= 4
  }

  function Repaired(visible: nat -> bool, offset: nat -> IntRead, c: Settings, p: Points): Points {
    if !NeedsRepair(visible, c, p) then p
    else
      var high := TwoHighPoints(p, c.lock);
      var q := WithoutScaffold(visible, offset, p, if high then c.lock.ci - 2 else c.lock.ci);
      if high && Artifact(visible, offset, q, c.lock) then q[c.lock.ci - 3 := NO_POINT] else q
  }

  method ClearScaffold(visible: nat -> bool, offset: nat -> IntRead, points: array<CurvePoint>, n: nat)
    requires points.Length == VF_NUM_POINTS && n <= VF_NUM_POINTS
    modifies points
    ensures points[..] == WithoutScaffold(visible, offset, old(points[..]), n)
  {
    var i := 0;
    while i < n
      invariant 0 <= i <= n
      invariant forall j :: 0 <= j < i ==>
        points[j] == if Scaffold(old(points[j]), visible(j), offset(j)) then NO_POINT else old(points[j])
      invariant forall j :: i <= j < VF_NUM_POINTS ==> points[j] == old(points[j])
    {
      if points[i].has && visible(i) && offset(i) == Got(0) { points[i] := NO_POINT; }
      i := i + 1;
    }
  }

  method Repair(visible: nat -> bool, offset: nat -> IntRead, c: Settings, points: array<CurvePoint>)
    requires points.Length == VF_NUM_POINTS
    modifies points
    ensures points[..] == Repaired(visible, offset, c, old(points[..]))
  {
    if !c.lock.has || c.lock.ci < 3 || c.lock.ci >= VF_NUM_POINTS || c.lock.mhz == 0 { return; }
    if c.gpu.has && c.gpu.mhz != 0 { return; }
    if c.gpu.excludeLow > 0 { return; }
    var flat, count := CountFlatTail(visible, points, c.lock);
    if !flat || count < 4 { return; }
    var high := TwoHighPoints(points[..], c.lock);
    ClearScaffold(visible, offset, points, if high then c.lock.ci - 2 else c.lock.ci);
    if high && Artifact(visible, offset, points[..], c.lock) {
      points[c.lock.ci - 3] := NO_POINT;
    }
  }

  // ----------------------------------------------------------- shape checks

  /** Neighbouring requested points never fall. */
  predicate Monotone(p: Points) {
    forall i :: 0 < i < VF_NUM_POINTS && p[i].has && p[i - 1].has ==> p[i - 1].mhz <= p[i].mhz
  }

  method CheckMonotone(points: array<CurvePoint>) returns (ok: bool)
    requires points.Length == VF_NUM_POINTS
    ensures ok == Monotone(points[..])
  {
    var i := 1;
    while i < VF_NUM_POINTS
      invariant 1 <= i <= VF_NUM_POINTS
      invariant forall j :: 0 < j < i && points[..][j].has && points[..][j - 1].has ==> points[..][j - 1].mhz <= points[..][j].mhz
    {
      if points[i].has && points[i - 1].has && points[i].mhz < points[i - 1].mhz {
        assert points[..][i].has && points[..][i - 1].has;
        return false;
      }
      i := i + 1;
    }
    return true;
  }

  /** Some requested point below the anchor lies above a complete lock. */
  predicate PreTailAbove(p: Points, lock: Lock) {
    lock.Complete() && exists i :: 0 <= i < VF_NUM_POINTS && i < lock.ci && p[i].has && p[i].mhz > lock.mhz
  }

  method CheckPreTail(points: array<CurvePoint>, lock: Lock) returns (above: bool)
    requires points.Length == VF_NUM_POINTS
    ensures above == PreTailAbove(points[..], lock)
  {
    if !lock.has || lock.ci < 0 || lock.mhz <= 0 { return false; }
    ghost var p: Points := points[..];
    var max, at, i := 0, -1, 0;
    while i < lock.ci && i < VF_NUM_POINTS
      invariant 0 <= i <= VF_NUM_POINTS && i <= lock.ci
      invariant max >= 0
      invariant if at < 0 then max == 0 else at < i && p[at].has && p[at].mhz == max
      invariant forall j :: 0 <= j < i && p[j].has ==> p[j].mhz <= max
    {
      if points[i].has && points[i].mhz > max {
        max, at := points[i].mhz, i;
      }
      i := i + 1;
    }
    above := at >= 0 && max > lock.mhz;
    if above { assert p[at].has; }
  }

  // ---------------------------------------------------------- lock inference

  predicate Shown(p: Points, curve: Curve, i: nat)
    requires i < VF_NUM_POINTS
  {
    p[i].has && curve[i].Visible()
  }

  /** From point `i` on every shown point has the same nonzero MHz, and there is a second one. */
  predicate FlatFrom(p: Points, curve: Curve, i: nat)
    requires i < VF_NUM_POINTS
  {
    && Shown(p, curve, i) && p[i].mhz != 0
    && (exists j :: i < j < VF_NUM_POINTS && Shown(p, curve, j))
    && forall j :: i < j < VF_NUM_POINTS && Shown(p, curve, j) ==> p[j].mhz == p[i].mhz
  }

  function FirstFlat(p: Points, curve: Curve, i: nat): (r: Option<nat>)
    requires i <= VF_NUM_POINTS
    ensures r.Some? ==> i <= r.value < VF_NUM_POINTS && FlatFrom(p, curve, r.value)
    ensures forall j :: i <= j < (if r.Some? then r.value else VF_NUM_POINTS) ==> !FlatFrom(p, curve, j)
    decreases VF_NUM_POINTS - i
  {
    if i == VF_NUM_POINTS then None
    else if FlatFrom(p, curve, i) then Some(i)
    else FirstFlat(p, curve, i + 1)
  }

  lemma {:induction false} FirstFlatIs(p: Points, curve: Curve, k: nat)
    requires k < VF_NUM_POINTS && FlatFrom(p, curve, k)
    requires forall j :: 0 <= j < k ==> !FlatFrom(p, curve, j)
    ensures FirstFlat(p, curve, 0) == Some(k)
  {
    var r := FirstFlat(p, curve, 0);
  }

  /** Collect the shown points in order. */
  method CollectShown(p: Points, curve: Curve) returns (shown: seq<nat>)
    ensures forall k :: 0 <= k < |shown| ==> shown[k] < VF_NUM_POINTS && Shown(p, curve, shown[k])
    ensures forall k, l :: 0 <= k < l < |shown| ==> shown[k] < shown[l]
    ensures forall i :: 0 <= i < VF_NUM_POINTS && Shown(p, curve, i) ==> i in shown
  {
    shown := [];
    var i := 0;
    while i < VF_NUM_POINTS
      invariant 0 <= i <= VF_NUM_POINTS
      invariant forall k :: 0 <= k < |shown| ==> shown[k] < i && Shown(p, curve, shown[k])
      invariant forall k, l :: 0 <= k < l < |shown| ==> shown[k] < shown[l]
      invariant forall j :: 0 <= j < i && Shown(p, curve, j) ==> j in shown
    {
      if p[i].has && curve[i].Visible() { shown := shown + [i]; }
      i := i + 1;
    }
  }

  ghost predicate Collects(p: Points, curve: Curve, shown: seq<nat>) {
    && (forall k :: 0 <= k < |shown| ==> shown[k] < VF_NUM_POINTS && Shown(p, curve, shown[k]))
    && (forall k, l :: 0 <= k < l < |shown| ==> shown[k] < shown[l])
    && (forall i :: 0 <= i < VF_NUM_POINTS && Shown(p, curve, i) ==> i in shown)
  }

  /** Flatness seen through the collected indices. */
  ghost predicate FlatAt(p: Points, shown: seq<nat>, k: nat)
    requires k < |shown| && forall l :: 0 <= l < |shown| ==> shown[l] < VF_NUM_POINTS
  {
    && p[shown[k]].mhz != 0 && k + 1 < |shown|
    && forall l :: k < l < |shown| ==> p[shown[l]].mhz == p[shown[k]].mhz
  }

  lemma FlatAtMeans(p: Points, curve: Curve, shown: seq<nat>, k: nat)
    requires Collects(p, curve, shown) && k < |shown|
    ensures FlatAt(p, shown, k) <==> FlatFrom(p, curve, shown[k])
  {
    var i := shown[k];
    if FlatAt(p, shown, k) {
      assert Shown(p, curve, shown[k + 1]) && i < shown[k + 1];
      forall j | i < j < VF_NUM_POINTS && Shown(p, curve, j)
        ensures p[j].mhz == p[i].mhz
      {
        var l :| 0 <= l < |shown| && shown[l] == j;
        assert k < l;
      }
    }
    if FlatFrom(p, curve, i) {
      var j :| i < j < VF_NUM_POINTS && Shown(p, curve, j);
      var l :| 0 <= l < |shown| && shown[l] == j;
      assert k < l;
    }
  }

  /** The source's nested scan: the first shown point whose later shown points all match it. */
  method InferLock(p: Points, curve: Curve) returns (r: Option<nat>)
    ensures r == FirstFlat(p, curve, 0)
  {
    var shown := CollectShown(p, curve);
    assert Collects(p, curve, shown);
    var v := 0;
    while v + 1 < |shown|
      invariant 0 <= v && (v < |shown| || v == 0)
      invariant forall k :: 0 <= k < v ==> !FlatAt(p, shown, k)
    {
      if p[shown[v]].mhz != 0 {
        var same := ScanTail(p, shown, v);
        if same {
          FlatSoFar(p, curve, shown, v);
          return Some(shown[v]);
        }
      }
      v := v + 1;
    }
    NeverFlat(p, curve, shown);
    return None;
  }

  method ScanTail(p: Points, shown: seq<nat>, v: nat) returns (same: bool)
    requires v < |shown| && forall k :: 0 <= k < |shown| ==> shown[k] < VF_NUM_POINTS
    ensures same == forall k :: v < k < |shown| ==> p[shown[k]].mhz == p[shown[v]].mhz
  {
    var t := v + 1;
    while t < |shown|
      invariant v < t <= |shown|
      invariant forall k :: v < k < t ==> p[shown[k]].mhz == p[shown[v]].mhz
    {
      if p[shown[t]].mhz != p[shown[v]].mhz { return false; }
      t := t + 1;
    }
    return true;
  }

  lemma {:induction false} FlatSoFar(p: Points, curve: Curve, shown: seq<nat>, v: nat)
    requires Collects(p, curve, shown) && v < |shown| && FlatAt(p, shown, v)
    requires forall k :: 0 <= k < v ==> !FlatAt(p, shown, k)
    ensures FirstFlat(p, curve, 0) == Some(shown[v])
  {
    FlatAtMeans(p, curve, shown, v);
    forall j | 0 <= j < shown[v]
      ensures !FlatFrom(p, curve, j)
    {
      if Shown(p, curve, j) {
        var k :| 0 <= k < |shown| && shown[k] == j;
        assert k < v;
        FlatAtMeans(p, curve, shown, k);
      }
    }
    FirstFlatIs(p, curve, shown[v]);
  }

  lemma {:induction false} NeverFlat(p: Points, curve: Curve, shown: seq<nat>)
    requires Collects(p, curve, shown)
    requires forall k :: 0 <= k < |shown| - 1 ==> !FlatAt(p, shown, k)
    ensures FirstFlat(p, curve, 0) == None
  {
    var r := FirstFlat(p, curve, 0);
    if r.Some? {
      var k :| 0 <= k < |shown| && shown[k] == r.value;
      FlatAtMeans(p, curve, shown, k);
      assert false;
    }
  }
}

/** What offset a VF point wants, and the range the driver accepts. */
module CurveOffset {
  import opened Ints

  datatype OffsetRange = OffsetRange(minKHz: I32, maxKHz: I32, known: bool) {
    predicate Permits(v: int) {
      minKHz <= v <= maxKHz
    }

    /** Clamp to the endpoints; the minimum is tested last, so it wins in an inverted range. */
    function Clamp(v: I32): (c: I32)
      ensures minKHz <= maxKHz ==> Permits(c)
      ensures Permits(v) ==> c == v
      ensures c == v || c == minKHz || c == maxKHz
      ensures minKHz <= maxKHz ==> if v > maxKHz then c == maxKHz else if v < minKHz then c == minKHz else c == v
    {
      var w := if v > maxKHz then maxKHz else v;
      if w < minKHz then minKHz else w
    }
  }

  /** Only a point the user typed asks for a frequency; every other one may ask for an offset. */
  predicate OffsetIsIntent(explicitPoint: bool, fromGpuOffset: bool, selectiveBatch: bool) {
    !explicitPoint && (selectiveBatch || fromGpuOffset)
  }

  /** The stock base the driver implies: live minus programmed, never negative. */
  function StockBaseKHz(liveKHz: int, programmedKHz: int): (base: nat)
    ensures if liveKHz >= programmedKHz then base + programmedKHz == liveKHz else base == 0
  {
    if liveKHz - programmedKHz < 0 then 0 else liveKHz - programmedKHz
  }

  function TargetOffsetKHz(fromGpuOffset: bool, componentKHz: int, absoluteMHz: nat, liveBaseKHz: int): int {
    if fromGpuOffset then componentKHz
    else absoluteMHz * 1000 - (if liveBaseKHz < 0 then 0 else liveBaseKHz)
  }

  /** kHz shown as MHz: saturate at INT_MAX, then round half up. */
  function DisplayMHz(kHz: nat): (mhz: U32)
    ensures mhz <= 2147484
    ensures kHz <= INT_MAX ==> mhz * 1000 - 500 <= kHz < mhz * 1000 + 500
  {
    (Min(kHz, INT_MAX) + 500) / 1000
  }

  lemma DisplayMonotone(a: nat, b: nat)
    requires a <= b
    ensures DisplayMHz(a) <= DisplayMHz(b)
  {
  }

  /** A whole number of MHz survives the kHz round trip exactly up to the saturation point. */
  lemma DisplayExact(mhz: nat)
    ensures DisplayMHz(mhz * 1000) == mhz <==> mhz <= 2147484
  {
  }
}

/** The configuration file: sections of keys, each with a text value. */
module Ini {
  import opened Ints
  import opened Text
  import opened Options

  datatype Section =
    | Controls(slot: int) | Curve(slot: int) | FanCurve(slot: int) | SlotGpu(slot: int) | Publish(slot: int)
    | LegacyControls | LegacyCurve | LegacyFanCurve
    | SelectedGpu | Meta | Profiles | Startup | Other(name: string)

  /** One value of a curve point: pointN_mhz, _mv, _offset_khz, _visible, _from_gpu_offset. */
  datatype PointField = Mhz | Millivolt | OffsetKHz | Visibility | FromGpuOffset

  /** The keys by their role; `OtherKey` stands for every name the program does not interpret. */
  datatype Key =
    // [profileN]
    | GpuOffsetMHz | ExcludeLowCount | ExcludeLow70 | LockCi | LockMHz | LockTracksAnchor | LockModeKey
    | MemOffsetMHz | PowerLimitPct | FanModeKey | Fan | FanFixedPct
    // [profileN_curve]
    | FormatKey | CurveSemantics | Point(i: int, field: PointField)
    // [profileN_fan_curve], opaque
    | FanCurveBody
    // [profileN_publish]
    | State
    // [gpu], [profileN_gpu]
    | SelectedIndex | IdentityVersion | DeviceId | SubsystemId | RevisionId | ExtDeviceId
    | BdfValid | PciDomain | PciBus | PciDevice | PciFunction | LocationRole
    // [profiles], [startup], [meta]
    | SelectedSlot | AppliedSlot | AppLaunchSlot | LogonSlot | LogonSharedSlot
    | ApplyOnLaunch | StartOnLogon | FormatVersion
    | OtherKey(name: string)

  type Entries = map<Key, string>

  type File = map<Section, Entries>

  /** The keys of a section; an absent section has none. */
  function EntriesOf(f: File, s: Section): Entries {
    if s in f then f[s] else map[]
  }

  /** Read into a buffer of `size` bytes: an absent key reads as empty, a long value is cut. */
  function ReadText(e: Entries, k: Key, size: nat): (t: string)
    requires size > 0
    ensures |t| < size
  {
    if k in e then (if |e[k]| < size then e[k] else e[k][..size - 1]) else ""
  }

  datatype IntRead = Absent | Malformed | Got(value: I32)

  /** Read, trim and parse one integer. */
  function ReadInt(e: Entries, k: Key): IntRead {
    var t := Trim(ReadText(e, k, 64));
    if t == "" then Absent
    else match ParseInt(t) case Some(v) => Got(v) case None => Malformed
  }

  /** A stored number reads back as itself. */
  lemma StoredIntReadsBack(e: Entries, k: Key, v: I32)
    requires k in e && e[k] == FormatInt(v)
    ensures ReadInt(e, k) == Got(v)
  {
    IntRoundTrip(v);
  }

  /** get_config_int: a missing, cut or malformed value reads as the default. */
  function ConfigInt(e: Entries, k: Key, default: I32): I32 {
    var raw := ReadText(e, k, 32);
    if |raw| >= 31 then default
    else
      var t := Trim(raw);
      if t == "" then default
      else match ParseInt(t) case Some(v) => v case None => default
  }

  /** get_config_string: absent, blank and cut values all report failure. */
  function ConfigString(e: Entries, k: Key, outSize: nat): Option<string> {
    var raw := ReadText(e, k, 512);
    var t := Trim(raw);
    if |raw| == 0 || |raw| >= 511 || t == "" || |t| >= outSize then None else Some(t)
  }

  /** An atomic section update: the named sections go, the new ones come in, the rest stays. */
  function ReplaceSections(f: File, replaced: set<Section>, added: File): File {
    (f - replaced) + added
  }
}

/** The durable GPU selection: how it is printed, parsed and compared. */
module GpuSelection {
  import opened Ints
  import opened Text
  import opened Ini
  import opened Options

  const MAX_GPU_ADAPTERS := 8

  datatype Role = Unrecorded | Advisory | Required | InvalidRole(value: int)

  datatype Identity = Identity(
    valid: bool, pciInfoValid: bool, deviceId: U32, subSystemId: U32, revisionId: U32, extDeviceId: U32,
    domain: U32, bus: U32, device: U32, function_: U32)
  {
    predicate HasLocation() {
      && domain <= 0xFFFF && bus <= 255 && device <= 31 && function_ <= 7
      && (domain != 0 || bus != 0 || device != 0 || function_ != 0)
    }

    predicate SameModel(other: Identity) {
      && valid && other.valid && pciInfoValid && other.pciInfoValid
      && deviceId == other.deviceId && subSystemId == other.subSystemId
      && revisionId == other.revisionId && extDeviceId == other.extDeviceId
    }
  }

  const NO_IDENTITY := Identity(false, false, 0, 0, 0, 0, 0, 0, 0, 0)

  datatype Selection = Selection(stable: bool, legacyIndex: U32, identity: Identity, role: Role)

  function RoleName(r: Role): string {
    match r
    case Unrecorded => "unrecorded"
    case Advisory => "advisory"
    case Required => "required"
    case InvalidRole(_) => "invalid"
  }

  function ParseRole(text: string): Option<Role> {
    if text == "" then Some(Unrecorded)
    else if LowerAll(text) == "advisory" then Some(Advisory)
    else if LowerAll(text) == "required" then Some(Required)
    else None
  }

  /** The printed section, or None where the writer refuses. */
  function Format(sel: Selection): Option<Entries> {
    var id := sel.identity;
    var located := sel.stable && id.pciInfoValid && id.HasLocation();
    if sel.legacyIndex >= MAX_GPU_ADAPTERS then None
    else if sel.stable && (!id.valid || !id.pciInfoValid || id.deviceId == 0) then None
    else if located && sel.role.InvalidRole? then None
    else
      var ids := if sel.stable then id else NO_IDENTITY;
      var at := if located then id else NO_IDENTITY;
      var entries := map[
        SelectedIndex := FormatInt(sel.legacyIndex),
        IdentityVersion := FormatInt(if sel.stable then 1 else 0),
        DeviceId := FormatHex8(ids.deviceId),
        SubsystemId := FormatHex8(ids.subSystemId),
        RevisionId := FormatHex8(ids.revisionId),
        ExtDeviceId := FormatHex8(ids.extDeviceId),
        BdfValid := FormatInt(if located then 1 else 0),
        PciDomain := FormatInt(at.domain),
        PciBus := FormatInt(at.bus),
        PciDevice := FormatInt(at.device),
        PciFunction := FormatInt(at.function_)];
      Some(if located && sel.role != Unrecorded then entries[LocationRole := RoleName(sel.role)] else entries)
  }

  function ReadHex(e: Entries, key: Key): Option<U32> {
    var raw := ReadText(e, key, 32);
    if |raw| == 0 || |raw| >= 31 then None else ParseHex8(Trim(raw))
  }

  /** An empty value reads as 0, the default of every numeric key here. */
  function ReadNumber(e: Entries, key: Key): Option<I32> {
    var raw := ReadText(e, key, 32);
    if |raw| >= 31 then None else if Trim(raw) == "" then Some(0) else ParseInt(Trim(raw))
  }

  function ReadRole(e: Entries): Option<Role> {
    var raw := ReadText(e, LocationRole, 32);
    if |raw| >= 31 then None else ParseRole(Trim(raw))
  }

  /** A number that was read and lies in 0..max. */
  predicate InBounds(v: Option<I32>, max: int) {
    v.Some? && 0 <= v.value <= max
  }

  /** Everything the parser reads from a section. */
  datatype Raw = Raw(
    index: Option<I32>, version: Option<I32>,
    device: Option<U32>, subsystem: Option<U32>, revision: Option<U32>, ext: Option<U32>,
    located: Option<I32>, domain: Option<I32>, bus: Option<I32>, slot: Option<I32>, function_: Option<I32>,
    role: Option<Role>)

  function ReadRaw(e: Entries): Raw {
    Raw(ReadNumber(e, SelectedIndex), ReadNumber(e, IdentityVersion),
        ReadHex(e, DeviceId), ReadHex(e, SubsystemId), ReadHex(e, RevisionId), ReadHex(e, ExtDeviceId),
        ReadNumber(e, BdfValid), ReadNumber(e, PciDomain), ReadNumber(e, PciBus), ReadNumber(e, PciDevice),
        ReadNumber(e, PciFunction), ReadRole(e))
  }

  function Decode(raw: Raw): Option<Selection> {
    if !InBounds(raw.index, MAX_GPU_ADAPTERS - 1) || !InBounds(raw.version, 1) then None
    else if raw.version.value == 0 then Some(Selection(false, raw.index.value, NO_IDENTITY, Unrecorded))
    else if raw.device.None? || raw.subsystem.None? || raw.revision.None? || raw.ext.None? then None
    else if !InBounds(raw.located, 1) || raw.device.value == 0 then None
    else
      var model := Identity(true, true, raw.device.value, raw.subsystem.value, raw.revision.value, raw.ext.value, 0, 0, 0, 0);
      if raw.located.value == 0 then Some(Selection(true, raw.index.value, model, Unrecorded))
      else if !InBounds(raw.domain, 0xFFFF) || !InBounds(raw.bus, 255) || !InBounds(raw.slot, 31) || !InBounds(raw.function_, 7) then None
      else
        var id := model.(domain := raw.domain.value, bus := raw.bus.value, device := raw.slot.value, function_ := raw.function_.value);
        if !id.HasLocation() || raw.role.None? then None
        else Some(Selection(true, raw.index.value, id, raw.role.value))
  }

  function Parse(e: Entries): Option<Selection> {
    Decode(ReadRaw(e))
  }

  /** The comparison the publication readback uses. */
  predicate SameSelection(a: Selection, b: Selection) {
    && a.legacyIndex == b.legacyIndex && a.stable == b.stable
    && (a.stable ==>
          && a.role == b.role && a.identity.SameModel(b.identity)
          && a.identity.HasLocation() == b.identity.HasLocation()
          && (a.identity.HasLocation() ==>
                && a.identity.domain == b.identity.domain && a.identity.bus == b.identity.bus
                && a.identity.device == b.identity.device && a.identity.function_ == b.identity.function_))
  }

  lemma NumberReadsBack(e: Entries, key: Key, v: nat)
    requires key in e && e[key] == FormatInt(v) && v <= INT_MAX
    ensures ReadNumber(e, key) == Some(v)
  {
    IntRoundTrip(v);
  }

  lemma HexReadsBack(e: Entries, key: Key, v: U32)
    requires key in e && e[key] == FormatHex8(v)
    ensures ReadHex(e, key) == Some(v)
  {
    HexRoundTrip(v);
  }

  lemma RoleReadsBack(e: Entries, r: Role)
    requires !r.InvalidRole?
    requires r != Unrecorded ==> LocationRole in e && e[LocationRole] == RoleName(r)
    requires r == Unrecorded ==> LocationRole !in e
    ensures ReadRole(e) == Some(r)
  {
    if r != Unrecorded {
      assert Visible(RoleName(r));
      TrimNothing(RoleName(r));
      assert LowerAll(RoleName(r)) == RoleName(r);
    }
  }

  /** What a printed selection reads as. */
  ghost predicate ReadsAs(sel: Selection, raw: Raw) {
    var id := sel.identity;
    && raw.index == Some(sel.legacyIndex) && raw.version == Some(if sel.stable then 1 else 0)
    && (sel.stable ==>
          && raw.device == Some(id.deviceId) && raw.subsystem == Some(id.subSystemId)
          && raw.revision == Some(id.revisionId) && raw.ext == Some(id.extDeviceId)
          && raw.located == Some(if id.HasLocation() then 1 else 0)
          && (id.HasLocation() ==>
                && raw.domain == Some(id.domain) && raw.bus == Some(id.bus)
                && raw.slot == Some(id.device) && raw.function_ == Some(id.function_)
                && raw.role == Some(sel.role)))
  }

  lemma IndexReadsBack(sel: Selection, e: Entries)
    requires Format(sel).Some? && e == Format(sel).value
    ensures ReadNumber(e, SelectedIndex) == Some(sel.legacyIndex)
  {
    NumberReadsBack(e, SelectedIndex, sel.legacyIndex);
  }

  lemma VersionReadsBack(sel: Selection, e: Entries)
    requires Format(sel).Some? && e == Format(sel).value
    ensures ReadNumber(e, IdentityVersion) == Some(if sel.stable then 1 else 0)
  {
    NumberReadsBack(e, IdentityVersion, if sel.stable then 1 else 0);
  }

  lemma LocatedReadsBack(sel: Selection, e: Entries)
    requires Format(sel).Some? && e == Format(sel).value
    ensures ReadNumber(e, BdfValid) == Some(if sel.stable && sel.identity.HasLocation() then 1 else 0)
  {
    NumberReadsBack(e, BdfValid, if sel.stable && sel.identity.HasLocation() then 1 else 0);
  }

  lemma DeviceReadsBack(sel: Selection, e: Entries)
    requires Format(sel).Some? && e == Format(sel).value && sel.stable
    ensures ReadHex(e, DeviceId) == Some(sel.identity.deviceId)
    ensures ReadHex(e, SubsystemId) == Some(sel.identity.subSystemId)
  {
    HexReadsBack(e, DeviceId, sel.identity.deviceId);
    HexReadsBack(e, SubsystemId, sel.identity.subSystemId);
  }

  lemma RevisionReadsBack(sel: Selection, e: Entries)
    requires Format(sel).Some? && e == Format(sel).value && sel.stable
    ensures ReadHex(e, RevisionId) == Some(sel.identity.revisionId)
    ensures ReadHex(e, ExtDeviceId) == Some(sel.identity.extDeviceId)
  {
    HexReadsBack(e, RevisionId, sel.identity.revisionId);
    HexReadsBack(e, ExtDeviceId, sel.identity.extDeviceId);
  }

  lemma DomainAndBusReadBack(sel: Selection, e: Entries)
    requires Format(sel).Some? && e == Format(sel).value
    requires sel.stable && sel.identity.HasLocation()
    ensures ReadNumber(e, PciDomain) == Some(sel.identity.domain)
    ensures ReadNumber(e, PciBus) == Some(sel.identity.bus)
  {
    NumberReadsBack(e, PciDomain, sel.identity.domain);
    NumberReadsBack(e, PciBus, sel.identity.bus);
  }

  lemma DeviceAndFunctionReadBack(sel: Selection, e: Entries)
    requires Format(sel).Some? && e == Format(sel).value
    requires sel.stable && sel.identity.HasLocation()
    ensures ReadNumber(e, PciDevice) == Some(sel.identity.device)
    ensures ReadNumber(e, PciFunction) == Some(sel.identity.function_)
  {
    NumberReadsBack(e, PciDevice, sel.identity.device);
    NumberReadsBack(e, PciFunction, sel.identity.function_);
  }

  lemma PrintedRoleReadsBack(sel: Selection, e: Entries)
    requires Format(sel).Some? && e == Format(sel).value
    requires sel.stable && sel.identity.HasLocation()
    ensures ReadRole(e) == Some(sel.role)
  {
    RoleReadsBack(e, sel.role);
  }

  lemma SelectionReadsBack(sel: Selection, e: Entries)
    requires Format(sel).Some? && e == Format(sel).value
    ensures ReadsAs(sel, ReadRaw(e))
  {
    IndexReadsBack(sel, e);
    VersionReadsBack(sel, e);
    LocatedReadsBack(sel, e);
    if sel.stable {
      DeviceReadsBack(sel, e);
      RevisionReadsBack(sel, e);
      if sel.identity.HasLocation() {
        DomainAndBusReadBack(sel, e);
        DeviceAndFunctionReadBack(sel, e);
        PrintedRoleReadsBack(sel, e);
      }
    }
  }

  /** A role is only recorded together with a location. */
  predicate WellFormed(sel: Selection) {
    !sel.stable || sel.identity.HasLocation() || sel.role == Unrecorded
  }

  /** Parsing a printed selection always succeeds, and gives back an equal one exactly when it is
      well formed; so the publication readback cannot fail on a well-formed selection. */
  lemma PrintedSelectionParsesBack(sel: Selection, e: Entries)
    requires Format(sel).Some? && e == Format(sel).value
    ensures Parse(e).Some?
    ensures SameSelection(sel, Parse(e).value) <==> WellFormed(sel)
  {
    SelectionReadsBack(sel, e);
    DecodedIsSame(sel, ReadRaw(e));
  }

  lemma DecodedIsSame(sel: Selection, raw: Raw)
    requires Format(sel).Some? && ReadsAs(sel, raw)
    ensures Decode(raw).Some?
    ensures SameSelection(sel, Decode(raw).value) <==> WellFormed(sel)
  {
  }
}

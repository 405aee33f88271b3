/** What the readers of numbers and texts accept, told from the characters. */
module TextMeaning {
  import opened Ints
  import opened Text
  import opened Ini
  import opened GpuSelection
  import opened Options

  // ---------------------------------------------------------------- blanks

  /** Positions i..j of `s` are what trimming leaves: everything outside is blank, both ends inside are not. */
  predicate TrimsTo(s: string, i: nat, j: nat) {
    && i <= j <= |s| && (forall k :: 0 <= k < i ==> s[k] <= ' ') && (forall k :: j <= k < |s| ==> s[k] <= ' ')
    && (i < j ==> s[i] > ' ' && s[j - 1] > ' ')
  }

  lemma {:induction false} TrimMeans(s: string)
    ensures exists i: nat, j: nat :: TrimsTo(s, i, j) && Trim(s) == s[i..j]
  {
    if s == [] {
      assert TrimsTo(s, 0, 0);
    } else if s[0] <= ' ' {
      TrimMeans(s[1..]);
      var i: nat, j: nat :| TrimsTo(s[1..], i, j) && Trim(s[1..]) == s[1..][i..j];
      assert forall k :: 0 < k < |s| ==> s[k] == s[1..][k - 1];
      assert s[i + 1..j + 1] == s[1..][i..j];
      assert TrimsTo(s, i + 1, j + 1);
    } else if s[|s| - 1] <= ' ' {
      var front := s[..|s| - 1];
      TrimMeans(front);
      var i: nat, j: nat :| TrimsTo(front, i, j) && Trim(front) == front[i..j];
      assert s[i..j] == front[i..j] && TrimsTo(s, i, j);
    } else {
      assert TrimsTo(s, 0, |s|) && s[0..|s|] == s;
    }
  }

  // --------------------------------------------------------------- numbers

  lemma DecimalDigits(c: char)
    ensures DigitValue(c) < 10 <==> '0' <= c <= '9'
    ensures '0' <= c <= '9' ==> DigitValue(c) == c as int - '0' as int
    ensures DigitValue(c) < 16 <==> '0' <= c <= '9' || 'A' <= c <= 'F' || 'a' <= c <= 'f'
  {
  }

  /** `s` is blanks up to `i`, a sign up to `j` if `i < j`, and decimal digits with this value. */
  predicate Decimal(s: string, i: nat, j: nat, v: int) {
    && i <= j <= i + 1 && j < |s| && (forall k :: 0 <= k < i ==> s[k] == ' ' || '\t' <= s[k] <= '\r')
    && (i < j ==> s[i] == '-' || s[i] == '+') && (forall k :: j <= k < |s| ==> '0' <= s[k] <= '9')
    && v == (if i < j && s[i] == '-' then 0 - NumberOf(s[j..], false) else NumberOf(s[j..], false))
  }

  lemma {:induction false} SkipsTo(s: string, i: nat)
    requires i < |s| && (forall k :: 0 <= k < i ==> IsSpace(s[k])) && !IsSpace(s[i])
    ensures SkipSpace(s) == s[i..]
  {
    if i > 0 {
      assert s[1..][i - 1..] == s[i..];
      SkipsTo(s[1..], i - 1);
    }
  }

  lemma {:induction false} SkipSplits(s: string)
    ensures exists i: nat :: i <= |s| && SkipSpace(s) == s[i..] && (forall k :: 0 <= k < i ==> IsSpace(s[k])) && (i < |s| ==> !IsSpace(s[i]))
  {
    if s != [] && IsSpace(s[0]) {
      SkipSplits(s[1..]);
      var i: nat :| i <= |s| - 1 && SkipSpace(s[1..]) == s[1..][i..] && (forall k :: 0 <= k < i ==> IsSpace(s[1..][k])) && (i < |s| - 1 ==> !IsSpace(s[1..][i]));
      assert s[1..][i..] == s[i + 1..];
      forall k | 0 <= k < i + 1 ensures IsSpace(s[k]) { if k > 0 { assert s[k] == s[1..][k - 1]; } }
      assert i + 1 <= |s| && SkipSpace(s) == s[i + 1..];
    } else {
      assert s[0..] == s;
    }
  }

  lemma {:induction false} ParsedAt(s: string, i: nat, j: nat)
    requires i < |s| && SkipSpace(s) == s[i..] && j == (if s[i] == '-' || s[i] == '+' then i + 1 else i)
    ensures
      var n: int := if j == |s| || !AllDigits(s[j..], false) then 0 else if s[i] == '-' then 0 - NumberOf(s[j..], false) else NumberOf(s[j..], false);
      ParseInt(s) == if j < |s| && AllDigits(s[j..], false) && INT_MIN <= n <= INT_MAX then Some(n) else None
  {
    assert s[i..][1..] == s[i + 1..] && s[i..][0] == s[i];
  }

  /** A text is taken as a number exactly when it is blanks, an optional sign and digits, to the last
      character, and its value fits an `int`. */
  lemma ParseIntMeans(s: string, v: I32)
    ensures ParseInt(s) == Some(v) <==> exists i: nat, j: nat :: Decimal(s, i, j, v)
  {
    if ParseInt(s) == Some(v) { NumberIsDecimal(s, v); }
    if i: nat, j: nat :| Decimal(s, i, j, v) { DecimalIsNumber(s, i, j, v); }
  }

  lemma NumberIsDecimal(s: string, v: I32)
    requires ParseInt(s) == Some(v)
    ensures exists i: nat, j: nat :: Decimal(s, i, j, v)
  {
    SkipSplits(s);
    var i: nat :| i <= |s| && SkipSpace(s) == s[i..] && (forall k :: 0 <= k < i ==> IsSpace(s[k])) && (i < |s| ==> !IsSpace(s[i]));
    var j := if s[i] == '-' || s[i] == '+' then i + 1 else i;
    ParsedAt(s, i, j);
    DigitsThere(s, j);
    assert Decimal(s, i, j, v);
  }

  lemma DecimalIsNumber(s: string, i: nat, j: nat, v: I32)
    requires Decimal(s, i, j, v)
    ensures ParseInt(s) == Some(v)
  {
    assert '0' <= s[j] <= '9';
    SkipsTo(s, i);
    DigitsThere(s, j);
    ParsedAt(s, i, j);
  }

  lemma DigitsThere(s: string, j: nat)
    requires j <= |s|
    ensures AllDigits(s[j..], false) <==> forall k :: j <= k < |s| ==> '0' <= s[k] <= '9'
  {
    forall k | j <= k < |s| ensures DigitValue(s[j..][k - j]) < 10 <==> '0' <= s[k] <= '9' { DecimalDigits(s[k]); }
  }

  /** Eight hexadecimal digits at most, and nothing else. */
  lemma {:induction false} ParseHexMeans(s: string, v: U32)
    ensures ParseHex8(s) == Some(v) <==>
      1 <= |s| <= 8 && (forall k :: 0 <= k < |s| ==> '0' <= s[k] <= '9' || 'A' <= s[k] <= 'F' || 'a' <= s[k] <= 'f') && NumberOf(s, true) == v
  {
    forall k | 0 <= k < |s| ensures DigitValue(s[k]) < 16 <==> '0' <= s[k] <= '9' || 'A' <= s[k] <= 'F' || 'a' <= s[k] <= 'f' { DecimalDigits(s[k]); }
  }

  // ------------------------------------------------------------ case folding

  lemma {:induction false} SameIgnoringCaseMeans(a: string, b: string)
    ensures SameIgnoringCase(a, b) <==> LowerAll(a) == LowerAll(b)
  {
    if |a| == |b| && a != "" {
      SameIgnoringCaseMeans(a[1..], b[1..]);
      assert LowerAll(a) == [Lower(a[0])] + LowerAll(a[1..]) && LowerAll(b) == [Lower(b[0])] + LowerAll(b[1..]);
      assert LowerAll(a)[0] == Lower(a[0]) && LowerAll(b)[0] == Lower(b[0]);
      assert LowerAll(a)[1..] == LowerAll(a[1..]) && LowerAll(b)[1..] == LowerAll(b[1..]);
    }
  }

  lemma LowerMeans(c: char)
    ensures 'A' <= c <= 'Z' ==> Lower(c) as int == c as int + 32
    ensures !('A' <= c <= 'Z') ==> Lower(c) == c
  {
  }

  // --------------------------------------------------------------- key values

  /** A key's number: absent when the first 63 characters are missing or blank, malformed when they hold
      anything but one number. */
  lemma ReadIntMeans(e: Entries, k: Key)
    ensures
      var t := if k in e then (if |e[k]| < 64 then e[k] else e[k][..63]) else "";
      && (ReadInt(e, k) == Absent <==> Trim(t) == "")
      && (Trim(t) != "" ==> ReadInt(e, k) == if ParseInt(Trim(t)).Some? then Got(ParseInt(Trim(t)).value) else Malformed)
  {
  }

  /** The plain settings reader takes the default for anything it cannot take as a number of at most 30
      characters; the plain text reader fails on what is missing, blank or too long. */
  lemma ConfigReadersMean(e: Entries, k: Key, default: I32, size: nat)
    requires size <= 512
    ensures ConfigInt(e, k, default)
         == if k in e && |e[k]| < 31 && ParseInt(Trim(e[k])).Some? then ParseInt(Trim(e[k])).value else default
    ensures ConfigString(e, k, size)
         == if k in e && |e[k]| < 511 && 0 < |Trim(e[k])| < size then Some(Trim(e[k])) else None
  {
    if k in e && Trim(e[k]) == "" { NothingIsNoNumber(); }
  }

  lemma NothingIsNoNumber()
    ensures ParseInt("") == None
  {
  }

  // --------------------------------------------------------- the GPU selection

  /** What tells two selections apart. */
  function Essence(s: Selection): (int, bool, Option<(int, int, int, int)>, Option<(int, int, int, int)>, Option<Role>) {
    var id := s.identity;
    (s.legacyIndex, s.stable,
     if s.stable then Some((id.deviceId, id.subSystemId, id.revisionId, id.extDeviceId)) else None,
     if s.stable && Located(id) then Some((id.domain, id.bus, id.device, id.function_)) else None,
     if s.stable then Some(s.role) else None)
  }

  /** A bus address in range that is not all zero. */
  predicate Located(id: Identity) {
    id.domain <= 65535 && id.bus <= 255 && id.device <= 31 && id.function_ <= 7 && !(id.domain == 0 && id.bus == 0 && id.device == 0 && id.function_ == 0)
  }

  /** Two selections count as the same exactly when index, model, location and role agree; a stable one must
      carry a valid identity. */
  lemma SameSelectionMeans(a: Selection, b: Selection)
    ensures SameSelection(a, b) <==>
      && Essence(a) == Essence(b)
      && (a.stable ==> a.identity.valid && b.identity.valid && a.identity.pciInfoValid && b.identity.pciInfoValid)
  {
  }

  /** A selection's values: 31 characters or more are refused; a blank number is 0, a blank id is refused. */
  lemma SelectionValuesMean(e: Entries, k: Key)
    ensures ReadNumber(e, k) ==
      if k !in e then Some(0) else if |e[k]| >= 31 then None else if Trim(e[k]) == "" then Some(0) else ParseInt(Trim(e[k]))
    ensures ReadHex(e, k) == if k !in e || e[k] == "" || |e[k]| >= 31 then None else ParseHex8(Trim(e[k]))
    ensures ReadRole(e) == if LocationRole !in e then ParseRole("") else if |e[LocationRole]| >= 31 then None else ParseRole(Trim(e[LocationRole]))
  {
  }

  predicate Within(v: Option<I32>, max: int) {
    v.Some? && 0 <= v.value <= max
  }

  /** A section is taken as a selection exactly when its index lies in 0..7, its version in 0..1, and for
      version 1 its ids parse with a nonzero device, and its location, if it claims one, is in range, not
      all zero and has a known role. */
  lemma ParsesExactlyWhen(e: Entries)
    ensures
      var located := ReadNumber(e, BdfValid);
      Parse(e).Some? <==>
        && Within(ReadNumber(e, SelectedIndex), 7) && Within(ReadNumber(e, IdentityVersion), 1)
        && (ReadNumber(e, IdentityVersion).value == 1 ==>
              && ReadHex(e, DeviceId).Some? && ReadHex(e, SubsystemId).Some? && ReadHex(e, RevisionId).Some? && ReadHex(e, ExtDeviceId).Some?
              && ReadHex(e, DeviceId).value != 0 && Within(located, 1)
              && (located.value == 1 ==>
                    && Within(ReadNumber(e, PciDomain), 65535) && Within(ReadNumber(e, PciBus), 255)
                    && Within(ReadNumber(e, PciDevice), 31) && Within(ReadNumber(e, PciFunction), 7)
                    && !(ReadNumber(e, PciDomain).value == 0 && ReadNumber(e, PciBus).value == 0
                         && ReadNumber(e, PciDevice).value == 0 && ReadNumber(e, PciFunction).value == 0)
                    && ReadRole(e).Some?))
  {
  }

  lemma DecodedFields(raw: Raw)
    requires Decode(raw).Some?
    ensures
      var s := Decode(raw).value;
      && Some(s.legacyIndex) == raw.index && s.stable == (raw.version == Some(1))
      && (s.stable ==>
            && Some(s.identity.deviceId) == raw.device && Some(s.identity.subSystemId) == raw.subsystem
            && Some(s.identity.revisionId) == raw.revision && Some(s.identity.extDeviceId) == raw.ext
            && s.identity.valid && s.identity.pciInfoValid
            && (raw.located == Some(1) ==> PlacedAt(s, raw.domain, raw.bus, raw.slot, raw.function_, raw.role))
            && (raw.located == Some(0) ==> !Located(s.identity) && s.role == Unrecorded))
  {
  }

  predicate PlacedAt(s: Selection, domain: Option<I32>, bus: Option<I32>, device: Option<I32>, function_: Option<I32>, role: Option<Role>) {
    && Some(s.identity.domain) == domain && Some(s.identity.bus) == bus && Some(s.identity.device) == device
    && Some(s.identity.function_) == function_ && Some(s.role) == role
  }

  /** And then it is the selection its keys spell out: the index and, for version 1, the ids; */
  lemma ParsedFields(e: Entries)
    requires Parse(e).Some?
    ensures
      var s := Parse(e).value;
      && Some(s.legacyIndex) == ReadNumber(e, SelectedIndex) && s.stable == (ReadNumber(e, IdentityVersion) == Some(1))
      && (s.stable ==>
            && Some(s.identity.deviceId) == ReadHex(e, DeviceId) && Some(s.identity.subSystemId) == ReadHex(e, SubsystemId)
            && Some(s.identity.revisionId) == ReadHex(e, RevisionId) && Some(s.identity.extDeviceId) == ReadHex(e, ExtDeviceId)
            && s.identity.valid && s.identity.pciInfoValid)
  {
    DecodedFields(ReadRaw(e));
  }

  /** and its location with its role, or none. */
  lemma ParsedLocation(e: Entries)
    requires Parse(e).Some? && Parse(e).value.stable
    ensures
      var s, located := Parse(e).value, ReadNumber(e, BdfValid);
      && (located == Some(1) ==>
            PlacedAt(s, ReadNumber(e, PciDomain), ReadNumber(e, PciBus), ReadNumber(e, PciDevice), ReadNumber(e, PciFunction), ReadRole(e)))
      && (located == Some(0) ==> !Located(s.identity) && s.role == Unrecorded)
  {
    DecodedFields(ReadRaw(e));
  }

  /** The role names, in any case; nothing at all means unrecorded. */
  lemma RoleNames(text: string)
    ensures ParseRole(text) == Some(Unrecorded) <==> text == ""
    ensures ParseRole(text) == Some(Advisory) <==> LowerAll(text) == "advisory"
    ensures ParseRole(text) == Some(Required) <==> LowerAll(text) == "required"
  {
  }
}

/** The logon-selection transaction: rewrite two keys of [profiles] and keep every other line. */
module Logon {
  import opened Ints
  import opened Text
  import opened Options
  import opened Slots

  const LOGON := "logon_slot"
  const SHARED := "logon_shared_slot"
  const HEADER := "[profiles]"
  const CRLF := "\r\n"
  const SECTION_CAPACITY: nat := 32768

  // ------------------------------------------------------------ section lines

  /** A line of a section as the profile API returns it: one "key=value", never empty, never a header. */
  predicate Line(e: string) {
    e != "" && e[0] != '[' && OneLine(e)
  }

  predicate OneLine(t: string) {
    '\r' !in t && '\n' !in t
  }

  predicate AllLines(es: seq<string>) {
    forall i :: 0 <= i < |es| ==> Line(es[i])
  }

  predicate Blank(c: char) {
    c == ' ' || c == '\t'
  }

  function EqualsAt(s: string): (n: nat)
    ensures n <= |s|
    ensures n < |s| ==> s[n] == '='
    ensures forall k :: 0 <= k < n ==> s[k] != '='
  {
    if s == "" then 0 else if s[0] == '=' then 0 else 1 + EqualsAt(s[1..])
  }

  function TrimBlanks(s: string): string {
    if s == "" then s
    else if Blank(s[|s| - 1]) then TrimBlanks(s[..|s| - 1])
    else if Blank(s[0]) then TrimBlanks(s[1..])
    else s
  }

  predicate HasKey(e: string, key: string) {
    EqualsAt(e) < |e| && SameIgnoringCase(TrimBlanks(e[..EqualsAt(e)]), key)
  }

  method FindEquals(e: string) returns (n: nat)
    ensures n == EqualsAt(e)
  {
    n := 0;
    while n < |e| && e[n] != '='
      invariant n <= |e| && EqualsAt(e) == n + EqualsAt(e[n..])
    {
      n := n + 1;
    }
  }

  /** profiles_section_entry_has_key. */
  method EntryHasKey(e: string, key: string) returns (has: bool)
    ensures has == HasKey(e, key)
  {
    var equals := FindEquals(e);
    if equals == |e| { return false; }
    var end := equals;
    while end > 0 && Blank(e[end - 1])
      invariant 0 <= end <= equals && TrimBlanks(e[..equals]) == TrimBlanks(e[..end])
    {
      assert e[..end][..end - 1] == e[..end - 1];
      end := end - 1;
    }
    var begin := 0;
    while begin < end && Blank(e[begin])
      invariant 0 <= begin <= end && TrimBlanks(e[..equals]) == TrimBlanks(e[begin..end])
      invariant end > 0 ==> !Blank(e[end - 1])
    {
      assert e[begin..end][1..] == e[begin + 1..end];
      begin := begin + 1;
    }
    return SameIgnoringCase(e[begin..end], key);
  }

  predicate IsLogonLine(e: string) {
    HasKey(e, LOGON) || HasKey(e, SHARED)
  }

  /** The lines the transaction does not touch, in order. */
  function Others(es: seq<string>): seq<string> {
    if es == [] then []
    else if IsLogonLine(es[|es| - 1]) then Others(es[..|es| - 1])
    else Others(es[..|es| - 1]) + [es[|es| - 1]]
  }

  function CountKey(es: seq<string>, key: string): nat {
    if es == [] then 0 else CountKey(es[..|es| - 1], key) + if HasKey(es[|es| - 1], key) then 1 else 0
  }

  /** The value the profile API returns for a key: the first line that has it. */
  function ValueOf(es: seq<string>, key: string): Option<string> {
    if es == [] then None
    else if HasKey(es[0], key) then Some(es[0][EqualsAt(es[0]) + 1..])
    else ValueOf(es[1..], key)
  }

  function LogonLine(perUser: int): string {
    LOGON + "=" + FormatInt(perUser)
  }

  function SharedLine(shared: int): string {
    SHARED + "=" + FormatInt(shared)
  }

  function Updated(es: seq<string>, perUser: int, shared: int): seq<string> {
    Others(es) + [LogonLine(perUser), SharedLine(shared)]
  }

  // -------------------------------------------------------------- output text

  /** Length of the section as the API reports it: every line with its terminator. */
  function SectionLength(es: seq<string>): nat {
    if es == [] then 0 else SectionLength(es[..|es| - 1]) + |es[|es| - 1]| + 1
  }

  function SelectionText(perUser: int, shared: int): string {
    LogonLine(perUser) + CRLF + SharedLine(shared) + CRLF + CRLF
  }

  function WithBreak(e: string): (t: string)
    ensures |t| == |e| + 2
  {
    e + CRLF
  }

  /** `start` followed by the kept ones of the first `n` lines. */
  function Built(start: string, es: seq<string>, n: nat): string
    requires n <= |es|
  {
    if n == 0 then start
    else if IsLogonLine(es[n - 1]) then Built(start, es, n - 1)
    else Built(start, es, n - 1) + WithBreak(es[n - 1])
  }

  function OutputText(es: seq<string>, perUser: int, shared: int): string {
    Built(HEADER + CRLF, es, |es|) + SelectionText(perUser, shared)
  }

  /** The first `n` characters of the array are those of the text. */
  ghost predicate Agrees(data: array<char>, text: string, n: nat)
    reads data
  {
    n <= data.Length && n <= |text| && (n == 0 || (data[n - 1] == text[n - 1] && Agrees(data, text, n - 1)))
  }

  lemma {:induction false} AgreesMeans(data: array<char>, text: string, n: nat)
    requires n <= data.Length && n <= |text|
    ensures Agrees(data, text, n) <==> forall i :: 0 <= i < n ==> data[i] == text[i]
  {
    if n > 0 { AgreesMeans(data, text, n - 1); }
  }

  /** A fixed buffer filled from the front; it refuses text that would leave no room for the terminator. */
  class Buffer {
    const data: array<char>
    var used: nat
    ghost var text: string

    ghost predicate Valid()
      reads this, data
    {
      |text| == used && Agrees(data, text, used)
    }

    constructor (capacity: nat)
      ensures Valid() && fresh(data) && data.Length == capacity && text == ""
    {
      data := new char[capacity];
      used, text := 0, "";
    }

    method Append(t: string) returns (ok: bool)
      requires Valid()
      modifies this, data
      ensures Valid()
      ensures ok == (|old(text)| + |t| + 1 <= data.Length)
      ensures text == if ok then old(text) + t else old(text)
    {
      if used + |t| + 1 > data.Length { return false; }
      AgreesMeans(data, text, used);
      var i := 0;
      while i < |t|
        invariant 0 <= i <= |t| && used == old(used) && text == old(text)
        invariant forall j :: 0 <= j < used ==> data[j] == text[j]
        invariant forall j :: used <= j < used + i ==> data[j] == t[j - used]
      {
        data[used + i] := t[i];
        i := i + 1;
      }
      used, text := used + |t|, text + t;
      AgreesMeans(data, text, used);
      return true;
    }

    /** The characters written so far. */
    method Contents() returns (t: string)
      requires Valid()
      ensures t == text
    {
      AgreesMeans(data, text, used);
      t := data[..used];
    }
  }

  // ------------------------------------------------ the buffer is never too small

  lemma {:induction false} BuiltGrows(start: string, es: seq<string>, i: nat, n: nat)
    requires i <= n <= |es|
    ensures |Built(start, es, i)| <= |Built(start, es, n)|
  {
    if i < n { BuiltGrows(start, es, i, n - 1); }
  }

  lemma {:induction false} BuiltIsShort(start: string, es: seq<string>, n: nat)
    requires n <= |es|
    ensures |Built(start, es, n)| <= |start| + 2 * SectionLength(es[..n])
  {
    if n > 0 {
      BuiltIsShort(start, es, n - 1);
      assert es[..n][..n - 1] == es[..n - 1];
    }
  }

  lemma SlotDigit(v: int)
    requires 0 <= v <= NUM_SLOTS
    ensures |FormatInt(v)| == 1
  {
  }

  lemma SelectionIsShort(perUser: int, shared: int)
    requires 0 <= perUser <= NUM_SLOTS && 0 <= shared <= NUM_SLOTS
    ensures |HEADER| + |CRLF| + |SelectionText(perUser, shared)| == 49
  {
    SlotDigit(perUser);
    SlotDigit(shared);
  }

  method AppendLine(output: Buffer, e: string) returns (ok: bool)
    requires output.Valid()
    modifies output, output.data
    ensures output.Valid()
    ensures ok == (|old(output.text)| + |WithBreak(e)| + 1 <= output.data.Length)
    ensures ok ==> output.text == old(output.text) + WithBreak(e)
  {
    ok := output.Append(e);
    if ok { ok := output.Append(CRLF); }
  }

  /** One round of the loop. */
  method AppendUnlessLogon(output: Buffer, es: seq<string>, i: nat, ghost start: string) returns (ok: bool)
    requires output.Valid() && i < |es| && output.text == Built(start, es, i)
    requires |Built(start, es, i + 1)| < output.data.Length
    modifies output, output.data
    ensures ok && output.Valid() && output.text == Built(start, es, i + 1)
  {
    var logon := EntryHasKey(es[i], LOGON);
    var shared := EntryHasKey(es[i], SHARED);
    if logon || shared { return true; }
    ok := AppendLine(output, es[i]);
  }

  /** Append every line the transaction keeps; with room for all of them none is refused. */
  method AppendOthers(output: Buffer, es: seq<string>) returns (ok: bool)
    requires output.Valid() && |Built(output.text, es, |es|)| < output.data.Length
    modifies output, output.data
    ensures ok && output.Valid() && output.text == Built(old(output.text), es, |es|)
  {
    ghost var start := output.text;
    for i := 0 to |es|
      invariant output.Valid() && output.text == Built(start, es, i)
    {
      BuiltGrows(start, es, i + 1, |es|);
      ok := AppendUnlessLogon(output, es, i, start);
      if !ok { return; }
    }
    return true;
  }

  /** Fill the buffer of 2*length+256 characters; no append is ever refused. */
  method BuildSection(es: seq<string>, perUser: int, shared: int) returns (built: bool, output: Buffer)
    requires 0 <= perUser <= NUM_SLOTS && 0 <= shared <= NUM_SLOTS
    ensures built && output.Valid() && output.text == OutputText(es, perUser, shared)
  {
    ghost var start := HEADER + CRLF;
    assert es[..|es|] == es;
    BuiltIsShort(start, es, |es|);
    SelectionIsShort(perUser, shared);
    output := new Buffer(2 * SectionLength(es) + 256);
    built := AppendLine(output, HEADER);
    assert output.text == start;
    if built { built := AppendOthers(output, es); }
    if built { built := output.Append(SelectionText(perUser, shared)); }
  }

  // ------------------------------------------------ reading the committed text

  predicate IsBreak(c: char) {
    c == '\r' || c == '\n'
  }

  function FirstBreak(t: string): (n: nat)
    ensures n <= |t|
  {
    if t == "" || IsBreak(t[0]) then 0 else 1 + FirstBreak(t[1..])
  }

  /** Drop one line break: CR, LF or CRLF. */
  function AfterBreak(t: string): (r: string)
    ensures |r| <= |t| && (t != "" && IsBreak(t[0]) ==> |r| < |t|)
  {
    var u := if t != "" && t[0] == '\r' then t[1..] else t;
    if u != "" && u[0] == '\n' then u[1..] else u
  }

  lemma {:induction false} FirstBreakStops(t: string)
    ensures FirstBreak(t) < |t| ==> IsBreak(t[FirstBreak(t)])
  {
    if t != "" && !IsBreak(t[0]) { FirstBreakStops(t[1..]); }
  }

  function Split(t: string): seq<string>
    decreases |t|
  {
    if t == "" then []
    else
      FirstBreakStops(t);
      var n := FirstBreak(t);
      if n == |t| then [t] else [t[..n]] + Split(AfterBreak(t[n..]))
  }

  /** The key lines up to the next header, without blank lines. */
  function Body(lines: seq<string>): seq<string> {
    if lines == [] then []
    else if lines[0] == "" then Body(lines[1..])
    else if lines[0][0] == '[' then []
    else [lines[0]] + Body(lines[1..])
  }

  function SectionLines(t: string): seq<string> {
    var lines := Split(t);
    if lines != [] && SameIgnoringCase(lines[0], HEADER) then Body(lines[1..]) else []
  }

  lemma {:induction false} BreakAfterLine(e: string, rest: string)
    requires OneLine(e)
    ensures FirstBreak(e + CRLF + rest) == |e|
  {
    var t := e + CRLF + rest;
    if e == "" {
      assert t[0] == '\r';
    } else {
      assert t[0] == e[0] && e[0] in e;
      assert t[1..] == e[1..] + CRLF + rest;
      BreakAfterLine(e[1..], rest);
    }
  }

  lemma {:induction false} SplitLine(e: string, rest: string)
    requires OneLine(e)
    ensures Split(e + CRLF + rest) == [e] + Split(rest)
  {
    var t := e + CRLF + rest;
    BreakAfterLine(e, rest);
    assert t[..|e|] == e && t[|e|..] == CRLF + rest;
    assert (CRLF + rest)[1..][1..] == rest;
  }

  lemma Assoc<T>(a: seq<T>, b: seq<T>, c: seq<T>)
    ensures (a + b) + c == a + (b + c)
  {
  }

  /** Whatever follows `front`, splitting it gives these lines first. */
  ghost predicate SplitsTo(front: string, lines: seq<string>) {
    forall rest: string :: Split(front + rest) == lines + Split(rest)
  }

  /** One more line. */
  lemma SplitStep(front: string, lines: seq<string>, e: string)
    requires OneLine(e) && SplitsTo(front, lines)
    ensures SplitsTo(front + WithBreak(e), lines + [e])
  {
    forall rest: string ensures Split((front + WithBreak(e)) + rest) == (lines + [e]) + Split(rest) {
      Assoc(front, WithBreak(e), rest);
      SplitLine(e, rest);
      Assoc(lines, [e], Split(rest));
    }
  }

  lemma OthersStep(es: seq<string>, n: nat)
    requires 0 < n <= |es|
    ensures Others(es[..n]) == if IsLogonLine(es[n - 1]) then Others(es[..n - 1]) else Others(es[..n - 1]) + [es[n - 1]]
  {
    assert es[..n][..n - 1] == es[..n - 1];
  }

  lemma SplitHeader(header: string)
    requires OneLine(header)
    ensures SplitsTo(header + CRLF, [header])
  {
    forall rest: string ensures Split(header + CRLF + rest) == [header] + Split(rest) {
      SplitLine(header, rest);
    }
  }

  /** Splitting what was built gives the header and the kept lines. */
  lemma {:induction false} SplitBuilt(header: string, es: seq<string>, n: nat)
    requires n <= |es| && OneLine(header) && AllLines(es)
    ensures SplitsTo(Built(header + CRLF, es, n), [header] + Others(es[..n]))
  {
    if n == 0 {
      SplitHeader(header);
      assert [header] + Others(es[..0]) == [header];
    } else {
      OthersStep(es, n);
      SplitBuilt(header, es, n - 1);
      if !IsLogonLine(es[n - 1]) {
        SplitStep(Built(header + CRLF, es, n - 1), [header] + Others(es[..n - 1]), es[n - 1]);
        Assoc([header], Others(es[..n - 1]), [es[n - 1]]);
      }
    }
  }

  lemma {:induction false} BodyOfLines(es: seq<string>, rest: seq<string>)
    requires AllLines(es)
    ensures Body(es + rest) == es + Body(rest)
  {
    if es == [] {
      assert es + rest == rest;
    } else {
      assert (es + rest)[1..] == es[1..] + rest;
      BodyOfLines(es[1..], rest);
    }
  }

  lemma {:induction false} OthersAreLines(es: seq<string>)
    requires AllLines(es)
    ensures AllLines(Others(es))
  {
    if es != [] { OthersAreLines(es[..|es| - 1]); }
  }

  lemma KeyLineIsLine(key: string, v: int)
    requires 0 <= v <= NUM_SLOTS && Line(key)
    ensures Line(key + "=" + FormatInt(v))
  {
    SlotDigit(v);
    assert FormatInt(v)[0] == Digit(v);
  }

  lemma SelectionSplits(perUser: int, shared: int)
    requires 0 <= perUser <= NUM_SLOTS && 0 <= shared <= NUM_SLOTS
    ensures Split(SelectionText(perUser, shared)) == [LogonLine(perUser), SharedLine(shared), ""]
  {
    KeyLineIsLine(LOGON, perUser);
    KeyLineIsLine(SHARED, shared);
    SplitSelection(LogonLine(perUser), SharedLine(shared));
  }

  lemma {:induction false} SplitWhole(header: string, es: seq<string>, selection: string)
    requires OneLine(header) && AllLines(es)
    ensures Split(Built(header + CRLF, es, |es|) + selection) == ([header] + Others(es)) + Split(selection)
  {
    SplitBuilt(header, es, |es|);
    assert es[..|es|] == es;
  }

  lemma HeaderIsOneLine()
    ensures OneLine(HEADER)
  {
  }

  lemma {:induction false} SplitOutput(es: seq<string>, perUser: int, shared: int)
    requires AllLines(es) && 0 <= perUser <= NUM_SLOTS && 0 <= shared <= NUM_SLOTS
    ensures Split(OutputText(es, perUser, shared)) == ([HEADER] + Others(es)) + [LogonLine(perUser), SharedLine(shared), ""]
  {
    var selection := SelectionText(perUser, shared);
    assert Split(selection) == [LogonLine(perUser), SharedLine(shared), ""] by { SelectionSplits(perUser, shared); }
    HeaderIsOneLine();
    SplitWhole(HEADER, es, selection);
  }

  lemma AfterHeader(header: string, others: seq<string>, rest: seq<string>)
    ensures (([header] + others) + rest)[0] == header && (([header] + others) + rest)[1..] == others + rest
  {
  }

  lemma {:induction false} BodyOfUpdate(others: seq<string>, a: string, b: string)
    requires AllLines(others) && Line(a) && Line(b)
    ensures Body(others + [a, b, ""]) == others + [a, b]
  {
    BodyOfLines(others, [a, b, ""]);
    BodyOfLines([a, b], [""]);
    assert [a, b] + [""] == [a, b, ""];
  }

  /** The text that is committed reads back as the kept lines followed by the two new ones. */
  lemma OutputReadsBack(es: seq<string>, perUser: int, shared: int)
    requires AllLines(es) && 0 <= perUser <= NUM_SLOTS && 0 <= shared <= NUM_SLOTS
    ensures SectionLines(OutputText(es, perUser, shared)) == Updated(es, perUser, shared)
  {
    var a, b := LogonLine(perUser), SharedLine(shared);
    OthersAreLines(es);
    KeyLineIsLine(LOGON, perUser);
    KeyLineIsLine(SHARED, shared);
    SplitOutput(es, perUser, shared);
    SameAsItself(HEADER);
    BodyOfUpdate(Others(es), a, b);
    AfterHeader(HEADER, Others(es), [a, b, ""]);
  }

  lemma {:induction false} SplitSelection(a: string, b: string)
    requires Line(a) && Line(b)
    ensures Split(a + CRLF + b + CRLF + CRLF) == [a, b, ""]
  {
    Assoc(a + CRLF, b + CRLF, CRLF);
    Assoc(a + CRLF, b, CRLF);
    SplitLine(a, b + CRLF + CRLF);
    SplitLine(b, CRLF);
    SplitLastBreak();
  }

  lemma SplitLastBreak()
    ensures Split(CRLF) == [""]
  {
    SplitLine("", "");
    assert "" + CRLF + "" == CRLF;
  }

  // --------------------------------------------------- what the update leaves

  lemma {:induction false} EqualsAfterKey(key: string, rest: string)
    requires '=' !in key
    ensures EqualsAt(key + "=" + rest) == |key|
  {
    var t := key + "=" + rest;
    if key == "" {
      assert t[0] == '=';
    } else {
      assert t[0] == key[0] && key[0] in key;
      assert t[1..] == key[1..] + "=" + rest;
      EqualsAfterKey(key[1..], rest);
    }
  }

  lemma {:induction false} KeyLineHasKey(key: string, other: string, rest: string)
    requires '=' !in key && key != "" && !Blank(key[0]) && !Blank(key[|key| - 1]) && |other| != |key|
    ensures HasKey(key + "=" + rest, key) && !HasKey(key + "=" + rest, other)
    ensures (key + "=" + rest)[EqualsAt(key + "=" + rest) + 1..] == rest
  {
    var t := key + "=" + rest;
    EqualsAfterKey(key, rest);
    assert t[..|key|] == key;
    SameAsItself(key);
  }

  lemma {:induction false} OthersHaveNoLogonLine(es: seq<string>)
    ensures forall i :: 0 <= i < |Others(es)| ==> !IsLogonLine(Others(es)[i])
  {
    if es != [] { OthersHaveNoLogonLine(es[..|es| - 1]); }
  }

  lemma {:induction false} NothingToDrop(es: seq<string>)
    requires forall i :: 0 <= i < |es| ==> !IsLogonLine(es[i])
    ensures Others(es) == es
  {
    if es != [] { NothingToDrop(es[..|es| - 1]); }
  }

  lemma {:induction false} NothingToCount(es: seq<string>, key: string)
    requires forall i :: 0 <= i < |es| ==> !HasKey(es[i], key)
    ensures CountKey(es, key) == 0
  {
    if es != [] { NothingToCount(es[..|es| - 1], key); }
  }

  lemma {:induction false} ValueAfter(es: seq<string>, rest: seq<string>, key: string)
    requires forall i :: 0 <= i < |es| ==> !HasKey(es[i], key)
    ensures ValueOf(es + rest, key) == ValueOf(rest, key)
  {
    if es == [] {
      assert es + rest == rest;
    } else {
      assert (es + rest)[1..] == es[1..] + rest;
      ValueAfter(es[1..], rest, key);
    }
  }

  lemma TwoKeyLines(perUser: int, shared: int)
    ensures HasKey(LogonLine(perUser), LOGON) && !HasKey(LogonLine(perUser), SHARED)
    ensures HasKey(SharedLine(shared), SHARED) && !HasKey(SharedLine(shared), LOGON)
    ensures LogonLine(perUser)[EqualsAt(LogonLine(perUser)) + 1..] == FormatInt(perUser)
    ensures SharedLine(shared)[EqualsAt(SharedLine(shared)) + 1..] == FormatInt(shared)
  {
    KeyLineHasKey(LOGON, SHARED, FormatInt(perUser));
    KeyLineHasKey(SHARED, LOGON, FormatInt(shared));
  }

  /** Every other line is kept, in order; each logon key occurs exactly once. */
  lemma {:induction false} UpdateKeepsOtherLines(es: seq<string>, perUser: int, shared: int)
    ensures Others(Updated(es, perUser, shared)) == Others(es)
    ensures CountKey(Updated(es, perUser, shared), LOGON) == 1 == CountKey(Updated(es, perUser, shared), SHARED)
  {
    var others, a, b := Others(es), LogonLine(perUser), SharedLine(shared);
    TwoKeyLines(perUser, shared);
    OthersHaveNoLogonLine(es);
    NothingToDrop(others);
    NothingToCount(others, LOGON);
    NothingToCount(others, SHARED);
    var u := Updated(es, perUser, shared);
    assert u[..|u| - 1] == others + [a];
    assert (others + [a])[..|others|] == others;
  }

  /** And the two values read back as the chosen slots. */
  lemma UpdateReadsBack(es: seq<string>, perUser: int, shared: int)
    requires 0 <= perUser <= NUM_SLOTS && 0 <= shared <= NUM_SLOTS
    ensures ValueOf(Updated(es, perUser, shared), LOGON) == Some(FormatInt(perUser))
    ensures ValueOf(Updated(es, perUser, shared), SHARED) == Some(FormatInt(shared))
  {
    var rest := [LogonLine(perUser), SharedLine(shared)];
    TwoKeyLines(perUser, shared);
    OthersHaveNoLogonLine(es);
    ValueAfter(Others(es), rest, LOGON);
    ValueAfter(Others(es), rest, SHARED);
    assert rest[1..] == [SharedLine(shared)];
  }

  // ---------------------------------------------------------- the transaction

  predicate ValidSelection(perUser: int, shared: int) {
    0 <= perUser <= NUM_SLOTS && 0 <= shared <= NUM_SLOTS && !(perUser > 0 && shared > 0)
  }

  function SlotValue(es: seq<string>, key: string): Option<I32> {
    match ValueOf(es, key)
    case None => None
    case Some(t) => if 0 < |t| < 31 then ParseInt(t) else None
  }

  /** `commits` is whether the atomic section write succeeds. The locked readback then never fails. */
  method UpdateSelection(es: seq<string>, perUser: int, shared: int, commits: bool)
      returns (verified: bool, result: seq<string>)
    requires AllLines(es)
    ensures verified <==>
      0 <= perUser <= 5 && 0 <= shared <= 5 && (perUser == 0 || shared == 0) && SectionLength(es) < 32766 && commits
    ensures result == if verified then Updated(es, perUser, shared) else es
    ensures verified ==> Others(result) == Others(es) && CountKey(result, LOGON) == 1 == CountKey(result, SHARED)
    ensures verified ==> SlotValue(result, LOGON) == Some(perUser) && SlotValue(result, SHARED) == Some(shared)
  {
    if !ValidSelection(perUser, shared) || SectionLength(es) >= SECTION_CAPACITY - 2 { return false, es; }
    var built, output := BuildSection(es, perUser, shared);
    if !built || !commits { return false, es; }
    var text := output.Contents();
    OutputReadsBack(es, perUser, shared);
    UpdateKeepsOtherLines(es, perUser, shared);
    UpdateReadsBack(es, perUser, shared);
    IntRoundTrip(perUser);
    IntRoundTrip(shared);
    result := SectionLines(text);
    verified := SlotValue(result, LOGON) == Some(perUser) && SlotValue(result, SHARED) == Some(shared);
  }

  // ------------------------------------------------- the lines, told by their text

  predicate BlankOrTab(c: char) {
    c == ' ' || c == '\t'
  }

  /** Positions i..j of `s` are what trimming blanks and tabs leaves. */
  predicate BlanksAround(s: string, i: nat, j: nat) {
    && i <= j <= |s| && (forall k :: 0 <= k < i ==> BlankOrTab(s[k])) && (forall k :: j <= k < |s| ==> BlankOrTab(s[k]))
    && (i < j ==> !BlankOrTab(s[i]) && !BlankOrTab(s[j - 1]))
  }

  lemma {:induction false} TrimBlanksMeans(s: string)
    ensures exists i: nat, j: nat :: BlanksAround(s, i, j) && TrimBlanks(s) == s[i..j]
  {
    if s == "" {
      assert BlanksAround(s, 0, 0);
    } else if Blank(s[|s| - 1]) {
      var front := s[..|s| - 1];
      TrimBlanksMeans(front);
      var i: nat, j: nat :| BlanksAround(front, i, j) && TrimBlanks(front) == front[i..j];
      BlankBehind(front, s[|s| - 1], i, j);
      assert front + [s[|s| - 1]] == s;
    } else if Blank(s[0]) {
      TrimBlanksMeans(s[1..]);
      var i: nat, j: nat :| BlanksAround(s[1..], i, j) && TrimBlanks(s[1..]) == s[1..][i..j];
      BlankInFront(s[0], s[1..], i, j);
      assert [s[0]] + s[1..] == s;
    } else {
      assert s[0..|s|] == s && BlanksAround(s, 0, |s|);
    }
  }

  lemma BlankBehind(s: string, c: char, i: nat, j: nat)
    requires BlankOrTab(c) && BlanksAround(s, i, j)
    ensures BlanksAround(s + [c], i, j) && (s + [c])[i..j] == s[i..j]
  {
  }

  lemma BlankInFront(c: char, s: string, i: nat, j: nat)
    requires BlankOrTab(c) && BlanksAround(s, i, j)
    ensures BlanksAround([c] + s, i + 1, j + 1) && ([c] + s)[i + 1..j + 1] == s[i..j]
  {
  }

  /** What lies between the blanks is what trimming gives. */
  lemma {:induction false} BlanksAroundTrim(s: string, i: nat, j: nat)
    requires BlanksAround(s, i, j)
    ensures TrimBlanks(s) == s[i..j]
    decreases |s|
  {
    if s != "" {
      if j < |s| {
        assert s[..|s| - 1][i..j] == s[i..j];
        BlanksAroundTrim(s[..|s| - 1], i, j);
      } else if 0 < i < j {
        assert s[1..][i - 1..j - 1] == s[i..j];
        BlanksAroundTrim(s[1..], i - 1, j - 1);
      } else if i < j {
        assert s[i..j] == s;
      } else {
        AllBlankTrims(s);
      }
    }
  }

  lemma {:induction false} AllBlankTrims(s: string)
    requires forall k :: 0 <= k < |s| ==> BlankOrTab(s[k])
    ensures TrimBlanks(s) == ""
  {
    if s != "" { AllBlankTrims(s[..|s| - 1]); }
  }

  /** A line has a key exactly when its text before the first "=" is the key, in any case, between blanks and
      tabs. */
  lemma {:induction false} HasKeyMeans(e: string, key: string)
    ensures HasKey(e, key) <==>
      exists n: nat, i: nat, j: nat ::
        && n < |e| && e[n] == '=' && (forall k :: 0 <= k < n ==> e[k] != '=')
        && BlanksAround(e[..n], i, j) && SameIgnoringCase(e[..n][i..j], key)
  {
    var n := EqualsAt(e);
    if HasKey(e, key) {
      TrimBlanksMeans(e[..n]);
      var i: nat, j: nat :| BlanksAround(e[..n], i, j) && TrimBlanks(e[..n]) == e[..n][i..j];
    }
    if m: nat, i: nat, j: nat :|
      && m < |e| && e[m] == '=' && (forall k :: 0 <= k < m ==> e[k] != '=')
      && BlanksAround(e[..m], i, j) && SameIgnoringCase(e[..m][i..j], key)
    {
      assert m == n;
      BlanksAroundTrim(e[..n], i, j);
    }
  }

  /** The kept lines: exactly those with neither logon key, in their order. */
  lemma {:induction false} OthersMean(es: seq<string>, e: string)
    ensures Others([]) == []
    ensures Others(es + [e]) == Others(es) + if HasKey(e, "logon_slot") || HasKey(e, "logon_shared_slot") then [] else [e]
  {
    assert (es + [e])[..|es|] == es;
  }

  /** A key's value is the rest of the first line that has it. */
  lemma {:induction false} ValueOfMeans(es: seq<string>, key: string, v: string)
    ensures ValueOf(es, key) == Some(v) <==>
      exists k: nat :: k < |es| && HasKey(es[k], key) && (forall j :: 0 <= j < k ==> !HasKey(es[j], key)) && v == es[k][EqualsAt(es[k]) + 1..]
  {
    if es != [] && !HasKey(es[0], key) {
      ValueOfMeans(es[1..], key, v);
      if k: nat :| k < |es| && HasKey(es[k], key) && (forall j :: 0 <= j < k ==> !HasKey(es[j], key)) && v == es[k][EqualsAt(es[k]) + 1..] {
        assert es[1..][k - 1] == es[k];
        forall j | 0 <= j < k - 1 ensures !HasKey(es[1..][j], key) { assert es[1..][j] == es[j + 1]; }
      }
      if k: nat :| k < |es| - 1 && HasKey(es[1..][k], key) && (forall j :: 0 <= j < k ==> !HasKey(es[1..][j], key)) && v == es[1..][k][EqualsAt(es[1..][k]) + 1..] {
        assert es[k + 1] == es[1..][k];
        forall j | 0 <= j < k + 1 ensures !HasKey(es[j], key) { if j > 0 { assert es[j] == es[1..][j - 1]; } }
      }
    }
  }

  lemma {:induction false} CountKeyMeans(es: seq<string>, key: string)
    ensures CountKey(es, key) == |set i | 0 <= i < |es| && HasKey(es[i], key)|
  {
    if es != [] {
      var n := |es| - 1;
      CountKeyMeans(es[..n], key);
      var before, all := set i | 0 <= i < |es[..n]| && HasKey(es[..n][i], key), set i | 0 <= i < |es| && HasKey(es[i], key);
      assert all == before + if HasKey(es[n], key) then {n} else {};
    }
  }
}

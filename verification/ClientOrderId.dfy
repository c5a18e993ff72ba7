/** Printing and parsing of client order ids: PURPOSE_POSITION_LEG_SLICE_NONCE. */
module ClientOrderId {
  import opened Decimals
  import F = FixedPoint

  datatype LegSide = Long | Short | Unset

  datatype Parts = Parts(position: string, leg: LegSide, slice: F.Int64, nonce: F.Int64, purpose: string)

  const MAX_LENGTH := 32

  /** How single characters are turned into capitals. */
  type CaseMap = char -> char

  /** What is assumed of it: ASCII letters get their capitals, and the rest of ASCII stays. */
  ghost predicate MapsAscii(upper: CaseMap) {
    forall c :: c < 128 as char ==> upper(c) == if 'a' <= c <= 'z' then c - 'a' + 'A' else c
  }

  predicate InComponent(c: char) {
    'A' <= c <= 'Z' || '0' <= c <= '9' || c == '-'
  }

  predicate IsComponent(s: string) {
    forall i :: 0 <= i < |s| ==> InComponent(s[i])
  }

  function Sanitized(s: string, upper: CaseMap): string {
    if s == "" then ""
    else
      var c := upper(s[|s| - 1]);
      Sanitized(s[..|s| - 1], upper) + if InComponent(c) then [c] else ""
  }

  method SanitizeComponent(s: string, upper: CaseMap) returns (r: string)
    ensures r == Sanitized(s, upper)
  {
    r := "";
    var i := 0;
    while i < |s|
      invariant 0 <= i <= |s| && r == Sanitized(s[..i], upper)
    {
      assert s[..i + 1][..i] == s[..i];
      var c := upper(s[i]);
      if InComponent(c) {
        r := r + [c];
      }
      i := i + 1;
    }
    assert s[..i] == s;
  }

  function IntText(n: int): string {
    if n < 0 then "-" + F.Digits(-n) else F.Digits(n)
  }

  function LegText(leg: LegSide): string {
    if leg == Short then "SHORT" else "LONG"
  }

  function Purpose(p: Parts, upper: CaseMap): string {
    var purpose := Sanitized(p.purpose, upper);
    if purpose == "" then "ENTRY" else purpose
  }

  function Suffix(p: Parts): string {
    "_" + LegText(p.leg) + "_" + IntText(p.slice) + "_" + IntText(p.nonce)
  }

  /** The tail of the position id that there is room for. */
  function Tail(p: Parts, upper: CaseMap): string {
    var position := Sanitized(p.position, upper);
    var room := MAX_LENGTH - |Purpose(p, upper)| - 1 - |Suffix(p)|;
    var kept := if room < 0 then 0 else room;
    if |position| > kept then position[|position| - kept..] else position
  }

  function Format(p: Parts, upper: CaseMap): string {
    Purpose(p, upper) + "_" + Tail(p, upper) + Suffix(p)
  }

  function Split(s: string): (fields: seq<string>)
    ensures |fields| >= 1
  {
    if s == "" then [""]
    else
      var rest := Split(s[1..]);
      if s[0] == '_' then [""] + rest else [[s[0]] + rest[0]] + rest[1..]
  }

  function DigitPrefix(s: string): string {
    if s == "" || !F.IsDigit(s[0]) then "" else [s[0]] + DigitPrefix(s[1..])
  }

  function SkipBlanks(s: string): string {
    if s != "" && s[0] in {' ', '\t', '\r'} then SkipBlanks(s[1..]) else s
  }

  /** The integer at the start of a field; whatever follows it is ignored. */
  function ScanInt(field: string): Option<F.Int64> {
    var s := SkipBlanks(field);
    var signed := s != "" && (s[0] == '-' || s[0] == '+');
    var digits := DigitPrefix(if signed then s[1..] else s);
    AllDigitPrefix(if signed then s[1..] else s);
    var n := if signed && s[0] == '-' then 0 - F.Number(digits) else F.Number(digits);
    if digits == "" || !F.Fits(n) then None else Some(n)
  }

  lemma {:induction false} AllDigitPrefix(s: string)
    ensures F.AllDigits(DigitPrefix(s))
    ensures F.AllDigits(s) ==> DigitPrefix(s) == s
  {
    if s != "" && F.IsDigit(s[0]) {
      AllDigitPrefix(s[1..]);
    }
  }

  function Parse(s: string): Option<Parts> {
    var fields := Split(s);
    if |fields| != 5 || (fields[2] != "LONG" && fields[2] != "SHORT") then None
    else
      var slice, nonce := ScanInt(fields[3]), ScanInt(fields[4]);
      if slice.None? || nonce.None? then None
      else Some(Parts(fields[1], if fields[2] == "LONG" then Long else Short, slice.value, nonce.value, fields[0]))
  }

  predicate InId(c: char) {
    InComponent(c) || c == '_'
  }

  method Validate(id: string) returns (ok: bool)
    ensures ok <==> IsValid(id)
  {
    if |id| == 0 || |id| > MAX_LENGTH {
      return false;
    }
    var i := 0;
    while i < |id|
      invariant 0 <= i <= |id| && forall j :: 0 <= j < i ==> InId(id[j])
    {
      if !InId(id[i]) {
        return false;
      }
      i := i + 1;
    }
    return true;
  }

  predicate IsValid(id: string) {
    0 < |id| <= MAX_LENGTH && forall i :: 0 <= i < |id| ==> InId(id[i])
  }

  // ---------------------------------------------------------------------------------------------------------

  lemma {:induction false} SanitizedIs(s: string, upper: CaseMap)
    ensures IsComponent(Sanitized(s, upper))
    ensures MapsAscii(upper) && IsComponent(s) ==> Sanitized(s, upper) == s
  {
    if s != "" {
      SanitizedIs(s[..|s| - 1], upper);
      assert s == s[..|s| - 1] + [s[|s| - 1]];
      assert IsComponent(s) ==> IsComponent(s[..|s| - 1]);
    }
  }

  lemma IntTextIs(n: F.Int64)
    ensures IsComponent(IntText(n)) && ScanInt(IntText(n)) == Some(n)
  {
    var m := if n < 0 then 0 - n else n;
    F.DigitsRead(m);
    var digits := F.Digits(m);
    AllDigitPrefix(digits);
    assert n < 0 ==> IntText(n)[1..] == digits;
    assert F.IsDigit(digits[0]);
    assert SkipBlanks(IntText(n)) == IntText(n);
  }

  lemma {:induction false} SplitFirst(a: string, rest: string)
    requires IsComponent(a)
    ensures Split(a) == [a]
    ensures Split(a + "_" + rest) == [a] + Split(rest)
  {
    if a == "" {
      assert a + "_" + rest == "_" + rest;
      assert ("_" + rest)[1..] == rest;
    } else {
      SplitFirst(a[1..], rest);
      assert (a + "_" + rest)[1..] == a[1..] + "_" + rest;
      assert [a[0]] + a[1..] == a;
    }
  }

  /** What parsing gives back: everything, with the texts as they were printed. */
  function Printed(p: Parts, upper: CaseMap): Parts {
    Parts(Tail(p, upper), if p.leg == Short then Short else Long, p.slice, p.nonce, Purpose(p, upper))
  }

  lemma ParseAfterFormat(p: Parts, upper: CaseMap)
    requires MapsAscii(upper)
    ensures Parse(Format(p, upper)) == Some(Printed(p, upper))
  {
    FieldsAreComponents(p, upper);
    hide Purpose, Tail, IntText, ScanInt, Split, IsComponent;
    var leg, slice, nonce := LegText(p.leg), IntText(p.slice), IntText(p.nonce);
    var s3 := slice + "_" + nonce;
    var s2 := leg + "_" + s3;
    var s1 := Tail(p, upper) + "_" + s2;
    SplitFirst(nonce, "");
    SplitFirst(slice, nonce);
    SplitFirst(leg, s3);
    SplitFirst(Tail(p, upper), s2);
    SplitFirst(Purpose(p, upper), s1);
    assert Suffix(p) == "_" + s2;
    assert Format(p, upper) == Purpose(p, upper) + "_" + s1;
    IntTextIs(p.slice);
    IntTextIs(p.nonce);
  }

  lemma LegTextIs(leg: LegSide)
    ensures IsComponent(LegText(leg))
  {
  }

  lemma EntryIs()
    ensures IsComponent("ENTRY")
  {
  }

  lemma FieldsAreComponents(p: Parts, upper: CaseMap)
    ensures IsComponent(Purpose(p, upper)) && IsComponent(Tail(p, upper)) && IsComponent(LegText(p.leg))
    ensures IsComponent(IntText(p.slice)) && IsComponent(IntText(p.nonce))
  {
    hide Sanitized, IntText, ScanInt, InComponent, Suffix;
    LegTextIs(p.leg);
    EntryIs();
    SanitizedIs(p.purpose, upper);
    SanitizedIs(p.position, upper);
    IntTextIs(p.slice);
    IntTextIs(p.nonce);
  }

  /** Formatting what was parsed reproduces the id. */
  lemma FormatAfterParse(p: Parts, upper: CaseMap)
    requires MapsAscii(upper)
    ensures Parse(Format(p, upper)).Some? && Format(Parse(Format(p, upper)).value, upper) == Format(p, upper)
  {
    ParseAfterFormat(p, upper);
    FieldsAreComponents(p, upper);
    var q := Printed(p, upper);
    SanitizedIs(q.purpose, upper);
    SanitizedIs(q.position, upper);
    assert Purpose(q, upper) == Purpose(p, upper);
    assert Suffix(q) == Suffix(p);
  }

  /** Two ids are equal exactly when all their printed fields are. */
  lemma EqualIdsIff(p: Parts, q: Parts, upper: CaseMap)
    requires MapsAscii(upper)
    ensures Format(p, upper) == Format(q, upper) <==> Printed(p, upper) == Printed(q, upper)
  {
    ParseAfterFormat(p, upper);
    ParseAfterFormat(q, upper);
    if Printed(p, upper) == Printed(q, upper) {
      assert LegText(p.leg) == LegText(q.leg);
    }
  }

  /** Within one position and purpose, leg, slice and nonce are told apart. */
  lemma IdsOfOnePositionDiffer(p: Parts, q: Parts, upper: CaseMap)
    requires MapsAscii(upper) && p.position == q.position && p.purpose == q.purpose && p.leg != Unset && q.leg != Unset
    ensures Format(p, upper) == Format(q, upper) ==> p == q
  {
    EqualIdsIff(p, q, upper);
  }

  /** The length limit is kept exactly when purpose, leg, slice and nonce leave room for an empty position. */
  lemma FormatIsValidIff(p: Parts, upper: CaseMap)
    ensures IsValid(Format(p, upper)) <==> |Purpose(p, upper)| + 1 + |Suffix(p)| <= MAX_LENGTH
  {
    FieldsAreComponents(p, upper);
    var id := Format(p, upper);
    forall i | 0 <= i < |id| ensures InId(id[i]) {
    }
  }

  /** What is kept of the position id is its end, as much of it as the other fields leave room for. */
  lemma TailIs(p: Parts, upper: CaseMap)
    ensures var all := Sanitized(p.position, upper);
            var room := 32 - 1 - |Purpose(p, upper)| - |Suffix(p)|;
            && |Tail(p, upper)| == (if room <= 0 then 0 else if room < |all| then room else |all|)
            && Tail(p, upper) == all[|all| - |Tail(p, upper)|..]
  {
    hide Sanitized, Purpose, Suffix;
  }

  lemma SanitizedStep(s: string, c: char, upper: CaseMap)
    ensures Sanitized(s + [c], upper) == Sanitized(s, upper) + if InComponent(upper(c)) then [upper(c)] else ""
  {
    assert (s + [c])[..|s|] == s;
  }

  lemma DigitTexts()
    ensures IntText(0) == "0" && IntText(1) == "1" && IntText(-3) == "-3" && IntText(12) == "12"
  {
    assert F.Digits(12) == F.Digits(1) + [F.Digit(2)];
  }

  lemma SanitizedTexts(upper: CaseMap)
    requires MapsAscii(upper)
    ensures Sanitized("", upper) == "" && Sanitized("p-7", upper) == "P-7" && Sanitized("p_7", upper) == "P7"
    ensures Sanitized("Exit", upper) == "EXIT"
  {
    assert "p-7" == ("" + ['p']) + ['-'] + ['7'] && "p_7" == ("" + ['p']) + ['_'] + ['7'];
    assert "Exit" == ("" + ['E']) + ['x'] + ['i'] + ['t'];
    SanitizedStep("", 'p', upper);
    SanitizedStep("" + ['p'], '-', upper);
    SanitizedStep("" + ['p'] + ['-'], '7', upper);
    SanitizedStep("" + ['p'], '_', upper);
    SanitizedStep("" + ['p'] + ['_'], '7', upper);
    SanitizedStep("", 'E', upper);
    SanitizedStep("" + ['E'], 'x', upper);
    SanitizedStep("" + ['E'] + ['x'], 'i', upper);
    SanitizedStep("" + ['E'] + ['x'] + ['i'], 't', upper);
  }

  lemma DefaultId(upper: CaseMap)
    requires MapsAscii(upper)
    ensures Format(Parts("p-7", Long, 0, 0, ""), upper) == "ENTRY" + "_" + "P-7" + "_LONG_0_0"
  {
    DigitTexts();
    SanitizedTexts(upper);
    hide Sanitized, IntText, Format, Tail;
    IdIs(Parts("p-7", Long, 0, 0, ""), upper, "ENTRY", "P-7", "_LONG_0_0");
  }

  lemma LongId(upper: CaseMap)
    requires MapsAscii(upper)
    ensures Format(Parts("p-7", Unset, 12, -3, "Exit"), upper) == "EXIT" + "_" + "P-7" + "_LONG_12_-3"
  {
    DigitTexts();
    SanitizedTexts(upper);
    hide Sanitized, IntText, Format, Tail;
    IdIs(Parts("p-7", Unset, 12, -3, "Exit"), upper, "EXIT", "P-7", "_LONG_12_-3");
  }

  lemma ShortId(upper: CaseMap)
    requires MapsAscii(upper)
    ensures Format(Parts("p_7", Short, 0, 1, "Exit"), upper) == "EXIT" + "_" + "P7" + "_SHORT_0_1"
  {
    DigitTexts();
    SanitizedTexts(upper);
    hide Sanitized, IntText, Format, Tail;
    IdIs(Parts("p_7", Short, 0, 1, "Exit"), upper, "EXIT", "P7", "_SHORT_0_1");
  }

  /** Three ids in full: the default purpose, an exit that says nothing of its leg, and one of the short leg. */
  lemma SomeIds(upper: CaseMap)
    requires MapsAscii(upper)
    ensures Format(Parts("p-7", Long, 0, 0, ""), upper) == "ENTRY_P-7_LONG_0_0"
    ensures Format(Parts("p-7", Unset, 12, -3, "Exit"), upper) == "EXIT_P-7_LONG_12_-3"
    ensures Format(Parts("p_7", Short, 0, 1, "Exit"), upper) == "EXIT_P7_SHORT_0_1"
  {
    hide *;
    DefaultId(upper);
    LongId(upper);
    ShortId(upper);
  }

  lemma IdIs(p: Parts, upper: CaseMap, purpose: string, position: string, suffix: string)
    requires Purpose(p, upper) == purpose && Sanitized(p.position, upper) == position && Suffix(p) == suffix
    requires |purpose| + 1 + |position| + |suffix| <= 32
    ensures Format(p, upper) == purpose + "_" + position + suffix
  {
    hide Purpose, Sanitized, Suffix;
  }

  predicate IsBlank(c: char) {
    c == ' ' || c == '\t' || c == '\r'
  }

  predicate AreBlanks(s: string) {
    forall i :: 0 <= i < |s| ==> IsBlank(s[i])
  }

  lemma {:induction false} BlanksAreSkipped(blanks: string, rest: string)
    requires AreBlanks(blanks) && (rest == "" || !IsBlank(rest[0]))
    ensures SkipBlanks(blanks + rest) == rest
  {
    if blanks == "" {
      assert blanks + rest == rest;
    } else {
      assert (blanks + rest)[1..] == blanks[1..] + rest;
      BlanksAreSkipped(blanks[1..], rest);
    }
  }

  lemma {:induction false} DigitsAreTaken(digits: string, rest: string)
    requires F.AllDigits(digits) && (rest == "" || !F.IsDigit(rest[0]))
    ensures DigitPrefix(digits + rest) == digits
  {
    if digits == "" {
      assert digits + rest == rest;
    } else {
      assert (digits + rest)[1..] == digits[1..] + rest;
      DigitsAreTaken(digits[1..], rest);
      assert [digits[0]] + digits[1..] == digits;
    }
  }

  /** How a number in a field is read: blanks in front and one sign are allowed, whatever follows the digits is ignored,
      and there is no number without digits or outside 64 bits. */
  lemma ScannedIs(blanks: string, sign: string, digits: string, rest: string)
    requires AreBlanks(blanks) && (sign == "" || sign == "-" || sign == "+") && F.AllDigits(digits)
    requires rest == "" || !F.IsDigit(rest[0])
    requires sign + digits == "" ==> rest == "" || !(IsBlank(rest[0]) || rest[0] == '-' || rest[0] == '+')
    ensures ScanInt(blanks + (sign + (digits + rest))) ==
            if digits == "" then None
            else
              var n := if sign == "-" then 0 - F.Number(digits) else F.Number(digits);
              if -0x8000_0000_0000_0000 <= n <= 0x7fff_ffff_ffff_ffff then Some(n) else None
  {
    var text := sign + (digits + rest);
    assert text != "" ==> text[0] == if sign != "" then sign[0] else if digits != "" then digits[0] else rest[0];
    BlanksAreSkipped(blanks, text);
    DigitsAreTaken(digits, rest);
    assert sign != "" ==> text[1..] == digits + rest;
    assert sign == "" ==> text == digits + rest;
    hide SkipBlanks, DigitPrefix;
  }
}

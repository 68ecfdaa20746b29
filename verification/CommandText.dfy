/**
 The command language as pure functions: what a command text means. The parser
 that works in place on a C buffer (module ParserBuffer) is proved to compute
 exactly this.
 */
module CommandText {
  import opened Wrappers
  import opened CText
  import opened DecimalText
  import opened SensorTable
  import opened RowText

  const MAX_FIELDS := 8
  const MAX_INPUT := 256
  const DEVICE_SIZE := 64

  /** What strtol and strtod report: the value, how many bytes they consumed, and errno == ERANGE. */
  datatype Scan = Scan(value: int, consumed: nat, outOfRange: bool)

  /** The C library as this program sees it: strtod, and the width of `long`. */
  datatype Libc = Libc(strtod: string -> Scan, longMax: int)

  /** `long` is at least as wide as `int` (32 bits on the ARM target, 64 on the host). */
  ghost predicate Platform(c: Libc) {
    c.longMax >= INT_MAX
  }

  datatype Command =
    | Sensor(reading: Reading)
    | Query(startId: int, endId: int)
    | Help

  /** The test parse_int and parse_double share: something was read, all of it, and in range. */
  function Accepted(scan: Scan, s: string): Option<int> {
    if scan.consumed == 0 || scan.consumed != |s| || scan.outOfRange then None else Some(scan.value)
  }

  /** strtod reads this value back from what printf("%.6f") writes. */
  ghost predicate ReadsBack(c: Libc, v: int) {
    Accepted(c.strtod(FixedText(v)), FixedText(v)) == Some(v)
  }

  /** strtod reads back the values this command holds, if it holds any. */
  ghost predicate ReadsValues(c: Libc, cmd: Command) {
    match cmd
    case Sensor(r) => ReadsBack(c, r.data1) && ReadsBack(c, r.data2) && ReadsBack(c, r.data3) && ReadsBack(c, r.data4)
    case _ => true
  }

  // ---- numbers ----

  function SpaceRun(s: string): (n: nat)
    ensures n <= |s| && AllSpace(s[..n]) && (n < |s| ==> !IsSpace(s[n]))
  {
    if s == "" || !IsSpace(s[0]) then 0 else 1 + SpaceRun(s[1..])
  }

  function DigitRun(s: string): (n: nat)
    ensures n <= |s| && AllDigits(s[..n]) && (n < |s| ==> !IsDigit(s[n]))
  {
    if s == "" || !IsDigit(s[0]) then 0 else 1 + DigitRun(s[1..])
  }

  /** strtol in base 10, section 7.22.1.4 of ISO/IEC 9899:2011. */
  function Strtol(s: string, longMax: int): Scan {
    var w := SpaceRun(s);
    var signed := w < |s| && s[w] in "+-";
    var negative := signed && s[w] == '-';
    var d := if signed then w + 1 else w;
    var n := DigitRun(s[d..]);
    if n == 0 then Scan(0, 0, false)
    else
      var magnitude: int := TextNat(s[d..][..n]);
      if negative then
        if magnitude > longMax + 1 then Scan(-longMax - 1, d + n, true) else Scan(-magnitude, d + n, false)
      else
        if magnitude > longMax then Scan(longMax, d + n, true) else Scan(magnitude, d + n, false)
  }

  function ParseInt(s: string, longMax: int): (r: Option<int>)
    ensures r.Some? ==> 0 <= r.value <= INT_MAX
  {
    var v :- Accepted(Strtol(s, longMax), s);
    if v < 0 || v > INT_MAX then None else Some(v)
  }

  /** `s` is whitespace, an optional sign and digits spelling `v`. */
  ghost predicate Spells(s: string, spaces: string, sign: string, digits: string, v: int) {
    && s == spaces + sign + digits
    && AllSpace(spaces) && (sign == "" || sign == "+" || sign == "-")
    && digits != "" && AllDigits(digits)
    && v == if sign == "-" then 0 - TextNat(digits) else TextNat(digits)
  }

  lemma {:induction false} SpaceRunIs(s: string, n: nat)
    requires n <= |s| && AllSpace(s[..n]) && (n < |s| ==> !IsSpace(s[n]))
    ensures SpaceRun(s) == n
  {
    if n > 0 {
      assert IsSpace(s[..n][0]);
      assert s[1..][..n - 1] == s[..n][1..];
      SpaceRunIs(s[1..], n - 1);
    }
  }

  lemma {:induction false} DigitRunIs(s: string, n: nat)
    requires n <= |s| && AllDigits(s[..n]) && (n < |s| ==> !IsDigit(s[n]))
    ensures DigitRun(s) == n
  {
    if n > 0 {
      assert IsDigit(s[..n][0]);
      assert s[1..][..n - 1] == s[..n][1..];
      DigitRunIs(s[1..], n - 1);
    }
  }

  lemma SpelledIsScanned(s: string, spaces: string, sign: string, digits: string, v: int, longMax: int)
    requires Spells(s, spaces, sign, digits, v) && -longMax - 1 <= v <= longMax
    ensures Strtol(s, longMax) == Scan(v, |s|, false)
  {
    var w, d := |spaces|, |spaces| + |sign|;
    SpelledPieces(s, spaces, sign, digits);
    SpaceRunIs(s, w);
    assert digits[..|digits|] == digits;
    DigitRunIs(digits, |digits|);
  }

  lemma SpelledPieces(s: string, spaces: string, sign: string, digits: string)
    requires s == spaces + sign + digits && (sign == "" || sign == "+" || sign == "-")
    requires digits != "" && AllDigits(digits)
    ensures |spaces| < |s| && s[..|spaces|] == spaces && s[|spaces| + |sign|..] == digits
    ensures if sign == "" then s[|spaces|] !in "+-" && !IsSpace(s[|spaces|]) else s[|spaces|] == sign[0]
  {
    assert IsDigit(digits[0]);
    assert s == spaces + (sign + digits);
    assert s[|spaces|] == (sign + digits)[0];
  }

  lemma ScannedIsSpelled(s: string, longMax: int)
    requires longMax >= 0
    requires var r := Strtol(s, longMax); r.consumed == |s| && s != "" && !r.outOfRange
    ensures exists spaces, sign, digits :: Spells(s, spaces, sign, digits, Strtol(s, longMax).value)
  {
    hide TextNat, IsSpace, IsDigit;
    var w := SpaceRun(s);
    var signed := w < |s| && s[w] in "+-";
    var d := if signed then w + 1 else w;
    var spaces, sign, digits := s[..w], s[w..d], s[d..];
    assert s == spaces + sign + digits;
    assert digits[..DigitRun(digits)] == digits;
    assert sign == if signed then [s[w]] else "";
    assert Spells(s, spaces, sign, digits, Strtol(s, longMax).value);
  }

  /**
   parse_int accepts exactly optional whitespace, an optional sign and at least
   one digit whose value is in 0..2147483647 - on every platform whose `long`
   is at least 32 bits wide.
   */
  lemma ParseIntExact(s: string, longMax: int, v: int)
    requires longMax >= INT_MAX
    ensures ParseInt(s, longMax) == Some(v) <==>
            0 <= v <= 2147483647 && exists spaces, sign, digits :: Spells(s, spaces, sign, digits, v)
  {
    hide Strtol, Spells;
    if ParseInt(s, longMax) == Some(v) {
      ScannedIsSpelled(s, longMax);
    }
    if 0 <= v <= INT_MAX && exists spaces, sign, digits :: Spells(s, spaces, sign, digits, v) {
      var spaces, sign, digits :| Spells(s, spaces, sign, digits, v);
      SpelledIsScanned(s, spaces, sign, digits, v, longMax);
      SpelledNonEmpty(s, spaces, sign, digits, v);
    }
  }

  lemma SpelledNonEmpty(s: string, spaces: string, sign: string, digits: string, v: int)
    requires Spells(s, spaces, sign, digits, v)
    ensures s != ""
  {
  }

  /** The host and the ARM build accept the same texts with the same values. */
  lemma ParseIntSameOnAllPlatforms(s: string, longMax: int, longMax': int)
    requires longMax >= INT_MAX && longMax' >= INT_MAX
    ensures ParseInt(s, longMax) == ParseInt(s, longMax')
  {
    hide ParseInt;
    if ParseInt(s, longMax).Some? {
      ParseIntExact(s, longMax, ParseInt(s, longMax).value);
      ParseIntExact(s, longMax', ParseInt(s, longMax).value);
    }
    if ParseInt(s, longMax').Some? {
      ParseIntExact(s, longMax, ParseInt(s, longMax').value);
      ParseIntExact(s, longMax', ParseInt(s, longMax').value);
    }
  }

  lemma ParseIntReadsBack(n: int, longMax: int)
    requires 0 <= n <= INT_MAX <= longMax
    ensures ParseInt(IntText(n), longMax) == Some(n)
  {
    NatTextReadsBack(n);
    assert Spells(IntText(n), "", "", NatText(n), n);
    ParseIntExact(IntText(n), longMax, n);
  }

  // ---- fields ----

  function TrimLeft(s: string): (r: string)
    ensures |r| <= |s| && r == s[|s| - |r|..]
  {
    if s != "" && IsSpace(s[0]) then TrimLeft(s[1..]) else s
  }

  function TrimRight(s: string): (r: string)
    ensures r <= s
  {
    if s != "" && IsSpace(s[|s| - 1]) then TrimRight(s[..|s| - 1]) else s
  }

  function Trim(s: string): string {
    TrimRight(TrimLeft(s))
  }

  /** All comma-separated segments of `s`, empty ones included. */
  function SplitComma(s: string): (segments: seq<string>)
    ensures segments != []
    decreases |s|
  {
    var n := FirstOf(s, ',');
    if n == |s| then [s] else [s[..n]] + SplitComma(s[n + 1..])
  }

  function NonEmpty(segments: seq<string>): seq<string> {
    if segments == [] then []
    else (if segments[0] == "" then [] else [segments[0]]) + NonEmpty(segments[1..])
  }

  /** What strtok(..., ",") yields over its whole run: the non-empty segments, untrimmed. */
  function Tokens(s: string): seq<string> {
    NonEmpty(SplitComma(s))
  }

  function TrimAll(tokens: seq<string>): (fields: seq<string>)
    ensures |fields| == |tokens|
    ensures forall i :: 0 <= i < |tokens| ==> fields[i] == Trim(tokens[i])
  {
    seq(|tokens|, i requires 0 <= i < |tokens| => Trim(tokens[i]))
  }

  function Fields(s: string): seq<string> {
    TrimAll(Tokens(s))
  }

  // ---- commands ----

  function ParseSensor(fields: seq<string>, c: Libc): Option<Command> {
    if |fields| != 6 || fields[1] == "" || |fields[1]| >= DEVICE_SIZE then None
    else
      var data1 :- Accepted(c.strtod(fields[2]), fields[2]);
      var data2 :- Accepted(c.strtod(fields[3]), fields[3]);
      var data3 :- Accepted(c.strtod(fields[4]), fields[4]);
      var data4 :- Accepted(c.strtod(fields[5]), fields[5]);
      Some(Sensor(Reading(fields[1], data1, data2, data3, data4)))
  }

  function ParseQuery(fields: seq<string>, c: Libc): Option<Command> {
    if |fields| != 3 then None
    else
      var a :- ParseInt(fields[1], c.longMax);
      var b :- ParseInt(fields[2], c.longMax);
      Some(if a > b then Query(b, a) else Query(a, b))
  }

  function ParseFields(fields: seq<string>, c: Libc): Option<Command> {
    if |fields| == 0 || |fields| > MAX_FIELDS then None
    else if fields[0] == "SENSOR" then ParseSensor(fields, c)
    else if fields[0] == "QUERY" then ParseQuery(fields, c)
    else if fields[0] == "HELP" && |fields| == 1 then Some(Help)
    else None
  }

  function ParseCommand(input: string, c: Libc): Option<Command> {
    if |input| >= MAX_INPUT then None else ParseFields(Fields(input), c)
  }

  // ---- what trimming and splitting mean ----

  ghost predicate NoOuterSpace(s: string) {
    s != "" ==> !IsSpace(s[0]) && !IsSpace(s[|s| - 1])
  }

  lemma {:induction false} TrimLeftSkips(spaces: string, s: string)
    requires AllSpace(spaces) && (s != "" ==> !IsSpace(s[0]))
    ensures TrimLeft(spaces + s) == s
  {
    if spaces == "" {
      assert spaces + s == s;
    } else {
      assert (spaces + s)[1..] == spaces[1..] + s;
      TrimLeftSkips(spaces[1..], s);
    }
  }

  lemma {:induction false} TrimRightSkips(s: string, spaces: string)
    requires AllSpace(spaces) && (s != "" ==> !IsSpace(s[|s| - 1]))
    ensures TrimRight(s + spaces) == s
  {
    if spaces == "" {
      assert s + spaces == s;
    } else {
      assert (s + spaces)[..|s + spaces| - 1] == s + spaces[..|spaces| - 1];
      TrimRightSkips(s, spaces[..|spaces| - 1]);
    }
  }

  /** Trimming removes exactly the whitespace around a text. */
  lemma TrimStrips(left: string, s: string, right: string)
    requires AllSpace(left) && AllSpace(right) && NoOuterSpace(s)
    ensures Trim(left + s + right) == s
  {
    if s == "" {
      assert left + s + right == (left + right) + "";
      TrimLeftSkips(left + right, "");
    } else {
      assert left + s + right == left + (s + right);
      TrimLeftSkips(left, s + right);
      TrimRightSkips(s, right);
    }
  }

  lemma {:induction false} TrimLeftStarts(s: string)
    ensures TrimLeft(s) != "" ==> !IsSpace(TrimLeft(s)[0])
  {
    if s != "" && IsSpace(s[0]) {
      TrimLeftStarts(s[1..]);
    }
  }

  lemma {:induction false} TrimRightEnds(s: string)
    ensures TrimRight(s) != "" ==> !IsSpace(TrimRight(s)[|TrimRight(s)| - 1])
  {
    if s != "" && IsSpace(s[|s| - 1]) {
      TrimRightEnds(s[..|s| - 1]);
    }
  }

  lemma TrimmedHasNoOuterSpace(s: string)
    ensures NoOuterSpace(Trim(s))
    ensures forall c :: c in Trim(s) ==> c in s
  {
    hide TrimLeft, TrimRight;
    TrimLeftStarts(s);
    TrimRightEnds(TrimLeft(s));
    PartOf(s, TrimLeft(s), Trim(s));
  }

  lemma PartOf(s: string, suffix: string, part: string)
    requires |suffix| <= |s| && suffix == s[|s| - |suffix|..] && part <= suffix
    ensures forall c :: c in part ==> c in s
    ensures part != "" ==> part[0] == suffix[0]
  {
    forall c | c in part ensures c in s {
      assert c in suffix;
    }
  }

  lemma SplitNoComma(x: string)
    requires ',' !in x
    ensures SplitComma(x) == [x]
  {
    FirstOfAfter(x, "", ',');
    assert x + "" == x;
  }

  lemma SplitAtComma(x: string, s: string)
    requires ',' !in x
    ensures SplitComma(x + "," + s) == [x] + SplitComma(s)
  {
    FirstOfAfter(x, "," + s, ',');
    assert x + "," + s == x + ("," + s);
    assert (x + "," + s)[..|x|] == x && (x + "," + s)[|x| + 1..] == s;
  }

  /** A comma in front of a text changes none of its tokens. */
  lemma LeadingCommaIgnored(s: string)
    ensures Tokens("," + s) == Tokens(s)
  {
    SplitAtComma("", s);
    assert "" + "," + s == "," + s;
    assert ([""] + SplitComma(s))[1..] == SplitComma(s);
  }

  lemma TokensFirst(x: string, s: string)
    requires ',' !in x && x != ""
    ensures Tokens(x + "," + s) == [x] + Tokens(s)
  {
    SplitAtComma(x, s);
    assert ([x] + SplitComma(s))[1..] == SplitComma(s);
  }

  lemma TokensLast(x: string)
    requires ',' !in x
    ensures Tokens(x) == if x == "" then [] else [x]
  {
    SplitNoComma(x);
    var segments := [x];
    assert segments[1..] == [] && NonEmpty([]) == [];
  }

  lemma {:induction false} TokensShape(segments: seq<string>)
    ensures forall t :: t in NonEmpty(segments) ==> t in segments && t != ""
  {
    if segments != [] {
      TokensShape(segments[1..]);
    }
  }

  lemma {:induction false} SegmentsShape(s: string)
    ensures forall t :: t in SplitComma(s) ==> ',' !in t && forall c :: c in t ==> c in s
    decreases |s|
  {
    var n := FirstOf(s, ',');
    if n < |s| {
      SegmentsShape(s[n + 1..]);
    }
  }

  // ---- printing, decorated ----

  /** How one field is dressed up: whitespace around it, surplus commas behind it. */
  datatype Slot = Slot(left: string, right: string, commas: nat)

  function Commas(n: nat): string {
    if n == 0 then "" else "," + Commas(n - 1)
  }

  /** The fields with their decorations, separated by at least one comma. */
  function Decorated(fields: seq<string>, slots: seq<Slot>): string
    requires |slots| == |fields|
  {
    if fields == [] then ""
    else
      slots[0].left + fields[0] + slots[0].right
      + (if |fields| == 1 then Commas(slots[0].commas)
         else "," + (Commas(slots[0].commas) + Decorated(fields[1..], slots[1..])))
  }

  /** Decorations are whitespace, fields are comma-free and trimmed, and no field vanishes. */
  ghost predicate Decorable(fields: seq<string>, slots: seq<Slot>) {
    && |slots| == |fields|
    && forall i :: 0 <= i < |fields| ==>
         && ',' !in fields[i] && NoOuterSpace(fields[i])
         && AllSpace(slots[i].left) && AllSpace(slots[i].right)
         && slots[i].left + fields[i] + slots[i].right != ""
  }

  lemma {:induction false} CommasIgnored(n: nat, s: string)
    ensures Tokens(Commas(n) + s) == Tokens(s)
  {
    if n == 0 {
      assert Commas(0) + s == s;
    } else {
      assert Commas(n) + s == "," + (Commas(n - 1) + s);
      LeadingCommaIgnored(Commas(n - 1) + s);
      CommasIgnored(n - 1, s);
    }
  }

  lemma OnlyCommas(n: nat)
    ensures Tokens(Commas(n)) == []
  {
    hide Tokens;
    CommasIgnored(n, "");
    assert Commas(n) + "" == Commas(n);
    TokensLast("");
  }

  lemma TokenThenCommas(x: string, n: nat)
    requires ',' !in x && x != ""
    ensures Tokens(x + Commas(n)) == [x]
  {
    hide Tokens;
    if n == 0 {
      assert x + Commas(0) == x;
      TokensLast(x);
    } else {
      assert x + Commas(n) == x + "," + Commas(n - 1);
      TokensFirst(x, Commas(n - 1));
      OnlyCommas(n - 1);
    }
  }

  lemma {:induction false} DecoratedFields(fields: seq<string>, slots: seq<Slot>)
    requires Decorable(fields, slots)
    ensures Fields(Decorated(fields, slots)) == fields
    decreases |fields|
  {
    hide Tokens, Trim;
    if fields == [] {
      TokensLast("");
    } else {
      var x := slots[0].left + fields[0] + slots[0].right;
      SpacesNoComma(slots[0].left);
      SpacesNoComma(slots[0].right);
      TrimStrips(slots[0].left, fields[0], slots[0].right);
      if |fields| == 1 {
        TokenThenCommas(x, slots[0].commas);
        assert fields == [fields[0]];
      } else {
        var rest := Decorated(fields[1..], slots[1..]);
        DecoratedFields(fields[1..], slots[1..]);
        assert Decorated(fields, slots) == x + "," + (Commas(slots[0].commas) + rest);
        TokensFirst(x, Commas(slots[0].commas) + rest);
        CommasIgnored(slots[0].commas, rest);
        TrimAllFirst(x, Tokens(rest));
        assert fields == [fields[0]] + fields[1..];
      }
    }
  }

  lemma SpacesNoComma(s: string)
    requires AllSpace(s)
    ensures ',' !in s
  {
  }

  lemma TrimAllFirst(x: string, tokens: seq<string>)
    ensures TrimAll([x] + tokens) == [Trim(x)] + TrimAll(tokens)
  {
    hide Trim;
  }

  /**
   Extra whitespace around fields and repeated, leading or trailing commas never
   change the verdict or the command, as long as the text stays below 256 bytes.
   */
  lemma DecorationIrrelevant(lead: nat, fields: seq<string>, slots: seq<Slot>, c: Libc)
    requires Decorable(fields, slots)
    ensures var text := Commas(lead) + Decorated(fields, slots);
            ParseCommand(text, c) == if |text| < MAX_INPUT then ParseFields(fields, c) else None
  {
    hide ParseFields, Tokens;
    CommasIgnored(lead, Decorated(fields, slots));
    DecoratedFields(fields, slots);
  }

  // ---- round trip ----

  /** What the parser guarantees of a command it returns. */
  ghost predicate Sensible(cmd: Command) {
    match cmd
    case Help => true
    case Query(a, b) => 0 <= a <= b <= INT_MAX
    case Sensor(r) =>
      && 1 <= |r.device| <= 63
      && ',' !in r.device && NoNul(r.device) && NoOuterSpace(r.device)
  }

  function FieldsOf(cmd: Command): seq<string> {
    match cmd
    case Help => ["HELP"]
    case Query(a, b) => ["QUERY", IntText(a), IntText(b)]
    case Sensor(r) =>
      ["SENSOR", r.device, FixedText(r.data1), FixedText(r.data2), FixedText(r.data3), FixedText(r.data4)]
  }

  /** Every command the parser returns is sensible: ordered ids in int range, a 1..63 byte trimmed device id. */
  lemma ParsedIsSensible(input: string, c: Libc)
    requires NoNul(input)
    requires ParseCommand(input, c).Some?
    ensures Sensible(ParseCommand(input, c).value)
  {
    hide ParseInt, Tokens, Trim, NoOuterSpace;
    FieldsAreTrimmed(input);
  }

  lemma FieldsAreTrimmed(input: string)
    requires NoNul(input)
    ensures forall i :: 0 <= i < |Fields(input)| ==>
              ',' !in Fields(input)[i] && NoNul(Fields(input)[i]) && NoOuterSpace(Fields(input)[i])
  {
    hide Trim, NoOuterSpace;
    var tokens := Tokens(input);
    TokensShape(SplitComma(input));
    SegmentsShape(input);
    forall i | 0 <= i < |tokens|
      ensures ',' !in Trim(tokens[i]) && NoNul(Trim(tokens[i])) && NoOuterSpace(Trim(tokens[i]))
    {
      assert tokens[i] in tokens;
      TrimmedHasNoOuterSpace(tokens[i]);
    }
  }

  lemma FieldsParse(cmd: Command, c: Libc)
    requires Sensible(cmd) && Platform(c)
    ensures ParseFields(FieldsOf(cmd), c) == Some(cmd) <==> ReadsValues(c, cmd)
  {
    hide ParseInt, FixedText, IntText;
    match cmd
    case Help =>
    case Query(a, b) =>
      ParseIntReadsBack(a, c.longMax);
      ParseIntReadsBack(b, c.longMax);
    case Sensor(r) =>
  }

  ghost predicate CleanField(f: string) {
    ',' !in f && NoOuterSpace(f) && f != ""
  }

  lemma FieldsAreClean(cmd: Command)
    requires Sensible(cmd)
    ensures forall i :: 0 <= i < |FieldsOf(cmd)| ==> CleanField(FieldsOf(cmd)[i])
  {
    hide FixedText, IntText, CleanField;
    match cmd
    case Help =>
      LiteralsAreClean();
    case Query(a, b) =>
      LiteralsAreClean();
      IdIsClean(a);
      IdIsClean(b);
    case Sensor(r) =>
      LiteralsAreClean();
      DeviceIsClean(r);
      NumberIsClean(r.data1);
      NumberIsClean(r.data2);
      NumberIsClean(r.data3);
      NumberIsClean(r.data4);
  }

  lemma LiteralsAreClean()
    ensures CleanField("HELP") && CleanField("QUERY") && CleanField("SENSOR")
  {
  }

  lemma NumberIsClean(v: int)
    ensures CleanField(FixedText(v))
  {
    FixedTextBytes(v);
  }

  lemma IdIsClean(n: int)
    ensures CleanField(IntText(n))
  {
    IntTextBytes(n);
  }

  lemma DeviceIsClean(r: Reading)
    requires Sensible(Sensor(r))
    ensures CleanField(r.device)
  {
  }

  lemma FieldsOfDecorable(fields: seq<string>, slots: seq<Slot>)
    requires |slots| == |fields|
    requires forall i :: 0 <= i < |fields| ==> CleanField(fields[i])
    requires forall i :: 0 <= i < |slots| ==> AllSpace(slots[i].left) && AllSpace(slots[i].right)
    ensures Decorable(fields, slots)
  {
    hide AllSpace, NoOuterSpace;
    forall i | 0 <= i < |fields| ensures slots[i].left + fields[i] + slots[i].right != "" {
      assert CleanField(fields[i]);
      assert |slots[i].left + fields[i] + slots[i].right| >= |fields[i]| > 0;
    }
  }

  /**
   Printing any command the parser can return, with any decoration, and parsing it
   gives it back, exactly if the text stays below 256 bytes and strtod reads back the
   values in it. HELP and QUERY hold none.
   */
  lemma RoundTrip(cmd: Command, lead: nat, slots: seq<Slot>, c: Libc)
    requires Sensible(cmd) && Platform(c)
    requires |slots| == |FieldsOf(cmd)|
    requires forall i :: 0 <= i < |slots| ==> AllSpace(slots[i].left) && AllSpace(slots[i].right)
    ensures var text := Commas(lead) + Decorated(FieldsOf(cmd), slots);
            && (ParseCommand(text, c) == Some(cmd) <==> |text| < 256 && ReadsValues(c, cmd))
            && (|text| >= 256 ==> ParseCommand(text, c) == None)
  {
    hide ReadsValues;
    hide ParseFields, ParseCommand, Sensible, FieldsOf;
    FieldsAreClean(cmd);
    FieldsOfDecorable(FieldsOf(cmd), slots);
    FieldsParse(cmd, c);
    DecorationIrrelevant(lead, FieldsOf(cmd), slots, c);
  }

  /** A reversed QUERY range is normalized: both orders of the ids mean the same command. */
  lemma ReversedQuery(a: int, b: int, lead: nat, slots: seq<Slot>, c: Libc)
    requires 0 <= a <= b <= INT_MAX && Platform(c) && |slots| == 3
    requires forall i :: 0 <= i < 3 ==> AllSpace(slots[i].left) && AllSpace(slots[i].right)
    ensures var text := Commas(lead) + Decorated(["QUERY", IntText(b), IntText(a)], slots);
            ParseCommand(text, c) == if |text| < MAX_INPUT then Some(Query(a, b)) else None
  {
    hide ParseCommand, ParseInt, IntText, CleanField;
    var fields := ["QUERY", IntText(b), IntText(a)];
    ParseIntReadsBack(a, c.longMax);
    ParseIntReadsBack(b, c.longMax);
    LiteralsAreClean();
    IdIsClean(a);
    IdIsClean(b);
    FieldsOfDecorable(fields, slots);
    DecorationIrrelevant(lead, fields, slots, c);
  }

  /** Fields separated by single commas. */
  function Joined(fields: seq<string>): string {
    if fields == [] then "" else if |fields| == 1 then fields[0] else fields[0] + "," + Joined(fields[1..])
  }

  /** The command in the documented form. */
  function Print(cmd: Command): string {
    Joined(FieldsOf(cmd))
  }

  lemma {:induction false} JoinedIsUndecorated(fields: seq<string>, slots: seq<Slot>)
    requires |slots| == |fields| && forall i :: 0 <= i < |slots| ==> slots[i] == Slot("", "", 0)
    ensures Joined(fields) == Decorated(fields, slots)
  {
    if |fields| == 1 {
      assert "" + fields[0] + "" + Commas(0) == fields[0];
    } else if |fields| > 1 {
      JoinedIsUndecorated(fields[1..], slots[1..]);
      Undecorated(fields[0], Decorated(fields[1..], slots[1..]));
    }
  }

  lemma Undecorated(x: string, rest: string)
    ensures "" + x + "" + ("," + (Commas(0) + rest)) == x + "," + rest
  {
  }

  lemma JoinedLength(x: string, rest: seq<string>)
    requires rest != []
    ensures |Joined([x] + rest)| == |x| + 1 + |Joined(rest)|
  {
    assert ([x] + rest)[1..] == rest;
  }

  lemma SensorFits(r: Reading)
    requires Sensible(Sensor(r)) && SmallValues(r)
    ensures |Joined(FieldsOf(Sensor(r)))| < MAX_INPUT
  {
    SmallNumberColumns(r);
    hide FixedText, NumberColumns, Joined;
    NumbersWithCommas(r);
    var a, b, c, d := FixedText(r.data1), FixedText(r.data2), FixedText(r.data3), FixedText(r.data4);
    LastField(d);
    JoinedLength(c, [d]);
    JoinedLength(b, [c] + [d]);
    JoinedLength(a, [b] + ([c] + [d]));
    JoinedLength(r.device, [a] + ([b] + ([c] + [d])));
    JoinedLength("SENSOR", [r.device] + ([a] + ([b] + ([c] + [d]))));
    assert FieldsOf(Sensor(r)) == ["SENSOR"] + ([r.device] + ([a] + ([b] + ([c] + [d]))));
  }

  lemma LastField(x: string)
    ensures Joined([x]) == x
  {
  }

  lemma NumbersWithCommas(r: Reading)
    ensures |NumberColumns(r)| ==
            |FixedText(r.data1)| + |FixedText(r.data2)| + |FixedText(r.data3)| + |FixedText(r.data4)| + 9
  {
    hide FixedText;
  }

  lemma QueryFits(a: int, b: int)
    requires 0 <= a <= INT_MAX && 0 <= b <= INT_MAX
    ensures |Joined(FieldsOf(Query(a, b)))| < MAX_INPUT
  {
    hide IntText, Joined;
    IdLength(a);
    IdLength(b);
    LastField(IntText(b));
    JoinedLength(IntText(a), [IntText(b)]);
    JoinedLength("QUERY", [IntText(a)] + [IntText(b)]);
    assert FieldsOf(Query(a, b)) == ["QUERY"] + ([IntText(a)] + [IntText(b)]);
  }

  lemma IdLength(n: int)
    requires 0 <= n <= INT_MAX
    ensures |IntText(n)| <= 10
  {
    IntFitsTenDigits();
    NatTextLength(n, 10);
  }

  /** Printing a command in the documented form and parsing it gives it back, if and only if strtod reads its values. */
  lemma PrintParses(cmd: Command, c: Libc)
    requires Sensible(cmd) && Platform(c)
    requires cmd.Sensor? ==> SmallValues(cmd.reading)
    ensures ParseCommand(Print(cmd), c) == Some(cmd) <==> ReadsValues(c, cmd)
  {
    hide ParseCommand, FieldsOf, ReadsValues, Joined, SmallValues, Decorated;
    var slots := seq(|FieldsOf(cmd)|, _ => Slot("", "", 0));
    RoundTrip(cmd, 0, slots, c);
    JoinedIsUndecorated(FieldsOf(cmd), slots);
    assert Commas(0) + Joined(FieldsOf(cmd)) == Print(cmd);
    match cmd
    case Help => HelpFits();
    case Query(a, b) => QueryFits(a, b);
    case Sensor(r) => SensorFits(r);
  }

  lemma HelpFits()
    ensures |Joined(FieldsOf(Help))| < MAX_INPUT
  {
  }

  // ---- other ways to write a number ----

  /** A SENSOR command with any four number texts that strtod accepts means the values it reads. */
  lemma NumbersParse(device: string, texts: seq<string>, values: seq<int>, c: Libc)
    requires CleanField(device) && |device| < DEVICE_SIZE && |texts| == |values| == 4
    requires forall i :: 0 <= i < 4 ==>
               CleanField(texts[i]) && Accepted(c.strtod(texts[i]), texts[i]) == Some(values[i])
    ensures var text := Joined(["SENSOR", device] + texts);
            ParseCommand(text, c) ==
              if |text| < MAX_INPUT then Some(Sensor(Reading(device, values[0], values[1], values[2], values[3])))
              else None
  {
    hide ParseFields, Decorated, Joined, CleanField, ParseCommand;
    var fields := ["SENSOR", device] + texts;
    var slots := seq(6, _ => Slot("", "", 0));
    LiteralsAreClean();
    forall i | 0 <= i < 6 ensures CleanField(fields[i]) {
      assert i >= 2 ==> fields[i] == texts[i - 2];
    }
    FieldsOfDecorable(fields, slots);
    JoinedIsUndecorated(fields, slots);
    DecorationIrrelevant(0, fields, slots, c);
    assert Commas(0) + Joined(fields) == Joined(fields);
    SensorFieldsParse(fields, values, c);
  }

  lemma SensorFieldsParse(fields: seq<string>, values: seq<int>, c: Libc)
    requires |fields| == 6 && |values| == 4 && fields[0] == "SENSOR"
    requires fields[1] != "" && |fields[1]| < DEVICE_SIZE
    requires forall i :: 2 <= i < 6 ==> Accepted(c.strtod(fields[i]), fields[i]) == Some(values[i - 2])
    ensures ParseFields(fields, c) == Some(Sensor(Reading(fields[1], values[0], values[1], values[2], values[3])))
  {
  }

  /** A 32-byte command whose values take more than 300 digits each in an answer. */
  function HugeCommand(): string {
    "SENSOR,D," + "1e300,1e300," + "1e300,1e300"
  }

  function HugeTexts(): seq<string> {
    ["1e300", "1e300", "1e300", "1e300"]
  }

  /**
   A received chunk can carry such a reading: where strtod reads "1e300" as at
   least 10^300, the command parses, and every row that stores it is huge.
   */
  lemma HugeReadingArrives(c: Libc, v: int, id: int, timestamp: Option<string>)
    requires Accepted(c.strtod("1e300"), "1e300") == Some(v) && v >= Pow10(300) * MILLION
    ensures |HugeCommand()| == 32
    ensures ParseCommand(HugeCommand(), c) == Some(Sensor(Reading("D", v, v, v, v)))
    ensures Huge(Row(id, Reading("D", v, v, v, v), timestamp))
  {
    hide ParseCommand, Accepted, HugeCommand, CleanField, Pow10, Joined;
    HugeTextSpelled();
    HugeFieldsAreClean();
    NumbersParse("D", HugeTexts(), [v, v, v, v], c);
  }

  lemma HugeFieldsAreClean()
    ensures CleanField("D") && CleanField("1e300")
  {
  }

  lemma HugeTextSpelled()
    ensures Joined(["SENSOR", "D"] + HugeTexts()) == HugeCommand() && |HugeCommand()| == 32
  {
    var n := "1e300";
    hide Joined;
    LastField(n);
    JoinedFirst(n, [n]);
    JoinedFirst(n, [n] + [n]);
    JoinedFirst(n, [n] + ([n] + [n]));
    JoinedFirst("D", [n] + ([n] + ([n] + [n])));
    JoinedFirst("SENSOR", ["D"] + ([n] + ([n] + ([n] + [n]))));
    assert ["SENSOR", "D"] + HugeTexts() == ["SENSOR"] + (["D"] + ([n] + ([n] + ([n] + [n]))));
  }

  lemma JoinedFirst(x: string, rest: seq<string>)
    requires rest != []
    ensures Joined([x] + rest) == x + "," + Joined(rest)
  {
    assert ([x] + rest)[1..] == rest;
  }

  /** A negative number is never accepted as an id. */
  lemma NegativeRejected(n: int, longMax: int)
    requires n < 0 && longMax >= INT_MAX
    ensures ParseInt(IntText(n), longMax).None?
  {
    hide TextNat, NatText;
    var s, digits := IntText(n), NatText(-n);
    NatTextReadsBack(-n);
    SpaceRunIs(s, 0);
    assert s[1..] == digits;
    assert digits[..|digits|] == digits;
    DigitRunIs(digits, |digits|);
  }

  // ---- which texts are commands ----

  /** isspace in the "C" locale, by character codes: tab to carriage return, and the blank. */
  lemma SpaceCodes(c: char)
    ensures IsSpace(c) <==> 9 <= c as int <= 13 || c as int == 32
  {
  }

  lemma {:induction false} TrimLeftCuts(s: string)
    ensures AllSpace(s[..|s| - |TrimLeft(s)|])
  {
    if s != "" && IsSpace(s[0]) {
      TrimLeftCuts(s[1..]);
      var k := |s[1..]| - |TrimLeft(s[1..])|;
      assert s[..k + 1] == [s[0]] + s[1..][..k];
    }
  }

  lemma {:induction false} TrimRightCuts(s: string)
    ensures AllSpace(s[|TrimRight(s)|..])
  {
    if s != "" && IsSpace(s[|s| - 1]) {
      var front := s[..|s| - 1];
      TrimRightCuts(front);
      assert s[|TrimRight(s)|..] == front[|TrimRight(front)|..] + [s[|s| - 1]];
    }
  }

  /** A text is its trimmed form with whitespace around it. */
  lemma TrimParts(s: string) returns (slot: Slot)
    ensures AllSpace(slot.left) && AllSpace(slot.right) && slot.commas == 0
    ensures s == slot.left + Trim(s) + slot.right
  {
    hide TrimLeft, TrimRight, AllSpace;
    var inner := TrimLeft(s);
    TrimLeftCuts(s);
    TrimRightCuts(inner);
    CutInTwo(s, |s| - |inner|);
    CutInTwo(inner, |TrimRight(inner)|);
    slot := Slot(s[..|s| - |inner|], inner[|TrimRight(inner)|..], 0);
    Associate(slot.left, Trim(s), slot.right);
  }

  lemma CutInTwo(s: string, n: nat)
    requires n <= |s|
    ensures s == s[..n] + s[n..]
  {
  }

  /** Every text is the fields found in it, decorated: there is nothing else a text can hold. */
  lemma {:induction false} AnyTextDecorated(s: string) returns (lead: nat, slots: seq<Slot>)
    ensures Decorable(Fields(s), slots) && s == Commas(lead) + Decorated(Fields(s), slots)
    decreases |s|
  {
    hide Trim, Tokens;
    if s == "" {
      TokensLast("");
      lead, slots := 0, [];
    } else if s[0] == ',' {
      lead, slots := AnyTextDecorated(s[1..]);
      assert s == "," + s[1..];
      LeadingCommaIgnored(s[1..]);
      lead := lead + 1;
      Associate(",", Commas(lead - 1), Decorated(Fields(s), slots));
    } else {
      var n := FirstOf(s, ',');
      var x := s[..n];
      var slot := TrimParts(x);
      FieldOf(x);
      lead := 0;
      if n == |s| {
        assert x == s;
        TokensLast(s);
        slots := [slot];
        LastDecorated(x, slot);
      } else {
        var rest := s[n + 1..];
        var more, behind := AnyTextDecorated(rest);
        assert s == x + "," + rest;
        TokensFirst(x, rest);
        TrimAllFirst(x, Tokens(rest));
        slots := FrontDecorated(x, slot, Fields(rest), more, behind);
      }
    }
  }

  /** The field a token becomes. */
  lemma FieldOf(x: string)
    requires ',' !in x
    ensures ',' !in Trim(x) && NoOuterSpace(Trim(x))
  {
    hide Trim;
    TrimmedHasNoOuterSpace(x);
  }

  lemma LastDecorated(x: string, slot: Slot)
    requires x != "" && ',' !in Trim(x) && NoOuterSpace(Trim(x)) && slot.commas == 0
    requires AllSpace(slot.left) && AllSpace(slot.right) && x == slot.left + Trim(x) + slot.right
    ensures Decorable([Trim(x)], [slot]) && x == Commas(0) + Decorated([Trim(x)], [slot])
  {
    hide Trim;
  }

  lemma FrontDecorated(x: string, slot: Slot, fields: seq<string>, more: nat, behind: seq<Slot>)
    returns (slots: seq<Slot>)
    requires x != "" && ',' !in Trim(x) && NoOuterSpace(Trim(x))
    requires AllSpace(slot.left) && AllSpace(slot.right) && x == slot.left + Trim(x) + slot.right
    requires Decorable(fields, behind)
    ensures Decorable([Trim(x)] + fields, slots)
    ensures x + "," + (Commas(more) + Decorated(fields, behind)) == Commas(0) + Decorated([Trim(x)] + fields, slots)
  {
    hide Trim;
    var all := [Trim(x)] + fields;
    assert all[1..] == fields;
    if fields == [] {
      slots := [slot.(commas := more + 1)];
      assert Commas(more + 1) == "," + Commas(more);
      assert x + "," + (Commas(more) + "") == x + ("," + Commas(more));
    } else {
      slots := [slot.(commas := more)] + behind;
      assert slots[1..] == behind;
      Associate(x, ",", Commas(more) + Decorated(fields, behind));
    }
  }

  /** The text is these fields with these decorations. */
  ghost predicate Shows(text: string, lead: nat, fields: seq<string>, slots: seq<Slot>) {
    Decorable(fields, slots) && text == Commas(lead) + Decorated(fields, slots)
  }

  /** The fields of a command, in the forms the protocol documents. */
  ghost predicate FormOf(cmd: Command, fields: seq<string>, c: Libc) {
    match cmd
    case Help => fields == ["HELP"]
    case Query(a, b) =>
      && |fields| == 3 && fields[0] == "QUERY"
      && ((SpellsId(fields[1], a) && SpellsId(fields[2], b)) || (SpellsId(fields[1], b) && SpellsId(fields[2], a)))
      && a <= b
    case Sensor(r) =>
      && |fields| == 6 && fields[0] == "SENSOR" && fields[1] == r.device && 1 <= |r.device| <= 63
      && Accepted(c.strtod(fields[2]), fields[2]) == Some(r.data1)
      && Accepted(c.strtod(fields[3]), fields[3]) == Some(r.data2)
      && Accepted(c.strtod(fields[4]), fields[4]) == Some(r.data3)
      && Accepted(c.strtod(fields[5]), fields[5]) == Some(r.data4)
  }

  /** Optional whitespace, an optional sign and digits spelling `v`, an int that is not negative. */
  ghost predicate SpellsId(s: string, v: int) {
    0 <= v <= 2147483647 && exists spaces, sign, digits :: Spells(s, spaces, sign, digits, v)
  }

  lemma FieldsExact(fields: seq<string>, cmd: Command, c: Libc)
    requires Platform(c)
    ensures ParseFields(fields, c) == Some(cmd) <==> FormOf(cmd, fields, c)
  {
    hide ParseInt, SpellsId;
    if |fields| == 3 {
      forall v: int ensures ParseInt(fields[1], c.longMax) == Some(v) <==> SpellsId(fields[1], v) {
        IdExact(fields[1], c, v);
      }
      forall v: int ensures ParseInt(fields[2], c.longMax) == Some(v) <==> SpellsId(fields[2], v) {
        IdExact(fields[2], c, v);
      }
    }
    if fields == ["HELP"] || |fields| == 1 {
      assert fields == [fields[0]];
    }
  }

  lemma IdExact(s: string, c: Libc, v: int)
    requires Platform(c)
    ensures ParseInt(s, c.longMax) == Some(v) <==> SpellsId(s, v)
  {
    hide ParseInt, Spells;
    ParseIntExact(s, c.longMax, v);
  }

  /**
   A text is a command if and only if it is one of the three documented forms with
   decorations, below 256 bytes: unknown names, missing or surplus fields, and numbers
   that do not read are all refused.
   */
  lemma ParseExact(text: string, cmd: Command, c: Libc)
    requires Platform(c)
    ensures ParseCommand(text, c) == Some(cmd) <==>
            |text| < 256 && exists lead, fields, slots :: Shows(text, lead, fields, slots) && FormOf(cmd, fields, c)
  {
    hide ParseFields, FormOf, Fields;
    if ParseCommand(text, c) == Some(cmd) {
      var lead, slots := AnyTextDecorated(text);
      FieldsExact(Fields(text), cmd, c);
      assert Shows(text, lead, Fields(text), slots);
    }
    if lead, fields, slots :| Shows(text, lead, fields, slots) && FormOf(cmd, fields, c) {
      DecorationIrrelevant(lead, fields, slots, c);
      FieldsExact(fields, cmd, c);
    }
  }

  /** A command typed on a line of its own, with either kind of line end. */
  lemma TypedLine(cmd: Command, ending: string, c: Libc)
    requires Sensible(cmd) && Platform(c) && (ending == "\n" || ending == "\r\n")
    requires |Print(cmd) + ending| < 256
    ensures ParseCommand(Print(cmd) + ending, c) == Some(cmd) <==> ReadsValues(c, cmd)
  {
    hide ParseCommand, FieldsOf, ReadsValues, Joined, Decorated;
    FieldsOfNonEmpty(cmd);
    var fields := FieldsOf(cmd);
    var plain := seq(|fields|, _ => Slot("", "", 0));
    var slots := plain[|fields| - 1 := Slot("", ending, 0)];
    RoundTrip(cmd, 0, slots, c);
    JoinedWithEnding(fields, slots, ending);
    assert Commas(0) + (Print(cmd) + ending) == Print(cmd) + ending;
  }

  lemma FieldsOfNonEmpty(cmd: Command)
    ensures FieldsOf(cmd) != []
  {
  }

  lemma {:induction false} JoinedWithEnding(fields: seq<string>, slots: seq<Slot>, ending: string)
    requires fields != [] && |slots| == |fields| && slots[|fields| - 1] == Slot("", ending, 0)
    requires forall i :: 0 <= i < |fields| - 1 ==> slots[i] == Slot("", "", 0)
    ensures Decorated(fields, slots) == Joined(fields) + ending
  {
    if |fields| == 1 {
      assert "" + fields[0] + ending + Commas(0) == fields[0] + ending;
    } else {
      JoinedWithEnding(fields[1..], slots[1..], ending);
      Undecorated(fields[0], Decorated(fields[1..], slots[1..]));
      Associate(fields[0] + ",", Joined(fields[1..]), ending);
    }
  }
}

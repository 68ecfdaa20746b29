/**
 The parser as the C code runs it: one mutable buffer into which strtok and trim
 both write NULs while later tokens are still unread. Pointers into the buffer
 are offsets; strtok's saved pointer is explicit.
 */
module ParserBuffer {
  import opened Wrappers
  import opened CText
  import opened DecimalText
  import opened SensorTable
  import opened CommandText

  /** A C string starts at `p`: there is a NUL at or after it. */
  ghost predicate Terminated(mem: string, p: nat) {
    p <= |mem| && p + |StrAt(mem, p)| < |mem|
  }

  /** Offset `p` holds the C string `s`, its NUL no later than `limit`. */
  ghost predicate Holds(mem: string, p: nat, s: string, limit: nat) {
    Terminated(mem, p) && StrAt(mem, p) == s && p + |s| <= limit
  }

  /** Writes strictly between `lo` and `hi` only. */
  ghost predicate WrittenInside(before: string, after: string, lo: nat, hi: nat) {
    |before| == |after| && forall i :: 0 <= i < |before| && (i <= lo || hi <= i) ==> after[i] == before[i]
  }

  lemma HoldsFrame(before: string, after: string, lo: nat, hi: nat, p: nat, s: string)
    requires Holds(before, p, s, lo) && WrittenInside(before, after, lo, hi)
    ensures Holds(after, p, s, lo)
  {
    assert before[p..p + |s| + 1] == after[p..p + |s| + 1];
    StrAtFrame(before, after, p);
  }

  lemma TailFrame(before: string, after: string, lo: nat, hi: nat, p: nat)
    requires Terminated(before, p) && hi <= p && WrittenInside(before, after, lo, hi)
    ensures Terminated(after, p) && StrAt(after, p) == StrAt(before, p)
  {
    var s := StrAt(before, p);
    assert before[p..p + |s| + 1] == after[p..p + |s| + 1];
    StrAtFrame(before, after, p);
  }

  lemma StringBytes(mem: string, p: nat)
    requires Terminated(mem, p)
    ensures var s := StrAt(mem, p);
            && mem[p + |s|] == NUL
            && forall i :: p <= i < p + |s| ==> mem[i] == s[i - p] && mem[i] != NUL
  {
    var s := StrAt(mem, p);
    forall i | p <= i < p + |s| ensures mem[i] == s[i - p] && mem[i] != NUL {
      assert mem[p..p + |s|][i - p] == mem[i];
    }
  }

  /** Trimming keeps what lies between the first and the last byte that is not whitespace. */
  lemma TrimIs(s: string, k: nat, e: nat)
    requires k < e <= |s| && !IsSpace(s[k]) && !IsSpace(s[e - 1])
    requires forall i :: 0 <= i < k || e <= i < |s| ==> IsSpace(s[i])
    ensures Trim(s) == s[k..e]
  {
    assert s == s[..k] + s[k..e] + s[e..];
    TrimStrips(s[..k], s[k..e], s[e..]);
  }

  lemma TrimBlank(s: string)
    requires AllSpace(s)
    ensures Trim(s) == ""
  {
    assert s == s + "" + "";
    TrimStrips(s, "", "");
  }

  lemma HoldsPart(before: string, after: string, p: nat, k: nat, e: nat)
    requires Terminated(before, p) && k <= e <= |StrAt(before, p)|
    requires after == before[p + e := NUL]
    ensures Holds(after, p + k, StrAt(before, p)[k..e], p + e)
  {
    var part := StrAt(before, p)[k..e];
    assert after[p + k..p + e] == before[p..p + |StrAt(before, p)|][k..e] == part;
    StrAtIs(after, p + k, part);
  }

  /** The leading-whitespace loop of trim(). The NUL is not whitespace, so it stops there at the latest. */
  method SkipSpaces(mem: array<char>, str: nat) returns (p: nat)
    requires Terminated(mem[..], str)
    ensures str <= p <= str + |StrAt(mem[..], str)|
    ensures !IsSpace(mem[p]) && forall i :: str <= i < p ==> IsSpace(mem[i])
  {
    ghost var s := StrAt(mem[..], str);
    StringBytes(mem[..], str);
    hide StrAt, Terminated;
    p := str;
    while IsSpace(mem[p])
      invariant str <= p <= str + |s|
      invariant forall i :: str <= i < p ==> IsSpace(mem[i])
      decreases str + |s| - p
    {
      p := p + 1;
    }
  }

  /** The trailing-whitespace loop of trim(), from `last` down to `p`. */
  method SkipSpacesBack(mem: array<char>, p: nat, last: nat) returns (end: nat)
    requires p <= last < mem.Length
    ensures p <= end <= last && (end > p ==> !IsSpace(mem[end]))
    ensures forall i :: end < i <= last ==> IsSpace(mem[i])
  {
    end := last;
    while end > p && IsSpace(mem[end])
      invariant p <= end <= last
      invariant forall i :: end < i <= last ==> IsSpace(mem[i])
    {
      end := end - 1;
    }
  }

  /** What trim() leaves behind: the trimmed string at `p`, nothing else touched. */
  ghost predicate Trimmed(before: string, after: string, str: nat, p: nat) {
    && Terminated(before, str)
    && var s := StrAt(before, str);
       && str <= p
       && Holds(after, p, Trim(s), str + |s|)
       && WrittenInside(before, after, str, str + |s|)
  }

  lemma BlankTrimmed(mem: string, str: nat, p: nat)
    requires Terminated(mem, str) && p == str + |StrAt(mem, str)|
    requires forall i :: str <= i < p ==> IsSpace(mem[i])
    ensures Trimmed(mem, mem, str, p)
  {
    hide Trim, StrAt;
    var s := StrAt(mem, str);
    StringBytes(mem, str);
    forall i | 0 <= i < |s| ensures IsSpace(s[i]) {
      assert mem[str + i] == s[i];
    }
    TrimBlank(s);
    StrAtSuffix(mem, str, |s|);
  }

  lemma InkTrimmed(before: string, after: string, str: nat, p: nat, end: nat)
    requires Terminated(before, str)
    requires str <= p <= end < str + |StrAt(before, str)|
    requires !IsSpace(before[p]) && !IsSpace(before[end])
    requires forall i :: str <= i < p || end < i < str + |StrAt(before, str)| ==> IsSpace(before[i])
    requires after == before[end + 1 := NUL]
    ensures Trimmed(before, after, str, p)
  {
    hide Trim, Holds, StrAt;
    var s := StrAt(before, str);
    StringBytes(before, str);
    var k, e := p - str, end + 1 - str;
    forall i | 0 <= i < k || e <= i < |s| ensures IsSpace(s[i]) {
      assert before[str + i] == s[i];
    }
    TrimIs(s, k, e);
    HoldsPart(before, after, str, k, e);
    HoldsLater(after, p, Trim(s), end + 1, str + |s|);
  }

  /** trim(): a pointer past the leading whitespace, and a NUL over the trailing whitespace. */
  method TrimInPlace(mem: array<char>, str: nat) returns (p: nat)
    requires Terminated(mem[..], str)
    modifies mem
    ensures Trimmed(old(mem[..]), mem[..], str, p)
  {
    hide Trimmed, Trim;
    ghost var before := mem[..];
    StringBytes(before, str);
    p := SkipSpaces(mem, str);
    if mem[p] == NUL {
      BlankTrimmed(before, str, p);
      return;
    }
    StrAtSuffix(before, str, p - str);
    var end := SkipSpacesBack(mem, p, p + |StrAt(mem[..], p)| - 1);
    mem[end + 1] := NUL;
    InkTrimmed(before, mem[..], str, p, end);
  }

  /** The number of separators strtok skips. */
  function CommaRun(s: string): (n: nat)
    ensures n <= |s| && (n < |s| ==> s[n] != ',')
  {
    if s == "" || s[0] != ',' then 0 else 1 + CommaRun(s[1..])
  }

  lemma {:induction false} CommaRunIgnored(s: string)
    ensures Tokens(s[CommaRun(s)..]) == Tokens(s)
  {
    hide Tokens;
    if s != "" && s[0] == ',' {
      CommaRunIgnored(s[1..]);
      assert s == "," + s[1..];
      LeadingCommaIgnored(s[1..]);
      assert s[1..][CommaRun(s[1..])..] == s[CommaRun(s)..];
    }
  }

  lemma FirstToken(s: string, k: nat)
    requires s != "" && s[0] != ',' && k == FirstOf(s, ',')
    ensures 1 <= k <= |s|
    ensures k == |s| ==> Tokens(s) == [s]
    ensures k < |s| ==> Tokens(s) == [s[..k]] + Tokens(s[k + 1..])
  {
    hide Tokens;
    if k == |s| {
      assert s[..k] == s;
      TokensLast(s);
    } else {
      CutAtComma(s, k);
      TokensFirst(s[..k], s[k + 1..]);
    }
  }

  lemma CutAtComma(s: string, k: nat)
    requires k < |s| && s[k] == ','
    ensures s == s[..k] + "," + s[k + 1..]
  {
  }

  lemma NoTokens()
    ensures Tokens("") == []
  {
    TokensLast("");
  }

  /** What one strtok call on the string at `start` yields and leaves behind. */
  ghost predicate Tokenized(before: string, after: string, start: nat, token: Option<nat>, save: nat) {
    && Terminated(before, start)
    && var s := StrAt(before, start);
       && start <= save <= start + |s|
       && Terminated(after, save)
       && WrittenInside(before, after, start, start + |s|)
       && (token.None? ==> Tokens(s) == [])
       && (token.Some? ==>
             && start <= token.value < save
             && Holds(after, token.value, StrAt(after, token.value), save)
             && Tokens(s) == [StrAt(after, token.value)] + Tokens(StrAt(after, save)))
  }

  lemma NoTokenHere(mem: string, start: nat)
    requires Terminated(mem, start) && CommaRun(StrAt(mem, start)) == |StrAt(mem, start)|
    ensures Tokenized(mem, mem, start, None, start + |StrAt(mem, start)|)
  {
    hide Tokens;
    CommaRunIgnored(StrAt(mem, start));
    NoTokens();
    StrAtSuffix(mem, start, |StrAt(mem, start)|);
  }

  /** strtok found the string's last token: nothing is written and the rest is empty. */
  lemma LastTokenHere(mem: string, start: nat, n: nat)
    requires Terminated(mem, start) && n == CommaRun(StrAt(mem, start)) < |StrAt(mem, start)|
    requires FirstOf(StrAt(mem, start)[n..], ',') == |StrAt(mem, start)| - n
    ensures Tokenized(mem, mem, start, Some(start + n), start + |StrAt(mem, start)|)
  {
    hide Tokens, StrAt, CommaRun;
    var s := StrAt(mem, start);
    CommaRunIgnored(s);
    NoTokens();
    FirstToken(s[n..], |s| - n);
    StrAtSuffix(mem, start, n);
    StrAtSuffix(mem, start, |s|);
  }

  /** strtok found a token and a comma behind it: the comma becomes a NUL. */
  lemma InnerTokenHere(before: string, after: string, start: nat, n: nat, k: nat)
    requires Terminated(before, start) && n == CommaRun(StrAt(before, start)) < |StrAt(before, start)|
    requires k == FirstOf(StrAt(before, start)[n..], ',') && n + k < |StrAt(before, start)|
    requires after == before[start + n + k := NUL]
    ensures Tokenized(before, after, start, Some(start + n), start + n + k + 1)
  {
    hide Tokens, StrAt, CommaRun, FirstOf;
    var s := StrAt(before, start);
    CommaRunIgnored(s);
    FirstToken(s[n..], k);
    InnerTokenMemory(before, after, start, n, k);
  }

  lemma InnerTokenMemory(before: string, after: string, start: nat, n: nat, k: nat)
    requires Terminated(before, start) && k >= 1 && n + k < |StrAt(before, start)|
    requires after == before[start + n + k := NUL]
    ensures var s := StrAt(before, start);
            && Holds(after, start + n, s[n..][..k], start + n + k)
            && Terminated(after, start + n + k + 1) && StrAt(after, start + n + k + 1) == s[n..][k + 1..]
  {
    var s := StrAt(before, start);
    HoldsPart(before, after, start, n, n + k);
    StrAtSuffix(before, start, n + k + 1);
    TailFrame(before, after, start, start + n + k + 1, start + n + k + 1);
    SliceTwice(s, n, k);
  }

  lemma SliceTwice(s: string, n: nat, k: nat)
    requires n + k < |s|
    ensures s[n..n + k] == s[n..][..k] && s[n + k + 1..] == s[n..][k + 1..]
  {
  }

  /**
   strtok(start, ","), section 7.24.5.8 of ISO/IEC 9899:2011, with the saved
   pointer returned instead of hidden in static state.
   */
  method Strtok(mem: array<char>, start: nat) returns (token: Option<nat>, save: nat)
    requires Terminated(mem[..], start)
    modifies mem
    ensures Tokenized(old(mem[..]), mem[..], start, token, save)
  {
    hide Tokenized, Tokens, CommaRun, FirstOf, StrAt;
    ghost var before := mem[..];
    var s := StrAt(mem[..], start);
    var n := CommaRun(s);
    if n == |s| {
      NoTokenHere(before, start);
      return None, start + n;
    }
    var k := FirstOf(s[n..], ',');
    if n + k == |s| {
      LastTokenHere(before, start, n);
      return Some(start + n), start + n + k;
    }
    mem[start + n + k] := NUL;
    InnerTokenHere(before, mem[..], start, n, k);
    return Some(start + n), start + n + k + 1;
  }

  /** Everything split_fields knows after `count` fields, their NULs no later than `limit`. */
  ghost predicate FieldsHeld(mem: string, fields: seq<nat>, count: nat, tokens: seq<string>, limit: nat) {
    && count <= |fields| && count <= |tokens|
    && forall i :: 0 <= i < count ==> Holds(mem, fields[i], Trim(tokens[i]), limit)
  }

  lemma FieldsHeldFrame(before: string, after: string, lo: nat, hi: nat, fields: seq<nat>, count: nat,
                        tokens: seq<string>, limit: nat)
    requires FieldsHeld(before, fields, count, tokens, lo) && WrittenInside(before, after, lo, hi) && lo <= limit
    ensures FieldsHeld(after, fields, count, tokens, limit)
  {
    hide Holds, Trim, WrittenInside;
    forall i | 0 <= i < count ensures Holds(after, fields[i], Trim(tokens[i]), limit) {
      HoldsFrame(before, after, lo, hi, fields[i], Trim(tokens[i]));
      HoldsLater(after, fields[i], Trim(tokens[i]), lo, limit);
    }
  }

  lemma FieldsHeldWiden(mem: string, fields: seq<nat>, count: nat, tokens: seq<string>, limit: nat, limit': nat)
    requires FieldsHeld(mem, fields, count, tokens, limit) && limit <= limit'
    ensures FieldsHeld(mem, fields, count, tokens, limit')
  {
    hide Trim;
  }

  lemma HoldsLater(mem: string, p: nat, s: string, limit: nat, limit': nat)
    requires Holds(mem, p, s, limit) && limit <= limit'
    ensures Holds(mem, p, s, limit')
  {
  }

  /** The fields array points at exactly these strings. */
  ghost predicate PointsAt(mem: string, fields: seq<nat>, all: seq<string>) {
    && |all| <= |fields|
    && forall i :: 0 <= i < |all| ==> Terminated(mem, fields[i]) && StrAt(mem, fields[i]) == all[i]
  }

  /** split_fields between two loop iterations: `count` fields found, one token in hand, the tail at `save` unread. */
  ghost predicate Splitting(mem: string, fields: seq<nat>, count: nat, tokens: seq<string>, limit: nat,
                            token: Option<nat>, save: nat) {
    && FieldsHeld(mem, fields, count, tokens, limit)
    && limit <= save && Terminated(mem, save)
    && (token.None? ==> tokens[count..] == [])
    && (token.Some? ==>
          && limit <= token.value < save
          && Holds(mem, token.value, StrAt(mem, token.value), save)
          && tokens[count..] == [StrAt(mem, token.value)] + Tokens(StrAt(mem, save)))
  }

  lemma FirstSplit(before: string, after: string, fields: seq<nat>, token: Option<nat>, save: nat)
    requires Tokenized(before, after, 0, token, save)
    ensures Splitting(after, fields, 0, Tokens(StrAt(before, 0)), 0, token, save)
  {
    hide Tokens;
    var tokens := Tokens(StrAt(before, 0));
    assert tokens[0..] == tokens;
  }

  lemma TokenInHand(mem: string, fields: seq<nat>, count: nat, tokens: seq<string>, limit: nat, token: nat, save: nat)
    requires Splitting(mem, fields, count, tokens, limit, Some(token), save)
    ensures count < |tokens| && tokens[count] == StrAt(mem, token) && Terminated(mem, token)
    ensures tokens[count + 1..] == Tokens(StrAt(mem, save))
  {
    hide Tokens;
    assert tokens[count] == tokens[count..][0];
    assert tokens[count + 1..] == tokens[count..][1..];
  }

  /** trim() of the token in hand completes one more field; the unread tail is as it was. */
  lemma FieldDone(m0: string, m1: string, fields: seq<nat>, count: nat, tokens: seq<string>, limit: nat,
                  token: nat, save: nat, field: nat, fields': seq<nat>)
    requires Splitting(m0, fields, count, tokens, limit, Some(token), save)
    requires Trimmed(m0, m1, token, field)
    requires count < |fields| && fields' == fields[count := field]
    ensures count < |tokens| && FieldsHeld(m1, fields', count + 1, tokens, save)
    ensures Terminated(m1, save) && tokens[count + 1..] == Tokens(StrAt(m1, save))
  {
    hide Tokens, Trim, WrittenInside, StrAt;
    TokenInHand(m0, fields, count, tokens, limit, token, save);
    var hi := token + |StrAt(m0, token)|;
    TailFrame(m0, m1, token, hi, save);
    FieldsHeldWiden(m0, fields, count, tokens, limit, token);
    FieldsHeldFrame(m0, m1, token, hi, fields, count, tokens, save);
    HoldsLater(m1, field, Trim(tokens[count]), hi, save);
    hide Holds;
  }

  /** The next strtok leaves every completed field alone. */
  lemma NextSplit(m1: string, m2: string, fields: seq<nat>, count: nat, tokens: seq<string>, start: nat,
                  token: Option<nat>, save: nat)
    requires FieldsHeld(m1, fields, count, tokens, start)
    requires Terminated(m1, start) && tokens[count..] == Tokens(StrAt(m1, start))
    requires Tokenized(m1, m2, start, token, save)
    ensures Splitting(m2, fields, count, tokens, start, token, save)
  {
    hide Tokens, WrittenInside;
    FieldsHeldFrame(m1, m2, start, start + |StrAt(m1, start)|, fields, count, tokens, start);
  }

  lemma AllFieldsHeld(mem: string, fields: seq<nat>, count: nat, tokens: seq<string>, limit: nat, save: nat)
    requires Splitting(mem, fields, count, tokens, limit, None, save)
    ensures count == |tokens| && PointsAt(mem, fields, TrimAll(tokens))
  {
    hide Trim, StrAt;
  }

  lemma FieldsAre(s: string)
    ensures Fields(s) == TrimAll(Tokens(s))
  {
  }

  /**
   split_fields(): the NULs strtok and trim write into the shared buffer never
   disturb the unread tail or an earlier field. The fields found are the pure
   ones, or the count is -1 when there are more than `maxFields`.
   */
  method SplitFields(mem: array<char>, fields: array<nat>, maxFields: nat) returns (count: int)
    requires Terminated(mem[..], 0) && maxFields <= fields.Length
    modifies mem, fields
    ensures var all := Fields(old(StrAt(mem[..], 0)));
            && (count == -1 <==> |all| > maxFields)
            && (count != -1 ==> count == |all| && PointsAt(mem[..], fields[..], all))
  {
    hide *;
    ghost var before := mem[..];
    ghost var tokens := Tokens(StrAt(before, 0));
    FieldsAre(StrAt(before, 0));
    count := 0;
    var token, save := Strtok(mem, 0);
    ghost var limit: nat := 0;
    FirstSplit(before, mem[..], fields[..], token, save);
    while token.Some?
      invariant 0 <= count <= maxFields && count <= |tokens|
      invariant Splitting(mem[..], fields[..], count, tokens, limit, token, save)
      decreases |tokens| - count
    {
      ghost var m0, f0 := mem[..], fields[..];
      TokenInHand(m0, f0, count, tokens, limit, token.value, save);
      if count >= maxFields {
        return -1;
      }
      var field := TrimInPlace(mem, token.value);
      fields[count] := field;
      FieldDone(m0, mem[..], f0, count, tokens, limit, token.value, save, field, fields[..]);
      count := count + 1;
      ghost var m1 := mem[..];
      limit := save;
      token, save := Strtok(mem, save);
      NextSplit(m1, mem[..], fields[..], count, tokens, limit, token, save);
    }
    AllFieldsHeld(mem[..], fields[..], count, tokens, limit, save);
  }

  /** tcp_parser_parse(): the in-place parser computes the pure command language. */
  method Parse(input: string, c: Libc) returns (command: Option<Command>)
    requires NoNul(input) && Platform(c)
    ensures command == ParseCommand(input, c)
  {
    hide Fields, ParseSensor, ParseQuery;
    if |input| >= MAX_INPUT {
      return None;
    }
    var buffer := new char[MAX_INPUT];
    forall i | 0 <= i < |input| {
      buffer[i] := input[i];
    }
    buffer[|input|] := NUL;
    assert buffer[0..|input|] == input;
    StrAtIs(buffer[..], 0, input);
    var fields := new nat[MAX_FIELDS];
    var count := SplitFields(buffer, fields, MAX_FIELDS);
    if count <= 0 {
      return None;
    }
    var name := StrAt(buffer[..], fields[0]);
    if name == "SENSOR" {
      command := SensorFrom(buffer, fields, count, c, Fields(input));
    } else if name == "QUERY" {
      command := QueryFrom(buffer, fields, count, c, Fields(input));
    } else if name == "HELP" {
      command := if count != 1 then None else Some(Help);
    } else {
      command := None;
    }
  }

  /** parse_sensor() */
  method SensorFrom(mem: array<char>, fields: array<nat>, count: nat, c: Libc, ghost all: seq<string>)
    returns (command: Option<Command>)
    requires count == |all| && PointsAt(mem[..], fields[..], all)
    ensures command == ParseSensor(all, c)
  {
    if count != 6 {
      return None;
    }
    var device := StrAt(mem[..], fields[1]);
    if device == "" {
      return None;
    }
    if |device| >= DEVICE_SIZE {
      return None;
    }
    var text := StrAt(mem[..], fields[2]);
    var data1 := Accepted(c.strtod(text), text);
    if data1.None? {
      return None;
    }
    text := StrAt(mem[..], fields[3]);
    var data2 := Accepted(c.strtod(text), text);
    if data2.None? {
      return None;
    }
    text := StrAt(mem[..], fields[4]);
    var data3 := Accepted(c.strtod(text), text);
    if data3.None? {
      return None;
    }
    text := StrAt(mem[..], fields[5]);
    var data4 := Accepted(c.strtod(text), text);
    if data4.None? {
      return None;
    }
    return Some(Sensor(Reading(device, data1.value, data2.value, data3.value, data4.value)));
  }

  /** The state of strtol's digit loop: the number so far, or the news that it exceeds `bound`. */
  ghost predicate Accumulated(digits: string, bound: nat, magnitude: nat, outOfRange: bool) {
    && AllDigits(digits) && magnitude <= bound
    && (outOfRange <==> TextNat(digits) > bound)
    && (!outOfRange ==> magnitude == TextNat(digits))
  }

  lemma DigitAccumulates(s: string, start: nat, i: nat, bound: nat, magnitude: nat, outOfRange: bool)
    requires start <= i < |s| && IsDigit(s[i]) && Accumulated(s[start..i], bound, magnitude, outOfRange)
    ensures var d := DigitValue(s[i]);
            var over := outOfRange || magnitude > bound / 10 || (magnitude == bound / 10 && d > bound % 10);
            Accumulated(s[start..i + 1], bound, if over then magnitude else 10 * magnitude + d, over)
  {
    var digits := s[start..i + 1];
    assert digits[..|digits| - 1] == s[start..i];
    assert bound == 10 * (bound / 10) + bound % 10;
  }

  /** The digit loop of strtol, which tests for overflow before every step. */
  method ReadDigits(s: string, start: nat, bound: nat) returns (end: nat, magnitude: nat, outOfRange: bool)
    requires start <= |s|
    ensures start <= end <= |s| && end - start == DigitRun(s[start..])
    ensures Accumulated(s[start..end], bound, magnitude, outOfRange)
  {
    hide Accumulated;
    end, magnitude, outOfRange := start, 0, false;
    NothingAccumulated(s, start, bound);
    while end < |s| && IsDigit(s[end])
      invariant start <= end <= |s| && AllDigits(s[start..end])
      invariant Accumulated(s[start..end], bound, magnitude, outOfRange)
    {
      var d := DigitValue(s[end]);
      DigitAccumulates(s, start, end, bound, magnitude, outOfRange);
      if outOfRange || magnitude > bound / 10 || (magnitude == bound / 10 && d > bound % 10) {
        outOfRange := true;
      } else {
        magnitude := 10 * magnitude + d;
      }
      end := end + 1;
    }
    assert s[start..][..end - start] == s[start..end];
    DigitRunIs(s[start..], end - start);
  }

  lemma NothingAccumulated(s: string, start: nat, bound: nat)
    requires start <= |s|
    ensures Accumulated(s[start..start], bound, 0, false)
  {
  }

  /** The whitespace loop of strtol. */
  method SkipBlanks(s: string) returns (i: nat)
    ensures i == SpaceRun(s)
  {
    i := 0;
    while i < |s| && IsSpace(s[i])
      invariant i <= |s| && AllSpace(s[..i])
    {
      i := i + 1;
    }
    SpaceRunIs(s, i);
  }

  /**
   strtol(s, &end, 10), section 7.22.1.4 of ISO/IEC 9899:2011, as a loop in which
   no magnitude ever leaves the range of `long`: it computes the number the text
   spells, or the nearest `long` together with ERANGE.
   */
  method StrtolLoop(s: string, longMax: nat) returns (r: Scan)
    ensures r == Strtol(s, longMax)
  {
    hide TextNat, IsSpace, AllSpace;
    var i := SkipBlanks(s);
    var negative := false;
    if i < |s| && s[i] in "+-" {
      negative := s[i] == '-';
      i := i + 1;
    }
    var bound: nat := if negative then longMax + 1 else longMax;
    var end, magnitude, outOfRange := ReadDigits(s, i, bound);
    assert s[i..][..end - i] == s[i..end];
    if end == i {
      return Scan(0, 0, false);
    }
    var limited: int := if outOfRange then bound else magnitude;
    return Scan(if negative then -limited else limited, end, outOfRange);
  }

  /** parse_int() */
  method ParseIntAt(mem: array<char>, p: nat, c: Libc) returns (v: Option<int>)
    requires Terminated(mem[..], p) && Platform(c)
    ensures v == ParseInt(StrAt(mem[..], p), c.longMax)
  {
    hide Strtol;
    var str := StrAt(mem[..], p);
    var scan := StrtolLoop(str, c.longMax);
    if scan.consumed == 0 || scan.consumed != |str| || scan.outOfRange {
      return None;
    }
    if scan.value < 0 || scan.value > INT_MAX {
      return None;
    }
    return Some(scan.value);
  }

  /** parse_query(): a reversed range is put in order. */
  method QueryFrom(mem: array<char>, fields: array<nat>, count: nat, c: Libc, ghost all: seq<string>)
    returns (command: Option<Command>)
    requires count == |all| && PointsAt(mem[..], fields[..], all) && Platform(c)
    ensures command == ParseQuery(all, c)
  {
    hide ParseInt;
    if count != 3 {
      return None;
    }
    var first := ParseIntAt(mem, fields[1], c);
    if first.None? {
      return None;
    }
    var second := ParseIntAt(mem, fields[2], c);
    if second.None? {
      return None;
    }
    var startId, endId := first.value, second.value;
    if startId > endId {
      startId, endId := endId, startId;
    }
    return Some(Query(startId, endId));
  }
}

/** The JSON printer and the key extractor of the journal bodies. Keys are found by plain substring search, so
  * the round trip rests on one fact: `"key":` never occurs where a string value was printed. */
module Json {
  import opened Bytes

  const QUOTE: byte := '"'
  const BACKSLASH: byte := '\\'
  const INT64_MAX := 0x7FFF_FFFF_FFFF_FFFF

  // --- Printing ---

  function HexDigit(n: nat): (d: byte)
    requires n < 16
  {
    if n < 10 then ToByte('0' as int + n) else ToByte('a' as int + n - 10)
  }

  function EscapeByte(c: byte): (s: bytes) {
    if c == '"' then [BACKSLASH, '"']
    else if c == '\\' then [BACKSLASH, '\\']
    else if c == '\n' then [BACKSLASH, 'n']
    else if c == '\r' then [BACKSLASH, 'r']
    else if c == '\t' then [BACKSLASH, 't']
    else if c as int < 0x20 then [BACKSLASH, 'u', '0', '0', HexDigit(c as int / 16), HexDigit(c as int % 16)]
    else [c]
  }

  function Escape(s: bytes): (e: bytes) {
    if s == [] then [] else EscapeByte(s[0]) + Escape(s[1..])
  }

  /** json_escape. */
  method JsonEscape(input: bytes) returns (out: bytes)
    ensures out == Escape(input)
  {
    out := [];
    for i := 0 to |input|
      invariant out + Escape(input[i..]) == Escape(input)
    {
      assert input[i..][1..] == input[i + 1..];
      out := out + EscapeByte(input[i]);
    }
    assert input[|input|..] == [];
  }

  /** The %u and %llu conversions. */
  function Decimal(n: nat): (s: bytes)
    ensures s != [] && forall c <- s :: IsDigit(c)
  {
    if n < 10 then [ToByte('0' as int + n)] else Decimal(n / 10) + [ToByte('0' as int + n % 10)]
  }

  function Pow10(n: nat): (p: nat)
    ensures p > 0
  {
    if n == 0 then 1 else 10 * Pow10(n - 1)
  }

  predicate IsDigit(c: byte) {
    '0' <= c <= '9'
  }

  // --- Extracting ---

  function Needle(key: bytes): (n: bytes) {
    [QUOTE] + key + [QUOTE, ':']
  }

  predicate IsAt(text: bytes, needle: bytes, p: nat) {
    p + |needle| <= |text| && text[p..p + |needle|] == needle
  }

  /** find_value_start: the text after the first occurrence of the quoted key and its colon. */
  function AfterKey(text: bytes, key: bytes): (rest: Option<bytes>)
    decreases |text|
  {
    if IsAt(text, Needle(key), 0) then Some(text[|Needle(key)|..])
    else if text == [] then None
    else AfterKey(text[1..], key)
  }

  predicate IsSpace(c: byte) {
    c == ' ' || '\t' <= c <= '\r'
  }

  function SkipWs(s: bytes): (r: bytes) {
    if s != [] && IsSpace(s[0]) then SkipWs(s[1..]) else s
  }

  function UnescapeByte(c: byte): (r: byte) {
    if c == 'n' then '\n' else if c == 'r' then '\r' else if c == 't' then '\t' else c
  }

  /** The value of a string whose opening quote has been consumed. */
  function ReadString(s: bytes): (v: bytes)
    decreases |s|
  {
    if s == [] || s[0] == QUOTE then []
    else if s[0] == BACKSLASH && |s| > 1 then [UnescapeByte(s[1])] + ReadString(s[2..])
    else [s[0]] + ReadString(s[1..])
  }

  function ExtractString(text: bytes, key: bytes, default: bytes): (v: bytes) {
    match AfterKey(text, key)
    case None => default
    case Some(rest) =>
      var s := SkipWs(rest);
      if s == [] || s[0] != QUOTE then default else ReadString(s[1..])
  }

  function LeadingDigits(s: bytes): (d: bytes)
    ensures forall c <- d :: IsDigit(c)
  {
    if s != [] && IsDigit(s[0]) then [s[0]] + LeadingDigits(s[1..]) else []
  }

  function DecimalValue(d: bytes): (n: nat)
    requires forall c <- d :: IsDigit(c)
  {
    if d == [] then 0
    else
      var last := d[|d| - 1];
      assert IsDigit(last);
      10 * DecimalValue(d[..|d| - 1]) + (last as int - '0' as int)
  }

  /** strtoll clamps to the 64-bit range. */
  function Clamp(n: int): (r: int) {
    if n > INT64_MAX then INT64_MAX else if n < -INT64_MAX - 1 then -INT64_MAX - 1 else n
  }

  function ReadInt(s: bytes, default: int): (n: int) {
    var negative := s != [] && s[0] == '-';
    var digits := LeadingDigits(if negative then s[1..] else s);
    if digits == [] then default
    else
      var magnitude: int := DecimalValue(digits);
      Clamp(if negative then -magnitude else magnitude)
  }

  function ExtractInt(text: bytes, key: bytes, default: int): (n: int) {
    match AfterKey(text, key)
    case None => default
    case Some(rest) => ReadInt(SkipWs(rest), default)
  }

  /** find_value_start, returning the position right after the colon. */
  method FindValueStart(json: bytes, key: bytes) returns (pos: Option<nat>)
    ensures pos.None? <==> AfterKey(json, key).None?
    ensures pos.Some? ==> pos.value <= |json| && AfterKey(json, key) == Some(json[pos.value..])
  {
    var needle := Needle(key);
    var i := 0;
    while i + |needle| <= |json|
      invariant i <= |json| && AfterKey(json[i..], key) == AfterKey(json, key)
    {
      if json[i..i + |needle|] == needle {
        assert IsAt(json[i..], needle, 0) && json[i..][|needle|..] == json[i + |needle|..];
        return Some(i + |needle|);
      }
      assert !IsAt(json[i..], needle, 0) && json[i..][1..] == json[i + 1..];
      i := i + 1;
    }
    TooShort(json[i..], key);
    return None;
  }

  lemma {:induction false} TooShort(text: bytes, key: bytes)
    requires |text| < |Needle(key)|
    ensures AfterKey(text, key) == None
    decreases |text|
  {
    if text != [] {
      TooShort(text[1..], key);
    }
  }

  method SkipSpace(json: bytes, start: nat) returns (pos: nat)
    requires start <= |json|
    ensures start <= pos <= |json| && json[pos..] == SkipWs(json[start..])
  {
    pos := start;
    while pos < |json| && IsSpace(json[pos])
      invariant start <= pos <= |json| && SkipWs(json[pos..]) == SkipWs(json[start..])
    {
      assert json[pos..][1..] == json[pos + 1..];
      pos := pos + 1;
    }
  }

  /** json_extract_string. */
  method JsonExtractString(json: bytes, key: bytes, default: bytes) returns (out: bytes)
    ensures out == ExtractString(json, key, default)
  {
    var found := FindValueStart(json, key);
    if found.None? {
      return default;
    }
    var pos := SkipSpace(json, found.value);
    if pos >= |json| || json[pos] != QUOTE {
      return default;
    }
    assert json[pos..][1..] == json[pos + 1..];
    out := UnescapeFrom(json, pos + 1);
  }

  /** The unescaping loop of json_extract_string, from the byte after the opening quote. */
  method UnescapeFrom(json: bytes, start: nat) returns (out: bytes)
    requires start <= |json|
    ensures out == ReadString(json[start..])
  {
    hide ReadString;
    var pos := start;
    out := [];
    while pos < |json| && json[pos] != QUOTE
      invariant pos <= |json| && out + ReadString(json[pos..]) == ReadString(json[start..])
    {
      ghost var s := json[pos..];
      if json[pos] == BACKSLASH && pos + 1 < |json| {
        assert s[2..] == json[pos + 2..];
        UnescapeStep(out, s);
        out := out + [UnescapeByte(json[pos + 1])];
        pos := pos + 2;
      } else {
        assert s[1..] == json[pos + 1..];
        UnescapeStep(out, s);
        out := out + [json[pos]];
        pos := pos + 1;
      }
    }
    ReadStringStops(json[pos..]);
  }

  lemma UnescapeStep(out: bytes, s: bytes)
    requires s != [] && s[0] != QUOTE
    ensures out + ReadString(s) ==
            if s[0] == BACKSLASH && |s| > 1 then out + [UnescapeByte(s[1])] + ReadString(s[2..])
            else out + [s[0]] + ReadString(s[1..])
  {
    var escaped := s[0] == BACKSLASH && |s| > 1;
    var head, more := if escaped then [UnescapeByte(s[1])] else [s[0]], if escaped then s[2..] else s[1..];
    assert ReadString(s) == head + ReadString(more);
    hide ReadString;
    assert out + (head + ReadString(more)) == out + head + ReadString(more);
  }

  lemma ReadStringStops(s: bytes)
    requires s == [] || s[0] == QUOTE
    ensures ReadString(s) == []
  {
  }

  /** json_extract_int. */
  method JsonExtractInt(json: bytes, key: bytes, default: int) returns (n: int)
    ensures n == ExtractInt(json, key, default)
  {
    var found := FindValueStart(json, key);
    if found.None? {
      return default;
    }
    var start := SkipSpace(json, found.value);
    var end := start;
    if end < |json| && json[end] == '-' {
      end := end + 1;
    }
    var digitsStart := end;
    end := DigitsEnd(json, digitsStart);
    assert digitsStart > start ==> json[start..][1..] == json[digitsStart..];
    hide LeadingDigits;
    if end == digitsStart {
      return default;
    }
    var magnitude: int := DecimalValue(json[digitsStart..end]);
    return Clamp(if digitsStart > start then -magnitude else magnitude);
  }

  lemma DigitTaken(json: bytes, start: nat, end: nat)
    requires start <= end < |json| && IsDigit(json[end])
    ensures json[start..end] + LeadingDigits(json[end..]) == json[start..end + 1] + LeadingDigits(json[end + 1..])
  {
    assert json[end..][1..] == json[end + 1..];
    assert json[start..end] + [json[end]] == json[start..end + 1];
  }

  /** The digit loop of json_extract_int. */
  method DigitsEnd(json: bytes, start: nat) returns (end: nat)
    requires start <= |json|
    ensures start <= end <= |json| && json[start..end] == LeadingDigits(json[start..])
  {
    end := start;
    while end < |json| && IsDigit(json[end])
      invariant start <= end <= |json|
      invariant json[start..end] + LeadingDigits(json[end..]) == LeadingDigits(json[start..])
    {
      DigitTaken(json, start, end);
      end := end + 1;
    }
  }

  // --- A printed object and what the extractors find in it ---

  datatype Value = Text(text: bytes) | Number(n: nat)
  datatype Field = Field(key: bytes, value: Value)

  function Print(v: Value): (s: bytes) {
    match v
    case Text(t) => [QUOTE] + Escape(t) + [QUOTE]
    case Number(n) => Decimal(n)
  }

  /** The fields, each led by its separator, and the closing brace. */
  function PrintFields(fs: seq<Field>, sep: byte): (s: bytes)
    ensures s != [] && (s[0] == sep || s[0] == '}')
  {
    if fs == [] then ['}'] else [sep] + Needle(fs[0].key) + Print(fs[0].value) + PrintFields(fs[1..], ',')
  }

  function PrintObject(fs: seq<Field>): (s: bytes) {
    PrintFields(fs, '{')
  }

  function Get(fs: seq<Field>, key: bytes): (v: Option<Value>) {
    if fs == [] then None else if fs[0].key == key then Some(fs[0].value) else Get(fs[1..], key)
  }

  /** The keys used in journal bodies: nonempty words of lower-case letters and underscores. */
  ghost predicate IsKey(key: bytes) {
    key != [] && forall c <- key :: 'a' <= c <= 'z' || c == '_'
  }

  /** Every quote in an escaped value is preceded by a backslash. */
  ghost predicate QuotesEscaped(e: bytes) {
    forall i | 0 <= i < |e| && e[i] == QUOTE :: i > 0 && e[i - 1] == BACKSLASH
  }

  lemma {:induction false} EscapeHidesQuotes(s: bytes)
    ensures QuotesEscaped(Escape(s))
    ensures forall c <- Escape(s) :: c as int >= 0x20
    ensures |Escape(s)| <= 6 * |s|
  {
    if s != [] {
      EscapeHidesQuotes(s[1..]);
      var head, tail := EscapeByte(s[0]), Escape(s[1..]);
      forall i | 0 <= i < |head + tail| && (head + tail)[i] == QUOTE
        ensures i > 0 && (head + tail)[i - 1] == BACKSLASH
      {
        if i >= |head| {
          assert tail[i - |head|] == QUOTE;
        }
      }
    }
  }

  /** What a printed value looks like to the substring search. */
  ghost predicate Opaque(v: bytes) {
    || QUOTE !in v
    || (|v| >= 2 && v[0] == QUOTE && v[|v| - 1] == QUOTE && QuotesEscaped(v[1..|v| - 1]))
  }

  lemma PrintIsOpaque(v: Value)
    ensures Opaque(Print(v))
  {
    match v {
      case Text(t) =>
        EscapeHidesQuotes(t);
        assert Print(v)[1..|Print(v)| - 1] == Escape(t);
      case Number(n) =>
        assert forall c <- Decimal(n) :: IsDigit(c);
    }
  }

  /** The bytes an occurrence of the quoted key at `p` pins down. */
  ghost predicate Matches(text: bytes, key: bytes, p: nat) {
    && p + |key| + 3 <= |text|
    && text[p] == QUOTE && text[p + 1 + |key|] == QUOTE && text[p + 2 + |key|] == ':'
    && forall j | 0 <= j < |key| :: text[p + 1 + j] == key[j]
  }

  lemma OccurrenceMatches(text: bytes, key: bytes, p: nat)
    requires IsAt(text, Needle(key), p)
    ensures Matches(text, key, p)
  {
    var window := text[p..p + |Needle(key)|];
    assert forall i | 0 <= i < |window| :: window[i] == text[p + i];
    assert forall j | 0 <= j < |key| :: window[1 + j] == key[j];
  }

  /** The bytes of one printed field and of the first byte behind it. */
  ghost predicate FieldLayout(text: bytes, name: bytes, value: bytes) {
    var a := 4 + |name|;
    && |text| > a + |value|
    && text[0] != QUOTE && text[1] == QUOTE && text[a - 2] == QUOTE && text[a - 1] == ':'
    && (text[a + |value|] == ',' || text[a + |value|] == '}')
    && (forall j | 0 <= j < |name| :: text[2 + j] == name[j])
    && (forall j | 0 <= j < |value| :: text[a + j] == value[j])
  }

  lemma PrintedLayout(sep: byte, name: bytes, value: bytes, rest: bytes)
    requires sep != QUOTE && rest != [] && (rest[0] == ',' || rest[0] == '}')
    ensures FieldLayout([sep] + Needle(name) + value + rest, name, value)
  {
    var text := [sep] + Needle(name) + value + rest;
    assert text[2..2 + |name|] == name && text[4 + |name|..4 + |name| + |value|] == value;
  }

  /** An occurrence cannot start in the key part of a field that carries another key. */
  lemma NoMatchInKey(text: bytes, name: bytes, value: bytes, key: bytes, p: nat)
    requires FieldLayout(text, name, value) && IsKey(name) && IsKey(key) && key != name
    requires p < 4 + |name|
    ensures !Matches(text, key, p)
  {
    if p == 1 {
      if |key| < |name| {
        assert text[2 + |key|] == name[|key|] && name[|key|] in name;
      } else if |key| > |name| {
        assert key[|name|] in key;
      } else {
        var j :| 0 <= j < |key| && key[j] != name[j];
        assert text[2 + j] == name[j];
      }
    } else if 1 < p < 2 + |name| {
      assert text[p] == name[p - 2] && name[p - 2] in name;
    } else if p == 2 + |name| {
      assert key[0] in key;
    }
  }

  /** An occurrence cannot start in a printed value: its closing quote would have to be escaped, or followed
    * by a colon. */
  lemma NoMatchInValue(text: bytes, name: bytes, value: bytes, key: bytes, p: nat)
    requires FieldLayout(text, name, value) && IsKey(key) && Opaque(value)
    requires 4 + |name| <= p < 4 + |name| + |value|
    ensures !Matches(text, key, p)
  {
    var a, end := 4 + |name|, p + 1 + |key|;
    var z := a + |value| - 1;
    assert text[p] == value[p - a];
    if value[p - a] == QUOTE {
      assert text[z] == value[|value| - 1] == QUOTE;
      if p == z {
        assert key[0] in key;
      } else if end > z {
        assert key[z - p - 1] in key;
      } else if end < z {
        var inner := value[1..|value| - 1];
        assert text[end] == inner[end - a - 1];
        assert text[end - 1] == inner[end - a - 2];
        assert key[|key| - 1] in key;
      }
    }
  }

  /** The key lemma: the search does not match inside a field that carries another key. */
  lemma NoMatchInside(sep: byte, name: bytes, value: bytes, rest: bytes, key: bytes, p: nat)
    requires sep != QUOTE && IsKey(name) && IsKey(key) && key != name && Opaque(value)
    requires rest != [] && (rest[0] == ',' || rest[0] == '}')
    requires p < 1 + |Needle(name)| + |value|
    ensures !IsAt([sep] + Needle(name) + value + rest, Needle(key), p)
  {
    var text := [sep] + Needle(name) + value + rest;
    PrintedLayout(sep, name, value, rest);
    if IsAt(text, Needle(key), p) {
      OccurrenceMatches(text, key, p);
      if p < 4 + |name| {
        NoMatchInKey(text, name, value, key, p);
      } else {
        NoMatchInValue(text, name, value, key, p);
      }
    }
  }

  lemma OccurrenceShifts(text: bytes, needle: bytes, p: nat)
    requires text != []
    ensures IsAt(text[1..], needle, p) <==> IsAt(text, needle, p + 1)
  {
    if p + 1 + |needle| <= |text| {
      assert text[1..][p..p + |needle|] == text[p + 1..p + 1 + |needle|];
    }
  }

  lemma {:induction false} SearchSkips(text: bytes, key: bytes, n: nat)
    requires n <= |text|
    requires forall p | 0 <= p < n :: !IsAt(text, Needle(key), p)
    ensures AfterKey(text, key) == AfterKey(text[n..], key)
    decreases n
  {
    if n != 0 {
      assert !IsAt(text, Needle(key), 0);
      assert AfterKey(text, key) == AfterKey(text[1..], key);
      hide AfterKey;
      hide IsAt;
      forall p | 0 <= p < n - 1
        ensures !IsAt(text[1..], Needle(key), p)
      {
        OccurrenceShifts(text, Needle(key), p);
      }
      SearchSkips(text[1..], key, n - 1);
      assert text[1..][n - 1..] == text[n..];
    }
  }

  /** What is left of the object after the value of the first field named `key`. */
  function TailAfter(fs: seq<Field>, key: bytes): (rest: bytes)
    requires Get(fs, key).Some?
    ensures rest != [] && (rest[0] == ',' || rest[0] == '}')
  {
    if fs[0].key == key then PrintFields(fs[1..], ',') else TailAfter(fs[1..], key)
  }

  /** The search finds exactly the value printed under that key, whatever the other values contain. */
  lemma {:induction false} SearchFindsField(fs: seq<Field>, sep: byte, key: bytes)
    requires sep != QUOTE && IsKey(key) && forall f <- fs :: IsKey(f.key)
    ensures AfterKey(PrintFields(fs, sep), key) ==
            match Get(fs, key) case None => None case Some(v) => Some(Print(v) + TailAfter(fs, key))
    decreases |fs|
  {
    if fs == [] {
      TooShort(PrintFields(fs, sep), key);
    } else {
      var name, value, rest := fs[0].key, Print(fs[0].value), PrintFields(fs[1..], ',');
      assert PrintFields(fs, sep) == [sep] + Needle(name) + value + rest;
      if name == key {
        FieldFound(sep, key, value, rest);
      } else {
        PrintIsOpaque(fs[0].value);
        FieldSkipped(sep, name, value, rest, key);
        SearchFindsField(fs[1..], ',', key);
      }
    }
  }

  lemma FieldFound(sep: byte, key: bytes, value: bytes, rest: bytes)
    requires sep != QUOTE
    ensures AfterKey([sep] + Needle(key) + value + rest, key) == Some(value + rest)
  {
    var text, needle := [sep] + Needle(key) + value + rest, Needle(key);
    assert text[0] == sep && needle[0] == QUOTE;
    assert !IsAt(text, needle, 0);
    assert text[1..] == needle + (value + rest);
    assert IsAt(text[1..], needle, 0) && text[1..][|needle|..] == value + rest;
  }

  lemma FieldSkipped(sep: byte, name: bytes, value: bytes, rest: bytes, key: bytes)
    requires sep != QUOTE && IsKey(name) && IsKey(key) && key != name && Opaque(value)
    requires rest != [] && (rest[0] == ',' || rest[0] == '}')
    ensures AfterKey([sep] + Needle(name) + value + rest, key) == AfterKey(rest, key)
  {
    hide AfterKey;
    hide IsAt;
    var text, n := [sep] + Needle(name) + value + rest, 1 + |Needle(name)| + |value|;
    forall p | 0 <= p < n
      ensures !IsAt(text, Needle(key), p)
    {
      NoMatchInside(sep, name, value, rest, key, p);
    }
    SearchSkips(text, key, n);
    assert text[n..] == rest;
  }

  // --- Values read back ---

  /** What one byte comes back as: a control byte other than \n, \r and \t loses its escape. */
  function ReadBackByte(c: byte): (s: bytes) {
    if c as int < 0x20 && c != '\n' && c != '\r' && c != '\t' then EscapeByte(c)[1..] else [c]
  }

  function ReadBack(s: bytes): (r: bytes) {
    if s == [] then [] else ReadBackByte(s[0]) + ReadBack(s[1..])
  }

  /** No control byte other than the three that have their own escape. */
  ghost predicate Clean(s: bytes) {
    forall c <- s :: c as int >= 0x20 || c == '\n' || c == '\r' || c == '\t'
  }

  lemma ReadOneEscaped(c: byte, more: bytes)
    ensures ReadString([BACKSLASH, c] + more) == [UnescapeByte(c)] + ReadString(more)
  {
    assert ([BACKSLASH, c] + more)[2..] == more;
  }

  lemma ReadOnePlain(c: byte, more: bytes)
    requires c != QUOTE && c != BACKSLASH
    ensures ReadString([c] + more) == [c] + ReadString(more)
  {
    assert ([c] + more)[1..] == more;
  }

  lemma ReadEscapedByte(c: byte, more: bytes)
    ensures ReadString(EscapeByte(c) + more) == ReadBackByte(c) + ReadString(more)
  {
    var e := EscapeByte(c);
    hide ReadString;
    if |e| == 1 {
      ReadOnePlain(c, more);
    } else if |e| == 2 {
      ReadOneEscaped(e[1], more);
    } else {
      var code := e[2..];
      assert e == [BACKSLASH, 'u'] + code && ReadBackByte(c) == ['u'] + code;
      hide EscapeByte;
      hide ReadBackByte;
      assert e + more == [BACKSLASH, 'u'] + (code + more);
      ReadOneEscaped('u', code + more);
      PlainBytes(code, more);
      assert ['u'] + (code + ReadString(more)) == ['u'] + code + ReadString(more);
    }
  }

  lemma {:induction false} PlainBytes(plain: bytes, more: bytes)
    requires QUOTE !in plain && BACKSLASH !in plain
    ensures ReadString(plain + more) == plain + ReadString(more)
    decreases |plain|
  {
    if plain == [] {
      assert plain + more == more;
    } else {
      assert plain[0] in plain;
      assert (plain + more)[1..] == plain[1..] + more;
      PlainBytes(plain[1..], more);
      assert plain == [plain[0]] + plain[1..];
    }
  }

  lemma {:induction false} ReadEscaped(s: bytes, more: bytes)
    ensures ReadString(Escape(s) + [QUOTE] + more) == ReadBack(s)
    decreases |s|
  {
    if s != [] {
      var rest := Escape(s[1..]) + [QUOTE] + more;
      assert Escape(s) + [QUOTE] + more == EscapeByte(s[0]) + rest;
      ReadEscapedByte(s[0], rest);
      ReadEscaped(s[1..], more);
    }
  }

  /** A string survives escaping and extraction if and only if it is clean. */
  lemma {:induction false} ReadBackIdentity(s: bytes)
    ensures |ReadBack(s)| >= |s|
    ensures |ReadBack(s)| == |s| ==> Clean(s)
    ensures Clean(s) ==> ReadBack(s) == s
  {
    if s != [] {
      ReadBackIdentity(s[1..]);
      CleanSplit(s);
      ByteReadBack(s[0]);
      hide Clean;
      hide ReadBackByte;
      assert s == [s[0]] + s[1..];
    }
  }

  lemma CleanSplit(s: bytes)
    requires s != []
    ensures Clean(s) <==> Clean([s[0]]) && Clean(s[1..])
  {
    assert s[0] in s && s[0] in [s[0]] && forall c :: c in s <==> c == s[0] || c in s[1..];
  }

  lemma ByteReadBack(c: byte)
    ensures |ReadBackByte(c)| >= 1
    ensures |ReadBackByte(c)| == 1 ==> Clean([c])
    ensures Clean([c]) ==> ReadBackByte(c) == [c]
  {
    assert c in [c];
  }

  lemma {:induction false} DecimalRoundTrip(n: nat)
    ensures DecimalValue(Decimal(n)) == n
  {
    if n >= 10 {
      DecimalRoundTrip(n / 10);
      assert Decimal(n)[..|Decimal(n)| - 1] == Decimal(n / 10);
    } else {
      assert Decimal(n)[..0] == [];
    }
  }

  lemma {:induction false} LeadingDigitsStop(d: bytes, more: bytes)
    requires forall c <- d :: IsDigit(c)
    requires more != [] && !IsDigit(more[0])
    ensures LeadingDigits(d + more) == d
    decreases |d|
  {
    if d == [] {
      assert d + more == more;
    } else {
      assert (d + more)[1..] == d[1..] + more;
      LeadingDigitsStop(d[1..], more);
      assert d == [d[0]] + d[1..];
    }
  }

  /** Reading a string field of a printed object. */
  lemma ExtractText(fs: seq<Field>, key: bytes, default: bytes)
    requires IsKey(key) && forall f <- fs :: IsKey(f.key)
    ensures ExtractString(PrintObject(fs), key, default) ==
            match Get(fs, key) case Some(Text(t)) => ReadBack(t) case _ => default
  {
    SearchFindsField(fs, '{', key);
    match Get(fs, key) {
      case None =>
      case Some(Text(t)) =>
        ReadPrintedText(t, TailAfter(fs, key), default);
      case Some(Number(n)) =>
        assert IsDigit(Decimal(n)[0]);
    }
  }

  lemma ReadPrintedText(t: bytes, tail: bytes, default: bytes)
    ensures var s := SkipWs(Print(Text(t)) + tail);
            s != [] && s[0] == QUOTE && ReadString(s[1..]) == ReadBack(t)
  {
    ReadEscaped(t, tail);
    hide Escape;
    hide ReadString;
    hide ReadBack;
    var s := Print(Text(t)) + tail;
    assert s[1..] == Escape(t) + [QUOTE] + tail;
  }

  /** Reading a number field of a printed object: values past 2^63-1 are clamped. */
  lemma ExtractNumber(fs: seq<Field>, key: bytes, default: int)
    requires IsKey(key) && forall f <- fs :: IsKey(f.key)
    ensures ExtractInt(PrintObject(fs), key, default) ==
            match Get(fs, key) case Some(Number(n)) => Clamp(n) case _ => default
  {
    SearchFindsField(fs, '{', key);
    hide AfterKey;
    hide Escape;
    hide PrintFields;
    hide Decimal;
    match Get(fs, key) {
      case None =>
      case Some(Text(t)) =>
        assert LeadingDigits(Print(Text(t)) + TailAfter(fs, key)) == [];
      case Some(Number(n)) =>
        assert IsDigit(Decimal(n)[0]);
        LeadingDigitsStop(Decimal(n), TailAfter(fs, key));
        DecimalRoundTrip(n);
    }
  }

  // --- What else the extractors read ---

  lemma {:induction false} SpaceSkipped(space: bytes, rest: bytes)
    requires forall c <- space :: c == ' ' || c == '\t' || c == '\n' || c == '\r'
    requires rest != [] && rest[0] as int > 0x20
    ensures SkipWs(space + rest) == rest
    decreases |space|
  {
    if space == [] {
      assert space + rest == rest;
    } else {
      assert space[0] in space && (space + rest)[1..] == space[1..] + rest;
      assert forall c <- space[1..] :: c in space;
      SpaceSkipped(space[1..], rest);
    }
  }

  /** Space between the colon and the value changes nothing, and a number may be negative; one that does not fit is clamped. */
  lemma SpacedValueRead(text: bytes, key: bytes, space: bytes, n: int, more: bytes, default: int)
    requires forall c <- space :: c == ' ' || c == '\t' || c == '\n' || c == '\r'
    requires more != [] && !IsDigit(more[0])
    requires var digits := Decimal(if n < 0 then -n else n);
             AfterKey(text, key) == Some(space + ((if n < 0 then ['-'] + digits else digits) + more))
    ensures ExtractInt(text, key, default) ==
            if n > 0x7FFF_FFFF_FFFF_FFFF then 0x7FFF_FFFF_FFFF_FFFF
            else if n < -0x8000_0000_0000_0000 then -0x8000_0000_0000_0000 else n
  {
    var digits := Decimal(if n < 0 then -n else n);
    var value := (if n < 0 then ['-'] + digits else digits) + more;
    assert digits[0] in digits && IsDigit(digits[0]);
    assert value[0] == (if n < 0 then '-' else digits[0]);
    SpaceSkipped(space, value);
    DecimalRoundTrip(if n < 0 then -n else n);
    LeadingDigitsStop(digits, more);
    if n < 0 {
      assert value[1..] == digits + more;
    }
    hide Decimal;
    hide AfterKey;
    hide SkipWs;
    hide LeadingDigits;
    hide DecimalValue;
  }
}

/**
 JSON texts as JSON.stringify writes and JSON.parse reads them (RFC 8259). A number is kept as its
 lexeme; an object keeps its members in order, and the last of several with one name counts.
 */
module Json {
  import opened Wrappers

  datatype Json =
    | Null
    | Bool(value: bool)
    | Number(lexeme: string)
    | String(text: string)
    | Array(items: Items)
    | Object(members: Members)

  datatype Items = NoItem | Item(head: Json, tail: Items)

  datatype Members = NoMember | Member(name: string, value: Json, rest: Members) {
    function Find(wanted: string): Option<Json> {
      match this
      case NoMember => None
      case Member(name, value, rest) =>
        var later := rest.Find(wanted);
        if later.Some? then later else if name == wanted then Some(value) else None
    }
  }

  // ---- numbers -----------------------------------------------------------------------------------

  predicate IsDigit(c: char) {
    '0' <= c <= '9'
  }

  /** The number of leading digits. */
  function Digits(s: string): (n: nat)
    ensures n <= |s|
  {
    if s == "" || !IsDigit(s[0]) then 0 else 1 + Digits(s[1..])
  }

  /** Section 6 of RFC 8259. */
  predicate IsNumber(s: string) {
    var t := if s != "" && s[0] == '-' then s[1..] else s;
    var n := Digits(t);
    n > 0 && (t[0] == '0' ==> n == 1) && IsFraction(t[n..])
  }

  predicate IsFraction(s: string) {
    if s != "" && s[0] == '.' then Digits(s[1..]) > 0 && IsExponent(s[1..][Digits(s[1..])..]) else IsExponent(s)
  }

  predicate IsExponent(s: string) {
    s == "" || (s[0] in "eE" && var t := if |s| > 1 && s[1] in "+-" then s[2..] else s[1..]; t != "" && Digits(t) == |t|)
  }

  predicate IsNumberChar(c: char) {
    IsDigit(c) || c in "+-.eE"
  }

  function NumberRun(s: string): (n: nat)
    ensures n <= |s|
  {
    if s == "" || !IsNumberChar(s[0]) then 0 else 1 + NumberRun(s[1..])
  }

  function Decimal(n: nat): string {
    if n < 10 then [('0' as int + n) as char] else Decimal(n / 10) + [('0' as int + n % 10) as char]
  }

  // ---- strings -----------------------------------------------------------------------------------

  function HexDigit(n: nat): char
    requires n < 16
  {
    "0123456789abcdef"[n]
  }

  function HexValue(c: char): Option<nat> {
    if '0' <= c <= '9' then Some(c as int - '0' as int)
    else if 'a' <= c <= 'f' then Some(c as int - 'a' as int + 10)
    else if 'A' <= c <= 'F' then Some(c as int - 'A' as int + 10)
    else None
  }

  /** Section 7 of RFC 8259: quotation mark, reverse solidus and the control characters are escaped. */
  function EscapeChar(c: char): string {
    if c == '"' then "\\\""
    else if c == '\\' then "\\\\"
    else if c as int == 8 then "\\b"
    else if c as int == 12 then "\\f"
    else if c == '\n' then "\\n"
    else if c == '\r' then "\\r"
    else if c == '\t' then "\\t"
    else if c as int < 0x20 then "\\u00" + [HexDigit(c as int / 16), HexDigit(c as int % 16)]
    else [c]
  }

  function Escape(s: string): string {
    if s == "" then "" else EscapeChar(s[0]) + Escape(s[1..])
  }

  function Quote(s: string): string {
    "\"" + Escape(s) + "\""
  }

  predicate Plain(s: string) {
    forall i :: 0 <= i < |s| ==> s[i] as int >= 0x20 && s[i] != '"' && s[i] != '\\'
  }

  /** A text without quotation marks, reverse solidi and control characters is quoted as it stands. */
  lemma {:induction false} EscapePlain(s: string)
    requires Plain(s)
    ensures Escape(s) == s && Quote(s) == "\"" + s + "\""
  {
    if s != "" {
      EscapePlain(s[1..]);
      assert EscapeChar(s[0]) == [s[0]];
      assert s == [s[0]] + s[1..];
    }
  }

  /** The spellings that section 7 of RFC 8259 has for what must be escaped. */
  lemma EscapeSpellings()
    ensures EscapeChar('"') == "\\\"" && EscapeChar('\\') == "\\\\" && EscapeChar('\n') == "\\n" && EscapeChar('\r') == "\\r"
    ensures EscapeChar('\t') == "\\t" && EscapeChar(8 as char) == "\\b" && EscapeChar(12 as char) == "\\f"
    ensures EscapeChar(0 as char) == "\\u0000" && EscapeChar(11 as char) == "\\u000b" && EscapeChar(31 as char) == "\\u001f"
    ensures forall c :: c as int >= 0x20 && c != '"' && c != '\\' ==> EscapeChar(c) == [c]
  {
  }

  /** A character and how many characters of the text spell it. */
  datatype Spelled = Spelled(c: char, width: nat)

  function HexCode(s: string): Option<nat> {
    if |s| < 4 then None
    else
      var a, b, c, d := HexValue(s[0]), HexValue(s[1]), HexValue(s[2]), HexValue(s[3]);
      if a.None? || b.None? || c.None? || d.None? then None
      else Some(a.value * 4096 + b.value * 256 + c.value * 16 + d.value)
  }

  /** The character spelled at the start of s, inside a string. A surrogate pair spells one character;
      a lone surrogate is none. */
  function Unescape(s: string): (r: Option<Spelled>)
    ensures r.Some? ==> 1 <= r.value.width <= |s|
  {
    if s == "" || s[0] == '"' || s[0] as int < 0x20 then None
    else if s[0] != '\\' then Some(Spelled(s[0], 1))
    else if |s| < 2 then None
    else match s[1]
      case '"' => Some(Spelled('"', 2))
      case '\\' => Some(Spelled('\\', 2))
      case '/' => Some(Spelled('/', 2))
      case 'b' => Some(Spelled(8 as char, 2))
      case 'f' => Some(Spelled(12 as char, 2))
      case 'n' => Some(Spelled('\n', 2))
      case 'r' => Some(Spelled('\r', 2))
      case 't' => Some(Spelled('\t', 2))
      case 'u' =>
        var high := HexCode(s[2..]);
        if high.None? then None
        else if high.value < 0xD800 || 0xE000 <= high.value < 0x1_0000 then Some(Spelled(high.value as char, 6))
        else if high.value < 0xDC00 && |s| >= 12 && s[6] == '\\' && s[7] == 'u' then
          var low := HexCode(s[8..]);
          if low.None? || !(0xDC00 <= low.value < 0xE000) then None
          else Some(Spelled((0x1_0000 + (high.value - 0xD800) * 1024 + (low.value - 0xDC00)) as char, 12))
        else None
      case _ => None
  }

  /** What a parser read, and what is left. */
  datatype Read<T> = Fail | Read(value: T, rest: string)

  /** The rest of a string whose opening quotation mark has been read. */
  function ParseString(s: string): (r: Read<string>)
    ensures r.Read? ==> |r.rest| < |s|
    decreases |s|
  {
    if s != "" && s[0] == '"' then Read("", s[1..])
    else
      var c := Unescape(s);
      if c.None? then Fail
      else match ParseString(s[c.value.width..])
        case Fail => Fail
        case Read(text, rest) => Read([c.value.c] + text, rest)
  }

  // ---- values ------------------------------------------------------------------------------------

  function SkipSpace(s: string): (t: string)
    ensures |t| <= |s|
  {
    if s != "" && s[0] in " \t\n\r" then SkipSpace(s[1..]) else s
  }

  function Starts(s: string, word: string): bool {
    |word| <= |s| && s[..|word|] == word
  }

  function ParseValue(s: string): (r: Read<Json>)
    ensures r.Read? ==> |r.rest| < |s|
    decreases |s|, 0
  {
    if s == "" then Fail
    else if Starts(s, "null") then Read(Null, s[4..])
    else if Starts(s, "true") then Read(Bool(true), s[4..])
    else if Starts(s, "false") then Read(Bool(false), s[5..])
    else if s[0] == '"' then
      match ParseString(s[1..])
      case Fail => Fail
      case Read(text, rest) => Read(String(text), rest)
    else if s[0] == '[' then
      var t := SkipSpace(s[1..]);
      if t != "" && t[0] == ']' then Read(Array(NoItem), t[1..])
      else match ParseItems(t)
        case Fail => Fail
        case Read(items, rest) => Read(Array(items), rest)
    else if s[0] == '{' then
      var t := SkipSpace(s[1..]);
      if t != "" && t[0] == '}' then Read(Object(NoMember), t[1..])
      else match ParseMembers(t)
        case Fail => Fail
        case Read(members, rest) => Read(Object(members), rest)
    else
      var n := NumberRun(s);
      if IsNumber(s[..n]) then Read(Number(s[..n]), s[n..]) else Fail
  }

  /** One or more items and the closing bracket. */
  function ParseItems(s: string): (r: Read<Items>)
    ensures r.Read? ==> |r.rest| < |s|
    decreases |s|, 1
  {
    match ParseValue(s)
    case Fail => Fail
    case Read(head, rest) =>
      var t := SkipSpace(rest);
      if t != "" && t[0] == ']' then Read(Item(head, NoItem), t[1..])
      else if t != "" && t[0] == ',' then
        match ParseItems(SkipSpace(t[1..]))
        case Fail => Fail
        case Read(tail, last) => Read(Item(head, tail), last)
      else Fail
  }

  /** One or more members and the closing brace. */
  function ParseMembers(s: string): (r: Read<Members>)
    ensures r.Read? ==> |r.rest| < |s|
    decreases |s|, 1
  {
    if s == "" || s[0] != '"' then Fail
    else match ParseString(s[1..])
      case Fail => Fail
      case Read(name, afterName) =>
        var colon := SkipSpace(afterName);
        if colon == "" || colon[0] != ':' then Fail
        else match ParseValue(SkipSpace(colon[1..]))
          case Fail => Fail
          case Read(value, rest) =>
            var t := SkipSpace(rest);
            if t != "" && t[0] == '}' then Read(Member(name, value, NoMember), t[1..])
            else if t != "" && t[0] == ',' then
              match ParseMembers(SkipSpace(t[1..]))
              case Fail => Fail
              case Read(more, last) => Read(Member(name, value, more), last)
            else Fail
  }

  /** JSON.parse; None stands for the SyntaxError it throws. */
  function Parse(s: string): Option<Json> {
    match ParseValue(SkipSpace(s))
    case Fail => None
    case Read(v, rest) => if SkipSpace(rest) == "" then Some(v) else None
  }

  /** JSON.stringify */
  function Print(v: Json): string
    decreases v, 0
  {
    match v
    case Null => "null"
    case Bool(b) => if b then "true" else "false"
    case Number(lexeme) => lexeme
    case String(text) => Quote(text)
    case Array(items) => "[" + PrintItems(items) + "]"
    case Object(members) => "{" + PrintMembers(members) + "}"
  }

  function PrintItems(items: Items): string
    decreases items, 0
  {
    match items
    case NoItem => ""
    case Item(head, tail) => Print(head) + (if tail.NoItem? then "" else "," + PrintItems(tail))
  }

  function PrintMembers(members: Members): string
    decreases members, 0
  {
    match members
    case NoMember => ""
    case Member(name, value, rest) =>
      Quote(name) + ":" + Print(value) + PrintFurther(rest)
  }

  function PrintFurther(members: Members): string
    decreases members, 1
  {
    if members.NoMember? then "" else "," + PrintMembers(members)
  }

  predicate Valid(v: Json) {
    match v
    case Number(lexeme) => IsNumber(lexeme)
    case Array(items) => ValidItems(items)
    case Object(members) => ValidMembers(members)
    case _ => true
  }

  predicate ValidItems(items: Items) {
    items.Item? ==> Valid(items.head) && ValidItems(items.tail)
  }

  predicate ValidMembers(members: Members) {
    members.Member? ==> Valid(members.value) && ValidMembers(members.rest)
  }

  // ---- round trip --------------------------------------------------------------------------------

  lemma HexRoundTrip(n: nat)
    requires n < 16
    ensures HexValue(HexDigit(n)) == Some(n)
  {
  }

  /** An escaped character spells itself, whatever follows. */
  lemma EscapedSpells(c: char, rest: string)
    ensures Unescape(EscapeChar(c) + rest) == Some(Spelled(c, |EscapeChar(c)|))
    ensures (EscapeChar(c) + rest)[0] != '"'
  {
    var n, s := c as int, EscapeChar(c) + rest;
    if n < 0x20 && n !in {8, 9, 10, 12, 13} {
      HexRoundTrip(n / 16);
      HexRoundTrip(n % 16);
      assert s[2..][0] == '0' && s[2..][1] == '0' && s[2..][2] == HexDigit(n / 16) && s[2..][3] == HexDigit(n % 16);
      assert HexCode(s[2..]) == Some(n);
    }
  }

  lemma {:induction false} StringRoundTrip(s: string, rest: string)
    ensures ParseString(Escape(s) + ("\"" + rest)) == Read(s, rest)
  {
    var tail := "\"" + rest;
    if s == "" {
      assert "" + tail == tail && tail[1..] == rest;
    } else {
      var e := EscapeChar(s[0]);
      StringRoundTrip(s[1..], rest);
      assert (e + Escape(s[1..])) + tail == e + (Escape(s[1..]) + tail);
      EscapedSpells(s[0], Escape(s[1..]) + tail);
      assert (e + (Escape(s[1..]) + tail))[|e|..] == Escape(s[1..]) + tail;
      assert [s[0]] + s[1..] == s;
    }
  }

  /** Nothing that could continue a number or be skipped. */
  predicate Delimited(rest: string) {
    rest == "" || rest[0] in ",]}"
  }

  lemma {:induction false} DigitsAreNumberChars(s: string)
    ensures forall i :: 0 <= i < Digits(s) ==> IsNumberChar(s[i])
  {
    if s != "" && IsDigit(s[0]) {
      DigitsAreNumberChars(s[1..]);
      forall i | 0 <= i < Digits(s) ensures IsNumberChar(s[i]) {
        assert i > 0 ==> s[i] == s[1..][i - 1];
      }
    }
  }

  lemma ExponentChars(s: string)
    requires IsExponent(s)
    ensures forall c :: c in s ==> IsNumberChar(c)
  {
    if s != "" {
      var t := if |s| > 1 && s[1] in "+-" then s[2..] else s[1..];
      DigitsAreNumberChars(t);
      assert s == s[..|s| - |t|] + t;
    }
  }

  lemma FractionChars(s: string)
    requires IsFraction(s)
    ensures forall c :: c in s ==> IsNumberChar(c)
  {
    if s != "" && s[0] == '.' {
      var t := s[1..];
      DigitsAreNumberChars(t);
      ExponentChars(t[Digits(t)..]);
      assert s == ["."[0]] + t[..Digits(t)] + t[Digits(t)..];
    } else {
      ExponentChars(s);
    }
  }

  lemma NumberChars(s: string)
    requires IsNumber(s)
    ensures s != "" && forall c :: c in s ==> IsNumberChar(c)
    ensures IsDigit(s[0]) || s[0] == '-'
  {
    var t := if s[0] == '-' then s[1..] else s;
    DigitsAreNumberChars(t);
    FractionChars(t[Digits(t)..]);
    assert s == s[..|s| - |t|] + t[..Digits(t)] + t[Digits(t)..];
  }

  lemma {:induction false} NumberRunStops(s: string, rest: string)
    requires (forall c :: c in s ==> IsNumberChar(c)) && Delimited(rest)
    ensures NumberRun(s + rest) == |s|
  {
    if s == "" {
      assert s + rest == rest;
    } else {
      NumberRunStops(s[1..], rest);
      assert (s + rest)[1..] == s[1..] + rest;
    }
  }

  lemma NumberRoundTrip(lexeme: string, rest: string)
    requires IsNumber(lexeme) && Delimited(rest)
    ensures ParseValue(lexeme + rest) == Read(Number(lexeme), rest)
  {
    var s := lexeme + rest;
    NumberChars(lexeme);
    NumberRunStops(lexeme, rest);
    assert s[0] == lexeme[0] && s[..|lexeme|] == lexeme && s[|lexeme|..] == rest;
    NotAWord(s);
  }

  lemma NotAWord(s: string)
    requires s != "" && s[0] != 'n' && s[0] != 't' && s[0] != 'f'
    ensures !Starts(s, "null") && !Starts(s, "true") && !Starts(s, "false")
  {
  }

  /** No printed value starts with a space or a closing bracket. */
  lemma FirstChar(v: Json)
    requires Valid(v)
    ensures Print(v) != "" && Print(v)[0] !in " \t\n\r" && Print(v)[0] !in "]}"
  {
    if v.Number? { NumberChars(v.lexeme); }
  }

  lemma ConcatAssociates(a: string, b: string, c: string)
    ensures (a + b) + c == a + (b + c)
  {
  }

  lemma WordRoundTrip(v: Json, rest: string)
    requires v.Null? || v.Bool?
    ensures ParseValue(Print(v) + rest) == Read(v, rest)
  {
    var s := Print(v) + rest;
    var n := |Print(v)|;
    assert s[..n] == Print(v) && s[n..] == rest && s[0] == Print(v)[0];
    assert Starts(s, "null") ==> s[..4][0] == 'n';
    assert Starts(s, "true") ==> s[..4][0] == 't';
  }

  /** One step of each parser, given what it reads. */
  lemma ReadsArray(inner: string, items: Items, rest: string)
    requires if items.NoItem? then inner == "]" + rest else inner != "" && inner[0] !in " \t\n\r]" && ParseItems(inner) == Read(items, rest)
    ensures ParseValue("[" + inner) == Read(Array(items), rest)
  {
    var s := "[" + inner;
    NotAWord(s);
    assert s[1..] == inner && SkipSpace(inner) == inner;
  }

  lemma ReadsObject(inner: string, members: Members, rest: string)
    requires if members.NoMember? then inner == "}" + rest else inner != "" && inner[0] == '"' && ParseMembers(inner) == Read(members, rest)
    ensures ParseValue("{" + inner) == Read(Object(members), rest)
  {
    var s := "{" + inner;
    NotAWord(s);
    assert s[1..] == inner && SkipSpace(inner) == inner;
  }

  lemma ReadsLastItem(s: string, head: Json, rest: string)
    requires ParseValue(s) == Read(head, "]" + rest)
    ensures ParseItems(s) == Read(Item(head, NoItem), rest)
  {
    assert SkipSpace("]" + rest) == "]" + rest && ("]" + rest)[1..] == rest;
  }

  lemma ReadsItem(s: string, head: Json, more: string, tail: Items, rest: string)
    requires ParseValue(s) == Read(head, "," + more) && ParseItems(more) == Read(tail, rest) && SkipSpace(more) == more
    ensures ParseItems(s) == Read(Item(head, tail), rest)
  {
    assert SkipSpace("," + more) == "," + more && ("," + more)[1..] == more;
  }

  lemma ReadsMember(s: string, name: string, value: Json, valueText: string, after: string)
    requires s != "" && s[0] == '"' && ParseString(s[1..]) == Read(name, ":" + valueText)
    requires SkipSpace(valueText) == valueText && ParseValue(valueText) == Read(value, after) && SkipSpace(after) == after
    ensures ParseMembers(s) ==
            if after != "" && after[0] == '}' then Read(Member(name, value, NoMember), after[1..])
            else if after != "" && after[0] == ',' then
              match ParseMembers(SkipSpace(after[1..]))
              case Fail => Fail
              case Read(more, last) => Read(Member(name, value, more), last)
            else Fail
  {
    assert SkipSpace(":" + valueText) == ":" + valueText && (":" + valueText)[1..] == valueText;
  }

  /** A printed value followed by a delimiter reads back as itself. */
  lemma {:induction false} ValueRoundTrip(v: Json, rest: string)
    requires Valid(v) && Delimited(rest)
    ensures ParseValue(Print(v) + rest) == Read(v, rest)
    decreases v, 0
  {
    match v {
      case Number(lexeme) => NumberRoundTrip(lexeme, rest);
      case String(text) =>
        NotAWord(Print(v) + rest);
        QuoteTail(text, rest);
        StringRoundTrip(text, rest);
      case Array(items) =>
        var inner := PrintItems(items) + ("]" + rest);
        ConcatAssociates("[" + PrintItems(items), "]", rest);
        ConcatAssociates("[", PrintItems(items), "]" + rest);
        if items.Item? {
          FirstItemChar(items, "]" + rest);
          ItemsRoundTrip(items, rest);
        } else {
          assert inner == "]" + rest;
        }
        ReadsArray(inner, items, rest);
      case Object(members) =>
        var inner := PrintMembers(members) + ("}" + rest);
        ConcatAssociates("{" + PrintMembers(members), "}", rest);
        ConcatAssociates("{", PrintMembers(members), "}" + rest);
        if members.Member? {
          MembersText(members, rest);
          MembersRoundTrip(members, rest);
        } else {
          assert inner == "}" + rest;
        }
        ReadsObject(inner, members, rest);
      case _ => WordRoundTrip(v, rest);
    }
  }

  lemma FirstItemChar(items: Items, after: string)
    requires items.Item? && ValidItems(items)
    ensures var s := PrintItems(items) + after; s != "" && s[0] !in " \t\n\r" && s[0] !in "]}" && SkipSpace(s) == s
  {
    FirstChar(items.head);
    assert (PrintItems(items) + after)[0] == Print(items.head)[0];
  }

  lemma {:induction false} ItemsRoundTrip(items: Items, rest: string)
    requires items.Item? && ValidItems(items)
    ensures ParseItems(PrintItems(items) + ("]" + rest)) == Read(items, rest)
    decreases items, 1
  {
    var head, tail, close := items.head, items.tail, "]" + rest;
    if tail.NoItem? {
      assert Print(head) + "" == Print(head);
      ValueRoundTrip(head, close);
      ReadsLastItem(Print(head) + close, head, rest);
    } else {
      var more := PrintItems(tail) + close;
      ConcatAssociates(Print(head), "," + PrintItems(tail), close);
      ConcatAssociates(",", PrintItems(tail), close);
      ValueRoundTrip(head, "," + more);
      ItemsRoundTrip(tail, rest);
      FirstItemChar(tail, close);
      ReadsItem(Print(head) + ("," + more), head, more, tail, rest);
    }
  }

  lemma Regroup(q: string, p: string, x: string, close: string)
    ensures (q + ":" + p + x) + close == q + (":" + (p + (x + close)))
  {
  }

  lemma QuoteTail(text: string, y: string)
    ensures (Quote(text) + y)[0] == '"' && (Quote(text) + y)[1..] == Escape(text) + ("\"" + y)
  {
  }

  lemma MembersText(members: Members, rest: string)
    requires members.Member?
    ensures var s := PrintMembers(members) + ("}" + rest);
            && s != "" && s[0] == '"'
            && s[1..] == Escape(members.name) + ("\"" + (":" + (Print(members.value) + (PrintFurther(members.rest) + ("}" + rest)))))
  {
    Regroup(Quote(members.name), Print(members.value), PrintFurther(members.rest), "}" + rest);
    QuoteTail(members.name, ":" + (Print(members.value) + (PrintFurther(members.rest) + ("}" + rest))));
  }

  lemma FurtherText(others: Members, rest: string)
    ensures var after, more := PrintFurther(others) + ("}" + rest), PrintMembers(others) + ("}" + rest);
            && Delimited(after) && after != "" && SkipSpace(after) == after
            && (if others.NoMember? then after[0] == '}' && after[1..] == rest
                else after[0] == ',' && after[1..] == more && SkipSpace(more) == more)
  {
    if others.NoMember? {
      assert PrintFurther(others) + ("}" + rest) == "}" + rest;
    } else {
      ConcatAssociates(",", PrintMembers(others), "}" + rest);
      MembersText(others, rest);
    }
  }

  lemma {:induction false} MembersRoundTrip(members: Members, rest: string)
    requires members.Member? && ValidMembers(members)
    ensures ParseMembers(PrintMembers(members) + ("}" + rest)) == Read(members, rest)
    decreases members, 1
  {
    var value, after, s := members.value, PrintFurther(members.rest) + ("}" + rest), PrintMembers(members) + ("}" + rest);
    var valueText := Print(value) + after;
    FurtherText(members.rest, rest);
    if members.rest.Member? {
      MembersRoundTrip(members.rest, rest);
    }
    MembersText(members, rest);
    StringRoundTrip(members.name, ":" + valueText);
    FirstChar(value);
    assert valueText[0] == Print(value)[0];
    ValueRoundTrip(value, after);
    ReadsMember(s, members.name, value, valueText, after);
  }

  /** JSON.parse undoes JSON.stringify. */
  lemma ParsePrint(v: Json)
    requires Valid(v)
    ensures Parse(Print(v)) == Some(v)
  {
    FirstChar(v);
    ValueRoundTrip(v, "");
    assert Print(v) + "" == Print(v);
  }

  // ---- printed text ------------------------------------------------------------------------------

  predicate Printable(s: string) {
    forall c :: c in s ==> c as int >= 0x20
  }

  lemma PrintableConcat(a: string, b: string)
    requires Printable(a) && Printable(b)
    ensures Printable(a + b)
  {
  }

  lemma EscapedPrintable(c: char)
    ensures Printable(EscapeChar(c))
  {
    if c as int < 0x20 {
      assert HexDigit(c as int / 16) as int >= 0x20 && HexDigit(c as int % 16) as int >= 0x20;
    }
  }

  lemma {:induction false} EscapePrintable(s: string)
    ensures Printable(Escape(s))
  {
    if s != "" {
      EscapePrintable(s[1..]);
      EscapedPrintable(s[0]);
      PrintableConcat(EscapeChar(s[0]), Escape(s[1..]));
    }
  }

  /** Printed JSON contains no control character, and so no line break. */
  lemma {:induction false} PrintPrintable(v: Json)
    requires Valid(v)
    ensures Printable(Print(v))
    decreases v, 0
  {
    match v {
      case Number(lexeme) => NumberChars(lexeme);
      case String(text) => EscapePrintable(text);
      case Array(items) => ItemsPrintable(items);
      case Object(members) => MembersPrintable(members);
      case _ =>
    }
  }

  lemma {:induction false} ItemsPrintable(items: Items)
    requires ValidItems(items)
    ensures Printable(PrintItems(items))
    decreases items, 1
  {
    if items.Item? {
      PrintPrintable(items.head);
      ItemsPrintable(items.tail);
    }
  }

  lemma {:induction false} MembersPrintable(members: Members)
    requires ValidMembers(members)
    ensures Printable(PrintMembers(members))
    decreases members, 1
  {
    if members.Member? {
      EscapePrintable(members.name);
      PrintPrintable(members.value);
      MembersPrintable(members.rest);
      assert Printable(PrintFurther(members.rest));
    }
  }

  // ---- counts ------------------------------------------------------------------------------------

  function ValueOf(digits: string): (n: nat) {
    if digits == "" then 0
    else ValueOf(digits[..|digits| - 1]) * 10 + (if IsDigit(digits[|digits| - 1]) then digits[|digits| - 1] as int - '0' as int else 0)
  }

  lemma {:induction false} DecimalRoundTrip(n: nat)
    ensures ValueOf(Decimal(n)) == n && |Decimal(n)| > 0
  {
    if n >= 10 {
      DecimalRoundTrip(n / 10);
      assert Decimal(n)[..|Decimal(n)| - 1] == Decimal(n / 10);
    }
  }

  lemma {:induction false} AllDigits(s: string)
    requires forall c :: c in s ==> IsDigit(c)
    ensures Digits(s) == |s|
  {
    if s != "" { AllDigits(s[1..]); }
  }

  lemma {:induction false} DecimalDigits(n: nat)
    ensures |Decimal(n)| > 0 && (forall c :: c in Decimal(n) ==> IsDigit(c)) && (Decimal(n)[0] == '0' ==> n == 0)
  {
    if n >= 10 { DecimalDigits(n / 10); }
  }

  lemma DecimalIsNumber(n: nat)
    ensures IsNumber(Decimal(n))
  {
    DecimalDigits(n);
    AllDigits(Decimal(n));
    assert Decimal(n)[|Decimal(n)|..] == "";
  }
}

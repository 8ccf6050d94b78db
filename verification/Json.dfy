// JSON texts (sections 2 to 7 of RFC 8259): the compact form that JSON.stringify produces, a parser for the
// grammar, and the proof that parsing what was printed gives back the value.

module Json {
  import opened Options

  datatype Value =
    | Null
    | Bool(b: bool)
    | Number(lexeme: string)
    | Text(s: string)
    | Array(items: seq<Value>)
    | Object(members: seq<(string, Value)>)

  // ---------------------------------------------------------------- numbers

  predicate IsDigit(c: char) {
    '0' <= c <= '9'
  }

  predicate Digits(s: string) {
    s != [] && forall c | c in s :: IsDigit(c)
  }

  /** int = zero / ( digit1-9 *DIGIT ), after an optional minus. */
  predicate IsInt(s: string) {
    s == "0" || (Digits(s) && s[0] != '0') || (|s| > 1 && s[0] == '-' && (s[1..] == "0" || (Digits(s[1..]) && s[1] != '0')))
  }

  /** An absent part, or a decimal point and digits. */
  predicate IsFrac(s: string) {
    s == [] || (s[0] == '.' && Digits(s[1..]))
  }

  /** An absent part, or e, an optional sign and digits. */
  predicate IsExp(s: string) {
    s == [] || ((s[0] == 'e' || s[0] == 'E') && (Digits(s[1..]) || (|s| > 1 && (s[1] == '+' || s[1] == '-') && Digits(s[2..]))))
  }

  predicate IsNumber(s: string) {
    exists i, j | 0 <= i <= j <= |s| :: NumberParts(s, i, j)
  }

  predicate NumberParts(s: string, i: nat, j: nat)
    requires i <= j <= |s|
  {
    IsInt(s[..i]) && IsFrac(s[i..j]) && IsExp(s[j..])
  }

  predicate NumberChar(c: char) {
    IsDigit(c) || c == '-' || c == '+' || c == '.' || c == 'e' || c == 'E'
  }

  lemma NumberCharsOnly(s: string)
    requires IsNumber(s)
    ensures s != [] && (forall c | c in s :: NumberChar(c)) && (s[0] == '-' || IsDigit(s[0]))
  {
    var i, j :| 0 <= i <= j <= |s| && NumberParts(s, i, j);
    DigitsAreNumberChars(s[..i], s[i..j], s[j..]);
    assert s[0] == s[..i][0];
    hide IsInt, IsFrac, IsExp, NumberChar;
    forall k | 0 <= k < |s| ensures NumberChar(s[k]) {
      assert s[k] in s[..i] || s[k] in s[i..j] || s[k] in s[j..] by {
        Within(s, i, j, k);
      }
    }
  }

  lemma Within(s: string, i: nat, j: nat, k: nat)
    requires i <= j <= |s| && k < |s|
    ensures s[k] in s[..i] || s[k] in s[i..j] || s[k] in s[j..]
  {
    if k < i {
      assert s[..i][k] == s[k];
    } else if k < j {
      assert s[i..j][k - i] == s[k];
    } else {
      assert s[j..][k - j] == s[k];
    }
  }

  lemma DigitsAreNumberChars(a: string, b: string, c: string)
    requires IsInt(a) && IsFrac(b) && IsExp(c)
    ensures forall x | x in a :: NumberChar(x)
    ensures forall x | x in b :: NumberChar(x)
    ensures forall x | x in c :: NumberChar(x)
  {
    assert a[0] == '-' ==> a == [a[0]] + a[1..];
    assert b != [] ==> b == [b[0]] + b[1..];
    assert c != [] ==> c == [c[0]] + c[1..];
    assert |c| > 1 ==> c == [c[0], c[1]] + c[2..];
  }

  /** Every number in the value is spelled by the number grammar. */
  predicate Valid(v: Value) {
    match v
    case Number(lexeme) => IsNumber(lexeme)
    case Array(items) => forall i | 0 <= i < |items| :: Valid(items[i])
    case Object(members) => forall i | 0 <= i < |members| :: Valid(members[i].1)
    case _ => true
  }

  // ---------------------------------------------------------------- printing

  const HEX: string := "0123456789abcdef"

  function Escape(c: char): string {
    if c == '"' then "\\\""
    else if c == '\\' then "\\\\"
    else if c == '\U{08}' then "\\b"
    else if c == '\U{0C}' then "\\f"
    else if c == '\n' then "\\n"
    else if c == '\r' then "\\r"
    else if c == '\t' then "\\t"
    else if c < ' ' then "\\u00" + [HEX[c as int / 16], HEX[c as int % 16]]
    else [c]
  }

  function EscapeAll(s: string): string {
    if s == [] then [] else Escape(s[0]) + EscapeAll(s[1..])
  }

  function Quote(s: string): string {
    ['"'] + EscapeAll(s) + ['"']
  }

  function Print(v: Value): string {
    match v
    case Null => "null"
    case Bool(b) => if b then "true" else "false"
    case Number(lexeme) => lexeme
    case Text(s) => Quote(s)
    case Array(items) => "[" + PrintItems(items) + "]"
    case Object(members) => "{" + PrintMembers(members) + "}"
  }

  function PrintItems(items: seq<Value>): string {
    if items == [] then []
    else if |items| == 1 then Print(items[0])
    else Print(items[0]) + "," + PrintItems(items[1..])
  }

  function PrintMembers(members: seq<(string, Value)>): string {
    if members == [] then []
    else if |members| == 1 then PrintMember(members[0])
    else PrintMember(members[0]) + "," + PrintMembers(members[1..])
  }

  function PrintMember(member: (string, Value)): string {
    Quote(member.0) + ":" + Print(member.1)
  }

  // ---------------------------------------------------------------- parsing

  predicate IsSpace(c: char) {
    c == ' ' || c == '\t' || c == '\n' || c == '\r'
  }

  function SkipSpace(s: string): (t: string)
    ensures |t| <= |s|
    ensures s == [] || !IsSpace(s[0]) ==> t == s
  {
    if s != [] && IsSpace(s[0]) then SkipSpace(s[1..]) else s
  }

  predicate StartsWith(s: string, prefix: string) {
    prefix <= s
  }

  function HexDigit(c: char): Option<nat> {
    if '0' <= c <= '9' then Some(c as int - '0' as int)
    else if 'a' <= c <= 'f' then Some(c as int - 'a' as int + 10)
    else if 'A' <= c <= 'F' then Some(c as int - 'A' as int + 10)
    else None
  }

  /** One escape sequence after its backslash; a \u escape stands for a character outside the surrogate range. */
  function Unescape(s: string): (r: Option<(char, string)>)
    ensures r.Some? ==> |r.value.1| < |s|
  {
    if s == [] then None
    else if s[0] == '"' || s[0] == '\\' || s[0] == '/' then Some((s[0], s[1..]))
    else if s[0] == 'b' then Some(('\U{08}', s[1..]))
    else if s[0] == 'f' then Some(('\U{0C}', s[1..]))
    else if s[0] == 'n' then Some(('\n', s[1..]))
    else if s[0] == 'r' then Some(('\r', s[1..]))
    else if s[0] == 't' then Some(('\t', s[1..]))
    else if s[0] == 'u' && |s| >= 5 && HexDigit(s[1]).Some? && HexDigit(s[2]).Some? && HexDigit(s[3]).Some?
            && HexDigit(s[4]).Some? then
      var code := HexDigit(s[1]).value * 4096 + HexDigit(s[2]).value * 256 + HexDigit(s[3]).value * 16
                  + HexDigit(s[4]).value;
      if code < 0xD800 || 0xDFFF < code < 0x10000 then Some((code as char, s[5..])) else None
    else None
  }

  /** The characters of a string up to its closing quote. */
  function ParseString(s: string): (r: Option<(string, string)>)
    ensures r.Some? ==> |r.value.1| < |s|
    decreases |s|
  {
    if s == [] then None
    else if s[0] == '"' then Some(([], s[1..]))
    else if s[0] == '\\' then
      (match Unescape(s[1..])
       case None => None
       case Some((c, rest)) =>
         match ParseString(rest)
         case None => None
         case Some((tail, rest')) => Some(([c] + tail, rest')))
    else if s[0] < ' ' then None
    else
      match ParseString(s[1..])
      case None => None
      case Some((tail, rest)) => Some(([s[0]] + tail, rest))
  }

  function NumberPrefix(s: string): (n: nat)
    ensures n <= |s|
    ensures s != [] && NumberChar(s[0]) ==> n > 0
  {
    if s == [] || !NumberChar(s[0]) then 0 else 1 + NumberPrefix(s[1..])
  }

  function ParseValue(text: string): (r: Option<(Value, string)>)
    ensures r.Some? ==> |r.value.1| < |text|
    decreases |text|, 1
  {
    var s := SkipSpace(text);
    if s == [] then None
    else if s[0] == '"' then
      (match ParseString(s[1..])
       case None => None
       case Some((t, rest)) => Some((Text(t), rest)))
    else if s[0] == '[' then
      var t := SkipSpace(s[1..]);
      if t != [] && t[0] == ']' then Some((Array([]), t[1..]))
      else
        (match ParseItems(t)
         case None => None
         case Some((items, rest)) => Some((Array(items), rest)))
    else if s[0] == '{' then
      var t := SkipSpace(s[1..]);
      if t != [] && t[0] == '}' then Some((Object([]), t[1..]))
      else
        (match ParseMembers(t)
         case None => None
         case Some((members, rest)) => Some((Object(members), rest)))
    else if StartsWith(s, "null") then Some((Null, s[4..]))
    else if StartsWith(s, "true") then Some((Bool(true), s[4..]))
    else if StartsWith(s, "false") then Some((Bool(false), s[5..]))
    else
      var n := NumberPrefix(s);
      if IsNumber(s[..n]) then
        NumberCharsOnly(s[..n]);
        Some((Number(s[..n]), s[n..]))
      else None
  }

  function ParseItems(s: string): (r: Option<(seq<Value>, string)>)
    ensures r.Some? ==> |r.value.1| < |s|
    decreases |s|, 2
  {
    match ParseValue(s)
    case None => None
    case Some((v, after)) =>
      var rest := SkipSpace(after);
      if rest == [] then None
      else if rest[0] == ']' then Some(([v], rest[1..]))
      else if rest[0] == ',' then
        match ParseItems(rest[1..])
        case None => None
        case Some((items, end)) => Some(([v] + items, end))
      else None
  }

  function ParseMembers(text: string): (r: Option<(seq<(string, Value)>, string)>)
    ensures r.Some? ==> |r.value.1| < |text|
    decreases |text|, 2
  {
    match ParseMember(text)
    case None => None
    case Some((member, after)) =>
      var rest := SkipSpace(after);
      if rest == [] then None
      else if rest[0] == '}' then Some(([member], rest[1..]))
      else if rest[0] == ',' then
        match ParseMembers(rest[1..])
        case None => None
        case Some((members, end)) => Some(([member] + members, end))
      else None
  }

  function ParseMember(text: string): (r: Option<((string, Value), string)>)
    ensures r.Some? ==> |r.value.1| < |text|
    decreases |text|, 1
  {
    var s := SkipSpace(text);
    if s == [] || s[0] != '"' then None
    else
      match ParseString(s[1..])
      case None => None
      case Some((name, after)) =>
        var rest := SkipSpace(after);
        if rest == [] || rest[0] != ':' then None
        else
          match ParseValue(rest[1..])
          case None => None
          case Some((v, end)) => Some(((name, v), end))
  }

  /** A JSON text is one value with nothing but space around it. */
  function Parse(text: string): Option<Value> {
    match ParseValue(text)
    case None => None
    case Some((v, rest)) => if SkipSpace(rest) == [] then Some(v) else None
  }

  // ---------------------------------------------------------------- round trip

  lemma {:induction false} StringRoundTrip(s: string, rest: string)
    ensures ParseString(EscapeAll(s) + ['"'] + rest) == Some((s, rest))
  {
    hide Escape, Unescape, ParseString;
    var text := EscapeAll(s) + ['"'] + rest;
    if s == [] {
      assert text == ['"'] + rest;
      ClosingQuote(rest);
    } else {
      var tail := EscapeAll(s[1..]) + ['"'] + rest;
      StringRoundTrip(s[1..], rest);
      assert text == Escape(s[0]) + tail;
      EscapeRoundTrip(s[0], tail);
      assert s == [s[0]] + s[1..];
    }
  }

  lemma ClosingQuote(rest: string)
    ensures ParseString(['"'] + rest) == Some(([], rest))
  {
    assert (['"'] + rest)[1..] == rest;
  }

  /** Reading one escaped character leaves the rest of the string to be read. */
  lemma EscapeRoundTrip(c: char, tail: string)
    requires ParseString(tail).Some?
    ensures ParseString(Escape(c) + tail) == Some(([c] + ParseString(tail).value.0, ParseString(tail).value.1))
  {
    hide ParseString, Unescape, Escape;
    EscapeShape(c);
    if Escape(c) == [c] {
      PlainCharacter(c, tail);
    } else {
      EscapedRoundTrip(c, tail);
    }
  }

  lemma EscapedRoundTrip(c: char, tail: string)
    requires Escape(c) != [c] && ParseString(tail).Some?
    ensures ParseString(Escape(c) + tail) == Some(([c] + ParseString(tail).value.0, ParseString(tail).value.1))
  {
    hide ParseString, Unescape, Escape;
    EscapeShape(c);
    var body := Escape(c)[1..];
    if |body| == 1 {
      ShortEscape(c, tail);
    } else {
      ControlEscape(c, tail);
    }
    EscapedCharacter(c, body + tail, tail);
    assert Escape(c) + tail == ['\\'] + (body + tail);
  }

  lemma EscapeShape(c: char)
    ensures Escape(c) == [c] ==> c != '"' && c != '\\' && c >= ' '
    ensures Escape(c) != [c] ==> |Escape(c)| >= 2 && Escape(c)[0] == '\\'
  {
  }

  lemma PlainCharacter(c: char, tail: string)
    requires c != '"' && c != '\\' && c >= ' ' && ParseString(tail).Some?
    ensures ParseString([c] + tail) == Some(([c] + ParseString(tail).value.0, ParseString(tail).value.1))
  {
    hide Unescape;
    assert ([c] + tail)[1..] == tail;
  }

  lemma EscapedCharacter(c: char, body: string, tail: string)
    requires Unescape(body) == Some((c, tail)) && ParseString(tail).Some?
    ensures ParseString(['\\'] + body) == Some(([c] + ParseString(tail).value.0, ParseString(tail).value.1))
  {
    hide Unescape;
    assert (['\\'] + body)[1..] == body;
  }

  lemma ShortEscape(c: char, tail: string)
    requires |Escape(c)| == 2
    ensures Unescape(Escape(c)[1..] + tail) == Some((c, tail))
  {
    hide HexDigit;
    assert (Escape(c)[1..] + tail)[1..] == tail;
  }

  lemma ControlEscape(c: char, tail: string)
    requires |Escape(c)| > 2
    ensures Unescape(Escape(c)[1..] + tail) == Some((c, tail))
  {
    var text := Escape(c)[1..] + tail;
    assert text[0] == 'u' && text[1] == '0' && text[2] == '0' && text[5..] == tail;
    assert text[3] == HEX[c as int / 16] && text[4] == HEX[c as int % 16];
    ControlDigits(c);
  }

  lemma ControlDigits(c: char)
    requires c < ' '
    ensures HexDigit(HEX[c as int / 16]).Some? && HexDigit(HEX[c as int % 16]).Some? && HexDigit('0') == Some(0)
    ensures HexDigit(HEX[c as int / 16]).value * 16 + HexDigit(HEX[c as int % 16]).value == c as int
  {
    var n := c as int;
    assert n / 16 == 0 || n / 16 == 1;
  }

  predicate Ends(rest: string) {
    rest == [] || !NumberChar(rest[0])
  }

  lemma {:induction false} NumberRoundTrip(s: string, rest: string)
    requires (forall c | c in s :: NumberChar(c)) && Ends(rest)
    ensures NumberPrefix(s + rest) == |s|
  {
    if s == [] {
      assert s + rest == rest;
    } else {
      assert (s + rest)[1..] == s[1..] + rest;
      NumberRoundTrip(s[1..], rest);
    }
  }

  /** What a printed value can start with. */
  lemma PrintedStart(v: Value)
    requires Valid(v)
    ensures Print(v) != [] && !IsSpace(Print(v)[0]) && Print(v)[0] != ']' && Print(v)[0] != '}'
  {
    if v.Number? {
      NumberCharsOnly(v.lexeme);
    }
  }

  lemma {:induction false} ValueRoundTrip(v: Value, rest: string)
    requires Valid(v) && Ends(rest)
    ensures ParseValue(Print(v) + rest) == Some((v, rest))
    decreases v, 2
  {
    hide ParseValue, ParseItems, ParseMembers, ParseString, NumberPrefix, IsNumber, PrintItems, PrintMembers;
    match v {
      case Null => ReadLiteral(v, rest);
      case Bool(b) => ReadLiteral(v, rest);
      case Number(lexeme) => ReadNumber(lexeme, rest);
      case Text(s) => ReadText(s, rest);
      case Array(items) => ArrayRoundTrip(items, rest);
      case Object(members) => ObjectRoundTrip(members, rest);
    }
  }

  lemma ArrayRoundTrip(items: seq<Value>, rest: string)
    requires forall i | 0 <= i < |items| :: Valid(items[i])
    ensures ParseValue("[" + PrintItems(items) + "]" + rest) == Some((Array(items), rest))
    decreases items, 2
  {
    hide ParseValue, ParseItems, Print, Valid;
    if items == [] {
      ReadEmptyArray(rest);
      assert "[" + PrintItems(items) + "]" + rest == "[]" + rest;
    } else {
      var inside := PrintItems(items) + ("]" + rest);
      ItemsRoundTrip(items, rest);
      PrintedItemsStart(items, "]" + rest);
      ReadArray(inside);
      assert "[" + PrintItems(items) + "]" + rest == "[" + inside;
    }
  }

  lemma ObjectRoundTrip(members: seq<(string, Value)>, rest: string)
    requires forall i | 0 <= i < |members| :: Valid(members[i].1)
    ensures ParseValue("{" + PrintMembers(members) + "}" + rest) == Some((Object(members), rest))
    decreases members, 2
  {
    hide ParseValue, ParseMembers, PrintMember, Valid;
    if members == [] {
      ReadEmptyObject(rest);
      assert "{" + PrintMembers(members) + "}" + rest == "{}" + rest;
    } else {
      var inside := PrintMembers(members) + ("}" + rest);
      MembersRoundTrip(members, rest);
      PrintedMembersStart(members, "}" + rest);
      ReadObject(inside);
      assert "{" + PrintMembers(members) + "}" + rest == "{" + inside;
    }
  }

  lemma ReadLiteral(v: Value, rest: string)
    requires v.Null? || v.Bool?
    ensures ParseValue(Print(v) + rest) == Some((v, rest))
  {
    hide ParseItems, ParseMembers, ParseString, NumberPrefix, IsNumber;
    var text := Print(v) + rest;
    assert text[|Print(v)|..] == rest;
    assert Print(v) <= text;
  }

  lemma ReadNumber(lexeme: string, rest: string)
    requires IsNumber(lexeme) && Ends(rest)
    ensures ParseValue(lexeme + rest) == Some((Number(lexeme), rest))
  {
    NumberCharsOnly(lexeme);
    NumberRoundTrip(lexeme, rest);
    hide ParseItems, ParseMembers, ParseString, NumberPrefix, IsNumber;
    var text := lexeme + rest;
    assert text[..|lexeme|] == lexeme && text[|lexeme|..] == rest;
  }

  lemma ReadText(s: string, rest: string)
    ensures ParseValue(Quote(s) + rest) == Some((Text(s), rest))
  {
    StringRoundTrip(s, rest);
    hide ParseItems, ParseMembers, ParseString, NumberPrefix, IsNumber;
    assert (Quote(s) + rest)[1..] == EscapeAll(s) + ['"'] + rest;
  }

  lemma ReadEmptyArray(rest: string)
    ensures ParseValue("[]" + rest) == Some((Array([]), rest))
  {
    hide ParseItems, ParseMembers, ParseString, NumberPrefix, IsNumber;
    assert ("[]" + rest)[1..] == "]" + rest;
  }

  lemma ReadArray(t: string)
    requires t != [] && SkipSpace(t) == t && t[0] != ']' && ParseItems(t).Some?
    ensures ParseValue("[" + t) == Some((Array(ParseItems(t).value.0), ParseItems(t).value.1))
  {
    hide ParseItems, ParseMembers, ParseString, NumberPrefix, IsNumber;
    assert ("[" + t)[1..] == t;
  }

  lemma ReadEmptyObject(rest: string)
    ensures ParseValue("{}" + rest) == Some((Object([]), rest))
  {
    hide ParseItems, ParseMembers, ParseString, NumberPrefix, IsNumber;
    assert ("{}" + rest)[1..] == "}" + rest;
  }

  lemma ReadObject(t: string)
    requires t != [] && SkipSpace(t) == t && t[0] != '}' && ParseMembers(t).Some?
    ensures ParseValue("{" + t) == Some((Object(ParseMembers(t).value.0), ParseMembers(t).value.1))
  {
    hide ParseItems, ParseMembers, ParseString, NumberPrefix, IsNumber;
    assert ("{" + t)[1..] == t;
  }

  lemma PrintedItemsStart(items: seq<Value>, rest: string)
    requires items != [] && Valid(items[0])
    ensures var t := PrintItems(items) + rest; t != [] && SkipSpace(t) == t && t[0] != ']'
  {
    hide Print;
    PrintedStart(items[0]);
  }

  lemma PrintedMembersStart(members: seq<(string, Value)>, rest: string)
    requires members != []
    ensures var t := PrintMembers(members) + rest; t != [] && SkipSpace(t) == t && t[0] == '"'
  {
    hide Print;
  }

  lemma {:induction false} ItemsRoundTrip(items: seq<Value>, rest: string)
    requires items != [] && forall i | 0 <= i < |items| :: Valid(items[i])
    ensures ParseItems(PrintItems(items) + ("]" + rest)) == Some((items, rest))
    decreases items, 1
  {
    hide ParseValue, ParseItems, Print, Valid;
    if |items| == 1 {
      ValueRoundTrip(items[0], "]" + rest);
      LastItem(Print(items[0]) + ("]" + rest), items[0], rest);
      assert items == [items[0]];
    } else {
      var next := PrintItems(items[1..]) + ("]" + rest);
      assert PrintItems(items) + ("]" + rest) == Print(items[0]) + ("," + next);
      ValueRoundTrip(items[0], "," + next);
      ItemsRoundTrip(items[1..], rest);
      OneMoreItem(Print(items[0]) + ("," + next), items[0], next);
      assert items == [items[0]] + items[1..];
    }
  }

  lemma LastItem(text: string, v: Value, rest: string)
    requires ParseValue(text) == Some((v, "]" + rest))
    ensures ParseItems(text) == Some(([v], rest))
  {
    hide ParseValue;
    assert ("]" + rest)[1..] == rest;
  }

  lemma OneMoreItem(text: string, v: Value, next: string)
    requires ParseValue(text) == Some((v, "," + next)) && ParseItems(next).Some?
    ensures ParseItems(text) == Some(([v] + ParseItems(next).value.0, ParseItems(next).value.1))
  {
    hide ParseValue;
    assert ("," + next)[1..] == next;
  }

  lemma {:induction false} MembersRoundTrip(members: seq<(string, Value)>, rest: string)
    requires members != [] && forall i | 0 <= i < |members| :: Valid(members[i].1)
    ensures ParseMembers(PrintMembers(members) + ("}" + rest)) == Some((members, rest))
    decreases members, 1
  {
    hide ParseMember, ParseMembers, PrintMember, Valid;
    if |members| == 1 {
      MemberRoundTrip(members[0], "}" + rest);
      LastMember(PrintMember(members[0]) + ("}" + rest), members[0], rest);
      assert members == [members[0]];
    } else {
      var next := PrintMembers(members[1..]) + ("}" + rest);
      assert PrintMembers(members) + ("}" + rest) == PrintMember(members[0]) + ("," + next);
      MemberRoundTrip(members[0], "," + next);
      MembersRoundTrip(members[1..], rest);
      OneMoreMember(PrintMember(members[0]) + ("," + next), members[0], next);
      assert members == [members[0]] + members[1..];
    }
  }

  lemma LastMember(text: string, member: (string, Value), rest: string)
    requires ParseMember(text) == Some((member, "}" + rest))
    ensures ParseMembers(text) == Some(([member], rest))
  {
    hide ParseMember;
    assert ("}" + rest)[1..] == rest;
  }

  lemma OneMoreMember(text: string, member: (string, Value), next: string)
    requires ParseMember(text) == Some((member, "," + next)) && ParseMembers(next).Some?
    ensures ParseMembers(text) == Some(([member] + ParseMembers(next).value.0, ParseMembers(next).value.1))
  {
    hide ParseMember;
    assert ("," + next)[1..] == next;
  }

  lemma {:induction false} MemberRoundTrip(member: (string, Value), rest: string)
    requires Valid(member.1) && Ends(rest)
    ensures ParseMember(PrintMember(member) + rest) == Some((member, rest))
    decreases member, 3
  {
    hide ParseValue, ParseString, Print, Valid;
    var text := PrintMember(member) + rest;
    var value := ":" + (Print(member.1) + rest);
    assert text[1..] == EscapeAll(member.0) + ['"'] + value;
    StringRoundTrip(member.0, value);
    assert value[1..] == Print(member.1) + rest;
    ValueRoundTrip(member.1, rest);
  }

  /** Parsing a printed value gives the value back. */
  lemma RoundTrip(v: Value)
    requires Valid(v)
    ensures Parse(Print(v)) == Some(v)
  {
    ValueRoundTrip(v, []);
    assert Print(v) + [] == Print(v);
  }
}

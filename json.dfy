/**
 * The JSON text the exporter produces: a value tree, its compact
 * serialisation (no whitespace between tokens, members and elements
 * separated by ',' only) and a parser for exactly that compact form.
 * The parser is the serialiser's partner: ParseWrite proves that every
 * written document reads back as the tree it was written from.
 *
 * Strings are escaped as section 7 of RFC 8259 requires ('"', '\' and the
 * control characters below U+0020). Escape writes every other character as
 * itself, but the property stated about it (EscapePlain) covers printable
 * ASCII only, other than '"', '\' and '/': the only characters whose
 * treatment the exporter's documented output shows.
 * Numbers are carried as their finished text (RFC 8259 section 6 has no
 * literal for NaN or Infinity, so a non-finite number never reaches here).
 */
module Json {
  import opened Wrappers

  predicate IsNumberChar(c: char) {
    ('0' <= c <= '9') || c == '-' || c == '+' || c == '.' || c == 'e' || c == 'E'
  }

  predicate IsNumberText(s: string) {
    |s| > 0 && forall i :: 0 <= i < |s| ==> IsNumberChar(s[i])
  }

  /** The text of a JSON number literal, such as "3", "-17" or "100.0". */
  type NumberText = s: string | IsNumberText(s) witness "0"

  datatype Value =
    | JString(str: string)
    | JNumber(text: NumberText)
    | JBool(b: bool)
    | JArray(elements: seq<Value>)
    | JObject(members: seq<Member>)

  datatype Member = Member(name: string, value: Value)

  // ---------------------------------------------------------------------
  // Escaping (RFC 8259 section 7)

  /** A character Escape writes as itself. */
  predicate IsPlain(c: char) {
    c != '"' && c != '\\' && c as int >= 0x20
  }

  /**
   * Printable ASCII other than '"', '\' and '/': the characters the
   * exporter's documented output shows written as themselves.
   */
  predicate IsPrintable(c: char) {
    ' ' <= c <= '~' && c != '"' && c != '\\' && c != '/'
  }

  function HexDigit(d: nat): (c: char)
    requires d < 16
  {
    "0123456789ABCDEF"[d]
  }

  function EscapeChar(c: char): (e: string)
    ensures |e| > 0
    ensures IsPlain(c) <==> e == [c]
  {
    if c == '"' then "\\\""
    else if c == '\\' then "\\\\"
    else if c as int == 0x08 then "\\b"
    else if c as int == 0x0C then "\\f"
    else if c == '\n' then "\\n"
    else if c == '\r' then "\\r"
    else if c == '\t' then "\\t"
    else if c as int < 0x20 then ['\\', 'u', '0', '0', HexDigit(c as int / 16), HexDigit(c as int % 16)]
    else [c]
  }

  function Escape(s: string): string {
    if s == [] then [] else EscapeChar(s[0]) + Escape(s[1..])
  }

  function Quote(s: string): string {
    "\"" + Escape(s) + "\""
  }

  /** Text made of printable characters (letters, digits, spaces, '!', '?', ...) is not altered. */
  lemma {:induction false} EscapePlain(s: string)
    requires forall i :: 0 <= i < |s| ==> IsPrintable(s[i])
    ensures Escape(s) == s
  {
    if s != [] {
      EscapePlain(s[1..]);
    }
  }

  // ---------------------------------------------------------------------
  // Regrouping concatenations

  lemma Regroup3(a: string, b: string, c: string)
    ensures a + b + c == a + (b + c)
  {
  }

  lemma Regroup5(a: string, b: string, c: string, d: string, e: string)
    ensures a + b + c + d + e == a + (b + (c + d + e))
  {
  }

  lemma RegroupSnoc(a: string, b: string, c: string, d: string, e: string)
    ensures a + b + (c + d + e) == a + b + c + d + e
  {
  }

  lemma DropFirst(a: string, b: string)
    requires |a| == 1
    ensures (a + b)[0] == a[0] && (a + b)[1..] == b
  {
  }

  lemma HeadOf(a: string, b: string)
    requires |a| > 0
    ensures |a + b| > 0 && (a + b)[0] == a[0]
  {
  }

  // ---------------------------------------------------------------------
  // Compact serialisation

  function Write(v: Value): string
    decreases v
  {
    match v
    case JString(s) => Quote(s)
    case JNumber(t) => t
    case JBool(b) => if b then "true" else "false"
    case JArray(es) => "[" + WriteElements(es) + "]"
    case JObject(ms) => "{" + WriteMembers(ms) + "}"
  }

  function WriteElements(es: seq<Value>): string
    decreases es
  {
    if es == [] then ""
    else if |es| == 1 then Write(es[0])
    else Write(es[0]) + "," + WriteElements(es[1..])
  }

  function WriteMember(m: Member): string
    decreases m
  {
    Quote(m.name) + ":" + Write(m.value)
  }

  function WriteMembers(ms: seq<Member>): string
    decreases ms
  {
    if ms == [] then ""
    else if |ms| == 1 then WriteMember(ms[0])
    else WriteMember(ms[0]) + "," + WriteMembers(ms[1..])
  }

  /** The members of ms, each written with a ',' in front. */
  function CommaMembers(ms: seq<Member>): string {
    if ms == [] then "" else "," + WriteMember(ms[0]) + CommaMembers(ms[1..])
  }

  /** An object's text is its first member followed by the others, each after a ','. */
  lemma {:induction false} WriteMembersCons(m: Member, ms: seq<Member>)
    ensures WriteMembers([m] + ms) == WriteMember(m) + CommaMembers(ms)
    decreases |ms|
  {
    if ms != [] {
      assert ([m] + ms)[1..] == ms;
      WriteMembersCons(ms[0], ms[1..]);
      assert [ms[0]] + ms[1..] == ms;
    }
  }

  lemma CommaMembersCons(m: Member, ms: seq<Member>)
    ensures CommaMembers([m] + ms) == "," + WriteMember(m) + CommaMembers(ms)
  {
    assert ([m] + ms)[1..] == ms;
  }

  /** The text of a non-empty object: its first member, then the others after ','. */
  lemma ObjectText(m: Member, ms: seq<Member>)
    ensures Write(JObject([m] + ms)) == "{" + WriteMember(m) + CommaMembers(ms) + "}"
  {
    WriteMembersCons(m, ms);
  }

  /** The text of a member whose value is a string. */
  lemma StringMemberText(name: string, s: string)
    ensures WriteMember(Member(name, JString(s))) == Quote(name) + ":" + Quote(s)
  {
  }

  /** Appending an element to an array appends its text, after a ',' unless it is the first. */
  lemma {:induction false} WriteElementsSnoc(es: seq<Value>, e: Value)
    ensures WriteElements(es + [e]) == WriteElements(es) + (if es == [] then "" else ",") + Write(e)
    decreases |es|
  {
    if es == [] {
      assert es + [e] == [e];
    } else if |es| == 1 {
      SnocOne(es, e);
    } else {
      WriteElementsSnoc(es[1..], e);
      SnocMore(es, e);
    }
  }

  lemma SnocOne(es: seq<Value>, e: Value)
    requires |es| == 1
    ensures WriteElements(es + [e]) == WriteElements(es) + "," + Write(e)
  {
    SnocSplit(es, e);
    assert es[1..] + [e] == [e];
  }

  lemma SnocMore(es: seq<Value>, e: Value)
    requires |es| > 1
    requires WriteElements(es[1..] + [e]) == WriteElements(es[1..]) + "," + Write(e)
    ensures WriteElements(es + [e]) == WriteElements(es) + "," + Write(e)
  {
    SnocSplit(es, e);
    RegroupSnoc(Write(es[0]), ",", WriteElements(es[1..]), ",", Write(e));
  }

  /** The first element of es + [e] and the rest. */
  lemma SnocSplit(es: seq<Value>, e: Value)
    requires |es| > 0
    ensures WriteElements(es + [e]) == Write(es[0]) + "," + WriteElements(es[1..] + [e])
  {
    assert (es + [e])[0] == es[0];
    assert (es + [e])[1..] == es[1..] + [e];
  }

  // ---------------------------------------------------------------------
  // Parsing the compact form

  function HexValue(c: char): Option<nat> {
    if '0' <= c <= '9' then Some(c as int - '0' as int)
    else if 'A' <= c <= 'F' then Some(c as int - 'A' as int + 10)
    else if 'a' <= c <= 'f' then Some(c as int - 'a' as int + 10)
    else None
  }

  /** Decodes the escape sequence at the start of s; yields the character and the length consumed. */
  function Unescape(s: string): (r: Option<(char, nat)>)
    requires |s| > 0 && s[0] == '\\'
    ensures r.Some? ==> 1 < r.value.1 <= |s|
  {
    if |s| < 2 then None
    else if s[1] == '"' then Some(('"', 2))
    else if s[1] == '\\' then Some(('\\', 2))
    else if s[1] == '/' then Some(('/', 2))
    else if s[1] == 'b' then Some((0x08 as char, 2))
    else if s[1] == 'f' then Some((0x0C as char, 2))
    else if s[1] == 'n' then Some(('\n', 2))
    else if s[1] == 'r' then Some(('\r', 2))
    else if s[1] == 't' then Some(('\t', 2))
    else if s[1] == 'u' && |s| >= 6 then
      match (HexValue(s[2]), HexValue(s[3]), HexValue(s[4]), HexValue(s[5]))
      case (Some(a), Some(b), Some(c), Some(d)) =>
        var code := ((a * 16 + b) * 16 + c) * 16 + d;
        if code < 0xD800 || 0xE000 <= code < 0x11_0000 then Some((code as char, 6)) else None
      case _ => None
    else None
  }

  /** Reads the rest of a string token (after its opening quote) up to and including the closing quote. */
  function ParseStringBody(s: string): (r: Option<(string, string)>)
    ensures r.Some? ==> |r.value.1| < |s|
    decreases |s|
  {
    if s == [] then None
    else if s[0] == '"' then Some(([], s[1..]))
    else if s[0] == '\\' then
      match Unescape(s)
      case None => None
      case Some((c, n)) =>
        match ParseStringBody(s[n..])
        case None => None
        case Some((t, rest)) => Some(([c] + t, rest))
    else if s[0] as int < 0x20 then None
    else
      match ParseStringBody(s[1..])
      case None => None
      case Some((t, rest)) => Some(([s[0]] + t, rest))
  }

  /** The length of the longest prefix of s made of number characters. */
  function NumberSpan(s: string): (n: nat)
    ensures n <= |s|
    ensures forall i :: 0 <= i < n ==> IsNumberChar(s[i])
    ensures n < |s| ==> !IsNumberChar(s[n])
  {
    if s == [] || !IsNumberChar(s[0]) then 0 else 1 + NumberSpan(s[1..])
  }

  function ParseValue(s: string): (r: Option<(Value, string)>)
    ensures r.Some? ==> |r.value.1| < |s|
    decreases |s|, 1
  {
    if s == [] then None
    else if s[0] == '"' then
      match ParseStringBody(s[1..])
      case None => None
      case Some((t, rest)) => Some((JString(t), rest))
    else if s[0] == '[' then
      if |s| > 1 && s[1] == ']' then Some((JArray([]), s[2..]))
      else
        match ParseElements(s[1..])
        case None => None
        case Some((es, rest)) => Some((JArray(es), rest))
    else if s[0] == '{' then
      if |s| > 1 && s[1] == '}' then Some((JObject([]), s[2..]))
      else
        match ParseMembers(s[1..])
        case None => None
        case Some((ms, rest)) => Some((JObject(ms), rest))
    else if s[0] == 't' then
      if |s| >= 4 && s[1] == 'r' && s[2] == 'u' && s[3] == 'e' then Some((JBool(true), s[4..])) else None
    else if s[0] == 'f' then
      if |s| >= 5 && s[1] == 'a' && s[2] == 'l' && s[3] == 's' && s[4] == 'e' then Some((JBool(false), s[5..])) else None
    else if IsNumberChar(s[0]) then
      var n := NumberSpan(s);
      Some((JNumber(s[..n]), s[n..]))
    else None
  }

  /** Reads one or more ','-separated values and the closing ']'. */
  function ParseElements(s: string): (r: Option<(seq<Value>, string)>)
    ensures r.Some? ==> |r.value.1| < |s|
    decreases |s|, 2
  {
    match ParseValue(s)
    case None => None
    case Some((v, rest)) =>
      if rest == [] then None
      else if rest[0] == ']' then Some(([v], rest[1..]))
      else if rest[0] == ',' then
        match ParseElements(rest[1..])
        case None => None
        case Some((vs, rest')) => Some(([v] + vs, rest'))
      else None
  }

  /** Reads one or more ','-separated "name":value members and the closing '}'. */
  function ParseMembers(s: string): (r: Option<(seq<Member>, string)>)
    ensures r.Some? ==> |r.value.1| < |s|
    decreases |s|, 2
  {
    if s == [] || s[0] != '"' then None
    else
      match ParseStringBody(s[1..])
      case None => None
      case Some((name, rest)) =>
        if rest == [] || rest[0] != ':' then None
        else
          match ParseValue(rest[1..])
          case None => None
          case Some((v, rest')) =>
            if rest' == [] then None
            else if rest'[0] == '}' then Some(([Member(name, v)], rest'[1..]))
            else if rest'[0] == ',' then
              match ParseMembers(rest'[1..])
              case None => None
              case Some((ms, rest'')) => Some(([Member(name, v)] + ms, rest''))
            else None
  }

  /** Reads a whole document: one value and nothing after it. */
  function Parse(s: string): Option<Value> {
    match ParseValue(s)
    case Some((v, rest)) => if rest == [] then Some(v) else None
    case None => None
  }

  // ---------------------------------------------------------------------
  // Round trip

  lemma HexRoundTrip(d: nat)
    requires d < 16
    ensures HexValue(HexDigit(d)) == Some(d)
  {
    var digits := "0123456789ABCDEF";
    assert HexDigit(d) == digits[d];
    if d < 10 {
      assert digits[d] as int == '0' as int + d;
    } else {
      assert digits[d] as int == 'A' as int + d - 10;
    }
  }

  lemma UnescapeChar(c: char, rest: string)
    requires !IsPlain(c)
    ensures var e := EscapeChar(c);
      |e| > 0 && e[0] == '\\' && Unescape(e + rest) == Some((c, |e|))
  {
    var e := EscapeChar(c);
    if c != '"' && c != '\\' && c as int != 0x08 && c as int != 0x0C
       && c != '\n' && c != '\r' && c != '\t'
    {
      var hi, lo := c as int / 16, c as int % 16;
      HexRoundTrip(0);
      HexRoundTrip(hi);
      HexRoundTrip(lo);
      var s := e + rest;
      assert s[1] == 'u' && s[2] == '0' && s[3] == '0' && s[4] == HexDigit(hi) && s[5] == HexDigit(lo);
      assert ((0 * 16 + 0) * 16 + hi) * 16 + lo == c as int;
    }
  }

  lemma {:induction false} ParseStringRoundTrip(s: string, rest: string)
    ensures ParseStringBody(Escape(s) + "\"" + rest) == Some((s, rest))
  {
    var text := Escape(s) + "\"" + rest;
    if s == [] {
      assert text == "\"" + rest;
    } else {
      var e := EscapeChar(s[0]);
      var tail := Escape(s[1..]) + "\"" + rest;
      assert text == e + tail;
      ParseStringRoundTrip(s[1..], rest);
      if IsPlain(s[0]) {
        assert text[0] == s[0] && text[1..] == tail;
      } else {
        UnescapeChar(s[0], tail);
        assert text[|e|..] == tail;
      }
      assert [s[0]] + s[1..] == s;
    }
  }

  /** What may follow a value inside a document: its end, ',', ']' or '}'. */
  predicate Delimits(rest: string) {
    rest == [] || rest[0] == ',' || rest[0] == ']' || rest[0] == '}'
  }

  lemma WriteStart(v: Value)
    ensures |Write(v)| > 0 && Write(v)[0] != ']' && Write(v)[0] != '}'
    ensures Write(v)[0] == '"' <==> v.JString?
  {
    match v
    case JString(s) =>
    case JNumber(t) =>
    case JBool(b) =>
    case JArray(es) =>
    case JObject(ms) =>
  }

  lemma {:induction false} ParseValueRoundTrip(v: Value, rest: string)
    requires Delimits(rest)
    ensures ParseValue(Write(v) + rest) == Some((v, rest))
    decreases v, 1
  {
    match v
    case JString(str) => ParseStringValue(str, rest);
    case JNumber(t) => ParseNumberValue(t, rest);
    case JBool(b) => ParseBoolValue(b, rest);
    case JArray(es) =>
      if es == [] {
        var s := Write(v) + rest;
        assert WriteElements(es) == "";
        assert s == "[]" + rest;
        assert s[2..] == rest;
      } else {
        ParseElementsRoundTrip(es, rest);
        ParseArrayValue(es, rest);
      }
    case JObject(ms) =>
      if ms == [] {
        var s := Write(v) + rest;
        assert WriteMembers(ms) == "";
        assert s == "{}" + rest;
        assert s[2..] == rest;
      } else {
        ParseMembersRoundTrip(ms, rest);
        ParseObjectValue(ms, rest);
      }
  }

  lemma ParseStringValue(str: string, rest: string)
    ensures ParseValue(Write(JString(str)) + rest) == Some((JString(str), rest))
  {
    var s := Write(JString(str)) + rest;
    assert s == "\"" + (Escape(str) + "\"" + rest);
    assert s[1..] == Escape(str) + "\"" + rest;
    ParseStringRoundTrip(str, rest);
  }

  lemma ParseNumberValue(t: NumberText, rest: string)
    requires Delimits(rest)
    ensures ParseValue(Write(JNumber(t)) + rest) == Some((JNumber(t), rest))
  {
    var s := t + rest;
    assert s[..|t|] == t && s[|t|..] == rest;
    NumberSpanOf(t, rest);
    assert s[0] == t[0];
  }

  lemma ParseBoolValue(b: bool, rest: string)
    ensures ParseValue(Write(JBool(b)) + rest) == Some((JBool(b), rest))
  {
    var s := Write(JBool(b)) + rest;
    if b {
      assert s[..4] == "true" && s[4..] == rest;
    } else {
      assert s[..5] == "false" && s[5..] == rest;
    }
  }

  lemma ParseArrayValue(es: seq<Value>, rest: string)
    requires |es| > 0
    requires ParseElements(WriteElements(es) + "]" + rest) == Some((es, rest))
    ensures ParseValue(Write(JArray(es)) + rest) == Some((JArray(es), rest))
  {
    var w := WriteElements(es);
    WriteElementsStart(es);
    BracketOpening("[", w, "]", rest);
    ParseArrayStep("[" + w + "]" + rest, w + "]" + rest);
  }

  /** One step of ParseValue on a non-empty array. */
  lemma ParseArrayStep(s: string, inner: string)
    requires |s| > 1 && s[0] == '[' && s[1] != ']' && s[1..] == inner
    ensures ParseValue(s) ==
      match ParseElements(inner)
      case None => None
      case Some((es, rest)) => Some((JArray(es), rest))
  {
  }

  lemma WriteElementsStart(es: seq<Value>)
    requires |es| > 0
    ensures |WriteElements(es)| > 0 && WriteElements(es)[0] != ']'
  {
    WriteStart(es[0]);
    if |es| > 1 {
      HeadOf(Write(es[0]), "," + WriteElements(es[1..]));
      Regroup3(Write(es[0]), ",", WriteElements(es[1..]));
    }
  }

  lemma ParseObjectValue(ms: seq<Member>, rest: string)
    requires |ms| > 0
    requires ParseMembers(WriteMembers(ms) + "}" + rest) == Some((ms, rest))
    ensures ParseValue(Write(JObject(ms)) + rest) == Some((JObject(ms), rest))
  {
    var w := WriteMembers(ms);
    WriteMembersStart(ms);
    BracketOpening("{", w, "}", rest);
    ParseObjectStep("{" + w + "}" + rest, w + "}" + rest);
  }

  /** The text of a non-empty array or object: its opening bracket, then text that does not close it at once. */
  lemma BracketOpening(open: string, w: string, close: string, rest: string)
    requires |open| == 1 && |close| == 1 && |w| > 0 && w[0] != close[0]
    ensures var s := open + w + close + rest;
      |s| > 1 && s[0] == open[0] && s[1] != close[0] && s[1..] == w + close + rest
  {
    var s := open + w + close + rest;
    assert s == open + (w + close + rest);
    assert s[1] == w[0];
    assert s[1..] == w + close + rest;
  }

  /** One step of ParseValue on a non-empty object. */
  lemma ParseObjectStep(s: string, inner: string)
    requires |s| > 1 && s[0] == '{' && s[1] != '}' && s[1..] == inner
    ensures ParseValue(s) ==
      match ParseMembers(inner)
      case None => None
      case Some((ms, rest)) => Some((JObject(ms), rest))
  {
  }

  lemma WriteMembersStart(ms: seq<Member>)
    requires |ms| > 0
    ensures |WriteMembers(ms)| > 0 && WriteMembers(ms)[0] == '"'
  {
    var m := ms[0];
    var w := WriteMember(m);
    HeadOf("\"", Escape(m.name) + "\"");
    HeadOf(Quote(m.name), ":" + Write(m.value));
    Regroup3(Quote(m.name), ":", Write(m.value));
    assert |w| > 0 && w[0] == '"';
    if |ms| > 1 {
      HeadOf(w, "," + WriteMembers(ms[1..]));
      Regroup3(w, ",", WriteMembers(ms[1..]));
    }
  }

  lemma {:induction false} NumberSpanOf(t: NumberText, rest: string)
    requires Delimits(rest)
    ensures NumberSpan(t + rest) == |t|
    decreases |t|
  {
    var s := t + rest;
    if |t| == 1 {
      assert s[1..] == rest;
    } else {
      assert s[1..] == t[1..] + rest;
      NumberSpanOf(t[1..], rest);
    }
  }

  lemma {:induction false} ParseElementsRoundTrip(es: seq<Value>, rest: string)
    requires |es| > 0
    ensures ParseElements(WriteElements(es) + "]" + rest) == Some((es, rest))
    decreases es, 0
  {
    if |es| == 1 {
      LastElementText(es, rest);
      ParseValueRoundTrip(es[0], "]" + rest);
      DropFirst("]", rest);
      ParseElementsStep(Write(es[0]) + ("]" + rest), es[0], "]" + rest, rest);
    } else {
      ParseElementsRoundTrip(es[1..], rest);
      var tail := WriteElements(es[1..]) + "]" + rest;
      ElementsText(es, rest);
      ParseValueRoundTrip(es[0], "," + tail);
      DropFirst(",", tail);
      ParseElementsStep(Write(es[0]) + ("," + tail), es[0], "," + tail, tail);
      SplitFirst(es);
    }
  }

  lemma LastElementText(es: seq<Value>, rest: string)
    requires |es| == 1
    ensures WriteElements(es) + "]" + rest == Write(es[0]) + ("]" + rest)
    ensures es == [es[0]]
  {
    Regroup3(Write(es[0]), "]", rest);
  }

  lemma ElementsText(es: seq<Value>, rest: string)
    requires |es| > 1
    ensures WriteElements(es) + "]" + rest == Write(es[0]) + ("," + (WriteElements(es[1..]) + "]" + rest))
  {
    Regroup5(Write(es[0]), ",", WriteElements(es[1..]), "]", rest);
  }

  /** One step of ParseElements: a value followed by ']' or ','. */
  lemma ParseElementsStep(s: string, v: Value, after: string, next: string)
    requires ParseValue(s) == Some((v, after))
    requires |after| > 0 && (after[0] == ']' || after[0] == ',') && after[1..] == next
    ensures ParseElements(s) ==
      if after[0] == ']' then Some(([v], next))
      else match ParseElements(next)
        case None => None
        case Some((vs, rest)) => Some(([v] + vs, rest))
  {
  }

  lemma {:induction false} ParseMembersRoundTrip(ms: seq<Member>, rest: string)
    requires |ms| > 0
    ensures ParseMembers(WriteMembers(ms) + "}" + rest) == Some((ms, rest))
    decreases ms, 1
  {
    if |ms| == 1 {
      LastMemberText(ms, rest);
      ParseMemberFirst(ms[0], "}" + rest);
      assert ("}" + rest)[1..] == rest;
    } else {
      ParseMembersRoundTrip(ms[1..], rest);
      var tail := WriteMembers(ms[1..]) + "}" + rest;
      MembersText(ms, rest);
      ParseMemberFirst(ms[0], "," + tail);
      assert ("," + tail)[1..] == tail;
      SplitFirst(ms);
    }
  }

  lemma LastMemberText(ms: seq<Member>, rest: string)
    requires |ms| == 1
    ensures WriteMembers(ms) + "}" + rest == WriteMember(ms[0]) + ("}" + rest)
    ensures ms == [ms[0]]
  {
    Regroup3(WriteMember(ms[0]), "}", rest);
  }

  lemma MembersText(ms: seq<Member>, rest: string)
    requires |ms| > 1
    ensures WriteMembers(ms) + "}" + rest == WriteMember(ms[0]) + ("," + (WriteMembers(ms[1..]) + "}" + rest))
  {
    Regroup5(WriteMember(ms[0]), ",", WriteMembers(ms[1..]), "}", rest);
  }

  lemma SplitFirst<T>(s: seq<T>)
    requires |s| > 0
    ensures [s[0]] + s[1..] == s
  {
  }

  /** A member's text followed by '}' or ',' reads back as that member. */
  lemma ParseMemberFirst(m: Member, after: string)
    requires |after| > 0 && (after[0] == '}' || after[0] == ',')
    ensures ParseMembers(WriteMember(m) + after) ==
      if after[0] == '}' then Some(([m], after[1..]))
      else match ParseMembers(after[1..])
        case None => None
        case Some((ms, rest)) => Some(([m] + ms, rest))
    decreases m, 0
  {
    ParseValueRoundTrip(m.value, after);
    ParseMemberHead(m.name, m.value, Write(m.value), after);
  }

  /** Reading the first member of a member list, given that its value text w reads back. */
  lemma ParseMemberHead(name: string, v: Value, w: string, after: string)
    requires |after| > 0 && (after[0] == '}' || after[0] == ',')
    requires ParseValue(w + after) == Some((v, after))
    ensures ParseMembers(Quote(name) + ":" + w + after) ==
      if after[0] == '}' then Some(([Member(name, v)], after[1..]))
      else match ParseMembers(after[1..])
        case None => None
        case Some((ms, rest)) => Some(([Member(name, v)] + ms, rest))
  {
    MemberHeadText(name, w, after);
    DropFirst(":", w + after);
    Regroup3(":", w, after);
    ParseMembersStep(Quote(name) + ":" + w + after, name, ":" + w + after, w + after, v, after);
  }

  /** A member's text starts with its quoted name, which reads back, leaving the ':' and the value text. */
  lemma MemberHeadText(name: string, w: string, after: string)
    ensures var s := Quote(name) + ":" + w + after;
      |s| > 0 && s[0] == '"' && ParseStringBody(s[1..]) == Some((name, ":" + w + after))
  {
    var colon := ":" + w + after;
    assert Quote(name) + ":" + w + after == Quote(name) + colon;
    var s := Quote(name) + colon;
    assert s[1..] == Escape(name) + "\"" + colon;
    ParseStringRoundTrip(name, colon);
  }

  /** One step of ParseMembers: the name, the ':' and the first value, followed by '}' or ','. */
  lemma ParseMembersStep(s: string, name: string, colon: string, valueText: string, v: Value, after: string)
    requires |s| > 0 && s[0] == '"'
    requires ParseStringBody(s[1..]) == Some((name, colon))
    requires |colon| > 0 && colon[0] == ':' && colon[1..] == valueText
    requires ParseValue(valueText) == Some((v, after))
    requires |after| > 0 && (after[0] == '}' || after[0] == ',')
    ensures ParseMembers(s) ==
      if after[0] == '}' then Some(([Member(name, v)], after[1..]))
      else match ParseMembers(after[1..])
        case None => None
        case Some((ms, rest)) => Some(([Member(name, v)] + ms, rest))
  {
  }

  /** Every written document reads back as the value it was written from. */
  lemma ParseWrite(v: Value)
    ensures Parse(Write(v)) == Some(v)
  {
    ParseValueRoundTrip(v, []);
    assert Write(v) + [] == Write(v);
  }

  /** Hence the serialisation is unambiguous: different values never share a text. */
  lemma WriteInjective(v: Value, w: Value)
    ensures Write(v) == Write(w) <==> v == w
  {
    ParseWrite(v);
    ParseWrite(w);
  }
}

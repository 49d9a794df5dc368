/**
 * The JSON text of a flat object: what json.dumps prints (separators ", " and ": ", everything outside
 * printable ASCII escaped) and what json.loads accepts (section 7 of RFC 8259 for strings).
 */
module JsonText {
  import opened Common
  import opened Decimal

  datatype Value = Str(s: string) | Int(n: int)
  type Member = (string, Value)

  // ---------- Printing ----------

  function HexDigit(d: int): char
    requires 0 <= d < 16
  {
    if d < 10 then '0' + d as char else 'a' + (d - 10) as char
  }

  function Hex4(n: int): (s: string)
    requires 0 <= n < 0x1_0000
    ensures |s| == 4
  {
    var q1 := n / 16;
    var q2 := q1 / 16;
    [HexDigit(q2 / 16), HexDigit(q2 % 16), HexDigit(q1 % 16), HexDigit(n % 16)]
  }

  /** One character inside a JSON string literal. */
  function Escape(c: char): (s: string)
    ensures |s| >= 1 && s[0] != '"'
  {
    if c == '"' then "\\\""
    else if c == '\\' then "\\\\"
    else if c == '\n' then "\\n"
    else if c == '\r' then "\\r"
    else if c == '\t' then "\\t"
    else if c == '\U{C}' then "\\f"
    else if c == '\U{8}' then "\\b"
    else if ' ' <= c <= '~' then [c]
    else if c as int < 0x1_0000 then "\\u" + Hex4(c as int)
    else
      var v := c as int - 0x1_0000;
      "\\u" + Hex4(0xD800 + v / 0x400) + "\\u" + Hex4(0xDC00 + v % 0x400)
  }

  function EscapeAll(s: string): string {
    if s == "" then "" else Escape(s[0]) + EscapeAll(s[1..])
  }

  function Quote(s: string): string { "\"" + EscapeAll(s) + "\"" }

  function PrintValue(v: Value): (s: string)
    ensures |s| >= 1
  {
    match v
    case Str(s) => Quote(s)
    case Int(n) => if n < 0 then "-" + PrintNat(-n) else PrintNat(n)
  }

  function PrintMember(m: Member): string { Quote(m.0) + ": " + PrintValue(m.1) }

  function PrintMembers(ms: seq<Member>): string
    requires ms != []
  {
    if |ms| == 1 then PrintMember(ms[0]) else PrintMember(ms[0]) + ", " + PrintMembers(ms[1..])
  }

  function Dumps(ms: seq<Member>): string {
    if ms == [] then "{}" else "{" + PrintMembers(ms) + "}"
  }

  predicate IsPlain(c: char) { ' ' <= c <= '~' }

  predicate Plain(s: string) { forall i :: 0 <= i < |s| ==> IsPlain(s[i]) }

  lemma {:induction false} EscapedPlain(s: string)
    ensures Plain(EscapeAll(s))
  {
    if s != "" {
      EscapePlain(s[0]);
      hide Escape;
      EscapedPlain(s[1..]);
    }
  }

  lemma Hex4Plain(n: int)
    requires 0 <= n < 0x1_0000
    ensures Plain(Hex4(n))
  {
  }

  lemma EscapePlain(c: char)
    ensures Plain(Escape(c))
    ensures IsPlain(c) && c != '"' && c != '\\' ==> Escape(c) == [c]
  {
    hide Hex4;
    if c as int < 0x1_0000 {
      Hex4Plain(c as int);
    } else {
      var v := c as int - 0x1_0000;
      Hex4Plain(0xD800 + v / 0x400);
      Hex4Plain(0xDC00 + v % 0x400);
    }
  }

  lemma {:induction false} NatPlain(n: nat)
    ensures Plain(PrintNat(n))
  {
    if n >= 10 { NatPlain(n / 10); }
  }

  lemma MemberPlain(m: Member)
    ensures Plain(PrintMember(m))
  {
    hide EscapeAll, PrintNat;
    EscapedPlain(m.0);
    match m.1
    case Str(s) => EscapedPlain(s);
    case Int(n) => NatPlain(if n < 0 then -n else n);
  }

  lemma {:induction false} MembersPlain(ms: seq<Member>)
    requires ms != []
    ensures Plain(PrintMembers(ms))
  {
    hide PrintMember;
    MemberPlain(ms[0]);
    if |ms| > 1 { MembersPlain(ms[1..]); }
  }

  /** Printed text is printable ASCII throughout, so it has as many bytes as characters. */
  lemma DumpsPlain(ms: seq<Member>)
    ensures Plain(Dumps(ms))
  {
    hide PrintMembers;
    if ms != [] { MembersPlain(ms); }
  }

  /** Plain text without quotes or backslashes is printed as it is. */
  lemma {:induction false} QuotePlain(s: string)
    requires forall i :: 0 <= i < |s| ==> IsPlain(s[i]) && s[i] != '"' && s[i] != '\\'
    ensures EscapeAll(s) == s && Quote(s) == "\"" + s + "\""
  {
    if s != "" {
      EscapePlain(s[0]);
      hide Escape, IsPlain;
      QuotePlain(s[1..]);
      assert s == [s[0]] + s[1..];
    }
  }

  // ---------- Parsing ----------

  function SkipSpace(s: string): (r: string)
    ensures |r| <= |s|
  {
    if s != "" && s[0] in {' ', '\t', '\n', '\r'} then SkipSpace(s[1..]) else s
  }

  function HexValue(c: char): (r: Option<int>)
    ensures r.Some? ==> 0 <= r.value < 16
  {
    if '0' <= c <= '9' then Some(c as int - '0' as int)
    else if 'a' <= c <= 'f' then Some(c as int - 'a' as int + 10)
    else if 'A' <= c <= 'F' then Some(c as int - 'A' as int + 10)
    else None
  }

  function ParseHex4(s: string): (r: Option<int>)
    ensures r.Some? ==> |s| >= 4 && 0 <= r.value < 0x1_0000
  {
    if |s| < 4 then None
    else
      var a, b, c, d := HexValue(s[0]), HexValue(s[1]), HexValue(s[2]), HexValue(s[3]);
      if a.None? || b.None? || c.None? || d.None? then None
      else Some(((a.value * 16 + b.value) * 16 + c.value) * 16 + d.value)
  }

  function SimpleEscape(c: char): Option<char> {
    if c == '"' || c == '\\' || c == '/' then Some(c)
    else if c == 'n' then Some('\n')
    else if c == 'r' then Some('\r')
    else if c == 't' then Some('\t')
    else if c == 'f' then Some('\U{C}')
    else if c == 'b' then Some('\U{8}')
    else None
  }

  /** One possibly escaped character of a string body, and the text after it. */
  function ParseChar(s: string): (r: Option<(char, string)>)
    requires s != ""
    ensures r.Some? ==> |r.value.1| < |s|
  {
    if s[0] != '\\' then if s[0] < ' ' then None else Some((s[0], s[1..]))
    else if |s| < 2 then None
    else if s[1] != 'u' then
      match SimpleEscape(s[1])
      case Some(c) => Some((c, s[2..]))
      case None => None
    else
      match ParseHex4(s[2..])
      case None => None
      case Some(n) =>
        if n < 0xD800 || 0xE000 <= n then Some((n as char, s[6..]))
        else if n < 0xDC00 && |s| >= 12 && s[6] == '\\' && s[7] == 'u' then
          match ParseHex4(s[8..])
          case Some(m) =>
            if 0xDC00 <= m < 0xE000 then
              Some(((0x1_0000 + (n - 0xD800) * 0x400 + (m - 0xDC00)) as char, s[12..]))
            else None
          case None => None
        else None
  }

  /** The rest of a string literal after its opening quote. */
  function ParseBody(s: string): (r: Option<(string, string)>)
    ensures r.Some? ==> |r.value.1| < |s|
    decreases |s|
  {
    if s == "" then None
    else if s[0] == '"' then Some(("", s[1..]))
    else match ParseChar(s)
      case None => None
      case Some((c, rest)) =>
        match ParseBody(rest)
        case None => None
        case Some((t, tail)) => Some(([c] + t, tail))
  }

  function ParseString(s: string): (r: Option<(string, string)>)
    ensures r.Some? ==> |r.value.1| < |s|
  {
    if s != "" && s[0] == '"' then ParseBody(s[1..]) else None
  }

  /** An unsigned integer without a leading zero. */
  function ParseNat(s: string): (r: Option<(nat, string)>)
    ensures r.Some? ==> |r.value.1| < |s|
  {
    var n := DigitRun(s);
    if n == 0 then None
    else if s[0] == '0' then Some((0, s[1..]))
    else Some((DigitsValue(s[..n]), s[n..]))
  }

  function ParseValue(s: string): (r: Option<(Value, string)>)
    ensures r.Some? ==> |r.value.1| < |s|
  {
    if s == "" then None
    else if s[0] == '"' then
      match ParseString(s)
      case Some((t, rest)) => Some((Str(t), rest))
      case None => None
    else if s[0] == '-' then
      match ParseNat(s[1..])
      case Some((n, rest)) => Some((Int(0 - n as int), rest))
      case None => None
    else
      match ParseNat(s)
      case Some((n, rest)) => Some((Int(n), rest))
      case None => None
  }

  function ParseMember(s: string): (r: Option<(Member, string)>)
    ensures r.Some? ==> |r.value.1| < |s|
  {
    match ParseString(s)
    case None => None
    case Some((key, afterKey)) =>
      var colon := SkipSpace(afterKey);
      if colon == "" || colon[0] != ':' then None
      else
        match ParseValue(SkipSpace(colon[1..]))
        case None => None
        case Some((v, rest)) => Some(((key, v), rest))
  }

  /** The members of an object up to and including its closing brace, and the text after it. */
  function ParseMembers(s: string): (r: Option<(seq<Member>, string)>)
    decreases |s|
  {
    match ParseMember(s)
    case None => None
    case Some((m, afterMember)) =>
      var next := SkipSpace(afterMember);
      if next == "" then None
      else if next[0] == '}' then Some(([m], next[1..]))
      else if next[0] == ',' then
        match ParseMembers(SkipSpace(next[1..]))
        case None => None
        case Some((ms, rest)) => Some(([m] + ms, rest))
      else None
  }

  function Loads(text: string): Option<seq<Member>> {
    var s := SkipSpace(text);
    if s == "" || s[0] != '{' then None
    else
      var body := SkipSpace(s[1..]);
      if body != "" && body[0] == '}' then if SkipSpace(body[1..]) == "" then Some([]) else None
      else
        match ParseMembers(body)
        case None => None
        case Some((ms, rest)) => if SkipSpace(rest) == "" then Some(ms) else None
  }

  /** Dictionary lookup; of two members with one name the later wins. */
  function Lookup(ms: seq<Member>, key: string): Option<Value> {
    if ms == [] then None
    else if ms[|ms| - 1].0 == key then Some(ms[|ms| - 1].1)
    else Lookup(ms[..|ms| - 1], key)
  }

  // ---------- Parsing what is not printed here ----------

  function UpperHex4(n: int): (s: string)
    requires 0 <= n < 0x1_0000
    ensures |s| == 4
  {
    seq(4, i requires 0 <= i < 4 => Upper(Hex4(n)[i]))
  }

  function Upper(c: char): char { if 'a' <= c <= 'z' then c - 'a' + 'A' else c }

  /** Other texts of the same meaning: a slash may be escaped, and hexadecimal digits may be capitals. */
  lemma OtherEscapes(n: int, rest: string)
    requires 0 <= n < 0xD800 || 0xE000 <= n < 0x1_0000
    ensures ParseChar("\\/" + rest) == Some(('/', rest))
    ensures ParseChar("\\u" + UpperHex4(n) + rest) == Some((n as char, rest))
  {
    UpperSame(n, rest);
    hide UpperHex4, ParseHex4;
    SlashEscape(rest);
    HexEscape(UpperHex4(n), n, rest);
  }

  lemma SlashEscape(rest: string)
    ensures ParseChar("\\/" + rest) == Some(('/', rest))
  {
    hide ParseHex4;
    var s := "\\/" + rest;
    assert s[0] == '\\' && s[1] == '/' && s[2..] == rest;
  }

  lemma HexEscape(digits: string, n: int, rest: string)
    requires |digits| == 4 && ParseHex4(digits + rest) == Some(n) && (0 <= n < 0xD800 || 0xE000 <= n < 0x1_0000)
    ensures ParseChar("\\u" + digits + rest) == Some((n as char, rest))
  {
    hide ParseHex4, SimpleEscape;
    var s := "\\u" + digits + rest;
    assert s[0] == '\\' && s[1] == 'u' && s[2..] == digits + rest && s[6..] == rest;
  }

  lemma UpperSame(n: int, rest: string)
    requires 0 <= n < 0x1_0000
    ensures ParseHex4(UpperHex4(n) + rest) == Some(n)
  {
    ParseHex4Printed(n, rest);
    forall i | 0 <= i < 4
      ensures HexValue((UpperHex4(n) + rest)[i]) == HexValue((Hex4(n) + rest)[i])
    {
      CapitalValue(Hex4(n)[i]);
    }
    hide Hex4, UpperHex4, HexValue;
  }

  lemma CapitalValue(c: char)
    requires HexValue(c).Some?
    ensures HexValue(Upper(c)) == HexValue(c)
  {
  }

  /** A control character must be escaped, and a number that starts with a zero is zero. */
  lemma StrictForms(c: char, rest: string)
    ensures c < ' ' ==> ParseChar([c] + rest) == None
    ensures ParseNat("0" + rest) == Some((0, rest))
  {
    assert ("0" + rest)[1..] == rest;
  }

  /** Tabs, line ends and spaces, and nothing else, are skipped between tokens. */
  lemma {:induction false} SpaceSkipped(w: string, t: string)
    requires forall i :: 0 <= i < |w| ==> w[i] as int in {9, 10, 13, 32}
    requires t != "" ==> t[0] as int !in {9, 10, 13, 32}
    ensures SkipSpace(w + t) == t
  {
    if w == "" {
      assert w + t == t;
    } else {
      assert (w + t)[1..] == w[1..] + t;
      SpaceSkipped(w[1..], t);
    }
  }

  // ---------- Parsing what was printed ----------

  lemma ParseHex4Printed(n: int, rest: string)
    requires 0 <= n < 0x1_0000
    ensures ParseHex4(Hex4(n) + rest) == Some(n)
  {
    var s := Hex4(n) + rest;
    var q1 := n / 16;
    var q2 := q1 / 16;
    assert HexValue(s[0]) == Some(q2 / 16) && HexValue(s[1]) == Some(q2 % 16)
           && HexValue(s[2]) == Some(q1 % 16) && HexValue(s[3]) == Some(n % 16);
  }

  lemma ParseShortEscape(n: int, c: char, rest: string)
    requires 0 <= n < 0xD800 || 0xE000 <= n < 0x1_0000
    requires c as int == n
    ensures ParseChar("\\u" + Hex4(n) + rest) == Some((c, rest))
  {
    hide Hex4, ParseHex4;
    var s := "\\u" + Hex4(n) + rest;
    ParseHex4Printed(n, rest);
    assert s[2..] == Hex4(n) + rest && s[6..] == rest;
  }

  lemma ParseSurrogatePair(hi: int, lo: int, rest: string)
    requires 0xD800 <= hi < 0xDC00 && 0xDC00 <= lo < 0xE000
    ensures ParseChar("\\u" + Hex4(hi) + "\\u" + Hex4(lo) + rest)
         == Some(((0x1_0000 + (hi - 0xD800) * 0x400 + (lo - 0xDC00)) as char, rest))
  {
    hide Hex4, ParseHex4;
    var s := "\\u" + Hex4(hi) + "\\u" + Hex4(lo) + rest;
    ParseHex4Printed(hi, "\\u" + Hex4(lo) + rest);
    ParseHex4Printed(lo, rest);
    assert s[2..] == Hex4(hi) + ("\\u" + Hex4(lo) + rest);
    assert s[8..] == Hex4(lo) + rest && s[12..] == rest;
  }

  lemma ParsePlainChar(c: char, rest: string)
    requires c as int < 0x7F && |Escape(c)| <= 2
    ensures ParseChar(Escape(c) + rest) == Some((c, rest))
  {
    var s := Escape(c) + rest;
    if |Escape(c)| == 2 {
      assert s[2..] == rest && s[0] == '\\' && s[1] == Escape(c)[1];
    } else {
      assert s[1..] == rest && s[0] == c;
    }
  }

  lemma SurrogateValue(v: int)
    requires 0 <= v < 0x10_0000
    ensures 0 <= v / 0x400 < 0x400 && 0 <= v % 0x400 < 0x400
    ensures v / 0x400 * 0x400 + v % 0x400 == v
  {
  }

  lemma {:induction false} ParseAstralEscape(c: char, rest: string)
    requires c as int >= 0x1_0000
    ensures ParseChar(Escape(c) + rest) == Some((c, rest))
  {
    hide Hex4, ParseChar;
    var v := c as int - 0x1_0000;
    SurrogateValue(v);
    var hi, lo := 0xD800 + v / 0x400, 0xDC00 + v % 0x400;
    assert Escape(c) == "\\u" + Hex4(hi) + "\\u" + Hex4(lo);
    ParseSurrogatePair(hi, lo, rest);
    assert (0x1_0000 + (hi - 0xD800) * 0x400 + (lo - 0xDC00)) as char == c;
  }

  lemma {:induction false} ParseEscaped(c: char, rest: string)
    ensures ParseChar(Escape(c) + rest) == Some((c, rest))
  {
    hide ParseChar, Hex4;
    if |Escape(c)| <= 2 {
      ParsePlainChar(c, rest);
    } else if c as int < 0x1_0000 {
      assert Escape(c) == "\\u" + Hex4(c as int);
      ParseShortEscape(c as int, c, rest);
    } else {
      ParseAstralEscape(c, rest);
    }
  }

  /** One step of ParseBody. */
  lemma BodyFromParts(s: string, c: char, rest: string, t: string, tail: string)
    requires s != "" && s[0] != '"' && ParseChar(s) == Some((c, rest)) && ParseBody(rest) == Some((t, tail))
    ensures ParseBody(s) == Some(([c] + t, tail))
  {
  }

  lemma {:induction false} ParseEscapedBody(t: string, rest: string)
    ensures ParseBody(EscapeAll(t) + ("\"" + rest)) == Some((t, rest))
  {
    if t == "" {
      assert EscapeAll(t) + ("\"" + rest) == "\"" + rest;
      assert ("\"" + rest)[1..] == rest;
    } else {
      var tail := EscapeAll(t[1..]) + ("\"" + rest);
      Concat3(Escape(t[0]), EscapeAll(t[1..]), "\"" + rest);
      ParseEscaped(t[0], tail);
      ParseEscapedBody(t[1..], rest);
      BodyFromParts(Escape(t[0]) + tail, t[0], tail, t[1..], rest);
      assert [t[0]] + t[1..] == t;
    }
  }

  lemma ParseQuoted(t: string, rest: string)
    ensures ParseString(Quote(t) + rest) == Some((t, rest))
  {
    ParseEscapedBody(t, rest);
    Concat4("\"", EscapeAll(t), "\"", rest);
    var body := EscapeAll(t) + ("\"" + rest);
    assert ("\"" + body)[1..] == body;
  }

  lemma ParseNatPrinted(n: nat, rest: string)
    requires rest != "" ==> !IsDigit(rest[0])
    ensures ParseNat(PrintNat(n) + rest) == Some((n, rest))
  {
    hide DigitRun, DigitsValue;
    var p := PrintNat(n);
    PrintNatDigits(n);
    DigitRunAppend(p, rest);
    assert (p + rest)[..|p|] == p && (p + rest)[|p|..] == rest;
  }

  lemma ParseIntPrinted(n: int, rest: string)
    requires rest != "" ==> !IsDigit(rest[0])
    ensures ParseValue(PrintValue(Int(n)) + rest) == Some((Int(n), rest))
  {
    PrintedHead(Int(n));
    hide ParseNat, PrintNat;
    var p := PrintValue(Int(n)) + rest;
    if n < 0 {
      ParseNatPrinted(-n, rest);
      assert p[0] == '-' && p[1..] == PrintNat(-n) + rest;
    } else {
      ParseNatPrinted(n, rest);
      assert p[0] == PrintNat(n)[0];
    }
  }

  lemma ParseValuePrinted(v: Value, rest: string)
    requires rest != "" ==> !IsDigit(rest[0])
    ensures ParseValue(PrintValue(v) + rest) == Some((v, rest))
  {
    if v.Str? {
      ParseQuoted(v.s, rest);
      assert (PrintValue(v) + rest)[0] == '"';
    } else {
      ParseIntPrinted(v.n, rest);
    }
  }

  /** One step of ParseMember, over texts already split at the colon. */
  lemma MemberFromParts(s: string, key: string, afterKey: string, value: string, v: Value, rest: string)
    requires ParseString(s) == Some((key, afterKey))
    requires afterKey != "" && afterKey[0] == ':' && SkipSpace(afterKey[1..]) == value
    requires ParseValue(value) == Some((v, rest))
    ensures ParseMember(s) == Some(((key, v), rest))
  {
    assert SkipSpace(afterKey) == afterKey;
  }

  lemma SkipOneSpace(s: string)
    requires s != "" && s[0] !in {' ', '\t', '\n', '\r'}
    ensures SkipSpace(" " + s) == s
  {
    assert (" " + s)[1..] == s;
    assert SkipSpace(s) == s;
  }

  lemma SkipToPrinted(v: Value, rest: string)
    ensures SkipSpace(" " + (PrintValue(v) + rest)) == PrintValue(v) + rest
  {
    PrintedHead(v);
    SkipOneSpace(PrintValue(v) + rest);
  }

  lemma ParseMemberPrinted(m: Member, rest: string)
    requires rest != "" ==> !IsDigit(rest[0])
    ensures ParseMember(PrintMember(m) + rest) == Some((m, rest))
  {
    hide ParseMember, ParseString, ParseValue, PrintValue, Quote, SkipSpace;
    var v := PrintValue(m.1) + rest;
    var tail := ": " + v;
    Concat4(Quote(m.0), ": ", PrintValue(m.1), rest);
    ParseQuoted(m.0, tail);
    SkipToPrinted(m.1, rest);
    assert tail[1..] == " " + v;
    ParseValuePrinted(m.1, rest);
    MemberFromParts(Quote(m.0) + tail, m.0, tail, v, m.1, rest);
  }

  lemma PrintedHead(v: Value)
    ensures match v
            case Str(_) => PrintValue(v)[0] == '"'
            case Int(n) => if n < 0 then PrintValue(v)[0] == '-' else IsDigit(PrintValue(v)[0])
  {
    if v.Int? {
      PrintNatDigits(if v.n < 0 then -v.n else v.n);
    }
  }

  /** One step of ParseMembers, over texts already split at the comma or brace. */
  lemma MembersFromParts(s: string, m: Member, next: string, ms: seq<Member>, rest: string)
    requires ParseMember(s) == Some((m, next)) && next != ""
    requires next[0] == '}' || next[0] == ','
    requires if next[0] == '}' then ms == [] && rest == next[1..]
             else ParseMembers(SkipSpace(next[1..])) == Some((ms, rest))
    ensures ParseMembers(s) == Some(([m] + ms, rest))
  {
    assert SkipSpace(next) == next;
    assert [m] + [] == [m];
  }

  lemma SkipToMembers(ms: seq<Member>, rest: string)
    requires ms != []
    ensures SkipSpace(" " + (PrintMembers(ms) + rest)) == PrintMembers(ms) + rest
  {
    PrintMembersHead(ms);
    SkipOneSpace(PrintMembers(ms) + rest);
  }

  lemma {:induction false} ParseMembersPrinted(ms: seq<Member>, rest: string)
    requires ms != []
    ensures ParseMembers(PrintMembers(ms) + ("}" + rest)) == Some((ms, rest))
  {
    hide ParseMembers, ParseMember, PrintMember, SkipSpace;
    assert [ms[0]] + ms[1..] == ms;
    var close := "}" + rest;
    if |ms| == 1 {
      ParseMemberPrinted(ms[0], close);
      assert close[1..] == rest;
      MembersFromParts(PrintMember(ms[0]) + close, ms[0], close, [], rest);
    } else {
      var more := PrintMembers(ms[1..]) + close;
      var next := ", " + more;
      Concat4(PrintMember(ms[0]), ", ", PrintMembers(ms[1..]), close);
      ParseMemberPrinted(ms[0], next);
      assert next[1..] == " " + more;
      SkipToMembers(ms[1..], close);
      ParseMembersPrinted(ms[1..], rest);
      MembersFromParts(PrintMember(ms[0]) + next, ms[0], next, ms[1..], rest);
    }
  }

  lemma PrintMembersHead(ms: seq<Member>)
    requires ms != []
    ensures PrintMembers(ms) != "" && PrintMembers(ms)[0] == '"'
  {
    assert PrintMember(ms[0])[0] == '"';
  }

  /** json.loads(json.dumps(d)) gives back the members of d, in order. */
  lemma {:induction false} LoadsDumps(ms: seq<Member>)
    ensures Loads(Dumps(ms)) == Some(ms)
  {
    hide ParseMembers, PrintMembers;
    var s := Dumps(ms);
    if ms != [] {
      PrintMembersHead(ms);
      Concat3("{", PrintMembers(ms), "}");
      assert s[1..] == PrintMembers(ms) + ("}" + "");
      ParseMembersPrinted(ms, "");
    }
  }
}

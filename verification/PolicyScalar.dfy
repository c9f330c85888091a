/** Scalars and lines as text: what the policy writer prints, the reader's scanners take apart again. */
module PolicyScalar {
  import opened Common

  /** What a lever can be set to. */
  datatype Value = Null | Bool(b: bool) | Int(n: int) | Text(s: string)

  /** What a scalar reads as; numbers with a point or exponent and flow arrays keep their text. */
  datatype Scalar = Known(value: Value) | Float(text: string) | Flow(text: string)

  // ---- Printing ----

  function DigitValue(c: char): nat
    requires IsDigit(c)
  {
    c as int - '0' as int
  }

  predicate IsBare(c: char) {
    'A' <= c <= 'Z' || 'a' <= c <= 'z' || IsDigit(c) || c == '_' || c == '.' || c == '-'
  }

  /** Text that is printed without quotes. */
  predicate AllBare(s: string) {
    s != [] && forall k :: 0 <= k < |s| ==> IsBare(s[k])
  }

  function HexDigit(n: nat): char
    requires n < 16
  {
    "0123456789abcdef"[n]
  }

  /** JSON leaves the character as it is. */
  predicate IsPlain(c: char) {
    c != '"' && c != '\\' && c >= ' '
  }

  predicate AllPlain(s: string) {
    forall k :: 0 <= k < |s| ==> IsPlain(s[k])
  }

  /** JSON's escape of one character. */
  function Escape(c: char): (e: string)
    ensures e == [c] || (|e| >= 2 && e[0] == '\\')
    ensures e == [c] <==> IsPlain(c)
  {
    if c == '"' || c == '\\' then ['\\', c]
    else if c == '\n' then "\\n"
    else if c == '\r' then "\\r"
    else if c == '\t' then "\\t"
    else if c == 8 as char then "\\b"
    else if c == 12 as char then "\\f"
    else if c < ' ' then "\\u00" + [HexDigit(c as int / 16), HexDigit(c as int % 16)]
    else [c]
  }

  function EscapeAll(s: string): string {
    if s == [] then [] else Escape(s[0]) + EscapeAll(s[1..])
  }

  function Serialize(v: Value): string {
    match v
    case Null => "null"
    case Bool(b) => if b then "true" else "false"
    case Int(n) => if n < 0 then "-" + Digits(-n) else Digits(n)
    case Text(s) => if AllBare(s) then s else "\"" + EscapeAll(s) + "\""
  }

  // ---- Reading ----

  predicate IsSpace(c: char) {
    c == ' ' || c == '\t' || c == '\n' || c == '\r' || c == 11 as char || c == 12 as char || c == 160 as char
  }

  function TrimStart(s: string): (r: string)
    ensures |r| <= |s|
  {
    if s != [] && IsSpace(s[0]) then TrimStart(s[1..]) else s
  }

  function TrimEnd(s: string): string {
    if s != [] && IsSpace(s[|s| - 1]) then TrimEnd(s[..|s| - 1]) else s
  }

  function Trim(s: string): string {
    TrimEnd(TrimStart(s))
  }

  function ToNat(s: string): nat
    requires AllDigits(s)
  {
    var last := DigitValue(s[|s| - 1]);
    if |s| == 1 then last else 10 * ToNat(s[..|s| - 1]) + last
  }

  function DigitsEnd(s: string, i: nat): (j: nat)
    requires i <= |s|
    ensures i <= j <= |s|
    decreases |s| - i
  {
    if i < |s| && IsDigit(s[i]) then DigitsEnd(s, i + 1) else i
  }

  /** Digits with a point, or a point and digits, or digits alone. */
  function MantissaEnd(s: string, i: nat): Option<nat>
    requires i <= |s|
  {
    var a := DigitsEnd(s, i);
    if a < |s| && s[a] == '.' then
      var b := DigitsEnd(s, a + 1);
      if a > i || b > a + 1 then Some(b) else None
    else if a > i then Some(a) else None
  }

  predicate IsExponent(s: string) {
    || s == []
    || (&& (s[0] == 'e' || s[0] == 'E')
        && AllDigits(if |s| > 1 && (s[1] == '+' || s[1] == '-') then s[2..] else s[1..]))
  }

  function Unsigned(s: string): string {
    if s != [] && s[0] == '-' then s[1..] else s
  }

  predicate IsFloat(s: string) {
    && (exists c | c in s :: c == '.' || c == 'e' || c == 'E')
    && match MantissaEnd(Unsigned(s), 0)
       case Some(m) => m <= |Unsigned(s)| && IsExponent(Unsigned(s)[m..])
       case None => false
  }

  predicate Wrapped(s: string, open: char, close: char) {
    s != [] && s[0] == open && s[|s| - 1] == close
  }

  /** `slice(1, -1)`. */
  function Inner(s: string): string {
    if |s| < 2 then [] else s[1..|s| - 1]
  }

  function ParseScalar(text: string): Scalar {
    var s := Trim(text);
    if s == "" || s == "~" || s == "null" then Known(Null)
    else if s == "true" then Known(Bool(true))
    else if s == "false" then Known(Bool(false))
    else if Wrapped(s, '"', '"') || Wrapped(s, '\'', '\'') then Known(Text(Inner(s)))
    else if Wrapped(s, '[', ']') then Flow(Inner(s))
    else if AllDigits(Unsigned(s)) then
      Known(Int(if s[0] == '-' then -(ToNat(Unsigned(s)) as int) else ToNat(Unsigned(s))))
    else if IsFloat(s) then Float(s)
    else Known(Text(s))
  }

  // ---- Which values survive being written and read ----

  /** Text that looks like something else is written bare; text JSON has to escape is never unescaped. */
  predicate Faithful(v: Value) {
    match v
    case Text(s) =>
      if AllBare(s) then s !in {"null", "true", "false"} && !AllDigits(Unsigned(s)) && !IsFloat(s)
      else AllPlain(s)
    case _ => true
  }

  lemma TrimTight(s: string)
    requires s != [] && !IsSpace(s[0]) && !IsSpace(s[|s| - 1])
    ensures Trim(s) == s
  {
  }

  lemma {:induction false} EscapeGrows(s: string)
    ensures |EscapeAll(s)| >= |s|
    ensures EscapeAll(s) == s <==> AllPlain(s)
  {
    if s != [] {
      EscapeGrows(s[1..]);
      assert AllPlain(s) <==> IsPlain(s[0]) && AllPlain(s[1..]) by {
        assert s == [s[0]] + s[1..];
      }
      if Escape(s[0]) == [s[0]] {
        assert EscapeAll(s)[1..] == EscapeAll(s[1..]);
        assert s == [s[0]] + s[1..];
      } else {
        assert |EscapeAll(s)| > |s|;
      }
    }
  }

  lemma {:induction false} DigitsRead(n: nat)
    ensures ToNat(Digits(n)) == n
  {
    var last := [(n % 10 + '0' as int) as char];
    if n >= 10 {
      DigitsRead(n / 10);
      assert (Digits(n / 10) + last)[..|Digits(n)| - 1] == Digits(n / 10);
    }
  }

  lemma IntText(n: int)
    ensures var s := Serialize(Int(n));
            && s != [] && (s[0] == '-' <==> n < 0) && (s[0] == '-' || IsDigit(s[0])) && IsDigit(s[|s| - 1])
            && (forall k :: 0 <= k < |s| ==> s[k] == '-' || IsDigit(s[k]))
            && Unsigned(s) == Digits(if n < 0 then -n else n)
  {
    var digits := Digits(if n < 0 then -n else n);
    assert IsDigit(digits[0]) && IsDigit(digits[|digits| - 1]);
    assert n < 0 ==> ("-" + digits)[1..] == digits;
  }

  lemma NoWord(s: string)
    requires s != [] && (s[0] == '-' || IsDigit(s[0]))
    ensures s != "~" && s != "null" && s != "true" && s != "false"
    ensures !Wrapped(s, '"', '"') && !Wrapped(s, '\'', '\'') && !Wrapped(s, '[', ']')
  {
    assert s[0] != "~"[0] && s[0] != "null"[0] && s[0] != "true"[0] && s[0] != "false"[0];
  }

  lemma IntReadsBack(n: int)
    ensures ParseScalar(Serialize(Int(n))) == Known(Int(n))
  {
    IntText(n);
    var s := Serialize(Int(n));
    DigitsRead(if n < 0 then -n else n);
    TrimTight(s);
    NoWord(s);
  }

  lemma BareReads(s: string)
    requires AllBare(s)
    ensures ParseScalar(s) == Known(Text(s)) <==> Faithful(Text(s))
  {
    assert IsBare(s[0]) && IsBare(s[|s| - 1]);
    TrimTight(s);
  }

  lemma WrappedReads(t: string)
    requires Wrapped(t, '"', '"') && Trim(t) == t
    ensures ParseScalar(t) == Known(Text(Inner(t)))
  {
    assert t[0] != "~"[0] && t[0] != "null"[0] && t[0] != "true"[0] && t[0] != "false"[0];
  }

  lemma QuotedShape(e: string)
    ensures var t := "\"" + e + "\""; Wrapped(t, '"', '"') && Inner(t) == e && Trim(t) == t
  {
    var t := "\"" + e + "\"";
    TrimTight(t);
  }

  lemma QuotedReads(s: string)
    requires !AllBare(s)
    ensures ParseScalar(Serialize(Text(s))) == Known(Text(EscapeAll(s)))
  {
    QuotedShape(EscapeAll(s));
    WrappedReads(Serialize(Text(s)));
  }

  /** A value reads back as itself exactly when it is faithful. */
  lemma ScalarReadsBackIff(v: Value)
    ensures ParseScalar(Serialize(v)) == Known(v) <==> Faithful(v)
  {
    match v
    case Null => TrimTight("null");
    case Bool(b) => TrimTight(Serialize(v));
    case Int(n) => IntReadsBack(n);
    case Text(s) =>
      if AllBare(s) {
        BareReads(s);
      } else {
        QuotedReads(s);
        EscapeGrows(s);
      }
  }

  // ---- Lines ----

  predicate IsQuote(c: char) {
    c == '"' || c == '\''
  }

  /** Where the comment starts: a `#` outside quotes that is first or follows white space. */
  function CommentFrom(line: string, i: nat, quote: Option<char>): (r: nat)
    requires i <= |line|
    ensures i <= r <= |line|
    decreases |line| - i
  {
    if i == |line| then i
    else if quote.Some? then CommentFrom(line, i + 1, if line[i] == quote.value then None else quote)
    else if IsQuote(line[i]) then CommentFrom(line, i + 1, Some(line[i]))
    else if line[i] == '#' && (i == 0 || IsSpace(line[i - 1])) then i
    else CommentFrom(line, i + 1, None)
  }

  function StripComment(line: string): string {
    line[..CommentFrom(line, 0, None)]
  }

  method StripCommentOf(line: string) returns (kept: string)
    ensures kept == StripComment(line)
  {
    var quote: Option<char> := None;
    var i := 0;
    while i < |line|
      invariant 0 <= i <= |line| && CommentFrom(line, i, quote) == CommentFrom(line, 0, None)
    {
      var ch := line[i];
      if quote.Some? {
        if ch == quote.value {
          quote := None;
        }
      } else if IsQuote(ch) {
        quote := Some(ch);
      } else if ch == '#' && (i == 0 || IsSpace(line[i - 1])) {
        return line[..i];
      }
      i := i + 1;
    }
    return line;
  }

  /** The first colon outside quotes and brackets, or the length. */
  function ColonFrom(line: string, i: nat, quote: Option<char>, depth: int): (r: nat)
    requires i <= |line|
    ensures i <= r <= |line|
    decreases |line| - i
  {
    if i == |line| then i
    else if quote.Some? then ColonFrom(line, i + 1, if line[i] == quote.value then None else quote, depth)
    else if IsQuote(line[i]) then ColonFrom(line, i + 1, Some(line[i]), depth)
    else
      var d := if line[i] == '[' || line[i] == '{' then depth + 1
               else if line[i] == ']' || line[i] == '}' then depth - 1 else depth;
      if line[i] == ':' && d == 0 then i else ColonFrom(line, i + 1, None, d)
  }

  method ColonIndex(line: string) returns (index: int)
    ensures index == if ColonFrom(line, 0, None, 0) < |line| then ColonFrom(line, 0, None, 0) else -1
  {
    var quote: Option<char> := None;
    var depth, i := 0, 0;
    while i < |line|
      invariant 0 <= i <= |line| && ColonFrom(line, i, quote, depth) == ColonFrom(line, 0, None, 0)
    {
      var ch := line[i];
      if quote.Some? {
        if ch == quote.value {
          quote := None;
        }
      } else if IsQuote(ch) {
        quote := Some(ch);
      } else {
        if ch == '[' || ch == '{' {
          depth := depth + 1;
        } else if ch == ']' || ch == '}' {
          depth := depth - 1;
        }
        if ch == ':' && depth == 0 {
          return i;
        }
      }
      i := i + 1;
    }
    return -1;
  }

  /** What both scans make of a line. */
  datatype Parts = Ignored | Entry(indent: nat, key: string, rest: string)

  function SplitAtColon(indent: nat, trimmed: string): Parts {
    var colon := ColonFrom(trimmed, 0, None, 0);
    if colon == |trimmed| then Ignored
    else Entry(indent, Trim(trimmed[..colon]), Trim(trimmed[colon + 1..]))
  }

  function TakeApart(line: string): Parts {
    var noComment := StripComment(line);
    if Trim(noComment) == "" then Ignored
    else SplitAtColon(|noComment| - |TrimStart(noComment)|, Trim(noComment))
  }

  /** The line the writer prints. */
  function Print(lead: string, key: string, text: string, comment: string): string {
    lead + key + ": " + text + if comment == "" then "" else "  " + comment
  }

  /** A key without quotes, brackets, colons, hashes or white space. */
  predicate PlainKey(key: string) {
    key != [] && forall k :: 0 <= k < |key| ==> KeyChar(key[k])
  }

  predicate KeyChar(c: char) {
    !IsSpace(c) && !IsQuote(c) && c != '#' && !Structural(c)
  }

  /** What the colon scan reacts to outside quotes. */
  predicate Structural(c: char) {
    c == ':' || c == '[' || c == ']' || c == '{' || c == '}'
  }

  predicate Blank(s: string) {
    forall k :: 0 <= k < |s| ==> s[k] == ' '
  }

  /** No quote and no comment sign. */
  predicate Unmarked(text: string) {
    forall k :: 0 <= k < |text| ==> !IsQuote(text[k]) && text[k] != '#'
  }

  /** Outside quotes nothing happens at such characters. */
  lemma {:induction false} SkipPlain(line: string, i: nat, j: nat)
    requires i <= j <= |line| && forall k :: i <= k < j ==> !IsQuote(line[k]) && line[k] != '#'
    ensures CommentFrom(line, i, None) == CommentFrom(line, j, None)
    decreases j - i
  {
    if i < j {
      SkipPlain(line, i + 1, j);
    }
  }

  lemma {:induction false} SkipQuoted(line: string, i: nat, j: nat, q: char)
    requires i <= j <= |line| && forall k :: i <= k < j ==> line[k] != q
    ensures CommentFrom(line, i, Some(q)) == CommentFrom(line, j, Some(q))
    decreases j - i
  {
    if i < j {
      SkipQuoted(line, i + 1, j, q);
    }
  }

  /** Printed text without a comment sign or an unclosed quote of its own. */
  predicate Quiet(text: string) {
    && text != [] && !IsSpace(text[0]) && !IsSpace(text[|text| - 1])
    && (Unmarked(text)
        || (&& |text| >= 2 && text[0] == '"' && text[|text| - 1] == '"'
            && forall k :: 0 < k < |text| - 1 ==> text[k] != '"'))
  }

  /** `text` stands in `line` from position `i` on. */
  ghost predicate Holds(line: string, i: nat, text: string) {
    i + |text| <= |line| && forall k :: i <= k < i + |text| ==> line[k] == text[k - i]
  }

  lemma SkipText(line: string, i: nat, text: string)
    requires Quiet(text) && Holds(line, i, text)
    ensures CommentFrom(line, i, None) == CommentFrom(line, i + |text|, None)
  {
    var j := i + |text|;
    if Unmarked(text) {
      SkipPlain(line, i, j);
    } else {
      SkipQuoted(line, i + 1, j - 1, '"');
      assert CommentFrom(line, j - 1, Some('"')) == CommentFrom(line, j, None);
    }
  }

  lemma HeadUnmarked(lead: string, key: string)
    requires PlainKey(key) && Blank(lead)
    ensures Unmarked(lead + key + ": ")
  {
    var head := lead + key + ": ";
    forall k | 0 <= k < |head| ensures !IsQuote(head[k]) && head[k] != '#' {
      if k < |lead| {
        assert head[k] == lead[k];
      } else if k < |lead| + |key| {
        assert head[k] == key[k - |lead|];
      } else {
        assert head[k] == ": "[k - |lead| - |key|];
      }
    }
  }

  lemma SkipHead(line: string, head: string)
    requires Holds(line, 0, head) && Unmarked(head)
    ensures CommentFrom(line, 0, None) == CommentFrom(line, |head|, None)
  {
    SkipPlain(line, 0, |head|);
  }

  lemma SkipGap(line: string, j: nat)
    requires j + 2 < |line| && line[j] == line[j + 1] == ' ' && line[j + 2] == '#'
    ensures CommentFrom(line, j, None) == j + 2
  {
    SkipPlain(line, j, j + 2);
  }

  lemma CommentFound(lead: string, key: string, text: string, comment: string)
    requires PlainKey(key) && Quiet(text) && Blank(lead) && (comment == "" || comment[0] == '#')
    ensures StripComment(Print(lead, key, text, comment)) ==
            lead + (key + ": " + text) + if comment == "" then "" else "  "
  {
    assert lead + (key + ": " + text) == lead + key + ": " + text;
    var line, head := Print(lead, key, text, comment), lead + key + ": ";
    HeadUnmarked(lead, key);
    StripTail(head, text, if comment == "" then "" else "  " + comment);
  }

  lemma StripTail(head: string, text: string, tail: string)
    requires Unmarked(head) && Quiet(text)
    requires tail == "" || (|tail| > 2 && tail[0] == tail[1] == ' ' && tail[2] == '#')
    ensures StripComment(head + text + tail) == head + text + if tail == "" then "" else "  "
  {
    var line, j := head + text + tail, |head| + |text|;
    SkipHead(line, head);
    SkipText(line, |head|, text);
    if tail != "" {
      assert line[j] == tail[0] && line[j + 1] == tail[1] && line[j + 2] == tail[2];
      SkipGap(line, j);
      assert line[..j + 2] == head + text + "  ";
    } else {
      assert line[..j] == head + text + "";
    }
  }

  lemma {:induction false} ColonAfter(line: string, i: nat, j: nat)
    requires i <= j < |line| && line[j] == ':'
    requires forall k :: i <= k < j ==> !IsQuote(line[k]) && !Structural(line[k])
    ensures ColonFrom(line, i, None, 0) == j
    decreases j - i
  {
    if i < j {
      ColonAfter(line, i + 1, j);
    }
  }

  lemma {:induction false} TrimLead(lead: string, s: string)
    requires Blank(lead) && s != [] && !IsSpace(s[0])
    ensures TrimStart(lead + s) == s
    decreases |lead|
  {
    if lead == [] {
      assert lead + s == s;
    } else {
      TrimLead(lead[1..], s);
      assert (lead + s)[1..] == lead[1..] + s && (lead + s)[0] == lead[0];
    }
  }

  lemma {:induction false} TrimTail(s: string, tail: string)
    requires Blank(tail) && s != [] && !IsSpace(s[|s| - 1])
    ensures TrimEnd(s + tail) == s
    decreases |tail|
  {
    if tail == [] {
      assert s + tail == s;
    } else {
      TrimTail(s, tail[..|tail| - 1]);
      assert (s + tail)[..|s + tail| - 1] == s + tail[..|tail| - 1] && (s + tail)[|s + tail| - 1] == tail[|tail| - 1];
    }
  }

  lemma BodyTrims(lead: string, body: string, tail: string)
    requires Blank(lead) && Blank(tail) && body != [] && !IsSpace(body[0]) && !IsSpace(body[|body| - 1])
    ensures TrimStart(lead + body + tail) == body + tail && Trim(lead + body + tail) == body
  {
    assert lead + body + tail == lead + (body + tail);
    assert (body + tail)[0] == body[0];
    TrimLead(lead, body + tail);
    TrimTail(body, tail);
  }

  lemma BodyColon(key: string, text: string)
    requires PlainKey(key)
    ensures ColonFrom(key + ": " + text, 0, None, 0) == |key|
  {
    var body := key + ": " + text;
    assert body[|key|] == ':';
    forall k | 0 <= k < |key| ensures !IsQuote(body[k]) && !Structural(body[k]) {
      assert body[k] == key[k];
    }
    ColonAfter(body, 0, |key|);
  }

  lemma BodySlices(key: string, text: string)
    ensures var body := key + ": " + text; body[..|key|] == key && body[|key| + 1..] == " " + text
  {
  }

  lemma TrimGap(text: string)
    requires Quiet(text)
    ensures Trim(" " + text) == text
  {
    TrimLead(" ", text);
    TrimTail(text, "");
    assert text + "" == text;
  }

  lemma SplitIs(indent: nat, body: string, key: string, text: string)
    requires |key| < |body| && ColonFrom(body, 0, None, 0) == |key|
    requires Trim(body[..|key|]) == key && Trim(body[|key| + 1..]) == text
    ensures SplitAtColon(indent, body) == Entry(indent, key, text)
  {
  }

  lemma BodySplits(indent: nat, key: string, text: string)
    requires PlainKey(key) && Quiet(text)
    ensures SplitAtColon(indent, key + ": " + text) == Entry(indent, key, text)
  {
    BodyColon(key, text);
    BodySlices(key, text);
    TrimTight(key);
    TrimGap(text);
    SplitIs(indent, key + ": " + text, key, text);
  }

  /** A printed line is taken apart into what was printed. */
  lemma PrintedLineReads(lead: string, key: string, text: string, comment: string)
    requires PlainKey(key) && Quiet(text) && Blank(lead) && (comment == "" || comment[0] == '#')
    ensures TakeApart(Print(lead, key, text, comment)) == Entry(|lead|, key, text)
  {
    var body, tail := key + ": " + text, if comment == "" then "" else "  ";
    CommentFound(lead, key, text, comment);
    assert body[0] == key[0] && body[|body| - 1] == text[|text| - 1];
    BodyTrims(lead, body, tail);
    BodySplits(|lead|, key, text);
  }

  lemma TextQuiet(s: string)
    requires Faithful(Text(s))
    ensures Quiet(Serialize(Text(s)))
  {
    if AllBare(s) {
      assert IsBare(s[0]) && IsBare(s[|s| - 1]);
    } else {
      EscapeGrows(s);
      var t := "\"" + s + "\"";
      assert Serialize(Text(s)) == t;
      assert t[0] == '"' && t[|t| - 1] == '"';
      forall k | 0 < k < |t| - 1 ensures t[k] != '"' {
        assert t[k] == s[k - 1];
      }
    }
  }

  lemma SerializedQuiet(v: Value)
    requires Faithful(v)
    ensures Quiet(Serialize(v))
  {
    match v
    case Null =>
    case Bool(_) =>
    case Int(n) => IntText(n);
    case Text(s) => TextQuiet(s);
  }

  /**
   * A faithful value written on any line of the writer's reads back as itself, under the key and depth
   * it was written at.
   */
  lemma WrittenValueReadsBack(lead: string, key: string, v: Value, comment: string)
    requires PlainKey(key) && Blank(lead) && (comment == "" || comment[0] == '#') && Faithful(v)
    ensures var read := TakeApart(Print(lead, key, Serialize(v), comment));
            read == Entry(|lead|, key, Serialize(v)) && ParseScalar(read.rest) == Known(v)
  {
    SerializedQuiet(v);
    PrintedLineReads(lead, key, Serialize(v), comment);
    ScalarReadsBackIff(v);
  }

  /** Text with a quote comes back with JSON's escapes in it. */
  lemma QuoteIsLost(s: string, k: nat)
    requires k < |s| && s[k] == '"'
    ensures ParseScalar(Serialize(Text(s))) == Known(Text(EscapeAll(s))) && EscapeAll(s) != s
  {
    assert !IsBare(s[k]);
    QuotedReads(s);
    EscapeGrows(s);
  }

  // ---- What the reader makes of a text, and what a JSON reader would ----

  /** Null has three spellings and each boolean one; nothing else reads as these. */
  lemma WordsRead(text: string)
    ensures ParseScalar(text) == Known(Null) <==> Trim(text) in {"", "~", "null"}
    ensures ParseScalar(text) == Known(Bool(true)) <==> Trim(text) == "true"
    ensures ParseScalar(text) == Known(Bool(false)) <==> Trim(text) == "false"
  {
  }

  /** Between quotes of either kind everything is text, and between brackets a list. */
  lemma BetweenQuotesIsText(s: string)
    ensures ParseScalar("'" + s + "'") == ParseScalar("\"" + s + "\"") == Known(Text(s))
    ensures ParseScalar("[" + s + "]") == Flow(s)
  {
    var a, b, c := "'" + s + "'", "\"" + s + "\"", "[" + s + "]";
    TrimTight(a);
    TrimTight(b);
    TrimTight(c);
    assert Inner(a) == Inner(b) == Inner(c) == s;
  }

  function HexValue(c: char): nat {
    if '0' <= c <= '9' then c as int - '0' as int
    else if 'a' <= c <= 'f' then c as int - 'a' as int + 10 else 0
  }

  lemma HexDigitReads(n: nat)
    requires n < 16
    ensures HexValue(HexDigit(n)) == n
  {
  }

  /** The character a JSON string holds first, and how much of the text it takes; RFC 8259, section 7. */
  function JsonChar(s: string): (char, nat)
    requires s != []
  {
    if s[0] != '\\' || |s| < 2 then (s[0], 1)
    else
      match s[1]
      case 'n' => ('\n', 2)
      case 'r' => ('\r', 2)
      case 't' => ('\t', 2)
      case 'b' => (8 as char, 2)
      case 'f' => (12 as char, 2)
      case 'u' => if |s| < 6 then ('u', 2) else ((16 * HexValue(s[4]) + HexValue(s[5])) as char, 6)
      case c => (c, 2)
  }

  lemma EscapeReads(c: char, rest: string)
    ensures JsonChar(Escape(c) + rest) == (c, |Escape(c)|)
  {
    if c < ' ' {
      HexDigitReads(c as int / 16);
      HexDigitReads(c as int % 16);
    }
  }

  function Unescape(s: string): string
    decreases |s|
  {
    if s == [] then []
    else
      var (c, n) := JsonChar(s);
      if n <= |s| then [c] + Unescape(s[n..]) else [c]
  }

  /** What the writer prints is JSON for the text it was given: the loss is the reader's alone. */
  lemma {:induction false} EscapeIsJson(s: string)
    ensures Unescape(EscapeAll(s)) == s
    decreases |s|
  {
    if s != [] {
      EscapeIsJson(s[1..]);
      EscapeReads(s[0], EscapeAll(s[1..]));
      assert EscapeAll(s)[|Escape(s[0])|..] == EscapeAll(s[1..]);
      assert s == [s[0]] + s[1..];
    }
  }
}

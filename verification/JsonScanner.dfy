/**
  Finding JSON in the prose of a model's answer. What a JSON parser accepts is a parameter; what matters
  is where the scan for a balanced block stops.
*/
module JsonScanner {
  import opened Options
  import opened Text

  /** White space of RFC 8259, section 2. */
  predicate Gap(s: string) { forall i | 0 <= i < |s| :: s[i] == ' ' || s[i] == '\t' || s[i] == '\n' || s[i] == '\r' }

  predicate Digits(s: string) { forall i | 0 <= i < |s| :: '0' <= s[i] <= '9' }

  predicate HexDigit(c: char) { '0' <= c <= '9' || 'a' <= c <= 'f' || 'A' <= c <= 'F' }

  /** A number, RFC 8259, section 6. */
  datatype Number = Number(
    minus: bool, whole: string, fraction: Option<string>, exponent: Option<(char, string, string)>)
  {
    predicate Valid() {
      && whole != "" && Digits(whole) && (|whole| > 1 ==> whole[0] != '0')
      && (fraction.Some? ==> fraction.value != "" && Digits(fraction.value))
      && (exponent.Some? ==>
            && exponent.value.0 in "eE" && exponent.value.1 in ["", "+", "-"]
            && exponent.value.2 != "" && Digits(exponent.value.2))
    }

    function Spelled(): string {
      (if minus then "-" else "") + whole + (if fraction.Some? then "." + fraction.value else "")
      + if exponent.Some? then [exponent.value.0] + exponent.value.1 + exponent.value.2 else ""
    }
  }

  /** One character of a string, RFC 8259, section 7. */
  datatype Letter = Unescaped(c: char) | Escape(c: char) | Unicode(digits: string) {
    predicate Valid() {
      match this
      case Unescaped(c) => c >= ' ' && c != '"' && c != '\\'
      case Escape(c) => c in "\"\\/bfnrt"
      case Unicode(d) => |d| == 4 && forall i | 0 <= i < 4 :: HexDigit(d[i])
    }

    function Spelled(): string {
      match this
      case Unescaped(c) => [c]
      case Escape(c) => ['\\', c]
      case Unicode(d) => "\\u" + d
    }
  }

  /** A JSON text with its white space, RFC 8259, sections 3 to 5. */
  datatype Value =
    | True | False | Null
    | Numeral(number: Number)
    | String(letters: seq<Letter>)
    | EmptyArray(gap: string)
    | Array(items: Items)
    | EmptyObject(gap: string)
    | Object(members: Members)

  datatype Items = Items(lead: string, item: Value, trail: string, more: MoreItems)
  datatype MoreItems = NoItems | NextItem(items: Items)

  datatype Members = Members(
    lead: string, key: seq<Letter>, mid: string, colon: string, item: Value, trail: string, more: MoreMembers)
  datatype MoreMembers = NoMembers | NextMember(members: Members)

  ghost predicate ValidLetters(letters: seq<Letter>) { forall i | 0 <= i < |letters| :: letters[i].Valid() }

  ghost predicate Valid(v: Value) {
    match v
    case Numeral(n) => n.Valid()
    case String(letters) => ValidLetters(letters)
    case EmptyArray(gap) => Gap(gap)
    case Array(items) => ValidItems(items)
    case EmptyObject(gap) => Gap(gap)
    case Object(members) => ValidMembers(members)
    case _ => true
  }

  ghost predicate ValidItems(i: Items) {
    Gap(i.lead) && Valid(i.item) && Gap(i.trail) && (i.more.NextItem? ==> ValidItems(i.more.items))
  }

  ghost predicate ValidMembers(m: Members) {
    && Gap(m.lead) && ValidLetters(m.key) && Gap(m.mid) && Gap(m.colon) && Valid(m.item) && Gap(m.trail)
    && (m.more.NextMember? ==> ValidMembers(m.more.members))
  }

  function Quoted(letters: seq<Letter>): string { "\"" + Letters(letters) + "\"" }

  function Letters(letters: seq<Letter>): string {
    if letters == [] then "" else letters[0].Spelled() + Letters(letters[1..])
  }

  /** The JSON text of a value. */
  function Serialized(v: Value): string {
    match v
    case True => "true"
    case False => "false"
    case Null => "null"
    case Numeral(n) => n.Spelled()
    case String(letters) => Quoted(letters)
    case EmptyArray(gap) => "[" + gap + "]"
    case Array(items) => "[" + ItemsText(items) + "]"
    case EmptyObject(gap) => "{" + gap + "}"
    case Object(members) => "{" + MembersText(members) + "}"
  }

  function ItemsText(i: Items): string {
    i.lead + Serialized(i.item) + i.trail + if i.more.NextItem? then "," + ItemsText(i.more.items) else ""
  }

  function MembersText(m: Members): string {
    m.lead + Quoted(m.key) + m.mid + ":" + m.colon + Serialized(m.item) + m.trail
    + if m.more.NextMember? then "," + MembersText(m.more.members) else ""
  }

  /** The scanner: where it is, or past which character the block it started in is closed. */
  datatype Scan = Scanning(at: nat, depth: int, inString: bool, escape: bool) | Closed(end: nat)

  function Step(open: char, close: char, s: Scan, c: char): Scan {
    if s.Closed? then s
    else if s.escape then s.(at := s.at + 1, escape := false)
    else if c == '\\' then s.(at := s.at + 1, escape := true)
    else if c == '"' then s.(at := s.at + 1, inString := !s.inString)
    else if s.inString then s.(at := s.at + 1)
    else if c == open then s.(at := s.at + 1, depth := s.depth + 1)
    else if c == close then (if s.depth == 1 then Closed(s.at + 1) else s.(at := s.at + 1, depth := s.depth - 1))
    else s.(at := s.at + 1)
  }

  function Run(open: char, close: char, s: Scan, text: string): Scan
    decreases |text|
  {
    if text == "" then s else Run(open, close, Step(open, close, s, text[0]), text[1..])
  }

  function Closing(open: char): char { if open == '{' then '}' else ']' }

  /** Where the block that starts at `start` is closed, if it is. */
  function BlockEnd(t: string, start: nat): (r: Option<nat>)
    requires start < |t|
  {
    var end := Run(t[start], Closing(t[start]), Scanning(start, 0, false, false), t[start..]);
    if end.Closed? then Some(end.end) else None
  }

  lemma {:induction false} RunConcat(open: char, close: char, s: Scan, a: string, b: string)
    ensures Run(open, close, s, a + b) == Run(open, close, Run(open, close, s, a), b)
    decreases |a|
  {
    if a == "" {
      assert a + b == b;
    } else {
      assert (a + b)[1..] == a[1..] + b;
      RunConcat(open, close, Step(open, close, s, a[0]), a[1..], b);
    }
  }

  predicate Brackets(open: char, close: char) { (open == '{' && close == '}') || (open == '[' && close == ']') }

  /** Text the scanner runs through without a change of mind. */
  predicate Quiet(s: string) {
    forall i | 0 <= i < |s| :: s[i] != '"' && s[i] != '\\' && s[i] != '{' && s[i] != '}' && s[i] != '[' && s[i] != ']'
  }

  lemma {:induction false} RunQuiet(open: char, close: char, s: Scan, text: string)
    requires Brackets(open, close) && s.Scanning? && !s.inString && !s.escape && Quiet(text)
    ensures Run(open, close, s, text) == s.(at := s.at + |text|)
    decreases |text|
  {
    if text != "" {
      RunQuiet(open, close, s.(at := s.at + 1), text[1..]);
    }
  }

  lemma RunLetter(open: char, close: char, s: Scan, l: Letter)
    requires s.Scanning? && s.inString && !s.escape && l.Valid()
    ensures Run(open, close, s, l.Spelled()) == s.(at := s.at + |l.Spelled()|)
  {
    match l
    case Unescaped(c) =>
      assert [c][1..] == "";
    case Escape(c) =>
      var escaped := s.(at := s.at + 1, escape := true);
      assert ['\\', c][1..] == [c] && [c][1..] == "";
      assert Run(open, close, escaped, [c]) == Step(open, close, escaped, c);
    case Unicode(d) =>
      var t := "\\u" + d;
      assert t[1..] == ['u'] + d && (['u'] + d)[1..] == d;
      RunHex(open, close, s.(at := s.at + 2), d);
  }

  lemma {:induction false} RunHex(open: char, close: char, s: Scan, d: string)
    requires s.Scanning? && s.inString && !s.escape && forall i | 0 <= i < |d| :: HexDigit(d[i])
    ensures Run(open, close, s, d) == s.(at := s.at + |d|)
    decreases |d|
  {
    if d != "" {
      RunHex(open, close, s.(at := s.at + 1), d[1..]);
    }
  }

  lemma {:induction false} RunLetters(open: char, close: char, s: Scan, letters: seq<Letter>)
    requires s.Scanning? && s.inString && !s.escape && ValidLetters(letters)
    ensures Run(open, close, s, Letters(letters)) == s.(at := s.at + |Letters(letters)|)
    decreases |letters|
  {
    if letters != [] {
      var first := letters[0].Spelled();
      RunConcat(open, close, s, first, Letters(letters[1..]));
      RunLetter(open, close, s, letters[0]);
      RunLetters(open, close, s.(at := s.at + |first|), letters[1..]);
    }
  }

  lemma RunQuoted(open: char, close: char, s: Scan, letters: seq<Letter>)
    requires s.Scanning? && !s.inString && !s.escape && ValidLetters(letters)
    ensures Run(open, close, s, Quoted(letters)) == s.(at := s.at + |Quoted(letters)|)
  {
    var body := Letters(letters);
    var inside := s.(at := s.at + 1, inString := true);
    assert Quoted(letters) == "\"" + (body + "\"") && Quoted(letters)[1..] == body + "\"";
    RunConcat(open, close, inside, body, "\"");
    RunLetters(open, close, inside, letters);
    assert "\""[1..] == "";
  }

  lemma NumberIsQuiet(n: Number)
    requires n.Valid()
    ensures Quiet(n.Spelled())
  {
  }

  /** Inside a block, a whole value changes nothing: the scanner comes out where the value ends, at the same depth. */
  lemma {:induction false} RunValue(open: char, close: char, s: Scan, v: Value)
    requires Brackets(open, close) && s.Scanning? && s.depth >= 1 && !s.inString && !s.escape && Valid(v)
    ensures Run(open, close, s, Serialized(v)) == s.(at := s.at + |Serialized(v)|)
    decreases v
  {
    match v
    case True => RunQuiet(open, close, s, "true");
    case False => RunQuiet(open, close, s, "false");
    case Null => RunQuiet(open, close, s, "null");
    case Numeral(n) =>
      NumberIsQuiet(n);
      RunQuiet(open, close, s, n.Spelled());
    case String(letters) => RunQuoted(open, close, s, letters);
    case EmptyArray(gap) =>
      RunQuiet(open, close, Inside(open, s, '['), gap);
      RunBlock(open, close, s, '[', gap, ']');
    case Array(items) =>
      RunItems(open, close, Inside(open, s, '['), items);
      RunBlock(open, close, s, '[', ItemsText(items), ']');
    case EmptyObject(gap) =>
      RunQuiet(open, close, Inside(open, s, '{'), gap);
      RunBlock(open, close, s, '{', gap, '}');
    case Object(members) =>
      RunMembers(open, close, Inside(open, s, '{'), members);
      RunBlock(open, close, s, '{', MembersText(members), '}');
  }

  /** The scanner after a bracket: deeper, if it is of the kind it counts. */
  function Inside(open: char, s: Scan, bracket: char): Scan
    requires s.Scanning?
  {
    s.(at := s.at + 1, depth := if bracket == open then s.depth + 1 else s.depth)
  }

  lemma RunBlock(open: char, close: char, s: Scan, left: char, body: string, right: char)
    requires Brackets(open, close) && Brackets(left, right) && s.Scanning? && s.depth >= 0 && !s.inString && !s.escape
    requires Run(open, close, Inside(open, s, left), body) == Inside(open, s, left).(at := s.at + 1 + |body|)
    ensures s.depth >= 1 ==> Run(open, close, s, [left] + body + [right]) == s.(at := s.at + |body| + 2)
    ensures s.depth == 0 && left == open ==> Run(open, close, s, [left] + body + [right]) == Closed(s.at + |body| + 2)
  {
    var text := [left] + body + [right];
    assert text == [left] + (body + [right]) && text[1..] == body + [right];
    assert Step(open, close, s, left) == Inside(open, s, left);
    RunConcat(open, close, Inside(open, s, left), body, [right]);
    assert [right][1..] == "";
  }

  /** The scanner runs through the text with nothing but its position changed. */
  predicate Passes(open: char, close: char, s: Scan, text: string) {
    s.Scanning? && Run(open, close, s, text) == s.(at := s.at + |text|)
  }

  lemma PassBoth(open: char, close: char, s: Scan, a: string, b: string)
    requires Passes(open, close, s, a) && Passes(open, close, s.(at := s.at + |a|), b)
    ensures Passes(open, close, s, a + b)
  {
    RunConcat(open, close, s, a, b);
  }

  lemma {:induction false} RunItems(open: char, close: char, s: Scan, i: Items)
    requires Brackets(open, close) && s.Scanning? && s.depth >= 1 && !s.inString && !s.escape && ValidItems(i)
    ensures Passes(open, close, s, ItemsText(i))
    decreases i
  {
    var value := Serialized(i.item);
    var t := i.lead;
    RunQuiet(open, close, s, t);
    RunValue(open, close, s.(at := s.at + |t|), i.item);
    PassBoth(open, close, s, t, value);
    t := t + value;
    RunQuiet(open, close, s.(at := s.at + |t|), i.trail);
    PassBoth(open, close, s, t, i.trail);
    t := t + i.trail;
    if i.more.NextItem? {
      RunAfterComma(open, close, s.(at := s.at + |t|));
      RunItems(open, close, s.(at := s.at + |t| + 1), i.more.items);
      PassBoth(open, close, s.(at := s.at + |t|), ",", ItemsText(i.more.items));
      PassBoth(open, close, s, t, "," + ItemsText(i.more.items));
    } else {
      assert t + "" == t;
    }
  }

  lemma RunAfterComma(open: char, close: char, s: Scan)
    requires Brackets(open, close) && s.Scanning? && !s.inString && !s.escape
    ensures Passes(open, close, s, ",")
  {
    RunQuiet(open, close, s, ",");
  }

  /** A member up to its value, and the value with what trails it. */
  lemma RunKey(open: char, close: char, s: Scan, m: Members)
    requires Brackets(open, close) && s.Scanning? && !s.inString && !s.escape && ValidMembers(m)
    ensures Passes(open, close, s, m.lead + Quoted(m.key) + (m.mid + ":" + m.colon))
  {
    var key, middle := Quoted(m.key), m.mid + ":" + m.colon;
    RunQuiet(open, close, s, m.lead);
    RunQuoted(open, close, s.(at := s.at + |m.lead|), m.key);
    PassBoth(open, close, s, m.lead, key);
    RunQuiet(open, close, s.(at := s.at + |m.lead + key|), middle);
    PassBoth(open, close, s, m.lead + key, middle);
  }

  /** A whole member: its key, its value and what trails it. */
  lemma {:induction false} RunMember(open: char, close: char, s: Scan, m: Members)
    requires Brackets(open, close) && s.Scanning? && s.depth >= 1 && !s.inString && !s.escape && ValidMembers(m)
    ensures Passes(open, close, s, m.lead + Quoted(m.key) + (m.mid + ":" + m.colon) + Serialized(m.item) + m.trail)
    decreases m, 0
  {
    var t, value := m.lead + Quoted(m.key) + (m.mid + ":" + m.colon), Serialized(m.item);
    RunKey(open, close, s, m);
    RunValue(open, close, s.(at := s.at + |t|), m.item);
    PassBoth(open, close, s, t, value);
    RunQuiet(open, close, s.(at := s.at + |t + value|), m.trail);
    PassBoth(open, close, s, t + value, m.trail);
  }

  lemma {:induction false} RunMembers(open: char, close: char, s: Scan, m: Members)
    requires Brackets(open, close) && s.Scanning? && s.depth >= 1 && !s.inString && !s.escape && ValidMembers(m)
    ensures Passes(open, close, s, MembersText(m))
    decreases m, 1
  {
    var u := m.lead + Quoted(m.key) + (m.mid + ":" + m.colon) + Serialized(m.item) + m.trail;
    RunMember(open, close, s, m);
    MembersSplit(m);
    hide Serialized, Quoted, Run;
    if m.more.NextMember? {
      var rest := MembersText(m.more.members);
      RunAfterComma(open, close, s.(at := s.at + |u|));
      RunMembers(open, close, s.(at := s.at + |u| + 1), m.more.members);
      PassBoth(open, close, s.(at := s.at + |u|), ",", rest);
      PassBoth(open, close, s, u, "," + rest);
    } else {
      assert u + "" == u;
    }
  }

  lemma MembersSplit(m: Members)
    ensures MembersText(m) == m.lead + Quoted(m.key) + (m.mid + ":" + m.colon) + Serialized(m.item) + m.trail
      + if m.more.NextMember? then "," + MembersText(m.more.members) else ""
  {
  }

  ghost predicate Container(v: Value) { v.EmptyArray? || v.Array? || v.EmptyObject? || v.Object? }

  /** At the start of an object or array, the scanner stops exactly at its end. */
  lemma RunContainer(at: nat, v: Value)
    requires Container(v) && Valid(v)
    ensures Serialized(v) != "" && (Serialized(v)[0] == '{' || Serialized(v)[0] == '[')
    ensures Run(Serialized(v)[0], Closing(Serialized(v)[0]), Scanning(at, 0, false, false), Serialized(v)) ==
      Closed(at + |Serialized(v)|)
  {
    var t := Serialized(v);
    var open, close := t[0], Closing(t[0]);
    var s := Scanning(at, 0, false, false);
    match v
    case EmptyArray(gap) =>
      RunQuiet(open, close, Inside(open, s, '['), gap);
      RunBlock(open, close, s, '[', gap, ']');
    case Array(items) =>
      RunItems(open, close, Inside(open, s, '['), items);
      RunBlock(open, close, s, '[', ItemsText(items), ']');
    case EmptyObject(gap) =>
      RunQuiet(open, close, Inside(open, s, '{'), gap);
      RunBlock(open, close, s, '{', gap, '}');
    case Object(members) =>
      RunMembers(open, close, Inside(open, s, '{'), members);
      RunBlock(open, close, s, '{', MembersText(members), '}');
  }

  const FENCE := "```"

  /** The first opening brace or bracket. */
  function FirstBracket(t: string): (r: Option<nat>)
    ensures r.Some? ==> r.value < |t|
  {
    var brace, bracket := Find(t, "{", 0), Find(t, "[", 0);
    if brace.None? then bracket
    else if bracket.None? || brace.value < bracket.value then brace
    else bracket
  }

  /** Without the language tag. */
  function Untagged(inside: string): string { if "json" <= inside then inside[4..] else inside }

  /** The inside of the first code fence, without a language tag and outer white space. */
  function Fenced(t: string): Option<string> {
    match Find(t, FENCE, 0)
    case None => None
    case Some(a) =>
      var start := a + 3;
      match Find(t, FENCE, start)
      case None => None
      case Some(b) => Some(Trim(Untagged(t[start..b])))
  }

  /** The block from the first opening bracket to where the scanner stops. */
  function Block(t: string): Option<string> {
    match FirstBracket(t)
    case None => None
    case Some(start) =>
      match BlockEnd(t, start)
      case None => None
      case Some(end) => if start <= end <= |t| then Some(t[start..end]) else None
  }

  /** What is returned: the first of these that parses, or the text as it came. */
  function Extracted(parse: string -> bool, text: string): string {
    var t := Trim(text);
    if parse(t) then t
    else if Fenced(t).Some? && parse(Fenced(t).value) then Fenced(t).value
    else if Block(t).Some? && parse(Block(t).value) then Block(t).value
    else text
  }

  lemma {:induction false} ClosedInside(open: char, close: char, s: Scan, text: string)
    requires s.Scanning?
    ensures Run(open, close, s, text).Closed? ==> s.at < Run(open, close, s, text).end <= s.at + |text|
    decreases |text|
  {
    if text != "" {
      var next := Step(open, close, s, text[0]);
      if next.Closed? {
        StaysClosed(open, close, next, text[1..]);
      } else {
        ClosedInside(open, close, next, text[1..]);
      }
    }
  }

  lemma {:induction false} StaysClosed(open: char, close: char, s: Scan, text: string)
    requires s.Closed?
    ensures Run(open, close, s, text) == s
    decreases |text|
  {
    if text != "" {
      StaysClosed(open, close, s, text[1..]);
    }
  }

  /** One text is a contiguous part of another. */
  ghost predicate Part(t: string, r: string) {
    exists i, j {:trigger t[i..j]} | 0 <= i <= j <= |t| :: t[i..j] == r
  }

  lemma PartOfPart(t: string, i: nat, j: nat, r: string)
    requires i <= j <= |t| && Part(t[i..j], r)
    ensures Part(t, r)
  {
    var inner := t[i..j];
    var k, l :| 0 <= k <= l <= |inner| && inner[k..l] == r;
    var u := t[i + k..i + l];
    forall x | 0 <= x < |r| ensures u[x] == r[x] {
      assert r[x] == inner[k + x] == t[i + k + x];
    }
    assert u == r;
  }

  lemma TrimIsPart(s: string)
    ensures Part(s, Trim(s))
  {
    var a := TrimStart(s);
    var n := |s| - |a|;
    assert Trim(s) == a[..|Trim(s)|] == s[n..n + |Trim(s)|];
  }

  lemma UntaggedIsPart(inside: string)
    ensures Part(inside, Trim(Untagged(inside)))
  {
    TrimIsPart(Untagged(inside));
    hide Trim, Part;
    if "json" <= inside {
      assert inside[4..|inside|] == inside[4..];
      PartOfPart(inside, 4, |inside|, Trim(inside[4..]));
    }
  }

  lemma FencedIsPart(t: string)
    requires Fenced(t).Some?
    ensures Part(t, Fenced(t).value)
  {
    var start := Find(t, FENCE, 0).value + 3;
    var b := Find(t, FENCE, start).value;
    assert start <= b <= |t|;
    hide Trim, Untagged, Find, Part, OccursAt;
    UntaggedIsPart(t[start..b]);
    PartOfPart(t, start, b, Trim(Untagged(t[start..b])));
  }

  /** Whatever comes in, what comes out is the input itself or a piece of it that parses. */
  lemma ResultIsInputOrParses(parse: string -> bool, text: string)
    ensures var r := Extracted(parse, text); r == text || (parse(r) && Part(Trim(text), r))
  {
    hide Trim, Fenced, Block, Part;
    var t, r := Trim(text), Extracted(parse, text);
    if parse(t) {
      WholeIsPart(t);
    } else if Fenced(t).Some? && parse(Fenced(t).value) {
      FencedIsPart(t);
    } else if Block(t).Some? && parse(Block(t).value) {
      BlockIsPart(t);
    }
  }

  lemma WholeIsPart(t: string)
    ensures Part(t, t)
  {
    assert t[0..|t|] == t;
  }

  lemma BlockIsPart(t: string)
    requires Block(t).Some?
    ensures Part(t, Block(t).value)
  {
    hide FirstBracket, BlockEnd;
    var start, end := FirstBracket(t).value, BlockEnd(t, FirstBracket(t).value).value;
    assert Block(t).value == t[start..end];
  }

  predicate NoBracket(s: string) { forall i | 0 <= i < |s| :: s[i] != '{' && s[i] != '[' }

  lemma {:induction false} TrimStartConcat(a: string, b: string)
    requires b != "" && !IsSpace(b[0])
    ensures TrimStart(a + b) == TrimStart(a) + b
  {
    if a == "" {
      assert a + b == b;
    } else if IsSpace(a[0]) {
      assert (a + b)[1..] == a[1..] + b;
      TrimStartConcat(a[1..], b);
    }
  }

  lemma {:induction false} TrimEndConcat(a: string, b: string)
    requires a != "" && !IsSpace(a[|a| - 1])
    ensures TrimEnd(a + b) == a + TrimEnd(b)
    decreases |b|
  {
    if b == "" {
      assert a + b == a;
    } else if IsSpace(b[|b| - 1]) {
      assert (a + b)[..|a + b| - 1] == a + b[..|b| - 1];
      TrimEndConcat(a, b[..|b| - 1]);
    }
  }

  lemma TrimAround(prefix: string, j: string, suffix: string)
    requires j != "" && !IsSpace(j[0]) && !IsSpace(j[|j| - 1])
    ensures Trim(prefix + j + suffix) == TrimStart(prefix) + j + TrimEnd(suffix)
  {
    hide TrimStart, TrimEnd, IsSpace;
    var p := TrimStart(prefix);
    assert prefix + j + suffix == prefix + (j + suffix);
    TrimStartConcat(prefix, j + suffix);
    assert p + (j + suffix) == (p + j) + suffix;
    TrimEndConcat(p + j, suffix);
  }

  lemma ContainerEdges(v: Value)
    requires Container(v)
    ensures var j := Serialized(v); |j| >= 2 && !IsSpace(j[0]) && !IsSpace(j[|j| - 1]) && (j[0] == '{' || j[0] == '[')
  {
  }

  lemma FirstBracketAt(p: string, rest: string)
    requires NoBracket(p) && rest != "" && (rest[0] == '{' || rest[0] == '[')
    ensures FirstBracket(p + rest) == Some(|p|)
  {
    var t := p + rest;
    var mark := [rest[0]];
    assert OccursAt(t, mark, |p|);
    forall k: nat | k < |p| ensures !OccursAt(t, "{", k) && !OccursAt(t, "[", k) {
      assert t[k..k + 1] == [p[k]];
    }
    FoundFirst(t, mark, 0, |p|);
  }

  lemma BlockAt(p: string, v: Value, q: string)
    requires Container(v) && Valid(v) && NoBracket(p)
    ensures Block(p + Serialized(v) + q) == Some(Serialized(v))
    ensures BlockEnd(p + Serialized(v) + q, |p|) == Some(|p| + |Serialized(v)|)
  {
    var j := Serialized(v);
    var t := p + j + q;
    ContainerEdges(v);
    RunContainer(|p|, v);
    hide Serialized, Valid;
    assert t == p + (j + q) && t[|p|..] == j + q && t[|p|] == j[0];
    FirstBracketAt(p, j + q);
    var start := Scanning(|p|, 0, false, false);
    RunConcat(j[0], Closing(j[0]), start, j, q);
    StaysClosed(j[0], Closing(j[0]), Closed(|p| + |j|), q);
    assert t[|p|..|p| + |j|] == j;
  }

  /**
    An object or array in prose is found exactly, whatever follows it: if no bracket comes before it,
    there is no code fence, and the whole is not JSON itself.
  */
  lemma FindsSurroundedJson(parse: string -> bool, prefix: string, v: Value, suffix: string)
    requires Container(v) && Valid(v) && parse(Serialized(v)) && NoBracket(prefix)
    requires var t := Trim(prefix + Serialized(v) + suffix); !parse(t) && Fenced(t).None?
    ensures Extracted(parse, prefix + Serialized(v) + suffix) == Serialized(v)
  {
    hide Serialized, Fenced, Block, BlockEnd, Valid, Trim, TrimStart, TrimEnd, IsSpace, NoBracket;
    ContainerEdges(v);
    TrimAround(prefix, Serialized(v), suffix);
    StillNoBracket(prefix);
    BlockAt(TrimStart(prefix), v, TrimEnd(suffix));
  }

  lemma StillNoBracket(s: string)
    requires NoBracket(s)
    ensures NoBracket(TrimStart(s))
  {
    var p, n := TrimStart(s), |s| - |TrimStart(s)|;
    assert p == s[n..];
    hide TrimStart, IsSpace, Blank;
    assert forall i | 0 <= i < |p| :: p[i] == s[n + i];
  }

  /**
    The answer for a fenced text, wherever its first two fences are: what lies between them, without the language
    tag and outer white space, if the whole is not JSON and that is.
  */
  lemma FencedAnswer(parse: string -> bool, text: string, a: nat, b: nat, inside: string)
    requires var t := Trim(text);
      && !parse(t) && OccursAt(t, FENCE, a) && (forall k: nat | k < a :: !OccursAt(t, FENCE, k))
      && a + 3 <= b && OccursAt(t, FENCE, b) && (forall k: nat | a + 3 <= k < b :: !OccursAt(t, FENCE, k))
      && t[a + 3..b] == inside
    ensures
      var candidate := Trim(if "json" <= inside then inside[4..] else inside);
      parse(candidate) ==> Extracted(parse, text) == candidate
  {
    hide Trim;
    FoundFirst(Trim(text), FENCE, 0, a);
    FoundFirst(Trim(text), FENCE, a + 3, b);
  }

  /** A fence put after this text is the first one. */
  ghost predicate Unfenced(s: string) { forall k: nat | k < |s| :: !OccursAt(s + FENCE, FENCE, k) }

  lemma UnfencedEnd(s: string, n: nat)
    requires Unfenced(s) && n <= |s|
    ensures Unfenced(s[n..])
  {
    forall k: nat | k < |s| - n ensures !OccursAt(s[n..] + FENCE, FENCE, k) {
      assert s + FENCE == s[..n] + (s[n..] + FENCE);
      assert (s + FENCE)[n + k..n + k + 3] == (s[n..] + FENCE)[k..k + 3];
      assert !OccursAt(s + FENCE, FENCE, n + k);
    }
  }

  lemma FencesAt(t: string, p: string, inside: string, q: string, a: nat, b: nat)
    requires Unfenced(p) && Unfenced(inside)
    requires t == p + (FENCE + inside + FENCE) + q && a == |p| && b == a + 3 + |inside|
    ensures a + 3 <= b && b + 3 <= |t| && t[a + 3..b] == inside && OccursAt(t, FENCE, a) && OccursAt(t, FENCE, b)
    ensures forall k: nat | k < a :: !OccursAt(t, FENCE, k)
    ensures forall k: nat | a + 3 <= k < b :: !OccursAt(t, FENCE, k)
  {
    assert t == p + FENCE + inside + FENCE + q;
    assert t[a..a + 3] == FENCE && t[b..b + 3] == FENCE;
    forall k: nat | k < a ensures !OccursAt(t, FENCE, k) {
      assert t[k..k + 3] == (p + FENCE)[k..k + 3];
      assert !OccursAt(p + FENCE, FENCE, k);
    }
    forall k: nat | a + 3 <= k < b ensures !OccursAt(t, FENCE, k) {
      var j := k - (a + 3);
      assert t[k..k + 3] == (inside + FENCE)[j..j + 3];
      assert !OccursAt(inside + FENCE, FENCE, j);
    }
  }

  lemma {:induction false} TrimStartOfBlank(s: string)
    requires Blank(s)
    ensures TrimStart(s) == ""
  {
    if s != "" {
      assert s[0] in s;
      assert forall c | c in s[1..] :: c in s;
      TrimStartOfBlank(s[1..]);
    }
  }

  lemma {:induction false} TrimEndOfBlank(s: string)
    requires Blank(s)
    ensures TrimEnd(s) == ""
  {
    if s != "" {
      assert s[|s| - 1] in s;
      assert forall c | c in s[..|s| - 1] :: c in s;
      TrimEndOfBlank(s[..|s| - 1]);
    }
  }

  lemma WithoutTag(tag: string, core: string)
    requires tag == "json" || (tag == "" && !("json" <= core))
    ensures (if "json" <= tag + core then (tag + core)[4..] else tag + core) == core
  {
  }

  lemma TrimBlankAround(lead: string, j: string, trail: string)
    requires Blank(lead) && Blank(trail) && j != "" && !IsSpace(j[0]) && !IsSpace(j[|j| - 1])
    ensures Trim(lead + j + trail) == j
  {
    TrimStartOfBlank(lead);
    TrimEndOfBlank(trail);
    TrimAround(lead, j, trail);
    hide *;
    assert "" + j + "" == j;
  }

  lemma FencedIn(parse: string -> bool, text: string, p: string, inside: string, q: string)
    requires Trim(text) == p + (FENCE + inside + FENCE) + q && !parse(Trim(text))
    requires Unfenced(p) && Unfenced(inside)
    ensures
      var candidate := Trim(if "json" <= inside then inside[4..] else inside);
      parse(candidate) ==> Extracted(parse, text) == candidate
  {
    hide *;
    var a := |p|;
    var b := a + 3 + |inside|;
    FencesAt(Trim(text), p, inside, q, a, b);
    FencedAnswer(parse, text, a, b, inside);
  }

  lemma UnfencedStart(s: string)
    requires Unfenced(s)
    ensures Unfenced(TrimStart(s))
  {
    UnfencedEnd(s, |s| - |TrimStart(s)|);
  }

  /** A JSON text in the first code fence, with or without the language tag, is found exactly, whatever is around it. */
  lemma FindsFencedJson(
    parse: string -> bool, before: string, tag: string, lead: string, j: string, trail: string, after: string)
    requires tag == "json" || (tag == "" && !("json" <= lead + j + trail))
    requires Blank(lead) && Blank(trail) && j != "" && !IsSpace(j[0]) && !IsSpace(j[|j| - 1])
    requires Unfenced(before) && Unfenced(tag + (lead + j + trail))
    requires var text := before + (FENCE + (tag + (lead + j + trail)) + FENCE) + after; !parse(Trim(text)) && parse(j)
    ensures Extracted(parse, before + (FENCE + (tag + (lead + j + trail)) + FENCE) + after) == j
  {
    hide *;
    var inside := tag + (lead + j + trail);
    var fenced := FENCE + inside + FENCE;
    FenceEdges(inside);
    TrimAround(before, fenced, after);
    UnfencedStart(before);
    FencedIn(parse, before + fenced + after, TrimStart(before), inside, TrimEnd(after));
    WithoutTag(tag, lead + j + trail);
    TrimBlankAround(lead, j, trail);
  }

  lemma FenceEdges(inside: string)
    ensures var f := FENCE + inside + FENCE; f != "" && !IsSpace(f[0]) && !IsSpace(f[|f| - 1])
  {
  }

  /** The scan loop of the source. */
  method ScanBlock(t: string, start: nat) returns (end: Option<nat>)
    requires start < |t|
    ensures end == BlockEnd(t, start)
    ensures end.Some? ==> start < end.value <= |t|
  {
    var open := t[start];
    var close := Closing(open);
    var depth := 0;
    var inString, escape := false, false;
    var i := start;
    ghost var result := Run(open, close, Scanning(start, 0, false, false), t[start..]);
    ClosedInside(open, close, Scanning(start, 0, false, false), t[start..]);
    while i < |t|
      invariant start <= i <= |t| && result == Run(open, close, Scanning(i, depth, inString, escape), t[i..])
    {
      var ch := t[i];
      assert t[i..][1..] == t[i + 1..];
      if escape {
        escape := false;
      } else if ch == '\\' {
        escape := true;
      } else if ch == '"' {
        inString := !inString;
      } else if !inString {
        if ch == open {
          depth := depth + 1;
        } else if ch == close {
          depth := depth - 1;
          if depth == 0 {
            StaysClosed(open, close, Closed(i + 1), t[i + 1..]);
            return Some(i + 1);
          }
        }
      }
      i := i + 1;
    }
    return None;
  }

  method ExtractJsonFromText(parse: string -> bool, text: string) returns (r: string)
    ensures r == Extracted(parse, text)
    ensures r == text || (parse(r) && Part(Trim(text), r))
  {
    ResultIsInputOrParses(parse, text);
    hide Trim, Fenced, FirstBracket, BlockEnd, Part;
    var t := Trim(text);
    if parse(t) {
      return t;
    }
    var fenced := Fenced(t);
    if fenced.Some? && parse(fenced.value) {
      return fenced.value;
    }
    var start := FirstBracket(t);
    if start.Some? {
      var end := ScanBlock(t, start.value);
      if end.Some? && parse(t[start.value..end.value]) {
        return t[start.value..end.value];
      }
    }
    return text;
  }
}

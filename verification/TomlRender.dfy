/**
  The provider blocks in a Codex `config.toml`: a root block before everything else and a table block
  after it, each between marker comments, replaced as a whole by every rendering.
*/
module TomlRender {
  import opened Options
  import opened Hexadecimal
  import opened Text

  datatype Effort = NoEffort | Minimal | Low | Medium | High | XHigh {
    function Name(): string {
      match this
      case NoEffort => "none"
      case Minimal => "minimal"
      case Low => "low"
      case Medium => "medium"
      case High => "high"
      case XHigh => "xhigh"
    }
  }

  const OWNER := "cli-openai-proxy " + "codex_custom " + "provider "
  const NOTICE := " -- managed, " + "do not edit >>>"
  const ROOT_BEGIN := "# >>> " + OWNER + "(root)" + NOTICE
  const ROOT_END := "# <<< " + OWNER + "(root)" + " <<<"
  const TABLE_BEGIN := "# >>> " + OWNER + "(table)" + NOTICE
  const TABLE_END := "# <<< " + OWNER + "(table)" + " <<<"

  const PROVIDER := "custom_gateway"
  const TITLE := "Custom gateway " + "(provisioned via " + "/v1/auth)"
  const KEY_VARIABLE := "CODEX_CUSTOM_API_KEY"

  ghost predicate Contains(s: string, m: string) {
    exists i: nat :: OccursAt(s, m, i)
  }

  /** The text without a newline at its start. */
  function Skip(after: string): (r: string)
    ensures |r| <= |after|
  {
    if after != "" && after[0] == '\n' then after[1..] else after
  }

  /** Every block from a begin marker to the next end marker goes, with a newline right after it. */
  function RemoveBlocks(s: string, begin: string, end: string): string
    requires begin != ""
    decreases |s|
  {
    match Find(s, begin, 0)
    case None => s
    case Some(i) =>
      match Find(s, end, i + |begin|)
      case None => s
      case Some(j) =>
        s[..i] + RemoveBlocks(Skip(s[j + |end|..]), begin, end)
  }

  function DropLeading(s: string): string {
    if s != "" && s[0] == '\n' then DropLeading(s[1..]) else s
  }

  function DropTrailing(s: string): string {
    if s != "" && s[|s| - 1] == '\n' then DropTrailing(s[..|s| - 1]) else s
  }

  function Strip(s: string): string { DropTrailing(DropLeading(s)) }

  /** One character of a TOML basic string. */
  function Escape(c: char): string {
    if c == '\\' then "\\\\"
    else if c == '"' then "\\\""
    else if c == '\U{8}' then "\\b"
    else if c == '\t' then "\\t"
    else if c == '\n' then "\\n"
    else if c == '\U{C}' then "\\f"
    else if c == '\r' then "\\r"
    else if c < ' ' || c == '\U{7F}' then "\\u" + Hex(c as nat, 4)
    else [c]
  }

  function Escaped(s: string): string {
    if s == "" then "" else Escape(s[0]) + Escaped(s[1..])
  }

  function TomlString(s: string): string { "\"" + Escaped(s) + "\"" }

  function RootLines(provider: string, effort: string): string {
    "\nmodel_provider = " + provider + "\nmodel_reasoning_" + "effort = " + effort + "\n"
  }

  function HeadLines(title: string): string {
    "\n[model_providers." + PROVIDER + "]\nname = " + title + "\nbase_url = \""
  }

  function TailLines(variable: string, api: string): string {
    "\"\nenv_key = " + variable + "\nwire_api = " + api + "\n"
  }

  function RootBody(e: Effort): string { RootLines(TomlString(PROVIDER), TomlString(e.Name())) }

  /** The table block up to the address, and after it. */
  function TableHead(): string { HeadLines(TomlString(TITLE)) }

  function TableTail(): string { TailLines(TomlString(KEY_VARIABLE), TomlString("responses")) }

  function TableBody(url: string): string { TableHead() + Escaped(url) + TableTail() }

  /** What is kept of an existing file. */
  function Preserved(existing: string): string {
    Strip(RemoveBlocks(RemoveBlocks(existing, ROOT_BEGIN, ROOT_END), TABLE_BEGIN, TABLE_END))
  }

  function RootBlock(e: Effort): string { ROOT_BEGIN + RootBody(e) + ROOT_END }

  function TableBlock(url: string): string { TABLE_BEGIN + TableBody(url) + TABLE_END }

  function Assembled(preserved: string, url: string, e: Effort): string {
    RootBlock(e) + "\n\n" + (if preserved == "" then "" else preserved + "\n\n") + TableBlock(url) + "\n"
  }

  function Render(existing: string, url: string, e: Effort): string {
    Assembled(Preserved(existing), url, e)
  }

  /** The value of a hexadecimal digit of either case. */
  function HexValue(c: char): Option<nat> {
    if '0' <= c <= '9' || 'a' <= c <= 'f' then Some(DigitValue(c))
    else if 'A' <= c <= 'F' then Some(c as nat - 'A' as nat + 10)
    else None
  }

  /** The rest of a TOML basic string after its opening quote, up to a closing quote at the very end. */
  function DecodeBody(t: string): Option<string> {
    if t == "" then None
    else if t[0] == '"' then (if |t| == 1 then Some("") else None)
    else if t[0] == '\\' then DecodeEscape(t)
    else if (t[0] < ' ' && t[0] != '\t') || t[0] == '\U{7F}' then None
    else Prepend(t[0], DecodeBody(t[1..]))
  }

  function Prepend(c: char, rest: Option<string>): Option<string> {
    if rest.Some? then Some([c] + rest.value) else None
  }

  /** The escapes of TOML v1.0.0, section "String". */
  function DecodeEscape(t: string): Option<string>
    requires t != ""
    decreases t, 1
  {
    if |t| < 2 then None
    else match t[1]
      case '\\' => Prepend('\\', DecodeBody(t[2..]))
      case '"' => Prepend('"', DecodeBody(t[2..]))
      case 'b' => Prepend('\U{8}', DecodeBody(t[2..]))
      case 't' => Prepend('\t', DecodeBody(t[2..]))
      case 'n' => Prepend('\n', DecodeBody(t[2..]))
      case 'f' => Prepend('\U{C}', DecodeBody(t[2..]))
      case 'r' => Prepend('\r', DecodeBody(t[2..]))
      case 'u' => DecodeUnicode(t, 4)
      case 'U' => DecodeUnicode(t, 8)
      case _ => None
  }

  function DecodeUnicode(t: string, width: nat): Option<string>
    decreases t, 0
  {
    if |t| < 2 + width || exists k | 2 <= k < 2 + width :: HexValue(t[k]).None? then None
    else
      var code := CodePoint(t[2..2 + width]);
      if code < 0xD800 || 0xE000 <= code < 0x11_0000 then Prepend(code as char, DecodeBody(t[2 + width..])) else None
  }

  function CodePoint(s: string): nat {
    if s == "" then 0 else
      var last := HexValue(s[|s| - 1]);
      16 * CodePoint(s[..|s| - 1]) + (if last.Some? then last.value else 0)
  }

  function Decode(t: string): Option<string> {
    if t == "" || t[0] != '"' then None else DecodeBody(t[1..])
  }

  lemma HexDigitsRead(s: string)
    requires forall k | 0 <= k < |s| :: '0' <= s[k] <= '9' || 'a' <= s[k] <= 'f'
    ensures CodePoint(s) == ParseHex(s) && forall k | 0 <= k < |s| :: HexValue(s[k]).Some?
  {
    if s != "" {
      HexDigitsRead(s[..|s| - 1]);
    }
  }

  lemma {:induction false} HexIsDigits(n: nat, width: nat)
    ensures forall k | 0 <= k < width :: '0' <= Hex(n, width)[k] <= '9' || 'a' <= Hex(n, width)[k] <= 'f'
  {
    if width > 0 {
      HexIsDigits(n / 16, width - 1);
    }
  }

  /** Decoding one escaped character gives it back, whatever follows. */
  lemma DecodeOne(c: char, rest: string)
    ensures DecodeBody(Escape(c) + rest) == Prepend(c, DecodeBody(rest))
  {
    var t := Escape(c) + rest;
    if c == '\\' || c == '"' || c == '\U{8}' || c == '\t' || c == '\n' || c == '\U{C}' || c == '\r' {
      assert t[2..] == rest;
    } else if c < ' ' || c == '\U{7F}' {
      DecodeControl(c, rest);
    } else {
      assert t[1..] == rest;
    }
  }

  lemma DecodeControl(c: char, rest: string)
    requires c < '\U{80}'
    ensures DecodeUnicode("\\u" + Hex(c as nat, 4) + rest, 4) == Prepend(c, DecodeBody(rest))
  {
    var h := Hex(c as nat, 4);
    var t := "\\u" + h + rest;
    assert Pow16(4) == 65536;
    HexIsDigits(c as nat, 4);
    HexDigitsRead(h);
    ParseOfHex(c as nat, 4);
    assert t[2..6] == h && t[6..] == rest;
    assert forall k | 2 <= k < 6 :: t[k] == h[k - 2];
  }

  lemma {:induction false} DecodeEscapedBody(s: string)
    ensures DecodeBody(Escaped(s) + "\"") == Some(s)
  {
    if s == "" {
      assert Escaped(s) + "\"" == "\"";
    } else {
      var rest := Escaped(s[1..]) + "\"";
      DecodeEscapedBody(s[1..]);
      DecodeOne(s[0], rest);
      assert Escaped(s) + "\"" == Escape(s[0]) + rest;
      assert [s[0]] + s[1..] == s;
    }
  }

  /** Read back as a TOML basic string, a rendered value is the value. */
  lemma StringsRoundTrip(s: string)
    ensures Decode(TomlString(s)) == Some(s)
  {
    DecodeEscapedBody(s);
    assert TomlString(s)[1..] == Escaped(s) + "\"";
  }

  /** Text no escape touches, without a `#`. */
  ghost predicate Plain(s: string) {
    forall i | 0 <= i < |s| :: ' ' <= s[i] < '\U{7F}' && s[i] != '"' && s[i] != '\\' && s[i] != '#'
  }

  ghost predicate NoHash(s: string) { forall i | 0 <= i < |s| :: s[i] != '#' }

  /** What all four markers have in common: one `#`, at the front, and nothing that an escape touches. */
  ghost predicate Marker(m: string) { |m| > 1 && m[0] == '#' && Plain(m[1..]) }

  /** Such text is written as it is. */
  lemma {:induction false} PlainIsItself(s: string)
    requires Plain(s)
    ensures Escaped(s) == s
  {
    if s != "" {
      assert forall i | 0 <= i < |s[1..]| :: s[1..][i] == s[i + 1];
      PlainIsItself(s[1..]);
      assert [s[0]] + s[1..] == s;
    }
  }

  lemma PlainValue(s: string)
    requires Plain(s)
    ensures TomlString(s) == "\"" + s + "\""
  {
    PlainIsItself(s);
    hide Escaped;
  }

  lemma ValuesArePlain(e: Effort)
    ensures Plain(PROVIDER) && Plain(KEY_VARIABLE) && Plain("responses") && Plain(e.Name())
  {
  }

  lemma TitleIsPlain()
    ensures Plain(TITLE)
  {
    assert Plain("Custom gateway ");
    assert Plain("(provisioned via ");
    assert Plain("/v1/auth)");
  }

  /** What the root block says: the provider, and one of six efforts. */
  lemma RootSays(e: Effort)
    ensures
      var provider, effort := "\"" + "custom_gateway" + "\"", "\"" + e.Name() + "\"";
      RootBlock(e) == ROOT_BEGIN
        + ("\nmodel_provider = " + provider + "\nmodel_reasoning_" + "effort = " + effort + "\n") + ROOT_END
    ensures e.Name() in {"none", "minimal", "low", "medium", "high", "xhigh"}
  {
    ValuesArePlain(e);
    hide TomlString, Plain;
    PlainValue(PROVIDER);
    PlainValue(e.Name());
  }

  /** What the table block says: the address as a TOML string, the variable the key is in, and the protocol. */
  lemma TableSays(url: string)
    ensures
      var title := "\"" + ("Custom gateway " + "(provisioned via " + "/v1/auth)") + "\"";
      var variable, api := "\"" + "CODEX_CUSTOM_API_KEY" + "\"", "\"" + "responses" + "\"";
      TableBlock(url) == TABLE_BEGIN
        + (("\n[model_providers." + "custom_gateway" + "]\nname = " + title + "\nbase_url = \"") + Escaped(url)
           + ("\"\nenv_key = " + variable + "\nwire_api = " + api + "\n"))
        + TABLE_END
  {
    ValuesArePlain(NoEffort);
    TitleIsPlain();
    hide TomlString, Escaped, Plain;
    PlainValue(TITLE);
    PlainValue(KEY_VARIABLE);
    PlainValue("responses");
  }

  lemma OwnerIsPlain()
    ensures Plain(OWNER) && |OWNER| == 39
  {
    assert Plain("cli-openai-proxy ");
    assert Plain("codex_custom ");
    assert Plain("provider ");
  }

  lemma NoticeIsPlain()
    ensures Plain(NOTICE)
  {
    assert Plain(" -- managed, ");
    assert Plain("do not edit >>>");
  }

  lemma MakesMarker(a: string, b: string, c: string)
    requires Plain(a) && Plain(b) && Plain(c)
    ensures Marker("# >>> " + a + b + c) && Marker("# <<< " + a + b + c)
  {
    assert Plain(" >>> ") && Plain(" <<< ");
    assert ("# >>> " + a + b + c)[1..] == " >>> " + a + b + c;
    assert ("# <<< " + a + b + c)[1..] == " <<< " + a + b + c;
  }

  lemma Markers()
    ensures Marker(ROOT_BEGIN) && Marker(ROOT_END) && Marker(TABLE_BEGIN) && Marker(TABLE_END)
  {
    OwnerIsPlain();
    NoticeIsPlain();
    MakesMarker(OWNER, "(root)", NOTICE);
    MakesMarker(OWNER, "(table)", NOTICE);
    MakesMarker(OWNER, "(root)", " <<<");
    MakesMarker(OWNER, "(table)", " <<<");
  }

  /** No marker begins another. */
  lemma MarkersDiffer()
    ensures !OccursAt(TABLE_BEGIN, ROOT_BEGIN, 0) && !OccursAt(TABLE_END, ROOT_BEGIN, 0)
    ensures !OccursAt(TABLE_END, TABLE_BEGIN, 0) && !OccursAt(TABLE_END, ROOT_END, 0)
    ensures !OccursAt(ROOT_BEGIN, TABLE_BEGIN, 0)
    ensures !OccursAt(ROOT_END, TABLE_BEGIN, 0) && !OccursAt(ROOT_END, ROOT_BEGIN, 0)
  {
    OwnerIsPlain();
    var k := 6 + |OWNER| + 1;
    assert ROOT_BEGIN[k] == 'r' && TABLE_BEGIN[k] == 't';
    assert ROOT_END[k] == 'r' && TABLE_END[k] == 't';
    assert ROOT_BEGIN[2] == TABLE_BEGIN[2] == '>' && ROOT_END[2] == TABLE_END[2] == '<';
  }

  lemma {:induction false} EscapedPlain(s: string)
    requires Plain(s)
    ensures Escaped(s) == s
  {
    if s != "" {
      EscapedPlain(s[1..]);
      assert s == [s[0]] + s[1..];
    }
  }

  lemma QuotedHasNoHash(s: string)
    requires Plain(s)
    ensures NoHash(TomlString(s))
  {
    EscapedPlain(s);
  }

  lemma LinesHaveNoHash(a: string, b: string)
    requires NoHash(a) && NoHash(b)
    ensures NoHash(RootLines(a, b)) && NoHash(HeadLines(a)) && NoHash(TailLines(a, b))
  {
    assert NoHash("\nmodel_provider = ") && NoHash("\nmodel_reasoning_") && NoHash("effort = ");
    assert NoHash("\n[model_providers.") && NoHash(PROVIDER) && NoHash("]\nname = ") && NoHash("\nbase_url = \"");
    assert NoHash("\"\nenv_key = ") && NoHash("\nwire_api = ");
  }

  lemma BodiesHaveNoHash(e: Effort)
    ensures NoHash(RootBody(e)) && NoHash(TableHead()) && NoHash(TableTail())
  {
    PlainTexts();
    QuotedHasNoHash(PROVIDER);
    QuotedHasNoHash(e.Name());
    QuotedHasNoHash(TITLE);
    QuotedHasNoHash(KEY_VARIABLE);
    QuotedHasNoHash("responses");
    hide RootLines, HeadLines, TailLines, TomlString, Escaped;
    LinesHaveNoHash(TomlString(PROVIDER), TomlString(e.Name()));
    LinesHaveNoHash(TomlString(TITLE), "");
    LinesHaveNoHash(TomlString(KEY_VARIABLE), TomlString("responses"));
  }

  lemma PlainTexts()
    ensures Plain(PROVIDER) && Plain(TITLE) && Plain(KEY_VARIABLE)
    ensures Plain("responses") && forall e: Effort :: Plain(e.Name())
  {
    PlainTitle();
    PlainNames();
    PlainEfforts();
  }

  lemma PlainTitle()
    ensures Plain(TITLE)
  {
    assert Plain("Custom gateway ");
    assert Plain("(provisioned via ");
    assert Plain("/v1/auth)");
  }

  lemma PlainNames()
    ensures Plain(PROVIDER) && Plain(KEY_VARIABLE) && Plain("responses")
  {
  }

  lemma PlainEfforts()
    ensures forall e: Effort :: Plain(e.Name())
  {
  }

  lemma HashAt(s: string, m: string, i: nat)
    requires Marker(m) && OccursAt(s, m, i)
    ensures s[i] == '#'
  {
    assert s[i..i + |m|][0] == s[i];
  }

  lemma NotHere(s: string, m: string, i: nat)
    requires Marker(m) && i < |s| && s[i] != '#'
    ensures !OccursAt(s, m, i)
  {
    if i + |m| <= |s| {
      assert s[i..i + |m|][0] == s[i];
    }
  }

  /** A marker never runs over a newline or a quote. */
  lemma AcrossBreak(a: string, c: char, b: string, m: string, i: nat)
    requires Marker(m) && (c == '\n' || c == '"')
    ensures OccursAt(a + [c] + b, m, i) <==> OccursAt(a, m, i) || (i > |a| && OccursAt(b, m, i - |a| - 1))
  {
    var s := a + [c] + b;
    if i + |m| <= |a| {
      assert s[i..i + |m|] == a[i..i + |m|];
    } else if i > |a| {
      if i + |m| <= |s| {
        assert s[i..i + |m|] == b[i - |a| - 1..i - |a| - 1 + |m|];
      }
    } else if i + |m| <= |s| {
      assert s[i..i + |m|][|a| - i] == c;
      assert i < |a| ==> m[|a| - i] == m[1..][|a| - i - 1];
    }
  }

  lemma Shift(a: string, b: string, m: string, i: nat)
    requires i >= |a|
    ensures OccursAt(a + b, m, i) <==> OccursAt(b, m, i - |a|)
  {
    if i + |m| <= |a + b| {
      assert (a + b)[i..i + |m|] == b[i - |a|..i - |a| + |m|];
    }
  }

  /** Where nothing has a `#` no marker starts. */
  lemma SkipsNoHash(a: string, b: string, m: string, i: nat)
    requires Marker(m) && NoHash(a) && OccursAt(a + b, m, i)
    ensures i >= |a| && OccursAt(b, m, i - |a|)
  {
    HashAt(a + b, m, i);
    Shift(a, b, m, i);
  }

  lemma OnlyAtFront(marker: string, m: string, i: nat)
    requires Marker(marker) && Marker(m) && OccursAt(marker, m, i)
    ensures i == 0
  {
    assert forall k | 0 < k < |marker| :: marker[k] == marker[1..][k - 1];
    HashAt(marker, m, i);
  }

  lemma InFrame(begin: string, head: string, address: string, tail: string, end: string, m: string, i: nat)
    requires Marker(begin) && Marker(end) && Marker(m) && NoHash(head) && NoHash(tail)
    requires OccursAt(begin + "\n" + (head + address) + "\"" + (tail + end), m, i)
    ensures
      || (i == 0 && OccursAt(begin, m, 0))
      || (i == |begin| + |head| + |address| + |tail| + 2 && OccursAt(end, m, 0))
      || (i >= |begin| + |head| + 1 && OccursAt(address, m, i - |begin| - |head| - 1))
  {
    var left := begin + "\n" + (head + address);
    AcrossBreak(left, '"', tail + end, m, i);
    if OccursAt(left, m, i) {
      AcrossBreak(begin, '\n', head + address, m, i);
      if OccursAt(begin, m, i) {
        OnlyAtFront(begin, m, i);
      } else {
        SkipsNoHash(head, address, m, i - |begin| - 1);
      }
    } else {
      SkipsNoHash(tail, end, m, i - |left| - 1);
      OnlyAtFront(end, m, i - |left| - 1 - |tail|);
    }
  }

  lemma FrameJoins(begin: string, head: string, address: string, tail: string, end: string)
    ensures begin + (("\n" + head) + address + ("\"" + tail)) + end ==
      begin + "\n" + (head + address) + "\"" + (tail + end)
  {
  }

  /** A marker in the table block is at its front, at the front of its last line, or in the address. */
  lemma InTable(url: string, m: string, i: nat)
    requires Marker(m) && OccursAt(TableBlock(url), m, i)
    ensures
      || (i == 0 && OccursAt(TABLE_BEGIN, m, 0))
      || (i == |TABLE_BEGIN| + |TableBody(url)| && OccursAt(TABLE_END, m, 0))
      || (i >= |TABLE_BEGIN| + |TableHead()| && OccursAt(Escaped(url), m, i - |TABLE_BEGIN| - |TableHead()|))
  {
    hide Escaped, TomlString, TableHead, TableTail, Marker, OccursAt, NoHash;
    Markers();
    TableEdges();
    var head, tail, address := TableHead()[1..], TableTail()[1..], Escaped(url);
    FrameJoins(TABLE_BEGIN, head, address, tail, TABLE_END);
    InFrame(TABLE_BEGIN, head, address, tail, TABLE_END, m, i);
  }

  lemma TableEdges()
    ensures TableHead() == "\n" + TableHead()[1..] && TableTail() == "\"" + TableTail()[1..]
    ensures NoHash(TableHead()[1..]) && NoHash(TableTail()[1..])
  {
    BodiesHaveNoHash(NoEffort);
    hide TomlString;
    assert TableHead()[0] == '\n' && TableTail()[0] == '"';
  }

  /** What plain text an escaped string begins with, the string begins with. */
  lemma {:induction false} PlainPrefix(s: string, q: string)
    requires Plain(q) && q <= Escaped(s)
    ensures q <= s
  {
    if q != "" {
      assert s != "" && Escaped(s) == Escape(s[0]) + Escaped(s[1..]);
      assert q[0] == Escape(s[0])[0] == s[0] && Escaped(s)[1..] == Escaped(s[1..]);
      PlainPrefix(s[1..], q[1..]);
      assert q == [q[0]] + q[1..] && s == [s[0]] + s[1..];
    }
  }

  lemma EscapeHasHash(c: char, k: nat)
    requires k < |Escape(c)| && Escape(c)[k] == '#'
    ensures c == '#' && Escape(c) == "#"
  {
    if c < ' ' || c == '\U{7F}' {
      HexIsDigits(c as nat, 4);
    }
  }

  /** Escaping makes no marker that was not there. */
  lemma {:induction false} EscapedHasMarker(s: string, m: string, i: nat)
    requires Marker(m) && OccursAt(Escaped(s), m, i)
    ensures Contains(s, m)
  {
    assert s != "";
    var e, rest := Escape(s[0]), Escaped(s[1..]);
    if i < |e| {
      HashAt(Escaped(s), m, i);
      EscapeHasHash(s[0], i);
      assert m[1..] == Escaped(s)[1..][..|m| - 1] && Escaped(s)[1..] == rest;
      PlainPrefix(s[1..], m[1..]);
      assert m == [m[0]] + m[1..] && s == [s[0]] + s[1..];
      assert OccursAt(s, m, 0);
    } else {
      Shift(e, rest, m, i);
      EscapedHasMarker(s[1..], m, i - |e|);
      var k: nat :| OccursAt(s[1..], m, k);
      Shift([s[0]], s[1..], m, k + 1);
      assert s == [s[0]] + s[1..] && OccursAt(s, m, k + 1);
    }
  }

  /** Nor does it break one. */
  lemma {:induction false} EscapedKeepsMarker(s: string, m: string, i: nat)
    requires Marker(m) && OccursAt(s, m, i)
    ensures Contains(Escaped(s), m)
  {
    if i == 0 {
      PlainStart(s[1..], m[1..]);
      assert m == [m[0]] + m[1..] && s == [s[0]] + s[1..];
      assert s[1..][..|m| - 1] == m[1..];
      assert OccursAt(Escaped(s), m, 0);
    } else {
      assert s == [s[0]] + s[1..];
      Shift([s[0]], s[1..], m, i);
      EscapedKeepsMarker(s[1..], m, i - 1);
      var k: nat :| OccursAt(Escaped(s[1..]), m, k);
      Shift(Escape(s[0]), Escaped(s[1..]), m, k + |Escape(s[0])|);
    }
  }

  lemma {:induction false} PlainStart(s: string, q: string)
    requires Plain(q) && q <= s
    ensures q <= Escaped(s)
  {
    if q != "" {
      assert s[1..][..|q| - 1] == q[1..];
      PlainStart(s[1..], q[1..]);
      assert Escaped(s) == [q[0]] + Escaped(s[1..]);
      assert q == [q[0]] + q[1..];
    }
  }

  lemma EscapedContains(s: string, m: string)
    requires Marker(m)
    ensures Contains(Escaped(s), m) <==> Contains(s, m)
  {
    if i: nat :| OccursAt(Escaped(s), m, i) {
      EscapedHasMarker(s, m, i);
    }
    if i: nat :| OccursAt(s, m, i) {
      EscapedKeepsMarker(s, m, i);
    }
  }

  lemma NothingToRemove(s: string, begin: string, end: string)
    requires begin != "" && !Contains(s, begin)
    ensures RemoveBlocks(s, begin, end) == s
  {
  }

  lemma Positions(pre: string, begin: string, body: string, end: string, rest: string)
    ensures OccursAt(pre + begin + body + end + rest, begin, |pre|)
    ensures OccursAt(pre + begin + body + end + rest, end, |pre| + |begin| + |body|)
    ensures (pre + begin + body + end + rest)[..|pre|] == pre
    ensures (pre + begin + body + end + rest)[|pre| + |begin| + |body| + |end|..] == rest
  {
  }

  /** Unrolled once: what the first begin marker and the first end marker after it cut out. */
  lemma RemovalStep(s: string, begin: string, end: string, i: nat, j: nat)
    requires begin != "" && i + |begin| <= j && j + |end| <= |s|
    requires Find(s, begin, 0) == Some(i) && Find(s, end, i + |begin|) == Some(j)
    ensures RemoveBlocks(s, begin, end) == s[..i] + RemoveBlocks(Skip(s[j + |end|..]), begin, end)
  {
    hide Find, Skip;
  }

  /** The first block goes, with its newline; what follows is searched on. */
  lemma FirstBlockGoes(pre: string, begin: string, body: string, end: string, post: string)
    requires begin != "" && end != ""
    requires forall k: nat | k < |pre| :: !OccursAt(pre + begin + body + end + "\n" + post, begin, k)
    requires forall k: nat | |pre| + |begin| <= k < |pre| + |begin| + |body| ::
      !OccursAt(pre + begin + body + end + "\n" + post, end, k)
    ensures RemoveBlocks(pre + begin + body + end + "\n" + post, begin, end) == pre + RemoveBlocks(post, begin, end)
  {
    var s, rest := pre + begin + body + end + "\n" + post, "\n" + post;
    assert s == pre + begin + body + end + rest && rest[1..] == post && Skip(rest) == post;
    hide OccursAt, Find, RemoveBlocks, Skip;
    var j := |pre| + |begin| + |body|;
    Positions(pre, begin, body, end, rest);
    FoundFirst(s, begin, 0, |pre|);
    FoundFirst(s, end, |pre| + |begin|, j);
    RemovalStep(s, begin, end, |pre|, j);
    var after := s[j + |end|..];
    assert after == rest && RemoveBlocks(Skip(after), begin, end) == RemoveBlocks(post, begin, end);
  }

  /** What stands below the root block of a rendered file. */
  function Bottom(preserved: string, url: string): string {
    Lead(preserved) + TableBlock(url) + "\n"
  }

  function Lead(preserved: string): string {
    "\n" + if preserved == "" then "" else preserved + "\n\n"
  }

  lemma LinesJoin(root: string, p: string, table: string)
    ensures root + "\n\n" + (if p == "" then "" else p + "\n\n") + table + "\n" ==
      root + "\n" + (Lead(p) + table + "\n")
  {
    assert "\n\n" == "\n" + "\n";
  }

  lemma AssembledSplits(p: string, url: string, e: Effort)
    ensures Assembled(p, url, e) == "" + ROOT_BEGIN + RootBody(e) + ROOT_END + "\n" + Bottom(p, url)
  {
    hide RootBody, TableBlock, Lead;
    LinesJoin(RootBlock(e), p, TableBlock(url));
    assert "" + ROOT_BEGIN == ROOT_BEGIN;
  }

  lemma FrontBlockGoes(begin: string, body: string, end: string, post: string)
    requires Marker(begin) && Marker(end) && NoHash(body)
    ensures RemoveBlocks("" + begin + body + end + "\n" + post, begin, end) == RemoveBlocks(post, begin, end)
  {
    var s := "" + begin + body + end + "\n" + post;
    forall k: nat | |begin| <= k < |begin| + |body| ensures !OccursAt(s, end, k) {
      assert s[k] == body[k - |begin|];
      NotHere(s, end, k);
    }
    FirstBlockGoes("", begin, body, end, post);
    assert "" + RemoveBlocks(post, begin, end) == RemoveBlocks(post, begin, end);
  }

  lemma RootBlockGoes(p: string, url: string, e: Effort)
    ensures RemoveBlocks(Assembled(p, url, e), ROOT_BEGIN, ROOT_END) ==
      RemoveBlocks(Bottom(p, url), ROOT_BEGIN, ROOT_END)
  {
    Markers();
    BodiesHaveNoHash(e);
    AssembledSplits(p, url, e);
    hide *;
    FrontBlockGoes(ROOT_BEGIN, RootBody(e), ROOT_END, Bottom(p, url));
  }

  /** In the kept text before the table block a marker can only be in what was kept. */
  lemma InLead(p: string, rest: string, m: string, i: nat)
    requires Marker(m) && OccursAt(Lead(p) + rest, m, i)
    ensures (i < |Lead(p)| && Contains(p, m)) || (i >= |Lead(p)| && OccursAt(rest, m, i - |Lead(p)|))
  {
    LeadParts(p, rest);
    var below := "" + "\n" + rest;
    var inner := if p == "" then rest else p + "\n" + below;
    hide Marker, OccursAt, Lead;
    AcrossBreak("", '\n', inner, m, i);
    NotInNothing(m, i);
    if p != "" {
      AcrossBreak(p, '\n', below, m, i - 1);
      if !OccursAt(p, m, i - 1) {
        AcrossBreak("", '\n', rest, m, i - 1 - |p| - 1);
        NotInNothing(m, i - 1 - |p| - 1);
      } else {
        Bounded(p, m, i - 1);
      }
    }
  }

  lemma LeadParts(p: string, rest: string)
    ensures Lead(p) + rest == "" + "\n" + if p == "" then rest else p + "\n" + ("" + "\n" + rest)
    ensures |Lead(p)| == if p == "" then 1 else |p| + 3
  {
    assert "\n\n" == "\n" + "\n";
  }

  lemma Bounded(s: string, m: string, i: nat)
    requires Marker(m) && OccursAt(s, m, i)
    ensures i < |s|
  {
  }

  lemma NotInNothing(m: string, i: nat)
    requires Marker(m)
    ensures !OccursAt("", m, i)
  {
  }

  /** Below the root block there is no other one, unless the kept text or the address begins one. */
  lemma BottomHasNoRoot(p: string, url: string)
    requires !Contains(p, ROOT_BEGIN) && !Contains(Escaped(url), ROOT_BEGIN)
    ensures !Contains(Bottom(p, url), ROOT_BEGIN)
  {
    Markers();
    MarkersDiffer();
    hide TableBlock, Lead, Escaped, TableHead, TableBody;
    if i: nat :| OccursAt(Bottom(p, url), ROOT_BEGIN, i) {
      InBottom(p, url, ROOT_BEGIN, i);
      InTable(url, ROOT_BEGIN, i - |Lead(p)|);
      assert false;
    }
  }

  lemma InBottom(p: string, url: string, m: string, i: nat)
    requires Marker(m) && OccursAt(Bottom(p, url), m, i)
    ensures (i < |Lead(p)| && Contains(p, m)) || (i >= |Lead(p)| && OccursAt(TableBlock(url), m, i - |Lead(p)|))
  {
    hide TableBlock, Lead;
    assert Bottom(p, url) == Lead(p) + (TableBlock(url) + "\n" + "");
    InLead(p, TableBlock(url) + "\n" + "", m, i);
    if i >= |Lead(p)| {
      AcrossBreak(TableBlock(url), '\n', "", m, i - |Lead(p)|);
    }
  }

  lemma {:induction false} LeadingGone(s: string)
    ensures |DropLeading(s)| <= |s| && DropLeading(s) == s[|s| - |DropLeading(s)|..]
    ensures DropLeading(s) != "" ==> DropLeading(s)[0] != '\n'
  {
    if s != "" && s[0] == '\n' {
      LeadingGone(s[1..]);
    }
  }

  lemma {:induction false} TrailingGone(s: string)
    ensures DropTrailing(s) <= s && (DropTrailing(s) != "" ==> DropTrailing(s)[|DropTrailing(s)| - 1] != '\n')
  {
    if s != "" && s[|s| - 1] == '\n' {
      TrailingGone(s[..|s| - 1]);
    }
  }

  /** Stripping is idempotent, and undoes what the blocks put around the kept text. */
  lemma StripOfLead(s: string)
    ensures Strip(Lead(Strip(s))) == Strip(s)
  {
    var p := Strip(s);
    LeadingGone(s);
    TrailingGone(DropLeading(s));
    if p == "" {
      assert DropLeading("\n") == "";
    } else {
      var l := "\n" + p + "\n\n";
      assert l[1..] == p + "\n\n" && l[1..][0] != '\n';
      assert DropLeading(l) == p + "\n\n";
      var two, one := p + "\n\n", p + "\n";
      assert two[..|two| - 1] == one && one[..|one| - 1] == p;
      assert DropTrailing(two) == DropTrailing(one) == DropTrailing(p) == p;
    }
  }

  lemma PartContains(s: string, m: string, from: nat, to: nat)
    requires from <= to <= |s| && Contains(s[from..to], m)
    ensures Contains(s, m)
  {
    var t := s[from..to];
    var i: nat :| OccursAt(t, m, i);
    var n := from + i;
    forall k | 0 <= k < |m| ensures s[n + k] == m[k] {
      assert t[i..i + |m|][k] == t[i + k];
    }
    assert s[n..n + |m|] == m;
    assert OccursAt(s, m, n);
  }

  lemma StripIsPart(x: string) returns (n: nat)
    ensures n + |Strip(x)| <= |x| && Strip(x) == x[n..n + |Strip(x)|]
  {
    LeadingGone(x);
    TrailingGone(DropLeading(x));
    var d := DropLeading(x);
    n := |x| - |d|;
    assert Strip(x) == d[..|Strip(x)|] == x[n..n + |Strip(x)|];
  }

  /** Foreign content is kept as it is, up to newlines around it, between the two blocks. */
  lemma ForeignContentIsKept(x: string, url: string, e: Effort)
    requires !Contains(x, ROOT_BEGIN) && !Contains(x, TABLE_BEGIN)
    ensures Preserved(x) == Strip(x) && !Contains(Strip(x), ROOT_BEGIN) && !Contains(Strip(x), TABLE_BEGIN)
    ensures Strip(x) != "" ==> Render(x, url, e) == RootBlock(e) + "\n\n" + Strip(x) + "\n\n" + TableBlock(url) + "\n"
    ensures Strip(x) == "" ==> Render(x, url, e) == RootBlock(e) + "\n\n" + TableBlock(url) + "\n"
  {
    var n := StripIsPart(x);
    hide Strip, RemoveBlocks, TableBlock, RootBlock;
    Markers();
    NothingToRemove(x, ROOT_BEGIN, ROOT_END);
    NothingToRemove(x, TABLE_BEGIN, TABLE_END);
    var p := Strip(x);
    if Contains(p, ROOT_BEGIN) {
      PartContains(x, ROOT_BEGIN, n, n + |p|);
    }
    if Contains(p, TABLE_BEGIN) {
      PartContains(x, TABLE_BEGIN, n, n + |p|);
    }
    JoinRight(RootBlock(e) + "\n\n", p, "\n\n", TableBlock(url) + "\n");
    assert RootBlock(e) + "\n\n" + "" == RootBlock(e) + "\n\n";
  }

  lemma JoinRight(a: string, b: string, c: string, d: string)
    ensures a + (b + c) + d == a + b + c + d
  {
  }

  lemma InBlock(begin: string, body: string, end: string, m: string, i: nat)
    requires Marker(begin) && Marker(end) && Marker(m) && NoHash(body) && OccursAt(begin + "\n" + (body + end), m, i)
    ensures (i == 0 && OccursAt(begin, m, 0)) || (i == |begin| + 1 + |body| && OccursAt(end, m, 0))
  {
    AcrossBreak(begin, '\n', body + end, m, i);
    if OccursAt(begin, m, i) {
      OnlyAtFront(begin, m, i);
    } else {
      SkipsNoHash(body, end, m, i - |begin| - 1);
      OnlyAtFront(end, m, i - |begin| - 1 - |body|);
    }
  }

  lemma RootBodyEdge(e: Effort)
    ensures RootBody(e) != "" && RootBody(e) == "\n" + RootBody(e)[1..] && NoHash(RootBody(e)[1..])
  {
    BodiesHaveNoHash(e);
    hide TomlString;
    assert RootBody(e)[0] == '\n';
  }

  lemma InRoot(e: Effort, m: string, i: nat)
    requires Marker(m) && OccursAt(RootBlock(e), m, i)
    ensures OccursAt(ROOT_BEGIN, m, 0) || OccursAt(ROOT_END, m, 0)
    ensures !OccursAt(ROOT_END, m, 0) ==> i == 0
  {
    Markers();
    RootBodyEdge(e);
    hide RootBody;
    var body := RootBody(e)[1..];
    assert RootBlock(e) == ROOT_BEGIN + "\n" + (body + ROOT_END);
    InBlock(ROOT_BEGIN, body, ROOT_END, m, i);
  }

  lemma Fronts(p: string, url: string, e: Effort)
    ensures OccursAt(RootBlock(e), ROOT_BEGIN, 0) && OccursAt(Bottom(p, url), TABLE_BEGIN, |Lead(p)|)
  {
    hide RootBody, TableBody, Lead;
    assert RootBlock(e)[..|ROOT_BEGIN|] == ROOT_BEGIN;
    assert (TableBlock(url) + "\n")[..|TABLE_BEGIN|] == TABLE_BEGIN;
    assert Bottom(p, url) == Lead(p) + (TableBlock(url) + "\n");
    Shift(Lead(p), TableBlock(url) + "\n", TABLE_BEGIN, |Lead(p)|);
  }

  lemma InAssembled(p: string, url: string, e: Effort, m: string, i: nat)
    requires Marker(m)
    ensures OccursAt(Assembled(p, url, e), m, i) <==>
      OccursAt(RootBlock(e), m, i) || (i > |RootBlock(e)| && OccursAt(Bottom(p, url), m, i - |RootBlock(e)| - 1))
  {
    AssembledSplits(p, url, e);
    hide RootBody, Bottom, Assembled;
    assert Assembled(p, url, e) == RootBlock(e) + "\n" + Bottom(p, url);
    AcrossBreak(RootBlock(e), '\n', Bottom(p, url), m, i);
  }

  /** The root block of a rendered file is its only one, at its front. */
  lemma OneRootBlock(p: string, url: string, e: Effort, i: nat)
    requires !Contains(p, ROOT_BEGIN) && !Contains(url, ROOT_BEGIN)
    ensures OccursAt(Assembled(p, url, e), ROOT_BEGIN, i) <==> i == 0
  {
    Markers();
    MarkersDiffer();
    EscapedContains(url, ROOT_BEGIN);
    BottomHasNoRoot(p, url);
    InAssembled(p, url, e, ROOT_BEGIN, i);
    Fronts(p, url, e);
    hide Bottom, Assembled, Escaped, RootBlock, Lead, Marker;
    if OccursAt(RootBlock(e), ROOT_BEGIN, i) {
      InRoot(e, ROOT_BEGIN, i);
    }
  }

  lemma NoTableInRoot(e: Effort, i: nat)
    ensures !OccursAt(RootBlock(e), TABLE_BEGIN, i)
  {
    Markers();
    MarkersDiffer();
    hide RootBlock, Marker;
    if OccursAt(RootBlock(e), TABLE_BEGIN, i) {
      InRoot(e, TABLE_BEGIN, i);
      assert false;
    }
  }

  lemma OneTableInBottom(p: string, url: string, k: nat)
    requires !Contains(p, TABLE_BEGIN) && !Contains(Escaped(url), TABLE_BEGIN)
    requires OccursAt(Bottom(p, url), TABLE_BEGIN, k)
    ensures k == |Lead(p)|
  {
    Markers();
    MarkersDiffer();
    hide Bottom, Lead, Escaped, TableBody, TableHead, TableBlock, Marker;
    InBottom(p, url, TABLE_BEGIN, k);
    InTable(url, TABLE_BEGIN, k - |Lead(p)|);
  }

  /** The table block is its only one too, below the root block and the kept text. */
  lemma OneTableBlock(p: string, url: string, e: Effort, i: nat)
    requires !Contains(p, TABLE_BEGIN) && !Contains(url, TABLE_BEGIN)
    ensures OccursAt(Assembled(p, url, e), TABLE_BEGIN, i) <==> i == |RootBlock(e)| + 1 + |Lead(p)|
  {
    hide *;
    Markers();
    EscapedContains(url, TABLE_BEGIN);
    InAssembled(p, url, e, TABLE_BEGIN, i);
    Fronts(p, url, e);
    NoTableInRoot(e, i);
    var k := i - |RootBlock(e)| - 1;
    if k >= 0 && OccursAt(Bottom(p, url), TABLE_BEGIN, k) {
      OneTableInBottom(p, url, k);
    }
  }

  lemma {:induction false} EscapedHasNoNewline(s: string)
    ensures '\n' !in Escaped(s)
  {
    if s != "" {
      EscapedHasNoNewline(s[1..]);
      if s[0] < ' ' || s[0] == '\U{7F}' {
        HexIsDigits(s[0] as nat, 4);
      }
    }
  }
}

/** JavaScript strings: what `trim` takes off, where `indexOf` finds, and where `split("\n")` cuts. */
module Text {
  import opened Options

  /** White space and line terminators of ECMAScript. */
  predicate IsSpace(c: char) {
    || '\U{9}' <= c <= '\U{D}' || c == ' ' || c == '\U{A0}' || c == '\U{1680}' || '\U{2000}' <= c <= '\U{200A}'
    || c == '\U{2028}' || c == '\U{2029}' || c == '\U{202F}' || c == '\U{205F}' || c == '\U{3000}' || c == '\U{FEFF}'
  }

  predicate Blank(s: string) { forall c | c in s :: IsSpace(c) }

  function TrimStart(s: string): (r: string)
    ensures |r| <= |s| && s[|s| - |r|..] == r && Blank(s[..|s| - |r|])
    ensures r != "" ==> !IsSpace(r[0])
  {
    if s == "" || !IsSpace(s[0]) then s else TrimStart(s[1..])
  }

  function TrimEnd(s: string): (r: string)
    ensures r <= s && Blank(s[|r|..])
    ensures r != "" ==> !IsSpace(r[|r| - 1])
  {
    if s == "" || !IsSpace(s[|s| - 1]) then s else TrimEnd(s[..|s| - 1])
  }

  function Trim(s: string): string { TrimEnd(TrimStart(s)) }

  predicate OccursAt(s: string, m: string, i: nat) {
    i + |m| <= |s| && s[i..i + |m|] == m
  }

  /** The first occurrence at or after a position. */
  function Find(s: string, m: string, from: nat): (r: Option<nat>)
    requires from <= |s|
    ensures r.Some? ==>
      from <= r.value && OccursAt(s, m, r.value) && forall k | from <= k < r.value :: !OccursAt(s, m, k)
    ensures r.None? ==> forall k: nat | from <= k :: !OccursAt(s, m, k)
    decreases |s| - from
  {
    if OccursAt(s, m, from) then Some(from)
    else if from == |s| then None
    else Find(s, m, from + 1)
  }

  lemma FoundFirst(s: string, m: string, from: nat, i: nat)
    requires from <= i && OccursAt(s, m, i) && forall k: nat | from <= k < i :: !OccursAt(s, m, k)
    ensures Find(s, m, from) == Some(i)
  {
  }

  /** The lines that are complete, and the text after the last newline. */
  function Complete(s: string): (r: seq<string>)
    ensures forall l | l in r :: '\n' !in l
    decreases |s|
  {
    if '\n' !in s then [] else [FirstLine(s)] + Complete(s[|FirstLine(s)| + 1..])
  }

  function Rest(s: string): (r: string)
    ensures '\n' !in r && |r| <= |s|
    decreases |s|
  {
    if '\n' !in s then s else Rest(s[|FirstLine(s)| + 1..])
  }

  function FirstLine(s: string): (r: string)
    requires '\n' in s
    ensures '\n' !in r && r + "\n" <= s
  {
    if s[0] == '\n' then "" else [s[0]] + FirstLine(s[1..])
  }

  function Joined(lines: seq<string>): string {
    if lines == [] then "" else lines[0] + "\n" + Joined(lines[1..])
  }

  lemma FirstLineSplits(s: string)
    requires '\n' in s
    ensures s == FirstLine(s) + "\n" + s[|FirstLine(s)| + 1..]
  {
    hide FirstLine;
    var l := FirstLine(s);
    assert s[..|l| + 1] == l + "\n";
  }

  lemma JoinedOfCons(line: string, lines: seq<string>)
    ensures Joined([line] + lines) == line + "\n" + Joined(lines)
  {
    assert ([line] + lines)[1..] == lines;
  }

  /** Splitting loses nothing: the pieces spell the text. */
  lemma {:induction false} SplitSpells(s: string)
    ensures Joined(Complete(s)) + Rest(s) == s
    decreases |s|
  {
    if '\n' in s {
      var l := FirstLine(s);
      var tail := s[|l| + 1..];
      SplitSpells(tail);
      FirstLineSplits(s);
      JoinedOfCons(l, Complete(tail));
      assert Complete(s) == [l] + Complete(tail) && Rest(s) == Rest(tail);
      hide Joined, Complete, Rest, FirstLine;
      assert l + "\n" + Joined(Complete(tail)) + Rest(tail) == l + "\n" + (Joined(Complete(tail)) + Rest(tail));
    }
  }

  lemma {:induction false} FirstLineOf(l: string, tail: string)
    requires '\n' !in l
    ensures '\n' in l + "\n" + tail && FirstLine(l + "\n" + tail) == l
  {
    assert (l + "\n" + tail)[|l|] == '\n';
    if l != "" {
      assert (l + "\n" + tail)[1..] == l[1..] + "\n" + tail;
      FirstLineOf(l[1..], tail);
    }
  }

  /** Text split in two gives the lines of the first part, then those of its rest and the second part. */
  lemma {:induction false} SplitConcat(a: string, b: string)
    ensures Complete(a + b) == Complete(a) + Complete(Rest(a) + b)
    ensures Rest(a + b) == Rest(Rest(a) + b)
    decreases |a|
  {
    if '\n' in a {
      var l := FirstLine(a);
      var tail := a[|l| + 1..];
      assert a == l + "\n" + tail;
      assert a + b == l + "\n" + (tail + b);
      FirstLineOf(l, tail + b);
      assert (a + b)[|l| + 1..] == tail + b;
      SplitConcat(tail, b);
    }
  }

  lemma NoNewline(s: string)
    requires '\n' !in s
    ensures Complete(s) == [] && Rest(s) == s
  {
  }
}

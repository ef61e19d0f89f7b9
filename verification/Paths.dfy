/** POSIX pathnames as Node's `path` module treats the absolute ones, and relative paths fit for the lockfile. */
module Paths {
  /** `s.split("/")`. */
  function Split(s: string): (r: seq<string>)
    ensures |r| >= 1
  {
    if s == "" then [""]
    else
      var rest := Split(s[1..]);
      if s[0] == '/' then [""] + rest else [[s[0]] + rest[0]] + rest[1..]
  }

  function Join(parts: seq<string>): string {
    if parts == [] then "" else if |parts| == 1 then parts[0] else parts[0] + "/" + Join(parts[1..])
  }

  predicate Absolute(s: string) { s != "" && s[0] == '/' }

  /** A component that means itself. */
  predicate Proper(part: string) { part != "" && part != "." && part != ".." && '/' !in part }

  ghost predicate AllProper(parts: seq<string>) { forall i | 0 <= i < |parts| :: Proper(parts[i]) }

  /** Drop empty and dot components, and let each double dot take its parent along. */
  function Resolve(parts: seq<string>, done: seq<string>): seq<string> {
    if parts == [] then done
    else Resolve(parts[1..],
      if parts[0] == "" || parts[0] == "." then done
      else if parts[0] == ".." then (if done == [] then [] else done[..|done| - 1])
      else done + [parts[0]])
  }

  predicate EndsWithSlash(s: string) { s != "" && s[|s| - 1] == '/' }

  /** `path.normalize` of an absolute path. */
  function Normalize(s: string): string {
    var parts := Resolve(Split(s), []);
    if parts == [] then "/" else "/" + Join(parts) + if EndsWithSlash(s) then "/" else ""
  }

  /** `path.basename`: the last component that is not empty. */
  function Basename(s: string): string { LastNonEmpty(Split(s)) }

  function LastNonEmpty(parts: seq<string>): string {
    if parts == [] then ""
    else if parts[|parts| - 1] != "" then parts[|parts| - 1]
    else LastNonEmpty(parts[..|parts| - 1])
  }

  lemma {:induction false} SplitHasNoSlash(s: string)
    ensures forall i | 0 <= i < |Split(s)| :: '/' !in Split(s)[i]
  {
    if s != "" {
      SplitHasNoSlash(s[1..]);
      var rest := Split(s[1..]);
      assert '/' !in rest[0];
    }
  }

  lemma {:induction false} SplitOfPart(a: string, rest: string)
    requires '/' !in a
    ensures Split(a) == [a] && Split(a + "/" + rest) == [a] + Split(rest)
  {
    if a == "" {
      assert (a + "/" + rest)[1..] == rest;
    } else {
      assert (a + "/" + rest)[1..] == a[1..] + "/" + rest;
      SplitOfPart(a[1..], rest);
      assert [a[0]] + a[1..] == a;
    }
  }

  lemma {:induction false} SplitOfJoin(parts: seq<string>, tail: seq<string>)
    requires parts != [] && AllProper(parts) && (tail == [] || tail == [""])
    ensures Split(Join(parts) + if tail == [] then "" else "/") == parts + tail
  {
    var first, end := parts[0], if tail == [] then "" else "/";
    assert Proper(first);
    if |parts| == 1 {
      SplitOfPart(first, "");
      SplitOfNothing();
      hide Split, Proper;
      assert first + "" == first && first + "/" + "" == first + "/";
    } else {
      var rest := Join(parts[1..]) + end;
      assert Join(parts) == first + "/" + Join(parts[1..]);
      SplitOfPart(first, rest);
      SplitOfJoin(parts[1..], tail);
      hide Split, Join, Proper;
      assert first + "/" + Join(parts[1..]) + end == first + "/" + rest;
      assert [first] + (parts[1..] + tail) == parts + tail;
    }
  }

  lemma SplitOfNothing()
    ensures Split("") == [""]
  {
  }

  lemma {:induction false} ResolveIsProper(parts: seq<string>, done: seq<string>)
    requires AllProper(done) && forall i | 0 <= i < |parts| :: '/' !in parts[i]
    ensures AllProper(Resolve(parts, done))
  {
    if parts != [] {
      assert '/' !in parts[0];
      ResolveIsProper(parts[1..],
        if parts[0] == "" || parts[0] == "." then done
        else if parts[0] == ".." then (if done == [] then [] else done[..|done| - 1])
        else done + [parts[0]]);
    }
  }

  lemma {:induction false} ResolveOfProper(parts: seq<string>, done: seq<string>)
    requires AllProper(parts)
    ensures Resolve(parts, done) == done + parts && Resolve(parts + [""], done) == done + parts
  {
    if parts == [] {
      assert parts + [""] == [""];
      assert [""][1..] == [];
    } else {
      assert (parts + [""])[1..] == parts[1..] + [""];
      ResolveOfProper(parts[1..], done + [parts[0]]);
      assert done + [parts[0]] + parts[1..] == done + parts;
    }
  }

  /** What a normalized path splits into. */
  lemma SplitOfNormalized(s: string)
    ensures AllProper(Resolve(Split(s), []))
    ensures Split(Normalize(s)) ==
      if Resolve(Split(s), []) == [] then ["", ""]
      else [""] + Resolve(Split(s), []) + if EndsWithSlash(s) then [""] else []
  {
    SplitHasNoSlash(s);
    ResolveIsProper(Split(s), []);
    var parts := Resolve(Split(s), []);
    if parts == [] {
      SplitBelow("");
    } else {
      var tail := if EndsWithSlash(s) then [""] else [];
      var below := Join(parts) + if tail == [] then "" else "/";
      SplitOfJoin(parts, tail);
      SplitBelow(below);
      assert Normalize(s) == "/" + below;
      hide Split, Join, Resolve, Normalize, AllProper;
      assert [""] + (parts + tail) == [""] + parts + tail;
    }
  }

  lemma SplitBelow(below: string)
    ensures Split("/" + below) == [""] + Split(below) && Split("") == [""]
    ensures "/" + "" == "/"
  {
    assert ("/" + below)[1..] == below;
  }

  lemma EndOfNormalized(s: string)
    requires Resolve(Split(s), []) != []
    ensures EndsWithSlash(Normalize(s)) == EndsWithSlash(s)
  {
    var parts := Resolve(Split(s), []);
    SplitHasNoSlash(s);
    ResolveIsProper(Split(s), []);
    JoinEnd(parts);
    hide Split, Join, Resolve, AllProper;
    assert Normalize(s) == "/" + Join(parts) + if EndsWithSlash(s) then "/" else "";
  }

  lemma NormalizeIsIdempotent(s: string)
    ensures Normalize(Normalize(s)) == Normalize(s) && Absolute(Normalize(s))
  {
    var parts := Resolve(Split(s), []);
    SplitOfNormalized(s);
    if parts == [] {
      assert ["", ""][1..] == [""] && [""][1..] == [];
      assert Resolve(["", ""], []) == Resolve([""], []) == Resolve([], []) == [];
    } else {
      var tail := if EndsWithSlash(s) then [""] else [];
      ResolveOfProper(parts, []);
      ResolveFromRoot(parts + tail);
      EndOfNormalized(s);
      hide Split, Join, Resolve, AllProper, EndsWithSlash;
      assert [""] + (parts + tail) == [""] + parts + tail && [] + parts == parts + [] == parts;
      assert Resolve(Split(Normalize(s)), []) == parts;
    }
  }

  lemma ResolveFromRoot(parts: seq<string>)
    ensures Resolve([""] + parts, []) == Resolve(parts, [])
  {
    assert ([""] + parts)[1..] == parts;
  }

  lemma {:induction false} JoinEnd(parts: seq<string>)
    requires parts != [] && AllProper(parts)
    ensures Join(parts) != "" && !EndsWithSlash(Join(parts))
  {
    if |parts| > 1 {
      JoinEnd(parts[1..]);
    } else {
      assert parts[0] != "" ==> parts[0][|parts[0]| - 1] in parts[0];
    }
  }

  lemma {:induction false} ResolveEndsWith(parts: seq<string>, done: seq<string>)
    requires Proper(LastNonEmpty(parts))
    ensures var r := Resolve(parts, done); r != [] && r[|r| - 1] == LastNonEmpty(parts)
  {
    if parts[1..] == [] || LastNonEmpty(parts[1..]) == "" {
      OnlyBlanks(parts[1..]);
      LastOfHead(parts);
      ResolveBlanks(parts[1..], done + [parts[0]]);
    } else {
      LastOfTail(parts);
      ResolveEndsWith(parts[1..],
        if parts[0] == "" || parts[0] == "." then done
        else if parts[0] == ".." then (if done == [] then [] else done[..|done| - 1])
        else done + [parts[0]]);
    }
  }

  lemma {:induction false} OnlyBlanks(parts: seq<string>)
    requires LastNonEmpty(parts) == ""
    ensures forall i | 0 <= i < |parts| :: parts[i] == ""
  {
    if parts != [] {
      OnlyBlanks(parts[..|parts| - 1]);
    }
  }

  lemma {:induction false} LastOfHead(parts: seq<string>)
    requires parts != [] && forall i | 0 < i < |parts| :: parts[i] == ""
    ensures LastNonEmpty(parts) == parts[0]
  {
    if |parts| > 1 {
      LastOfHead(parts[..|parts| - 1]);
    }
  }

  lemma {:induction false} LastOfTail(parts: seq<string>)
    requires parts != [] && LastNonEmpty(parts[1..]) != ""
    ensures LastNonEmpty(parts) == LastNonEmpty(parts[1..])
  {
    assert parts[1..] != [];
    if parts[|parts| - 1] == "" {
      assert parts[1..][..|parts| - 2] == parts[..|parts| - 1][1..];
      LastOfTail(parts[..|parts| - 1]);
    }
  }

  lemma {:induction false} ResolveBlanks(parts: seq<string>, done: seq<string>)
    requires forall i | 0 <= i < |parts| :: parts[i] == ""
    ensures Resolve(parts, done) == done
  {
    if parts != [] {
      ResolveBlanks(parts[1..], done);
    }
  }

  /** Normalizing keeps a basename that is a plain name. */
  lemma NormalizeKeepsBasename(s: string)
    requires Proper(Basename(s))
    ensures Basename(Normalize(s)) == Basename(s)
  {
    var parts := Resolve(Split(s), []);
    ResolveEndsWith(Split(s), []);
    SplitOfNormalized(s);
    hide Normalize, Resolve, Split, Join, Proper;
    var all := Split(Normalize(s));
    var front := [""] + parts;
    assert front[|front| - 1] == parts[|parts| - 1] && LastNonEmpty(front) == Basename(s);
    if EndsWithSlash(s) {
      assert all == front + [""] && all[..|all| - 1] == front;
    } else {
      assert all == front;
    }
  }

  /** The path lies below `dir`: what it says up to one of its slashes. */
  ghost predicate LiesIn(p: string, dir: string) {
    exists i :: 0 <= i < |p| && p[i] == '/' && p[..i] == dir
  }

  lemma {:induction false} JoinOfSplit(s: string)
    ensures Join(Split(s)) == s
  {
    if s != "" {
      JoinOfSplit(s[1..]);
      var rest := Split(s[1..]);
      assert s == [s[0]] + s[1..];
      if s[0] == '/' {
        assert ([""] + rest)[1..] == rest;
      } else {
        assert ([[s[0]] + rest[0]] + rest[1..])[1..] == rest[1..];
      }
    }
  }

  lemma SplitOfCons(c: char, s: string)
    ensures Split([c] + s) == if c == '/' then [""] + Split(s) else [[c] + Split(s)[0]] + Split(s)[1..]
  {
    assert ([c] + s)[1..] == s;
  }

  /** One more character in front changes the first component, or adds an empty one. */
  lemma ConsBefore(first: seq<string>, rest: seq<string>, more: seq<string>)
    requires rest != []
    ensures (rest + more)[0] == rest[0] && first + (rest + more)[1..] == (first + rest[1..]) + more
    ensures first + (rest + more) == (first + rest) + more
  {
  }

  lemma {:induction false} SplitOfBoth(a: string, b: string)
    ensures Split(a + "/" + b) == Split(a) + Split(b)
  {
    if a == "" {
      SplitOfCons('/', b);
      assert "" + "/" + b == ['/'] + b;
    } else {
      var c, a' := a[0], a[1..];
      assert [c] + a' == a;
      assert [c] + (a' + "/" + b) == a + "/" + b;
      SplitOfBoth(a', b);
      SplitOfCons(c, a');
      SplitOfCons(c, a' + "/" + b);
      ConsBefore(if c == '/' then [""] else [[c] + Split(a')[0]], Split(a'), Split(b));
      hide *;
    }
  }

  lemma {:induction false} JoinOfBoth(a: seq<string>, b: seq<string>)
    requires a != [] && b != []
    ensures Join(a + b) == Join(a) + "/" + Join(b)
  {
    assert (a + b)[1..] == a[1..] + b;
    if |a| == 1 {
      assert a[1..] + b == b;
    } else {
      JoinOfBoth(a[1..], b);
    }
  }

  /** The directories above a path are its leading components. */
  lemma LeadingComponents(p: string, dir: string)
    ensures LiesIn(p, dir) <==> exists n :: 0 < n < |Split(p)| && Join(Split(p)[..n]) == dir
  {
    var parts := Split(p);
    if LiesIn(p, dir) {
      var i :| 0 <= i < |p| && p[i] == '/' && p[..i] == dir;
      assert p == dir + "/" + p[i + 1..];
      SplitOfBoth(dir, p[i + 1..]);
      JoinOfSplit(dir);
      assert parts[..|Split(dir)|] == Split(dir);
    }
    if exists n :: 0 < n < |parts| && Join(parts[..n]) == dir {
      var n :| 0 < n < |parts| && Join(parts[..n]) == dir;
      JoinOfBoth(parts[..n], parts[n..]);
      JoinOfSplit(p);
      assert parts[..n] + parts[n..] == parts;
      assert p == dir + "/" + Join(parts[n..]);
      assert p[|dir|] == '/' && p[..|dir|] == dir;
    }
  }
}

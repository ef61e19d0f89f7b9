/**
  When one rendering of the provider blocks replaces the one before it: what the two removals of the
  next rendering leave of a rendered file, for addresses of any form.
*/
module TomlReplacement {
  import opened Options
  import opened Text
  import opened TomlRender

  /** What follows the first end marker. */
  function AfterEnd(a: string, end: string): (r: Option<string>)
    ensures r.Some? ==> |r.value| + |end| <= |a|
  {
    match Find(a, end, 0)
    case None => None
    case Some(j) => Some(a[j + |end|..])
  }

  /** What follows a begin marker at the front. */
  function AfterBegin(r: string, begin: string): (b: Option<string>)
    ensures b.Some? ==> r == begin + b.value
    ensures b.None? ==> !OccursAt(r, begin, 0)
  {
    if begin <= r then Some(r[|begin|..]) else None
  }

  /** Every end marker in it, from the left, is followed at once by a begin marker. */
  predicate Reopened(a: string, begin: string, end: string)
    requires end != ""
    decreases |a|
  {
    match AfterEnd(a, end)
    case None => true
    case Some(r) =>
      match AfterBegin(r, begin)
      case None => false
      case Some(b) => Reopened(b, begin, end)
  }

  /** As it stands in the file, without the root blocks it contains, the address does not end its table block. */
  predicate Replaceable(url: string) {
    Reopened(RemoveBlocks(Escaped(url), ROOT_BEGIN, ROOT_END), TABLE_BEGIN, TABLE_END)
  }

  lemma Unremoved(s: string, begin: string, end: string)
    requires begin != ""
    requires match Find(s, begin, 0)
      case None => true
      case Some(i) => i + |begin| <= |s| && Find(s, end, i + |begin|).None?
    ensures RemoveBlocks(s, begin, end) == s
  {
    hide Find, Skip, OccursAt;
  }

  lemma Within(s: string, m: string, i: nat)
    requires OccursAt(s, m, i)
    ensures i + |m| <= |s|
  {
  }

  ghost predicate NoneBefore(s: string, m: string, n: nat) {
    forall k: nat | k < n :: !OccursAt(s, m, k)
  }

  ghost predicate SameFrom(s: string, all: string, d: nat, m: string) {
    forall k: nat | k >= d :: OccursAt(all, m, k) <==> OccursAt(s, m, k - d)
  }

  lemma FindSame(s: string, all: string, d: nat, m: string, from: nat, start: nat)
    requires from <= |s| && d + |s| <= |all| && start <= d + from && SameFrom(s, all, d, m)
    requires forall k: nat | start <= k < d + from :: !OccursAt(all, m, k)
    ensures match Find(s, m, from)
      case None => Find(all, m, start).None?
      case Some(i) => i + |m| <= |s| && Find(all, m, start) == Some(d + i)
  {
    hide OccursAt, Find;
    if Find(s, m, from).Some? {
      var i := Find(s, m, from).value;
      Within(s, m, i);
      assert OccursAt(all, m, d + i);
      FoundFirst(all, m, start, d + i);
    }
  }

  /** One removal: from the first begin marker at `i` to behind the first end marker after it, at `j`. */
  lemma OneRemoval(s: string, begin: string, end: string, i: nat, last: nat, j: nat)
    requires begin != "" && i + |begin| <= last && j == last + |end| <= |s|
    requires Find(s, begin, 0) == Some(i) && Find(s, end, i + |begin|) == Some(last)
    ensures RemoveBlocks(s, begin, end) == s[..i] + RemoveBlocks(Skip(s[j..]), begin, end)
  {
    RemovalStep(s, begin, end, i, last);
    hide RemoveBlocks, Find, Skip;
    SameDrop(s, last + |end|, j);
    var before, after := Skip(s[last + |end|..]), Skip(s[j..]);
    assert before == after && RemoveBlocks(before, begin, end) == RemoveBlocks(after, begin, end);
    assert RemoveBlocks(s, begin, end) == s[..i] + RemoveBlocks(before, begin, end);
  }

  /** In two texts with the same markers, the second one's `d` further on, the same first block goes, or none does. */
  lemma SameCut(s: string, all: string, d: nat, begin: string, end: string)
    returns (cuts: bool, i: nat, j: nat, i': nat, j': nat)
    requires begin != "" && end != "" && d + |s| <= |all|
    requires NoneBefore(all, begin, d) && SameFrom(s, all, d, begin) && SameFrom(s, all, d, end)
    ensures !cuts ==> RemoveBlocks(s, begin, end) == s && RemoveBlocks(all, begin, end) == all
    ensures cuts ==>
      && i + |begin| + |end| <= j <= |s| && i' == d + i && j' == d + j
      && RemoveBlocks(s, begin, end) == s[..i] + RemoveBlocks(Skip(s[j..]), begin, end)
      && RemoveBlocks(all, begin, end) == all[..i'] + RemoveBlocks(Skip(all[j'..]), begin, end)
  {
    hide OccursAt, RemoveBlocks, Find, SameFrom, Skip;
    cuts, i, j, i', j' := false, 0, 0, 0, 0;
    FindSame(s, all, d, begin, 0, 0);
    if Find(s, begin, 0).None? {
      Unremoved(all, begin, end);
      Unremoved(s, begin, end);
      return;
    }
    i, i' := Find(s, begin, 0).value, d + Find(s, begin, 0).value;
    var from, from' := i + |begin|, i' + |begin|;
    FindSame(s, all, d, end, from, from');
    if Find(s, end, from).None? {
      Unremoved(all, begin, end);
      Unremoved(s, begin, end);
      return;
    }
    var last := Find(s, end, from).value;
    j, j' := last + |end|, d + last + |end|;
    OneRemoval(s, begin, end, i, last, j);
    OneRemoval(all, begin, end, i', d + last, j');
    cuts := true;
  }

  /** What stands before the first begin marker stays. */
  lemma PrefixStays(pre: string, s: string, begin: string, end: string)
    requires begin != "" && end != "" && NoneBefore(pre + s, begin, |pre|)
    ensures RemoveBlocks(pre + s, begin, end) == pre + RemoveBlocks(s, begin, end)
  {
    hide OccursAt, RemoveBlocks, Find, NoneBefore, SameFrom, Skip;
    ShiftAll(pre, s, begin);
    ShiftAll(pre, s, end);
    var cuts, i, j, i', j' := SameCut(s, pre + s, |pre|, begin, end);
    if cuts {
      KeepPast(pre, s, i, i', j, j', RemoveBlocks(Skip(s[j..]), begin, end));
    }
  }

  lemma KeepPast(a: string, b: string, i: nat, i': nat, j: nat, j': nat, rest: string)
    requires i <= j <= |b| && i' == |a| + i && j' == |a| + j
    ensures (a + b)[j'..] == b[j..] && (a + b)[..i'] + rest == a + (b[..i] + rest)
  {
  }

  lemma SameDrop(s: string, i: nat, n: nat)
    requires i == n <= |s|
    ensures s[i..] == s[n..]
  {
  }

  lemma ShiftAll(pre: string, s: string, m: string)
    ensures SameFrom(s, pre + s, |pre|, m)
  {
    hide OccursAt;
    forall k: nat | k >= |pre| ensures OccursAt(pre + s, m, k) <==> OccursAt(s, m, k - |pre|) {
      Shift(pre, s, m, k);
    }
  }

  /** What follows an address in its table block. */
  function Closing(tail: string, end: string): string { "\"" + (tail + end + "\n") }

  /** A marker before or in the closing of a block is in what precedes it, or is its end marker. */
  lemma Confined(x: string, tail: string, end: string, m: string, i: nat)
    requires Marker(end) && Marker(m) && NoHash(tail)
    ensures OccursAt(x, m, i) ==> OccursAt(x + Closing(tail, end), m, i)
    ensures OccursAt(x + Closing(tail, end), m, i) ==>
      OccursAt(x, m, i) || (i == |x| + 1 + |tail| && OccursAt(end, m, 0))
    ensures m == end ==> OccursAt(x + Closing(tail, end), m, |x| + 1 + |tail|)
  {
    var below := tail + end + "\n";
    hide Marker, OccursAt;
    assert x + Closing(tail, end) == x + "\"" + below;
    AcrossBreak(x, '"', below, m, i);
    assert below == tail + (end + "\n" + "");
    if i > |x| && OccursAt(below, m, i - |x| - 1) {
      SkipsNoHash(tail, end + "\n" + "", m, i - |x| - 1);
      var k := i - |x| - 1 - |tail|;
      AcrossBreak(end, '\n', "", m, k);
      if !OccursAt(end, m, k) {
        NotInNothing(m, k - |end| - 1);
      }
      OnlyAtFront(end, m, k);
    }
    if m == end {
      AcrossBreak(x, '"', below, m, |x| + 1 + |tail|);
      Shift(tail, end + "\n" + "", m, |tail|);
      AcrossBreak(end, '\n', "", m, 0);
      AtOwnFront(end);
    }
  }

  lemma AtOwnFront(m: string)
    ensures OccursAt(m, m, 0)
  {
  }

  lemma {:induction false} StillNoNewline(s: string, begin: string, end: string)
    requires begin != "" && end != "" && '\n' !in s
    ensures '\n' !in RemoveBlocks(s, begin, end)
    decreases |s|
  {
    NothingBefore(s, begin);
    SameAsItself(s, begin);
    SameAsItself(s, end);
    hide OccursAt, RemoveBlocks, Find, NoneBefore, SameFrom, Skip;
    var cuts, i, j, i', j' := SameCut(s, s, 0, begin, end);
    if cuts {
      KeepBefore(s, "\"", i, j, i', j');
      SkipsNothing(s[j..]);
      StillNoNewline(s[j..], begin, end);
      NotInEither(s[..i], RemoveBlocks(s[j..], begin, end));
    }
  }

  lemma SameAsItself(s: string, m: string)
    ensures SameFrom(s, s, 0, m)
  {
  }

  lemma SkipsNothing(s: string)
    requires '\n' !in s
    ensures Skip(s) == s
  {
  }

  lemma NotInEither(a: string, b: string)
    requires '\n' !in a && '\n' !in b
    ensures '\n' !in a + b
  {
  }

  /** The blocks of another kind in an address go, and the rest of its block stays. */
  lemma {:induction false} InnerBlocksGo(x: string, tail: string, close: string, begin: string, end: string)
    requires Marker(close) && Marker(begin) && Marker(end) && NoHash(tail) && '\n' !in x
    requires !OccursAt(close, begin, 0) && !OccursAt(close, end, 0)
    ensures RemoveBlocks(x + Closing(tail, close), begin, end) == RemoveBlocks(x, begin, end) + Closing(tail, close)
    decreases |x|
  {
    assert begin != "" && end != "";
    hide Marker, NoHash, OccursAt, RemoveBlocks, Find, NoneBefore, SameFrom, Skip, Closing;
    var q := Closing(tail, close);
    ConfinedAll(x, tail, close, begin);
    ConfinedAll(x, tail, close, end);
    ClosingStarts(tail, close);
    NothingBefore(x + q, begin);
    var cuts, i, j, i', j' := SameCut(x, x + q, 0, begin, end);
    if cuts {
      KeepBefore(x, q, i, j, i', j');
      InnerBlocksGo(x[j..], tail, close, begin, end);
      Regroup(x[..i], RemoveBlocks(x[j..], begin, end), q);
    }
  }

  lemma NothingBefore(s: string, m: string)
    ensures NoneBefore(s, m, 0)
  {
  }

  lemma ClosingStarts(tail: string, end: string)
    ensures Closing(tail, end) != "" && Closing(tail, end)[0] == '"'
  {
  }

  lemma Regroup(a: string, b: string, c: string)
    ensures a + (b + c) == a + b + c
  {
  }

  lemma KeepBefore(x: string, q: string, i: nat, j: nat, i': nat, j': nat)
    requires i <= j <= |x| && i' == i && j' == j && '\n' !in x && q != "" && q[0] != '\n'
    ensures (x + q)[..i'] == x[..i] && (x + q)[j'..] == x[j..] + q && '\n' !in x[j..]
    ensures Skip(x[j..]) == x[j..] && Skip(x[j..] + q) == x[j..] + q
  {
    assert x[j..] == "" || x[j..][0] in x;
  }

  lemma ConfinedAll(x: string, tail: string, close: string, m: string)
    requires Marker(close) && Marker(m) && NoHash(tail) && !OccursAt(close, m, 0)
    ensures SameFrom(x, x + Closing(tail, close), 0, m)
  {
    hide OccursAt, Marker;
    forall k: nat ensures OccursAt(x + Closing(tail, close), m, k) <==> OccursAt(x, m, k) {
      Confined(x, tail, close, m, k);
    }
  }

  /** A block from its begin marker to the newline after it. */
  function Block(begin: string, head: string, a: string, tail: string, end: string): string {
    begin + (head + a) + Closing(tail, end)
  }

  /** The end markers in a block, after its begin marker, are those of the address and its own. */
  lemma EndsInBlock(begin: string, head: string, a: string, tail: string, end: string, k: nat)
    requires Marker(begin) && Marker(end) && NoHash(head) && NoHash(tail) && k >= |begin|
    ensures OccursAt(Block(begin, head, a, tail, end), end, k) ==>
      || (k >= |begin| + |head| && OccursAt(a, end, k - |begin| - |head|))
      || k == |begin| + |head| + |a| + 1 + |tail|
    ensures k >= |begin| + |head| && OccursAt(a, end, k - |begin| - |head|) ==>
      OccursAt(Block(begin, head, a, tail, end), end, k)
    ensures k == |begin| + |head| + |a| + 1 + |tail| ==> OccursAt(Block(begin, head, a, tail, end), end, k)
  {
    var x := begin + (head + a);
    hide Marker, OccursAt, Closing;
    Confined(x, tail, end, end, k);
    Shift(begin, head + a, end, k);
    if OccursAt(x, end, k) {
      SkipsNoHash(head, a, end, k - |begin|);
    }
    if k >= |begin| + |head| {
      Shift(head, a, end, k - |begin|);
    }
  }

  /** Cut from the front of a block to one of its end markers. */
  lemma CutBlock(s: string, begin: string, end: string, j: nat, n: nat)
    requires begin != "" && end != "" && OccursAt(s, begin, 0) && OccursAt(s, end, j) && j >= |begin| && n == j + |end|
    requires forall k: nat | |begin| <= k < j :: !OccursAt(s, end, k)
    ensures n <= |s| && RemoveBlocks(s, begin, end) == RemoveBlocks(Skip(s[n..]), begin, end)
  {
    Within(s, end, j);
    CutFront(s, begin, end, j);
    hide OccursAt, RemoveBlocks, Skip;
    SameDrop(s, j + |end|, n);
    var before, after := Skip(s[j + |end|..]), Skip(s[n..]);
    assert before == after && RemoveBlocks(s, begin, end) == RemoveBlocks(after, begin, end);
  }

  lemma CutFront(s: string, begin: string, end: string, j: nat)
    requires begin != "" && end != "" && OccursAt(s, begin, 0) && OccursAt(s, end, j) && j >= |begin|
    requires forall k: nat | |begin| <= k < j :: !OccursAt(s, end, k)
    ensures j + |end| <= |s| && RemoveBlocks(s, begin, end) == RemoveBlocks(Skip(s[j + |end|..]), begin, end)
  {
    Within(s, end, j);
    hide OccursAt, RemoveBlocks;
    FoundFirst(s, begin, 0, 0);
    FoundFirst(s, end, |begin|, j);
    RemovalStep(s, begin, end, 0, j);
    assert s[..0] == "";
  }

  lemma BlockStarts(begin: string, head: string, a: string, tail: string, end: string)
    ensures OccursAt(Block(begin, head, a, tail, end), begin, 0)
  {
    assert Block(begin, head, a, tail, end)[..|begin|] == begin;
  }

  lemma BlockEnds(begin: string, head: string, a: string, tail: string, end: string)
    ensures var j := |begin| + |head| + |a| + 1 + |tail|;
      j + |end| <= |Block(begin, head, a, tail, end)| && Block(begin, head, a, tail, end)[j + |end|..] == "\n"
  {
  }

  lemma AfterInner(begin: string, head: string, a: string, tail: string, end: string, j: nat, n: nat)
    requires j <= |a| && n == |begin| + |head| + j
    ensures n <= |Block(begin, head, a, tail, end)|
    ensures Block(begin, head, a, tail, end)[n..] == a[j..] + Closing(tail, end)
  {
    hide Closing;
    var x := begin + (head + a);
    assert (x + Closing(tail, end))[n..] == x[n..] + Closing(tail, end);
  }

  lemma WholeBlockGoes(begin: string, head: string, a: string, tail: string, end: string)
    requires Marker(begin) && Marker(end) && NoHash(head) && NoHash(tail) && Find(a, end, 0).None?
    ensures RemoveBlocks(Block(begin, head, a, tail, end), begin, end) == ""
  {
    assert begin != "" && end != "";
    var s, j := Block(begin, head, a, tail, end), |begin| + |head| + |a| + 1 + |tail|;
    hide Marker, NoHash, OccursAt, Block, RemoveBlocks, Find;
    BlockStarts(begin, head, a, tail, end);
    BlockEnds(begin, head, a, tail, end);
    EndsInBlock(begin, head, a, tail, end, j);
    forall k: nat | |begin| <= k < j ensures !OccursAt(s, end, k) {
      EndsInBlock(begin, head, a, tail, end, k);
    }
    CutBlock(s, begin, end, j, j + |end|);
    NothingToRemove("", begin, end) by { NoMarkerInNothing(begin); }
  }

  lemma NoMarkerInNothing(m: string)
    requires m != ""
    ensures !Contains("", m)
  {
  }

  /** The first end marker in the address ends the block; what follows it is searched on. */
  lemma BlockCutShort(begin: string, head: string, a: string, tail: string, end: string)
    requires Marker(begin) && Marker(end) && NoHash(head) && NoHash(tail) && '\n' !in a && AfterEnd(a, end).Some?
    ensures '\n' !in AfterEnd(a, end).value
    ensures RemoveBlocks(Block(begin, head, a, tail, end), begin, end) ==
      RemoveBlocks(AfterEnd(a, end).value + Closing(tail, end), begin, end)
  {
    assert begin != "" && end != "";
    var j := Find(a, end, 0).value;
    Within(a, end, j);
    var s, i := Block(begin, head, a, tail, end), |begin| + |head| + j;
    var n, r := i + |end|, AfterEnd(a, end).value;
    assert r == a[j + |end|..];
    var k := j + |end|;
    AfterInner(begin, head, a, tail, end, k, n);
    ClosingStarts(tail, end);
    RestHasNoNewline(a, k, Closing(tail, end));
    hide Marker, NoHash, OccursAt, Block, RemoveBlocks, Find, Closing, Skip, AfterEnd;
    BlockStarts(begin, head, a, tail, end);
    EndsInBlock(begin, head, a, tail, end, i);
    forall k: nat | |begin| <= k < i ensures !OccursAt(s, end, k) {
      EndsInBlock(begin, head, a, tail, end, k);
    }
    CutBlock(s, begin, end, i, n);
  }

  lemma RestHasNoNewline(a: string, j: nat, q: string)
    requires j <= |a| && '\n' !in a && q != "" && q[0] == '"'
    ensures '\n' !in a[j..] && Skip(a[j..] + q) == a[j..] + q
  {
    assert a[j..] != "" ==> a[j..][0] in a;
  }

  /** Text that no begin marker starts keeps its first character. */
  lemma RestStays(r: string, tail: string, begin: string, end: string)
    requires Marker(begin) && Marker(end) && NoHash(tail) && '\n' !in r && !OccursAt(r, begin, 0)
    ensures var left := RemoveBlocks(r + Closing(tail, end), begin, end); left != "" && left[0] != '\n'
  {
    var s := r + Closing(tail, end);
    ClosingStarts(tail, end);
    assert s[0] == if r == "" then '"' else r[0];
    assert r != "" ==> r[0] in r;
    Confined(r, tail, end, begin, 0);
  }

  /** What the removal leaves of a block: nothing exactly if each end marker in its address is reopened at once. */
  lemma {:induction false} BlockLeaves(begin: string, head: string, a: string, tail: string, end: string)
    requires Marker(begin) && Marker(end) && NoHash(head) && NoHash(tail) && '\n' !in a
    ensures var left := RemoveBlocks(Block(begin, head, a, tail, end), begin, end);
      (left == "" <==> Reopened(a, begin, end)) && (left != "" ==> left[0] != '\n')
    decreases |a|
  {
    assert begin != "" && end != "";
    hide Marker, NoHash, OccursAt, Block, RemoveBlocks, Closing, Find, AfterEnd, AfterBegin;
    if AfterEnd(a, end).None? {
      NoEndFound(a, end);
      WholeBlockGoes(begin, head, a, tail, end);
      return;
    }
    BlockCutShort(begin, head, a, tail, end);
    var r := AfterEnd(a, end).value;
    if AfterBegin(r, begin).None? {
      RestStays(r, tail, begin, end);
      return;
    }
    var b := AfterBegin(r, begin).value;
    BlockAgain(begin, b, tail, end);
    BlockLeaves(begin, "", b, tail, end);
  }

  lemma NoEndFound(a: string, end: string)
    requires AfterEnd(a, end).None?
    ensures Find(a, end, 0).None?
  {
  }

  lemma BlockAgain(begin: string, b: string, tail: string, end: string)
    ensures begin + b + Closing(tail, end) == Block(begin, "", b, tail, end)
    ensures '\n' !in begin + b ==> '\n' !in b
    ensures NoHash("")
  {
    assert "" + b == b;
  }

  /** What follows the address in the table block, after its quote. */
  function Tail(): string { TableTail()[1..] }

  /** The table block with an address as it stands in the file. */
  function TableWith(a: string): string { Block(TABLE_BEGIN, TableHead(), a, Tail(), TABLE_END) }

  lemma BottomForm(p: string, url: string)
    ensures Bottom(p, url) == (Lead(p) + TABLE_BEGIN + TableHead()) + (Escaped(url) + Closing(Tail(), TABLE_END))
  {
    TableEdges();
    hide Escaped, TableHead, TableTail, Lead, NoHash;
    BottomParts(Lead(p), TABLE_BEGIN, TableHead(), Escaped(url), Tail(), TABLE_END);
  }

  lemma BottomParts(lead: string, begin: string, head: string, a: string, tail: string, end: string)
    ensures lead + (begin + (head + a + ("\"" + tail)) + end) + "\n" == (lead + begin + head) + (a + Closing(tail, end))
  {
  }

  lemma TableForm(lead: string, a: string)
    ensures (lead + TABLE_BEGIN + TableHead()) + (a + Closing(Tail(), TABLE_END)) == lead + TableWith(a)
  {
    hide TableHead, Tail, Closing;
  }

  /** The next rendering first takes away the root blocks, and with them those the address contains. */
  lemma RootsGo(p: string, url: string, e: Effort)
    requires !Contains(p, ROOT_BEGIN)
    ensures RemoveBlocks(Assembled(p, url, e), ROOT_BEGIN, ROOT_END) ==
      Lead(p) + TableWith(RemoveBlocks(Escaped(url), ROOT_BEGIN, ROOT_END))
  {
    Markers();
    MarkersDiffer();
    TableEdges();
    EscapedHasNoNewline(url);
    NoRootBefore(p, url);
    hide *;
    var pre, a := Lead(p) + TABLE_BEGIN + TableHead(), Escaped(url);
    RootBlockGoes(p, url, e);
    BottomForm(p, url);
    PrefixStays(pre, a + Closing(Tail(), TABLE_END), ROOT_BEGIN, ROOT_END);
    InnerBlocksGo(a, Tail(), TABLE_END, ROOT_BEGIN, ROOT_END);
    TableForm(Lead(p), RemoveBlocks(a, ROOT_BEGIN, ROOT_END));
  }

  lemma NoRootBefore(p: string, url: string)
    requires !Contains(p, ROOT_BEGIN)
    ensures ROOT_BEGIN != "" && ROOT_END != "" && NoHash(Tail())
    ensures NoneBefore(Bottom(p, url), ROOT_BEGIN, |Lead(p) + TABLE_BEGIN + TableHead()|)
  {
    Markers();
    MarkersDiffer();
    TableEdges();
    hide Escaped, TableHead, TableBody, TableBlock, Lead, Bottom, Marker;
    forall k: nat | k < |Lead(p) + TABLE_BEGIN + TableHead()| ensures !OccursAt(Bottom(p, url), ROOT_BEGIN, k) {
      if OccursAt(Bottom(p, url), ROOT_BEGIN, k) {
        InBottom(p, url, ROOT_BEGIN, k);
        InTable(url, ROOT_BEGIN, k - |Lead(p)|);
        assert false;
      }
    }
  }

  /** What the next rendering leaves of the table block itself. */
  function Left(a: string): string { RemoveBlocks(TableWith(a), TABLE_BEGIN, TABLE_END) }

  function BelowRoot(p: string, a: string): string {
    RemoveBlocks(Lead(p) + TableWith(a), TABLE_BEGIN, TABLE_END)
  }

  /** Then it takes away the table block, as far as that reaches. */
  lemma TableGoes(p: string, a: string)
    requires !Contains(p, TABLE_BEGIN) && '\n' !in a
    ensures BelowRoot(p, a) == Lead(p) + Left(a)
    ensures Left(a) == "" <==> Reopened(a, TABLE_BEGIN, TABLE_END)
    ensures Left(a) != "" ==> Left(a)[0] != '\n'
  {
    Markers();
    TableEdges();
    BodiesHaveNoHash(NoEffort);
    forall k: nat | k < |Lead(p)| ensures !OccursAt(Lead(p) + TableWith(a), TABLE_BEGIN, k) {
      if OccursAt(Lead(p) + TableWith(a), TABLE_BEGIN, k) {
        hide *;
        InLead(p, TableWith(a), TABLE_BEGIN, k);
      }
    }
    hide Lead, TableHead, TableTail, Block, RemoveBlocks, Reopened, NoHash, Marker, OccursAt;
    PrefixStays(Lead(p), TableWith(a), TABLE_BEGIN, TABLE_END);
    BlockLeaves(TABLE_BEGIN, TableHead(), a, Tail(), TABLE_END);
  }

  lemma {:induction false} TrailingKeeps(s: string, k: nat)
    requires k < |s| && s[k] != '\n'
    ensures |DropTrailing(s)| > k
  {
    if s[|s| - 1] == '\n' {
      TrailingKeeps(s[..|s| - 1], k);
    }
  }

  /** Text left over below what was kept is kept with it. */
  lemma LeftShows(p: string, left: string)
    requires left != "" && left[0] != '\n' && (p != "" ==> p[0] != '\n')
    ensures Strip(Lead(p) + left) != p
  {
    var inner := if p == "" then left else p + "\n\n" + left;
    assert Lead(p) + left == "\n" + inner && ("\n" + inner)[1..] == inner && inner[0] != '\n';
    assert DropLeading(Lead(p) + left) == inner;
    var k := |inner| - |left|;
    assert inner[k] == left[0];
    TrailingKeeps(inner, k);
  }

  lemma PreservedStarts(x: string)
    ensures Preserved(x) != "" ==> Preserved(x)[0] != '\n'
  {
    var t := RemoveBlocks(RemoveBlocks(x, ROOT_BEGIN, ROOT_END), TABLE_BEGIN, TABLE_END);
    hide RemoveBlocks;
    LeadingGone(t);
    TrailingGone(DropLeading(t));
  }

  /**
    A rendering is replaced by the next one, with the text around it kept, exactly if its address, as it stands
    in the file, does not end its table block: without the root blocks in it, each end marker in it is
    followed at once by a begin marker.
  */
  lemma ReplaceableExactly(x: string, url: string, e: Effort)
    requires !Contains(Preserved(x), ROOT_BEGIN) && !Contains(Preserved(x), TABLE_BEGIN)
    ensures Preserved(Render(x, url, e)) == Preserved(x) <==> Replaceable(url)
  {
    var p, a := Preserved(x), RemoveBlocks(Escaped(url), ROOT_BEGIN, ROOT_END);
    Markers();
    EscapedHasNoNewline(url);
    StillNoNewline(Escaped(url), ROOT_BEGIN, ROOT_END);
    PreservedStarts(x);
    StripOfLead(RemoveBlocks(RemoveBlocks(x, ROOT_BEGIN, ROOT_END), TABLE_BEGIN, TABLE_END));
    hide Lead, Strip, Assembled, RemoveBlocks, Escaped, TableWith, Marker, Reopened;
    RootsGo(p, url, e);
    TableGoes(p, a);
    if Left(a) == "" {
      assert Lead(p) + Left(a) == Lead(p);
    } else {
      LeftShows(p, Left(a));
    }
  }

  /** So a rendering replaces the one before it. */
  lemma RenderReplaces(x: string, url1: string, e1: Effort, url2: string, e2: Effort)
    requires !Contains(Preserved(x), ROOT_BEGIN) && !Contains(Preserved(x), TABLE_BEGIN) && Replaceable(url1)
    ensures Preserved(Render(x, url1, e1)) == Preserved(x)
    ensures Render(Render(x, url1, e1), url2, e2) == Render(x, url2, e2)
  {
    hide Preserved, Replaceable;
    ReplaceableExactly(x, url1, e1);
  }

  /**
    An address that begins no root block and ends no table block is replaceable, and one that begins no block at
    all exactly if it ends no table block.
  */
  lemma PlainAddresses(url: string)
    requires !Contains(url, ROOT_BEGIN)
    ensures !Contains(url, TABLE_END) ==> Replaceable(url)
    ensures !Contains(url, TABLE_BEGIN) ==> (Replaceable(url) <==> !Contains(url, TABLE_END))
  {
    Markers();
    EscapedContains(url, ROOT_BEGIN);
    EscapedContains(url, TABLE_BEGIN);
    EscapedContains(url, TABLE_END);
    var a := Escaped(url);
    hide Escaped, Marker;
    NothingToRemove(a, ROOT_BEGIN, ROOT_END);
    NeverReopened(a, TABLE_BEGIN, TABLE_END);
  }

  lemma NeverReopened(a: string, begin: string, end: string)
    requires end != ""
    ensures !Contains(a, end) ==> Reopened(a, begin, end)
    ensures !Contains(a, begin) && Contains(a, end) ==> !Reopened(a, begin, end)
  {
    if AfterEnd(a, end).Some? {
      var j := Find(a, end, 0).value;
      assert OccursAt(a, end, j);
      if !Contains(a, begin) {
        NotWithin(a, j + |end|, begin);
      }
    }
  }

  lemma NotWithin(a: string, n: nat, m: string)
    requires n <= |a| && !Contains(a, m)
    ensures !(m <= a[n..])
  {
    assert !OccursAt(a, m, n);
    if n + |m| <= |a| {
      assert a[n..][..|m|] == a[n..n + |m|];
    }
  }

  /** The addresses a login submits have passed a URL parser, which encodes spaces; and every marker has one. */
  lemma SubmittedAddresses(url: string)
    requires ' ' !in url
    ensures Replaceable(url)
  {
    hide Replaceable;
    NoMarkerWithoutSpace(url, ROOT_BEGIN);
    NoMarkerWithoutSpace(url, TABLE_BEGIN);
    NoMarkerWithoutSpace(url, TABLE_END);
    PlainAddresses(url);
  }

  lemma NoMarkerWithoutSpace(url: string, marker: string)
    requires ' ' !in url && |marker| > 1 && marker[1] == ' '
    ensures !Contains(url, marker)
  {
    forall k: nat ensures !OccursAt(url, marker, k) {
      if k + |marker| <= |url| {
        assert url[k..k + |marker|][1] == url[k + 1];
      }
    }
  }
}

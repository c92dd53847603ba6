/** Splitting a NUL-terminated line into words by overwriting the blank after each. */
module Tokenizer {
  import opened Bits

  predicate Blank(b: uint8) {
    b == 0x20 || b == 0x09
  }

  function SkipBlanks(s: Bytes, i: nat): (j: nat)
    requires i <= |s|
    ensures i <= j <= |s| && (j < |s| ==> !Blank(s[j]))
    decreases |s| - i
  {
    if i < |s| && Blank(s[i]) then SkipBlanks(s, i + 1) else i
  }

  function WordEnd(s: Bytes, i: nat): (j: nat)
    requires i <= |s|
    ensures i <= j <= |s| && (i < |s| && !Blank(s[i]) ==> i < j)
    decreases |s| - i
  {
    if i < |s| && !Blank(s[i]) then WordEnd(s, i + 1) else i
  }

  lemma {:induction false} SkipBlanksStops(s: Bytes, i: nat)
    requires i <= |s|
    ensures var j := SkipBlanks(s, i);
            forall k :: i <= k < j ==> Blank(s[k])
    decreases |s| - i
  {
    if i < |s| && Blank(s[i]) {
      SkipBlanksStops(s, i + 1);
    }
  }

  lemma {:induction false} WordEndStops(s: Bytes, i: nat)
    requires i <= |s|
    ensures var j := WordEnd(s, i);
            (forall k :: i <= k < j ==> !Blank(s[k])) && (j < |s| ==> Blank(s[j]))
    decreases |s| - i
  {
    if i < |s| && !Blank(s[i]) {
      WordEndStops(s, i + 1);
    }
  }

  /** Where a word begins and ends. */
  datatype Span = Span(start: nat, end: nat)

  /** The words from index i on. */
  function Words(s: Bytes, i: nat): seq<Span>
    requires i <= |s|
    decreases |s| - i
  {
    var b := SkipBlanks(s, i);
    if b == |s| then []
    else
      var e := WordEnd(s, b);
      [Span(b, e)] + Words(s, if e < |s| then e + 1 else e)
  }

  /** A maximal run of bytes that are neither spaces nor tabs. */
  predicate IsRun(s: Bytes, b: nat, e: nat) {
    && b < e <= |s|
    && (forall k :: b <= k < e ==> s[k] != 0x20 && s[k] != 0x09)
    && (b == 0 || s[b - 1] in {0x20, 0x09}) && (e == |s| || s[e] in {0x20, 0x09})
  }

  /** Ordered runs from index i on. */
  predicate RunsInOrder(s: Bytes, words: seq<Span>, i: nat) {
    words == [] ||
    (i <= words[0].start && IsRun(s, words[0].start, words[0].end) && RunsInOrder(s, words[1..], words[0].end + 1))
  }

  /** The words are the maximal runs, in order. */
  lemma {:induction false} WordsAreRuns(s: Bytes, i: nat)
    requires i <= |s| && (i == 0 || i == |s| || Blank(s[i - 1]))
    ensures RunsInOrder(s, Words(s, i), i)
    decreases |s| - i
  {
    var b := SkipBlanks(s, i);
    if b < |s| {
      FirstIsRun(s, i);
      var e := WordEnd(s, b);
      FirstWord(s, i, b, e);
      if e < |s| {
        WordsAreRuns(s, e + 1);
        assert Words(s, i)[1..] == Words(s, e + 1);
      } else {
        assert Words(s, i)[1..] == [];
      }
    }
  }

  lemma FirstWord(s: Bytes, i: nat, b: nat, e: nat)
    requires i <= b < e <= |s| && SkipBlanks(s, i) == b && WordEnd(s, b) == e
    ensures Words(s, i) == [Span(b, e)] + Words(s, if e < |s| then e + 1 else e)
    ensures e == |s| ==> Words(s, e) == []
  {
  }

  lemma FirstIsRun(s: Bytes, i: nat)
    requires i <= |s| && (i == 0 || i == |s| || Blank(s[i - 1])) && SkipBlanks(s, i) < |s|
    ensures var b := SkipBlanks(s, i);
            IsRun(s, b, WordEnd(s, b))
  {
    SkipBlanksStops(s, i);
    WordEndStops(s, SkipBlanks(s, i));
  }

  /** There are no others. */
  lemma {:induction false} RunsAreWords(s: Bytes, i: nat, b: nat, e: nat)
    requires i <= b && IsRun(s, b, e)
    ensures Span(b, e) in Words(s, i)
    decreases |s| - i
  {
    var first := SkipBlanks(s, i);
    SkipBlanksStops(s, i);
    assert !Blank(s[b]);
    WordEndStops(s, first);
    var end := WordEnd(s, first);
    if b > end {
      RunsAreWords(s, end + 1, b, e);
    } else if b > first {
      assert false;
    }
  }

  /** A token found: its word stands where it stood, and is followed by a NUL. */
  ghost predicate Found(now: Bytes, s: Bytes, word: Span, token: nat) {
    && token == word.start < word.end < |now| && word.end <= |s|
    && now[word.start..word.end] == s[word.start..word.end] && now[word.end] == 0
  }

  /** Only blanks have been overwritten, and only with NUL. */
  ghost predicate OnlyBlanksCut(was: Bytes, now: Bytes, n: nat) {
    |now| == |was| &&
    forall i :: 0 <= i < |was| ==> now[i] == was[i] || (i < n && was[i] in {0x20, 0x09} && now[i] == 0)
  }

  ghost predicate Rest(was: Bytes, now: Bytes, cursor: nat) {
    |now| == |was| && forall i :: cursor <= i < |was| ==> now[i] == was[i]
  }

  /** How far the tokenizer has got: the words found so far, and everything from the cursor on untouched. */
  ghost predicate Progress(was: Bytes, now: Bytes, n: nat, found: seq<Span>, token: seq<nat>, cursor: nat) {
    && n < |was| == |now| && cursor <= n && Rest(was, now, cursor) && OnlyBlanksCut(was, now, n)
    && |token| == |found|
    && forall k :: 0 <= k < |found| ==>
         Found(now, was[..n], found[k], token[k]) && (found[k].end < cursor || cursor == n)
  }

  lemma CutKeepsFound(now: Bytes, s: Bytes, word: Span, token: nat, c: nat)
    requires Found(now, s, word, token) && word.end < c < |now|
    ensures Found(now[c := 0], s, word, token)
  {
    assert now[c := 0][word.start..word.end] == now[word.start..word.end];
  }

  lemma NextWord(was: Bytes, now: Bytes, n: nat, found: seq<Span>, token: seq<nat>, cursor: nat, b: nat, e: nat)
    requires Progress(was, now, n, found, token, cursor) && cursor <= b < e <= n
    requires if e < n then Blank(was[e]) else was[n] == 0
    ensures var cut, next := if e < n then now[e := 0] else now, if e < n then e + 1 else e;
            Progress(was, cut, n, found + [Span(b, e)], token + [b], next)
  {
    var now' := if e < n then now[e := 0] else now;
    forall k | 0 <= k < |found| ensures Found(now', was[..n], found[k], token[k]) {
      if e < n {
        CutKeepsFound(now, was[..n], found[k], token[k], e);
      }
    }
    Untouched(was, now, n, cursor, b, e);
  }

  lemma Untouched(was: Bytes, now: Bytes, n: nat, cursor: nat, b: nat, e: nat)
    requires n < |was| && cursor <= b < e <= n && Rest(was, now, cursor)
    requires e == n ==> was[n] == 0
    ensures Found(if e < n then now[e := 0] else now, was[..n], Span(b, e), b)
  {
    assert now[b..e] == was[..n][b..e];
  }

  lemma WordHere(s: Bytes, found: seq<Span>, start: nat, b: nat, e: nat)
    requires start <= b < e <= |s| && SkipBlanks(s, start) == b && WordEnd(s, b) == e
    ensures found + Words(s, start) == found + [Span(b, e)] + Words(s, if e < |s| then e + 1 else e)
  {
    var rest := Words(s, if e < |s| then e + 1 else e);
    FirstWord(s, start, b, e);
    assert found + ([Span(b, e)] + rest) == found + [Span(b, e)] + rest;
  }

  /** The line from the cursor on is the text s from there on, closed by a NUL. */
  ghost predicate Ahead(now: Bytes, s: Bytes, cursor: nat) {
    cursor <= |s| < |now| && now[|s|] == 0 && forall i :: cursor <= i < |s| ==> now[i] == s[i] != 0
  }

  /** The loop over blanks. */
  method PassBlanks(line: array<uint8>, start: nat, ghost s: Bytes) returns (cursor: nat)
    requires Ahead(line[..], s, start)
    ensures cursor == SkipBlanks(s, start)
  {
    cursor := start;
    while Blank(line[cursor])
      invariant start <= cursor <= |s| && SkipBlanks(s, cursor) == SkipBlanks(s, start)
      decreases |s| - cursor
    {
      cursor := cursor + 1;
    }
  }

  /** The loop over a word. */
  method PassWord(line: array<uint8>, start: nat, ghost s: Bytes) returns (cursor: nat)
    requires Ahead(line[..], s, start)
    ensures cursor == WordEnd(s, start)
  {
    cursor := start;
    while line[cursor] != 0 && !Blank(line[cursor])
      invariant start <= cursor <= |s| && WordEnd(s, cursor) == WordEnd(s, start)
      decreases |s| - cursor
    {
      cursor := cursor + 1;
    }
  }

  method Tokenize(line: array<uint8>, max: nat, ghost n: nat) returns (token: seq<nat>)
    requires n < line.Length && line[n] == 0 && forall i :: 0 <= i < n ==> line[i] != 0
    modifies line
    ensures var s, words := old(line[..n]), Words(old(line[..n]), 0);
            && |token| == (if max < |words| then max else |words|)
            && forall k :: 0 <= k < |token| ==> Found(line[..], s, words[k], token[k])
    ensures OnlyBlanksCut(old(line[..]), line[..], n)
  {
    token := [];
    var cursor: nat := 0;
    ghost var s, was := line[..n], line[..];
    ghost var found: seq<Span> := [];
    assert was[..n] == s;
    while line[cursor] != 0 && |token| < max
      invariant Progress(was, line[..], n, found, token, cursor)
      invariant |token| <= max && Words(s, 0) == found + Words(s, cursor)
      decreases n - cursor
    {
      ghost var now, start := line[..], cursor;
      AheadOf(was, now, n, cursor);
      SkipBlanksStops(s, cursor);
      cursor := PassBlanks(line, cursor, s);
      if line[cursor] == 0 {
        assert cursor == |s|;
        break;
      }
      var b: nat := cursor;
      WordEndStops(s, b);
      cursor := PassWord(line, cursor, s);
      WordHere(s, found, start, b, cursor);
      NextWord(was, now, n, found, token, start, b, cursor);
      token := token + [b];
      ghost var word := Span(b, cursor);
      found := found + [word];
      assert cursor < n ==> line[..][cursor] == was[cursor];
      cursor := CloseWord(line, cursor, n);
    }
  }

  /** The blank after a word becomes its NUL; the NUL that ends the line is left. */
  method CloseWord(line: array<uint8>, e: nat, ghost n: nat) returns (next: nat)
    requires e <= n < line.Length && (line[e] == 0 <==> e == n)
    modifies line
    ensures line[..] == if e < n then old(line[..])[e := 0] else old(line[..])
    ensures next == if e < n then e + 1 else e
  {
    next := e;
    if line[e] != 0 {
      line[e] := 0;
      next := e + 1;
    }
  }

  lemma AheadOf(was: Bytes, now: Bytes, n: nat, cursor: nat)
    requires n < |was| && was[n] == 0 && (forall i :: 0 <= i < n ==> was[i] != 0)
    requires cursor <= n && Rest(was, now, cursor)
    ensures Ahead(now, was[..n], cursor)
  {
  }
}

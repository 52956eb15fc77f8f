/**
 The CIP-20 (metadata label 674) message chunker: a string cut into pieces of at most `maxLen` code units, at a space
 where one comes late enough.
 */
module Cip674 {
  import opened Utf16

  const MAX_CHUNK_LENGTH := 64
  const MIN_SPACE_BREAK := 40

  /** Where a text longer than `maxLen` is cut. */
  function BreakPoint(s: Text, maxLen: nat, minBreak: nat): (b: nat)
    requires |s| > maxLen > 0
    ensures 0 < b <= maxLen && b > if minBreak < maxLen then minBreak else maxLen - 1
    ensures s[b] == 0x20 || b == maxLen
    ensures forall i :: minBreak < i <= maxLen && s[i] == 0x20 ==> i <= b && s[b] == 0x20
  {
    var lastSpace := LastIndexOf(s[..maxLen + 1], SPACE);
    if lastSpace > minBreak then lastSpace else maxLen
  }

  function Chunks(s: Text, maxLen: nat, minBreak: nat): seq<Text>
    requires maxLen > 0
    decreases |s|
  {
    if s == [] then []
    else if |s| <= maxLen then [s]
    else
      var b := BreakPoint(s, maxLen, minBreak);
      [TrimEnd(s[..b])] + Chunks(TrimStart(s[b..]), maxLen, minBreak)
  }

  method ChunkCip674Message(raw: Text, maxLen: nat, minBreak: nat) returns (chunks: seq<Text>)
    requires maxLen > 0
    ensures chunks == Chunks(raw, maxLen, minBreak)
  {
    chunks := [];
    var remaining := raw;
    while |remaining| > 0
      invariant chunks + Chunks(remaining, maxLen, minBreak) == Chunks(raw, maxLen, minBreak)
      decreases |remaining|
    {
      if |remaining| <= maxLen {
        chunks := chunks + [remaining];
        return;
      }
      var breakPoint := maxLen;
      var lastSpace := LastIndexOf(remaining[..maxLen + 1], SPACE);
      if lastSpace > minBreak {
        breakPoint := lastSpace;
      }
      ChunksNext(chunks, remaining, maxLen, minBreak);
      chunks := chunks + [TrimEnd(remaining[..breakPoint])];
      remaining := TrimStart(remaining[breakPoint..]);
    }
  }

  lemma ChunksNext(done: seq<Text>, s: Text, maxLen: nat, minBreak: nat)
    requires |s| > maxLen > 0
    ensures var b := BreakPoint(s, maxLen, minBreak);
            (done + [TrimEnd(s[..b])]) + Chunks(TrimStart(s[b..]), maxLen, minBreak) ==
                done + Chunks(s, maxLen, minBreak)
  {
  }

  /** The `msg` field of the label-674 metadata. */
  method FormatCip674MetadataMessage(raw: Text) returns (msg: seq<Text>)
    ensures msg == Chunks(raw, 64, 40)
  {
    msg := ChunkCip674Message(raw, MAX_CHUNK_LENGTH, MIN_SPACE_BREAK);
  }

  // ----- Size -----

  lemma {:induction false} ChunksFit(s: Text, maxLen: nat, minBreak: nat)
    requires maxLen > 0
    ensures forall k :: 0 <= k < |Chunks(s, maxLen, minBreak)| ==> |Chunks(s, maxLen, minBreak)[k]| <= maxLen
    decreases |s|
  {
    if |s| > maxLen {
      ChunksFit(TrimStart(s[BreakPoint(s, maxLen, minBreak)..]), maxLen, minBreak);
    }
  }

  /** What a chunk other than the last uses up of the input, at least. */
  function LeastCut(maxLen: nat, minBreak: nat): nat {
    if minBreak < maxLen then minBreak + 1 else maxLen
  }

  lemma OneMoreCut(least: int, others: nat, rest: int, whole: int)
    requires others > 0 ==> least * (others - 1) < rest
    requires others > 0 ==> least + rest <= whole
    requires 0 < whole
    ensures least * others < whole
  {
    if others > 0 {
      assert least * (others - 1) == least * others - least;
    } else {
      assert least * others == 0;
    }
  }

  /** Every chunk but the last uses up more than `minBreak` units (or `maxLen`, if that is less) of the input. */
  lemma {:induction false} ChunkCount(s: Text, maxLen: nat, minBreak: nat)
    requires maxLen > 0 && s != []
    ensures LeastCut(maxLen, minBreak) * (|Chunks(s, maxLen, minBreak)| - 1) < |s|
    decreases |s|
  {
    var rest := if |s| > maxLen then TrimStart(s[BreakPoint(s, maxLen, minBreak)..]) else [];
    if rest != [] {
      ChunkCount(rest, maxLen, minBreak);
    }
    var others := |Chunks(s, maxLen, minBreak)| - 1;
    assert others == |Chunks(rest, maxLen, minBreak)|;
    OneMoreCut(LeastCut(maxLen, minBreak), others, |rest|, |s|);
  }

  /** With the defaults: 41 * (chunks - 1) < length. */
  lemma DefaultChunkCount(s: Text)
    requires s != []
    ensures 41 * (|Chunks(s, 64, 40)| - 1) < |s|
  {
    ChunkCount(s, MAX_CHUNK_LENGTH, MIN_SPACE_BREAK);
  }

  // ----- Where it cuts -----

  /** A text that is too long is cut at the last space beyond the least position that still fits, counting the one right
      after the limit, or at the limit if there is none; the chunk loses the whitespace at its end, the rest that at its
      start, and the rest is chunked the same way. */
  lemma CutsAtLastSpace(s: Text, maxLen: nat, minBreak: nat) returns (b: nat)
    requires |s| > maxLen > 0
    ensures 0 < b <= maxLen
    ensures if exists i :: minBreak < i <= maxLen && s[i] == 0x20
            then b > minBreak && s[b] == 0x20 && forall i :: b < i <= maxLen ==> s[i] != 0x20
            else b == maxLen
    ensures Chunks(s, maxLen, minBreak) == [TrimEnd(s[..b])] + Chunks(TrimStart(s[b..]), maxLen, minBreak)
  {
    b := BreakPoint(s, maxLen, minBreak);
  }

  ghost predicate StartsWithSpace(s: Text) {
    s != [] && IsSpace(s[0])
  }

  ghost predicate EndsWithSpace(s: Text) {
    s != [] && IsSpace(s[|s| - 1])
  }

  /** No chunk but the first starts with whitespace, and none but the last ends with it. */
  ghost predicate TrimmedInside(chunks: seq<Text>) {
    && (forall k :: 0 < k < |chunks| ==> !StartsWithSpace(chunks[k]))
    && (forall k :: 0 <= k < |chunks| - 1 ==> !EndsWithSpace(chunks[k]))
  }

  lemma TrimmedNext(chunk: Text, more: seq<Text>)
    requires TrimmedInside(more) && !EndsWithSpace(chunk) && (more != [] ==> !StartsWithSpace(more[0]))
    ensures TrimmedInside([chunk] + more)
  {
  }

  lemma {:induction false} ChunksAreTrimmed(s: Text, maxLen: nat, minBreak: nat)
    requires maxLen > 0
    ensures TrimmedInside(Chunks(s, maxLen, minBreak))
    ensures s != [] && !StartsWithSpace(s) ==> !StartsWithSpace(Chunks(s, maxLen, minBreak)[0])
    decreases |s|
  {
    if |s| > maxLen {
      var b := BreakPoint(s, maxLen, minBreak);
      TailIsSpace(s[..b]);
      LeadIsSpace(s[b..]);
      ChunksAreTrimmed(TrimStart(s[b..]), maxLen, minBreak);
      TrimmedNext(TrimEnd(s[..b]), Chunks(TrimStart(s[b..]), maxLen, minBreak));
    }
  }

  // ----- Nothing but whitespace is lost -----

  /** The whitespace dropped after each chunk. */
  function Gaps(s: Text, maxLen: nat, minBreak: nat): seq<Text>
    requires maxLen > 0
    decreases |s|
  {
    if s == [] then []
    else if |s| <= maxLen then [[]]
    else
      var b := BreakPoint(s, maxLen, minBreak);
      var rest := TrimStart(s[b..]);
      [s[|TrimEnd(s[..b])|..|s| - |rest|]] + Gaps(rest, maxLen, minBreak)
  }

  function Weave(chunks: seq<Text>, gaps: seq<Text>): Text
    requires |chunks| == |gaps|
  {
    if chunks == [] then [] else chunks[0] + gaps[0] + Weave(chunks[1..], gaps[1..])
  }

  lemma AllSpaceConcat(a: Text, b: Text)
    requires AllSpace(a) && AllSpace(b)
    ensures AllSpace(a + b)
  {
  }

  /** One cut: the text is the chunk, whitespace, and the rest. */
  lemma MiddleSlice(s: Text, m: nat, b: nat, n: nat)
    requires m <= b <= |s| && b + n <= |s|
    ensures s[..b][m..] + s[b..][..n] == s[m..b + n]
    ensures s[..b][..m] == s[..m] && s[b..][n..] == s[b + n..]
  {
  }

  lemma CutLosesOnlySpace(s: Text, b: nat)
    requires b <= |s|
    ensures var chunk, rest := TrimEnd(s[..b]), TrimStart(s[b..]);
            && |chunk| <= |s| - |rest|
            && AllSpace(s[|chunk|..|s| - |rest|])
            && s == chunk + s[|chunk|..|s| - |rest|] + rest
  {
    var m, n := BodyLength(s[..b]), LeadLength(s[b..]);
    TailIsSpace(s[..b]);
    LeadIsSpace(s[b..]);
    MiddleSlice(s, m, b, n);
    AllSpaceConcat(s[..b][m..], s[b..][..n]);
  }

  /** The input is exactly the chunks in order, with whitespace-only gaps in between. */
  lemma {:induction false} ChunksLoseOnlySpace(s: Text, maxLen: nat, minBreak: nat)
    requires maxLen > 0
    ensures var chunks, gaps := Chunks(s, maxLen, minBreak), Gaps(s, maxLen, minBreak);
            && |gaps| == |chunks|
            && (forall k :: 0 <= k < |gaps| ==> AllSpace(gaps[k]))
            && Weave(chunks, gaps) == s
    decreases |s|
  {
    if s == [] {
    } else if |s| <= maxLen {
      assert Weave([s], [[]]) == s + [] + Weave([], []);
    } else {
      var b := BreakPoint(s, maxLen, minBreak);
      var rest := TrimStart(s[b..]);
      ChunksLoseOnlySpace(rest, maxLen, minBreak);
      CutLosesOnlySpace(s, b);
      var chunks, gaps := Chunks(s, maxLen, minBreak), Gaps(s, maxLen, minBreak);
      assert chunks[1..] == Chunks(rest, maxLen, minBreak) && gaps[1..] == Gaps(rest, maxLen, minBreak);
    }
  }

  // ----- Words -----

  /** The maximal runs of non-whitespace, in order. */
  function Words(s: Text): seq<Text>
    decreases |s|
  {
    if s == [] then []
    else if IsSpace(s[0]) then Words(s[1..])
    else [s[..WordLength(s)]] + Words(s[WordLength(s)..])
  }

  function WordsOfAll(chunks: seq<Text>): seq<Text> {
    if chunks == [] then [] else Words(chunks[0]) + WordsOfAll(chunks[1..])
  }

  lemma {:induction false} WordLengthSplit(a: Text, b: Text)
    requires b == [] || IsSpace(b[0])
    ensures WordLength(a + b) == WordLength(a)
  {
    if a == [] {
    } else if !IsSpace(a[0]) {
      WordLengthSplit(a[1..], b);
      assert (a + b)[1..] == a[1..] + b;
    }
  }

  lemma TakeFirstWord(a: Text, b: Text)
    requires a != [] && !IsSpace(a[0]) && (b == [] || IsSpace(b[0]))
    ensures var n := WordLength(a);
            n > 0 && Words(a + b) == [a[..n]] + Words(a[n..] + b)
  {
    var n := WordLength(a);
    WordLengthSplit(a, b);
    assert (a + b)[n..] == a[n..] + b;
    assert (a + b)[..n] == a[..n];
  }

  lemma SkipSpace(a: Text, b: Text)
    requires a != [] && IsSpace(a[0])
    ensures Words(a + b) == Words(a[1..] + b) && Words(a) == Words(a[1..])
  {
    assert (a + b)[1..] == a[1..] + b;
  }

  lemma AppendToFirst(first: Text, x: seq<Text>, y: seq<Text>)
    ensures [first] + (x + y) == ([first] + x) + y
  {
  }

  /** The split of a text that starts with a word, given that of the rest. */
  lemma WordThenRest(a: Text, b: Text)
    requires a != [] && !IsSpace(a[0]) && (b == [] || IsSpace(b[0]))
    requires Words(a[WordLength(a)..] + b) == Words(a[WordLength(a)..]) + Words(b)
    ensures Words(a + b) == Words(a) + Words(b)
  {
    var n := WordLength(a);
    TakeFirstWord(a, b);
    AppendToFirst(a[..n], Words(a[n..]), Words(b));
  }

  /** Cutting right before a space (or at an end) cuts no word. */
  lemma {:induction false} WordsSplit(a: Text, b: Text)
    requires b == [] || IsSpace(b[0])
    ensures Words(a + b) == Words(a) + Words(b)
    decreases |a|
  {
    if a == [] {
      assert a + b == b;
    } else if IsSpace(a[0]) {
      SkipSpace(a, b);
      WordsSplit(a[1..], b);
    } else {
      TakeFirstWord(a, b);
      WordsSplit(a[WordLength(a)..], b);
      WordThenRest(a, b);
    }
  }

  lemma {:induction false} SpacesHaveNoWords(s: Text)
    requires AllSpace(s)
    ensures Words(s) == []
  {
    if s != [] {
      SpacesHaveNoWords(s[1..]);
    }
  }

  lemma {:induction false} LeadingSpaces(a: Text, b: Text)
    requires AllSpace(a)
    ensures Words(a + b) == Words(b)
  {
    if a == [] {
      assert a + b == b;
    } else {
      LeadingSpaces(a[1..], b);
      assert (a + b)[1..] == a[1..] + b;
    }
  }

  lemma SplitAt(s: Text, n: nat)
    requires n <= |s|
    ensures s[..n] + s[n..] == s
  {
  }

  lemma TrimStartKeepsWords(s: Text)
    ensures Words(TrimStart(s)) == Words(s)
  {
    var n := LeadLength(s);
    LeadIsSpace(s);
    SplitAt(s, n);
    LeadingSpaces(s[..n], s[n..]);
  }

  lemma TrimEndKeepsWords(s: Text)
    ensures Words(TrimEnd(s)) == Words(s)
  {
    var n := BodyLength(s);
    TailIsSpace(s);
    SplitAt(s, n);
    WordsSplit(s[..n], s[n..]);
    SpacesHaveNoWords(s[n..]);
  }

  ghost predicate WordsShorterThan(s: Text, n: int) {
    forall w :: w in Words(s) ==> |w| < n
  }

  /** A stretch without whitespace lies inside one word. */
  lemma {:induction false} StretchIsInWord(s: Text, i: nat, n: nat)
    requires 0 < n && i + n <= |s| && forall k :: i <= k < i + n ==> !IsSpace(s[k])
    ensures exists w :: w in Words(s) && |w| >= n
    decreases |s|
  {
    if IsSpace(s[0]) {
      StretchIsInWord(s[1..], i - 1, n);
    } else {
      var m := WordLength(s);
      if i < m {
        assert s[..m] in Words(s);
      } else {
        assert i != m;
        StretchIsInWord(s[m..], i - m, n);
      }
    }
  }

  ghost predicate OnlySpaces(s: Text) {
    forall i :: 0 <= i < |s| ==> IsSpace(s[i]) ==> s[i] == SPACE
  }

  /** With short words, a long text is always cut at a space. */
  lemma ShortWordsBreakAtSpace(s: Text, maxLen: nat, minBreak: nat)
    requires |s| > maxLen > 0 && OnlySpaces(s) && WordsShorterThan(s, maxLen - minBreak)
    requires minBreak < maxLen
    ensures s[BreakPoint(s, maxLen, minBreak)] == SPACE
  {
    var lastSpace := LastIndexOf(s[..maxLen + 1], SPACE);
    if lastSpace <= minBreak {
      forall k | minBreak + 1 <= k < maxLen + 1 ensures !IsSpace(s[k]) {
        assert s[..maxLen + 1][k] != SPACE;
      }
      StretchIsInWord(s, minBreak + 1, maxLen - minBreak);
    }
  }

  lemma RestWords(s: Text, b: nat)
    requires b < |s| && s[b] == SPACE
    ensures Words(s) == Words(TrimEnd(s[..b])) + Words(TrimStart(s[b..]))
  {
    TrimEndKeepsWords(s[..b]);
    TrimStartKeepsWords(s[b..]);
    WordsSplit(s[..b], s[b..]);
    SplitAt(s, b);
  }

  /** What is left after such a cut still has only short words. */
  lemma RestStaysShort(s: Text, b: nat, n: int)
    requires b < |s| && s[b] == SPACE && OnlySpaces(s) && WordsShorterThan(s, n)
    ensures OnlySpaces(TrimStart(s[b..])) && WordsShorterThan(TrimStart(s[b..]), n)
  {
    RestWords(s, b);
    var rest := TrimStart(s[b..]);
    forall w | w in Words(rest) ensures |w| < n {
      assert w in Words(s);
    }
    assert forall i :: 0 <= i < |rest| ==> rest[i] == s[|s| - |rest| + i];
  }

  /** If ' ' is the only whitespace and every word is shorter than maxLen - minBreak, no word is split: the words of
      the chunks are the words of the input. (With no word at all the last condition asks for minBreak < maxLen.) */
  lemma {:induction false} NoWordIsSplit(s: Text, maxLen: nat, minBreak: nat)
    requires minBreak < maxLen && OnlySpaces(s) && WordsShorterThan(s, maxLen - minBreak)
    ensures WordsOfAll(Chunks(s, maxLen, minBreak)) == Words(s)
    decreases |s|
  {
    if |s| > maxLen {
      var b := BreakPoint(s, maxLen, minBreak);
      ShortWordsBreakAtSpace(s, maxLen, minBreak);
      RestWords(s, b);
      RestStaysShort(s, b, maxLen - minBreak);
      NoWordIsSplit(TrimStart(s[b..]), maxLen, minBreak);
      assert Chunks(s, maxLen, minBreak)[1..] == Chunks(TrimStart(s[b..]), maxLen, minBreak);
    } else if s != [] {
      assert WordsOfAll([s]) == Words(s) + WordsOfAll([]);
    }
  }

  function Repeat(c: CodeUnit, n: nat): (r: Text)
    ensures |r| == n && forall i :: 0 <= i < n ==> r[i] == c
  {
    seq(n, _ => c)
  }

  /** A text whose last space comes too early is cut at the limit, in the middle of a word if need be. */
  lemma CutAtLimit(s: Text, maxLen: nat, minBreak: nat)
    requires |s| == maxLen + 1 && 0 < maxLen && !IsSpace(s[maxLen - 1]) && !IsSpace(s[maxLen])
    requires forall i :: minBreak < i < |s| ==> s[i] != SPACE
    ensures Chunks(s, maxLen, minBreak) == [s[..maxLen], [s[maxLen]]]
  {
    assert s[..maxLen + 1] == s;
    assert BreakPoint(s, maxLen, minBreak) == maxLen;
    var head, last := s[..maxLen], s[maxLen..];
    assert last == [s[maxLen]];
    assert BodyLength(head) == maxLen && TrimEnd(head) == head;
    assert LeadLength(last) == 0 && TrimStart(last) == last;
    assert Chunks(last, maxLen, minBreak) == [last];
  }

  /** The bound is sharp: one word of exactly maxLen - minBreak letters in the wrong place is split. */
  lemma BoundIsSharp(maxLen: nat, minBreak: nat, x: CodeUnit, y: CodeUnit)
    requires minBreak + 2 <= maxLen && !IsSpace(x) && !IsSpace(y)
    ensures var s := Repeat(x, minBreak) + [SPACE] + Repeat(y, maxLen - minBreak);
            |s| == maxLen + 1 && Chunks(s, maxLen, minBreak) == [s[..maxLen], [y]]
  {
    var s := Repeat(x, minBreak) + [SPACE] + Repeat(y, maxLen - minBreak);
    assert forall i :: minBreak < i < |s| ==> s[i] == y;
    CutAtLimit(s, maxLen, minBreak);
  }

  // ----- Round trip -----

  ghost predicate SingleSpaced(s: Text) {
    && (s != [] ==> !IsSpace(s[0]) && !IsSpace(s[|s| - 1]))
    && forall i :: 0 < i < |s| && IsSpace(s[i]) ==> !IsSpace(s[i - 1])
  }

  function JoinWithSpace(chunks: seq<Text>): Text {
    if chunks == [] then []
    else if |chunks| == 1 then chunks[0]
    else chunks[0] + [SPACE] + JoinWithSpace(chunks[1..])
  }

  lemma CutOfSingleSpaced(s: Text, b: nat)
    requires SingleSpaced(s) && 0 < b < |s| && s[b] == SPACE
    ensures TrimEnd(s[..b]) == s[..b]
    ensures b + 1 < |s| && TrimStart(s[b..]) == s[b + 1..] && SingleSpaced(s[b + 1..])
  {
    assert s[..b][b - 1] == s[b - 1];
    assert b != |s| - 1;
    assert !IsSpace(s[b + 1]);
    assert s[b..][1..] == s[b + 1..];
    assert LeadLength(s[b + 1..]) == 0;
    assert LeadLength(s[b..]) == 1;
  }

  lemma RestoreAtSpace(s: Text, b: nat)
    requires b < |s| && s[b] == SPACE
    ensures s[..b] + [SPACE] + s[b + 1..] == s
  {
  }

  lemma JoinCons(first: Text, others: seq<Text>)
    requires others != []
    ensures JoinWithSpace([first] + others) == first + [SPACE] + JoinWithSpace(others)
  {
    assert ([first] + others)[1..] == others;
  }

  lemma ChunksExist(s: Text, maxLen: nat, minBreak: nat)
    requires s != [] && maxLen > 0
    ensures Chunks(s, maxLen, minBreak) != []
  {
  }

  /** If moreover the words are separated by single spaces, with none at either end, joining the chunks with ' ' gives
      the input back exactly. */
  lemma {:induction false} JoinRestoresInput(s: Text, maxLen: nat, minBreak: nat)
    requires minBreak < maxLen && OnlySpaces(s) && WordsShorterThan(s, maxLen - minBreak) && SingleSpaced(s)
    ensures JoinWithSpace(Chunks(s, maxLen, minBreak)) == s
    decreases |s|
  {
    if |s| > maxLen {
      var b := BreakPoint(s, maxLen, minBreak);
      ShortWordsBreakAtSpace(s, maxLen, minBreak);
      CutOfSingleSpaced(s, b);
      RestStaysShort(s, b, maxLen - minBreak);
      var rest := s[b + 1..];
      JoinRestoresInput(rest, maxLen, minBreak);
      ChunksExist(rest, maxLen, minBreak);
      JoinCons(s[..b], Chunks(rest, maxLen, minBreak));
      RestoreAtSpace(s, b);
    }
  }
}

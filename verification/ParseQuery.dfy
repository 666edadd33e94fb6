/** The text part of query parsing: stop-word removal, and the scan for quoted phrases. */
module ParseQuery {
  import opened Text
  import opened Options

  // ---------------------------------------------------------------- stop words

  function Kept(words: seq<string>, isStop: string -> bool): seq<string> {
    if words == [] then []
    else Kept(words[..|words| - 1], isStop) + if isStop(words[|words| - 1]) then [] else [words[|words| - 1]]
  }

  /** Split on spaces, drop the stop words, rejoin; a query that becomes empty is kept as it was. */
  function WithoutStopWords(query: string, isStop: string -> bool): string {
    var kept := Join(Kept(Split(query, ' '), isStop), ' ');
    if kept == "" then query else kept
  }

  /** Adding a joined group to joined groups is joining all their words. */
  lemma JoinGroup(parts: seq<string>, words: seq<string>, group: seq<string>)
    requires group != [] && (parts == [] <==> words == []) && Join(parts, ' ') == Join(words, ' ')
    ensures Join(parts + [Join(group, ' ')], ' ') == Join(words + group, ' ')
  {
    if parts == [] {
      assert parts + [Join(group, ' ')] == [Join(group, ' ')] && words + group == group;
    } else {
      JoinConcat(parts, [Join(group, ' ')], ' ');
      JoinConcat(words, group, ' ');
    }
  }

  lemma KeptNext(words: seq<string>, i: nat, isStop: string -> bool)
    requires i < |words|
    ensures Kept(words[..i + 1], isStop) == Kept(words[..i], isStop) + if isStop(words[i]) then [] else [words[i]]
  {
    assert words[..i + 1][..i] == words[..i];
  }

  /** The loop with its two accumulators: finished chunks, and the chunk since the last stop word. */
  method RemoveStopWords(query: string, isStop: string -> bool) returns (result: string)
    ensures result == WithoutStopWords(query, isStop)
  {
    var parts: seq<string>, chunk: seq<string> := [], [];
    ghost var flat: seq<string> := [];
    var words := Split(query, ' ');
    var i := 0;
    while i < |words|
      invariant 0 <= i <= |words|
      invariant flat + chunk == Kept(words[..i], isStop)
      invariant (parts == [] <==> flat == []) && Join(parts, ' ') == Join(flat, ' ')
    {
      KeptNext(words, i, isStop);
      if !isStop(words[i]) {
        assert flat + (chunk + [words[i]]) == (flat + chunk) + [words[i]];
        chunk := chunk + [words[i]];
      } else if chunk != [] {
        JoinGroup(parts, flat, chunk);
        parts, flat, chunk := parts + [Join(chunk, ' ')], flat + chunk, [];
      }
      i := i + 1;
    }
    assert words[..|words|] == words;
    if chunk != [] {
      JoinGroup(parts, flat, chunk);
      parts := parts + [Join(chunk, ' ')];
    } else {
      assert flat + chunk == flat;
    }
    var newQuery := Join(parts, ' ');
    result := if newQuery == "" then query else newQuery;
  }

  lemma KeptSnoc(words: seq<string>, w: string, isStop: string -> bool)
    ensures Kept(words + [w], isStop) == Kept(words, isStop) + if isStop(w) then [] else [w]
  {
    assert (words + [w])[..|words|] == words;
  }

  lemma {:induction false} KeptTwice(words: seq<string>, isStop: string -> bool)
    ensures Kept(Kept(words, isStop), isStop) == Kept(words, isStop)
    ensures Free(words, ' ') ==> Free(Kept(words, isStop), ' ')
  {
    if words != [] {
      var front, last := words[..|words| - 1], words[|words| - 1];
      KeptTwice(front, isStop);
      assert words == front + [last];
      if isStop(last) {
        assert Kept(words, isStop) == Kept(front, isStop);
      } else {
        KeptSnoc(Kept(front, isStop), last, isStop);
      }
    }
  }

  /** The words that are kept are filtered piece by piece. */
  lemma {:induction false} KeptConcat(a: seq<string>, b: seq<string>, isStop: string -> bool)
    ensures Kept(a + b, isStop) == Kept(a, isStop) + Kept(b, isStop)
  {
    if b == [] {
      assert a + b == a;
    } else {
      var front, last := b[..|b| - 1], b[|b| - 1];
      assert a + b == (a + front) + [last] && b == front + [last];
      KeptConcat(a, front, isStop);
      KeptSnoc(a + front, last, isStop);
    }
  }

  lemma {:induction false} KeptExactly(words: seq<string>, isStop: string -> bool, w: string)
    ensures w in Kept(words, isStop) <==> w in words && !isStop(w)
  {
    if words != [] {
      var front, last := words[..|words| - 1], words[|words| - 1];
      assert words == front + [last];
      KeptExactly(front, isStop, w);
    }
  }

  lemma NothingKept(words: seq<string>, isStop: string -> bool)
    ensures Kept(words, isStop) == [] <==> forall w <- words :: isStop(w)
  {
    forall w ensures w in Kept(words, isStop) <==> w in words && !isStop(w) { KeptExactly(words, isStop, w); }
    if Kept(words, isStop) != [] {
      assert Kept(words, isStop)[0] in Kept(words, isStop);
    }
  }

  /** Removing stop words again changes nothing. */
  lemma StopWordsIdempotent(query: string, isStop: string -> bool)
    ensures WithoutStopWords(WithoutStopWords(query, isStop), isStop) == WithoutStopWords(query, isStop)
  {
    var kept := Kept(Split(query, ' '), isStop);
    JoinSplit(query, ' ');
    KeptTwice(Split(query, ' '), isStop);
    if Join(kept, ' ') != "" {
      SplitJoin(kept, ' ');
    }
  }

  // ---------------------------------------------------------------- quoted phrases

  const QUOTE := '"'
  const BACKSLASH := '\\'

  /** `(?:[^"\\]|\\.)*`: plain characters, and backslashes followed by any character but a line break. */
  predicate Inner(t: string) {
    t == ""
    || (t[0] != QUOTE && t[0] != BACKSLASH && Inner(t[1..]))
    || (t[0] == BACKSLASH && |t| >= 2 && t[1] != '\n' && Inner(t[2..]))
  }

  /** `s[i..j]` matches the whole pattern. */
  predicate Quoted(s: string, i: nat, j: nat) {
    i + 2 <= j <= |s| && s[i] == QUOTE && s[j - 1] == QUOTE && Inner(s[i + 1..j - 1])
  }

  /** The end of the quoted phrase whose inside starts at `p`. */
  function Close(s: string, p: nat): Option<nat>
    decreases |s| - p
  {
    if p >= |s| then None
    else if s[p] == QUOTE then Some(p + 1)
    else if s[p] != BACKSLASH then Close(s, p + 1)
    else if p + 1 < |s| && s[p + 1] != '\n' then Close(s, p + 2)
    else None
  }

  function QuoteAt(s: string, i: nat): Option<nat> {
    if i < |s| && s[i] == QUOTE then Close(s, i + 1) else None
  }

  /** The scan closes a phrase at `j` exactly when the inside up to there matches. */
  lemma {:induction false} CloseExactly(s: string, p: nat, j: nat)
    ensures Close(s, p) == Some(j) <==> p + 1 <= j <= |s| && s[j - 1] == QUOTE && Inner(s[p..j - 1])
    decreases |s| - p
  {
    if p < |s| && p + 1 <= j <= |s| {
      var t := s[p..j - 1];
      if p + 1 < j {
        if s[p] != BACKSLASH {
          CloseExactly(s, p + 1, j);
          assert t[1..] == s[p + 1..j - 1];
        } else if p + 2 < j {
          CloseExactly(s, p + 2, j);
          assert t[2..] == s[p + 2..j - 1];
        } else {
          assert |t| == 1;
          CloseBeyond(s, p + 2, j);
        }
      } else {
        CloseBeyond(s, p + 1, j);
        if s[p] == BACKSLASH { CloseBeyond(s, p + 2, j); }
      }
    } else {
      CloseBeyond(s, p, j);
    }
  }

  /** A phrase closes behind where its inside starts, and inside the string. */
  lemma {:induction false} CloseBeyond(s: string, p: nat, j: nat)
    ensures Close(s, p) == Some(j) ==> p < j <= |s|
    decreases |s| - p
  {
    if p < |s| {
      CloseBeyond(s, p + 1, j);
      CloseBeyond(s, p + 2, j);
    }
  }

  /** At most one phrase starts at a position, and the scan finds it. */
  lemma QuoteAtExactly(s: string, i: nat, j: nat)
    ensures QuoteAt(s, i) == Some(j) <==> Quoted(s, i, j)
  {
    CloseExactly(s, i + 1, j);
  }

  datatype Span = Span(start: nat, end: nat)

  /** The matches from `from` on: the leftmost one, then those after its end. */
  function Spans(s: string, from: nat): seq<Span>
    decreases |s| - from
  {
    if from >= |s| then []
    else match QuoteAt(s, from)
      case None => Spans(s, from + 1)
      case Some(j) => CloseBeyond(s, from + 1, j); [Span(from, j)] + Spans(s, j)
  }

  /** `spans` are disjoint quoted phrases in order from `from` on, and no phrase starts between them. */
  ghost predicate LeftmostSpans(s: string, from: nat, spans: seq<Span>)
    decreases |spans|
  {
    if spans == [] then forall i: nat, j: nat | from <= i :: !Quoted(s, i, j)
    else
      && from <= spans[0].start
      && Quoted(s, spans[0].start, spans[0].end)
      && (forall i: nat, j: nat | from <= i < spans[0].start :: !Quoted(s, i, j))
      && LeftmostSpans(s, spans[0].end, spans[1..])
  }

  /** The scan finds the leftmost non-overlapping quoted phrases. */
  lemma {:induction false} SpansAreLeftmost(s: string, from: nat)
    ensures LeftmostSpans(s, from, Spans(s, from))
    decreases |s| - from
  {
    if from < |s| {
      match QuoteAt(s, from)
      case None =>
        SpansAreLeftmost(s, from + 1);
        forall j: nat ensures !Quoted(s, from, j) { QuoteAtExactly(s, from, j); }
        assert LeftmostSpans(s, from, Spans(s, from + 1));
      case Some(j) =>
        CloseBeyond(s, from + 1, j);
        QuoteAtExactly(s, from, j);
        SpansAreLeftmost(s, j);
        assert ([Span(from, j)] + Spans(s, j))[1..] == Spans(s, j);
    }
  }

  lemma QuotedUnique(s: string, i: nat, j: nat, k: nat)
    requires Quoted(s, i, j) && Quoted(s, i, k)
    ensures j == k
  {
    QuoteAtExactly(s, i, j);
    QuoteAtExactly(s, i, k);
  }

  /** And these are the only ones: any list of leftmost phrases is the one the scan returns. */
  lemma {:induction false} LeftmostIsUnique(s: string, from: nat, a: seq<Span>, b: seq<Span>)
    requires LeftmostSpans(s, from, a) && LeftmostSpans(s, from, b)
    ensures a == b
    decreases |a|
  {
    if a != [] && b != [] {
      assert a[0].start == b[0].start by {
        assert !(a[0].start < b[0].start) && !(b[0].start < a[0].start);
      }
      QuotedUnique(s, a[0].start, a[0].end, b[0].end);
      LeftmostIsUnique(s, a[0].end, a[1..], b[1..]);
      assert a == [a[0]] + a[1..] && b == [b[0]] + b[1..];
    }
  }

  function Slice(s: string, span: Span): string {
    if span.start <= span.end <= |s| then s[span.start..span.end] else ""
  }

  /** The query put together again from the gaps and the phrases between them. */
  function Rebuilt(s: string, from: nat, spans: seq<Span>): string
    decreases |spans|
  {
    if spans == [] then (if from <= |s| then s[from..] else "")
    else
      var span := spans[0];
      Slice(s, Span(from, span.start)) + Slice(s, span) + Rebuilt(s, span.end, spans[1..])
  }

  /** The matches and the gaps between them put the query together again. */
  lemma {:induction false} GapsAndPhrases(s: string, from: nat, spans: seq<Span>)
    requires from <= |s| && LeftmostSpans(s, from, spans)
    ensures Rebuilt(s, from, spans) == s[from..]
    decreases |spans|
  {
    if spans != [] {
      var span := spans[0];
      GapsAndPhrases(s, span.end, spans[1..]);
      hide *;
      ThreeSlices(s, from, span.start, span.end);
    }
  }

  lemma ThreeSlices(s: string, a: nat, b: nat, c: nat)
    requires a <= b <= c <= |s|
    ensures s[a..b] + s[b..c] + s[c..] == s[a..]
  {
  }

  function Phrases(s: string, spans: seq<Span>): seq<string> {
    seq(|spans|, k requires 0 <= k < |spans| => Slice(s, spans[k]))
  }

  /** The query and its quoted phrases, as `parse_query` returns them. */
  datatype ParsedQuery = ParsedQuery(query: string, quoteWords: Option<seq<string>>)

  function Parse(
    query: string, useQuotes: Option<bool>, removeStopWords: Option<bool>, isStop: string -> bool): ParsedQuery
  {
    var q := if removeStopWords == Some(true) then WithoutStopWords(query, isStop) else query;
    if useQuotes == Some(true) then
      var spans := Spans(q, 0);
      ParsedQuery(q, if spans == [] then None else Some(Phrases(q, spans)))
    else ParsedQuery(q, None)
  }

  /** What a query without its stop words is: the kept words, unless nothing would be left of it. */
  lemma KeptText(query: string, isStop: string -> bool)
    ensures var kept := Kept(Split(query, ' '), isStop);
            var text := WithoutStopWords(query, isStop);
            if kept == [] || kept == [""] then text == query else text != "" && Split(text, ' ') == kept
  {
    var words := Split(query, ' ');
    var kept := Kept(words, isStop);
    JoinSplit(query, ' ');
    KeptTwice(words, isStop);
    if kept != [] {
      SplitJoin(kept, ' ');
    }
    hide Kept, Free;
  }

  lemma KeptSomething(words: seq<string>, isStop: string -> bool)
    requires exists w <- words :: w != "" && !isStop(w)
    ensures Kept(words, isStop) != [] && Kept(words, isStop) != [""]
  {
    var w :| w in words && w != "" && !isStop(w);
    KeptExactly(words, isStop, w);
  }

  /**
    The text of the parsed query: without the request it is the query itself. With it, the words
    that are not stop words, in order; but a query that this would empty is kept, as is one of stop
    words only. Without the request for quotes there are none.
   */
  lemma ParseText(query: string, useQuotes: Option<bool>, removeStopWords: Option<bool>, isStop: string -> bool)
    ensures var p := Parse(query, useQuotes, removeStopWords, isStop);
            var words := Split(query, ' ');
            && (removeStopWords != Some(true) ==> p.query == query)
            && ((forall w <- words :: isStop(w)) ==> p.query == query)
            && (p.query == "" ==> query == "")
            && (p.query != query ==> Split(p.query, ' ') == Kept(words, isStop))
            && (removeStopWords == Some(true) && (exists w <- words :: w != "" && !isStop(w)) ==>
                  Split(p.query, ' ') == Kept(words, isStop))
            && (useQuotes != Some(true) ==> p.quoteWords == None)
  {
    var words := Split(query, ' ');
    hide Kept, Split, WithoutStopWords, Spans;
    KeptText(query, isStop);
    NothingKept(words, isStop);
    if exists w <- words :: w != "" && !isStop(w) {
      KeptSomething(words, isStop);
    }
  }

  lemma {:induction false} SpansAreQuoted(s: string, from: nat, spans: seq<Span>, k: nat)
    requires LeftmostSpans(s, from, spans) && k < |spans|
    ensures Quoted(s, spans[k].start, spans[k].end)
    decreases |spans|
  {
    if k > 0 {
      SpansAreQuoted(s, spans[0].end, spans[1..], k - 1);
    }
  }

  lemma {:induction false} NoneIsLeftmost(s: string, from: nat, spans: seq<Span>)
    requires LeftmostSpans(s, from, spans)
    ensures spans == [] <==> forall i: nat, j: nat | from <= i :: !Quoted(s, i, j)
  {
  }

  /**
    The quoted phrases come from the query that is returned, not from the one that was given: they
    are the texts of its leftmost non-overlapping quoted phrases, all of them and in order, and
    there are none exactly when it has no quoted phrase.
   */
  lemma ParseFindsQuotes(query: string, removeStopWords: Option<bool>, isStop: string -> bool, spans: seq<Span>)
    requires LeftmostSpans(Parse(query, Some(true), removeStopWords, isStop).query, 0, spans)
    ensures var p := Parse(query, Some(true), removeStopWords, isStop);
            && (p.quoteWords.None? <==> spans == [])
            && (p.quoteWords.Some? ==>
                  && |p.quoteWords.value| == |spans|
                  && forall k | 0 <= k < |spans| ::
                       && spans[k].start <= spans[k].end <= |p.query|
                       && p.quoteWords.value[k] == p.query[spans[k].start..spans[k].end])
            && (p.quoteWords.None? <==> forall i: nat, j: nat :: !Quoted(p.query, i, j))
  {
    var p := Parse(query, Some(true), removeStopWords, isStop);
    SpansAreLeftmost(p.query, 0);
    LeftmostIsUnique(p.query, 0, spans, Spans(p.query, 0));
    NoneIsLeftmost(p.query, 0, spans);
    forall k | 0 <= k < |spans| ensures Quoted(p.query, spans[k].start, spans[k].end) {
      SpansAreQuoted(p.query, 0, spans, k);
    }
  }
}

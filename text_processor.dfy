/**
 * The token and sentence operations of the text processor in the second demo script
 * (`demo/script_2.py`, class `TextProcessor`): `tokenize`, `remove_stop_words`,
 * `get_word_frequency` and `extract_sentences`. Lower-casing is modelled for ASCII letters.
 */
module TextProcessor {
  import opened Seqs
  import opened Text

  /** The processor's stop-word set. */
  const StopWords: set<string> := {
    "the", "a", "an", "and", "or", "but", "in", "on", "at", "to", "for",
    "of", "with", "by", "from", "as", "is", "was", "are", "were", "been",
    "be", "have", "has", "had", "do", "does", "did", "will", "would",
    "could", "should", "may", "might", "must", "can", "this", "that",
    "these", "those", "i", "you", "he", "she", "it", "we", "they"
  }

  predicate IsUpper(c: char) {
    'A' <= c <= 'Z'
  }

  function LowerChar(c: char): char {
    if IsUpper(c) then (c as int + 32) as char else c
  }

  /** `str.lower()` on ASCII letters; every other character is kept. */
  function Lower(s: string): (r: string)
    ensures |r| == |s|
    ensures forall i :: 0 <= i < |s| ==> r[i] == LowerChar(s[i])
  {
    seq(|s|, i requires 0 <= i < |s| => LowerChar(s[i]))
  }

  /**
   * Lower-casing turns each ASCII capital into its small letter, changes no other
   * character, leaves no capital behind, and a second application changes nothing.
   */
  lemma LowerLowers(s: string)
    ensures forall i :: 0 <= i < |s| ==> !IsUpper(Lower(s)[i])
    ensures forall i :: 0 <= i < |s| && !IsUpper(s[i]) ==> Lower(s)[i] == s[i]
    ensures forall i :: 0 <= i < |s| && IsUpper(s[i]) ==> 'a' <= Lower(s)[i] <= 'z' && Lower(s)[i] as int == s[i] as int + 32
    ensures Lower(Lower(s)) == Lower(s)
  {
  }

  predicate NoSpace(w: string) {
    forall i :: 0 <= i < |w| ==> !IsSpace(w[i])
  }

  /** What `str.split()` can return as one token: non-empty, without whitespace. */
  predicate IsWord(w: string) {
    w != [] && NoSpace(w)
  }

  /** `str.split()` from the current position, with `word` the token read so far. */
  function SplitFrom(s: string, word: string): seq<string>
    decreases |s|
  {
    if s == [] then (if word == [] then [] else [word])
    else if IsSpace(s[0]) then (if word == [] then [] else [word]) + SplitFrom(s[1..], [])
    else SplitFrom(s[1..], word + [s[0]])
  }

  /** `str.split()` with no separator: the maximal runs of non-whitespace characters. */
  function Split(s: string): seq<string> {
    SplitFrom(s, [])
  }

  /** Every token is a word, and each of its characters comes from the text or the open word. */
  lemma {:induction false} SplitFromTokens(s: string, word: string)
    requires NoSpace(word)
    ensures forall t :: t in SplitFrom(s, word) ==> IsWord(t)
    ensures forall t, i :: t in SplitFrom(s, word) && 0 <= i < |t| ==> t[i] in word || t[i] in s
    decreases |s|
  {
    if s != [] {
      if IsSpace(s[0]) {
        SplitFromTokens(s[1..], []);
      } else {
        SplitFromTokens(s[1..], word + [s[0]]);
      }
    }
  }

  /** The non-whitespace characters of a text, in order. */
  function NonSpace(s: string): string {
    if s == [] then [] else (if IsSpace(s[0]) then [] else [s[0]]) + NonSpace(s[1..])
  }

  /** The tokens joined without separators. */
  function Concat(ws: seq<string>): string {
    if ws == [] then [] else ws[0] + Concat(ws[1..])
  }

  lemma {:induction false} SplitFromConcat(s: string, word: string)
    ensures Concat(SplitFrom(s, word)) == word + NonSpace(s)
    decreases |s|
  {
    if s == [] {
      assert Concat([word]) == word + Concat([]);
    } else if IsSpace(s[0]) {
      SplitFromConcat(s[1..], []);
      var rest := SplitFrom(s[1..], []);
      if word != [] {
        assert ([word] + rest)[1..] == rest;
      } else {
        assert [] + rest == rest;
      }
    } else {
      SplitFromConcat(s[1..], word + [s[0]]);
    }
  }

  /** Splitting drops exactly the whitespace: the tokens spell out every other character. */
  lemma SplitConcat(s: string)
    ensures Concat(Split(s)) == NonSpace(s)
  {
    SplitFromConcat(s, []);
  }

  /** `" ".join(ws)` */
  function Join(ws: seq<string>): string {
    if ws == [] then []
    else if |ws| == 1 then ws[0]
    else ws[0] + " " + Join(ws[1..])
  }

  lemma {:induction false} SplitFromWord(w: string, rest: string, word: string)
    requires NoSpace(w)
    ensures SplitFrom(w + rest, word) == SplitFrom(rest, word + w)
    decreases |w|
  {
    if w != [] {
      assert (w + rest)[0] == w[0];
      assert (w + rest)[1..] == w[1..] + rest;
      SplitFromWord(w[1..], rest, word + [w[0]]);
      assert word + [w[0]] + w[1..] == word + w;
    } else {
      assert w + rest == rest;
      assert word + w == word;
    }
  }

  /** Splitting words joined by single spaces gives the words back. */
  lemma {:induction false} SplitJoin(ws: seq<string>)
    requires forall w :: w in ws ==> IsWord(w)
    ensures Split(Join(ws)) == ws
  {
    if |ws| == 1 {
      assert ws[0] in ws;
      SplitFromWord(ws[0], [], []);
      assert ws[0] + [] == ws[0];
      assert [] + ws[0] == ws[0];
      assert ws == [ws[0]];
    } else if |ws| > 1 {
      var w, rest := ws[0], ws[1..];
      assert w in ws;
      assert forall x :: x in rest ==> x in ws;
      SplitJoin(rest);
      assert Join(ws) == w + (" " + Join(rest));
      SplitFromWord(w, " " + Join(rest), []);
      assert [] + w == w;
      assert (" " + Join(rest))[1..] == Join(rest);
      assert ws == [w] + rest;
    }
  }

  /** `tokenize`: lower-case, then split on whitespace. */
  function Tokenize(text: string): seq<string> {
    Split(Lower(text))
  }

  /** Tokens are non-empty, hold no whitespace and no upper-case ASCII letter. */
  lemma TokensAreLowerWords(text: string)
    ensures forall t :: t in Tokenize(text) ==> IsWord(t)
    ensures forall t, i :: t in Tokenize(text) && 0 <= i < |t| ==> !IsUpper(t[i])
  {
    SplitFromTokens(Lower(text), []);
  }

  /** `remove_stop_words`: the tokens outside the stop-word set, in their order. */
  function RemoveStopWords(tokens: seq<string>): (r: seq<string>)
    ensures forall t :: t in r <==> t in tokens && t !in StopWords
    ensures IsSubsequence(r, tokens)
  {
    FilterIsSubsequence(tokens, (t: string) => t !in StopWords);
    Filter(tokens, (t: string) => t !in StopWords)
  }

  /** A token outside the stop-word set keeps every one of its occurrences. */
  lemma KeptTokensKeepCounts(tokens: seq<string>, t: string)
    requires t !in StopWords
    ensures multiset(RemoveStopWords(tokens))[t] == multiset(tokens)[t]
  {
    FilterCount(tokens, (x: string) => x !in StopWords, t);
  }

  /** `dict(Counter(tokens))`: keys in first-seen order, each with its count. */
  datatype Frequencies = Frequencies(order: seq<string>, counts: map<string, nat>)

  function WordFrequency(tokens: seq<string>): (r: Frequencies)
    ensures NoDuplicates(r.order)
    ensures forall w :: w in r.order <==> w in tokens
    ensures forall w :: w in r.counts <==> w in tokens
    ensures forall w :: w in r.counts ==> r.counts[w] >= 1
  {
    Frequencies(Distinct(tokens), map w | w in tokens :: multiset(tokens)[w])
  }

  /** How often `w` occurs, counted one token at a time. */
  function Occurrences(tokens: seq<string>, w: string): nat {
    if tokens == [] then 0 else (if tokens[0] == w then 1 else 0) + Occurrences(tokens[1..], w)
  }

  lemma {:induction false} OccurrencesIsMultiplicity(tokens: seq<string>, w: string)
    ensures Occurrences(tokens, w) == multiset(tokens)[w]
  {
    if tokens != [] {
      OccurrencesIsMultiplicity(tokens[1..], w);
      assert tokens == [tokens[0]] + tokens[1..];
    }
  }

  /** The sum of the counts of the listed words. */
  function TotalCount(order: seq<string>, counts: map<string, nat>): nat
    requires forall w :: w in order ==> w in counts
  {
    if order == [] then 0 else TotalCount(order[..|order| - 1], counts) + counts[order[|order| - 1]]
  }

  lemma {:induction false} TotalCountIsSumCounts(order: seq<string>, counts: map<string, nat>, m: multiset<string>)
    requires forall w :: w in order ==> w in counts && counts[w] == m[w]
    ensures TotalCount(order, counts) == SumCounts(order, m)
  {
    if order != [] {
      var init := order[..|order| - 1];
      assert forall w :: w in init ==> w in order;
      TotalCountIsSumCounts(init, counts, m);
    }
  }

  /** Every word's count is its number of occurrences, and the counts add up to the token count. */
  lemma FrequencyCounts(tokens: seq<string>)
    ensures forall w :: w in WordFrequency(tokens).counts ==> WordFrequency(tokens).counts[w] == Occurrences(tokens, w)
    ensures TotalCount(WordFrequency(tokens).order, WordFrequency(tokens).counts) == |tokens|
  {
    var r := WordFrequency(tokens);
    forall w | w in r.counts ensures r.counts[w] == Occurrences(tokens, w) {
      OccurrencesIsMultiplicity(tokens, w);
    }
    TotalCountIsSumCounts(r.order, r.counts, multiset(tokens));
    CountsSumToLength(tokens);
  }

  /** The characters of the pattern `[.!?]`. */
  predicate IsTerminator(c: char) {
    c == '.' || c == '!' || c == '?'
  }

  predicate NoTerminator(s: string) {
    forall i :: 0 <= i < |s| ==> !IsTerminator(s[i])
  }

  /** The text after a run of terminators. */
  function DropTerminators(s: string): (r: string)
    ensures |r| <= |s|
    ensures s != [] && IsTerminator(s[0]) ==> |r| < |s|
    ensures r == s[|s| - |r|..]
    ensures r == [] || !IsTerminator(r[0])
  {
    if s != [] && IsTerminator(s[0]) then DropTerminators(s[1..]) else s
  }

  /** `re.split(r'[.!?]+', s)` from the current position, with `piece` read so far. */
  function PiecesFrom(s: string, piece: string): (r: seq<string>)
    ensures r != []
    decreases |s|
  {
    if s == [] then [piece]
    else if IsTerminator(s[0]) then [piece] + PiecesFrom(DropTerminators(s), [])
    else PiecesFrom(s[1..], piece + [s[0]])
  }

  /** The pieces between runs of sentence terminators, empty ones included. */
  function Pieces(s: string): seq<string> {
    PiecesFrom(s, [])
  }

  function StripStart(s: string): (r: string)
    ensures |r| <= |s|
    ensures r == [] || !IsSpace(r[0])
  {
    if s != [] && IsSpace(s[0]) then StripStart(s[1..]) else s
  }

  function StripEnd(s: string): (r: string)
    ensures |r| <= |s|
    ensures r != [] ==> r[0] == s[0]
    ensures r == [] || !IsSpace(r[|r| - 1])
  {
    if s != [] && IsSpace(s[|s| - 1]) then StripEnd(s[..|s| - 1]) else s
  }

  /** `str.strip()`: whitespace removed from both ends. */
  function Strip(s: string): (r: string)
    ensures r != [] ==> !IsSpace(r[0]) && !IsSpace(r[|r| - 1])
    ensures |r| <= |s|
  {
    StripEnd(StripStart(s))
  }

  /** `StripStart` drops a whitespace prefix and keeps the rest. */
  lemma {:induction false} StripStartSuffix(s: string)
    ensures |StripStart(s)| <= |s| && StripStart(s) == s[|s| - |StripStart(s)|..]
    ensures forall k :: 0 <= k < |s| - |StripStart(s)| ==> IsSpace(s[k])
  {
    if s != [] && IsSpace(s[0]) {
      StripStartSuffix(s[1..]);
    }
  }

  /** `StripEnd` drops a whitespace suffix and keeps the rest. */
  lemma {:induction false} StripEndPrefix(s: string)
    ensures |StripEnd(s)| <= |s| && StripEnd(s) == s[..|StripEnd(s)|]
    ensures forall k :: |StripEnd(s)| <= k < |s| ==> IsSpace(s[k])
  {
    if s != [] && IsSpace(s[|s| - 1]) {
      StripEndPrefix(s[..|s| - 1]);
    }
  }

  /**
   * `str.strip()` keeps the slice between a whitespace prefix and a whitespace suffix, and
   * is empty exactly when the whole text is whitespace.
   */
  lemma StripIsSlice(s: string)
    ensures exists i, j :: 0 <= i <= j <= |s| && Strip(s) == s[i..j] &&
              (forall k :: 0 <= k < i ==> IsSpace(s[k])) &&
              (forall k :: j <= k < |s| ==> IsSpace(s[k]))
    ensures Strip(s) == [] <==> forall k :: 0 <= k < |s| ==> IsSpace(s[k])
  {
    var t := StripStart(s);
    StripStartSuffix(s);
    StripEndPrefix(t);
    var i := |s| - |t|;
    var j := i + |Strip(s)|;
    assert Strip(s) == s[i..j];
    assert forall k :: j <= k < |s| ==> s[k] == t[k - i];
    if Strip(s) != [] {
      assert !IsSpace(s[i]);
    }
  }

  lemma {:induction false} StripStartNoTerminator(s: string)
    requires NoTerminator(s)
    ensures NoTerminator(StripStart(s))
  {
    if s != [] && IsSpace(s[0]) {
      assert forall i :: 0 <= i < |s| - 1 ==> s[1..][i] == s[i + 1];
      StripStartNoTerminator(s[1..]);
    }
  }

  lemma {:induction false} StripEndNoTerminator(s: string)
    requires NoTerminator(s)
    ensures NoTerminator(StripEnd(s))
  {
    if s != [] && IsSpace(s[|s| - 1]) {
      assert forall i :: 0 <= i < |s| - 1 ==> s[..|s| - 1][i] == s[i];
      StripEndNoTerminator(s[..|s| - 1]);
    }
  }

  /** Stripping only removes characters from the ends: a terminator-free piece stays so. */
  lemma StripNoTerminator(s: string)
    requires NoTerminator(s)
    ensures NoTerminator(Strip(s))
  {
    StripStartNoTerminator(s);
    StripEndNoTerminator(StripStart(s));
  }

  /** `[s.strip() for s in pieces if s.strip()]` */
  function KeepSentences(pieces: seq<string>): seq<string> {
    if pieces == [] then []
    else (if Strip(pieces[0]) == [] then [] else [Strip(pieces[0])]) + KeepSentences(pieces[1..])
  }

  /** `extract_sentences` */
  function ExtractSentences(text: string): seq<string> {
    KeepSentences(Pieces(text))
  }

  /** No piece holds a terminator when the piece read so far holds none. */
  lemma {:induction false} PiecesFromHaveNoTerminator(s: string, piece: string)
    requires NoTerminator(piece)
    ensures forall p :: p in PiecesFrom(s, piece) ==> NoTerminator(p)
    decreases |s|
  {
    if s != [] {
      if IsTerminator(s[0]) {
        PiecesFromHaveNoTerminator(DropTerminators(s), []);
      } else {
        PiecesFromHaveNoTerminator(s[1..], piece + [s[0]]);
      }
    }
  }

  lemma {:induction false} KeptSentencesShape(pieces: seq<string>)
    requires forall p :: p in pieces ==> NoTerminator(p)
    ensures forall t :: t in KeepSentences(pieces) ==>
              t != [] && !IsSpace(t[0]) && !IsSpace(t[|t| - 1]) && NoTerminator(t)
  {
    if pieces != [] {
      assert forall p :: p in pieces[1..] ==> p in pieces;
      KeptSentencesShape(pieces[1..]);
      assert pieces[0] in pieces;
      StripNoTerminator(pieces[0]);
      var head := if Strip(pieces[0]) == [] then [] else [Strip(pieces[0])];
      assert KeepSentences(pieces) == head + KeepSentences(pieces[1..]);
    }
  }

  /** Every extracted sentence is non-empty, stripped, and free of `.`, `!` and `?`. */
  lemma SentencesAreStripped(text: string)
    ensures forall t :: t in ExtractSentences(text) ==>
              t != [] && !IsSpace(t[0]) && !IsSpace(t[|t| - 1]) && NoTerminator(t)
  {
    PiecesFromHaveNoTerminator(text, []);
    KeptSentencesShape(Pieces(text));
  }

  /** `".".join(ss)` */
  function JoinSentences(ss: seq<string>): string {
    if ss == [] then []
    else if |ss| == 1 then ss[0]
    else ss[0] + "." + JoinSentences(ss[1..])
  }

  lemma {:induction false} PiecesFromWord(w: string, rest: string, piece: string)
    requires NoTerminator(w)
    ensures PiecesFrom(w + rest, piece) == PiecesFrom(rest, piece + w)
    decreases |w|
  {
    if w != [] {
      assert (w + rest)[0] == w[0];
      assert (w + rest)[1..] == w[1..] + rest;
      PiecesFromWord(w[1..], rest, piece + [w[0]]);
      assert piece + [w[0]] + w[1..] == piece + w;
    } else {
      assert w + rest == rest;
      assert piece + w == piece;
    }
  }

  /** A stripped sentence without terminators. */
  predicate IsSentence(t: string) {
    t != [] && !IsSpace(t[0]) && !IsSpace(t[|t| - 1]) && NoTerminator(t)
  }

  lemma StripSentence(t: string)
    requires IsSentence(t)
    ensures Strip(t) == t
  {
    assert StripStart(t) == t;
  }

  /** A joined list of sentences starts with the first character of its first sentence. */
  lemma JoinSentencesStart(ss: seq<string>)
    requires ss != [] && ss[0] != []
    ensures JoinSentences(ss) != [] && JoinSentences(ss)[0] == ss[0][0]
  {
    if |ss| > 1 {
      assert JoinSentences(ss) == ss[0] + ("." + JoinSentences(ss[1..]));
    }
  }

  /** A full stop after a terminator-free piece closes it; what follows starts a new piece. */
  lemma PiecesAfterStop(t: string, rest: string)
    requires NoTerminator(t)
    requires rest != [] && !IsTerminator(rest[0])
    ensures Pieces(t + "." + rest) == [t] + Pieces(rest)
  {
    var after := "." + rest;
    assert t + "." + rest == t + after;
    PiecesFromWord(t, after, []);
    assert [] + t == t;
    assert after[1..] == rest;
    assert DropTerminators(after) == rest;
  }

  /** Text without a terminator is a single piece. */
  lemma SinglePiece(t: string)
    requires NoTerminator(t)
    ensures Pieces(t) == [t]
  {
    PiecesFromWord(t, [], []);
    assert t + [] == t;
    assert [] + t == t;
  }

  /** Sentences joined by single full stops split back into those sentences. */
  lemma {:induction false} PiecesJoin(ss: seq<string>)
    requires forall t :: t in ss ==> IsSentence(t)
    ensures Pieces(JoinSentences(ss)) == if ss == [] then [[]] else ss
  {
    if |ss| == 1 {
      assert ss[0] in ss;
      SinglePiece(ss[0]);
      assert ss == [ss[0]];
    } else if |ss| > 1 {
      var t, rest := ss[0], ss[1..];
      assert t in ss && rest[0] in ss;
      assert forall x :: x in rest ==> x in ss;
      PiecesJoin(rest);
      JoinSentencesStart(rest);
      PiecesAfterStop(t, JoinSentences(rest));
      assert ss == [t] + rest;
    }
  }

  lemma {:induction false} KeepSentencesKeepsAll(ss: seq<string>)
    requires forall t :: t in ss ==> IsSentence(t)
    ensures KeepSentences(ss) == ss
  {
    if ss != [] {
      assert forall x :: x in ss[1..] ==> x in ss;
      KeepSentencesKeepsAll(ss[1..]);
      assert ss[0] in ss;
      StripSentence(ss[0]);
      assert ss == [ss[0]] + ss[1..];
    }
  }

  /** Extracting the sentences of `".".join(ss)` gives `ss` back. */
  lemma ExtractJoinedSentences(ss: seq<string>)
    requires forall t :: t in ss ==> IsSentence(t)
    ensures ExtractSentences(JoinSentences(ss)) == ss
  {
    PiecesJoin(ss);
    if ss == [] {
      assert Strip([]) == [];
    } else {
      KeepSentencesKeepsAll(ss);
    }
  }

  /** Text without any terminator is one sentence, or none when it is blank. */
  lemma NoTerminatorOneSentence(text: string)
    requires NoTerminator(text)
    ensures ExtractSentences(text) == if Strip(text) == [] then [] else [Strip(text)]
  {
    SinglePiece(text);
    assert [text][1..] == [];
    var head := if Strip(text) == [] then [] else [Strip(text)];
    assert KeepSentences([text]) == head + KeepSentences([]);
    assert head + [] == head;
  }
}

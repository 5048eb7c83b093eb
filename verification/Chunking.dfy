// Whitespace-aware chunking for the display surfaces, and the streamed reply built
// on it.  Which characters are whitespace is a parameter.

module Chunking {
  import opened Bytes
  import opened Greedy
  import opened TextSplit

  // ---- words ---------------------------------------------------------------------------

  predicate NoSpace(s: string, isSpace: char -> bool) {
    forall i :: 0 <= i < |s| ==> !isSpace(s[i])
  }

  predicate IsWord(s: string, isSpace: char -> bool) {
    s != "" && NoSpace(s, isSpace)
  }

  predicate AreWords(ws: seq<string>, isSpace: char -> bool) {
    forall i :: 0 <= i < |ws| ==> IsWord(ws[i], isSpace)
  }

  function WordEnd(t: string, isSpace: char -> bool, k: nat): (n: nat)
    requires k <= |t| && NoSpace(t[..k], isSpace)
    ensures k <= n <= |t| && NoSpace(t[..n], isSpace) && (n < |t| ==> isSpace(t[n]))
    decreases |t| - k
  {
    if k == |t| || isSpace(t[k]) then k
    else
      assert forall i :: 0 <= i < k ==> t[..k + 1][i] == t[..k][i];
      WordEnd(t, isSpace, k + 1)
  }

  // str.split(): the maximal runs of characters that are not whitespace.
  function Words(t: string, isSpace: char -> bool): seq<string>
    decreases |t|
  {
    if t == "" then []
    else if isSpace(t[0]) then Words(t[1..], isSpace)
    else
      var n := WordEnd(t, isSpace, 0);
      [t[..n]] + Words(t[n..], isSpace)
  }

  // " ".join(ws)
  function Join(ws: seq<string>): string {
    if ws == [] then "" else if |ws| == 1 then ws[0] else ws[0] + " " + Join(ws[1..])
  }

  // The characters that are not whitespace, in order.
  function Ink(t: string, isSpace: char -> bool): string {
    if t == "" then "" else (if isSpace(t[0]) then "" else [t[0]]) + Ink(t[1..], isSpace)
  }

  lemma {:induction false} InkAppend(a: string, b: string, isSpace: char -> bool)
    ensures Ink(a + b, isSpace) == Ink(a, isSpace) + Ink(b, isSpace)
  {
    var all := a + b;
    if a == "" {
      assert all == b;
    } else {
      assert all[0] == a[0] && all[1..] == a[1..] + b;
      InkAppend(a[1..], b, isSpace);
      Regroup([a[0]], Ink(a[1..], isSpace), Ink(b, isSpace));
    }
  }

  lemma {:induction false} InkOfWord(w: string, isSpace: char -> bool)
    requires NoSpace(w, isSpace)
    ensures Ink(w, isSpace) == w
  {
    if w != "" {
      InkOfWord(w[1..], isSpace);
    }
  }

  lemma {:induction false} WordsAreInk(t: string, isSpace: char -> bool)
    ensures AreWords(Words(t, isSpace), isSpace)
    ensures Concat(Words(t, isSpace)) == Ink(t, isSpace)
    decreases |t|
  {
    if t == "" {
    } else if isSpace(t[0]) {
      WordsAreInk(t[1..], isSpace);
    } else {
      var n := WordEnd(t, isSpace, 0);
      WordsAreInk(t[n..], isSpace);
      InkOfWord(t[..n], isSpace);
      InkAppend(t[..n], t[n..], isSpace);
      assert t == t[..n] + t[n..];
    }
  }

  // Collapsing whitespace to single blanks keeps the words, so collapsing is idempotent.
  lemma {:induction false} WordsOfJoin(ws: seq<string>, isSpace: char -> bool)
    requires isSpace(' ') && AreWords(ws, isSpace)
    ensures Words(Join(ws), isSpace) == ws
  {
    if ws != [] {
      var w, t := ws[0], Join(ws);
      WordsOfJoin(ws[1..], isSpace);
      FirstWord(w, t[|w|..], isSpace);
      assert t == w + t[|w|..];
      if |ws| > 1 {
        assert t[|w|..] == " " + Join(ws[1..]);
        assert t[|w|..][1..] == Join(ws[1..]);
      } else {
        assert t[|w|..] == "";
      }
    }
  }

  lemma FirstWord(w: string, rest: string, isSpace: char -> bool)
    requires IsWord(w, isSpace) && (rest != "" ==> isSpace(rest[0]))
    ensures Words(w + rest, isSpace) == [w] + Words(rest, isSpace)
  {
    var t := w + rest;
    assert t[..|w|] == w && t[|w|..] == rest && t[0] == w[0];
    WordEndIs(t, isSpace, 0, |w|);
  }

  lemma {:induction false} WordEndIs(t: string, isSpace: char -> bool, k: nat, n: nat)
    requires k <= n <= |t| && NoSpace(t[..k], isSpace) && NoSpace(t[..n], isSpace)
    requires n < |t| ==> isSpace(t[n])
    ensures WordEnd(t, isSpace, k) == n
    decreases n - k
  {
    if k < n {
      assert t[..n][k] == t[k];
      assert forall i :: 0 <= i < k ==> t[..k + 1][i] == t[..k][i];
      WordEndIs(t, isSpace, k + 1, n);
    }
  }

  lemma {:induction false} JoinAppend(a: seq<string>, b: seq<string>)
    requires a != [] && b != []
    ensures Join(a + b) == Join(a) + " " + Join(b)
  {
    if |a| == 1 {
      assert (a + b)[1..] == b;
    } else {
      JoinAppend(a[1..], b);
      assert (a + b)[1..] == a[1..] + b;
    }
  }

  // ---- how many words fit on one chunk ----------------------------------------------------

  function FitsJoined(limit: nat): seq<string> -> bool {
    (ws: seq<string>) => Utf8Len(Join(ws)) <= limit
  }

  lemma JoinGrows(a: seq<string>, b: seq<string>)
    ensures Utf8Len(Join(a)) <= Utf8Len(Join(a + b)) && Utf8Len(Join(b)) <= Utf8Len(Join(a + b))
  {
    if a == [] {
      assert a + b == b;
    } else if b == [] {
      assert a + b == a;
    } else {
      JoinAppend(a, b);
      Utf8Append(Join(a), " " + Join(b));
      Utf8Append(" ", Join(b));
      assert Join(a) + " " + Join(b) == Join(a) + (" " + Join(b));
    }
  }

  lemma JoinHereditary(limit: nat)
    ensures Hereditary(FitsJoined(limit))
  {
    forall s: seq<string>, i, j | FitsJoined(limit)(s) && 0 <= i <= j <= |s|
      ensures FitsJoined(limit)(s[i..j])
    {
      assert s == s[..i] + s[i..];
      assert s[i..] == s[i..j] + s[j..];
      JoinGrows(s[..i], s[i..]);
      JoinGrows(s[i..j], s[j..]);
    }
  }

  // ---- chunk_text ---------------------------------------------------------------------------

  // word[:n] as Python slices it.
  function Start(word: string, n: nat): string {
    if n < |word| then word[..n] else word
  }

  // The longest start of an over-long word that fits, found by stepping down from
  // limit characters; a limit of four always leaves at least one.
  method HardCut(word: string, limit: nat) returns (cut: nat)
    requires limit >= 4 && Utf8Len(word) > limit
    ensures 0 < cut < |word| && Utf8Len(word[..cut]) <= limit < Utf8Len(word[..cut + 1])
  {
    OneChar(word[0]);
    assert word[..1] == [word[0]];
    cut := limit;
    while cut > 0 && Utf8Len(Start(word, cut)) > limit
      invariant Utf8Len(Start(word, cut + 1)) > limit
    {
      cut := cut - 1;
    }
    assert word[..|word|] == word;
  }

  // The longest start of word that fits, of k characters at least.
  function FitLen(limit: nat, word: string, k: nat): (n: nat)
    requires k <= |word| && Utf8Len(word[..k]) <= limit
    ensures k <= n <= |word| && Utf8Len(word[..n]) <= limit && (n < |word| ==> limit < Utf8Len(word[..n + 1]))
    decreases |word| - k
  {
    if k == |word| || Utf8Len(word[..k + 1]) > limit then k else FitLen(limit, word, k + 1)
  }

  lemma StartsGrow(word: string, m: nat, n: nat)
    requires m <= n <= |word|
    ensures Utf8Len(word[..m]) <= Utf8Len(word[..n])
  {
    assert word[..n] == word[..m] + word[m..n];
    Utf8Append(word[..m], word[m..n]);
  }

  lemma OneFits(limit: nat, word: string)
    requires limit >= 4 && word != ""
    ensures Utf8Len(word[..1]) <= limit
  {
    OneChar(word[0]);
    assert word[..1] == [word[0]];
  }

  // HardCut finds that place.
  lemma CutIsFit(limit: nat, word: string, cut: nat)
    requires limit >= 4 && 0 < cut < |word| && Utf8Len(word[..cut]) <= limit < Utf8Len(word[..cut + 1])
    ensures Utf8Len(word[..1]) <= limit && cut == FitLen(limit, word, 1)
  {
    OneFits(limit, word);
    var n := FitLen(limit, word, 1);
    if n < cut {
      StartsGrow(word, n + 1, cut);
    } else if cut < n {
      StartsGrow(word, cut + 1, n);
    }
  }

  // A word as the chunks carry it: whole if it fits, else in pieces.
  function HardPieces(limit: nat, word: string): seq<string>
    requires limit >= 4
    decreases |word|
  {
    if Utf8Len(word) <= limit then [word]
    else
      OneFits(limit, word);
      var n := FitLen(limit, word, 1);
      [word[..n]] + HardPieces(limit, word[n..])
  }

  function SplitWords(limit: nat, ws: seq<string>): seq<string>
    requires limit >= 4
  {
    if ws == [] then [] else SplitWords(limit, ws[..|ws| - 1]) + HardPieces(limit, ws[|ws| - 1])
  }

  lemma {:induction false} PiecesAreWords(limit: nat, word: string, isSpace: char -> bool)
    requires limit >= 4 && IsWord(word, isSpace)
    ensures var ps := HardPieces(limit, word);
      AreWords(ps, isSpace) && if Utf8Len(word) <= limit then ps == [word] else |ps| > 1 && |ps[0]| < |word|
    decreases |word|
  {
    if Utf8Len(word) > limit {
      OneFits(limit, word);
      var n := FitLen(limit, word, 1);
      assert word[..|word|] == word;
      PiecesAreWords(limit, word[n..], isSpace);
    }
  }

  // At word i the two have parted for good: where one has gone on to its next word, the
  // other's is longer already.
  predicate StrayAt(u: seq<string>, v: seq<string>, i: nat) {
    || (i + 1 < |v| && i < |u| && |v[i]| < |u[i]|)
    || (i + 1 < |u| && i < |v| && |u[i]| < |v[i]|)
  }

  ghost predicate Stray(u: seq<string>, v: seq<string>) {
    exists i: nat :: StrayAt(u, v, i)
  }

  // Splitting changes nothing exactly when every word fits.
  lemma {:induction false} SplitWordsStray(limit: nat, ws: seq<string>, isSpace: char -> bool)
    requires limit >= 4 && AreWords(ws, isSpace)
    ensures var u := SplitWords(limit, ws);
      AreWords(u, isSpace) && (u == [] <==> ws == []) && if WordsFit(limit, ws) then u == ws else Stray(u, ws)
    decreases |ws|
  {
    hide HardPieces, Stray, WordsFit;
    if ws == [] {
      NoneSplit(limit);
    } else {
      var n := |ws| - 1;
      var before, w := ws[..n], ws[n];
      assert ws == before + [w];
      SplitWordsStray(limit, before, isSpace);
      PiecesAreWords(limit, w, isSpace);
      OneMoreSplit(limit, SplitWords(limit, before), before, HardPieces(limit, w), w);
    }
  }

  lemma NoneSplit(limit: nat)
    ensures WordsFit(limit, [])
  {
  }

  lemma OneMoreSplit(limit: nat, u: seq<string>, v: seq<string>, ps: seq<string>, w: string)
    requires if WordsFit(limit, v) then u == v else Stray(u, v)
    requires if Utf8Len(w) <= limit then ps == [w] else |ps| > 1 && |ps[0]| < |w|
    ensures if WordsFit(limit, v + [w]) then u + ps == v + [w] else Stray(u + ps, v + [w])
  {
    if !WordsFit(limit, v) {
      var i: nat :| StrayAt(u, v, i);
      assert StrayAt(u + ps, v + [w], i);
      var k :| 0 <= k < |v| && Utf8Len(v[k]) > limit;
      assert (v + [w])[k] == v[k];
    } else if Utf8Len(w) > limit {
      assert StrayAt(u + ps, v + [w], |v|);
      assert (v + [w])[|v|] == w;
    }
  }

  // f"{current} {word}".strip(), where neither part has whitespace at an outer edge.
  function Candidate(current: string, word: string): string {
    if current == "" then word else current + " " + word
  }

  ghost predicate ChunksFit(limit: nat, chunks: seq<string>) {
    forall k :: 0 <= k < |chunks| ==> chunks[k] != "" && Utf8Len(chunks[k]) <= limit
  }

  ghost predicate WordsFit(limit: nat, ws: seq<string>) {
    forall k :: 0 <= k < |ws| ==> Utf8Len(ws[k]) <= limit
  }

  function JoinEach(groups: seq<seq<string>>): (chunks: seq<string>)
    ensures |chunks| == |groups|
    ensures forall k :: 0 <= k < |groups| ==> chunks[k] == Join(groups[k])
  {
    if groups == [] then [] else [Join(groups[0])] + JoinEach(groups[1..])
  }

  // The inner loop: cut an over-long word until what is left of it fits.
  method HardSplit(closed: seq<string>, whole: string, limit: nat) returns (chunks: seq<string>, word: string)
    requires limit >= 4 && whole != "" && ChunksFit(limit, closed)
    ensures ChunksFit(limit, chunks) && word != "" && Utf8Len(word) <= limit
    ensures Concat(chunks) + word == Concat(closed) + whole
    ensures Utf8Len(whole) <= limit ==> chunks == closed && word == whole
    ensures chunks + [word] == closed + HardPieces(limit, whole)
  {
    chunks, word := closed, whole;
    while Utf8Len(word) > limit
      invariant ChunksFit(limit, chunks) && word != ""
      invariant Concat(chunks) + word == Concat(closed) + whole
      invariant Utf8Len(whole) <= limit ==> chunks == closed && word == whole
      invariant chunks + HardPieces(limit, word) == closed + HardPieces(limit, whole)
      decreases |word|
    {
      var cut := HardCut(word, limit);
      CutIsFit(limit, word, cut);
      Regroup(chunks, [word[..cut]], HardPieces(limit, word[cut..]));
      CutCarries(chunks, word, cut);
      chunks := chunks + [word[..cut]];
      word := word[cut..];
    }
  }

  // Whole words shared out over chunks: chunk k carries groups[k], current carries cur.
  ghost predicate Shared(words: seq<string>, i: nat, chunks: seq<string>, current: string,
                         groups: seq<seq<string>>, cur: seq<string>)
  {
    && i <= |words| && chunks == JoinEach(groups) && current == Join(cur) && Concat(groups) + cur == words[..i]
    && (cur == [] <==> current == "") && (forall k :: 0 <= k < |groups| ==> groups[k] != [])
  }

  // No share of all the words over fewer chunks exists than groups and the best cut of the rest.
  ghost predicate Tight(limit: nat, words: seq<string>, groups: nat, cur: seq<string>, rest: seq<string>) {
    |Pieces(FitsJoined(limit), words)| == groups + |Pieces(FitsJoined(limit), cur + rest)|
  }

  ghost predicate Packed(limit: nat, words: seq<string>, i: nat, chunks: seq<string>, current: string,
                         groups: seq<seq<string>>, cur: seq<string>)
  {
    i <= |words| && WordsFit(limit, words) ==>
      Shared(words, i, chunks, current, groups, cur) && Tight(limit, words, |groups|, cur, words[i..])
  }

  // Every word so far is in the chunks, character for character.
  ghost predicate Carried(isSpace: char -> bool, words: seq<string>, i: nat, chunks: seq<string>, current: string) {
    && i <= |words| && Ink(Concat(chunks) + current, isSpace) == Concat(words[..i])
    && (i > 0 ==> current != "")
  }

  // No way to share the words out over chunks that fit uses fewer than n of them.
  ghost predicate FewestChunks(limit: nat, words: seq<string>, n: nat) {
    forall groups: seq<seq<string>> ::
      Concat(groups) == words && AllFit(FitsJoined(limit), groups) ==> n <= |groups|
  }

  // When every word fits, the chunks join to the normalised text and are as few as can be.
  ghost predicate Whole(limit: nat, words: seq<string>, chunks: seq<string>) {
    WordsFit(limit, words) ==> Join(chunks) == Join(words) && FewestChunks(limit, words, |chunks|)
  }

  // None stands for the ValueError.
  method ChunkText(text: string, limit: nat, isSpace: char -> bool) returns (r: Option<seq<string>>)
    requires isSpace(' ')
    ensures r.None? <==> limit < 4
    ensures r.Some? ==> ChunksFit(limit, r.value)
    ensures r.Some? ==> Ink(Concat(r.value), isSpace) == Ink(text, isSpace)
    ensures r.Some? ==> Whole(limit, Words(text, isSpace), r.value)
    ensures r.Some? ==> Join(r.value) == Join(SplitWords(limit, Words(text, isSpace)))
  {
    if limit < 4 {
      return None;
    }
    var words := Words(text, isSpace);
    WordsAreInk(text, isSpace);
    if words == [] {
      return Some([]);
    }
    var chunks := ChunkWords(words, limit, isSpace);
    r := Some(chunks);
  }

  // The whole loop invariant.
  ghost predicate Midway(limit: nat, isSpace: char -> bool, words: seq<string>, i: nat,
                         chunks: seq<string>, current: string, groups: seq<seq<string>>, cur: seq<string>)
  {
    && i <= |words| && ChunksFit(limit, chunks) && Utf8Len(current) <= limit
    && Carried(isSpace, words, i, chunks, current)
    && Packed(limit, words, i, chunks, current, groups, cur)
    && Lined(limit, words, i, chunks, current)
  }

  // The chunks so far join to the words so far, over-long ones in pieces.
  ghost predicate Lined(limit: nat, words: seq<string>, i: nat, chunks: seq<string>, current: string) {
    && limit >= 4 && i <= |words| && (i == 0 <==> Closed(chunks, current) == [])
    && (i == 0 <==> SplitWords(limit, words[..i]) == []) && (current == "" ==> i == 0)
    && Join(Closed(chunks, current)) == Join(SplitWords(limit, words[..i]))
  }

  lemma LinedMore(limit: nat, words: seq<string>, i: nat, chunks: seq<string>, current: string,
                  after: seq<string>, next: string)
    requires i < |words| && words[i] != "" && Lined(limit, words, i, chunks, current) && next != ""
    requires
      || (Utf8Len(words[i]) <= limit && after == chunks && next == Candidate(current, words[i]))
      || after + [next] == Closed(chunks, current) + HardPieces(limit, words[i])
    ensures Lined(limit, words, i + 1, after, next)
  {
    var s, ps, c := SplitWords(limit, words[..i]), HardPieces(limit, words[i]), Closed(chunks, current);
    assert words[..i + 1][..i] == words[..i] && words[..i + 1][i] == words[i];
    assert ps != [];
    if i == 0 {
      assert [] + ps == ps;
    } else {
      JoinAppend(s, ps);
      JoinAppend(c, ps);
      if after == chunks && next == Candidate(current, words[i]) && Utf8Len(words[i]) <= limit {
        JoinInto(chunks, current, words[i]);
      }
    }
  }

  lemma JoinInto(chunks: seq<string>, current: string, word: string)
    ensures Join(chunks + [current + " " + word]) == Join(chunks + [current]) + " " + word
  {
    if chunks == [] {
      assert chunks + [current] == [current] && chunks + [current + " " + word] == [current + " " + word];
    } else {
      JoinAppend(chunks, [current]);
      JoinAppend(chunks, [current + " " + word]);
      assert Join(chunks) + " " + (current + " " + word) == Join(chunks) + " " + current + " " + word;
    }
  }

  method ChunkWords(words: seq<string>, limit: nat, isSpace: char -> bool) returns (chunks: seq<string>)
    requires isSpace(' ') && AreWords(words, isSpace) && words != [] && limit >= 4
    ensures ChunksFit(limit, chunks)
    ensures Ink(Concat(chunks), isSpace) == Concat(words)
    ensures Whole(limit, words, chunks)
    ensures Join(chunks) == Join(SplitWords(limit, words))
  {
    hide Midway, AreWords;
    chunks := [];
    var current := "";
    ghost var groups: seq<seq<string>>, cur: seq<string> := [], [];
    var i := 0;
    MidwayStarts(limit, words, isSpace);
    while i < |words|
      invariant i <= |words| && Midway(limit, isSpace, words, i, chunks, current, groups, cur)
    {
      chunks, current, groups, cur := AddWord(words, i, limit, isSpace, chunks, current, groups, cur);
      i := i + 1;
    }
    MidwayEnds(limit, words, isSpace, chunks, current, groups, cur);
    chunks := chunks + [current];
  }

  lemma MidwayStarts(limit: nat, words: seq<string>, isSpace: char -> bool)
    requires limit >= 4
    ensures Midway(limit, isSpace, words, 0, [], "", [], [])
  {
    LoopStarts(limit, words, isSpace);
  }

  lemma MidwayEnds(limit: nat, words: seq<string>, isSpace: char -> bool, chunks: seq<string>, current: string,
                   groups: seq<seq<string>>, cur: seq<string>)
    requires words != [] && Midway(limit, isSpace, words, |words|, chunks, current, groups, cur)
    ensures ChunksFit(limit, chunks + [current])
    ensures Ink(Concat(chunks + [current]), isSpace) == Concat(words)
    ensures Whole(limit, words, chunks + [current])
    ensures Join(chunks + [current]) == Join(SplitWords(limit, words))
  {
    hide Whole;
    LoopCarries(isSpace, words, chunks, current);
    LoopPacks(limit, words, chunks, current, groups, cur);
    assert words[..|words|] == words;
  }

  // One turn of the loop over the words.
  method AddWord(words: seq<string>, i: nat, limit: nat, isSpace: char -> bool, chunks: seq<string>, current: string,
                 ghost groups: seq<seq<string>>, ghost cur: seq<string>)
    returns (after: seq<string>, next: string, ghost groups': seq<seq<string>>, ghost cur': seq<string>)
    requires isSpace(' ') && AreWords(words, isSpace) && i < |words| && limit >= 4
    requires Midway(limit, isSpace, words, i, chunks, current, groups, cur)
    ensures Midway(limit, isSpace, words, i + 1, after, next, groups', cur')
  {
    var word := words[i];
    var candidate := Candidate(current, word);
    if Utf8Len(candidate) <= limit {
      ExtendCarries(isSpace, words, i, chunks, current);
      ExtendPacks(limit, words, i, chunks, current, groups, cur);
      Utf8Append(current + " ", word);
      after, next, groups', cur' := chunks, candidate, groups, cur + [word];
    } else {
      after, next := HardSplit(Closed(chunks, current), word, limit);
      ClosePacks(limit, words, i, chunks, current, groups, cur, after, next);
      CloseCarries(isSpace, words, i, chunks, current, after, next);
      groups', cur' := groups + [cur], [word];
    }
    LinedMore(limit, words, i, chunks, current, after, next);
  }

  lemma LoopStarts(limit: nat, words: seq<string>, isSpace: char -> bool)
    ensures Utf8Len("") <= limit
    ensures Carried(isSpace, words, 0, [], "") && Packed(limit, words, 0, [], "", [], [])
  {
    assert [] + words[0..] == words;
  }

  lemma LoopCarries(isSpace: char -> bool, words: seq<string>, chunks: seq<string>, current: string)
    requires Carried(isSpace, words, |words|, chunks, current)
    ensures Ink(Concat(chunks + [current]), isSpace) == Concat(words)
  {
    assert words[..|words|] == words;
    ConcatOne(chunks, current);
  }

  // if current: chunks.append(current)
  function Closed(chunks: seq<string>, current: string): seq<string> {
    if current == "" then chunks else chunks + [current]
  }

  lemma ExtendCarries(isSpace: char -> bool, words: seq<string>, i: nat, chunks: seq<string>, current: string)
    requires isSpace(' ') && AreWords(words, isSpace) && i < |words|
    requires Carried(isSpace, words, i, chunks, current)
    ensures Carried(isSpace, words, i + 1, chunks, Candidate(current, words[i]))
  {
    NextWord(words, i);
    GlueInk(Concat(chunks), current, words[i], isSpace);
  }

  lemma GlueInk(x: string, current: string, w: string, isSpace: char -> bool)
    requires isSpace(' ') && NoSpace(w, isSpace)
    ensures Ink(x + Candidate(current, w), isSpace) == Ink(x + current, isSpace) + w
  {
    if current == "" {
      assert x + current == x;
      InkThenWord(x, w, isSpace);
    } else {
      InkThenBlank(x + current, isSpace);
      InkThenWord(x + current + " ", w, isSpace);
      assert x + (current + " " + w) == x + current + " " + w;
    }
  }

  lemma InkThenWord(x: string, w: string, isSpace: char -> bool)
    requires NoSpace(w, isSpace)
    ensures Ink(x + w, isSpace) == Ink(x, isSpace) + w
  {
    InkAppend(x, w, isSpace);
    InkOfWord(w, isSpace);
  }

  lemma InkThenBlank(x: string, isSpace: char -> bool)
    requires isSpace(' ')
    ensures Ink(x + " ", isSpace) == Ink(x, isSpace)
  {
    InkAppend(x, " ", isSpace);
    assert " "[1..] == "";
  }

  lemma CloseCarries(isSpace: char -> bool, words: seq<string>, i: nat, chunks: seq<string>, current: string,
                     split: seq<string>, rest: string)
    requires isSpace(' ') && AreWords(words, isSpace) && i < |words|
    requires Carried(isSpace, words, i, chunks, current)
    requires rest != "" && Concat(split) + rest == Concat(Closed(chunks, current)) + words[i]
    ensures Carried(isSpace, words, i + 1, split, rest)
  {
    NextWord(words, i);
    InkThenWord(Concat(chunks) + current, words[i], isSpace);
    ConcatOne(chunks, current);
    assert Concat(chunks) + "" == Concat(chunks);
  }

  lemma NextWord(words: seq<string>, i: nat)
    requires i < |words|
    ensures words[..i + 1] == words[..i] + [words[i]]
    ensures Concat(words[..i + 1]) == Concat(words[..i]) + words[i]
  {
    assert words[..i + 1] == words[..i] + [words[i]];
    ConcatOne(words[..i], words[i]);
  }

  lemma CutCarries(chunks: seq<string>, word: string, cut: nat)
    requires cut <= |word|
    ensures Concat(chunks + [word[..cut]]) + word[cut..] == Concat(chunks) + word
  {
    ConcatOne(chunks, word[..cut]);
    Regroup(Concat(chunks), word[..cut], word[cut..]);
    assert word[..cut] + word[cut..] == word;
  }

  lemma JoinOneMore(cur: seq<string>, word: string)
    requires cur == [] <==> Join(cur) == ""
    ensures Join(cur + [word]) == Candidate(Join(cur), word)
  {
    if cur != [] {
      JoinAppend(cur, [word]);
    } else {
      assert cur + [word] == [word];
    }
  }

  lemma ExtendShares(words: seq<string>, i: nat, chunks: seq<string>, current: string,
                     groups: seq<seq<string>>, cur: seq<string>)
    requires i < |words| && words[i] != "" && Shared(words, i, chunks, current, groups, cur)
    ensures Shared(words, i + 1, chunks, Candidate(current, words[i]), groups, cur + [words[i]])
    ensures (cur + [words[i]]) + words[i + 1..] == cur + words[i..]
  {
    JoinOneMore(cur, words[i]);
    assert words[..i + 1] == words[..i] + [words[i]];
    Regroup(Concat(groups), cur, [words[i]]);
  }

  lemma CloseShares(words: seq<string>, i: nat, chunks: seq<string>, current: string,
                    groups: seq<seq<string>>, cur: seq<string>)
    requires i < |words| && words[i] != "" && current != "" && Shared(words, i, chunks, current, groups, cur)
    ensures Shared(words, i + 1, chunks + [current], words[i], groups + [cur], [words[i]])
    ensures [words[i]] + words[i + 1..] == words[i..]
  {
    MoreChunks(groups, cur);
    assert words[..i + 1] == words[..i] + [words[i]];
  }

  lemma CloseTight(limit: nat, words: seq<string>, i: nat, groups: nat, cur: seq<string>)
    requires i < |words| && cur != [] && Join(cur) != "" && Utf8Len(Join(cur)) <= limit
    requires Utf8Len(Candidate(Join(cur), words[i])) > limit
    requires Tight(limit, words, groups, cur, words[i..])
    ensures Tight(limit, words, groups + 1, [words[i]], words[i + 1..])
  {
    hide Hereditary, Pieces, Join, Utf8Len;
    var rest := words[i..];
    assert [words[i]] + words[i + 1..] == rest;
    JoinOneMore(cur, rest[0]);
    assert !FitsJoined(limit)(cur + [rest[0]]);
    JoinHereditary(limit);
    CutPays(FitsJoined(limit), cur, rest);
  }

  lemma ExtendPacks(limit: nat, words: seq<string>, i: nat, chunks: seq<string>, current: string,
                    groups: seq<seq<string>>, cur: seq<string>)
    requires i < |words| && words[i] != "" && Packed(limit, words, i, chunks, current, groups, cur)
    ensures Packed(limit, words, i + 1, chunks, Candidate(current, words[i]), groups, cur + [words[i]])
  {
    if WordsFit(limit, words) {
      ExtendShares(words, i, chunks, current, groups, cur);
    }
  }

  lemma ClosePacks(limit: nat, words: seq<string>, i: nat, chunks: seq<string>, current: string,
                   groups: seq<seq<string>>, cur: seq<string>, split: seq<string>, rest: string)
    requires i < |words| && words[i] != "" && Packed(limit, words, i, chunks, current, groups, cur)
    requires Utf8Len(current) <= limit < Utf8Len(Candidate(current, words[i]))
    requires Utf8Len(words[i]) <= limit ==> split == Closed(chunks, current) && rest == words[i]
    ensures Packed(limit, words, i + 1, split, rest, groups + [cur], [words[i]])
  {
    if WordsFit(limit, words) {
      CloseShares(words, i, chunks, current, groups, cur);
      CloseTight(limit, words, i, |groups|, cur);
    }
  }

  lemma LoopPacks(limit: nat, words: seq<string>, chunks: seq<string>, current: string,
                  groups: seq<seq<string>>, cur: seq<string>)
    requires current != "" && Utf8Len(current) <= limit
    requires Packed(limit, words, |words|, chunks, current, groups, cur)
    ensures Whole(limit, words, chunks + [current])
  {
    if WordsFit(limit, words) {
      LoopShares(words, chunks, current, groups, cur);
      LoopTight(limit, words, |groups|, cur);
    }
  }

  lemma {:induction false} MoreChunks(groups: seq<seq<string>>, cur: seq<string>)
    ensures JoinEach(groups + [cur]) == JoinEach(groups) + [Join(cur)]
    ensures Concat(groups + [cur]) == Concat(groups) + cur
  {
    ConcatOne(groups, cur);
  }

  lemma LoopShares(words: seq<string>, chunks: seq<string>, current: string,
                   groups: seq<seq<string>>, cur: seq<string>)
    requires current != "" && Shared(words, |words|, chunks, current, groups, cur)
    ensures Join(chunks + [current]) == Join(words)
  {
    MoreChunks(groups, cur);
    assert words[..|words|] == words;
    JoinOfGroups(groups + [cur]);
  }

  lemma LoopTight(limit: nat, words: seq<string>, groups: nat, cur: seq<string>)
    requires WordsFit(limit, words) && cur != [] && Utf8Len(Join(cur)) <= limit
    requires Tight(limit, words, groups, cur, words[|words|..])
    ensures FewestChunks(limit, words, groups + 1)
  {
    JoinHereditary(limit);
    CutPays(FitsJoined(limit), cur, words[|words|..]);
    assert EachFits(FitsJoined(limit), words);
    forall other: seq<seq<string>> | Concat(other) == words && AllFit(FitsJoined(limit), other)
      ensures groups + 1 <= |other|
    {
      Fewest(FitsJoined(limit), words, other);
    }
  }

  lemma {:induction false} JoinOfGroups(groups: seq<seq<string>>)
    requires forall k :: 0 <= k < |groups| ==> groups[k] != []
    ensures Join(JoinEach(groups)) == Join(Concat(groups))
  {
    if |groups| > 1 {
      JoinOfGroups(groups[1..]);
      JoinAppend(groups[0], Concat(groups[1..]));
    } else if |groups| == 1 {
      assert Concat(groups) == groups[0] + Concat(groups[1..]) == groups[0];
    }
  }
}

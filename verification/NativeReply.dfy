// The answer streamed into the glasses' own window: deltas are cut as they arrive,
// each cut is squeezed onto one line and split to the part size.

module NativeReply {
  import opened Bytes
  import opened TextSplit
  import opened Chunking
  import opened PushWire

  const PART_BYTES := 200

  // _one_line
  function OneLine(t: string, isSpace: char -> bool): string {
    Join(Words(t, isSpace))
  }

  lemma OneLineKeepsInk(t: string, isSpace: char -> bool)
    requires isSpace(' ')
    ensures Ink(OneLine(t, isSpace), isSpace) == Ink(t, isSpace)
  {
    var ws := Words(t, isSpace);
    WordsAreInk(t, isSpace);
    WordsOfJoin(ws, isSpace);
    WordsAreInk(Join(ws), isSpace);
  }

  // Every write of a part: one glue character and at most PART_BYTES of text.
  ghost predicate PartsFit(parts: seq<string>) {
    forall k :: 0 <= k < |parts| ==> Utf8Len(parts[k]) <= PART_BYTES + 1
  }

  lemma ShowsMore(isSpace: char -> bool, parts: seq<string>, lead: string, piece: string)
    requires isSpace(' ') && (lead == "" || lead == " ") && Utf8Len(piece) <= PART_BYTES && PartsFit(parts)
    ensures PartsFit(parts + [lead + piece])
    ensures Ink(Concat(parts + [lead + piece]), isSpace) == Ink(Concat(parts), isSpace) + Ink(piece, isSpace)
  {
    ConcatOne(parts, lead + piece);
    InkAppend(Concat(parts), lead + piece, isSpace);
    GlueIsBlank(isSpace, lead, piece);
  }

  lemma GlueIsBlank(isSpace: char -> bool, lead: string, piece: string)
    requires isSpace(' ') && (lead == "" || lead == " ")
    ensures Ink(lead + piece, isSpace) == Ink(piece, isSpace)
    ensures Utf8Len(lead + piece) <= Utf8Len(piece) + 1
  {
    if lead == "" {
      assert lead + piece == piece;
    } else {
      var s := lead + piece;
      assert s[0] == ' ' && s[1..] == piece;
      Utf8Append(lead, piece);
      OneChar(' ');
    }
  }

  // _send_part
  method SendPart(shown: seq<string>, chunk: string, isSpace: char -> bool) returns (parts: seq<string>)
    requires isSpace(' ') && PartsFit(shown)
    ensures PartsFit(parts)
    ensures Ink(Concat(parts), isSpace) == Ink(Concat(shown), isSpace) + Ink(chunk, isSpace)
    ensures Concat(parts) == Concat(shown) + Squeezed(chunk, isSpace)
  {
    var lead := if chunk != "" && isSpace(chunk[0]) then " " else "";
    var body := OneLine(chunk, isSpace);
    OneLineKeepsInk(chunk, isSpace);
    SqueezedTwice(chunk, isSpace);
    parts := shown;
    if body == "" {
      assert Concat(shown) + "" == Concat(shown);
      return;
    }
    var pieces := ChunkText(body, PART_BYTES, isSpace);
    parts := Glue(shown, pieces.value, lead, isSpace);
  }

  // No word is too long for a part.
  ghost predicate ShortWords(t: string, isSpace: char -> bool) {
    WordsFit(PART_BYTES, Words(t, isSpace))
  }

  // The words of a chunk as they come out, over-long ones in pieces.
  function Shown(chunk: string, isSpace: char -> bool): seq<string> {
    SplitWords(PART_BYTES, Words(chunk, isSpace))
  }

  // What a chunk adds to the window: its line, behind a blank if it began with one.
  function Squeezed(chunk: string, isSpace: char -> bool): string {
    if chunk == "" || Words(chunk, isSpace) == [] then ""
    else (if isSpace(chunk[0]) then " " else "") + Join(Shown(chunk, isSpace))
  }

  lemma SqueezedTwice(chunk: string, isSpace: char -> bool)
    requires isSpace(' ')
    ensures Words(OneLine(chunk, isSpace), isSpace) == Words(chunk, isSpace)
    ensures OneLine(chunk, isSpace) == "" <==> Words(chunk, isSpace) == []
    ensures Words(chunk, isSpace) != [] ==> chunk != ""
  {
    var ws := Words(chunk, isSpace);
    WordsAreInk(chunk, isSpace);
    WordsOfJoin(ws, isSpace);
    if ws != [] {
      assert IsWord(ws[0], isSpace);
    }
  }

  method Glue(shown: seq<string>, pieces: seq<string>, lead: string, isSpace: char -> bool)
    returns (parts: seq<string>)
    requires isSpace(' ') && PartsFit(shown) && ChunksFit(PART_BYTES, pieces) && (lead == "" || lead == " ")
    ensures PartsFit(parts)
    ensures Ink(Concat(parts), isSpace) == Ink(Concat(shown), isSpace) + Ink(Concat(pieces), isSpace)
    ensures Concat(parts) == Concat(shown) + Led(lead, pieces)
  {
    hide Glued;
    parts := shown;
    GlueStarts(shown, lead, pieces, isSpace);
    for i := 0 to |pieces|
      invariant Glued(parts, shown, lead, pieces[..i], isSpace)
    {
      var glue := if i == 0 then lead else " ";
      GlueNext(parts, shown, lead, pieces, i, isSpace);
      parts := parts + [glue + pieces[i]];
    }
    assert pieces[..|pieces|] == pieces;
    GlueEnds(parts, shown, lead, pieces, isSpace);
  }

  // So many pieces are glued to what was shown.
  ghost predicate Glued(parts: seq<string>, shown: seq<string>, lead: string, pieces: seq<string>, isSpace: char -> bool) {
    && PartsFit(parts) && Concat(parts) == Concat(shown) + Led(lead, pieces)
    && Ink(Concat(parts), isSpace) == Ink(Concat(shown), isSpace) + Ink(Concat(pieces), isSpace)
  }

  lemma GlueStarts(shown: seq<string>, lead: string, pieces: seq<string>, isSpace: char -> bool)
    requires PartsFit(shown)
    ensures Glued(shown, shown, lead, pieces[..0], isSpace)
  {
    assert pieces[..0] == [] && Concat(shown) + "" == Concat(shown);
  }

  lemma GlueNext(parts: seq<string>, shown: seq<string>, lead: string, pieces: seq<string>, i: nat, isSpace: char -> bool)
    requires isSpace(' ') && i < |pieces| && Glued(parts, shown, lead, pieces[..i], isSpace)
    requires ChunksFit(PART_BYTES, pieces) && (lead == "" || lead == " ")
    ensures Glued(parts + [(if i == 0 then lead else " ") + pieces[i]], shown, lead, pieces[..i + 1], isSpace)
  {
    var glue := if i == 0 then lead else " ";
    ShowsMore(isSpace, parts, glue, pieces[i]);
    NextInk(pieces, i, Ink(Concat(shown), isSpace), isSpace);
    ConcatOne(parts, glue + pieces[i]);
    NextLed(lead, pieces, i, Concat(shown));
  }

  lemma GlueEnds(parts: seq<string>, shown: seq<string>, lead: string, pieces: seq<string>, isSpace: char -> bool)
    requires Glued(parts, shown, lead, pieces, isSpace)
    ensures PartsFit(parts) && Concat(parts) == Concat(shown) + Led(lead, pieces)
    ensures Ink(Concat(parts), isSpace) == Ink(Concat(shown), isSpace) + Ink(Concat(pieces), isSpace)
  {
  }

  function Led(lead: string, pieces: seq<string>): string {
    if pieces == [] then "" else lead + Join(pieces)
  }

  lemma NextLed(lead: string, pieces: seq<string>, i: nat, before: string)
    requires i < |pieces|
    ensures before + Led(lead, pieces[..i]) + ((if i == 0 then lead else " ") + pieces[i])
      == before + Led(lead, pieces[..i + 1])
  {
    assert pieces[..i + 1] == pieces[..i] + [pieces[i]];
    if i > 0 {
      JoinAppend(pieces[..i], [pieces[i]]);
    } else {
      assert pieces[..i + 1] == [pieces[i]];
    }
  }

  lemma NextInk(pieces: seq<string>, i: nat, base: string, isSpace: char -> bool)
    requires i < |pieces|
    ensures base + Ink(Concat(pieces[..i]), isSpace) + Ink(pieces[i], isSpace)
      == base + Ink(Concat(pieces[..i + 1]), isSpace)
  {
    NextWord(pieces, i);
    InkAppend(Concat(pieces[..i]), pieces[i], isSpace);
    Regroup(base, Ink(Concat(pieces[..i]), isSpace), Ink(pieces[i], isSpace));
  }

  // ---- where words stay apart ------------------------------------------------------------

  // A gap, or nothing at all, at the joint: the words are those of both sides.
  lemma {:induction false} WordsApart(a: string, b: string, isSpace: char -> bool)
    requires a == "" || b == "" || isSpace(a[|a| - 1]) || isSpace(b[0])
    ensures Words(a + b, isSpace) == Words(a, isSpace) + Words(b, isSpace)
    decreases |a|
  {
    if a == "" {
      assert a + b == b;
    } else if b == "" {
      assert a + b == a;
    } else if isSpace(a[0]) {
      assert (a + b)[1..] == a[1..] + b;
      WordsApart(a[1..], b, isSpace);
    } else {
      var n := WordEnd(a, isSpace, 0);
      assert n < |a| ==> a[n..][|a| - n - 1] == a[|a| - 1];
      WordsApart(a[n..], b, isSpace);
      WordFirst(a, n, b, isSpace);
      Regroup([a[..n]], Words(a[n..], isSpace), Words(b, isSpace));
    }
  }

  // The first word of a comes first in a + b too, unless it is all of a.
  lemma WordFirst(a: string, n: nat, b: string, isSpace: char -> bool)
    requires a != "" && !isSpace(a[0]) && n == WordEnd(a, isSpace, 0)
    requires n < |a| || b == "" || isSpace(b[0])
    ensures Words(a, isSpace) == [a[..n]] + Words(a[n..], isSpace)
    ensures Words(a + b, isSpace) == [a[..n]] + Words(a[n..] + b, isSpace)
  {
    hide Words, WordEnd, NoSpace;
    var w, rest := a[..n], a[n..];
    assert n > 0;
    WordThen(w, rest, b, isSpace);
    assert a == w + rest;
    Regroup(w, rest, b);
  }

  lemma WordThen(w: string, rest: string, b: string, isSpace: char -> bool)
    requires IsWord(w, isSpace) && (rest != "" ==> isSpace(rest[0])) && (rest != "" || b == "" || isSpace(b[0]))
    ensures Words(w + rest, isSpace) == [w] + Words(rest, isSpace)
    ensures Words(w + (rest + b), isSpace) == [w] + Words(rest + b, isSpace)
  {
    hide Words, NoSpace;
    FirstWord(w, rest, isSpace);
    FirstWord(w, rest + b, isSpace);
  }

  predicate Touch(a: string, b: string, isSpace: char -> bool) {
    a != "" && b != "" && !isSpace(a[|a| - 1]) && !isSpace(b[0])
  }

  // No gap: the word at the end of a and the one at the start of b become one.
  lemma {:induction false} WordsTouch(a: string, b: string, isSpace: char -> bool)
    requires Touch(a, b, isSpace)
    ensures var u, v := Words(a, isSpace), Words(b, isSpace);
      u != [] && v != [] && Words(a + b, isSpace) == u[..|u| - 1] + [u[|u| - 1] + v[0]] + v[1..]
    decreases |a|
  {
    if isSpace(a[0]) {
      assert (a + b)[1..] == a[1..] + b;
      WordsTouch(a[1..], b, isSpace);
    } else {
      var n := WordEnd(a, isSpace, 0);
      if n < |a| {
        WordFirst(a, n, b, isSpace);
        WordsTouch(a[n..], b, isSpace);
      } else {
        OneWordTouches(a, b, isSpace);
      }
    }
  }

  lemma OneWordTouches(a: string, b: string, isSpace: char -> bool)
    requires Touch(a, b, isSpace) && IsWord(a, isSpace)
    ensures Words(a, isSpace) == [a] && Words(b, isSpace) != []
    ensures Words(a + b, isSpace) == [a + Words(b, isSpace)[0]] + Words(b, isSpace)[1..]
  {
    var m := WordEnd(b, isSpace, 0);
    assert a + b == (a + b[..m]) + b[m..];
    FirstWord(a + b[..m], b[m..], isSpace);
    FirstWord(a, "", isSpace);
    assert a + "" == a;
  }

  // A chunk that begins in the middle of nothing: the text so far ended with a gap, and
  // no blank goes out in front of the chunk.
  predicate GapLost(before: string, chunk: string, isSpace: char -> bool) {
    && Words(before, isSpace) != [] && isSpace(before[|before| - 1])
    && Words(chunk, isSpace) != [] && !isSpace(chunk[0])
  }

  predicate GapsKept(chunks: seq<string>, isSpace: char -> bool) {
    chunks == [] ||
    var n := |chunks| - 1;
    GapsKept(chunks[..n], isSpace) && !GapLost(Concat(chunks[..n]), chunks[n], isSpace)
  }

  function Window(chunks: seq<string>, isSpace: char -> bool): string {
    if chunks == [] then ""
    else Window(chunks[..|chunks| - 1], isSpace) + Squeezed(chunks[|chunks| - 1], isSpace)
  }

  // The window shows d for the answer so far, a: the same words, or others for good.
  ghost predicate Tracks(d: string, a: string, same: bool, isSpace: char -> bool) {
    && (if same then Words(d, isSpace) == Words(a, isSpace) else Stray(Words(d, isSpace), Words(a, isSpace)))
    && (Words(d, isSpace) == [] <==> Words(a, isSpace) == [])
    && (d != "" ==> Words(d, isSpace) != [] && !isSpace(d[|d| - 1]))
  }

  // More text adds words at the end and may lengthen the last one.
  predicate Grown(u: seq<string>, v: seq<string>) {
    |u| <= |v| && forall k :: 0 <= k < |u| ==> |u[k]| <= |v[k]| && (k + 1 < |u| ==> u[k] == v[k])
  }

  lemma WordsGrow(a: string, b: string, isSpace: char -> bool)
    ensures Grown(Words(a, isSpace), Words(a + b, isSpace))
  {
    if Touch(a, b, isSpace) {
      WordsTouch(a, b, isSpace);
    } else {
      WordsApart(a, b, isSpace);
    }
  }

  lemma StrayForGood(u: seq<string>, v: seq<string>, u': seq<string>, v': seq<string>)
    requires Stray(u, v) && Grown(u, u') && Grown(v, v')
    ensures Stray(u', v') && u' != [] && v' != []
  {
    var i: nat :| StrayAt(u, v, i);
    assert StrayAt(u', v', i);
  }

  lemma StrayDiffers(u: seq<string>, v: seq<string>)
    ensures Stray(u, v) ==> u != v
  {
  }

  lemma LastOfJoin(ws: seq<string>, isSpace: char -> bool)
    requires AreWords(ws, isSpace) && ws != []
    ensures Join(ws) != "" && !isSpace(Join(ws)[|Join(ws)| - 1]) && Join(ws)[0] == ws[0][0]
  {
    assert IsWord(ws[|ws| - 1], isSpace);
    if |ws| > 1 {
      assert ws == ws[..|ws| - 1] + [ws[|ws| - 1]];
      JoinAppend(ws[..|ws| - 1], [ws[|ws| - 1]]);
      assert ws[0] != "" && Join(ws)[..|ws[0]|] == ws[0];
    }
  }

  lemma FirstOfWords(t: string, isSpace: char -> bool)
    requires t != "" && !isSpace(t[0])
    ensures Words(t, isSpace) != [] && Words(t, isSpace)[0][0] == t[0]
  {
    WordsAreInk(t, isSpace);
  }

  // One more chunk.
  lemma TracksNext(d: string, a: string, same: bool, chunk: string, isSpace: char -> bool)
    requires isSpace(' ') && Tracks(d, a, same, isSpace)
    ensures Tracks(d + Squeezed(chunk, isSpace), a + chunk,
                   same && !GapLost(a, chunk, isSpace) && ShortWords(chunk, isSpace), isSpace)
  {
    hide Tracks, Stray, WordsFit, SplitWords;
    var ws := Words(chunk, isSpace);
    WordsAreInk(chunk, isSpace);
    SplitWordsStray(PART_BYTES, ws, isSpace);
    WordsOfJoin(Shown(chunk, isSpace), isSpace);
    if ws == [] {
      assert d + "" == d;
      NoWordsFit();
      Blank(d, a, same, chunk, isSpace);
    } else {
      var body := Join(Shown(chunk, isSpace));
      LastOfJoin(Shown(chunk, isSpace), isSpace);
      if isSpace(chunk[0]) {
        LedByBlank(d, a, same, chunk, body, isSpace);
      } else {
        FirstOfWords(chunk, isSpace);
        assert "" + body == body;
        assert !isSpace(body[0]) by { assert IsWord(Shown(chunk, isSpace)[0], isSpace); }
        Unled(d, a, same, chunk, body, isSpace);
      }
    }
  }

  lemma NoWordsFit()
    ensures WordsFit(PART_BYTES, [])
  {
  }

  lemma Blank(d: string, a: string, same: bool, chunk: string, isSpace: char -> bool)
    requires Tracks(d, a, same, isSpace) && Words(chunk, isSpace) == []
    ensures Tracks(d, a + chunk, same, isSpace)
  {
    if chunk != "" && !isSpace(chunk[0]) {
      FirstOfWords(chunk, isSpace);
    }
    WordsApart(a, chunk, isSpace);
    assert Words(a, isSpace) + [] == Words(a, isSpace);
  }

  // body is how the chunk comes out: its words if they are short, else others.
  ghost predicate Comes(body: string, chunk: string, isSpace: char -> bool) {
    && body != "" && !isSpace(body[|body| - 1]) && Words(body, isSpace) != [] && Words(chunk, isSpace) != []
    && if ShortWords(chunk, isSpace) then Words(body, isSpace) == Words(chunk, isSpace)
       else Stray(Words(body, isSpace), Words(chunk, isSpace))
  }

  lemma StrayBehind(w: seq<string>, u: seq<string>, v: seq<string>)
    requires Stray(u, v)
    ensures Stray(w + u, w + v)
  {
    var i: nat :| StrayAt(u, v, i);
    assert StrayAt(w + u, w + v, |w| + i);
  }

  // A chunk that begins with a gap.
  lemma LedByBlank(d: string, a: string, same: bool, chunk: string, body: string, isSpace: char -> bool)
    requires isSpace(' ') && Tracks(d, a, same, isSpace) && chunk != "" && isSpace(chunk[0])
    requires Comes(body, chunk, isSpace)
    ensures Tracks(d + (" " + body), a + chunk, same && ShortWords(chunk, isSpace), isSpace)
  {
    WordsApart(a, chunk, isSpace);
    WordsApart(" ", body, isSpace);
    assert " "[1..] == "";
    WordsApart(d, " " + body, isSpace);
    var u, v := Words(d, isSpace), Words(a, isSpace);
    if !same {
      WordsGrow(d, " " + body, isSpace);
      WordsGrow(a, chunk, isSpace);
      StrayForGood(u, v, Words(d + (" " + body), isSpace), Words(a + chunk, isSpace));
    } else if !ShortWords(chunk, isSpace) {
      StrayBehind(u, Words(body, isSpace), Words(chunk, isSpace));
    }
  }

  // A chunk that begins with a word.
  lemma Unled(d: string, a: string, same: bool, chunk: string, body: string, isSpace: char -> bool)
    requires Tracks(d, a, same, isSpace) && chunk != "" && !isSpace(chunk[0])
    requires Comes(body, chunk, isSpace) && !isSpace(body[0])
    ensures Tracks(d + body, a + chunk, same && !GapLost(a, chunk, isSpace) && ShortWords(chunk, isSpace), isSpace)
  {
    hide Stray, WordsFit, Words;
    NoWords(isSpace);
    WordsGrow(d, body, isSpace);
    WordsGrow(a, chunk, isSpace);
    if !same {
      StrayForGood(Words(d, isSpace), Words(a, isSpace), Words(d + body, isSpace), Words(a + chunk, isSpace));
    } else if d == "" {
      assert d + body == body;
      BehindNothing(a, chunk, isSpace);
    } else if isSpace(a[|a| - 1]) {
      GapGone(d, a, chunk, body, isSpace);
    } else {
      BothTouch(d, a, chunk, body, isSpace);
    }
  }

  lemma NoWords(isSpace: char -> bool)
    ensures Words("", isSpace) == []
  {
  }

  lemma BehindNothing(a: string, chunk: string, isSpace: char -> bool)
    requires Words(a, isSpace) == [] && chunk != "" && !isSpace(chunk[0])
    ensures Words(a + chunk, isSpace) == Words(chunk, isSpace)
  {
    if Touch(a, chunk, isSpace) {
      WordsTouch(a, chunk, isSpace);
    } else {
      WordsApart(a, chunk, isSpace);
    }
  }

  // The gap in front of the chunk is lost: two words have become one.
  lemma GapGone(d: string, a: string, chunk: string, body: string, isSpace: char -> bool)
    requires Touch(d, body, isSpace) && Words(d, isSpace) == Words(a, isSpace) != []
    requires a != "" && isSpace(a[|a| - 1]) && Words(chunk, isSpace) != [] && Words(body, isSpace) != []
    ensures Stray(Words(d + body, isSpace), Words(a + chunk, isSpace))
  {
    WordsTouch(d, body, isSpace);
    WordsApart(a, chunk, isSpace);
    WordsAreInk(body, isSpace);
    assert IsWord(Words(body, isSpace)[0], isSpace);
    assert StrayAt(Words(d + body, isSpace), Words(a + chunk, isSpace), |Words(d, isSpace)| - 1);
  }

  lemma BothTouch(d: string, a: string, chunk: string, body: string, isSpace: char -> bool)
    requires Touch(d, body, isSpace) && Touch(a, chunk, isSpace) && Words(d, isSpace) == Words(a, isSpace)
    requires Comes(body, chunk, isSpace)
    ensures if ShortWords(chunk, isSpace) then Words(d + body, isSpace) == Words(a + chunk, isSpace)
      else Stray(Words(d + body, isSpace), Words(a + chunk, isSpace))
  {
    WordsTouch(d, body, isSpace);
    WordsTouch(a, chunk, isSpace);
    hide WordsFit, Words;
    if !ShortWords(chunk, isSpace) {
      var i: nat :| StrayAt(Words(body, isSpace), Words(chunk, isSpace), i);
      assert StrayAt(Words(d + body, isSpace), Words(a + chunk, isSpace), |Words(d, isSpace)| - 1 + i);
    }
  }

  lemma {:induction false} WindowTracks(chunks: seq<string>, isSpace: char -> bool)
    requires isSpace(' ')
    ensures Tracks(Window(chunks, isSpace), Concat(chunks),
                   GapsKept(chunks, isSpace) && ShortChunks(chunks, isSpace), isSpace)
    decreases |chunks|
  {
    hide Tracks, Window, GapsKept, ShortChunks;
    if chunks == [] {
      NothingShown(isSpace);
    } else {
      var n := |chunks| - 1;
      var before := chunks[..n];
      WindowTracks(before, isSpace);
      TracksNext(Window(before, isSpace), Concat(before), GapsKept(before, isSpace) && ShortChunks(before, isSpace),
                 chunks[n], isSpace);
      OneMoreChunk(chunks, isSpace);
    }
  }

  lemma NothingShown(isSpace: char -> bool)
    ensures Tracks(Window([], isSpace), Concat<char>([]), GapsKept([], isSpace) && ShortChunks([], isSpace), isSpace)
  {
  }

  lemma OneMoreChunk(chunks: seq<string>, isSpace: char -> bool)
    requires chunks != []
    ensures var before, c := chunks[..|chunks| - 1], chunks[|chunks| - 1];
      && Window(chunks, isSpace) == Window(before, isSpace) + Squeezed(c, isSpace)
      && Concat(chunks) == Concat(before) + c
      && (GapsKept(chunks, isSpace) <==> GapsKept(before, isSpace) && !GapLost(Concat(before), c, isSpace))
      && (ShortChunks(chunks, isSpace) <==> ShortChunks(before, isSpace) && ShortWords(c, isSpace))
  {
    var before, c := chunks[..|chunks| - 1], chunks[|chunks| - 1];
    ConcatOne(before, c);
    assert chunks == before + [c];
  }

  // The window shows the words of the answer exactly when no chunk begins with a word
  // right behind a gap and no word is too long for a part.
  lemma SameWordsExactly(chunks: seq<string>, isSpace: char -> bool)
    requires isSpace(' ')
    ensures Words(Window(chunks, isSpace), isSpace) == Words(Concat(chunks), isSpace)
      <==> GapsKept(chunks, isSpace) && ShortChunks(chunks, isSpace)
  {
    hide Window, GapsKept, ShortChunks;
    WindowTracks(chunks, isSpace);
    StrayDiffers(Words(Window(chunks, isSpace), isSpace), Words(Concat(chunks), isSpace));
  }

  // A text with short words has short words in all its chunks.
  lemma {:induction false} ShortTogether(chunks: seq<string>, isSpace: char -> bool)
    requires ShortWords(Concat(chunks), isSpace)
    ensures ShortChunks(chunks, isSpace)
    decreases |chunks|
  {
    if chunks != [] {
      OneMoreChunk(chunks, isSpace);
      ShortHalves(Concat(chunks[..|chunks| - 1]), chunks[|chunks| - 1], isSpace);
      ShortTogether(chunks[..|chunks| - 1], isSpace);
    }
  }

  lemma ShortHalves(a: string, b: string, isSpace: char -> bool)
    requires ShortWords(a + b, isSpace)
    ensures ShortWords(a, isSpace) && ShortWords(b, isSpace)
  {
    hide Words, Touch;
    var u, v := Words(a, isSpace), Words(b, isSpace);
    if Touch(a, b, isSpace) {
      WordsTouch(a, b, isSpace);
      ShortMerged(u, v);
    } else {
      WordsApartHere(a, b, isSpace);
      ShortBoth(u, v);
    }
  }

  lemma WordsApartHere(a: string, b: string, isSpace: char -> bool)
    requires !Touch(a, b, isSpace)
    ensures Words(a + b, isSpace) == Words(a, isSpace) + Words(b, isSpace)
  {
    WordsApart(a, b, isSpace);
  }

  lemma ShortBoth(u: seq<string>, v: seq<string>)
    requires WordsFit(PART_BYTES, u + v)
    ensures WordsFit(PART_BYTES, u) && WordsFit(PART_BYTES, v)
  {
    assert forall k :: 0 <= k < |u| ==> u[k] == (u + v)[k];
    assert forall k :: 0 <= k < |v| ==> v[k] == (u + v)[|u| + k];
  }

  lemma ShortMerged(u: seq<string>, v: seq<string>)
    requires u != [] && v != []
    requires WordsFit(PART_BYTES, u[..|u| - 1] + [u[|u| - 1] + v[0]] + v[1..])
    ensures WordsFit(PART_BYTES, u) && WordsFit(PART_BYTES, v)
  {
    var x, y := u[..|u| - 1] + [u[|u| - 1] + v[0]], v[1..];
    ShortBoth(x, y);
    ShortBoth(u[..|u| - 1], [u[|u| - 1] + v[0]]);
    assert Utf8Len([u[|u| - 1] + v[0]][0]) <= PART_BYTES;
    Utf8Append(u[|u| - 1], v[0]);
    assert forall k :: 0 < k < |v| ==> v[k] == y[k - 1];
    assert forall k :: 0 <= k < |u| - 1 ==> u[k] == u[..|u| - 1][k];
  }

  // ---- where the answer is cut -------------------------------------------------------------

  // A newline or a tab, say, is whitespace that the cuts do not look for.
  predicate OnlyBlanks(t: string, isSpace: char -> bool) {
    forall i :: 0 <= i < |t| && isSpace(t[i]) ==> t[i] == ' '
  }

  // A cut is made before a blank or behind another character.
  predicate Boundary(acc: string, sent: nat) {
    sent <= |acc| && (sent == 0 || (sent < |acc| && acc[sent] == ' ') || acc[sent - 1] != ' ')
  }

  lemma CutsAtBoundary(acc: string, sent: nat, cut: nat)
    requires sent < cut <= |acc|
    requires LastSentenceEnd(acc[sent..], cut - sent) || LastWordCut(acc[sent..], cut - sent)
    ensures Boundary(acc, cut)
  {
    assert cut < |acc| ==> acc[sent..][cut - sent] == acc[cut];
    assert acc[sent..][cut - sent - 1] == acc[cut - 1];
  }

  lemma NoneLost(acc: string, sent: nat, cut: nat, isSpace: char -> bool)
    requires isSpace(' ') && Boundary(acc, sent) && sent <= cut <= |acc| && OnlyBlanks(acc[..cut], isSpace)
    ensures OnlyBlanks(acc[..sent], isSpace) && !GapLost(acc[..sent], acc[sent..cut], isSpace)
  {
    forall i | 0 <= i < sent && isSpace(acc[..sent][i])
      ensures acc[..sent][i] == ' '
    {
      assert acc[..cut][i] == acc[i];
    }
    if 0 < sent < cut {
      assert acc[sent..cut][0] == acc[sent] && acc[..cut][sent - 1] == acc[..sent][sent - 1] == acc[sent - 1];
    } else if sent == cut {
      assert acc[sent..cut] == "";
    }
  }

  ghost predicate ShortChunks(chunks: seq<string>, isSpace: char -> bool) {
    forall k :: 0 <= k < |chunks| ==> ShortWords(chunks[k], isSpace)
  }

  // What the inner loop cuts off the waiting text, and what it leaves.
  function Drained(p: string, isOpen: bool): (seq<string>, string)
    decreases |p|
  {
    match CutPoint(p, isOpen)
    case None => ([], p)
    case Some(n) =>
      var (more, rest) := Drained(p[n..], true);
      ([p[..n]] + more, rest)
  }

  // The cuts that these deltas bring about, and the text still waiting.
  function Cuts(deltas: seq<string>): (seq<string>, string) {
    if deltas == [] then ([], "")
    else
      var (cuts, rest) := Cuts(deltas[..|deltas| - 1]);
      var (more, left) := Drained(rest + deltas[|deltas| - 1], cuts != []);
      (cuts + more, left)
  }

  // Every chunk of a streamed answer: the cuts, and at the end what is left.
  function Chunks(deltas: seq<string>): seq<string> {
    Cuts(deltas).0 + [Cuts(deltas).1]
  }

  // Whether the answer is streamed at all, or sent whole at its end.
  predicate Streams(deltas: seq<string>) {
    Cuts(deltas).0 != []
  }

  // Where the inner loop stands in the cuts of these deltas.
  ghost predicate Cutting(deltas: seq<string>, cuts: seq<string>, waiting: string) {
    var (more, left) := Drained(waiting, cuts != []);
    Cuts(deltas) == (cuts + more, left)
  }

  lemma CuttingStarts(deltas: seq<string>, i: nat, cuts: seq<string>, acc: string, sent: nat)
    requires i < |deltas| && sent <= |acc| && Cuts(deltas[..i]) == (cuts, acc[sent..])
    ensures Cutting(deltas[..i + 1], cuts, (acc + deltas[i])[sent..])
  {
    assert deltas[..i + 1][..i] == deltas[..i];
    assert (acc + deltas[i])[sent..] == acc[sent..] + deltas[i];
  }

  lemma CuttingGoesOn(deltas: seq<string>, cuts: seq<string>, acc: string, sent: nat, cut: nat)
    requires sent < cut <= |acc| && CutPoint(acc[sent..], cuts != []) == Some(cut - sent)
    requires Cutting(deltas, cuts, acc[sent..])
    ensures Cutting(deltas, cuts + [acc[sent..cut]], acc[cut..])
  {
    assert acc[sent..][..cut - sent] == acc[sent..cut] && acc[sent..][cut - sent..] == acc[cut..];
    Regroup(cuts, [acc[sent..cut]], Drained(acc[cut..], true).0);
  }

  lemma CuttingEnds(deltas: seq<string>, cuts: seq<string>, waiting: string)
    requires Cutting(deltas, cuts, waiting) && CutPoint(waiting, cuts != []) == None
    ensures Cuts(deltas) == (cuts, waiting)
  {
    assert cuts + [] == cuts;
  }

  // Where the loops stand: the text up to sent went out, cut into these chunks.
  ghost predicate Out(parts: seq<string>, cuts: seq<string>, acc: string, sent: nat, isSpace: char -> bool) {
    && PartsFit(parts) && sent <= |acc| && Concat(cuts) == acc[..sent]
    && Ink(Concat(parts), isSpace) == Ink(acc[..sent], isSpace)
    && Concat(parts) == Window(cuts, isSpace)
    && (OnlyBlanks(acc[..sent], isSpace) ==> GapsKept(cuts, isSpace))
  }

  lemma OutLater(parts: seq<string>, cuts: seq<string>, acc: string, sent: nat, more: string, isSpace: char -> bool)
    requires Boundary(acc, sent) && Out(parts, cuts, acc, sent, isSpace)
    ensures Boundary(acc + more, sent) && Out(parts, cuts, acc + more, sent, isSpace)
  {
    assert (acc + more)[..sent] == acc[..sent];
  }

  method SendChunk(shown: seq<string>, acc: string, sent: nat, cut: nat, isSpace: char -> bool, ghost cuts: seq<string>)
    returns (parts: seq<string>)
    requires isSpace(' ') && sent <= cut <= |acc| && Boundary(acc, sent) && Out(shown, cuts, acc, sent, isSpace)
    ensures Out(parts, cuts + [acc[sent..cut]], acc, cut, isSpace)
  {
    hide Window, GapsKept, GapLost, ShortChunks, Squeezed;
    var chunk := acc[sent..cut];
    parts := SendPart(shown, chunk, isSpace);
    ghost var all := cuts + [chunk];
    assert all[..|all| - 1] == cuts && acc[..sent] + chunk == acc[..cut];
    InkAppend(acc[..sent], chunk, isSpace);
    OneMoreChunk(all, isSpace);
    if OnlyBlanks(acc[..cut], isSpace) {
      NoneLost(acc, sent, cut, isSpace);
    }
  }

  // Where StreamReply stands: what went out, and how it was cut.
  ghost predicate Sent(parts: seq<string>, streamed: bool, cuts: seq<string>, acc: string, sent: nat, isSpace: char -> bool) {
    Boundary(acc, sent) && Out(parts, cuts, acc, sent, isSpace) && streamed == (cuts != [])
  }

  // The inner loop: everything that is due.
  method SendDue(shown: seq<string>, acc: string, start: nat, isOpen: bool, isSpace: char -> bool,
                 ghost deltas: seq<string>, ghost before: seq<string>)
    returns (parts: seq<string>, sent: nat, streamed: bool, ghost cuts: seq<string>)
    requires isSpace(' ') && Sent(shown, isOpen, before, acc, start, isSpace)
    requires Cutting(deltas, before, acc[start..])
    ensures Sent(parts, streamed, cuts, acc, sent, isSpace) && Cuts(deltas) == (cuts, acc[sent..])
  {
    hide Out, Cutting, OnlyBlanks;
    parts, sent, streamed, cuts := shown, start, isOpen, before;
    while true
      invariant Sent(parts, streamed, cuts, acc, sent, isSpace)
      invariant Cutting(deltas, cuts, acc[sent..])
      decreases |acc| - sent
    {
      var cut := FlushPoint(acc, sent, streamed);
      if cut.None? {
        break;
      }
      CutsAtBoundary(acc, sent, cut.value);
      CuttingGoesOn(deltas, cuts, acc, sent, cut.value);
      parts := SendChunk(parts, acc, sent, cut.value, isSpace, cuts);
      cuts := cuts + [acc[sent..cut.value]];
      streamed, sent := true, cut.value;
    }
    CuttingEnds(deltas, cuts, acc[sent..]);
  }

  // _stream_reply, for a reply that is not dismissed.
  method StreamReply(deltas: seq<string>, isSpace: char -> bool) returns (streamed: bool, parts: seq<string>)
    requires isSpace(' ')
    ensures PartsFit(parts) && streamed == Streams(deltas)
    ensures Ink(Concat(parts), isSpace) == if streamed || Ink(Concat(deltas), isSpace) != ""
      then Ink(Concat(deltas), isSpace) else Ink(NO_ANSWER, isSpace)
    ensures streamed ==> Concat(parts) == Window(Chunks(deltas), isSpace)
    // The words come out as they are exactly when none is too long for a part and no
    // chunk begins with a word right behind a gap.
    ensures Ink(Concat(deltas), isSpace) != "" ==>
      (Words(Concat(parts), isSpace) == Words(Concat(deltas), isSpace) <==> KeepsWords(deltas, isSpace))
    // Losing a gap takes other whitespace than blanks, a word in pieces a long word.
    ensures streamed && OnlyBlanks(Concat(deltas), isSpace) ==> GapsKept(Chunks(deltas), isSpace)
    ensures streamed && ShortWords(Concat(deltas), isSpace) ==> ShortChunks(Chunks(deltas), isSpace)
  {
    hide Sent, Cuts, Window, GapsKept;
    var acc, sent: nat := "", 0;
    parts, streamed := [], false;
    ghost var cuts: seq<string> := [];
    assert deltas[..0] == [];
    NothingSent(isSpace);
    for i := 0 to |deltas|
      invariant acc == Concat(deltas[..i]) && Sent(parts, streamed, cuts, acc, sent, isSpace)
      invariant sent <= |acc| && Cuts(deltas[..i]) == (cuts, acc[sent..])
    {
      NextWord(deltas, i);
      MoreCame(parts, streamed, cuts, deltas, i, acc, sent, isSpace);
      acc := acc + deltas[i];
      parts, sent, streamed, cuts := SendDue(parts, acc, sent, streamed, isSpace, deltas[..i + 1], cuts);
      SentPart(parts, streamed, cuts, acc, sent, isSpace);
    }
    assert deltas[..|deltas|] == deltas;
    SentPart(parts, streamed, cuts, acc, sent, isSpace);
    if streamed {
      parts := SendChunk(parts, acc, sent, |acc|, isSpace, cuts);
      AllSent(parts, deltas, cuts, acc, sent, isSpace);
    } else {
      parts := SendWhole(acc, isSpace);
    }
  }

  lemma NothingSent(isSpace: char -> bool)
    ensures Sent([], false, [], "", 0, isSpace) && Cuts([]) == ([], "")
  {
  }

  lemma MoreCame(parts: seq<string>, streamed: bool, cuts: seq<string>, deltas: seq<string>, i: nat, acc: string,
                 sent: nat, isSpace: char -> bool)
    requires i < |deltas| && Sent(parts, streamed, cuts, acc, sent, isSpace)
    requires Cuts(deltas[..i]) == (cuts, acc[sent..])
    ensures Sent(parts, streamed, cuts, acc + deltas[i], sent, isSpace)
    ensures Cutting(deltas[..i + 1], cuts, (acc + deltas[i])[sent..])
  {
    OutLater(parts, cuts, acc, sent, deltas[i], isSpace);
    CuttingStarts(deltas, i, cuts, acc, sent);
  }

  lemma SentPart(parts: seq<string>, streamed: bool, cuts: seq<string>, acc: string, sent: nat, isSpace: char -> bool)
    requires Sent(parts, streamed, cuts, acc, sent, isSpace)
    ensures Boundary(acc, sent) && Out(parts, cuts, acc, sent, isSpace) && streamed == (cuts != [])
  {
  }

  lemma AllSent(parts: seq<string>, deltas: seq<string>, cuts: seq<string>, acc: string, sent: nat, isSpace: char -> bool)
    requires isSpace(' ') && sent <= |acc| && acc == Concat(deltas) && Cuts(deltas) == (cuts, acc[sent..])
    requires Out(parts, cuts + [acc[sent..|acc|]], acc, |acc|, isSpace)
    ensures PartsFit(parts) && Ink(Concat(parts), isSpace) == Ink(acc, isSpace)
    ensures Concat(parts) == Window(Chunks(deltas), isSpace)
    ensures Words(Concat(parts), isSpace) == Words(acc, isSpace)
      <==> GapsKept(Chunks(deltas), isSpace) && ShortChunks(Chunks(deltas), isSpace)
    ensures OnlyBlanks(acc, isSpace) ==> GapsKept(Chunks(deltas), isSpace)
    ensures ShortWords(acc, isSpace) ==> ShortChunks(Chunks(deltas), isSpace)
  {
    assert acc[..|acc|] == acc && Chunks(deltas) == cuts + [acc[sent..|acc|]];
    if ShortWords(acc, isSpace) {
      ShortTogether(Chunks(deltas), isSpace);
    }
    SameWordsExactly(Chunks(deltas), isSpace);
  }

  // Settled by the deltas alone.
  ghost predicate KeepsWords(deltas: seq<string>, isSpace: char -> bool) {
    if Streams(deltas) then GapsKept(Chunks(deltas), isSpace) && ShortChunks(Chunks(deltas), isSpace)
    else ShortWords(Concat(deltas), isSpace)
  }

  lemma {:induction false} PlainLength(n: nat)
    ensures Utf8Len(Plain(n)) == n && |Plain(n)| == n && forall i :: 0 <= i < n ==> Plain(n)[i] == 'a'
  {
    if n > 0 {
      PlainLength(n - 1);
      Utf8Append(Plain(n - 1), "a");
      OneChar('a');
    }
  }

  function Plain(n: nat): string {
    if n == 0 then "" else Plain(n - 1) + "a"
  }

  lemma PlainIsWord(t: string, n: nat, isSpace: char -> bool)
    requires n > 0 && t == Plain(n) + "\n" && isSpace('\n') && !isSpace('a')
    ensures Words(t, isSpace) == [Plain(n)]
  {
    PlainLength(n);
    FirstWord(Plain(n), "\n", isSpace);
    assert "\n"[1..] == "";
  }

  // A line of 139 letters that ends in a newline, and then a word: the newline is the
  // 140th character, the cut falls behind it, and the two words become one.
  method NewlineLost(isSpace: char -> bool) returns (deltas: seq<string>, streamed: bool, parts: seq<string>)
    requires isSpace(' ') && isSpace('\n') && !isSpace('a') && !isSpace('b')
    ensures deltas == [Plain(FLUSH_CHARS - 1) + "\n", "b"] && streamed
    ensures Words(Concat(deltas), isSpace) == [Plain(FLUSH_CHARS - 1), "b"]
    ensures Words(Concat(parts), isSpace) == [Plain(FLUSH_CHARS - 1) + "b"]
  {
    hide KeepsWords, Window, Chunks, Streams;
    var line := Plain(FLUSH_CHARS - 1) + "\n";
    deltas := [line, "b"];
    streamed, parts := StreamReply(deltas, isSpace);
    LineStreams(line, isSpace);
    LineWindow(line, isSpace);
  }

  // The line is cut behind its newline, and the b waits for the end.
  lemma LineStreams(line: string, isSpace: char -> bool)
    requires line == Plain(FLUSH_CHARS - 1) + "\n"
    ensures Streams([line, "b"]) && Chunks([line, "b"]) == [line, "b"]
  {
    PlainLength(FLUSH_CHARS - 1);
    OneCutOnly(line, false);
    assert forall b :: 0 <= b < |line| ==> line[b] != ' ';
    assert CutPoint(line, false) == Some(FLUSH_CHARS);
    var n := CutPoint(line, false).value;
    assert line[..n] == line && line[n..] == "" && [line] + [] == [line];
    assert CutPoint("", true) == None && CutPoint("b", true) == None;
    assert Drained("", true) == ([], "") && Drained("b", true) == ([], "b");
    assert Drained(line[n..], true) == ([], "");
    FirstDelta(line);
    var two := [line, "b"];
    assert two[..|two| - 1] == [line];
    assert "" + "b" == "b";
  }

  lemma FirstDelta(d: string)
    ensures Cuts([d]) == Drained(d, false)
  {
    assert [d][..0] == [] && "" + d == d && [] + Drained(d, false).0 == Drained(d, false).0;
  }

  lemma LineWindow(line: string, isSpace: char -> bool)
    requires line == Plain(FLUSH_CHARS - 1) + "\n" && isSpace(' ') && isSpace('\n') && !isSpace('a') && !isSpace('b')
    ensures Words(Concat([line, "b"]), isSpace) == [Plain(FLUSH_CHARS - 1), "b"]
    ensures Words(Window([line, "b"], isSpace), isSpace) == [Plain(FLUSH_CHARS - 1) + "b"]
  {
    var a := Plain(FLUSH_CHARS - 1);
    PlainLength(FLUSH_CHARS - 1);
    PlainIsWord(line, FLUSH_CHARS - 1, isSpace);
    LastWord(isSpace);
    WordsApart(line, "b", isSpace);
    TwoInWindow(line, "b", isSpace);
    OneChar('b');
    assert SplitWords(PART_BYTES, [a]) == [a] && SplitWords(PART_BYTES, ["b"]) == ["b"];
    assert Squeezed(line, isSpace) == a && Squeezed("b", isSpace) == "b";
    OneWord(a + "b", isSpace);
  }

  lemma OneWord(w: string, isSpace: char -> bool)
    requires IsWord(w, isSpace)
    ensures Words(w, isSpace) == [w]
  {
    FirstWord(w, "", isSpace);
    assert w + "" == w;
  }

  lemma TwoInWindow(s: string, t: string, isSpace: char -> bool)
    ensures Window([s, t], isSpace) == Squeezed(s, isSpace) + Squeezed(t, isSpace) && Concat([s, t]) == s + t
  {
    OneMoreChunk([s, t], isSpace);
    assert [s, t][..1] == [s];
    OneMoreChunk([s], isSpace);
    assert [s][..0] == [];
    assert "" + s == s && "" + Squeezed(s, isSpace) == Squeezed(s, isSpace);
  }

  lemma LastWord(isSpace: char -> bool)
    requires !isSpace('b')
    ensures Words("b", isSpace) == ["b"]
  {
    FirstWord("b", "", isSpace);
    assert "b" + "" == "b";
  }

  const NO_ANSWER: string := "(no answer)"

  // _send_reply_whole
  method SendWhole(answer: string, isSpace: char -> bool) returns (parts: seq<string>)
    requires isSpace(' ')
    ensures PartsFit(parts)
    ensures Ink(Concat(parts), isSpace) ==
      Ink(if Ink(answer, isSpace) != "" then answer else NO_ANSWER, isSpace)
    ensures Ink(answer, isSpace) != "" ==> Concat(parts) == Join(Shown(answer, isSpace))
    ensures Ink(answer, isSpace) != "" ==>
      (Words(Concat(parts), isSpace) == Words(answer, isSpace) <==> ShortWords(answer, isSpace))
  {
    var text := OneLine(answer, isSpace);
    OneLineKeepsInk(answer, isSpace);
    EmptyLine(answer, isSpace);
    SqueezedTwice(answer, isSpace);
    if text == "" {
      text := NO_ANSWER;
    }
    parts := SendLine(text, isSpace);
    WholeWords(answer, isSpace);
  }

  lemma WholeWords(answer: string, isSpace: char -> bool)
    requires isSpace(' ')
    ensures Words(Join(Shown(answer, isSpace)), isSpace) == Words(answer, isSpace) <==> ShortWords(answer, isSpace)
  {
    hide Stray;
    WordsAreInk(answer, isSpace);
    SplitWordsStray(PART_BYTES, Words(answer, isSpace), isSpace);
    StrayDiffers(Shown(answer, isSpace), Words(answer, isSpace));
    WordsOfJoin(Shown(answer, isSpace), isSpace);
  }

  method SendLine(text: string, isSpace: char -> bool) returns (parts: seq<string>)
    requires isSpace(' ')
    ensures PartsFit(parts) && Ink(Concat(parts), isSpace) == Ink(text, isSpace)
    ensures Concat(parts) == Join(Shown(text, isSpace))
  {
    var pieces := ChunkText(text, PART_BYTES, isSpace);
    parts := Glue([], pieces.value, "", isSpace);
  }

  lemma EmptyLine(answer: string, isSpace: char -> bool)
    requires isSpace(' ')
    ensures OneLine(answer, isSpace) == "" <==> Ink(answer, isSpace) == ""
  {
    var ws := Words(answer, isSpace);
    WordsAreInk(answer, isSpace);
    if ws != [] {
      assert ws[0] != "";
    }
  }
}

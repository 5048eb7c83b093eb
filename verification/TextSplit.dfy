// The two text splitters: split_for_push keeps the text byte-exact, chunk_text
// works on whitespace-separated words.

module TextSplit {
  import opened Bytes
  import opened Greedy

  // ---- UTF-8 length ------------------------------------------------------------------

  function Width(c: char): (w: nat)
    ensures 1 <= w <= 4
  {
    if c as int < 0x80 then 1 else if c as int < 0x800 then 2 else if c as int < 0x10000 then 3 else 4
  }

  function Utf8Len(s: string): (n: nat)
    ensures |s| <= n <= 4 * |s|
  {
    if s == "" then 0 else Utf8Len(s[..|s| - 1]) + Width(s[|s| - 1])
  }

  lemma {:induction false} Utf8Append(a: string, b: string)
    ensures Utf8Len(a + b) == Utf8Len(a) + Utf8Len(b)
    decreases |b|
  {
    if b == "" {
      assert a + b == a;
    } else {
      Utf8Append(a, b[..|b| - 1]);
      assert (a + b)[..|a + b| - 1] == a + b[..|b| - 1];
    }
  }

  function FitsBytes(limit: nat): string -> bool {
    (s: string) => Utf8Len(s) <= limit
  }

  lemma BytesHereditary(limit: nat)
    ensures Hereditary(FitsBytes(limit))
  {
    forall s: string, i, j | FitsBytes(limit)(s) && 0 <= i <= j <= |s|
      ensures FitsBytes(limit)(s[i..j])
    {
      assert s == s[..i] + s[i..j] + s[j..];
      Utf8Append(s[..i] + s[i..j], s[j..]);
      Utf8Append(s[..i], s[i..j]);
    }
  }

  lemma OneChar(c: char)
    ensures Utf8Len([c]) == Width(c)
  {
    assert [c][..0] == "";
  }

  predicate NarrowChars(limit: nat, s: string) {
    forall i :: 0 <= i < |s| ==> Width(s[i]) <= limit
  }

  // ---- split_for_push ------------------------------------------------------------------

  // No cut of text into parts that fit has fewer than n of them.
  ghost predicate FewestFor(limit: nat, text: string, n: nat) {
    forall other: seq<string> :: Concat(other) == text && AllFit(FitsBytes(limit), other) ==> n <= |other|
  }

  // Where the loop stands after i characters: nothing lost, no empty part, the cut so
  // far as good as any, and a part over the limit exactly when a character is.
  ghost predicate Sound(limit: nat, text: string, i: nat, parts: seq<string>, current: string) {
    && i <= |text| && Concat(parts) + current == text[..i]
    && (forall k :: 0 <= k < |parts| ==> parts[k] != "")
    && (i > 0 ==> current != "" && Width(text[0]) <= limit)
  }

  ghost predicate Best(limit: nat, text: string, i: nat, parts: seq<string>, current: string) {
    i <= |text| && NarrowChars(limit, text) ==>
      && Utf8Len(current) <= limit && AllFit(FitsBytes(limit), parts)
      && |Pieces(FitsBytes(limit), text)| == |parts| + |Pieces(FitsBytes(limit), current + text[i..])|
  }

  ghost predicate Blames(limit: nat, text: string, i: nat, parts: seq<string>, current: string) {
    i <= |text| && !NarrowChars(limit, text[..i]) ==> !AllFit(FitsBytes(limit), parts) || Utf8Len(current) > limit
  }

  // None stands for the ValueError.
  method SplitForPush(text: string, limit: nat) returns (r: Option<seq<string>>)
    ensures r.None? <==> text != "" && Width(text[0]) > limit
    ensures r.Some? ==> Concat(r.value) == text && forall i :: 0 <= i < |r.value| ==> r.value[i] != ""
    ensures r.Some? ==> (AllFit(FitsBytes(limit), r.value) <==> NarrowChars(limit, text))
    ensures r.Some? && NarrowChars(limit, text) ==> FewestFor(limit, text, |r.value|)
  {
    if text == "" {
      return Some([]);
    }
    FirstChar(text);
    if Utf8Len(text) <= limit {
      WholeFits(text, limit);
      return Some([text]);
    }
    var parts: seq<string> := [];
    var current := "";
    var i := 0;
    LoopStarts(limit, text);
    while i < |text|
      invariant Sound(limit, text, i, parts, current)
      invariant Best(limit, text, i, parts, current)
      invariant Blames(limit, text, i, parts, current)
    {
      var ch := text[i];
      var candidate := current + [ch];
      if Utf8Len(candidate) > limit {
        if current == "" {
          OneChar(ch);
          return None;
        }
        CloseKeeps(limit, text, i, parts, current);
        parts := parts + [current];
        current := [ch];
      } else {
        ExtendKeeps(limit, text, i, parts, current);
        current := candidate;
      }
      i := i + 1;
    }
    LoopEnds(limit, text, parts, current);
    parts := parts + [current];
    r := Some(parts);
  }

  // The first character fits, a later one does not: the part it is in is too long.
  method WideCharSlipsThrough() returns (text: string, r: Option<seq<string>>)
    ensures text == ['a', 0x20AC as char] && r.Some? && Concat(r.value) == text
    ensures !AllFit(FitsBytes(2), r.value)
  {
    text := ['a', 0x20AC as char];
    r := SplitForPush(text, 2);
    assert Width(text[1]) == 3;
  }

  lemma LoopStarts(limit: nat, text: string)
    ensures Sound(limit, text, 0, [], "") && Best(limit, text, 0, [], "") && Blames(limit, text, 0, [], "")
  {
    assert "" + text[0..] == text;
  }

  lemma ExtendKeeps(limit: nat, text: string, i: nat, parts: seq<string>, current: string)
    requires i < |text| && Utf8Len(current + [text[i]]) <= limit
    requires Sound(limit, text, i, parts, current)
    requires Best(limit, text, i, parts, current) && Blames(limit, text, i, parts, current)
    ensures Sound(limit, text, i + 1, parts, current + [text[i]])
    ensures Best(limit, text, i + 1, parts, current + [text[i]])
    ensures Blames(limit, text, i + 1, parts, current + [text[i]])
  {
    var ch := text[i];
    Utf8Append(current, [ch]);
    OneChar(ch);
    NextChar(limit, text, i);
    Regroup(Concat(parts), current, [ch]);
    assert current + [ch] + text[i + 1..] == current + text[i..];
  }

  lemma CloseKeeps(limit: nat, text: string, i: nat, parts: seq<string>, current: string)
    requires i < |text| && current != "" && Utf8Len(current + [text[i]]) > limit
    requires Sound(limit, text, i, parts, current)
    requires Best(limit, text, i, parts, current) && Blames(limit, text, i, parts, current)
    ensures Sound(limit, text, i + 1, parts + [current], [text[i]])
    ensures Best(limit, text, i + 1, parts + [current], [text[i]])
    ensures Blames(limit, text, i + 1, parts + [current], [text[i]])
  {
    OneChar(text[i]);
    NextChar(limit, text, i);
    ConcatOne(parts, current);
    FitsOneMore(limit, parts, current);
    assert [text[i]] + text[i + 1..] == text[i..];
    if NarrowChars(limit, text) {
      BytesHereditary(limit);
      CutPays(FitsBytes(limit), current, text[i..]);
    }
  }

  lemma NextChar(limit: nat, text: string, i: nat)
    requires i < |text|
    ensures text[..i + 1] == text[..i] + [text[i]]
    ensures NarrowChars(limit, text[..i + 1]) <==> NarrowChars(limit, text[..i]) && Width(text[i]) <= limit
  {
    var s, t := text[..i], text[..i + 1];
    assert t == s + [text[i]];
    if NarrowChars(limit, t) {
      assert t[i] == text[i];
      forall k | 0 <= k < i ensures Width(s[k]) <= limit {
        assert t[k] == s[k];
      }
    }
  }

  lemma LoopEnds(limit: nat, text: string, parts: seq<string>, current: string)
    requires text != "" && Sound(limit, text, |text|, parts, current)
    requires Best(limit, text, |text|, parts, current) && Blames(limit, text, |text|, parts, current)
    ensures Concat(parts + [current]) == text
    ensures AllFit(FitsBytes(limit), parts + [current]) <==> NarrowChars(limit, text)
    ensures NarrowChars(limit, text) ==> FewestFor(limit, text, |parts| + 1)
  {
    assert text[..|text|] == text;
    ConcatOne(parts, current);
    FitsOneMore(limit, parts, current);
    if NarrowChars(limit, text) {
      BytesHereditary(limit);
      CutPays(FitsBytes(limit), current, text[|text|..]);
      FewestParts(text, limit, |parts| + 1);
    }
  }

  lemma FitsOneMore(limit: nat, parts: seq<string>, current: string)
    ensures AllFit(FitsBytes(limit), parts + [current])
      <==> AllFit(FitsBytes(limit), parts) && Utf8Len(current) <= limit
  {
    var all := parts + [current];
    if AllFit(FitsBytes(limit), all) {
      assert FitsBytes(limit)(all[|parts|]);
      forall k | 0 <= k < |parts| ensures FitsBytes(limit)(parts[k]) {
        assert all[k] == parts[k];
      }
    }
  }

  lemma FirstChar(text: string)
    requires text != ""
    ensures Width(text[0]) <= Utf8Len(text)
  {
    assert text == [text[0]] + text[1..];
    Utf8Append([text[0]], text[1..]);
    OneChar(text[0]);
  }

  lemma WholeFits(text: string, limit: nat)
    requires text != "" && Utf8Len(text) <= limit
    ensures NarrowChars(limit, text) && AllFit(FitsBytes(limit), [text]) && Concat([text]) == text
    ensures FewestFor(limit, text, 1)
  {
    assert Concat([text]) == text + Concat([text][1..]);
    BytesHereditary(limit);
    forall i | 0 <= i < |text|
      ensures Width(text[i]) <= limit
    {
      assert FitsBytes(limit)(text[i..i + 1]);
      assert text[i..i + 1] == [text[i]];
      OneChar(text[i]);
    }
  }

  lemma NarrowEach(limit: nat, s: string)
    requires NarrowChars(limit, s)
    ensures EachFits(FitsBytes(limit), s)
  {
    forall i | 0 <= i < |s| ensures FitsBytes(limit)([s[i]]) {
      OneChar(s[i]);
    }
  }

  lemma FewestParts(text: string, limit: nat, n: nat)
    requires NarrowChars(limit, text) && n == |Pieces(FitsBytes(limit), text)|
    ensures FewestFor(limit, text, n)
  {
    BytesHereditary(limit);
    NarrowEach(limit, text);
    forall other: seq<string> | Concat(other) == text && AllFit(FitsBytes(limit), other)
      ensures n <= |other|
    {
      Fewest(FitsBytes(limit), text, other);
    }
  }

  // For a limit of one whole character or more the splitter never fails.
  lemma FourIsEnough(limit: nat, text: string)
    requires limit >= 4
    ensures NarrowChars(limit, text)
  {
  }
}

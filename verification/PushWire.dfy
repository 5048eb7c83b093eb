// What one pushed chunk looks like on the wire: the escape table, the normalisation
// in front of it, and where the text stream is cut into chunks.

module PushWire {
  import opened Bytes

  // ---- escaping ------------------------------------------------------------------------

  function EscapeChar(c: char): (e: string)
    ensures 1 <= |e| <= 2
  {
    match c
    case '\\' => "\\\\"
    case '\n' => "\\n"
    case '\r' => "\\r"
    case '\t' => "\\t"
    case ' ' => "\\s"
    case _ => [c]
  }

  function Escape(text: string): string {
    if text == "" then "" else EscapeChar(text[0]) + Escape(text[1..])
  }

  // An unknown escape stands for its own character.
  function Meaning(c: char): char {
    match c
    case 'n' => '\n'
    case 'r' => '\r'
    case 't' => '\t'
    case 's' => ' '
    case _ => c
  }

  function Unescape(w: string): string {
    if w == "" then ""
    else if w[0] != '\\' || |w| == 1 then [w[0]] + Unescape(w[1..])
    else [Meaning(w[1])] + Unescape(w[2..])
  }

  method UnescapeLoop(text: string) returns (out: string)
    ensures out == Unescape(text)
  {
    out := "";
    var i, n := 0, |text|;
    assert text[0..] == text;
    while i < n
      invariant i <= n == |text|
      invariant out + Unescape(text[i..]) == Unescape(text)
    {
      var ch, rest := text[i], text[i..];
      if ch != '\\' || i + 1 >= n {
        assert rest[1..] == text[i + 1..];
        Rejoin(out, Unescape(rest));
        out := out + [ch];
        i := i + 1;
      } else {
        assert rest[2..] == text[i + 2..];
        Rejoin(out, Unescape(rest));
        out := out + [Meaning(text[i + 1])];
        i := i + 2;
      }
    }
  }

  // Decoding undoes encoding whatever follows on the wire, so chunks decode one by one
  // to what they would decode to together.
  lemma {:induction false} UnescapeEscape(text: string, rest: string)
    ensures Unescape(Escape(text) + rest) == text + Unescape(rest)
  {
    if text == "" {
      assert Escape(text) + rest == rest;
    } else {
      var c, more := text[0], text[1..];
      Regroup(EscapeChar(c), Escape(more), rest);
      UnescapeOne(c, Escape(more) + rest);
      UnescapeEscape(more, rest);
      Regroup([c], more, Unescape(rest));
      assert [c] + more == text;
    }
  }

  lemma UnescapeOne(c: char, tail: string)
    ensures Unescape(EscapeChar(c) + tail) == [c] + Unescape(tail)
  {
    var e := EscapeChar(c);
    var w := e + tail;
    assert w[0] == e[0];
    if |e| == 1 {
      assert w[1..] == tail;
    } else {
      assert w[1] == e[1] && w[2..] == tail;
    }
  }

  lemma RoundTrip(text: string)
    ensures Unescape(Escape(text)) == text
  {
    UnescapeEscape(text, "");
    assert Escape(text) + "" == Escape(text) && text + "" == text;
  }

  // ---- what a trimming, space-splitting line reader does to a chunk -----------------------

  predicate IsBlank(c: char) {
    c in {' ', '\t', '\n', '\r', 0x0B as char, 0x0C as char}
  }

  // _WIRE_SAFE: VT and FF have no escape and become newlines.
  function SafeChar(c: char): char {
    if c == 0x0B as char || c == 0x0C as char then '\n' else c
  }

  function WireSafe(text: string): (safe: string)
    ensures |safe| == |text| && IsWireSafe(safe)
  {
    seq(|text|, i requires 0 <= i < |text| => SafeChar(text[i]))
  }

  predicate IsWireSafe(text: string) {
    forall i :: 0 <= i < |text| ==> text[i] == SafeChar(text[i])
  }

  predicate NoBlank(w: string) {
    forall i :: 0 <= i < |w| ==> !IsBlank(w[i])
  }

  lemma {:induction false} EscapedHasNoBlank(text: string)
    requires IsWireSafe(text)
    ensures NoBlank(Escape(text))
  {
    if text != "" {
      var e, rest := EscapeChar(text[0]), Escape(text[1..]);
      EscapedHasNoBlank(text[1..]);
      assert text[0] == SafeChar(text[0]);
      forall i | 0 <= i < |e + rest| ensures !IsBlank((e + rest)[i]) {
        assert i >= |e| ==> (e + rest)[i] == rest[i - |e|];
      }
    }
  }

  // The firmware trims every inbound line.
  function Trim(w: string): string {
    if w == "" then ""
    else if IsBlank(w[0]) then Trim(w[1..])
    else if IsBlank(w[|w| - 1]) then Trim(w[..|w| - 1])
    else w
  }

  lemma TrimSpares(text: string)
    requires IsWireSafe(text)
    ensures Unescape(Trim(Escape(text))) == text
  {
    EscapedHasNoBlank(text);
    RoundTrip(text);
  }

  // ---- where to cut -----------------------------------------------------------------------

  const OPEN_MIN := 30
  const FLUSH_CHARS := 140
  // The sentence marks are each of these with a blank after it.
  const ENDS: string := ".!?"

  // str.rfind: the last place at or before k where mark starts, or -1.
  function RFind(s: string, mark: string, k: nat): (r: int)
    requires |mark| > 0 && k <= |s|
    ensures -1 <= r <= k && (r >= 0 ==> StartsAt(s, mark, r))
    ensures forall j :: r < j <= k ==> !StartsAt(s, mark, j)
  {
    if StartsAt(s, mark, k) then k else if k == 0 then -1 else RFind(s, mark, k - 1)
  }

  predicate StartsAt(s: string, mark: string, j: int) {
    0 <= j <= |s| - |mark| && s[j..j + |mark|] == mark
  }

  // One of the sentence marks in ends stands before the blank at b.
  predicate EndsWith(s: string, ends: string, b: int) {
    1 <= b < |s| && s[b] == ' ' && s[b - 1] in ends
  }

  // best is the last blank after one of the sentence marks in ends, or -1.
  ghost predicate BestEnd(s: string, ends: string, best: int) {
    (best == -1 || EndsWith(s, ends, best)) && forall b :: EndsWith(s, ends, b) ==> b <= best
  }

  lemma NextMark(s: string, ends: string, c: char, best: int)
    requires BestEnd(s, ends, best)
    ensures var idx := RFind(s, [c, ' '], |s|);
      BestEnd(s, ends + [c], if idx >= 0 && idx + 1 > best then idx + 1 else best)
  {
    var mark := [c, ' '];
    var idx := RFind(s, mark, |s|);
    forall b | EndsWith(s, ends + [c], b)
      ensures b <= best || b <= idx + 1
    {
      if s[b - 1] == c {
        assert s[b - 1..b + 1] == mark;
        assert StartsAt(s, mark, b - 1);
      } else {
        assert EndsWith(s, ends, b);
      }
    }
    if idx >= 0 {
      assert s[idx..idx + 2][0] == s[idx] && s[idx..idx + 2][1] == s[idx + 1];
    }
  }

  ghost predicate LastSentenceEnd(p: string, at: int) {
    EndsWith(p, ENDS, at) && forall b :: EndsWith(p, ENDS, b) ==> b <= at
  }

  ghost predicate NoneDue(p: string, isOpen: bool) {
    forall b :: EndsWith(p, ENDS, b) ==> !isOpen && b < OPEN_MIN
  }

  ghost predicate LastWordCut(p: string, at: int) {
    && 0 < at <= FLUSH_CHARS <= |p|
    && (at < FLUSH_CHARS ==> p[at] == ' ' && forall j :: at < j < FLUSH_CHARS ==> p[j] != ' ')
    && (at == FLUSH_CHARS ==> forall j :: 0 < j < FLUSH_CHARS ==> p[j] != ' ')
  }

  // A cut is at the last sentence end if that is due, else before the last blank of an
  // over-long run; without either, less than FLUSH_CHARS characters are kept waiting.
  ghost predicate IsCut(p: string, isOpen: bool, cut: Option<nat>) {
    match cut
    case None => |p| < FLUSH_CHARS && NoneDue(p, isOpen)
    case Some(n) =>
      || (LastSentenceEnd(p, n) && (isOpen || n >= OPEN_MIN))
      || (NoneDue(p, isOpen) && LastWordCut(p, n))
  }

  // The last blank below k behind a sentence mark, or -1.
  function LastEnd(p: string, k: nat): (best: int)
    requires k <= |p|
    ensures best == -1 || (best < k && EndsWith(p, ENDS, best))
    ensures forall b :: b < k && EndsWith(p, ENDS, b) ==> b <= best
  {
    if k == 0 then -1 else if EndsWith(p, ENDS, k - 1) then k - 1 else LastEnd(p, k - 1)
  }

  // Where the waiting text is cut, which is settled by the text alone.
  function CutPoint(p: string, isOpen: bool): (cut: Option<nat>)
    ensures IsCut(p, isOpen, cut) && (cut.Some? ==> 0 < cut.value <= |p|)
  {
    var best := LastEnd(p, |p|);
    if best >= 0 && (isOpen || best >= OPEN_MIN) then Some(best)
    else if |p| >= FLUSH_CHARS then
      var sp := LastBlank(p);
      Some(if sp > 0 then sp else FLUSH_CHARS)
    else None
  }

  lemma OneCutOnly(p: string, isOpen: bool)
    ensures forall cut :: IsCut(p, isOpen, cut) ==> cut == CutPoint(p, isOpen)
  {
  }

  method FlushPoint(acc: string, sent: nat, isOpen: bool) returns (cut: Option<nat>)
    requires sent <= |acc|
    ensures cut.Some? ==> sent < cut.value <= |acc|
    ensures IsCut(acc[sent..], isOpen, if cut.Some? then Some(cut.value - sent) else None)
    ensures cut == if CutPoint(acc[sent..], isOpen).Some? then Some(sent + CutPoint(acc[sent..], isOpen).value) else None
  {
    OneCutOnly(acc[sent..], isOpen);
    var pending := acc[sent..];
    var best: int := -1;
    for m := 0 to |ENDS|
      invariant BestEnd(pending, ENDS[..m], best)
    {
      var mark := [ENDS[m], ' '];
      var idx := RFind(pending, mark, |pending|);
      NextMark(pending, ENDS[..m], ENDS[m], best);
      assert ENDS[..m + 1] == ENDS[..m] + [ENDS[m]];
      if idx >= 0 && idx + 1 > best {
        best := idx + 1;
      }
    }
    assert ENDS[..|ENDS|] == ENDS;
    if best >= 0 && (isOpen || best >= OPEN_MIN) {
      return Some(sent + best);
    }
    if |pending| >= FLUSH_CHARS {
      var sp := LastBlank(pending);
      return Some(sent + if sp > 0 then sp else FLUSH_CHARS);
    }
    return None;
  }

  // pending.rfind(" ", 0, FLUSH_CHARS)
  function LastBlank(p: string): (sp: int)
    requires |p| >= FLUSH_CHARS
    ensures -1 <= sp < FLUSH_CHARS && (sp >= 0 ==> p[sp] == ' ')
    ensures forall j :: sp < j < FLUSH_CHARS ==> p[j] != ' '
  {
    var head := p[..FLUSH_CHARS];
    assert forall j :: 0 <= j < FLUSH_CHARS ==> head[j..j + 1] == [p[j]] && (StartsAt(head, " ", j) <==> p[j] == ' ');
    RFind(head, " ", |head|)
  }
}

// The two transcript scores: words recovered in order, and word errors.  Both keep one
// row of a table; what they compute is the best over all alignments of the two texts.

module WordScores {
  import opened Bytes

  function Min(a: int, b: int): int { if a <= b then a else b }
  function Max(a: int, b: int): int { if a >= b then a else b }

  function Init<T>(s: seq<T>): seq<T>
    requires s != []
  {
    s[..|s| - 1]
  }

  function Last<T>(s: seq<T>): T
    requires s != []
  {
    s[|s| - 1]
  }

  // ---- longest common subsequence -------------------------------------------------------

  // s can be read off a at the increasing places at.
  predicate Embeds<T(==)>(s: seq<T>, a: seq<T>, at: seq<nat>) {
    && |at| == |s|
    && (forall i :: 0 <= i < |at| ==> at[i] < |a| && a[at[i]] == s[i])
    && (forall i, j :: 0 <= i < j < |at| ==> at[i] < at[j])
  }

  ghost predicate Common<T>(s: seq<T>, a: seq<T>, b: seq<T>) {
    (exists at :: Embeds(s, a, at)) && exists at :: Embeds(s, b, at)
  }

  function Lcs<T(==)>(a: seq<T>, b: seq<T>): (n: nat)
    ensures n <= |a| && n <= |b|
    decreases |a| + |b|
  {
    if a == [] || b == [] then 0
    else if Last(a) == Last(b) then Lcs(Init(a), Init(b)) + 1
    else Max(Lcs(Init(a), b), Lcs(a, Init(b)))
  }

  lemma {:induction false} LcsIsUpperBound<T>(s: seq<T>, a: seq<T>, b: seq<T>, f: seq<nat>, g: seq<nat>)
    requires Embeds(s, a, f) && Embeds(s, b, g)
    ensures |s| <= Lcs(a, b)
    decreases |a| + |b|
  {
    if s != [] {
      assert f[|f| - 1] < |a| && g[|g| - 1] < |b|;
      if Last(a) == Last(b) {
        LcsIsUpperBound(Init(s), Init(a), Init(b), Init(f), Init(g));
      } else if f[|f| - 1] < |a| - 1 {
        LcsIsUpperBound(s, Init(a), b, f, g);
      } else {
        LcsIsUpperBound(s, a, Init(b), f, g);
      }
    }
  }

  lemma {:induction false} LcsIsReached<T>(a: seq<T>, b: seq<T>) returns (s: seq<T>, f: seq<nat>, g: seq<nat>)
    ensures Embeds(s, a, f) && Embeds(s, b, g) && |s| == Lcs(a, b)
    decreases |a| + |b|
  {
    if a == [] || b == [] {
      s, f, g := [], [], [];
    } else if Last(a) == Last(b) {
      s, f, g := LcsIsReached(Init(a), Init(b));
      s, f, g := s + [Last(a)], f + [|a| - 1], g + [|b| - 1];
    } else if Lcs(Init(a), b) >= Lcs(a, Init(b)) {
      s, f, g := LcsIsReached(Init(a), b);
    } else {
      s, f, g := LcsIsReached(a, Init(b));
    }
  }

  // n is the greatest length of any common subsequence.
  ghost predicate GreatestCommon<T(!new)>(n: nat, a: seq<T>, b: seq<T>) {
    && (exists s: seq<T> :: Common(s, a, b) && |s| == n)
    && (forall s: seq<T> :: Common(s, a, b) ==> |s| <= n)
  }

  lemma LcsIsGreatest<T(!new)>(a: seq<T>, b: seq<T>)
    ensures GreatestCommon(Lcs(a, b), a, b)
  {
    var s, f, g := LcsIsReached(a, b);
    assert Common(s, a, b);
    forall s: seq<T> | Common(s, a, b)
      ensures |s| <= Lcs(a, b)
    {
      var f :| Embeds(s, a, f);
      var g :| Embeds(s, b, g);
      LcsIsUpperBound(s, a, b, f, g);
    }
  }

  // word_recall on the two word lists: matched words over expected words.
  method WordRecall<T(!new, ==)>(got: seq<T>, exp: seq<T>) returns (matched: nat, recall: real)
    ensures exp == [] ==> recall == 1.0
    ensures exp != [] ==> recall == matched as real / |exp| as real && GreatestCommon(matched, exp, got)
  {
    if exp == [] {
      return 0, 1.0;
    }
    var prev: seq<nat> := seq(|got| + 1, _ => 0);
    assert exp[..0] == [];
    for i := 0 to |exp|
      invariant IsLcsRow(prev, exp[..i], got, |got| + 1)
    {
      assert Init(exp[..i + 1]) == exp[..i];
      prev := NextLcsRow(exp[..i + 1], got, prev);
    }
    assert exp[..|exp|] == exp && got[..|got|] == got;
    LcsIsGreatest(exp, got);
    matched, recall := prev[|got|], prev[|got|] as real / |exp| as real;
  }

  // One row of the table: what a has in common with every start of b.
  ghost predicate IsLcsRow<T>(row: seq<nat>, a: seq<T>, b: seq<T>, n: nat) {
    n <= |b| + 1 && |row| == n && forall c :: 0 <= c < n ==> row[c] == Lcs(a, b[..c])
  }

  method NextLcsRow<T(==)>(a: seq<T>, got: seq<T>, prev: seq<nat>) returns (cur: seq<nat>)
    requires a != [] && IsLcsRow(prev, Init(a), got, |got| + 1)
    ensures IsLcsRow(cur, a, got, |got| + 1)
  {
    cur := [0];
    for j := 1 to |got| + 1
      invariant IsLcsRow(cur, a, got, j)
    {
      var e, g := Last(a), got[j - 1];
      LcsNext(a, got[..j - 1], g);
      assert got[..j] == got[..j - 1] + [g];
      cur := cur + [if e == g then prev[j - 1] + 1 else Max(prev[j], cur[j - 1])];
    }
  }

  lemma LcsNext<T>(a: seq<T>, b: seq<T>, w: T)
    requires a != []
    ensures Lcs(a, b + [w]) == if Last(a) == w then Lcs(Init(a), b) + 1 else Max(Lcs(Init(a), b + [w]), Lcs(a, b))
  {
    assert Init(b + [w]) == b;
  }

  // A score of one means exactly that every expected word was recovered, in order.
  lemma FullRecall<T(!new)>(got: seq<T>, exp: seq<T>, n: nat)
    requires GreatestCommon(n, exp, got)
    ensures n == |exp| <==> exists at :: Embeds(exp, got, at)
  {
    if n == |exp| {
      var s: seq<T> :| Common(s, exp, got) && |s| == n;
      var at :| Embeds(s, exp, at);
      FullEmbedding(s, exp, at);
    }
    if at :| Embeds(exp, got, at) {
      var all := seq(|exp|, i requires 0 <= i => i as nat);
      assert Embeds(exp, exp, all);
      assert Common(exp, exp, got);
      var s: seq<T> :| Common(s, exp, got) && |s| == n;
      var f :| Embeds(s, exp, f);
      EmbeddingFits(s, exp, f);
    }
  }

  lemma {:induction false} EmbeddingFits<T>(s: seq<T>, a: seq<T>, at: seq<nat>)
    requires Embeds(s, a, at)
    ensures |s| <= |a| && forall i :: 0 <= i < |s| ==> i <= at[i] <= |a| - (|s| - i)
    decreases |s|
  {
    if s != [] {
      var n := |s| - 1;
      assert Embeds(Init(s), a[..at[n]], Init(at));
      EmbeddingFits(Init(s), a[..at[n]], Init(at));
    }
  }

  lemma FullEmbedding<T>(s: seq<T>, a: seq<T>, at: seq<nat>)
    requires Embeds(s, a, at) && |s| == |a|
    ensures s == a
  {
    EmbeddingFits(s, a, at);
  }

  // ---- edit distance ---------------------------------------------------------------------

  datatype Edit = Keep | Swap | Drop | Put

  // The script turns a into b, read from the left; Swap puts b's word for a's.
  predicate Turns<T(==)>(es: seq<Edit>, a: seq<T>, b: seq<T>) {
    if es == [] then a == [] && b == []
    else match Last(es)
      case Keep => a != [] && b != [] && Last(a) == Last(b) && Turns(Init(es), Init(a), Init(b))
      case Swap => a != [] && b != [] && Turns(Init(es), Init(a), Init(b))
      case Drop => a != [] && Turns(Init(es), Init(a), b)
      case Put => b != [] && Turns(Init(es), a, Init(b))
  }

  function Cost(es: seq<Edit>): nat {
    if es == [] then 0 else Cost(Init(es)) + if Last(es).Keep? then 0 else 1
  }

  function Dist<T(==)>(a: seq<T>, b: seq<T>): nat
    decreases |a| + |b|
  {
    if a == [] then |b|
    else if b == [] then |a|
    else
      Min(Min(Dist(a, Init(b)) + 1, Dist(Init(a), b) + 1),
          Dist(Init(a), Init(b)) + if Last(a) == Last(b) then 0 else 1)
  }

  lemma {:induction false} DistIsLowerBound<T>(es: seq<Edit>, a: seq<T>, b: seq<T>)
    requires Turns(es, a, b)
    ensures Dist(a, b) <= Cost(es)
    decreases |es|
  {
    if es != [] {
      match Last(es)
      case Keep => DistIsLowerBound(Init(es), Init(a), Init(b));
      case Swap => DistIsLowerBound(Init(es), Init(a), Init(b));
      case Drop =>
        DistIsLowerBound(Init(es), Init(a), b);
      case Put =>
        DistIsLowerBound(Init(es), a, Init(b));
    }
  }

  lemma {:induction false} DistIsReached<T>(a: seq<T>, b: seq<T>) returns (es: seq<Edit>)
    ensures Turns(es, a, b) && Cost(es) == Dist(a, b)
    decreases |a| + |b|
  {
    if a == [] && b == [] {
      es := [];
    } else if a == [] || (b != [] && Dist(a, b) == Dist(a, Init(b)) + 1) {
      es := DistIsReached(a, Init(b));
      es := Then(es, Put);
    } else if b == [] || Dist(a, b) == Dist(Init(a), b) + 1 {
      es := DistIsReached(Init(a), b);
      es := Then(es, Drop);
    } else {
      es := DistIsReached(Init(a), Init(b));
      es := Then(es, if Last(a) == Last(b) then Keep else Swap);
    }
  }

  function Then(es: seq<Edit>, e: Edit): (r: seq<Edit>)
    ensures r != [] && Init(r) == es && Last(r) == e
    ensures Cost(r) == Cost(es) + if e.Keep? then 0 else 1
  {
    var r := es + [e];
    assert Init(r) == es;
    r
  }

  // n is the least cost of any script.
  ghost predicate LeastCost<T(!new)>(n: nat, a: seq<T>, b: seq<T>) {
    && (exists es :: Turns(es, a, b) && Cost(es) == n)
    && (forall es :: Turns(es, a, b) ==> n <= Cost(es))
  }

  lemma DistIsLeast<T(!new)>(a: seq<T>, b: seq<T>)
    ensures LeastCost(Dist(a, b), a, b)
  {
    var es := DistIsReached(a, b);
    forall es | Turns(es, a, b) ensures Dist(a, b) <= Cost(es) {
      DistIsLowerBound(es, a, b);
    }
  }

  // One row of the table: distances of a to every start of b.
  ghost predicate IsRow<T>(row: seq<nat>, a: seq<T>, b: seq<T>, n: nat) {
    n <= |b| + 1 && |row| == n && forall c :: 0 <= c < n ==> row[c] == Dist(a, b[..c])
  }

  // _word_errors on the two word lists.
  method WordErrors<T(!new, ==)>(left: seq<T>, right: seq<T>) returns (errors: nat)
    ensures LeastCost(errors, left, right) && errors == Dist(left, right)
  {
    var previous: seq<nat> := seq(|right| + 1, i requires 0 <= i => i as nat);
    assert left[..0] == [];
    for row := 1 to |left| + 1
      invariant IsRow(previous, left[..row - 1], right, |right| + 1)
    {
      assert Init(left[..row]) == left[..row - 1];
      previous := NextRow(left[..row], right, previous);
    }
    assert left[..|left|] == left && right[..|right|] == right;
    DistIsLeast(left, right);
    errors := previous[|right|];
  }

  // The inner loop: the row for a from the row for a without its last word.
  method NextRow<T(==)>(a: seq<T>, right: seq<T>, previous: seq<nat>) returns (current: seq<nat>)
    requires a != [] && IsRow(previous, Init(a), right, |right| + 1)
    ensures IsRow(current, a, right, |right| + 1)
  {
    current := [|a|];
    FirstInRow(a, right);
    for column := 1 to |right| + 1
      invariant IsRow(current, a, right, column)
    {
      var best := Best(current[column - 1], previous[column], previous[column - 1], Last(a) == right[column - 1]);
      InRow(a, right, column, current, previous);
      current := current + [best];
    }
  }

  function Best(before: nat, above: nat, diagonal: nat, same: bool): nat {
    Min(Min(before + 1, above + 1), diagonal + if same then 0 else 1)
  }

  lemma FirstInRow<T>(a: seq<T>, b: seq<T>)
    ensures IsRow([|a|], a, b, 1)
  {
    assert b[..0] == [];
  }

  lemma InRow<T>(a: seq<T>, b: seq<T>, c: nat, row: seq<nat>, previous: seq<nat>)
    requires a != [] && 0 < c <= |b| && IsRow(previous, Init(a), b, |b| + 1) && IsRow(row, a, b, c)
    ensures IsRow(row + [Best(row[c - 1], previous[c], previous[c - 1], Last(a) == b[c - 1])], a, b, c + 1)
  {
    var best := Best(row[c - 1], previous[c], previous[c - 1], Last(a) == b[c - 1]);
    DistNext(a, b[..c - 1], b[c - 1]);
    assert b[..c] == b[..c - 1] + [b[c - 1]];
    forall k | 0 <= k < c ensures (row + [best])[k] == Dist(a, b[..k]) {
      assert (row + [best])[k] == row[k];
    }
  }

  lemma DistNext<T>(a: seq<T>, b: seq<T>, w: T)
    requires a != []
    ensures Dist(a, b + [w]) == Best(Dist(a, b), Dist(Init(a), b + [w]), Dist(Init(a), b), Last(a) == w)
  {
    assert Init(b + [w]) == b;
  }

  // ---- word errors are a metric -------------------------------------------------------------

  function FlipOne(e: Edit): Edit {
    match e
    case Drop => Put
    case Put => Drop
    case _ => e
  }

  function Flip(es: seq<Edit>): seq<Edit> {
    if es == [] then [] else Then(Flip(Init(es)), FlipOne(Last(es)))
  }

  lemma {:induction false} FlipTurnsBack<T>(es: seq<Edit>, a: seq<T>, b: seq<T>)
    requires Turns(es, a, b)
    ensures Turns(Flip(es), b, a) && Cost(Flip(es)) == Cost(es)
    decreases |es|
  {
    if es != [] {
      match Last(es)
      case Keep => FlipTurnsBack(Init(es), Init(a), Init(b));
      case Swap => FlipTurnsBack(Init(es), Init(a), Init(b));
      case Drop => FlipTurnsBack(Init(es), Init(a), b);
      case Put => FlipTurnsBack(Init(es), a, Init(b));
    }
  }

  lemma {:induction false} Symmetric<T>(a: seq<T>, b: seq<T>)
    ensures Dist(a, b) == Dist(b, a)
  {
    var es := DistIsReached(a, b);
    FlipTurnsBack(es, a, b);
    DistIsLowerBound(Flip(es), b, a);
    var fs := DistIsReached(b, a);
    FlipTurnsBack(fs, b, a);
    DistIsLowerBound(Flip(fs), a, b);
  }

  // A script from a to c through b that costs no more than the two together.
  lemma {:induction false} Compose<T>(es: seq<Edit>, fs: seq<Edit>, a: seq<T>, b: seq<T>, c: seq<T>)
    returns (gs: seq<Edit>)
    requires Turns(es, a, b) && Turns(fs, b, c)
    ensures Turns(gs, a, c) && Cost(gs) <= Cost(es) + Cost(fs)
    decreases |es| + |fs|
  {
    if es != [] && Last(es).Drop? {
      gs := Compose(Init(es), fs, Init(a), b, c);
      gs := Then(gs, Drop);
    } else if fs != [] && Last(fs).Put? {
      gs := Compose(es, Init(fs), a, b, Init(c));
      gs := Then(gs, Put);
    } else if es == [] || fs == [] {
      gs := [];
    } else if Last(es).Put? && Last(fs).Drop? {
      gs := Compose(Init(es), Init(fs), a, Init(b), c);
    } else if Last(es).Put? {
      gs := Compose(Init(es), Init(fs), a, Init(b), Init(c));
      gs := Then(gs, Put);
    } else if Last(fs).Drop? {
      gs := Compose(Init(es), Init(fs), Init(a), Init(b), c);
      gs := Then(gs, Drop);
    } else {
      gs := Compose(Init(es), Init(fs), Init(a), Init(b), Init(c));
      gs := Then(gs, if Last(es).Keep? && Last(fs).Keep? then Keep else Swap);
    }
  }

  lemma {:induction false} Triangle<T>(a: seq<T>, b: seq<T>, c: seq<T>)
    ensures Dist(a, c) <= Dist(a, b) + Dist(b, c)
  {
    var es := DistIsReached(a, b);
    var fs := DistIsReached(b, c);
    var gs := Compose(es, fs, a, b, c);
    DistIsLowerBound(gs, a, c);
  }

  lemma {:induction false} ZeroMeansEqual<T>(a: seq<T>, b: seq<T>)
    ensures Dist(a, b) == 0 <==> a == b
    decreases |a|
  {
    if a != [] && b != [] {
      ZeroMeansEqual(Init(a), Init(b));
      assert a == Init(a) + [Last(a)] && b == Init(b) + [Last(b)];
    }
  }
}

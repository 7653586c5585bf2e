/** Candidate ranking: edit distance, then keyboard distance, then text.

    Case folding is a parameter: the source folds rune by rune with Unicode's
    `ToLower`, which this model does not reproduce. */
module Ranking {
  import opened EditDistance
  import opened TextOrder

  type Fold = char -> char

  // ------------------------------------------------------------ keyboard distance

  const KEYBOARD_ROWS: seq<string> := ["1234567890-=", "qwertyuiop[]\\", "asdfghjkl;'", "zxcvbnm,./"]

  function Abs(x: int): int { if x < 0 then -x else x }

  predicate KeyAt(row: int, column: int, c: char) {
    0 <= row < |KEYBOARD_ROWS| && 0 <= column < |KEYBOARD_ROWS[row]| && KEYBOARD_ROWS[row][column] == c
  }

  predicate NearKeys(left: char, right: char) {
    exists r, c, r', c' ::
      && 0 <= r < |KEYBOARD_ROWS| && 0 <= c < |KEYBOARD_ROWS[r]|
      && 0 <= r' < |KEYBOARD_ROWS| && 0 <= c' < |KEYBOARD_ROWS[r']|
      && KeyAt(r, c, left) && KeyAt(r', c', right) && Abs(r - r') <= 1 && Abs(c - c') <= 1
  }

  predicate KeyboardAdjacent(lower: Fold, left: char, right: char) { NearKeys(lower(left), lower(right)) }

  function Substitution(lower: Fold, left: char, right: char): nat {
    if left == right then 0 else if KeyboardAdjacent(lower, left, right) then 1 else 2
  }

  /** What replacing one rune by another costs. */
  type ReplaceCost = (char, char) -> nat

  function KeyCost(lower: Fold): ReplaceCost { (left: char, right: char) => Substitution(lower, left, right) }

  /** The recurrence behind the keyboard-weighted table. */
  function KeyPrefixes(cost: ReplaceCost, a: string, b: string, i: nat, j: nat): nat
    requires i <= |a| && j <= |b|
    decreases i + j
  {
    if i == 0 then 2 * j
    else if j == 0 then 2 * i
    else Min(KeyPrefixes(cost, a, b, i, j - 1) + 2,
             Min(KeyPrefixes(cost, a, b, i - 1, j) + 2,
                 KeyPrefixes(cost, a, b, i - 1, j - 1) + cost(a[i - 1], b[j - 1])))
  }

  function Lowered(lower: Fold, s: string): string { seq(|s|, i requires 0 <= i < |s| => lower(s[i])) }

  function KeyboardDistance(lower: Fold, a: string, b: string): nat {
    var a', b' := Lowered(lower, a), Lowered(lower, b);
    KeyPrefixes(KeyCost(lower), a', b', |a'|, |b'|)
  }

  ghost predicate IsKeyRow(cost: ReplaceCost, row: array<int>, a: string, b: string, i: nat, upTo: nat)
    requires i <= |a| && upTo <= |b| + 1 <= row.Length
    reads row
  {
    forall j :: 0 <= j < upTo ==> row[j] == KeyPrefixes(cost, a, b, i, j)
  }

  method FillKeyRow(cost: ReplaceCost, a: string, b: string, i: nat, previous: array<int>) returns (current: array<int>)
    requires i < |a| && previous.Length == |b| + 1 && IsKeyRow(cost, previous, a, b, i, |b| + 1)
    ensures fresh(current) && current.Length == |b| + 1
    ensures IsKeyRow(cost, current, a, b, i + 1, |b| + 1)
  {
    current := new int[|b| + 1];
    current[0] := (i + 1) * 2;
    for j := 0 to |b|
      invariant IsKeyRow(cost, current, a, b, i + 1, j + 1)
    {
      var substitution := cost(a[i], b[j]);
      current[j + 1] := Min(current[j] + 2, Min(previous[j + 1] + 2, previous[j] + substitution));
    }
  }

  method KeyboardAdjacencyDistance(lower: Fold, a: string, b: string) returns (distance: int)
    ensures distance == KeyboardDistance(lower, a, b)
  {
    var left, right, cost := Lowered(lower, a), Lowered(lower, b), KeyCost(lower);
    var previous := new int[|right| + 1];
    for j := 0 to |right| + 1
      invariant IsKeyRow(cost, previous, left, right, 0, j)
    {
      previous[j] := j * 2;
    }
    for i := 0 to |left|
      invariant previous.Length == |right| + 1 && IsKeyRow(cost, previous, left, right, i, |right| + 1)
    {
      previous := FillKeyRow(cost, left, right, i, previous);
    }
    distance := previous[|right|];
  }

  lemma NearKeysSymmetric(x: char, y: char)
    ensures NearKeys(x, y) ==> NearKeys(y, x)
  {
    if NearKeys(x, y) {
      var r, c, r', c' :| KeyAt(r, c, x) && KeyAt(r', c', y) && Abs(r - r') <= 1 && Abs(c - c') <= 1;
      assert KeyAt(r', c', y) && KeyAt(r, c, x) && Abs(r' - r) <= 1 && Abs(c' - c) <= 1;
    }
  }

  lemma {:induction false} KeyPrefixesSymmetric(cost: ReplaceCost, a: string, b: string, i: nat, j: nat)
    requires i <= |a| && j <= |b| && forall x, y :: cost(x, y) == cost(y, x)
    ensures KeyPrefixes(cost, a, b, i, j) == KeyPrefixes(cost, b, a, j, i)
    decreases i + j
  {
    if i > 0 && j > 0 {
      KeyPrefixesSymmetric(cost, a, b, i, j - 1);
      KeyPrefixesSymmetric(cost, a, b, i - 1, j);
      KeyPrefixesSymmetric(cost, a, b, i - 1, j - 1);
    }
  }

  lemma KeyboardDistanceSymmetric(lower: Fold, a: string, b: string)
    ensures KeyboardDistance(lower, a, b) == KeyboardDistance(lower, b, a)
  {
    forall x, y
      ensures KeyCost(lower)(x, y) == KeyCost(lower)(y, x)
    {
      NearKeysSymmetric(lower(x), lower(y));
      NearKeysSymmetric(lower(y), lower(x));
    }
    KeyPrefixesSymmetric(KeyCost(lower), Lowered(lower, a), Lowered(lower, b), |a|, |b|);
  }

  // ------------------------------------------------------------------- the order

  datatype Candidate = Candidate(value: string, edit: int, keyboard: int)

  function Rate(lower: Fold, value: string, candidate: string): Candidate {
    Candidate(candidate, Distance(value, candidate), KeyboardDistance(lower, value, candidate))
  }

  predicate Before(x: Candidate, y: Candidate) {
    if x.edit != y.edit then x.edit < y.edit
    else if x.keyboard != y.keyboard then x.keyboard < y.keyboard
    else TextLess(x.value, y.value)
  }

  lemma BeforeTransitive(x: Candidate, y: Candidate, z: Candidate)
    requires Before(x, y) && Before(y, z)
    ensures Before(x, z)
  {
    if x.edit == y.edit == z.edit && x.keyboard == y.keyboard == z.keyboard {
      TextLessTransitive(x.value, y.value, z.value);
    }
  }

  function Texts(candidates: seq<string>): set<string> { set c | c in candidates }

  ghost predicate Ranked(ranked: seq<Candidate>) {
    forall i, j :: 0 <= i < j < |ranked| ==> Before(ranked[i], ranked[j])
  }

  ghost predicate RatesExactly(lower: Fold, value: string, ranked: seq<Candidate>, texts: set<string>) {
    && (forall i :: 0 <= i < |ranked| ==> ranked[i].value in texts && ranked[i] == Rate(lower, value, ranked[i].value))
    && (forall c :: c in texts ==> Rate(lower, value, c) in ranked)
  }

  method InsertCandidate(ranked: seq<Candidate>, x: Candidate) returns (r: seq<Candidate>, ghost at: nat)
    requires Ranked(ranked) && forall i :: 0 <= i < |ranked| ==> ranked[i].value != x.value
    ensures at <= |ranked| && r == ranked[..at] + [x] + ranked[at..]
    ensures Ranked(r)
  {
    var k := 0;
    while k < |ranked| && Before(ranked[k], x)
      invariant 0 <= k <= |ranked|
      invariant forall i :: 0 <= i < k ==> Before(ranked[i], x)
    {
      k := k + 1;
    }
    if k < |ranked| {
      TextLessTotal(x.value, ranked[k].value);
      forall j | k < j < |ranked|
        ensures Before(x, ranked[j])
      {
        BeforeTransitive(x, ranked[k], ranked[j]);
      }
    }
    r, at := ranked[..k] + [x] + ranked[k..], k;
  }

  lemma InsertionRates(lower: Fold, value: string, before: seq<Candidate>, texts: set<string>, candidate: string,
                       at: nat)
    requires at <= |before| && RatesExactly(lower, value, before, texts)
    ensures RatesExactly(lower, value, before[..at] + [Rate(lower, value, candidate)] + before[at..],
                         texts + {candidate})
  {
    var x := Rate(lower, value, candidate);
    var after := before[..at] + [x] + before[at..];
    assert forall y :: y in after <==> y in before || y == x by {
      assert before == before[..at] + before[at..];
    }
    assert forall i :: 0 <= i < |after| ==> after[i] in after;
  }

  /** Deduplicates, rates and sorts the candidates. */
  method RankCandidates(lower: Fold, value: string, candidates: seq<string>) returns (ranked: seq<Candidate>)
    ensures Ranked(ranked)
    ensures RatesExactly(lower, value, ranked, Texts(candidates))
  {
    var seen: set<string> := {};
    ranked := [];
    for index := 0 to |candidates|
      invariant seen == Texts(candidates[..index])
      invariant Ranked(ranked) && RatesExactly(lower, value, ranked, seen)
    {
      var candidate := candidates[index];
      assert candidates[..index + 1] == candidates[..index] + [candidate];
      if candidate !in seen {
        var edit := DamerauLevenshtein(value, candidate);
        var keyboard := KeyboardAdjacencyDistance(lower, value, candidate);
        ghost var at, before := 0, ranked;
        ranked, at := InsertCandidate(ranked, Candidate(candidate, edit, keyboard));
        InsertionRates(lower, value, before, seen, candidate, at);
        seen := seen + {candidate};
      }
    }
    assert candidates[..|candidates|] == candidates;
  }

  // ------------------------------------------------------------- canonical choice

  /** `best` comes before every other candidate. */
  ghost predicate IsNearest(lower: Fold, value: string, texts: set<string>, best: string) {
    best in texts && forall c :: c in texts && c != best ==> Before(Rate(lower, value, best), Rate(lower, value, c))
  }

  method Nearest(lower: Fold, value: string, candidates: seq<string>) returns (best: string, distance: int)
    ensures candidates == [] ==> best == "" && distance == 0
    ensures candidates != [] ==> IsNearest(lower, value, Texts(candidates), best) && distance == Distance(value, best)
  {
    var ranked := RankCandidates(lower, value, candidates);
    ghost var texts := Texts(candidates);
    assert candidates != [] ==> candidates[0] in texts;
    if |ranked| == 0 { return "", 0; }
    best, distance := ranked[0].value, ranked[0].edit;
    forall c | c in texts && c != best
      ensures Before(Rate(lower, value, best), Rate(lower, value, c))
    {
      var i :| 0 <= i < |ranked| && ranked[i] == Rate(lower, value, c);
    }
  }

  /** There is at most one nearest candidate, so the choice depends only on which texts are offered:
      permuting or repeating candidates cannot change it. */
  lemma NearestIsCanonical(lower: Fold, value: string, xs: seq<string>, ys: seq<string>, x: string, y: string)
    requires Texts(xs) == Texts(ys)
    requires IsNearest(lower, value, Texts(xs), x) && IsNearest(lower, value, Texts(ys), y)
    ensures x == y
  {
    TextLessTotal(x, y);
  }
}

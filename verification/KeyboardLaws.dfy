/** The keyboard distance is the least weight of any alignment without swaps. */
module KeyboardLaws {
  import opened EditDistance
  import opened Ranking
  import opened TextOrder

  /** Insertions and deletions weigh 2; replacing a key by one at most one row and one column away weighs 1,
      by any other 2.  Swaps are not allowed. */
  function Weight(lower: Fold, edit: Edit): nat
    requires !edit.Swap?
  {
    match edit
    case Keep(_) => 0
    case Insert(_) => 2
    case Delete(_) => 2
    case Substitute(x, y) => if NearKeys(lower(x), lower(y)) then 1 else 2
  }

  predicate NoSwaps(edits: seq<Edit>) { forall i :: 0 <= i < |edits| ==> !edits[i].Swap? }

  function Weights(lower: Fold, edits: seq<Edit>): nat
    requires NoSwaps(edits)
  {
    if edits == [] then 0 else Weights(lower, edits[..|edits| - 1]) + Weight(lower, edits[|edits| - 1])
  }

  /** The same with any cost of replacing. */
  function Price(cost: ReplaceCost, edit: Edit): nat
    requires !edit.Swap?
  {
    match edit
    case Keep(_) => 0
    case Insert(_) => 2
    case Delete(_) => 2
    case Substitute(x, y) => cost(x, y)
  }

  function Prices(cost: ReplaceCost, edits: seq<Edit>): nat
    requires NoSwaps(edits)
  {
    if edits == [] then 0 else Prices(cost, edits[..|edits| - 1]) + Price(cost, edits[|edits| - 1])
  }

  ghost predicate FreeToKeep(cost: ReplaceCost) { forall x :: cost(x, x) == 0 }

  // ------------------------------------------------------------------- none is cheaper

  lemma {:induction false} AlignmentPrice(cost: ReplaceCost, edits: seq<Edit>, a: string, b: string)
    requires FreeToKeep(cost) && NoSwaps(edits) && Source(edits) <= a && Target(edits) <= b
    ensures KeyPrefixes(cost, a, b, |Source(edits)|, |Target(edits)|) <= Prices(cost, edits)
    decreases |edits|
  {
    if edits != [] {
      var front, edit := edits[..|edits| - 1], edits[|edits| - 1];
      PrefixSlice(Source(front), Taken(edit), a);
      PrefixSlice(Target(front), Given(edit), b);
      AlignmentPrice(cost, front, a, b);
      OneMoreEditPrice(cost, a, b, |Source(front)|, |Target(front)|, edit);
    }
  }

  lemma OneMoreEditPrice(cost: ReplaceCost, a: string, b: string, i: nat, j: nat, edit: Edit)
    requires FreeToKeep(cost) && !edit.Swap?
    requires i + |Taken(edit)| <= |a| && a[i..i + |Taken(edit)|] == Taken(edit)
    requires j + |Given(edit)| <= |b| && b[j..j + |Given(edit)|] == Given(edit)
    ensures KeyPrefixes(cost, a, b, i + |Taken(edit)|, j + |Given(edit)|)
            <= KeyPrefixes(cost, a, b, i, j) + Price(cost, edit)
  {
    match edit
    case Insert(_) => OneMoreOfB(cost, a, b, i, j);
    case Delete(_) => OneMoreOfA(cost, a, b, i, j);
    case Keep(x) => OneMoreOfBoth(cost, a, b, i, j, x, x);
    case Substitute(x, y) => OneMoreOfBoth(cost, a, b, i, j, x, y);
  }

  lemma OneMoreOfA(cost: ReplaceCost, a: string, b: string, i: nat, j: nat)
    requires i < |a| && j <= |b|
    ensures KeyPrefixes(cost, a, b, i + 1, j) <= KeyPrefixes(cost, a, b, i, j) + 2
  {
  }

  lemma OneMoreOfB(cost: ReplaceCost, a: string, b: string, i: nat, j: nat)
    requires i <= |a| && j < |b|
    ensures KeyPrefixes(cost, a, b, i, j + 1) <= KeyPrefixes(cost, a, b, i, j) + 2
  {
  }

  lemma OneMoreOfBoth(cost: ReplaceCost, a: string, b: string, i: nat, j: nat, x: char, y: char)
    requires i < |a| && j < |b| && a[i..i + 1] == [x] && b[j..j + 1] == [y]
    ensures KeyPrefixes(cost, a, b, i + 1, j + 1) <= KeyPrefixes(cost, a, b, i, j) + cost(x, y)
  {
    assert a[i..i + 1][0] == a[i] && b[j..j + 1][0] == b[j];
  }

  // ------------------------------------------------------------------- one is as cheap

  /** No swaps, and no rune replaced by itself. */
  predicate Proper(edits: seq<Edit>) {
    NoSwaps(edits) && forall i :: 0 <= i < |edits| && edits[i].Substitute? ==> edits[i].x != edits[i].y
  }

  lemma {:induction false} CheapestAlignment(cost: ReplaceCost, a: string, b: string, i: nat, j: nat)
    returns (edits: seq<Edit>)
    requires FreeToKeep(cost) && i <= |a| && j <= |b|
    ensures Proper(edits) && Aligns(edits, a[..i], b[..j])
    ensures Prices(cost, edits) == KeyPrefixes(cost, a, b, i, j)
    decreases i + j
  {
    if i + j == 0 { return []; }
    var e := CheapestEnding(cost, a, b, i, j);
    var front := CheapestAlignment(cost, a, b, i - e.FromA(), j - e.FromB());
    EndingCovers(a, b, i, j, e);
    ExtendAligns(front, e.Edit(a, b, i, j), a[..i - e.FromA()], b[..j - e.FromB()]);
    edits := front + [e.Edit(a, b, i, j)];
    ExtendPrices(cost, front, e.Edit(a, b, i, j));
  }

  lemma ExtendPrices(cost: ReplaceCost, front: seq<Edit>, edit: Edit)
    requires NoSwaps(front) && !edit.Swap?
    ensures NoSwaps(front + [edit]) && Prices(cost, front + [edit]) == Prices(cost, front) + Price(cost, edit)
  {
    assert (front + [edit])[..|front|] == front;
  }

  lemma CheapestEnding(cost: ReplaceCost, a: string, b: string, i: nat, j: nat) returns (e: Ending)
    requires FreeToKeep(cost) && i <= |a| && j <= |b| && i + j > 0
    ensures e.Fits(a, b, i, j) && !e.Swapped? && (e.Substituted? ==> a[i - 1] != b[j - 1])
    ensures KeyPrefixes(cost, a, b, i, j)
            == KeyPrefixes(cost, a, b, i - e.FromA(), j - e.FromB()) + Price(cost, e.Edit(a, b, i, j))
  {
    if i == 0 { return Inserted; }
    if j == 0 { return Deleted; }
    LeastOfThree(cost, a, b, i, j);
    if KeyPrefixes(cost, a, b, i, j) == KeyPrefixes(cost, a, b, i, j - 1) + 2 { return Inserted; }
    if KeyPrefixes(cost, a, b, i, j) == KeyPrefixes(cost, a, b, i - 1, j) + 2 { return Deleted; }
    e := if a[i - 1] == b[j - 1] then Kept else Substituted;
  }

  lemma LeastOfThree(cost: ReplaceCost, a: string, b: string, i: nat, j: nat)
    requires 0 < i <= |a| && 0 < j <= |b|
    ensures var here := KeyPrefixes(cost, a, b, i, j);
            || here == KeyPrefixes(cost, a, b, i, j - 1) + 2
            || here == KeyPrefixes(cost, a, b, i - 1, j) + 2
            || here == KeyPrefixes(cost, a, b, i - 1, j - 1) + cost(a[i - 1], b[j - 1])
  {
  }

  // ---------------------------------------------------------------------- main theorem

  /** The keyboard's weights are its costs, except that replacing a rune by itself is no bargain. */
  lemma {:induction false} WeightsArePrices(lower: Fold, edits: seq<Edit>)
    requires NoSwaps(edits)
    ensures Prices(KeyCost(lower), edits) <= Weights(lower, edits)
    ensures Proper(edits) ==> Prices(KeyCost(lower), edits) == Weights(lower, edits)
    decreases |edits|
  {
    if edits != [] { WeightsArePrices(lower, edits[..|edits| - 1]); }
  }

  /** The keyboard distance is the weight of some alignment of the lowered words, and no alignment without
      swaps is lighter. */
  lemma KeyboardDistanceIsLeastWeight(lower: Fold, a: string, b: string)
    ensures exists edits :: NoSwaps(edits) && Aligns(edits, Lowered(lower, a), Lowered(lower, b))
              && Weights(lower, edits) == KeyboardDistance(lower, a, b)
    ensures forall edits :: NoSwaps(edits) && Aligns(edits, Lowered(lower, a), Lowered(lower, b))
              ==> KeyboardDistance(lower, a, b) <= Weights(lower, edits)
  {
    var x, y := Lowered(lower, a), Lowered(lower, b);
    var best := CheapestAlignment(KeyCost(lower), x, y, |x|, |y|);
    assert x[..|x|] == x && y[..|y|] == y;
    WeightsArePrices(lower, best);
    forall edits | NoSwaps(edits) && Aligns(edits, x, y)
      ensures KeyboardDistance(lower, a, b) <= Weights(lower, edits)
    {
      AlignmentPrice(KeyCost(lower), edits, x, y);
      WeightsArePrices(lower, edits);
    }
  }

  // ---------------------------------------------------------------------------- nearest

  /** The nearest candidate has the least edit distance; of those that share it, the least keyboard
      distance; and of those that share both, the first text. */
  lemma NearestMinimises(lower: Fold, value: string, texts: set<string>, best: string, c: string)
    requires IsNearest(lower, value, texts, best) && c in texts
    ensures Distance(value, best) <= Distance(value, c)
    ensures Distance(value, best) == Distance(value, c)
            ==> KeyboardDistance(lower, value, best) <= KeyboardDistance(lower, value, c)
    ensures Distance(value, best) == Distance(value, c)
            && KeyboardDistance(lower, value, best) == KeyboardDistance(lower, value, c)
            ==> best == c || TextLess(best, c)
  {
    if c != best { assert Before(Rate(lower, value, best), Rate(lower, value, c)); }
  }

  // ------------------------------------------------------------------------- an example

  lemma NeighboursOfY()
    ensures NearKeys('y', 'u') && !NearKeys('y', 'a')
  {
    assert KeyAt(1, 5, 'y') && KeyAt(1, 6, 'u');
    OnlyAt('y', 1, 5);
    OnlyAt('a', 2, 0);
  }

  lemma OnlyAt(key: char, row: int, column: int)
    requires (key == 'y' && row == 1 && column == 5) || (key == 'a' && row == 2 && column == 0)
    ensures forall r, c :: KeyAt(r, c, key) ==> r == row && c == column
  {
    forall r, c | KeyAt(r, c, key)
      ensures r == row && c == column
    {
      assert r == 0 || r == 1 || r == 2 || r == 3;
    }
  }

  lemma MiddleReplaced(x: char, m: char, n: char, z: char)
    requires m != n
    ensures Distance([x, m, z], [x, n, z]) == 1
  {
    var edits := [Keep(x), Substitute(m, n), Keep(z)];
    ThreeEdits(edits[0], edits[1], edits[2]);
    AlignmentCost(edits, [x, m, z], [x, n, z]);
    DistanceZeroIffEqual([x, m, z], [x, n, z]);
  }

  lemma ThreeEdits(e: Edit, f: Edit, g: Edit)
    ensures Source([e, f, g]) == Taken(e) + Taken(f) + Taken(g) && Target([e, f, g]) == Given(e) + Given(f) + Given(g)
    ensures Cost([e, f, g]) == UnitCost(e) + UnitCost(f) + UnitCost(g)
  {
    ExtendAligns([], e, "", "");
    ExtendAligns([e], f, Taken(e), Given(e));
    ExtendAligns([e, f], g, Taken(e) + Taken(f), Given(e) + Given(f));
    assert [] + [e] == [e] && [e] + [f] == [e, f] && [e, f] + [g] == [e, f, g];
    assert "" + Taken(e) == Taken(e) && "" + Given(e) == Given(e);
  }

  function UnitCost(e: Edit): nat { if e.Keep? then 0 else 1 }

  lemma NearMiddle(cost: ReplaceCost, a: string, b: string)
    requires FreeToKeep(cost) && |a| == |b| == 3 && a[0] == b[0] && a[2] == b[2]
    ensures KeyPrefixes(cost, a, b, 3, 3) <= cost(a[1], b[1])
  {
    OneMoreOfBoth(cost, a, b, 0, 0, a[0], b[0]);
    OneMoreOfBoth(cost, a, b, 1, 1, a[1], b[1]);
    OneMoreOfBoth(cost, a, b, 2, 2, a[2], b[2]);
  }

  lemma FarMiddle(cost: ReplaceCost, a: string, b: string)
    requires |a| == |b| == 3 && cost(a[1], b[1]) == 2
    ensures KeyPrefixes(cost, a, b, 3, 3) >= 2
  {
    LeastOfThree(cost, a, b, 2, 2);
    LeastOfThree(cost, a, b, 3, 3);
  }

  /** Of two candidates that replace one key, the one that replaces it by a neighbour is nearest. */
  lemma NeighbourIsNearest(lower: Fold, x: char, m: char, near: char, far: char, z: char, best: string)
    requires Lowered(lower, [x, m, z]) == [x, m, z]
    requires Lowered(lower, [x, near, z]) == [x, near, z] && Lowered(lower, [x, far, z]) == [x, far, z]
    requires m != near && m != far && NearKeys(lower(m), lower(near)) && !NearKeys(lower(m), lower(far))
    requires IsNearest(lower, [x, m, z], {[x, near, z], [x, far, z]}, best)
    ensures best == [x, near, z]
  {
    MiddleReplaced(x, m, near, z);
    MiddleReplaced(x, m, far, z);
    NearMiddle(KeyCost(lower), [x, m, z], [x, near, z]);
    FarMiddle(KeyCost(lower), [x, m, z], [x, far, z]);
    NearestMinimises(lower, [x, m, z], {[x, near, z], [x, far, z]}, best, [x, near, z]);
  }

  lemma CytIsCut(lower: Fold, best: string)
    requires forall c :: 'a' <= c <= 'z' ==> lower(c) == c
    requires IsNearest(lower, ['c', 'y', 't'], {['c', 'u', 't'], ['c', 'a', 't']}, best)
    ensures best == ['c', 'u', 't']
  {
    NeighboursOfY();
    NeighbourIsNearest(lower, 'c', 'y', 'u', 'a', 't', best);
  }
}

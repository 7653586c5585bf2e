/** The engine's edit distance: a three-row restricted Damerau-Levenshtein
    program, proved to compute the least cost of any restricted alignment. */
module EditDistance {

  function Min(x: int, y: int): int { if y < x then y else x }

  function Max(x: int, y: int): int { if x < y then y else x }

  predicate SwappedAt(a: string, b: string, i: nat, j: nat)
    requires i <= |a| && j <= |b|
  {
    i > 1 && j > 1 && a[i - 1] == b[j - 2] && a[i - 2] == b[j - 1]
  }

  /** The recurrence that the rows tabulate, for the first `i` runes of `a` and the first `j` of `b`. */
  function Prefixes(a: string, b: string, i: nat, j: nat): nat
    requires i <= |a| && j <= |b|
    decreases i + j
  {
    if i == 0 then j
    else if j == 0 then i
    else
      var cost := if a[i - 1] == b[j - 1] then 0 else 1;
      var plain := Min(Prefixes(a, b, i, j - 1) + 1,
                       Min(Prefixes(a, b, i - 1, j) + 1, Prefixes(a, b, i - 1, j - 1) + cost));
      if SwappedAt(a, b, i, j) then Min(plain, Prefixes(a, b, i - 2, j - 2) + 1) else plain
  }

  function Distance(a: string, b: string): nat { Prefixes(a, b, |a|, |b|) }

  /** The first `upTo` cells of row `i` of the table. */
  ghost predicate IsRow(row: array<int>, a: string, b: string, i: nat, upTo: nat)
    requires i <= |a| && upTo <= |b| + 1 <= row.Length
    reads row
  {
    forall j :: 0 <= j < upTo ==> row[j] == Prefixes(a, b, i, j)
  }

  /** One cell of row `i + 1`, from its neighbours. */
  method NextCell(a: string, b: string, i: nat, j: nat, left: int, up: int, diagonal: int, corner: int)
    returns (cell: int)
    requires i < |a| && j < |b|
    requires left == Prefixes(a, b, i + 1, j) && up == Prefixes(a, b, i, j + 1) && diagonal == Prefixes(a, b, i, j)
    requires i > 0 && j > 0 ==> corner == Prefixes(a, b, i - 1, j - 1)
    ensures cell == Prefixes(a, b, i + 1, j + 1)
  {
    var cost := if a[i] != b[j] then 1 else 0;
    cell := Min(left + 1, Min(up + 1, diagonal + cost));
    if i > 0 && j > 0 && a[i] == b[j - 1] && a[i - 1] == b[j] { cell := Min(cell, corner + 1); }
  }

  method FillRow(a: string, b: string, i: nat, previousPrevious: array<int>, previous: array<int>)
    returns (current: array<int>)
    requires i < |a|
    requires previous.Length == previousPrevious.Length == |b| + 1
    requires IsRow(previous, a, b, i, |b| + 1)
    requires i > 0 ==> IsRow(previousPrevious, a, b, i - 1, |b| + 1)
    ensures fresh(current) && current.Length == |b| + 1
    ensures IsRow(current, a, b, i + 1, |b| + 1)
  {
    current := new int[|b| + 1];
    current[0] := i + 1;
    var j := 0;
    while j < |b|
      invariant 0 <= j <= |b|
      invariant IsRow(current, a, b, i + 1, j + 1)
    {
      var corner := if i > 0 && j > 0 then previousPrevious[j - 1] else 0;
      var cell := NextCell(a, b, i, j, current[j], previous[j + 1], previous[j], corner);
      current[j + 1] := cell;
      j := j + 1;
    }
  }

  method DamerauLevenshtein(a: string, b: string) returns (distance: int)
    ensures distance == Distance(a, b)
  {
    var previousPrevious, previous := new int[|b| + 1], new int[|b| + 1];
    var j := 0;
    while j < previous.Length
      invariant 0 <= j <= previous.Length
      invariant IsRow(previous, a, b, 0, j)
    {
      previous[j] := j;
      j := j + 1;
    }
    var i := 0;
    while i < |a|
      invariant 0 <= i <= |a|
      invariant previous.Length == previousPrevious.Length == |b| + 1
      invariant IsRow(previous, a, b, i, |b| + 1)
      invariant i > 0 ==> IsRow(previousPrevious, a, b, i - 1, |b| + 1)
    {
      var current := FillRow(a, b, i, previousPrevious, previous);
      previousPrevious, previous := previous, current;
      i := i + 1;
    }
    distance := previous[|b|];
  }

  // ------------------------------------------------------------------ alignments

  /** One column of a restricted alignment: every rune takes part in one edit only. */
  datatype Edit =
    | Keep(c: char)
    | Substitute(x: char, y: char)
    | Insert(y: char)
    | Delete(x: char)
    | Swap(x: char, y: char)

  function Taken(edit: Edit): string {
    match edit
    case Keep(c) => [c]
    case Substitute(x, _) => [x]
    case Insert(_) => ""
    case Delete(x) => [x]
    case Swap(x, y) => [x, y]
  }

  function Given(edit: Edit): string {
    match edit
    case Keep(c) => [c]
    case Substitute(_, y) => [y]
    case Insert(y) => [y]
    case Delete(_) => ""
    case Swap(x, y) => [y, x]
  }

  function Source(edits: seq<Edit>): string {
    if edits == [] then "" else Source(edits[..|edits| - 1]) + Taken(edits[|edits| - 1])
  }

  function Target(edits: seq<Edit>): string {
    if edits == [] then "" else Target(edits[..|edits| - 1]) + Given(edits[|edits| - 1])
  }

  function Cost(edits: seq<Edit>): nat {
    if edits == [] then 0
    else Cost(edits[..|edits| - 1]) + if edits[|edits| - 1].Keep? then 0 else 1
  }

  ghost predicate Aligns(edits: seq<Edit>, a: string, b: string) { Source(edits) == a && Target(edits) == b }

  lemma {:induction false} AlignmentCost(edits: seq<Edit>, a: string, b: string)
    requires Source(edits) <= a && Target(edits) <= b
    ensures Prefixes(a, b, |Source(edits)|, |Target(edits)|) <= Cost(edits)
    decreases |edits|
  {
    if edits != [] {
      var front, edit := edits[..|edits| - 1], edits[|edits| - 1];
      PrefixSlice(Source(front), Taken(edit), a);
      PrefixSlice(Target(front), Given(edit), b);
      AlignmentCost(front, a, b);
      OneMoreEdit(a, b, |Source(front)|, |Target(front)|, edit);
    }
  }

  lemma PrefixSlice(front: string, back: string, whole: string)
    requires front + back <= whole
    ensures front <= whole && whole[|front|..|front| + |back|] == back
  {
    assert whole[..|front| + |back|] == front + back;
  }

  /** Each edit adds at most its own cost. */
  lemma OneMoreEdit(a: string, b: string, i: nat, j: nat, edit: Edit)
    requires i + |Taken(edit)| <= |a| && a[i..i + |Taken(edit)|] == Taken(edit)
    requires j + |Given(edit)| <= |b| && b[j..j + |Given(edit)|] == Given(edit)
    ensures Prefixes(a, b, i + |Taken(edit)|, j + |Given(edit)|)
            <= Prefixes(a, b, i, j) + (if edit.Keep? then 0 else 1)
  {
    assert edit.Keep? ==> a[i] == Taken(edit)[0] && b[j] == Given(edit)[0];
    assert edit.Swap? ==> a[i] == Taken(edit)[0] == Given(edit)[1] == b[j + 1];
    assert edit.Swap? ==> a[i + 1] == Taken(edit)[1] == Given(edit)[0] == b[j];
  }

  lemma Extend(front: seq<Edit>, edit: Edit)
    ensures Source(front + [edit]) == Source(front) + Taken(edit)
    ensures Target(front + [edit]) == Target(front) + Given(edit)
    ensures Cost(front + [edit]) == Cost(front) + (if edit.Keep? then 0 else 1)
  {
    assert (front + [edit])[..|front|] == front;
  }

  lemma ExtendAligns(front: seq<Edit>, edit: Edit, a: string, b: string)
    requires Aligns(front, a, b)
    ensures Aligns(front + [edit], a + Taken(edit), b + Given(edit))
    ensures Cost(front + [edit]) == Cost(front) + (if edit.Keep? then 0 else 1)
  {
    Extend(front, edit);
  }

  /** How a best alignment ends. */
  datatype Ending = Inserted | Deleted | Kept | Substituted | Swapped {
    function FromA(): nat { if Inserted? then 0 else if Swapped? then 2 else 1 }
    function FromB(): nat { if Deleted? then 0 else if Swapped? then 2 else 1 }
    function Price(): nat { if Kept? then 0 else 1 }

    predicate Fits(a: string, b: string, i: nat, j: nat) {
      && FromA() <= i <= |a| && FromB() <= j <= |b|
      && (Kept? ==> a[i - 1] == b[j - 1])
      && (Swapped? ==> SwappedAt(a, b, i, j))
    }

    function Edit(a: string, b: string, i: nat, j: nat): Edit
      requires Fits(a, b, i, j)
    {
      match this
      case Inserted => Insert(b[j - 1])
      case Deleted => Delete(a[i - 1])
      case Kept => Keep(a[i - 1])
      case Substituted => Substitute(a[i - 1], b[j - 1])
      case Swapped => Swap(a[i - 2], a[i - 1])
    }
  }

  lemma BestEnding(a: string, b: string, i: nat, j: nat) returns (e: Ending)
    requires i <= |a| && j <= |b| && i + j > 0
    ensures e.Fits(a, b, i, j)
    ensures Prefixes(a, b, i, j) == Prefixes(a, b, i - e.FromA(), j - e.FromB()) + e.Price()
  {
    if i == 0 { return Inserted; }
    if j == 0 { return Deleted; }
    var here, left, up := Prefixes(a, b, i, j), Prefixes(a, b, i, j - 1), Prefixes(a, b, i - 1, j);
    var diagonal := Prefixes(a, b, i - 1, j - 1);
    var corner := if SwappedAt(a, b, i, j) then Prefixes(a, b, i - 2, j - 2) else here;
    var same := a[i - 1] == b[j - 1];
    OneIsLeast(here, left, up, diagonal, same, corner, SwappedAt(a, b, i, j));
    e := if here == left + 1 then Inserted
         else if here == up + 1 then Deleted
         else if same && here == diagonal then Kept
         else if !same && here == diagonal + 1 then Substituted
         else Swapped;
  }

  lemma OneIsLeast(here: int, left: int, up: int, diagonal: int, same: bool, corner: int, swapped: bool)
    requires var plain := Min(left + 1, Min(up + 1, diagonal + if same then 0 else 1));
             here == if swapped then Min(plain, corner + 1) else plain
    ensures here == left + 1 || here == up + 1 || here == diagonal + (if same then 0 else 1)
            || (swapped && here == corner + 1)
  {
  }

  lemma EndingCovers(a: string, b: string, i: nat, j: nat, e: Ending)
    requires e.Fits(a, b, i, j)
    ensures a[..i] == a[..i - e.FromA()] + Taken(e.Edit(a, b, i, j))
    ensures b[..j] == b[..j - e.FromB()] + Given(e.Edit(a, b, i, j))
    ensures e.Edit(a, b, i, j).Keep? <==> e.Price() == 0
  {
  }

  lemma {:induction false} BestAlignment(a: string, b: string, i: nat, j: nat) returns (edits: seq<Edit>)
    requires i <= |a| && j <= |b|
    ensures Aligns(edits, a[..i], b[..j]) && Cost(edits) == Prefixes(a, b, i, j)
    decreases i + j
  {
    if i + j == 0 {
      edits := [];
    } else {
      var e := BestEnding(a, b, i, j);
      var front := BestAlignment(a, b, i - e.FromA(), j - e.FromB());
      EndingCovers(a, b, i, j, e);
      edits := front + [e.Edit(a, b, i, j)];
      ExtendAligns(front, e.Edit(a, b, i, j), a[..i - e.FromA()], b[..j - e.FromB()]);
    }
  }

  lemma BestWholeAlignment(a: string, b: string) returns (edits: seq<Edit>)
    ensures Aligns(edits, a, b) && Cost(edits) == Distance(a, b)
  {
    edits := BestAlignment(a, b, |a|, |b|);
    assert a[..|a|] == a && b[..|b|] == b;
  }

  /** The distance is the least cost over all restricted alignments of the two words. */
  lemma DistanceIsLeastCost(a: string, b: string)
    ensures forall edits :: Aligns(edits, a, b) ==> Distance(a, b) <= Cost(edits)
    ensures exists edits :: Aligns(edits, a, b) && Cost(edits) == Distance(a, b)
  {
    forall edits | Aligns(edits, a, b)
      ensures Distance(a, b) <= Cost(edits)
    {
      AlignmentCost(edits, a, b);
    }
    var best := BestWholeAlignment(a, b);
  }

  // -------------------------------------------------------------- what follows

  function Mirror(edit: Edit): Edit {
    match edit
    case Keep(c) => Keep(c)
    case Substitute(x, y) => Substitute(y, x)
    case Insert(y) => Delete(y)
    case Delete(x) => Insert(x)
    case Swap(x, y) => Swap(y, x)
  }

  lemma MirrorEnds(edit: Edit)
    ensures Taken(Mirror(edit)) == Given(edit) && Given(Mirror(edit)) == Taken(edit)
    ensures Mirror(edit).Keep? <==> edit.Keep?
  {
  }

  lemma {:induction false} MirrorAligns(edits: seq<Edit>) returns (mirrored: seq<Edit>)
    ensures Aligns(mirrored, Target(edits), Source(edits))
    ensures Cost(mirrored) == Cost(edits)
    decreases |edits|
  {
    if edits == [] {
      mirrored := [];
    } else {
      var front, edit := edits[..|edits| - 1], edits[|edits| - 1];
      var back := MirrorAligns(front);
      MirrorEnds(edit);
      ExtendAligns(back, Mirror(edit), Target(front), Source(front));
      mirrored := back + [Mirror(edit)];
    }
  }

  lemma DistanceSymmetric(a: string, b: string)
    ensures Distance(a, b) == Distance(b, a)
  {
    MirrorBound(a, b);
    MirrorBound(b, a);
  }

  lemma MirrorBound(a: string, b: string)
    ensures Distance(b, a) <= Distance(a, b)
  {
    var forth := BestWholeAlignment(a, b);
    var back := MirrorAligns(forth);
    AlignmentCost(back, b, a);
  }

  lemma {:induction false} FreeAlignmentKeeps(edits: seq<Edit>)
    ensures Cost(edits) == 0 ==> Source(edits) == Target(edits)
    decreases |edits|
  {
    if edits != [] { FreeAlignmentKeeps(edits[..|edits| - 1]); }
  }

  lemma {:induction false} DistanceToSelf(a: string, i: nat)
    requires i <= |a|
    ensures Prefixes(a, a, i, i) == 0
    decreases i
  {
    if i > 0 { DistanceToSelf(a, i - 1); }
  }

  lemma DistanceZeroIffEqual(a: string, b: string)
    ensures Distance(a, b) == 0 <==> a == b
  {
    var edits := BestWholeAlignment(a, b);
    FreeAlignmentKeeps(edits);
    DistanceToSelf(a, |a|);
  }

  lemma {:induction false} PrefixLower(a: string, b: string, i: nat, j: nat)
    requires i <= |a| && j <= |b|
    ensures Prefixes(a, b, i, j) >= i - j && Prefixes(a, b, i, j) >= j - i
    decreases i + j
  {
    if i + j > 0 {
      var e := BestEnding(a, b, i, j);
      PrefixLower(a, b, i - e.FromA(), j - e.FromB());
    }
  }

  lemma {:induction false} PrefixUpper(a: string, b: string, i: nat, j: nat)
    requires i <= |a| && j <= |b|
    ensures Prefixes(a, b, i, j) <= Max(i, j)
    decreases i + j
  {
    if i > 0 && j > 0 { PrefixUpper(a, b, i - 1, j - 1); }
  }

  lemma DistanceBounds(a: string, b: string)
    ensures |a| - |b| <= Distance(a, b) && |b| - |a| <= Distance(a, b)
    ensures Distance(a, b) <= Max(|a|, |b|)
  {
    PrefixLower(a, b, |a|, |b|);
    PrefixUpper(a, b, |a|, |b|);
  }

  // ------------------------------------------------------------------ confidence

  /** `confidence`, over the reals.  The source divides by zero only for two empty words. */
  function Confidence(a: string, b: string): (c: real)
    requires a != "" || b != ""
  {
    1.0 - Distance(a, b) as real / Max(|a|, |b|) as real
  }

  lemma Fraction(d: real, m: real)
    requires 0.0 <= d <= m && m > 0.0
    ensures 0.0 <= d / m <= 1.0
    ensures d / m == 0.0 <==> d == 0.0
  {
    assert d / m * m == d;
  }

  lemma ConfidenceInRange(a: string, b: string)
    requires a != "" || b != ""
    ensures 0.0 <= Confidence(a, b) <= 1.0
    ensures Confidence(a, b) == 1.0 <==> a == b
    ensures Confidence(a, b) == Confidence(b, a)
  {
    DistanceBounds(a, b);
    DistanceZeroIffEqual(a, b);
    DistanceSymmetric(a, b);
    Fraction(Distance(a, b) as real, Max(|a|, |b|) as real);
  }

  /** A confidence is high enough exactly when the distance is a small enough part of the longer word. */
  lemma ConfidenceExactly(a: string, b: string, least: real)
    requires a != "" || b != ""
    ensures Confidence(a, b) >= least <==> Distance(a, b) as real <= (1.0 - least) * Max(|a|, |b|) as real
  {
    Portion(Distance(a, b) as real, Max(|a|, |b|) as real, 1.0 - least);
  }

  lemma Portion(d: real, m: real, part: real)
    requires m > 0.0
    ensures d / m <= part <==> d <= part * m
  {
    var q := d / m;
    assert q * m == d;
    Scaled(q, part, m);
  }

  lemma Scaled(a: real, b: real, m: real)
    requires m > 0.0
    ensures a <= b <==> a * m <= b * m
  {
    assert (b - a) * m == b * m - a * m;
  }
}

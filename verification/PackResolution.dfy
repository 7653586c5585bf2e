/** Pack resolution: a set of packs either resolves to one list, or not at all,
    whatever order the packs were found in. */
module PackResolution {
  import opened Options
  import opened TextOrder
  import opened Packs

  /** Whether a pack compiles; `Packs.Compile` shows what that means. */
  type Compiler = Pack -> bool

  function MatcherSignature(rule: Rule): string { rule.command + "\0" + rule.pattern }

  function Signatures(rules: seq<Rule>): (s: seq<string>)
    ensures |s| == |rules|
  {
    seq(|rules|, i requires 0 <= i < |rules| => MatcherSignature(rules[i]))
  }

  function AllSignatures(packs: seq<Pack>): seq<string> {
    if packs == [] then [] else AllSignatures(packs[..|packs| - 1]) + Signatures(packs[|packs| - 1].rules)
  }

  predicate DistinctIds(packs: seq<Pack>) { forall i, j :: 0 <= i < j < |packs| ==> packs[i].id != packs[j].id }

  // ---------------------------------------------------------------------- the order

  predicate NotAfter(a: string, b: string) { a == b || TextLess(a, b) }

  ghost predicate Ascending(packs: seq<Pack>) {
    forall i, j :: 0 <= i < j < |packs| ==> NotAfter(packs[i].id, packs[j].id)
  }

  ghost predicate StrictlyAscending(packs: seq<Pack>) {
    forall i, j :: 0 <= i < j < |packs| ==> TextLess(packs[i].id, packs[j].id)
  }

  /** What sorting by id may return: the sort is not stable. */
  ghost predicate SortedCopy(ordered: seq<Pack>, packs: seq<Pack>) {
    multiset(ordered) == multiset(packs) && Ascending(ordered)
  }

  method InsertById(ordered: seq<Pack>, pack: Pack) returns (r: seq<Pack>)
    requires Ascending(ordered)
    ensures Ascending(r) && multiset(r) == multiset(ordered) + multiset{pack}
  {
    var k := 0;
    while k < |ordered| && NotAfter(ordered[k].id, pack.id)
      invariant 0 <= k <= |ordered|
      invariant forall i :: 0 <= i < k ==> NotAfter(ordered[i].id, pack.id)
    {
      k := k + 1;
    }
    AllAfter(ordered, pack, k);
    InsertedAt(ordered, pack, k);
    r := ordered[..k] + [pack] + ordered[k..];
  }

  lemma AllAfter(ordered: seq<Pack>, pack: Pack, k: nat)
    requires Ascending(ordered) && (k < |ordered| ==> !NotAfter(ordered[k].id, pack.id))
    ensures forall j :: k <= j < |ordered| ==> NotAfter(pack.id, ordered[j].id)
  {
    forall j | k <= j < |ordered|
      ensures NotAfter(pack.id, ordered[j].id)
    {
      TextLessTotal(pack.id, ordered[k].id);
      if k < j && ordered[k].id != ordered[j].id { TextLessTransitive(pack.id, ordered[k].id, ordered[j].id); }
    }
  }

  lemma InsertedAt(ordered: seq<Pack>, pack: Pack, k: nat)
    requires Ascending(ordered) && k <= |ordered|
    requires forall i :: 0 <= i < k ==> NotAfter(ordered[i].id, pack.id)
    requires forall j :: k <= j < |ordered| ==> NotAfter(pack.id, ordered[j].id)
    ensures Ascending(ordered[..k] + [pack] + ordered[k..])
    ensures multiset(ordered[..k] + [pack] + ordered[k..]) == multiset(ordered) + multiset{pack}
  {
    assert ordered == ordered[..k] + ordered[k..];
    var r := ordered[..k] + [pack] + ordered[k..];
    forall i, j | 0 <= i < j < |r|
      ensures NotAfter(r[i].id, r[j].id)
    {
      InsertedBefore(ordered, pack, k, i, j);
    }
  }

  lemma InsertedBefore(ordered: seq<Pack>, pack: Pack, k: nat, i: nat, j: nat)
    requires Ascending(ordered) && k <= |ordered| && i < j <= |ordered|
    requires forall i :: 0 <= i < k ==> NotAfter(ordered[i].id, pack.id)
    requires forall j :: k <= j < |ordered| ==> NotAfter(pack.id, ordered[j].id)
    ensures var r := ordered[..k] + [pack] + ordered[k..]; NotAfter(r[i].id, r[j].id)
  {
    var r := ordered[..k] + [pack] + ordered[k..];
    assert r[i] == (if i < k then ordered[i] else if i == k then pack else ordered[i - 1]);
    assert r[j] == (if j < k then ordered[j] else if j == k then pack else ordered[j - 1]);
  }

  method SortById(packs: seq<Pack>) returns (ordered: seq<Pack>)
    ensures SortedCopy(ordered, packs)
  {
    ordered := [];
    for i := 0 to |packs|
      invariant Ascending(ordered) && multiset(ordered) == multiset(packs[..i])
    {
      assert packs[..i + 1] == packs[..i] + [packs[i]];
      ordered := InsertById(ordered, packs[i]);
    }
    assert packs[..|packs|] == packs;
  }

  // ------------------------------------------------------------------------- resolving

  predicate Resolvable(packs: seq<Pack>, compiles: Compiler) {
    DistinctIds(packs) && (forall i :: 0 <= i < |packs| ==> compiles(packs[i])) && Distinct(AllSignatures(packs))
  }

  function TextSet(texts: seq<string>): set<string> { set s | s in texts }

  /** The inner loop of `Resolve`: records one pack's matchers unless one is taken. */
  method AddMatchers(seen: set<string>, rules: seq<Rule>, ghost before: seq<string>)
    returns (ok: bool, added: set<string>)
    requires seen == TextSet(before) && Distinct(before)
    ensures ok <==> Distinct(before + Signatures(rules))
    ensures ok ==> added == TextSet(before + Signatures(rules))
  {
    added := seen;
    ghost var all := before + Signatures(rules);
    for k := 0 to |rules|
      invariant added == TextSet(all[..|before| + k]) && Distinct(all[..|before| + k])
    {
      var signature := MatcherSignature(rules[k]);
      ghost var n := |before| + k;
      assert all[..n + 1] == all[..n] + [signature];
      if all[n] in all[..n] { RepeatSpoils(all, n); }
      if signature in added { return false, added; }
      added := added + {signature};
    }
    assert all[..|all|] == all;
    ok := true;
  }

  method Resolve(packs: seq<Pack>, compiles: Compiler) returns (r: Option<seq<Pack>>)
    ensures Outcome(packs, compiles, r)
  {
    var ordered := SortById(packs);
    r := Walk(ordered, compiles);
  }

  /** The walk over the sorted packs. */
  method Walk(ordered: seq<Pack>, compiles: Compiler) returns (r: Option<seq<Pack>>)
    ensures r == if Resolvable(ordered, compiles) then Some(ordered) else None
  {
    var resolved: seq<Pack> := [];
    var seenPacks: set<string>, seenMatchers: set<string> := {}, {};
    for n := 0 to |ordered|
      invariant resolved == ordered[..n]
      invariant seenPacks == set i | 0 <= i < n :: ordered[i].id
      invariant seenMatchers == TextSet(AllSignatures(ordered[..n]))
      invariant Resolvable(ordered[..n], compiles)
    {
      var pack := ordered[n];
      assert ordered[..n + 1][..n] == ordered[..n] && ordered[..n + 1][n] == pack;
      PrefixBlocks(ordered, compiles, n);
      if pack.id in seenPacks { return None; }
      if !compiles(pack) { return None; }
      var ok;
      ok, seenMatchers := AddMatchers(seenMatchers, pack.rules, AllSignatures(ordered[..n]));
      if !ok { return None; }
      seenPacks := seenPacks + {pack.id};
      resolved := resolved + [pack];
    }
    assert ordered[..|ordered|] == ordered;
    r := Some(resolved);
  }

  /** A failure in a prefix is a failure of the whole. */
  lemma PrefixBlocks(ordered: seq<Pack>, compiles: Compiler, n: nat)
    requires n < |ordered|
    ensures Resolvable(ordered, compiles) ==>
              DistinctIds(ordered[..n + 1]) && compiles(ordered[n]) && Distinct(AllSignatures(ordered[..n + 1]))
  {
    SignaturesPrefix(ordered, n + 1);
    if Resolvable(ordered, compiles) { DistinctPrefix(AllSignatures(ordered), |AllSignatures(ordered[..n + 1])|); }
  }

  lemma {:induction false} SignaturesPrefix(packs: seq<Pack>, n: nat)
    requires n <= |packs|
    ensures AllSignatures(packs[..n]) <= AllSignatures(packs)
    decreases |packs|
  {
    if n < |packs| {
      var m := |packs| - 1;
      assert packs[..m][..n] == packs[..n];
      SignaturesPrefix(packs[..m], n);
    } else {
      assert packs[..n] == packs;
    }
  }

  lemma DistinctPrefix(texts: seq<string>, n: nat)
    requires n <= |texts|
    ensures Distinct(texts) ==> Distinct(texts[..n])
  {
  }

  lemma RepeatSpoils(texts: seq<string>, n: nat)
    requires n < |texts| && texts[n] in texts[..n]
    ensures !Distinct(texts)
  {
    var i :| 0 <= i < n && texts[..n][i] == texts[n];
    assert texts[i] == texts[n];
  }

  /** The result is the walk of some sorted copy: that copy, or nothing. */
  ghost predicate Outcome(packs: seq<Pack>, compiles: Compiler, r: Option<seq<Pack>>) {
    exists ordered :: SortedCopy(ordered, packs) && r == if Resolvable(ordered, compiles) then Some(ordered) else None
  }

  // --------------------------------------------------------------------- order independence

  lemma DistinctAscendingIsStrict(packs: seq<Pack>)
    requires Ascending(packs)
    ensures DistinctIds(packs) <==> StrictlyAscending(packs)
  {
    forall i, j | 0 <= i < j < |packs|
      ensures TextLess(packs[i].id, packs[j].id) <==> packs[i].id != packs[j].id
    {
      TextLessTotal(packs[i].id, packs[j].id);
    }
  }

  /** Packs in strictly ascending order can be sorted in one way only. */
  lemma {:induction false} StrictOrderIsUnique(a: seq<Pack>, b: seq<Pack>)
    requires multiset(a) == multiset(b) && StrictlyAscending(a) && Ascending(b)
    ensures a == b
    decreases |a|
  {
    assert |a| == |multiset(a)| == |multiset(b)| == |b|;
    if a != [] {
      SameHead(a, b);
      var x := a[0];
      assert a == [x] + a[1..] && b == [x] + b[1..];
      assert multiset(a[1..]) == multiset(a) - multiset{x};
      assert multiset(b[1..]) == multiset(b) - multiset{x};
      StrictOrderIsUnique(a[1..], b[1..]);
    }
  }

  lemma SameHead(a: seq<Pack>, b: seq<Pack>)
    requires multiset(a) == multiset(b) && StrictlyAscending(a) && Ascending(b) && a != [] && b != []
    ensures a[0] == b[0]
  {
    assert b[0] in multiset(b);
    var i :| 0 <= i < |a| && a[i] == b[0];
    assert a[0] in multiset(a);
    var j :| 0 <= j < |b| && b[j] == a[0];
    TextLessTotal(a[0].id, b[0].id);
  }

  /** For every reordering of the packs, `Resolve` gives the same answer: the same failure, or the same
      list, in strictly ascending order of ids and with no two rules for the same command and pattern. */
  lemma ResolutionIsOrderIndependent(packs: seq<Pack>, packs': seq<Pack>, compiles: Compiler, r: Option<seq<Pack>>,
                                     r': Option<seq<Pack>>)
    requires multiset(packs) == multiset(packs')
    requires Outcome(packs, compiles, r) && Outcome(packs', compiles, r')
    ensures r == r'
    ensures r.Some? ==> multiset(r.value) == multiset(packs) && StrictlyAscending(r.value)
    ensures r.Some? ==> NoSharedMatcher(r.value)
  {
    var a :| SortedCopy(a, packs) && r == if Resolvable(a, compiles) then Some(a) else None;
    var b :| SortedCopy(b, packs') && r' == if Resolvable(b, compiles) then Some(b) else None;
    DistinctAscendingIsStrict(a);
    DistinctAscendingIsStrict(b);
    if StrictlyAscending(a) { StrictOrderIsUnique(a, b); }
    if StrictlyAscending(b) { StrictOrderIsUnique(b, a); }
    if Resolvable(a, compiles) { DistinctMatchers(a); }
  }

  predicate SameMatcher(x: Rule, y: Rule) { x.command == y.command && x.pattern == y.pattern }

  /** No two different rule positions share command and pattern. */
  ghost predicate NoSharedMatcher(packs: seq<Pack>) {
    forall i, k, j, l | 0 <= i < |packs| && 0 <= k < |packs[i].rules| && 0 <= j < |packs| && 0 <= l < |packs[j].rules|
      :: SameMatcher(packs[i].rules[k], packs[j].rules[l]) ==> i == j && k == l
  }

  function Offset(packs: seq<Pack>, i: nat): nat
    requires i <= |packs|
  {
    |AllSignatures(packs[..i])|
  }

  lemma SignatureAt(packs: seq<Pack>, i: nat, k: nat)
    requires i < |packs| && k < |packs[i].rules|
    ensures Offset(packs, i) + k < Offset(packs, i + 1) <= |AllSignatures(packs)|
    ensures AllSignatures(packs)[Offset(packs, i) + k] == MatcherSignature(packs[i].rules[k])
  {
    assert packs[..i + 1][..i] == packs[..i];
    SignaturesPrefix(packs, i + 1);
  }

  lemma OffsetMonotone(packs: seq<Pack>, i: nat, j: nat)
    requires i <= j <= |packs|
    ensures Offset(packs, i) <= Offset(packs, j)
  {
    assert packs[..j][..i] == packs[..i];
    SignaturesPrefix(packs[..j], i);
  }

  lemma DistinctMatchers(packs: seq<Pack>)
    requires Distinct(AllSignatures(packs))
    ensures NoSharedMatcher(packs)
  {
    forall i, k, j, l | 0 <= i < |packs| && 0 <= k < |packs[i].rules| && 0 <= j < |packs| && 0 <= l < |packs[j].rules|
      && SameMatcher(packs[i].rules[k], packs[j].rules[l])
      ensures i == j && k == l
    {
      SignatureAt(packs, i, k);
      SignatureAt(packs, j, l);
      if i < j { OffsetMonotone(packs, i + 1, j); }
      if j < i { OffsetMonotone(packs, j + 1, i); }
    }
  }
}

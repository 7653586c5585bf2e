/** Exactly when resolution refuses packs.

    A rule's signature is its command and pattern with a NUL between them.  If
    commands hold NULs, two rules may share a signature without sharing command
    and pattern; then valid packs are refused although nothing conflicts. */
module PackConflicts {
  import opened Options
  import opened RiskAssessment
  import opened PackTemplate
  import opened PackVersion
  import opened Packs
  import opened PackResolution

  /** The command of `y` holds a NUL after the command of `x`, and continues as the pattern of `x` begins. */
  predicate Shifted(x: Rule, y: Rule) {
    var n := |x.command|;
    n < |y.command| && y.command[..n + 1] == x.command + "\0" && x.pattern == y.command[n + 1..] + "\0" + y.pattern
  }

  predicate Conflict(x: Rule, y: Rule) { SameMatcher(x, y) || Shifted(x, y) || Shifted(y, x) }

  lemma LongerCommand(x: Rule, y: Rule)
    requires |x.command| < |y.command|
    ensures MatcherSignature(x) == MatcherSignature(y) <==> Shifted(x, y)
  {
    var n, s, t := |x.command|, MatcherSignature(x), MatcherSignature(y);
    assert s[..n + 1] == x.command + "\0" && s[n + 1..] == x.pattern;
    assert t[..n + 1] == y.command[..n + 1] && t[n + 1..] == y.command[n + 1..] + "\0" + y.pattern;
    assert s == s[..n + 1] + s[n + 1..] && t == t[..n + 1] + t[n + 1..];
  }

  lemma EqualLength(x: Rule, y: Rule)
    requires |x.command| == |y.command|
    ensures MatcherSignature(x) == MatcherSignature(y) <==> SameMatcher(x, y)
  {
    var n, s, t := |x.command|, MatcherSignature(x), MatcherSignature(y);
    assert s[..n] == x.command && t[..n] == y.command && s[n + 1..] == x.pattern && t[n + 1..] == y.pattern;
  }

  /** Two signatures are equal if and only if the rules share command and pattern or are shifted by a NUL. */
  lemma SignaturesCollide(x: Rule, y: Rule)
    ensures MatcherSignature(x) == MatcherSignature(y) <==> Conflict(x, y)
  {
    if |x.command| < |y.command| {
      LongerCommand(x, y);
    } else if |y.command| < |x.command| {
      LongerCommand(y, x);
    } else {
      EqualLength(x, y);
    }
  }

  lemma NoNulNoShift(x: Rule, y: Rule)
    requires '\0' !in y.command
    ensures !Shifted(x, y)
  {
    var n := |x.command|;
    if n < |y.command| { assert y.command[..n + 1][n] == y.command[n] && (x.command + "\0")[n] == '\0'; }
  }

  // -------------------------------------------------------------------- among packs

  /** The rules `k` of `p` and `l` of `q`. */
  predicate Positions(packs: seq<Pack>, p: Pack, k: int, q: Pack, l: int) {
    p in packs && q in packs && 0 <= k < |p.rules| && 0 <= l < |q.rules|
  }

  ghost predicate NoConflict(packs: seq<Pack>) {
    forall p, k, q, l | Positions(packs, p, k, q, l) :: Conflict(p.rules[k], q.rules[l]) ==> p == q && k == l
  }

  ghost predicate NothingShared(packs: seq<Pack>) {
    forall p, k, q, l | Positions(packs, p, k, q, l) :: SameMatcher(p.rules[k], q.rules[l]) ==> p == q && k == l
  }

  /** Which rule a place in the list of all signatures belongs to. */
  lemma {:induction false} RuleAt(packs: seq<Pack>, a: nat) returns (i: nat, k: nat)
    requires a < |AllSignatures(packs)|
    ensures i < |packs| && k < |packs[i].rules| && a == Offset(packs, i) + k
    decreases |packs|
  {
    var n := |packs| - 1;
    if a < |AllSignatures(packs[..n])| {
      i, k := RuleAt(packs[..n], a);
      assert packs[..n][..i] == packs[..i];
    } else {
      i, k := n, a - |AllSignatures(packs[..n])|;
    }
  }

  lemma {:induction false} ConflictSpoils(packs: seq<Pack>)
    requires Distinct(AllSignatures(packs)) && DistinctIds(packs)
    ensures NoConflict(packs)
  {
    forall p, k, q, l | Positions(packs, p, k, q, l) && Conflict(p.rules[k], q.rules[l])
      ensures p == q && k == l
    {
      var i :| 0 <= i < |packs| && packs[i] == p;
      var j :| 0 <= j < |packs| && packs[j] == q;
      SignaturesCollide(p.rules[k], q.rules[l]);
      SignatureAt(packs, i, k);
      SignatureAt(packs, j, l);
      if i < j { OffsetMonotone(packs, i + 1, j); }
      if j < i { OffsetMonotone(packs, j + 1, i); }
    }
  }

  lemma NoConflictIsDistinct(packs: seq<Pack>)
    requires NoConflict(packs) && DistinctIds(packs)
    ensures Distinct(AllSignatures(packs))
  {
    forall a, b | 0 <= a < b < |AllSignatures(packs)|
      ensures AllSignatures(packs)[a] != AllSignatures(packs)[b]
    {
      DifferentSignatures(packs, a, b);
    }
  }

  lemma DifferentSignatures(packs: seq<Pack>, a: nat, b: nat)
    requires NoConflict(packs) && DistinctIds(packs) && a < b < |AllSignatures(packs)|
    ensures AllSignatures(packs)[a] != AllSignatures(packs)[b]
  {
    var i, k, j, l := RulesAt(packs, a, b);
    if Conflict(packs[i].rules[k], packs[j].rules[l]) { SamePlace(packs, i, k, j, l); }
  }

  lemma RulesAt(packs: seq<Pack>, a: nat, b: nat) returns (i: nat, k: nat, j: nat, l: nat)
    requires a < b < |AllSignatures(packs)|
    ensures i < |packs| && k < |packs[i].rules| && j < |packs| && l < |packs[j].rules| && (i != j || k != l)
    ensures AllSignatures(packs)[a] == AllSignatures(packs)[b] <==> Conflict(packs[i].rules[k], packs[j].rules[l])
  {
    i, k := RuleAt(packs, a);
    j, l := RuleAt(packs, b);
    SignatureAt(packs, i, k);
    SignatureAt(packs, j, l);
    SignaturesCollide(packs[i].rules[k], packs[j].rules[l]);
  }

  lemma SamePlace(packs: seq<Pack>, i: nat, k: nat, j: nat, l: nat)
    requires NoConflict(packs) && DistinctIds(packs)
    requires i < |packs| && k < |packs[i].rules| && j < |packs| && l < |packs[j].rules|
    requires Conflict(packs[i].rules[k], packs[j].rules[l])
    ensures i == j && k == l
  {
    assert Positions(packs, packs[i], k, packs[j], l);
  }

  // ---------------------------------------------------------------------- resolution

  /** Reordering keeps ids distinct. */
  lemma DistinctInAnyOrder(packs: seq<Pack>, all: seq<Pack>, i: nat, j: nat)
    requires multiset(packs) == multiset(all) && DistinctIds(packs) && i < j < |all|
    ensures all[i].id != all[j].id
  {
    assert all[i] in multiset(packs) && all[j] in multiset(packs);
    var k :| 0 <= k < |packs| && packs[k] == all[i];
    var l :| 0 <= l < |packs| && packs[l] == all[j];
    if all[i].id == all[j].id {
      assert k == l;
      TwiceInAll(all, i, j);
      OnceIn(packs, k);
      assert false;
    }
  }

  lemma TwiceInAll(all: seq<Pack>, i: nat, j: nat)
    requires i < j < |all| && all[i] == all[j]
    ensures multiset(all)[all[i]] >= 2
  {
    assert all == all[..j] + all[j..];
    assert all[..j][i] == all[i] && all[j..][0] == all[i];
    assert all[i] in all[..j] && all[i] in all[j..];
  }

  lemma OnceIn(packs: seq<Pack>, k: nat)
    requires DistinctIds(packs) && k < |packs|
    ensures multiset(packs)[packs[k]] == 1
  {
    assert packs == packs[..k] + [packs[k]] + packs[k + 1..];
    assert packs[k] !in packs[..k] && packs[k] !in packs[k + 1..];
  }

  /** For every order of the packs, `Resolve` succeeds if and only if ids are distinct, every pack compiles
      and no two rules conflict. */
  lemma ResolvesExactlyWhen(compiles: Compiler, packs: seq<Pack>, r: Option<seq<Pack>>)
    requires Outcome(packs, compiles, r)
    ensures r.Some? <==> DistinctIds(packs) && (forall p :: p in packs ==> compiles(p)) && NoConflict(packs)
  {
    var ordered :| SortedCopy(ordered, packs) && r == if Resolvable(ordered, compiles) then Some(ordered) else None;
    SameMembers(ordered, packs);
    if DistinctIds(ordered) { DistinctStays(ordered, packs); }
    if DistinctIds(packs) { DistinctStays(packs, ordered); }
    if DistinctIds(ordered) { DistinctIsNoConflict(ordered); }
    ConflictsAlike(ordered, packs);
  }

  lemma DistinctIsNoConflict(packs: seq<Pack>)
    requires DistinctIds(packs)
    ensures Distinct(AllSignatures(packs)) <==> NoConflict(packs)
  {
    if Distinct(AllSignatures(packs)) { ConflictSpoils(packs); }
    if NoConflict(packs) { NoConflictIsDistinct(packs); }
  }

  lemma ConflictsAlike(a: seq<Pack>, b: seq<Pack>)
    requires forall p :: p in a <==> p in b
    ensures NoConflict(a) <==> NoConflict(b)
  {
    assert forall p, k, q, l :: Positions(a, p, k, q, l) <==> Positions(b, p, k, q, l);
  }

  lemma SameMembers(a: seq<Pack>, b: seq<Pack>)
    requires multiset(a) == multiset(b)
    ensures forall p :: p in a <==> p in b
  {
    assert forall p :: (p in a <==> p in multiset(a)) && (p in b <==> p in multiset(b));
  }

  lemma DistinctStays(a: seq<Pack>, b: seq<Pack>)
    requires multiset(a) == multiset(b) && DistinctIds(a)
    ensures DistinctIds(b)
  {
    forall i, j | 0 <= i < j < |b|
      ensures b[i].id != b[j].id
    {
      DistinctInAnyOrder(a, b, i, j);
    }
  }

  /** Without NULs in commands only a shared command and pattern conflicts. */
  lemma ConflictIsSharing(packs: seq<Pack>)
    requires forall p, k :: p in packs && 0 <= k < |p.rules| ==> '\0' !in p.rules[k].command
    ensures NoConflict(packs) <==> NothingShared(packs)
  {
    forall p, k, q, l | Positions(packs, p, k, q, l)
      ensures Conflict(p.rules[k], q.rules[l]) <==> SameMatcher(p.rules[k], q.rules[l])
    {
      NoNulNoShift(p.rules[k], q.rules[l]);
      NoNulNoShift(q.rules[l], p.rules[k]);
    }
  }

  // ------------------------------------------------------------------------- an example

  const LEFT := Rule("left", "a\0b", "c", "d", false, "why", High, "risk")
  const RIGHT := Rule("right", "a", "b\0c", "d", false, "why", High, "risk")

  function One(version: string): Pack { Pack(1, "one", version, "acme", "", [], [LEFT]) }

  function Two(version: string): Pack { Pack(1, "two", version, "acme", "", [], [RIGHT]) }

  /** The regular-expression library takes both patterns, and lower-case letters are no control characters. */
  predicate Usual(lib: Library) {
    && lib.captures("c").Some? && lib.captures("b\0c").Some?
    && (forall c :: 'a' <= c <= 'z' ==> !lib.control(c) && !lib.bidi(c))
    && lib.size("why") <= 512 && lib.size("risk") <= 512
  }

  lemma {:induction false} LettersAreWellFormed(t: string, captures: nat)
    requires Letters(t)
    ensures WellFormed(t, captures)
    decreases |t|
  {
    if t != "" { LettersAreWellFormed(t[1..], captures); }
  }

  predicate Letters(t: string) { forall i :: 0 <= i < |t| ==> 'a' <= t[i] <= 'z' }

  /** A word of lower-case letters will do anywhere in a pack. */
  lemma LettersWillDo(lib: Library, t: string, captures: nat)
    requires Usual(lib) && Letters(t) && t != ""
    ensures Kebab(t) && SafeTemplate(lib, t) && WellFormed(t, captures)
    ensures lib.size(t) <= 512 ==> Explains(lib, t, captures)
  {
    LettersAreWellFormed(t, captures);
    forall i | 0 <= i < |t|
      ensures !UnsafeInTemplate(t[i])
    {
      assert 'a' <= t[i] <= 'z';
    }
  }

  lemma ExampleRule(lib: Library, rule: Rule)
    requires Usual(lib) && rule.command != "" && rule.pattern != "" && lib.captures(rule.pattern).Some?
    requires rule.id != "" && Letters(rule.id) && rule.replacement == "d" && rule.cause == "why"
    requires rule.rationale == "risk"
    requires rule.preserveTail ==> rule.risk == High
    ensures ValidRule(lib, rule)
  {
    var captures := lib.captures(rule.pattern).value;
    LettersWillDo(lib, rule.id, 0);
    LettersWillDo(lib, rule.replacement, captures);
    LettersWillDo(lib, rule.cause, captures);
    LettersWillDo(lib, rule.rationale, 0);
  }

  lemma ExamplePack(lib: Library, p: Pack)
    requires Usual(lib) && p.schema == 1 && p.minEngine == "" && p.capabilities == [] && Semantic(p.version)
    requires p.id != "" && Letters(p.id) && p.publisher != "" && Letters(p.publisher)
    requires |p.rules| == 1 && ValidRule(lib, p.rules[0])
    ensures Compiles(lib, p)
  {
    LettersWillDo(lib, p.id, 0);
    LettersWillDo(lib, p.publisher, 0);
  }

  lemma NulShifts()
    ensures !SameMatcher(LEFT, RIGHT) && Conflict(LEFT, RIGHT)
  {
    assert |LEFT.command| != |RIGHT.command|;
    assert Shifted(RIGHT, LEFT);
  }

  function Accepting(lib: Library): Compiler { (pack: Pack) => Compiles(lib, pack) }

  lemma OneCompiles(lib: Library, version: string)
    requires Usual(lib) && Semantic(version)
    ensures Compiles(lib, One(version))
  {
    ExampleRule(lib, LEFT);
    ExamplePack(lib, One(version));
  }

  lemma TwoCompiles(lib: Library, version: string)
    requires Usual(lib) && Semantic(version)
    ensures Compiles(lib, Two(version))
  {
    ExampleRule(lib, RIGHT);
    ExamplePack(lib, Two(version));
  }

  /** Two valid packs that share no command and pattern, and that `Resolve` refuses all the same. */
  lemma ValidPacksRefused(lib: Library, version: string, r: Option<seq<Pack>>)
    requires Usual(lib) && Semantic(version) && Outcome([One(version), Two(version)], Accepting(lib), r)
    ensures Compiles(lib, One(version)) && Compiles(lib, Two(version))
    ensures DistinctIds([One(version), Two(version)]) && NothingShared([One(version), Two(version)]) && r == None
  {
    OneCompiles(lib, version);
    TwoCompiles(lib, version);
    NulShifts();
    RefusedForConflict([One(version), Two(version)], version, Accepting(lib), r);
  }

  lemma RefusedForConflict(packs: seq<Pack>, version: string, compiles: Compiler, r: Option<seq<Pack>>)
    requires packs == [One(version), Two(version)] && Outcome(packs, compiles, r)
    requires !SameMatcher(LEFT, RIGHT) && Conflict(LEFT, RIGHT)
    ensures DistinctIds(packs) && NothingShared(packs) && r == None
  {
    assert packs[0].id[0] != packs[1].id[0];
    assert Positions(packs, packs[0], 0, packs[1], 0);
    ResolvesExactlyWhen(compiles, packs, r);
  }
}

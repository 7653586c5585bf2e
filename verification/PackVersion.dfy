/** Version comparison for pack compatibility. */
module PackVersion {
  import opened Numerals
  import opened TextOrder

  const MAX_INT: int := 0x7fff_ffff_ffff_ffff
  const MIN_INT: int := -0x8000_0000_0000_0000

  // ------------------------------------------------------------------ library functions

  /** strings.Cut at the first `sep`; the second part is empty when there is none. */
  function Cut(s: string, sep: char): (string, string) {
    if s == "" then ("", "")
    else if s[0] == sep then ("", s[1..])
    else
      var (before, after) := Cut(s[1..], sep);
      ([s[0]] + before, after)
  }

  /** strings.Split on a one-character separator. */
  function Split(s: string, sep: char): (parts: seq<string>)
    ensures parts != []
  {
    if s == "" then [""]
    else
      var rest := Split(s[1..], sep);
      if s[0] == sep then [""] + rest else [[s[0]] + rest[0]] + rest[1..]
  }

  /** strconv.Atoi on 64 bits: a number out of range gives the nearest bound and an error. */
  datatype Parsed = Parsed(value: int, ok: bool)

  function Clamp(n: int): Parsed {
    if n > MAX_INT then Parsed(MAX_INT, false) else if n < MIN_INT then Parsed(MIN_INT, false) else Parsed(n, true)
  }

  function Atoi(s: string): Parsed {
    if s == "" then Parsed(0, false)
    else if s[0] == '-' || s[0] == '+' then
      if |s| == 1 || !AllDigits(s[1..]) then Parsed(0, false)
      else
        var n: int := Number(s[1..]);
        Clamp(if s[0] == '-' then -n else n)
    else if AllDigits(s) then Clamp(Number(s))
    else Parsed(0, false)
  }

  // -------------------------------------------------------------------- the comparison

  function Sign(l: int, r: int): int { if l < r then -1 else if l > r then 1 else 0 }

  /** One turn of the loop in `comparePrerelease`; 0 means: go on. */
  function CompareIdentifiers(left: string, right: string): int {
    var l, r := Atoi(left), Atoi(right);
    if l.ok && r.ok then Sign(l.value, r.value)
    else if l.ok then -1
    else if r.ok then 1
    else Sign(l.value, r.value)
  }

  function CompareLists(ls: seq<string>, rs: seq<string>): int {
    if ls == [] || rs == [] then Sign(|ls|, |rs|)
    else if CompareIdentifiers(ls[0], rs[0]) != 0 then CompareIdentifiers(ls[0], rs[0])
    else CompareLists(ls[1..], rs[1..])
  }

  function ComparePrerelease(left: string, right: string): int {
    if left == "" && right != "" then 1
    else if left != "" && right == "" then -1
    else CompareLists(Split(left, '.'), Split(right, '.'))
  }

  function SplitVersion(v: string): (string, string) { Cut(Cut(v, '+').0, '-') }

  /** The loop over the core's parts; parse errors are ignored. */
  function CompareCore(ls: seq<string>, rs: seq<string>): int
    requires |ls| == |rs|
  {
    if ls == [] then 0
    else
      var c := Sign(Atoi(ls[0]).value, Atoi(rs[0]).value);
      if c != 0 then c else CompareCore(ls[1..], rs[1..])
  }

  function Core(v: string): seq<string> { Split(SplitVersion(v).0, '.') }

  /** What the comparison needs of a semantic version: a core of three parts. */
  predicate HasCore(v: string) { |Core(v)| == 3 }

  function CompareVersion(left: string, right: string): int
    requires HasCore(left) && HasCore(right)
  {
    var core := CompareCore(Core(left), Core(right));
    if core != 0 then core else ComparePrerelease(SplitVersion(left).1, SplitVersion(right).1)
  }

  // --------------------------------------------------------------------- a total preorder

  lemma {:induction false} ListsAntisymmetric(a: seq<string>, b: seq<string>)
    ensures CompareLists(a, b) == -CompareLists(b, a) && -1 <= CompareLists(a, b) <= 1
    decreases |a|
  {
    if a != [] && b != [] { ListsAntisymmetric(a[1..], b[1..]); }
  }

  lemma {:induction false} CoreAntisymmetric(a: seq<string>, b: seq<string>)
    requires |a| == |b|
    ensures CompareCore(a, b) == -CompareCore(b, a) && -1 <= CompareCore(a, b) <= 1
    decreases |a|
  {
    if a != [] { CoreAntisymmetric(a[1..], b[1..]); }
  }

  /** Identifiers are ranked by whether they parse, then by value. */
  lemma IdentifiersTransitive(a: string, b: string, c: string)
    requires CompareIdentifiers(a, b) <= 0 && CompareIdentifiers(b, c) <= 0
    ensures CompareIdentifiers(a, c) <= 0
    ensures CompareIdentifiers(a, c) == 0 <==> CompareIdentifiers(a, b) == 0 && CompareIdentifiers(b, c) == 0
  {
  }

  lemma {:induction false} ListsTransitive(a: seq<string>, b: seq<string>, c: seq<string>)
    requires CompareLists(a, b) <= 0 && CompareLists(b, c) <= 0
    ensures CompareLists(a, c) <= 0
    ensures CompareLists(a, c) == 0 <==> CompareLists(a, b) == 0 && CompareLists(b, c) == 0
    decreases |a|
  {
    if a != [] && b != [] && c != [] {
      IdentifiersTransitive(a[0], b[0], c[0]);
      if CompareIdentifiers(a[0], b[0]) == 0 && CompareIdentifiers(b[0], c[0]) == 0 {
        ListsTransitive(a[1..], b[1..], c[1..]);
      }
    }
  }

  lemma {:induction false} CoreTransitive(a: seq<string>, b: seq<string>, c: seq<string>)
    requires |a| == |b| == |c| && CompareCore(a, b) <= 0 && CompareCore(b, c) <= 0
    ensures CompareCore(a, c) <= 0
    ensures CompareCore(a, c) == 0 <==> CompareCore(a, b) == 0 && CompareCore(b, c) == 0
    decreases |a|
  {
    if a != [] && Atoi(a[0]).value == Atoi(b[0]).value == Atoi(c[0]).value { CoreTransitive(a[1..], b[1..], c[1..]); }
  }

  lemma PrereleaseTransitive(a: string, b: string, c: string)
    requires ComparePrerelease(a, b) <= 0 && ComparePrerelease(b, c) <= 0
    ensures ComparePrerelease(a, c) <= 0
  {
    if (a == "") == (b == "") == (c == "") { ListsTransitive(Split(a, '.'), Split(b, '.'), Split(c, '.')); }
  }

  /** On versions the comparison is a total preorder: its sign is antisymmetric and it is transitive. */
  lemma VersionsArePreordered(a: string, b: string, c: string)
    requires HasCore(a) && HasCore(b) && HasCore(c)
    ensures CompareVersion(a, b) == -CompareVersion(b, a) && -1 <= CompareVersion(a, b) <= 1
    ensures CompareVersion(a, b) <= 0 && CompareVersion(b, c) <= 0 ==> CompareVersion(a, c) <= 0
  {
    CoreAntisymmetric(Core(a), Core(b));
    ListsAntisymmetric(Split(SplitVersion(a).1, '.'), Split(SplitVersion(b).1, '.'));
    if CompareVersion(a, b) <= 0 && CompareVersion(b, c) <= 0 {
      CoreTransitive(Core(a), Core(b), Core(c));
      if CompareCore(Core(a), Core(b)) == 0 && CompareCore(Core(b), Core(c)) == 0 {
        PrereleaseTransitive(SplitVersion(a).1, SplitVersion(b).1, SplitVersion(c).1);
      }
    }
  }

  lemma {:induction false} CutIgnoresRest(s: string, sep: char, rest: string)
    requires sep !in s
    ensures Cut(s + [sep] + rest, sep) == (s, rest) && Cut(s, sep) == (s, "")
    decreases |s|
  {
    var whole := s + [sep] + rest;
    if s == "" {
      assert whole[1..] == rest;
    } else {
      assert whole[1..] == s[1..] + [sep] + rest;
      CutIgnoresRest(s[1..], sep, rest);
      assert [s[0]] + s[1..] == s;
    }
  }

  /** Build metadata is ignored. */
  lemma BuildMetadataIgnored(version: string, build: string, other: string)
    requires '+' !in version && HasCore(version) && HasCore(other)
    ensures HasCore(version + "+" + build)
    ensures CompareVersion(version + "+" + build, other) == CompareVersion(version, other)
  {
    CutIgnoresRest(version, '+', build);
    assert version + "+" + build == version + ['+'] + build;
  }

  // ---------------------------------------------------------- valid semantic versions

  predicate IsNumeral(s: string) { s != "" && AllDigits(s) }

  /** A numeral without leading zeros. */
  predicate Canonical(s: string) { IsNumeral(s) && (s[0] == '0' ==> |s| == 1) }

  predicate IdentifierChar(c: char) { IsDigit(c) || 'a' <= c <= 'z' || 'A' <= c <= 'Z' || c == '-' }

  predicate BuildIdentifier(s: string) { s != "" && forall i :: 0 <= i < |s| ==> IdentifierChar(s[i]) }

  predicate PrereleaseIdentifier(s: string) { BuildIdentifier(s) && (AllDigits(s) ==> Canonical(s)) }

  function Prerelease(v: string): seq<string> { if SplitVersion(v).1 == "" then [] else Split(SplitVersion(v).1, '.') }

  /** What `semanticVersionPattern` matches. */
  predicate Semantic(v: string) {
    var (main, build) := Cut(v, '+');
    && |Core(v)| == 3 && (forall i :: 0 <= i < 3 ==> Canonical(Core(v)[i]))
    && ('-' in main ==>
          Prerelease(v) != [] && forall i :: 0 <= i < |Prerelease(v)| ==> PrereleaseIdentifier(Prerelease(v)[i]))
    && ('+' in v ==> forall i :: 0 <= i < |Split(build, '.')| ==> BuildIdentifier(Split(build, '.')[i]))
  }

  // -------------------------------------------------------- Semantic Versioning, section 11

  /** Section 11 of Semantic Versioning 2.0.0 on two identifiers. */
  function Precedence(l: string, r: string): int {
    if IsNumeral(l) && IsNumeral(r) then Sign(Number(l), Number(r))
    else if IsNumeral(l) then -1
    else if IsNumeral(r) then 1
    else if l == r then 0
    else if TextLess(l, r) then -1
    else 1
  }

  function ListPrecedence(ls: seq<string>, rs: seq<string>): int {
    if ls == [] || rs == [] then Sign(|ls|, |rs|)
    else if Precedence(ls[0], rs[0]) != 0 then Precedence(ls[0], rs[0])
    else ListPrecedence(ls[1..], rs[1..])
  }

  predicate AllNumerals(parts: seq<string>) { forall i :: 0 <= i < |parts| ==> IsNumeral(parts[i]) }

  function CorePrecedence(ls: seq<string>, rs: seq<string>): int
    requires |ls| == |rs| && AllNumerals(ls) && AllNumerals(rs)
  {
    if ls == [] then 0
    else if Number(ls[0]) != Number(rs[0]) then Sign(Number(ls[0]), Number(rs[0]))
    else CorePrecedence(ls[1..], rs[1..])
  }

  function PrereleasePrecedence(l: seq<string>, r: seq<string>): int {
    if l == [] || r == [] then Sign(if l == [] then 1 else 0, if r == [] then 1 else 0) else ListPrecedence(l, r)
  }

  /** Section 11 on whole versions: the core numerically, then a release after its prereleases, then the
      prereleases identifier by identifier. */
  function VersionPrecedence(left: string, right: string): int
    requires Semantic(left) && Semantic(right)
  {
    var core := CorePrecedence(Core(left), Core(right));
    if core != 0 then core else PrereleasePrecedence(Prerelease(left), Prerelease(right))
  }

  // -------------------------------------------------- when the code decides like section 11

  /** Both fit no machine number. */
  predicate Huge(l: string, r: string)
    requires IsNumeral(l) && IsNumeral(r)
  {
    Number(l) > MAX_INT && Number(r) > MAX_INT
  }

  /** The code ranks words that parse as signed numbers first, by value. */
  predicate Lower(l: string, r: string) {
    (Atoi(l).ok && !Atoi(r).ok) || (Atoi(l).ok == Atoi(r).ok && Atoi(l).value < Atoi(r).value)
  }

  /** Numeral `n` is put before word `w`: it fits, and the word is no number at or below it. */
  predicate NumeralFirst(n: string, w: string)
    requires IsNumeral(n)
  {
    Number(n) <= MAX_INT && (!Atoi(w).ok || Number(n) < Atoi(w).value)
  }

  /** When the code orders two identifiers that section 11 tells apart in the same way. */
  predicate Judges(l: string, r: string) {
    if IsNumeral(l) && IsNumeral(r) then !Huge(l, r)
    else if IsNumeral(l) then NumeralFirst(l, r)
    else if IsNumeral(r) then NumeralFirst(r, l)
    else (Lower(l, r) && TextLess(l, r)) || (Lower(r, l) && TextLess(r, l))
  }

  lemma NumeralReads(s: string)
    requires IsNumeral(s)
    ensures Atoi(s) == if Number(s) <= MAX_INT then Parsed(Number(s), true) else Parsed(MAX_INT, false)
  {
    assert IsDigit(s[0]);
  }

  lemma AtoiInRange(s: string)
    ensures MIN_INT <= Atoi(s).value <= MAX_INT
  {
  }

  /** Where section 11 tells two identifiers apart, the code does so too exactly under `Judges`, and ties
      exactly when it reads the same number, or none, in both.  Where section 11 does not, the code ties. */
  lemma IdentifiersFollow(l: string, r: string)
    ensures Precedence(l, r) == 0 ==> CompareIdentifiers(l, r) == 0
    ensures Precedence(l, r) != 0 ==> (CompareIdentifiers(l, r) == Precedence(l, r) <==> Judges(l, r))
    ensures CompareIdentifiers(l, r) == 0 <==> Atoi(l) == Atoi(r)
  {
    AtoiInRange(l);
    AtoiInRange(r);
    if IsNumeral(l) { NumeralReads(l); }
    if IsNumeral(r) { NumeralReads(r); }
    TextLessTotal(l, r);
  }

  /** The first identifier in which the lists differ for section 11. */
  function FirstDifference(ls: seq<string>, rs: seq<string>): (n: nat)
    ensures n <= |ls| && n <= |rs|
  {
    if ls == [] || rs == [] || Precedence(ls[0], rs[0]) != 0 then 0 else 1 + FirstDifference(ls[1..], rs[1..])
  }

  /** The first difference is judged alike, or is a tie and the code happens to decide alike later. */
  predicate ListsFollow(ls: seq<string>, rs: seq<string>) {
    var n := FirstDifference(ls, rs);
    || n == |ls| || n == |rs| || Judges(ls[n], rs[n])
    || (Atoi(ls[n]) == Atoi(rs[n]) && CompareLists(ls[n + 1..], rs[n + 1..]) == Precedence(ls[n], rs[n]))
  }

  /** For all lists of identifiers the code agrees with section 11 if and only if `ListsFollow`. */
  lemma {:induction false} ListsFollowExactly(ls: seq<string>, rs: seq<string>)
    ensures CompareLists(ls, rs) == ListPrecedence(ls, rs) <==> ListsFollow(ls, rs)
    decreases |ls|
  {
    if ls != [] && rs != [] {
      IdentifiersFollow(ls[0], rs[0]);
      if Precedence(ls[0], rs[0]) == 0 {
        ListsFollowExactly(ls[1..], rs[1..]);
        var n := FirstDifference(ls[1..], rs[1..]);
        if n + 1 < |ls| && n + 1 < |rs| {
          assert ls[1..][n + 1..] == ls[n + 2..] && rs[1..][n + 1..] == rs[n + 2..];
        }
      }
    }
  }

  /** What the code makes of the core parts from `k` on, and then of the prereleases. */
  function CompareFrom(left: string, right: string, k: nat): int
    requires HasCore(left) && HasCore(right) && k <= 3
  {
    var core := CompareCore(Core(left)[k..], Core(right)[k..]);
    if core != 0 then core else ComparePrerelease(SplitVersion(left).1, SplitVersion(right).1)
  }

  predicate VersionsFollowFrom(left: string, right: string, k: nat)
    requires Semantic(left) && Semantic(right) && k <= 3
    decreases 3 - k
  {
    if k == 3 then Prerelease(left) == [] || Prerelease(right) == [] || ListsFollow(Prerelease(left), Prerelease(right))
    else
      var l, r := Core(left)[k], Core(right)[k];
      if Number(l) == Number(r) then VersionsFollowFrom(left, right, k + 1)
      else
        || Number(l) < MAX_INT || Number(r) < MAX_INT
        || CompareFrom(left, right, k + 1) == Sign(Number(l), Number(r))
  }

  /** The first difference of two versions: core parts must not both reach the largest 64-bit number,
      identifiers must be judged alike; or the code ties there and happens to decide alike later. */
  predicate VersionsFollow(left: string, right: string)
    requires Semantic(left) && Semantic(right)
  {
    VersionsFollowFrom(left, right, 0)
  }

  function PrecedenceFrom(left: string, right: string, k: nat): int
    requires Semantic(left) && Semantic(right) && k <= 3
  {
    var core := CorePrecedence(Core(left)[k..], Core(right)[k..]);
    if core != 0 then core else PrereleasePrecedence(Prerelease(left), Prerelease(right))
  }

  lemma PrereleasesFollow(left: string, right: string)
    ensures ComparePrerelease(SplitVersion(left).1, SplitVersion(right).1)
            == PrereleasePrecedence(Prerelease(left), Prerelease(right))
            <==> Prerelease(left) == [] || Prerelease(right) == [] || ListsFollow(Prerelease(left), Prerelease(right))
  {
    ListsFollowExactly(Prerelease(left), Prerelease(right));
    if Prerelease(left) == [] && Prerelease(right) == [] {
      assert CompareLists([""], [""]) == CompareLists([""][1..], [""][1..]);
    }
  }

  lemma {:induction false} FollowsFrom(left: string, right: string, k: nat)
    requires Semantic(left) && Semantic(right) && k <= 3
    ensures CompareFrom(left, right, k) == PrecedenceFrom(left, right, k) <==> VersionsFollowFrom(left, right, k)
    decreases 3 - k
  {
    if k == 3 {
      PrereleasesFollow(left, right);
    } else {
      CoreStep(left, right, k);
      FollowsFrom(left, right, k + 1);
    }
  }

  lemma CoreStep(left: string, right: string, k: nat)
    requires Semantic(left) && Semantic(right) && k < 3
    ensures var l, r := Number(Core(left)[k]), Number(Core(right)[k]);
            && CompareFrom(left, right, k) ==
               (if l == r || (l >= MAX_INT && r >= MAX_INT) then CompareFrom(left, right, k + 1) else Sign(l, r))
            && PrecedenceFrom(left, right, k) == if l == r then PrecedenceFrom(left, right, k + 1) else Sign(l, r)
  {
    var ls, rs := Core(left)[k..], Core(right)[k..];
    NumeralReads(ls[0]);
    NumeralReads(rs[0]);
    assert ls[1..] == Core(left)[k + 1..] && rs[1..] == Core(right)[k + 1..];
  }

  /** For all semantic versions the comparison agrees with section 11 if and only if `VersionsFollow`. */
  lemma VersionsFollowExactly(left: string, right: string)
    requires Semantic(left) && Semantic(right)
    ensures CompareVersion(left, right) == VersionPrecedence(left, right) <==> VersionsFollow(left, right)
  {
    assert Core(left)[0..] == Core(left) && Core(right)[0..] == Core(right);
    FollowsFrom(left, right, 0);
  }

  predicate InRange(parts: seq<string>) {
    forall i :: 0 <= i < |parts| ==> IsNumeral(parts[i]) && Number(parts[i]) <= MAX_INT
  }

  /** In particular with numeric prereleases, if all numbers fit. */
  lemma NumericVersionsFollow(left: string, right: string)
    requires Semantic(left) && Semantic(right) && InRange(Core(left)) && InRange(Core(right))
    requires InRange(Prerelease(left)) && InRange(Prerelease(right))
    ensures CompareVersion(left, right) == VersionPrecedence(left, right)
  {
    VersionsFollowExactly(left, right);
  }

  // ------------------------------------------------------------------------- examples

  lemma {:induction false} SplitOnce(a: string, sep: char, rest: string)
    requires sep !in a
    ensures Split(a, sep) == [a] && Split(a + [sep] + rest, sep) == [a] + Split(rest, sep)
    decreases |a|
  {
    var whole := a + [sep] + rest;
    if a == "" {
      assert whole[1..] == rest;
    } else {
      SplitOnce(a[1..], sep, rest);
      assert whole[1..] == a[1..] + [sep] + rest && [a[0]] + a[1..] == a;
    }
  }

  /** A version of release 1.0.0 with one prerelease identifier. */
  function Pre(id: string): string { "1.0.0" + ['-'] + id }

  lemma CoreOfRelease()
    ensures Split("1.0.0", '.') == ["1", "0", "0"] && Canonical("1") && Canonical("0")
  {
    assert "1.0.0" == "1" + ['.'] + "0.0" && "0.0" == "0" + ['.'] + "0";
    SplitOnce("1", '.', "0.0");
    SplitOnce("0", '.', "0");
    assert ["1"] + (["0"] + ["0"]) == ["1", "0", "0"];
  }

  lemma IdentifierIsWhole(id: string)
    requires PrereleaseIdentifier(id)
    ensures '.' !in id && '+' !in id && Split(id, '.') == [id]
  {
    SplitOnce(id, '.', "");
  }

  lemma OnePrerelease(id: string)
    requires PrereleaseIdentifier(id)
    ensures SplitVersion(Pre(id)) == ("1.0.0", id) && '+' !in Pre(id)
    ensures Semantic(Pre(id)) && Core(Pre(id)) == ["1", "0", "0"] && Prerelease(Pre(id)) == [id]
  {
    IdentifierIsWhole(id);
    CutIgnoresRest(Pre(id), '+', "");
    CutIgnoresRest("1.0.0", '-', id);
    CoreOfRelease();
  }

  lemma SingleIdentifiers(l: string, r: string)
    ensures CompareLists([l], [r]) == CompareIdentifiers(l, r) && ListPrecedence([l], [r]) == Precedence(l, r)
  {
    assert [l][1..] == [] && [r][1..] == [];
  }

  /** Two such versions compare as their identifiers do. */
  lemma SameCore(l: string, r: string)
    requires PrereleaseIdentifier(l) && PrereleaseIdentifier(r)
    ensures Semantic(Pre(l)) && Semantic(Pre(r))
    ensures CompareVersion(Pre(l), Pre(r)) == CompareIdentifiers(l, r)
    ensures VersionPrecedence(Pre(l), Pre(r)) == Precedence(l, r)
  {
    OnePrerelease(l);
    OnePrerelease(r);
    IdentifierIsWhole(l);
    IdentifierIsWhole(r);
    SameParts(Core(Pre(l)));
    SingleIdentifiers(l, r);
  }

  lemma {:induction false} SameParts(parts: seq<string>)
    requires AllNumerals(parts)
    ensures CompareCore(parts, parts) == 0 && CorePrecedence(parts, parts) == 0
    decreases |parts|
  {
    if parts != [] { SameParts(parts[1..]); }
  }

  lemma Alphabetic(word: string)
    requires word != "" && forall i :: 0 <= i < |word| ==> 'a' <= word[i] <= 'z'
    ensures PrereleaseIdentifier(word) && !IsNumeral(word) && Atoi(word) == Parsed(0, false)
  {
    assert !IsDigit(word[0]);
  }

  /** Two words tie, although section 11 puts alpha before beta. */
  lemma AlphaTiesWithBeta(v: string, w: string)
    requires v == "1.0.0-alpha" && w == "1.0.0-beta"
    ensures Semantic(v) && Semantic(w) && CompareVersion(v, w) == 0 && VersionPrecedence(v, w) == -1
  {
    Alphabetic("alpha");
    Alphabetic("beta");
    SameCore("alpha", "beta");
    assert v == Pre("alpha") && w == Pre("beta");
  }

  lemma MinusFive()
    ensures PrereleaseIdentifier("-5") && !IsNumeral("-5") && Atoi("-5") == Parsed(-5, true)
    ensures PrereleaseIdentifier("1") && IsNumeral("1") && Atoi("1") == Parsed(1, true)
  {
    assert "-5"[1..] == "5" && Number("5") == 5 && Number("1") == 1;
    assert !IsDigit("-5"[0]);
  }

  /** A word that reads as a negative number goes before a numeral, although section 11 puts it after. */
  lemma MinusFiveGoesFirst(v: string, w: string)
    requires v == "1.0.0--5" && w == "1.0.0-1"
    ensures Semantic(v) && Semantic(w) && CompareVersion(v, w) == -1 && VersionPrecedence(v, w) == 1
  {
    MinusFive();
    SameCore("-5", "1");
    assert v == Pre("-5") && w == Pre("1");
  }
}

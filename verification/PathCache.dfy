/** The cache of executable names found on PATH.

    A lookup stats every directory, compares the signature with the cached
    one, and otherwise scans the directories and stores what it found under
    the signature taken before.  Lookups run concurrently, directories change
    at any time, and neither the signature nor the scan is atomic: every stat
    and every directory scan is a step of its own. */
module PathCache {
  import opened Numerals

  const MAX_DIRECTORIES: nat := 64

  datatype Stamp = Missing | Present(modified: int, size: int)

  /** A directory tree over time.  `listing` is what scanning a directory at an instant contributes:
      nothing when it cannot be read.  `split` is filepath.SplitList. */
  datatype Disk = Disk(
    stamp: (string, nat) -> Stamp,
    listing: (Query, string, nat) -> set<string>,
    split: string -> seq<string>)

  datatype Query = Query(platform: string, pathExt: string, path: string)

  /** The directories that both the signature and the scan cover. */
  function Dirs(disk: Disk, q: Query): seq<string> {
    var all := disk.split(q.path);
    if |all| > MAX_DIRECTORIES then all[..MAX_DIRECTORIES] else all
  }

  // --------------------------------------------------------------------------- text keys

  /** Splitting at the first separator is unambiguous. */
  lemma SplitUnique(sep: char, a: string, b: string, a': string, b': string)
    requires sep !in a && sep !in a' && a + [sep] + b == a' + [sep] + b'
    ensures a == a' && b == b'
  {
    var s := a + [sep] + b;
    assert s[|a|] == sep && s[|a'|] == sep;
    assert s[..|a|] == a && s[|a| + 1..] == b;
    assert |a| == |a'| ==> s[..|a|] == a' && s[|a| + 1..] == b';
  }

  function CacheKey(q: Query): string { q.platform + "\0" + q.pathExt + "\0" + q.path }

  predicate ValidQuery(q: Query) { '\0' !in q.platform && '\0' !in q.pathExt }

  lemma CacheKeyInjective(q: Query, q': Query)
    requires ValidQuery(q) && ValidQuery(q') && CacheKey(q) == CacheKey(q')
    ensures q == q'
  {
    assert CacheKey(q) == q.platform + ['\0'] + (q.pathExt + ['\0'] + q.path);
    assert CacheKey(q') == q'.platform + ['\0'] + (q'.pathExt + ['\0'] + q'.path);
    SplitUnique('\0', q.platform, q.pathExt + ['\0'] + q.path, q'.platform, q'.pathExt + ['\0'] + q'.path);
    SplitUnique('\0', q.pathExt, q.path, q'.pathExt, q'.path);
  }

  /** strconv.FormatInt in base ten. */
  function FormatInt(n: int): string { if n < 0 then "-" + Decimal(-n) else Decimal(n) }

  lemma FormatIntText(n: int)
    ensures '\0' !in FormatInt(n) && ':' !in FormatInt(n) && FormatInt(n) != ""
    ensures FormatInt(n)[0] == '-' <==> n < 0
    ensures FormatInt(n)[0] == '-' || IsDigit(FormatInt(n)[0])
  {
    var digits := Decimal(if n < 0 then -n else n);
    DecimalReadsBack(if n < 0 then -n else n);
    assert IsDigit(digits[0]);
    forall c | c in digits
      ensures IsDigit(c)
    {
      var i :| 0 <= i < |digits| && digits[i] == c;
    }
  }

  lemma FormatIntInjective(n: int, m: int)
    ensures FormatInt(n) == FormatInt(m) ==> n == m
  {
    FormatIntText(n);
    FormatIntText(m);
    DecimalReadsBack(if n < 0 then -n else n);
    DecimalReadsBack(if m < 0 then -m else m);
    assert n < 0 ==> FormatInt(n)[1..] == Decimal(-n);
    assert m < 0 ==> FormatInt(m)[1..] == Decimal(-m);
  }

  function StampText(s: Stamp): string {
    match s
    case Missing => "missing"
    case Present(modified, size) => FormatInt(modified) + ":" + FormatInt(size)
  }

  lemma StampTextShape(s: Stamp)
    ensures '\0' !in StampText(s) && StampText(s) != ""
    ensures StampText(s)[0] == 'm' <==> s.Missing?
  {
    if s.Present? {
      FormatIntText(s.modified);
      FormatIntText(s.size);
    }
  }

  lemma StampTextInjective(s: Stamp, t: Stamp)
    ensures StampText(s) == StampText(t) ==> s == t
  {
    StampTextShape(s);
    StampTextShape(t);
    if s.Present? && t.Present? && StampText(s) == StampText(t) {
      FormatIntText(s.modified);
      FormatIntText(t.modified);
      SplitUnique(':', FormatInt(s.modified), FormatInt(s.size), FormatInt(t.modified), FormatInt(t.size));
      FormatIntInjective(s.modified, t.modified);
      FormatIntInjective(s.size, t.size);
    }
  }

  /** `pathSignature` over the directories covered and their stamps. */
  function Signature(dirs: seq<string>, stamps: seq<Stamp>): string
    requires |dirs| == |stamps|
  {
    if dirs == [] then "" else dirs[0] + ":" + StampText(stamps[0]) + "\0" + Signature(dirs[1..], stamps[1..])
  }

  lemma SegmentSplit(head: string, text: string, rest: string, text': string, rest': string)
    requires '\0' !in text && '\0' !in text'
    requires head + text + "\0" + rest == head + text' + "\0" + rest'
    ensures text == text' && rest == rest'
  {
    var body, body' := text + ['\0'] + rest, text' + ['\0'] + rest';
    assert head + text + "\0" + rest == head + body && head + text' + "\0" + rest' == head + body';
    assert (head + body)[|head|..] == body && (head + body')[|head|..] == body';
    SplitUnique('\0', text, rest, text', rest');
  }

  /** For the same directories, equal signatures mean equal stamps. */
  lemma {:induction false} SignatureInjective(dirs: seq<string>, s: seq<Stamp>, t: seq<Stamp>)
    requires |dirs| == |s| == |t| && Signature(dirs, s) == Signature(dirs, t)
    ensures s == t
    decreases |dirs|
  {
    if dirs != [] {
      StampTextShape(s[0]);
      StampTextShape(t[0]);
      SegmentSplit(dirs[0] + ":", StampText(s[0]), Signature(dirs[1..], s[1..]), StampText(t[0]),
                   Signature(dirs[1..], t[1..]));
      StampTextInjective(s[0], t[0]);
      SignatureInjective(dirs[1..], s[1..], t[1..]);
      assert s == [s[0]] + s[1..] && t == [t[0]] + t[1..];
    }
  }

  // ------------------------------------------------------------------------------ lookups

  datatype Entry = Entry(signature: string, names: set<string>)

  /** A lookup in progress.  `stamps` and `statTimes` grow during the signature, `names` and
      `scanTimes` during the scan; the times are observations for the proofs. */
  datatype Lookup =
    | Signing(query: Query, start: nat, stamps: seq<Stamp>, statTimes: seq<nat>)
    | Scanning(query: Query, start: nat, stamps: seq<Stamp>, statTimes: seq<nat>, names: set<string>,
               scanTimes: seq<nat>)
    | Returned(query: Query, start: nat, names: set<string>, end: nat)

  datatype State = State(now: nat, entries: map<string, Entry>, lookups: map<nat, Lookup>)

  const INITIAL := State(0, map[], map[])

  datatype Action =
    | Advance(now: nat)
    | Begin(id: nat, query: Query)
    | Stat(id: nat)
    | Check(id: nat)
    | Scan(id: nat)
    | Put(id: nat)
    | Invalidate

  predicate Enabled(disk: Disk, s: State, a: Action) {
    match a
    case Advance(now) => s.now <= now
    case Begin(id, query) => id !in s.lookups && ValidQuery(query)
    case Stat(id) =>
      && id in s.lookups && s.lookups[id].Signing?
      && |s.lookups[id].stamps| < |Dirs(disk, s.lookups[id].query)|
    case Check(id) =>
      && id in s.lookups && s.lookups[id].Signing?
      && |s.lookups[id].stamps| == |Dirs(disk, s.lookups[id].query)|
    case Scan(id) =>
      && id in s.lookups && s.lookups[id].Scanning?
      && |s.lookups[id].scanTimes| < |Dirs(disk, s.lookups[id].query)|
    case Put(id) =>
      && id in s.lookups && s.lookups[id].Scanning? && |s.lookups[id].scanTimes| == |Dirs(disk, s.lookups[id].query)|
      && |s.lookups[id].stamps| == |Dirs(disk, s.lookups[id].query)|
    case Invalidate => true
  }

  function Perform(disk: Disk, s: State, a: Action): State
    requires Enabled(disk, s, a)
  {
    match a
    case Advance(now) => s.(now := now)
    case Begin(id, query) => s.(lookups := s.lookups[id := Signing(query, s.now, [], [])])
    case Stat(id) =>
      var l := s.lookups[id];
      var dir := Dirs(disk, l.query)[|l.stamps|];
      var next := Signing(l.query, l.start, l.stamps + [disk.stamp(dir, s.now)], l.statTimes + [s.now]);
      s.(lookups := s.lookups[id := next])
    case Check(id) =>
      var l := s.lookups[id];
      var key := CacheKey(l.query);
      if key in s.entries && s.entries[key].signature == Signature(Dirs(disk, l.query), l.stamps) then
        s.(lookups := s.lookups[id := Returned(l.query, l.start, s.entries[key].names, s.now)])
      else
        s.(lookups := s.lookups[id := Scanning(l.query, l.start, l.stamps, l.statTimes, {}, [])])
    case Scan(id) =>
      var l := s.lookups[id];
      var dir := Dirs(disk, l.query)[|l.scanTimes|];
      var next := l.(names := l.names + disk.listing(l.query, dir, s.now), scanTimes := l.scanTimes + [s.now]);
      s.(lookups := s.lookups[id := next])
    case Put(id) =>
      var l := s.lookups[id];
      var signature := Signature(Dirs(disk, l.query), l.stamps);
      s.(entries := s.entries[CacheKey(l.query) := Entry(signature, l.names)],
         lookups := s.lookups[id := Returned(l.query, l.start, l.names, s.now)])
    case Invalidate => s.(entries := map[])
  }

  ghost predicate IsRun(disk: Disk, actions: seq<Action>)
    decreases |actions|, 0
  {
    || actions == []
    || (IsRun(disk, actions[..|actions| - 1])
        && Enabled(disk, Reached(disk, actions[..|actions| - 1]), actions[|actions| - 1]))
  }

  ghost function Reached(disk: Disk, actions: seq<Action>): State
    requires IsRun(disk, actions)
    decreases |actions|, 1
  {
    if actions == [] then INITIAL else Perform(disk, Reached(disk, actions[..|actions| - 1]), actions[|actions| - 1])
  }

  // ------------------------------------------------------------------------ what is promised

  /** The names contributed by the directories, each listed at its own instant. */
  function Gathered(disk: Disk, q: Query, dirs: seq<string>, times: seq<nat>): set<string>
    requires |dirs| == |times|
  {
    if dirs == [] then {}
    else
      Gathered(disk, q, dirs[..|dirs| - 1], times[..|times| - 1])
      + disk.listing(q, dirs[|dirs| - 1], times[|times| - 1])
  }

  ghost predicate Within(times: seq<nat>, lo: nat, hi: nat) { forall i :: 0 <= i < |times| ==> lo <= times[i] <= hi }

  ghost predicate Gathers(disk: Disk, q: Query, times: seq<nat>, lo: nat, hi: nat, names: set<string>) {
    && |times| == |Dirs(disk, q)| && Within(times, lo, hi) && names == Gathered(disk, q, Dirs(disk, q), times)
  }

  /** Every directory's names are those it held at some instant during the lookup. */
  ghost predicate Current(disk: Disk, l: Lookup)
    requires l.Returned?
  {
    exists times :: Gathers(disk, l.query, times, l.start, l.end, l.names)
  }

  /** Stamps never come back with other contents in between. */
  ghost predicate StampsTell(disk: Disk) {
    forall q, dir, t1, t2, t3 :: t1 <= t2 <= t3 && disk.stamp(dir, t1) == disk.stamp(dir, t3)
      ==> disk.listing(q, dir, t2) == disk.listing(q, dir, t3)
  }

  // ------------------------------------------------------------------------------ invariant

  ghost predicate StampedAt(disk: Disk, q: Query, stamps: seq<Stamp>, times: seq<nat>) {
    && |stamps| == |times| <= |Dirs(disk, q)|
    && forall i :: 0 <= i < |stamps| ==> stamps[i] == disk.stamp(Dirs(disk, q)[i], times[i])
  }

  /** Each directory was stamped no later than it was scanned. */
  ghost predicate NoLater(early: seq<nat>, late: seq<nat>) {
    |late| <= |early| && forall i :: 0 <= i < |late| ==> early[i] <= late[i]
  }

  ghost predicate GoodEntry(disk: Disk, now: nat, q: Query, e: Entry, stamps: seq<Stamp>, statTimes: seq<nat>,
                            scanTimes: seq<nat>)
  {
    && |stamps| == |statTimes| == |scanTimes| == |Dirs(disk, q)|
    && e.signature == Signature(Dirs(disk, q), stamps)
    && StampedAt(disk, q, stamps, statTimes) && NoLater(statTimes, scanTimes)
    && Gathers(disk, q, scanTimes, 0, now, e.names)
  }

  ghost predicate EntryHolds(disk: Disk, now: nat, key: string, e: Entry) {
    exists q, stamps, statTimes, scanTimes ::
      ValidQuery(q) && key == CacheKey(q) && GoodEntry(disk, now, q, e, stamps, statTimes, scanTimes)
  }

  ghost predicate LookupHolds(disk: Disk, now: nat, l: Lookup) {
    && l.start <= now
    && match l
       case Signing(q, start, stamps, statTimes) =>
         ValidQuery(q) && StampedAt(disk, q, stamps, statTimes) && Within(statTimes, start, now)
       case Scanning(q, start, stamps, statTimes, names, scanTimes) =>
         && ValidQuery(q) && StampedAt(disk, q, stamps, statTimes) && Within(statTimes, start, now)
         && |stamps| == |Dirs(disk, q)| && |scanTimes| <= |Dirs(disk, q)|
         && NoLater(statTimes, scanTimes) && Within(scanTimes, start, now)
         && names == Gathered(disk, q, Dirs(disk, q)[..|scanTimes|], scanTimes)
       case Returned(_, _, _, end) => end <= now && Current(disk, l)
  }

  ghost predicate Inv(disk: Disk, s: State) {
    && (forall key :: key in s.entries ==> EntryHolds(disk, s.now, key, s.entries[key]))
    && (forall id :: id in s.lookups ==> LookupHolds(disk, s.now, s.lookups[id]))
  }

  lemma LookupLater(disk: Disk, now: nat, later: nat, l: Lookup)
    requires now <= later && LookupHolds(disk, now, l)
    ensures LookupHolds(disk, later, l)
  {
  }

  lemma EntryLater(disk: Disk, now: nat, later: nat, key: string, e: Entry)
    requires now <= later && EntryHolds(disk, now, key, e)
    ensures EntryHolds(disk, later, key, e)
  {
    var q, stamps, statTimes, scanTimes :|
      ValidQuery(q) && key == CacheKey(q) && GoodEntry(disk, now, q, e, stamps, statTimes, scanTimes);
    assert GoodEntry(disk, later, q, e, stamps, statTimes, scanTimes);
  }

  /** The heart of the matter: the stamp seen now equals the one taken before the entry's scan, so
      either the scan lies between the two stamps and nothing changed, or it is later than the stamp
      of this lookup and so lies within it. */
  lemma HitIsCurrent(disk: Disk, now: nat, q: Query, start: nat, stamps: seq<Stamp>, times: seq<nat>, e: Entry)
    requires StampsTell(disk) && ValidQuery(q) && start <= now
    requires StampedAt(disk, q, stamps, times) && Within(times, start, now) && |stamps| == |Dirs(disk, q)|
    requires EntryHolds(disk, now, CacheKey(q), e) && e.signature == Signature(Dirs(disk, q), stamps)
    ensures Current(disk, Returned(q, start, e.names, now))
  {
    var q', stamps', statTimes, scanTimes :|
      ValidQuery(q') && CacheKey(q) == CacheKey(q') && GoodEntry(disk, now, q', e, stamps', statTimes, scanTimes);
    CacheKeyInjective(q, q');
    SignatureInjective(Dirs(disk, q), stamps, stamps');
    var chosen :=
      seq(|times|, i requires 0 <= i < |times| => if scanTimes[i] <= times[i] then times[i] else scanTimes[i]);
    SameGathering(disk, q, Dirs(disk, q), scanTimes, chosen);
    assert Gathers(disk, q, chosen, start, now, e.names);
  }

  lemma {:induction false} SameGathering(disk: Disk, q: Query, dirs: seq<string>, a: seq<nat>, b: seq<nat>)
    requires |dirs| == |a| == |b|
    requires forall i :: 0 <= i < |dirs| ==> disk.listing(q, dirs[i], a[i]) == disk.listing(q, dirs[i], b[i])
    ensures Gathered(disk, q, dirs, a) == Gathered(disk, q, dirs, b)
    decreases |dirs|
  {
    if dirs != [] {
      var n := |dirs| - 1;
      SameGathering(disk, q, dirs[..n], a[..n], b[..n]);
    }
  }

  lemma ScanGathers(disk: Disk, q: Query, dirs: seq<string>, times: seq<nat>, now: nat)
    requires |times| < |dirs|
    ensures var n := |times|;
            Gathered(disk, q, dirs[..n + 1], times + [now])
            == Gathered(disk, q, dirs[..n], times) + disk.listing(q, dirs[n], now)
  {
    var n := |times|;
    assert dirs[..n + 1][..n] == dirs[..n] && (times + [now])[..n] == times;
  }

  lemma StatHolds(disk: Disk, s: State, id: nat)
    requires Inv(disk, s) && Enabled(disk, s, Stat(id))
    ensures LookupHolds(disk, s.now, Perform(disk, s, Stat(id)).lookups[id])
  {
    assert LookupHolds(disk, s.now, s.lookups[id]);
  }

  lemma CheckHolds(disk: Disk, s: State, id: nat)
    requires StampsTell(disk) && Inv(disk, s) && Enabled(disk, s, Check(id))
    ensures LookupHolds(disk, s.now, Perform(disk, s, Check(id)).lookups[id])
  {
    var l := s.lookups[id];
    assert LookupHolds(disk, s.now, l);
    if Perform(disk, s, Check(id)).lookups[id].Returned? {
      HitIsCurrent(disk, s.now, l.query, l.start, l.stamps, l.statTimes, s.entries[CacheKey(l.query)]);
    } else {
      assert Dirs(disk, l.query)[..0] == [];
    }
  }

  lemma ScanHolds(disk: Disk, s: State, id: nat)
    requires Inv(disk, s) && Enabled(disk, s, Scan(id))
    ensures LookupHolds(disk, s.now, Perform(disk, s, Scan(id)).lookups[id])
  {
    var l := s.lookups[id];
    assert LookupHolds(disk, s.now, l);
    ScanGathers(disk, l.query, Dirs(disk, l.query), l.scanTimes, s.now);
  }

  lemma PutHolds(disk: Disk, s: State, id: nat)
    requires Inv(disk, s) && Enabled(disk, s, Put(id))
    ensures LookupHolds(disk, s.now, Perform(disk, s, Put(id)).lookups[id])
  {
    var l := s.lookups[id];
    assert LookupHolds(disk, s.now, l);
    assert Dirs(disk, l.query)[..|l.scanTimes|] == Dirs(disk, l.query);
    assert Gathers(disk, l.query, l.scanTimes, l.start, s.now, l.names);
  }

  /** The lookup that a step moves still holds. */
  lemma MovedLookupHolds(disk: Disk, s: State, a: Action)
    requires StampsTell(disk) && Inv(disk, s) && Enabled(disk, s, a) && !a.Advance? && !a.Invalidate?
    ensures var s' := Perform(disk, s, a); LookupHolds(disk, s'.now, s'.lookups[a.id])
  {
    if a.Stat? { StatHolds(disk, s, a.id); }
    if a.Check? { CheckHolds(disk, s, a.id); }
    if a.Scan? { ScanHolds(disk, s, a.id); }
    if a.Put? { PutHolds(disk, s, a.id); }
  }

  lemma PutEntryHolds(disk: Disk, s: State, id: nat)
    requires Inv(disk, s) && Enabled(disk, s, Put(id))
    ensures var l := s.lookups[id];
            EntryHolds(disk, s.now, CacheKey(l.query), Entry(Signature(Dirs(disk, l.query), l.stamps), l.names))
  {
    var l := s.lookups[id];
    var dirs := Dirs(disk, l.query);
    assert LookupHolds(disk, s.now, l) && dirs[..|l.scanTimes|] == dirs;
    assert GoodEntry(disk, s.now, l.query, Entry(Signature(dirs, l.stamps), l.names), l.stamps, l.statTimes,
                     l.scanTimes);
  }

  lemma StepKeepsInv(disk: Disk, s: State, a: Action)
    requires StampsTell(disk) && Inv(disk, s) && Enabled(disk, s, a)
    ensures Inv(disk, Perform(disk, s, a))
  {
    var s' := Perform(disk, s, a);
    if !a.Advance? && !a.Invalidate? { MovedLookupHolds(disk, s, a); }
    if a.Put? { PutEntryHolds(disk, s, a.id); }
    forall id | id in s'.lookups
      ensures LookupHolds(disk, s'.now, s'.lookups[id])
    {
      if id in s.lookups && s'.lookups[id] == s.lookups[id] { LookupLater(disk, s.now, s'.now, s.lookups[id]); }
    }
    forall key | key in s'.entries
      ensures EntryHolds(disk, s'.now, key, s'.entries[key])
    {
      if key in s.entries && s'.entries[key] == s.entries[key] { EntryLater(disk, s.now, s'.now, key, s.entries[key]); }
    }
  }

  lemma {:induction false} RunKeepsInv(disk: Disk, actions: seq<Action>)
    requires StampsTell(disk) && IsRun(disk, actions)
    ensures Inv(disk, Reached(disk, actions))
    decreases |actions|
  {
    if actions != [] {
      var n := |actions| - 1;
      RunKeepsInv(disk, actions[..n]);
      StepKeepsInv(disk, Reached(disk, actions[..n]), actions[n]);
    }
  }

  // --------------------------------------------------------------------------- main theorems

  /** If stamps tell contents apart, every lookup of every run, hit or miss, returns for each covered
      directory the names it held at some instant during that lookup. */
  lemma LookupsAreCurrent(disk: Disk, actions: seq<Action>, id: nat)
    requires StampsTell(disk) && IsRun(disk, actions)
    requires id in Reached(disk, actions).lookups && Reached(disk, actions).lookups[id].Returned?
    ensures Current(disk, Reached(disk, actions).lookups[id])
  {
    RunKeepsInv(disk, actions);
    assert LookupHolds(disk, Reached(disk, actions).now, Reached(disk, actions).lookups[id]);
  }

  /** A fresh scan of all covered directories at one instant. */
  function FreshScan(disk: Disk, q: Query, at: nat): set<string> {
    var n := |Dirs(disk, q)|;
    Gathered(disk, q, Dirs(disk, q), seq(n, i => at))
  }

  ghost predicate Quiet(disk: Disk, q: Query, lo: nat, hi: nat) {
    forall dir, t :: dir in Dirs(disk, q) && lo <= t <= hi ==> disk.listing(q, dir, t) == disk.listing(q, dir, hi)
  }

  /** In particular, unless a covered directory changes while it runs, a lookup returns exactly what
      scanning now would. */
  lemma QuietLookupIsFreshScan(disk: Disk, actions: seq<Action>, id: nat)
    requires StampsTell(disk) && IsRun(disk, actions)
    requires id in Reached(disk, actions).lookups && Reached(disk, actions).lookups[id].Returned?
    requires var l := Reached(disk, actions).lookups[id]; Quiet(disk, l.query, l.start, l.end)
    ensures var l := Reached(disk, actions).lookups[id]; l.names == FreshScan(disk, l.query, l.end)
  {
    LookupsAreCurrent(disk, actions, id);
    var l := Reached(disk, actions).lookups[id];
    var times :| Gathers(disk, l.query, times, l.start, l.end, l.names);
    var dirs := Dirs(disk, l.query);
    var now := seq(|dirs|, i => l.end);
    forall i | 0 <= i < |dirs|
      ensures disk.listing(l.query, dirs[i], times[i]) == disk.listing(l.query, dirs[i], now[i])
    {
      assert dirs[i] in dirs;
    }
    SameGathering(disk, l.query, dirs, times, now);
  }

  /** The condition is needed: if a directory's stamp comes back after its contents differed in
      between, there is a run in which a hit returns names that the directory did not hold at any
      instant of the lookup.  A directory that is missing, appears and goes again is such a case,
      because every missing directory has the same stamp. */
  lemma StaleWhenStampsRepeat(disk: Disk, q: Query, dir: string, t1: nat, t2: nat, t3: nat)
    returns (actions: seq<Action>)
    requires ValidQuery(q) && disk.split(q.path) == [dir] && t1 <= t2 <= t3
    requires disk.stamp(dir, t1) == disk.stamp(dir, t3) && disk.listing(q, dir, t2) != disk.listing(q, dir, t3)
    ensures IsRun(disk, actions)
    ensures var s := Reached(disk, actions);
            1 in s.lookups && s.lookups[1].Returned? && !Current(disk, s.lookups[1])
  {
    var stamps, names := [disk.stamp(dir, t1)], disk.listing(q, dir, t2);
    OneDir(disk, q, dir);
    actions := Miss(disk, q, dir, t1, t2);
    actions := Hit(disk, q, dir, t3, actions, Reached(disk, actions), Entry(Signature([dir], stamps), names));
    NotCurrent(disk, q, dir, t3, names);
  }

  /** A lookup at `at` that finds the only directory's signature in the cache. */
  lemma Hit(disk: Disk, q: Query, dir: string, at: nat, before: seq<Action>, s: State, e: Entry)
    returns (actions: seq<Action>)
    requires ValidQuery(q) && Dirs(disk, q) == [dir] && IsRun(disk, before) && Reached(disk, before) == s
    requires s.now <= at && 1 !in s.lookups && CacheKey(q) in s.entries && s.entries[CacheKey(q)] == e
    requires e.signature == Signature([dir], [disk.stamp(dir, at)])
    ensures IsRun(disk, actions)
    ensures 1 in Reached(disk, actions).lookups && Reached(disk, actions).lookups[1] == Returned(q, at, e.names, at)
  {
    var stamps := [disk.stamp(dir, at)];
    Singletons(disk.stamp(dir, at), at);
    var s1 := s.(now := at);
    var s2 := s1.(lookups := s.lookups[1 := Signing(q, at, [], [])]);
    var s3 := s1.(lookups := s.lookups[1 := Signing(q, at, stamps, [at])]);
    var s4 := s1.(lookups := s.lookups[1 := Returned(q, at, e.names, at)]);
    actions := Next(disk, before, s, Advance(at), s1);
    actions := Next(disk, actions, s1, Begin(1, q), s2);
    assert s2.lookups[1 := Signing(q, at, stamps, [at])] == s3.lookups;
    actions := Next(disk, actions, s2, Stat(1), s3);
    assert s3.lookups[1 := Returned(q, at, e.names, at)] == s4.lookups;
    actions := Next(disk, actions, s3, Check(1), s4);
  }

  lemma Singletons(stamp: Stamp, time: nat)
    ensures [] + [stamp] == [stamp] && [] + [time] == [time]
  {
  }

  lemma OneDir(disk: Disk, q: Query, dir: string)
    requires disk.split(q.path) == [dir]
    ensures Dirs(disk, q) == [dir]
  {
  }

  lemma NotCurrent(disk: Disk, q: Query, dir: string, at: nat, names: set<string>)
    requires Dirs(disk, q) == [dir] && names != disk.listing(q, dir, at)
    ensures !Current(disk, Returned(q, at, names, at))
  {
    forall times | |times| == 1 && Within(times, at, at)
      ensures Gathered(disk, q, [dir], times) == disk.listing(q, dir, at)
    {
      assert [dir][..0] == [] && times[..0] == [];
      assert Gathered(disk, q, [], []) == {};
    }
  }

  /** One more step of a run. */
  lemma Next(disk: Disk, actions: seq<Action>, s: State, a: Action, s': State) returns (longer: seq<Action>)
    requires IsRun(disk, actions) && Reached(disk, actions) == s
    requires Enabled(disk, s, a) && Perform(disk, s, a) == s'
    ensures IsRun(disk, longer) && Reached(disk, longer) == s'
  {
    longer := actions + [a];
    assert longer[..|actions|] == actions;
  }

  /** A lookup that stamps the only directory at `t1`, scans it at `t2` and stores the result. */
  lemma Miss(disk: Disk, q: Query, dir: string, t1: nat, t2: nat) returns (actions: seq<Action>)
    requires ValidQuery(q) && Dirs(disk, q) == [dir] && t1 <= t2
    ensures IsRun(disk, actions)
    ensures var names := disk.listing(q, dir, t2);
            Reached(disk, actions) ==
            State(t2, map[CacheKey(q) := Entry(Signature([dir], [disk.stamp(dir, t1)]), names)],
                  map[0 := Returned(q, t1, names, t2)])
  {
    var stamps, names := [disk.stamp(dir, t1)], disk.listing(q, dir, t2);
    Singletons(disk.stamp(dir, t1), t2);
    actions := Sign(disk, q, dir, t1);
    actions := Next(disk, actions, State(t1, map[], map[0 := Signing(q, t1, stamps, [t1])]), Advance(t2),
                    State(t2, map[], map[0 := Signing(q, t1, stamps, [t1])]));
    actions := Next(disk, actions, State(t2, map[], map[0 := Signing(q, t1, stamps, [t1])]), Check(0),
                    State(t2, map[], map[0 := Scanning(q, t1, stamps, [t1], {}, [])]));
    assert {} + names == names;
    actions := Next(disk, actions, State(t2, map[], map[0 := Scanning(q, t1, stamps, [t1], {}, [])]), Scan(0),
                    State(t2, map[], map[0 := Scanning(q, t1, stamps, [t1], names, [t2])]));
    actions := Next(disk, actions, State(t2, map[], map[0 := Scanning(q, t1, stamps, [t1], names, [t2])]), Put(0),
                    State(t2, map[CacheKey(q) := Entry(Signature([dir], stamps), names)],
                          map[0 := Returned(q, t1, names, t2)]));
  }

  lemma Sign(disk: Disk, q: Query, dir: string, at: nat) returns (actions: seq<Action>)
    requires ValidQuery(q) && Dirs(disk, q) == [dir]
    ensures IsRun(disk, actions)
    ensures Reached(disk, actions) == State(at, map[], map[0 := Signing(q, at, [disk.stamp(dir, at)], [at])])
  {
    Singletons(disk.stamp(dir, at), at);
    actions := Next(disk, [], INITIAL, Advance(at), State(at, map[], map[]));
    actions :=
      Next(disk, actions, State(at, map[], map[]), Begin(0, q), State(at, map[], map[0 := Signing(q, at, [], [])]));
    actions := Next(disk, actions, State(at, map[], map[0 := Signing(q, at, [], [])]), Stat(0),
                    State(at, map[], map[0 := Signing(q, at, [disk.stamp(dir, at)], [at])]));
  }
}

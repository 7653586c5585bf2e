/** What a draft's evidence count means.

    A success is paired with the failure remembered under the same session and
    token; the pair then lands on a draft.  The invariant below ties every
    count in the store to the pairs that landed, and every pair to a failure of
    its own, for any interleaving of threads and any maintenance except editing
    a draft. */
module Evidence {
  import Store = LearningStore
  import opened SessionTables
  import opened Daemon

  function KeyOf(e: Event): string
    requires e.FailureNoted? || e.FailurePaired?
  {
    FailureKey(e.session, e.token)
  }

  /** The index of the last failure remembered under `key` before position `n`, or -1. */
  function LastNoted(log: seq<Event>, key: string, n: nat): (k: int)
    requires n <= |log|
    ensures -1 <= k < n
    ensures k >= 0 ==> log[k].FailureNoted? && KeyOf(log[k]) == key
  {
    if n == 0 then -1
    else if log[n - 1].FailureNoted? && KeyOf(log[n - 1]) == key then n - 1
    else LastNoted(log, key, n - 1)
  }

  lemma {:induction false} LastNotedStable(log: seq<Event>, log': seq<Event>, key: string, n: nat)
    requires n <= |log| && log <= log'
    ensures LastNoted(log', key, n) == LastNoted(log, key, n)
    decreases n
  {
    if n > 0 { LastNotedStable(log, log', key, n - 1); }
  }

  ghost predicate Unpaired(log: seq<Event>, key: string, lo: int, hi: int) {
    forall i :: lo < i < hi && 0 <= i < |log| && log[i].FailurePaired? ==> KeyOf(log[i]) != key
  }

  /** The success at position `j` corrects the failure at position `k`. */
  ghost predicate Corrects(log: seq<Event>, j: int, k: int) {
    && 0 <= k < j < |log| && log[j].FailurePaired? && log[k].FailureNoted?
    && KeyOf(log[k]) == KeyOf(log[j])
    && log[k].command != log[j].correction
    && log[k].at <= log[j].at <= log[k].at + LEARNING_WINDOW
    && Unpaired(log, KeyOf(log[j]), k, j)
  }

  ghost predicate Live(log: seq<Event>, clock: int, key: string, f: Failure) {
    var k := LastNoted(log, key, |log|);
    && k >= 0 && log[k].command == f.command && log[k].at == f.created <= clock
    && Unpaired(log, key, k, |log|)
  }

  ghost predicate AllLive(log: seq<Event>, clock: int, failures: map<string, Failure>) {
    forall key :: key in failures ==> Live(log, clock, key, failures[key])
  }

  ghost predicate AllCorrect(log: seq<Event>) {
    forall j :: 0 <= j < |log| && log[j].FailurePaired? ==> Corrects(log, j, LastNoted(log, KeyOf(log[j]), j))
  }

  /** Position `pair` is a success of `correction` after the failure of `failure`. */
  ghost predicate IsPair(log: seq<Event>, pair: nat, failure: string, correction: string) {
    && pair < |log| && log[pair].FailurePaired? && log[pair].correction == correction
    && var k := LastNoted(log, KeyOf(log[pair]), pair); k >= 0 && log[k].command == failure
  }

  ghost predicate LandOnce(log: seq<Event>) {
    forall i, j :: 0 <= i < j < |log| && log[i].Landed? && log[j].Landed? ==> log[i].pair != log[j].pair
  }

  ghost predicate LandingsArePairs(log: seq<Event>) {
    && LandOnce(log)
    && (forall i :: 0 <= i < |log| && log[i].Landed? ==> IsPair(log, log[i].pair, log[i].failure, log[i].correction))
  }

  ghost predicate LearnersHold(log: seq<Event>, threads: map<nat, Thread>) {
    && (forall id :: id in threads && threads[id].Learning?
          ==> IsPair(log, threads[id].pair, threads[id].failure, threads[id].correction))
    && (forall id, i :: id in threads && threads[id].Learning? && 0 <= i < |log| && log[i].Landed?
          ==> log[i].pair != threads[id].pair)
    && (forall id, id' ::
          id in threads && id' in threads && id != id' && threads[id].Learning? && threads[id'].Learning?
          ==> threads[id].pair != threads[id'].pair)
  }

  /** The pairs that landed as (failure, correction) since the last purge, latest last. */
  function LandedPairs(log: seq<Event>, failure: string, correction: string): seq<nat> {
    if log == [] then []
    else
      var front, e := log[..|log| - 1], log[|log| - 1];
      if e.Purged? then []
      else if e.Landed? && e.failure == failure && e.correction == correction then
        LandedPairs(front, failure, correction) + [e.pair]
      else LandedPairs(front, failure, correction)
  }

  ghost predicate CountsMatch(log: seq<Event>, drafts: map<int, Store.Draft>) {
    && (forall id :: id in drafts ==> drafts[id].count == |LandedPairs(log, drafts[id].failure, drafts[id].correction)|)
    && (forall f, c :: !Store.HasPair(drafts, f, c) ==> LandedPairs(log, f, c) == [])
  }

  ghost predicate AllValid(d: State) {
    && (forall id :: id in d.threads ==> ValidRequest(d.threads[id].req))
    && (forall i :: 0 <= i < |d.log| && (d.log[i].FailureNoted? || d.log[i].FailurePaired?)
          ==> '\0' !in d.log[i].session)
  }

  ghost predicate Inv(d: State) {
    && AllLive(d.log, d.clock, d.tables.failures)
    && AllCorrect(d.log)
    && LandingsArePairs(d.log)
    && LearnersHold(d.log, d.threads)
    && CountsMatch(d.log, d.store.drafts)
    && Store.Sound(d.store)
    && AllValid(d)
  }

  predicate EditsDraft(a: Action) { a.Maintain? && a.step.Edit? }

  // ------------------------------------------------------------------- extending the log

  lemma LiveAppend(log: seq<Event>, clock: int, key: string, f: Failure, e: Event)
    requires Live(log, clock, key, f)
    requires e.FailureNoted? || e.FailurePaired? ==> KeyOf(e) != key
    ensures Live(log + [e], clock, key, f)
  {
    LastNotedStable(log, log + [e], key, |log|);
  }

  lemma CorrectAppend(log: seq<Event>, e: Event)
    requires AllCorrect(log)
    requires e.FailurePaired? ==> Corrects(log + [e], |log|, LastNoted(log, KeyOf(e), |log|))
    ensures AllCorrect(log + [e])
  {
    var log' := log + [e];
    forall j | 0 <= j < |log'| && log'[j].FailurePaired?
      ensures Corrects(log', j, LastNoted(log', KeyOf(log'[j]), j))
    {
      LastNotedStable(log, log', KeyOf(log'[j]), j);
      if j < |log| { CorrectStays(log, e, j); }
    }
  }

  lemma CorrectStays(log: seq<Event>, e: Event, j: nat)
    requires AllCorrect(log) && j < |log| && log[j].FailurePaired?
    ensures Corrects(log + [e], j, LastNoted(log, KeyOf(log[j]), j))
  {
    assert Corrects(log, j, LastNoted(log, KeyOf(log[j]), j));
  }

  lemma PairStable(log: seq<Event>, e: Event, pair: nat, failure: string, correction: string)
    requires IsPair(log, pair, failure, correction)
    ensures IsPair(log + [e], pair, failure, correction)
  {
    LastNotedStable(log, log + [e], KeyOf(log[pair]), pair);
  }

  lemma LandingsAppend(log: seq<Event>, e: Event)
    requires LandingsArePairs(log)
    requires e.Landed? ==> IsPair(log, e.pair, e.failure, e.correction)
    requires e.Landed? ==> forall i :: 0 <= i < |log| && log[i].Landed? ==> log[i].pair != e.pair
    ensures LandingsArePairs(log + [e])
  {
    var log' := log + [e];
    forall i | 0 <= i < |log'| && log'[i].Landed?
      ensures IsPair(log', log'[i].pair, log'[i].failure, log'[i].correction)
    {
      PairStable(log, e, log'[i].pair, log'[i].failure, log'[i].correction);
    }
  }

  // ------------------------------------------------------------------- what a step reports

  lemma Reports(setup: Setup, d: State, a: Action)
    requires Enabled(d, a)
    ensures var d' := Perform(setup, d, a);
            && d.clock <= d'.clock
            && (d'.log == d.log || (d'.log == d.log + [d'.log[|d.log|]] && d'.clock == d.clock))
            && (d'.log != d.log ==>
                  && (d'.log[|d.log|].FailureNoted? ==> a.Note?)
                  && (d'.log[|d.log|].FailurePaired? ==> a.Pair?)
                  && (d'.log[|d.log|].Landed? ==> a.Land?)
                  && (d'.log[|d.log|].Purged? ==> a.Maintain? && a.step.Purge?))
  {
  }

  // --------------------------------------------------------------------- remembered failures

  /** Failure `key` was there before and the step says nothing about it. */
  ghost predicate Undisturbed(d: State, d': State, key: string)
    requires key in d'.tables.failures
  {
    && key in d.tables.failures && d'.tables.failures[key] == d.tables.failures[key]
    && (|d'.log| > |d.log| && (d'.log[|d.log|].FailureNoted? || d'.log[|d.log|].FailurePaired?)
        ==> KeyOf(d'.log[|d.log|]) != key)
  }

  /** Failure `key` is the one the step notes. */
  ghost predicate JustNoted(d: State, d': State, key: string)
    requires key in d'.tables.failures
  {
    && |d'.log| > |d.log| && d'.log == d.log + [d'.log[|d.log|]] && d'.log[|d.log|].FailureNoted?
    && KeyOf(d'.log[|d.log|]) == key
    && d'.log[|d.log|].command == d'.tables.failures[key].command
    && d'.log[|d.log|].at == d'.tables.failures[key].created == d.clock
  }

  lemma OtherFailures(setup: Setup, d: State, a: Action, key: string)
    requires Enabled(d, a) && !a.Note? && !a.Pair? && key in Perform(setup, d, a).tables.failures
    ensures key in d.tables.failures && Perform(setup, d, a).tables.failures[key] == d.tables.failures[key]
  {
  }

  lemma NotedFailures(setup: Setup, d: State, a: Action, key: string)
    requires Enabled(d, a) && a.Note? && key in Perform(setup, d, a).tables.failures
    ensures var d' := Perform(setup, d, a); Undisturbed(d, d', key) || JustNoted(d, d', key)
  {
  }

  lemma PairedFailures(setup: Setup, d: State, a: Action, key: string)
    requires Enabled(d, a) && a.Pair? && key in Perform(setup, d, a).tables.failures
    ensures Undisturbed(d, Perform(setup, d, a), key)
  {
  }

  lemma FailuresFrame(setup: Setup, d: State, a: Action, key: string)
    requires Enabled(d, a) && key in Perform(setup, d, a).tables.failures
    ensures var d' := Perform(setup, d, a); Undisturbed(d, d', key) || JustNoted(d, d', key)
  {
    Reports(setup, d, a);
    if a.Note? { NotedFailures(setup, d, a, key); }
    else if a.Pair? { PairedFailures(setup, d, a, key); }
    else { OtherFailures(setup, d, a, key); }
  }

  lemma FailuresKept(setup: Setup, d: State, a: Action)
    requires AllLive(d.log, d.clock, d.tables.failures) && Enabled(d, a)
    ensures var d' := Perform(setup, d, a); AllLive(d'.log, d'.clock, d'.tables.failures)
  {
    var d' := Perform(setup, d, a);
    Reports(setup, d, a);
    forall key | key in d'.tables.failures
      ensures Live(d'.log, d'.clock, key, d'.tables.failures[key])
    {
      FailuresFrame(setup, d, a, key);
      if key in d.tables.failures && d'.log != d.log
         && !(d'.log[|d.log|].FailureNoted? && KeyOf(d'.log[|d.log|]) == key) {
        LiveAppend(d.log, d.clock, key, d.tables.failures[key], d'.log[|d.log|]);
      }
    }
  }

  // --------------------------------------------------------------------------- new pairs

  lemma PairReport(setup: Setup, d: State, a: Action)
    requires Enabled(d, a) && AllLive(d.log, d.clock, d.tables.failures)
    requires var d' := Perform(setup, d, a); d'.log != d.log && d'.log[|d.log|].FailurePaired?
    ensures var d' := Perform(setup, d, a);
            var e := d'.log[|d.log|];
            && a.Pair? && d'.threads[a.id].Learning? && d'.threads[a.id].pair == |d.log|
            && d'.threads[a.id].correction == e.correction
            && KeyOf(e) in d.tables.failures
            && d.tables.failures[KeyOf(e)].command == d'.threads[a.id].failure != e.correction
            && e.at == d.clock <= d.tables.failures[KeyOf(e)].created + LEARNING_WINDOW
  {
  }

  lemma NewPairCorrects(log: seq<Event>, clock: int, f: Failure, e: Event)
    requires e.FailurePaired? && Live(log, clock, KeyOf(e), f)
    requires f.command != e.correction && e.at == clock <= f.created + LEARNING_WINDOW
    ensures Corrects(log + [e], |log|, LastNoted(log, KeyOf(e), |log|))
    ensures IsPair(log + [e], |log|, f.command, e.correction)
  {
    LastNotedStable(log, log + [e], KeyOf(e), |log|);
  }

  lemma CorrectKept(setup: Setup, d: State, a: Action)
    requires AllLive(d.log, d.clock, d.tables.failures) && AllCorrect(d.log) && Enabled(d, a)
    ensures AllCorrect(Perform(setup, d, a).log)
  {
    var d' := Perform(setup, d, a);
    Reports(setup, d, a);
    if d'.log != d.log {
      var e := d'.log[|d.log|];
      if e.FailurePaired? {
        PairReport(setup, d, a);
        NewPairCorrects(d.log, d.clock, d.tables.failures[KeyOf(e)], e);
      }
      CorrectAppend(d.log, e);
    }
  }

  // ----------------------------------------------------------------------- learning threads

  /** A thread is learning only if it was before or has just made its pair. */
  lemma LearnerOrigin(setup: Setup, d: State, a: Action, id: nat)
    requires Enabled(d, a) && id in Perform(setup, d, a).threads && Perform(setup, d, a).threads[id].Learning?
    ensures var d' := Perform(setup, d, a);
            || (id in d.threads && d'.threads[id] == d.threads[id] && (a.Land? || a.Pair? ==> a.id != id))
            || (a == Pair(id) && d'.log == d.log + [d'.log[|d.log|]] && d'.log[|d.log|].FailurePaired?)
  {
  }

  lemma LandReport(setup: Setup, d: State, a: Action)
    requires Enabled(d, a) && Perform(setup, d, a).log != d.log && Perform(setup, d, a).log[|d.log|].Landed?
    ensures a.Land? && a.id in d.threads && d.threads[a.id].Learning?
    ensures var t := d.threads[a.id]; Perform(setup, d, a).log[|d.log|] == Landed(t.failure, t.correction, t.pair)
  {
  }

  lemma LandingsKept(setup: Setup, d: State, a: Action)
    requires LandingsArePairs(d.log) && LearnersHold(d.log, d.threads) && Enabled(d, a)
    ensures LandingsArePairs(Perform(setup, d, a).log)
  {
    var d' := Perform(setup, d, a);
    Reports(setup, d, a);
    if d'.log != d.log {
      if d'.log[|d.log|].Landed? { LandReport(setup, d, a); }
      LandingsAppend(d.log, d'.log[|d.log|]);
    }
  }

  lemma LearnersKept(setup: Setup, d: State, a: Action)
    requires AllLive(d.log, d.clock, d.tables.failures) && LandingsArePairs(d.log) && LearnersHold(d.log, d.threads)
    requires Enabled(d, a)
    ensures var d' := Perform(setup, d, a); LearnersHold(d'.log, d'.threads)
  {
    var d' := Perform(setup, d, a);
    forall id | id in d'.threads && d'.threads[id].Learning?
      ensures IsPair(d'.log, d'.threads[id].pair, d'.threads[id].failure, d'.threads[id].correction)
      ensures forall i :: 0 <= i < |d'.log| && d'.log[i].Landed? ==> d'.log[i].pair != d'.threads[id].pair
    {
      LearnerKept(setup, d, a, id);
    }
    forall id, id' | id in d'.threads && id' in d'.threads && id != id'
      && d'.threads[id].Learning? && d'.threads[id'].Learning?
      ensures d'.threads[id].pair != d'.threads[id'].pair
    {
      LearnerKept(setup, d, a, id);
      LearnerKept(setup, d, a, id');
    }
  }

  lemma LearnerKept(setup: Setup, d: State, a: Action, id: nat)
    requires AllLive(d.log, d.clock, d.tables.failures) && LandingsArePairs(d.log) && LearnersHold(d.log, d.threads)
    requires Enabled(d, a)
    requires id in Perform(setup, d, a).threads && Perform(setup, d, a).threads[id].Learning?
    ensures var d' := Perform(setup, d, a);
            var t := d'.threads[id];
            && IsPair(d'.log, t.pair, t.failure, t.correction)
            && (forall i :: 0 <= i < |d'.log| && d'.log[i].Landed? ==> d'.log[i].pair != t.pair)
            && (t.pair == |d.log| <==> a == Pair(id))
            && (a != Pair(id) ==> id in d.threads && t == d.threads[id])
  {
    var d' := Perform(setup, d, a);
    var t := d'.threads[id];
    Reports(setup, d, a);
    LearnerOrigin(setup, d, a, id);
    if d'.log != d.log && d'.log[|d.log|].Landed? { LandReport(setup, d, a); }
    if a == Pair(id) {
      PairReport(setup, d, a);
      var e := d'.log[|d.log|];
      NewPairCorrects(d.log, d.clock, d.tables.failures[KeyOf(e)], e);
    } else if d'.log != d.log {
      PairStable(d.log, d'.log[|d.log|], t.pair, t.failure, t.correction);
    }
  }

  // --------------------------------------------------------------------------------- counts

  lemma LandedPairsAppend(log: seq<Event>, e: Event, f: string, c: string)
    ensures LandedPairs(log + [e], f, c) ==
            if e.Purged? then []
            else if e.Landed? && e.failure == f && e.correction == c then LandedPairs(log, f, c) + [e.pair]
            else LandedPairs(log, f, c)
  {
    assert (log + [e])[..|log|] == log;
  }

  lemma RecordCounts(log: seq<Event>, t: Store.Tables, step: Store.Step, pair: nat)
    requires step.Record? && Store.Commits(t, step) && CountsMatch(log, t.drafts) && Store.Sound(t)
    ensures CountsMatch(log + [Landed(step.failure, step.correction, pair)], Store.Apply(t, step).drafts)
  {
    var e, drafts := Landed(step.failure, step.correction, pair), Store.Apply(t, step).drafts;
    forall f, c
      ensures LandedPairs(log + [e], f, c)
              == LandedPairs(log, f, c) + if f == step.failure && c == step.correction then [pair] else []
    {
      LandedPairsAppend(log, e, f, c);
    }
    assert Store.Holds(drafts[step.id], step.failure, step.correction);
    assert Store.HasPair(drafts, step.failure, step.correction);
    forall id | id in drafts
      ensures drafts[id].count == |LandedPairs(log + [e], drafts[id].failure, drafts[id].correction)|
    {
      if id != step.id { OthersDiffer(t, step, id); }
    }
    forall f, c | !Store.HasPair(drafts, f, c)
      ensures LandedPairs(log + [e], f, c) == []
    {
      NoPairBefore(t.drafts, drafts, step.id, f, c);
    }
  }

  lemma OthersDiffer(t: Store.Tables, step: Store.Step, id: int)
    requires step.Record? && Store.Commits(t, step) && Store.PairsUnique(t.drafts) && id in t.drafts && id != step.id
    ensures !Store.Holds(t.drafts[id], step.failure, step.correction)
  {
    assert step.id in t.drafts ==> Store.Holds(t.drafts[step.id], step.failure, step.correction);
  }

  lemma NoPairBefore(drafts: map<int, Store.Draft>, drafts': map<int, Store.Draft>, id: int, f: string, c: string)
    requires !Store.HasPair(drafts', f, c) && id in drafts'
    requires drafts'.Keys == drafts.Keys + {id}
    requires forall j :: j in drafts && j != id ==> drafts'[j] == drafts[j]
    requires id in drafts ==> Store.Holds(drafts'[id], drafts[id].failure, drafts[id].correction)
    ensures !Store.HasPair(drafts, f, c)
  {
    forall j | j in drafts
      ensures !Store.Holds(drafts[j], f, c)
    {
      assert j in drafts' && !Store.Holds(drafts'[j], f, c);
    }
  }

  lemma CountsKept(setup: Setup, d: State, a: Action)
    requires CountsMatch(d.log, d.store.drafts) && Store.Sound(d.store) && Enabled(d, a) && !EditsDraft(a)
    ensures var d' := Perform(setup, d, a); CountsMatch(d'.log, d'.store.drafts)
  {
    var d' := Perform(setup, d, a);
    Reports(setup, d, a);
    if a.Land? {
      RecordCounts(d.log, d.store, LandStep(d.threads[a.id], a.draft), d.threads[a.id].pair);
    } else if d'.log != d.log {
      OtherEvent(d.log, d'.log[|d.log|]);
    }
  }

  lemma OtherEvent(log: seq<Event>, e: Event)
    requires !e.Landed?
    ensures forall f, c :: LandedPairs(log + [e], f, c) == if e.Purged? then [] else LandedPairs(log, f, c)
  {
    forall f, c
      ensures LandedPairs(log + [e], f, c) == if e.Purged? then [] else LandedPairs(log, f, c)
    {
      LandedPairsAppend(log, e, f, c);
    }
  }

  lemma StoreKept(setup: Setup, d: State, a: Action)
    requires Store.Sound(d.store) && Enabled(d, a)
    ensures Store.Sound(Perform(setup, d, a).store)
  {
    if a.Land? || a.Maintain? {
      var step := if a.Land? then LandStep(d.threads[a.id], a.draft) else a.step;
      Store.StepKeepsGrounded(d.store, step);
      Store.StepKeepsOneRule(d.store, step);
      Store.StepKeepsPairs(d.store, step);
    }
  }

  lemma ValidKept(setup: Setup, d: State, a: Action)
    requires AllValid(d) && Enabled(d, a)
    ensures AllValid(Perform(setup, d, a))
  {
    Reports(setup, d, a);
    if MovesThread(a) { OnlyThatThread(setup, d, a); }
  }

  lemma StepKeepsInv(setup: Setup, d: State, a: Action)
    requires Inv(d) && Enabled(d, a) && !EditsDraft(a)
    ensures Inv(Perform(setup, d, a))
  {
    FailuresKept(setup, d, a);
    CorrectKept(setup, d, a);
    LandingsKept(setup, d, a);
    LearnersKept(setup, d, a);
    CountsKept(setup, d, a);
    StoreKept(setup, d, a);
    ValidKept(setup, d, a);
  }

  // -------------------------------------------------------------------------------- backing

  /** A piece of evidence for (failure, correction): a failure and a later success of the same session
      and token, at most five minutes apart. */
  ghost predicate Backs(log: seq<Event>, k: int, j: int, failure: string, correction: string) {
    && 0 <= k < j < |log| && log[k].FailureNoted? && log[j].FailurePaired?
    && log[k].command == failure && log[j].correction == correction && failure != correction
    && log[k].session == log[j].session && log[k].token == log[j].token
    && log[k].at <= log[j].at <= log[k].at + LEARNING_WINDOW
  }

  ghost predicate HasLanding(log: seq<Event>, f: string, c: string, pair: nat) {
    exists i :: 0 <= i < |log| && log[i] == Landed(f, c, pair)
  }

  lemma {:induction false} LandedPairsAreLandings(log: seq<Event>, f: string, c: string, ps: seq<nat>)
    requires LandOnce(log) && ps == LandedPairs(log, f, c)
    ensures forall x :: 0 <= x < |ps| ==> HasLanding(log, f, c, ps[x])
    ensures forall x, y :: 0 <= x < y < |ps| ==> ps[x] != ps[y]
    decreases |log|
  {
    if log != [] {
      var front, e := log[..|log| - 1], log[|log| - 1];
      var qs := LandedPairs(front, f, c);
      LandedPairsAreLandings(front, f, c, qs);
      forall x | 0 <= x < |qs|
        ensures HasLanding(log, f, c, qs[x]) && (e.Landed? ==> e.pair != qs[x])
      {
        assert HasLanding(front, f, c, qs[x]);
        var i :| 0 <= i < |front| && front[i] == Landed(f, c, qs[x]);
        assert log[i] == front[i];
      }
      if e.Landed? && e.failure == f && e.correction == c {
        assert log[|log| - 1] == Landed(f, c, e.pair);
        assert HasLanding(log, f, c, e.pair);
        assert ps == qs + [e.pair];
      }
    }
  }

  ghost predicate Distinct(xs: seq<nat>) { forall x, y :: 0 <= x < y < |xs| ==> xs[x] != xs[y] }

  lemma PairBacks(d: State, j: nat, f: string, c: string) returns (k: nat)
    requires Inv(d) && IsPair(d.log, j, f, c)
    ensures Backs(d.log, k, j, f, c) && Corrects(d.log, j, k)
  {
    k := LastNoted(d.log, KeyOf(d.log[j]), j);
    assert Corrects(d.log, j, k);
    FailureKeyInjective(d.log[k].session, d.log[k].token, d.log[j].session, d.log[j].token);
  }

  lemma AllBacked(d: State, f: string, c: string, successes: seq<nat>, n: nat) returns (failures: seq<nat>)
    requires Inv(d) && n <= |successes| && forall x :: 0 <= x < |successes| ==> HasLanding(d.log, f, c, successes[x])
    ensures |failures| == n
    ensures forall x :: 0 <= x < n ==> Backs(d.log, failures[x], successes[x], f, c)
    ensures forall x :: 0 <= x < n ==> Corrects(d.log, successes[x], failures[x])
  {
    failures := [];
    if n > 0 {
      var front := AllBacked(d, f, c, successes, n - 1);
      var k := PairBacks(d, successes[n - 1], f, c);
      failures := front + [k];
    }
  }

  /** A draft's count is the number of distinct failures, each with a success of its own, behind it. */
  lemma DraftIsBacked(d: State, id: int) returns (failures: seq<nat>, successes: seq<nat>)
    requires Inv(d) && id in d.store.drafts
    ensures |failures| == |successes| == d.store.drafts[id].count
    ensures Distinct(failures) && Distinct(successes)
    ensures forall x :: 0 <= x < |failures|
              ==> Backs(d.log, failures[x], successes[x], d.store.drafts[id].failure, d.store.drafts[id].correction)
  {
    var f, c := d.store.drafts[id].failure, d.store.drafts[id].correction;
    successes := LandedPairs(d.log, f, c);
    LandedPairsAreLandings(d.log, f, c, successes);
    failures := AllBacked(d, f, c, successes, |successes|);
    forall x, y | 0 <= x < y < |failures|
      ensures failures[x] != failures[y]
    {
      assert Corrects(d.log, successes[x], failures[x]) && Corrects(d.log, successes[y], failures[y]);
      assert successes[x] != successes[y];
    }
  }
}

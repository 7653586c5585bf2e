/** Building the runtime resolver from bundled and installed packs. */
module PackRuntime {
  import opened Options
  import opened Packs
  import opened PackResolution
  import opened PackConflicts

  datatype Runtime = Runtime(packs: seq<Pack>, installedIds: set<string>)

  /** `NewRuntimeResolverWithInstalled`: fails as resolution fails; otherwise a pack counts as installed
      exactly when it was among the installed ones, which no bundled pack can be. */
  method NewRuntimeResolver(bundled: seq<Pack>, installed: seq<Pack>, lib: Library) returns (r: Option<Runtime>)
    ensures Outcome(bundled + installed, Accepting(lib), if r.Some? then Some(r.value.packs) else None)
    ensures r.Some? ==>
              && TailsAreHigh(r.value.packs)
              && (forall pack :: pack in r.value.packs <==> pack in bundled || pack in installed)
              && (forall pack :: pack in r.value.packs ==> (pack.id in r.value.installedIds <==> pack in installed))
              && (forall pack :: pack in bundled ==> pack.id !in r.value.installedIds)
  {
    var all := bundled + installed;
    var resolved := Resolve(all, Accepting(lib));
    if resolved.None? { return None; }
    var packs := resolved.value;
    var installedIds: set<string> := {};
    for n := 0 to |installed|
      invariant forall id :: id in installedIds <==> exists i :: 0 <= i < n && installed[i].id == id
    {
      installedIds := installedIds + {installed[n].id};
    }
    ResolvedMembers(all, lib, packs);
    forall pack | pack in bundled
      ensures pack.id !in installedIds
    {
      var i :| 0 <= i < |bundled| && bundled[i] == pack;
      assert all[i] == pack;
      assert forall j :: 0 <= j < |installed| ==> all[|bundled| + j] == installed[j];
    }
    forall pack | pack in installed
      ensures pack.id in installedIds
    {
      var i :| 0 <= i < |installed| && installed[i] == pack;
    }
    r := Some(Runtime(packs, installedIds));
  }

  lemma ResolvedMembers(all: seq<Pack>, lib: Library, packs: seq<Pack>)
    requires Outcome(all, Accepting(lib), Some(packs))
    ensures TailsAreHigh(packs) && forall pack :: pack in packs <==> pack in all
    ensures DistinctIds(all)
  {
    ResolvesExactlyWhen(Accepting(lib), all, Some(packs));
    var ordered :|
      SortedCopy(ordered, all) && Some(packs) == if Resolvable(ordered, Accepting(lib)) then Some(ordered) else None;
    SameMembers(ordered, all);
    forall i | 0 <= i < |packs|
      ensures TailsHigh(packs[i])
    {
      assert packs[i] in all && Accepting(lib)(packs[i]);
      CompiledTails(lib, packs[i]);
    }
  }
}

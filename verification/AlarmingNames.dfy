/** A valid instance name can make the program mistake its own listing for an error
    (internal/platform/scutil.go:135-149 with internal/instance/store.go:14-23). */
module AlarmingNames {
  import opened Text
  import opened Specs
  import opened Batching
  import opened Names
  import opened Scutil
  import opened Keys
  import opened Listings
  import opened DynamicStore

  /** Once an owner whose name contains "failed" has any key, every listing is taken for a
      failure: no owner can be removed and none can be registered. */
  lemma AlarmingOwnerBlocksEverybody(store: Store, owner: string, other: string, spec: Spec, s: Surroundings)
    requires CleanWord(owner) && Slice(store, owner) != map[]
    ensures Contains(ToLower(owner), "failed") ==>
              && ListFails(store)
              && RemoveResult(store, other, s) == (store, Some(ListFailed))
              && ApplyResult(store, other, spec, s) == (store, Some(if s.root then ListFailed else NeedsRoot))
  {
    HasKey(Slice(store, owner));
    var key :| key in Slice(store, owner);
    OwnedIsListable(key);
    ParseKeySound(key);
    hide ParseKey;
    SuspiciousOwner(ParseKey(key).value);
    assert key in store && Listable(key);
  }

  /** When no owner's name contains "failed" and no key outside the contract raises an alarm,
      removal with root and working processes always succeeds. */
  lemma QuietNamesNeverBlock(store: Store, owner: string, s: Surroundings)
    requires forall k :: k in store && Listable(k) ==> OwnerOfKey(k) != "" && NoSpace(OwnerOfKey(k))
    requires forall k :: k in store && OwnerOfKey(k) != "" ==> !Contains(ToLower(OwnerOfKey(k)), "failed")
    requires s.root && !s.listExec && !s.scriptExec && !s.flush
    ensures RemoveResult(store, owner, s).1 == None
  {
    ListFailsExact(store);
  }

  /** "failed" is a valid instance name, its first registration succeeds, and after that its
      keys can never be removed by the program. */
  lemma FailedNameIsStuck()
    ensures var spec := Spec(AddrPort(0, 53), ["mesh.example"], []);
            var root := Surroundings(true, false, false, false, []);
            var (after, err) := ApplyResult(map[], "failed", spec, root);
            ValidName("failed") && err == None && RemoveResult(after, "failed", root) == (after, Some(ListFailed))
  {
    hide *;
    var spec := Spec(AddrPort(0, 53), ["mesh.example"], []);
    FailedIsValid();
    ValidIsClean("failed");
    MeshSpecIsClean();
    FirstRegistration("failed", spec);
    AlarmingOwnerBlocksEverybody(Put(map[], "failed", LayoutMap("failed", spec)), "failed", "failed", spec, Surroundings(true, false, false, false, []));
  }

  lemma FailedIsValid()
    ensures ValidName("failed") && Contains("failed", "failed")
  {
  }

  lemma MeshSpecIsClean()
    ensures CleanSpec(Spec(AddrPort(0, 53), ["mesh.example"], []))
  {
  }

  lemma FirstRegistration(owner: string, spec: Spec)
    requires CleanWord(owner) && CleanSpec(spec) && spec.searchDomains != []
    ensures var after := Put(map[], owner, LayoutMap(owner, spec));
            && ApplyResult(map[], owner, spec, Surroundings(true, false, false, false, [])) == (after, None)
            && Slice(after, owner) != map[]
  {
    hide KeyName, LayoutMap, Layout, Batches, Put, Slice, OwnerOfKey, OwnerName, Listable, ApplyResult, CleanWord, CleanSpec, FitSpec, Optimal, IsSplit;
    BatchesOptimal(spec.searchDomains);
    CleanNames(owner);
    LayoutExact(owner, spec, Search, 0);
    LayoutOwned(owner, spec);
    NothingToWrite(owner, spec);
    SomeBatch(spec.searchDomains);
    PutLaws(map[], owner, LayoutMap(owner, spec));
    CleanFits(spec);
    ApplyWhenFit(map[], owner, spec, Surroundings(true, false, false, false, []));
    assert KeyName(owner, Search, 0) in LayoutMap(owner, spec);
  }

  lemma SomeBatch(domains: seq<string>)
    requires domains != []
    ensures Batches(domains) != []
  {
    BatchesOptimal(domains);
    hide Batches;
  }

  lemma HasKey(m: Store)
    requires m != map[]
    ensures exists k :: k in m
  {
  }
}

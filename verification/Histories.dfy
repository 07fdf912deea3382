/** The main results about runs: what every history of commands keeps, whatever fails in it. */
module Histories {
  import opened Text
  import opened Specs
  import opened Names
  import opened HostDns
  import Scutil
  import opened Keys
  import opened DynamicStore
  import opened Registrations
  import opened Instances
  import opened Lifecycle
  import opened Runs
  import opened Effects

  // ---- Set ----

  /** A requested mode has passed the parser, so it is not the empty one. */
  predicate ValidChanges(ch: Changes) {
    ch.mode.Some? ==> ch.mode.value != Unset
  }

  /** A removal emptied the slice, even if flushing the cache then failed. */
  ghost predicate Removes(dns: Scutil.Store, name: string, s: Surroundings) {
    var err := RemoveResult(dns, name, s).1;
    err.None? || err == Some(FlushFailed)
  }

  /** A valid name has no blank in it, so its keys can be named in a script. */
  lemma RemovesEmpties(dns: Scutil.Store, name: string, s: Surroundings)
    requires Removes(dns, name, s) && ValidName(name)
    ensures Slice(RemoveResult(dns, name, s).0, name) == map[]
  {
    hide Slice, Put, ListFails, Free, ValidName;
    ValidIsFree(name);
    NothingOwned(name);
    PutLaws(dns, name, map[]);
  }

  lemma ValidIsFree(name: string)
    requires ValidName(name)
    ensures Free(name, ' ')
  {
  }

  /** The settings that live in netbird's configuration. */
  predicate SameIsolation(a: Record, b: Record) {
    WGPort(a) == WGPort(b) && DisableSys(EffectiveMode(a)) == DisableSys(EffectiveMode(b))
  }

  /** The one way for record and configuration to part: different settings reach the daemon and
      the save that should record them fails. */
  predicate LosesSettings(w: World, rec: Record, ch: Changes, x: SetInput) {
    && MustPush(rec, ch)
    && Push(w, Changed(rec, ch), x).1
    && x.saveFails
    && !SameIsolation(rec, Changed(rec, ch))
  }

  lemma PushEffect(start: Records, w: World, rec: Record, x: SetInput)
    requires Good(start, w)
    ensures var (w', ok) := Push(w, rec, x);
            && Good(start, w') && w'.records == w.records && w'.dns == w.dns
            && (forall n :: n != rec.name ==> DaemonOf(w', n).config == DaemonOf(w, n).config)
            && DaemonOf(w', rec.name).config == (if ok then Some(Pushed(rec, x.hint)) else DaemonOf(w, rec.name).config)
            && (EnginesAgree(start, w.log) ==> EnginesAgree(start, w'.log))
  {
    hide Good, Steady, Start, Stop, SetConfig, WGPort, EnginesAgree;
    var (w1, started) := Start(w, rec.name, x.start);
    StartKeeps(start, w, rec.name, x.start);
    SteadyGood(start, w, w1);
    var (w2, updated) := SetConfig(w1, rec, x.hint, x.setFails);
    GoodSetConfig(start, w1, rec, x.hint, x.setFails);
    SetConfigOthers(w1, rec, x.hint, x.setFails);
    StopKeeps(start, w2, rec.name, x.stopFails);
    SteadyGood(start, w2, Stop(w2, rec.name, x.stopFails));
  }

  lemma SetConfigOthers(w: World, rec: Record, hint: string, fails: bool)
    ensures forall n :: n != rec.name ==> DaemonOf(SetConfig(w, rec, hint, fails).0, n) == DaemonOf(w, n)
  {
  }

  /** What Set did before its save: configurations, and the dynamic store. */
  ghost function BeforeSave(w: World, rec: Record, ch: Changes, x: SetInput): World {
    var rec' := Changed(rec, ch);
    var w1 := if MustPush(rec, ch) then Push(w, rec', x).0 else w;
    if Leaves(rec, rec') then RemoveDns(w1, rec'.name, x.dns) else w1
  }

  lemma BeforeSaveEffect(start: Records, w: World, rec: Record, ch: Changes, x: SetInput)
    requires Good(start, w)
    ensures var rec' := Changed(rec, ch);
            var w' := BeforeSave(w, rec, ch, x);
            && Good(start, w') && w'.records == w.records
            && w'.dns == (if Leaves(rec, rec') then RemoveResult(w.dns, rec.name, x.dns).0 else w.dns)
            && (forall n :: n != rec.name ==> DaemonOf(w', n).config == DaemonOf(w, n).config)
            && DaemonOf(w', rec.name).config ==
               (if MustPush(rec, ch) && Push(w, rec', x).1 then Some(Pushed(rec', x.hint)) else DaemonOf(w, rec.name).config)
            && (EnginesAgree(start, w.log) ==> EnginesAgree(start, w'.log))
  {
    hide EnginesAgree;
    var rec' := Changed(rec, ch);
    PushEffect(start, w, rec', x);
    var w1 := if MustPush(rec, ch) then Push(w, rec', x).0 else w;
    hide Good, Steady, Push, RemoveResult, MustPush, Leaves, Pushed;
    RemoveDnsSteady(start, w1, rec.name, x.dns);
    SteadyGood(start, w1, RemoveDns(w1, rec.name, x.dns));
    DaemonsOnly(w1, rec.name, x.dns);
    hide DaemonOf;
  }

  /** The world Set leaves, and whether the new record is in it. */
  lemma SetOutcome(w: World, rec: Record, ch: Changes, x: SetInput)
    ensures var (w', rec', ok) := SetCmd(w, rec, ch, x);
            var pushed := MustPush(rec, ch) ==> Push(w, Changed(rec, ch), x).1;
            && rec' == Changed(rec, ch)
            && (ok <==> pushed && !x.saveFails)
            && w' == (if !pushed then Push(w, rec', x).0
                      else if x.saveFails then BeforeSave(w, rec, ch, x) else Save(BeforeSave(w, rec, ch, x), rec'))
  {
    hide Push, RemoveResult;
  }

  lemma SetGood(start: Records, w: World, rec: Record, ch: Changes, x: SetInput)
    requires Good(start, w) && Loaded(w, rec)
    ensures Good(start, SetCmd(w, rec, ch, x).0)
  {
    var w1 := BeforeSave(w, rec, ch, x);
    var rec' := Changed(rec, ch);
    SetOutcome(w, rec, ch, x);
    BeforeSaveEffect(start, w, rec, ch, x);
    PushEffect(start, w, rec', x);
    hide Good, BeforeSave, Push, SetCmd, Savable, DaemonOf, RemoveResult;
    SavableAgain(start, w1, rec, rec');
    GoodSave(start, w1, rec');
  }

  /** Set keeps every record in agreement with its configuration, with exactly one exception. */
  lemma SetAgreement(start: Records, w: World, rec: Record, ch: Changes, x: SetInput)
    requires Good(start, w) && Loaded(w, rec) && ValidChanges(ch) && Agreement(start, w)
    ensures Agreement(start, SetCmd(w, rec, ch, x).0) <==> !LosesSettings(w, rec, ch, x)
  {
    hide Good, SetCmd, EnginesAgree, LosesSettings, Agreed;
    SetEngines(start, w, rec, ch, x);
    SetAgrees(start, w, rec, ch, x);
  }

  /** Setting starts no engine. */
  lemma SetEngines(start: Records, w: World, rec: Record, ch: Changes, x: SetInput)
    requires Good(start, w) && EnginesAgree(start, w.log)
    ensures EnginesAgree(start, SetCmd(w, rec, ch, x).0.log)
  {
    hide Good, BeforeSave, Push, SetCmd, EnginesAgree, RemoveResult, MustPush, Save, DaemonOf, Changed, Pushed, Leaves;
    var rec' := Changed(rec, ch);
    SetOutcome(w, rec, ch, x);
    BeforeSaveEffect(start, w, rec, ch, x);
    PushEffect(start, w, rec', x);
    SaveEngines(start, BeforeSave(w, rec, ch, x), rec');
  }

  lemma SetAgrees(start: Records, w: World, rec: Record, ch: Changes, x: SetInput)
    requires Good(start, w) && Loaded(w, rec) && ValidChanges(ch) && Agreed(w)
    ensures Agreed(SetCmd(w, rec, ch, x).0) <==> !LosesSettings(w, rec, ch, x)
  {
    hide Good, SetCmd, DaemonOf, Push, EffectiveMode, WGPort, DisableSys, EnginesAgree;
    var rec' := Changed(rec, ch);
    var w' := SetCmd(w, rec, ch, x).0;
    SetFiles(start, w, rec, ch, x);
    forall n | n in w'.records && n != rec.name && w'.records[n].loggedIn
      ensures DaemonOf(w', n).config.Some? && Agrees(w'.records[n], DaemonOf(w', n).config.value)
    {
      assert w'.records[n] == w.records[n];
    }
    hide Agrees, MustPush, Changed;
    AgreedWithout(w', rec.name);
    SetOwn(w, rec, ch, x, DaemonOf(w, rec.name).config, DaemonOf(w', rec.name).config);
  }

  /** The files after Set: only this record and this configuration can differ. */
  lemma SetFiles(start: Records, w: World, rec: Record, ch: Changes, x: SetInput)
    requires Good(start, w) && Loaded(w, rec)
    ensures var w' := SetCmd(w, rec, ch, x).0;
            var pushed := MustPush(rec, ch) && Push(w, Changed(rec, ch), x).1;
            && w'.records == (if x.saveFails || (MustPush(rec, ch) && !pushed) then w.records else w.records[rec.name := Changed(rec, ch)])
            && (forall n :: n != rec.name ==> DaemonOf(w', n).config == DaemonOf(w, n).config)
            && DaemonOf(w', rec.name).config == (if pushed then Some(Pushed(Changed(rec, ch), x.hint)) else DaemonOf(w, rec.name).config)
  {
    hide Good, BeforeSave, Push, SetCmd, RemoveResult, MustPush, Pushed, Leaves, DaemonOf;
    var rec' := Changed(rec, ch);
    SetOutcome(w, rec, ch, x);
    BeforeSaveEffect(start, w, rec, ch, x);
    PushEffect(start, w, rec', x);
    SaveDaemons(BeforeSave(w, rec, ch, x), rec');
  }

  lemma SaveDaemons(w: World, rec: Record)
    ensures forall n :: DaemonOf(Save(w, rec), n) == DaemonOf(w, n)
  {
  }

  /** One instance's part of agreement. */
  predicate AgreesIf(rec: Record, config: Option<Config>) {
    rec.loggedIn ==> config.Some? && Agrees(rec, config.value)
  }

  lemma AgreedWithout(w: World, name: string)
    requires name in w.records
    requires forall n :: n in w.records && n != name && w.records[n].loggedIn ==>
               DaemonOf(w, n).config.Some? && Agrees(w.records[n], DaemonOf(w, n).config.value)
    ensures Agreed(w) <==> AgreesIf(w.records[name], DaemonOf(w, name).config)
  {
    hide DaemonOf, Agrees;
  }

  lemma SetOwn(w: World, rec: Record, ch: Changes, x: SetInput, before: Option<Config>, after: Option<Config>)
    requires rec.mode != Unset && ValidChanges(ch) && AgreesIf(rec, before)
    requires after == if MustPush(rec, ch) && Push(w, Changed(rec, ch), x).1 then Some(Pushed(Changed(rec, ch), x.hint)) else before
    ensures var stays := x.saveFails || (MustPush(rec, ch) && !Push(w, Changed(rec, ch), x).1);
            AgreesIf(if stays then rec else Changed(rec, ch), after) <==> !LosesSettings(w, rec, ch, x)
  {
    hide Push;
  }

  /** That exception happens: a mode reaches the daemon and the save that should record it fails. */
  lemma SettingsCanBeLost(dns: Surroundings)
    ensures var rec := Record("a", "m", "k", false, "", 0, 0, Native, false, true, "");
            var w := World(map["a" := rec], map["a" := Daemon(true, Some(Pushed(rec, "utun120")), None)], map[], []);
            var x := SetInput(Started, false, false, "utun120", false, false, dns, true);
            && Good(w.records, w) && Agreement(w.records, w)
            && !Agreement(w.records, SetCmd(w, rec, Changes(Some(Disabled), None, None), x).0)
  {
    var rec := Record("a", "m", "k", false, "", 0, 0, Native, false, true, "");
    var w := World(map["a" := rec], map["a" := Daemon(true, Some(Pushed(rec, "utun120")), None)], map[], []);
    var x := SetInput(Started, false, false, "utun120", false, false, dns, true);
    var ch := Changes(Some(Disabled), None, None);
    assert ValidName("a");
    GoodStart(w);
    assert LosesSettings(w, rec, ch, x);
    assert Agreement(w.records, w);
    hide Good, SetCmd, LosesSettings, Agreement;
    SetAgreement(w.records, w, rec, ch, x);
  }

  lemma SetDnsOwned(start: Records, w: World, rec: Record, ch: Changes, x: SetInput)
    requires Good(start, w) && Loaded(w, rec) && DnsOwned(w) && ValidName(rec.name)
    requires Leaves(rec, Changed(rec, ch)) ==> Removes(w.dns, rec.name, x.dns)
    ensures DnsOwned(SetCmd(w, rec, ch, x).0)
  {
    hide Good, BeforeSave, Push, SetCmd, RemoveResult, Slice, DaemonOf, Removes, ValidName, Pushed, MustPush;
    var rec' := Changed(rec, ch);
    SetOutcome(w, rec, ch, x);
    BeforeSaveEffect(start, w, rec, ch, x);
    PushEffect(start, w, rec', x);
    RemoveNarrows(w.dns, rec.name, x.dns);
    if Leaves(rec, rec') { RemovesEmpties(w.dns, rec.name, x.dns); }
  }

  lemma SetIndexed(start: Records, w: World, rec: Record, ch: Changes, x: SetInput, peak: nat)
    requires Good(start, w) && Loaded(w, rec) && Indexed(w, peak)
    ensures Indexed(SetCmd(w, rec, ch, x).0, peak)
  {
    var rec' := Changed(rec, ch);
    SetOutcome(w, rec, ch, x);
    BeforeSaveEffect(start, w, rec, ch, x);
    PushEffect(start, w, rec', x);
    hide Good, BeforeSave, Push, SetCmd, RemoveResult, DaemonOf, Indexed;
    SameIndexKeeps(w, SetCmd(w, rec, ch, x).0, rec', peak);
  }

  lemma SameIndexKeeps(w: World, w': World, rec: Record, peak: nat)
    requires Indexed(w, peak) && rec.name in w.records && w.records[rec.name].index == rec.index
    requires w'.records == w.records || w'.records == w.records[rec.name := rec]
    ensures Indexed(w', peak)
  {
    assert w'.records.Keys == w.records.Keys;
    assert |w'.records| == |w'.records.Keys| == |w.records|;
  }

  // ---- Remove ----

  lemma RemoveKeeps(start: Records, w: World, rec: Record, purge: bool, x: DownInput, dns: Surroundings, fails: bool, peak: nat)
    requires Good(start, w) && ValidName(rec.name)
    ensures var w' := Remove(w, rec, purge, x, dns, fails);
            && Good(start, w')
            && (Agreement(start, w) ==> Agreement(start, w'))
            && (Indexed(w, peak) ==> Indexed(w', peak))
            && (DnsOwned(w) && Removes(Down(w, rec, x).dns, rec.name, dns) ==> DnsOwned(w'))
  {
    var w1 := Down(w, rec, x);
    var w2 := RemoveDns(w1, rec.name, dns);
    hide Good, Steady, Agreement, Down, Slice, Removes, Indexed, DnsOwned, DnsLike, RemoveDns, RemoveRecord, ValidName;
    DownKeeps(start, w, rec, x);
    SteadyGood(start, w, w1);
    RemoveDnsSteady(start, w1, rec.name, dns);
    SteadyTrans(start, w, w1, w2);
    SteadyGood(start, w1, w2);
    SteadyParts(start, w, w2, peak);
    DownLike(w, rec, x);
    RemoveDnsOwned(start, w, w1, rec.name, dns);
    GoodRemove(start, w2, rec.name, purge, fails);
    if Indexed(w2, peak) { FewerIndexed(w2, rec.name, purge, fails, peak); }
    if DnsOwned(w2) && Removes(w1.dns, rec.name, dns) { GoneUnowned(w1, rec.name, purge, dns, fails); }
  }

  lemma RemoveDnsOwned(start: Records, w: World, w1: World, name: string, dns: Surroundings)
    requires Good(start, w) && Steady(start, w, w1) && DnsLike(w, w1)
    ensures DnsOwned(w) ==> DnsOwned(RemoveDns(w1, name, dns))
  {
    hide Good, Steady, DnsLike, RemoveResult, DnsOwned, Narrows;
    SteadyGood(start, w, w1);
    if DnsOwned(w) {
      SteadyOwned(start, w, w1);
      RemoveDnsSteady(start, w1, name, dns);
      RemoveNarrows(w1.dns, name, dns);
      NarrowsLike(w1, RemoveDns(w1, name, dns));
      SteadyOwned(start, w1, RemoveDns(w1, name, dns));
    }
  }

  lemma GoneUnowned(w: World, name: string, purge: bool, dns: Surroundings, fails: bool)
    requires DnsOwned(RemoveDns(w, name, dns)) && Removes(w.dns, name, dns) && ValidName(name)
    ensures DnsOwned(RemoveRecord(RemoveDns(w, name, dns), name, purge, fails))
  {
    hide Slice, RemoveResult, Removes, ValidName;
    RemovesEmpties(w.dns, name, dns);
  }

  lemma SteadyParts(start: Records, w: World, w': World, peak: nat)
    requires Steady(start, w, w')
    ensures Agreement(start, w) ==> Agreement(start, w')
    ensures Indexed(w, peak) ==> Indexed(w', peak)
    ensures DnsOwned(w) && DnsLike(w, w') ==> DnsOwned(w')
  {
    hide *;
    SteadyAgreement(start, w, w');
    if Indexed(w, peak) { SteadyIndexed(start, w, w', peak); }
    if DnsOwned(w) && DnsLike(w, w') { SteadyOwned(start, w, w'); }
  }

  lemma SteadyAgreement(start: Records, w: World, w': World)
    requires Steady(start, w, w')
    ensures Agreement(start, w) ==> Agreement(start, w')
  {
    hide Good, Agreement;
  }

  lemma FewerIndexed(w: World, name: string, purge: bool, fails: bool, peak: nat)
    requires Indexed(w, peak)
    ensures Indexed(RemoveRecord(w, name, purge, fails), peak)
  {
    var rs := w.records - {name};
    assert rs.Keys == w.records.Keys - {name};
    assert |rs| == |rs.Keys| <= |w.records.Keys| == |w.records|;
  }

  // ---- Add ----

  /** A record as the command line builds it: never logged in. */
  predicate NewRecord(rec: Record) {
    !rec.loggedIn
  }

  lemma AddKeeps(start: Records, w: World, rec: Record, defaultMode: Mode, saveFails: bool, peak: nat)
    requires Good(start, w) && NewRecord(rec)
    ensures var (w', ok) := Add(w, rec, defaultMode, saveFails);
            && Good(start, w')
            && (Agreement(start, w) ==> Agreement(start, w'))
            && (DnsOwned(w) ==> DnsOwned(w'))
            && (Indexed(w, peak) && |w'.records| <= peak ==> Indexed(w', peak))
            && (!ok ==> w' == w)
  {
    var (w', ok) := Add(w, rec, defaultMode, saveFails);
    if ok {
      var r := w'.records[rec.name];
      AddSavable(start, w, r);
      AddEffect(w, r, peak);
      hide Good, Savable, ValidName, Save, Agreed, EnginesAgree, DnsOwned, Indexed, LowestIndex, LeastFree;
      GoodSave(start, w, r);
      if EnginesAgree(start, w.log) { SaveEngines(start, w, r); }
    }
  }

  lemma AddSavable(start: Records, w: World, r: Record)
    requires ValidName(r.name) && r.name !in w.records && !r.loggedIn
    ensures Savable(start, w, r)
  {
  }

  lemma AddEffect(w: World, r: Record, peak: nat)
    requires r.name !in w.records && !r.loggedIn && LeastFree(w.records, r.index) && r.index <= |w.records|
    ensures var w' := Save(w, r);
            && (Agreed(w) ==> Agreed(w'))
            && (DnsOwned(w) ==> DnsOwned(w'))
            && (Indexed(w, peak) && |w'.records| <= peak ==> Indexed(w', peak))
  {
    hide Slice, Agrees, DaemonOf, LeastFree, Save, Indexed;
    SaveDaemons(w, r);
    SavedRecord(w, r);
    if Indexed(w, peak) && |Save(w, r).records| <= peak { AddIndexed(w.records, w, Save(w, r), r, peak); }
  }

  lemma AddIndexed(records: Records, w: World, w': World, r: Record, peak: nat)
    requires w.records == records && w'.records == records[r.name := r] && r.name !in records
    requires LeastFree(records, r.index) && r.index <= |records| && Indexed(w, peak) && |w'.records| <= peak
    ensures Indexed(w', peak)
  {
    hide LeastFree;
    NewSize(records, r);
    NewIndex(records, r.index);
  }

  lemma SavedRecord(w: World, r: Record)
    ensures Save(w, r).records == w.records[r.name := r] && Save(w, r).dns == w.dns
  {
  }

  lemma NewIndex(records: Records, i: int)
    requires LeastFree(records, i)
    ensures i >= 0 && forall n :: n in records ==> records[n].index != i
  {
    forall n | n in records ensures records[n].index != i {
      assert records[n].index in UsedIndices(records);
    }
  }

  lemma NewSize(records: Records, r: Record)
    requires r.name !in records
    ensures |records[r.name := r]| == |records| + 1
  {
    assert records[r.name := r].Keys == records.Keys + {r.name};
  }

  // ---- histories ----

  datatype Command =
    | AddCmd(rec: Record, defaultMode: Mode, addFails: bool)
    | UpCmd(name: string, loadFails: bool, up: UpInput)
    | SettingsCmd(name: string, loadFails: bool, ch: Changes, settings: SetInput)
    | DownCmd(name: string, loadFails: bool, down: DownInput)
    | RemoveCmd(name: string, loadFails: bool, purge: bool, down: DownInput, dns: Surroundings, removeFails: bool)
    | NukeCmd(name: string, loadFails: bool, killFails: bool, dns: Surroundings)
    | SyncCmd(name: string, loadFails: bool, reply: Option<Status>, dns: Surroundings)
    | ViewCmd(name: string, loadFails: bool, view: StatusInput)
    | CleanupCmd(fails: set<string>, listExec: bool, weather: Weather)
    | ListCmd(fails: set<string>)
    | DaemonExits(name: string)

  /** Inputs the command line and the daemon can produce. */
  predicate Possible(c: Command) {
    match c
    case AddCmd(rec, defaultMode, _) => NewRecord(rec) && defaultMode != Unset
    case UpCmd(_, _, up) => ValidStatus(up.status)
    case SettingsCmd(_, _, ch, _) => ValidChanges(ch)
    case SyncCmd(_, _, reply, _) => reply.Some? ==> ValidStatus(reply.value)
    case ViewCmd(_, _, view) => view.reply.Some? ==> ValidStatus(view.reply.value)
    case _ => true
  }

  /** The commands on one instance load its record first, which may migrate it. */
  predicate OnInstance(c: Command) {
    !c.AddCmd? && !c.CleanupCmd? && !c.ListCmd? && !c.DaemonExits?
  }

  ghost function StepLoaded(w: World, rec: Record, c: Command): World
    requires Possible(c) && OnInstance(c)
  {
    match c
    case UpCmd(_, _, up) => Up(w, rec, up).0
    case SettingsCmd(_, _, ch, settings) => SetCmd(w, rec, ch, settings).0
    case DownCmd(_, _, down) => Down(w, rec, down)
    case RemoveCmd(_, _, purge, down, dns, fails) => Remove(w, rec, purge, down, dns, fails)
    case NukeCmd(_, _, killFails, dns) => Nuke(w, rec, killFails, dns)
    case SyncCmd(_, _, reply, dns) => DnsSync(w, rec, reply, dns).0
    case ViewCmd(_, _, view) => StatusCmd(w, rec, view).0
  }

  ghost function Step(w: World, c: Command): World
    requires Possible(c)
  {
    match c
    case AddCmd(rec, defaultMode, fails) => Add(w, rec, defaultMode, fails).0
    case CleanupCmd(fails, listExec, weather) => Cleanup(w, fails, listExec, weather).0
    case ListCmd(fails) => ListAll(w, fails).0
    case DaemonExits(name) => Stop(w, name, false)
    case _ =>
      var (w1, rec) := Load(w, c.name, c.loadFails);
      if rec.None? then w1 else StepLoaded(w1, rec.value, c)
  }

  ghost function Run(w: World, cs: seq<Command>): World
    requires forall i :: 0 <= i < |cs| ==> Possible(cs[i])
    decreases |cs|
  {
    if cs == [] then w else Run(Step(w, cs[0]), cs[1..])
  }

  /** No settings push is followed by a failed save that loses it. */
  ghost predicate KeepsSettings(w: World, c: Command) {
    c.SettingsCmd? ==>
      var (w1, rec) := Load(w, c.name, c.loadFails);
      rec.Some? ==> !LosesSettings(w1, rec.value, c.ch, c.settings)
  }

  /** Where a command leaves an instance without multibird mode or without a record, the removal
      of its keys worked. */
  ghost predicate RemovalsWork(w: World, c: Command) {
    var (w1, r) := if OnInstance(c) then Load(w, c.name, c.loadFails) else (w, None);
    r.Some? ==>
      && (c.SettingsCmd? && Leaves(r.value, Changed(r.value, c.ch)) ==> Removes(w1.dns, c.name, c.settings.dns))
      && (c.RemoveCmd? ==> Removes(Down(w1, r.value, c.down).dns, c.name, c.dns))
  }

  /** Whatever one command meets on its way, it keeps the invariants; two of them under the
      conditions just named. */
  lemma StepKeeps(start: Records, w: World, c: Command, peak: nat)
    requires Good(start, w) && Possible(c)
    ensures Good(start, Step(w, c))
    ensures Agreement(start, w) && KeepsSettings(w, c) ==> Agreement(start, Step(w, c))
    ensures DnsOwned(w) && RemovalsWork(w, c) ==> DnsOwned(Step(w, c))
    ensures Indexed(w, peak) && |Step(w, c).records| <= peak ==> Indexed(Step(w, c), peak)
  {
    hide Good, Agreement, DnsOwned, Indexed, Steady, Load, Add, Cleanup, ListAll, Stop, Loaded, StepLoaded, NewRecord, ValidName,
         ValidStatus, RemovalsWork, KeepsSettings, DnsLike;
    if OnInstance(c) {
      InstanceStepKeeps(start, w, c, peak);
    } else if c.AddCmd? {
      AddKeeps(start, w, c.rec, c.defaultMode, c.addFails, peak);
    } else {
      SharedStepSteady(start, w, c);
      SteadyGood(start, w, Step(w, c));
      SteadyParts(start, w, Step(w, c), peak);
    }
  }

  lemma SharedStepSteady(start: Records, w: World, c: Command)
    requires Good(start, w) && Possible(c) && !OnInstance(c) && !c.AddCmd?
    ensures Steady(start, w, Step(w, c)) && DnsLike(w, Step(w, c))
  {
    hide Good, Steady, Cleanup, ListAll, Stop, DnsLike;
    match c {
      case CleanupCmd(fails, listExec, weather) => CleanupKeeps(start, w, fails, listExec, weather);
      case ListCmd(fails) =>
        ListAllKeeps(start, w, fails);
        SameDnsLike(w, Step(w, c));
      case DaemonExits(name) =>
        StopKeeps(start, w, name, false);
        SameDnsLike(w, Step(w, c));
    }
  }

  lemma SameDnsLike(w: World, w': World)
    requires w'.dns == w.dns
    ensures DnsLike(w, w')
  {
  }

  lemma InstanceStepKeeps(start: Records, w: World, c: Command, peak: nat)
    requires Good(start, w) && Possible(c) && OnInstance(c)
    ensures Good(start, Step(w, c))
    ensures Agreement(start, w) && KeepsSettings(w, c) ==> Agreement(start, Step(w, c))
    ensures DnsOwned(w) && RemovalsWork(w, c) ==> DnsOwned(Step(w, c))
    ensures Indexed(w, peak) ==> Indexed(Step(w, c), peak)
  {
    hide Good, Agreement, DnsOwned, Indexed, Steady, Load, Loaded, StepLoaded, ValidName, DnsLike, Possible,
         LosesSettings, Removes, Leaves, Changed, Down;
    var (w1, rec) := Load(w, c.name, c.loadFails);
    LoadKeeps(start, w, c.name, c.loadFails);
    SteadyGood(start, w, w1);
    SameDnsLike(w, w1);
    SteadyParts(start, w, w1, peak);
    if rec.Some? { LoadedKeeps(start, w1, rec.value, c, peak); }
  }

  lemma LoadedKeeps(start: Records, w: World, rec: Record, c: Command, peak: nat)
    requires Good(start, w) && Loaded(w, rec) && Possible(c) && OnInstance(c) && rec.name == c.name
    ensures var w' := StepLoaded(w, rec, c);
            && Good(start, w')
            && (Agreement(start, w) && (c.SettingsCmd? ==> !LosesSettings(w, rec, c.ch, c.settings)) ==> Agreement(start, w'))
            && (DnsOwned(w)
                && (c.SettingsCmd? && Leaves(rec, Changed(rec, c.ch)) ==> Removes(w.dns, rec.name, c.settings.dns))
                && (c.RemoveCmd? ==> Removes(Down(w, rec, c.down).dns, rec.name, c.dns))
                ==> DnsOwned(w'))
            && (Indexed(w, peak) ==> Indexed(w', peak))
  {
    hide Good, Agreement, DnsOwned, Indexed, Steady, Loaded, Up, SetCmd, Down, Remove, Nuke, DnsSync, StatusCmd,
         LosesSettings, Removes, Leaves, Changed, ValidStatus, ValidName, DnsLike;
    var w' := StepLoaded(w, rec, c);
    LoadedIsValid(start, w, rec);
    if c.SettingsCmd? {
      SetGood(start, w, rec, c.ch, c.settings);
      if Agreement(start, w) { SetAgreement(start, w, rec, c.ch, c.settings); }
      if DnsOwned(w) && (Leaves(rec, Changed(rec, c.ch)) ==> Removes(w.dns, rec.name, c.settings.dns)) {
        SetDnsOwned(start, w, rec, c.ch, c.settings);
      }
      if Indexed(w, peak) { SetIndexed(start, w, rec, c.ch, c.settings, peak); }
    } else if c.RemoveCmd? {
      RemoveKeeps(start, w, rec, c.purge, c.down, c.dns, c.removeFails, peak);
    } else {
      OtherSteady(start, w, rec, c);
      SteadyGood(start, w, w');
      SteadyParts(start, w, w', peak);
    }
  }

  lemma LoadedIsValid(start: Records, w: World, rec: Record)
    requires Good(start, w) && Loaded(w, rec)
    ensures ValidName(rec.name)
  {
    hide ValidName, Logged, Backed;
  }

  lemma OtherSteady(start: Records, w: World, rec: Record, c: Command)
    requires Good(start, w) && Loaded(w, rec) && ValidName(rec.name) && Possible(c) && OnInstance(c) && !c.SettingsCmd? && !c.RemoveCmd?
    ensures Steady(start, w, StepLoaded(w, rec, c)) && DnsLike(w, StepLoaded(w, rec, c))
  {
    hide Good, Steady, Loaded, Up, SetCmd, Down, Remove, Nuke, DnsSync, StatusCmd, ValidStatus, ValidName, DnsLike;
    match c {
      case UpCmd(_, _, up) =>
        UpKeeps(start, w, rec, up);
        UpLike(w, rec, up);
      case DownCmd(_, _, down) =>
        DownKeeps(start, w, rec, down);
        DownLike(w, rec, down);
      case NukeCmd(_, _, killFails, dns) =>
        NukeKeeps(start, w, rec, killFails, dns);
        NukeLike(w, rec, killFails, dns);
      case SyncCmd(_, _, reply, dns) =>
        SyncKeeps(start, w, rec, reply, dns);
        SyncLike(w, rec, reply, dns);
      case ViewCmd(_, _, view) =>
        StatusKeeps(start, w, rec, view);
        StatusLike(w, rec, view);
    }
  }

  ghost predicate AlwaysKeepsSettings(w: World, cs: seq<Command>)
    requires forall i :: 0 <= i < |cs| ==> Possible(cs[i])
    decreases |cs|
  {
    cs != [] ==> KeepsSettings(w, cs[0]) && AlwaysKeepsSettings(Step(w, cs[0]), cs[1..])
  }

  ghost predicate RemovalsAlwaysWork(w: World, cs: seq<Command>)
    requires forall i :: 0 <= i < |cs| ==> Possible(cs[i])
    decreases |cs|
  {
    cs != [] ==> RemovalsWork(w, cs[0]) && RemovalsAlwaysWork(Step(w, cs[0]), cs[1..])
  }

  /** The largest number of instances present at once. */
  ghost function Peak(w: World, cs: seq<Command>): (k: nat)
    requires forall i :: 0 <= i < |cs| ==> Possible(cs[i])
    ensures k >= |w.records| && (cs != [] ==> k >= Peak(Step(w, cs[0]), cs[1..]))
    decreases |cs|
  {
    if cs == [] then |w.records|
    else
      var later := Peak(Step(w, cs[0]), cs[1..]);
      if later > |w.records| then later else |w.records|
  }

  /** Every history, with any failures, stays good: in its log no login follows a saved login
      until the record is removed, no engine starts on a configuration SetConfig did not write
      since, and "logged in" is saved only after SetConfig succeeded. */
  lemma {:induction false} EveryHistoryIsOrderly(start: Records, w: World, cs: seq<Command>)
    requires forall i :: 0 <= i < |cs| ==> Possible(cs[i])
    requires Good(start, w)
    ensures Good(start, Run(w, cs)) && Orderly(start, Run(w, cs).log)
    decreases |cs|
  {
    hide Step, Orderly, RecordsAfter, Configured, Backed, Named;
    if cs != [] {
      StepKeeps(start, w, cs[0], 0);
      EveryHistoryIsOrderly(start, Step(w, cs[0]), cs[1..]);
    }
  }

  /** A world of valid records, the logged-in ones configured, is a good start; in particular
      a fresh installation. */
  lemma GoodStart(w: World)
    requires Named(w) && Backed(w) && w.log == []
    ensures Good(w.records, w)
  {
  }

  /** In every history that loses no settings, records and configurations agree throughout, and
      each engine was started on a configuration that agreed with the record then on file. */
  lemma {:induction false} EveryHistoryAgrees(start: Records, w: World, cs: seq<Command>)
    requires forall i :: 0 <= i < |cs| ==> Possible(cs[i])
    requires Good(start, w) && Agreement(start, w) && AlwaysKeepsSettings(w, cs)
    ensures Agreed(Run(w, cs)) && EnginesAgree(start, Run(w, cs).log)
    decreases |cs|
  {
    hide Step, Good, Agreed, EnginesAgree, KeepsSettings;
    if cs != [] {
      StepKeeps(start, w, cs[0], 0);
      EveryHistoryAgrees(start, Step(w, cs[0]), cs[1..]);
    }
  }

  /** Every registered owner exists in multibird mode, throughout every history whose removals
      work, whatever names the daemons report. */
  lemma {:induction false} EveryHistoryOwnsItsDns(start: Records, w: World, cs: seq<Command>)
    requires forall i :: 0 <= i < |cs| ==> Possible(cs[i])
    requires Good(start, w) && DnsOwned(w) && RemovalsAlwaysWork(w, cs)
    ensures DnsOwned(Run(w, cs))
    decreases |cs|
  {
    hide Step, Good, DnsOwned, RemovalsWork;
    if cs != [] {
      StepKeeps(start, w, cs[0], 0);
      EveryHistoryOwnsItsDns(start, Step(w, cs[0]), cs[1..]);
    }
  }

  /** Indices stay distinct and below the largest number of instances ever present at once. */
  lemma {:induction false} EveryHistoryIndexes(start: Records, w: World, cs: seq<Command>, peak: nat)
    requires forall i :: 0 <= i < |cs| ==> Possible(cs[i])
    requires Good(start, w) && Indexed(w, peak) && Peak(w, cs) <= peak
    ensures Indexed(Run(w, cs), peak)
    decreases |cs|
  {
    hide Step, Good, Indexed;
    if cs != [] {
      StepKeeps(start, w, cs[0], peak);
      assert |Step(w, cs[0]).records| <= Peak(Step(w, cs[0]), cs[1..]);
      EveryHistoryIndexes(start, Step(w, cs[0]), cs[1..], peak);
    }
  }

  /** So derived ports never clash with each other or with a stock install. */
  lemma DerivedPorts(w: World, peak: nat, n: string, m: string)
    requires Indexed(w, peak) && n in w.records && m in w.records && n != m
    requires w.records[n].wgPort == 0 && w.records[m].wgPort == 0
    ensures WGPort(w.records[n]) != WGPort(w.records[m])
    ensures 51900 <= WGPort(w.records[n]) <= 51900 + peak - 1
    ensures WGPort(w.records[n]) != 51820
  {
  }

  // ---- cleaning up and syncing ----

  /** The owners not known, in order. */
  function Strays(owners: seq<string>, known: set<string>): seq<string> {
    if owners == [] then []
    else if owners[0] in known then Strays(owners[1..], known)
    else [owners[0]] + Strays(owners[1..], known)
  }

  lemma {:induction false} StraysExact(owners: seq<string>, known: set<string>)
    ensures forall o :: o in Strays(owners, known) <==> o in owners && o !in known
    ensures Distinct(owners) ==> Distinct(Strays(owners, known))
  {
    if owners != [] {
      StraysExact(owners[1..], known);
      assert owners == [owners[0]] + owners[1..];
    }
  }

  /** What a successful removal makes of a slice. */
  ghost function Swept(dns: Scutil.Store, o: string): Scutil.Store {
    if Free(o, ' ') then map[] else Slice(dns, o)
  }

  lemma RemoveSweeps(dns: Scutil.Store, o: string, s: Surroundings)
    ensures RemoveResult(dns, o, s).1.None? ==> Slice(RemoveResult(dns, o, s).0, o) == Swept(dns, o)
  {
    hide Slice, Put, ListFails, Free;
    NothingOwned(o);
    PutLaws(dns, o, map[]);
  }

  /** The owner whose removal failed. */
  predicate StoppedAt(strays: seq<string>, cleaned: seq<string>, ok: bool, o: string) {
    !ok && |cleaned| < |strays| && strays[|cleaned|] == o
  }

  /** The loop cleans the strays in order up to the first whose removal fails; the slices of the
      cleaned ones are swept, and of the others only that of the failed one may differ. */
  ghost predicate SweptUpTo(dns: Scutil.Store, strays: seq<string>, dns': Scutil.Store, cleaned: seq<string>, ok: bool) {
    && cleaned <= strays && (ok <==> cleaned == strays)
    && (forall o :: o in cleaned ==> Slice(dns', o) == (if Free(o, ' ') then map[] else Slice(dns, o)))
    && (forall o :: o !in cleaned && !StoppedAt(strays, cleaned, ok, o) ==> Slice(dns', o) == Slice(dns, o))
  }

  lemma {:induction false} CleanStraysExact(dns: Scutil.Store, owners: seq<string>, known: set<string>, weather: Weather)
    requires Distinct(owners)
    ensures var (dns', cleaned, ok) := CleanStrays(dns, owners, known, weather);
            SweptUpTo(dns, Strays(owners, known), dns', cleaned, ok)
    decreases |owners|
  {
    hide Slice, RemoveResult, Over, SweptUpTo, Free;
    if owners == [] {
      NothingSwept(dns);
    } else if owners[0] in known {
      CleanStraysExact(dns, owners[1..], known, weather);
    } else {
      var o, rest := owners[0], owners[1..];
      var (dns1, err) := RemoveResult(dns, o, Over(weather, o));
      RemoveNarrows(dns, o, Over(weather, o));
      RemoveSweeps(dns, o, Over(weather, o));
      StraysExact(rest, known);
      assert o !in rest;
      if err.Some? {
        StopsAtOnce(dns, o, Strays(rest, known), dns1);
      } else {
        CleanStraysExact(dns1, rest, known, weather);
        var (dns2, more, ok) := CleanStrays(dns1, rest, known, weather);
        SweptFirst(dns, o, Strays(rest, known), dns1, dns2, more, ok);
      }
    }
  }

  lemma NothingSwept(dns: Scutil.Store)
    ensures SweptUpTo(dns, [], dns, [], true)
  {
    hide Slice;
  }

  lemma StopsAtOnce(dns: Scutil.Store, o: string, rest: seq<string>, dns1: Scutil.Store)
    requires forall p :: p != o ==> Slice(dns1, p) == Slice(dns, p)
    ensures SweptUpTo(dns, [o] + rest, dns1, [], false)
  {
    hide Slice;
  }

  lemma SweptFirst(dns: Scutil.Store, o: string, rest: seq<string>, dns1: Scutil.Store, dns2: Scutil.Store, more: seq<string>, ok: bool)
    requires forall p :: p != o ==> Slice(dns1, p) == Slice(dns, p)
    requires Slice(dns1, o) == Swept(dns, o) && o !in rest && SweptUpTo(dns1, rest, dns2, more, ok)
    ensures SweptUpTo(dns, [o] + rest, dns2, [o] + more, ok)
  {
    hide Slice, Free;
    var strays, cleaned := [o] + rest, [o] + more;
    assert o !in more by {
      assert forall i :: 0 <= i < |more| ==> more[i] == rest[i];
    }
    assert cleaned <= strays;
    assert cleaned == strays <==> more == rest by { assert cleaned[1..] == more && strays[1..] == rest; }
    assert forall p :: StoppedAt(strays, cleaned, ok, p) <==> StoppedAt(rest, more, ok, p);
    assert !StoppedAt(rest, more, ok, o);
  }

  lemma NamesListed(records: Records, names: seq<string>, list: seq<Record>)
    requires ListedAs(records, names, list) && forall n :: n in records ==> records[n].name == n
    ensures NamesIn(list) == records.Keys
  {
    hide StrictlySorted;
    forall n | n in records ensures n in NamesIn(list) {
      assert n in Elements(names);
      var i :| 0 <= i < |names| && names[i] == n;
      assert list[i].name == n;
    }
  }

  lemma ListedNames(w: World, fails: set<string>)
    requires Named(w)
    ensures var (w', list) := ListAll(w, fails);
            w'.dns == w.dns && w'.records.Keys == w.records.Keys && (list.Some? ==> NamesIn(list.value) == w.records.Keys)
  {
    hide ListAll, ListedAs, NamesIn, SortedOf, ValidName, EffectiveMode;
    ListAllExact(w, fails);
    var (w', list) := ListAll(w, fails);
    if list.Some? { NamesListed(w'.records, SortedOf(w.records.Keys), list.value); }
  }

  /** The owners in the store that no record names, in order. */
  ghost function StraysOf(w: World): seq<string> {
    Strays(SortedOf(Owners(w.dns)), w.records.Keys)
  }

  /** A cleanup cleans and returns the owners without an instance, in order, up to the first whose
      removal fails; a name with a blank in it is returned as well but keeps its keys. No other
      slice changes. */
  lemma CleanupExact(w: World, fails: set<string>, listExec: bool, weather: Weather, o: string)
    requires Named(w)
    ensures var (w', cleaned, ok) := Cleanup(w, fails, listExec, weather);
            && (o in StraysOf(w) <==> o in Owners(w.dns) && o !in w.records)
            && cleaned <= StraysOf(w) && (ok ==> cleaned == StraysOf(w))
            && (o in cleaned ==> Slice(w'.dns, o) == if Free(o, ' ') then map[] else Slice(w.dns, o))
            && (o !in cleaned && !StoppedAt(StraysOf(w), cleaned, ok, o) ==> Slice(w'.dns, o) == Slice(w.dns, o))
  {
    hide CleanStrays, Cleanup, Slice, Owners, Strays, SortedOf, Named, Free, StoppedAt;
    var owners := SortedOf(Owners(w.dns));
    SortedNames(Owners(w.dns));
    assert o in owners <==> o in Elements(owners);
    StraysExact(owners, w.records.Keys);
    CleanStraysExact(w.dns, owners, w.records.Keys, weather);
    CleanupLoop(w, fails, listExec, weather);
  }

  /** A cleanup that gets as far as its loop runs it over the owners with the names on file. */
  lemma CleanupLoop(w: World, fails: set<string>, listExec: bool, weather: Weather)
    requires Named(w)
    ensures var (w', cleaned, ok) := Cleanup(w, fails, listExec, weather);
            || (w'.dns == w.dns && cleaned == [] && !ok)
            || (w'.dns, cleaned, ok) == CleanStrays(w.dns, SortedOf(Owners(w.dns)), w.records.Keys, weather)
  {
    hide CleanStrays, Owners, ListAll, ListFails, SortedOf, NamesIn, Named;
    ListedNames(w, fails);
    var (w1, list) := ListAll(w, fails);
    if !listExec && !ListFails(w.dns) && list.Some? {
      assert NamesIn(list.value) == w.records.Keys && w1.dns == w.dns;
      var r := CleanStrays(w.dns, SortedOf(Owners(w.dns)), w.records.Keys, weather);
      assert r == CleanStrays(w1.dns, SortedOf(Owners(w.dns)), NamesIn(list.value), weather);
      assert Cleanup(w, fails, listExec, weather) == (w1.(dns := r.0), r.1, r.2);
    }
  }

  lemma OwnersBySlice(dns: Scutil.Store, o: string)
    ensures o in Owners(dns) <==> o != "" && Slice(dns, o) != map[]
  {
    hide OwnerOfKey;
    if o in Owners(dns) {
      var k :| k in dns && OwnerOfKey(k) != "" && o == OwnerOfKey(k);
      assert k in Slice(dns, o);
    }
    if o != "" && Slice(dns, o) != map[] {
      var k :| k in Slice(dns, o);
      assert OwnerOfKey(k) in Owners(dns);
    }
  }

  /** When every owner exists, there is nothing to clean. */
  lemma CleanupIdle(start: Records, w: World, fails: set<string>, listExec: bool, weather: Weather)
    requires Good(start, w) && DnsOwned(w)
    ensures Cleanup(w, fails, listExec, weather).0.dns == w.dns && Cleanup(w, fails, listExec, weather).1 == []
  {
    hide Slice, Owners, Cleanup, Backed, Logged, Named, SortedOf, CleanStrays, Elements;
    var owners := SortedOf(Owners(w.dns));
    SortedNames(Owners(w.dns));
    forall o | o in owners ensures o in w.records {
      OwnersBySlice(w.dns, o);
    }
    CleanupLoop(w, fails, listExec, weather);
    NoStrays(w.dns, owners, w.records.Keys, weather);
  }

  /** So a cleanup after any history whose removals worked finds nothing to do. */
  lemma CleanupAfterHistory(start: Records, w: World, cs: seq<Command>, fails: set<string>, listExec: bool, weather: Weather)
    requires forall i :: 0 <= i < |cs| ==> Possible(cs[i])
    requires Good(start, w) && DnsOwned(w) && RemovalsAlwaysWork(w, cs)
    ensures var after := Run(w, cs);
            Cleanup(after, fails, listExec, weather).0.dns == after.dns && Cleanup(after, fails, listExec, weather).1 == []
  {
    hide *;
    EveryHistoryIsOrderly(start, w, cs);
    EveryHistoryOwnsItsDns(start, w, cs);
    CleanupIdle(start, Run(w, cs), fails, listExec, weather);
  }

  lemma {:induction false} NoStrays(dns: Scutil.Store, owners: seq<string>, known: set<string>, weather: Weather)
    requires forall o :: o in owners ==> o in known
    ensures CleanStrays(dns, owners, known, weather) == (dns, [], true)
    decreases |owners|
  {
    if owners != [] {
      assert owners[0] in owners;
      NoStrays(dns, owners[1..], known, weather);
    }
  }

  /** A successful sync leaves nothing (not in multibird mode, or no daemon), the slice as it was
      (no address yet), or what the script for the derived registration leaves, whatever else is
      in the store: exactly the layout if and only if each derived domain is one word on one line,
      as it is when no reported name has blanks inside it. No other instance's slice and no record
      changes, and no foreign key as long as no reported name has a line break inside it. */
  lemma SyncExact(w: World, rec: Record, reply: Option<Status>, s: Surroundings, other: string)
    requires ValidName(rec.name) && (reply.Some? ==> ValidStatus(reply.value))
    requires DnsSync(w, rec, reply, s).1
    ensures var w' := DnsSync(w, rec, reply, s).0;
            && w' == w.(dns := w'.dns)
            && (other != rec.name && (other == "" && reply.Some? ==> OneLineStatus(reply.value)) ==>
                  Slice(w'.dns, other) == Slice(w.dns, other))
            && if rec.mode != Multibird || !DaemonOf(w, rec.name).running then Slice(w'.dns, rec.name) == map[]
               else if reply.value.ip.Missing? then Slice(w'.dns, rec.name) == Slice(w.dns, rec.name)
               else
                 && Derived(reply.value).Ok?
                 && var spec := Derived(reply.value).value;
                 && Slice(w'.dns, rec.name) == LeavesMap(rec.name, spec)
                 && (Slice(w'.dns, rec.name) == LayoutMap(rec.name, spec) <==> FitSpec(spec))
                 && (CleanStatus(reply.value) ==> FitSpec(spec))
  {
    hide LayoutMap, LeavesMap, Slice, RemoveResult, ApplyFromStatus, ValidName, FitSpec, Derived, NeatStatus, DaemonOf;
    if reply.Some? && reply.value.ip.Missing? { NoAddressNoChange(w.dns, rec, reply.value, s); }
    if rec.mode != Multibird || !DaemonOf(w, rec.name).running {
      RemoveNarrows(w.dns, rec.name, s);
      RemovesEmpties(w.dns, rec.name, s);
    } else {
      ApplyFromStatusLike(w.dns, rec, reply.value, s);
      if !reply.value.ip.Missing? { ApplySucceeds(w.dns, rec, reply.value, s); }
    }
  }

  lemma NoAddressNoChange(dns: Scutil.Store, rec: Record, st: Status, s: Surroundings)
    requires ValidStatus(st) && st.ip.Missing?
    ensures ApplyFromStatus(dns, rec, st, s) == (dns, true)
  {
  }

  lemma ApplySucceeds(dns: Scutil.Store, rec: Record, st: Status, s: Surroundings)
    requires ValidName(rec.name) && ValidStatus(st) && rec.mode == Multibird && !st.ip.Missing?
    requires ApplyFromStatus(dns, rec, st, s).1
    ensures Derived(st).Ok?
    ensures var spec := Derived(st).value;
            && Slice(ApplyFromStatus(dns, rec, st, s).0, rec.name) == LeavesMap(rec.name, spec)
            && (LeavesMap(rec.name, spec) == LayoutMap(rec.name, spec) <==> FitSpec(spec))
            && (CleanStatus(st) ==> FitSpec(spec))
  {
    hide LayoutMap, LeavesMap, Slice, ApplyResult, ValidName, FitSpec, Derived, NeatStatus, CleanSpec, CleanWord;
    var spec := Derived(st).value;
    ValidIsClean(rec.name);
    LeftAsMeantExactly(rec.name, spec);
    ApplyLeaves(dns, rec.name, spec, s);
    if CleanStatus(st) {
      DerivedIsClean(st);
      CleanFits(spec);
    }
  }

  // ---- commands succeed when nothing fails ----

  /** Privilege, and processes that work. */
  predicate Calm(s: Surroundings) {
    s.root && !s.listExec && !s.scriptExec && !s.flush
  }

  /** A cleanup that meets no failure completes. */
  lemma CleanupCompletes(w: World, fails: set<string>, weather: Weather)
    requires Named(w) && !ListFails(w.dns)
    requires forall n :: n in w.records && w.records[n].mode == Unset ==> n !in fails
    requires forall o :: o in Owners(w.dns) && o !in w.records ==> Calm(Over(weather, o))
    ensures Cleanup(w, fails, false, weather).2 && Cleanup(w, fails, false, weather).1 == StraysOf(w)
  {
    hide CleanStrays, Cleanup, Owners, ListAll, ListFails, Strays, SortedOf, NamesIn, Named, Over, SweptUpTo, ListedAs, Calm;
    var owners := SortedOf(Owners(w.dns));
    SortedNames(Owners(w.dns));
    ListAllExact(w, fails);
    CleanupReaches(w, fails, weather);
    forall o | o in owners && o !in w.records.Keys ensures Calm(Over(weather, o)) { assert o in Elements(owners); }
    StraysGo(w.dns, owners, w.records.Keys, weather);
    StraysGone(w.dns, owners, w.records.Keys, weather);
  }

  lemma StraysGone(dns: Scutil.Store, owners: seq<string>, known: set<string>, weather: Weather)
    requires Distinct(owners) && CleanStrays(dns, owners, known, weather).2
    ensures CleanStrays(dns, owners, known, weather).1 == Strays(owners, known)
  {
    hide CleanStrays, Strays, Slice, StoppedAt, Free;
    CleanStraysExact(dns, owners, known, weather);
  }

  lemma CleanupReaches(w: World, fails: set<string>, weather: Weather)
    requires Named(w) && !ListFails(w.dns) && ListAll(w, fails).1.Some?
    ensures var (dns, cleaned, ok) := CleanStrays(w.dns, SortedOf(Owners(w.dns)), w.records.Keys, weather);
            Cleanup(w, fails, false, weather).1 == cleaned && (Cleanup(w, fails, false, weather).2 <==> ok)
  {
    hide CleanStrays, Owners, ListAll, ListFails, SortedOf, NamesIn, Named;
    ListedNames(w, fails);
    var (w1, list) := ListAll(w, fails);
    assert NamesIn(list.value) == w.records.Keys && w1.dns == w.dns;
    var r := CleanStrays(w.dns, SortedOf(Owners(w.dns)), w.records.Keys, weather);
    assert r == CleanStrays(w1.dns, SortedOf(Owners(w.dns)), NamesIn(list.value), weather);
  }

  lemma {:induction false} StraysGo(dns: Scutil.Store, owners: seq<string>, known: set<string>, weather: Weather)
    requires !ListFails(dns) && forall o :: o in owners && o !in known ==> Calm(Over(weather, o))
    ensures CleanStrays(dns, owners, known, weather).2
    decreases |owners|
  {
    hide ListFails, RemoveResult, Over;
    if owners != [] {
      assert owners[0] in owners;
      if owners[0] in known {
        StraysGo(dns, owners[1..], known, weather);
      } else {
        RemoveSucceedsExactly(dns, owners[0], Over(weather, owners[0]));
        RemovalsStayQuiet(dns, owners[0], Over(weather, owners[0]));
        StraysGo(RemoveResult(dns, owners[0], Over(weather, owners[0])).0, owners[1..], known, weather);
      }
    }
  }

  /** A sync that meets no failure succeeds: with a running multibird daemon that answers with an
      address and a status that derives to fit domains, or with nothing to sync. */
  lemma SyncSucceeds(w: World, rec: Record, reply: Option<Status>, s: Surroundings)
    requires ValidName(rec.name) && Calm(s) && !ListFails(w.dns) && (reply.Some? ==> CleanStatus(reply.value))
    ensures DnsSync(w, rec, reply, s).1 <==>
            || rec.mode != Multibird || !DaemonOf(w, rec.name).running
            || (reply.Some? && (reply.value.ip.Missing? || Derived(reply.value).Ok?))
  {
    hide ListFails, RemoveResult, ApplyResult, Derived, NeatStatus, DaemonOf, ValidName, CleanSpec, CleanWord, FitSpec, Slice, DnsSync;
    SyncOutcome(w, rec, reply, s);
    RemoveSucceedsExactly(w.dns, rec.name, s);
    if reply.Some? && Derived(reply.value).Ok? {
      ValidIsClean(rec.name);
      DerivedIsClean(reply.value);
      CleanFits(Derived(reply.value).value);
      ApplySucceedsExactly(w.dns, rec.name, Derived(reply.value).value, s);
    }
  }

  // ---- a history is its commands, one after another ----

  /** Each command loads its instance's record, unless it has none, and then does its work. */
  lemma StepExact(w: World, c: Command)
    requires Possible(c)
    ensures c.AddCmd? ==> Step(w, c) == Add(w, c.rec, c.defaultMode, c.addFails).0
    ensures c.CleanupCmd? ==> Step(w, c) == Cleanup(w, c.fails, c.listExec, c.weather).0
    ensures c.ListCmd? ==> Step(w, c) == ListAll(w, c.fails).0
    ensures c.DaemonExits? ==> Step(w, c) == w.(daemons := w.daemons[c.name := DaemonOf(w, c.name).(running := false, engine := None)])
    ensures OnInstance(c) ==>
              var (w1, r) := Load(w, c.name, c.loadFails);
              && (r.None? ==> Step(w, c) == w)
              && (r.Some? && c.UpCmd? ==> Step(w, c) == Up(w1, r.value, c.up).0)
              && (r.Some? && c.SettingsCmd? ==> Step(w, c) == SetCmd(w1, r.value, c.ch, c.settings).0)
              && (r.Some? && c.DownCmd? ==> Step(w, c) == Down(w1, r.value, c.down))
              && (r.Some? && c.RemoveCmd? ==> Step(w, c) == Remove(w1, r.value, c.purge, c.down, c.dns, c.removeFails))
              && (r.Some? && c.NukeCmd? ==> Step(w, c) == Nuke(w1, r.value, c.killFails, c.dns))
              && (r.Some? && c.SyncCmd? ==> Step(w, c) == DnsSync(w1, r.value, c.reply, c.dns).0)
              && (r.Some? && c.ViewCmd? ==> Step(w, c) == StatusCmd(w1, r.value, c.view).0)
  {
    hide Up, SetCmd, Down, Remove, Nuke, DnsSync, StatusCmd, Cleanup, ListAll, Add, ValidName, Normalized, NewRecord;
  }

  lemma {:induction false} RunExact(w: World, cs: seq<Command>, c: Command)
    requires Possible(c) && forall i :: 0 <= i < |cs| ==> Possible(cs[i])
    ensures Run(w, []) == w && Run(w, cs + [c]) == Step(Run(w, cs), c)
    decreases |cs|
  {
    hide Step, Possible;
    if cs == [] {
      assert [] + [c] == [c] && [c][1..] == [];
    } else {
      assert (cs + [c])[1..] == cs[1..] + [c];
      RunExact(Step(w, cs[0]), cs[1..], c);
    }
  }
}

/** Whole runs of commands, failures included (internal/ops). */
module Runs {
  import opened Text
  import opened Specs
  import opened Names
  import opened HostDns
  import Scutil
  import opened DynamicStore
  import opened OwnKeys
  import opened Instances
  import opened Lifecycle

  // ---- what the log says ----

  /** The records on file after an event. */
  function RecordAfter(before: Records, e: Event): Records {
    if e.RecordSaved? then before[e.name := e.rec]
    else if e.RecordRemoved? then before - {e.name}
    else before
  }

  /** How one event changes the set of instances whose configuration SetConfig has written since
      their record was last removed. */
  function ConfigAfter(before: set<string>, e: Event): set<string> {
    if e.ConfigSet? then before + {e.name}
    else if e.RecordRemoved? then before - {e.name}
    else before
  }

  function RecordsAfter(start: Records, log: seq<Event>): Records {
    if log == [] then start else RecordAfter(RecordsAfter(start, log[..|log| - 1]), log[|log| - 1])
  }

  function Configured(start: Records, log: seq<Event>): set<string> {
    if log == [] then set n | n in start && start[n].loggedIn
    else ConfigAfter(Configured(start, log[..|log| - 1]), log[|log| - 1])
  }

  predicate SaysLoggedIn(records: Records, name: string) {
    name in records && records[name].loggedIn
  }

  /** What is allowed to happen next after the events of `log`: no login once a saved record says
      logged in, no engine but on a configuration that SetConfig wrote for this record, a record
      saved as logged in only after SetConfig succeeded, and never saved back as not logged in. */
  predicate Allowed(start: Records, log: seq<Event>, e: Event) {
    && (e.LoginSent? ==> !SaysLoggedIn(RecordsAfter(start, log), e.name))
    && (e.EngineStarted? ==> e.cfg.isolated && e.name in Configured(start, log))
    && (e.RecordSaved? && e.rec.loggedIn ==> e.name in Configured(start, log))
    && (e.RecordSaved? && SaysLoggedIn(RecordsAfter(start, log), e.name) ==> e.rec.loggedIn)
  }

  predicate Orderly(start: Records, log: seq<Event>) {
    forall i :: 0 <= i < |log| ==> Allowed(start, log[..i], log[i])
  }

  lemma OrderlySnoc(start: Records, log: seq<Event>, e: Event)
    requires Orderly(start, log) && Allowed(start, log, e)
    ensures Orderly(start, log + [e])
  {
    hide Allowed;
    var all := log + [e];
    forall i | 0 <= i < |all| ensures Allowed(start, all[..i], all[i]) {
      assert all[..i] == if i < |log| then log[..i] else log;
    }
  }

  lemma FoldsSnoc(start: Records, log: seq<Event>, e: Event)
    ensures RecordsAfter(start, log + [e]) == RecordAfter(RecordsAfter(start, log), e)
    ensures Configured(start, log + [e]) == ConfigAfter(Configured(start, log), e)
  {
    assert (log + [e])[..|log|] == log;
  }

  // ---- the invariant ----

  /** Records sit under their own valid names. */
  predicate Named(w: World) {
    forall n :: n in w.records ==> ValidName(n) && w.records[n].name == n
  }

  /** A logged-in record has a configuration that SetConfig wrote. */
  predicate Backed(w: World) {
    forall n :: n in w.records && w.records[n].loggedIn ==>
      DaemonOf(w, n).config.Some? && DaemonOf(w, n).config.value.isolated
  }

  /** The log is orderly, and the records on file are what it says. */
  ghost predicate Logged(start: Records, w: World) {
    && Orderly(start, w.log)
    && w.records == RecordsAfter(start, w.log)
    && forall n :: n in w.records && w.records[n].loggedIn ==> n in Configured(start, w.log)
  }

  ghost predicate Good(start: Records, w: World) {
    Named(w) && Backed(w) && Logged(start, w)
  }

  /** The daemon's configuration carries the record's port and DNS setting. */
  predicate Agrees(rec: Record, cfg: Config) {
    cfg.port == WGPort(rec) && cfg.disableDNS == DisableSys(EffectiveMode(rec))
  }

  predicate Agreed(w: World) {
    forall n :: n in w.records && w.records[n].loggedIn ==>
      DaemonOf(w, n).config.Some? && Agrees(w.records[n], DaemonOf(w, n).config.value)
  }

  /** An engine starts on a configuration that agrees with the record then on file. */
  predicate StartAgrees(start: Records, log: seq<Event>, e: Event) {
    e.EngineStarted? ==> e.name in RecordsAfter(start, log) && Agrees(RecordsAfter(start, log)[e.name], e.cfg)
  }

  predicate EnginesAgree(start: Records, log: seq<Event>) {
    forall i :: 0 <= i < |log| ==> StartAgrees(start, log[..i], log[i])
  }

  lemma EnginesSnoc(start: Records, log: seq<Event>, e: Event)
    requires EnginesAgree(start, log) && StartAgrees(start, log, e)
    ensures EnginesAgree(start, log + [e])
  {
    hide StartAgrees;
    var all := log + [e];
    forall i | 0 <= i < |all| ensures StartAgrees(start, all[..i], all[i]) {
      assert all[..i] == if i < |log| then log[..i] else log;
    }
  }

  /** Records and configurations agree, and so they did whenever an engine was started. */
  predicate Agreement(start: Records, w: World) {
    Agreed(w) && EnginesAgree(start, w.log)
  }

  /** Every registered owner is an existing instance stored in multibird mode. */
  ghost predicate DnsOwned(w: World) {
    forall o :: o != "" && Slice(w.dns, o) != map[] ==> o in w.records && w.records[o].mode == Multibird
  }

  /** Indices are distinct and below a bound that the number of records never passed. */
  predicate Indexed(w: World, peak: nat) {
    && |w.records| <= peak
    && (forall n :: n in w.records ==> 0 <= w.records[n].index < peak)
    && (forall n, m :: n in w.records && m in w.records && n != m ==> w.records[n].index != w.records[m].index)
  }

  // ---- single calls keep it ----

  /** Nothing but running flags, engines or the dynamic store differs. */
  ghost predicate SameFiles(w: World, w': World) {
    && w'.records == w.records && w'.log == w.log
    && forall n :: DaemonOf(w', n).config == DaemonOf(w, n).config
  }

  lemma GoodSameFiles(start: Records, w: World, w': World)
    requires SameFiles(w, w')
    ensures Good(start, w) ==> Good(start, w')
    ensures Agreement(start, w) ==> Agreement(start, w')
  {
    hide Orderly, RecordsAfter, Configured, ValidName, EnginesAgree, Agrees;
  }

  /** A record may be saved when, if logged in, its configuration is there and was pushed, and
      when it does not take back a login. */
  ghost predicate Savable(start: Records, w: World, rec: Record) {
    && ValidName(rec.name)
    && (rec.loggedIn ==> rec.name in Configured(start, w.log) && DaemonOf(w, rec.name).config.Some? && DaemonOf(w, rec.name).config.value.isolated)
    && (SaysLoggedIn(w.records, rec.name) ==> rec.loggedIn)
  }

  lemma GoodSave(start: Records, w: World, rec: Record)
    requires Good(start, w) && Savable(start, w, rec)
    ensures Good(start, Save(w, rec))
  {
    hide Orderly, RecordsAfter, Configured, ValidName;
    var e := RecordSaved(rec.name, rec);
    assert Allowed(start, w.log, e);
    OrderlySnoc(start, w.log, e);
    FoldsSnoc(start, w.log, e);
    assert forall n :: DaemonOf(Save(w, rec), n) == DaemonOf(w, n);
  }

  lemma SaveEngines(start: Records, w: World, rec: Record)
    requires EnginesAgree(start, w.log)
    ensures EnginesAgree(start, Save(w, rec).log)
  {
    hide EnginesAgree, RecordsAfter;
    EnginesSnoc(start, w.log, RecordSaved(rec.name, rec));
  }

  /** An event that saves or removes nothing, on a world with the same records. */
  lemma GoodEvent(start: Records, w: World, w': World, e: Event)
    requires Good(start, w) && Allowed(start, w.log, e) && !e.RecordSaved? && !e.RecordRemoved?
    requires w'.log == w.log + [e] && w'.records == w.records && Backed(w')
    ensures Good(start, w')
    ensures e.ConfigSet? ==> e.name in Configured(start, w'.log)
    ensures EnginesAgree(start, w.log) && StartAgrees(start, w.log, e) ==> EnginesAgree(start, w'.log)
  {
    hide Orderly, RecordsAfter, Configured, ValidName, DaemonOf, Allowed, EnginesAgree, StartAgrees;
    OrderlySnoc(start, w.log, e);
    FoldsSnoc(start, w.log, e);
    if EnginesAgree(start, w.log) && StartAgrees(start, w.log, e) { EnginesSnoc(start, w.log, e); }
  }

  lemma GoodLogin(start: Records, w: World, rec: Record, o: LoginOutcome)
    requires Good(start, w) && !SaysLoggedIn(w.records, rec.name)
    ensures Good(start, Login(w, rec, o))
    ensures LoginPasses(o) ==> DaemonOf(Login(w, rec, o), rec.name).config.Some?
    ensures Login(w, rec, o).records == w.records && Login(w, rec, o).dns == w.dns
    ensures Agreement(start, w) ==> Agreement(start, Login(w, rec, o))
  {
    hide RecordsAfter, Configured, Orderly, ValidName, Agrees, EnginesAgree;
    assert Allowed(start, w.log, LoginSent(rec.name));
    assert StartAgrees(start, w.log, LoginSent(rec.name));
    GoodEvent(start, w, Login(w, rec, o), LoginSent(rec.name));
  }

  lemma GoodSetConfig(start: Records, w: World, rec: Record, hint: string, fails: bool)
    requires Good(start, w)
    ensures var (w', ok) := SetConfig(w, rec, hint, fails);
            && Good(start, w') && w'.records == w.records && w'.dns == w.dns
            && (ok ==> rec.name in Configured(start, w'.log) && DaemonOf(w', rec.name).config == Some(Pushed(rec, hint)))
            && (!ok ==> w' == w)
            && (EnginesAgree(start, w.log) ==> EnginesAgree(start, w'.log))
  {
    hide RecordsAfter, Configured, Orderly, ValidName, WGPort, EnginesAgree;
    var (w', ok) := SetConfig(w, rec, hint, fails);
    if ok {
      var e := ConfigSet(rec.name, Pushed(rec, hint));
      assert Allowed(start, w.log, e) && StartAgrees(start, w.log, e);
      assert Backed(w');
      GoodEvent(start, w, w', e);
    }
  }

  /** An engine is started only on a configuration that was pushed for the record on file, and
      when records and configurations agree, on one that agrees with it. */
  lemma GoodEngine(start: Records, w: World, rec: Record, o: EngineOutcome)
    requires Good(start, w) && rec.name in w.records && w.records[rec.name] == rec && rec.loggedIn
    ensures var w' := StartEngine(w, rec, o);
            Good(start, w') && w'.records == w.records && w'.dns == w.dns && (Agreement(start, w) ==> Agreement(start, w'))
  {
    hide RecordsAfter, Configured, Orderly, ValidName, Agrees, EnginesAgree;
    var w' := StartEngine(w, rec, o);
    if o != EngineFailed(false) {
      var e := EngineStarted(rec.name, DaemonOf(w, rec.name).config.value);
      assert Allowed(start, w.log, e);
      assert Agreed(w) ==> StartAgrees(start, w.log, e);
      assert Backed(w');
      GoodEvent(start, w, w', e);
    }
  }

  lemma GoodRemove(start: Records, w: World, name: string, purge: bool, fails: bool)
    requires Good(start, w)
    ensures Good(start, RemoveRecord(w, name, purge, fails))
    ensures Agreement(start, w) ==> Agreement(start, RemoveRecord(w, name, purge, fails))
  {
    hide RecordsAfter, Configured, Orderly, ValidName, Agrees, EnginesAgree;
    var w' := RemoveRecord(w, name, purge, fails);
    var e := RecordRemoved(name);
    assert Allowed(start, w.log, e) && StartAgrees(start, w.log, e);
    OrderlySnoc(start, w.log, e);
    FoldsSnoc(start, w.log, e);
    if EnginesAgree(start, w.log) { EnginesSnoc(start, w.log, e); }
    assert forall n :: n != name ==> DaemonOf(w', n) == DaemonOf(w, n);
    assert Backed(w');
  }

  // ---- commands keep it ----

  /** The record a command works on is the stored one, migrated. */
  predicate Loaded(w: World, rec: Record) {
    rec.name in w.records && w.records[rec.name] == rec && rec.mode != Unset
  }

  /** Same instances with the same indices, and the same ones in multibird mode. */
  predicate RecordsLike(w: World, w': World) {
    && w'.records.Keys == w.records.Keys
    && forall n :: n in w.records ==>
         w'.records[n].index == w.records[n].index && (w'.records[n].mode == Multibird <==> w.records[n].mode == Multibird)
  }

  /** Slices only change for instances in multibird mode, or to nothing. */
  ghost predicate DnsLike(w: World, w': World) {
    forall o :: o != "" ==>
      || Slice(w'.dns, o) == Slice(w.dns, o)
      || Slice(w'.dns, o) == map[]
      || (o in w.records && w.records[o].mode == Multibird)
  }

  /** All that commands other than Set, Add and Remove do to the files, as far as the invariants
      see it. */
  ghost predicate Steady(start: Records, w: World, w': World) {
    && Good(start, w')
    && (Agreement(start, w) ==> Agreement(start, w'))
    && RecordsLike(w, w')
  }

  lemma SteadyTrans(start: Records, a: World, b: World, c: World)
    requires Steady(start, a, b) && Steady(start, b, c)
    ensures Steady(start, a, c)
  {
    hide Good, Agreement;
  }

  lemma SteadyIndexed(start: Records, w: World, w': World, peak: nat)
    requires Steady(start, w, w') && Indexed(w, peak)
    ensures Indexed(w', peak)
  {
    hide Good, Agreement;
    assert |w'.records| == |w'.records.Keys| == |w.records|;
  }

  lemma SteadyOwned(start: Records, w: World, w': World)
    requires Steady(start, w, w') && DnsLike(w, w') && DnsOwned(w)
    ensures DnsOwned(w')
  {
    hide Good, Agreement, Slice;
  }

  lemma SteadySameFiles(start: Records, w: World, w': World)
    requires Good(start, w) && SameFiles(w, w')
    ensures Steady(start, w, w')
  {
    hide Good, Agreement;
    GoodSameFiles(start, w, w');
  }

  /** Saving a record that differs from the stored one only in ways the invariants allow. */
  lemma SteadySave(start: Records, w: World, old_: Record, rec: Record)
    requires Good(start, w) && Savable(start, w, rec)
    requires rec.name in w.records && w.records[rec.name] == old_
    requires rec.index == old_.index && (rec.mode == Multibird <==> old_.mode == Multibird)
    requires rec.loggedIn && Agreed(w) ==> DaemonOf(w, rec.name).config.Some? && Agrees(rec, DaemonOf(w, rec.name).config.value)
    ensures Steady(start, w, Save(w, rec))
  {
    GoodSave(start, w, rec);
    hide Good, Savable, Agrees, EnginesAgree;
    var w' := Save(w, rec);
    if EnginesAgree(start, w.log) { SaveEngines(start, w, rec); }
    assert forall n :: DaemonOf(w', n) == DaemonOf(w, n);
    assert w'.records.Keys == w.records.Keys + {rec.name};
  }

  /** A stored, logged-in record may be saved again with other details. */
  lemma SavableAgain(start: Records, w: World, old_: Record, rec: Record)
    requires Good(start, w) && rec.name in w.records && w.records[rec.name] == old_ && rec.loggedIn == old_.loggedIn
    ensures Savable(start, w, rec)
  {
    hide Orderly, RecordsAfter, Configured, ValidName;
  }

  lemma LoadKeeps(start: Records, w: World, name: string, saveFails: bool)
    requires Good(start, w)
    ensures var (w', r) := Load(w, name, saveFails);
            && Steady(start, w, w') && w'.dns == w.dns
            && (r.Some? ==> r.value.name == name && Loaded(w', r.value))
  {
    SteadyRefl(start, w);
    if ValidName(name) && name in w.records {
      var rec := w.records[name];
      assert rec.name == name by { assert Named(w); }
      if rec.mode == Unset && !saveFails {
        NormalizeKeeps(rec);
        SavableAgain(start, w, rec, Normalized(rec));
        hide Good, Savable, Steady, ValidName;
        SteadySave(start, w, rec, Normalized(rec));
      }
    }
  }

  lemma SteadyRefl(start: Records, w: World)
    requires Good(start, w)
    ensures Steady(start, w, w)
  {
    hide Good;
  }

  lemma StartKeeps(start: Records, w: World, name: string, o: StartOutcome)
    requires Good(start, w)
    ensures SameFiles(w, Start(w, name, o).0) && Steady(start, w, Start(w, name, o).0) && Start(w, name, o).0.dns == w.dns
  {
    hide Good, Agreement;
    SteadySameFiles(start, w, Start(w, name, o).0);
  }

  lemma StopKeeps(start: Records, w: World, name: string, fails: bool)
    requires Good(start, w)
    ensures SameFiles(w, Stop(w, name, fails)) && Steady(start, w, Stop(w, name, fails))
    ensures SameFiles(w, StopEngine(w, name, fails)) && Steady(start, w, StopEngine(w, name, fails))
    ensures Stop(w, name, fails).dns == w.dns && StopEngine(w, name, fails).dns == w.dns
  {
    hide Good, Agreement;
    SteadySameFiles(start, w, Stop(w, name, fails));
    SteadySameFiles(start, w, StopEngine(w, name, fails));
  }

  lemma SteadyDnsOnly(start: Records, w: World, dns: Scutil.Store)
    requires Good(start, w)
    ensures Steady(start, w, w.(dns := dns))
  {
    hide Good, Agreement;
    SteadySameFiles(start, w, w.(dns := dns));
  }

  // ---- Up ----

  lemma PrepareKeeps(start: Records, w: World, rec: Record, x: UpInput)
    requires Good(start, w) && Loaded(w, rec)
    ensures var (w', rec', ok) := Prepare(w, rec, x);
            && Steady(start, w, w') && w'.dns == w.dns && rec'.name == rec.name
            && (ok ==> Loaded(w', rec') && rec'.loggedIn)
  {
    hide Good, Steady, Start, Login, SetConfig, DaemonOf;
    StartKeeps(start, w, rec.name, x.start);
    var (w1, started) := Start(w, rec.name, x.start);
    SteadyGood(start, w, w1);
    LoadedSameRecords(w, w1, rec);
    if started && !x.dialFails && !x.readyFails && !rec.loggedIn {
      LoginAndPush(start, w1, rec, x);
      SteadyTrans(start, w, w1, Prepare(w, rec, x).0);
    }
  }

  /** Login, SetConfig and the save that records them. */
  lemma LoginAndPush(start: Records, w: World, rec: Record, x: UpInput)
    requires Good(start, w) && Loaded(w, rec) && !rec.loggedIn
    ensures var w2 := Login(w, rec, x.login);
            var (w3, ok) := SetConfig(w2, rec, x.hint, x.setFails);
            var rec' := rec.(loggedIn := true);
            && Steady(start, w, w2) && w2.dns == w.dns
            && Steady(start, w, w3) && w3.dns == w.dns
            && (ok ==> Steady(start, w, Save(w3, rec')))
  {
    var w2 := Login(w, rec, x.login);
    LoginSteady(start, w, rec, x.login);
    PushSteady(start, w2, rec, x.hint, x.setFails);
    var (w3, ok) := SetConfig(w2, rec, x.hint, x.setFails);
    hide Good, RecordsLike, Agreement, Pushed;
    SteadyTrans(start, w, w2, w3);
    if ok {
      SteadyTrans(start, w, w3, Save(w3, rec.(loggedIn := true)));
    }
  }

  lemma LoginSteady(start: Records, w: World, rec: Record, o: LoginOutcome)
    requires Good(start, w) && Loaded(w, rec) && !rec.loggedIn
    ensures Steady(start, w, Login(w, rec, o)) && Login(w, rec, o).dns == w.dns && Login(w, rec, o).records == w.records
  {
    GoodLogin(start, w, rec, o);
    hide Good, Agreement;
  }

  lemma PushSteady(start: Records, w: World, rec: Record, hint: string, fails: bool)
    requires Good(start, w) && Loaded(w, rec) && !rec.loggedIn
    ensures var (w', ok) := SetConfig(w, rec, hint, fails);
            && Steady(start, w, w') && w'.dns == w.dns
            && (ok ==> Steady(start, w', Save(w', rec.(loggedIn := true))))
  {
    var (w', ok) := SetConfig(w, rec, hint, fails);
    GoodSetConfig(start, w, rec, hint, fails);
    PushAgrees(w, rec, hint, fails);
    assert ok ==> Loaded(w', rec) && Pushed(rec, hint).isolated;
    assert Steady(start, w, w') by { hide Good, EnginesAgree, Agreed, SetConfig; }
    hide Good, Steady, Agreed, EnginesAgree, Agrees, Configured, SetConfig, WGPort, DaemonOf;
    if ok {
      SaveLogin(start, w', rec, Pushed(rec, hint));
    }
  }

  lemma SaveLogin(start: Records, w: World, rec: Record, cfg: Config)
    requires Good(start, w) && Loaded(w, rec) && cfg.isolated && Agrees(rec.(loggedIn := true), cfg)
    requires DaemonOf(w, rec.name).config == Some(cfg) && rec.name in Configured(start, w.log)
    ensures Steady(start, w, Save(w, rec.(loggedIn := true)))
  {
    assert ValidName(rec.name) by { assert Named(w); }
    SavableNow(start, w, rec);
    hide Good, Savable, Steady, Configured, Agrees, ValidName;
    SteadySave(start, w, rec, rec.(loggedIn := true));
  }

  lemma SavableNow(start: Records, w: World, rec: Record)
    requires ValidName(rec.name) && rec.name in Configured(start, w.log)
    requires DaemonOf(w, rec.name).config.Some? && DaemonOf(w, rec.name).config.value.isolated
    ensures Savable(start, w, rec.(loggedIn := true))
  {
  }

  /** What SetConfig pushed for a migrated record is what the record stands for; the other
      instances' agreement is untouched, and this one had none to lose. */
  lemma PushAgrees(w: World, rec: Record, hint: string, fails: bool)
    requires rec.mode != Unset
    ensures Agrees(rec, Pushed(rec, hint)) && Agrees(rec.(loggedIn := true), Pushed(rec, hint))
    ensures Loaded(w, rec) && !rec.loggedIn && Agreed(w) ==> Agreed(SetConfig(w, rec, hint, fails).0)
  {
  }

  // ---- the rest of Up, and the other commands ----

  /** The engine that Up starts: on a configuration pushed for the record on file, and on one
      that agrees with it when records and configurations agree. */
  lemma EngineSteady(start: Records, w: World, rec: Record, o: EngineOutcome)
    requires Good(start, w) && Loaded(w, rec) && rec.loggedIn
    ensures var w' := StartEngine(w, rec, o);
            Steady(start, w, w') && w'.records == w.records && w'.dns == w.dns
  {
    GoodEngine(start, w, rec, o);
    hide Good, Agreement;
  }

  lemma DiscoverSteady(start: Records, w: World, rec: Record, st: Status, found: Option<string>, saveFails: bool)
    requires Good(start, w) && Loaded(w, rec)
    ensures var (w', rec', ok) := Discover(w, rec, st, found, saveFails);
            && Steady(start, w, w') && w'.dns == w.dns && rec'.name == rec.name && (ok ==> Loaded(w', rec'))
  {
    SteadyRefl(start, w);
    if HasHostAddr(st.ip) && found.Some? && found.value != rec.iface && !saveFails {
      var rec' := rec.(iface := found.value);
      SavableAgain(start, w, rec, rec');
      hide Good, Steady, Savable;
      SteadySave(start, w, rec, rec');
    }
  }

  lemma SteadyGood(start: Records, w: World, w': World)
    requires Steady(start, w, w')
    ensures Good(start, w')
  {
  }

  lemma LoadedSameRecords(w: World, w': World, rec: Record)
    requires Loaded(w, rec) && w'.records == w.records
    ensures Loaded(w', rec)
  {
  }

  /** Whatever Up meets and wherever it fails, it keeps the invariants. */
  lemma UpKeeps(start: Records, w: World, rec: Record, x: UpInput)
    requires Good(start, w) && Loaded(w, rec) && ValidStatus(x.status)
    ensures Steady(start, w, Up(w, rec, x).0)
  {
    hide Good, Steady, Loaded, ApplyFromStatus, Crashes, Discover, Prepare, StartEngine;
    var (w1, rec1, ready) := Prepare(w, rec, x);
    PrepareKeeps(start, w, rec, x);
    if ready {
      SteadyGood(start, w, w1);
      var w2 := StartEngine(w1, rec1, x.engine);
      EngineSteady(start, w1, rec1, x.engine);
      SteadyTrans(start, w, w1, w2);
      SteadyGood(start, w1, w2);
      LoadedSameRecords(w1, w2, rec1);
      var (w3, rec3, recorded) := Discover(w2, rec1, x.status, x.discovered, x.ifaceSaveFails);
      DiscoverSteady(start, w2, rec1, x.status, x.discovered, x.ifaceSaveFails);
      SteadyTrans(start, w, w2, w3);
      SteadyGood(start, w2, w3);
      if recorded {
        var w4 := w3.(dns := ApplyFromStatus(w3.dns, rec3, x.status, x.dns).0);
        SteadyDnsOnly(start, w3, w4.dns);
        SteadyTrans(start, w, w3, w4);
        SteadyGood(start, w3, w4);
        StopKeeps(start, w4, rec3.name, x.downFails);
        SteadyTrans(start, w, w4, StopEngine(w4, rec3.name, x.downFails));
      }
    }
  }

  lemma RemoveDnsSteady(start: Records, w: World, name: string, s: Surroundings)
    requires Good(start, w)
    ensures Steady(start, w, RemoveDns(w, name, s))
  {
    hide Good, Steady, RemoveResult;
    SteadyDnsOnly(start, w, RemoveResult(w.dns, name, s).0);
  }

  lemma DownKeeps(start: Records, w: World, rec: Record, x: DownInput)
    requires Good(start, w)
    ensures Steady(start, w, Down(w, rec, x)) && SameFiles(w, Down(w, rec, x))
  {
    hide RemoveResult, Good, Steady;
    SteadySameFiles(start, w, Down(w, rec, x));
  }

  lemma DaemonsOnly(w: World, name: string, s: Surroundings)
    ensures forall n :: DaemonOf(RemoveDns(w, name, s), n) == DaemonOf(w, n)
  {
  }

  lemma NukeKeeps(start: Records, w: World, rec: Record, killFails: bool, dns: Surroundings)
    requires Good(start, w)
    ensures Steady(start, w, Nuke(w, rec, killFails, dns))
  {
    hide RemoveResult, Good, Steady;
    SteadySameFiles(start, w, Nuke(w, rec, killFails, dns));
  }

  lemma SyncKeeps(start: Records, w: World, rec: Record, reply: Option<Status>, s: Surroundings)
    requires Good(start, w) && (reply.Some? ==> ValidStatus(reply.value))
    ensures Steady(start, w, DnsSync(w, rec, reply, s).0)
  {
    hide RemoveResult, ApplyFromStatus, Good, Steady, DaemonOf;
    SteadyDnsOnly(start, w, DnsSync(w, rec, reply, s).0.dns);
  }

  lemma StatusKeeps(start: Records, w: World, rec: Record, x: StatusInput)
    requires Good(start, w) && Loaded(w, rec) && (x.reply.Some? ==> ValidStatus(x.reply.value))
    ensures Steady(start, w, StatusCmd(w, rec, x).0)
  {
    SteadyRefl(start, w);
    hide Good, Steady, ApplyFromStatus, Crashes, DaemonOf, Discover;
    if x.reply.Some? {
      var w1 := w.(dns := ApplyFromStatus(w.dns, rec, x.reply.value, x.dns).0);
      SteadyDnsOnly(start, w, w1.dns);
      SteadyGood(start, w, w1);
      DiscoverSteady(start, w1, rec, x.reply.value, x.discovered, x.saveFails);
      SteadyTrans(start, w, w1, Discover(w1, rec, x.reply.value, x.discovered, x.saveFails).0);
    }
  }

  // ---- listing all ----

  /** `list` holds records on file, each once. */
  predicate OnFile(w: World, list: seq<Record>) {
    && (forall i :: 0 <= i < |list| ==> list[i].name in w.records && w.records[list[i].name] == list[i])
    && (forall i, j :: 0 <= i < j < |list| ==> list[i].name != list[j].name)
  }

  lemma InOrderOnFile(w: World)
    requires Named(w)
    ensures OnFile(w, InOrder(w.records))
  {
    hide StrictlySorted, ValidName, Elements;
    SortedNames(w.records.Keys);
  }

  /** What one migration leaves on file: every listed record migrated, the others as they were. */
  lemma MigrateExact(w: World, list: seq<Record>, fails: set<string>)
    requires OnFile(w, list)
    ensures var (w', r) := MigrateAll(w, list, fails);
            && (r.Some? <==> forall i :: 0 <= i < |list| && list[i].mode == Unset ==> list[i].name !in fails)
            && w'.records.Keys == w.records.Keys && w'.dns == w.dns && w'.daemons == w.daemons
            && (forall n :: n in w.records && (forall i :: 0 <= i < |list| ==> list[i].name != n) ==> w'.records[n] == w.records[n])
            && (r.Some? ==> |r.value| == |list| && forall i :: 0 <= i < |list| ==>
                  r.value[i] == Normalized(list[i]) && w'.records[list[i].name] == r.value[i])
  {
    hide MigrateAll, OnFile, Normalized;
    MigrateReturns(w, list, fails);
    MigrateStores(w, list, fails);
  }

  lemma {:induction false} MigrateReturns(w: World, list: seq<Record>, fails: set<string>)
    ensures var r := MigrateAll(w, list, fails).1;
            && (r.Some? <==> forall i :: 0 <= i < |list| && list[i].mode == Unset ==> list[i].name !in fails)
            && (r.Some? ==> |r.value| == |list| && forall i :: 0 <= i < |list| ==> r.value[i] == Normalized(list[i]))
    decreases |list|
  {
    hide Normalized, Save;
    if list != [] {
      MigrateReturns(if list[0].mode == Unset then Save(w, Normalized(list[0])) else w, list[1..], fails);
    }
  }

  lemma {:induction false} MigrateStores(w: World, list: seq<Record>, fails: set<string>)
    requires OnFile(w, list)
    ensures var (w', r) := MigrateAll(w, list, fails);
            && w'.records.Keys == w.records.Keys && w'.dns == w.dns && w'.daemons == w.daemons
            && (forall n :: n in w.records && (forall i :: 0 <= i < |list| ==> list[i].name != n) ==> w'.records[n] == w.records[n])
            && (r.Some? ==> forall i :: 0 <= i < |list| ==> w'.records[list[i].name] == Normalized(list[i]))
    decreases |list|
  {
    hide Normalized, Save;
    if list != [] && !(list[0].mode == Unset && list[0].name in fails) {
      var w1 := if list[0].mode == Unset then Save(w, Normalized(list[0])) else w;
      OneMigrated(w, list);
      MigrateStores(w1, list[1..], fails);
    }
  }

  lemma OneMigrated(w: World, list: seq<Record>)
    requires OnFile(w, list) && list != []
    ensures var w1 := if list[0].mode == Unset then Save(w, Normalized(list[0])) else w;
            && OnFile(w1, list[1..])
            && w1.records.Keys == w.records.Keys && w1.dns == w.dns && w1.daemons == w.daemons
            && w1.records[list[0].name] == Normalized(list[0])
            && forall n :: n in w.records && n != list[0].name ==> w1.records[n] == w.records[n]
  {
    hide EffectiveMode;
  }

  lemma {:induction false} MigrateKeeps(start: Records, w: World, list: seq<Record>, fails: set<string>)
    requires Good(start, w) && OnFile(w, list)
    ensures Steady(start, w, MigrateAll(w, list, fails).0)
    decreases |list|
  {
    SteadyRefl(start, w);
    hide Good, Steady, Normalized;
    if list != [] && !(list[0].mode == Unset && list[0].name in fails) {
      var w1 := if list[0].mode == Unset then Save(w, Normalized(list[0])) else w;
      if list[0].mode == Unset { MigrateOne(start, w, list[0]); }
      SteadyGood(start, w, w1);
      OneMigrated(w, list);
      MigrateKeeps(start, w1, list[1..], fails);
      SteadyTrans(start, w, w1, MigrateAll(w1, list[1..], fails).0);
    }
  }

  lemma MigrateOne(start: Records, w: World, rec: Record)
    requires Good(start, w) && rec.name in w.records && w.records[rec.name] == rec && rec.mode == Unset
    ensures Steady(start, w, Save(w, Normalized(rec)))
  {
    NormalizeKeeps(rec);
    SavableAgain(start, w, rec, Normalized(rec));
    hide Good, Savable, Steady, ValidName;
    SteadySave(start, w, rec, Normalized(rec));
  }

  lemma ListAllKeeps(start: Records, w: World, fails: set<string>)
    requires Good(start, w)
    ensures Steady(start, w, ListAll(w, fails).0) && ListAll(w, fails).0.dns == w.dns
  {
    assert Named(w);
    hide Good, Steady, Named, InOrder;
    InOrderOnFile(w);
    MigrateKeeps(start, w, InOrder(w.records), fails);
    MigrateExact(w, InOrder(w.records), fails);
  }

  lemma SortedNames(keys: set<string>)
    ensures var names := SortedOf(keys);
            Distinct(names) && (forall i :: 0 <= i < |names| ==> names[i] in keys) && Elements(names) == keys && StrictlySorted(names)
  {
    var names := SortedOf(keys);
    StrictIsDistinct(names);
    hide StrictlySorted;
    forall i | 0 <= i < |names| ensures names[i] in keys { assert names[i] in Elements(names); }
  }

  /** Listing reads every record, then migrates them in order of name: it succeeds exactly when
      each migration that is needed can be saved, and then every record is on file migrated and is
      returned as it is on file. */
  lemma ListAllExact(w: World, fails: set<string>)
    requires Named(w)
    ensures var (w', list) := ListAll(w, fails);
            && (list.Some? <==> forall n :: n in w.records && w.records[n].mode == Unset ==> n !in fails)
            && w'.records.Keys == w.records.Keys && w'.dns == w.dns
            && (list.Some? ==>
                  && (forall n :: n in w.records ==> w'.records[n] == Normalized(w.records[n]))
                  && ListedAs(w'.records, SortedOf(w.records.Keys), list.value))
  {
    hide StrictlySorted, SortedOf, MigrateAll, OnFile, Distinct, Elements, Normalized, ListedAs, ValidName;
    var names := SortedOf(w.records.Keys);
    SortedNames(w.records.Keys);
    InOrderOnFile(w);
    var stored := InOrder(w.records);
    MigrateExact(w, stored, fails);
    NamesCover(w.records, names);
    NeededSaves(w, names, stored, fails);
    var (w', list) := MigrateAll(w, stored, fails);
    if list.Some? { MigratedInOrder(w, w', names, stored, list.value); }
  }

  lemma NamesCover(records: Records, names: seq<string>)
    requires Elements(names) == records.Keys
    ensures forall n :: n in records <==> exists i :: 0 <= i < |names| && names[i] == n
  {
    forall n | n in records ensures exists i :: 0 <= i < |names| && names[i] == n { assert n in Elements(names); }
    forall i | 0 <= i < |names| ensures names[i] in records { assert names[i] in Elements(names); }
  }

  lemma NeededSaves(w: World, names: seq<string>, stored: seq<Record>, fails: set<string>)
    requires forall n :: n in w.records <==> exists i :: 0 <= i < |names| && names[i] == n
    requires |stored| == |names| && forall i :: 0 <= i < |names| ==> names[i] in w.records && stored[i] == w.records[names[i]] && stored[i].name == names[i]
    ensures (forall i :: 0 <= i < |stored| && stored[i].mode == Unset ==> stored[i].name !in fails) <==>
            forall n :: n in w.records && w.records[n].mode == Unset ==> n !in fails
  {
    if n :| n in w.records && w.records[n].mode == Unset && n in fails {
      var i :| 0 <= i < |names| && names[i] == n;
      assert stored[i].name == n;
    }
  }

  lemma MigratedInOrder(w: World, w': World, names: seq<string>, stored: seq<Record>, list: seq<Record>)
    requires StrictlySorted(names) && Elements(names) == w.records.Keys && w'.records.Keys == w.records.Keys
    requires forall n :: n in w.records <==> exists i :: 0 <= i < |names| && names[i] == n
    requires |list| == |stored| == |names| && forall i :: 0 <= i < |names| ==>
      && names[i] in w.records && stored[i] == w.records[names[i]] && stored[i].name == names[i]
      && list[i] == Normalized(stored[i]) && stored[i].name in w'.records && w'.records[stored[i].name] == list[i]
    ensures forall n :: n in w.records ==> w'.records[n] == Normalized(w.records[n])
    ensures ListedAs(w'.records, names, list)
  {
    hide StrictlySorted, Normalized, Elements;
    NamesSize(names, w'.records);
    forall n | n in w.records ensures w'.records[n] == Normalized(w.records[n]) {
      var i :| 0 <= i < |names| && names[i] == n;
      assert stored[i].name == n;
    }
  }

  lemma NamesSize(names: seq<string>, records: Records)
    requires StrictlySorted(names) && Elements(names) == records.Keys
    ensures |names| == |records|
  {
    StrictIsDistinct(names);
    hide StrictlySorted;
    DistinctSize(names);
  }

  lemma {:induction false} DistinctSize(names: seq<string>)
    requires Distinct(names)
    ensures |Elements(names)| == |names|
    decreases |names|
  {
    if names != [] {
      var rest := names[..|names| - 1];
      DistinctSize(rest);
      assert names == rest + [names[|rest|]];
      assert Elements(names) == Elements(rest) + {names[|rest|]};
    }
  }

  // ---- what commands do to the dynamic store ----

  /** Slices only stay or vanish. */
  ghost predicate Narrows(dns: Scutil.Store, dns': Scutil.Store) {
    forall o :: Slice(dns', o) == Slice(dns, o) || Slice(dns', o) == map[]
  }

  lemma RemoveNarrows(dns: Scutil.Store, name: string, s: Surroundings)
    ensures Narrows(dns, RemoveResult(dns, name, s).0)
    ensures forall o :: o != name ==> Slice(RemoveResult(dns, name, s).0, o) == Slice(dns, o)
  {
    hide Slice, Put, ListFails, Free;
    NothingOwned(name);
    PutLaws(dns, name, map[]);
  }

  lemma NarrowsTwice(a: Scutil.Store, b: Scutil.Store, c: Scutil.Store)
    requires Narrows(a, b) && Narrows(b, c)
    ensures Narrows(a, c)
  {
    hide Slice;
  }

  lemma NarrowsLike(w: World, w': World)
    requires Narrows(w.dns, w'.dns)
    ensures DnsLike(w, w')
  {
    hide Slice;
  }

  /** Registering changes no other instance's slice, and keys of nobody only when a reported name
      has a line break in it. */
  lemma ApplyFromStatusLike(dns: Scutil.Store, rec: Record, st: Status, s: Surroundings)
    requires ValidStatus(st) && ValidName(rec.name)
    ensures var after := ApplyFromStatus(dns, rec, st, s).0;
            && (forall o :: o != rec.name && (o != "" || OneLineStatus(st)) ==> Slice(after, o) == Slice(dns, o))
            && (rec.mode != Multibird ==> after == dns)
  {
    hide ValidName, ApplyResult, Derived, Slice, NeatStatus, OneLineSpec, LowerSpec, CleanWord;
    ValidIsClean(rec.name);
    if Derived(st).Ok? {
      var spec := Derived(st).value;
      DerivedIsLower(st);
      forall o | o != rec.name && o != "" ensures Slice(ApplyResult(dns, rec.name, spec, s).0, o) == Slice(dns, o) {
        OthersUntouched(dns, rec.name, spec, s, o);
      }
      if OneLineStatus(st) {
        DerivedIsOneLine(st);
        ApplyFrame(dns, rec.name, spec, s);
      }
    }
  }

  lemma PrepareRecord(w: World, rec: Record, x: UpInput)
    ensures var (w', rec', _) := Prepare(w, rec, x); w'.dns == w.dns && rec'.name == rec.name && rec'.mode == rec.mode
  {
  }

  lemma StartEngineDns(w: World, rec: Record, o: EngineOutcome)
    ensures StartEngine(w, rec, o).dns == w.dns
  {
  }

  lemma DiscoverRecord(w: World, rec: Record, st: Status, found: Option<string>, saveFails: bool)
    ensures var (w', rec', _) := Discover(w, rec, st, found, saveFails); w'.dns == w.dns && rec'.name == rec.name && rec'.mode == rec.mode
  {
  }

  lemma SameApply(dns: Scutil.Store, rec: Record, rec': Record, st: Status, s: Surroundings)
    requires ValidStatus(st) && rec'.name == rec.name && rec'.mode == rec.mode
    ensures ApplyFromStatus(dns, rec', st, s) == ApplyFromStatus(dns, rec, st, s)
  {
    hide Derived, ApplyResult;
  }

  /** Up touches the dynamic store at most by registering. */
  lemma UpDns(w: World, rec: Record, x: UpInput)
    requires ValidStatus(x.status)
    ensures var dns := Up(w, rec, x).0.dns;
            dns == w.dns || dns == ApplyFromStatus(w.dns, rec, x.status, x.dns).0
  {
    hide Prepare, StartEngine, Discover, ApplyFromStatus, Crashes, DaemonOf;
    var (w1, rec1, _) := Prepare(w, rec, x);
    var w2 := StartEngine(w1, rec1, x.engine);
    var (w3, rec3, _) := Discover(w2, rec1, x.status, x.discovered, x.ifaceSaveFails);
    PrepareRecord(w, rec, x);
    StartEngineDns(w1, rec1, x.engine);
    DiscoverRecord(w2, rec1, x.status, x.discovered, x.ifaceSaveFails);
    SameApply(w.dns, rec, rec3, x.status, x.dns);
  }

  lemma StatusDns(w: World, rec: Record, x: StatusInput)
    requires x.reply.Some? ==> ValidStatus(x.reply.value)
    ensures var dns := StatusCmd(w, rec, x).0.dns;
            dns == w.dns || (x.reply.Some? && dns == ApplyFromStatus(w.dns, rec, x.reply.value, x.dns).0)
  {
    hide Discover, ApplyFromStatus, Crashes, DaemonOf;
    if x.reply.Some? {
      DiscoverRecord(w.(dns := ApplyFromStatus(w.dns, rec, x.reply.value, x.dns).0), rec, x.reply.value, x.discovered, x.saveFails);
    }
  }

  lemma AppliedLike(w: World, w': World, rec: Record, st: Status, s: Surroundings)
    requires Loaded(w, rec) && ValidName(rec.name) && ValidStatus(st)
    requires w'.dns == w.dns || w'.dns == ApplyFromStatus(w.dns, rec, st, s).0
    ensures DnsLike(w, w')
  {
    hide ApplyFromStatus, Slice, ValidName, OneLineStatus;
    ApplyFromStatusLike(w.dns, rec, st, s);
  }

  lemma UpLike(w: World, rec: Record, x: UpInput)
    requires Loaded(w, rec) && ValidName(rec.name) && ValidStatus(x.status)
    ensures DnsLike(w, Up(w, rec, x).0)
  {
    hide Up, Loaded, ValidStatus, DnsLike, ValidName, ApplyFromStatus;
    UpDns(w, rec, x);
    AppliedLike(w, Up(w, rec, x).0, rec, x.status, x.dns);
  }

  lemma DownLike(w: World, rec: Record, x: DownInput)
    ensures DnsLike(w, Down(w, rec, x))
  {
    hide RemoveResult, Slice;
    RemoveNarrows(w.dns, rec.name, x.dns);
  }

  lemma NukeLike(w: World, rec: Record, killFails: bool, dns: Surroundings)
    ensures DnsLike(w, Nuke(w, rec, killFails, dns))
  {
    hide RemoveResult, Slice;
    RemoveNarrows(w.dns, rec.name, dns);
  }

  lemma SyncLike(w: World, rec: Record, reply: Option<Status>, s: Surroundings)
    requires Loaded(w, rec) && ValidName(rec.name) && (reply.Some? ==> ValidStatus(reply.value))
    ensures DnsLike(w, DnsSync(w, rec, reply, s).0)
  {
    hide RemoveResult, Slice, ApplyFromStatus, Loaded, ValidName, ValidStatus, DaemonOf;
    RemoveNarrows(w.dns, rec.name, s);
    if reply.Some? { AppliedLike(w, w.(dns := ApplyFromStatus(w.dns, rec, reply.value, s).0), rec, reply.value, s); }
  }

  lemma StatusLike(w: World, rec: Record, x: StatusInput)
    requires Loaded(w, rec) && ValidName(rec.name) && (x.reply.Some? ==> ValidStatus(x.reply.value))
    ensures DnsLike(w, StatusCmd(w, rec, x).0)
  {
    hide StatusCmd, Slice, ApplyFromStatus, Loaded, ValidName, ValidStatus;
    StatusDns(w, rec, x);
    if x.reply.Some? { AppliedLike(w, StatusCmd(w, rec, x).0, rec, x.reply.value, x.dns); }
  }

  lemma {:induction false} CleanStraysNarrow(dns: Scutil.Store, owners: seq<string>, known: set<string>, weather: Weather)
    ensures Narrows(dns, CleanStrays(dns, owners, known, weather).0)
    decreases |owners|
  {
    hide RemoveResult, Slice, Over;
    if owners != [] {
      if owners[0] in known {
        CleanStraysNarrow(dns, owners[1..], known, weather);
      } else {
        var dns1 := RemoveResult(dns, owners[0], Over(weather, owners[0])).0;
        RemoveNarrows(dns, owners[0], Over(weather, owners[0]));
        CleanStraysNarrow(dns1, owners[1..], known, weather);
        NarrowsTwice(dns, dns1, CleanStrays(dns1, owners[1..], known, weather).0);
      }
    }
  }

  /** Cleaning up keeps the invariants, whichever of its removals fail; no slice of an existing or
      missing instance but stays or vanishes. */
  lemma CleanupKeeps(start: Records, w: World, fails: set<string>, listExec: bool, weather: Weather)
    requires Good(start, w)
    ensures Steady(start, w, Cleanup(w, fails, listExec, weather).0) && DnsLike(w, Cleanup(w, fails, listExec, weather).0)
  {
    hide Good, Steady, CleanStrays, ListFails, ListAll, DnsLike, SortedOf, Owners, Slice, NamesIn, Narrows;
    SteadyRefl(start, w);
    NarrowsRefl(w.dns);
    var (w1, list) := ListAll(w, fails);
    ListAllKeeps(start, w, fails);
    SteadyGood(start, w, w1);
    var known := if list.Some? then NamesIn(list.value) else {};
    var dns := CleanStrays(w1.dns, SortedOf(Owners(w.dns)), known, weather).0;
    CleanStraysNarrow(w1.dns, SortedOf(Owners(w.dns)), known, weather);
    SteadyDnsOnly(start, w1, dns);
    SteadyTrans(start, w, w1, w1.(dns := dns));
    NarrowsLike(w, Cleanup(w, fails, listExec, weather).0);
  }

  lemma NarrowsRefl(dns: Scutil.Store)
    ensures Narrows(dns, dns)
  {
    hide Slice;
  }
}

/** What each command achieves, told in its own terms: when it succeeds, and what is then on file,
    in netbird's configuration, running and in the dynamic store (internal/ops/ops.go:54-273,
    internal/ops/set.go:21-89, internal/ops/dns.go:15-100). */
module Effects {
  import opened Text
  import opened Names
  import opened HostDns
  import Scutil
  import opened DynamicStore
  import opened Instances
  import opened Lifecycle
  import opened Runs

  // ---- loading and adding ----

  /** A record from before modes existed had one flag: set, it switched netbird's DNS off. */
  lemma LoadExact(w: World, name: string, saveFails: bool)
    ensures var (w', r) := Load(w, name, saveFails);
            && (r.Some? <==> ValidName(name) && name in w.records && (w.records[name].mode == Unset ==> !saveFails))
            && (r.Some? ==>
                  var old_ := w.records[name];
                  if old_.mode != Unset then r.value == old_ && w' == w
                  else
                    && r.value == old_.(mode := if old_.legacyDisable then Disabled else Native, legacyDisable := false)
                    && w' == w.(records := w.records[r.value.name := r.value], log := w.log + [RecordSaved(r.value.name, r.value)]))
            && (r.None? ==> w' == w)
  {
    hide ValidName;
  }

  predicate Taken(records: Records, i: int) {
    exists n :: n in records && records[n].index == i
  }

  /** Add stores the record as given, but for the least index no record uses and, where no mode is
      asked for, the platform's. */
  lemma AddExact(w: World, rec: Record, defaultMode: Mode, saveFails: bool)
    ensures var (w', ok) := Add(w, rec, defaultMode, saveFails);
            && (ok <==> ValidName(rec.name) && rec.name !in w.records && !saveFails)
            && (!ok ==> w' == w)
            && (ok ==>
                  && rec.name in w'.records
                  && var new_ := w'.records[rec.name];
                  && new_ == rec.(index := new_.index, mode := if rec.mode == Unset then defaultMode else rec.mode)
                  && new_.index >= 0 && (forall n :: n in w.records ==> w.records[n].index != new_.index)
                  && (forall i :: 0 <= i < new_.index ==> Taken(w.records, i))
                  && w' == w.(records := w.records[rec.name := new_], log := w.log + [RecordSaved(rec.name, new_)]))
  {
    hide ValidName, LowestIndex;
    var i := LowestIndex(w.records);
    assert LeastFree(w.records, i);
    forall n | n in w.records ensures w.records[n].index != i { assert w.records[n].index in UsedIndices(w.records); }
    forall j | 0 <= j < i ensures Taken(w.records, j) { assert j in UsedIndices(w.records); }
  }

  /** The port pushed: the override, or else 51900 and the index. */
  lemma PortRule(rec: Record)
    ensures WGPort(rec) == if rec.wgPort != 0 then rec.wgPort else 51900 + rec.index
  {
  }

  // ---- up ----

  /** The engine's interface is known and not the one on file. */
  predicate NewInterface(rec: Record, x: UpInput) {
    (x.status.ip.Cidr? || x.status.ip.Bare?) && x.discovered.Some? && x.discovered.value != rec.iface
  }

  /** What up needs before the engine is started, and after. */
  predicate StartsWell(w: World, rec: Record, x: UpInput) {
    && (DaemonOf(w, rec.name).running || x.start == Started) && !x.dialFails && !x.readyFails
    && (!rec.loggedIn ==> (x.login == Accepted || x.login == Challenge(true)) && !x.setFails && !x.saveFails)
  }

  ghost predicate EndsWell(rec: Record, x: UpInput)
    requires ValidStatus(x.status)
  {
    && x.engine == EngineUp && !x.statusFails
    && (NewInterface(rec, x) ==> !x.ifaceSaveFails)
    && !(rec.mode == Multibird && !x.status.ip.Missing? && Derived(x.status) == Err(Crashed))
  }

  /** Everything that up needs goes well, up to the preflight. */
  ghost predicate UpGoesWell(w: World, rec: Record, x: UpInput)
    requires ValidStatus(x.status)
  {
    StartsWell(w, rec, x) && EndsWell(rec, x)
  }

  /** The record up leaves on file. */
  function UpRecord(rec: Record, x: UpInput): Record {
    rec.(loggedIn := true, iface := if NewInterface(rec, x) then x.discovered.value else rec.iface)
  }

  /** What up reports and sends, in order: a login and the settings if none was on file, then the
      start of the engine on `cfg`, then the interface if it is new. */
  function UpLog(rec: Record, x: UpInput, cfg: Config): seq<Event> {
    (if rec.loggedIn then []
     else [LoginSent(rec.name), ConfigSet(rec.name, cfg), RecordSaved(rec.name, rec.(loggedIn := true))]) +
    [EngineStarted(rec.name, cfg)] +
    (if NewInterface(rec, x) then [RecordSaved(rec.name, UpRecord(rec, x))] else [])
  }

  /** The configuration the engine runs on: the one it had, or for a first login the record's
      management server, port and DNS setting. */
  predicate UpConfig(before: Option<Config>, rec: Record, x: UpInput, cfg: Config) {
    if rec.loggedIn then before == Some(cfg)
    else
      && cfg.mgmt == rec.mgmt && cfg.iface == x.hint && cfg.isolated
      && cfg.port == (if rec.wgPort != 0 then rec.wgPort else 51900 + rec.index)
      && (cfg.disableDNS <==> rec.mode != Native)
  }

  /** The registration that up makes or tries. */
  ghost function UpStore(dns: Scutil.Store, rec: Record, x: UpInput): Scutil.Store
    requires ValidStatus(x.status)
  {
    if rec.mode == Multibird && !x.status.ip.Missing? && Derived(x.status).Ok?
    then ApplyResult(dns, rec.name, Derived(x.status).value, x.dns).0
    else dns
  }

  /** Up succeeds exactly when everything it needs goes well and no conflict is held against it.
      When all goes well, the daemon runs, its engine was started on its own configuration, the
      record says logged in, the registration was made, and nothing else changed; a conflict under
      --strict then takes the engine down again. */
  lemma UpExact(w: World, rec: Record, x: UpInput)
    requires Loaded(w, rec) && ValidStatus(x.status) && (rec.loggedIn ==> DaemonOf(w, rec.name).config.Some?)
    ensures Up(w, rec, x).2 <==> UpGoesWell(w, rec, x) && !x.strictConflict
    ensures UpGoesWell(w, rec, x) ==>
              var (w', rec', _) := Up(w, rec, x);
              && rec' == UpRecord(rec, x) && w'.records == w.records[rec.name := rec']
              && rec.name in w'.daemons && w'.daemons[rec.name].running
              && w'.daemons[rec.name].config.Some?
              && var cfg := w'.daemons[rec.name].config.value;
              && w'.daemons[rec.name].engine == (if x.strictConflict && !x.downFails then None else Some(cfg))
              && UpConfig(DaemonOf(w, rec.name).config, rec, x, cfg)
              && w'.log == w.log + UpLog(rec, x, cfg)
              && w'.daemons - {rec.name} == w.daemons - {rec.name}
              && w'.dns == UpStore(w.dns, rec, x)
    ensures !UpGoesWell(w, rec, x) ==> Up(w, rec, x).0.dns == w.dns
  {
    hide Prepare, UpRest, Derived, ApplyResult, UpConfig, UpRecord, UpLog, NewInterface, UpStore, StartsWell;
    PrepareExact(w, rec, x);
    UpSplits(w, rec, x);
    var (w1, rec1, ready) := Prepare(w, rec, x);
    if ready { RestExact(w, rec, x, w1, rec1); }
  }

  /** A daemon ready to have its engine started, and what it took. */
  predicate Prepared(w: World, rec: Record, x: UpInput, w1: World, rec1: Record) {
    && w1.dns == w.dns && rec1 == rec.(loggedIn := true)
    && w1.records == w.records[rec.name := rec1]
    && rec.name in w1.daemons && w1.daemons[rec.name].running && w1.daemons[rec.name].config.Some?
    && var cfg := w1.daemons[rec.name].config.value;
    && UpConfig(DaemonOf(w, rec.name).config, rec, x, cfg)
    && w1.log == w.log + (if rec.loggedIn then []
                          else [LoginSent(rec.name), ConfigSet(rec.name, cfg), RecordSaved(rec.name, rec.(loggedIn := true))])
    && w1.daemons - {rec.name} == w.daemons - {rec.name}
  }

  /** Up from the start of the engine on. */
  ghost function UpRest(w1: World, rec1: Record, x: UpInput): (World, Record, bool)
    requires ValidStatus(x.status)
  {
    var w2 := StartEngine(w1, rec1, x.engine);
    if x.engine != EngineUp || x.statusFails then (w2, rec1, false)
    else
      var (w3, rec3, recorded) := Discover(w2, rec1, x.status, x.discovered, x.ifaceSaveFails);
      if !recorded || Crashes(rec3, x.status) then (w3, rec3, false)
      else
        var w4 := w3.(dns := ApplyFromStatus(w3.dns, rec3, x.status, x.dns).0);
        if x.strictConflict then (StopEngine(w4, rec3.name, x.downFails), rec3, false) else (w4, rec3, true)
  }

  lemma UpSplits(w: World, rec: Record, x: UpInput)
    requires ValidStatus(x.status)
    ensures var (w1, rec1, ready) := Prepare(w, rec, x);
            Up(w, rec, x) == if ready then UpRest(w1, rec1, x) else (w1, rec1, false)
  {
    hide Prepare, StartEngine, Discover, Crashes, ApplyFromStatus, StopEngine;
  }

  lemma RestExact(w: World, rec: Record, x: UpInput, w1: World, rec1: Record)
    requires ValidStatus(x.status) && rec.name in w.records && Prepared(w, rec, x, w1, rec1)
    ensures UpRest(w1, rec1, x).2 <==> EndsWell(rec, x) && !x.strictConflict
    ensures EndsWell(rec, x) ==>
              var (w', rec', _) := UpRest(w1, rec1, x);
              && rec' == UpRecord(rec, x) && w'.records == w.records[rec.name := rec']
              && rec.name in w'.daemons && w'.daemons[rec.name].running
              && w'.daemons[rec.name].config.Some?
              && var cfg := w'.daemons[rec.name].config.value;
              && w'.daemons[rec.name].engine == (if x.strictConflict && !x.downFails then None else Some(cfg))
              && UpConfig(DaemonOf(w, rec.name).config, rec, x, cfg)
              && w'.log == w.log + UpLog(rec, x, cfg)
              && w'.daemons - {rec.name} == w.daemons - {rec.name}
              && w'.dns == UpStore(w.dns, rec, x)
    ensures !EndsWell(rec, x) ==> UpRest(w1, rec1, x).0.dns == w.dns
  {
    hide StartEngine, Discover, Crashes, ApplyFromStatus, StopEngine, Derived, UpConfig, UpRecord, UpLog, NewInterface, UpStore;
    var w2 := StartEngine(w1, rec1, x.engine);
    StartEngineDns(w1, rec1, x.engine);
    DiscoverRecord(w2, rec1, x.status, x.discovered, x.ifaceSaveFails);
    SameInterface(rec, rec1, x);
    if x.engine == EngineUp && !x.statusFails {
      EngineExact(w1, rec1);
      DiscoverExact(w2, rec1, x);
      var (w3, rec3, recorded) := Discover(w2, rec1, x.status, x.discovered, x.ifaceSaveFails);
      CrashesExact(rec3, x.status);
      if recorded && !Crashes(rec3, x.status) {
        StoreExact(w.dns, rec3, rec, x);
        RestRecords(w, rec, rec1, rec3, w3);
        UpEnds(w, rec, x, w1, rec1, w2, w3, rec3);
      }
    }
  }

  lemma RestRecords(w: World, rec: Record, rec1: Record, rec3: Record, w3: World)
    requires rec1.name == rec.name && w3.records == w.records[rec.name := rec1][rec.name := rec3]
    ensures w3.records == w.records[rec.name := rec3]
  {
  }

  lemma CrashesExact(rec: Record, st: Status)
    requires ValidStatus(st)
    ensures Crashes(rec, st) <==> rec.mode == Multibird && !st.ip.Missing? && Derived(st) == Err(Crashed)
  {
    hide Derived;
  }

  /** The first half of up. */
  lemma PrepareExact(w: World, rec: Record, x: UpInput)
    requires Loaded(w, rec)
    ensures var (w', rec', ok) := Prepare(w, rec, x);
            && w'.dns == w.dns && rec'.name == rec.name && rec'.mode == rec.mode
            && (ok <==> StartsWell(w, rec, x))
            && (ok && (rec.loggedIn ==> DaemonOf(w, rec.name).config.Some?) ==> Prepared(w, rec, x, w', rec'))
  {
    hide Login, SetConfig;
    var (w1, started) := Start(w, rec.name, x.start);
    if started && !x.dialFails && !x.readyFails {
      RunningDaemon(w, rec.name, x.start);
      if rec.loggedIn {
        assert w.records[rec.name := rec] == w.records && w.log + [] == w.log;
      } else {
        FirstLogin(w1, rec, x);
      }
    }
  }

  lemma RunningDaemon(w: World, name: string, o: StartOutcome)
    ensures var (w', ok) := Start(w, name, o);
            ok ==> && name in w'.daemons && w'.daemons[name].running && w'.daemons[name].config == DaemonOf(w, name).config
                   && w'.daemons - {name} == w.daemons - {name} && w' == w.(daemons := w'.daemons)
  {
  }

  /** Login creates the configuration, and the record's settings replace it. */
  lemma FirstLogin(w: World, rec: Record, x: UpInput)
    requires rec.name in w.daemons && w.daemons[rec.name].running
    ensures var w1 := Login(w, rec, x.login);
            var (w2, ok) := SetConfig(w1, rec, x.hint, x.setFails);
            && w1.dns == w.dns && w2.dns == w.dns
            && (LoginPasses(x.login) ==> (ok <==> !x.setFails))
            && (LoginPasses(x.login) && ok ==>
                  && w2.records == w.records
                  && rec.name in w2.daemons && w2.daemons[rec.name].running && w2.daemons[rec.name].config.Some?
                  && var cfg := w2.daemons[rec.name].config.value;
                  && (rec.loggedIn || UpConfig(w.daemons[rec.name].config, rec, x, cfg))
                  && w2.log == w.log + [LoginSent(rec.name), ConfigSet(rec.name, cfg)]
                  && w2.daemons - {rec.name} == w.daemons - {rec.name})
  {
    var w1 := Login(w, rec, x.login);
    if LoginPasses(x.login) {
      assert w1.log == w.log + [LoginSent(rec.name)];
      assert (w.log + [LoginSent(rec.name)]) + [ConfigSet(rec.name, Pushed(rec, x.hint))] ==
             w.log + [LoginSent(rec.name), ConfigSet(rec.name, Pushed(rec, x.hint))];
    }
  }

  lemma EngineExact(w: World, rec: Record)
    requires rec.name in w.daemons && w.daemons[rec.name].running && w.daemons[rec.name].config.Some?
    ensures var w' := StartEngine(w, rec, EngineUp);
            var cfg := w.daemons[rec.name].config.value;
            && rec.name in w'.daemons && w'.daemons[rec.name] == Daemon(true, Some(cfg), Some(cfg))
            && w'.daemons - {rec.name} == w.daemons - {rec.name}
            && w' == w.(daemons := w'.daemons, log := w.log + [EngineStarted(rec.name, cfg)])
  {
  }

  lemma DiscoverExact(w: World, rec: Record, x: UpInput)
    requires rec.name in w.records && w.records[rec.name] == rec
    ensures var (w', rec', ok) := Discover(w, rec, x.status, x.discovered, x.ifaceSaveFails);
            && (ok <==> (NewInterface(rec, x) ==> !x.ifaceSaveFails))
            && rec' == rec.(iface := if NewInterface(rec, x) then x.discovered.value else rec.iface)
            && (ok ==> w' == w.(records := w.records[rec.name := rec'],
                                log := w.log + (if NewInterface(rec, x) then [RecordSaved(rec.name, rec')] else [])))
  {
    assert w.records[rec.name := rec] == w.records && w.log + [] == w.log;
  }

  lemma SameInterface(rec: Record, rec1: Record, x: UpInput)
    requires rec1 == rec.(loggedIn := true)
    ensures NewInterface(rec1, x) <==> NewInterface(rec, x)
    ensures UpRecord(rec, x) == rec1.(iface := if NewInterface(rec, x) then x.discovered.value else rec1.iface)
  {
  }

  lemma StoreExact(dns: Scutil.Store, rec3: Record, rec: Record, x: UpInput)
    requires ValidStatus(x.status) && rec3.name == rec.name && rec3.mode == rec.mode
    ensures ApplyFromStatus(dns, rec3, x.status, x.dns).0 == UpStore(dns, rec, x)
  {
    hide Derived, ApplyResult;
  }

  lemma UpEnds(w: World, rec: Record, x: UpInput, w1: World, rec1: Record, w2: World, w3: World, rec3: Record)
    requires ValidStatus(x.status)
    requires rec.name in w1.daemons && w1.daemons[rec.name].running && w1.daemons[rec.name].config.Some? && rec3.name == rec.name
    requires var cfg := w1.daemons[rec.name].config.value;
             && rec.name in w2.daemons && w2.daemons[rec.name] == Daemon(true, Some(cfg), Some(cfg))
             && w2.daemons - {rec.name} == w1.daemons - {rec.name} && w1.daemons - {rec.name} == w.daemons - {rec.name}
             && w1.log == w.log + (if rec.loggedIn then [] else [LoginSent(rec.name), ConfigSet(rec.name, cfg), RecordSaved(rec.name, rec.(loggedIn := true))])
             && w2.log == w1.log + [EngineStarted(rec.name, cfg)]
             && w3.daemons == w2.daemons && w3.dns == w.dns
             && w3.log == w2.log + (if NewInterface(rec, x) then [RecordSaved(rec.name, UpRecord(rec, x))] else [])
    ensures var w4 := w3.(dns := ApplyFromStatus(w3.dns, rec3, x.status, x.dns).0);
            var w' := if x.strictConflict then StopEngine(w4, rec3.name, x.downFails) else w4;
            var cfg := w1.daemons[rec.name].config.value;
            && w'.records == w3.records && w'.dns == w4.dns
            && rec.name in w'.daemons && w'.daemons[rec.name].running && w'.daemons[rec.name].config == Some(cfg)
            && w'.daemons[rec.name].engine == (if x.strictConflict && !x.downFails then None else Some(cfg))
            && w'.log == w.log + UpLog(rec, x, cfg)
            && w'.daemons - {rec.name} == w.daemons - {rec.name}
  {
    hide ApplyFromStatus, NewInterface, UpRecord;
  }

  // ---- set ----

  /** Another mode or another port is asked for. */
  predicate AsksForOther(rec: Record, ch: Changes) {
    (ch.mode.Some? && ch.mode.value != rec.mode) || (ch.wgPort.Some? && ch.wgPort.value != rec.wgPort)
  }

  /** The daemon can be reached, started for it if need be, and takes the settings. */
  predicate PushGoesWell(w: World, rec: Record, x: SetInput) {
    && (DaemonOf(w, rec.name).running || x.start == Started) && !x.dialFails && !x.readyFails
    && !x.setFails && DaemonOf(w, rec.name).config.Some?
  }

  /** The record with exactly the requested settings in it. */
  predicate HasSettings(rec: Record, ch: Changes, new_: Record) {
    && new_.mode == (if ch.mode.Some? then ch.mode.value else rec.mode)
    && new_.wgPort == (if ch.wgPort.Some? then ch.wgPort.value else rec.wgPort)
    && new_.bin == (if ch.bin.Some? then ch.bin.value else rec.bin)
    && new_ == rec.(mode := new_.mode, wgPort := new_.wgPort, bin := new_.bin)
  }

  /** Set succeeds exactly when the settings that live with a logged-in daemon reach it, if they
      change, and the record can be saved. Then the record has the requested settings; the
      configuration carries their port and DNS toggle if it had to be pushed, on a daemon that runs
      if it did before; otherwise no daemon is touched. Leaving multibird mode removes the keys. */
  lemma SetExact(w: World, rec: Record, ch: Changes, x: SetInput)
    requires Loaded(w, rec)
    ensures var (w', rec', ok) := SetCmd(w, rec, ch, x);
            && HasSettings(rec, ch, rec')
            && (ok <==> (rec.loggedIn && AsksForOther(rec, ch) ==> PushGoesWell(w, rec, x)) && !x.saveFails)
            && (ok ==> w'.records == w.records[rec.name := rec'])
            && (!ok ==> w'.records == w.records)
            && (ok && rec.loggedIn && AsksForOther(rec, ch) ==>
                  && rec.name in w'.daemons && w'.daemons[rec.name].config.Some?
                  && var cfg := w'.daemons[rec.name].config.value;
                  && cfg.port == (if rec'.wgPort != 0 then rec'.wgPort else 51900 + rec.index)
                  && (cfg.disableDNS <==> rec'.mode != Native)
                  && cfg.mgmt == rec.mgmt && cfg.iface == x.hint && cfg.isolated
                  && w'.daemons[rec.name].running == (DaemonOf(w, rec.name).running || x.stopFails)
                  && w'.log == w.log + [ConfigSet(rec.name, cfg), RecordSaved(rec.name, rec')])
            && (!(rec.loggedIn && AsksForOther(rec, ch)) ==>
                  w'.daemons == w.daemons && w'.log == w.log + (if ok then [RecordSaved(rec.name, rec')] else []))
            && w'.daemons - {rec.name} == w.daemons - {rec.name}
            && (ok ==> w'.dns == if rec.mode == Multibird && rec'.mode != Multibird then RemoveResult(w.dns, rec.name, x.dns).0 else w.dns)
  {
    hide Push, RemoveResult;
    var rec' := Changed(rec, ch);
    PushExact(w, rec', x);
    assert MustPush(rec, ch) <==> rec.loggedIn && AsksForOther(rec, ch);
    assert w.log + [] == w.log;
    if MustPush(rec, ch) && Push(w, rec', x).1 {
      var cfg := Push(w, rec', x).0.daemons[rec.name].config.value;
      assert (w.log + [ConfigSet(rec.name, cfg)]) + [RecordSaved(rec.name, rec')] == w.log + [ConfigSet(rec.name, cfg), RecordSaved(rec.name, rec')];
    }
  }

  lemma PushExact(w: World, rec: Record, x: SetInput)
    ensures var (w', ok) := Push(w, rec, x);
            && (ok <==> PushGoesWell(w, rec, x))
            && w'.records == w.records && w'.dns == w.dns && w'.daemons - {rec.name} == w.daemons - {rec.name}
            && (ok ==>
                  && rec.name in w'.daemons && w'.daemons[rec.name].config.Some?
                  && var cfg := w'.daemons[rec.name].config.value;
                  && cfg.port == (if rec.wgPort != 0 then rec.wgPort else 51900 + rec.index)
                  && (cfg.disableDNS <==> rec.mode != Native)
                  && cfg.mgmt == rec.mgmt && cfg.iface == x.hint && cfg.isolated
                  && w'.daemons[rec.name].running == (DaemonOf(w, rec.name).running || x.stopFails)
                  && w'.log == w.log + [ConfigSet(rec.name, cfg)])
  {
    hide SetConfig;
    var (w1, started) := Start(w, rec.name, x.start);
    if started && !x.dialFails && !x.readyFails {
      RunningDaemon(w, rec.name, x.start);
      PushedExact(w1, rec, x.hint, x.setFails);
    }
  }

  lemma PushedExact(w: World, rec: Record, hint: string, fails: bool)
    requires rec.name in w.daemons && w.daemons[rec.name].running
    ensures var (w', ok) := SetConfig(w, rec, hint, fails);
            && (ok <==> !fails && w.daemons[rec.name].config.Some?)
            && (!ok ==> w' == w)
            && (ok ==>
                  && rec.name in w'.daemons && w'.daemons[rec.name].config.Some?
                  && var cfg := w'.daemons[rec.name].config.value;
                  && cfg.port == (if rec.wgPort != 0 then rec.wgPort else 51900 + rec.index)
                  && (cfg.disableDNS <==> rec.mode != Native)
                  && cfg.mgmt == rec.mgmt && cfg.iface == hint && cfg.isolated
                  && w'.daemons[rec.name] == w.daemons[rec.name].(config := Some(cfg))
                  && w'.daemons - {rec.name} == w.daemons - {rec.name}
                  && w' == w.(daemons := w'.daemons, log := w.log + [ConfigSet(rec.name, cfg)]))
  {
  }

  // ---- down, remove, nuke ----

  /** After down, unless stopping failed, no daemon runs and none of its engine; a multibird
      instance's keys have been removed, if that worked. Files stay. */
  lemma DownExact(w: World, rec: Record, x: DownInput)
    requires ValidName(rec.name)
    ensures var w' := Down(w, rec, x);
            && w'.records == w.records && w'.log == w.log && w'.daemons - {rec.name} == w.daemons - {rec.name}
            && DaemonOf(w', rec.name).config == DaemonOf(w, rec.name).config
            && (!x.stopFails ==> !DaemonOf(w', rec.name).running && DaemonOf(w', rec.name).engine == None)
            && (x.stopFails ==>
                  && DaemonOf(w', rec.name).running == DaemonOf(w, rec.name).running
                  && (DaemonOf(w, rec.name).running && !x.engineFails ==> DaemonOf(w', rec.name).engine == None))
            && w'.dns == (if rec.mode == Multibird then RemoveResult(w.dns, rec.name, x.dns).0 else w.dns)
            && (rec.mode == Multibird && RemoveResult(w.dns, rec.name, x.dns).1.None? ==> Slice(w'.dns, rec.name) == map[])
  {
    hide RemoveResult, Slice, ValidName;
    GoneAfter(w.dns, rec.name, x.dns);
  }

  lemma GoneAfter(dns: Scutil.Store, name: string, s: Surroundings)
    requires ValidName(name)
    ensures RemoveResult(dns, name, s).1.None? ==> Slice(RemoveResult(dns, name, s).0, name) == map[]
  {
    hide Slice, RemoveResult, Free, Put;
    RemoveMeaning(dns, name, s);
    NoBlankInName(name);
  }

  lemma NoBlankInName(name: string)
    requires ValidName(name)
    ensures Free(name, ' ')
  {
  }

  /** After remove, unless deleting the record failed, it is off file, with purge netbird's
      configuration too, the daemon is down if it could be stopped, and the keys are gone if their
      last removal worked, whatever the mode. */
  lemma RemoveExact(w: World, rec: Record, purge: bool, x: DownInput, dns: Surroundings, fails: bool)
    requires ValidName(rec.name)
    ensures var w' := Remove(w, rec, purge, x, dns, fails);
            var first := if rec.mode == Multibird then RemoveResult(w.dns, rec.name, x.dns).0 else w.dns;
            && w'.records == (if fails then w.records else w.records - {rec.name})
            && w'.log == (if fails then w.log else w.log + [RecordRemoved(rec.name)])
            && w'.daemons - {rec.name} == w.daemons - {rec.name}
            && DaemonOf(w', rec.name).config == (if purge && !fails then None else DaemonOf(w, rec.name).config)
            && (!x.stopFails ==> !DaemonOf(w', rec.name).running && DaemonOf(w', rec.name).engine == None)
            && w'.dns == RemoveResult(first, rec.name, dns).0
            && (RemoveResult(first, rec.name, dns).1.None? ==> Slice(w'.dns, rec.name) == map[])
  {
    hide RemoveResult, Slice, ValidName, Down;
    DownExact(w, rec, x);
    GoneAfter(Down(w, rec, x).dns, rec.name, dns);
  }

  /** Nuke stops the daemon and removes the keys in every mode. */
  lemma NukeExact(w: World, rec: Record, killFails: bool, dns: Surroundings)
    requires ValidName(rec.name)
    ensures var w' := Nuke(w, rec, killFails, dns);
            && w'.records == w.records && w'.log == w.log && w'.daemons - {rec.name} == w.daemons - {rec.name}
            && DaemonOf(w', rec.name).config == DaemonOf(w, rec.name).config
            && (if killFails then w'.daemons == w.daemons else !DaemonOf(w', rec.name).running && DaemonOf(w', rec.name).engine == None)
            && w'.dns == RemoveResult(w.dns, rec.name, dns).0
            && (RemoveResult(w.dns, rec.name, dns).1.None? ==> Slice(w'.dns, rec.name) == map[])
  {
    hide RemoveResult, Slice, ValidName;
    GoneAfter(w.dns, rec.name, dns);
  }

  // ---- sync and status ----

  /** What one sync does to the store and whether it succeeds, by the daemon's state and answer. */
  lemma SyncOutcome(w: World, rec: Record, reply: Option<Status>, s: Surroundings)
    requires reply.Some? ==> ValidStatus(reply.value)
    ensures var (w', ok) := DnsSync(w, rec, reply, s);
            && w' == w.(dns := w'.dns)
            && if rec.mode != Multibird || !DaemonOf(w, rec.name).running then
                 w'.dns == RemoveResult(w.dns, rec.name, s).0 && (ok <==> RemoveResult(w.dns, rec.name, s).1.None?)
               else if reply.None? then w'.dns == w.dns && !ok
               else if reply.value.ip.Missing? then w'.dns == w.dns && ok
               else if Derived(reply.value).Err? then w'.dns == w.dns && !ok
               else
                 var r := ApplyResult(w.dns, rec.name, Derived(reply.value).value, s);
                 w'.dns == r.0 && (ok <==> r.1.None?)
  {
    hide Derived, ApplyResult, RemoveResult;
  }

  /** One instance's turn in a status listing shows whether the daemon runs and answers, its
      address, the interface found or else the one on file, and the port; and it registers and
      records what it learned. */
  lemma StatusExact(w: World, rec: Record, x: StatusInput)
    requires Loaded(w, rec) && (x.reply.Some? ==> ValidStatus(x.reply.value))
    ensures var (w', rec') := StatusCmd(w, rec, x);
            var line := StatusLine(w, rec, x);
            var crashes := x.reply.Some? && rec.mode == Multibird && !x.reply.value.ip.Missing? && Derived(x.reply.value) == Err(Crashed);
            var answers := DaemonOf(w, rec.name).running && x.reply.Some?;
            var found := answers && (x.reply.value.ip.Cidr? || x.reply.value.ip.Bare?) && x.discovered.Some?;
            && (line.None? <==> answers && crashes)
            && (line.Some? ==>
                  && line.value.name == rec.name && line.value.mgmt == rec.mgmt
                  && line.value.wgPort == (if rec.wgPort != 0 then rec.wgPort else 51900 + rec.index)
                  && line.value.state == (if !DaemonOf(w, rec.name).running then Stopped
                                          else if x.reply.None? then DaemonOnly else Answered(x.reply.value.ip))
                  && line.value.iface == (if found then x.discovered.value else rec.iface))
            && w'.daemons == w.daemons
            && (line.None? || !answers ==> w' == w && rec' == rec)
            && (line.Some? && answers ==>
                  && rec' == rec.(iface := line.value.iface)
                  && w'.records == (if x.saveFails then w.records else w.records[rec.name := rec'])
                  && w'.dns == (if rec.mode == Multibird && !x.reply.value.ip.Missing? && Derived(x.reply.value).Ok?
                                then ApplyResult(w.dns, rec.name, Derived(x.reply.value).value, x.dns).0 else w.dns))
  {
    hide Derived, ApplyResult;
    if x.reply.Some? { CrashesExact(rec, x.reply.value); }
    assert w.records[rec.name := rec] == w.records;
  }
}

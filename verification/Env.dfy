/** The commands as the program runs them, step by step on shared objects, each proved to do
    what its step function on the world says (internal/ops/ops.go:54-273, internal/ops/set.go:27-89,
    internal/ops/dns.go:18-100). */
module Env {
  import opened Text
  import opened Specs
  import opened Names
  import opened HostDns
  import Scutil
  import opened Listings
  import opened DynamicStore
  import opened Instances
  import opened Lifecycle
  import Runs

  class Env {
    const store: Instances.Store
    const host: Host
    var daemons: map<string, Daemon>
    ghost var log: seq<Event>

    constructor (store: Instances.Store, host: Host)
      ensures this.store == store && this.host == host
      ensures daemons == map[] && log == []
    {
      this.store, this.host := store, host;
      daemons, log := map[], [];
    }

    ghost predicate Valid()
      reads host
    {
      Printable(host.store)
    }

    /** The world as the step functions see it. */
    ghost function World(): World
      reads this, store, host
    {
      Lifecycle.World(store.records, daemons, host.store, log)
    }

    // ---- single calls ----

    method Daemon(name: string) returns (d: Daemon)
      ensures d == DaemonOf(World(), name)
    {
      d := if name in daemons then daemons[name] else Lifecycle.Daemon(false, None, None);
    }

    method Save(inst: Instance, fails: bool) returns (ok: bool)
      modifies this, store
      ensures World() == if fails then old(World()) else Lifecycle.Save(old(World()), inst.Rec())
      ensures ok == !fails
    {
      if fails {
        return false;
      }
      store.records := store.records[inst.name := inst.Rec()];
      log := log + [RecordSaved(inst.name, inst.Rec())];
      return true;
    }

    method StartDaemon(name: string, o: StartOutcome) returns (ok: bool)
      modifies this
      ensures (World(), ok) == Start(old(World()), name, o)
    {
      var d := Daemon(name);
      if d.running {
        return true;
      }
      match o {
        case Started =>
          daemons := daemons[name := d.(running := true, engine := None)];
          return true;
        case StartFailed(left) =>
          daemons := daemons[name := d.(running := left, engine := None)];
          return false;
      }
    }

    method StopDaemon(name: string, fails: bool)
      modifies this
      ensures World() == Stop(old(World()), name, fails)
    {
      if !fails {
        var d := Daemon(name);
        daemons := daemons[name := d.(running := false, engine := None)];
      }
    }

    method SendLogin(inst: Instance, o: LoginOutcome) returns (ok: bool)
      modifies this
      ensures World() == Login(old(World()), inst.Rec(), o)
      ensures ok == LoginPasses(o)
    {
      var d := Daemon(inst.name);
      log := log + [LoginSent(inst.name)];
      if o != Rejected(false) {
        var cfg := match d.config case Some(c) => c.(mgmt := inst.mgmt) case None => DefaultConfig(inst.mgmt);
        daemons := daemons[inst.name := d.(config := Some(cfg))];
      }
      return LoginPasses(o);
    }

    method PushConfig(inst: Instance, hint: string, fails: bool) returns (ok: bool)
      modifies this
      ensures (World(), ok) == SetConfig(old(World()), inst.Rec(), hint, fails)
    {
      var d := Daemon(inst.name);
      if fails || d.config.None? {
        return false;
      }
      var port := if inst.wgPort == 0 then DEFAULT_BASE_PORT + inst.index else inst.wgPort;
      var cfg := Config(inst.mgmt, hint, port, DisableSys(inst.mode), true);
      daemons := daemons[inst.name := d.(config := Some(cfg))];
      log := log + [ConfigSet(inst.name, cfg)];
      return true;
    }

    method BringUpEngine(inst: Instance, o: EngineOutcome) returns (ok: bool)
      modifies this
      ensures World() == StartEngine(old(World()), inst.Rec(), o)
      ensures ok == (o == EngineUp)
    {
      if o != EngineFailed(false) {
        var d := Daemon(inst.name);
        var cfg := match d.config case Some(c) => c case None => DefaultConfig(inst.mgmt);
        daemons := daemons[inst.name := d.(engine := Some(cfg))];
        log := log + [EngineStarted(inst.name, cfg)];
      }
      return o == EngineUp;
    }

    method TakeDownEngine(name: string, fails: bool)
      modifies this
      ensures World() == StopEngine(old(World()), name, fails)
    {
      if !fails {
        var d := Daemon(name);
        daemons := daemons[name := d.(engine := None)];
      }
    }

    method RemoveHostDNSQuietly(name: string, s: Surroundings) returns (err: Option<HostError>)
      requires Valid() && name != ""
      modifies host
      ensures Valid() && World() == RemoveDns(old(World()), name, s) && err == RemoveResult(old(host.store), name, s).1
    {
      PrintableKept(host.store, name, Spec(AddrPort(0, 0), [], []), s);
      hide RemoveResult, ApplyResult;
      err := host.RemoveHostDNS(name, s);
    }

    /** Registers or refreshes the instance's resolvers from a status; a crash of the derivation
        is reported apart from an error. */
    method ApplyHostDNSFromStatus(inst: Instance, st: Status, s: Surroundings) returns (ok: bool, crashed: bool)
      requires Valid() && ValidStatus(st) && ValidName(inst.name)
      modifies host
      ensures Valid()
      ensures crashed <==> Crashes(inst.Rec(), st)
      ensures World() == old(World()).(dns := host.store)
      ensures (host.store, ok) == ApplyFromStatus(old(host.store), inst.Rec(), st, s)
    {
      if inst.mode != Multibird {
        return true, false;
      }
      if st.ip.Missing? {
        return true, false;
      }
      var spec := Derive(st);
      if spec.Err? {
        return false, spec.error == Crashed;
      }
      ValidIsClean(inst.name);
      hide ValidName, Derived, ApplyResult, RemoveResult, CleanWord;
      PrintableKept(host.store, inst.name, spec.value, s);
      var err := host.ApplyHostDNS(inst.name, spec.value, s);
      return err.None?, false;
    }

    // ---- commands ----

    method Load(name: string, saveFails: bool) returns (r: Option<Instance>)
      modifies this, store
      ensures r.Some? ==> fresh(r.value)
      ensures World() == Lifecycle.Load(old(World()), name, saveFails).0
      ensures match Lifecycle.Load(old(World()), name, saveFails).1
              case Some(rec) => r.Some? && r.value.Rec() == rec
              case None => r.None?
    {
      hide ValidName;
      if !ValidName(name) || name !in store.records {
        return None;
      }
      var inst := new Instance(store.records[name]);
      var changed := inst.Normalize();
      if changed {
        var ok := Save(inst, saveFails);
        if !ok {
          return None;
        }
      }
      return Some(inst);
    }

    method Add(inst: Instance, defaultMode: Mode, saveFails: bool) returns (ok: bool)
      modifies this, store, inst
      ensures (World(), ok) == Lifecycle.Add(old(World()), old(inst.Rec()), defaultMode, saveFails)
      ensures ok ==> inst.name in store.records && inst.Rec() == store.records[inst.name]
    {
      hide ValidName, LeastFree;
      if !ValidName(inst.name) {
        return false;
      }
      if inst.name in store.records {
        return false;
      }
      var idx := store.NextIndex();
      LeastFreeUnique(store.records, idx, LowestIndex(store.records));
      inst.index := idx;
      if inst.mode == Unset {
        inst.mode := defaultMode;
      }
      ok := Save(inst, saveFails);
    }

    /** The first half of Up. */
    method Prepare(inst: Instance, x: UpInput) returns (ok: bool)
      modifies this, store, inst
      ensures (World(), inst.Rec(), ok) == Lifecycle.Prepare(old(World()), old(inst.Rec()), x)
    {
      hide Start, Login, SetConfig, Lifecycle.Save;
      var started := StartDaemon(inst.name, x.start);
      if !started || x.dialFails || x.readyFails {
        return false;
      }
      if !inst.loggedIn {
        var passed := SendLogin(inst, x.login);
        if !passed {
          return false;
        }
        var pushed := PushConfig(inst, x.hint, x.setFails);
        if !pushed {
          return false;
        }
        inst.loggedIn := true;
        var saved := Save(inst, x.saveFails);
        if !saved {
          return false;
        }
      }
      return true;
    }

    method Discover(inst: Instance, st: Status, found: Option<string>, saveFails: bool) returns (ok: bool)
      modifies this, store, inst
      ensures (World(), inst.Rec(), ok) == Lifecycle.Discover(old(World()), old(inst.Rec()), st, found, saveFails)
    {
      hide Lifecycle.Save;
      if HasHostAddr(st.ip) && found.Some? && found.value != inst.iface {
        inst.iface := found.value;
        ok := Save(inst, saveFails);
        return;
      }
      return true;
    }

    method Up(inst: Instance, x: UpInput) returns (ok: bool)
      requires Valid() && ValidStatus(x.status) && ValidName(inst.name)
      modifies this, store, host, inst
      ensures Valid()
      ensures (World(), inst.Rec(), ok) == Lifecycle.Up(old(World()), old(inst.Rec()), x)
    {
      hide Lifecycle.Prepare, StartEngine, Lifecycle.Discover, ApplyFromStatus, Crashes, StopEngine, ValidName, Printable;
      ghost var w0, r0 := World(), inst.Rec();
      Runs.PrepareRecord(w0, r0, x);
      var ready := Prepare(inst, x);
      if !ready {
        return false;
      }
      ghost var w1, r1 := World(), inst.Rec();
      Runs.StartEngineDns(w1, r1, x.engine);
      var up := BringUpEngine(inst, x.engine);
      if !up || x.statusFails {
        return false;
      }
      ghost var w2 := World();
      Runs.DiscoverRecord(w2, r1, x.status, x.discovered, x.ifaceSaveFails);
      var recorded := Discover(inst, x.status, x.discovered, x.ifaceSaveFails);
      if !recorded {
        return false;
      }
      ghost var w3, r3 := World(), inst.Rec();
      var applied, crashed := ApplyHostDNSFromStatus(inst, x.status, x.dns);
      if crashed {
        CrashWritesNothing(w3.dns, r3, x.status, x.dns);
        return false;
      }
      if x.strictConflict {
        TakeDownEngine(inst.name, x.downFails);
        return false;
      }
      return true;
    }

    method Push(inst: Instance, x: SetInput) returns (ok: bool)
      modifies this
      ensures (World(), ok) == Lifecycle.Push(old(World()), inst.Rec(), x)
    {
      hide Start, SetConfig, Stop;
      var d := Daemon(inst.name);
      var started := StartDaemon(inst.name, x.start);
      if !started || x.dialFails || x.readyFails {
        return false;
      }
      var pushed := PushConfig(inst, x.hint, x.setFails);
      if !pushed {
        return false;
      }
      if !d.running {
        StopDaemon(inst.name, x.stopFails);
      }
      return true;
    }

    /** Assigning the requested settings; says whether the daemon has to hear of them. */
    method Change(inst: Instance, ch: Changes) returns (needsDaemon: bool)
      modifies inst
      ensures inst.Rec() == Changed(old(inst.Rec()), ch)
      ensures needsDaemon && inst.loggedIn <==> MustPush(old(inst.Rec()), ch)
    {
      if ch.bin.Some? {
        inst.bin := ch.bin.value;
      }
      needsDaemon := false;
      if ch.mode.Some? && ch.mode.value != inst.mode {
        inst.mode := ch.mode.value;
        needsDaemon := true;
      }
      if ch.wgPort.Some? && ch.wgPort.value != inst.wgPort {
        inst.wgPort := ch.wgPort.value;
        needsDaemon := true;
      }
    }

    method Set(inst: Instance, ch: Changes, x: SetInput) returns (ok: bool)
      requires Valid() && ValidName(inst.name)
      modifies this, store, host, inst
      ensures Valid()
      ensures (World(), inst.Rec(), ok) == SetCmd(old(World()), old(inst.Rec()), ch, x)
    {
      assert inst.name != "";
      hide Lifecycle.Push, RemoveDns, Lifecycle.Save, ValidName, Printable, MustPush;
      ghost var w, r := World(), inst.Rec();
      PushFrame(World(), Changed(inst.Rec(), ch), x);
      var prevMode := inst.mode;
      var needsDaemon := Change(inst, ch);
      if needsDaemon && inst.loggedIn {
        var pushed := Push(inst, x);
        if !pushed {
          return false;
        }
      }
      if prevMode == Multibird && inst.mode != Multibird {
        var err := RemoveHostDNSQuietly(inst.name, x.dns);
      }
      ok := Save(inst, x.saveFails);
    }

    method Down(inst: Instance, x: DownInput) returns (ok: bool)
      requires Valid() && ValidName(inst.name)
      modifies this, host
      ensures Valid()
      ensures World() == Lifecycle.Down(old(World()), inst.Rec(), x)
      ensures ok == !x.stopFails
    {
      assert inst.name != "";
      hide RemoveDns, Stop, StopEngine, ValidName, Printable;
      StopEngineFrame(World(), inst.name, x.engineFails);
      var d := Daemon(inst.name);
      if d.running {
        TakeDownEngine(inst.name, x.engineFails);
      }
      if inst.mode == Multibird {
        var err := RemoveHostDNSQuietly(inst.name, x.dns);
      }
      StopDaemon(inst.name, x.stopFails);
      return !x.stopFails;
    }

    method Remove(inst: Instance, purge: bool, x: DownInput, dns: Surroundings, fails: bool) returns (ok: bool)
      requires Valid() && ValidName(inst.name)
      modifies this, store, host
      ensures Valid()
      ensures World() == Lifecycle.Remove(old(World()), inst.Rec(), purge, x, dns, fails)
      ensures ok == !fails
    {
      assert inst.name != "";
      hide RemoveDns, Lifecycle.Down, ValidName, Printable;
      var down := Down(inst, x);
      var err := RemoveHostDNSQuietly(inst.name, dns);
      if fails {
        return false;
      }
      store.records := store.records - {inst.name};
      log := log + [RecordRemoved(inst.name)];
      if purge {
        var d := Daemon(inst.name);
        daemons := daemons[inst.name := d.(config := None)];
      }
      return true;
    }

    method Nuke(inst: Instance, killFails: bool, dns: Surroundings) returns (ok: bool)
      requires Valid() && ValidName(inst.name)
      modifies this, host
      ensures Valid()
      ensures World() == Lifecycle.Nuke(old(World()), inst.Rec(), killFails, dns)
      ensures ok <==> !killFails && RemoveResult(old(host.store), inst.name, dns).1.None?
    {
      assert inst.name != "";
      hide RemoveDns, RemoveResult, Stop, ValidName, Printable;
      StopKeepsDns(World(), inst.name, killFails);
      StopDaemon(inst.name, killFails);
      var err := RemoveHostDNSQuietly(inst.name, dns);
      return !killFails && err.None?;
    }

    /** `reply` is what the daemon answers to a status request, if it does. */
    method DNSSync(inst: Instance, reply: Option<Status>, s: Surroundings) returns (ok: bool)
      requires Valid() && ValidName(inst.name) && (reply.Some? ==> ValidStatus(reply.value))
      modifies this, host
      ensures Valid()
      ensures (World(), ok) == DnsSync(old(World()), inst.Rec(), reply, s)
    {
      assert inst.name != "";
      hide RemoveResult, ApplyFromStatus, ValidName, Printable;
      var d := Daemon(inst.name);
      if inst.mode != Multibird || !d.running {
        var err := RemoveHostDNSQuietly(inst.name, s);
        return err.None?;
      }
      if reply.None? {
        return false;
      }
      var applied, crashed := ApplyHostDNSFromStatus(inst, reply.value, s);
      return applied;
    }

    /** One instance's turn in the status listing: its line, or nothing when the program crashes. */
    method Status(inst: Instance, x: StatusInput) returns (line: Option<StatusView>)
      requires Valid() && ValidName(inst.name) && (x.reply.Some? ==> ValidStatus(x.reply.value))
      modifies this, store, host, inst
      ensures Valid()
      ensures (World(), inst.Rec()) == StatusCmd(old(World()), old(inst.Rec()), x)
      ensures line == StatusLine(old(World()), old(inst.Rec()), x)
    {
      hide Lifecycle.Discover, ApplyFromStatus, Crashes, ValidName, Printable, ValidStatus;
      var port := if inst.wgPort == 0 then DEFAULT_BASE_PORT + inst.index else inst.wgPort;
      var view := StatusView(inst.name, inst.mgmt, Stopped, inst.iface, port);
      var d := Daemon(inst.name);
      if !d.running {
        return Some(view);
      }
      if x.reply.None? {
        return Some(view.(state := DaemonOnly));
      }
      ghost var w := World();
      var applied, crashed := ApplyHostDNSFromStatus(inst, x.reply.value, x.dns);
      if crashed {
        CrashWritesNothing(w.dns, inst.Rec(), x.reply.value, x.dns);
        return None;
      }
      Runs.DiscoverRecord(World(), inst.Rec(), x.reply.value, x.discovered, x.saveFails);
      view := view.(state := Answered(x.reply.value.ip));
      if HasHostAddr(x.reply.value.ip) && x.discovered.Some? && x.discovered.value != inst.iface {
        view := view.(iface := x.discovered.value);
      }
      var recorded := Discover(inst, x.reply.value, x.discovered, x.saveFails);
      return Some(view);
    }

    /** One migration in a listing. */
    method Migrate(inst: Instance, fails: set<string>) returns (ok: bool)
      modifies this, store, inst
      ensures inst.Rec() == Normalized(old(inst.Rec()))
      ensures ok <==> !(old(inst.Rec()).mode == Unset && old(inst.Rec()).name in fails)
      ensures World() == if ok && old(inst.Rec()).mode == Unset then Lifecycle.Save(old(World()), inst.Rec()) else old(World())
    {
      var changed := inst.Normalize();
      if changed {
        ok := Save(inst, inst.name in fails);
        return;
      }
      return true;
    }

    method MigrateList(insts: seq<Instance>, ghost records: seq<Record>, fails: set<string>) returns (ok: bool)
      requires |insts| == |records| && forall j :: 0 <= j < |insts| ==> insts[j].Rec() == records[j]
      requires forall j, k :: 0 <= j < k < |insts| ==> insts[j] != insts[k]
      modifies this, store, insts
      ensures World() == MigrateAll(old(World()), records, fails).0
      ensures ok <==> MigrateAll(old(World()), records, fails).1.Some?
      ensures ok ==> forall j :: 0 <= j < |insts| ==> insts[j].Rec() == Normalized(records[j])
    {
      hide MigrateAll, Normalized, Lifecycle.Save;
      ghost var w := World();
      assert records[0..] == records;
      for i := 0 to |insts|
        invariant forall j :: 0 <= j < i ==> insts[j].Rec() == Normalized(records[j])
        invariant forall j :: i <= j < |insts| ==> insts[j].Rec() == records[j]
        invariant SameEnd(MigrateAll(World(), records[i..], fails), MigrateAll(w, records, fails))
      {
        MigrateTurn(World(), records, i, fails);
        var migrated := Migrate(insts[i], fails);
        if !migrated {
          return false;
        }
      }
      MigrateTurn(World(), records, |insts|, fails);
      return true;
    }

    method Objects(records: seq<Record>) returns (insts: seq<Instance>)
      ensures |insts| == |records| && forall j :: 0 <= j < |insts| ==> fresh(insts[j]) && insts[j].Rec() == records[j]
      ensures forall j, k :: 0 <= j < k < |insts| ==> insts[j] != insts[k]
    {
      insts := [];
      for i := 0 to |records|
        invariant |insts| == i
        invariant forall j :: 0 <= j < i ==> fresh(insts[j]) && insts[j].Rec() == records[j]
        invariant forall j, k :: 0 <= j < k < i ==> insts[j] != insts[k]
      {
        var inst := new Instance(records[i]);
        insts := insts + [inst];
      }
    }

    /** Every record on file as an object, migrated; all are read before the first is saved. */
    method List(fails: set<string>) returns (list: Option<seq<Instance>>)
      modifies this, store
      ensures World() == ListAll(old(World()), fails).0
      ensures match ListAll(old(World()), fails).1
              case Some(recs) => list.Some? && |list.value| == |recs| && forall i :: 0 <= i < |recs| ==> list.value[i].Rec() == recs[i]
              case None => list.None?
    {
      hide InOrder, MigrateAll, Normalized, ListedAs;
      var records := store.List();
      var insts := Objects(records);
      Runs.MigrateReturns(World(), records, fails);
      var ok := MigrateList(insts, records, fails);
      return if ok then Some(insts) else None;
    }

    /** The names of the listed instances. */
    method Known(list: seq<Instance>) returns (known: set<string>)
      ensures known == set i | 0 <= i < |list| :: list[i].name
    {
      known := {};
      for i := 0 to |list|
        invariant known == set j | 0 <= j < i :: list[j].name
      {
        known := known + {list[i].name};
      }
    }

    /** The removals of a cleanup, one owner after another. */
    method RemoveStrays(owners: seq<string>, known: set<string>, weather: Weather) returns (cleaned: seq<string>, ok: bool)
      requires Valid() && "" !in owners
      modifies host
      ensures Valid()
      ensures (host.store, cleaned, ok) == CleanStrays(old(host.store), owners, known, weather)
    {
      hide Printable, RemoveResult, Over;
      ghost var dns := host.store;
      cleaned := [];
      assert owners[0..] == owners;
      assert cleaned + CleanStrays(dns, owners, known, weather).1 == CleanStrays(dns, owners, known, weather).1;
      for i := 0 to |owners|
        invariant Valid()
        invariant var (after, more, done) := CleanStrays(host.store, owners[i..], known, weather);
                  (after, cleaned + more, done) == CleanStrays(dns, owners, known, weather)
      {
        var o := owners[i];
        assert owners[i..][0] == o && owners[i..][1..] == owners[i + 1..];
        StrayStep(host.store, owners[i..], known, weather, cleaned);
        if o in known {
          continue;
        }
        var err := RemoveHostDNSQuietly(o, Over(weather, o));
        if err.Some? {
          return cleaned, false;
        }
        cleaned := cleaned + [o];
      }
      assert owners[|owners|..] == [] && cleaned + [] == cleaned;
      return cleaned, true;
    }

    method DNSCleanupStrays(fails: set<string>, listExec: bool, weather: Weather) returns (cleaned: seq<string>, ok: bool)
      requires Valid()
      modifies this, store, host
      ensures Valid()
      ensures (World(), cleaned, ok) == Cleanup(old(World()), fails, listExec, weather)
    {
      hide Printable, ListAll, ListFails, CleanStrays, StrictlySorted, Owners;
      NoNamelessOwner(host.store);
      var owners := host.ListHostDNSOwners(listExec, []);
      if owners.Err? {
        return [], false;
      }
      StrictUnique(owners.value, SortedOf(Owners(host.store)));
      var list := List(fails);
      if list.None? {
        return [], false;
      }
      var known := Known(list.value);
      assert known == NamesIn(ListAll(old(World()), fails).1.value);
      cleaned, ok := RemoveStrays(owners.value, known, weather);
    }
  }

  lemma NoNamelessOwner(dns: Scutil.Store)
    ensures "" !in SortedOf(Owners(dns))
  {
    assert "" in SortedOf(Owners(dns)) ==> "" in Elements(SortedOf(Owners(dns)));
  }

  /** One turn of the cleanup loop, seen from what was cleaned before it. */
  lemma StrayStep(dns: Scutil.Store, owners: seq<string>, known: set<string>, weather: Weather, cleaned: seq<string>)
    requires owners != []
    ensures var (after, more, ok) := CleanStrays(dns, owners, known, weather);
            var (dns1, err) := RemoveResult(dns, owners[0], Over(weather, owners[0]));
            var (after', more', ok') := CleanStrays(if owners[0] in known then dns else dns1, owners[1..], known, weather);
            (after, cleaned + more, ok) ==
            if owners[0] in known then (after', cleaned + more', ok')
            else if err.Some? then (dns1, cleaned, false) else (after', (cleaned + [owners[0]]) + more', ok')
  {
    hide RemoveResult, Over;
    var more' := CleanStrays(RemoveResult(dns, owners[0], Over(weather, owners[0])).0, owners[1..], known, weather).1;
    assert cleaned + ([owners[0]] + more') == (cleaned + [owners[0]]) + more';
    assert cleaned + [] == cleaned;
  }

  /** The same world and the same success. */
  predicate SameEnd(a: (World, Option<seq<Record>>), b: (World, Option<seq<Record>>)) {
    a.0 == b.0 && (a.1.Some? <==> b.1.Some?)
  }

  /** One turn of the migration, and its end. */
  lemma MigrateTurn(w: World, list: seq<Record>, i: nat, fails: set<string>)
    requires i <= |list|
    ensures SameEnd(MigrateAll(w, list[i..], fails),
                    if i == |list| then (w, Some([]))
                    else if list[i].mode == Unset && list[i].name in fails then (w, None)
                    else MigrateAll(if list[i].mode == Unset then Lifecycle.Save(w, Normalized(list[i])) else w, list[i + 1..], fails))
  {
    hide Lifecycle.Save, Normalized;
    if i < |list| { assert list[i..][0] == list[i] && list[i..][1..] == list[i + 1..]; }
  }

  // ---- frames of the step functions ----

  lemma PushFrame(w: World, rec: Record, x: SetInput)
    ensures Lifecycle.Push(w, rec, x).0.dns == w.dns && Lifecycle.Push(w, rec, x).0.records == w.records
  {
  }

  lemma StopKeepsDns(w: World, name: string, fails: bool)
    ensures Stop(w, name, fails).dns == w.dns
  {
  }

  lemma StopEngineFrame(w: World, name: string, fails: bool)
    ensures StopEngine(w, name, fails).dns == w.dns
  {
  }

  lemma CrashWritesNothing(dns: Scutil.Store, rec: Record, st: Status, s: Surroundings)
    requires ValidStatus(st) && Crashes(rec, st)
    ensures ApplyFromStatus(dns, rec, st, s).0 == dns
  {
  }
}

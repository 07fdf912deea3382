/** The commands as steps on the world: records, daemons, the dynamic store, and a log of what
    was sent, pushed, started, saved and removed (internal/ops/ops.go, internal/ops/set.go,
    internal/ops/dns.go:15-100). Every call that can fail has a field of a command's input that
    says how it went. The daemon follows the contract stated at internal/nbgrpc/client.go:40-65
    and internal/ops/ops.go:125-132. */
module Lifecycle {
  import opened Text
  import opened Addresses
  import opened Names
  import opened HostDns
  import Scutil
  import opened DynamicStore
  import opened Instances

  /** netbird's own configuration file; `isolated` says whether SetConfig wrote it since it was created. */
  datatype Config = Config(mgmt: string, iface: string, port: int, disableDNS: bool, isolated: bool)

  /** A daemon process, its configuration on disk, and the configuration its engine runs on. */
  datatype Daemon = Daemon(running: bool, config: Option<Config>, engine: Option<Config>)

  datatype Event =
    | LoginSent(name: string)
    | ConfigSet(name: string, cfg: Config)
    | EngineStarted(name: string, cfg: Config)
    | RecordSaved(name: string, rec: Record)
    | RecordRemoved(name: string)

  datatype World = World(records: Records, daemons: map<string, Daemon>, dns: Scutil.Store, log: seq<Event>)

  function DaemonOf(w: World, name: string): Daemon {
    if name in w.daemons then w.daemons[name] else Daemon(false, None, None)
  }

  function SetDaemon(w: World, name: string, d: Daemon): World {
    w.(daemons := w.daemons[name := d])
  }

  // ---- single calls ----

  function Save(w: World, rec: Record): World {
    w.(records := w.records[rec.name := rec], log := w.log + [RecordSaved(rec.name, rec)])
  }

  /** Starting can fail with the process left behind (its socket never appeared). */
  datatype StartOutcome = Started | StartFailed(leftRunning: bool)

  /** daemon.Start: nothing to do when the process is alive. */
  function Start(w: World, name: string, o: StartOutcome): (World, bool) {
    var d := DaemonOf(w, name);
    if d.running then (w, true)
    else match o
      case Started => (SetDaemon(w, name, d.(running := true, engine := None)), true)
      case StartFailed(left) => (SetDaemon(w, name, d.(running := left, engine := None)), false)
  }

  /** daemon.Stop and the end of the process generally: the engine goes with it. */
  function Stop(w: World, name: string, fails: bool): World {
    if fails then w else SetDaemon(w, name, DaemonOf(w, name).(running := false, engine := None))
  }

  /** The configuration Login creates: netbird's defaults, which a stock install owns. */
  function DefaultConfig(mgmt: string): Config {
    Config(mgmt, "utun100", STOCK_PORT, false, false)
  }

  datatype LoginOutcome = Accepted | Challenge(completed: bool) | Rejected(touchedConfig: bool)

  function LoginPasses(o: LoginOutcome): bool {
    o.Accepted? || (o.Challenge? && o.completed)
  }

  /** Login creates a missing configuration and otherwise persists only the management URL. */
  function Login(w: World, rec: Record, o: LoginOutcome): World {
    var d := DaemonOf(w, rec.name);
    var sent := w.(log := w.log + [LoginSent(rec.name)]);
    if o == Rejected(false) then sent
    else
      var cfg := match d.config case Some(c) => c.(mgmt := rec.mgmt) case None => DefaultConfig(rec.mgmt);
      SetDaemon(sent, rec.name, d.(config := Some(cfg)))
  }

  /** The isolation parameters of a record. */
  function Pushed(rec: Record, hint: string): Config {
    Config(rec.mgmt, hint, WGPort(rec), DisableSys(rec.mode), true)
  }

  /** SetConfig can only update an existing configuration. */
  function SetConfig(w: World, rec: Record, hint: string, fails: bool): (World, bool) {
    var d := DaemonOf(w, rec.name);
    if fails || d.config.None? then (w, false)
    else
      (SetDaemon(w, rec.name, d.(config := Some(Pushed(rec, hint))))
         .(log := w.log + [ConfigSet(rec.name, Pushed(rec, hint))]), true)
  }

  /** The engine can fail to come up before or after it started on the configuration. */
  datatype EngineOutcome = EngineUp | EngineFailed(started: bool)

  function StartEngine(w: World, rec: Record, o: EngineOutcome): World {
    if o == EngineFailed(false) then w
    else
      var d := DaemonOf(w, rec.name);
      var cfg := match d.config case Some(c) => c case None => DefaultConfig(rec.mgmt);
      SetDaemon(w, rec.name, d.(engine := Some(cfg))).(log := w.log + [EngineStarted(rec.name, cfg)])
  }

  function StopEngine(w: World, name: string, fails: bool): World {
    if fails then w else SetDaemon(w, name, DaemonOf(w, name).(engine := None))
  }

  ghost function RemoveDns(w: World, name: string, s: Surroundings): World {
    w.(dns := RemoveResult(w.dns, name, s).0)
  }

  /** applyHostDNSFromStatus, on the store. */
  ghost function ApplyFromStatus(dns: Scutil.Store, rec: Record, st: Status, s: Surroundings): (Scutil.Store, bool)
    requires ValidStatus(st)
  {
    if rec.mode != Multibird || st.ip.Missing? then (dns, true)
    else
      match Derived(st)
      case Err(_) => (dns, false)
      case Ok(spec) => var r := ApplyResult(dns, rec.name, spec, s); (r.0, r.1.None?)
  }

  /** The program crashes when it derives from a status with an IPv4-mapped IPv6 network. */
  ghost predicate Crashes(rec: Record, st: Status)
    requires ValidStatus(st)
  {
    rec.mode == Multibird && !st.ip.Missing? && Derived(st) == Err(Crashed)
  }

  /** The host address parses: CIDR or bare. */
  predicate HasHostAddr(s: PeerAddr) {
    s.Cidr? || s.Bare?
  }

  // ---- commands ----

  /** Env.Load: read, migrate, and save the migration. */
  function Load(w: World, name: string, saveFails: bool): (World, Option<Record>) {
    if !ValidName(name) || name !in w.records then (w, None)
    else
      var rec := w.records[name];
      if rec.mode != Unset then (w, Some(rec))
      else if saveFails then (w, None)
      else (Save(w, Normalized(rec)), Some(Normalized(rec)))
  }

  /** Env.Add. */
  function Add(w: World, rec: Record, defaultMode: Mode, saveFails: bool): (World, bool) {
    if !ValidName(rec.name) || rec.name in w.records || saveFails then (w, false)
    else
      (Save(w, rec.(index := LowestIndex(w.records), mode := if rec.mode == Unset then defaultMode else rec.mode)), true)
  }

  datatype UpInput = UpInput(
    start: StartOutcome, dialFails: bool, readyFails: bool, login: LoginOutcome, hint: string, setFails: bool,
    saveFails: bool, engine: EngineOutcome, statusFails: bool, status: Status, discovered: Option<string>,
    ifaceSaveFails: bool, dns: Surroundings, strictConflict: bool, downFails: bool)

  /** The first half of Up: a daemon that is logged in and configured, and a record that says so. */
  function Prepare(w: World, rec: Record, x: UpInput): (World, Record, bool) {
    var (w1, started) := Start(w, rec.name, x.start);
    if !started || x.dialFails || x.readyFails then (w1, rec, false)
    else if rec.loggedIn then (w1, rec, true)
    else
      var w2 := Login(w1, rec, x.login);
      if !LoginPasses(x.login) then (w2, rec, false)
      else
        var (w3, updated) := SetConfig(w2, rec, x.hint, x.setFails);
        if !updated then (w3, rec, false)
        else
          var rec' := rec.(loggedIn := true);
          if x.saveFails then (w3, rec', false) else (Save(w3, rec'), rec', true)
  }

  /** Recording the interface the engine came up on. */
  function Discover(w: World, rec: Record, st: Status, found: Option<string>, saveFails: bool): (World, Record, bool) {
    if HasHostAddr(st.ip) && found.Some? && found.value != rec.iface then
      var rec' := rec.(iface := found.value);
      if saveFails then (w, rec', false) else (Save(w, rec'), rec', true)
    else (w, rec, true)
  }

  /** Env.Up on a loaded record. */
  ghost function Up(w: World, rec: Record, x: UpInput): (World, Record, bool)
    requires ValidStatus(x.status)
  {
    var (w1, rec1, ready) := Prepare(w, rec, x);
    if !ready then (w1, rec1, false)
    else
      var w2 := StartEngine(w1, rec1, x.engine);
      if x.engine != EngineUp || x.statusFails then (w2, rec1, false)
      else
        var (w3, rec3, recorded) := Discover(w2, rec1, x.status, x.discovered, x.ifaceSaveFails);
        if !recorded || Crashes(rec3, x.status) then (w3, rec3, false)
        else
          var w4 := w3.(dns := ApplyFromStatus(w3.dns, rec3, x.status, x.dns).0);
          if x.strictConflict then (StopEngine(w4, rec3.name, x.downFails), rec3, false) else (w4, rec3, true)
  }

  datatype Changes = Changes(mode: Option<Mode>, wgPort: Option<int>, bin: Option<string>)

  datatype SetInput = SetInput(
    start: StartOutcome, dialFails: bool, readyFails: bool, hint: string, setFails: bool, stopFails: bool,
    dns: Surroundings, saveFails: bool)

  function Changed(rec: Record, ch: Changes): Record {
    rec.(bin := if ch.bin.Some? then ch.bin.value else rec.bin,
         mode := if ch.mode.Some? then ch.mode.value else rec.mode,
         wgPort := if ch.wgPort.Some? then ch.wgPort.value else rec.wgPort)
  }

  /** Only a changed mode or port has to reach the daemon, and only after a login. */
  predicate MustPush(rec: Record, ch: Changes) {
    rec.loggedIn && (Changed(rec, ch).mode != rec.mode || Changed(rec, ch).wgPort != rec.wgPort)
  }

  /** Pushing changed settings, starting a daemon for it if none runs. */
  function Push(w: World, rec: Record, x: SetInput): (World, bool) {
    var wasRunning := DaemonOf(w, rec.name).running;
    var (w1, started) := Start(w, rec.name, x.start);
    if !started || x.dialFails || x.readyFails then (w1, false)
    else
      var (w2, updated) := SetConfig(w1, rec, x.hint, x.setFails);
      if !updated then (w2, false)
      else (if wasRunning then w2 else Stop(w2, rec.name, x.stopFails), true)
  }

  predicate Leaves(rec: Record, rec': Record) {
    rec.mode == Multibird && rec'.mode != Multibird
  }

  /** Env.Set on a loaded record. */
  ghost function SetCmd(w: World, rec: Record, ch: Changes, x: SetInput): (World, Record, bool) {
    var rec' := Changed(rec, ch);
    var (w1, pushed) := if MustPush(rec, ch) then Push(w, rec', x) else (w, true);
    if !pushed then (w1, rec', false)
    else
      var w2 := if Leaves(rec, rec') then RemoveDns(w1, rec'.name, x.dns) else w1;
      if x.saveFails then (w2, rec', false) else (Save(w2, rec'), rec', true)
  }

  datatype DownInput = DownInput(engineFails: bool, dns: Surroundings, stopFails: bool)

  /** Env.Down. */
  ghost function Down(w: World, rec: Record, x: DownInput): World {
    var w1 := if DaemonOf(w, rec.name).running then StopEngine(w, rec.name, x.engineFails) else w;
    var w2 := if rec.mode == Multibird then RemoveDns(w1, rec.name, x.dns) else w1;
    Stop(w2, rec.name, x.stopFails)
  }

  /** Store.Remove: the record goes, and with purge netbird's configuration too. */
  function RemoveRecord(w: World, name: string, purge: bool, fails: bool): World {
    if fails then w
    else
      var w1 := w.(records := w.records - {name}, log := w.log + [RecordRemoved(name)]);
      if purge then SetDaemon(w1, name, DaemonOf(w, name).(config := None)) else w1
  }

  /** Env.Remove. */
  ghost function Remove(w: World, rec: Record, purge: bool, x: DownInput, dns: Surroundings, fails: bool): World {
    RemoveRecord(RemoveDns(Down(w, rec, x), rec.name, dns), rec.name, purge, fails)
  }

  /** Env.Nuke. */
  ghost function Nuke(w: World, rec: Record, killFails: bool, dns: Surroundings): World {
    RemoveDns(Stop(w, rec.name, killFails), rec.name, dns)
  }

  /** Env.DNSSync; `reply` is the daemon's status, if it answers. */
  ghost function DnsSync(w: World, rec: Record, reply: Option<Status>, s: Surroundings): (World, bool)
    requires reply.Some? ==> ValidStatus(reply.value)
  {
    if rec.mode != Multibird || !DaemonOf(w, rec.name).running then
      (RemoveDns(w, rec.name, s), RemoveResult(w.dns, rec.name, s).1.None?)
    else match reply
      case None => (w, false)
      case Some(st) =>
        var (dns, ok) := ApplyFromStatus(w.dns, rec, st, s);
        (w.(dns := dns), ok)
  }

  datatype StatusInput = StatusInput(reply: Option<Status>, dns: Surroundings, discovered: Option<string>, saveFails: bool)

  /** One instance's turn in Env.Status. */
  ghost function StatusCmd(w: World, rec: Record, x: StatusInput): (World, Record)
    requires x.reply.Some? ==> ValidStatus(x.reply.value)
  {
    if !DaemonOf(w, rec.name).running || x.reply.None? || Crashes(rec, x.reply.value) then (w, rec)
    else
      var st := x.reply.value;
      var w1 := w.(dns := ApplyFromStatus(w.dns, rec, st, x.dns).0);
      var r := Discover(w1, rec, st, x.discovered, x.saveFails);
      (r.0, r.1)
  }

  /** The loop that migrates records read before it, up to the first whose migration cannot be
      saved; `fails` are the names for which it cannot. */
  function MigrateAll(w: World, list: seq<Record>, fails: set<string>): (World, Option<seq<Record>>)
    decreases |list|
  {
    if list == [] then (w, Some([]))
    else if list[0].mode == Unset && list[0].name in fails then (w, None)
    else
      var w1 := if list[0].mode == Unset then Save(w, Normalized(list[0])) else w;
      var (w2, rest) := MigrateAll(w1, list[1..], fails);
      (w2, if rest.Some? then Some([Normalized(list[0])] + rest.value) else None)
  }

  /** Env.List: all records are read, in order of name, before any is migrated. */
  ghost function ListAll(w: World, fails: set<string>): (World, Option<seq<Record>>) {
    MigrateAll(w, InOrder(w.records), fails)
  }

  /** What each removal of a cleanup meets; where nothing is said, nothing fails. */
  type Weather = map<string, Surroundings>

  function Over(weather: Weather, owner: string): Surroundings {
    if owner in weather then weather[owner] else Surroundings(true, false, false, false, [])
  }

  /** The loop of Env.DNSCleanupStrays over the owners found: it stops at the first failed removal. */
  ghost function CleanStrays(dns: Scutil.Store, owners: seq<string>, known: set<string>, weather: Weather)
    : (Scutil.Store, seq<string>, bool)
    decreases |owners|
  {
    if owners == [] then (dns, [], true)
    else if owners[0] in known then CleanStrays(dns, owners[1..], known, weather)
    else
      var (dns1, err) := RemoveResult(dns, owners[0], Over(weather, owners[0]));
      if err.Some? then (dns1, [], false)
      else
        var (dns2, rest, ok) := CleanStrays(dns1, owners[1..], known, weather);
        (dns2, [owners[0]] + rest, ok)
  }

  function NamesIn(list: seq<Record>): set<string> {
    set i | 0 <= i < |list| :: list[i].name
  }

  /** Env.DNSCleanupStrays: nothing is removed when the owners cannot be listed or the records
      cannot be loaded. */
  ghost function Cleanup(w: World, fails: set<string>, listExec: bool, weather: Weather): (World, seq<string>, bool) {
    if listExec || ListFails(w.dns) then (w, [], false)
    else
      var (w1, list) := ListAll(w, fails);
      if list.None? then (w1, [], false)
      else
        var (dns, cleaned, ok) := CleanStrays(w1.dns, SortedOf(Owners(w.dns)), NamesIn(list.value), weather);
        (w1.(dns := dns), cleaned, ok)
  }

  // ---- what a status listing shows ----

  datatype ViewState = Stopped | DaemonOnly | Answered(ip: PeerAddr)

  /** One instance's line: its state, and its interface and port as recorded or just discovered. */
  datatype StatusView = StatusView(name: string, mgmt: string, state: ViewState, iface: string, wgPort: int)

  /** The line shown; nothing when the program crashes on the status. */
  ghost function StatusLine(w: World, rec: Record, x: StatusInput): Option<StatusView>
    requires x.reply.Some? ==> ValidStatus(x.reply.value)
  {
    if !DaemonOf(w, rec.name).running then Some(StatusView(rec.name, rec.mgmt, Stopped, rec.iface, WGPort(rec)))
    else if x.reply.None? then Some(StatusView(rec.name, rec.mgmt, DaemonOnly, rec.iface, WGPort(rec)))
    else if Crashes(rec, x.reply.value) then None
    else
      var found := HasHostAddr(x.reply.value.ip) && x.discovered.Some?;
      Some(StatusView(rec.name, rec.mgmt, Answered(x.reply.value.ip), if found then x.discovered.value else rec.iface, WGPort(rec)))
  }
}

/** The watcher that keeps one instance's resolvers in step with its daemon: a loop that
    reconnects, and inside it one connection with its debounce timer and its poll
    (internal/ops/dns.go:102-206). A run is driven by what the watcher meets, turn by turn; it
    can be cut anywhere, which is how a cancellation ends it. */
module Watch {
  import opened Text
  import opened Names
  import opened HostDns
  import opened DynamicStore
  import opened Instances
  import opened Lifecycle
  import Env

  /** Milliseconds of quiet before a burst of events is acted on. */
  const DEBOUNCE := 2000

  datatype Category = Network | Dns | Other

  /** What one sync meets: whether the daemon lives, what it answers, and how the host behaves. */
  datatype Look = Look(running: bool, reply: Option<Status>, dns: Surroundings)

  /** What the connection's loop is woken by. `Due` is the clock reaching `at`. */
  datatype Wake =
    | Event(cat: Category, at: int)
    | Due(at: int, look: Look)
    | Poll(look: Look)
    | Broken

  /** One iteration of the outer loop. */
  datatype Turn = Turn(running: bool, dns: Surroundings, dials: bool, first: Look, subscribes: bool, wakes: seq<Wake>)

  datatype Cause = OnConnect | Debounced(at: int) | Polled

  datatype Action =
    | FoundDown
    | FoundUp
    | RemovalTried(dns: Surroundings)
    | DialTried(ok: bool)
    | Synced(cause: Cause, look: Look)
    | Subscribed(ok: bool)
    | Consumed(cat: Category, at: int)
    | StreamBroke

  datatype View = View(w: World, log: seq<Action>)

  function Note(v: View, a: Action): View {
    v.(log := v.log + [a])
  }

  /** The daemon's process may have come or gone since the last look at it. */
  function Meanwhile(w: World, name: string, running: bool): World {
    var d := DaemonOf(w, name);
    SetDaemon(w, name, d.(running := running, engine := if running then d.engine else None))
  }

  predicate ValidLook(look: Look) {
    look.reply.Some? ==> ValidStatus(look.reply.value)
  }

  predicate ValidWake(wake: Wake) {
    (wake.Due? || wake.Poll?) ==> ValidLook(wake.look)
  }

  predicate ValidTurn(t: Turn) {
    ValidLook(t.first) && forall i :: 0 <= i < |t.wakes| ==> ValidWake(t.wakes[i])
  }

  ghost function Sync(v: View, rec: Record, look: Look, cause: Cause): View
    requires ValidLook(look)
  {
    View(DnsSync(Meanwhile(v.w, rec.name, look.running), rec, look.reply, look.dns).0, v.log + [Synced(cause, look)])
  }

  /** A connection: its timer is armed with a deadline or not, and the stream may have broken. */
  datatype Connection = Connection(v: View, debounce: Option<int>, broken: bool)

  ghost function Woken(c: Connection, rec: Record, wake: Wake): Connection
    requires ValidWake(wake)
  {
    if c.broken then c
    else match wake
      case Event(cat, at) =>
        c.(v := Note(c.v, Consumed(cat, at)), debounce := if cat == Other then c.debounce else Some(at + DEBOUNCE))
      case Due(at, look) =>
        if c.debounce.None? || at < c.debounce.value then c
        else Connection(Sync(c.v, rec, look, Debounced(at)), None, false)
      case Poll(look) => c.(v := Sync(c.v, rec, look, Polled))
      case Broken => Connection(Note(c.v, StreamBroke), None, true)
  }

  ghost function WokenAll(c: Connection, rec: Record, wakes: seq<Wake>): Connection
    requires forall i :: 0 <= i < |wakes| ==> ValidWake(wakes[i])
    decreases |wakes|
  {
    if wakes == [] then c else WokenAll(Woken(c, rec, wakes[0]), rec, wakes[1..])
  }

  /** The connection as it opens: an initial sync, and only then the subscription. */
  ghost function Opened(v: View, rec: Record, t: Turn): Connection
    requires ValidTurn(t)
  {
    var v1 := Note(v, DialTried(t.dials));
    if !t.dials then Connection(v1, None, true)
    else
      Connection(Note(Sync(v1, rec, t.first, OnConnect), Subscribed(t.subscribes)), None, !t.subscribes)
  }

  ghost function Connected(v: View, rec: Record, t: Turn): Connection
    requires ValidTurn(t)
  {
    WokenAll(Opened(v, rec, t), rec, t.wakes)
  }

  /** The watcher between turns; `over` once a run was cut inside a connection. */
  datatype Watcher = Watcher(v: View, downCleaned: bool, debounce: Option<int>, over: bool)

  ghost function Turned(x: Watcher, rec: Record, t: Turn): Watcher
    requires ValidTurn(t)
  {
    var w := Meanwhile(x.v.w, rec.name, t.running);
    if x.over then x
    else if !t.running then
      if x.downCleaned then x.(v := View(w, x.v.log + [FoundDown]))
      else x.(v := View(RemoveDns(w, rec.name, t.dns), x.v.log + [FoundDown] + [RemovalTried(t.dns)]), downCleaned := true)
    else
      var c := Connected(View(w, x.v.log + [FoundUp]), rec, t);
      Watcher(c.v, false, c.debounce, !c.broken)
  }

  ghost function TurnedAll(x: Watcher, rec: Record, ts: seq<Turn>): Watcher
    requires forall i :: 0 <= i < |ts| ==> ValidTurn(ts[i])
    decreases |ts|
  {
    if ts == [] then x else TurnedAll(Turned(x, rec, ts[0]), rec, ts[1..])
  }

  ghost function Watched(w: World, rec: Record, ts: seq<Turn>): Watcher
    requires forall i :: 0 <= i < |ts| ==> ValidTurn(ts[i])
  {
    TurnedAll(Watcher(View(w, []), false, None, false), rec, ts)
  }

  // ---- the loops ----

  class Loop {
    const env: Env.Env
    const inst: Instance
    ghost var log: seq<Action>

    constructor (env: Env.Env, inst: Instance)
      ensures this.env == env && this.inst == inst && log == []
    {
      this.env, this.inst, log := env, inst, [];
    }

    ghost predicate Valid()
      reads env.host, inst
    {
      env.Valid() && ValidName(inst.name)
    }

    ghost function TheView(): View
      reads this, env, env.store, env.host
    {
      View(env.World(), log)
    }

    method SeeDaemon(running: bool)
      modifies env
      ensures TheView() == old(TheView()).(w := Meanwhile(old(env.World()), inst.name, running))
    {
      var d := env.Daemon(inst.name);
      env.daemons := env.daemons[inst.name := d.(running := running, engine := if running then d.engine else None)];
    }

    method SyncOnce(look: Look, cause: Cause)
      requires Valid() && ValidLook(look)
      modifies this, env, env.host
      ensures Valid()
      ensures TheView() == Sync(old(TheView()), inst.Rec(), look, cause)
    {
      hide ValidName, DnsSync, ValidStatus;
      SeeDaemon(look.running);
      var ok := env.DNSSync(inst, look.reply, look.dns);
      log := log + [Synced(cause, look)];
    }

    /** One connection; `broken` tells a lost one from a run cut inside it. */
    method WatchConnected(t: Turn) returns (debounce: Option<int>, broken: bool)
      requires Valid() && ValidTurn(t)
      modifies this, env, env.host
      ensures Valid()
      ensures Connection(TheView(), debounce, broken) == Connected(old(TheView()), inst.Rec(), t)
    {
      hide ValidName, Sync, ValidLook;
      log := log + [DialTried(t.dials)];
      if !t.dials {
        BrokenStays(Opened(old(TheView()), inst.Rec(), t), inst.Rec(), t.wakes);
        return None, true;
      }
      SyncOnce(t.first, OnConnect);
      log := log + [Subscribed(t.subscribes)];
      ghost var start := Opened(old(TheView()), inst.Rec(), t);
      if !t.subscribes {
        BrokenStays(start, inst.Rec(), t.wakes);
        return None, true;
      }
      debounce := None;
      assert t.wakes[0..] == t.wakes;
      for i := 0 to |t.wakes|
        invariant Valid() && inst.Rec() == old(inst.Rec())
        invariant WokenAll(Connection(TheView(), debounce, false), inst.Rec(), t.wakes[i..]) == Connected(old(TheView()), inst.Rec(), t)
      {
        var wake := t.wakes[i];
        WokenTurn(Connection(TheView(), debounce, false), inst.Rec(), t.wakes, i);
        match wake {
          case Event(cat, at) =>
            log := log + [Consumed(cat, at)];
            if cat == Network || cat == Dns {
              debounce := Some(at + DEBOUNCE);
            }
          case Due(at, look) =>
            if debounce.Some? && debounce.value <= at {
              debounce := None;
              SyncOnce(look, Debounced(at));
            }
          case Poll(look) =>
            SyncOnce(look, Polled);
          case Broken =>
            log := log + [StreamBroke];
            BrokenStays(Connection(TheView(), None, true), inst.Rec(), t.wakes[i + 1..]);
            return None, true;
        }
      }
      return debounce, false;
    }

    /** The loop around connections. */
    method WatchOne(turns: seq<Turn>) returns (ghost end: Watcher)
      requires Valid() && forall i :: 0 <= i < |turns| ==> ValidTurn(turns[i])
      requires log == []
      modifies this, env, env.host
      ensures Valid()
      ensures end == Watched(old(env.World()), inst.Rec(), turns) && TheView() == end.v
    {
      hide ValidName, RemoveResult, Connected, ValidTurn;
      var downCleaned := false;
      ghost var debounce: Option<int> := None;
      assert turns[0..] == turns;
      for i := 0 to |turns|
        invariant Valid() && inst.Rec() == old(inst.Rec())
        invariant TurnedAll(Watcher(TheView(), downCleaned, debounce, false), inst.Rec(), turns[i..]) == Watched(old(env.World()), inst.Rec(), turns)
      {
        var t := turns[i];
        TurnedTurn(Watcher(TheView(), downCleaned, debounce, false), inst.Rec(), turns, i);
        SeeDaemon(t.running);
        if !t.running {
          log := log + [FoundDown];
          if !downCleaned {
            NamedSomehow(inst.name);
            var err := env.RemoveHostDNSQuietly(inst.name, t.dns);
            log := log + [RemovalTried(t.dns)];
            downCleaned := true;
          }
          continue;
        }
        downCleaned := false;
        log := log + [FoundUp];
        var broken;
        debounce, broken := WatchConnected(t);
        if !broken {
          end := Watcher(TheView(), false, debounce, true);
          OverStays(end, inst.Rec(), turns[i + 1..]);
          return;
        }
      }
      end := Watcher(TheView(), downCleaned, debounce, false);
    }
  }

  // ---- one step of a fold ----

  lemma NamedSomehow(name: string)
    requires ValidName(name)
    ensures name != ""
  {
  }

  lemma WokenTurn(c: Connection, rec: Record, wakes: seq<Wake>, i: nat)
    requires i < |wakes| && forall j :: 0 <= j < |wakes| ==> ValidWake(wakes[j])
    ensures WokenAll(c, rec, wakes[i..]) == WokenAll(Woken(c, rec, wakes[i]), rec, wakes[i + 1..])
  {
    hide Woken;
    assert wakes[i..][0] == wakes[i] && wakes[i..][1..] == wakes[i + 1..];
  }

  lemma {:induction false} BrokenStays(c: Connection, rec: Record, wakes: seq<Wake>)
    requires c.broken && forall j :: 0 <= j < |wakes| ==> ValidWake(wakes[j])
    ensures WokenAll(c, rec, wakes) == c
    decreases |wakes|
  {
    if wakes != [] { BrokenStays(c, rec, wakes[1..]); }
  }

  lemma TurnedTurn(x: Watcher, rec: Record, ts: seq<Turn>, i: nat)
    requires i < |ts| && forall j :: 0 <= j < |ts| ==> ValidTurn(ts[j])
    ensures TurnedAll(x, rec, ts[i..]) == TurnedAll(Turned(x, rec, ts[i]), rec, ts[i + 1..])
  {
    hide Turned;
    assert ts[i..][0] == ts[i] && ts[i..][1..] == ts[i + 1..];
  }

  lemma {:induction false} OverStays(x: Watcher, rec: Record, ts: seq<Turn>)
    requires x.over && forall j :: 0 <= j < |ts| ==> ValidTurn(ts[j])
    ensures TurnedAll(x, rec, ts) == x
    decreases |ts|
  {
    if ts != [] { OverStays(x, rec, ts[1..]); }
  }
}

/** What the watcher does at each thing it meets, and that its log tells all it did to the store
    (internal/ops/dns.go:128-206). */
module WatchEffects {
  import opened Text
  import opened HostDns
  import Scutil
  import opened DynamicStore
  import opened Registrations
  import opened Instances
  import opened Lifecycle
  import opened Effects
  import opened Watch

  // ---- one look, one wake-up, one turn ----

  /** The daemon was found running or not; nothing else changed meanwhile. */
  lemma MeanwhileExact(w: World, name: string, running: bool)
    ensures var w' := Meanwhile(w, name, running);
            && w' == w.(daemons := w'.daemons) && w'.daemons - {name} == w.daemons - {name}
            && DaemonOf(w', name).running == running && DaemonOf(w', name).config == DaemonOf(w, name).config
  {
  }

  /** What one sync at a look leaves. */
  ghost function SyncedWorld(w: World, rec: Record, look: Look): World
    requires look.reply.Some? ==> ValidStatus(look.reply.value)
  {
    DnsSync(Meanwhile(w, rec.name, look.running), rec, look.reply, look.dns).0
  }

  /** A connection that can be dialled syncs by its first look before it subscribes; one that
      cannot does nothing. */
  lemma OpenedExact(v: View, rec: Record, t: Turn)
    requires ValidTurn(t)
    ensures Opened(v, rec, t) ==
            if !t.dials then Connection(View(v.w, v.log + [DialTried(false)]), None, true)
            else Connection(View(SyncedWorld(v.w, rec, t.first), v.log + [DialTried(true), Synced(OnConnect, t.first), Subscribed(t.subscribes)]),
                            None, !t.subscribes)
  {
    hide DnsSync, Meanwhile;
    assert v.log + [DialTried(true)] + [Synced(OnConnect, t.first)] + [Subscribed(t.subscribes)] ==
           v.log + [DialTried(true), Synced(OnConnect, t.first), Subscribed(t.subscribes)];
  }

  /** While the stream holds: a network or DNS event arms the timer for two seconds from then, any
      other event is only consumed; at or after its deadline an armed timer fires and leads to one
      sync; a poll leads to one sync and leaves the timer; nothing else touches the world. */
  lemma WokenExact(c: Connection, rec: Record, wake: Wake)
    requires ValidWake(wake) && !c.broken
    ensures Woken(c, rec, wake) ==
            match wake
            case Event(cat, at) =>
              Connection(View(c.v.w, c.v.log + [Consumed(cat, at)]),
                         if cat == Network || cat == Dns then Some(at + 2000) else c.debounce, false)
            case Due(at, look) =>
              if c.debounce.Some? && at >= c.debounce.value
              then Connection(View(SyncedWorld(c.v.w, rec, look), c.v.log + [Synced(Debounced(at), look)]), None, false)
              else c
            case Poll(look) => Connection(View(SyncedWorld(c.v.w, rec, look), c.v.log + [Synced(Polled, look)]), c.debounce, false)
            case Broken => Connection(View(c.v.w, c.v.log + [StreamBroke]), None, true)
  {
    hide DnsSync, Meanwhile;
  }

  /** The wake-ups of a connection take effect one after another, until the stream breaks. */
  lemma {:induction false} WokenAllExact(c: Connection, rec: Record, wakes: seq<Wake>, wake: Wake)
    requires ValidWake(wake) && forall i :: 0 <= i < |wakes| ==> ValidWake(wakes[i])
    ensures WokenAll(c, rec, []) == c
    ensures WokenAll(c, rec, wakes + [wake]) ==
            if WokenAll(c, rec, wakes).broken then WokenAll(c, rec, wakes) else Woken(WokenAll(c, rec, wakes), rec, wake)
    decreases |wakes|
  {
    if wakes == [] {
      assert [] + [wake] == [wake] && [wake][1..] == [];
      hide DnsSync, Meanwhile;
    } else {
      assert (wakes + [wake])[1..] == wakes[1..] + [wake];
      hide Woken;
      WokenAllExact(Woken(c, rec, wakes[0]), rec, wakes[1..], wake);
    }
  }

  /** A turn without a daemon removes the keys, once until a daemon was seen; a turn with one opens
      a connection and lets its wake-ups take effect. */
  lemma TurnedExact(x: Watcher, rec: Record, t: Turn)
    requires ValidTurn(t) && !x.over
    ensures var w := Meanwhile(x.v.w, rec.name, t.running);
            Turned(x, rec, t) ==
            if !t.running && x.downCleaned then Watcher(View(w, x.v.log + [FoundDown]), true, x.debounce, false)
            else if !t.running then
              Watcher(View(w.(dns := RemoveResult(x.v.w.dns, rec.name, t.dns).0), x.v.log + [FoundDown, RemovalTried(t.dns)]), true, x.debounce, false)
            else
              var c := WokenAll(Opened(View(w, x.v.log + [FoundUp]), rec, t), rec, t.wakes);
              Watcher(c.v, false, c.debounce, !c.broken)
  {
    hide WokenAll, Opened, RemoveResult;
    assert x.v.log + [FoundDown] + [RemovalTried(t.dns)] == x.v.log + [FoundDown, RemovalTried(t.dns)];
  }

  /** Turns take effect one after another, until a run is cut inside a connection. */
  lemma {:induction false} TurnedAllExact(x: Watcher, rec: Record, ts: seq<Turn>, t: Turn)
    requires ValidTurn(t) && forall i :: 0 <= i < |ts| ==> ValidTurn(ts[i])
    ensures TurnedAll(x, rec, []) == x
    ensures TurnedAll(x, rec, ts + [t]) == Turned(TurnedAll(x, rec, ts), rec, t)
    decreases |ts|
  {
    hide Turned;
    if ts == [] {
      assert [] + [t] == [t] && [t][1..] == [];
    } else {
      assert (ts + [t])[1..] == ts[1..] + [t];
      TurnedAllExact(Turned(x, rec, ts[0]), rec, ts[1..], t);
    }
  }

  // ---- the log tells all ----

  /** What an action does to the store: a sync registers what the daemon's answer derives, or
      removes the keys when it finds no daemon or another mode; a removal removes them; nothing
      else touches it. */
  ghost function Acted(dns: Scutil.Store, rec: Record, a: Action): Scutil.Store {
    if a.RemovalTried? then RemoveResult(dns, rec.name, a.dns).0
    else if !a.Synced? then dns
    else if rec.mode != Multibird || !a.look.running then RemoveResult(dns, rec.name, a.look.dns).0
    else if a.look.reply.None? || !ValidStatus(a.look.reply.value) || a.look.reply.value.ip.Missing? || Derived(a.look.reply.value).Err? then dns
    else ApplyResult(dns, rec.name, Derived(a.look.reply.value).value, a.look.dns).0
  }

  ghost function Replay(dns: Scutil.Store, rec: Record, log: seq<Action>): Scutil.Store {
    if log == [] then dns else Acted(Replay(dns, rec, log[..|log| - 1]), rec, log[|log| - 1])
  }

  lemma ReplaySnoc(dns: Scutil.Store, rec: Record, log: seq<Action>, a: Action)
    ensures Replay(dns, rec, log + [a]) == Acted(Replay(dns, rec, log), rec, a)
  {
    hide Acted;
    assert (log + [a])[..|log|] == log;
  }

  ghost predicate Told(dns: Scutil.Store, rec: Record, v: View) {
    v.w.dns == Replay(dns, rec, v.log)
  }

  lemma NoteTold(dns: Scutil.Store, rec: Record, v: View, a: Action)
    requires Told(dns, rec, v) && !a.Synced? && !a.RemovalTried?
    ensures Told(dns, rec, View(v.w, v.log + [a]))
  {
    hide Replay;
    ReplaySnoc(dns, rec, v.log, a);
  }

  lemma SyncTold(dns: Scutil.Store, rec: Record, v: View, look: Look, cause: Cause)
    requires Told(dns, rec, v) && ValidLook(look)
    ensures Told(dns, rec, Sync(v, rec, look, cause))
  {
    hide Replay, Derived, ApplyResult, RemoveResult, DnsSync, Meanwhile;
    ReplaySnoc(dns, rec, v.log, Synced(cause, look));
    MeanwhileExact(v.w, rec.name, look.running);
    SyncOutcome(Meanwhile(v.w, rec.name, look.running), rec, look.reply, look.dns);
  }

  lemma WokenTold(dns: Scutil.Store, c: Connection, rec: Record, wake: Wake)
    requires Told(dns, rec, c.v) && ValidWake(wake)
    ensures Told(dns, rec, Woken(c, rec, wake).v)
  {
    hide Told, Sync, ValidLook;
    if !c.broken {
      match wake
      case Event(cat, at) => NoteTold(dns, rec, c.v, Consumed(cat, at));
      case Due(at, look) => SyncTold(dns, rec, c.v, look, Debounced(at));
      case Poll(look) => SyncTold(dns, rec, c.v, look, Polled);
      case Broken => NoteTold(dns, rec, c.v, StreamBroke);
    }
  }

  lemma {:induction false} WokenAllTold(dns: Scutil.Store, c: Connection, rec: Record, wakes: seq<Wake>)
    requires Told(dns, rec, c.v) && forall i :: 0 <= i < |wakes| ==> ValidWake(wakes[i])
    ensures Told(dns, rec, WokenAll(c, rec, wakes).v)
    decreases |wakes|
  {
    hide Told, Woken;
    if wakes != [] {
      WokenTold(dns, c, rec, wakes[0]);
      WokenAllTold(dns, Woken(c, rec, wakes[0]), rec, wakes[1..]);
    }
  }

  lemma OpenedTold(dns: Scutil.Store, v: View, rec: Record, t: Turn)
    requires Told(dns, rec, v) && ValidTurn(t)
    ensures Told(dns, rec, Opened(v, rec, t).v)
  {
    hide Told, Sync, ValidLook;
    NoteTold(dns, rec, v, DialTried(t.dials));
    if t.dials {
      var v1 := Note(v, DialTried(t.dials));
      SyncTold(dns, rec, v1, t.first, OnConnect);
      NoteTold(dns, rec, Sync(v1, rec, t.first, OnConnect), Subscribed(t.subscribes));
    }
  }

  lemma SameStoreTold(dns: Scutil.Store, rec: Record, v: View, w: World)
    requires Told(dns, rec, v) && w.dns == v.w.dns
    ensures Told(dns, rec, View(w, v.log))
  {
  }

  lemma RemovalTold(dns: Scutil.Store, rec: Record, v: View, s: Surroundings)
    requires Told(dns, rec, v)
    ensures Told(dns, rec, View(RemoveDns(v.w, rec.name, s), v.log + [RemovalTried(s)]))
  {
    hide Replay, RemoveResult;
    ReplaySnoc(dns, rec, v.log, RemovalTried(s));
  }

  lemma TurnedTold(dns: Scutil.Store, x: Watcher, rec: Record, t: Turn)
    requires Told(dns, rec, x.v) && ValidTurn(t)
    ensures Told(dns, rec, Turned(x, rec, t).v)
  {
    hide Told, Meanwhile, WokenAll, Opened, RemoveDns, ValidLook, ValidWake;
    var w := Meanwhile(x.v.w, rec.name, t.running);
    MeanwhileExact(x.v.w, rec.name, t.running);
    SameStoreTold(dns, rec, x.v, w);
    if !t.running {
      NoteTold(dns, rec, View(w, x.v.log), FoundDown);
      RemovalTold(dns, rec, View(w, x.v.log + [FoundDown]), t.dns);
    } else {
      NoteTold(dns, rec, View(w, x.v.log), FoundUp);
      OpenedTold(dns, View(w, x.v.log + [FoundUp]), rec, t);
      WokenAllTold(dns, Opened(View(w, x.v.log + [FoundUp]), rec, t), rec, t.wakes);
    }
  }

  lemma {:induction false} TurnedAllTold(dns: Scutil.Store, x: Watcher, rec: Record, ts: seq<Turn>)
    requires Told(dns, rec, x.v) && forall i :: 0 <= i < |ts| ==> ValidTurn(ts[i])
    ensures Told(dns, rec, TurnedAll(x, rec, ts).v)
    decreases |ts|
  {
    hide Told, Turned, ValidTurn;
    if ts != [] {
      TurnedTold(dns, x, rec, ts[0]);
      TurnedAllTold(dns, Turned(x, rec, ts[0]), rec, ts[1..]);
    }
  }

  /** In every run of the watcher the store ends as its logged syncs and removals, in order, leave
      it: each logged sync happened, and nothing happened that is not logged. */
  lemma LogTellsAll(w: World, rec: Record, ts: seq<Turn>)
    requires forall i :: 0 <= i < |ts| ==> ValidTurn(ts[i])
    ensures Watched(w, rec, ts).v.w.dns == Replay(w.dns, rec, Watched(w, rec, ts).v.log)
  {
    hide TurnedAll, ValidTurn, Acted;
    TurnedAllTold(w.dns, Watcher(View(w, []), false, None, false), rec, ts);
  }

  /** A logged sync that lands leaves the instance's keys as the derived registration does, or,
      finding no daemon, none of them. */
  lemma SyncedMeans(dns: Scutil.Store, rec: Record, cause: Cause, look: Look)
    requires look.reply.Some? ==> ValidStatus(look.reply.value)
    ensures var after := Acted(dns, rec, Synced(cause, look));
            && (rec.mode == Multibird && look.running && look.reply.Some? && !look.reply.value.ip.Missing? && Derived(look.reply.value).Ok? &&
                Lands(ApplyResult(dns, rec.name, Derived(look.reply.value).value, look.dns).1) ==>
                  Slice(after, rec.name) == LeavesMap(rec.name, Derived(look.reply.value).value))
            && ((rec.mode != Multibird || !look.running) && RemoveResult(dns, rec.name, look.dns).1.None? && Free(rec.name, ' ') ==>
                  Slice(after, rec.name) == map[])
  {
    hide Derived, ApplyResult, RemoveResult, Slice, LeavesMap, Free, Put;
    if look.reply.Some? && Derived(look.reply.value).Ok? { ApplyLeaves(dns, rec.name, Derived(look.reply.value).value, look.dns); }
    RemoveMeaning(dns, rec.name, look.dns);
  }
}

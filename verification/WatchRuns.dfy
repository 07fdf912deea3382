/** What every run of the watcher keeps, wherever it is cut (internal/ops/dns.go:102-206). */
module WatchRuns {
  import opened Text
  import opened Names
  import opened HostDns
  import opened DynamicStore
  import opened Instances
  import opened Lifecycle
  import opened Runs
  import opened Watch

  // ---- the timer ----

  predicate Matters(a: Action) {
    a.Consumed? && a.cat != Other
  }

  predicate EndsWait(a: Action) {
    a.StreamBroke? || (a.Synced? && a.cause.Debounced?)
  }

  /** The event at `i` is the last one that matters, and nothing has come of it yet. */
  predicate Waiting(log: seq<Action>, i: int) {
    0 <= i < |log| && Matters(log[i]) && forall j :: i < j < |log| ==> !Matters(log[j]) && !EndsWait(log[j])
  }

  /** The timer is armed exactly when an event waits, for two seconds after the last one. */
  predicate TimerExact(log: seq<Action>, debounce: Option<int>) {
    if debounce.None? then forall i :: 0 <= i < |log| ==> !Waiting(log, i)
    else exists i :: 0 <= i < |log| && Waiting(log, i) && debounce.value == log[i].at + DEBOUNCE
  }

  /** A debounced sync answers an event after two seconds without another. */
  predicate Quiet(log: seq<Action>) {
    forall i :: 0 <= i < |log| && log[i].Synced? && log[i].cause.Debounced? ==>
      exists j :: 0 <= j < i && Waiting(log[..i], j) && log[j].at + DEBOUNCE <= log[i].cause.at
  }

  /** An event that matters, and since then neither a sync nor the end of the connection. */
  predicate Unanswered(log: seq<Action>) {
    exists i :: 0 <= i < |log| && Matters(log[i]) && forall j :: i < j < |log| ==> !log[j].Synced? && !log[j].StreamBroke?
  }

  lemma {:induction false} UnansweredWaits(log: seq<Action>)
    requires Unanswered(log)
    ensures exists i :: Waiting(log, i)
    decreases |log|
  {
    var n := |log| - 1;
    if Matters(log[n]) {
      assert Waiting(log, n);
    } else {
      assert Unanswered(log[..n]);
      UnansweredWaits(log[..n]);
      var i :| Waiting(log[..n], i);
      assert Waiting(log, i);
    }
  }

  function TimerAfter(debounce: Option<int>, a: Action): Option<int> {
    if Matters(a) then Some(a.at + DEBOUNCE) else if EndsWait(a) then None else debounce
  }

  lemma TimerSnoc(log: seq<Action>, debounce: Option<int>, a: Action)
    requires TimerExact(log, debounce)
    ensures TimerExact(log + [a], TimerAfter(debounce, a))
  {
    var all := log + [a];
    forall i | 0 <= i < |log| ensures Waiting(all, i) <==> Waiting(log, i) && !Matters(a) && !EndsWait(a) {
      assert all[|log|] == a;
      if Waiting(all, i) { assert forall j :: i < j < |log| ==> log[j] == all[j]; }
    }
    assert Waiting(all, |log|) <==> Matters(a);
    if debounce.Some? && !Matters(a) && !EndsWait(a) {
      var i :| 0 <= i < |log| && Waiting(log, i) && debounce.value == log[i].at + DEBOUNCE;
      assert Waiting(all, i);
    }
  }

  lemma QuietSnoc(log: seq<Action>, debounce: Option<int>, a: Action)
    requires Quiet(log) && TimerExact(log, debounce)
    requires a.Synced? && a.cause.Debounced? ==> debounce.Some? && debounce.value <= a.cause.at
    ensures Quiet(log + [a])
  {
    var all := log + [a];
    forall i | 0 <= i < |all| && all[i].Synced? && all[i].cause.Debounced?
      ensures exists j :: 0 <= j < i && Waiting(all[..i], j) && all[j].at + DEBOUNCE <= all[i].cause.at
    {
      assert all[..i] == if i < |log| then log[..i] else log;
      var j :| 0 <= j < i && Waiting(all[..i], j) && all[j].at + DEBOUNCE <= all[i].cause.at;
    }
  }

  // ---- dialling ----

  predicate FirstSync(a: Action) {
    a.Synced? && a.cause == OnConnect
  }

  predicate SyncsFirstAt(log: seq<Action>, i: int)
    requires 0 <= i < |log|
  {
    && (log[i] == DialTried(true) ==> i + 1 < |log| && FirstSync(log[i + 1]))
    && (log[i].Subscribed? ==> i >= 2 && FirstSync(log[i - 1]) && log[i - 2] == DialTried(true))
  }

  /** A successful dial is followed by a sync, and a subscription comes right after such a sync. */
  predicate SyncsFirst(log: seq<Action>) {
    forall i :: 0 <= i < |log| ==> SyncsFirstAt(log, i)
  }

  lemma SyncsFirstJoin(a: seq<Action>, b: seq<Action>)
    requires SyncsFirst(a) && SyncsFirst(b)
    ensures SyncsFirst(a + b)
  {
    var all := a + b;
    forall i | 0 <= i < |all| ensures SyncsFirstAt(all, i) {
      if i < |a| {
        assert SyncsFirstAt(a, i) && all[i] == a[i];
        assert i + 1 < |a| ==> all[i + 1] == a[i + 1];
      } else {
        assert SyncsFirstAt(b, i - |a|) && all[i] == b[i - |a|];
      }
    }
  }

  // ---- removals ----

  /** The last look at the daemon found it down. */
  predicate DownLast(log: seq<Action>) {
    exists i :: 0 <= i < |log| && log[i] == FoundDown && forall j :: i < j < |log| ==> log[j] != FoundUp
  }

  predicate RemovesOnceAt(log: seq<Action>, i: int)
    requires 0 <= i < |log|
  {
    && (log[i].RemovalTried? ==> i >= 1 && log[i - 1] == FoundDown && !DownLast(log[..i - 1]))
    && (log[i] == FoundDown && !DownLast(log[..i]) ==> i + 1 < |log| && log[i + 1].RemovalTried?)
  }

  /** A removal is tried right after the daemon is first found down, and at no other time. */
  predicate RemovesOnce(log: seq<Action>) {
    forall i :: 0 <= i < |log| ==> RemovesOnceAt(log, i)
  }

  lemma DownLastSnoc(log: seq<Action>, a: Action)
    ensures DownLast(log + [a]) <==> a == FoundDown || (DownLast(log) && a != FoundUp)
  {
    var all := log + [a];
    assert all[|log|] == a;
    if DownLast(all) && a != FoundDown {
      var i :| 0 <= i < |all| && all[i] == FoundDown && forall j :: i < j < |all| ==> all[j] != FoundUp;
      assert log[i] == FoundDown && forall j :: i < j < |log| ==> log[j] == all[j];
    }
    if DownLast(log) && a != FoundUp {
      var i :| 0 <= i < |log| && log[i] == FoundDown && forall j :: i < j < |log| ==> log[j] != FoundUp;
      assert all[i] == FoundDown;
    }
  }

  /** The next actions keep it: a first "down" comes with its removal, a repeated one without. */
  lemma RemovesOnceMore(log: seq<Action>, more: seq<Action>)
    requires RemovesOnce(log)
    requires || (|more| == 1 && !more[0].RemovalTried? && (more[0] == FoundDown ==> DownLast(log)))
             || (|more| == 2 && more[0] == FoundDown && more[1].RemovalTried? && !DownLast(log))
    ensures RemovesOnce(log + more)
  {
    var all := log + more;
    hide DownLast;
    assert all[..|log|] == log;
    forall i | 0 <= i < |all| ensures RemovesOnceAt(all, i) {
      if i < |log| {
        assert RemovesOnceAt(log, i) && all[i] == log[i] && all[..i] == log[..i];
        assert i >= 1 ==> all[..i - 1] == log[..i - 1];
        assert i + 1 < |log| ==> all[i + 1] == log[i + 1];
      } else {
        assert all[i] == more[i - |log|];
        assert i > |log| ==> all[..i - 1] == log;
      }
    }
  }

  // ---- together ----

  predicate Tidy(log: seq<Action>, debounce: Option<int>, down: bool) {
    && TimerExact(log, debounce) && Quiet(log) && SyncsFirst(log) && RemovesOnce(log)
    && (down <==> DownLast(log))
  }

  /** Actions that the rules about dialling and removing do not mention. */
  predicate Plain(a: Action) {
    a != FoundDown && !a.RemovalTried? && a != DialTried(true) && !a.Subscribed?
  }

  lemma TidySnoc(log: seq<Action>, debounce: Option<int>, down: bool, a: Action)
    requires Tidy(log, debounce, down) && Plain(a)
    requires a.Synced? && a.cause.Debounced? ==> debounce.Some? && debounce.value <= a.cause.at
    ensures Tidy(log + [a], TimerAfter(debounce, a), down && a != FoundUp)
  {
    TimerSnoc(log, debounce, a);
    QuietSnoc(log, debounce, a);
    assert SyncsFirst([a]);
    SyncsFirstJoin(log, [a]);
    RemovesOnceMore(log, [a]);
    DownLastSnoc(log, a);
    hide TimerExact, Quiet, SyncsFirst, RemovesOnce, DownLast;
  }

  /** A block of actions that leaves the timer alone. */
  lemma {:induction false} TimerBlock(log: seq<Action>, debounce: Option<int>, more: seq<Action>)
    requires TimerExact(log, debounce) && Quiet(log)
    requires forall i :: 0 <= i < |more| ==> !Matters(more[i]) && !EndsWait(more[i])
    ensures TimerExact(log + more, debounce) && Quiet(log + more)
    decreases |more|
  {
    hide TimerExact, Quiet;
    if more == [] {
      assert log + more == log;
    } else {
      TimerSnoc(log, debounce, more[0]);
      QuietSnoc(log, debounce, more[0]);
      assert (log + [more[0]]) + more[1..] == log + more;
      TimerBlock(log + [more[0]], debounce, more[1..]);
    }
  }

  lemma OpeningTidy(log: seq<Action>, look: Look, subscribed: bool)
    requires Tidy(log, None, false)
    ensures Tidy(log + [DialTried(true)] + [Synced(OnConnect, look)] + [Subscribed(subscribed)], None, false)
  {
    var a, b, c := DialTried(true), Synced(OnConnect, look), Subscribed(subscribed);
    var block := [a, b, c];
    assert log + block == log + [a] + [b] + [c];
    assert SyncsFirst(block);
    TimerBlock(log, None, block);
    SyncsFirstJoin(log, block);
    hide TimerExact, Quiet, SyncsFirst, RemovesOnce, DownLast;
    RemovesOnceMore(log, [a]);
    DownLastSnoc(log, a);
    RemovesOnceMore(log + [a], [b]);
    DownLastSnoc(log + [a], b);
    RemovesOnceMore(log + [a] + [b], [c]);
    DownLastSnoc(log + [a] + [b], c);
  }

  lemma DownTidy(log: seq<Action>, down: bool, dns: Surroundings)
    requires Tidy(log, None, down)
    ensures Tidy(if down then log + [FoundDown] else log + [FoundDown] + [RemovalTried(dns)], None, true)
  {
    var block := if down then [FoundDown] else [FoundDown] + [RemovalTried(dns)];
    assert log + block == if down then log + [FoundDown] else log + [FoundDown] + [RemovalTried(dns)];
    assert SyncsFirst(block);
    TimerBlock(log, None, block);
    SyncsFirstJoin(log, block);
    RemovesOnceMore(log, block);
    hide TimerExact, Quiet, SyncsFirst, RemovesOnce, DownLast;
    DownLastSnoc(log, FoundDown);
    DownLastSnoc(log + [FoundDown], RemovalTried(dns));
  }

  lemma OpenedTidy(v: View, rec: Record, t: Turn)
    requires Tidy(v.log, None, false) && ValidTurn(t)
    ensures Tidy(Opened(v, rec, t).v.log, None, false) && Opened(v, rec, t).debounce == None
  {
    hide Tidy, DnsSync, Meanwhile;
    if t.dials {
      OpeningTidy(v.log, t.first, t.subscribes);
    } else {
      TidySnoc(v.log, None, false, DialTried(false));
    }
  }

  lemma WokenTidy(c: Connection, rec: Record, wake: Wake)
    requires Tidy(c.v.log, c.debounce, false) && ValidWake(wake)
    ensures var c' := Woken(c, rec, wake); Tidy(c'.v.log, c'.debounce, false)
  {
    hide Tidy, DnsSync, Meanwhile;
    if !c.broken {
      match wake
      case Event(cat, at) => TidySnoc(c.v.log, c.debounce, false, Consumed(cat, at));
      case Due(at, look) =>
        if c.debounce.Some? && c.debounce.value <= at { TidySnoc(c.v.log, c.debounce, false, Synced(Debounced(at), look)); }
      case Poll(look) => TidySnoc(c.v.log, c.debounce, false, Synced(Polled, look));
      case Broken => TidySnoc(c.v.log, c.debounce, false, StreamBroke);
    }
  }

  lemma {:induction false} WokenAllTidy(c: Connection, rec: Record, wakes: seq<Wake>)
    requires Tidy(c.v.log, c.debounce, false) && (c.broken ==> c.debounce == None)
    requires forall i :: 0 <= i < |wakes| ==> ValidWake(wakes[i])
    ensures var c' := WokenAll(c, rec, wakes);
            Tidy(c'.v.log, c'.debounce, false) && (c'.broken ==> c'.debounce == None)
    decreases |wakes|
  {
    hide Tidy, DnsSync, Meanwhile;
    if wakes != [] {
      WokenTidy(c, rec, wakes[0]);
      WokenAllTidy(Woken(c, rec, wakes[0]), rec, wakes[1..]);
    }
  }

  predicate TidyWatcher(x: Watcher) {
    Tidy(x.v.log, x.debounce, x.downCleaned) && (!x.over ==> x.debounce == None)
  }

  lemma TurnedTidy(x: Watcher, rec: Record, t: Turn)
    requires TidyWatcher(x) && ValidTurn(t)
    ensures TidyWatcher(Turned(x, rec, t))
  {
    hide Tidy, Meanwhile, RemoveResult, Opened;
    if !x.over {
      if !t.running {
        DownTidy(x.v.log, x.downCleaned, t.dns);
      } else {
        var v := View(Meanwhile(x.v.w, rec.name, t.running), x.v.log + [FoundUp]);
        TidySnoc(x.v.log, None, x.downCleaned, FoundUp);
        OpenedTidy(v, rec, t);
        WokenAllTidy(Opened(v, rec, t), rec, t.wakes);
      }
    }
  }

  lemma {:induction false} TurnedAllTidy(x: Watcher, rec: Record, ts: seq<Turn>)
    requires TidyWatcher(x) && forall i :: 0 <= i < |ts| ==> ValidTurn(ts[i])
    ensures TidyWatcher(TurnedAll(x, rec, ts))
    decreases |ts|
  {
    hide TidyWatcher, Turned;
    if ts != [] {
      TurnedTidy(x, rec, ts[0]);
      TurnedAllTidy(Turned(x, rec, ts[0]), rec, ts[1..]);
    }
  }

  // ---- main results ----

  /** In every run: the timer is armed exactly while an event waits, a debounced sync comes after
      two quiet seconds, connections sync before they subscribe, removals open the stretches
      without a daemon, and an event with no sync after it means an armed timer or a lost
      connection. */
  lemma EveryWatchIsTidy(w: World, rec: Record, ts: seq<Turn>)
    requires forall i :: 0 <= i < |ts| ==> ValidTurn(ts[i])
    ensures var x := Watched(w, rec, ts);
            && TimerExact(x.v.log, x.debounce) && Quiet(x.v.log)
            && SyncsFirst(x.v.log) && RemovesOnce(x.v.log)
            && (Unanswered(x.v.log) ==> x.debounce.Some?)
  {
    var x := Watched(w, rec, ts);
    var first := Watcher(View(w, []), false, None, false);
    assert TidyWatcher(first);
    hide TurnedAll;
    TurnedAllTidy(first, rec, ts);
    hide Quiet, SyncsFirst, RemovesOnce, DownLast, Unanswered;
    if Unanswered(x.v.log) {
      UnansweredWaits(x.v.log);
    }
  }

  /** `log[i..j]` lies between two looks that found the daemon alive, or the ends of the run. */
  predicate Stretch(log: seq<Action>, i: int, j: int) {
    && 0 <= i <= j <= |log|
    && (i > 0 ==> log[i - 1] == FoundUp) && (j < |log| ==> log[j] == FoundUp)
    && forall k :: i <= k < j ==> log[k] != FoundUp
  }

  /** Each maximal stretch in which the daemon is found down tries exactly one removal, and a
      stretch in which it is not found down tries none. */
  lemma StretchRemovesOnce(log: seq<Action>, i: int, j: int)
    requires RemovesOnce(log) && Stretch(log, i, j)
    ensures (exists k :: i <= k < j && log[k] == FoundDown) <==> (exists k :: i <= k < j && log[k].RemovalTried?)
    ensures forall k, m :: i <= k < j && i <= m < j && log[k].RemovalTried? && log[m].RemovalTried? ==> k == m
  {
    hide DownLast;
    forall k | i <= k < j && log[k].RemovalTried?
      ensures k > i && log[k - 1] == FoundDown && forall m :: i <= m < k - 1 ==> log[m] != FoundDown
    {
      OnlyFirstDown(log, i, k);
    }
    forall d | i <= d < j && log[d] == FoundDown ensures exists k :: i <= k < j && log[k].RemovalTried? {
      var f := FirstDown(log, i, d);
      BeforeFirstDown(log, i, f);
      assert RemovesOnceAt(log, f);
      assert log[f + 1].RemovalTried?;
    }
    forall k | i <= k < j && log[k].RemovalTried? ensures exists d :: i <= d < j && log[d] == FoundDown {
      assert log[k - 1] == FoundDown;
    }
    forall k, m | i <= k < m < j && log[k].RemovalTried? ensures !log[m].RemovalTried? {
      assert log[k - 1] == FoundDown && i <= k - 1 < m - 1;
    }
  }

  function FirstDown(log: seq<Action>, i: int, d: int): (f: int)
    requires 0 <= i <= d < |log| && log[d] == FoundDown
    ensures i <= f <= d && log[f] == FoundDown && forall m :: i <= m < f ==> log[m] != FoundDown
    decreases d - i
  {
    if log[i] == FoundDown then i else FirstDown(log, i + 1, d)
  }

  lemma BeforeFirstDown(log: seq<Action>, i: int, f: int)
    requires 0 <= i <= f < |log| && (i > 0 ==> log[i - 1] == FoundUp)
    requires forall m :: i <= m < f ==> log[m] != FoundDown
    ensures !DownLast(log[..f])
  {
    var before := log[..f];
    forall d | 0 <= d < |before| && before[d] == FoundDown ensures exists j :: d < j < |before| && before[j] == FoundUp {
      assert before[d] == log[d];
      assert before[i - 1] == log[i - 1];
    }
  }

  lemma OnlyFirstDown(log: seq<Action>, i: int, k: int)
    requires 0 <= i <= k < |log| && RemovesOnce(log) && log[k].RemovalTried?
    requires (i > 0 ==> log[i - 1] == FoundUp) && forall m :: i <= m < k ==> log[m] != FoundUp
    ensures i < k && log[k - 1] == FoundDown && forall m :: i <= m < k - 1 ==> log[m] != FoundDown
  {
    assert RemovesOnceAt(log, k);
    var before := log[..k - 1];
    forall m | i <= m < k - 1 ensures log[m] != FoundDown {
      assert before[m] == log[m] && forall j :: m < j < |before| ==> before[j] == log[j];
    }
  }

  // ---- what a run does to the store ----

  /** All that the turns of a stretch without a daemon do to the store is the first turn's
      removal: when that fails, nothing tries again until the daemon has been back. */
  lemma DownStretch(x: Watcher, rec: Record, ts: seq<Turn>)
    requires forall i :: 0 <= i < |ts| ==> ValidTurn(ts[i]) && !ts[i].running
    requires !x.over && !x.downCleaned && ts != []
    ensures TurnedAll(x, rec, ts).v.w.dns == RemoveResult(x.v.w.dns, rec.name, ts[0].dns).0
  {
    hide RemoveResult, ValidTurn;
    DownAgain(Turned(x, rec, ts[0]), rec, ts[1..]);
  }

  lemma {:induction false} DownAgain(x: Watcher, rec: Record, ts: seq<Turn>)
    requires forall i :: 0 <= i < |ts| ==> ValidTurn(ts[i]) && !ts[i].running
    requires !x.over && x.downCleaned
    ensures TurnedAll(x, rec, ts).v.w.dns == x.v.w.dns
    decreases |ts|
  {
    hide RemoveResult, ValidTurn;
    if ts != [] { DownAgain(Turned(x, rec, ts[0]), rec, ts[1..]); }
  }

  predicate OneLinedLook(look: Look) {
    look.reply.Some? ==> OneLineStatus(look.reply.value)
  }

  predicate OneLinedWake(wake: Wake) {
    (wake.Due? || wake.Poll?) ==> OneLinedLook(wake.look)
  }

  /** No name in the statuses of a turn has a line break inside it. */
  predicate OneLinedTurn(t: Turn) {
    OneLinedLook(t.first) && forall i :: 0 <= i < |t.wakes| ==> OneLinedWake(t.wakes[i])
  }

  /** The watcher writes no record and no other instance's keys, and as long as the statuses are
      `tame` no foreign key either. */
  ghost predicate OnlyDns(w: World, w': World, name: string, tame: bool) {
    && SameFiles(w, w')
    && (forall o :: o != name && (o != "" || tame) ==> Slice(w'.dns, o) == Slice(w.dns, o))
  }

  lemma OnlyDnsTrans(a: World, b: World, c: World, name: string, tame: bool)
    requires OnlyDns(a, b, name, tame) && OnlyDns(b, c, name, tame)
    ensures OnlyDns(a, c, name, tame)
  {
    hide Slice;
  }

  lemma OnlyDnsRefl(w: World, name: string, tame: bool)
    ensures OnlyDns(w, w, name, tame)
  {
  }

  lemma MeanwhileOnly(w: World, name: string, running: bool, tame: bool)
    ensures OnlyDns(w, Meanwhile(w, name, running), name, tame)
  {
    hide Slice;
  }

  lemma RemoveOnly(w: World, name: string, s: Surroundings, tame: bool)
    ensures OnlyDns(w, RemoveDns(w, name, s), name, tame)
  {
    hide Slice, RemoveResult, Narrows;
    RemoveNarrows(w.dns, name, s);
    DaemonsOnly(w, name, s);
  }

  lemma SyncOnly(w: World, rec: Record, reply: Option<Status>, s: Surroundings, tame: bool)
    requires ValidName(rec.name) && (reply.Some? ==> ValidStatus(reply.value))
    requires tame && reply.Some? ==> OneLineStatus(reply.value)
    ensures OnlyDns(w, DnsSync(w, rec, reply, s).0, rec.name, tame)
  {
    hide Slice, RemoveResult, ApplyFromStatus, ValidName, ValidStatus, OneLineStatus;
    RemoveOnly(w, rec.name, s, tame);
    if reply.Some? { ApplyFromStatusLike(w.dns, rec, reply.value, s); }
  }

  lemma LookOnly(v: View, rec: Record, look: Look, cause: Cause, tame: bool)
    requires ValidName(rec.name) && ValidLook(look) && (tame ==> OneLinedLook(look))
    ensures OnlyDns(v.w, Sync(v, rec, look, cause).w, rec.name, tame)
  {
    hide DnsSync, Meanwhile, OnlyDns, ValidName, ValidStatus, OneLineStatus;
    var w1 := Meanwhile(v.w, rec.name, look.running);
    MeanwhileOnly(v.w, rec.name, look.running, tame);
    SyncOnly(w1, rec, look.reply, look.dns, tame);
    OnlyDnsTrans(v.w, w1, Sync(v, rec, look, cause).w, rec.name, tame);
  }

  lemma WokenOnly(c: Connection, rec: Record, wake: Wake, tame: bool)
    requires ValidName(rec.name) && ValidWake(wake) && (tame ==> OneLinedWake(wake))
    ensures OnlyDns(c.v.w, Woken(c, rec, wake).v.w, rec.name, tame)
  {
    hide OnlyDns, Sync, ValidName, OneLinedLook, ValidLook;
    OnlyDnsRefl(c.v.w, rec.name, tame);
    if wake.Due? { LookOnly(c.v, rec, wake.look, Debounced(wake.at), tame); }
    if wake.Poll? { LookOnly(c.v, rec, wake.look, Polled, tame); }
  }

  lemma {:induction false} WokenAllOnly(c: Connection, rec: Record, wakes: seq<Wake>, tame: bool)
    requires ValidName(rec.name) && forall i :: 0 <= i < |wakes| ==> ValidWake(wakes[i]) && (tame ==> OneLinedWake(wakes[i]))
    ensures OnlyDns(c.v.w, WokenAll(c, rec, wakes).v.w, rec.name, tame)
    decreases |wakes|
  {
    hide OnlyDns, Woken, ValidName, OneLinedWake, ValidWake;
    OnlyDnsRefl(c.v.w, rec.name, tame);
    if wakes != [] {
      var c' := Woken(c, rec, wakes[0]);
      WokenOnly(c, rec, wakes[0], tame);
      WokenAllOnly(c', rec, wakes[1..], tame);
      OnlyDnsTrans(c.v.w, c'.v.w, WokenAll(c', rec, wakes[1..]).v.w, rec.name, tame);
    }
  }

  lemma ConnectedOnly(v: View, rec: Record, t: Turn, tame: bool)
    requires ValidName(rec.name) && ValidTurn(t) && (tame ==> OneLinedTurn(t))
    ensures OnlyDns(v.w, Connected(v, rec, t).v.w, rec.name, tame)
  {
    hide OnlyDns, Sync, ValidName, WokenAll, OneLinedLook, OneLinedWake, ValidLook, ValidWake;
    var c := Opened(v, rec, t);
    OnlyDnsRefl(v.w, rec.name, tame);
    LookOnly(Note(v, DialTried(t.dials)), rec, t.first, OnConnect, tame);
    WokenAllOnly(c, rec, t.wakes, tame);
    OnlyDnsTrans(v.w, c.v.w, Connected(v, rec, t).v.w, rec.name, tame);
  }

  lemma TurnedOnly(x: Watcher, rec: Record, t: Turn, tame: bool)
    requires ValidName(rec.name) && ValidTurn(t) && (tame ==> OneLinedTurn(t))
    ensures OnlyDns(x.v.w, Turned(x, rec, t).v.w, rec.name, tame)
  {
    hide OnlyDns, Connected, ValidName, Meanwhile, ValidTurn, OneLinedTurn;
    var w := Meanwhile(x.v.w, rec.name, t.running);
    OnlyDnsRefl(x.v.w, rec.name, tame);
    MeanwhileOnly(x.v.w, rec.name, t.running, tame);
    OnlyDnsRefl(w, rec.name, tame);
    RemoveOnly(w, rec.name, t.dns, tame);
    ConnectedOnly(View(w, x.v.log + [FoundUp]), rec, t, tame);
    if !x.over { OnlyDnsTrans(x.v.w, w, Turned(x, rec, t).v.w, rec.name, tame); }
  }

  lemma {:induction false} TurnedAllOnly(x: Watcher, rec: Record, ts: seq<Turn>, tame: bool)
    requires ValidName(rec.name) && forall i :: 0 <= i < |ts| ==> ValidTurn(ts[i]) && (tame ==> OneLinedTurn(ts[i]))
    ensures OnlyDns(x.v.w, TurnedAll(x, rec, ts).v.w, rec.name, tame)
    decreases |ts|
  {
    hide OnlyDns, Turned, ValidName, ValidTurn, OneLinedTurn;
    OnlyDnsRefl(x.v.w, rec.name, tame);
    if ts != [] {
      TurnedOnly(x, rec, ts[0], tame);
      TurnedAllOnly(Turned(x, rec, ts[0]), rec, ts[1..], tame);
      OnlyDnsTrans(x.v.w, Turned(x, rec, ts[0]).v.w, TurnedAll(x, rec, ts).v.w, rec.name, tame);
    }
  }

  /** A run of the watcher changes no record and pushes nothing; it touches no other instance's
      keys, and no foreign ones unless a reported name has a line break in it. It keeps the
      invariants of command histories, ownership on a stored record in multibird mode. */
  lemma WatchKeeps(start: Records, w: World, rec: Record, ts: seq<Turn>)
    requires forall i :: 0 <= i < |ts| ==> ValidTurn(ts[i])
    requires ValidName(rec.name)
    ensures var w' := Watched(w, rec, ts).v.w;
            && SameFiles(w, w')
            && (forall o :: o != rec.name && o != "" ==> Slice(w'.dns, o) == Slice(w.dns, o))
            && ((forall i :: 0 <= i < |ts| ==> OneLinedTurn(ts[i])) ==> Slice(w'.dns, "") == Slice(w.dns, ""))
            && (Good(start, w) ==> Steady(start, w, w'))
            && (Good(start, w) && Loaded(w, rec) && rec.mode == Multibird && DnsOwned(w) ==> DnsOwned(w'))
  {
    hide ValidName, Good, TurnedAll, Slice, Steady, SameFiles, OneLinedTurn, ValidTurn, DnsOwned, Loaded;
    var first := Watcher(View(w, []), false, None, false);
    var w' := Watched(w, rec, ts).v.w;
    NamedSomehow(rec.name);
    TurnedAllOnly(first, rec, ts, false);
    if forall i :: 0 <= i < |ts| ==> OneLinedTurn(ts[i]) { TurnedAllOnly(first, rec, ts, true); }
    if Good(start, w) {
      SteadySameFiles(start, w, w');
      if Loaded(w, rec) && rec.mode == Multibird && DnsOwned(w) {
        OwnSliceLike(w, w', rec);
        SteadyOwned(start, w, w');
      }
    }
  }

  lemma OwnSliceLike(w: World, w': World, rec: Record)
    requires Loaded(w, rec) && rec.mode == Multibird
    requires forall o :: o != rec.name && o != "" ==> Slice(w'.dns, o) == Slice(w.dns, o)
    ensures DnsLike(w, w')
  {
    hide Slice;
  }
}

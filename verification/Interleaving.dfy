/** Any number of owners updating the shared store at once. One operation is two separate
    atomic steps, "list our keys" and "run the script", exactly as ApplyHostDNS and
    RemoveHostDNS do them (internal/platform/platform_darwin.go:66-109); the watcher runs one
    such sequence per instance with nothing between them (internal/ops/dns.go:107-120). */
module Interleaving {
  import opened Text
  import opened Specs
  import opened Scutil
  import opened Keys
  import opened HostScripts
  import opened Listings
  import opened DynamicStore
  import opened OwnKeys
  import opened Registrations

  datatype Op = Apply(spec: Spec) | Remove

  /** Between its two steps an operation remembers the keys it saw. */
  datatype Flight = Flight(op: Op, stale: seq<string>)

  datatype Done = Done(owner: string, op: Op)

  /** The store, the operations between their two steps, and the completed operations in order. */
  datatype System = System(store: Store, flights: map<string, Flight>, history: seq<Done>)

  datatype Step =
    | List(owner: string, op: Op, order: seq<string>)  // first step, with the listing's order
    | Script(owner: string, order: seq<string>)        // second step
    | Abort(owner: string)                             // the operation fails between its steps
    | Foreign(writes: Store, removes: set<string>)     // another program edits keys outside the contract

  /** Domains in lower case, as derived ones are, may contain anything; others fit on their lines. */
  predicate CleanOp(op: Op) {
    op.Apply? ==> LowerSpec(op.spec) || OneLineSpec(op.spec)
  }

  /** Without line breaks in it, an operation leaves foreign keys alone too. */
  predicate Neat(op: Op) {
    op.Apply? ==> OneLineSpec(op.spec)
  }

  /** One operation at a time per owner; other programs stay off the contract's keys. */
  predicate Enabled(s: System, step: Step) {
    if step.List? then
      CleanWord(step.owner) && step.owner !in s.flights && CleanOp(step.op) && Enumerates(step.order, s.store)
    else if step.Script? then step.owner in s.flights && Enumerates(step.order, s.store)
    else if step.Abort? then step.owner in s.flights
    else
      && Printable(step.writes)
      && (forall k :: k in step.writes ==> OwnerOfKey(k) == "")
      && (forall k :: k in step.removes ==> OwnerOfKey(k) == "")
  }

  function ScriptOf(owner: string, f: Flight): string {
    if f.op.Apply? then Unlines(ApplyLines(f.stale, Layout(owner, f.op.spec), f.op.spec.listen))
    else Unlines(ApplyLines(f.stale, [], AddrPort(0, 0)))
  }

  /** Nothing to remove and nothing to write ends an operation after its first step. */
  predicate NothingToDo(owner: string, op: Op, stale: seq<string>) {
    stale == [] && (op.Apply? ==> Layout(owner, op.spec) == [])
  }

  function Next(s: System, step: Step): System
    requires Enabled(s, step)
  {
    if step.List? then
      if LooksFailed(ListOutput(s.store, step.order)) then s
      else
        var stale := StaleKeys(s.store, step.order, step.owner);
        if NothingToDo(step.owner, step.op, stale) then s.(history := s.history + [Done(step.owner, step.op)])
        else s.(flights := s.flights[step.owner := Flight(step.op, stale)])
    else if step.Script? then
      var f := s.flights[step.owner];
      System(RunScript(s.store, step.order, ScriptOf(step.owner, f)).store, s.flights - {step.owner},
             s.history + [Done(step.owner, f.op)])
    else if step.Abort? then s.(flights := s.flights - {step.owner})
    else s.(store := s.store - step.removes + step.writes)
  }

  /** `trace` is a possible run from `s` that ends in `t`. */
  ghost predicate Runs(s: System, trace: seq<Step>, t: System)
    decreases |trace|
  {
    if trace == [] then s == t
    else Enabled(s, trace[0]) && Runs(Next(s, trace[0]), trace[1..], t)
  }

  // ---- what each owner's operations alone would leave ----

  function LeftBy(owner: string, op: Op): Store {
    if op.Apply? then LeavesMap(owner, op.spec) else map[]
  }

  /** The operation an owner completed last. */
  function Last(history: seq<Done>, owner: string): Option<Op> {
    if history == [] then None
    else
      var last := history[|history| - 1];
      if last.owner == owner then Some(last.op) else Last(history[..|history| - 1], owner)
  }

  /** The slice an owner would have if its own completed operations were all that ever ran. */
  function Alone(history: seq<Done>, owner: string, initial: Store): Store {
    var last := Last(history, owner);
    if last.Some? then LeftBy(owner, last.value) else initial
  }

  /** What a step does to the keys outside the contract. */
  function ForeignStep(step: Step, outside: Store): Store {
    if step.Foreign? then outside - step.removes + step.writes else outside
  }

  /** The keys outside the contract after only the other programs' edits of the run. */
  function ForeignOnly(trace: seq<Step>, outside: Store): Store {
    if trace == [] then outside else ForeignOnly(trace[1..], ForeignStep(trace[0], outside))
  }

  /** Between its two steps nobody else can change what an operation has listed. */
  predicate Inv(s: System) {
    && Printable(s.store)
    && forall o :: o in s.flights ==>
         CleanWord(o) && CleanOp(s.flights[o].op) && Current(s.store, o, s.flights[o].stale)
  }

  /** The operation that a step completes, if any. */
  function Completes(s: System, step: Step): Option<Op>
    requires Enabled(s, step)
  {
    if step.List? then
      if !LooksFailed(ListOutput(s.store, step.order)) && NothingToDo(step.owner, step.op, StaleKeys(s.store, step.order, step.owner))
      then Some(step.op) else None
    else if step.Script? then Some(s.flights[step.owner].op)
    else None
  }

  function Entry(owner: string, op: Option<Op>): seq<Done> {
    if op.Some? then [Done(owner, op.value)] else []
  }

  /** Of all owners' slices one step changes at most its own owner's, and then to what that
      operation leaves. */
  ghost predicate StepEffect(s: System, step: Step, t: System)
    requires Enabled(s, step)
  {
    if step.Foreign? then
      && t.history == s.history && t.flights == s.flights
      && Slice(t.store, "") == Slice(s.store, "") - step.removes + step.writes
      && forall o :: o != "" ==> Slice(t.store, o) == Slice(s.store, o)
    else
      var done := Completes(s, step);
      && step.owner != ""
      && t.history == s.history + Entry(step.owner, done)
      && (forall o :: o != step.owner && o != "" ==> Slice(t.store, o) == Slice(s.store, o))
      && (done.None? || Neat(done.value) ==> Slice(t.store, "") == Slice(s.store, ""))
      && Slice(t.store, step.owner) == if done.Some? then LeftBy(step.owner, done.value) else Slice(s.store, step.owner)
  }

  lemma ForeignSlices(store: Store, writes: Store, removes: set<string>)
    requires forall k :: k in writes ==> OwnerOfKey(k) == ""
    requires forall k :: k in removes ==> OwnerOfKey(k) == ""
    ensures Slice(store - removes + writes, "") == Slice(store, "") - removes + writes
    ensures forall o :: o != "" ==> Slice(store - removes + writes, o) == Slice(store, o)
  {
    hide OwnerOfKey;
    var after := store - removes + writes;
    assert Slice(after, "").Keys == (Slice(store, "") - removes + writes).Keys;
    forall o | o != "" ensures Slice(after, o) == Slice(store, o) {
      assert Slice(after, o).Keys == Slice(store, o).Keys;
    }
  }

  /** A script run from what its own list step saw puts what its operation leaves in the owner's
      slice, and touches no other owner's. */
  lemma ScriptEffect(s: System, owner: string, order: seq<string>)
    requires Inv(s) && owner in s.flights
    ensures var f := s.flights[owner];
            var after := RunScript(s.store, order, ScriptOf(owner, f)).store;
            && Slice(after, owner) == LeftBy(owner, f.op)
            && (forall o :: o != owner && o != "" ==> Slice(after, o) == Slice(s.store, o))
            && (Neat(f.op) ==> Slice(after, "") == Slice(s.store, ""))
  {
    hide RunScript, Slice, ApplyLines, Unlines, Layout, Current, Printable, CleanWord, LeavesMap, LowerSpec, OneLineSpec;
    var f := s.flights[owner];
    NoBlank(owner);
    if f.op.Apply? {
      ApplyLanding(s.store, order, f.stale, owner, f.op.spec);
    } else {
      RemoveLanding(s.store, order, f.stale, owner);
    }
  }

  lemma ApplyLanding(store: Store, order: seq<string>, stale: seq<string>, owner: string, spec: Spec)
    requires CleanWord(owner) && Current(store, owner, stale) && (LowerSpec(spec) || OneLineSpec(spec))
    ensures var after := RunScript(store, order, Unlines(ApplyLines(stale, Layout(owner, spec), spec.listen))).store;
            && Slice(after, owner) == LeavesMap(owner, spec)
            && (forall o :: o != owner && o != "" ==> Slice(after, o) == Slice(store, o))
            && (OneLineSpec(spec) ==> Slice(after, "") == Slice(store, ""))
  {
    hide RunScript, Put, Slice, Layout, SeenMap, Unlines, ApplyLines, Current, OwnerName, AllSeenOut, CleanWord, LowerSpec, OneLineSpec,
         Written, LeavesMap, OwnedBy, WordSpec;
    ApplyScriptWrites(store, order, stale, owner, spec);
    ApplyScriptPuts(store, order, stale, owner, spec);
    NamedOwner(owner);
    if OneLineSpec(spec) {
      OneLineLeaves(owner, spec);
      PutLaws(store, owner, SeenMap(owner, spec));
    } else {
      forall o | o != owner && o != ""
        ensures Slice(Written(store - Slice(store, owner).Keys, order, Layout(owner, spec), spec.listen).store, o) == Slice(store, o)
      {
        WrittenOthers(store, order, owner, spec, o);
      }
    }
  }

  lemma RemoveLanding(store: Store, order: seq<string>, stale: seq<string>, owner: string)
    requires CleanWord(owner) && Current(store, owner, stale)
    ensures var after := RunScript(store, order, Unlines(ApplyLines(stale, [], AddrPort(0, 0)))).store;
            Slice(after, owner) == map[] && forall o :: o != owner ==> Slice(after, o) == Slice(store, o)
  {
    hide RunScript, Put, Slice, Unlines, ApplyLines, Current, CleanWord, OwnedBy, LooksFailed;
    NoBlank(owner);
    CurrentFree(store, stale, owner);
    RemoveScriptPuts(store, order, stale, owner);
    NothingOwned(owner);
    PutLaws(store, owner, map[]);
  }

  lemma CurrentFree(store: Store, stale: seq<string>, owner: string)
    requires CleanWord(owner) && Current(store, owner, stale)
    ensures AllFree(stale, '\n')
  {
    hide Current, CleanWord, Word;
    StaleClean(store, stale, owner);
  }

  lemma NoBlank(owner: string)
    requires CleanWord(owner)
    ensures Free(owner, ' ') && owner != ""
  {
  }

  lemma RunPrintable(store: Store, order: seq<string>, script: string)
    requires Printable(store)
    ensures Printable(RunScript(store, order, script).store)
  {
    hide Printable, Split, RunLines;
    SplitParts(script, '\n', '\n');
    RunKeepsPrintable(Machine(store, map[], "", true), order, Split(script, '\n'));
  }

  lemma NothingLeft(store: Store, owner: string, op: Op, stale: seq<string>)
    requires Current(store, owner, stale) && NothingToDo(owner, op, stale)
    ensures Slice(store, owner) == LeftBy(owner, op)
  {
    EmptyElements(stale);
    hide OwnerOfKey, LeavesMap, Layout;
    if op.Apply? { NothingLeaves(owner, op.spec); }
  }

  lemma ListEffect(s: System, step: Step)
    requires Inv(s) && Enabled(s, step) && step.List?
    ensures Inv(Next(s, step)) && StepEffect(s, step, Next(s, step))
  {
    hide Inv, StaleKeys, ListOutput, LooksFailed, Slice, LeftBy, NothingToDo, Current, Enumerates, CleanWord, CleanOp;
    var owner, op := step.owner, step.op;
    ListedIsCurrent(s, step);
    ShrinkHistory(s, Done(owner, op));
    assert s.history + [] == s.history;
  }

  lemma ListedIsCurrent(s: System, step: Step)
    requires Inv(s) && Enabled(s, step) && step.List?
    ensures var stale := StaleKeys(s.store, step.order, step.owner);
            && step.owner != ""
            && Inv(s.(flights := s.flights[step.owner := Flight(step.op, stale)]))
            && (NothingToDo(step.owner, step.op, stale) ==> Slice(s.store, step.owner) == LeftBy(step.owner, step.op))
  {
    var stale := StaleKeys(s.store, step.order, step.owner);
    ListStepExact(s.store, step.order, step.owner);
    assert Current(s.store, step.owner, stale);
    hide StaleKeys, Slice, LeftBy, NothingToDo, Current, Enumerates, LooksFailed;
    AddFlight(s, step.owner, Flight(step.op, stale));
    if NothingToDo(step.owner, step.op, stale) { NothingLeft(s.store, step.owner, step.op, stale); }
  }

  lemma AddFlight(s: System, owner: string, f: Flight)
    requires Inv(s) && CleanWord(owner) && CleanOp(f.op) && Current(s.store, owner, f.stale)
    ensures Inv(s.(flights := s.flights[owner := f]))
  {
    hide Current, CleanOp, CleanWord, Printable;
  }

  lemma ShrinkHistory(s: System, d: Done)
    requires Inv(s)
    ensures Inv(s.(history := s.history + [d]))
  {
    hide Current, CleanOp, CleanWord, Printable;
  }

  lemma ScriptLanding(s: System, owner: string, order: seq<string>)
    requires Inv(s) && owner in s.flights
    ensures var op := s.flights[owner].op;
            var after := RunScript(s.store, order, ScriptOf(owner, s.flights[owner])).store;
            && owner != "" && Printable(after)
            && Slice(after, owner) == LeftBy(owner, op)
            && (forall o :: o != owner && o != "" ==> Slice(after, o) == Slice(s.store, o))
            && (Neat(op) ==> Slice(after, "") == Slice(s.store, ""))
  {
    hide LeftBy, Slice, ScriptOf, RunScript, Printable, Current, CleanWord, CleanOp, Neat;
    ScriptEffect(s, owner, order);
    RunPrintable(s.store, order, ScriptOf(owner, s.flights[owner]));
    NoBlank(owner);
  }

  lemma ScriptStepEffect(s: System, step: Step)
    requires Inv(s) && Enabled(s, step) && step.Script?
    ensures Inv(Next(s, step)) && StepEffect(s, step, Next(s, step))
  {
    hide *;
    OwnsFlight(s, step);
    ScriptNext(s, step);
    var owner, op := step.owner, s.flights[step.owner].op;
    var t := Next(s, step);
    ScriptLanding(s, owner, step.order);
    LandFlight(s, owner, t.store, Done(owner, op));
    CompletedEffect(s, step, t, op);
  }

  lemma OwnsFlight(s: System, step: Step)
    requires Enabled(s, step) && step.Script?
    ensures step.owner in s.flights
  {
  }

  lemma CompletedEffect(s: System, step: Step, t: System, op: Op)
    requires Enabled(s, step) && !step.Foreign? && step.owner != "" && Completes(s, step) == Some(op)
    requires t.history == s.history + [Done(step.owner, op)] && Slice(t.store, step.owner) == LeftBy(step.owner, op)
    requires forall o :: o != step.owner && o != "" ==> Slice(t.store, o) == Slice(s.store, o)
    requires Neat(op) ==> Slice(t.store, "") == Slice(s.store, "")
    ensures StepEffect(s, step, t)
  {
    hide Enabled, Completes, Slice, LeftBy, Neat;
  }

  lemma ScriptNext(s: System, step: Step)
    requires Enabled(s, step) && step.Script?
    ensures var f := s.flights[step.owner];
            && Next(s, step) == System(RunScript(s.store, step.order, ScriptOf(step.owner, f)).store, s.flights - {step.owner}, s.history + [Done(step.owner, f.op)])
            && Completes(s, step) == Some(f.op)
  {
    hide RunScript, ScriptOf, Enumerates;
  }

  /** What the other operations have listed stays current when one lands. */
  lemma LandFlight(s: System, owner: string, after: Store, d: Done)
    requires Inv(s) && Printable(after) && forall o :: o != owner && o != "" ==> Slice(after, o) == Slice(s.store, o)
    ensures Inv(System(after, s.flights - {owner}, s.history + [d]))
  {
    hide Slice, Printable, CleanWord, CleanOp, Distinct, Elements;
    forall o | o in s.flights ensures o != "" { NoBlank(o); }
  }

  lemma ForeignStepEffect(s: System, step: Step)
    requires Inv(s) && Enabled(s, step) && step.Foreign?
    ensures Inv(Next(s, step)) && StepEffect(s, step, Next(s, step))
  {
    hide *;
    ForeignEdit(s, step);
    ForeignKeeps(s, step.writes, step.removes);
    ForeignSlices(s.store, step.writes, step.removes);
    EditEffect(s, step, Next(s, step));
  }

  lemma EditEffect(s: System, step: Step, t: System)
    requires Enabled(s, step) && step.Foreign? && t.history == s.history && t.flights == s.flights
    requires Slice(t.store, "") == Slice(s.store, "") - step.removes + step.writes
    requires forall o :: o != "" ==> Slice(t.store, o) == Slice(s.store, o)
    ensures StepEffect(s, step, t)
  {
    hide Enabled, Slice;
  }

  lemma ForeignEdit(s: System, step: Step)
    requires Enabled(s, step) && step.Foreign?
    ensures Next(s, step) == s.(store := s.store - step.removes + step.writes) && Printable(step.writes)
    ensures forall k :: k in step.writes || k in step.removes ==> OwnerOfKey(k) == ""
  {
    hide Printable, OwnerOfKey, LooksFailed, ListOutput, StaleKeys, NothingToDo, RunScript, ScriptOf, Enumerates, CleanOp, CleanWord;
  }

  lemma ForeignKeeps(s: System, writes: Store, removes: set<string>)
    requires Inv(s) && Printable(writes)
    requires forall k :: k in writes ==> OwnerOfKey(k) == ""
    requires forall k :: k in removes ==> OwnerOfKey(k) == ""
    ensures Inv(s.(store := s.store - removes + writes))
  {
    hide NoSpace, CleanOp, Distinct, Elements, OwnerOfKey;
    ForeignSlices(s.store, writes, removes);
    hide Slice;
  }

  /** Every step keeps the invariant and has its own effect only. */
  lemma StepKeeps(s: System, step: Step)
    requires Inv(s) && Enabled(s, step)
    ensures Inv(Next(s, step)) && StepEffect(s, step, Next(s, step))
  {
    hide *;
    match step
    case List(_, _, _) => ListEffect(s, step);
    case Script(_, _) => ScriptStepEffect(s, step);
    case Foreign(_, _) => ForeignStepEffect(s, step);
    case Abort(_) => AbortEffect(s, step);
  }

  lemma AbortEffect(s: System, step: Step)
    requires Inv(s) && Enabled(s, step) && step.Abort?
    ensures Inv(Next(s, step)) && StepEffect(s, step, Next(s, step))
  {
    hide Slice, Printable, Current, Enumerates, RunScript, ScriptOf, StaleKeys, ListOutput, LooksFailed, LeftBy, NothingToDo, OwnerOfKey, NoSpace, CleanOp;
    assert s.history + [] == s.history;
  }

  lemma {:induction false} LastAppend(a: seq<Done>, b: seq<Done>, owner: string)
    ensures Last(a + b, owner) == if Last(b, owner).Some? then Last(b, owner) else Last(a, owner)
  {
    if b == [] {
      assert a + b == a;
    } else {
      assert (a + b)[..|a + b| - 1] == a + b[..|b| - 1];
      LastAppend(a, b[..|b| - 1], owner);
    }
  }

  /** The operations completed between two states of one run. */
  function Since(s: System, t: System): seq<Done> {
    if |s.history| <= |t.history| then t.history[|s.history|..] else []
  }

  predicate AllNeat(history: seq<Done>) {
    forall i :: 0 <= i < |history| ==> Neat(history[i].op)
  }

  /** Each owner's slice is what its own last completed operation alone leaves (or what it was,
      if none completed), and the keys outside the contract are what the other programs alone
      made of them, unless an operation with a line break in it completed. */
  ghost predicate Outcome(s: System, trace: seq<Step>, t: System) {
    && t.history == s.history + Since(s, t)
    && (forall o :: o != "" ==> Slice(t.store, o) == Alone(Since(s, t), o, Slice(s.store, o)))
    && (AllNeat(Since(s, t)) ==> Slice(t.store, "") == ForeignOnly(trace, Slice(s.store, "")))
  }

  /** What a step adds to the history. */
  function StepEntry(s: System, step: Step): seq<Done>
    requires Enabled(s, step)
  {
    if step.Foreign? then [] else Entry(step.owner, Completes(s, step))
  }

  lemma StepAlone(s: System, step: Step, u: System)
    requires Enabled(s, step) && StepEffect(s, step, u)
    ensures u.history == s.history + StepEntry(s, step)
    ensures forall o :: o != "" ==> Slice(u.store, o) == Alone(StepEntry(s, step), o, Slice(s.store, o))
  {
    hide Slice, LeftBy, Enabled, Completes, Last, Neat;
    var entry := StepEntry(s, step);
    forall o { LastOne(entry, o); }
    assert s.history + [] == s.history;
  }

  lemma AloneAppend(a: seq<Done>, b: seq<Done>, owner: string, initial: Store)
    ensures Alone(a + b, owner, initial) == Alone(b, owner, Alone(a, owner, initial))
  {
    hide Last, LeftBy;
    LastAppend(a, b, owner);
  }

  lemma HistoryJoin(s: seq<Done>, u: seq<Done>, t: seq<Done>, entry: seq<Done>)
    requires |u| <= |t| && t == u + t[|u|..] && u == s + entry
    ensures |s| <= |t| && t[|s|..] == entry + t[|u|..] && t == s + t[|s|..]
  {
  }

  lemma LastOne(history: seq<Done>, owner: string)
    ensures history == [] ==> Last(history, owner) == None
    ensures |history| == 1 ==> Last(history, owner) == if history[0].owner == owner then Some(history[0].op) else None
  {
  }

  lemma FirstStepThenRest(s: System, trace: seq<Step>, u: System, t: System)
    requires trace != [] && Enabled(s, trace[0]) && StepEffect(s, trace[0], u) && Outcome(u, trace[1..], t)
    ensures Outcome(s, trace, t)
  {
    hide Slice, Enabled, StepEntry, StepEffect, Alone, ForeignStep, AllNeat;
    StepAlone(s, trace[0], u);
    StepForeign(s, trace[0], u);
    HistoryJoin(s.history, u.history, t.history, StepEntry(s, trace[0]));
    NeatJoin(StepEntry(s, trace[0]), Since(u, t));
    forall o | o != "" ensures Slice(t.store, o) == Alone(Since(s, t), o, Slice(s.store, o)) {
      AloneAppend(StepEntry(s, trace[0]), Since(u, t), o, Slice(s.store, o));
    }
  }

  lemma NeatJoin(a: seq<Done>, b: seq<Done>)
    ensures AllNeat(a + b) ==> AllNeat(a) && AllNeat(b)
  {
    hide Neat;
    if AllNeat(a + b) {
      forall i | 0 <= i < |a| ensures Neat(a[i].op) { assert (a + b)[i] == a[i]; }
      forall i | 0 <= i < |b| ensures Neat(b[i].op) { assert (a + b)[|a| + i] == b[i]; }
    }
  }

  lemma StepForeign(s: System, step: Step, u: System)
    requires Enabled(s, step) && StepEffect(s, step, u)
    ensures AllNeat(StepEntry(s, step)) ==> Slice(u.store, "") == ForeignStep(step, Slice(s.store, ""))
  {
    hide Slice, LeftBy, Enabled, Completes, Neat;
    if !step.Foreign? && Completes(s, step).Some? {
      assert StepEntry(s, step)[0].op == Completes(s, step).value;
    }
  }

  /** Every interleaving of the two-step operations of any number of owners has this outcome. */
  lemma {:induction false} EveryInterleaving(s: System, trace: seq<Step>, t: System)
    requires Inv(s) && Runs(s, trace, t)
    ensures Inv(t) && Outcome(s, trace, t)
    decreases |trace|
  {
    hide Inv, Outcome, StepEffect, Enabled, Next;
    if trace == [] {
      NoSteps(s);
    } else {
      StepKeeps(s, trace[0]);
      EveryInterleaving(Next(s, trace[0]), trace[1..], t);
      FirstStepThenRest(s, trace, Next(s, trace[0]), t);
    }
  }

  lemma NoSteps(s: System)
    ensures Outcome(s, [], s)
  {
    hide Slice;
    assert s.history + [] == s.history;
  }

  /** So only each owner's last completed operation and the foreign edits matter: two runs from
      one state that agree on those end with the same keys of every owner, however their steps
      interleaved, and in the same store if none of their operations had a line break in it. */
  lemma OrderDoesNotMatter(s: System, trace: seq<Step>, t: System, trace': seq<Step>, t': System)
    requires Inv(s) && Runs(s, trace, t) && Runs(s, trace', t')
    requires forall o :: Last(Since(s, t), o) == Last(Since(s, t'), o)
    ensures forall o :: o != "" ==> Slice(t.store, o) == Slice(t'.store, o)
    ensures AllNeat(Since(s, t)) && AllNeat(Since(s, t')) && ForeignOnly(trace, Slice(s.store, "")) == ForeignOnly(trace', Slice(s.store, "")) ==>
              t.store == t'.store
  {
    hide *;
    EveryInterleaving(s, trace, t);
    EveryInterleaving(s, trace', t');
    SameOutcome(s, trace, t, trace', t');
    if AllNeat(Since(s, t)) && AllNeat(Since(s, t')) && ForeignOnly(trace, Slice(s.store, "")) == ForeignOnly(trace', Slice(s.store, "")) {
      SlicesDetermine(t.store, t'.store);
    }
  }

  lemma SameOutcome(s: System, trace: seq<Step>, t: System, trace': seq<Step>, t': System)
    requires Outcome(s, trace, t) && Outcome(s, trace', t')
    requires forall o :: Last(Since(s, t), o) == Last(Since(s, t'), o)
    ensures forall o :: o != "" ==> Slice(t.store, o) == Slice(t'.store, o)
    ensures AllNeat(Since(s, t)) && AllNeat(Since(s, t')) && ForeignOnly(trace, Slice(s.store, "")) == ForeignOnly(trace', Slice(s.store, "")) ==>
              forall o :: Slice(t.store, o) == Slice(t'.store, o)
  {
    hide Slice, ForeignOnly, Since, LeftBy, Last, AllNeat;
  }

  // ---- the two steps are the operation ----

  ghost function Operation(store: Store, owner: string, op: Op, order: seq<string>): Store {
    if op.Apply? then ApplyResult(store, owner, op.spec, Surroundings(true, false, false, false, order)).0
    else RemoveResult(store, owner, Surroundings(true, false, false, false, order)).0
  }

  /** Undisturbed, an owner's two steps (or the first alone, when there is nothing to do) change the
      store as its operation does, and it is completed. */
  lemma TwoStepsAreTheOperation(s: System, owner: string, op: Op, order: seq<string>)
    requires Inv(s) && CleanWord(owner) && owner !in s.flights && CleanOp(op) && Enumerates(order, s.store) && !ListFails(s.store)
    ensures Enabled(s, List(owner, op, order))
    ensures var s1 := Next(s, List(owner, op, order));
            && s1.store == s.store
            && (owner !in s1.flights ==> s1.history == s.history + [Done(owner, op)] && s.store == Operation(s.store, owner, op, order))
            && (owner in s1.flights ==>
                  && Enabled(s1, Script(owner, order))
                  && var s2 := Next(s1, Script(owner, order));
                  && s2.history == s.history + [Done(owner, op)] && s2.flights == s.flights
                  && s2.store == Operation(s.store, owner, op, order))
  {
    hide Inv, StaleKeys, ListOutput, LooksFailed, Slice, Layout, RunScript, ScriptOf, CleanWord, CleanOp, Enumerates, Printable, Operation, ListFails, Current;
    var stale := StaleKeys(s.store, order, owner);
    ListsCurrent(s, owner, order);
    NoBlank(owner);
    if NothingToDo(owner, op, stale) { OperationIdle(s.store, owner, op, order, stale); }
    if !NothingToDo(owner, op, stale) { OperationRuns(s.store, owner, op, order, stale); }
    assert s.flights[owner := Flight(op, stale)] - {owner} == s.flights;
  }

  lemma ListsCurrent(s: System, owner: string, order: seq<string>)
    requires Inv(s) && CleanWord(owner) && Enumerates(order, s.store) && !ListFails(s.store)
    ensures !LooksFailed(ListOutput(s.store, order)) && Current(s.store, owner, StaleKeys(s.store, order, owner))
  {
    hide StaleKeys, ListOutput, LooksFailed, Slice, Enumerates, Printable, ListFails;
    NoBlank(owner);
    ListStepExact(s.store, order, owner);
  }

  lemma OperationIdle(store: Store, owner: string, op: Op, order: seq<string>, stale: seq<string>)
    requires Current(store, owner, stale) && !ListFails(store) && NothingToDo(owner, op, stale)
    ensures Operation(store, owner, op, order) == store
  {
    hide Slice, Layout, ListFails, Written, LooksFailed, Put, Enumerates;
    EmptyElements(stale);
  }

  lemma OperationRuns(store: Store, owner: string, op: Op, order: seq<string>, stale: seq<string>)
    requires Current(store, owner, stale) && !ListFails(store) && CleanWord(owner) && !NothingToDo(owner, op, stale) && Enumerates(order, store)
    ensures RunScript(store, order, ScriptOf(owner, Flight(op, stale))).store == Operation(store, owner, op, order)
  {
    hide Slice, Layout, ListFails, Written, LooksFailed, Put, Enumerates, RunScript, Unlines, ApplyLines, CleanWord, Distinct, Elements;
    EmptyElements(stale);
    if op.Apply? {
      ApplyScriptWrites(store, order, stale, owner, op.spec);
    } else {
      NoBlank(owner);
      CurrentFree(store, stale, owner);
      RemoveScriptPuts(store, order, stale, owner);
    }
  }
}

/** Overlapping ranges and routes, and the findings shown for one instance
    (internal/preflight/preflight.go:53-64, internal/preflight/routes.go:38-55,
    internal/ops/preflight.go:85-149). */
module Preflight {
  import opened Text
  import opened Addresses
  import DnsConflicts

  datatype Net = Net(instanceName: string, prefix: Prefix)

  datatype Route = Route(instanceName: string, prefix: Prefix, selected: bool)

  /** The two lists that are compared pair by pair. */
  datatype Board = Nets(nets: seq<Net>) | Routes(routes: seq<Route>) {
    predicate Valid() {
      match this
      case Nets(ns) => forall i :: 0 <= i < |ns| ==> ns[i].prefix.Valid()
      case Routes(rs) => forall i :: 0 <= i < |rs| ==> rs[i].prefix.Valid()
    }

    function Size(): nat {
      match this
      case Nets(ns) => |ns|
      case Routes(rs) => |rs|
    }

    /** Ranges conflict when they overlap; routes only between instances and when both are selected. */
    predicate Hit(i: nat, j: nat)
      requires Valid() && i < Size() && j < Size()
    {
      match this
      case Nets(ns) => Overlaps(ns[i].prefix, ns[j].prefix)
      case Routes(rs) =>
        rs[i].instanceName != rs[j].instanceName && rs[i].selected && rs[j].selected && Overlaps(rs[i].prefix, rs[j].prefix)
    }
  }

  /** The hits from position (i, j) on, row by row. */
  function HitsFrom(b: Board, i: nat, j: nat): seq<(nat, nat)>
    requires b.Valid()
    decreases b.Size() - i, b.Size() - j
  {
    if i >= b.Size() then []
    else if j >= b.Size() then HitsFrom(b, i + 1, i + 2)
    else (if b.Hit(i, j) then [(i, j)] else []) + HitsFrom(b, i, j + 1)
  }

  function Hits(b: Board): seq<(nat, nat)>
    requires b.Valid()
  {
    HitsFrom(b, 0, 1)
  }

  predicate RowOrder(p: (nat, nat), q: (nat, nat)) {
    p.0 < q.0 || (p.0 == q.0 && p.1 < q.1)
  }

  /** A hit at (i, j) or after it in row order. */
  predicate HitFrom(b: Board, i: nat, j: nat, p: (nat, nat))
    requires b.Valid()
  {
    (i < p.0 || (i == p.0 && j <= p.1)) && p.0 < p.1 < b.Size() && b.Hit(p.0, p.1)
  }

  predicate InRowOrder(ps: seq<(nat, nat)>) {
    forall k, l :: 0 <= k < l < |ps| ==> RowOrder(ps[k], ps[l])
  }

  lemma HitsStep(b: Board, i: nat, j: nat, p: (nat, nat))
    requires b.Valid() && i < j
    ensures i >= b.Size() ==> !HitFrom(b, i, j, p)
    ensures i < b.Size() <= j ==> (HitFrom(b, i, j, p) <==> HitFrom(b, i + 1, i + 2, p))
    ensures i < b.Size() && j < b.Size() ==> (HitFrom(b, i, j, p) <==> (b.Hit(i, j) && p == (i, j)) || HitFrom(b, i, j + 1, p))
    ensures HitFrom(b, i, j + 1, p) ==> RowOrder((i, j), p)
  {
    hide Overlaps;
    assert p == (p.0, p.1);
  }

  lemma {:induction false} HitsFromExact(b: Board, i: nat, j: nat)
    requires b.Valid() && i < j
    ensures forall p :: p in HitsFrom(b, i, j) <==> HitFrom(b, i, j, p)
    ensures InRowOrder(HitsFrom(b, i, j))
    decreases b.Size() - i, b.Size() - j
  {
    hide Overlaps, HitFrom, RowOrder;
    forall p { HitsStep(b, i, j, p); }
    if i < b.Size() {
      if j >= b.Size() {
        HitsFromExact(b, i + 1, i + 2);
      } else {
        HitsFromExact(b, i, j + 1);
        PrependHit((i, j), HitsFrom(b, i, j + 1), b.Hit(i, j));
      }
    }
  }

  lemma PrependHit(p: (nat, nat), rest: seq<(nat, nat)>, hit: bool)
    requires InRowOrder(rest) && forall q :: q in rest ==> RowOrder(p, q)
    ensures var all := (if hit then [p] else []) + rest;
            InRowOrder(all) && forall q :: q in all <==> (hit && q == p) || q in rest
  {
    hide RowOrder;
    var all := (if hit then [p] else []) + rest;
    if !hit { assert all == rest; }
    assert forall k :: 0 <= k < |rest| ==> rest[k] in rest;
  }

  /** Every qualifying pair is listed, once, in row order, and nothing else is. */
  lemma HitsExact(b: Board)
    requires b.Valid()
    ensures forall p :: p in Hits(b) <==> p.0 < p.1 < b.Size() && b.Hit(p.0, p.1)
    ensures InRowOrder(Hits(b))
  {
    HitsFromExact(b, 0, 1);
    hide HitsFrom, Overlaps;
  }

  method ListHits(b: Board) returns (out: seq<(nat, nat)>)
    requires b.Valid()
    ensures out == Hits(b)
  {
    hide Overlaps, HitsFrom;
    out := [];
    assert out + HitsFrom(b, 0, 1) == Hits(b);
    var i := 0;
    while i < b.Size()
      invariant out + HitsFrom(b, i, i + 1) == Hits(b)
    {
      var j := i + 1;
      while j < b.Size()
        invariant i < j
        invariant out + HitsFrom(b, i, j) == Hits(b)
      {
        HitsTurn(b, i, j, out);
        if b.Hit(i, j) {
          out := out + [(i, j)];
        }
        j := j + 1;
      }
      HitsTurn(b, i, j, out);
      i := i + 1;
    }
    HitsTurn(b, i, i + 1, out);
  }

  /** What remains to be listed, one position on. */
  lemma HitsTurn(b: Board, i: nat, j: nat, out: seq<(nat, nat)>)
    requires b.Valid()
    ensures out + HitsFrom(b, i, j) ==
            if i >= b.Size() then out
            else if j >= b.Size() then out + HitsFrom(b, i + 1, i + 2)
            else (if b.Hit(i, j) then out + [(i, j)] else out) + HitsFrom(b, i, j + 1)
  {
    hide Overlaps;
    if i < b.Size() && j < b.Size() {
      var rest := HitsFrom(b, i, j + 1);
      assert out + ([(i, j)] + rest) == (out + [(i, j)]) + rest && [] + rest == rest;
    }
  }

  datatype RangeConflict = RangeConflict(a: Net, b: Net)

  method IPRangeConflicts(nets: seq<Net>) returns (out: seq<RangeConflict>)
    requires Nets(nets).Valid()
    ensures |out| == |Hits(Nets(nets))|
    ensures forall k :: 0 <= k < |out| ==>
              var p := Hits(Nets(nets))[k];
              p.0 < p.1 < |nets| && Overlaps(nets[p.0].prefix, nets[p.1].prefix) && out[k] == RangeConflict(nets[p.0], nets[p.1])
    ensures out == [] <==> forall i, j :: 0 <= i < j < |nets| ==> !Overlaps(nets[i].prefix, nets[j].prefix)
  {
    NetHits(nets);
    hide Overlaps, Hits;
    var hits := ListHits(Nets(nets));
    out := [];
    for k := 0 to |hits|
      invariant |out| == k
      invariant forall l :: 0 <= l < k ==> out[l] == RangeConflict(nets[hits[l].0], nets[hits[l].1])
    {
      out := out + [RangeConflict(nets[hits[k].0], nets[hits[k].1])];
    }
  }

  datatype RouteConflict = RouteConflict(a: Route, b: Route)

  method RouteConflicts(routes: seq<Route>) returns (out: seq<RouteConflict>)
    requires Routes(routes).Valid()
    ensures |out| == |Hits(Routes(routes))|
    ensures forall k :: 0 <= k < |out| ==>
              var p := Hits(Routes(routes))[k];
              && p.0 < p.1 < |routes| && out[k] == RouteConflict(routes[p.0], routes[p.1])
              && routes[p.0].instanceName != routes[p.1].instanceName && routes[p.0].selected && routes[p.1].selected
              && Overlaps(routes[p.0].prefix, routes[p.1].prefix)
  {
    RouteHits(routes);
    hide Overlaps, Hits;
    var hits := ListHits(Routes(routes));
    out := [];
    for k := 0 to |hits|
      invariant |out| == k
      invariant forall l :: 0 <= l < k ==> out[l] == RouteConflict(routes[hits[l].0], routes[hits[l].1])
    {
      out := out + [RouteConflict(routes[hits[k].0], routes[hits[k].1])];
    }
  }

  lemma RouteHits(routes: seq<Route>)
    requires Routes(routes).Valid()
    ensures forall k :: 0 <= k < |Hits(Routes(routes))| ==>
              var p := Hits(Routes(routes))[k];
              && p.0 < p.1 < |routes|
              && routes[p.0].instanceName != routes[p.1].instanceName && routes[p.0].selected && routes[p.1].selected
              && Overlaps(routes[p.0].prefix, routes[p.1].prefix)
  {
    forall k | 0 <= k < |Hits(Routes(routes))| { HitAt(Routes(routes), k); }
    hide Hits, Overlaps;
  }

  lemma NetHits(nets: seq<Net>)
    requires Nets(nets).Valid()
    ensures var hits := Hits(Nets(nets));
            && (forall k :: 0 <= k < |hits| ==>
                  hits[k].0 < hits[k].1 < |nets| && Overlaps(nets[hits[k].0].prefix, nets[hits[k].1].prefix))
            && (hits == [] <==> forall i, j :: 0 <= i < j < |nets| ==> !Overlaps(nets[i].prefix, nets[j].prefix))
  {
    forall k | 0 <= k < |Hits(Nets(nets))|
      ensures var p := Hits(Nets(nets))[k];
              p.0 < p.1 < |nets| && Overlaps(nets[p.0].prefix, nets[p.1].prefix)
    {
      HitAt(Nets(nets), k);
    }
    NoHits(Nets(nets));
    hide Hits, Overlaps;
    assert forall i: nat, j: nat :: i < j < |nets| ==> (Nets(nets).Hit(i, j) <==> Overlaps(nets[i].prefix, nets[j].prefix));
  }

  lemma HitAt(b: Board, k: nat)
    requires b.Valid() && k < |Hits(b)|
    ensures Hits(b)[k].0 < Hits(b)[k].1 < b.Size() && b.Hit(Hits(b)[k].0, Hits(b)[k].1)
  {
    HitsExact(b);
    assert Hits(b)[k] in Hits(b);
  }

  lemma NoHits(b: Board)
    requires b.Valid()
    ensures Hits(b) == [] <==> forall i, j :: 0 <= i < j < b.Size() ==> !b.Hit(i, j)
  {
    HitsExact(b);
    if Hits(b) != [] { HitAt(b, 0); }
    hide Hits, Overlaps;
    forall i: nat, j: nat | i < j < b.Size() && Hits(b) == [] ensures !b.Hit(i, j) {
      assert (i, j) !in Hits(b);
    }
  }

  // ---- findings shown for one instance ----

  /** What the preflight knows of one running instance. */
  datatype Snapshot = Snapshot(name: string, iface: string, net: Option<Net>, routes: seq<Route>, intent: DnsConflicts.Intent)

  datatype Finding =
    | RangeFinding(a: Net, b: Net)
    | RouteFinding(ra: Route, rb: Route, winner: string)
    | DnsFinding(fight: DnsConflicts.Conflict)

  function NetsOf(snaps: seq<Snapshot>): seq<Net> {
    if snaps == [] then []
    else NetsOf(snaps[..|snaps| - 1]) + (match snaps[|snaps| - 1].net case Some(n) => [n] case None => [])
  }

  function RoutesOf(snaps: seq<Snapshot>): seq<Route> {
    if snaps == [] then [] else RoutesOf(snaps[..|snaps| - 1]) + snaps[|snaps| - 1].routes
  }

  function IntentsOf(snaps: seq<Snapshot>): seq<DnsConflicts.Intent> {
    seq(|snaps|, i requires 0 <= i < |snaps| => snaps[i].intent)
  }

  /** The instance last recorded on an interface, "" if there is none. */
  function OwnerOfInterface(snaps: seq<Snapshot>, iface: string): string {
    if snaps == [] || iface == "" then ""
    else if snaps[|snaps| - 1].iface == iface then snaps[|snaps| - 1].name
    else OwnerOfInterface(snaps[..|snaps| - 1], iface)
  }

  /** Who gets the traffic: the owner of the interface the OS picks for the probe address. */
  function Winner(snaps: seq<Snapshot>, osRoute: map<Addr, string>, a: Route, b: Route): string {
    var probe := Probe(a.prefix, b.prefix).addr;
    if probe in osRoute then OwnerOfInterface(snaps, osRoute[probe]) else ""
  }

  /** An empty name asks for everything. */
  predicate Involves(name: string, instances: seq<string>) {
    name == "" || name in instances
  }

  ghost predicate Reported(snaps: seq<Snapshot>, name: string, osRoute: map<Addr, string>, f: Finding)
    requires Nets(NetsOf(snaps)).Valid() && Routes(RoutesOf(snaps)).Valid()
  {
    match f
    case RangeFinding(a, b) =>
      && Involves(name, [a.instanceName, b.instanceName])
      && (exists p :: p in Hits(Nets(NetsOf(snaps))) && p.0 < |NetsOf(snaps)| && p.1 < |NetsOf(snaps)|
                      && a == NetsOf(snaps)[p.0] && b == NetsOf(snaps)[p.1])
    case RouteFinding(a, b, winner) =>
      && Involves(name, [a.instanceName, b.instanceName])
      && winner == Winner(snaps, osRoute, a, b)
      && (exists p :: p in Hits(Routes(RoutesOf(snaps))) && p.0 < |RoutesOf(snaps)| && p.1 < |RoutesOf(snaps)|
                      && a == RoutesOf(snaps)[p.0] && b == RoutesOf(snaps)[p.1])
    case DnsFinding(c) => Involves(name, c.instances) && c in DnsConflicts.Report(IntentsOf(snaps))
  }

  method Gather(snaps: seq<Snapshot>)
    returns (nets: seq<Net>, routes: seq<Route>, intents: seq<DnsConflicts.Intent>, ifaceOwner: map<string, string>)
    ensures nets == NetsOf(snaps) && routes == RoutesOf(snaps) && intents == IntentsOf(snaps)
    ensures forall iface :: OwnerOfInterface(snaps, iface) == if iface in ifaceOwner then ifaceOwner[iface] else ""
  {
    nets, routes, intents, ifaceOwner := [], [], [], map[];
    for i := 0 to |snaps|
      invariant nets == NetsOf(snaps[..i]) && routes == RoutesOf(snaps[..i]) && intents == IntentsOf(snaps[..i])
      invariant forall iface :: OwnerOfInterface(snaps[..i], iface) == if iface in ifaceOwner then ifaceOwner[iface] else ""
    {
      var s := snaps[i];
      assert snaps[..i + 1][..i] == snaps[..i];
      if s.net.Some? {
        nets := nets + [s.net.value];
      }
      routes := routes + s.routes;
      intents := intents + [s.intent];
      if s.iface != "" {
        ifaceOwner := ifaceOwner[s.iface := s.name];
      }
    }
    assert snaps[..|snaps|] == snaps;
  }

  // ---- the findings in order ----

  function RangeConflictsOf(nets: seq<Net>): seq<RangeConflict>
    requires Nets(nets).Valid()
  {
    var hits := Hits(Nets(nets));
    seq(|hits|, k requires 0 <= k < |hits| =>
      HitAt(Nets(nets), k); RangeConflict(nets[hits[k].0], nets[hits[k].1]))
  }

  function RouteConflictsOf(routes: seq<Route>): seq<RouteConflict>
    requires Routes(routes).Valid()
  {
    var hits := Hits(Routes(routes));
    seq(|hits|, k requires 0 <= k < |hits| =>
      HitAt(Routes(routes), k); RouteConflict(routes[hits[k].0], routes[hits[k].1]))
  }

  function RangeFindingsOf(cs: seq<RangeConflict>): seq<Finding> {
    seq(|cs|, k requires 0 <= k < |cs| => RangeFinding(cs[k].a, cs[k].b))
  }

  function RouteFindingsOf(cs: seq<RouteConflict>, snaps: seq<Snapshot>, osRoute: map<Addr, string>): seq<Finding> {
    seq(|cs|, k requires 0 <= k < |cs| => RouteFinding(cs[k].a, cs[k].b, Winner(snaps, osRoute, cs[k].a, cs[k].b)))
  }

  function DnsFindingsOf(cs: seq<DnsConflicts.Conflict>): seq<Finding> {
    seq(|cs|, k requires 0 <= k < |cs| => DnsFinding(cs[k]))
  }

  /** The instances a finding is about. */
  function Concerned(f: Finding): seq<string> {
    match f
    case RangeFinding(a, b) => [a.instanceName, b.instanceName]
    case RouteFinding(a, b, _) => [a.instanceName, b.instanceName]
    case DnsFinding(fight) => fight.instances
  }

  /** The findings shown for a name, in order. */
  function Shown(fs: seq<Finding>, name: string): seq<Finding> {
    if fs == [] then []
    else
      var f := fs[|fs| - 1];
      Shown(fs[..|fs| - 1], name) + (if Involves(name, Concerned(f)) then [f] else [])
  }

  lemma {:induction false} ShownExact(fs: seq<Finding>, name: string)
    ensures forall f :: f in Shown(fs, name) <==> f in fs && Involves(name, Concerned(f))
  {
    hide Concerned, Involves;
    if fs != [] {
      ShownExact(fs[..|fs| - 1], name);
      assert fs == fs[..|fs| - 1] + [fs[|fs| - 1]];
    }
  }

  lemma ShownTurn(fs: seq<Finding>, name: string, k: nat)
    requires k < |fs|
    ensures Shown(fs[..k + 1], name) == Shown(fs[..k], name) + (if Involves(name, Concerned(fs[k])) then [fs[k]] else [])
  {
    hide Concerned, Involves;
    assert fs[..k + 1][..k] == fs[..k];
  }

  /** Range conflicts first, then route conflicts, both in row order, then DNS fights. */
  ghost function Findings(snaps: seq<Snapshot>, name: string, osRoute: map<Addr, string>): seq<Finding>
    requires Nets(NetsOf(snaps)).Valid() && Routes(RoutesOf(snaps)).Valid()
  {
    Shown(RangeFindingsOf(RangeConflictsOf(NetsOf(snaps))), name) +
    Shown(RouteFindingsOf(RouteConflictsOf(RoutesOf(snaps)), snaps, osRoute), name) +
    Shown(DnsFindingsOf(DnsConflicts.Report(IntentsOf(snaps))), name)
  }

  /** All findings that involve the named instance, in order. */
  method ConflictsInvolving(snaps: seq<Snapshot>, name: string, osRoute: map<Addr, string>) returns (out: seq<Finding>)
    requires Nets(NetsOf(snaps)).Valid() && Routes(RoutesOf(snaps)).Valid()
    ensures out == Findings(snaps, name, osRoute)
  {
    hide Hits, Involves, Winner, DnsConflicts.Report, Shown, RangeConflictsOf, RouteConflictsOf;
    var nets, routes, intents, ifaceOwner := Gather(snaps);
    var ranges := RangeFindings(nets, name);
    var routed := RouteFindings(snaps, routes, name, osRoute, ifaceOwner);
    var fights := DnsFindings(intents, name);
    out := ranges + routed + fights;
  }

  method RangeFindings(nets: seq<Net>, name: string) returns (out: seq<Finding>)
    requires Nets(nets).Valid()
    ensures out == Shown(RangeFindingsOf(RangeConflictsOf(nets)), name)
  {
    hide Hits, Involves, Overlaps, Shown, Concerned;
    var conflicts := IPRangeConflicts(nets);
    assert conflicts == RangeConflictsOf(nets);
    ghost var all := RangeFindingsOf(conflicts);
    NothingShown(all, name);
    out := [];
    for k := 0 to |conflicts|
      invariant out == Shown(all[..k], name)
    {
      ShownTurn(all, name, k);
      ConcernedPair(all[k]);
      var a, b := conflicts[k].a, conflicts[k].b;
      if Involves(name, [a.instanceName, b.instanceName]) {
        out := out + [RangeFinding(a, b)];
      }
    }
    assert all[..|conflicts|] == all;
  }

  lemma NothingShown(fs: seq<Finding>, name: string)
    ensures Shown(fs[..0], name) == []
  {
  }

  lemma ConcernedPair(f: Finding)
    ensures f.RangeFinding? ==> Concerned(f) == [f.a.instanceName, f.b.instanceName]
    ensures f.RouteFinding? ==> Concerned(f) == [f.ra.instanceName, f.rb.instanceName]
    ensures f.DnsFinding? ==> Concerned(f) == f.fight.instances
  {
  }

  method RouteFindings(snaps: seq<Snapshot>, routes: seq<Route>, name: string, osRoute: map<Addr, string>,
                       ifaceOwner: map<string, string>) returns (out: seq<Finding>)
    requires Routes(routes).Valid()
    requires forall iface :: OwnerOfInterface(snaps, iface) == if iface in ifaceOwner then ifaceOwner[iface] else ""
    ensures out == Shown(RouteFindingsOf(RouteConflictsOf(routes), snaps, osRoute), name)
  {
    hide Hits, Involves, Overlaps, Shown, Concerned;
    var conflicts := RouteConflicts(routes);
    assert conflicts == RouteConflictsOf(routes);
    ghost var all := RouteFindingsOf(conflicts, snaps, osRoute);
    NothingShown(all, name);
    out := [];
    for k := 0 to |conflicts|
      invariant out == Shown(all[..k], name)
    {
      ShownTurn(all, name, k);
      ConcernedPair(all[k]);
      var a, b := conflicts[k].a, conflicts[k].b;
      if !Involves(name, [a.instanceName, b.instanceName]) {
        continue;
      }
      var probe := a.prefix;
      if b.prefix.bits > probe.bits {
        probe := b.prefix;
      }
      var winner := "";
      if probe.addr in osRoute && osRoute[probe.addr] in ifaceOwner {
        winner := ifaceOwner[osRoute[probe.addr]];
      }
      assert winner == Winner(snaps, osRoute, a, b);
      out := out + [RouteFinding(a, b, winner)];
    }
    assert all[..|conflicts|] == all;
  }

  method DnsFindings(intents: seq<DnsConflicts.Intent>, name: string) returns (out: seq<Finding>)
    ensures out == Shown(DnsFindingsOf(DnsConflicts.Report(intents)), name)
  {
    hide DnsConflicts.Report, Involves, Shown, Concerned;
    var fights := DnsConflicts.DNSConflicts(intents);
    ghost var all := DnsFindingsOf(fights);
    NothingShown(all, name);
    out := [];
    for k := 0 to |fights|
      invariant out == Shown(all[..k], name)
    {
      ShownTurn(all, name, k);
      ConcernedPair(all[k]);
      if Involves(name, fights[k].instances) {
        out := out + [DnsFinding(fights[k])];
      }
    }
    assert all[..|fights|] == all;
  }

  /** A finding is shown exactly when it is reported of a pair or a set of claimants that the named
      instance belongs to. */
  lemma FindingsExact(snaps: seq<Snapshot>, name: string, osRoute: map<Addr, string>, f: Finding)
    requires Nets(NetsOf(snaps)).Valid() && Routes(RoutesOf(snaps)).Valid()
    ensures f in Findings(snaps, name, osRoute) <==> Reported(snaps, name, osRoute, f)
  {
    hide NetsOf, RoutesOf, IntentsOf, Winner, DnsConflicts.Report, Involves, Shown, Hits, RangeConflictsOf, RouteConflictsOf;
    var ranges := RangeFindingsOf(RangeConflictsOf(NetsOf(snaps)));
    var routed := RouteFindingsOf(RouteConflictsOf(RoutesOf(snaps)), snaps, osRoute);
    var fights := DnsFindingsOf(DnsConflicts.Report(IntentsOf(snaps)));
    ShownExact(ranges, name);
    ShownExact(routed, name);
    ShownExact(fights, name);
    RangesIn(NetsOf(snaps), f);
    RoutesIn(RoutesOf(snaps), snaps, osRoute, f);
    FightsIn(DnsConflicts.Report(IntentsOf(snaps)), f);
    assert f in Findings(snaps, name, osRoute) <==> f in Shown(ranges, name) || f in Shown(routed, name) || f in Shown(fights, name);
  }

  lemma RangesIn(nets: seq<Net>, f: Finding)
    requires Nets(nets).Valid()
    ensures f in RangeFindingsOf(RangeConflictsOf(nets)) <==>
            f.RangeFinding? && exists p :: p in Hits(Nets(nets)) && p.0 < |nets| && p.1 < |nets| && f.a == nets[p.0] && f.b == nets[p.1]
  {
    var hits, fs := Hits(Nets(nets)), RangeFindingsOf(RangeConflictsOf(nets));
    hide Hits, Overlaps;
    forall p | f.RangeFinding? && p in hits && p.0 < |nets| && p.1 < |nets| && f.a == nets[p.0] && f.b == nets[p.1] ensures f in fs {
      var k :| 0 <= k < |hits| && hits[k] == p;
      assert fs[k] == f;
    }
    if f in fs {
      var k :| 0 <= k < |fs| && fs[k] == f;
      HitAt(Nets(nets), k);
      assert hits[k] in hits;
    }
  }

  lemma RoutesIn(routes: seq<Route>, snaps: seq<Snapshot>, osRoute: map<Addr, string>, f: Finding)
    requires Routes(routes).Valid()
    ensures f in RouteFindingsOf(RouteConflictsOf(routes), snaps, osRoute) <==>
            f.RouteFinding? && f.winner == Winner(snaps, osRoute, f.ra, f.rb) &&
            exists p :: p in Hits(Routes(routes)) && p.0 < |routes| && p.1 < |routes| && f.ra == routes[p.0] && f.rb == routes[p.1]
  {
    var hits, fs := Hits(Routes(routes)), RouteFindingsOf(RouteConflictsOf(routes), snaps, osRoute);
    hide Hits, Overlaps, Winner;
    forall p | f.RouteFinding? && f.winner == Winner(snaps, osRoute, f.ra, f.rb) &&
               p in hits && p.0 < |routes| && p.1 < |routes| && f.ra == routes[p.0] && f.rb == routes[p.1] ensures f in fs {
      var k :| 0 <= k < |hits| && hits[k] == p;
      assert fs[k] == f;
    }
    if f in fs {
      var k :| 0 <= k < |fs| && fs[k] == f;
      HitAt(Routes(routes), k);
      assert hits[k] in hits;
    }
  }

  lemma FightsIn(fights: seq<DnsConflicts.Conflict>, f: Finding)
    ensures f in DnsFindingsOf(fights) <==> f.DnsFinding? && f.fight in fights
  {
    if f.DnsFinding? && f.fight in fights {
      var k :| 0 <= k < |fights| && fights[k] == f.fight;
      assert DnsFindingsOf(fights)[k] == f;
    }
  }

  /** The address asked of the routing table for a reported route conflict lies in both routes,
      and the two instances differ. */
  lemma ProbeIsContested(snaps: seq<Snapshot>, name: string, osRoute: map<Addr, string>, f: Finding)
    requires Nets(NetsOf(snaps)).Valid() && Routes(RoutesOf(snaps)).Valid()
    requires Reported(snaps, name, osRoute, f) && f.RouteFinding?
    ensures f.ra.prefix.Valid() && f.rb.prefix.Valid() && f.ra.instanceName != f.rb.instanceName
    ensures var probe := Probe(f.ra.prefix, f.rb.prefix).addr; f.ra.prefix.Contains(probe) && f.rb.prefix.Contains(probe)
  {
    var routes := RoutesOf(snaps);
    HitsExact(Routes(routes));
    hide Hits, Winner, RoutesOf, NetsOf;
    var p :| p in Hits(Routes(routes)) && p.0 < |routes| && p.1 < |routes| && f.ra == routes[p.0] && f.rb == routes[p.1];
    assert Routes(routes).Hit(p.0, p.1);
    ProbeInBoth(f.ra.prefix, f.rb.prefix);
  }

  // ---- what a finding says, in terms of the snapshots ----

  /** Everything the snapshots know is compared, in their order, and nothing else. */
  lemma {:induction false} GatheredExactly(snaps: seq<Snapshot>, s: Snapshot)
    ensures NetsOf([]) == [] && RoutesOf([]) == [] && IntentsOf([]) == []
    ensures NetsOf(snaps + [s]) == NetsOf(snaps) + (if s.net.Some? then [s.net.value] else [])
    ensures RoutesOf(snaps + [s]) == RoutesOf(snaps) + s.routes
    ensures IntentsOf(snaps + [s]) == IntentsOf(snaps) + [s.intent]
  {
    assert (snaps + [s])[..|snaps|] == snaps;
  }

  predicate SomeNet(snaps: seq<Snapshot>, n: Net) {
    exists i :: 0 <= i < |snaps| && snaps[i].net == Some(n)
  }

  predicate SomeRoute(snaps: seq<Snapshot>, r: Route) {
    exists i :: 0 <= i < |snaps| && r in snaps[i].routes
  }

  lemma {:induction false} GatheredMembers(snaps: seq<Snapshot>, n: Net, r: Route)
    ensures n in NetsOf(snaps) <==> SomeNet(snaps, n)
    ensures r in RoutesOf(snaps) <==> SomeRoute(snaps, r)
    ensures |IntentsOf(snaps)| == |snaps| && forall i :: 0 <= i < |snaps| ==> IntentsOf(snaps)[i] == snaps[i].intent
  {
    if snaps != [] {
      var init, last := snaps[..|snaps| - 1], |snaps| - 1;
      GatheredMembers(init, n, r);
      assert forall i :: 0 <= i < last ==> init[i] == snaps[i];
      assert SomeNet(snaps, n) <==> SomeNet(init, n) || snaps[last].net == Some(n) by {
        if SomeNet(init, n) {
          var i :| 0 <= i < |init| && init[i].net == Some(n);
          assert snaps[i].net == Some(n);
        }
      }
      assert SomeRoute(snaps, r) <==> SomeRoute(init, r) || r in snaps[last].routes by {
        if SomeRoute(init, r) {
          var i :| 0 <= i < |init| && r in init[i].routes;
          assert r in snaps[i].routes;
        }
      }
    }
  }

  /** The address the operating system is asked about: that of the prefix with more bits, of the
      first one if they have the same. */
  function Asked(a: Route, b: Route): Addr {
    if b.prefix.bits > a.prefix.bits then b.prefix.addr else a.prefix.addr
  }

  /** The last snapshot that records an interface. */
  predicate LastOn(snaps: seq<Snapshot>, iface: string, i: int) {
    0 <= i < |snaps| && snaps[i].iface == iface && forall j :: i < j < |snaps| ==> snaps[j].iface != iface
  }

  lemma {:induction false} OwnerExact(snaps: seq<Snapshot>, iface: string)
    ensures iface != "" ==> forall i :: LastOn(snaps, iface, i) ==> OwnerOfInterface(snaps, iface) == snaps[i].name
    ensures iface == "" || (forall i :: 0 <= i < |snaps| ==> snaps[i].iface != iface) ==> OwnerOfInterface(snaps, iface) == ""
  {
    if snaps != [] && iface != "" && snaps[|snaps| - 1].iface != iface {
      var init := snaps[..|snaps| - 1];
      OwnerExact(init, iface);
      forall i | LastOn(snaps, iface, i) ensures LastOn(init, iface, i) {
        assert i != |snaps| - 1;
      }
    }
  }

  /** The winner named with a reported route conflict is the last instance recorded on the interface
      to which the operating system routes the narrower route's address; none if there is none. */
  lemma WinnerExact(snaps: seq<Snapshot>, name: string, osRoute: map<Addr, string>, f: Finding)
    requires Nets(NetsOf(snaps)).Valid() && Routes(RoutesOf(snaps)).Valid()
    requires f in Findings(snaps, name, osRoute) && f.RouteFinding?
    ensures var asked := Asked(f.ra, f.rb);
            && (asked !in osRoute || osRoute[asked] == "" || (forall i :: 0 <= i < |snaps| ==> snaps[i].iface != osRoute[asked]) ==> f.winner == "")
            && (asked in osRoute && osRoute[asked] != "" ==>
                  forall i :: LastOn(snaps, osRoute[asked], i) ==> f.winner == snaps[i].name)
  {
    hide Findings, NetsOf, RoutesOf, Hits, OwnerOfInterface, LastOn;
    FindingsExact(snaps, name, osRoute, f);
    var asked := Asked(f.ra, f.rb);
    if asked in osRoute { OwnerExact(snaps, osRoute[asked]); }
  }

  /** The instance asked about has a part in it; an empty name has a part in everything. */
  predicate Concerns(name: string, a: string, b: string) {
    name == "" || name == a || name == b
  }

  /** Which conflicts are shown: those of overlapping ranges, of overlapping selected routes of two
      instances, and of claims on DNS, that the instance asked about has a part in. */
  lemma ShownExactly(snaps: seq<Snapshot>, name: string, osRoute: map<Addr, string>)
    requires Nets(NetsOf(snaps)).Valid() && Routes(RoutesOf(snaps)).Valid()
    ensures forall a, b :: RangeFinding(a, b) in Findings(snaps, name, osRoute) <==>
              Concerns(name, a.instanceName, b.instanceName) && RangePair(NetsOf(snaps), a, b)
    ensures forall a, b :: (exists w :: RouteFinding(a, b, w) in Findings(snaps, name, osRoute)) <==>
              Concerns(name, a.instanceName, b.instanceName) && RoutePair(RoutesOf(snaps), a, b)
    ensures forall c :: DnsFinding(c) in Findings(snaps, name, osRoute) <==>
              (name == "" || name in c.instances) && c in DnsConflicts.Report(IntentsOf(snaps))
  {
    hide Findings, NetsOf, RoutesOf, IntentsOf, Hits, Winner, DnsConflicts.Report, Overlaps;
    forall a, b ensures RangeFinding(a, b) in Findings(snaps, name, osRoute) <==>
                        Concerns(name, a.instanceName, b.instanceName) && RangePair(NetsOf(snaps), a, b) {
      FindingsExact(snaps, name, osRoute, RangeFinding(a, b));
      RangePairHit(NetsOf(snaps), a, b);
    }
    forall a, b ensures (exists w :: RouteFinding(a, b, w) in Findings(snaps, name, osRoute)) <==>
                        Concerns(name, a.instanceName, b.instanceName) && RoutePair(RoutesOf(snaps), a, b) {
      RouteShown(snaps, name, osRoute, a, b);
    }
    forall c ensures DnsFinding(c) in Findings(snaps, name, osRoute) <==>
                     (name == "" || name in c.instances) && c in DnsConflicts.Report(IntentsOf(snaps)) {
      FindingsExact(snaps, name, osRoute, DnsFinding(c));
    }
  }

  lemma RouteShown(snaps: seq<Snapshot>, name: string, osRoute: map<Addr, string>, a: Route, b: Route)
    requires Nets(NetsOf(snaps)).Valid() && Routes(RoutesOf(snaps)).Valid()
    ensures (exists w :: RouteFinding(a, b, w) in Findings(snaps, name, osRoute)) <==>
            Concerns(name, a.instanceName, b.instanceName) && RoutePair(RoutesOf(snaps), a, b)
  {
    hide Findings, NetsOf, RoutesOf, Hits, Winner, Overlaps;
    RoutePairHit(RoutesOf(snaps), a, b);
    FindingsExact(snaps, name, osRoute, RouteFinding(a, b, Winner(snaps, osRoute, a, b)));
    if w :| RouteFinding(a, b, w) in Findings(snaps, name, osRoute) {
      FindingsExact(snaps, name, osRoute, RouteFinding(a, b, w));
    }
  }

  predicate RangePair(nets: seq<Net>, a: Net, b: Net)
    requires Nets(nets).Valid()
  {
    exists i, j :: 0 <= i < j < |nets| && nets[i] == a && nets[j] == b && Overlaps(nets[i].prefix, nets[j].prefix)
  }

  predicate RoutePair(routes: seq<Route>, a: Route, b: Route)
    requires Routes(routes).Valid()
  {
    exists i, j :: 0 <= i < j < |routes| && routes[i] == a && routes[j] == b &&
                   a.instanceName != b.instanceName && a.selected && b.selected && Overlaps(routes[i].prefix, routes[j].prefix)
  }

  lemma RangePairHit(nets: seq<Net>, a: Net, b: Net)
    requires Nets(nets).Valid()
    ensures RangePair(nets, a, b) <==> exists p :: p in Hits(Nets(nets)) && p.0 < |nets| && p.1 < |nets| && a == nets[p.0] && b == nets[p.1]
  {
    HitsExact(Nets(nets));
    hide Hits, Overlaps;
    if i, j :| 0 <= i < j < |nets| && nets[i] == a && nets[j] == b && Overlaps(nets[i].prefix, nets[j].prefix) {
      var p: (nat, nat) := (i, j);
      assert Nets(nets).Hit(i, j);
      assert p in Hits(Nets(nets));
    }
    if p :| p in Hits(Nets(nets)) && p.0 < |nets| && p.1 < |nets| && a == nets[p.0] && b == nets[p.1] {
      assert Nets(nets).Hit(p.0, p.1);
    }
  }

  lemma RoutePairHit(routes: seq<Route>, a: Route, b: Route)
    requires Routes(routes).Valid()
    ensures RoutePair(routes, a, b) <==>
            exists p :: p in Hits(Routes(routes)) && p.0 < |routes| && p.1 < |routes| && a == routes[p.0] && b == routes[p.1]
  {
    HitsExact(Routes(routes));
    hide Hits, Overlaps;
    if i, j :| 0 <= i < j < |routes| && routes[i] == a && routes[j] == b &&
               a.instanceName != b.instanceName && a.selected && b.selected && Overlaps(routes[i].prefix, routes[j].prefix) {
      var p: (nat, nat) := (i, j);
      assert Routes(routes).Hit(i, j);
      assert p in Hits(Routes(routes));
    }
    if p :| p in Hits(Routes(routes)) && p.0 < |routes| && p.1 < |routes| && a == routes[p.0] && b == routes[p.1] {
      assert Routes(routes).Hit(p.0, p.1);
    }
  }
}

/** The persisted record of an instance, the object commands work on, and the store that allots
    indices (internal/instance/instance.go:19-141, internal/instance/store.go:25-127). */
module Instances {
  import opened Text

  /** `Unset` is the empty mode of a record written before modes existed. */
  datatype Mode = Unset | Native | Multibird | Disabled

  /** Whether netbird's own host DNS must be off. */
  predicate DisableSys(m: Mode) {
    m != Native
  }

  const DEFAULT_BASE_PORT := 51900
  const STOCK_PORT := 51820

  datatype Record = Record(
    name: string, mgmt: string, setupKey: string, sso: bool, bin: string,
    index: int, wgPort: int, mode: Mode, legacyDisable: bool, loggedIn: bool, iface: string)

  /** The listen port: the override if there is one, else derived from the index. */
  function WGPort(r: Record): int {
    if r.wgPort == 0 then DEFAULT_BASE_PORT + r.index else r.wgPort
  }

  /** The mode a record stands for, whether or not it has been migrated. */
  function EffectiveMode(r: Record): Mode {
    if r.mode != Unset then r.mode else if r.legacyDisable then Disabled else Native
  }

  function Normalized(r: Record): Record {
    if r.mode != Unset then r else r.(mode := EffectiveMode(r), legacyDisable := false)
  }

  /** Migration fills the mode in, changes no effective setting, and is done after one time. */
  lemma NormalizeKeeps(r: Record)
    ensures Normalized(r).mode != Unset
    ensures EffectiveMode(Normalized(r)) == EffectiveMode(r) && WGPort(Normalized(r)) == WGPort(r)
    ensures Normalized(Normalized(r)) == Normalized(r)
  {
  }

  /** The object a command loads, changes and saves. */
  class Instance {
    var name: string
    var mgmt: string
    var setupKey: string
    var sso: bool
    var bin: string
    var index: int
    var wgPort: int
    var mode: Mode
    var legacyDisable: bool
    var loggedIn: bool
    var iface: string

    constructor (r: Record)
      ensures Rec() == r
    {
      name, mgmt, setupKey, sso, bin := r.name, r.mgmt, r.setupKey, r.sso, r.bin;
      index, wgPort, mode, legacyDisable := r.index, r.wgPort, r.mode, r.legacyDisable;
      loggedIn, iface := r.loggedIn, r.iface;
    }

    function Rec(): Record
      reads this
    {
      Record(name, mgmt, setupKey, sso, bin, index, wgPort, mode, legacyDisable, loggedIn, iface)
    }

    method Normalize() returns (changed: bool)
      modifies this
      ensures Rec() == Normalized(old(Rec()))
      ensures changed <==> old(mode) == Unset
    {
      if mode != Unset {
        return false;
      }
      if legacyDisable {
        mode := Disabled;
      } else {
        mode := Native;
      }
      legacyDisable := false;
      return true;
    }
  }

  // ---- index allocation ----

  type Records = map<string, Record>

  function UsedIndices(records: Records): set<int> {
    set n | n in records :: records[n].index
  }

  /** The lowest index that no record uses. */
  predicate LeastFree(records: Records, i: int) {
    && i >= 0
    && i !in UsedIndices(records)
    && forall j :: 0 <= j < i ==> j in UsedIndices(records)
  }

  function UpTo(k: nat): (s: set<int>)
    ensures |s| == k && forall i :: i in s <==> 0 <= i < k
  {
    if k == 0 then {} else UpTo(k - 1) + {k - 1}
  }

  lemma {:induction false} UsedAtMost(records: Records)
    ensures |UsedIndices(records)| <= |records|
    decreases |records|
  {
    if records != map[] {
      var n :| n in records;
      var rest := records - {n};
      UsedAtMost(rest);
      assert records.Keys == rest.Keys + {n};
      assert UsedIndices(records) == UsedIndices(rest) + {records[n].index} by {
        forall i | i in UsedIndices(records) ensures i in UsedIndices(rest) + {records[n].index} {
          var m :| m in records && records[m].index == i;
          if m != n { assert m in rest && rest[m].index == i; }
        }
      }
    } else {
      assert UsedIndices(records) == {};
    }
  }

  /** Pigeonhole: with every index below k in use there are at least k records. */
  lemma IndicesNeedRecords(records: Records, k: nat)
    requires forall j :: 0 <= j < k ==> j in UsedIndices(records)
    ensures k <= |records|
  {
    UsedAtMost(records);
    assert UpTo(k) <= UsedIndices(records);
    SubsetSize(UpTo(k), UsedIndices(records));
  }

  lemma SubsetSize(a: set<int>, b: set<int>)
    requires a <= b
    ensures |a| <= |b|
  {
    assert b == a + (b - a);
    assert a !! (b - a);
  }

  /** The index that the search finds. */
  function LowestIndex(records: Records): (n: int)
    ensures LeastFree(records, n) && n <= |records|
  {
    SearchFrom(records, 0)
  }

  function SearchFrom(records: Records, n: nat): (r: int)
    requires forall j :: 0 <= j < n ==> j in UsedIndices(records)
    ensures LeastFree(records, r) && r <= |records|
    decreases |records| - n
  {
    IndicesNeedRecords(records, n);
    if n !in UsedIndices(records) then n else (IndicesNeedRecords(records, n + 1); SearchFrom(records, n + 1))
  }

  lemma LeastFreeUnique(records: Records, i: int, j: int)
    requires LeastFree(records, i) && LeastFree(records, j)
    ensures i == j
  {
  }

  /** `list` holds the records in increasing order of their `names`. */
  predicate ListedAs(records: Records, names: seq<string>, list: seq<Record>) {
    && StrictlySorted(names) && Elements(names) == records.Keys
    && |names| == |list| == |records|
    && forall i :: 0 <= i < |list| ==> names[i] in records && list[i] == records[names[i]]
  }

  /** The records in increasing order of name. */
  ghost function InOrder(records: Records): (list: seq<Record>)
    ensures |list| == |SortedOf(records.Keys)|
    ensures forall i :: 0 <= i < |list| ==> SortedOf(records.Keys)[i] in records && list[i] == records[SortedOf(records.Keys)[i]]
  {
    var names := SortedOf(records.Keys);
    assert forall i :: 0 <= i < |names| ==> names[i] in Elements(names);
    seq(|names|, i requires 0 <= i < |names| => records[names[i]])
  }

  /** The store's records, one file each; a file's name is the record's. */
  class Store {
    var records: Records

    constructor (initial: Records)
      ensures records == initial
    {
      records := initial;
    }

    /** The names on file, in increasing order. */
    method Names() returns (names: seq<string>)
      ensures names == SortedOf(records.Keys) && |names| == |records|
    {
      hide StrictlySorted, Sort, Sorted, Elements, Distinct, SortedOf;
      names := [];
      NoNames();
      var todo := records.Keys;
      while todo != {}
        invariant Distinct(names) && Elements(names) !! todo && Elements(names) + todo == records.Keys
        invariant |names| + |todo| == |records|
        decreases |todo|
      {
        var n :| n in todo;
        OneMoreName(names, n);
        names := names + [n];
        todo := todo - {n};
      }
      SortDistinct(names);
      SortedSameLength(names);
      StrictUnique(Sort(names), SortedOf(records.Keys));
      names := Sort(names);
    }

    /** All records, in increasing order of name. */
    method List() returns (list: seq<Record>)
      ensures ListedAs(records, SortedOf(records.Keys), list) && list == InOrder(records)
    {
      var names := Names();
      list := [];
      for i := 0 to |names|
        invariant |list| == i && forall j :: 0 <= j < i ==> names[j] in records && list[j] == records[names[j]]
      {
        assert names[i] in Elements(names);
        list := list + [records[names[i]]];
      }
    }

    /** The lowest free index; the search ends because only |records| indices can be in use. */
    method NextIndex() returns (n: int)
      ensures LeastFree(records, n) && n <= |records|
    {
      var list := List();
      var used := UsedBy(list);
      ListedIndices(records, SortedOf(records.Keys), list);
      n := FirstUnused(records, used);
    }
  }

  lemma NoNames()
    ensures Distinct([]) && Elements([]) == {}
  {
  }

  lemma OneMoreName(names: seq<string>, n: string)
    requires Distinct(names) && n !in Elements(names)
    ensures Distinct(names + [n]) && Elements(names + [n]) == Elements(names) + {n}
  {
  }

  method FirstUnused(records: Records, used: set<int>) returns (n: int)
    requires used == UsedIndices(records)
    ensures LeastFree(records, n) && n <= |records|
  {
    hide UsedIndices;
    n := 0;
    while n in used
      invariant 0 <= n <= |records| && forall j :: 0 <= j < n ==> j in used
      decreases |records| - n
    {
      IndicesNeedRecords(records, n + 1);
      n := n + 1;
    }
  }

  method UsedBy(list: seq<Record>) returns (used: set<int>)
    ensures used == IndexSet(list)
  {
    used := {};
    for i := 0 to |list|
      invariant used == IndexSet(list[..i])
    {
      assert list[..i + 1][..i] == list[..i];
      used := used + {list[i].index};
    }
    assert list[..|list|] == list;
  }

  lemma SortedSameLength(names: seq<string>)
    ensures |Sort(names)| == |names|
  {
    SortSpec(names);
    assert |multiset(Sort(names))| == |multiset(names)|;
  }

  function IndexSet(list: seq<Record>): set<int> {
    if list == [] then {} else IndexSet(list[..|list| - 1]) + {list[|list| - 1].index}
  }

  lemma {:induction false} IndexSetMember(list: seq<Record>, x: int)
    ensures x in IndexSet(list) <==> exists j :: 0 <= j < |list| && list[j].index == x
  {
    if list != [] {
      var init := list[..|list| - 1];
      IndexSetMember(init, x);
      if x in IndexSet(init) {
        var j :| 0 <= j < |init| && init[j].index == x;
        assert list[j].index == x;
      }
      forall j | 0 <= j < |list| && list[j].index == x ensures x in IndexSet(list) {
        if j < |init| { assert init[j].index == x; }
      }
    }
  }

  lemma ListedIndices(records: Records, names: seq<string>, list: seq<Record>)
    requires ListedAs(records, names, list)
    ensures IndexSet(list) == UsedIndices(records)
  {
    hide StrictlySorted, IndexSet;
    forall i | i in UsedIndices(records) ensures i in IndexSet(list) {
      var n :| n in records && records[n].index == i;
      assert n in Elements(names);
      var j :| 0 <= j < |names| && names[j] == n;
      assert list[j].index == i;
      IndexSetMember(list, i);
    }
    forall i | i in IndexSet(list) ensures i in UsedIndices(records) {
      IndexSetMember(list, i);
      var j :| 0 <= j < |list| && list[j].index == i;
      assert names[j] in records;
    }
  }
}

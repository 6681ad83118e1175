/** The command line's output rules: the log filter chosen by the `-v`
    count, the normalised form in which states are printed (interfaces
    sorted by name, `name` and `type` first in each), and the interface
    filter of `show`. */
module Nmstatectl {
  import opened Common
  import opened IfaceData
  import opened Json
  import opened IfaceJson
  import opened NetStateData
  import opened NmConn
  import opened NetState
  import opened Seqs
  import opened NameSort

  // ---------------------------------------------------------------------
  // Verbosity
  // ---------------------------------------------------------------------

  datatype LevelFilter = Warn | Info | Debug

  /** How much a level lets through. */
  function Rank(l: LevelFilter): nat
  {
    match l
    case Warn => 0
    case Info => 1
    case Debug => 2
  }

  /** The log filter for `-v` given `verbose` times: the module it applies
      to (`None` for all modules) and the level. */
  function LogFilterFor(verbose: nat): (r: (Option<string>, LevelFilter))
    ensures verbose <= 2 ==> r.0 == Some("nmstate")
    ensures verbose >= 3 ==> r == (None, Debug)
    ensures verbose == 0 ==> r.1 == Warn
    ensures verbose == 1 ==> r.1 == Info
    ensures verbose == 2 ==> r.1 == Debug
  {
    match verbose
    case 0 => (Some("nmstate"), Warn)
    case 1 => (Some("nmstate"), Info)
    case 2 => (Some("nmstate"), Debug)
    case _ => (None, Debug)
  }

  /** More `-v` never logs less: the level does not drop, and once the
      filter covers all modules it stays so. */
  lemma LogFilterMonotonic(v: nat, w: nat)
    requires v <= w
    ensures Rank(LogFilterFor(v).1) <= Rank(LogFilterFor(w).1)
    ensures LogFilterFor(v).0.None? ==> LogFilterFor(w).0.None?
  {
  }

  // ---------------------------------------------------------------------
  // A YAML mapping: keys in insertion order, each key once
  // ---------------------------------------------------------------------

  type Mapping = seq<(string, Json)>

  /** `key` is not a key of `m`. */
  ghost predicate Fresh(m: Mapping, key: string)
  {
    forall i :: 0 <= i < |m| ==> m[i].0 != key
  }

  /** `serde_yaml::Mapping::insert`: a new key goes at the end; a key
      already present gets the new value and keeps its place, as the
      `IndexMap` behind serde_yaml 0.9's mapping does. `sort_netstate`
      only ever inserts fresh keys (`InsertAllFresh`). */
  function Insert(m: Mapping, key: string, value: Json): (r: Mapping)
    ensures Fresh(m, key) ==> r == m + [(key, value)]
    ensures !Fresh(m, key) ==> |r| == |m| && (key, value) in r
  {
    if m == [] then [(key, value)]
    else if m[0].0 == key then [(key, value)] + m[1..]
    else
      assert Fresh(m, key) ==> Fresh(m[1..], key);
      [m[0]] + Insert(m[1..], key, value)
  }

  /** Each key at most once, as in any mapping. */
  ghost predicate UniqueKeys(m: Mapping)
  {
    forall i, j :: 0 <= i < j < |m| ==> m[i].0 != m[j].0
  }

  /** The pairs inserted one after the other. */
  function InsertAll(m: Mapping, pairs: Mapping): Mapping
    decreases |pairs|
  {
    if pairs == [] then m
    else InsertAll(Insert(m, pairs[0].0, pairs[0].1), pairs[1..])
  }

  lemma InsertAllCons(m: Mapping, p: (string, Json), pairs: Mapping)
    ensures InsertAll(m, [p] + pairs) == InsertAll(Insert(m, p.0, p.1), pairs)
  {
    assert ([p] + pairs)[1..] == pairs;
  }

  /** Inserting pairs whose keys are new and distinct appends them. */
  lemma {:induction false} InsertAllFresh(m: Mapping, pairs: Mapping)
    requires UniqueKeys(pairs)
    requires forall i :: 0 <= i < |pairs| ==> Fresh(m, pairs[i].0)
    ensures InsertAll(m, pairs) == m + pairs
    decreases |pairs|
  {
    if pairs != [] {
      var p := pairs[0];
      var m' := m + [p];
      assert Insert(m, p.0, p.1) == m';
      var rest := pairs[1..];
      forall i | 0 <= i < |rest|
        ensures Fresh(m', rest[i].0)
      {
        assert rest[i] == pairs[i + 1];
      }
      InsertAllFresh(m', rest);
      assert m + pairs == m' + rest;
    }
  }

  // ---------------------------------------------------------------------
  // The normalised interface mapping
  // ---------------------------------------------------------------------

  const IFACE_TOP_PRIORITIES: seq<string> := ["name", "type"]

  /** The pair of a top-priority key, if the mapping has it. */
  function TopOf(m: Mapping): string -> Option<(string, Json)>
  {
    (k: string) => if LookupKey(m, k).Some? then Some((k, LookupKey(m, k).value)) else None
  }

  /** The pairs of the other keys. */
  function RestOf(p: (string, Json)): Option<(string, Json)>
  {
    if p.0 in IFACE_TOP_PRIORITIES then None else Some(p)
  }

  function TopFields(m: Mapping): Mapping
  {
    FilterMap(IFACE_TOP_PRIORITIES, TopOf(m))
  }

  function RestFields(m: Mapping): Mapping
  {
    FilterMap(m, RestOf)
  }

  /** The mapping `sort_netstate` builds: the top-priority pairs inserted
      first, then every other pair in the original order. */
  function Normalised(m: Mapping): Mapping
  {
    InsertAll(InsertAll([], TopFields(m)), RestFields(m))
  }

  /** The `name` pair, then the `type` pair, each when present. */
  lemma TopFieldsShape(m: Mapping)
    ensures TopFields(m)
      == Opt(TopOf(m)("name")) + Opt(TopOf(m)("type"))
    ensures forall i :: 0 <= i < |TopFields(m)| ==> TopFields(m)[i].0 in IFACE_TOP_PRIORITIES
    ensures UniqueKeys(TopFields(m))
  {
    var f := TopOf(m);
    assert IFACE_TOP_PRIORITIES == ["name"] + ["type"];
    FilterMapAppend(["name"], ["type"], f);
    FilterMapSingle("name", f);
    FilterMapSingle("type", f);
    var t := TopFields(m);
    assert t == Opt(f("name")) + Opt(f("type"));
    assert forall i :: 0 <= i < |t| ==> t[i].0 == (if i == 0 && f("name").Some? then "name" else "type");
  }

  /** The kept pairs of a mapping with unique keys have unique keys, none
      of them a top-priority key, and are exactly its other pairs. */
  lemma RestFieldsShape(m: Mapping)
    requires UniqueKeys(m)
    ensures UniqueKeys(RestFields(m))
    ensures forall i :: 0 <= i < |RestFields(m)| ==> RestFields(m)[i].0 !in IFACE_TOP_PRIORITIES
    ensures forall p :: p in RestFields(m) <==> p in m && p.0 !in IFACE_TOP_PRIORITIES
  {
    var r := RestFields(m);
    FilterMapInOrder(m, RestOf);
    var idx := AcceptedIndices(m, RestOf);
    forall i, j | 0 <= i < j < |r|
      ensures r[i].0 != r[j].0
    {
      assert r[i] == m[idx[i]] && r[j] == m[idx[j]];
    }
    forall p | p in m && p.0 !in IFACE_TOP_PRIORITIES
      ensures p in r
    {
      var k :| 0 <= k < |m| && m[k] == p;
      assert k in idx;
      var j :| 0 <= j < |idx| && idx[j] == k;
      assert r[j] == p;
    }
  }

  /** The normalised mapping of a mapping (whose keys are unique) is its
      `name` pair, then its `type` pair, when present, then every other
      pair in the original order. */
  lemma NormalisedIsConcat(m: Mapping)
    requires UniqueKeys(m)
    ensures Normalised(m) == TopFields(m) + RestFields(m)
  {
    var top := TopFields(m);
    var rest := RestFields(m);
    TopFieldsShape(m);
    RestFieldsShape(m);
    InsertAllFresh([], top);
    assert [] + top == top;
    forall i | 0 <= i < |rest|
      ensures Fresh(top, rest[i].0)
    {
      forall j | 0 <= j < |top|
        ensures top[j].0 != rest[i].0
      {
        assert top[j].0 in IFACE_TOP_PRIORITIES;
      }
    }
    InsertAllFresh(top, rest);
  }

  /** `name` comes first and `type` next, when present, and each key is
      still there once. */
  lemma NormalisedMeaning(m: Mapping)
    requires UniqueKeys(m)
    ensures UniqueKeys(Normalised(m))
    ensures LookupKey(m, "name").Some? ==> |Normalised(m)| > 0 && Normalised(m)[0] == ("name", LookupKey(m, "name").value)
    ensures LookupKey(m, "type").Some? ==>
      var at := if LookupKey(m, "name").Some? then 1 else 0;
      |Normalised(m)| > at && Normalised(m)[at] == ("type", LookupKey(m, "type").value)
  {
    NormalisedIsConcat(m);
    TopFieldsShape(m);
    TopRestUnique(m);
  }

  /** The top-priority pairs followed by the other pairs repeat no key. */
  lemma TopRestUnique(m: Mapping)
    requires UniqueKeys(m)
    ensures UniqueKeys(TopFields(m) + RestFields(m))
  {
    TopFieldsShape(m);
    RestFieldsShape(m);
    var top := TopFields(m);
    var rest := RestFields(m);
    forall i, j | 0 <= i < |top| && 0 <= j < |rest|
      ensures top[i].0 != rest[j].0
    {
      assert top[i].0 in IFACE_TOP_PRIORITIES;
    }
    UniqueKeysConcat(top, rest);
  }

  /** Two mappings with unique keys and no key in common make one. */
  lemma UniqueKeysConcat(a: Mapping, b: Mapping)
    requires UniqueKeys(a) && UniqueKeys(b)
    requires forall i, j :: 0 <= i < |a| && 0 <= j < |b| ==> a[i].0 != b[j].0
    ensures UniqueKeys(a + b)
  {
    var n := a + b;
    forall i, j | 0 <= i < j < |n|
      ensures n[i].0 != n[j].0
    {
      if i >= |a| {
        assert n[i] == b[i - |a|] && n[j] == b[j - |a|];
      } else if j >= |a| {
        assert n[j] == b[j - |a|];
      }
    }
  }

  /** In a mapping, the value of the key at position `k` is the one stored
      there. */
  lemma {:induction false} GetUnique(m: Mapping, k: nat)
    requires UniqueKeys(m) && k < |m|
    ensures LookupKey(m, m[k].0) == Some(m[k].1)
    decreases k
  {
    if k > 0 {
      assert m[0].0 != m[k].0;
      GetUnique(m[1..], k - 1);
    }
  }

  /** The top-priority pairs are exactly the pairs of the mapping whose
      key is a top-priority key. */
  lemma TopFieldsExact(m: Mapping)
    requires UniqueKeys(m)
    ensures forall p :: p in TopFields(m) <==> p in m && p.0 in IFACE_TOP_PRIORITIES
  {
    TopFieldsShape(m);
    forall p | p in m && p.0 in IFACE_TOP_PRIORITIES
      ensures p in TopFields(m)
    {
      var k :| 0 <= k < |m| && m[k] == p;
      GetUnique(m, k);
    }
  }

  /** The normalised mapping holds exactly the pairs of the mapping. */
  lemma NormalisedSamePairs(m: Mapping)
    requires UniqueKeys(m)
    ensures forall p :: p in Normalised(m) <==> p in m
  {
    NormalisedIsConcat(m);
    TopFieldsExact(m);
    RestFieldsShape(m);
  }

  /** One step of the loop over the top-priority keys. */
  lemma TopStep(m: Mapping, out: Mapping, t: nat)
    requires t < |IFACE_TOP_PRIORITIES|
    ensures var key := IFACE_TOP_PRIORITIES[t];
      InsertAll(out, FilterMap(IFACE_TOP_PRIORITIES[t..], TopOf(m)))
      == InsertAll(if LookupKey(m, key).Some? then Insert(out, key, LookupKey(m, key).value) else out,
                   FilterMap(IFACE_TOP_PRIORITIES[t + 1..], TopOf(m)))
  {
    var key := IFACE_TOP_PRIORITIES[t];
    assert IFACE_TOP_PRIORITIES[t..] == [key] + IFACE_TOP_PRIORITIES[t + 1..];
    FilterMapCons(key, IFACE_TOP_PRIORITIES[t + 1..], TopOf(m));
    if LookupKey(m, key).Some? {
      InsertAllCons(out, (key, LookupKey(m, key).value), FilterMap(IFACE_TOP_PRIORITIES[t + 1..], TopOf(m)));
    } else {
      assert [] + FilterMap(IFACE_TOP_PRIORITIES[t + 1..], TopOf(m)) == FilterMap(IFACE_TOP_PRIORITIES[t + 1..], TopOf(m));
    }
  }

  /** One step of the loop over the mapping's pairs. */
  lemma RestStep(m: Mapping, out: Mapping, i: nat)
    requires i < |m|
    ensures InsertAll(out, FilterMap(m[i..], RestOf))
      == InsertAll(if m[i].0 in IFACE_TOP_PRIORITIES then out else Insert(out, m[i].0, m[i].1),
                   FilterMap(m[i + 1..], RestOf))
  {
    assert m[i..] == [m[i]] + m[i + 1..];
    FilterMapCons(m[i], m[i + 1..], RestOf);
    if m[i].0 in IFACE_TOP_PRIORITIES {
      assert [] + FilterMap(m[i + 1..], RestOf) == FilterMap(m[i + 1..], RestOf);
    } else {
      InsertAllCons(out, m[i], FilterMap(m[i + 1..], RestOf));
    }
  }

  /** The inner loops of `sort_netstate` for one interface mapping. */
  method NormaliseMapping(m: Mapping) returns (out: Mapping)
    ensures out == Normalised(m)
  {
    out := [];
    for t := 0 to |IFACE_TOP_PRIORITIES|
      invariant InsertAll(out, FilterMap(IFACE_TOP_PRIORITIES[t..], TopOf(m))) == InsertAll([], TopFields(m))
    {
      var key := IFACE_TOP_PRIORITIES[t];
      TopStep(m, out, t);
      var v := LookupKey(m, key);
      if v.Some? {
        out := Insert(out, key, v.value);
      }
    }
    ghost var start := out;
    assert m[0..] == m;
    for i := 0 to |m|
      invariant InsertAll(start, RestFields(m)) == InsertAll(out, FilterMap(m[i..], RestOf))
    {
      var (k, v) := m[i];
      RestStep(m, out, i);
      if k in IFACE_TOP_PRIORITIES {
        continue;
      }
      out := Insert(out, k, v);
    }
  }

  // ---------------------------------------------------------------------
  // sort_netstate
  // ---------------------------------------------------------------------

  datatype SortedNetworkState = SortedNetworkState(interfaces: seq<Json>)

  /** The normalised form of one entry; entries that are not mappings are
      dropped. */
  function NormalisedEntry(v: Json): Option<Json>
  {
    if v.JObject? then Some(JObject(Normalised(v.fields))) else None
  }

  /** The normalised interfaces of a value: none unless it is a sequence. */
  function NormalisedEntries(v: Json): seq<Json>
  {
    if v.JArray? then FilterMap(v.items, NormalisedEntry) else []
  }

  /** The outer loop of `sort_netstate`, over the value the sorted
      interfaces serialise to. */
  method NormaliseValue(v: Json) returns (r: SortedNetworkState)
    ensures r.interfaces == NormalisedEntries(v)
  {
    if !v.JArray? {
      return SortedNetworkState([]);
    }
    var items := v.items;
    var newIfaces: seq<Json> := [];
    for i := 0 to |items|
      invariant newIfaces == FilterMap(items[..i], NormalisedEntry)
    {
      assert items[..i + 1] == items[..i] + [items[i]];
      FilterMapSnoc(items[..i], items[i], NormalisedEntry);
      match items[i] {
        case JObject(fields) =>
          var newIface := NormaliseMapping(fields);
          newIfaces := newIfaces + [JObject(newIface)];
        case _ =>
      }
    }
    assert items[..|items|] == items;
    r := SortedNetworkState(newIfaces);
  }

  /** One normalised mapping per mapping entry of a sequence, in order;
      the other entries are dropped. */
  lemma NormalisedEntriesInOrder(items: seq<Json>)
    ensures var idx := AcceptedIndices(items, NormalisedEntry);
      var out := NormalisedEntries(JArray(items));
      && |idx| == |out|
      && (forall j :: 0 <= j < |idx| ==>
            idx[j] < |items| && items[idx[j]].JObject?
            && out[j] == JObject(Normalised(items[idx[j]].fields)))
      && (forall j, j' :: 0 <= j < j' < |idx| ==> idx[j] < idx[j'])
      && (forall k :: 0 <= k < |items| ==> (k in idx <==> items[k].JObject?))
  {
    FilterMapInOrder(items, NormalisedEntry);
  }

  /** The value `serde_yaml::to_value` gives for a list of interfaces. */
  function InterfacesValue(ifaces: seq<Interface>): (v: Json)
    ensures v.JArray? && |v.items| == |ifaces|
  {
    JArray(seq(|ifaces|, i requires 0 <= i < |ifaces| => InterfaceToJson(ifaces[i])))
  }

  /** `sort_netstate`: the interfaces sorted by name, each serialised and
      normalised. */
  method SortNetstate(netState: NetworkState) returns (r: SortedNetworkState)
    ensures r.interfaces == NormalisedEntries(InterfacesValue(SortByNameSpec(netState.interfaces)))
  {
    var ifaces := SortByName(netState.interfaces);
    r := NormaliseValue(InterfacesValue(ifaces));
  }

  // ---------------------------------------------------------------------
  // show
  // ---------------------------------------------------------------------

  /** What `show` prints: the interfaces of the given name, or the whole
      sorted state. */
  datatype ShowOutput = Filtered(state: seq<Interface>, kernelOnly: bool) | Sorted(sorted: SortedNetworkState)

  /** `show`: the state is retrieved (kernel only with `--kernel`); with an
      interface name, only the interfaces of that name are printed, in
      their retrieved order; otherwise the sorted state is. The inputs of
      the retrieve are as for `retrieve`. */
  method Show(kernel: bool, ifname: Option<string>, kernelState: Result<seq<Interface>, NmstateError>,
              apiNew: Option<NmError>, applied: Result<seq<NmConnection>, NmError>,
              merge: (seq<Interface>, seq<Interface>) -> Result<seq<Interface>, NmstateError>)
    returns (r: Result<ShowOutput, NmstateError>)
    ensures var cur := Retrieved(kernel, kernelState, apiNew, applied);
      && (r.Ok? <==> cur.Ok?)
      && (r.Err? ==> r.error == cur.error)
      && (r.Ok? && ifname.Some? ==> r.value == Filtered(WithName(cur.value, ifname.value), kernel))
      && (r.Ok? && ifname.None? ==>
            r.value == Sorted(SortedNetworkState(NormalisedEntries(InterfacesValue(SortByNameSpec(cur.value))))))
  {
    var netState := new NetworkState();
    if kernel {
      netState.SetKernelOnly(true);
    }
    var retrieved := Retrieve(netState, kernelState, apiNew, applied, merge);
    if retrieved.Err? {
      return Err(retrieved.error);
    }
    if ifname.Some? {
      var newNetState := new NetworkState();
      newNetState.SetKernelOnly(kernel);
      var ifaces := netState.interfaces;
      for i := 0 to |ifaces|
        invariant newNetState.interfaces == WithName(ifaces[..i], ifname.value)
        invariant newNetState.kernelOnly == kernel
      {
        assert ifaces[..i + 1] == ifaces[..i] + [ifaces[i]];
        FilterMapSnoc(ifaces[..i], ifaces[i], NamedOf(ifname.value));
        if Name(ifaces[i]) == ifname.value {
          newNetState.AppendInterfaceData(ifaces[i]);
        }
      }
      assert ifaces[..|ifaces|] == ifaces;
      r := Ok(Filtered(newNetState.interfaces, newNetState.kernelOnly));
    } else {
      var sorted := SortNetstate(netState);
      r := Ok(Sorted(sorted));
    }
  }

  /** `show` with an interface name keeps exactly the interfaces of that
      name, in order. */
  lemma WithNameKeepsExactly(s: seq<Interface>, n: string)
    ensures var idx := AcceptedIndices(s, NamedOf(n));
      && |idx| == |WithName(s, n)|
      && (forall j :: 0 <= j < |idx| ==> idx[j] < |s| && WithName(s, n)[j] == s[idx[j]])
      && (forall j, j' :: 0 <= j < j' < |idx| ==> idx[j] < idx[j'])
      && (forall k :: 0 <= k < |s| ==> (k in idx <==> Name(s[k]) == n))
  {
    FilterMapInOrder(s, NamedOf(n));
  }
}

/** Pinging logical profiles that share physical endpoints: every endpoint is
    probed once, and every profile gets the result it would have got alone. */
module Ping {
  import opened Options

  /** A physical server, or a profile whose members may be profiles again. The
      fingerprint is address, port, UUID, network and security in one string. */
  datatype Server = Server(id: string, address: string, port: nat, fingerprint: string, members: seq<Server>)

  /** A negative latency means unreachable. */
  datatype Result = Result(id: string, latency: int, address: string, port: nat, selected: string)

  predicate IsGroup(s: Server) {
    s.members != []
  }

  predicate HasGroup(ss: seq<Server>) {
    exists i :: 0 <= i < |ss| && IsGroup(ss[i])
  }

  // ----- what probing alone would give -----

  /** What one probe of a physical server measures. */
  type Probe = Server -> int

  function Leaf(probe: Probe, s: Server): Result {
    Result(s.id, probe(s), s.address, s.port, "")
  }

  /** Position of the first smallest latency among reachable results. */
  function Fastest(rs: seq<Result>): (k: Option<nat>)
    ensures k.None? <==> forall i :: 0 <= i < |rs| ==> rs[i].latency < 0
    ensures k.Some? ==> k.value < |rs| && rs[k.value].latency >= 0
    ensures k.Some? ==> forall i :: 0 <= i < |rs| && rs[i].latency >= 0 ==> rs[k.value].latency <= rs[i].latency
    ensures k.Some? ==> forall i :: 0 <= i < k.value && rs[i].latency >= 0 ==> rs[k.value].latency < rs[i].latency
  {
    if rs == [] then None
    else
      var n := |rs| - 1;
      var k := Fastest(rs[..n]);
      if rs[n].latency >= 0 && (k.None? || rs[n].latency < rs[k.value].latency) then Some(n) else k
  }

  function Summary(s: Server, rs: seq<Result>): Result
    requires |rs| == |s.members|
  {
    match Fastest(rs)
    case None => Result(s.id, -1, s.address, s.port, "")
    case Some(k) => Result(s.id, rs[k].latency, rs[k].address, rs[k].port, s.members[k].id)
  }

  /** A profile is as fast as its first fastest member, probed on its own. */
  function Alone(probe: Probe, s: Server): Result {
    if IsGroup(s) then
      Summary(s, seq(|s.members|, i requires 0 <= i < |s.members| => Alone(probe, s.members[i])))
    else Leaf(probe, s)
  }

  // ----- nesting -----

  function Largest(ns: seq<nat>): (m: nat)
    ensures forall i :: 0 <= i < |ns| ==> ns[i] <= m
    ensures m == 0 || exists i :: 0 <= i < |ns| && ns[i] == m
  {
    if ns == [] then 0
    else
      var n := |ns| - 1;
      var m := Largest(ns[..n]);
      if ns[n] > m then ns[n] else m
  }

  function Depth(s: Server): nat {
    if IsGroup(s) then 1 + Largest(seq(|s.members|, i requires 0 <= i < |s.members| => Depth(s.members[i]))) else 0
  }

  function DepthOf(ss: seq<Server>): nat {
    Largest(seq(|ss|, i requires 0 <= i < |ss| => Depth(ss[i])))
  }

  /** x is s itself or somewhere inside it. */
  ghost predicate Within(x: Server, s: Server) {
    x == s || exists i :: 0 <= i < |s.members| && Within(x, s.members[i])
  }

  ghost predicate InList(x: Server, ss: seq<Server>) {
    exists i :: 0 <= i < |ss| && Within(x, ss[i])
  }

  /** The same identifier, or the same stand-in for a missing one, never means two
      different servers. */
  ghost predicate Consistent(ss: seq<Server>) {
    forall x, y :: InList(x, ss) && InList(y, ss) && (x.id == y.id || Key(x) == Key(y)) ==> x == y
  }

  // ----- one level of profiles taken apart -----

  function Key(s: Server): string {
    if s.id != "" then s.id else s.fingerprint
  }

  function Parts(s: Server): seq<Server> {
    if IsGroup(s) then s.members else [s]
  }

  /** The next level: every profile replaced by its members. */
  function Flat(ss: seq<Server>): seq<Server> {
    if ss == [] then [] else Flat(ss[..|ss| - 1]) + Parts(ss[|ss| - 1])
  }

  predicate SomeKey(k: string, ss: seq<Server>) {
    exists i :: 0 <= i < |ss| && Key(ss[i]) == k
  }

  /** The first server of every key. */
  function Firsts(xs: seq<Server>): seq<Server> {
    if xs == [] then []
    else
      var before, last := Firsts(xs[..|xs| - 1]), xs[|xs| - 1];
      if SomeKey(Key(last), before) then before else before + [last]
  }

  function Physical(ss: seq<Server>): seq<Server> {
    Firsts(Flat(ss))
  }

  ghost predicate DistinctKeys(ss: seq<Server>) {
    forall i, j :: 0 <= i < j < |ss| ==> Key(ss[i]) != Key(ss[j])
  }

  ghost predicate KeysOf(seen: set<string>, ss: seq<Server>) {
    forall k :: k in seen <==> SomeKey(k, ss)
  }

  lemma AddKey(leaves: seq<Server>, m: Server, seen: set<string>)
    requires KeysOf(seen, leaves)
    ensures KeysOf(seen + {Key(m)}, leaves + [m])
  {
    hide Key;
    var all := leaves + [m];
    forall k
      ensures SomeKey(k, all) <==> SomeKey(k, leaves) || k == Key(m)
    {
      assert all[|leaves|] == m;
      if SomeKey(k, leaves) {
        var i :| 0 <= i < |leaves| && Key(leaves[i]) == k;
        assert all[i] == leaves[i];
      }
    }
  }

  /** The members of one entry, each key taken once. */
  method TakeMembers(xs: seq<Server>, members: seq<Server>, leaves0: seq<Server>, seen0: set<string>) returns (leaves: seq<Server>, seen: set<string>)
    requires leaves0 == Firsts(xs) && KeysOf(seen0, leaves0)
    ensures leaves == Firsts(xs + members) && KeysOf(seen, leaves)
  {
    hide Key, SomeKey, KeysOf;
    leaves, seen := leaves0, seen0;
    assert xs + members[..0] == xs;
    for i := 0 to |members|
      invariant leaves == Firsts(xs + members[..i]) && KeysOf(seen, leaves)
    {
      var m := members[i];
      ghost var all := xs + members[..i + 1];
      assert all[..|all| - 1] == xs + members[..i] && all[|all| - 1] == m;
      HasKey(seen, leaves, Key(m));
      if Key(m) !in seen {
        AddKey(leaves, m, seen);
        seen := seen + {Key(m)};
        leaves := leaves + [m];
      }
    }
    assert members[..|members|] == members;
  }

  lemma HasKey(seen: set<string>, ss: seq<Server>, k: string)
    requires KeysOf(seen, ss)
    ensures k in seen <==> SomeKey(k, ss)
  {
  }

  /** physicalPingServers. */
  method PhysicalPingServers(ss: seq<Server>) returns (leaves: seq<Server>)
    ensures leaves == Physical(ss)
  {
    hide Firsts, KeysOf;
    leaves := [];
    var seen: set<string> := {};
    NoKeys(ss[..0]);
    for i := 0 to |ss|
      invariant leaves == Firsts(Flat(ss[..i])) && KeysOf(seen, leaves)
    {
      assert ss[..i + 1][..i] == ss[..i];
      leaves, seen := TakeMembers(Flat(ss[..i]), if IsGroup(ss[i]) then ss[i].members else [ss[i]], leaves, seen);
    }
    assert ss[..|ss|] == ss;
  }

  lemma NoKeys(ss: seq<Server>)
    requires ss == []
    ensures Firsts(Flat(ss)) == [] && KeysOf({}, [])
  {
  }

  /** The next level has every key once, nothing new, and no key is forgotten. */
  lemma {:induction false} FirstsFacts(xs: seq<Server>)
    ensures DistinctKeys(Firsts(xs)) && (forall x :: x in Firsts(xs) ==> x in xs)
    ensures forall x :: x in xs ==> SomeKey(Key(x), Firsts(xs))
    decreases |xs|
  {
    hide Key;
    if xs != [] {
      var before := xs[..|xs| - 1];
      var fs := Firsts(before);
      FirstsFacts(before);
      forall x | x in xs
        ensures SomeKey(Key(x), Firsts(xs))
      {
        if x in before {
          var i :| 0 <= i < |fs| && Key(fs[i]) == Key(x);
          assert Firsts(xs)[i] == fs[i];
        } else if !SomeKey(Key(x), fs) {
          assert Firsts(xs)[|fs|] == x;
        }
      }
    }
  }

  lemma {:induction false} FlatParts(ss: seq<Server>, x: Server)
    ensures x in Flat(ss) <==> exists i :: 0 <= i < |ss| && x in Parts(ss[i])
    decreases |ss|
  {
    hide Parts;
    if ss != [] {
      var n := |ss| - 1;
      FlatParts(ss[..n], x);
      assert forall i :: 0 <= i < n ==> ss[..n][i] == ss[i];
    }
  }

  // ----- what the level keeps -----

  lemma FlatInList(x: Server, ss: seq<Server>)
    requires x in Flat(ss)
    ensures InList(x, ss)
  {
    FlatParts(ss, x);
    var i :| 0 <= i < |ss| && x in Parts(ss[i]);
    if IsGroup(ss[i]) {
      var j :| 0 <= j < |ss[i].members| && ss[i].members[j] == x;
      assert Within(x, ss[i].members[j]);
    }
    assert Within(x, ss[i]);
  }

  lemma {:induction false} WithinTrans(x: Server, y: Server, s: Server)
    requires Within(x, y) && Within(y, s)
    ensures Within(x, s)
    decreases s
  {
    if y != s {
      var i :| 0 <= i < |s.members| && Within(y, s.members[i]);
      WithinTrans(x, y, s.members[i]);
    }
  }

  lemma DeeperInList(x: Server, ss: seq<Server>)
    requires InList(x, Physical(ss))
    ensures InList(x, ss)
  {
    hide Within, Flat, Firsts;
    var leaves := Physical(ss);
    FirstsFacts(Flat(ss));
    var i :| 0 <= i < |leaves| && Within(x, leaves[i]);
    assert leaves[i] in leaves;
    FlatInList(leaves[i], ss);
    var j :| 0 <= j < |ss| && Within(leaves[i], ss[j]);
    WithinTrans(x, leaves[i], ss[j]);
  }

  lemma MemberShallower(s: Server, m: Server)
    requires m in s.members
    ensures Depth(m) < Depth(s)
  {
    var j :| 0 <= j < |s.members| && s.members[j] == m;
    var ds := seq(|s.members|, i requires 0 <= i < |s.members| => Depth(s.members[i]));
    assert ds[j] == Depth(m);
  }

  lemma DepthBound(ss: seq<Server>, s: Server)
    requires s in ss
    ensures Depth(s) <= DepthOf(ss)
  {
    var j :| 0 <= j < |ss| && ss[j] == s;
    var ds := seq(|ss|, i requires 0 <= i < |ss| => Depth(ss[i]));
    assert ds[j] == Depth(s);
  }

  /** Taking a level apart makes the list shallower. */
  lemma LevelShallower(ss: seq<Server>)
    requires HasGroup(ss)
    ensures DepthOf(Physical(ss)) < DepthOf(ss)
  {
    hide Depth, Flat, Firsts;
    var leaves := Physical(ss);
    FirstsFacts(Flat(ss));
    var g :| 0 <= g < |ss| && IsGroup(ss[g]);
    GroupDeep(ss[g]);
    DepthBound(ss, ss[g]);
    var ds := seq(|leaves|, i requires 0 <= i < |leaves| => Depth(leaves[i]));
    forall k | 0 <= k < |ds|
      ensures ds[k] < DepthOf(ss)
    {
      var l := leaves[k];
      assert l in leaves;
      FlatParts(ss, l);
      var i :| 0 <= i < |ss| && l in Parts(ss[i]);
      DepthBound(ss, ss[i]);
      if IsGroup(ss[i]) {
        MemberShallower(ss[i], l);
      } else {
        LeafFlat(l);
      }
    }
  }

  lemma GroupDeep(s: Server)
    requires IsGroup(s)
    ensures Depth(s) >= 1
  {
  }

  lemma LeafFlat(s: Server)
    requires !IsGroup(s)
    ensures Depth(s) == 0
  {
  }

  // ----- the batch -----

  /** Later results replace earlier ones of the same identifier. */
  function Collect(rs: seq<Result>): map<string, Result> {
    if rs == [] then map[] else Collect(rs[..|rs| - 1])[rs[|rs| - 1].id := rs[|rs| - 1]]
  }

  /** What a map yields for an identifier it does not hold. */
  const Nothing := Result("", 0, "", 0, "")

  function At(byID: map<string, Result>, id: string): Result {
    if id in byID then byID[id] else Nothing
  }

  function Looked(byID: map<string, Result>, ss: seq<Server>): (rs: seq<Result>)
    ensures |rs| == |ss| && forall i :: 0 <= i < |ss| ==> rs[i] == At(byID, ss[i].id)
  {
    seq(|ss|, i requires 0 <= i < |ss| => At(byID, ss[i].id))
  }

  function Entry(byID: map<string, Result>, s: Server): Result {
    if IsGroup(s) then Summary(s, Looked(byID, s.members)) else At(byID, s.id)
  }

  function Leaves(probe: Probe, ss: seq<Server>): (rs: seq<Result>)
    ensures |rs| == |ss| && forall i :: 0 <= i < |ss| ==> rs[i] == Leaf(probe, ss[i])
  {
    seq(|ss|, i requires 0 <= i < |ss| => Leaf(probe, ss[i]))
  }

  function Entries(byID: map<string, Result>, ss: seq<Server>): (rs: seq<Result>)
    ensures |rs| == |ss| && forall i :: 0 <= i < |ss| ==> rs[i] == Entry(byID, ss[i])
  {
    seq(|ss|, i requires 0 <= i < |ss| => Entry(byID, ss[i]))
  }

  /** What the batch computes, whatever the identifiers. */
  function Batch(probe: Probe, ss: seq<Server>): (rs: seq<Result>)
    ensures |rs| == |ss|
    decreases DepthOf(ss)
  {
    if HasGroup(ss) then
      LevelShallower(ss);
      Entries(Collect(Batch(probe, Physical(ss))), ss)
    else Leaves(probe, ss)
  }

  /** The servers it probes, in order. */
  function Probed(ss: seq<Server>): seq<Server>
    decreases DepthOf(ss)
  {
    if HasGroup(ss) then
      LevelShallower(ss);
      Probed(Physical(ss))
    else ss
  }

  lemma {:induction false} FastestGrows(rs: seq<Result>, i: nat)
    requires i < |rs|
    ensures var k := Fastest(rs[..i]);
      Fastest(rs[..i + 1]) == if rs[i].latency >= 0 && (k.None? || rs[i].latency < rs[k.value].latency) then Some(i) else k
  {
    assert rs[..i + 1][..i] == rs[..i];
  }

  /** The loop over the members of one profile. */
  method Summarise(s: Server, byID: map<string, Result>) returns (r: Result)
    requires IsGroup(s)
    ensures r == Entry(byID, s)
  {
    hide Fastest;
    ghost var rs := Looked(byID, s.members);
    r := Result(s.id, -1, s.address, s.port, "");
    ghost var k: Option<nat> := None;
    NoFastest(rs[..0]);
    for i := 0 to |s.members|
      invariant k == Fastest(rs[..i]) && (k.Some? ==> k.value < i && rs[k.value].latency >= 0)
      invariant r == if k.None? then Result(s.id, -1, s.address, s.port, "")
                     else Result(s.id, rs[k.value].latency, rs[k.value].address, rs[k.value].port, s.members[k.value].id)
    {
      var m := s.members[i];
      var candidate := if m.id in byID then byID[m.id] else Nothing;
      assert candidate == rs[i];
      FastestGrows(rs, i);
      if candidate.latency >= 0 && (r.latency < 0 || candidate.latency < r.latency) {
        r := r.(latency := candidate.latency, address := candidate.address, port := candidate.port, selected := m.id);
        k := Some(i);
      }
    }
    assert rs[..|s.members|] == rs;
  }

  lemma NoFastest(rs: seq<Result>)
    requires rs == []
    ensures Fastest(rs) == None
  {
  }

  /** The map built from the results. */
  method ById(results: seq<Result>) returns (byID: map<string, Result>)
    ensures byID == Collect(results)
  {
    byID := map[];
    for i := 0 to |results|
      invariant byID == Collect(results[..i])
    {
      assert results[..i + 1][..i] == results[..i];
      byID := byID[results[i].id := results[i]];
    }
    assert results[..|results|] == results;
  }

  /** pingBatchViaXrayContext and pingServerGroups. */
  method PingBatch(ss: seq<Server>, probe: Probe) returns (rs: seq<Result>, probed: seq<Server>)
    ensures rs == Batch(probe, ss) && probed == Probed(ss)
    decreases DepthOf(ss)
  {
    hide DepthOf, Physical, Entry, Collect;
    rs, probed := [], ss;
    if HasGroup(ss) {
      LevelShallower(ss);
      var leaves := PhysicalPingServers(ss);
      var leafResults;
      leafResults, probed := PingBatch(leaves, probe);
      var byID := ById(leafResults);
      for i := 0 to |ss|
        invariant rs == Entries(byID, ss)[..i]
      {
        var r;
        if IsGroup(ss[i]) {
          r := Summarise(ss[i], byID);
        } else {
          r := if ss[i].id in byID then byID[ss[i].id] else Nothing;
          LeafEntry(byID, ss[i]);
        }
        rs := rs + [r];
      }
    } else {
      for i := 0 to |ss|
        invariant rs == Leaves(probe, ss)[..i]
      {
        rs := rs + [Leaf(probe, ss[i])];
      }
    }
  }

  lemma LeafEntry(byID: map<string, Result>, s: Server)
    requires !IsGroup(s)
    ensures Entry(byID, s) == At(byID, s.id)
  {
  }

  // ----- every profile gets its own result -----

  ghost function AloneAll(probe: Probe, ss: seq<Server>): (rs: seq<Result>)
    ensures |rs| == |ss| && forall i :: 0 <= i < |ss| ==> rs[i] == Alone(probe, ss[i])
  {
    seq(|ss|, i requires 0 <= i < |ss| => Alone(probe, ss[i]))
  }

  lemma IsSummary(probe: Probe, s: Server, rs: seq<Result>)
    requires IsGroup(s) && rs == AloneAll(probe, s.members)
    ensures |rs| == |s.members| && Alone(probe, s) == Summary(s, rs)
  {
    hide Summary;
    assert rs == seq(|s.members|, i requires 0 <= i < |s.members| => Alone(probe, s.members[i]));
  }

  lemma AloneOf(probe: Probe, s: Server)
    ensures Alone(probe, s).id == s.id && (!IsGroup(s) ==> Alone(probe, s) == Leaf(probe, s))
  {
    hide Fastest;
  }

  /** On the next level, the same identifier or key means the same server. */
  ghost predicate LevelConsistent(ss: seq<Server>) {
    forall x, y :: x in Flat(ss) && y in Flat(ss) && (x.id == y.id || Key(x) == Key(y)) ==> x == y
  }

  /** So on every level below. */
  ghost predicate LevelsConsistent(ss: seq<Server>)
    decreases DepthOf(ss)
  {
    HasGroup(ss) ==> LevelConsistent(ss) && (LevelShallower(ss); LevelsConsistent(Physical(ss)))
  }

  lemma {:induction false} ConsistentLevels(ss: seq<Server>)
    requires Consistent(ss)
    ensures LevelsConsistent(ss)
    decreases DepthOf(ss)
  {
    hide InList, Key, Flat, Physical, DepthOf;
    if HasGroup(ss) {
      LevelShallower(ss);
      forall x | x in Flat(ss)
        ensures InList(x, ss)
      {
        FlatInList(x, ss);
      }
      forall x | InList(x, Physical(ss))
        ensures InList(x, ss)
      {
        DeeperInList(x, ss);
      }
      ConsistentLevels(Physical(ss));
    }
  }

  ghost predicate DistinctIds(ss: seq<Server>) {
    forall i, j :: 0 <= i < j < |ss| ==> ss[i].id != ss[j].id
  }

  /** On a consistent level nothing is dropped but repetitions. */
  lemma LevelWhole(ss: seq<Server>)
    requires LevelConsistent(ss)
    ensures DistinctIds(Physical(ss)) && forall x :: x in Physical(ss) <==> x in Flat(ss)
  {
    hide Key, Flat, Firsts;
    var leaves := Physical(ss);
    FirstsFacts(Flat(ss));
    forall i, j | 0 <= i < j < |leaves|
      ensures leaves[i].id != leaves[j].id
    {
      assert leaves[i] in leaves && leaves[j] in leaves;
    }
    forall x | x in Flat(ss)
      ensures x in leaves
    {
      var i :| 0 <= i < |leaves| && Key(leaves[i]) == Key(x);
      assert leaves[i] in leaves;
    }
  }

  /** With distinct identifiers every result is found under its own. */
  lemma {:induction false} CollectFinds(probe: Probe, leaves: seq<Server>, rs: seq<Result>, i: nat)
    requires DistinctIds(leaves) && |rs| == |leaves| && i < |leaves|
    requires forall k :: 0 <= k < |rs| ==> rs[k] == Alone(probe, leaves[k])
    ensures At(Collect(rs), leaves[i].id) == rs[i]
    decreases |rs|
  {
    hide Alone;
    var n := |rs| - 1;
    AloneOf(probe, leaves[n]);
    if i < n {
      CollectFinds(probe, leaves[..n], rs[..n], i);
    } else {
      AloneOf(probe, leaves[i]);
    }
  }

  /** Every entry gets the latency and the first fastest member it would get alone. */
  lemma {:induction false} BatchIsAlone(probe: Probe, ss: seq<Server>)
    requires LevelsConsistent(ss)
    ensures forall i :: 0 <= i < |ss| ==> Batch(probe, ss)[i] == Alone(probe, ss[i])
    decreases DepthOf(ss)
  {
    hide Alone, Flat, Physical, LevelConsistent, DepthOf, Collect, Fastest;
    if HasGroup(ss) {
      LevelShallower(ss);
      var leaves := Physical(ss);
      BatchIsAlone(probe, leaves);
      LevelWhole(ss);
      var byID := Collect(Batch(probe, leaves));
      forall x | x in Flat(ss)
        ensures At(byID, x.id) == Alone(probe, x)
      {
        var i :| 0 <= i < |leaves| && leaves[i] == x;
        CollectFinds(probe, leaves, Batch(probe, leaves), i);
      }
      forall i | 0 <= i < |ss|
        ensures Entry(byID, ss[i]) == Alone(probe, ss[i])
      {
        EntryIsAlone(probe, ss, i, byID);
      }
    } else {
      forall i | 0 <= i < |ss|
        ensures Leaf(probe, ss[i]) == Alone(probe, ss[i])
      {
        AloneOf(probe, ss[i]);
      }
    }
  }

  lemma PartsInFlat(ss: seq<Server>, i: nat)
    requires i < |ss|
    ensures forall x :: x in Parts(ss[i]) ==> x in Flat(ss)
  {
    forall x | x in Parts(ss[i])
      ensures x in Flat(ss)
    {
      FlatParts(ss, x);
    }
  }

  lemma EntryIsAlone(probe: Probe, ss: seq<Server>, i: nat, byID: map<string, Result>)
    requires i < |ss| && forall x :: x in Flat(ss) ==> At(byID, x.id) == Alone(probe, x)
    ensures Entry(byID, ss[i]) == Alone(probe, ss[i])
  {
    hide Alone, Flat, At, Summary;
    PartsInFlat(ss, i);
    var s := ss[i];
    if IsGroup(s) {
      IsSummary(probe, s, AloneAll(probe, s.members));
      assert Looked(byID, s.members) == AloneAll(probe, s.members);
    } else {
      assert s in Parts(s);
    }
  }

  /** A physical server anywhere in the list is still there one level down, and
      the other way round. */
  lemma SamePhysical(x: Server, ss: seq<Server>)
    requires !IsGroup(x) && LevelConsistent(ss)
    ensures InList(x, Physical(ss)) <==> InList(x, ss)
  {
    hide Flat, Firsts, LevelConsistent;
    var leaves := Physical(ss);
    LevelWhole(ss);
    if InList(x, leaves) {
      DeeperInList(x, ss);
    }
    if InList(x, ss) {
      var i :| 0 <= i < |ss| && Within(x, ss[i]);
      PartsInFlat(ss, i);
      var m := x;
      if IsGroup(ss[i]) {
        var j :| 0 <= j < |ss[i].members| && Within(x, ss[i].members[j]);
        m := ss[i].members[j];
      } else {
        assert x == ss[i];
      }
      assert m in Parts(ss[i]);
      var k :| 0 <= k < |leaves| && leaves[k] == m;
      assert Within(x, leaves[k]);
    }
  }

  lemma FlatList(x: Server, ss: seq<Server>)
    requires !HasGroup(ss)
    ensures InList(x, ss) <==> x in ss
    ensures InList(x, ss) ==> !IsGroup(x)
  {
    if InList(x, ss) {
      var i :| 0 <= i < |ss| && Within(x, ss[i]);
      assert !IsGroup(ss[i]);
    }
    if x in ss {
      var i :| 0 <= i < |ss| && ss[i] == x;
      assert Within(x, ss[i]);
    }
  }

  /** Exactly the physical servers in the list are probed, and each once if there
      is a profile in it. */
  lemma {:induction false} ProbedOnce(ss: seq<Server>)
    requires LevelsConsistent(ss)
    ensures forall x :: x in Probed(ss) <==> InList(x, ss) && !IsGroup(x)
    ensures HasGroup(ss) ==> DistinctIds(Probed(ss))
    decreases DepthOf(ss)
  {
    hide InList, Physical, LevelConsistent, DepthOf;
    if HasGroup(ss) {
      LevelShallower(ss);
      LevelWhole(ss);
      ProbedOnce(Physical(ss));
      forall x | !IsGroup(x)
        ensures InList(x, Physical(ss)) <==> InList(x, ss)
      {
        SamePhysical(x, ss);
      }
    } else {
      forall x
        ensures InList(x, ss) <==> x in ss
        ensures InList(x, ss) ==> !IsGroup(x)
      {
        FlatList(x, ss);
      }
    }
  }

  // ----- the condition is exact -----

  /** Profiles whose members are physical servers. */
  ghost predicate OneLevel(ss: seq<Server>) {
    HasGroup(ss) && forall x :: x in Flat(ss) ==> !IsGroup(x)
  }

  /** Whatever the servers measure, every entry gets its own result. */
  ghost predicate AlwaysAlone(ss: seq<Server>) {
    forall probe: Probe, i :: 0 <= i < |ss| ==> Batch(probe, ss)[i] == Alone(probe, ss[i])
  }

  lemma {:induction false} CollectLast(rs: seq<Result>, id: string) returns (k: Option<nat>)
    ensures k.None? ==> At(Collect(rs), id) == Nothing
    ensures k.Some? ==> k.value < |rs| && rs[k.value].id == id && At(Collect(rs), id) == rs[k.value]
    ensures k.Some? ==> forall j :: k.value < j < |rs| ==> rs[j].id != id
    decreases |rs|
  {
    if rs == [] {
      k := None;
    } else if rs[|rs| - 1].id == id {
      k := Some(|rs| - 1);
    } else {
      k := CollectLast(rs[..|rs| - 1], id);
    }
  }

  /** A probe that reaches one server only. */
  function Only(z: Server): Probe {
    x => if x == z then 1 else -1
  }

  /** z is there, and the last of its identifier. */
  ghost predicate LastOfId(leaves: seq<Server>, z: Server, k: nat) {
    k < |leaves| && leaves[k] == z && forall j :: k < j < |leaves| ==> leaves[j].id != z.id
  }

  lemma ReachedIsLast(leaves: seq<Server>, z: Server, id: string) returns (k: nat)
    requires At(Collect(Leaves(Only(z), leaves)), id).latency == 1
    ensures id == z.id && LastOfId(leaves, z, k)
  {
    var o := CollectLast(Leaves(Only(z), leaves), id);
    k := o.value;
  }

  /** If all entries get their own result, every server keeps its place. */
  lemma Kept(ss: seq<Server>, z: Server) returns (k: nat)
    requires OneLevel(ss) && AlwaysAlone(ss) && z in Flat(ss)
    ensures LastOfId(Physical(ss), z, k)
  {
    hide Flat, Physical, Collect, Alone, Batch, Entry, DepthOf, HasGroup, LastOfId, Only, Leaves, At;
    var leaves, probe := Physical(ss), Only(z);
    OneLevelBatch(probe, ss);
    FlatParts(ss, z);
    var i :| 0 <= i < |ss| && z in Parts(ss[i]);
    PartsInFlat(ss, i);
    var byID := Collect(Leaves(probe, leaves));
    assert Entry(byID, ss[i]) == Batch(probe, ss)[i] == Alone(probe, ss[i]);
    if IsGroup(ss[i]) {
      var m := GroupReached(ss[i], z, byID);
      k := ReachedIsLast(leaves, z, m.id);
    } else {
      AloneOf(probe, z);
      LeafEntry(byID, z);
      OnlyReaches(z);
      k := ReachedIsLast(leaves, z, z.id);
    }
  }

  lemma OnlyReaches(z: Server)
    ensures Leaf(Only(z), z).latency == 1
  {
  }

  lemma OneLevelBatch(probe: Probe, ss: seq<Server>)
    requires OneLevel(ss)
    ensures Batch(probe, ss) == Entries(Collect(Leaves(probe, Physical(ss))), ss)
  {
    hide Flat, Physical, Collect, Entry;
    NoGroupBelow(ss);
    LevelShallower(ss);
  }

  lemma NoGroupBelow(ss: seq<Server>)
    requires OneLevel(ss)
    ensures !HasGroup(Physical(ss))
  {
    hide Flat, Firsts;
    FirstsFacts(Flat(ss));
    var leaves := Physical(ss);
    assert forall i :: 0 <= i < |leaves| ==> leaves[i] in leaves;
  }

  lemma GroupReached(s: Server, z: Server, byID: map<string, Result>) returns (m: Server)
    requires IsGroup(s) && z in s.members && (forall x :: x in s.members ==> !IsGroup(x))
    requires Entry(byID, s) == Alone(Only(z), s)
    ensures m in s.members && At(byID, m.id).latency == 1
  {
    hide Alone, At, Fastest;
    var rs := AloneAll(Only(z), s.members);
    IsSummary(Only(z), s, rs);
    var i :| 0 <= i < |s.members| && s.members[i] == z;
    forall j | 0 <= j < |rs|
      ensures rs[j].latency == if s.members[j] == z then 1 else -1
    {
      assert s.members[j] in s.members;
      AloneOf(Only(z), s.members[j]);
    }
    assert rs[i].latency == 1;
    var ls := Looked(byID, s.members);
    var o := Fastest(ls);
    m := s.members[o.value];
  }

  /** With physical members, every entry always gets its own result if and only if
      no identifier (or stand-in for a missing one) means two servers. */
  lemma ExactlyIfConsistent(ss: seq<Server>)
    requires OneLevel(ss)
    ensures AlwaysAlone(ss) <==> LevelConsistent(ss)
  {
    hide Flat, Physical, Batch, Alone, Key;
    if LevelConsistent(ss) {
      NoGroupBelow(ss);
      forall probe: Probe
        ensures forall i :: 0 <= i < |ss| ==> Batch(probe, ss)[i] == Alone(probe, ss[i])
      {
        BatchIsAlone(probe, ss);
      }
    }
    if AlwaysAlone(ss) {
      forall x, y | x in Flat(ss) && y in Flat(ss) && (x.id == y.id || Key(x) == Key(y))
        ensures x == y
      {
        var i := Kept(ss, x);
        var j := Kept(ss, y);
        PhysicalKeys(ss);
      }
    }
  }

  lemma PhysicalKeys(ss: seq<Server>)
    ensures DistinctKeys(Physical(ss))
  {
    FirstsFacts(Flat(ss));
  }

  /** Two servers without an identifier in one profile: some measurement makes the
      profile's result differ from its own. */
  lemma MissingIdsCollide(x: Server, y: Server, g: Server)
    requires !IsGroup(x) && !IsGroup(y) && x != y && x.id == "" && y.id == "" && g.members == [x, y]
    ensures exists probe: Probe :: Batch(probe, [g])[0] != Alone(probe, g)
  {
    hide Batch, Alone, Flat;
    var ss := [g];
    forall z
      ensures z in Flat(ss) <==> z == x || z == y
    {
      FlatParts(ss, z);
      assert z in Parts(ss[0]) <==> z == x || z == y;
    }
    assert IsGroup(ss[0]);
    ExactlyIfConsistent(ss);
    assert !LevelConsistent(ss);
    var probe: Probe, i :| 0 <= i < |ss| && Batch(probe, ss)[i] != Alone(probe, ss[i]);
    assert Batch(probe, [g])[0] != Alone(probe, g);
  }

  /** A profile's result names its first fastest member: its latency, and the
      endpoint it was measured at. */
  lemma {:induction false} ResultNamesMember(s: Server, rs: seq<Result>)
    requires |rs| == |s.members|
    ensures Summary(s, rs).id == s.id
    ensures (forall i :: 0 <= i < |rs| ==> rs[i].latency < 0) ==> Summary(s, rs) == Result(s.id, -1, s.address, s.port, "")
    ensures forall k: nat :: k < |rs| && IsFirstFastest(rs, k) ==>
      Summary(s, rs) == Result(s.id, rs[k].latency, rs[k].address, rs[k].port, s.members[k].id)
    ensures (exists i :: 0 <= i < |rs| && rs[i].latency >= 0) ==> exists k: nat :: k < |rs| && IsFirstFastest(rs, k)
  {
    hide Fastest, IsFirstFastest;
    forall k: nat | k < |rs|
      ensures IsFirstFastest(rs, k) <==> Fastest(rs) == Some(k)
    {
      FastestIsFirst(rs, k);
    }
    var o := Fastest(rs);
    if o.Some? {
      assert IsFirstFastest(rs, o.value);
    }
  }

  lemma {:induction false} FastestIsFirst(rs: seq<Result>, k: nat)
    requires k < |rs|
    ensures IsFirstFastest(rs, k) <==> Fastest(rs) == Some(k)
  {
    hide Fastest;
    var o := Fastest(rs);
    if o.Some? && o.value < k {
      assert rs[o.value].latency >= 0;
    }
  }

  ghost predicate IsFirstFastest(rs: seq<Result>, k: nat)
    requires k < |rs|
  {
    && rs[k].latency >= 0
    && forall i :: 0 <= i < |rs| && rs[i].latency >= 0 ==> rs[k].latency <= rs[i].latency && (i < k ==> rs[k].latency < rs[i].latency)
  }

  /** Identifiers that are there and never mean two servers are enough. */
  lemma IdsSuffice(ss: seq<Server>)
    requires forall x :: InList(x, ss) ==> x.id != ""
    requires forall x, y :: InList(x, ss) && InList(y, ss) && x.id == y.id ==> x == y
    ensures LevelsConsistent(ss)
  {
    hide InList, LevelsConsistent;
    ConsistentLevels(ss);
  }

  // ----- preferring the winner -----

  /** Member i first, the others behind it in their order. */
  function MoveToFront(ms: seq<Server>, i: nat): seq<Server>
    requires i < |ms|
    ensures |MoveToFront(ms, i)| == |ms| && MoveToFront(ms, i)[0] == ms[i]
  {
    [ms[i]] + ms[..i] + ms[i + 1..]
  }

  /** Where a member that is not already in front stands, if it is to be moved. */
  ghost predicate MovesFrom(s: Server, memberID: string, i: nat) {
    && memberID != "" && 1 <= i < |s.members| && s.members[i].id == memberID
    && forall j :: 0 <= j < i ==> s.members[j].id != memberID
  }

  function Moved(s: Server, i: nat): Server
    requires i < |s.members|
  {
    s.(members := MoveToFront(s.members, i), address := s.members[i].address, port := s.members[i].port)
  }

  /** preferGroupMember: shifts the members before the winner up by one. */
  method PreferGroupMember(s: Server, memberID: string) returns (t: Server)
    ensures forall i: nat :: MovesFrom(s, memberID, i) ==> t == Moved(s, i)
    ensures (forall i: nat :: !MovesFrom(s, memberID, i)) ==> t == s
  {
    hide MoveToFront;
    if memberID == "" || |s.members| < 2 || s.members[0].id == memberID {
      return s;
    }
    var i := 1;
    while i < |s.members| && s.members[i].id != memberID
      invariant 1 <= i <= |s.members| && forall j :: 0 <= j < i ==> s.members[j].id != memberID
    {
      i := i + 1;
    }
    if i == |s.members| {
      return s;
    }
    assert MovesFrom(s, memberID, i);
    var members := ShiftUp(s.members, i);
    t := s.(members := members, address := members[0].address, port := members[0].port);
  }

  /** The copy that makes room for the winner in front. */
  method ShiftUp(ms: seq<Server>, i: nat) returns (out: seq<Server>)
    requires i < |ms|
    ensures out == MoveToFront(ms, i)
  {
    out := ms;
    var k := i;
    while k > 0
      invariant 0 <= k <= i && |out| == |ms|
      invariant forall j :: 0 <= j <= k ==> out[j] == ms[j]
      invariant forall j :: k < j <= i ==> out[j] == ms[j - 1]
      invariant forall j :: i < j < |ms| ==> out[j] == ms[j]
    {
      out := out[k := ms[k - 1]];
      k := k - 1;
    }
    out := out[0 := ms[i]];
    var front := MoveToFront(ms, i);
    assert forall j :: 0 < j <= i ==> front[j] == ms[j - 1];
    assert forall j :: i < j < |ms| ==> front[j] == ms[j];
  }

  /** Nothing is lost, and the others keep their order. */
  lemma MoveKeepsOthers(ms: seq<Server>, i: nat)
    requires i < |ms|
    ensures multiset(MoveToFront(ms, i)) == multiset(ms)
    ensures MoveToFront(ms, i)[0] == ms[i] && MoveToFront(ms, i)[1..] == ms[..i] + ms[i + 1..]
  {
    assert ms == ms[..i] + [ms[i]] + ms[i + 1..];
  }

  /** Moving the winner of a ping to the front does not change what a ping of the
      profile gives: the same latency, from the same member. */
  lemma PreferringIsStable(probe: Probe, s: Server, i: nat)
    requires Consistent([s]) && IsGroup(s) && Alone(probe, s).latency >= 0 && MovesFrom(s, Alone(probe, s).selected, i)
    ensures var t := Moved(s, i);
      && Alone(probe, t).latency == Alone(probe, s).latency && Alone(probe, t).selected == Alone(probe, s).selected
      && t.members[0].id == Alone(probe, s).selected && (t.address, t.port) == (s.members[i].address, s.members[i].port)
  {
    hide Alone, Fastest, Consistent;
    var ms := s.members;
    var rs := AloneAll(probe, ms);
    IsSummary(probe, s, rs);
    var k := Fastest(rs).value;
    SameMember(s, i, k);
    var t := Moved(s, i);
    var us := AloneAll(probe, t.members);
    IsSummary(probe, t, us);
    assert us[0] == rs[i] == rs[k];
    forall j | 0 <= j < |us|
      ensures us[j].latency >= 0 ==> us[0].latency <= us[j].latency
    {
      MovedFrom(ms, i, j);
    }
    assert Fastest(us) == Some(0) by { FrontWins(us); }
  }

  lemma FrontWins(us: seq<Result>)
    requires us != [] && us[0].latency >= 0 && forall j :: 0 <= j < |us| && us[j].latency >= 0 ==> us[0].latency <= us[j].latency
    ensures Fastest(us) == Some(0)
  {
    hide Fastest;
    var k := Fastest(us).value;
    assert us[k].latency >= 0;
  }

  /** Every member of the moved list stood somewhere in the old one. */
  lemma MovedFrom(ms: seq<Server>, i: nat, j: nat)
    requires i < |ms| && j < |MoveToFront(ms, i)|
    ensures exists o :: 0 <= o < |ms| && MoveToFront(ms, i)[j] == ms[o]
  {
    var o := if j == 0 then i else if j <= i then j - 1 else j;
    assert MoveToFront(ms, i)[j] == ms[o];
  }

  lemma SameMember(s: Server, i: nat, k: nat)
    requires Consistent([s]) && i < |s.members| && k < |s.members| && s.members[i].id == s.members[k].id
    ensures s.members[i] == s.members[k]
  {
    hide Key;
    var x, y := s.members[i], s.members[k];
    assert Within(x, s.members[i]) && Within(y, s.members[k]);
    assert Within(x, [s][0]) && Within(y, [s][0]);
  }

  // ----- the best of several results -----

  /** Position of the first smallest reachable, compatible latency. */
  method FastestReachable(latency: seq<int>, incompat: seq<bool>) returns (best: Option<nat>)
    requires |incompat| == |latency|
    ensures best.None? <==> forall i :: 0 <= i < |latency| ==> latency[i] < 0 || incompat[i]
    ensures best.Some? ==> best.value < |latency| && latency[best.value] >= 0 && !incompat[best.value]
    ensures best.Some? ==> forall i :: 0 <= i < |latency| && latency[i] >= 0 && !incompat[i] ==>
      latency[best.value] <= latency[i] && (i < best.value ==> latency[best.value] < latency[i])
  {
    best := None;
    for i := 0 to |latency|
      invariant best.None? <==> forall j :: 0 <= j < i ==> latency[j] < 0 || incompat[j]
      invariant best.Some? ==> best.value < i && latency[best.value] >= 0 && !incompat[best.value]
      invariant best.Some? ==> forall j :: 0 <= j < i && latency[j] >= 0 && !incompat[j] ==>
        latency[best.value] <= latency[j] && (j < best.value ==> latency[best.value] < latency[j])
    {
      if latency[i] >= 0 && !incompat[i] && (best.None? || latency[i] < latency[best.value]) {
        best := Some(i);
      }
    }
  }
}

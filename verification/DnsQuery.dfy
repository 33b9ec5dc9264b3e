/** Asking several name servers: one after the other, or all at once with the
    answer taken from the first group of equal policy that has one. */
module DnsQuery {
  import opened Options

  datatype Error = RecordNotFound | EmptyResponse | Other(code: nat)

  datatype Client = Client(policy: nat, isFakeDns: bool)

  datatype Outcome = Outcome(ips: seq<nat>, ttl: nat, err: Option<Error>)

  /** What a lookup ends with. */
  datatype Failure = Empty | Wrapped(cause: Error) | Combined(causes: seq<Error>)
  datatype Result = Found(ips: seq<nat>, ttl: nat) | Failed(why: Failure)

  /** What Client.QueryIP promises: addresses or an error, never both. */
  predicate WellFormed(o: Outcome) {
    o.err.None? <==> o.ips != []
  }

  predicate Skipped(c: Client, fakeEnable: bool) {
    !fakeEnable && c.isFakeDns
  }

  // ----- merging errors -----

  predicate Differs(errs: seq<Error>) {
    exists i, j :: 0 <= i < j < |errs| && errs[i] != RecordNotFound && errs[j] != RecordNotFound && errs[i] != errs[j]
  }

  /** The answer to a lookup nobody could satisfy: "empty" if that is all servers
      say, the one cause if they agree, and all of them otherwise. Servers that
      found no record do not count. */
  ghost predicate IsMerged(errs: seq<Error>, f: Failure) {
    && (Differs(errs) ==> f == Combined(errs))
    && (!Differs(errs) ==>
          && (errs == [] || EmptyResponse in errs ==> f == Empty)
          && (errs != [] && (forall e :: e in errs ==> e == RecordNotFound) ==> f == Wrapped(RecordNotFound))
          && (forall c :: Other(c) in errs ==> f == Wrapped(Other(c))))
  }

  /** mergeQueryErrors. */
  method MergeQueryErrors(errs: seq<Error>) returns (f: Failure)
    ensures IsMerged(errs, f)
  {
    if |errs| == 0 {
      return Empty;
    }
    var first: Option<Error> := None;
    for i := 0 to |errs|
      invariant first.None? ==> forall k :: 0 <= k < i ==> errs[k] == RecordNotFound
      invariant first.Some? ==> first.value != RecordNotFound && first.value in errs[..i]
      invariant first.Some? ==> forall k :: 0 <= k < i ==> errs[k] == RecordNotFound || errs[k] == first.value
    {
      if errs[i] != RecordNotFound {
        if first.None? {
          first := Some(errs[i]);
        } else if errs[i] != first.value {
          assert Differs(errs);
          return Combined(errs);
        }
      }
    }
    if first.None? {
      return Wrapped(RecordNotFound);
    }
    assert first.value in errs;
    if first.value == EmptyResponse {
      return Empty;
    }
    return Wrapped(first.value);
  }

  /** Exactly one answer fits. */
  lemma MergedUnique(errs: seq<Error>, f: Failure, g: Failure)
    requires IsMerged(errs, f) && IsMerged(errs, g)
    ensures f == g
  {
    if !Differs(errs) && errs != [] && EmptyResponse !in errs {
      if e :| e in errs && e != RecordNotFound {
        assert e == Other(e.code);
      }
    }
  }

  // ----- groups -----

  /** Inclusive range of clients. */
  datatype Group = Group(start: nat, end: nat)

  ghost predicate SameGroup(cs: seq<Client>, i: nat, j: nat)
    requires i < |cs| && j < |cs|
  {
    forall k :: (i <= k <= j || j <= k <= i) ==> cs[k].policy == cs[i].policy
  }

  predicate InGroup(g: Group, k: int) {
    g.start <= k <= g.end
  }

  /** A run of equal policy that the previous client does not belong to. */
  ghost predicate IsGroup(cs: seq<Client>, n: nat, g: Group)
    requires n <= |cs|
  {
    && g.start <= g.end < n
    && (forall k :: g.start <= k <= g.end ==> cs[k].policy == cs[g.start].policy)
    && (g.start > 0 ==> cs[g.start - 1].policy != cs[g.start].policy)
  }

  ghost predicate Chained(gs: seq<Group>) {
    forall g {:trigger StartOf(gs, g)} :: 0 <= g < |gs| ==> gs[g].start == StartOf(gs, g)
  }

  function StartOf(gs: seq<Group>, g: nat): nat
    requires g <= |gs|
  {
    if g == 0 then 0 else gs[g - 1].end + 1
  }

  /** The groups of the first n clients are their maximal runs of equal policy. */
  ghost predicate GroupsOf(cs: seq<Client>, n: nat, gs: seq<Group>)
    requires n <= |cs|
  {
    Chained(gs) && StartOf(gs, |gs|) == n && forall g :: 0 <= g < |gs| ==> IsGroup(cs, n, gs[g])
  }

  ghost predicate Finds(gs: seq<Group>, groupOf: seq<nat>) {
    forall k :: 0 <= k < |groupOf| ==> groupOf[k] < |gs| && InGroup(gs[groupOf[k]], k)
  }

  lemma {:induction false} AddGroup(cs: seq<Client>, n: nat, gs: seq<Group>, g: Group)
    requires n <= g.end + 1 <= |cs| && GroupsOf(cs, n, gs) && g.start == n && IsGroup(cs, g.end + 1, g)
    ensures GroupsOf(cs, g.end + 1, gs + [g])
  {
    hide IsGroup;
    var all := gs + [g];
    forall k | 0 <= k < |all|
      ensures IsGroup(cs, g.end + 1, all[k])
    {
      if k < |gs| {
        IsGroupLater(cs, n, g.end + 1, gs[k]);
      }
    }
    forall k | 0 <= k < |all|
      ensures all[k].start == StartOf(all, k)
    {
      assert StartOf(all, k) == StartOf(gs, k);
    }
  }

  lemma IsGroupLater(cs: seq<Client>, n: nat, m: nat, g: Group)
    requires n <= m <= |cs| && IsGroup(cs, n, g)
    ensures IsGroup(cs, m, g)
  {
  }

  lemma AddFinds(gs: seq<Group>, groupOf: seq<nat>, g: Group)
    requires Finds(gs, groupOf) && g.start == |groupOf| <= g.end + 1
    ensures Finds(gs + [g], groupOf + seq(g.end + 1 - g.start, _ => |gs|))
  {
  }

  /** makeGroups. */
  method MakeGroups(cs: seq<Client>) returns (gs: seq<Group>, groupOf: seq<nat>)
    ensures GroupsOf(cs, |cs|, gs) && |groupOf| == |cs| && Finds(gs, groupOf)
  {
    hide GroupsOf, Finds;
    gs, groupOf := [], [];
    NoGroups(cs, gs, groupOf);
    if |cs| == 0 {
      return;
    }
    var s, e := 0, 0;
    for i := 1 to |cs|
      invariant 0 <= s <= e == i - 1 && |groupOf| == s
      invariant GroupsOf(cs, s, gs) && IsGroup(cs, e + 1, Group(s, e)) && Finds(gs, groupOf)
    {
      if cs[i - 1].policy == cs[i].policy {
        e := i;
      } else {
        AddGroup(cs, s, gs, Group(s, e));
        AddFinds(gs, groupOf, Group(s, e));
        groupOf := groupOf + seq(e + 1 - s, _ => |gs|);
        gs := gs + [Group(s, e)];
        s, e := i, i;
      }
    }
    AddGroup(cs, s, gs, Group(s, e));
    AddFinds(gs, groupOf, Group(s, e));
    groupOf := groupOf + seq(e + 1 - s, _ => |gs|);
    gs := gs + [Group(s, e)];
  }

  lemma NoGroups(cs: seq<Client>, gs: seq<Group>, groupOf: seq<nat>)
    requires gs == [] && groupOf == []
    ensures GroupsOf(cs, 0, gs) && Finds(gs, groupOf)
  {
  }

  // ----- all at once -----

  predicate Answers(o: Outcome) {
    o.err.None? && o.ips != []
  }

  function ErrorOf(o: Outcome): Error {
    if o.err.Some? then o.err.value else EmptyResponse
  }

  /** One error per client, in order. */
  function Errors(outs: seq<Outcome>): (errs: seq<Error>)
    ensures |errs| == |outs|
  {
    seq(|outs|, i requires 0 <= i < |outs| => ErrorOf(outs[i]))
  }

  /** asyncQueryAll: what each client puts on the channel. */
  function Posted(cs: seq<Client>, fakeEnable: bool, oracle: seq<Outcome>): (outs: seq<Outcome>)
    requires |oracle| == |cs|
    ensures |outs| == |cs|
  {
    seq(|cs|, i requires 0 <= i < |cs| => if Skipped(cs[i], fakeEnable) then Outcome([], 0, Some(EmptyResponse)) else oracle[i])
  }

  /** Every client reports exactly once, in any order. */
  ghost predicate IsArrival(n: nat, arrival: seq<nat>) {
    && |arrival| == n
    && (forall t :: 0 <= t < n ==> arrival[t] < n)
    && (forall t, u :: 0 <= t < u < n ==> arrival[t] != arrival[u])
    && (forall k: nat :: k < n ==> k in arrival)
  }

  /** With these results in, client j wins: it answers, nobody before it in its
      group has answered, and everybody in earlier groups has failed. */
  ghost predicate Decides(cs: seq<Client>, outs: seq<Outcome>, arrived: seq<nat>, j: nat)
    requires |outs| == |cs|
  {
    && j < |cs| && j in arrived && Answers(outs[j])
    && forall k: nat :: k < j ==> (k in arrived ==> !Answers(outs[k])) && (k in arrived || SameGroup(cs, k, j))
  }

  ghost predicate Undecided(cs: seq<Client>, outs: seq<Outcome>, arrived: seq<nat>)
    requires |outs| == |cs|
  {
    forall j: nat :: !Decides(cs, outs, arrived, j)
  }

  /** Client j wins at the first moment anybody can. */
  ghost predicate Wins(cs: seq<Client>, outs: seq<Outcome>, arrival: seq<nat>, t: nat, j: nat)
    requires |outs| == |cs|
  {
    && t <= |arrival| && Decides(cs, outs, arrival[..t], j)
    && forall u: nat :: u < t ==> Undecided(cs, outs, arrival[..u])
  }

  ghost predicate NoAnswer(outs: seq<Outcome>) {
    forall k :: 0 <= k < |outs| ==> !Answers(outs[k])
  }

  /** What the race promises. */
  ghost predicate RaceResult(cs: seq<Client>, outs: seq<Outcome>, arrival: seq<nat>, r: Result)
    requires |outs| == |cs|
  {
    match r
    case Found(ips, ttl) => exists t: nat, j: nat :: Wins(cs, outs, arrival, t, j) && ips == outs[j].ips && ttl == outs[j].ttl
    case Failed(why) => NoAnswer(outs) && IsMerged(Errors(outs), why)
  }

  // ----- the state of the race -----

  ghost predicate Filled(outs: seq<Outcome>, arrived: seq<nat>, results: seq<Option<Outcome>>) {
    |results| == |outs| && forall k: nat :: k < |outs| ==> results[k] == if k in arrived then Some(outs[k]) else None
  }

  ghost function Missing(g: Group, arrived: seq<nat>): set<nat> {
    set k: nat | g.start <= k <= g.end && k !in arrived
  }

  ghost predicate Counted(gs: seq<Group>, arrived: seq<nat>, pending: seq<int>) {
    |pending| == |gs| && forall g :: 0 <= g < |gs| ==> pending[g] == |Missing(gs[g], arrived)|
  }

  /** The first m clients have all reported a failure. */
  ghost predicate Passed(outs: seq<Outcome>, arrived: seq<nat>, m: nat) {
    m <= |outs| && forall k: nat :: k < m ==> k in arrived && !Answers(outs[k])
  }

  ghost predicate NoneYet(outs: seq<Outcome>, arrived: seq<nat>, g: Group) {
    g.end < |outs| && forall k: nat :: g.start <= k <= g.end && k in arrived ==> !Answers(outs[k])
  }

  /** The current group is neither decided nor complete. */
  ghost predicate Waiting(gs: seq<Group>, outs: seq<Outcome>, arrived: seq<nat>, ng: nat) {
    ng < |gs| ==> NoneYet(outs, arrived, gs[ng]) && Missing(gs[ng], arrived) != {}
  }

  lemma {:induction false} GroupSize(a: nat, b: nat)
    requires a <= b + 1
    ensures |Missing(Group(a, b), [])| == b + 1 - a
    decreases b + 1 - a
  {
    var s := Missing(Group(a, b), []);
    if a <= b {
      GroupSize(a + 1, b);
      assert s == {a} + Missing(Group(a + 1, b), []);
    } else {
      assert s == {};
    }
  }

  lemma CountStart(gs: seq<Group>, pending: seq<int>)
    requires |pending| == |gs| && forall g :: 0 <= g < |gs| ==> gs[g].start <= gs[g].end && pending[g] == gs[g].end - gs[g].start + 1
    ensures Counted(gs, [], pending)
  {
    hide Missing;
    forall g | 0 <= g < |gs|
      ensures pending[g] == |Missing(gs[g], [])|
    {
      GroupSize(gs[g].start, gs[g].end);
      assert gs[g] == Group(gs[g].start, gs[g].end);
    }
  }

  /** Groups do not overlap. */
  lemma {:induction false} GroupsApart(cs: seq<Client>, gs: seq<Group>, g: nat, h: nat)
    requires GroupsOf(cs, |cs|, gs) && g < h < |gs|
    ensures gs[g].end < gs[h].start
    decreases h - g
  {
    assert gs[h].start == StartOf(gs, h);
    if g + 1 < h {
      GroupsApart(cs, gs, g, h - 1);
      assert IsGroup(cs, |cs|, gs[h - 1]);
    }
  }

  lemma CountOne(cs: seq<Client>, gs: seq<Group>, arrived: seq<nat>, pending: seq<int>, i: nat, gi: nat)
    requires GroupsOf(cs, |cs|, gs) && Counted(gs, arrived, pending) && i !in arrived && gi < |gs| && InGroup(gs[gi], i)
    ensures Counted(gs, arrived + [i], pending[gi := pending[gi] - 1])
  {
    hide GroupsOf;
    var after := arrived + [i];
    forall g | 0 <= g < |gs|
      ensures pending[gi := pending[gi] - 1][g] == |Missing(gs[g], after)|
    {
      if g == gi {
        assert Missing(gs[g], after) == Missing(gs[g], arrived) - {i};
      } else {
        if g < gi {
          GroupsApart(cs, gs, g, gi);
        } else {
          GroupsApart(cs, gs, gi, g);
        }
        assert Missing(gs[g], after) == Missing(gs[g], arrived);
      }
    }
  }

  lemma FillOne(outs: seq<Outcome>, arrived: seq<nat>, results: seq<Option<Outcome>>, i: nat)
    requires Filled(outs, arrived, results) && i < |outs|
    ensures Filled(outs, arrived + [i], results[i := Some(outs[i])])
  {
  }

  /** Across the end of a group the policy changes. */
  lemma Apart(cs: seq<Client>, gs: seq<Group>, g: nat, x: nat, k: nat)
    requires GroupsOf(cs, |cs|, gs) && g < |gs| && InGroup(gs[g], x) && gs[g].end < k < |cs|
    ensures !SameGroup(cs, x, k)
  {
    assert g + 1 < |gs|;
    assert gs[g + 1].start == StartOf(gs, g + 1);
    assert IsGroup(cs, |cs|, gs[g + 1]) && IsGroup(cs, |cs|, gs[g]);
    assert cs[gs[g].end].policy != cs[gs[g].end + 1].policy;
  }

  lemma WaitingUndecided(cs: seq<Client>, outs: seq<Outcome>, arrived: seq<nat>, gs: seq<Group>, ng: nat)
    requires |outs| == |cs| && GroupsOf(cs, |cs|, gs) && ng <= |gs|
    requires Passed(outs, arrived, StartOf(gs, ng)) && Waiting(gs, outs, arrived, ng)
    ensures Undecided(cs, outs, arrived)
  {
    hide SameGroup, GroupsOf, IsGroup, Answers;
    forall j: nat
      ensures !Decides(cs, outs, arrived, j)
    {
      if Decides(cs, outs, arrived, j) {
        GroupStart(cs, gs, ng);
        var x :| x in Missing(gs[ng], arrived);
        Apart(cs, gs, ng, x, j);
      }
    }
  }

  lemma GroupStart(cs: seq<Client>, gs: seq<Group>, ng: nat)
    requires GroupsOf(cs, |cs|, gs) && ng <= |gs|
    ensures ng < |gs| ==> gs[ng].start == StartOf(gs, ng) && gs[ng].start <= gs[ng].end < |cs| && StartOf(gs, ng + 1) == gs[ng].end + 1
    ensures ng == |gs| ==> StartOf(gs, ng) == |cs|
  {
    if ng < |gs| {
      assert IsGroup(cs, |cs|, gs[ng]);
    }
  }

  lemma FirstDecides(cs: seq<Client>, outs: seq<Outcome>, arrived: seq<nat>, gs: seq<Group>, ng: nat, j: nat)
    requires |outs| == |cs| && GroupsOf(cs, |cs|, gs) && ng < |gs| && Passed(outs, arrived, gs[ng].start)
    requires InGroup(gs[ng], j) && j < |cs| && j in arrived && Answers(outs[j])
    requires forall k: nat :: gs[ng].start <= k < j && k in arrived ==> !Answers(outs[k])
    ensures Decides(cs, outs, arrived, j)
  {
    hide GroupsOf, Answers;
    forall k: nat | k < j
      ensures (k in arrived ==> !Answers(outs[k])) && (k in arrived || SameGroup(cs, k, j))
    {
      if k >= gs[ng].start {
        Together(cs, gs, ng, k, j);
      }
    }
  }

  lemma Together(cs: seq<Client>, gs: seq<Group>, g: nat, k: nat, j: nat)
    requires GroupsOf(cs, |cs|, gs) && g < |gs| && InGroup(gs[g], k) && InGroup(gs[g], j)
    ensures k < |cs| && j < |cs| && SameGroup(cs, k, j)
  {
    assert IsGroup(cs, |cs|, gs[g]);
  }

  /** The scan of one group for an answer that is in. */
  method FindAnswer(outs: seq<Outcome>, ghost arrived: seq<nat>, results: seq<Option<Outcome>>, g: Group) returns (found: Option<nat>)
    requires Filled(outs, arrived, results) && g.start <= g.end < |outs|
    ensures found.None? ==> NoneYet(outs, arrived, g)
    ensures found.Some? ==>
      var j := found.value;
      && InGroup(g, j) && j < |outs| && j in arrived && Answers(outs[j]) && results[j] == Some(outs[j])
      && forall k: nat :: g.start <= k < j && k in arrived ==> !Answers(outs[k])
  {
    hide Answers;
    found := None;
    var j := g.start;
    while j <= g.end
      invariant g.start <= j <= g.end + 1
      invariant forall k: nat :: g.start <= k < j && k in arrived ==> !Answers(outs[k])
    {
      var r := results[j];
      if r.Some? && Answers(r.value) {
        return Some(j);
      }
      j := j + 1;
    }
  }

  /** Log the failures of a complete group. */
  method CollectErrors(outs: seq<Outcome>, results: seq<Option<Outcome>>, g: Group, errs: seq<Error>) returns (all: seq<Error>)
    requires g.start <= g.end < |outs| && |results| == |outs| && errs == Errors(outs)[..g.start]
    requires forall k: nat :: g.start <= k <= g.end ==> results[k] == Some(outs[k])
    ensures all == Errors(outs)[..g.end + 1]
  {
    all := errs;
    var j := g.start;
    while j <= g.end
      invariant g.start <= j <= g.end + 1 && all == Errors(outs)[..j]
    {
      var e := results[j].value.err;
      all := all + [if e.None? then EmptyResponse else e.value];
      j := j + 1;
    }
  }

  /** Move on past complete groups without an answer. */
  method Advance(cs: seq<Client>, outs: seq<Outcome>, ghost arrived: seq<nat>, gs: seq<Group>, results: seq<Option<Outcome>>, pending: seq<int>, errs: seq<Error>, nextGroup: nat)
    returns (winner: Option<nat>, errs': seq<Error>, nextGroup': nat)
    requires |outs| == |cs| && GroupsOf(cs, |cs|, gs) && Filled(outs, arrived, results) && Counted(gs, arrived, pending)
    requires nextGroup <= |gs| && StartOf(gs, nextGroup) <= |outs| && Passed(outs, arrived, StartOf(gs, nextGroup)) && errs == Errors(outs)[..StartOf(gs, nextGroup)]
    ensures winner.Some? ==> Decides(cs, outs, arrived, winner.value)
    ensures winner.None? ==>
      && nextGroup' <= |gs| && StartOf(gs, nextGroup') <= |outs| && Passed(outs, arrived, StartOf(gs, nextGroup')) && errs' == Errors(outs)[..StartOf(gs, nextGroup')]
      && Waiting(gs, outs, arrived, nextGroup')
  {
    hide GroupsOf, Filled, Counted, Decides, Answers, Passed, Errors;
    winner, errs', nextGroup' := None, errs, nextGroup;
    while nextGroup' < |gs|
      invariant winner.None? && nextGroup <= nextGroup' <= |gs| && StartOf(gs, nextGroup') <= |outs| && Passed(outs, arrived, StartOf(gs, nextGroup'))
      invariant errs' == Errors(outs)[..StartOf(gs, nextGroup')]
      decreases |gs| - nextGroup'
    {
      var g := gs[nextGroup'];
      GroupStart(cs, gs, nextGroup');
      winner := FindAnswer(outs, arrived, results, g);
      if winner.Some? {
        FirstDecides(cs, outs, arrived, gs, nextGroup', winner.value);
        return;
      }
      IsComplete(outs, arrived, gs, results, pending, nextGroup');
      if pending[nextGroup'] > 0 {
        return;
      }
      PassGroup(outs, arrived, g);
      errs' := CollectErrors(outs, results, g, errs');
      nextGroup' := nextGroup' + 1;
    }
  }

  lemma IsComplete(outs: seq<Outcome>, arrived: seq<nat>, gs: seq<Group>, results: seq<Option<Outcome>>, pending: seq<int>, ng: nat)
    requires Filled(outs, arrived, results) && Counted(gs, arrived, pending) && ng < |gs| && gs[ng].end < |outs|
    ensures |pending| == |gs| && |results| == |outs|
    ensures pending[ng] > 0 <==> Missing(gs[ng], arrived) != {}
    ensures pending[ng] <= 0 ==> forall k: nat :: gs[ng].start <= k <= gs[ng].end ==> results[k] == Some(outs[k])
  {
    var m := Missing(gs[ng], arrived);
    if pending[ng] <= 0 {
      assert m == {};
      forall k: nat | gs[ng].start <= k <= gs[ng].end
        ensures results[k] == Some(outs[k])
      {
        assert k !in m;
      }
    }
  }

  lemma PassGroup(outs: seq<Outcome>, arrived: seq<nat>, g: Group)
    requires Passed(outs, arrived, g.start) && NoneYet(outs, arrived, g) && Missing(g, arrived) == {} && g.start <= g.end
    ensures Passed(outs, arrived, g.end + 1)
  {
    hide Answers;
    forall k: nat | k < g.end + 1
      ensures k in arrived && !Answers(outs[k])
    {
      assert k !in Missing(g, arrived);
    }
  }

  lemma PassedLater(outs: seq<Outcome>, arrived: seq<nat>, i: nat, m: nat)
    requires Passed(outs, arrived, m)
    ensures Passed(outs, arrived + [i], m)
  {
  }

  /** parallelQuery: for every order in which results arrive. */
  method ParallelQuery(cs: seq<Client>, outs: seq<Outcome>, arrival: seq<nat>) returns (r: Result)
    requires |outs| == |cs| && IsArrival(|cs|, arrival)
    ensures RaceResult(cs, outs, arrival, r)
    ensures r.Found? ==> exists j :: 0 <= j < |outs| && outs[j] == Outcome(r.ips, r.ttl, None) && r.ips != []
    ensures r.Failed? ==> forall k :: 0 <= k < |outs| ==> outs[k].err.Some? || outs[k].ips == []
  {
    hide GroupsOf, Filled, Counted, Decides, Passed, Errors, Undecided, Waiting;
    var gs, groupOf := MakeGroups(cs);
    var results: seq<Option<Outcome>> := seq(|cs|, _ => None);
    var pending := seq(|gs|, g requires 0 <= g < |gs| => gs[g].end - gs[g].start + 1);
    var errs, nextGroup: nat := [], 0;
    RaceStart(cs, outs, gs, results, pending);
    for t := 0 to |cs|
      invariant Filled(outs, arrival[..t], results) && Counted(gs, arrival[..t], pending)
      invariant nextGroup <= |gs| && StartOf(gs, nextGroup) <= |outs| && Passed(outs, arrival[..t], StartOf(gs, nextGroup))
      invariant errs == Errors(outs)[..StartOf(gs, nextGroup)]
      invariant forall u: nat :: u < t ==> Undecided(cs, outs, arrival[..u])
      invariant cs == [] || Undecided(cs, outs, arrival[..t])
      invariant Waiting(gs, outs, arrival[..t], nextGroup)
    {
      var i := arrival[t];
      ghost var before, after := arrival[..t], arrival[..t + 1];
      assert after == before + [i];
      Arrives(cs, outs, arrival, t, gs, groupOf, results, pending);
      PassedLater(outs, before, i, StartOf(gs, nextGroup));
      results := results[i := Some(outs[i])];
      var gi := groupOf[i];
      pending := pending[gi := pending[gi] - 1];
      var winner;
      winner, errs, nextGroup := Advance(cs, outs, after, gs, results, pending, errs, nextGroup);
      if winner.Some? {
        var j := winner.value;
        Won(cs, outs, arrival, t + 1, j);
        return Found(outs[j].ips, outs[j].ttl);
      }
      WaitingUndecided(cs, outs, after, gs, nextGroup);
    }
    AllIn(cs, outs, arrival, gs, nextGroup);
    var why := MergeQueryErrors(errs);
    return Failed(why);
  }

  lemma RaceStart(cs: seq<Client>, outs: seq<Outcome>, gs: seq<Group>, results: seq<Option<Outcome>>, pending: seq<int>)
    requires |outs| == |cs| == |results| && GroupsOf(cs, |cs|, gs) && |pending| == |gs|
    requires forall k :: 0 <= k < |cs| ==> results[k] == None
    requires forall g :: 0 <= g < |gs| ==> pending[g] == gs[g].end - gs[g].start + 1
    ensures Filled(outs, [], results) && Counted(gs, [], pending) && Passed(outs, [], 0)
    ensures Errors(outs)[..0] == [] && Undecided(cs, outs, []) && Waiting(gs, outs, [], 0)
  {
    hide Missing;
    forall g | 0 <= g < |gs|
      ensures gs[g].start <= gs[g].end
    {
      assert IsGroup(cs, |cs|, gs[g]);
    }
    CountStart(gs, pending);
    if gs != [] {
      assert IsGroup(cs, |cs|, gs[0]);
      assert pending[0] == |Missing(gs[0], [])|;
    }
  }

  lemma Arrives(cs: seq<Client>, outs: seq<Outcome>, arrival: seq<nat>, t: nat, gs: seq<Group>, groupOf: seq<nat>, results: seq<Option<Outcome>>, pending: seq<int>)
    requires |outs| == |cs| == |groupOf| && IsArrival(|cs|, arrival) && t < |cs|
    requires GroupsOf(cs, |cs|, gs) && Finds(gs, groupOf) && Filled(outs, arrival[..t], results) && Counted(gs, arrival[..t], pending)
    ensures var i := arrival[t]; var gi := groupOf[i];
      && i < |cs| && gi < |gs| && |results| == |cs| && |pending| == |gs|
      && Filled(outs, arrival[..t] + [i], results[i := Some(outs[i])])
      && Counted(gs, arrival[..t] + [i], pending[gi := pending[gi] - 1])
  {
    hide GroupsOf;
    var i := arrival[t];
    FillOne(outs, arrival[..t], results, i);
    CountOne(cs, gs, arrival[..t], pending, i, groupOf[i]);
  }

  lemma Won(cs: seq<Client>, outs: seq<Outcome>, arrival: seq<nat>, t: nat, j: nat)
    requires |outs| == |cs| && t <= |arrival| && Decides(cs, outs, arrival[..t], j)
    requires forall u: nat :: u < t ==> Undecided(cs, outs, arrival[..u])
    ensures j < |outs| && Wins(cs, outs, arrival, t, j) && RaceResult(cs, outs, arrival, Found(outs[j].ips, outs[j].ttl))
    ensures outs[j] == Outcome(outs[j].ips, outs[j].ttl, None) && outs[j].ips != []
  {
    hide Undecided;
  }

  lemma AllIn(cs: seq<Client>, outs: seq<Outcome>, arrival: seq<nat>, gs: seq<Group>, ng: nat)
    requires |outs| == |cs| && IsArrival(|cs|, arrival) && GroupsOf(cs, |cs|, gs) && ng <= |gs|
    requires Passed(outs, arrival[..|cs|], StartOf(gs, ng)) && Waiting(gs, outs, arrival[..|cs|], ng)
    ensures StartOf(gs, ng) == |cs| && Errors(outs)[..|cs|] == Errors(outs) && NoAnswer(outs)
  {
    hide GroupsOf;
    assert arrival[..|cs|] == arrival;
    GroupStart(cs, gs, ng);
  }

  // ----- one after the other -----

  /** The first client a serial query would answer from. */
  ghost predicate IsFirst(cs: seq<Client>, fakeEnable: bool, oracle: seq<Outcome>, j: nat)
    requires |oracle| == |cs|
  {
    && j < |cs| && (fakeEnable || !cs[j].isFakeDns) && oracle[j].ips != []
    && forall k: nat :: k < j && (fakeEnable || !cs[k].isFakeDns) ==> oracle[k].ips == []
  }

  /** Errors of the clients that were asked. */
  function Asked(cs: seq<Client>, fakeEnable: bool, oracle: seq<Outcome>): seq<Error>
    requires |oracle| == |cs|
  {
    if cs == [] then []
    else
      var n := |cs| - 1;
      Asked(cs[..n], fakeEnable, oracle[..n]) + if Skipped(cs[n], fakeEnable) then [] else [ErrorOf(oracle[n])]
  }

  ghost predicate NobodyAnswers(cs: seq<Client>, fakeEnable: bool, oracle: seq<Outcome>)
    requires |oracle| == |cs|
  {
    forall k :: 0 <= k < |cs| && (fakeEnable || !cs[k].isFakeDns) ==> oracle[k].ips == []
  }

  ghost predicate SerialResult(cs: seq<Client>, fakeEnable: bool, oracle: seq<Outcome>, r: Result)
    requires |oracle| == |cs|
  {
    match r
    case Found(ips, ttl) => exists j: nat :: IsFirst(cs, fakeEnable, oracle, j) && ips == oracle[j].ips && ttl == oracle[j].ttl
    case Failed(why) => NobodyAnswers(cs, fakeEnable, oracle) && IsMerged(Asked(cs, fakeEnable, oracle), why)
  }

  /** serialQuery. */
  method SerialQuery(cs: seq<Client>, fakeEnable: bool, oracle: seq<Outcome>) returns (r: Result)
    requires |oracle| == |cs|
    ensures SerialResult(cs, fakeEnable, oracle, r)
  {
    var errs := [];
    for i := 0 to |cs|
      invariant forall k: nat :: k < i && (fakeEnable || !cs[k].isFakeDns) ==> oracle[k].ips == []
      invariant errs == Asked(cs[..i], fakeEnable, oracle[..i])
    {
      assert cs[..i + 1][..i] == cs[..i] && oracle[..i + 1][..i] == oracle[..i];
      if fakeEnable || !cs[i].isFakeDns {
        if |oracle[i].ips| > 0 {
          assert IsFirst(cs, fakeEnable, oracle, i);
          return Found(oracle[i].ips, oracle[i].ttl);
        }
        errs := errs + [if oracle[i].err.None? then EmptyResponse else oracle[i].err.value];
      }
    }
    assert cs[..|cs|] == cs && oracle[..|cs|] == oracle;
    var why := MergeQueryErrors(errs);
    return Failed(why);
  }

  // ----- the two agree -----

  /** The winner's group is the first group that has any answer. */
  lemma WinnerInFirstGroup(cs: seq<Client>, outs: seq<Outcome>, arrival: seq<nat>, t: nat, j: nat, first: nat)
    requires |outs| == |cs| && Wins(cs, outs, arrival, t, j)
    requires first < |cs| && Answers(outs[first]) && forall k: nat :: k < first ==> !Answers(outs[k])
    ensures first <= j && SameGroup(cs, first, j)
  {
    hide SameGroup, Answers;
    if first == j {
      SameAsItself(cs, j);
    }
  }

  lemma SameAsItself(cs: seq<Client>, j: nat)
    requires j < |cs|
    ensures SameGroup(cs, j, j)
  {
  }

  predicate Singletons(cs: seq<Client>) {
    forall k :: 0 < k < |cs| ==> cs[k - 1].policy != cs[k].policy
  }

  /** Parallel and serial lookups of the same servers agree on success; they give
      the same answer when no two neighbours share a policy; and the parallel one
      always answers from the group of the serial one's server. */
  lemma ParallelAgreesWithSerial(cs: seq<Client>, fakeEnable: bool, oracle: seq<Outcome>, arrival: seq<nat>, p: Result, s: Result)
    requires |oracle| == |cs| && IsArrival(|cs|, arrival) && forall k :: 0 <= k < |cs| ==> WellFormed(oracle[k])
    requires RaceResult(cs, Posted(cs, fakeEnable, oracle), arrival, p) && SerialResult(cs, fakeEnable, oracle, s)
    ensures p.Found? <==> s.Found?
    ensures Singletons(cs) && p.Found? ==> p == s
    ensures p.Found? ==> exists i: nat, j: nat ::
      IsFirst(cs, fakeEnable, oracle, i) && j < |cs| && SameGroup(cs, i, j) && p == Found(oracle[j].ips, oracle[j].ttl)
  {
    hide SameGroup, IsMerged, Asked, Errors;
    var outs := Posted(cs, fakeEnable, oracle);
    assert forall k: nat :: k < |cs| ==> (Answers(outs[k]) <==> !Skipped(cs[k], fakeEnable) && oracle[k].ips != []);
    if p.Found? {
      var t: nat, j: nat :| Wins(cs, outs, arrival, t, j) && p.ips == outs[j].ips && p.ttl == outs[j].ttl;
      assert Answers(outs[j]);
      var i: nat :| IsFirst(cs, fakeEnable, oracle, i) && s == Found(oracle[i].ips, oracle[i].ttl);
      WinnerInFirstGroup(cs, outs, arrival, t, j, i);
      SingletonGroup(cs, i, j);
    }
  }

  lemma SingletonGroup(cs: seq<Client>, i: nat, j: nat)
    requires i <= j < |cs| && SameGroup(cs, i, j)
    ensures Singletons(cs) ==> i == j
  {
    if i < j {
      assert cs[i + 1 - 1].policy == cs[i + 1].policy;
    }
  }

  // ----- failures -----

  ghost predicate SomeSkipped(cs: seq<Client>, fakeEnable: bool) {
    exists k :: 0 <= k < |cs| && Skipped(cs[k], fakeEnable)
  }

  /** The errors read as "empty" whatever empty answers are added. */
  ghost predicate ReadsEmpty(errs: seq<Error>) {
    errs == [] || (EmptyResponse in errs && forall e :: e in errs ==> !e.Other?)
  }

  lemma DiffersMeans(errs: seq<Error>)
    ensures Differs(errs) <==> exists a, b :: a in errs && b in errs && a != b && a != RecordNotFound && b != RecordNotFound
  {
    if a, b :| a in errs && b in errs && a != b && a != RecordNotFound && b != RecordNotFound {
      var i :| 0 <= i < |errs| && errs[i] == a;
      var j :| 0 <= j < |errs| && errs[j] == b;
      if i < j {
        assert errs[i] != errs[j];
      } else {
        assert errs[j] != errs[i];
      }
    }
    if i, j :| 0 <= i < j < |errs| && errs[i] != RecordNotFound && errs[j] != RecordNotFound && errs[i] != errs[j] {
      assert errs[i] in errs && errs[j] in errs;
    }
  }

  /** The parallel list is the serial one plus an empty answer per skipped server. */
  lemma {:induction false} SkippedAddEmpty(cs: seq<Client>, fakeEnable: bool, oracle: seq<Outcome>)
    requires |oracle| == |cs|
    ensures var all, asked := Errors(Posted(cs, fakeEnable, oracle)), Asked(cs, fakeEnable, oracle);
      && (if SomeSkipped(cs, fakeEnable) then |asked| < |all| else asked == all)
      && |asked| <= |all|
      && forall e :: e in all <==> e in asked || (e == EmptyResponse && SomeSkipped(cs, fakeEnable))
    decreases |cs|
  {
    hide Skipped, ErrorOf;
    if cs != [] {
      var n := |cs| - 1;
      SkippedAddEmpty(cs[..n], fakeEnable, oracle[..n]);
      SplitSkipped(cs, fakeEnable);
      var last := if Skipped(cs[n], fakeEnable) then EmptyResponse else ErrorOf(oracle[n]);
      assert Errors(Posted(cs, fakeEnable, oracle)) == Errors(Posted(cs[..n], fakeEnable, oracle[..n])) + [last] by {
        EmptyError();
      }
    }
  }

  lemma EmptyError()
    ensures ErrorOf(Outcome([], 0, Some(EmptyResponse))) == EmptyResponse
  {
  }

  lemma SplitSkipped(cs: seq<Client>, fakeEnable: bool)
    requires cs != []
    ensures SomeSkipped(cs, fakeEnable) <==> SomeSkipped(cs[..|cs| - 1], fakeEnable) || Skipped(cs[|cs| - 1], fakeEnable)
  {
    hide Skipped;
    var n := |cs| - 1;
    if k :| 0 <= k < |cs| && Skipped(cs[k], fakeEnable) && k < n {
      assert cs[..n][k] == cs[k];
    }
    if SomeSkipped(cs[..n], fakeEnable) {
      var k :| 0 <= k < n && Skipped(cs[..n][k], fakeEnable);
      assert Skipped(cs[k], fakeEnable);
    }
  }

  /** A skipped server counts as an empty answer in the parallel form only, so
      the two failures are the same exactly if nobody was skipped, or the asked
      servers' errors already read as "empty". */
  lemma FailuresAgree(cs: seq<Client>, fakeEnable: bool, oracle: seq<Outcome>, p: Failure, s: Failure)
    requires |oracle| == |cs|
    requires IsMerged(Errors(Posted(cs, fakeEnable, oracle)), p) && IsMerged(Asked(cs, fakeEnable, oracle), s)
    ensures p == s <==> !SomeSkipped(cs, fakeEnable) || ReadsEmpty(Asked(cs, fakeEnable, oracle))
  {
    var all, asked := Errors(Posted(cs, fakeEnable, oracle)), Asked(cs, fakeEnable, oracle);
    SkippedAddEmpty(cs, fakeEnable, oracle);
    if SomeSkipped(cs, fakeEnable) {
      MergedWithEmpty(all, asked, p, s);
    } else {
      MergedUnique(all, p, s);
    }
  }

  lemma MergedWithEmpty(all: seq<Error>, asked: seq<Error>, p: Failure, s: Failure)
    requires |asked| < |all| && forall e :: e in all <==> e in asked || e == EmptyResponse
    requires IsMerged(all, p) && IsMerged(asked, s)
    ensures p == s <==> ReadsEmpty(asked)
  {
    hide Differs;
    DiffersMeans(all);
    DiffersMeans(asked);
    if e :| e in asked && e.Other? {
      assert e == Other(e.code);
      assert EmptyResponse in all && e in all;
      assert Differs(all);
    }
  }

  /** A server that reports neither addresses nor an error counts as empty. */
  lemma SilentIsEmpty(c: Client, ttl: nat, p: Failure, s: Failure)
    requires !c.isFakeDns
    requires IsMerged(Errors([Outcome([], ttl, None)]), p) && IsMerged(Asked([c], false, [Outcome([], ttl, None)]), s)
    ensures p == Empty && s == Empty
  {
    var o := Outcome([], ttl, None);
    assert Errors([o]) == [EmptyResponse];
    assert [c][..0] == [] && [o][..0] == [];
    assert Asked([c], false, [o]) == [EmptyResponse];
  }

  /** They can really differ: one server found no record, the other was skipped. */
  lemma FailuresCanDiffer(o: Outcome, p: Failure, s: Failure)
    requires var cs, oracle := [Client(0, false), Client(1, true)], [Outcome([], 0, Some(RecordNotFound)), o];
      IsMerged(Errors(Posted(cs, false, oracle)), p) && IsMerged(Asked(cs, false, oracle), s)
    ensures p == Empty && s == Wrapped(RecordNotFound)
  {
    var cs, oracle := [Client(0, false), Client(1, true)], [Outcome([], 0, Some(RecordNotFound)), o];
    assert Errors(Posted(cs, false, oracle)) == [RecordNotFound, EmptyResponse];
    assert cs[..1] == [cs[0]] && oracle[..1] == [oracle[0]] && cs[..1][..0] == [];
    assert Asked(cs[..1], false, oracle[..1]) == [RecordNotFound];
    assert Asked(cs, false, oracle) == [RecordNotFound];
  }
}

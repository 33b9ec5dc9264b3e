/** The kernel tables the manager changes to send traffic through the tunnel: what
    each command does to them, the plan that installs its own objects, and the
    cleanup that takes them out again. */
module Routing {
  // ----- tables -----

  datatype Table = Filter | Mangle | Nat

  /** The manager's own chain names, and everybody else's. */
  datatype Name = VlessTproxy | VlessOutput | VlessIn | VlessProbe | VlessTcp | VlessTcpIn | VlessDivert | Other(name: string)

  datatype Chain = Chain(table: Table, name: Name)

  datatype Iface = Br0 | BrLan | Lo | Tun0 | OtherIface(name: string)
  datatype Protocol = Tcp | Udp
  datatype FwMark = Mark1 | Mark1Mask1 | Mark9911 | OtherMark(text: string)

  /** The matches the manager's rules use; a foreign rule may say anything. */
  datatype Match =
    | All
    | From(i: Iface)
    | To(o: Iface)
    | FromTo(i: Iface, o: Iface)
    | Proto(p: Protocol)
    | FromProto(i: Iface, p: Protocol)
    | ProtoPort(p: Protocol, port: nat)
    | Socket(p: Protocol)
    | Marked(m: FwMark)
    | FromMarked(i: Iface, m: FwMark)
    | Dest(net: string)
    | DestPort(net: string, p: Protocol, port: nat)
    | Foreign(text: string)

  datatype Jump = Call(chain: Name) | Return | Accept | Drop | Tproxy(port: nat) | SetMark(m: FwMark) | OtherJump(text: string)

  datatype Rule = Rule(match': Match, jump: Jump)

  datatype RtTable = Table100 | Main | OtherTable(name: string)
  datatype Policy = Policy(mark: FwMark, lookup: RtTable, pref: nat)
  datatype Route = Route(table: RtTable, dest: string)

  datatype State = State(chains: map<Chain, seq<Rule>>, policy: seq<Policy>, routes: set<Route>)

  const REDIRECT_PORT := 7892

  // ----- commands -----

  datatype Command =
    | New(c: Chain)
    | Append(c: Chain, r: Rule)
    | Insert(c: Chain, r: Rule)
    | Delete(c: Chain, r: Rule)
    | Flush(c: Chain)
    | DropChain(c: Chain)
    | RuleAdd(p: Policy)
    | RuleDel(mark: FwMark, lookup: RtTable)
    | RouteAdd(route: Route)
    | RouteFlush(table: RtTable)

  /** Without its first copy of r. */
  function RemoveFirst(rs: seq<Rule>, r: Rule): (out: seq<Rule>)
    ensures multiset(out) == multiset(rs) - multiset{r}
  {
    if rs == [] then []
    else if rs[0] == r then assert rs == [rs[0]] + rs[1..]; rs[1..]
    else assert rs == [rs[0]] + rs[1..]; [rs[0]] + RemoveFirst(rs[1..], r)
  }

  predicate Matches(p: Policy, mark: FwMark, lookup: RtTable) {
    p.mark == mark && p.lookup == lookup
  }

  function RemovePolicy(ps: seq<Policy>, mark: FwMark, lookup: RtTable): seq<Policy> {
    if ps == [] then [] else if Matches(ps[0], mark, lookup) then ps[1..] else [ps[0]] + RemovePolicy(ps[1..], mark, lookup)
  }

  predicate HasPolicy(ps: seq<Policy>, mark: FwMark, lookup: RtTable) {
    exists i :: 0 <= i < |ps| && Matches(ps[i], mark, lookup)
  }

  /** Policy rules are kept in the order of their preference. */
  function InsertPolicy(ps: seq<Policy>, p: Policy): seq<Policy> {
    if ps == [] || ps[0].pref > p.pref then [p] + ps else [ps[0]] + InsertPolicy(ps[1..], p)
  }

  /** A rule of the same table jumps to the chain. */
  predicate Referenced(s: State, c: Chain) {
    exists d :: d in s.chains && d.table == c.table && Calls(s.chains[d], c.name)
  }

  predicate Calls(rs: seq<Rule>, n: Name) {
    exists i :: 0 <= i < |rs| && rs[i].jump == Call(n)
  }

  /** The kernel refuses: missing or existing chains, calls of missing chains,
      deleting what is not there, dropping a chain that is in use. */
  predicate Accepts(s: State, cmd: Command) {
    match cmd
    case New(c) => c !in s.chains
    case Append(c, r) => c in s.chains && (r.jump.Call? ==> Chain(c.table, r.jump.chain) in s.chains)
    case Insert(c, r) => c in s.chains && (r.jump.Call? ==> Chain(c.table, r.jump.chain) in s.chains)
    case Delete(c, r) => c in s.chains && r in s.chains[c]
    case Flush(c) => c in s.chains
    case DropChain(c) => c in s.chains && s.chains[c] == [] && !Referenced(s, c)
    case RuleAdd(p) => p !in s.policy
    case RuleDel(mark, lookup) => HasPolicy(s.policy, mark, lookup)
    case RouteAdd(r) => r !in s.routes
    case RouteFlush(_) => true
  }

  function Exec(s: State, cmd: Command): State
    requires Accepts(s, cmd)
  {
    match cmd
    case New(c) => s.(chains := s.chains[c := []])
    case Append(c, r) => s.(chains := s.chains[c := s.chains[c] + [r]])
    case Insert(c, r) => s.(chains := s.chains[c := [r] + s.chains[c]])
    case Delete(c, r) => s.(chains := s.chains[c := RemoveFirst(s.chains[c], r)])
    case Flush(c) => s.(chains := s.chains[c := []])
    case DropChain(c) => s.(chains := s.chains - {c})
    case RuleAdd(p) => s.(policy := InsertPolicy(s.policy, p))
    case RuleDel(mark, lookup) => s.(policy := RemovePolicy(s.policy, mark, lookup))
    case RouteAdd(r) => s.(routes := s.routes + {r})
    case RouteFlush(table) => s.(routes := set r | r in s.routes && r.table != table)
  }

  /** A command whose failure is ignored. */
  function Try(s: State, cmd: Command): State {
    if Accepts(s, cmd) then Exec(s, cmd) else s
  }

  /** The cleanup's loop: at most n times, until it fails. */
  function Repeat(s: State, cmd: Command, n: nat): State
    decreases n
  {
    if n == 0 || !Accepts(s, cmd) then s else Repeat(Exec(s, cmd), cmd, n - 1)
  }

  // ----- whose objects -----

  /** The manager's chains, in the tables it makes them. */
  predicate OwnChain(c: Chain) {
    match c.name
    case VlessTproxy => c.table == Mangle
    case VlessOutput => c.table == Mangle
    case VlessIn => c.table == Mangle || c.table == Filter
    case VlessProbe => c.table == Mangle
    case VlessTcp => c.table == Nat
    case VlessTcpIn => c.table == Filter
    case VlessDivert => c.table == Mangle
    case Other(_) => false
  }

  /** A jump to one of the manager's chains, or a rule of its old TUN device. */
  predicate OwnRule(c: Chain, r: Rule) {
    (r.jump.Call? && OwnChain(Chain(c.table, r.jump.chain))) || TunRule(c, r)
  }

  predicate TunRule(c: Chain, r: Rule) {
    || (c == FORWARD && r.jump == Accept && (r.match' == FromTo(Br0, Tun0) || r.match' == FromTo(BrLan, Tun0) || r.match' == From(Tun0)))
    || (c == INPUT && r == Rule(From(Tun0), Accept))
    || (c == NAT_POSTROUTING && r == Rule(To(Tun0), Return))
  }

  predicate OwnPolicy(p: Policy) {
    Matches(p, Mark1, Table100) || Matches(p, Mark1Mask1, Table100) || Matches(p, Mark9911, Main)
  }

  const INPUT := Chain(Filter, Other("INPUT"))
  const FORWARD := Chain(Filter, Other("FORWARD"))
  const MANGLE_INPUT := Chain(Mangle, Other("INPUT"))
  const MANGLE_PREROUTING := Chain(Mangle, Other("PREROUTING"))
  const MANGLE_OUTPUT := Chain(Mangle, Other("OUTPUT"))
  const NAT_PREROUTING := Chain(Nat, Other("PREROUTING"))
  const NAT_OUTPUT := Chain(Nat, Other("OUTPUT"))
  const NAT_POSTROUTING := Chain(Nat, Other("POSTROUTING"))

  /** The foreign part of a rule list. */
  function Foreigners(c: Chain, rs: seq<Rule>): seq<Rule> {
    if rs == [] then [] else if OwnRule(c, rs[0]) then Foreigners(c, rs[1..]) else [rs[0]] + Foreigners(c, rs[1..])
  }

  function ForeignPolicy(ps: seq<Policy>): seq<Policy> {
    if ps == [] then [] else if OwnPolicy(ps[0]) then ForeignPolicy(ps[1..]) else [ps[0]] + ForeignPolicy(ps[1..])
  }

  /** The tables without the manager's objects: its chains, its rules wherever
      they are, its policy rules and its routing table. */
  function Strip(s: State): State {
    State(
      ForeignChains(s.chains),
      ForeignPolicy(s.policy),
      set r | r in s.routes && r.table != Table100)
  }

  // ----- the plan -----

  const PRIVATE_CIDRS: seq<string> :=
    ["192.168.0.0/16", "10.0.0.0/8", "172.16.0.0/12", "127.0.0.0/8", "169.254.0.0/16", "224.0.0.0/4", "255.255.255.255/32", "0.0.0.0/8"]

  function AppendAll(c: Chain, rs: seq<Rule>): (cmds: seq<Command>)
    ensures |cmds| == |rs| && forall i :: 0 <= i < |cmds| ==> cmds[i] == Append(c, rs[i])
  {
    seq(|rs|, i requires 0 <= i < |rs| => Append(c, rs[i]))
  }

  function Returns(nets: seq<string>): (rs: seq<Rule>)
    ensures forall r :: r in rs ==> !r.jump.Call?
  {
    seq(|nets|, i requires 0 <= i < |nets| => Rule(Dest(nets[i]), Return))
  }

  function Hosts(ips: seq<string>): seq<string> {
    seq(|ips|, i requires 0 <= i < |ips| => ips[i] + "/32")
  }

  function DnsReturns(servers: seq<string>): (rs: seq<Rule>)
    ensures forall r :: r in rs ==> !r.jump.Call?
  {
    if servers == [] then []
    else
      [Rule(DestPort(servers[0] + "/32", Tcp, 53), Return), Rule(DestPort(servers[0] + "/32", Udp, 53), Return)] + DnsReturns(servers[1..])
  }

  /** What one of the two capturing chains holds. */
  function CaptureRules(last: Jump, dns: seq<string>, endpoints: seq<string>, locals: seq<string>): (rs: seq<Rule>)
    requires !last.Call?
    ensures forall r :: r in rs ==> !r.jump.Call?
  {
    [Rule(Marked(Mark9911), Return)] + Returns(PRIVATE_CIDRS) + Returns(Hosts(endpoints + locals)) + DnsReturns(dns)
    + [Rule(Proto(Tcp), last), Rule(Proto(Udp), last)]
  }

  function MangleInputRules(lan: Iface): seq<Rule> {
    [Rule(FromMarked(lan, Mark1), Accept), Rule(FromMarked(Lo, Mark1), Accept), Rule(All, Return)]
  }

  function FilterInputRules(lan: Iface): seq<Rule> {
    [Rule(FromMarked(lan, Mark1), Accept), Rule(FromMarked(Lo, Mark1), Accept),
     Rule(ProtoPort(Tcp, REDIRECT_PORT), Drop), Rule(ProtoPort(Udp, REDIRECT_PORT), Drop), Rule(All, Return)]
  }

  function Hooks(lan: Iface): seq<Command> {
    [Insert(INPUT, Rule(All, Call(VlessIn))),
     Insert(MANGLE_INPUT, Rule(All, Call(VlessIn))),
     Insert(MANGLE_PREROUTING, Rule(From(Lo), Call(VlessTproxy))),
     Insert(MANGLE_PREROUTING, Rule(From(lan), Call(VlessTproxy))),
     Insert(MANGLE_OUTPUT, Rule(All, Call(VlessOutput)))]
  }

  function PolicyPart(): seq<Command> {
    [RuleAdd(Policy(Mark1, Table100, 1)), RuleAdd(Policy(Mark9911, Main, 2)), RouteAdd(Route(Table100, "0.0.0.0/0"))]
  }

  function ChainPart(c: Chain, rs: seq<Rule>): seq<Command> {
    [New(c)] + AppendAll(c, rs)
  }

  /** globalRouteCommands. */
  function Plan(lan: Iface, dns: seq<string>, endpoints: seq<string>, locals: seq<string>): seq<Command> {
    PolicyPart()
    + ChainPart(Chain(Mangle, VlessTproxy), CaptureRules(Tproxy(REDIRECT_PORT), dns, endpoints, locals))
    + ChainPart(Chain(Mangle, VlessOutput), CaptureRules(SetMark(Mark1), dns, endpoints, locals))
    + ChainPart(Chain(Mangle, VlessIn), MangleInputRules(lan))
    + ChainPart(Chain(Filter, VlessIn), FilterInputRules(lan))
    + Hooks(lan)
  }

  // ----- the cleanup -----

  datatype Step = Once(cmd: Command) | Loop(cmd: Command)

  function DoStep(s: State, step: Step): State {
    match step case Once(cmd) => Try(s, cmd) case Loop(cmd) => Repeat(s, cmd, 5)
  }

  function Steps(s: State, steps: seq<Step>): State
    decreases |steps|
  {
    if steps == [] then s else Steps(DoStep(s, steps[0]), steps[1..])
  }

  type Hook = (Chain, Rule)

  function Loops(hs: seq<Hook>): seq<Step> {
    seq(|hs|, i requires 0 <= i < |hs| => Loop(Delete(hs[i].0, hs[i].1)))
  }

  function Drops(cs: seq<Chain>): seq<Step> {
    if cs == [] then [] else [Once(Flush(cs[0])), Once(DropChain(cs[0]))] + Drops(cs[1..])
  }

  function LiveHooks(): seq<Hook> {
    [(MANGLE_OUTPUT, Rule(All, Call(VlessOutput))),
     (MANGLE_OUTPUT, Rule(All, Call(VlessTproxy))),
     (MANGLE_PREROUTING, Rule(From(Br0), Call(VlessTproxy))),
     (MANGLE_PREROUTING, Rule(From(BrLan), Call(VlessTproxy))),
     (MANGLE_PREROUTING, Rule(From(Lo), Call(VlessTproxy))),
     (INPUT, Rule(All, Call(VlessIn))),
     (MANGLE_INPUT, Rule(All, Call(VlessIn)))]
  }

  function LiveChains(): seq<Chain> {
    [Chain(Mangle, VlessTproxy), Chain(Mangle, VlessOutput), Chain(Mangle, VlessIn), Chain(Mangle, VlessProbe), Chain(Filter, VlessIn)]
  }

  function PolicySteps(): seq<Step> {
    [Loop(RuleDel(Mark1, Table100)), Loop(RuleDel(Mark1Mask1, Table100)), Loop(RuleDel(Mark9911, Main)), Once(RouteFlush(Table100))]
  }

  function OldHooks(): seq<Hook> {
    [(NAT_PREROUTING, Rule(FromProto(Br0, Tcp), Call(VlessTcp))),
     (FORWARD, Rule(FromTo(Br0, Tun0), Accept)),
     (NAT_PREROUTING, Rule(FromProto(BrLan, Tcp), Call(VlessTcp))),
     (FORWARD, Rule(FromTo(BrLan, Tun0), Accept)),
     (NAT_OUTPUT, Rule(Proto(Tcp), Call(VlessTcp))),
     (INPUT, Rule(ProtoPort(Tcp, REDIRECT_PORT), Call(VlessTcpIn)))]
  }

  function OldChains(): seq<Chain> {
    [Chain(Nat, VlessTcp), Chain(Filter, VlessTcpIn)]
  }

  function TunHooks(): seq<Hook> {
    [(FORWARD, Rule(From(Tun0), Accept)), (INPUT, Rule(From(Tun0), Accept)), (NAT_POSTROUTING, Rule(To(Tun0), Return)),
     (MANGLE_PREROUTING, Rule(Socket(Tcp), Call(VlessDivert))), (MANGLE_PREROUTING, Rule(Socket(Udp), Call(VlessDivert)))]
  }

  function LastChains(): seq<Chain> {
    [Chain(Mangle, VlessDivert)]
  }

  /** disableGlobalRoute. */
  function Cleanup(s: State): State {
    var s1 := Steps(s, Loops(LiveHooks()));
    var s2 := Steps(s1, Drops(LiveChains()));
    var s3 := Steps(s2, PolicySteps());
    var s4 := Steps(s3, Loops(OldHooks()));
    var s5 := Steps(s4, Drops(OldChains()));
    var s6 := Steps(s5, Loops(TunHooks()));
    Steps(s6, Drops(LastChains()))
  }

  predicate Listed(h: Hook) {
    h in LiveHooks() || h in OldHooks() || h in TunHooks()
  }

  // ----- the cleanup only takes away -----

  ghost predicate Shrinks(t: State, s: State) {
    && (forall c :: c in t.chains ==> c in s.chains && multiset(t.chains[c]) <= multiset(s.chains[c]))
    && multiset(t.policy) <= multiset(s.policy) && t.routes <= s.routes
  }

  lemma ShrinksTwice(u: State, t: State, s: State)
    requires Shrinks(u, t) && Shrinks(t, s)
    ensures Shrinks(u, s)
  {
  }

  predicate Takes(cmd: Command) {
    cmd.Delete? || cmd.Flush? || cmd.DropChain? || cmd.RuleDel? || cmd.RouteFlush?
  }

  lemma {:induction false} RemovePolicyTakes(ps: seq<Policy>, mark: FwMark, lookup: RtTable)
    ensures multiset(RemovePolicy(ps, mark, lookup)) <= multiset(ps)
    decreases |ps|
  {
    if ps != [] {
      assert ps == [ps[0]] + ps[1..];
      RemovePolicyTakes(ps[1..], mark, lookup);
    }
  }

  lemma ExecShrinks(s: State, cmd: Command)
    requires Accepts(s, cmd) && Takes(cmd)
    ensures Shrinks(Exec(s, cmd), s)
  {
    hide RemoveFirst, RemovePolicy, Referenced, HasPolicy;
    if cmd.RuleDel? {
      RemovePolicyTakes(s.policy, cmd.mark, cmd.lookup);
    } else if cmd.Delete? {
      var _ := RemoveFirst(s.chains[cmd.c], cmd.r);
    }
  }

  lemma {:induction false} RepeatShrinks(s: State, cmd: Command, n: nat)
    requires Takes(cmd)
    ensures Shrinks(Repeat(s, cmd, n), s)
    decreases n
  {
    hide Accepts, Exec, Shrinks;
    if n > 0 && Accepts(s, cmd) {
      ExecShrinks(s, cmd);
      RepeatShrinks(Exec(s, cmd), cmd, n - 1);
      ShrinksTwice(Repeat(s, cmd, n), Exec(s, cmd), s);
    } else {
      ShrinksSelf(s);
    }
  }

  lemma ShrinksSelf(s: State)
    ensures Shrinks(s, s)
  {
  }

  lemma StepShrinks(s: State, step: Step)
    requires Takes(step.cmd)
    ensures Shrinks(DoStep(s, step), s)
  {
    hide Accepts, Exec, Shrinks;
    match step
    case Once(cmd) =>
      if Accepts(s, cmd) {
        ExecShrinks(s, cmd);
      } else {
        ShrinksSelf(s);
      }
    case Loop(cmd) => RepeatShrinks(s, cmd, 5);
  }

  lemma {:induction false} StepsShrink(s: State, steps: seq<Step>)
    requires forall i :: 0 <= i < |steps| ==> Takes(steps[i].cmd)
    ensures Shrinks(Steps(s, steps), s)
    decreases |steps|
  {
    hide DoStep, Shrinks, Takes;
    if steps == [] {
      ShrinksSelf(s);
    } else {
      StepShrinks(s, steps[0]);
      StepsShrink(DoStep(s, steps[0]), steps[1..]);
      ShrinksTwice(Steps(s, steps), DoStep(s, steps[0]), s);
    }
  }

  // ----- the cleanup leaves foreign objects alone -----

  /** Commands on the manager's own objects. */
  predicate OwnCommand(cmd: Command) {
    match cmd
    case New(c) => OwnChain(c)
    case Append(c, r) => OwnChain(c) && !r.jump.Call?
    case Insert(c, r) => !OwnChain(c) && Listed((c, r))
    case Delete(c, r) => OwnRule(c, r) && !OwnChain(c)
    case Flush(c) => OwnChain(c)
    case DropChain(c) => OwnChain(c)
    case RuleAdd(p) => OwnPolicy(p)
    case RuleDel(mark, lookup) => OwnPolicy(Policy(mark, lookup, 0))
    case RouteAdd(r) => r.table == Table100
    case RouteFlush(t) => t == Table100
  }

  lemma {:induction false} ForeignersKept(c: Chain, rs: seq<Rule>, r: Rule)
    requires OwnRule(c, r)
    ensures Foreigners(c, RemoveFirst(rs, r)) == Foreigners(c, rs)
    decreases |rs|
  {
    if rs != [] && rs[0] != r {
      ForeignersKept(c, rs[1..], r);
      assert RemoveFirst(rs, r)[1..] == RemoveFirst(rs[1..], r);
    }
  }

  lemma {:induction false} PolicyAdded(ps: seq<Policy>, p: Policy)
    requires OwnPolicy(p)
    ensures ForeignPolicy(InsertPolicy(ps, p)) == ForeignPolicy(ps)
    decreases |ps|
  {
    hide OwnPolicy;
    if ps == [] || ps[0].pref > p.pref {
      assert ([p] + ps)[1..] == ps;
    } else {
      PolicyAdded(ps[1..], p);
      assert InsertPolicy(ps, p)[1..] == InsertPolicy(ps[1..], p);
    }
  }

  lemma {:induction false} PolicyRemoved(ps: seq<Policy>, mark: FwMark, lookup: RtTable)
    requires OwnPolicy(Policy(mark, lookup, 0))
    ensures ForeignPolicy(RemovePolicy(ps, mark, lookup)) == ForeignPolicy(ps)
    decreases |ps|
  {
    if ps != [] && !Matches(ps[0], mark, lookup) {
      PolicyRemoved(ps[1..], mark, lookup);
      assert RemovePolicy(ps, mark, lookup)[1..] == RemovePolicy(ps[1..], mark, lookup);
    }
  }

  lemma ListedIsOwn(h: Hook)
    requires Listed(h)
    ensures OwnRule(h.0, h.1) && !OwnChain(h.0)
  {
  }

  /** Every rule the manager, or an older build of it, puts into a foreign chain. */
  lemma OwnHooksAreListed(lan: Iface, p: Protocol)
    requires lan == Br0 || lan == BrLan
    ensures Listed((MANGLE_OUTPUT, Rule(All, Call(VlessOutput)))) && Listed((MANGLE_OUTPUT, Rule(All, Call(VlessTproxy))))
    ensures Listed((MANGLE_PREROUTING, Rule(From(lan), Call(VlessTproxy)))) && Listed((MANGLE_PREROUTING, Rule(From(Lo), Call(VlessTproxy))))
    ensures Listed((INPUT, Rule(All, Call(VlessIn)))) && Listed((MANGLE_INPUT, Rule(All, Call(VlessIn))))
    ensures Listed((NAT_PREROUTING, Rule(FromProto(lan, Tcp), Call(VlessTcp)))) && Listed((NAT_OUTPUT, Rule(Proto(Tcp), Call(VlessTcp))))
    ensures Listed((INPUT, Rule(ProtoPort(Tcp, 7892), Call(VlessTcpIn)))) && Listed((MANGLE_PREROUTING, Rule(Socket(p), Call(VlessDivert))))
    ensures Listed((FORWARD, Rule(FromTo(lan, Tun0), Accept))) && Listed((FORWARD, Rule(From(Tun0), Accept)))
    ensures Listed((INPUT, Rule(From(Tun0), Accept))) && Listed((NAT_POSTROUTING, Rule(To(Tun0), Return)))
  {
    var l, o, t := LiveHooks(), OldHooks(), TunHooks();
    assert l[0] in l && l[1] in l && l[2] in l && l[3] in l && l[4] in l && l[5] in l && l[6] in l;
    assert o[0] in o && o[1] in o && o[2] in o && o[3] in o && o[4] in o && o[5] in o;
    assert t[0] in t && t[1] in t && t[2] in t && t[3] in t && t[4] in t;
  }

  lemma ExecKeepsForeign(s: State, cmd: Command)
    requires Accepts(s, cmd) && OwnCommand(cmd)
    ensures Strip(Exec(s, cmd)) == Strip(s)
  {
    hide RemoveFirst, RemovePolicy, InsertPolicy, ForeignPolicy, OwnPolicy, Listed, OwnRule, Referenced, HasPolicy, Foreigners;
    match cmd
    case Insert(c, r) =>
      ListedIsOwn((c, r));
      InsertedOwn(c, s.chains[c], r);
      OneChainChanged(s.chains, c, [r] + s.chains[c]);
    case Delete(c, r) =>
      ForeignersKept(c, s.chains[c], r);
      OneChainChanged(s.chains, c, RemoveFirst(s.chains[c], r));
    case RuleAdd(p) => PolicyAdded(s.policy, p);
    case RuleDel(mark, lookup) => PolicyRemoved(s.policy, mark, lookup);
    case RouteAdd(_) => assert Strip(Exec(s, cmd)).routes == Strip(s).routes;
    case RouteFlush(_) => assert Strip(Exec(s, cmd)).routes == Strip(s).routes;
    case New(c) => OwnChainChanged(s.chains, c, []);
    case Append(c, r) => OwnChainChanged(s.chains, c, s.chains[c] + [r]);
    case Flush(c) => OwnChainChanged(s.chains, c, []);
    case DropChain(c) => OwnChainChanged(s.chains, c, []);
  }

  function ForeignChains(chains: map<Chain, seq<Rule>>): map<Chain, seq<Rule>> {
    map c | c in chains && !OwnChain(c) :: Foreigners(c, chains[c])
  }

  lemma OneChainChanged(chains: map<Chain, seq<Rule>>, c: Chain, rs: seq<Rule>)
    requires c in chains && Foreigners(c, rs) == Foreigners(c, chains[c])
    ensures ForeignChains(chains[c := rs]) == ForeignChains(chains)
  {
    hide Foreigners, OwnChain;
  }

  lemma OwnChainChanged(chains: map<Chain, seq<Rule>>, c: Chain, rs: seq<Rule>)
    requires OwnChain(c)
    ensures ForeignChains(chains[c := rs]) == ForeignChains(chains) && ForeignChains(chains - {c}) == ForeignChains(chains)
  {
    hide Foreigners, OwnChain;
  }

  lemma InsertedOwn(c: Chain, rs: seq<Rule>, r: Rule)
    requires OwnRule(c, r)
    ensures Foreigners(c, [r] + rs) == Foreigners(c, rs)
  {
    assert ([r] + rs)[1..] == rs;
  }

  lemma {:induction false} RepeatKeepsForeign(s: State, cmd: Command, n: nat)
    requires OwnCommand(cmd)
    ensures Strip(Repeat(s, cmd, n)) == Strip(s)
    decreases n
  {
    hide Accepts, Exec, OwnCommand, Strip;
    if n > 0 && Accepts(s, cmd) {
      ExecKeepsForeign(s, cmd);
      RepeatKeepsForeign(Exec(s, cmd), cmd, n - 1);
    }
  }

  lemma {:induction false} StepsKeepForeign(s: State, steps: seq<Step>)
    requires forall i :: 0 <= i < |steps| ==> OwnCommand(steps[i].cmd)
    ensures Strip(Steps(s, steps)) == Strip(s)
    decreases |steps|
  {
    hide Accepts, Exec, OwnCommand, Strip, Repeat;
    if steps != [] {
      match steps[0] {
        case Once(cmd) =>
          if Accepts(s, cmd) {
            ExecKeepsForeign(s, cmd);
          }
        case Loop(cmd) => RepeatKeepsForeign(s, cmd, 5);
      }
      StepsKeepForeign(DoStep(s, steps[0]), steps[1..]);
    }
  }

  // ----- the cleanup takes everything -----

  /** The manager's rules are where and what the cleanup looks for, and its chains
      do not call each other. */
  ghost predicate Placed(s: State) {
    forall c, r :: c in s.chains && r in s.chains[c] && OwnRule(c, r) ==> !OwnChain(c) && Listed((c, r))
  }

  /** None of the manager's rules is there more than five times. */
  ghost predicate Few(s: State) {
    && (forall c, r :: c in s.chains && r in s.chains[c] && OwnRule(c, r) ==> multiset(s.chains[c])[r] <= 5)
    && (forall mark, lookup :: OwnPolicy(Policy(mark, lookup, 0)) ==> PolicyCount(s.policy, mark, lookup) <= 5)
  }

  ghost predicate Tame(s: State) {
    Placed(s) && Few(s)
  }

  function PolicyCount(ps: seq<Policy>, mark: FwMark, lookup: RtTable): nat {
    if ps == [] then 0 else (if Matches(ps[0], mark, lookup) then 1 else 0) + PolicyCount(ps[1..], mark, lookup)
  }

  ghost predicate Absent(s: State, h: Hook) {
    h.0 in s.chains ==> h.1 !in s.chains[h.0]
  }

  ghost predicate AllAbsent(s: State, hs: seq<Hook>) {
    forall i :: 0 <= i < |hs| ==> Absent(s, hs[i])
  }

  ghost predicate Rare(s: State, h: Hook) {
    h.0 in s.chains ==> multiset(s.chains[h.0])[h.1] <= 5
  }

  lemma StaysAbsent(t: State, s: State, h: Hook)
    requires Shrinks(t, s)
    ensures Absent(s, h) ==> Absent(t, h)
    ensures Rare(s, h) ==> Rare(t, h)
  {
    if h.0 in t.chains && h.1 in t.chains[h.0] {
      assert h.1 in multiset(t.chains[h.0]);
      assert h.1 in multiset(s.chains[h.0]);
    }
  }

  lemma DeleteOne(s: State, c: Chain, r: Rule)
    requires Accepts(s, Delete(c, r))
    ensures var t := Exec(s, Delete(c, r));
      c in t.chains && multiset(s.chains[c])[r] > 0 && multiset(t.chains[c])[r] == multiset(s.chains[c])[r] - 1
  {
    hide RemoveFirst;
    assert r in multiset(s.chains[c]);
    var _ := RemoveFirst(s.chains[c], r);
  }

  /** Up to n copies are gone after n deletions. */
  lemma {:induction false} LoopRemoves(s: State, c: Chain, r: Rule, n: nat)
    requires c in s.chains ==> multiset(s.chains[c])[r] <= n
    ensures Absent(Repeat(s, Delete(c, r), n), (c, r))
    decreases n
  {
    hide Accepts, Exec, Absent;
    if Accepts(s, Delete(c, r)) {
      DeleteOne(s, c, r);
      IsThere(s, c, r);
      LoopRemoves(Exec(s, Delete(c, r)), c, r, n - 1);
    } else {
      IsThere(s, c, r);
    }
  }

  lemma IsThere(s: State, c: Chain, r: Rule)
    ensures Accepts(s, Delete(c, r)) ==> c in s.chains
    ensures !Accepts(s, Delete(c, r)) <==> Absent(s, (c, r))
  {
  }

  lemma {:induction false} LoopsRemove(s: State, hs: seq<Hook>)
    requires forall i :: 0 <= i < |hs| ==> Rare(s, hs[i])
    ensures AllAbsent(Steps(s, Loops(hs)), hs) && Shrinks(Steps(s, Loops(hs)), s)
    decreases |hs|
  {
    hide Rare, Absent, Shrinks, DoStep;
    if hs == [] {
      ShrinksSelf(s);
    } else {
      var h := hs[0];
      var t := DoStep(s, Loops(hs)[0]);
      assert Loops(hs)[1..] == Loops(hs[1..]);
      FirstLoop(s, h);
      forall i | 0 <= i < |hs[1..]|
        ensures Rare(t, hs[1..][i])
      {
        StaysAbsent(t, s, hs[i + 1]);
      }
      LoopsRemove(t, hs[1..]);
      var u := Steps(s, Loops(hs));
      ShrinksTwice(u, t, s);
      StaysAbsent(u, t, h);
      forall i | 0 <= i < |hs|
        ensures Absent(u, hs[i])
      {
        if i > 0 {
          assert hs[i] == hs[1..][i - 1];
        }
      }
    }
  }

  lemma FirstLoop(s: State, h: Hook)
    requires Rare(s, h)
    ensures var t := DoStep(s, Loop(Delete(h.0, h.1))); Absent(t, h) && Shrinks(t, s)
  {
    hide Shrinks, Repeat, Absent;
    LoopRemoves(s, h.0, h.1, 5);
    RepeatShrinks(s, Delete(h.0, h.1), 5);
  }

  lemma StaysFree(t: State, s: State, c: Chain)
    requires Shrinks(t, s)
    ensures Referenced(t, c) ==> Referenced(s, c)
  {
    if Referenced(t, c) {
      var d :| d in t.chains && d.table == c.table && Calls(t.chains[d], c.name);
      var i :| 0 <= i < |t.chains[d]| && t.chains[d][i].jump == Call(c.name);
      var r := t.chains[d][i];
      assert r in multiset(t.chains[d]) && r in multiset(s.chains[d]);
      var j :| 0 <= j < |s.chains[d]| && s.chains[d][j] == r;
      assert Calls(s.chains[d], c.name);
    }
  }

  /** Flushing and dropping: no drop fails because the chain is still in use. */
  lemma DropOne(s: State, c: Chain)
    requires !Referenced(s, c)
    ensures c in s.chains ==> Accepts(Try(s, Flush(c)), DropChain(c))
    ensures var t := Try(Try(s, Flush(c)), DropChain(c)); c !in t.chains && Shrinks(t, s)
  {
    hide Referenced, Shrinks;
    var f := Try(s, Flush(c));
    if c in s.chains {
      ExecShrinks(s, Flush(c));
      StaysFree(f, s, c);
      ExecShrinks(f, DropChain(c));
      ShrinksTwice(Exec(f, DropChain(c)), f, s);
    } else {
      ShrinksSelf(s);
    }
  }

  lemma {:induction false} DropsRemove(s: State, cs: seq<Chain>)
    requires forall i :: 0 <= i < |cs| ==> !Referenced(s, cs[i])
    ensures Shrinks(Steps(s, Drops(cs)), s) && forall i :: 0 <= i < |cs| ==> cs[i] !in Steps(s, Drops(cs)).chains
    decreases |cs|
  {
    hide Referenced, Shrinks, Try;
    if cs == [] {
      ShrinksSelf(s);
    } else {
      var c := cs[0];
      var f := Try(s, Flush(c));
      var t := Try(f, DropChain(c));
      DropOne(s, c);
      var steps := Drops(cs);
      assert steps[1..][0] == Once(DropChain(c)) && steps[1..][1..] == Drops(cs[1..]);
      forall i | 0 <= i < |cs[1..]|
        ensures !Referenced(t, cs[1..][i])
      {
        StaysFree(t, s, cs[i + 1]);
      }
      DropsRemove(t, cs[1..]);
      var u := Steps(s, steps);
      assert u == Steps(t, Drops(cs[1..])) by { TwoSteps(s, steps); }
      ShrinksTwice(u, t, s);
      forall i | 0 <= i < |cs|
        ensures cs[i] !in u.chains
      {
        if i > 0 {
          assert cs[i] == cs[1..][i - 1];
        } else {
          StaysGone(u, t, c);
        }
      }
    }
  }

  lemma TwoSteps(s: State, steps: seq<Step>)
    requires |steps| >= 2
    ensures Steps(s, steps) == Steps(DoStep(DoStep(s, steps[0]), steps[1]), steps[2..])
  {
    hide DoStep;
    assert steps[1..][1..] == steps[2..];
  }

  lemma StaysGone(t: State, s: State, c: Chain)
    requires Shrinks(t, s) && c !in s.chains
    ensures c !in t.chains
  {
  }

  // ----- policy rules -----

  lemma {:induction false} PolicyLess(ps: seq<Policy>, mark: FwMark, lookup: RtTable, m: FwMark, l: RtTable)
    ensures PolicyCount(RemovePolicy(ps, mark, lookup), m, l) <= PolicyCount(ps, m, l)
    decreases |ps|
  {
    hide Matches;
    if ps != [] && !Matches(ps[0], mark, lookup) {
      PolicyLess(ps[1..], mark, lookup, m, l);
      assert RemovePolicy(ps, mark, lookup)[1..] == RemovePolicy(ps[1..], mark, lookup);
    }
  }

  lemma {:induction false} PolicyOneLess(ps: seq<Policy>, mark: FwMark, lookup: RtTable)
    requires PolicyCount(ps, mark, lookup) > 0
    ensures PolicyCount(RemovePolicy(ps, mark, lookup), mark, lookup) == PolicyCount(ps, mark, lookup) - 1
    decreases |ps|
  {
    hide Matches;
    if !Matches(ps[0], mark, lookup) {
      PolicyOneLess(ps[1..], mark, lookup);
      assert RemovePolicy(ps, mark, lookup)[1..] == RemovePolicy(ps[1..], mark, lookup);
    }
  }

  lemma {:induction false} PolicyThere(ps: seq<Policy>, mark: FwMark, lookup: RtTable)
    ensures HasPolicy(ps, mark, lookup) <==> PolicyCount(ps, mark, lookup) > 0
    decreases |ps|
  {
    hide Matches;
    if ps != [] {
      var rest := ps[1..];
      PolicyThere(rest, mark, lookup);
      if i :| 0 <= i < |ps| && Matches(ps[i], mark, lookup) && i > 0 {
        assert rest[i - 1] == ps[i];
      }
      if HasPolicy(rest, mark, lookup) {
        var i :| 0 <= i < |rest| && Matches(rest[i], mark, lookup);
        assert ps[i + 1] == rest[i];
      }
    }
  }

  lemma {:induction false} PolicyLoop(s: State, mark: FwMark, lookup: RtTable, n: nat, m: FwMark, l: RtTable)
    requires PolicyCount(s.policy, mark, lookup) <= n
    ensures var t := Repeat(s, RuleDel(mark, lookup), n);
      && PolicyCount(t.policy, mark, lookup) == 0 && PolicyCount(t.policy, m, l) <= PolicyCount(s.policy, m, l)
      && t.chains == s.chains && t.routes == s.routes
    decreases n
  {
    hide PolicyCount, RemovePolicy, HasPolicy;
    PolicyLess(s.policy, mark, lookup, m, l);
    PolicyThere(s.policy, mark, lookup);
    if n > 0 && Accepts(s, RuleDel(mark, lookup)) {
      PolicyOneLess(s.policy, mark, lookup);
      PolicyLoop(Exec(s, RuleDel(mark, lookup)), mark, lookup, n - 1, m, l);
    }
  }

  /** The policy steps leave no policy rule and no route of the manager's. */
  lemma PolicyCleared(s: State, mark: FwMark, lookup: RtTable)
    requires OwnPolicy(Policy(mark, lookup, 0))
    requires forall m, l :: OwnPolicy(Policy(m, l, 0)) ==> PolicyCount(s.policy, m, l) <= 5
    ensures var t := Steps(s, PolicySteps());
      !HasPolicy(t.policy, mark, lookup) && t.chains == s.chains && forall r :: r in t.routes ==> r.table != Table100
  {
    hide PolicyCount, Repeat, HasPolicy;
    var s1 := Repeat(s, RuleDel(Mark1, Table100), 5);
    var s2 := Repeat(s1, RuleDel(Mark1Mask1, Table100), 5);
    var s3 := Repeat(s2, RuleDel(Mark9911, Main), 5);
    assert OwnPolicy(Policy(Mark1, Table100, 0)) && OwnPolicy(Policy(Mark1Mask1, Table100, 0)) && OwnPolicy(Policy(Mark9911, Main, 0));
    PolicyLoop(s, Mark1, Table100, 5, mark, lookup);
    PolicyLoop(s, Mark1, Table100, 5, Mark1Mask1, Table100);
    PolicyLoop(s, Mark1, Table100, 5, Mark9911, Main);
    PolicyLoop(s1, Mark1Mask1, Table100, 5, mark, lookup);
    PolicyLoop(s1, Mark1Mask1, Table100, 5, Mark9911, Main);
    PolicyLoop(s2, Mark9911, Main, 5, mark, lookup);
    assert PolicyCount(s3.policy, mark, lookup) == 0;
    PolicyThere(s3.policy, mark, lookup);
    FourSteps(s, PolicySteps());
  }

  lemma FourSteps(s: State, steps: seq<Step>)
    requires |steps| == 4
    ensures Steps(s, steps) == DoStep(DoStep(DoStep(DoStep(s, steps[0]), steps[1]), steps[2]), steps[3])
  {
    hide DoStep;
    TwoSteps(s, steps);
    var t := DoStep(DoStep(s, steps[0]), steps[1]);
    TwoSteps(t, steps[2..]);
    assert steps[2..][2..] == [];
  }

  // ----- cleanup as a whole -----

  lemma TameRare(s: State, h: Hook)
    requires Tame(s) && Listed(h)
    ensures Rare(s, h)
  {
    hide Listed, OwnRule, OwnChain;
    ListedIsOwn(h);
    if h.0 in s.chains && h.1 !in s.chains[h.0] {
      assert h.1 !in multiset(s.chains[h.0]);
    }
  }

  /** Whatever still calls one of the manager's chains is a listed rule. */
  lemma CallerIsListed(s: State, t: State, c: Chain)
    requires Tame(s) && Shrinks(t, s) && OwnChain(c)
    ensures Referenced(t, c) ==> exists h: Hook :: Listed(h) && h.0.table == c.table && h.1.jump == Call(c.name) && !Absent(t, h)
  {
    hide Listed, OwnChain;
    if Referenced(t, c) {
      var d :| d in t.chains && d.table == c.table && Calls(t.chains[d], c.name);
      var i :| 0 <= i < |t.chains[d]| && t.chains[d][i].jump == Call(c.name);
      var r := t.chains[d][i];
      assert r in multiset(t.chains[d]) && r in multiset(s.chains[d]);
      assert OwnRule(d, r) && Listed((d, r));
      assert !Absent(t, (d, r));
    }
  }

  /** Which hooks call which chains. */
  lemma HooksOf(h: Hook, c: Chain)
    requires Listed(h) && h.0.table == c.table && h.1.jump == Call(c.name)
    ensures c in LiveChains() ==> h in LiveHooks()
    ensures c in OldChains() ==> h in OldHooks()
    ensures c in LastChains() ==> h in TunHooks()
  {
  }

  lemma OwnChainsListed(c: Chain)
    ensures OwnChain(c) <==> c in LiveChains() || c in OldChains() || c in LastChains()
  {
    var a, b, d := LiveChains(), OldChains(), LastChains();
    assert a[0] in a && a[1] in a && a[2] in a && a[3] in a && a[4] in a && b[0] in b && b[1] in b && d[0] in d;
  }

  lemma LoopsAreOwn(hs: seq<Hook>)
    requires forall h :: h in hs ==> Listed(h)
    ensures forall i :: 0 <= i < |Loops(hs)| ==> OwnCommand(Loops(hs)[i].cmd) && Takes(Loops(hs)[i].cmd) && NoPolicy(Loops(hs)[i].cmd)
  {
    hide Listed, OwnRule, OwnChain;
    forall i | 0 <= i < |hs|
      ensures OwnCommand(Loops(hs)[i].cmd)
    {
      ListedIsOwn(hs[i]);
    }
  }

  lemma {:induction false} DropsAreOwn(cs: seq<Chain>)
    requires forall c :: c in cs ==> OwnChain(c)
    ensures forall i :: 0 <= i < |Drops(cs)| ==> OwnCommand(Drops(cs)[i].cmd) && Takes(Drops(cs)[i].cmd) && NoPolicy(Drops(cs)[i].cmd)
    decreases |cs|
  {
    hide OwnChain;
    if cs != [] {
      DropsAreOwn(cs[1..]);
    }
  }

  predicate NoPolicy(cmd: Command) {
    cmd.Delete? || cmd.Flush? || cmd.DropChain?
  }

  lemma {:induction false} RepeatKeepsPolicy(s: State, cmd: Command, n: nat)
    requires NoPolicy(cmd)
    ensures Repeat(s, cmd, n).policy == s.policy
    decreases n
  {
    hide Accepts, Exec, NoPolicy;
    if n > 0 && Accepts(s, cmd) {
      ExecKeepsPolicy(s, cmd);
      RepeatKeepsPolicy(Exec(s, cmd), cmd, n - 1);
    }
  }

  lemma ExecKeepsPolicy(s: State, cmd: Command)
    requires Accepts(s, cmd) && NoPolicy(cmd)
    ensures Exec(s, cmd).policy == s.policy
  {
    hide Referenced, RemoveFirst;
  }

  lemma {:induction false} StepsKeepPolicy(s: State, steps: seq<Step>)
    requires forall i :: 0 <= i < |steps| ==> NoPolicy(steps[i].cmd)
    ensures Steps(s, steps).policy == s.policy
    decreases |steps|
  {
    hide Accepts, Repeat, Exec, NoPolicy;
    if steps != [] {
      if steps[0].Loop? {
        RepeatKeepsPolicy(s, steps[0].cmd, 5);
      } else if Accepts(s, steps[0].cmd) {
        ExecKeepsPolicy(s, steps[0].cmd);
      }
      StepsKeepPolicy(DoStep(s, steps[0]), steps[1..]);
    }
  }

  /** One pair of phases: rules out, then the chains they called. */
  lemma PhasePair(s: State, before: State, hs: seq<Hook>, cs: seq<Chain>) returns (mid: State, after: State)
    requires Tame(s) && Shrinks(before, s) && (forall h :: h in hs ==> Listed(h)) && (forall c :: c in cs ==> OwnChain(c))
    requires forall h: Hook, c :: Listed(h) && c in cs && h.0.table == c.table && h.1.jump == Call(c.name) ==> h in hs
    ensures mid == Steps(before, Loops(hs)) && after == Steps(mid, Drops(cs))
    ensures Shrinks(mid, s) && Shrinks(after, s) && Shrinks(after, mid) && AllAbsent(after, hs) && Strip(after) == Strip(before) && after.policy == before.policy
    ensures forall c :: c in cs ==> c !in after.chains
  {
    hide Tame, Listed, OwnChain, Shrinks, Steps, Loops, Drops, Strip, Rare, Absent, Referenced;
    mid := Steps(before, Loops(hs));
    after := Steps(mid, Drops(cs));
    forall i | 0 <= i < |hs|
      ensures Rare(before, hs[i])
    {
      TameRare(s, hs[i]);
      StaysAbsent(before, s, hs[i]);
    }
    LoopsRemove(before, hs);
    ShrinksTwice(mid, before, s);
    forall i | 0 <= i < |cs|
      ensures !Referenced(mid, cs[i])
    {
      forall h: Hook | Listed(h) && h.0.table == cs[i].table && h.1.jump == Call(cs[i].name)
        ensures Absent(mid, h)
      {
        assert h in hs;
      }
      CallerIsListed(s, mid, cs[i]);
    }
    DropsRemove(mid, cs);
    ShrinksTwice(after, mid, s);
    LoopsAreOwn(hs);
    DropsAreOwn(cs);
    StepsKeepForeign(before, Loops(hs));
    StepsKeepForeign(mid, Drops(cs));
    StepsKeepPolicy(before, Loops(hs));
    StepsKeepPolicy(mid, Drops(cs));
    forall i | 0 <= i < |hs|
      ensures Absent(after, hs[i])
    {
      StaysAbsent(after, mid, hs[i]);
    }
  }

  lemma {:induction false} NoForeignersLost(c: Chain, rs: seq<Rule>)
    requires forall r :: r in rs ==> !OwnRule(c, r)
    ensures Foreigners(c, rs) == rs
    decreases |rs|
  {
    hide OwnRule;
    if rs != [] {
      assert rs[0] in rs && forall r :: r in rs[1..] ==> r in rs;
      NoForeignersLost(c, rs[1..]);
    }
  }

  lemma {:induction false} NoPolicyLost(ps: seq<Policy>)
    requires forall p :: p in ps ==> !OwnPolicy(p)
    ensures ForeignPolicy(ps) == ps
    decreases |ps|
  {
    hide OwnPolicy;
    if ps != [] {
      assert ps[0] in ps && forall p :: p in ps[1..] ==> p in ps;
      NoPolicyLost(ps[1..]);
    }
  }

  /** The tables hold none of the manager's objects. */
  ghost predicate Clean(s: State) {
    && (forall c :: c in s.chains ==> !OwnChain(c))
    && (forall c, r :: c in s.chains && r in s.chains[c] ==> !OwnRule(c, r))
    && (forall p :: p in s.policy ==> !OwnPolicy(p))
    && (forall r :: r in s.routes ==> r.table != Table100)
  }

  lemma CleanIsStripped(s: State)
    requires Clean(s)
    ensures Strip(s) == s
  {
    hide OwnRule, OwnChain, OwnPolicy, Foreigners, ForeignPolicy;
    forall c | c in s.chains
      ensures Foreigners(c, s.chains[c]) == s.chains[c]
    {
      NoForeignersLost(c, s.chains[c]);
    }
    assert Strip(s).chains == s.chains;
    NoPolicyLost(s.policy);
    assert Strip(s).routes == s.routes;
  }

  lemma PolicyStepsOwn()
    ensures forall i :: 0 <= i < |PolicySteps()| ==> OwnCommand(PolicySteps()[i].cmd) && Takes(PolicySteps()[i].cmd)
  {
  }

  lemma PhaseLists()
    ensures forall h :: h in LiveHooks() || h in OldHooks() || h in TunHooks() ==> Listed(h)
    ensures forall c :: c in LiveChains() || c in OldChains() || c in LastChains() ==> OwnChain(c)
    ensures forall h: Hook, c :: Listed(h) && c in LiveChains() && h.0.table == c.table && h.1.jump == Call(c.name) ==> h in LiveHooks()
    ensures forall h: Hook, c :: Listed(h) && c in OldChains() && h.0.table == c.table && h.1.jump == Call(c.name) ==> h in OldHooks()
    ensures forall h: Hook, c :: Listed(h) && c in LastChains() && h.0.table == c.table && h.1.jump == Call(c.name) ==> h in TunHooks()
  {
    hide LiveHooks, OldHooks, TunHooks, LiveChains, OldChains, LastChains, OwnChain, Listed;
    forall c | c in LiveChains() || c in OldChains() || c in LastChains()
      ensures OwnChain(c)
    {
      OwnChainsListed(c);
    }
    forall h: Hook, c: Chain | Listed(h) && h.0.table == c.table && h.1.jump == Call(c.name)
      ensures c in LiveChains() ==> h in LiveHooks()
      ensures c in OldChains() ==> h in OldHooks()
      ensures c in LastChains() ==> h in TunHooks()
    {
      HooksOf(h, c);
    }
    forall h | h in LiveHooks() || h in OldHooks() || h in TunHooks()
      ensures Listed(h)
    {
      ListedMeans(h);
    }
  }

  lemma ListedMeans(h: Hook)
    ensures Listed(h) <==> h in LiveHooks() || h in OldHooks() || h in TunHooks()
  {
    hide LiveHooks, OldHooks, TunHooks;
  }

  lemma TameStrips(s: State)
    requires Tame(s)
    ensures Cleanup(s) == Strip(s)
  {
    hide Tame, Listed, OwnChain, Shrinks, Steps, Strip, Absent, LiveHooks, OldHooks, TunHooks, LiveChains, OldChains, LastChains, Loops, Drops, PolicySteps, HasPolicy, OwnPolicy;
    PhaseLists();
    ShrinksSelf(s);
    var s1, s2 := PhasePair(s, s, LiveHooks(), LiveChains());
    var s3 := Steps(s2, PolicySteps());
    PolicyStepsOwn();
    StepsShrink(s2, PolicySteps());
    StepsKeepForeign(s2, PolicySteps());
    ShrinksTwice(s3, s2, s);
    var s4, s5 := PhasePair(s, s3, OldHooks(), OldChains());
    var s6, s7 := PhasePair(s, s5, TunHooks(), LastChains());
    assert s7 == Cleanup(s);
    assert Strip(s7) == Strip(s);
    LoopsAreOwn(OldHooks());
    DropsAreOwn(OldChains());
    LoopsAreOwn(TunHooks());
    DropsAreOwn(LastChains());
    StepsShrink(s3, Loops(OldHooks()));
    StepsShrink(s4, Drops(OldChains()));
    ShrinksTwice(s5, s4, s3);
    StepsShrink(s5, Loops(TunHooks()));
    StepsShrink(s6, Drops(LastChains()));
    ShrinksTwice(s7, s6, s5);
    ShrinksTwice(s7, s5, s3);
    ShrinksTwice(s7, s3, s2);
    PolicyClean(s, s2, s3, s7);
    RulesClean(s, s2, s5, s7);
    CleanIsStripped(s7);
  }

  lemma PolicyClean(s: State, s2: State, s3: State, t: State)
    requires Tame(s) && Shrinks(s2, s) && s3 == Steps(s2, PolicySteps()) && Shrinks(t, s3) && s2.policy == s.policy
    ensures (forall p :: p in t.policy ==> !OwnPolicy(p)) && (forall r :: r in t.routes ==> r.table != Table100)
  {
    hide Steps, PolicySteps, PolicyCount, Listed, OwnRule, OwnChain;
    assert OwnPolicy(Policy(Mark1, Table100, 0));
    PolicyCleared(s2, Mark1, Table100);
    forall p | p in t.policy
      ensures !OwnPolicy(p)
    {
      assert p in multiset(t.policy) && p in multiset(s3.policy);
      if OwnPolicy(p) {
        assert OwnPolicy(Policy(p.mark, p.lookup, 0));
        PolicyCleared(s2, p.mark, p.lookup);
      }
    }
  }

  lemma RulesClean(s: State, s2: State, s5: State, t: State)
    requires Tame(s) && Shrinks(t, s) && Shrinks(t, s2) && Shrinks(t, s5)
    requires AllAbsent(s2, LiveHooks()) && AllAbsent(s5, OldHooks()) && AllAbsent(t, TunHooks())
    requires forall c :: c in LiveChains() ==> c !in s2.chains
    requires forall c :: c in OldChains() ==> c !in s5.chains
    requires forall c :: c in LastChains() ==> c !in t.chains
    ensures forall c :: c in t.chains ==> !OwnChain(c)
    ensures forall c, r :: c in t.chains && r in t.chains[c] ==> !OwnRule(c, r)
  {
    hide LiveHooks, OldHooks, TunHooks, LiveChains, OldChains, LastChains, OwnChain, OwnRule, Listed;
    forall c | c in t.chains
      ensures !OwnChain(c)
    {
      OwnChainsListed(c);
    }
    forall c, r | c in t.chains && r in t.chains[c]
      ensures !OwnRule(c, r)
    {
      assert r in multiset(t.chains[c]) && r in multiset(s.chains[c]);
      var h := (c, r);
      ListedMeans(h);
      StaysAbsent(t, s2, h);
      StaysAbsent(t, s5, h);
    }
  }

  // ----- five attempts are enough for five copies, and no more -----

  function Copies(s: State, h: Hook): nat {
    if h.0 in s.chains then multiset(s.chains[h.0])[h.1] else 0
  }

  /** How many loops of the list delete h. */
  function Uses(steps: seq<Step>, h: Hook): nat {
    if steps == [] then 0 else (if steps[0].cmd == Delete(h.0, h.1) then 1 else 0) + Uses(steps[1..], h)
  }

  lemma ExecCopies(s: State, cmd: Command, h: Hook)
    requires Accepts(s, cmd) && Takes(cmd) && OwnCommand(cmd) && !OwnChain(h.0)
    ensures Copies(Exec(s, cmd), h) >= Copies(s, h) - if cmd == Delete(h.0, h.1) then 1 else 0
  {
    hide OwnChain, OwnRule, RemoveFirst, RemovePolicy, Referenced, HasPolicy, OwnPolicy, Listed;
    if cmd.Delete? && cmd.c == h.0 {
      var _ := RemoveFirst(s.chains[cmd.c], cmd.r);
    }
  }

  lemma {:induction false} RepeatCopies(s: State, cmd: Command, n: nat, h: Hook)
    requires Takes(cmd) && OwnCommand(cmd) && !OwnChain(h.0)
    ensures Copies(Repeat(s, cmd, n), h) >= Copies(s, h) - if cmd == Delete(h.0, h.1) then n else 0
    decreases n
  {
    hide Accepts, Exec, Takes, OwnCommand, OwnChain, Copies;
    if n > 0 && Accepts(s, cmd) {
      ExecCopies(s, cmd, h);
      RepeatCopies(Exec(s, cmd), cmd, n - 1, h);
    }
  }

  lemma {:induction false} StepsCopies(s: State, steps: seq<Step>, h: Hook)
    requires !OwnChain(h.0) && forall i :: 0 <= i < |steps| ==> Takes(steps[i].cmd) && OwnCommand(steps[i].cmd)
    ensures Copies(Steps(s, steps), h) >= Copies(s, h) - 5 * Uses(steps, h)
    decreases |steps|
  {
    hide Accepts, Exec, Takes, OwnCommand, OwnChain, Copies, Repeat;
    if steps != [] {
      match steps[0] {
        case Once(cmd) =>
          if Accepts(s, cmd) {
            ExecCopies(s, cmd, h);
          }
        case Loop(cmd) => RepeatCopies(s, cmd, 5, h);
      }
      StepsCopies(DoStep(s, steps[0]), steps[1..], h);
    }
  }

  function Occurs(hs: seq<Hook>, h: Hook): nat {
    if hs == [] then 0 else (if hs[0] == h then 1 else 0) + Occurs(hs[1..], h)
  }

  lemma {:induction false} LoopUses(hs: seq<Hook>, h: Hook)
    ensures Uses(Loops(hs), h) == Occurs(hs, h)
    decreases |hs|
  {
    if hs != [] {
      assert Loops(hs)[1..] == Loops(hs[1..]);
      LoopUses(hs[1..], h);
    }
  }

  lemma {:induction false} DropUses(cs: seq<Chain>, h: Hook)
    ensures Uses(Drops(cs), h) == 0
    decreases |cs|
  {
    if cs != [] {
      var rest := [Once(DropChain(cs[0]))] + Drops(cs[1..]);
      assert Drops(cs)[1..] == rest && rest[1..] == Drops(cs[1..]);
      DropUses(cs[1..], h);
    }
  }

  lemma PolicyUses(h: Hook)
    ensures Uses(PolicySteps(), h) == 0
  {
    var ps := PolicySteps();
    assert ps[1..][1..] == ps[2..] && ps[2..][1..] == ps[3..] && ps[3..][1..] == [];
    assert Uses(ps[3..], h) == 0;
    assert Uses(ps[2..], h) == 0;
    assert Uses(ps[1..], h) == 0;
  }

  ghost predicate Different(hs: seq<Hook>) {
    forall i, j :: 0 <= i < j < |hs| ==> hs[i] != hs[j]
  }

  lemma {:induction false} OccursOnce(hs: seq<Hook>, h: Hook)
    requires Different(hs)
    ensures Occurs(hs, h) == if h in hs then 1 else 0
    decreases |hs|
  {
    if hs != [] {
      OccursOnce(hs[1..], h);
    }
  }

  lemma HooksDiffer(h: Hook)
    ensures Different(LiveHooks()) && Different(OldHooks()) && Different(TunHooks())
    ensures !(h in LiveHooks() && h in OldHooks()) && !(h in LiveHooks() && h in TunHooks()) && !(h in OldHooks() && h in TunHooks())
  {
  }

  /** A rule that is there more than five times is still there afterwards. */
  lemma CopiesStay(s: State, h: Hook)
    requires !OwnChain(h.0)
    ensures Copies(Cleanup(s), h) >= Copies(s, h) - 5
  {
    hide Steps, Copies, Uses, Loops, Drops, LiveHooks, OldHooks, TunHooks, LiveChains, OldChains, LastChains, PolicySteps, OwnChain, OwnCommand, Takes, Listed, Different, Occurs;
    PhaseLists();
    LoopsAreOwn(LiveHooks());
    LoopsAreOwn(OldHooks());
    LoopsAreOwn(TunHooks());
    DropsAreOwn(LiveChains());
    DropsAreOwn(OldChains());
    DropsAreOwn(LastChains());
    PolicyStepsOwn();
    HooksDiffer(h);
    LoopUses(LiveHooks(), h);
    LoopUses(OldHooks(), h);
    LoopUses(TunHooks(), h);
    OccursOnce(LiveHooks(), h);
    OccursOnce(OldHooks(), h);
    OccursOnce(TunHooks(), h);
    DropUses(LiveChains(), h);
    DropUses(OldChains(), h);
    DropUses(LastChains(), h);
    PolicyUses(h);
    var s1 := Steps(s, Loops(LiveHooks()));
    var s2 := Steps(s1, Drops(LiveChains()));
    var s3 := Steps(s2, PolicySteps());
    var s4 := Steps(s3, Loops(OldHooks()));
    var s5 := Steps(s4, Drops(OldChains()));
    var s6 := Steps(s5, Loops(TunHooks()));
    StepsCopies(s, Loops(LiveHooks()), h);
    StepsCopies(s1, Drops(LiveChains()), h);
    StepsCopies(s2, PolicySteps(), h);
    StepsCopies(s3, Loops(OldHooks()), h);
    StepsCopies(s4, Drops(OldChains()), h);
    StepsCopies(s5, Loops(TunHooks()), h);
    StepsCopies(s6, Drops(LastChains()), h);
  }

  lemma {:induction false} RemoveOnlyMatching(ps: seq<Policy>, mark: FwMark, lookup: RtTable, m: FwMark, l: RtTable)
    ensures PolicyCount(RemovePolicy(ps, mark, lookup), m, l) >= PolicyCount(ps, m, l) - if mark == m && lookup == l then 1 else 0
    decreases |ps|
  {
    if ps != [] && !Matches(ps[0], mark, lookup) {
      RemoveOnlyMatching(ps[1..], mark, lookup, m, l);
      assert RemovePolicy(ps, mark, lookup)[1..] == RemovePolicy(ps[1..], mark, lookup);
    }
  }

  lemma {:induction false} PolicyLoopStays(s: State, mark: FwMark, lookup: RtTable, n: nat, m: FwMark, l: RtTable)
    ensures PolicyCount(Repeat(s, RuleDel(mark, lookup), n).policy, m, l)
         >= PolicyCount(s.policy, m, l) - if mark == m && lookup == l then n else 0
    decreases n
  {
    hide PolicyCount, RemovePolicy, HasPolicy;
    if n > 0 && Accepts(s, RuleDel(mark, lookup)) {
      RemoveOnlyMatching(s.policy, mark, lookup, m, l);
      PolicyLoopStays(Exec(s, RuleDel(mark, lookup)), mark, lookup, n - 1, m, l);
    }
  }

  lemma PolicyStays(s: State, m: FwMark, l: RtTable)
    ensures PolicyCount(Cleanup(s).policy, m, l) >= PolicyCount(s.policy, m, l) - 5
  {
    hide PolicyCount, Repeat, Steps, Loops, Drops, LiveHooks, OldHooks, TunHooks, LiveChains, OldChains, LastChains, Listed, OwnChain;
    PhaseLists();
    LoopsAreOwn(LiveHooks());
    LoopsAreOwn(OldHooks());
    LoopsAreOwn(TunHooks());
    DropsAreOwn(LiveChains());
    DropsAreOwn(OldChains());
    DropsAreOwn(LastChains());
    var s1 := Steps(s, Loops(LiveHooks()));
    var s2 := Steps(s1, Drops(LiveChains()));
    var s3 := Steps(s2, PolicySteps());
    var s4 := Steps(s3, Loops(OldHooks()));
    var s5 := Steps(s4, Drops(OldChains()));
    var s6 := Steps(s5, Loops(TunHooks()));
    StepsKeepPolicy(s, Loops(LiveHooks()));
    StepsKeepPolicy(s1, Drops(LiveChains()));
    StepsKeepPolicy(s3, Loops(OldHooks()));
    StepsKeepPolicy(s4, Drops(OldChains()));
    StepsKeepPolicy(s5, Loops(TunHooks()));
    StepsKeepPolicy(s6, Drops(LastChains()));
    FourSteps(s2, PolicySteps());
    var t1 := Repeat(s2, RuleDel(Mark1, Table100), 5);
    var t2 := Repeat(t1, RuleDel(Mark1Mask1, Table100), 5);
    PolicyLoopStays(s2, Mark1, Table100, 5, m, l);
    PolicyLoopStays(t1, Mark1Mask1, Table100, 5, m, l);
    PolicyLoopStays(t2, Mark9911, Main, 5, m, l);
  }

  /** The cleanup removes exactly the manager's objects, if and only if none of
      them is there more than five times. */
  lemma CleanupStrips(s: State)
    requires Placed(s)
    ensures Cleanup(s) == Strip(s) <==> Few(s)
  {
    hide Cleanup, Strip, Placed, Few, Clean;
    if Few(s) {
      TameStrips(s);
    } else {
      TooManySurvive(s);
      StrippedIsClean(s);
    }
  }

  lemma TooManySurvive(s: State)
    requires Placed(s) && !Few(s)
    ensures !Clean(Cleanup(s))
  {
    hide Cleanup, OwnRule, OwnChain, Listed, PolicyCount;
    if mark, lookup :| OwnPolicy(Policy(mark, lookup, 0)) && PolicyCount(s.policy, mark, lookup) > 5 {
      PolicyStays(s, mark, lookup);
      PolicyThere(Cleanup(s).policy, mark, lookup);
      var i :| 0 <= i < |Cleanup(s).policy| && Matches(Cleanup(s).policy[i], mark, lookup);
      assert Cleanup(s).policy[i] in Cleanup(s).policy && OwnPolicy(Cleanup(s).policy[i]);
    } else {
      var c, r :| c in s.chains && r in s.chains[c] && OwnRule(c, r) && multiset(s.chains[c])[r] > 5;
      CopiesStay(s, (c, r));
      var t := Cleanup(s);
      assert c in t.chains && multiset(t.chains[c])[r] > 0;
      assert r in t.chains[c];
    }
  }

  // ----- installing, and rolling back -----

  /** The commands taken one after the other; a refused one changes nothing. */
  function Apply(s: State, cmds: seq<Command>): State
    decreases |cmds|
  {
    if cmds == [] then s else Try(Apply(s, cmds[..|cmds| - 1]), cmds[|cmds| - 1])
  }

  predicate Adds(cmd: Command) {
    cmd.New? || cmd.Append? || cmd.Insert? || cmd.RuleAdd? || cmd.RouteAdd?
  }

  /** How many copies of its own objects there can be: n of a rule, m of a policy. */
  ghost predicate Budget(s: State, n: nat, m: nat) {
    RulesWithin(s.chains, n) && PolicyWithin(s.policy, m)
  }

  ghost predicate RulesWithin(chains: map<Chain, seq<Rule>>, n: nat) {
    forall c, r :: c in chains && r in chains[c] && OwnRule(c, r) ==>
      !OwnChain(c) && Listed((c, r)) && multiset(chains[c])[r] <= n
  }

  ghost predicate PolicyWithin(ps: seq<Policy>, m: nat) {
    forall mark, lookup :: OwnPolicy(Policy(mark, lookup, 0)) ==> PolicyCount(ps, mark, lookup) <= m
  }

  lemma BudgetIsTame(s: State, n: nat, m: nat)
    requires Budget(s, n, m) && n <= 5 && m <= 5
    ensures Tame(s)
  {
    hide OwnRule, OwnChain, Listed, OwnPolicy, PolicyCount;
  }

  lemma CleanBudget(s: State)
    requires Clean(s)
    ensures Budget(s, 0, 0)
  {
    hide OwnRule, OwnChain, Listed, PolicyCount;
    forall mark, lookup | OwnPolicy(Policy(mark, lookup, 0))
      ensures PolicyCount(s.policy, mark, lookup) == 0
    {
      forall i | 0 <= i < |s.policy|
        ensures !Matches(s.policy[i], mark, lookup)
      {
        assert s.policy[i] in s.policy;
      }
      PolicyThere(s.policy, mark, lookup);
    }
  }

  lemma {:induction false} PolicyMore(ps: seq<Policy>, p: Policy, mark: FwMark, lookup: RtTable)
    ensures PolicyCount(InsertPolicy(ps, p), mark, lookup) <= PolicyCount(ps, mark, lookup) + 1
    decreases |ps|
  {
    hide Matches;
    if ps == [] || ps[0].pref > p.pref {
      assert ([p] + ps)[1..] == ps;
    } else {
      PolicyMore(ps[1..], p, mark, lookup);
      assert InsertPolicy(ps, p)[1..] == InsertPolicy(ps[1..], p);
    }
  }

  lemma NotOwnInside(c: Chain, r: Rule)
    requires OwnChain(c) && !r.jump.Call?
    ensures !OwnRule(c, r)
  {
  }

  lemma ExecBudget(s: State, cmd: Command, n: nat, m: nat)
    requires Accepts(s, cmd) && OwnCommand(cmd) && Adds(cmd) && Budget(s, n, m)
    ensures Budget(Exec(s, cmd), if cmd.Insert? then n + 1 else n, if cmd.RuleAdd? then m + 1 else m)
  {
    hide OwnRule, OwnChain, Listed, OwnPolicy, RulesWithin, PolicyWithin, InsertPolicy;
    match cmd
    case RuleAdd(p) => PolicyCounts(s.policy, p, m);
    case Insert(c, r) => InsertCounts(s.chains, c, r, n);
    case Append(c, r) =>
      NotOwnInside(c, r);
      AppendCounts(s.chains, c, r, n);
    case New(c) => NewCounts(s.chains, c, n);
    case RouteAdd(_) =>
  }

  lemma PolicyCounts(ps: seq<Policy>, p: Policy, m: nat)
    requires PolicyWithin(ps, m)
    ensures PolicyWithin(InsertPolicy(ps, p), m + 1)
  {
    hide OwnPolicy, PolicyCount, InsertPolicy;
    forall mark, lookup | OwnPolicy(Policy(mark, lookup, 0))
      ensures PolicyCount(InsertPolicy(ps, p), mark, lookup) <= m + 1
    {
      PolicyMore(ps, p, mark, lookup);
    }
  }

  lemma NewCounts(chains: map<Chain, seq<Rule>>, c: Chain, n: nat)
    requires RulesWithin(chains, n)
    ensures RulesWithin(chains[c := []], n)
  {
    hide OwnRule, OwnChain, Listed;
  }

  lemma InsertCounts(chains: map<Chain, seq<Rule>>, c: Chain, r: Rule, n: nat)
    requires c in chains && !OwnChain(c) && Listed((c, r)) && RulesWithin(chains, n)
    ensures RulesWithin(chains[c := [r] + chains[c]], n + 1)
  {
    hide OwnRule, OwnChain, Listed;
    var t := chains[c := [r] + chains[c]];
    forall d, q | d in t && q in t[d] && OwnRule(d, q)
      ensures !OwnChain(d) && Listed((d, q)) && multiset(t[d])[q] <= n + 1
    {
      if d == c {
        assert multiset(t[d]) == multiset{r} + multiset(chains[c]);
        if q !in chains[c] {
          assert q == r && multiset(chains[c])[q] == 0;
        }
      }
    }
  }

  lemma AppendCounts(chains: map<Chain, seq<Rule>>, c: Chain, r: Rule, n: nat)
    requires c in chains && !OwnRule(c, r) && RulesWithin(chains, n)
    ensures RulesWithin(chains[c := chains[c] + [r]], n)
  {
    hide OwnRule, OwnChain, Listed;
  }

  function Inserts(cmds: seq<Command>): nat {
    if cmds == [] then 0 else Inserts(cmds[..|cmds| - 1]) + if cmds[|cmds| - 1].Insert? then 1 else 0
  }

  function RuleAdds(cmds: seq<Command>): nat {
    if cmds == [] then 0 else RuleAdds(cmds[..|cmds| - 1]) + if cmds[|cmds| - 1].RuleAdd? then 1 else 0
  }

  lemma {:induction false} ApplyBudget(s: State, cmds: seq<Command>)
    requires Clean(s) && forall i :: 0 <= i < |cmds| ==> OwnCommand(cmds[i]) && Adds(cmds[i])
    ensures Budget(Apply(s, cmds), Inserts(cmds), RuleAdds(cmds)) && Strip(Apply(s, cmds)) == Strip(s)
    decreases |cmds|
  {
    hide Clean, OwnCommand, Budget, Strip, Accepts, Exec, Adds;
    if cmds == [] {
      CleanBudget(s);
    } else {
      var n := |cmds| - 1;
      ApplyBudget(s, cmds[..n]);
      var t := Apply(s, cmds[..n]);
      if Accepts(t, cmds[n]) {
        ExecBudget(t, cmds[n], Inserts(cmds[..n]), RuleAdds(cmds[..n]));
        ExecKeepsForeign(t, cmds[n]);
      } else {
        BudgetGrows(t, Inserts(cmds[..n]), RuleAdds(cmds[..n]), Inserts(cmds), RuleAdds(cmds));
      }
    }
  }

  lemma BudgetGrows(s: State, n: nat, m: nat, n': nat, m': nat)
    requires Budget(s, n, m) && n <= n' && m <= m'
    ensures Budget(s, n', m')
  {
    hide OwnRule, OwnChain, Listed, OwnPolicy, PolicyCount;
  }

  /** What the rollback needs to know about a plan: only the manager's objects, at
      most five hooks, at most five policy rules. */
  ghost predicate Removable(cmds: seq<Command>) {
    && (forall i :: 0 <= i < |cmds| ==> OwnCommand(cmds[i]) && Adds(cmds[i]))
    && (forall i :: 0 <= i < |cmds| && cmds[i].Insert? ==> i >= |cmds| - 5)
    && (forall i :: 0 <= i < |cmds| && cmds[i].RuleAdd? ==> i < 5)
  }

  lemma {:induction false} FewInserts(cmds: seq<Command>, k: nat)
    requires Removable(cmds) && k <= |cmds|
    ensures Inserts(cmds[..k]) <= (if k > |cmds| - 5 then k - (|cmds| - 5) else 0) && Inserts(cmds[..k]) <= k
    ensures RuleAdds(cmds[..k]) <= (if k < 5 then k else 5)
    decreases k
  {
    hide OwnCommand, Adds;
    if k > 0 {
      FewInserts(cmds, k - 1);
      assert cmds[..k][..k - 1] == cmds[..k - 1];
    }
  }

  /** Any prefix of a removable plan, then the cleanup: exactly the old tables. */
  lemma PrefixRollsBack(base: State, cmds: seq<Command>, k: nat)
    requires Clean(base) && Removable(cmds) && k <= |cmds|
    ensures Cleanup(Apply(base, cmds[..k])) == base
  {
    hide Clean, Cleanup, Strip, Tame, Budget, OwnCommand, Adds, Inserts, RuleAdds, Apply;
    var t := Apply(base, cmds[..k]);
    ApplyBudget(base, cmds[..k]);
    FewInserts(cmds, k);
    BudgetIsTame(t, Inserts(cmds[..k]), RuleAdds(cmds[..k]));
    TameStrips(t);
    CleanIsStripped(base);
  }

  predicate IsLan(i: Iface) {
    i == Br0 || i == BrLan
  }

  ghost predicate ChainWork(cmds: seq<Command>) {
    forall i :: 0 <= i < |cmds| ==> OwnCommand(cmds[i]) && (cmds[i].New? || cmds[i].Append?)
  }

  lemma ChainPartWorks(c: Chain, rs: seq<Rule>)
    requires OwnChain(c) && forall r :: r in rs ==> !r.jump.Call?
    ensures ChainWork(ChainPart(c, rs))
  {
    hide OwnChain;
    var cmds := ChainPart(c, rs);
    forall i | 0 <= i < |cmds|
      ensures OwnCommand(cmds[i]) && (cmds[i].New? || cmds[i].Append?)
    {
      if i > 0 {
        assert cmds[i] == Append(c, rs[i - 1]) && rs[i - 1] in rs;
      }
    }
  }

  lemma HooksListed(lan: Iface)
    requires IsLan(lan)
    ensures forall i :: 0 <= i < |Hooks(lan)| ==> OwnCommand(Hooks(lan)[i]) && Hooks(lan)[i].Insert?
  {
    var hs, l := Hooks(lan), LiveHooks();
    assert l[5] in l && l[6] in l && l[4] in l && l[2] in l && l[3] in l && l[0] in l;
    forall i | 0 <= i < |hs|
      ensures OwnCommand(hs[i]) && hs[i].Insert?
    {
    }
  }

  lemma PlanIsRemovable(lan: Iface, dns: seq<string>, endpoints: seq<string>, locals: seq<string>)
    requires IsLan(lan)
    ensures Removable(Plan(lan, dns, endpoints, locals))
  {
    hide OwnCommand, CaptureRules, Hooks, ChainPart, MangleInputRules, FilterInputRules;
    var a := ChainPart(Chain(Mangle, VlessTproxy), CaptureRules(Tproxy(REDIRECT_PORT), dns, endpoints, locals));
    var b := ChainPart(Chain(Mangle, VlessOutput), CaptureRules(SetMark(Mark1), dns, endpoints, locals));
    var c := ChainPart(Chain(Mangle, VlessIn), MangleInputRules(lan));
    var d := ChainPart(Chain(Filter, VlessIn), FilterInputRules(lan));
    InputRulesPlain(lan);
    ChainPartWorks(Chain(Mangle, VlessTproxy), CaptureRules(Tproxy(REDIRECT_PORT), dns, endpoints, locals));
    ChainPartWorks(Chain(Mangle, VlessOutput), CaptureRules(SetMark(Mark1), dns, endpoints, locals));
    ChainPartWorks(Chain(Mangle, VlessIn), MangleInputRules(lan));
    ChainPartWorks(Chain(Filter, VlessIn), FilterInputRules(lan));
    ChainWorkJoins(a, b);
    ChainWorkJoins(a + b, c);
    ChainWorkJoins(a + b + c, d);
    HooksListed(lan);
    FiveHooks(lan);
    PolicyPartOwn();
    JoinPlan(PolicyPart(), a + b + c + d, Hooks(lan));
    assert Plan(lan, dns, endpoints, locals) == PolicyPart() + (a + b + c + d) + Hooks(lan);
  }

  lemma InputRulesPlain(lan: Iface)
    ensures (forall r :: r in MangleInputRules(lan) ==> !r.jump.Call?) && (forall r :: r in FilterInputRules(lan) ==> !r.jump.Call?)
  {
  }

  lemma FiveHooks(lan: Iface)
    ensures |Hooks(lan)| == 5
  {
  }

  lemma PolicyPartOwn()
    ensures |PolicyPart()| == 3 && forall i :: 0 <= i < 3 ==> OwnCommand(PolicyPart()[i]) && Adds(PolicyPart()[i]) && !PolicyPart()[i].Insert?
  {
  }

  lemma ChainWorkJoins(a: seq<Command>, b: seq<Command>)
    requires ChainWork(a) && ChainWork(b)
    ensures ChainWork(a + b)
  {
    hide OwnCommand;
  }

  lemma JoinPlan(p: seq<Command>, w: seq<Command>, h: seq<Command>)
    requires |p| == 3 && forall i :: 0 <= i < 3 ==> OwnCommand(p[i]) && Adds(p[i]) && !p[i].Insert?
    requires ChainWork(w) && |h| == 5 && forall i :: 0 <= i < 5 ==> OwnCommand(h[i]) && h[i].Insert?
    ensures Removable(p + w + h)
  {
    hide OwnCommand;
  }

  /** From tables holding none of the manager's objects, any prefix of the route
      plan followed by the cleanup restores them exactly: foreign rules, their
      order, policy rules and routes. */
  lemma RollbackRestores(base: State, lan: Iface, dns: seq<string>, endpoints: seq<string>, locals: seq<string>, k: nat)
    requires Clean(base) && IsLan(lan) && k <= |Plan(lan, dns, endpoints, locals)|
    ensures Cleanup(Apply(base, Plan(lan, dns, endpoints, locals)[..k])) == base
  {
    hide Clean, Cleanup, Plan, Apply, Removable;
    PlanIsRemovable(lan, dns, endpoints, locals);
    PrefixRollsBack(base, Plan(lan, dns, endpoints, locals), k);
  }

  // ----- a plan that goes through -----

  ghost predicate AllAccepted(s: State, cmds: seq<Command>) {
    forall i :: 0 <= i < |cmds| ==> Accepts(Apply(s, cmds[..i]), cmds[i])
  }

  lemma {:induction false} ApplyJoin(s: State, a: seq<Command>, b: seq<Command>)
    ensures Apply(s, a + b) == Apply(Apply(s, a), b)
    decreases |b|
  {
    hide Try;
    if b == [] {
      assert a + b == a;
    } else {
      var n := |b| - 1;
      ApplyJoin(s, a, b[..n]);
      assert (a + b)[..|a + b| - 1] == a + b[..n];
    }
  }

  lemma {:induction false} AcceptedJoin(s: State, a: seq<Command>, b: seq<Command>)
    requires AllAccepted(s, a) && AllAccepted(Apply(s, a), b)
    ensures AllAccepted(s, a + b)
  {
    hide Accepts, Apply;
    var ab := a + b;
    forall i | 0 <= i < |ab|
      ensures Accepts(Apply(s, ab[..i]), ab[i])
    {
      if i < |a| {
        assert ab[..i] == a[..i];
      } else {
        assert ab[..i] == a + b[..i - |a|];
        ApplyJoin(s, a, b[..i - |a|]);
      }
    }
  }

  lemma OneCommand(s: State, cmd: Command)
    ensures Apply(s, [cmd]) == Try(s, cmd) && (Accepts(s, cmd) ==> AllAccepted(s, [cmd]))
  {
    hide Accepts, Try;
    assert [cmd][..0] == [];
    assert Apply(s, [cmd][..0]) == s;
  }

  /** Appending to a chain that is there. */
  lemma {:induction false} Appended(s: State, c: Chain, rs: seq<Rule>)
    requires c in s.chains && s.chains[c] == [] && forall r :: r in rs ==> !r.jump.Call?
    ensures AllAccepted(s, AppendAll(c, rs)) && Apply(s, AppendAll(c, rs)) == s.(chains := s.chains[c := rs])
    decreases |rs|
  {
    if rs == [] {
      assert s.chains[c := []] == s.chains;
    } else {
      var n := |rs| - 1;
      var before, last := rs[..n], Append(c, rs[n]);
      Appended(s, c, before);
      assert AppendAll(c, rs) == AppendAll(c, before) + [last];
      var t := Apply(s, AppendAll(c, before));
      assert rs[n] in rs && before + [rs[n]] == rs;
      assert Accepts(t, last);
      assert Try(t, last) == s.(chains := s.chains[c := rs]);
      OneCommand(t, last);
      AcceptedJoin(s, AppendAll(c, before), [last]);
      ApplyJoin(s, AppendAll(c, before), [last]);
    }
  }

  lemma ChainMade(s: State, c: Chain, rs: seq<Rule>)
    requires c !in s.chains && forall r :: r in rs ==> !r.jump.Call?
    ensures AllAccepted(s, ChainPart(c, rs)) && Apply(s, ChainPart(c, rs)) == s.(chains := s.chains[c := rs])
  {
    hide Apply, AllAccepted;
    OneCommand(s, New(c));
    var t := Apply(s, [New(c)]);
    Appended(t, c, rs);
    AcceptedJoin(s, [New(c)], AppendAll(c, rs));
    ApplyJoin(s, [New(c)], AppendAll(c, rs));
    assert t.chains[c := rs] == s.chains[c := rs];
  }

  lemma InsertDone(s: State, c: Chain, r: Rule)
    requires c in s.chains && r.jump.Call? && Chain(c.table, r.jump.chain) in s.chains
    ensures AllAccepted(s, [Insert(c, r)]) && Apply(s, [Insert(c, r)]) == s.(chains := s.chains[c := [r] + s.chains[c]])
  {
    hide Apply, AllAccepted;
    OneCommand(s, Insert(c, r));
  }

  /** What the built-in chains hold after the hooks went in. */
  ghost predicate Hooked(t: State, s: State, lan: Iface) {
    && INPUT in s.chains && MANGLE_INPUT in s.chains && MANGLE_PREROUTING in s.chains && MANGLE_OUTPUT in s.chains
    && t.chains == s.chains
         [INPUT := [Rule(All, Call(VlessIn))] + s.chains[INPUT]]
         [MANGLE_INPUT := [Rule(All, Call(VlessIn))] + s.chains[MANGLE_INPUT]]
         [MANGLE_PREROUTING := [Rule(From(lan), Call(VlessTproxy)), Rule(From(Lo), Call(VlessTproxy))] + s.chains[MANGLE_PREROUTING]]
         [MANGLE_OUTPUT := [Rule(All, Call(VlessOutput))] + s.chains[MANGLE_OUTPUT]]
  }

  lemma HooksDone(s: State, lan: Iface)
    requires INPUT in s.chains && MANGLE_INPUT in s.chains && MANGLE_PREROUTING in s.chains && MANGLE_OUTPUT in s.chains
    requires Chain(Filter, VlessIn) in s.chains && Chain(Mangle, VlessIn) in s.chains
    requires Chain(Mangle, VlessTproxy) in s.chains && Chain(Mangle, VlessOutput) in s.chains
    ensures AllAccepted(s, Hooks(lan)) && Hooked(Apply(s, Hooks(lan)), s, lan)
    ensures Apply(s, Hooks(lan)).policy == s.policy && Apply(s, Hooks(lan)).routes == s.routes
  {
    hide Apply, AllAccepted, Accepts, Try;
    var vin, lo, net, out := Rule(All, Call(VlessIn)), Rule(From(Lo), Call(VlessTproxy)), Rule(From(lan), Call(VlessTproxy)), Rule(All, Call(VlessOutput));
    InsertDone(s, INPUT, vin);
    var s1 := Apply(s, [Insert(INPUT, vin)]);
    InsertDone(s1, MANGLE_INPUT, vin);
    var s2 := Apply(s1, [Insert(MANGLE_INPUT, vin)]);
    InsertDone(s2, MANGLE_PREROUTING, lo);
    var s3 := Apply(s2, [Insert(MANGLE_PREROUTING, lo)]);
    InsertDone(s3, MANGLE_PREROUTING, net);
    var s4 := Apply(s3, [Insert(MANGLE_PREROUTING, net)]);
    InsertDone(s4, MANGLE_OUTPUT, out);
    var s5 := Apply(s4, [Insert(MANGLE_OUTPUT, out)]);
    FiveCommands(s, s1, s2, s3, s4, Hooks(lan));
    HookedChains(s, s5, lan);
  }

  lemma FiveCommands(s: State, s1: State, s2: State, s3: State, s4: State, h: seq<Command>)
    requires |h| == 5
    requires AllAccepted(s, [h[0]]) && s1 == Apply(s, [h[0]]) && AllAccepted(s1, [h[1]]) && s2 == Apply(s1, [h[1]])
    requires AllAccepted(s2, [h[2]]) && s3 == Apply(s2, [h[2]]) && AllAccepted(s3, [h[3]]) && s4 == Apply(s3, [h[3]])
    requires AllAccepted(s4, [h[4]])
    ensures AllAccepted(s, h) && Apply(s, h) == Apply(s4, [h[4]])
  {
    hide *;
    var h2 := [h[0]] + [h[1]];
    var h3 := h2 + [h[2]];
    var h4 := h3 + [h[3]];
    AcceptedJoin(s, [h[0]], [h[1]]);
    ApplyJoin(s, [h[0]], [h[1]]);
    AcceptedJoin(s, h2, [h[2]]);
    ApplyJoin(s, h2, [h[2]]);
    AcceptedJoin(s, h3, [h[3]]);
    ApplyJoin(s, h3, [h[3]]);
    AcceptedJoin(s, h4, [h[4]]);
    ApplyJoin(s, h4, [h[4]]);
    assert h == h4 + [h[4]];
  }

  lemma HookedChains(s: State, t: State, lan: Iface)
    requires INPUT in s.chains && MANGLE_INPUT in s.chains && MANGLE_PREROUTING in s.chains && MANGLE_OUTPUT in s.chains
    requires var c1 := s.chains[INPUT := [Rule(All, Call(VlessIn))] + s.chains[INPUT]];
      var c2 := c1[MANGLE_INPUT := [Rule(All, Call(VlessIn))] + c1[MANGLE_INPUT]];
      var c3 := c2[MANGLE_PREROUTING := [Rule(From(Lo), Call(VlessTproxy))] + c2[MANGLE_PREROUTING]];
      var c4 := c3[MANGLE_PREROUTING := [Rule(From(lan), Call(VlessTproxy))] + c3[MANGLE_PREROUTING]];
      t.chains == c4[MANGLE_OUTPUT := [Rule(All, Call(VlessOutput))] + c4[MANGLE_OUTPUT]]
    ensures Hooked(t, s, lan)
  {
    var a, b := Rule(From(lan), Call(VlessTproxy)), Rule(From(Lo), Call(VlessTproxy));
    var rs := s.chains[MANGLE_PREROUTING];
    assert [a] + ([b] + rs) == [a, b] + rs;
  }

  lemma {:induction false} InsertedPolicy(ps: seq<Policy>, p: Policy, q: Policy)
    ensures q in InsertPolicy(ps, p) ==> q == p || q in ps
    decreases |ps|
  {
    if ps != [] && ps[0].pref <= p.pref {
      InsertedPolicy(ps[1..], p, q);
    }
  }

  lemma PolicyDone(s: State)
    requires Clean(s)
    ensures AllAccepted(s, PolicyPart())
    ensures var p1, p2 := Policy(Mark1, Table100, 1), Policy(Mark9911, Main, 2);
      Apply(s, PolicyPart()) == State(s.chains, InsertPolicy(InsertPolicy(s.policy, p1), p2), s.routes + {Route(Table100, "0.0.0.0/0")})
  {
    hide Apply, AllAccepted, InsertPolicy;
    var p1, p2, route := Policy(Mark1, Table100, 1), Policy(Mark9911, Main, 2), Route(Table100, "0.0.0.0/0");
    assert OwnPolicy(p1) && OwnPolicy(p2);
    OneCommand(s, RuleAdd(p1));
    var s1 := Apply(s, [RuleAdd(p1)]);
    InsertedPolicy(s.policy, p1, p2);
    OneCommand(s1, RuleAdd(p2));
    var s2 := Apply(s1, [RuleAdd(p2)]);
    OneCommand(s2, RouteAdd(route));
    AcceptedJoin(s, [RuleAdd(p1)], [RuleAdd(p2)]);
    ApplyJoin(s, [RuleAdd(p1)], [RuleAdd(p2)]);
    AcceptedJoin(s, [RuleAdd(p1)] + [RuleAdd(p2)], [RouteAdd(route)]);
    ApplyJoin(s, [RuleAdd(p1)] + [RuleAdd(p2)], [RouteAdd(route)]);
    assert PolicyPart() == [RuleAdd(p1)] + [RuleAdd(p2)] + [RouteAdd(route)];
  }

  /** The tables once the four chains are filled, before they are hooked in. */
  function WithChains(base: State, lan: Iface, dns: seq<string>, endpoints: seq<string>, locals: seq<string>): State {
    State(
      base.chains
      [Chain(Mangle, VlessTproxy) := CaptureRules(Tproxy(REDIRECT_PORT), dns, endpoints, locals)]
      [Chain(Mangle, VlessOutput) := CaptureRules(SetMark(Mark1), dns, endpoints, locals)]
      [Chain(Mangle, VlessIn) := MangleInputRules(lan)]
      [Chain(Filter, VlessIn) := FilterInputRules(lan)],
      InsertPolicy(InsertPolicy(base.policy, Policy(Mark1, Table100, 1)), Policy(Mark9911, Main, 2)),
      base.routes + {Route(Table100, "0.0.0.0/0")})
  }

  lemma ChainsDone(s: State, a: seq<Rule>, b: seq<Rule>, c: seq<Rule>, d: seq<Rule>)
    requires forall x :: x in s.chains ==> !OwnChain(x)
    requires (forall r :: r in a ==> !r.jump.Call?) && (forall r :: r in b ==> !r.jump.Call?)
    requires (forall r :: r in c ==> !r.jump.Call?) && (forall r :: r in d ==> !r.jump.Call?)
    ensures var cmds := ChainPart(Chain(Mangle, VlessTproxy), a) + ChainPart(Chain(Mangle, VlessOutput), b)
                      + ChainPart(Chain(Mangle, VlessIn), c) + ChainPart(Chain(Filter, VlessIn), d);
      AllAccepted(s, cmds) && Apply(s, cmds) == s.(chains := s.chains[Chain(Mangle, VlessTproxy) := a][Chain(Mangle, VlessOutput) := b]
                                                               [Chain(Mangle, VlessIn) := c][Chain(Filter, VlessIn) := d])
  {
    hide Apply, AllAccepted, ChainPart;
    var ca, cb, cc, cd := Chain(Mangle, VlessTproxy), Chain(Mangle, VlessOutput), Chain(Mangle, VlessIn), Chain(Filter, VlessIn);
    assert OwnChain(ca) && OwnChain(cb) && OwnChain(cc) && OwnChain(cd);
    var pa, pb, pc, pd := ChainPart(ca, a), ChainPart(cb, b), ChainPart(cc, c), ChainPart(cd, d);
    ChainMade(s, ca, a);
    var s1 := Apply(s, pa);
    ChainMade(s1, cb, b);
    var s2 := Apply(s1, pb);
    ChainMade(s2, cc, c);
    var s3 := Apply(s2, pc);
    ChainMade(s3, cd, d);
    AcceptedJoin(s, pa, pb);
    ApplyJoin(s, pa, pb);
    AcceptedJoin(s, pa + pb, pc);
    ApplyJoin(s, pa + pb, pc);
    AcceptedJoin(s, pa + pb + pc, pd);
    ApplyJoin(s, pa + pb + pc, pd);
  }

  /** On clean tables with the built-in chains no command of the plan is refused,
      and afterwards the hooks stand in front of everything else: LAN before
      loopback, and the foreign rules behind them in their old order. */
  lemma PlanGoesThrough(base: State, lan: Iface, dns: seq<string>, endpoints: seq<string>, locals: seq<string>)
    requires Clean(base) && IsLan(lan)
    requires INPUT in base.chains && MANGLE_INPUT in base.chains && MANGLE_PREROUTING in base.chains && MANGLE_OUTPUT in base.chains
    ensures var plan, mid := Plan(lan, dns, endpoints, locals), WithChains(base, lan, dns, endpoints, locals);
      && AllAccepted(base, plan) && Hooked(Apply(base, plan), mid, lan)
      && Apply(base, plan).policy == mid.policy && Apply(base, plan).routes == mid.routes
  {
    hide Apply, AllAccepted, ChainPart, CaptureRules, MangleInputRules, FilterInputRules, InsertPolicy, Hooks, PolicyPart, Hooked;
    var a, b := CaptureRules(Tproxy(REDIRECT_PORT), dns, endpoints, locals), CaptureRules(SetMark(Mark1), dns, endpoints, locals);
    var c, d := MangleInputRules(lan), FilterInputRules(lan);
    InputRulesPlain(lan);
    PolicyDone(base);
    var s1 := Apply(base, PolicyPart());
    ChainsDone(s1, a, b, c, d);
    var work := ChainPart(Chain(Mangle, VlessTproxy), a) + ChainPart(Chain(Mangle, VlessOutput), b)
                + ChainPart(Chain(Mangle, VlessIn), c) + ChainPart(Chain(Filter, VlessIn), d);
    var s2 := Apply(s1, work);
    assert s2 == WithChains(base, lan, dns, endpoints, locals);
    HooksDone(s2, lan);
    AcceptedJoin(base, PolicyPart(), work);
    ApplyJoin(base, PolicyPart(), work);
    AcceptedJoin(base, PolicyPart() + work, Hooks(lan));
    ApplyJoin(base, PolicyPart() + work, Hooks(lan));
    assert Plan(lan, dns, endpoints, locals) == PolicyPart() + work + Hooks(lan);
  }

  // ----- the commands at work -----

  class Kernel {
    var chains: map<Chain, seq<Rule>>
    var policy: seq<Policy>
    var routes: set<Route>

    function Now(): State
      reads this
    {
      State(chains, policy, routes)
    }

    constructor (s: State)
      ensures Now() == s
    {
      chains, policy, routes := s.chains, s.policy, s.routes;
    }

    /** One command line. */
    method Command(cmd: Command) returns (ok: bool)
      modifies this
      ensures Now() == Try(old(Now()), cmd) && ok == Accepts(old(Now()), cmd)
    {
      ok := Accepts(Now(), cmd);
      if ok {
        var t := Exec(Now(), cmd);
        chains, policy, routes := t.chains, t.policy, t.routes;
      }
    }

    /** The "remove" loop of disableGlobalRoute. */
    method Remove(cmd: Command)
      modifies this
      ensures Now() == Repeat(old(Now()), cmd, 5)
    {
      hide Accepts, Exec;
      for i := 0 to 5
        invariant Repeat(old(Now()), cmd, 5) == Repeat(Now(), cmd, 5 - i)
      {
        var ok := Command(cmd);
        if !ok {
          break;
        }
      }
    }

    method RunSteps(steps: seq<Step>)
      modifies this
      ensures Now() == Steps(old(Now()), steps)
    {
      hide Repeat, Try;
      for i := 0 to |steps|
        invariant Steps(old(Now()), steps) == Steps(Now(), steps[i..])
      {
        assert steps[i..][1..] == steps[i + 1..];
        match steps[i] {
          case Once(cmd) => var _ := Command(cmd);
          case Loop(cmd) => Remove(cmd);
        }
      }
    }

    /** disableGlobalRoute. */
    method Disable()
      modifies this
      ensures Now() == Cleanup(old(Now()))
    {
      hide Steps, Loops, Drops, LiveHooks, OldHooks, TunHooks, LiveChains, OldChains, LastChains, PolicySteps;
      RunSteps(Loops(LiveHooks()));
      RunSteps(Drops(LiveChains()));
      RunSteps(PolicySteps());
      RunSteps(Loops(OldHooks()));
      RunSteps(Drops(OldChains()));
      RunSteps(Loops(TunHooks()));
      RunSteps(Drops(LastChains()));
    }

    /** installGlobalRoute; "healthy" says which commands the system lets through at
        all. A failure is followed by the cleanup, which puts clean tables back. */
    method Install(plan: seq<Command>, healthy: seq<bool>) returns (ok: bool, ghost done: nat)
      requires |healthy| == |plan|
      modifies this
      ensures ok ==> Now() == Apply(old(Now()), plan) && AllAccepted(old(Now()), plan)
      ensures !ok ==> done < |plan| && Now() == Cleanup(Apply(old(Now()), plan[..done]))
      ensures !ok && Clean(old(Now())) && Removable(plan) ==> Now() == old(Now())
    {
      hide Clean, Removable, Cleanup, Accepts, Try;
      ghost var base := Now();
      done := 0;
      for i := 0 to |plan|
        invariant Now() == Apply(base, plan[..i])
        invariant forall j :: 0 <= j < i ==> Accepts(Apply(base, plan[..j]), plan[j])
      {
        assert plan[..i + 1][..i] == plan[..i];
        ok := false;
        if healthy[i] {
          ok := Command(plan[i]);
        }
        if !ok {
          Refused(Apply(base, plan[..i]), plan[i]);
          if Clean(base) && Removable(plan) {
            PrefixRollsBack(base, plan, i);
          }
          Disable();
          done := i;
          return;
        }
      }
      assert plan[..|plan|] == plan;
      ok := true;
    }

    /** EnableGlobalRoute with its addresses resolved: from leftovers of an earlier
        run that the cleanup can handle, a failure leaves exactly the foreign part. */
    method Enable(lan: Iface, dns: seq<string>, endpoints: seq<string>, locals: seq<string>, healthy: seq<bool>) returns (ok: bool)
      requires IsLan(lan) && |healthy| == |Plan(lan, dns, endpoints, locals)|
      modifies this
      ensures ok ==> Now() == Apply(Cleanup(old(Now())), Plan(lan, dns, endpoints, locals))
      ensures Tame(old(Now())) ==> Cleanup(old(Now())) == Strip(old(Now())) && (!ok ==> Now() == Strip(old(Now())))
    {
      hide Tame, Clean, Strip, Removable, Plan, Cleanup, Apply, AllAccepted;
      ghost var before := Now();
      if Tame(before) {
        TameStrips(before);
        StrippedIsClean(before);
      }
      Disable();
      PlanIsRemovable(lan, dns, endpoints, locals);
      var plan := Plan(lan, dns, endpoints, locals);
      ghost var done;
      ok, done := Install(plan, healthy);
    }
  }

  lemma Refused(s: State, cmd: Command)
    ensures !Accepts(s, cmd) ==> Try(s, cmd) == s
  {
  }

  lemma {:induction false} OnlyForeigners(c: Chain, rs: seq<Rule>)
    ensures forall r :: r in Foreigners(c, rs) ==> !OwnRule(c, r)
    decreases |rs|
  {
    hide OwnRule;
    if rs != [] {
      OnlyForeigners(c, rs[1..]);
    }
  }

  lemma {:induction false} OnlyForeignPolicy(ps: seq<Policy>)
    ensures forall p :: p in ForeignPolicy(ps) ==> !OwnPolicy(p)
    decreases |ps|
  {
    hide OwnPolicy;
    if ps != [] {
      OnlyForeignPolicy(ps[1..]);
    }
  }

  lemma StrippedIsClean(s: State)
    ensures Clean(Strip(s))
  {
    hide OwnRule, OwnChain, OwnPolicy, Foreigners, ForeignPolicy;
    OnlyForeignPolicy(s.policy);
    forall c | c in s.chains
      ensures forall r :: r in Foreigners(c, s.chains[c]) ==> !OwnRule(c, r)
    {
      OnlyForeigners(c, s.chains[c]);
    }
  }
}

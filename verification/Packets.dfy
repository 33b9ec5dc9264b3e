/** What the installed chains do with a packet: which traffic is captured, which
    passes, and that the listener cannot be reached from outside. */
module Packets {
  import opened Options
  import opened Routing

  /** A packet, with the networks (in the notation of the rules) it is sent to. */
  datatype Packet = Packet(from: Iface, mark: FwMark, protocol: Option<Protocol>, port: nat, nets: set<string>)

  /** The matches the manager's chains use; nothing is said about others. */
  predicate Matched(m: Match, p: Packet) {
    match m
    case All => true
    case Marked(k) => p.mark == k
    case FromMarked(i, k) => p.from == i && p.mark == k
    case Dest(net) => net in p.nets
    case DestPort(net, q, port) => net in p.nets && p.protocol == Some(q) && p.port == port
    case Proto(q) => p.protocol == Some(q)
    case ProtoPort(q, port) => p.protocol == Some(q) && p.port == port
    case _ => false
  }

  /** The first rule that matches decides; a chain that ends returns. */
  function Verdict(rs: seq<Rule>, p: Packet): Jump
    decreases |rs|
  {
    if rs == [] then Return else if Matched(rs[0].match', p) then rs[0].jump else Verdict(rs[1..], p)
  }

  lemma {:induction false} VerdictJoin(a: seq<Rule>, b: seq<Rule>, p: Packet)
    ensures Verdict(a + b, p) == if exists i :: 0 <= i < |a| && Matched(a[i].match', p) then Verdict(a, p) else Verdict(b, p)
    decreases |a|
  {
    hide Matched;
    if a == [] {
      assert a + b == b;
    } else {
      assert (a + b)[0] == a[0] && (a + b)[1..] == a[1..] + b;
      VerdictJoin(a[1..], b, p);
      if i :| 0 <= i < |a| && Matched(a[i].match', p) && i > 0 {
        assert a[1..][i - 1] == a[i];
      }
      if i :| 0 <= i < |a[1..]| && Matched(a[1..][i].match', p) {
        assert a[i + 1] == a[1..][i];
      }
    }
  }

  /** Every rule of the list returns. */
  lemma {:induction false} AllReturn(rs: seq<Rule>, p: Packet)
    requires forall i :: 0 <= i < |rs| ==> rs[i].jump == Return
    ensures Verdict(rs, p) == Return
    decreases |rs|
  {
    if rs != [] {
      AllReturn(rs[1..], p);
    }
  }

  ghost predicate SentTo(p: Packet, nets: seq<string>) {
    exists i :: 0 <= i < |nets| && nets[i] in p.nets
  }

  ghost predicate AsksDns(p: Packet, servers: seq<string>) {
    && p.port == 53 && (p.protocol == Some(Tcp) || p.protocol == Some(Udp))
    && exists i :: 0 <= i < |servers| && servers[i] + "/32" in p.nets
  }

  ghost predicate AnyMatch(rs: seq<Rule>, p: Packet) {
    exists i :: 0 <= i < |rs| && Matched(rs[i].match', p)
  }

  lemma ReturnsMatch(nets: seq<string>, p: Packet)
    ensures AnyMatch(Returns(nets), p) <==> SentTo(p, nets)
  {
    var rs := Returns(nets);
    if SentTo(p, nets) {
      var i :| 0 <= i < |nets| && nets[i] in p.nets;
      assert Matched(rs[i].match', p);
    }
    if AnyMatch(rs, p) {
      var i :| 0 <= i < |rs| && Matched(rs[i].match', p);
      assert nets[i] in p.nets;
    }
  }

  lemma {:induction false} DnsMatch(servers: seq<string>, p: Packet)
    ensures AnyMatch(DnsReturns(servers), p) <==> AsksDns(p, servers)
    ensures forall i :: 0 <= i < |DnsReturns(servers)| ==> DnsReturns(servers)[i].jump == Return
    decreases |servers|
  {
    hide Matched, AnyMatch, AsksDns;
    if servers == [] {
      NoDns(p);
    } else {
      var host := servers[0] + "/32";
      var pair := [Rule(DestPort(host, Tcp, 53), Return), Rule(DestPort(host, Udp, 53), Return)];
      DnsMatch(servers[1..], p);
      MatchJoin(pair, DnsReturns(servers[1..]), p);
      PairMatch(host, pair, p);
      AsksSplit(p, servers);
    }
  }

  lemma NoDns(p: Packet)
    ensures !AnyMatch([], p) && !AsksDns(p, [])
  {
  }

  ghost predicate AsksOne(p: Packet, host: string) {
    p.port == 53 && (p.protocol == Some(Tcp) || p.protocol == Some(Udp)) && host in p.nets
  }

  lemma PairMatch(host: string, pair: seq<Rule>, p: Packet)
    requires pair == [Rule(DestPort(host, Tcp, 53), Return), Rule(DestPort(host, Udp, 53), Return)]
    ensures AnyMatch(pair, p) <==> AsksOne(p, host)
  {
    assert pair[0].match' == DestPort(host, Tcp, 53) && pair[1].match' == DestPort(host, Udp, 53);
    assert AnyMatch(pair, p) <==> Matched(pair[0].match', p) || Matched(pair[1].match', p);
  }

  lemma AsksSplit(p: Packet, servers: seq<string>)
    requires servers != []
    ensures AsksDns(p, servers) <==> AsksOne(p, servers[0] + "/32") || AsksDns(p, servers[1..])
  {
    var rest := servers[1..];
    if i :| 0 <= i < |servers| && servers[i] + "/32" in p.nets && i > 0 {
      assert rest[i - 1] == servers[i];
    }
    if i :| 0 <= i < |rest| && rest[i] + "/32" in p.nets {
      assert servers[i + 1] == rest[i];
    }
  }

  /** The tunnel's own packets, local networks, the tunnel's endpoints, the
      router's own addresses and its name servers are left alone; every other TCP
      or UDP packet is captured; nothing else is. */
  lemma Captured(last: Jump, dns: seq<string>, endpoints: seq<string>, locals: seq<string>, p: Packet)
    requires !last.Call?
    ensures Verdict(CaptureRules(last, dns, endpoints, locals), p)
         == if p.mark == Mark9911 || SentTo(p, PRIVATE_CIDRS) || SentTo(p, Hosts(endpoints + locals)) || AsksDns(p, dns) || p.protocol.None?
            then Return else last
  {
    hide SentTo, AsksDns, Returns, DnsReturns, Hosts, PRIVATE_CIDRS;
    var hosts := Hosts(endpoints + locals);
    var mark, priv, host, names := [Rule(Marked(Mark9911), Return)], Returns(PRIVATE_CIDRS), Returns(hosts), DnsReturns(dns);
    var end := [Rule(Proto(Tcp), last), Rule(Proto(Udp), last)];
    ReturnsMatch(PRIVATE_CIDRS, p);
    ReturnsMatch(hosts, p);
    DnsMatch(dns, p);
    ReturnsReturn(PRIVATE_CIDRS);
    ReturnsReturn(hosts);
    AllReturn(mark, p);
    AllReturn(priv, p);
    AllReturn(host, p);
    AllReturn(names, p);
    VerdictJoin(mark, priv, p);
    VerdictJoin(mark + priv, host, p);
    VerdictJoin(mark + priv + host, names, p);
    VerdictJoin(mark + priv + host + names, end, p);
    MatchJoin(mark, priv, p);
    MatchJoin(mark + priv, host, p);
    MatchJoin(mark + priv + host, names, p);
    EndVerdict(last, end, p);
    assert AnyMatch(mark, p) <==> p.mark == Mark9911 by { assert mark[0] == Rule(Marked(Mark9911), Return); }
  }

  lemma ReturnsReturn(nets: seq<string>)
    ensures forall i :: 0 <= i < |Returns(nets)| ==> Returns(nets)[i].jump == Return
  {
  }

  lemma MatchJoin(a: seq<Rule>, b: seq<Rule>, p: Packet)
    ensures AnyMatch(a + b, p) <==> AnyMatch(a, p) || AnyMatch(b, p)
  {
    hide Matched;
    var ab := a + b;
    if AnyMatch(a, p) {
      var i :| 0 <= i < |a| && Matched(a[i].match', p);
      assert ab[i] == a[i];
    }
    if AnyMatch(b, p) {
      var i :| 0 <= i < |b| && Matched(b[i].match', p);
      assert ab[|a| + i] == b[i];
    }
    if AnyMatch(ab, p) {
      var i :| 0 <= i < |ab| && Matched(ab[i].match', p);
      assert if i < |a| then ab[i] == a[i] else ab[i] == b[i - |a|];
    }
  }

  lemma TcpOrUdp(p: Packet)
    ensures p.protocol.Some? <==> p.protocol == Some(Tcp) || p.protocol == Some(Udp)
  {
    if p.protocol.Some? {
      assert p.protocol.value == Tcp || p.protocol.value == Udp;
    }
  }

  lemma EndVerdict(last: Jump, end: seq<Rule>, p: Packet)
    requires end == [Rule(Proto(Tcp), last), Rule(Proto(Udp), last)]
    ensures Verdict(end, p) == if p.protocol.Some? then last else Return
  {
    TcpOrUdp(p);
    var tail := [end[1]];
    assert end[1..] == tail && tail[1..] == [];
    assert Verdict(tail, p) == if p.protocol == Some(Udp) then last else Return;
  }

  /** Packets captured on the LAN or loopback pass the router's own inspection;
      all others go on to it. */
  lemma CapturedPass(lan: Iface, p: Packet)
    ensures Verdict(MangleInputRules(lan), p) == if (p.from == lan || p.from == Lo) && p.mark == Mark1 then Accept else Return
  {
    var rs := MangleInputRules(lan);
    assert rs[1..][1..] == rs[2..];
    assert Verdict(rs[2..], p) == Return;
    assert Verdict(rs[1..], p) == if p.from == Lo && p.mark == Mark1 then Accept else Return;
  }

  /** The listener takes only packets that were captured on the LAN or loopback;
      any other TCP or UDP packet to its port is dropped, and the rest is none of
      the chain's business. */
  lemma ListenerProtected(lan: Iface, p: Packet)
    ensures Verdict(FilterInputRules(lan), p)
         == if (p.from == lan || p.from == Lo) && p.mark == Mark1 then Accept
            else if p.protocol.Some? && p.port == REDIRECT_PORT then Drop
            else Return
  {
    TcpOrUdp(p);
    var rs := FilterInputRules(lan);
    assert rs[1..][1..] == rs[2..] && rs[2..][1..] == rs[3..] && rs[3..][1..] == rs[4..];
    assert Verdict(rs[4..], p) == Return;
    assert Verdict(rs[3..], p) == if p.protocol == Some(Udp) && p.port == REDIRECT_PORT then Drop else Return;
    assert Verdict(rs[2..], p) == if p.protocol.Some? && p.port == REDIRECT_PORT then Drop else Return;
    assert Verdict(rs[1..], p) == if p.from == Lo && p.mark == Mark1 then Accept else Verdict(rs[2..], p);
  }
}

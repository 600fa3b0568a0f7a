/**
 The routing state of a BASP broker: the table of direct and indirect routes, the blacklist, and
 the contexts of open connections, under every sequence of frames, lost connections and lookups.
 */
module BaspRouting {
  import opened NodeIds
  import opened BaspFrames

  type Handle = nat

  // ----- the routing table as a value -----

  datatype Table = Table(
    byHdl: map<Handle, NodeId>,
    byNid: map<NodeId, Handle>,
    indirect: map<NodeId, set<NodeId>>,
    blacklist: map<NodeId, set<NodeId>>)

  function Hops(m: map<NodeId, set<NodeId>>, dest: NodeId): set<NodeId> {
    if dest in m then m[dest] else {}
  }

  function NodeOf(t: Table, hdl: Handle): NodeId {
    if hdl in t.byHdl then t.byHdl[hdl] else InvalidNode
  }

  // The assertions of add_direct are its precondition.
  function WithDirect(t: Table, hdl: Handle, nid: NodeId): Table
    requires hdl !in t.byHdl && nid !in t.byNid
  {
    t.(byHdl := t.byHdl[hdl := nid], byNid := t.byNid[nid := hdl])
  }

  function WithoutIndirect(t: Table, dest: NodeId): Table {
    t.(indirect := t.indirect - {dest})
  }

  function WithIndirect(t: Table, hop: NodeId, dest: NodeId): Table {
    if hop in Hops(t.blacklist, dest) then t
    else t.(indirect := t.indirect[dest := Hops(t.indirect, dest) + {hop}])
  }

  function Blacklisted(t: Table, hop: NodeId, dest: NodeId): Table {
    t.(blacklist := t.blacklist[dest := Hops(t.blacklist, dest) + {hop}],
       indirect := if Hops(t.indirect, dest) <= {hop} then t.indirect - {dest}
                   else t.indirect[dest := Hops(t.indirect, dest) - {hop}])
  }

  function WithoutDirect(t: Table, hdl: Handle): Table {
    if hdl in t.byHdl then t.(byNid := t.byNid - {t.byHdl[hdl]}, byHdl := t.byHdl - {hdl}) else t
  }

  function Without(t: Table, dest: NodeId): Table {
    if dest in t.byNid then
      t.(indirect := t.indirect - {dest}, byHdl := t.byHdl - {t.byNid[dest]}, byNid := t.byNid - {dest})
    else
      t.(indirect := t.indirect - {dest})
  }

  predicate Reachable(t: Table, dest: NodeId) {
    dest in t.byNid || dest in t.indirect
  }

  datatype Route = Route(nextHop: NodeId, hdl: Handle)

  // What a lookup may do: the direct route, or some live hop after dropping dead ones.
  ghost predicate LookedUp(t: Table, target: NodeId, t': Table, route: Option<Route>) {
    if target in t.byNid then t' == t && route == Some(Route(target, t.byNid[target]))
    else if target !in t.indirect then t' == t && route.None?
    else
      && target in t'.indirect
      && t' == t.(indirect := t.indirect[target := t'.indirect[target]])
      && t'.indirect[target] <= t.indirect[target]
      && (forall h :: h in t.indirect[target] && h !in t'.indirect[target] ==> h !in t.byNid)
      && match route
         case None => t'.indirect[target] == {}
         case Some(r) => r.nextHop in t'.indirect[target] && r.nextHop in t.byNid && r.hdl == t.byNid[r.nextHop]
  }

  // ----- what every operation keeps -----

  ghost predicate Inverse(t: Table) {
    && (forall h :: h in t.byHdl ==> t.byHdl[h] in t.byNid && t.byNid[t.byHdl[h]] == h)
    && (forall n :: n in t.byNid ==> t.byNid[n] in t.byHdl && t.byHdl[t.byNid[n]] == n)
  }

  ghost predicate Disjoint(t: Table) {
    t.byNid.Keys !! t.indirect.Keys
  }

  ghost predicate NoBlacklistedHop(t: Table) {
    forall dest, hop :: dest in t.indirect && hop in t.indirect[dest] ==> hop !in Hops(t.blacklist, dest)
  }

  ghost predicate Inv(t: Table) {
    Inverse(t) && Disjoint(t) && NoBlacklistedHop(t) && InvalidNode !in t.byNid
  }

  // A lookup finds a route exactly when there is a direct one or a live hop, and the route it
  // returns is a direct connection.
  lemma LookupFindsLiveHops(t: Table, target: NodeId, t': Table, route: Option<Route>)
    requires Inv(t) && LookedUp(t, target, t', route)
    ensures Inv(t')
    ensures route.Some? <==> target in t.byNid || exists h :: h in Hops(t.indirect, target) && h in t.byNid
    ensures route.Some? ==> route.value.hdl in t.byHdl && t.byHdl[route.value.hdl] == route.value.nextHop
    ensures forall h :: h in Hops(t.indirect, target) && h in t.byNid ==> h in Hops(t'.indirect, target)
  {
    assert forall h :: h in Hops(t.indirect, target) && h in t.byNid ==> h in Hops(t'.indirect, target);
  }

  // Learning routes while a message is decoded: direct routes and blacklist stay, new
  // destinations are not directly connected, new hops are not blacklisted, lost hops are dead.
  ghost predicate Learned(t: Table, t': Table) {
    && t'.byHdl == t.byHdl && t'.byNid == t.byNid && t'.blacklist == t.blacklist
    && t.indirect.Keys <= t'.indirect.Keys
    && (forall d :: d in t'.indirect && d !in t.indirect ==> d !in t.byNid)
    && (forall d, h :: d in t'.indirect && h in t'.indirect[d] ==>
          h in Hops(t.indirect, d) || h !in Hops(t.blacklist, d))
    && (forall d, h :: d in t.indirect && h in t.indirect[d] && h !in t'.indirect[d] ==> h !in t.byNid)
  }

  lemma LearnedKeepsInv(t: Table, t': Table)
    requires Inv(t) && Learned(t, t')
    ensures Inv(t')
  {
    forall dest, hop | dest in t'.indirect && hop in t'.indirect[dest] ensures hop !in Hops(t'.blacklist, dest) {
      if hop in Hops(t.indirect, dest) {
        assert dest in t.indirect;
      }
    }
  }

  // ----- the broker as a value -----

  type Proxy = (NodeId, U32)

  // `ctx` maps the handle of an open connection to the node its server handshake named,
  // `proxies` holds the remote actors with an entry in the namespace, `known` the nodes with
  // a remembered remote actor, and `purges` counts the calls of purge_state.
  datatype Broker = Broker(
    tbl: Table,
    ctx: map<Handle, NodeId>,
    proxies: set<Proxy>,
    known: set<NodeId>,
    purges: multiset<NodeId>)

  function WithContext(b: Broker, hdl: Handle): Broker {
    if hdl in b.ctx then b else b.(ctx := b.ctx[hdl := InvalidNode])
  }

  function WithoutNodes(proxies: set<Proxy>, nodes: set<NodeId>): set<Proxy> {
    set p | p in proxies && p.0 !in nodes
  }

  // purge_state for each of a set of nodes; it has an effect on directly connected ones only.
  function Purge(b: Broker, nodes: set<NodeId>): Broker {
    b.(proxies := WithoutNodes(b.proxies, nodes * b.tbl.byNid.Keys),
       known := b.known - (nodes * b.tbl.byNid.Keys),
       ctx := b.ctx - (set n | n in nodes && n in b.tbl.byNid :: b.tbl.byNid[n]),
       purges := b.purges + multiset(nodes))
  }

  function NodeShutdown(b: Broker, nid: NodeId): Broker {
    if nid.InvalidNode? then b
    else Purge(Purge(b, {nid}), Hops(b.tbl.indirect, nid)).(tbl := Without(b.tbl, nid))
  }

  // An error while handling data: forget the connection and close it.
  function Fail(b: Broker, hdl: Handle): Broker {
    if hdl in b.tbl.byHdl then
      Purge(b, {b.tbl.byHdl[hdl]}).(tbl := WithoutDirect(b.tbl, hdl),
                                    ctx := Purge(b, {b.tbl.byHdl[hdl]}).ctx - {hdl})
    else
      b.(ctx := b.ctx - {hdl})
  }

  function DropProxies(b: Broker, nid: NodeId): Broker {
    b.(proxies := WithoutNodes(b.proxies, {nid}))
  }

  function ConnectionClosed(b: Broker, hdl: Handle): Broker {
    if hdl !in b.ctx then b
    else if NodeOf(b.tbl, hdl).InvalidNode? then b.(ctx := b.ctx - {hdl})
    else DropProxies(NodeShutdown(b.(ctx := b.ctx - {hdl}), NodeOf(b.tbl, hdl)), NodeOf(b.tbl, hdl))
  }

  // Bind a connection to the node at its other end.
  function Bind(b: Broker, hdl: Handle, nid: NodeId): Broker
    requires hdl !in b.tbl.byHdl && nid !in b.tbl.byNid
  {
    b.(tbl := WithoutIndirect(WithDirect(b.tbl, hdl, nid), nid))
  }

  predicate IsHandshake(h: Header) {
    h.operation == SERVER_HANDSHAKE || h.operation == CLIENT_HANDSHAKE
  }

  // Does this handshake, accepted over some connection, bind that connection to its node?
  predicate Binds(me: NodeId, b: Broker, h: Header) {
    && IsHandshake(h) && h.sourceNode !in b.tbl.byNid
    && (h.operation == SERVER_HANDSHAKE ==> h.sourceNode != me)
  }

  // Finishing a server handshake may add proxies and remembered remote actors, nothing else.
  ghost predicate Finalized(b: Broker, b': Broker) {
    && b.proxies <= b'.proxies && b.known <= b'.known
    && b' == b.(proxies := b'.proxies, known := b'.known)
  }

  // Does a message from `source` over `hdl` reveal a route to a third node?
  predicate RevealsRoute(me: NodeId, t: Table, hdl: Handle, source: NodeId) {
    && source.Node? && source != me && source !in t.byNid
    && hdl in t.byHdl && t.byHdl[hdl] !in Hops(t.blacklist, source)
  }

  // One complete frame: what instance::handle does to the broker, and whether it closes.
  ghost predicate Handled(me: NodeId, b: Broker, hdl: Handle, h: Header, payloadOk: bool, b': Broker, close: bool)
    requires hdl in b.ctx
  {
    if !ValidHeader(h) then close && b' == Fail(b, hdl)
    else if !IsHandshake(h) && h.destNode != me then
      !close && Learned(b.tbl, b'.tbl) && b' == b.(tbl := b'.tbl)
    else if h.operation == SERVER_HANDSHAKE then
      if h.sourceNode == me || h.sourceNode in b.tbl.byNid then
        close && exists c :: Finalized(b.(ctx := b.ctx[hdl := h.sourceNode]), c) && b' == Fail(c, hdl)
      else
        && !close && hdl !in b.tbl.byHdl
        && Finalized(Bind(b.(ctx := b.ctx[hdl := h.sourceNode]), hdl, h.sourceNode), b')
    else if h.operation == CLIENT_HANDSHAKE then
      if h.sourceNode in b.tbl.byNid then !close && b' == b
      else !close && hdl !in b.tbl.byHdl && b' == Bind(b, hdl, h.sourceNode)
    else if h.operation == DISPATCH_MESSAGE then
      if !payloadOk then close && b' == Fail(b, hdl)
      else
        && !close && Learned(b.tbl, b'.tbl)
        && (RevealsRoute(me, b.tbl, hdl, h.sourceNode) ==> b.tbl.byHdl[hdl] in Hops(b'.tbl.indirect, h.sourceNode))
        && b.proxies <= b'.proxies && b' == b.(tbl := b'.tbl, proxies := b'.proxies)
    else if h.operation == ANNOUNCE_PROXY_INSTANCE then
      !close && Learned(b.tbl, b'.tbl) && b' == b.(tbl := b'.tbl)
    else
      !close && b' == b.(proxies := b.proxies - {(h.sourceNode, h.sourceActor)})
  }

  // ----- runs -----

  datatype Event =
    | Connect(hdl: Handle)
    | Data(hdl: Handle, hdr: Header, payloadOk: bool)
    | Closed(hdl: Handle)
    | BlacklistRoute(hop: NodeId, dest: NodeId)
    | Lookup(target: NodeId)

  ghost predicate Step(me: NodeId, b: Broker, e: Event, b': Broker) {
    match e
    case Connect(hdl) => b' == WithContext(b, hdl)
    case Data(hdl, hdr, payloadOk) => exists close :: Handled(me, WithContext(b, hdl), hdl, hdr, payloadOk, b', close)
    case Closed(hdl) => b' == ConnectionClosed(b, hdl)
    case BlacklistRoute(hop, dest) => b' == b.(tbl := Blacklisted(b.tbl, hop, dest))
    case Lookup(target) => exists route :: LookedUp(b.tbl, target, b'.tbl, route) && b' == b.(tbl := b'.tbl)
  }

  ghost predicate IsRun(me: NodeId, run: seq<Broker>, events: seq<Event>) {
    && |run| == |events| + 1
    && run[0] == Broker(Table(map[], map[], map[], map[]), map[], {}, {}, multiset{})
    && forall i :: 0 <= i < |events| ==> Step(me, run[i], events[i], run[i + 1])
  }

  // Every bound connection has a context.
  ghost predicate BrokerInv(b: Broker) {
    Inv(b.tbl) && b.tbl.byHdl.Keys <= b.ctx.Keys
  }

  lemma BindKeepsInv(b: Broker, hdl: Handle, nid: NodeId)
    requires BrokerInv(b) && hdl in b.ctx && hdl !in b.tbl.byHdl && nid !in b.tbl.byNid && !nid.InvalidNode?
    ensures BrokerInv(Bind(b, hdl, nid))
  {
  }

  lemma FailKeepsInv(b: Broker, hdl: Handle)
    requires BrokerInv(b)
    ensures BrokerInv(Fail(b, hdl))
  {
  }

  lemma BlacklistKeepsInv(t: Table, hop: NodeId, dest: NodeId)
    requires Inv(t)
    ensures Inv(Blacklisted(t, hop, dest))
  {
  }

  // A lost connection: its node becomes unreachable, purge_state is called for this node and
  // no other, and every other node keeps its direct connection and its context.
  lemma ClosedForgetsNode(b: Broker, hdl: Handle)
    requires BrokerInv(b) && hdl in b.tbl.byHdl
    ensures var (n, b') := (b.tbl.byHdl[hdl], ConnectionClosed(b, hdl));
            && !Reachable(b'.tbl, n)
            && b'.tbl.byNid == b.tbl.byNid - {n} && b'.tbl.byHdl == b.tbl.byHdl - {hdl}
            && b'.tbl.indirect == b.tbl.indirect && b'.tbl.blacklist == b.tbl.blacklist
            && b'.ctx == b.ctx - {hdl}
            && b'.purges == b.purges + multiset{n}
            && b'.proxies == WithoutNodes(b.proxies, {n}) && b'.known == b.known - {n}
  {
    var n := b.tbl.byHdl[hdl];
    assert n in b.tbl.byNid && n !in b.tbl.indirect;
    var c := Purge(b.(ctx := b.ctx - {hdl}), {n});
    assert c.ctx == b.ctx - {hdl};
    assert Purge(c, {}) == c;
    assert {n} * b.tbl.byNid.Keys == {n};
    assert b.tbl.indirect - {n} == b.tbl.indirect;
  }

  lemma ClosedKeepsInv(b: Broker, hdl: Handle)
    requires BrokerInv(b)
    ensures BrokerInv(ConnectionClosed(b, hdl))
  {
    if hdl in b.tbl.byHdl {
      ClosedForgetsNode(b, hdl);
    }
  }

  lemma HandledKeepsInv(me: NodeId, b: Broker, hdl: Handle, h: Header, payloadOk: bool, b': Broker, close: bool)
    requires BrokerInv(b) && hdl in b.ctx && Handled(me, b, hdl, h, payloadOk, b', close)
    ensures BrokerInv(b')
  {
    FailKeepsInv(b, hdl);
    if ValidHeader(h) && IsHandshake(h) {
      var named := b.(ctx := b.ctx[hdl := h.sourceNode]);
      if h.operation == SERVER_HANDSHAKE && (h.sourceNode == me || h.sourceNode in b.tbl.byNid) {
        var c :| Finalized(named, c) && b' == Fail(c, hdl);
        FailKeepsInv(c, hdl);
      } else if h.sourceNode !in b.tbl.byNid {
        BindKeepsInv(if h.operation == SERVER_HANDSHAKE then named else b, hdl, h.sourceNode);
      }
    } else if Learned(b.tbl, b'.tbl) {
      LearnedKeepsInv(b.tbl, b'.tbl);
    }
  }

  lemma StepInv(me: NodeId, b: Broker, e: Event, b': Broker)
    requires BrokerInv(b) && Step(me, b, e, b')
    ensures BrokerInv(b')
  {
    match e
    case Connect(hdl) =>
    case Data(hdl, hdr, payloadOk) =>
      var close :| Handled(me, WithContext(b, hdl), hdl, hdr, payloadOk, b', close);
      HandledKeepsInv(me, WithContext(b, hdl), hdl, hdr, payloadOk, b', close);
    case Closed(hdl) => ClosedKeepsInv(b, hdl);
    case BlacklistRoute(hop, dest) => BlacklistKeepsInv(b.tbl, hop, dest);
    case Lookup(target) =>
      var route :| LookedUp(b.tbl, target, b'.tbl, route);
      LookupFindsLiveHops(b.tbl, target, b'.tbl, route);
  }

  // In every run the two direct maps are mutual inverses, no node is both a direct and an
  // indirect destination, no blacklisted hop is stored, and every bound connection has a context.
  lemma {:induction false} RunInv(me: NodeId, run: seq<Broker>, events: seq<Event>, i: nat)
    requires IsRun(me, run, events) && i < |run|
    ensures BrokerInv(run[i])
  {
    if i > 0 {
      RunInv(me, run, events, i - 1);
      StepInv(me, run[i - 1], events[i - 1], run[i]);
    }
  }

  ghost predicate NoRoute(t: Table, target: NodeId) {
    forall t', route :: LookedUp(t, target, t', route) ==> route.None?
  }

  // Losing the connection bound to a node, in any run.
  lemma LosingAConnection(me: NodeId, run: seq<Broker>, events: seq<Event>, i: nat, n: NodeId)
    requires IsRun(me, run, events) && i < |events| && events[i].Closed?
    requires events[i].hdl in run[i].tbl.byHdl && n == run[i].tbl.byHdl[events[i].hdl]
    ensures !Reachable(run[i + 1].tbl, n)
    ensures NoRoute(run[i + 1].tbl, n)
    ensures run[i + 1].tbl.byNid == run[i].tbl.byNid - {n} && run[i + 1].tbl.byHdl == run[i].tbl.byHdl - {events[i].hdl}
    ensures run[i + 1].tbl.indirect == run[i].tbl.indirect && run[i + 1].tbl.blacklist == run[i].tbl.blacklist
    ensures run[i + 1].proxies == WithoutNodes(run[i].proxies, {n}) && run[i + 1].known == run[i].known - {n}
    ensures run[i + 1].purges == run[i].purges + multiset{n}
    ensures run[i + 1].ctx == run[i].ctx - {events[i].hdl}
  {
    RunInv(me, run, events, i);
    ClosedForgetsNode(run[i], events[i].hdl);
  }

  // ----- the table and the broker in place -----

  class RoutingTable {
    var byHdl: map<Handle, NodeId>
    var byNid: map<NodeId, Handle>
    var indirect: map<NodeId, set<NodeId>>
    var blacklist: map<NodeId, set<NodeId>>

    ghost function View(): Table
      reads this
    {
      Table(byHdl, byNid, indirect, blacklist)
    }

    constructor ()
      ensures View() == Table(map[], map[], map[], map[])
    {
      byHdl, byNid, indirect, blacklist := map[], map[], map[], map[];
    }

    method AddDirect(hdl: Handle, nid: NodeId)
      requires hdl !in byHdl && nid !in byNid
      modifies this
      ensures View() == WithDirect(old(View()), hdl, nid)
    {
      byHdl := byHdl[hdl := nid];
      byNid := byNid[nid := hdl];
    }

    method EraseIndirect(dest: NodeId) returns (was: bool)
      modifies this
      ensures View() == WithoutIndirect(old(View()), dest) && was == (dest in old(indirect))
    {
      was := dest in indirect;
      indirect := indirect - {dest};
    }

    method AddIndirect(hop: NodeId, dest: NodeId) returns (addedFirst: bool)
      modifies this
      ensures View() == WithIndirect(old(View()), hop, dest)
      ensures addedFirst <==> hop !in Hops(blacklist, dest) && Hops(old(indirect), dest) == {}
    {
      if dest in blacklist && hop in blacklist[dest] {
        return false;
      }
      var hops := if dest in indirect then indirect[dest] else {};
      addedFirst := hops == {};
      indirect := indirect[dest := hops + {hop}];
    }

    method AddBlacklisted(hop: NodeId, dest: NodeId)
      modifies this
      ensures View() == Blacklisted(old(View()), hop, dest)
    {
      blacklist := blacklist[dest := Hops(blacklist, dest) + {hop}];
      if dest in indirect {
        var hops := indirect[dest] - {hop};
        indirect := if hops == {} then indirect - {dest} else indirect[dest := hops];
      } else {
        assert indirect - {dest} == indirect;
      }
    }

    // Hops are tried in an unspecified order; a dead one is removed for good.
    method Lookup(target: NodeId) returns (route: Option<Route>)
      modifies this
      ensures LookedUp(old(View()), target, View(), route)
    {
      if target in byNid {
        return Some(Route(target, byNid[target]));
      }
      if target in indirect {
        while indirect[target] != {}
          invariant byHdl == old(byHdl) && byNid == old(byNid) && blacklist == old(blacklist)
          invariant target in indirect && indirect == old(indirect)[target := indirect[target]]
          invariant indirect[target] <= old(indirect)[target]
          invariant forall h :: h in old(indirect)[target] && h !in indirect[target] ==> h !in byNid
          decreases indirect[target]
        {
          var hop :| hop in indirect[target];
          if hop in byNid {
            return Some(Route(hop, byNid[hop]));
          }
          indirect := indirect[target := indirect[target] - {hop}];
        }
      }
      return None;
    }
  }

  // Two lookups of one target in a row are one lookup.
  lemma LookupTwice(t: Table, target: NodeId, t1: Table, r1: Option<Route>, t2: Table, r2: Option<Route>)
    requires LookedUp(t, target, t1, r1) && LookedUp(t1, target, t2, r2)
    ensures LookedUp(t, target, t2, r2)
  {
    if target !in t.byNid && target in t.indirect {
      assert t1.indirect[target := t2.indirect[target]] == t.indirect[target := t2.indirect[target]];
    }
  }

  lemma LookedUpIsLearned(t: Table, target: NodeId, t': Table, route: Option<Route>)
    requires LookedUp(t, target, t', route)
    ensures Learned(t, t')
  {
  }

  lemma LearnedTwice(t: Table, t1: Table, t2: Table)
    requires Learned(t, t1) && Learned(t1, t2)
    ensures Learned(t, t2)
  {
    forall d, h | d in t2.indirect && h in t2.indirect[d]
      ensures h in Hops(t.indirect, d) || h !in Hops(t.blacklist, d)
    {
      if h in Hops(t1.indirect, d) {
        assert d in t1.indirect;
      }
    }
    forall d, h | d in t.indirect && h in t.indirect[d] && h !in t2.indirect[d] ensures h !in t.byNid {
      assert d in t1.indirect;
      if h in t1.indirect[d] {
      }
    }
  }

  // A handle to a third node in a message from `via`: assume `via` offers a route.
  function Told(t: Table, via: NodeId, nid: NodeId): (t': Table)
    ensures Learned(t, t')
  {
    if nid == via || nid in t.byNid then t else WithIndirect(t, via, nid)
  }

  // A node that is mentioned by a sender, and is not connected directly, has a live route through
  // the sender afterwards exactly when the node in the sender's context is a direct connection and
  // not blacklisted for it.
  lemma OffersRouteIff(t: Table, via: NodeId, nid: NodeId, t': Table, route: Option<Route>)
    requires Inv(t) && nid.Node? && nid != via && nid !in t.byNid
    requires LookedUp(Told(t, via, nid), nid, t', route)
    ensures via in Hops(t'.indirect, nid) && via in t'.byNid <==> via in t.byNid && via !in Hops(t.blacklist, nid)
  {
    var told := Told(t, via, nid);
    assert told.byNid == t.byNid && t'.byNid == t.byNid;
    if via in t.byNid {
      assert via in Hops(told.indirect, nid) <==> via in Hops(t'.indirect, nid);
      assert via in Hops(t.indirect, nid) ==> via !in Hops(t.blacklist, nid);
    }
  }

  predicate IsServerHandshake(e: Event, hdl: Handle) {
    e.Data? && e.hdl == hdl && e.hdr.operation == SERVER_HANDSHAKE
  }

  lemma HandledContext(me: NodeId, b: Broker, hdl: Handle, h: Header, payloadOk: bool, b': Broker, close: bool,
                       x: Handle)
    requires hdl in b.ctx && Handled(me, b, hdl, h, payloadOk, b', close) && x in b'.ctx
    requires hdl == x ==> h.operation != SERVER_HANDSHAKE
    ensures x in b.ctx && b'.ctx[x] == b.ctx[x]
  {
  }

  lemma StepContext(me: NodeId, b: Broker, e: Event, b': Broker, x: Handle)
    requires Step(me, b, e, b') && !IsServerHandshake(e, x) && x in b'.ctx && (x in b.ctx ==> b.ctx[x].InvalidNode?)
    ensures b'.ctx[x].InvalidNode?
  {
    if e.Data? {
      var c := WithContext(b, e.hdl);
      var close :| Handled(me, c, e.hdl, e.hdr, e.payloadOk, b', close);
      HandledContext(me, c, e.hdl, e.hdr, e.payloadOk, b', close, x);
    }
  }

  // The context of a connection names a node only after a server handshake over it, so the
  // connections that this side accepted, on which the client handshakes come in, name none.
  lemma {:induction false} OnlyServersAreNamed(me: NodeId, run: seq<Broker>, events: seq<Event>, i: nat, hdl: Handle)
    requires IsRun(me, run, events) && i < |run| && hdl in run[i].ctx
    requires forall j :: 0 <= j < i ==> !IsServerHandshake(events[j], hdl)
    ensures run[i].ctx[hdl].InvalidNode?
  {
    if i > 0 {
      if hdl in run[i - 1].ctx {
        OnlyServersAreNamed(me, run, events, i - 1, hdl);
      }
      StepContext(me, run[i - 1], events[i - 1], run[i], hdl);
    }
  }

  // A handle to a third node in a message over an accepted connection offers no route to it.
  lemma AcceptedOffersNoRoute(me: NodeId, run: seq<Broker>, events: seq<Event>, i: nat, hdl: Handle,
                              nid: NodeId, t': Table, route: Option<Route>)
    requires IsRun(me, run, events) && i < |run| && hdl in run[i].ctx && nid.Node? && nid !in run[i].tbl.byNid
    requires forall j :: 0 <= j < i ==> !IsServerHandshake(events[j], hdl)
    requires LookedUp(Told(run[i].tbl, run[i].ctx[hdl], nid), nid, t', route)
    ensures !(run[i].ctx[hdl] in Hops(t'.indirect, nid) && run[i].ctx[hdl] in t'.byNid)
  {
    RunInv(me, run, events, i);
    OnlyServersAreNamed(me, run, events, i, hdl);
    OffersRouteIff(run[i].tbl, run[i].ctx[hdl], nid, t', route);
  }

  // Node n handshakes as a client over h and then sends a handle to a third node x: although n is
  // connected directly, x has no route.
  lemma HandleWithoutRoute(me: NodeId, n: NodeId, h: Handle, x: NodeId) returns (run: seq<Broker>, events: seq<Event>)
    requires me.Node? && n.Node? && x.Node? && !Same(n, me) && x != n
    ensures IsRun(me, run, events) && |run| == 2
    ensures run[1].tbl.byHdl == map[h := n] && run[1].tbl.byNid == map[n := h] && run[1].ctx == map[h := InvalidNode]
    ensures NoRoute(Told(run[1].tbl, run[1].ctx[h], x), x)
  {
    var hdr := Header(CLIENT_HANDSHAKE, 0, 0, n, me, 0, 0);
    var start := Broker(Table(map[], map[], map[], map[]), map[], {}, {}, multiset{});
    var named := WithContext(start, h);
    var b := Bind(named, h, n);
    run, events := [start, b], [Data(h, hdr, false)];
    assert Handled(me, named, h, hdr, false, b, false);
    var told := Told(b.tbl, InvalidNode, x);
    assert b.tbl.indirect == map[] && {} + {InvalidNode} == {InvalidNode};
    assert told.indirect == map[x := {InvalidNode}] && told.byNid == map[n := h];
  }

  lemma PurgeOne(b: Broker, n: NodeId)
    ensures n in b.tbl.byNid ==>
              Purge(b, {n}) == b.(proxies := WithoutNodes(b.proxies, {n}), known := b.known - {n},
                                  ctx := b.ctx - {b.tbl.byNid[n]}, purges := b.purges + multiset{n})
    ensures n !in b.tbl.byNid ==> Purge(b, {n}) == b.(purges := b.purges + multiset{n})
  {
    if n in b.tbl.byNid {
      assert {n} * b.tbl.byNid.Keys == {n};
    } else {
      assert {n} * b.tbl.byNid.Keys == {};
      assert WithoutNodes(b.proxies, {}) == b.proxies;
    }
    assert multiset({n}) == multiset{n};
  }

  lemma PurgeNone(b: Broker, nodes: set<NodeId>)
    ensures Purge(b, nodes - nodes) == b
  {
    assert WithoutNodes(b.proxies, {}) == b.proxies;
  }

  lemma PurgeOneMore(b: Broker, nodes: set<NodeId>, rest: set<NodeId>, n: NodeId)
    requires n in rest && rest <= nodes
    ensures Purge(Purge(b, nodes - rest), {n}) == Purge(b, nodes - (rest - {n}))
  {
    assert nodes - (rest - {n}) == nodes - rest + {n};
    assert Purge(Purge(b, nodes - rest), {n}).ctx == Purge(b, nodes - rest + {n}).ctx;
  }

  class BaspBroker {
    const me: NodeId
    const tbl: RoutingTable
    var ctx: map<Handle, NodeId>
    var proxies: set<Proxy>
    var known: set<NodeId>
    ghost var purges: multiset<NodeId>

    ghost function View(): Broker
      reads this, tbl
    {
      Broker(tbl.View(), ctx, proxies, known, purges)
    }

    constructor (thisNode: NodeId)
      ensures me == thisNode && fresh(tbl)
      ensures View() == Broker(Table(map[], map[], map[], map[]), map[], {}, {}, multiset{})
    {
      me := thisNode;
      tbl := new RoutingTable();
      ctx, proxies, known, purges := map[], {}, {}, multiset{};
    }

    method SetContext(hdl: Handle)
      modifies this
      ensures View() == WithContext(old(View()), hdl)
    {
      if hdl !in ctx {
        ctx := ctx[hdl := InvalidNode];
      }
    }

    method PurgeState(nid: NodeId)
      modifies this
      ensures View() == Purge(old(View()), {nid})
    {
      PurgeOne(View(), nid);
      purges := purges + multiset{nid};
      if nid in tbl.byNid {
        proxies := WithoutNodes(proxies, {nid});
        ctx := ctx - {tbl.byNid[nid]};
        known := known - {nid};
      }
    }

    // erase_direct with purge_state as its callback, then close the connection.
    method CloseOnError(hdl: Handle)
      modifies this, tbl
      ensures View() == Fail(old(View()), hdl)
    {
      if hdl in tbl.byHdl {
        var nid := tbl.byHdl[hdl];
        PurgeState(nid);
        tbl.byNid := tbl.byNid - {nid};
        tbl.byHdl := tbl.byHdl - {hdl};
      }
      ctx := ctx - {hdl};
    }

    method PurgeAll(nodes: set<NodeId>)
      modifies this
      ensures View() == Purge(old(View()), nodes)
    {
      var rest := nodes;
      PurgeNone(View(), nodes);
      while rest != {}
        invariant rest <= nodes && View() == Purge(old(View()), nodes - rest)
        decreases rest
      {
        var n :| n in rest;
        PurgeOneMore(old(View()), nodes, rest, n);
        PurgeState(n);
        rest := rest - {n};
      }
      assert nodes - rest == nodes;
    }

    // routing_table::erase with purge_state as its callback.
    method HandleNodeShutdown(nid: NodeId)
      modifies this, tbl
      ensures View() == NodeShutdown(old(View()), nid)
    {
      if nid == InvalidNode {
        return;
      }
      PurgeState(nid);
      PurgeAll(Hops(tbl.indirect, nid));
      tbl.indirect := tbl.indirect - {nid};
      if nid in tbl.byNid {
        tbl.byHdl := tbl.byHdl - {tbl.byNid[nid]};
        tbl.byNid := tbl.byNid - {nid};
      }
    }

    method OnConnectionClosed(hdl: Handle)
      modifies this, tbl
      ensures View() == ConnectionClosed(old(View()), hdl)
    {
      if hdl !in ctx {
        return;
      }
      ctx := ctx - {hdl};
      var nid := NodeOf(Table(tbl.byHdl, tbl.byNid, tbl.indirect, tbl.blacklist), hdl);
      if nid != InvalidNode {
        HandleNodeShutdown(nid);
        proxies := WithoutNodes(proxies, {nid});
      }
    }

    // A proxy can be made exactly when the node has a route after learning the sender's.
    method MakeProxy(hdl: Handle, nid: NodeId, aid: U32) returns (made: bool)
      requires hdl in ctx
      modifies tbl
      ensures Learned(old(tbl.View()), tbl.View())
      ensures if nid.InvalidNode? || aid == 0 then !made && tbl.View() == old(tbl.View())
              else exists r :: LookedUp(Told(old(tbl.View()), ctx[hdl], nid), nid, tbl.View(), r) && made == r.Some?
    {
      if nid == InvalidNode || aid == 0 {
        return false;
      }
      ghost var t := Told(tbl.View(), ctx[hdl], nid);
      var first := false;
      if nid != ctx[hdl] && nid !in tbl.byNid {
        first := tbl.AddIndirect(ctx[hdl], nid);
      }
      if first { // the news of a new node also looks up a route to it
        var r1 := tbl.Lookup(nid);
        ghost var t1 := tbl.View();
        var r2 := tbl.Lookup(nid);
        LookupTwice(t, nid, t1, r1, tbl.View(), r2);
        made := r2.Some?;
        LookedUpIsLearned(t, nid, tbl.View(), r2);
      } else {
        var r := tbl.Lookup(nid);
        made := r.Some?;
        LookedUpIsLearned(t, nid, tbl.View(), r);
      }
      LearnedTwice(old(tbl.View()), t, tbl.View());
    }

    // Every remote handle in a message goes through the namespace; `live` says whether the
    // namespace already holds an unexpired proxy.
    method GetOrPut(hdl: Handle, nid: NodeId, aid: U32, live: bool)
      requires hdl in ctx
      modifies this`proxies, tbl
      ensures Learned(old(tbl.View()), tbl.View()) && proxies == old(proxies) + {(nid, aid)}
      ensures nid in old(tbl.byNid) ==> tbl.View() == old(tbl.View())
    {
      proxies := proxies + {(nid, aid)};
      if !live {
        var made := MakeProxy(hdl, nid, aid);
      }
    }

    // `wanted` says whether somebody waits for the handshake, `aid` is the actor it announces.
    method FinalizeHandshake(hdl: Handle, nid: NodeId, wanted: bool, aid: U32, live: bool)
      requires hdl in ctx && (nid == me || nid in tbl.byNid)
      modifies this, tbl
      ensures Finalized(old(View()).(ctx := old(ctx)[hdl := nid]), View())
    {
      ctx := ctx[hdl := nid];
      if wanted && aid != 0 && nid != me {
        GetOrPut(hdl, nid, aid, live);
        known := known + {nid};
      }
    }

    // A message for this node: learn the route to its source, decode the handles it mentions,
    // and look up a proxy for its sender.
    method Dispatch(hdl: Handle, h: Header, mentioned: seq<(NodeId, U32)>, live: set<Proxy>)
      requires hdl in ctx && BrokerInv(View())
      modifies this`proxies, tbl
      ensures Learned(old(tbl.View()), tbl.View()) && old(proxies) <= proxies
      ensures RevealsRoute(me, old(tbl.View()), hdl, h.sourceNode) ==>
                old(tbl.byHdl)[hdl] in Hops(tbl.indirect, h.sourceNode)
    {
      var lastHop := if hdl in tbl.byHdl then tbl.byHdl[hdl] else InvalidNode;
      var first := false;
      if h.sourceNode != InvalidNode && h.sourceNode != me && lastHop != h.sourceNode && h.sourceNode !in tbl.byNid {
        first := tbl.AddIndirect(lastHop, h.sourceNode);
        assert tbl.View() == Told(old(tbl.View()), lastHop, h.sourceNode);
      }
      ghost var told := tbl.View();
      assert Learned(old(tbl.View()), told);
      assert RevealsRoute(me, old(tbl.View()), hdl, h.sourceNode) ==> lastHop in Hops(told.indirect, h.sourceNode);
      if first { // the news of a new node also looks up a route to it
        var r := tbl.Lookup(h.sourceNode);
        LookedUpIsLearned(told, h.sourceNode, tbl.View(), r);
      }
      for i := 0 to |mentioned|
        invariant Learned(told, tbl.View()) && old(proxies) <= proxies
      {
        if mentioned[i].0 != me {
          ghost var t := tbl.View();
          GetOrPut(hdl, mentioned[i].0, mentioned[i].1, mentioned[i] in live);
          LearnedTwice(told, t, tbl.View());
        }
      }
      if h.sourceNode != me {
        ghost var t := tbl.View();
        GetOrPut(hdl, h.sourceNode, h.sourceActor, (h.sourceNode, h.sourceActor) in live);
        LearnedTwice(told, t, tbl.View());
      }
      LearnedTwice(old(tbl.View()), told, tbl.View());
    }

    // instance::handle for one complete frame. The second precondition is what add_direct asserts.
    // `exited` says whether the actor a proxy was announced for has already terminated.
    method OnFrame(hdl: Handle, h: Header, payloadOk: bool, wanted: bool, aid: U32, exited: bool,
                   mentioned: seq<(NodeId, U32)>, live: set<Proxy>) returns (close: bool)
      requires hdl in ctx && BrokerInv(View())
      requires ValidHeader(h) && Binds(me, View(), h) ==> hdl !in tbl.byHdl
      modifies this, tbl
      ensures Handled(me, old(View()), hdl, h, payloadOk, View(), close)
    {
      if !ValidHeader(h) {
        CloseOnError(hdl);
        return true;
      }
      if !IsHandshake(h) && h.destNode != me {
        Forward(h);
        return false;
      }
      close := false;
      if h.operation == SERVER_HANDSHAKE {
        if h.sourceNode == me || h.sourceNode in tbl.byNid {
          FinalizeHandshake(hdl, h.sourceNode, wanted, aid, (h.sourceNode, aid) in live);
          CloseOnError(hdl);
          return true;
        }
        tbl.AddDirect(hdl, h.sourceNode);
        var wasIndirect := tbl.EraseIndirect(h.sourceNode);
        FinalizeHandshake(hdl, h.sourceNode, wanted, aid, (h.sourceNode, aid) in live);
      } else if h.operation == CLIENT_HANDSHAKE {
        if h.sourceNode !in tbl.byNid {
          tbl.AddDirect(hdl, h.sourceNode);
          var wasIndirect := tbl.EraseIndirect(h.sourceNode);
        }
      } else if h.operation == DISPATCH_MESSAGE {
        if !payloadOk {
          CloseOnError(hdl);
          return true;
        }
        Dispatch(hdl, h, mentioned, live);
      } else if h.operation == ANNOUNCE_PROXY_INSTANCE {
        if exited {
          ghost var t := tbl.View();
          var r := tbl.Lookup(h.sourceNode);
          LookedUpIsLearned(t, h.sourceNode, tbl.View(), r);
        }
      } else {
        proxies := proxies - {(h.sourceNode, h.sourceActor)};
      }
    }

    // A frame for another node: find a route, or a way back for the error.
    method Forward(h: Header)
      modifies tbl
      ensures Learned(old(tbl.View()), tbl.View())
    {
      var path := tbl.Lookup(h.destNode);
      ghost var t := tbl.View();
      LookedUpIsLearned(old(tbl.View()), h.destNode, t, path);
      if path.None? && h.sourceNode != me {
        var back := tbl.Lookup(h.sourceNode);
        LookedUpIsLearned(t, h.sourceNode, tbl.View(), back);
        LearnedTwice(old(tbl.View()), t, tbl.View());
      }
    }
  }
}

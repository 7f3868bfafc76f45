/** The node's code against the flood: what a node does with a copy is a step of the flood. */
module GossipForwarding {
  import opened Gossip
  import N = GossipNode

  /** Node n of the flood run by this object: its name, and a connection of its own for each peer. */
  ghost predicate Wired(cfg: Config, names: Node -> string, n: Node, node: N.Network, wires: map<string, Link>)
    reads node
  {
    && node.nodeID == names(n) && node.peers.Keys == wires.Keys
    && (forall key :: key in node.peers ==> node.peers[key].id == key && wires[key] in LinksOf(cfg.links, n))
    && (forall j, k :: j in wires && k in wires && wires[j] == wires[k] ==> j == k)
  }

  ghost predicate Named(names: Node -> string) { forall i, j :: names(i) == names(j) ==> i == j }

  /** These peers' connections, and no others. */
  ghost predicate Carries(targets: seq<Link>, keys: set<string>, wires: map<string, Link>) {
    && keys <= wires.Keys && Distinct(targets)
    && forall l :: l in targets <==> exists key :: key in keys && wires[key] == l
  }

  lemma DistinctAppend(q: seq<Link>, l: Link)
    requires Distinct(q) && l !in q
    ensures Distinct(q + [l])
  {}

  /** The connections of some peers, in some order. */
  lemma {:induction false} Listing(keys: set<string>, wires: map<string, Link>) returns (q: seq<Link>)
    requires keys <= wires.Keys && forall j, k :: j in wires && k in wires && wires[j] == wires[k] ==> j == k
    ensures Carries(q, keys, wires) && (keys == {} ==> q == [])
    decreases |keys|
  {
    if keys == {} {
      q := [];
    } else {
      var key :| key in keys;
      var rest := Listing(keys - {key}, wires);
      q := rest + [wires[key]];
      assert forall k :: k in keys - {key} ==> wires[k] != wires[key];
      assert wires[key] !in rest;
      DistinctAppend(rest, wires[key]);
      forall l ensures l in q <==> exists k :: k in keys && wires[k] == l {
        if l in rest { var k :| k in keys - {key} && wires[k] == l; }
      }
    }
  }

  /** A full node: all its connections lead to healthy connected peers. */
  ghost predicate Full(cfg: Config, n: Node, node: N.Network, wires: map<string, Link>)
    reads node
  {
    && (forall key :: key in node.peers ==> node.peers[key].healthy && node.peers[key].connected)
    && (forall l :: l in LinksOf(cfg.links, n) ==> exists key :: key in wires && wires[key] == l)
  }

  /** Receiving a copy is a delivery the flood allows: the node handles it exactly when the flood does, never
      sends it back over the connection it came by, and passes on copies with the TTL the flood gives them; a
      full node passes it on over every other connection. */
  method ReceiveCopy(cfg: Config, s: Net, index: nat, names: Node -> string, node: N.Network,
                     wires: map<string, Link>, m: N.Message, sender: string, cleanedAt: int, storedAt: int)
    returns (handled: bool, forwarded: N.Message, keys: set<string>, ghost targets: seq<Link>)
    requires index < |s.inFlight| && Named(names)
    requires Wired(cfg, names, s.inFlight[index].to, node, wires)
    requires m.ttl == s.inFlight[index].ttl && m.origin == names(cfg.origin)
    requires sender in wires && wires[sender] == s.inFlight[index].link
    requires N.Knows(node.messageCache, m.id, cleanedAt, node.cacheExpiry) <==> s.inFlight[index].to in s.seen
    modifies node`messageCache, node`duplicateMessages
    ensures Enabled(cfg, s, Deliver(index, targets)) && Carries(targets, keys, wires) && sender !in keys
    ensures var c, t := s.inFlight[index], Step(cfg, s, Deliver(index, targets));
            && c.to in t.seen && m.id in node.messageCache
            && t.handled == s.handled + (if handled then [Handled(c.to, m.ttl, |c.trail|)] else [])
            && t.inFlight == RemoveAt(s.inFlight, index) + CopiesOn(targets, c.to, forwarded.ttl, c.trail)
            && t.sent == s.sent + SendsOn(targets, c.to, forwarded.ttl)
    ensures handled && m.ttl > 0 && m.origin != node.nodeID && Full(cfg, s.inFlight[index].to, node, wires) ==>
              forall l :: l in targets <==>
                l in LinksOf(cfg.links, s.inFlight[index].to) && l != s.inFlight[index].link
  {
    hide LinksOf, Carries, CopiesOn, SendsOn, N.Checked, RemoveAt;
    ghost var c := s.inFlight[index];
    handled, forwarded, keys := node.Receive(m, sender, cleanedAt, storedAt);
    targets := Listing(keys, wires);
    CarriedOver(cfg, c.to, keys, wires, sender, targets);
    Recorded(old(node.messageCache), N.Check(m.id, cleanedAt, storedAt), node.cacheExpiry, node.maxCacheSize,
      node.messageCache, !handled);
    Delivered(cfg, s, index, targets, forwarded.ttl);
    assert m.origin != node.nodeID <==> c.to != cfg.origin;
    if handled && m.ttl > 0 && m.origin != node.nodeID && Full(cfg, c.to, node, wires) {
      AllOthers(cfg, c.to, keys, wires, sender, targets);
    }
  }

  lemma CarriedOver(cfg: Config, n: Node, keys: set<string>, wires: map<string, Link>, sender: string,
                    targets: seq<Link>)
    requires Carries(targets, keys, wires) && sender in wires && sender !in keys
    requires forall key :: key in wires ==> wires[key] in LinksOf(cfg.links, n)
    requires forall j, k :: j in wires && k in wires && wires[j] == wires[k] ==> j == k
    ensures Distinct(targets) && forall l :: l in targets ==> l in LinksOf(cfg.links, n) && l != wires[sender]
    ensures forall key :: key in keys ==> wires[key] in targets
  {
    hide LinksOf;
  }

  lemma AllOthers(cfg: Config, n: Node, keys: set<string>, wires: map<string, Link>, sender: string,
                  targets: seq<Link>)
    requires Carries(targets, keys, wires) && sender in wires
    requires forall key :: key in keys <==> key in wires && key != sender
    requires forall key :: key in wires ==> wires[key] in LinksOf(cfg.links, n)
    requires forall l :: l in LinksOf(cfg.links, n) ==> exists key :: key in wires && wires[key] == l
    requires forall j, k :: j in wires && k in wires && wires[j] == wires[k] ==> j == k
    ensures forall l :: l in targets <==> l in LinksOf(cfg.links, n) && l != wires[sender]
  {
    hide LinksOf;
  }

  lemma Recorded(cache: N.Cache, c: N.Check, expiry: int, max: nat, cache': N.Cache, duplicate: bool)
    requires N.Checked(cache, c, expiry, max, cache', duplicate)
    ensures c.id in cache'
  {}

  /** The flood's step, by whether the node handles and passes on the copy. */
  lemma Delivered(cfg: Config, s: Net, index: nat, targets: seq<Link>, ttl: int)
    requires Enabled(cfg, s, Deliver(index, targets))
    requires var c := s.inFlight[index];
             if c.to !in s.seen && PassesOn(cfg, c) then targets != [] ==> ttl == c.ttl - 1 else targets == []
    ensures var c, t := s.inFlight[index], Step(cfg, s, Deliver(index, targets));
            && c.to in t.seen
            && t.handled == s.handled + (if c.to !in s.seen then [Handled(c.to, c.ttl, |c.trail|)] else [])
            && t.inFlight == RemoveAt(s.inFlight, index) + CopiesOn(targets, c.to, ttl, c.trail)
            && t.sent == s.sent + SendsOn(targets, c.to, ttl)
  {
    var c := s.inFlight[index];
    hide RemoveAt, LinksOf, Distinct;
    NothingOn(c.to, ttl, c.trail);
    NothingOn(c.to, c.ttl - 1, c.trail);
    assert RemoveAt(s.inFlight, index) + [] == RemoveAt(s.inFlight, index) && s.sent + [] == s.sent;
  }

  lemma NothingOn(from: Node, ttl: int, trail: seq<Node>)
    ensures CopiesOn([], from, ttl, trail) == [] && SendsOn([], from, ttl) == []
  {}

  /** Sending a message of one's own is an origination the flood allows. */
  method SendOwn(cfg: Config, s: Net, names: Node -> string, node: N.Network, wires: map<string, Link>)
    returns (keys: set<string>, ghost targets: seq<Link>)
    requires !s.started && Wired(cfg, names, cfg.origin, node, wires)
    ensures forall key :: key in keys <==> key in node.peers && node.peers[key].healthy && node.peers[key].connected
    ensures Enabled(cfg, s, Originate(targets)) && Carries(targets, keys, wires)
    ensures Full(cfg, cfg.origin, node, wires) ==> forall l :: l in targets <==> l in LinksOf(cfg.links, cfg.origin)
  {
    hide LinksOf;
    keys := node.SendToPeers();
    targets := Listing(keys, wires);
    if Full(cfg, cfg.origin, node, wires) {
      forall l ensures l in targets <==> l in LinksOf(cfg.links, cfg.origin) {
        if l in LinksOf(cfg.links, cfg.origin) {
          var key :| key in wires && wires[key] == l;
          assert key in keys;
        }
      }
    }
  }
}

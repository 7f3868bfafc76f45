/** When a flood reaches everyone: TTL against network size. */
module GossipCoverage {
  import opened Gossip

  function Nodes(cfg: Config): set<Node> {
    {cfg.origin} + (set l | l in cfg.links :: l.a) + (set l | l in cfg.links :: l.b)
  }

  /** Nothing lost or forgotten, and every healthy connection used. */
  ghost predicate Full(cfg: Config, s: Net, a: Action)
    requires Enabled(cfg, s, a)
  {
    match a
    case Originate(targets) => forall l :: l in LinksOf(cfg.links, cfg.origin) ==> l in targets
    case Deliver(index, targets) =>
      forall l :: l in LinksOf(cfg.links, s.inFlight[index].to) && l != s.inFlight[index].link ==> l in targets
    case _ => false
  }

  ghost predicate FullRun(cfg: Config, actions: seq<Action>)
    requires Legal(cfg, IDLE, actions)
    decreases |actions|
  {
    actions == [] ||
    (FullRun(cfg, actions[..|actions| - 1])
     && Full(cfg, Run(cfg, IDLE, actions[..|actions| - 1]), actions[|actions| - 1]))
  }

  ghost predicate Reached(cfg: Config, s: Net, n: Node) { n == cfg.origin || n in s.seen }

  /** The originator once started, and any other node that has seen the message. */
  ghost predicate HasSent(cfg: Config, s: Net, n: Node) { if n == cfg.origin then s.started else n in s.seen }

  ghost predicate Coming(s: Net, n: Node) { exists i :: 0 <= i < |s.inFlight| && s.inFlight[i].to == n }

  /** A copy travelled through distinct nodes that were all reached, the last of them its sender. */
  ghost predicate TrailOk(cfg: Config, s: Net, c: Copy) {
    && |c.trail| >= 1 && c.ttl + |c.trail| == cfg.ttl0 + 1
    && c.link in cfg.links && AtNode(c.link, c.to) && Other(c.link, c.to) == c.trail[|c.trail| - 1]
    && Distinct(c.trail) && forall i :: 0 <= i < |c.trail| ==> Reached(cfg, s, c.trail[i])
  }

  /** Every neighbour of a node that has sent the message on is reached or about to be. */
  ghost predicate Covering(cfg: Config, s: Net) {
    && (forall i :: 0 <= i < |s.inFlight| ==> TrailOk(cfg, s, s.inFlight[i]))
    && (forall l, n :: l in cfg.links && AtNode(l, n) && HasSent(cfg, s, n)
          ==> Reached(cfg, s, Other(l, n)) || Coming(s, Other(l, n)))
    && s.seen <= Nodes(cfg)
  }

  lemma DistinctFills<T>(s: seq<T>, bound: set<T>)
    requires Distinct(s) && (forall x :: x in s ==> x in bound) && |s| >= |bound|
    ensures forall x :: x in bound ==> x in s
  {
    forall x | x in bound ensures x in s {
      if x !in s { DistinctBound(s, bound - {x}); }
    }
  }

  /** A TTL of the number of nodes less two runs out on a first arrival only where the copy has been
      everywhere. */
  lemma TtlLasts(cfg: Config, s: Net, c: Copy)
    requires Covering(cfg, s) && TrailOk(cfg, s, c) && !Reached(cfg, s, c.to)
    requires cfg.ttl0 + 2 >= |Nodes(cfg)|
    ensures c.ttl >= 0 && c.to in Nodes(cfg)
    ensures c.ttl > 0 || forall n :: n in Nodes(cfg) ==> n == c.to || Reached(cfg, s, n)
  {
    var path := c.trail + [c.to];
    assert Distinct(path);
    forall n | n in path ensures n in Nodes(cfg) {
      var i :| 0 <= i < |path| && path[i] == n;
    }
    DistinctBound(path, Nodes(cfg));
    if c.ttl == 0 { DistinctFills(path, Nodes(cfg)); }
  }

  lemma OriginateCovers(cfg: Config, s: Net, targets: seq<Link>)
    requires Covering(cfg, s) && Enabled(cfg, s, Originate(targets)) && Full(cfg, s, Originate(targets))
    ensures Covering(cfg, Step(cfg, s, Originate(targets)))
  {
    var s' := Step(cfg, s, Originate(targets));
    var copies := CopiesOn(targets, cfg.origin, cfg.ttl0, []);
    var k := |s.inFlight|;
    forall i | 0 <= i < |s'.inFlight| ensures TrailOk(cfg, s', s'.inFlight[i]) {
      if i < k { assert TrailOk(cfg, s, s'.inFlight[i]); } else { assert targets[i - k] in targets; }
    }
    forall l, n | l in cfg.links && AtNode(l, n) && HasSent(cfg, s', n)
      ensures Reached(cfg, s', Other(l, n)) || Coming(s', Other(l, n))
    {
      if n == cfg.origin {
        assert l in LinksOf(cfg.links, cfg.origin) && l in targets;
        var j :| 0 <= j < |targets| && targets[j] == l;
        assert s'.inFlight[k + j].to == Other(l, n);
      } else if Coming(s, Other(l, n)) {
        var j :| 0 <= j < k && s.inFlight[j].to == Other(l, n);
        assert s'.inFlight[j].to == Other(l, n);
      }
    }
  }

  /** Other copies are still in flight after one is taken out. */
  lemma StillComing(s: Net, index: nat, more: seq<Copy>, s': Net, n: Node)
    requires index < |s.inFlight| && s'.inFlight == RemoveAt(s.inFlight, index) + more
    requires Coming(s, n)
    ensures n == s.inFlight[index].to || Coming(s', n)
  {
    var j :| 0 <= j < |s.inFlight| && s.inFlight[j].to == n;
    if j < index {
      assert s'.inFlight[j].to == n;
    } else if j > index {
      assert s'.inFlight[j - 1].to == n;
    }
  }

  lemma RestTrails(cfg: Config, s: Net, index: nat, more: seq<Copy>, s': Net)
    requires index < |s.inFlight| && s'.inFlight == RemoveAt(s.inFlight, index) + more && s.seen <= s'.seen
    requires forall i :: 0 <= i < |s.inFlight| ==> TrailOk(cfg, s, s.inFlight[i])
    requires forall i :: 0 <= i < |more| ==> TrailOk(cfg, s', more[i])
    ensures forall i :: 0 <= i < |s'.inFlight| ==> TrailOk(cfg, s', s'.inFlight[i])
  {
    forall i | 0 <= i < |s'.inFlight| ensures TrailOk(cfg, s', s'.inFlight[i]) {
      if i < |s.inFlight| - 1 {
        var c := s.inFlight[if i < index then i else i + 1];
        assert s'.inFlight[i] == c && TrailOk(cfg, s, c);
        assert forall j :: 0 <= j < |c.trail| ==> Reached(cfg, s, c.trail[j]) && Reached(cfg, s', c.trail[j]);
      } else {
        assert s'.inFlight[i] == more[i - (|s.inFlight| - 1)];
      }
    }
  }

  lemma ForwardTrails(cfg: Config, s: Net, c: Copy, targets: seq<Link>, s': Net)
    requires TrailOk(cfg, s, c) && !Reached(cfg, s, c.to) && s'.seen == s.seen + {c.to}
    requires forall l :: l in targets ==> l in LinksOf(cfg.links, c.to)
    ensures var copies := CopiesOn(targets, c.to, c.ttl - 1, c.trail);
            forall i :: 0 <= i < |copies| ==> TrailOk(cfg, s', copies[i])
  {
    var copies := CopiesOn(targets, c.to, c.ttl - 1, c.trail);
    forall i | 0 <= i < |copies| ensures TrailOk(cfg, s', copies[i]) {
      assert targets[i] in targets;
      var trail := c.trail + [c.to];
      forall j | 0 <= j < |trail| ensures Reached(cfg, s', trail[j]) {
        if j < |c.trail| { assert Reached(cfg, s, c.trail[j]); }
      }
    }
  }

  lemma DeliverCovers(cfg: Config, s: Net, index: nat, targets: seq<Link>)
    requires Covering(cfg, s) && cfg.ttl0 + 2 >= |Nodes(cfg)|
    requires Enabled(cfg, s, Deliver(index, targets)) && Full(cfg, s, Deliver(index, targets))
    ensures Covering(cfg, Step(cfg, s, Deliver(index, targets)))
  {
    var c := s.inFlight[index];
    var s' := Step(cfg, s, Deliver(index, targets));
    assert TrailOk(cfg, s, c);
    var first := !Reached(cfg, s, c.to);
    if first { TtlLasts(cfg, s, c); }
    var passes := first && c.ttl > 0;
    var more := if passes then CopiesOn(targets, c.to, c.ttl - 1, c.trail) else [];
    if passes {
      ForwardTrails(cfg, s, c, targets, s');
    } else {
      assert RemoveAt(s.inFlight, index) + [] == RemoveAt(s.inFlight, index);
    }
    assert s'.inFlight == RemoveAt(s.inFlight, index) + more;
    RestTrails(cfg, s, index, more, s');
    assert Reached(cfg, s', c.to);
    assert c.to in Nodes(cfg);
    EndsAreNodes(cfg);
    hide TrailOk, Nodes;
    forall l, n | l in cfg.links && AtNode(l, n) && HasSent(cfg, s', n)
      ensures Reached(cfg, s', Other(l, n)) || Coming(s', Other(l, n))
    {
      if n == c.to && passes {
        NeighbourCovered(cfg, s, c, l, targets, index, s');
      } else if n == c.to && first {
        assert Other(l, n) in Nodes(cfg);
      } else {
        assert Reached(cfg, s, Other(l, n)) || Coming(s, Other(l, n));
        if Coming(s, Other(l, n)) { StillComing(s, index, more, s', Other(l, n)); }
      }
    }
  }

  lemma EndsAreNodes(cfg: Config)
    ensures forall l, n :: l in cfg.links && AtNode(l, n) ==> Other(l, n) in Nodes(cfg)
  {}

  /** The new node's neighbours: the sender was reached, the rest have a copy coming. */
  lemma NeighbourCovered(cfg: Config, s: Net, c: Copy, l: Link, targets: seq<Link>, index: nat, s': Net)
    requires TrailOk(cfg, s, c) && l in LinksOf(cfg.links, c.to) && s.seen <= s'.seen
    requires forall k :: k in LinksOf(cfg.links, c.to) && k != c.link ==> k in targets
    requires index < |s.inFlight|
    requires s'.inFlight == RemoveAt(s.inFlight, index) + CopiesOn(targets, c.to, c.ttl - 1, c.trail)
    ensures Reached(cfg, s', Other(l, c.to)) || Coming(s', Other(l, c.to))
  {
    if l == c.link {
      assert Reached(cfg, s, c.trail[|c.trail| - 1]);
    } else {
      var j :| 0 <= j < |targets| && targets[j] == l;
      assert s'.inFlight[|s.inFlight| - 1 + j].to == Other(l, c.to);
    }
  }

  lemma {:induction false} FullRunCovers(cfg: Config, actions: seq<Action>)
    requires Legal(cfg, IDLE, actions) && FullRun(cfg, actions) && cfg.ttl0 + 2 >= |Nodes(cfg)|
    ensures Covering(cfg, Run(cfg, IDLE, actions))
    decreases |actions|
  {
    if actions != [] {
      var n := |actions| - 1;
      FullRunCovers(cfg, actions[..n]);
      hide Covering, Nodes, Step;
      var s := Run(cfg, IDLE, actions[..n]);
      match actions[n]
      case Originate(targets) => OriginateCovers(cfg, s, targets);
      case Deliver(index, targets) => DeliverCovers(cfg, s, index, targets);
    }
  }

  lemma {:induction false} BallReached(cfg: Config, s: Net, k: nat)
    requires Covering(cfg, s) && s.started && s.inFlight == []
    ensures forall n :: n in Ball(cfg.links, cfg.origin, k) ==> Reached(cfg, s, n)
  {
    if k > 0 {
      BallReached(cfg, s, k - 1);
      forall n | n in Ball(cfg.links, cfg.origin, k) ensures Reached(cfg, s, n) {
        if n !in Ball(cfg.links, cfg.origin, k - 1) {
          var l :| l in cfg.links && ((l.b == n && l.a in Ball(cfg.links, cfg.origin, k - 1))
                                      || (l.a == n && l.b in Ball(cfg.links, cfg.origin, k - 1)));
          var m := if l.b == n && l.a in Ball(cfg.links, cfg.origin, k - 1) then l.a else l.b;
          assert AtNode(l, m) && Reached(cfg, s, m);
          assert !Coming(s, Other(l, m));
        }
      }
    }
  }

  /** Coverage: once a full flood has settled, every connected node has the message, provided the
      TTL is at least the number of nodes less two. */
  lemma FloodCovers(cfg: Config, actions: seq<Action>, n: Node, k: nat)
    requires Legal(cfg, IDLE, actions) && FullRun(cfg, actions) && cfg.ttl0 + 2 >= |Nodes(cfg)|
    requires Run(cfg, IDLE, actions).started && Run(cfg, IDLE, actions).inFlight == []
    requires n in Ball(cfg.links, cfg.origin, k) && n != cfg.origin
    ensures n in Run(cfg, IDLE, actions).seen
  {
    FullRunCovers(cfg, actions);
    BallReached(cfg, Run(cfg, IDLE, actions), k);
  }

  // ---------- the exact TTL ----------

  /** A flood with nothing lost or forgotten that has run its course. */
  ghost predicate Settled(cfg: Config, actions: seq<Action>) {
    && Legal(cfg, IDLE, actions) && FullRun(cfg, actions)
    && Run(cfg, IDLE, actions).started && Run(cfg, IDLE, actions).inFlight == []
  }

  ghost predicate Connected(cfg: Config) {
    forall n :: n in Nodes(cfg) ==> exists k :: n in Ball(cfg.links, cfg.origin, k)
  }

  ghost predicate ReachesAll(cfg: Config, actions: seq<Action>)
    requires Legal(cfg, IDLE, actions)
  {
    forall n :: n in Nodes(cfg) ==> Reached(cfg, Run(cfg, IDLE, actions), n)
  }

  /** Every settled flood of every connected network of n nodes reaches all of them. */
  ghost predicate AlwaysCovers(n: nat, ttl0: nat) {
    forall cfg, actions :: |Nodes(cfg)| == n && Connected(cfg) && cfg.ttl0 == ttl0 && Settled(cfg, actions) ==>
      ReachesAll(cfg, actions)
  }

  lemma LongTtlCovers(n: nat, ttl0: nat)
    requires ttl0 + 2 >= n
    ensures AlwaysCovers(n, ttl0)
  {
    hide Run, Legal, FullRun, Ball, Nodes;
    forall cfg, actions | |Nodes(cfg)| == n && Connected(cfg) && cfg.ttl0 == ttl0 && Settled(cfg, actions)
      ensures ReachesAll(cfg, actions)
    {
      forall m | m in Nodes(cfg) ensures Reached(cfg, Run(cfg, IDLE, actions), m) {
        var k :| m in Ball(cfg.links, cfg.origin, k);
        if m != cfg.origin { FloodCovers(cfg, actions, m, k); }
      }
    }
  }

  lemma {:induction false} Listed(links: set<Link>) returns (targets: seq<Link>)
    ensures Distinct(targets) && forall l :: l in targets <==> l in links
    decreases links
  {
    if links == {} {
      targets := [];
    } else {
      var l :| l in links;
      targets := Listed(links - {l});
      targets := targets + [l];
    }
  }

  lemma DegreeWithinLinks(links: set<Link>)
    ensures DegreeAtMost(links, |links|)
  {
    forall n: Node ensures |LinksOf(links, n)| <= |links| {
      assert links == LinksOf(links, n) + (links - LinksOf(links, n));
    }
  }

  /** Any full flood can be run on until it settles. */
  lemma {:induction false} SettlesFrom(cfg: Config, actions: seq<Action>) returns (settled: seq<Action>)
    requires Legal(cfg, IDLE, actions) && FullRun(cfg, actions) && Run(cfg, IDLE, actions).started
    ensures Settled(cfg, settled) && actions <= settled
    decreases Load(|cfg.links|, Run(cfg, IDLE, actions).inFlight)
  {
    hide Run, Legal, FullRun, Load;
    var s := Run(cfg, IDLE, actions);
    if s.inFlight == [] {
      settled := actions;
    } else {
      var targets := Listed(LinksOf(cfg.links, s.inFlight[0].to) - {s.inFlight[0].link});
      var a := Deliver(0, targets);
      Extend(cfg, actions, a);
      DegreeWithinLinks(cfg.links);
      LoadDrops(cfg, |cfg.links|, s, a);
      settled := SettlesFrom(cfg, actions + [a]);
    }
  }

  lemma SettledFlood(cfg: Config) returns (settled: seq<Action>)
    ensures Settled(cfg, settled)
  {
    var targets := Listed(LinksOf(cfg.links, cfg.origin));
    Extend(cfg, [], Originate(targets));
    settled := SettlesFrom(cfg, [] + [Originate(targets)]);
  }

  lemma {:induction false} FullRemembers(cfg: Config, actions: seq<Action>)
    requires Legal(cfg, IDLE, actions) && FullRun(cfg, actions)
    ensures Remembering(actions)
    decreases |actions|
  {
    hide Run;
    if actions != [] {
      FullRemembers(cfg, actions[..|actions| - 1]);
      forall i | 0 <= i < |actions| - 1 ensures !actions[i].Forget? {
        assert actions[i] == actions[..|actions| - 1][i];
      }
    }
  }

  lemma {:induction false} SeenHandled(cfg: Config, actions: seq<Action>, n: Node)
    requires Legal(cfg, IDLE, actions) && n in Run(cfg, IDLE, actions).seen
    ensures exists i :: 0 <= i < |Run(cfg, IDLE, actions).handled| && Run(cfg, IDLE, actions).handled[i].node == n
    decreases |actions|
  {
    var m := |actions| - 1;
    var s, t := Run(cfg, IDLE, actions[..m]), Run(cfg, IDLE, actions);
    if n in s.seen {
      SeenHandled(cfg, actions[..m], n);
      var i :| 0 <= i < |s.handled| && s.handled[i].node == n;
      assert t.handled[i] == s.handled[i];
    } else {
      assert t.handled[|s.handled|].node == n;
    }
  }

  function UpTo(n: nat): (s: set<Node>)
    ensures |s| == n && forall i: nat :: i in s <==> i < n
  {
    if n == 0 then {} else UpTo(n - 1) + {n - 1}
  }

  function RowLinks(n: nat): (links: set<Link>)
    ensures forall l :: l in links <==> l.id == l.a && l.b == l.a + 1 && l.b < n
  {
    if n <= 1 then {} else RowLinks(n - 1) + {Link(n - 2, n - 2, n - 1)}
  }

  /** n nodes in a row, the originator at one end. */
  function Row(n: nat, ttl0: nat): Config { Config(RowLinks(n), 0, ttl0) }

  lemma {:induction false} RowBallWithin(n: nat, k: nat, m: Node)
    requires m in Ball(RowLinks(n), 0, k)
    ensures m <= k
  {
    hide RowLinks;
    if k > 0 {
      if m in Ball(RowLinks(n), 0, k - 1) {
        RowBallWithin(n, k - 1, m);
      } else {
        var l :| l in RowLinks(n) && ((l.b == m && l.a in Ball(RowLinks(n), 0, k - 1))
                                      || (l.a == m && l.b in Ball(RowLinks(n), 0, k - 1)));
        RowBallWithin(n, k - 1, if l.b == m && l.a in Ball(RowLinks(n), 0, k - 1) then l.a else l.b);
      }
    }
  }

  lemma RowLink(n: nat, m: nat)
    requires 0 < m < n
    ensures var l := Link(m - 1, m - 1, m); l in RowLinks(n) && AtNode(l, m - 1) && Other(l, m - 1) == m
  {}

  lemma {:induction false} RowBallReaches(n: nat, m: nat)
    requires m < n
    ensures m in Ball(RowLinks(n), 0, m)
  {
    if m > 0 {
      hide *;
      RowBallReaches(n, m - 1);
      RowLink(n, m);
      BallGrows(RowLinks(n), 0, m - 1, Link(m - 1, m - 1, m), m - 1);
    }
  }

  lemma RowNodes(n: nat, ttl0: nat)
    requires n > 0
    ensures Nodes(Row(n, ttl0)) == UpTo(n)
  {
    var cfg := Row(n, ttl0);
    forall i: nat | i < n ensures i in Nodes(cfg) {
      if i > 0 { assert Link(i - 1, i - 1, i) in cfg.links; }
    }
    forall m | m in Nodes(cfg) ensures m in UpTo(n) {}
  }

  lemma RowConnected(n: nat, ttl0: nat)
    requires n > 0
    ensures Connected(Row(n, ttl0))
  {
    hide Nodes, Ball, RowLinks, UpTo;
    var cfg := Row(n, ttl0);
    RowNodes(n, ttl0);
    forall m | m in Nodes(cfg) ensures exists k :: m in Ball(cfg.links, cfg.origin, k) {
      RowBallReaches(n, m);
    }
  }

  /** No flood gets past the hops its TTL allows. */
  lemma FloodWithinTtl(cfg: Config, actions: seq<Action>, m: Node)
    requires Settled(cfg, actions) && m != cfg.origin && Reached(cfg, Run(cfg, IDLE, actions), m)
    ensures exists k: nat :: k <= cfg.ttl0 + 1 && m in Ball(cfg.links, cfg.origin, k)
  {
    hide Run, Legal, FullRun, Ball;
    FullRemembers(cfg, actions);
    GossipSafety(cfg, actions);
    SeenHandled(cfg, actions, m);
    var handled := Run(cfg, IDLE, actions).handled;
    var i :| 0 <= i < |handled| && handled[i].node == m;
    assert m in Ball(cfg.links, cfg.origin, handled[i].hops);
  }

  lemma ShortTtlMisses(n: nat, ttl0: nat)
    requires n > ttl0 + 2
    ensures !AlwaysCovers(n, ttl0)
  {
    var cfg := Row(n, ttl0);
    RowNodes(n, ttl0);
    RowConnected(n, ttl0);
    var actions := SettledFlood(cfg);
    hide Run, Legal, FullRun, Nodes, Ball, Settled, Connected, UpTo, RowLinks;
    assert Legal(cfg, IDLE, actions) by { SettledLegal(cfg, actions); }
    if ReachesAll(cfg, actions) {
      assert n - 1 in Nodes(cfg);
      FloodWithinTtl(cfg, actions, n - 1);
      var k: nat :| k <= ttl0 + 1 && n - 1 in Ball(cfg.links, cfg.origin, k);
      RowBallWithin(n, k, n - 1);
    }
  }

  lemma SettledLegal(cfg: Config, actions: seq<Action>)
    requires Settled(cfg, actions)
    ensures Legal(cfg, IDLE, actions)
  {}

  /** The exact TTL: every settled flood of every connected network of n nodes reaches them all exactly
      when the TTL is at least n - 2. */
  lemma CoverageExact(n: nat, ttl0: nat)
    ensures AlwaysCovers(n, ttl0) <==> ttl0 + 2 >= n
  {
    hide AlwaysCovers;
    if ttl0 + 2 >= n { LongTtlCovers(n, ttl0); } else { ShortTtlMisses(n, ttl0); }
  }

  // ---------- within the TTL, and still missed ----------

  /** Every settled flood of every network of n nodes reaches every node within its TTL. */
  ghost predicate AlwaysWithinTtl(n: nat, ttl0: nat) {
    forall cfg, actions :: |Nodes(cfg)| == n && cfg.ttl0 == ttl0 && Settled(cfg, actions) ==>
      WithinTtl(cfg, actions)
  }

  ghost predicate WithinTtl(cfg: Config, actions: seq<Action>)
    requires Legal(cfg, IDLE, actions)
  {
    forall n :: n in Ball(cfg.links, cfg.origin, cfg.ttl0 + 1) ==> Reached(cfg, Run(cfg, IDLE, actions), n)
  }

  lemma LongTtlWithin(n: nat, ttl0: nat)
    requires ttl0 + 2 >= n
    ensures AlwaysWithinTtl(n, ttl0)
  {
    hide Run, Legal, FullRun, Ball, Nodes;
    forall cfg, actions | |Nodes(cfg)| == n && cfg.ttl0 == ttl0 && Settled(cfg, actions)
      ensures WithinTtl(cfg, actions)
    {
      forall m | m in Ball(cfg.links, cfg.origin, ttl0 + 1) ensures Reached(cfg, Run(cfg, IDLE, actions), m) {
        if m != cfg.origin { FloodCovers(cfg, actions, m, ttl0 + 1); }
      }
    }
  }

  /** The originator's neighbours are reached or about to be, whatever the TTL. */
  ghost predicate Neighbourly(cfg: Config, s: Net) {
    forall l :: s.started && l in LinksOf(cfg.links, cfg.origin) ==>
      Reached(cfg, s, Other(l, cfg.origin)) || Coming(s, Other(l, cfg.origin))
  }

  lemma OriginateNeighbourly(cfg: Config, s: Net, targets: seq<Link>)
    requires Enabled(cfg, s, Originate(targets)) && Full(cfg, s, Originate(targets))
    ensures Neighbourly(cfg, Step(cfg, s, Originate(targets)))
  {
    var s' := Step(cfg, s, Originate(targets));
    forall l | l in LinksOf(cfg.links, cfg.origin) ensures Coming(s', Other(l, cfg.origin)) {
      var j :| 0 <= j < |targets| && targets[j] == l;
      assert s'.inFlight[|s.inFlight| + j].to == Other(l, cfg.origin);
    }
  }

  lemma DeliverNeighbourly(cfg: Config, s: Net, index: nat, targets: seq<Link>)
    requires Neighbourly(cfg, s) && Enabled(cfg, s, Deliver(index, targets))
    ensures Neighbourly(cfg, Step(cfg, s, Deliver(index, targets)))
  {
    var c := s.inFlight[index];
    var s' := Step(cfg, s, Deliver(index, targets));
    var more := if c.to !in s.seen && PassesOn(cfg, c) then CopiesOn(targets, c.to, c.ttl - 1, c.trail) else [];
    assert s'.inFlight == RemoveAt(s.inFlight, index) + more;
    hide LinksOf;
    forall l | s'.started && l in LinksOf(cfg.links, cfg.origin)
      ensures Reached(cfg, s', Other(l, cfg.origin)) || Coming(s', Other(l, cfg.origin))
    {
      if Coming(s, Other(l, cfg.origin)) { StillComing(s, index, more, s', Other(l, cfg.origin)); }
    }
  }

  lemma {:induction false} RunNeighbourly(cfg: Config, actions: seq<Action>)
    requires Legal(cfg, IDLE, actions) && FullRun(cfg, actions)
    ensures Neighbourly(cfg, Run(cfg, IDLE, actions))
    decreases |actions|
  {
    if actions != [] {
      var n := |actions| - 1;
      RunNeighbourly(cfg, actions[..n]);
      hide Neighbourly, Step;
      match actions[n]
      case Originate(targets) => OriginateNeighbourly(cfg, Run(cfg, IDLE, actions[..n]), targets);
      case Deliver(index, targets) => DeliverNeighbourly(cfg, Run(cfg, IDLE, actions[..n]), index, targets);
    }
  }

  lemma LinkTo(cfg: Config, m: Node) returns (l: Link)
    requires m in Ball(cfg.links, cfg.origin, 1) && m != cfg.origin
    ensures l in LinksOf(cfg.links, cfg.origin) && Other(l, cfg.origin) == m
  {
    assert Ball(cfg.links, cfg.origin, 0) == {cfg.origin};
    l :| l in cfg.links && ((l.a == cfg.origin && l.b == m) || (l.b == cfg.origin && l.a == m));
  }

  /** With a TTL of zero only neighbours are within it, and nothing overtakes. */
  lemma ZeroTtlWithin(n: nat)
    ensures AlwaysWithinTtl(n, 0)
  {
    hide Run, Legal, FullRun, Nodes;
    forall cfg, actions | |Nodes(cfg)| == n && cfg.ttl0 == 0 && Settled(cfg, actions)
      ensures WithinTtl(cfg, actions)
    {
      RunNeighbourly(cfg, actions);
      forall m | m in Ball(cfg.links, cfg.origin, 1) ensures Reached(cfg, Run(cfg, IDLE, actions), m) {
        if m != cfg.origin { var l := LinkTo(cfg, m); }
      }
    }
  }

  const L01 := Link(0, 0, 1)
  const L02 := Link(1, 0, 2)
  const L12 := Link(2, 1, 2)

  /** Links from 2 along a chain up to `last`. */
  function ChainLinks(last: nat): (links: set<Link>)
    ensures forall l :: l in links <==> l.id == l.b && l.b == l.a + 1 && l.a >= 2 && l.b <= last
  {
    if last < 3 then {} else ChainLinks(last - 1) + {Link(last, last - 1, last)}
  }

  /** Links from 0 to every node from `first` up to n. */
  function LeafLinks(first: nat, n: nat): (links: set<Link>)
    ensures forall l :: l in links <==> l.id == l.b && l.a == 0 && first <= l.b < n
    decreases n
  {
    if n <= first then {} else LeafLinks(first, n - 1) + {Link(n - 1, 0, n - 1)}
  }

  /** A triangle 0, 1, 2, a chain from 2 to ttl0 + 2, and leaves on 0 to make up n nodes. The chain's end
      is ttl0 + 1 hops from the originator, through 2. */
  function Kite(n: nat, ttl0: nat): Config {
    Config({L01, L02, L12} + ChainLinks(ttl0 + 2) + LeafLinks(ttl0 + 3, n), 0, ttl0)
  }

  /** The link by which a node other than the originator joins the kite. */
  function KiteLink(ttl0: nat, i: Node): (l: Link)
    requires i > 0
    ensures l.b == i
  {
    if i == 1 then L01 else if i == 2 then L02 else if i <= ttl0 + 2 then Link(i, i - 1, i) else Link(i, 0, i)
  }

  lemma KiteJoins(n: nat, ttl0: nat, i: Node)
    requires 0 < i < n
    ensures KiteLink(ttl0, i) in Kite(n, ttl0).links
  {}

  lemma KiteWithin(n: nat, ttl0: nat, l: Link)
    requires n >= ttl0 + 3 && l in Kite(n, ttl0).links
    ensures l.a < n && l.b < n
  {}

  lemma KiteNodes(n: nat, ttl0: nat)
    requires n >= ttl0 + 3
    ensures Nodes(Kite(n, ttl0)) == UpTo(n)
  {
    var cfg := Kite(n, ttl0);
    assert cfg.origin == 0;
    hide Kite, KiteLink;
    forall i: nat | i < n ensures i in Nodes(cfg) {
      if i > 0 {
        KiteJoins(n, ttl0, i);
        EndsIn(cfg, KiteLink(ttl0, i));
      }
    }
    forall m | m in Nodes(cfg) ensures m in UpTo(n) {
      if m != 0 {
        var l :| l in cfg.links && (l.a == m || l.b == m);
        KiteWithin(n, ttl0, l);
      }
    }
  }

  lemma EndsIn(cfg: Config, l: Link)
    requires l in cfg.links
    ensures l.a in Nodes(cfg) && l.b in Nodes(cfg)
  {}

  lemma KiteStep(n: nat, ttl0: nat, m: nat)
    requires 3 <= m <= ttl0 + 2
    ensures var l := Link(m, m - 1, m); l in Kite(n, ttl0).links && AtNode(l, m - 1) && Other(l, m - 1) == m
  {}

  lemma KiteStart(n: nat, ttl0: nat)
    ensures 0 in Ball(Kite(n, ttl0).links, 0, 0) && L02 in Kite(n, ttl0).links && AtNode(L02, 0) && Other(L02, 0) == 2
  {}

  lemma {:induction false} KiteBall(n: nat, ttl0: nat, m: nat)
    requires 2 <= m <= ttl0 + 2
    ensures m in Ball(Kite(n, ttl0).links, 0, m - 1)
  {
    hide *;
    if m == 2 {
      KiteStart(n, ttl0);
      BallGrows(Kite(n, ttl0).links, 0, 0, L02, 0);
    } else {
      KiteBall(n, ttl0, m - 1);
      KiteStep(n, ttl0, m);
      BallGrows(Kite(n, ttl0).links, 0, m - 2, Link(m, m - 1, m), m - 1);
    }
  }

  /** Node 2 has the message with too little TTL left: every copy along the chain has gone a hop further
      than its place, and the end of the chain is out of reach. */
  ghost predicate TooLate(cfg: Config, s: Net) {
    && s.started && 2 in s.seen && cfg.ttl0 + 2 !in s.seen
    && forall i :: 0 <= i < |s.inFlight| ==> Slow(cfg.ttl0, s.inFlight[i])
  }

  /** The chain's nodes have no links but along the chain. */
  lemma AlongChain(n: nat, ttl0: nat, l: Link, x: Node)
    requires l in Kite(n, ttl0).links && AtNode(l, x) && 3 <= Other(l, x) <= ttl0 + 2
    ensures x >= 2 && x + 1 >= Other(l, x)
  {}

  /** A copy is not ahead of its hops. */
  predicate Slow(ttl0: nat, c: Copy) { 3 <= c.to <= ttl0 + 2 ==> |c.trail| >= c.to }

  lemma ForwardSlow(n: nat, ttl0: nat, c: Copy, targets: seq<Link>)
    requires Slow(ttl0, c) && c.to != 2
    requires forall l :: l in targets ==> l in LinksOf(Kite(n, ttl0).links, c.to)
    ensures var more := CopiesOn(targets, c.to, c.ttl - 1, c.trail);
            forall i :: 0 <= i < |more| ==> Slow(ttl0, more[i])
  {
    var more := CopiesOn(targets, c.to, c.ttl - 1, c.trail);
    forall i | 0 <= i < |more| ensures Slow(ttl0, more[i]) {
      assert targets[i] in targets;
      if 3 <= more[i].to <= ttl0 + 2 {
        AlongChain(n, ttl0, targets[i], c.to);
        if c.to > ttl0 + 2 { BeyondChain(n, ttl0, targets[i], c.to); }
      }
    }
  }

  lemma BeyondChain(n: nat, ttl0: nat, l: Link, x: Node)
    requires l in Kite(n, ttl0).links && AtNode(l, x) && x > ttl0 + 2
    ensures Other(l, x) == 0
  {}

  lemma RestSlow(ttl0: nat, copies: seq<Copy>, index: nat, more: seq<Copy>)
    requires index < |copies|
    requires forall i :: 0 <= i < |copies| ==> Slow(ttl0, copies[i])
    requires forall i :: 0 <= i < |more| ==> Slow(ttl0, more[i])
    ensures forall i :: 0 <= i < |RemoveAt(copies, index) + more| ==> Slow(ttl0, (RemoveAt(copies, index) + more)[i])
  {
    hide Slow;
    var rest := RemoveAt(copies, index);
    forall i | 0 <= i < |rest + more| ensures Slow(ttl0, (rest + more)[i]) {
      if i < |rest| {
        assert (rest + more)[i] == copies[if i < index then i else i + 1];
      } else {
        assert (rest + more)[i] == more[i - |rest|];
      }
    }
  }

  lemma LateDeliver(n: nat, ttl0: nat, s: Net, index: nat, targets: seq<Link>)
    requires ttl0 >= 1 && TooLate(Kite(n, ttl0), s) && CopiesOk(Kite(n, ttl0), s.inFlight)
    requires Enabled(Kite(n, ttl0), s, Deliver(index, targets))
    ensures TooLate(Kite(n, ttl0), Step(Kite(n, ttl0), s, Deliver(index, targets)))
  {
    var cfg := Kite(n, ttl0);
    KiteShape(n, ttl0);
    hide Kite, LinksOf;
    var c := s.inFlight[index];
    var passes := c.to !in s.seen && PassesOn(cfg, c);
    var more := if passes then CopiesOn(targets, c.to, c.ttl - 1, c.trail) else [];
    assert RemoveAt(s.inFlight, index) + [] == RemoveAt(s.inFlight, index);
    assert Slow(ttl0, c);
    if passes { ForwardSlow(n, ttl0, c, targets); }
    RestSlow(ttl0, s.inFlight, index, more);
    NotAtEnd(cfg, c);
    hide CopiesOk;
  }

  lemma NotAtEnd(cfg: Config, c: Copy)
    requires CopyOk(cfg, c) && Slow(cfg.ttl0, c) && cfg.ttl0 >= 1
    ensures c.to != cfg.ttl0 + 2
  {}

  lemma {:induction false} StaysTooLate(n: nat, ttl0: nat, before: seq<Action>, actions: seq<Action>)
    requires ttl0 >= 1 && before <= actions
    requires Legal(Kite(n, ttl0), IDLE, actions) && FullRun(Kite(n, ttl0), actions)
    requires Legal(Kite(n, ttl0), IDLE, before) && TooLate(Kite(n, ttl0), Run(Kite(n, ttl0), IDLE, before))
    ensures TooLate(Kite(n, ttl0), Run(Kite(n, ttl0), IDLE, actions))
    decreases |actions|
  {
    var cfg := Kite(n, ttl0);
    hide Kite, Step;
    if |actions| == |before| {
      assert actions == before;
    } else {
      var m := |actions| - 1;
      StaysTooLate(n, ttl0, before, actions[..m]);
      FullRemembers(cfg, actions[..m]);
      RunKeepsInv(cfg, actions[..m]);
      var s := Run(cfg, IDLE, actions[..m]);
      match actions[m]
      case Originate(_) => assert false;
      case Deliver(index, targets) => LateDeliver(n, ttl0, s, index, targets);
      case Lose(_) => assert false;
      case Forget(_) => assert false;
    }
  }

  lemma Extend(cfg: Config, actions: seq<Action>, a: Action)
    requires Legal(cfg, IDLE, actions) && FullRun(cfg, actions)
    requires Enabled(cfg, Run(cfg, IDLE, actions), a) && Full(cfg, Run(cfg, IDLE, actions), a)
    ensures Legal(cfg, IDLE, actions + [a]) && FullRun(cfg, actions + [a])
    ensures Run(cfg, IDLE, actions + [a]) == Step(cfg, Run(cfg, IDLE, actions), a)
  {
    assert (actions + [a])[..|actions|] == actions;
  }

  /** One full delivery more. */
  lemma DeliverNext(cfg: Config, actions: seq<Action>, index: nat) returns (longer: seq<Action>, targets: seq<Link>)
    requires Legal(cfg, IDLE, actions) && FullRun(cfg, actions) && index < |Run(cfg, IDLE, actions).inFlight|
    ensures Legal(cfg, IDLE, longer) && FullRun(cfg, longer)
    ensures var s := Run(cfg, IDLE, actions);
            && Enabled(cfg, s, Deliver(index, targets))
            && Run(cfg, IDLE, longer) == Step(cfg, s, Deliver(index, targets))
            && forall l :: l in targets <==>
                 l in LinksOf(cfg.links, s.inFlight[index].to) && l != s.inFlight[index].link
  {
    hide Run, Legal, FullRun, Step, LinksOf;
    var c := Run(cfg, IDLE, actions).inFlight[index];
    targets := Listed(LinksOf(cfg.links, c.to) - {c.link});
    Extend(cfg, actions, Deliver(index, targets));
    longer := actions + [Deliver(index, targets)];
  }

  predicate FirstHop(cfg: Config, c: Copy) {
    && |c.trail| == 1 && c.ttl == cfg.ttl0
    && c.link in cfg.links && AtNode(c.link, cfg.origin) && c.to == Other(c.link, cfg.origin)
  }

  /** All of the originator's copies are out, each one hop along its link. */
  ghost predicate JustOriginated(cfg: Config, s: Net) {
    && s.started && s.seen == {}
    && (forall i :: 0 <= i < |s.inFlight| ==> FirstHop(cfg, s.inFlight[i]))
    && forall l :: l in LinksOf(cfg.links, cfg.origin) ==> exists i :: 0 <= i < |s.inFlight| && s.inFlight[i].link == l
  }

  lemma Originated(cfg: Config) returns (actions: seq<Action>)
    ensures Legal(cfg, IDLE, actions) && FullRun(cfg, actions) && JustOriginated(cfg, Run(cfg, IDLE, actions))
  {
    var targets := Listed(LinksOf(cfg.links, cfg.origin));
    Extend(cfg, [], Originate(targets));
    actions := [] + [Originate(targets)];
    var s := Run(cfg, IDLE, actions);
    hide Run, Legal, FullRun;
    forall i | 0 <= i < |s.inFlight| ensures FirstHop(cfg, s.inFlight[i]) {
      assert targets[i] in targets;
    }
    forall l | l in LinksOf(cfg.links, cfg.origin)
      ensures exists i :: 0 <= i < |s.inFlight| && s.inFlight[i].link == l
    {
      var i :| 0 <= i < |targets| && targets[i] == l;
      assert s.inFlight[i].link == l;
    }
  }

  /** Node 1 has the message and has passed it on to node 2; nothing is under way along the chain. */
  ghost predicate FirstServed(cfg: Config, s: Net) {
    && s.started && s.seen == {1}
    && (forall i :: 0 <= i < |s.inFlight| ==> s.inFlight[i].to < 3 || s.inFlight[i].to > cfg.ttl0 + 2)
    && exists i :: 0 <= i < |s.inFlight| && s.inFlight[i] == Copy(L12, 2, cfg.ttl0 - 1, s.inFlight[i].trail)
         && |s.inFlight[i].trail| == 2
  }

  lemma ServeFirst(n: nat, ttl0: nat) returns (actions: seq<Action>)
    requires ttl0 >= 1
    ensures Legal(Kite(n, ttl0), IDLE, actions) && FullRun(Kite(n, ttl0), actions)
    ensures FirstServed(Kite(n, ttl0), Run(Kite(n, ttl0), IDLE, actions))
  {
    var cfg := Kite(n, ttl0);
    var before := Originated(cfg);
    var s := Run(cfg, IDLE, before);
    hide Run, Legal, FullRun;
    assert L01 in LinksOf(cfg.links, 0);
    var i :| 0 <= i < |s.inFlight| && s.inFlight[i].link == L01;
    var targets;
    actions, targets := DeliverNext(cfg, before, i);
    FirstStep(n, ttl0, s, i, targets);
  }

  lemma FirstStep(n: nat, ttl0: nat, s: Net, i: nat, targets: seq<Link>)
    requires ttl0 >= 1 && JustOriginated(Kite(n, ttl0), s) && i < |s.inFlight| && s.inFlight[i].link == L01
    requires Enabled(Kite(n, ttl0), s, Deliver(i, targets))
    requires forall l :: l in targets <==> l in LinksOf(Kite(n, ttl0).links, 1) && l != L01
    ensures FirstServed(Kite(n, ttl0), Step(Kite(n, ttl0), s, Deliver(i, targets)))
  {
    var cfg := Kite(n, ttl0);
    var c := s.inFlight[i];
    var s' := Step(cfg, s, Deliver(i, targets));
    assert c.to == 1 && c.ttl == ttl0 && PassesOn(cfg, c);
    assert targets != [] && (forall l :: l in targets ==> l == L12) by {
      assert L12 in targets;
    }
    var more := CopiesOn(targets, 1, ttl0 - 1, c.trail);
    var j: nat := |s.inFlight| - 1;
    assert targets[0] in targets;
    assert s'.inFlight == RemoveAt(s.inFlight, i) + more && s'.inFlight[j] == more[0];
    forall k | 0 <= k < |s'.inFlight| ensures s'.inFlight[k].to < 3 || s'.inFlight[k].to > ttl0 + 2 {
      if k < j {
        var d := s.inFlight[if k < i then k else k + 1];
        assert s'.inFlight[k] == d && d.link in cfg.links;
      } else {
        assert s'.inFlight[k] == more[k - j] && targets[k - j] in targets;
      }
    }
  }

  lemma ServeSecond(n: nat, ttl0: nat) returns (actions: seq<Action>)
    requires ttl0 >= 1
    ensures Legal(Kite(n, ttl0), IDLE, actions) && FullRun(Kite(n, ttl0), actions)
    ensures TooLate(Kite(n, ttl0), Run(Kite(n, ttl0), IDLE, actions))
  {
    var cfg := Kite(n, ttl0);
    var before := ServeFirst(n, ttl0);
    var s := Run(cfg, IDLE, before);
    hide Run, Legal, FullRun;
    var i :| 0 <= i < |s.inFlight| && s.inFlight[i] == Copy(L12, 2, ttl0 - 1, s.inFlight[i].trail)
             && |s.inFlight[i].trail| == 2;
    var targets;
    actions, targets := DeliverNext(cfg, before, i);
    SecondStep(n, ttl0, s, i, targets);
  }

  lemma SecondStep(n: nat, ttl0: nat, s: Net, i: nat, targets: seq<Link>)
    requires ttl0 >= 1 && FirstServed(Kite(n, ttl0), s) && i < |s.inFlight|
    requires s.inFlight[i] == Copy(L12, 2, ttl0 - 1, s.inFlight[i].trail) && |s.inFlight[i].trail| == 2
    requires Enabled(Kite(n, ttl0), s, Deliver(i, targets))
    ensures TooLate(Kite(n, ttl0), Step(Kite(n, ttl0), s, Deliver(i, targets)))
  {
    var cfg := Kite(n, ttl0);
    var c := s.inFlight[i];
    var s' := Step(cfg, s, Deliver(i, targets));
    var more := if PassesOn(cfg, c) then CopiesOn(targets, 2, ttl0 - 2, c.trail) else [];
    assert s'.inFlight == RemoveAt(s.inFlight, i) + more;
    forall k | 0 <= k < |more| ensures Slow(ttl0, more[k]) {
      assert targets[k] in targets;
      if 3 <= more[k].to <= ttl0 + 2 { AlongChain(n, ttl0, targets[k], 2); }
    }
    RestSlow(ttl0, s.inFlight, i, more);
  }

  /** The direct copy to node 2 is overtaken by the one through node 1: the flood settles without reaching
      the end of the chain, although that lies within the TTL and nothing was lost or forgotten. */
  lemma OvertakenFlood(n: nat, ttl0: nat) returns (actions: seq<Action>)
    requires ttl0 >= 1 && n >= ttl0 + 3
    ensures Settled(Kite(n, ttl0), actions) && !Reached(Kite(n, ttl0), Run(Kite(n, ttl0), IDLE, actions), ttl0 + 2)
    ensures ttl0 + 2 in Ball(Kite(n, ttl0).links, 0, ttl0 + 1) && |Nodes(Kite(n, ttl0))| == n
  {
    var cfg := Kite(n, ttl0);
    KiteNodes(n, ttl0);
    KiteBall(n, ttl0, ttl0 + 2);
    var before := ServeSecond(n, ttl0);
    hide Run, Legal, FullRun, Nodes, Ball, UpTo;
    actions := SettlesFrom(cfg, before);
    SettledLegal(cfg, actions);
    StaysTooLate(n, ttl0, before, actions);
  }

  /** Every node within the TTL is always reached exactly when the TTL is zero or at least n - 2. */
  lemma WithinTtlExact(n: nat, ttl0: nat)
    ensures AlwaysWithinTtl(n, ttl0) <==> ttl0 == 0 || ttl0 + 2 >= n
  {
    hide Kite, Ball, Nodes, Run, Legal, FullRun, Settled;
    if ttl0 == 0 {
      ZeroTtlWithin(n);
    } else if ttl0 + 2 >= n {
      LongTtlWithin(n, ttl0);
    } else {
      var actions := OvertakenFlood(n, ttl0);
      KiteShape(n, ttl0);
      SettledLegal(Kite(n, ttl0), actions);
    }
  }

  lemma KiteShape(n: nat, ttl0: nat)
    ensures Kite(n, ttl0).ttl0 == ttl0 && Kite(n, ttl0).origin == 0
  {}

  /** The smallest case: four nodes and a TTL of one. */
  lemma OvertakenFloodMissesNode()
    ensures exists actions :: Legal(Kite(4, 1), IDLE, actions) && FullRun(Kite(4, 1), actions)
              && Run(Kite(4, 1), IDLE, actions).started && Run(Kite(4, 1), IDLE, actions).inFlight == []
              && 3 in Ball(Kite(4, 1).links, Kite(4, 1).origin, Kite(4, 1).ttl0 + 1)
              && 3 !in Run(Kite(4, 1), IDLE, actions).seen
  {
    hide Kite, Ball, Nodes, Run, Legal, FullRun;
    var actions := OvertakenFlood(4, 1);
    KiteShape(4, 1);
  }
}

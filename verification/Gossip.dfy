/** TTL flooding of one message over a network of connections, with a seen-cache at every node. */
module Gossip {
  type Node = nat

  /** One connection; two nodes may share several. */
  datatype Link = Link(id: nat, a: Node, b: Node)

  predicate AtNode(l: Link, n: Node) { l.a == n || l.b == n }

  function Other(l: Link, n: Node): Node { if l.a == n then l.b else l.a }

  function LinksOf(links: set<Link>, n: Node): set<Link> { set l | l in links && AtNode(l, n) }

  /** The network, the message's originator and the TTL it starts with. */
  datatype Config = Config(links: set<Link>, origin: Node, ttl0: nat)

  /** A copy in flight: the connection it travels, its receiver, its TTL, and the nodes that sent it on. */
  datatype Copy = Copy(link: Link, to: Node, ttl: int, trail: seq<Node>)

  /** A message handled by a node, and how far it had travelled. */
  datatype Handled = Handled(node: Node, ttl: int, hops: nat)

  /** A copy handed to a connection. */
  datatype Send = Send(link: Link, from: Node, ttl: int)

  /** `seen` is the set of nodes whose cache holds the message. */
  datatype Net = Net(started: bool, seen: set<Node>, inFlight: seq<Copy>, handled: seq<Handled>, sent: seq<Send>)

  const IDLE := Net(false, {}, [], [], [])

  /** `targets` are the connections healthy at that moment. Lost sends and forgotten cache entries
      are actions of their own. */
  datatype Action =
    | Originate(targets: seq<Link>)
    | Deliver(index: nat, targets: seq<Link>)
    | Lose(index: nat)
    | Forget(node: Node)

  ghost predicate Distinct<T>(s: seq<T>) { forall i, j :: 0 <= i < j < |s| ==> s[i] != s[j] }

  /** sendToPeers uses any connection of the node; forwardMessage leaves out the sender's. */
  ghost predicate Enabled(cfg: Config, s: Net, a: Action) {
    match a
    case Originate(targets) =>
      !s.started && Distinct(targets) && forall l :: l in targets ==> l in LinksOf(cfg.links, cfg.origin)
    case Deliver(index, targets) =>
      index < |s.inFlight| && Distinct(targets)
      && forall l :: l in targets ==>
           l in LinksOf(cfg.links, s.inFlight[index].to) && l != s.inFlight[index].link
    case Lose(index) => index < |s.inFlight|
    case Forget(_) => true
  }

  function RemoveAt<T>(s: seq<T>, i: nat): seq<T>
    requires i < |s|
  {
    s[..i] + s[i + 1..]
  }

  function CopiesOn(targets: seq<Link>, from: Node, ttl: int, trail: seq<Node>): (copies: seq<Copy>)
    ensures |copies| == |targets|
    ensures forall i :: 0 <= i < |targets| ==>
              copies[i] == Copy(targets[i], Other(targets[i], from), ttl, trail + [from])
  {
    seq(|targets|, i requires 0 <= i < |targets| => Copy(targets[i], Other(targets[i], from), ttl, trail + [from]))
  }

  function SendsOn(targets: seq<Link>, from: Node, ttl: int): (sends: seq<Send>)
    ensures |sends| == |targets|
    ensures forall i :: 0 <= i < |targets| ==> sends[i] == Send(targets[i], from, ttl)
  {
    seq(|targets|, i requires 0 <= i < |targets| => Send(targets[i], from, ttl))
  }

  /** Whether a node that has not seen the message passes it on. */
  predicate PassesOn(cfg: Config, c: Copy) { c.ttl > 0 && c.to != cfg.origin }

  function Step(cfg: Config, s: Net, a: Action): Net
    requires Enabled(cfg, s, a)
  {
    match a
    case Originate(targets) =>
      s.(started := true, inFlight := s.inFlight + CopiesOn(targets, cfg.origin, cfg.ttl0, []),
         sent := s.sent + SendsOn(targets, cfg.origin, cfg.ttl0))
    case Deliver(index, targets) =>
      var c := s.inFlight[index];
      var rest := RemoveAt(s.inFlight, index);
      if c.to in s.seen then s.(inFlight := rest)
      else
        var marked := s.(seen := s.seen + {c.to}, handled := s.handled + [Handled(c.to, c.ttl, |c.trail|)]);
        if PassesOn(cfg, c)
        then marked.(inFlight := rest + CopiesOn(targets, c.to, c.ttl - 1, c.trail),
                     sent := s.sent + SendsOn(targets, c.to, c.ttl - 1))
        else marked.(inFlight := rest)
    case Lose(index) => s.(inFlight := RemoveAt(s.inFlight, index))
    case Forget(n) => s.(seen := s.seen - {n})
  }

  ghost predicate Legal(cfg: Config, s: Net, actions: seq<Action>)
    decreases |actions|, 0
  {
    actions == [] ||
    (Legal(cfg, s, actions[..|actions| - 1])
     && Enabled(cfg, Run(cfg, s, actions[..|actions| - 1]), actions[|actions| - 1]))
  }

  ghost function Run(cfg: Config, s: Net, actions: seq<Action>): Net
    requires Legal(cfg, s, actions)
    decreases |actions|, 1
  {
    if actions == [] then s
    else Step(cfg, Run(cfg, s, actions[..|actions| - 1]), actions[|actions| - 1])
  }

  ghost predicate Remembering(actions: seq<Action>) { forall i :: 0 <= i < |actions| ==> !actions[i].Forget? }

  // ---------- safety with a perfect cache ----------

  /** Nodes within k hops. */
  function Ball(links: set<Link>, origin: Node, k: nat): set<Node> {
    if k == 0 then {origin}
    else
      var inner := Ball(links, origin, k - 1);
      inner + (set l | l in links && l.a in inner :: l.b) + (set l | l in links && l.b in inner :: l.a)
  }

  lemma BallGrows(links: set<Link>, origin: Node, k: nat, l: Link, n: Node)
    requires n in Ball(links, origin, k) && l in links && AtNode(l, n)
    ensures Other(l, n) in Ball(links, origin, k + 1)
  {}

  /** A copy's TTL and hops balance, and it is where its hops could have brought it. */
  ghost predicate CopyOk(cfg: Config, c: Copy) {
    && c.link in cfg.links && AtNode(c.link, c.to)
    && |c.trail| >= 1 && c.ttl >= 0 && c.ttl + |c.trail| == cfg.ttl0 + 1
    && c.to in Ball(cfg.links, cfg.origin, |c.trail|)
  }

  ghost predicate CopiesOk(cfg: Config, copies: seq<Copy>) {
    forall i :: 0 <= i < |copies| ==> CopyOk(cfg, copies[i])
  }

  ghost predicate HandledOk(cfg: Config, seen: set<Node>, handled: seq<Handled>) {
    && (forall i :: 0 <= i < |handled| ==>
          && handled[i].node in seen && handled[i].ttl >= 0 && 1 <= handled[i].hops
          && handled[i].ttl + handled[i].hops == cfg.ttl0 + 1
          && handled[i].node in Ball(cfg.links, cfg.origin, handled[i].hops))
    && (forall i, j :: 0 <= i < j < |handled| ==> handled[i].node != handled[j].node)
  }

  ghost predicate SentOk(cfg: Config, s: Net) {
    && (forall i :: 0 <= i < |s.sent| ==>
          && s.sent[i].link in cfg.links && AtNode(s.sent[i].link, s.sent[i].from)
          && (if s.sent[i].from == cfg.origin then s.started && s.sent[i].ttl == cfg.ttl0
              else s.sent[i].from in s.seen && s.sent[i].ttl < cfg.ttl0))
    && (forall i, j :: 0 <= i < j < |s.sent| ==>
          s.sent[i].link != s.sent[j].link || s.sent[i].from != s.sent[j].from)
  }

  ghost predicate Inv(cfg: Config, s: Net) {
    CopiesOk(cfg, s.inFlight) && HandledOk(cfg, s.seen, s.handled) && SentOk(cfg, s)
  }

  lemma NewCopiesOk(cfg: Config, targets: seq<Link>, from: Node, ttl: int, trail: seq<Node>)
    requires forall l :: l in targets ==> l in LinksOf(cfg.links, from)
    requires ttl >= 0 && ttl + |trail| == cfg.ttl0 && from in Ball(cfg.links, cfg.origin, |trail|)
    ensures CopiesOk(cfg, CopiesOn(targets, from, ttl, trail))
  {
    var copies := CopiesOn(targets, from, ttl, trail);
    forall i | 0 <= i < |copies| ensures CopyOk(cfg, copies[i]) {
      assert targets[i] in targets;
      BallGrows(cfg.links, cfg.origin, |trail|, targets[i], from);
    }
  }

  lemma NewSendsOk(cfg: Config, s: Net, s': Net, targets: seq<Link>, from: Node, ttl: int)
    requires SentOk(cfg, s) && Distinct(targets) && forall l :: l in targets ==> l in LinksOf(cfg.links, from)
    requires s.seen <= s'.seen && (s.started ==> s'.started)
    requires if from == cfg.origin then !s.started && s'.started && ttl == cfg.ttl0
             else from !in s.seen && from in s'.seen && ttl < cfg.ttl0
    requires s'.sent == s.sent + SendsOn(targets, from, ttl)
    ensures SentOk(cfg, s')
  {
    var n := |s.sent|;
    forall i | 0 <= i < |s'.sent|
      ensures s'.sent[i].link in cfg.links && AtNode(s'.sent[i].link, s'.sent[i].from)
      ensures if s'.sent[i].from == cfg.origin then s'.started && s'.sent[i].ttl == cfg.ttl0
              else s'.sent[i].from in s'.seen && s'.sent[i].ttl < cfg.ttl0
    {
      if i < n { assert s'.sent[i] == s.sent[i]; } else { assert targets[i - n] in targets; }
    }
    forall i, j | 0 <= i < j < |s'.sent|
      ensures s'.sent[i].link != s'.sent[j].link || s'.sent[i].from != s'.sent[j].from
    {
      if i < n { assert s'.sent[i] == s.sent[i]; }
      if j < n { assert s'.sent[j] == s.sent[j]; }
    }
  }

  lemma RestOk(cfg: Config, copies: seq<Copy>, index: nat, more: seq<Copy>)
    requires CopiesOk(cfg, copies) && CopiesOk(cfg, more) && index < |copies|
    ensures CopiesOk(cfg, RemoveAt(copies, index) + more) && CopyOk(cfg, copies[index])
  {}

  lemma DeliverKeepsInv(cfg: Config, s: Net, index: nat, targets: seq<Link>)
    requires Inv(cfg, s) && Enabled(cfg, s, Deliver(index, targets))
    ensures Inv(cfg, Step(cfg, s, Deliver(index, targets)))
  {
    hide CopyOk, Ball, LinksOf;
    var c := s.inFlight[index];
    var s' := Step(cfg, s, Deliver(index, targets));
    RestOk(cfg, s.inFlight, index, []);
    assert RemoveAt(s.inFlight, index) + [] == RemoveAt(s.inFlight, index);
    if c.to !in s.seen {
      HandledNext(cfg, s, c);
      if PassesOn(cfg, c) {
        ForwardOk(cfg, s, c, targets);
        RestOk(cfg, s.inFlight, index, CopiesOn(targets, c.to, c.ttl - 1, c.trail));
        hide SentOk;
        SentNext(cfg, s, s', c, targets);
      }
    }
  }

  lemma HandledNext(cfg: Config, s: Net, c: Copy)
    requires HandledOk(cfg, s.seen, s.handled) && CopyOk(cfg, c) && c.to !in s.seen
    ensures HandledOk(cfg, s.seen + {c.to}, s.handled + [Handled(c.to, c.ttl, |c.trail|)])
  {}

  lemma ForwardOk(cfg: Config, s: Net, c: Copy, targets: seq<Link>)
    requires CopyOk(cfg, c) && PassesOn(cfg, c) && forall l :: l in targets ==> l in LinksOf(cfg.links, c.to)
    ensures CopiesOk(cfg, CopiesOn(targets, c.to, c.ttl - 1, c.trail))
  {
    NewCopiesOk(cfg, targets, c.to, c.ttl - 1, c.trail);
  }

  lemma SentNext(cfg: Config, s: Net, s': Net, c: Copy, targets: seq<Link>)
    requires SentOk(cfg, s) && CopyOk(cfg, c) && PassesOn(cfg, c) && c.to !in s.seen
    requires Distinct(targets) && forall l :: l in targets ==> l in LinksOf(cfg.links, c.to)
    requires s'.seen == s.seen + {c.to} && s'.started == s.started
    requires s'.sent == s.sent + SendsOn(targets, c.to, c.ttl - 1)
    ensures SentOk(cfg, s')
  {
    NewSendsOk(cfg, s, s', targets, c.to, c.ttl - 1);
  }

  lemma StepKeepsInv(cfg: Config, s: Net, a: Action)
    requires Inv(cfg, s) && Enabled(cfg, s, a) && !a.Forget?
    ensures Inv(cfg, Step(cfg, s, a))
  {
    match a
    case Originate(targets) =>
      NewCopiesOk(cfg, targets, cfg.origin, cfg.ttl0, []);
      NewSendsOk(cfg, s, Step(cfg, s, a), targets, cfg.origin, cfg.ttl0);
    case Deliver(index, targets) =>
      DeliverKeepsInv(cfg, s, index, targets);
    case Lose(index) =>
      RestOk(cfg, s.inFlight, index, []);
      assert RemoveAt(s.inFlight, index) + [] == RemoveAt(s.inFlight, index);
  }

  lemma {:induction false} RunKeepsInv(cfg: Config, actions: seq<Action>)
    requires Legal(cfg, IDLE, actions) && Remembering(actions)
    ensures Inv(cfg, Run(cfg, IDLE, actions))
    decreases |actions|
  {
    hide Inv;
    if actions == [] {
      IdleInv(cfg);
    } else {
      var n := |actions| - 1;
      RunKeepsInv(cfg, actions[..n]);
      StepKeepsInv(cfg, Run(cfg, IDLE, actions[..n]), actions[n]);
    }
  }

  lemma IdleInv(cfg: Config)
    ensures Inv(cfg, IDLE)
  {}

  /** Gossip safety: over every interleaving, with sends lost at will and a cache that keeps its
      entries, no node handles the message twice; TTL and hops always balance; a handling node lies
      within TTL0 + 1 hops; and whatever the originator sent carried the full TTL, so it never
      forwarded its own message. */
  lemma GossipSafety(cfg: Config, actions: seq<Action>)
    requires Legal(cfg, IDLE, actions) && Remembering(actions)
    ensures var s := Run(cfg, IDLE, actions);
            && (forall i, j :: 0 <= i < j < |s.handled| ==> s.handled[i].node != s.handled[j].node)
            && (forall i :: 0 <= i < |s.handled| ==>
                  s.handled[i].hops <= cfg.ttl0 + 1
                  && s.handled[i].node in Ball(cfg.links, cfg.origin, s.handled[i].hops))
            && (forall i :: 0 <= i < |s.inFlight| ==> s.inFlight[i].ttl + |s.inFlight[i].trail| == cfg.ttl0 + 1)
            && (forall i :: 0 <= i < |s.sent| ==> (s.sent[i].from == cfg.origin <==> s.sent[i].ttl == cfg.ttl0))
  {
    RunKeepsInv(cfg, actions);
    hide Run, Ball;
  }

  // ---------- how much is sent ----------

  lemma {:induction false} DistinctBound<T>(s: seq<T>, bound: set<T>)
    requires Distinct(s) && forall x :: x in s ==> x in bound
    ensures |s| <= |bound|
    decreases |s|
  {
    if s != [] {
      var n := |s| - 1;
      assert forall x :: x in s[..n] ==> x in s;
      assert forall i :: 0 <= i < n ==> s[..n][i] != s[n];
      DistinctBound(s[..n], bound - {s[n]});
    }
  }

  /** Both directions of every connection. */
  function Directions(links: set<Link>): set<(Link, Node)> {
    (set l | l in links :: (l, l.a)) + (set l | l in links :: (l, l.b))
  }

  lemma {:induction false} DirectionCount(links: set<Link>)
    ensures |Directions(links)| <= 2 * |links|
    decreases links
  {
    if links != {} {
      var l :| l in links;
      DirectionCount(links - {l});
      AddedDirections(links, l);
      hide Directions;
    }
  }

  lemma AddedDirections(links: set<Link>, l: Link)
    requires l in links
    ensures |Directions(links)| <= |Directions(links - {l})| + 2
  {
    assert Directions(links) == Directions(links - {l}) + {(l, l.a)} + {(l, l.b)};
    UnionBound(Directions(links - {l}), (l, l.a), (l, l.b));
  }

  lemma UnionBound<T>(s: set<T>, x: T, y: T)
    ensures |s + {x} + {y}| <= |s| + 2
  {
    assert |s + {x}| <= |s| + 1;
  }

  /** With a perfect cache a flood crosses each connection at most once in each direction. */
  lemma SendBound(cfg: Config, actions: seq<Action>)
    requires Legal(cfg, IDLE, actions) && Remembering(actions)
    ensures |Run(cfg, IDLE, actions).sent| <= 2 * |cfg.links|
  {
    RunKeepsInv(cfg, actions);
    var sent := Run(cfg, IDLE, actions).sent;
    hide Run;
    var used := seq(|sent|, i requires 0 <= i < |sent| => (sent[i].link, sent[i].from));
    forall x | x in used ensures x in Directions(cfg.links) {
      var i :| 0 <= i < |used| && used[i] == x;
    }
    DistinctBound(used, Directions(cfg.links));
    DirectionCount(cfg.links);
  }

  // ---------- termination with a forgetful cache ----------

  function Power(base: nat, k: nat): (p: nat)
    ensures base > 0 ==> p > 0
  {
    if k == 0 then 1 else base * Power(base, k - 1)
  }

  /** A copy of TTL t can cause at most Weight(t) deliveries in a network of degree d. */
  function Weight(d: nat, ttl: int): (w: nat)
    ensures w > 0
  {
    Power(d + 1, if ttl > 0 then ttl else 0)
  }

  function Load(d: nat, copies: seq<Copy>): nat {
    if copies == [] then 0 else Load(d, copies[..|copies| - 1]) + Weight(d, copies[|copies| - 1].ttl)
  }

  lemma {:induction false} LoadAppend(d: nat, x: seq<Copy>, y: seq<Copy>)
    ensures Load(d, x + y) == Load(d, x) + Load(d, y)
    decreases |y|
  {
    if y == [] {
      assert x + y == x;
    } else {
      var n := |y| - 1;
      assert (x + y)[..|x + y| - 1] == x + y[..n];
      LoadAppend(d, x, y[..n]);
    }
  }

  lemma LoadRemove(d: nat, copies: seq<Copy>, i: nat)
    requires i < |copies|
    ensures Load(d, RemoveAt(copies, i)) == Load(d, copies) - Weight(d, copies[i].ttl)
  {
    assert copies == (copies[..i] + [copies[i]]) + copies[i + 1..];
    LoadAppend(d, copies[..i] + [copies[i]], copies[i + 1..]);
    LoadAppend(d, copies[..i], [copies[i]]);
    LoadAppend(d, copies[..i], copies[i + 1..]);
    assert Load(d, [copies[i]]) == Load(d, []) + Weight(d, copies[i].ttl) by { assert [copies[i]][..0] == []; }
  }

  lemma {:induction false} LoadUniform(d: nat, copies: seq<Copy>, ttl: int, bound: nat)
    requires forall i :: 0 <= i < |copies| ==> copies[i].ttl == ttl
    requires |copies| <= bound
    ensures Load(d, copies) <= bound * Weight(d, ttl)
    decreases |copies|
  {
    if copies != [] {
      LoadUniform(d, copies[..|copies| - 1], ttl, bound - 1);
    }
  }

  /** No node has more than d connections. */
  ghost predicate DegreeAtMost(links: set<Link>, d: nat) {
    forall n: Node :: |LinksOf(links, n)| <= d
  }

  lemma TargetsWithinDegree(cfg: Config, d: nat, n: Node, targets: seq<Link>)
    requires DegreeAtMost(cfg.links, d) && Distinct(targets)
    requires forall l :: l in targets ==> l in LinksOf(cfg.links, n)
    ensures |targets| <= d
  {
    DistinctBound(targets, LinksOf(cfg.links, n));
  }

  /** Delivering or losing a copy strictly lowers the load, whatever the caches hold. */
  lemma LoadDrops(cfg: Config, d: nat, s: Net, a: Action)
    requires Enabled(cfg, s, a) && DegreeAtMost(cfg.links, d)
    ensures a.Deliver? || a.Lose? ==> Load(d, Step(cfg, s, a).inFlight) < Load(d, s.inFlight)
    ensures a.Forget? ==> Step(cfg, s, a).inFlight == s.inFlight
    ensures a.Originate? ==> Load(d, Step(cfg, s, a).inFlight) <= Load(d, s.inFlight) + d * Weight(d, cfg.ttl0)
  {
    match a
    case Originate(targets) =>
      TargetsWithinDegree(cfg, d, cfg.origin, targets);
      var copies := CopiesOn(targets, cfg.origin, cfg.ttl0, []);
      LoadUniform(d, copies, cfg.ttl0, d);
      LoadAppend(d, s.inFlight, copies);
    case Deliver(index, targets) =>
      var c := s.inFlight[index];
      LoadRemove(d, s.inFlight, index);
      if c.to !in s.seen && PassesOn(cfg, c) {
        TargetsWithinDegree(cfg, d, c.to, targets);
        var copies := CopiesOn(targets, c.to, c.ttl - 1, c.trail);
        LoadUniform(d, copies, c.ttl - 1, d);
        LoadAppend(d, RemoveAt(s.inFlight, index), copies);
        WeightDrops(d, c.ttl);
      }
    case Lose(index) => LoadRemove(d, s.inFlight, index);
    case Forget(_) =>
  }

  lemma WeightDrops(d: nat, ttl: int)
    requires ttl > 0
    ensures d * Weight(d, ttl - 1) < Weight(d, ttl)
  {}

  /** Deliveries and losses so far. */
  function Moves(actions: seq<Action>): nat {
    if actions == [] then 0
    else
      var a := actions[|actions| - 1];
      Moves(actions[..|actions| - 1]) + if a.Deliver? || a.Lose? then 1 else 0
  }

  lemma {:induction false} MovesBounded(cfg: Config, d: nat, actions: seq<Action>)
    requires Legal(cfg, IDLE, actions) && DegreeAtMost(cfg.links, d)
    ensures var s := Run(cfg, IDLE, actions);
            Moves(actions) + Load(d, s.inFlight) <= if s.started then d * Weight(d, cfg.ttl0) else 0
    decreases |actions|
  {
    if actions != [] {
      var n := |actions| - 1;
      MovesBounded(cfg, d, actions[..n]);
      hide Load, DegreeAtMost, Weight;
      LoadDrops(cfg, d, Run(cfg, IDLE, actions[..n]), actions[n]);
    }
  }

  /** Every flood ends: however caches forget, at most d * (d + 1)^TTL0 copies are ever delivered or
      lost, so a run of moves cannot go on. */
  lemma FloodTerminates(cfg: Config, d: nat, actions: seq<Action>)
    requires Legal(cfg, IDLE, actions) && DegreeAtMost(cfg.links, d)
    ensures Moves(actions) <= d * Power(d + 1, cfg.ttl0)
  {
    MovesBounded(cfg, d, actions);
  }
}

/**
  The relay node's copy of its assignment as a lease: polls that fail, are rejected or deliver a
  config, expiry, and viewer requests, against a control plane whose rows change at any time.
 */
module NodeLease {
  import opened Common

  type Time = int       // milliseconds
  type Stream = nat
  type Point = nat
  type Token = nat

  const SECOND: Time := 1000
  const CLIENT_TIMEOUT: Time := 15 * SECOND
  const CONFIG_MAX_AGE: Time := 300 * SECOND

  // ---- the node ------------------------------------------------------------

  /** The document served by the control plane. */
  datatype Config = Config(nodeID: int, pollSeconds: int, streams: seq<Stream>, revokedPoints: seq<Point>, revokedTokens: seq<Token>)

  datatype Node = Node(
    id: int,
    assignment: set<Stream>,
    revokedPoints: set<Point>,
    revokedTokens: set<Token>,
    pollEvery: Time,
    haveConfig: bool,
    lastConfigAt: Time)

  function NewNode(id: int): Node {
    Node(id, {}, {}, {}, 10 * SECOND, false, 0)
  }

  function Elements(s: seq<nat>): set<nat> {
    set x | x in s
  }

  function PollInterval(seconds: int): Time {
    if seconds * SECOND < 5 * SECOND || seconds * SECOND > 60 * SECOND then 10 * SECOND else seconds * SECOND
  }

  function Apply(n: Node, c: Config, now: Time): Node {
    n.(assignment := Elements(c.streams), revokedPoints := Elements(c.revokedPoints), revokedTokens := Elements(c.revokedTokens),
    pollEvery := PollInterval(c.pollSeconds), haveConfig := true, lastConfigAt := now)
  }

  function Clear(n: Node): Node {
    if !n.haveConfig then n else
    n.(assignment := {}, revokedPoints := {}, revokedTokens := {}, haveConfig := false)
  }

  function Expire(n: Node, now: Time): Node {
    if n.haveConfig && now - n.lastConfigAt >= CONFIG_MAX_AGE then Clear(n) else n
  }

  datatype Poll =
    | Unreachable
    | Unauthorized              // 401 or 403
    | OtherStatus
    | BadDocument
    | Delivered(config: Config)

  function PollOnce(n: Node, p: Poll, now: Time): Node {
    match p
    case Unauthorized => Clear(n)
    case Delivered(c) => if c.nodeID == n.id then Apply(n, c, now) else n
    case _ => n
  }

  /** A viewer's grant; `point` and `token` are 0 where the URL names none. */
  datatype Grant = Grant(stream: Stream, point: Point, token: Token)

  predicate Allowed(n: Node, g: Grant) {
    g.stream in n.assignment && g.point !in n.revokedPoints && (g.token == 0 || g.token !in n.revokedTokens)
  }

  datatype Verdict = Forbidden | Gone | Authorized

  /** ServeHTTP after the path has been parsed: `signed` is the verdict of nodeproto.Verify. */
  function Decide(n: Node, g: Grant, signed: bool, expires: Time, now: Time): Verdict {
    if now > expires || !signed then Forbidden else if Allowed(n, g) then Authorized else Gone
  }

  class Agent {
    var node: Node

    constructor (id: int)
      ensures node == NewNode(id)
    {
      node := Node(id, {}, {}, {}, 10 * SECOND, false, 0);
    }

    method ToSet(ids: seq<nat>) returns (m: set<nat>)
      ensures m == Elements(ids)
    {
      m := {};
      for i := 0 to |ids|
        invariant m == Elements(ids[..i])
      {
        assert ids[..i + 1] == ids[..i] + [ids[i]];
        m := m + {ids[i]};
      }
      assert ids[..|ids|] == ids;
    }

    method ApplyConfig(c: Config, now: Time)
      modifies this
      ensures node == Apply(old(node), c, now)
    {
      var streams := ToSet(c.streams);
      var points := ToSet(c.revokedPoints);
      var tokens := ToSet(c.revokedTokens);
      var poll := c.pollSeconds * SECOND;
      if poll < 5 * SECOND || poll > 60 * SECOND {
        poll := 10 * SECOND;
      }
      node := node.(assignment := streams);
      node := node.(revokedPoints := points, revokedTokens := tokens);
      node := node.(pollEvery := poll, haveConfig := true, lastConfigAt := now);
    }

    method ClearConfigLocked()
      modifies this
      ensures node == Clear(old(node))
    {
      if !node.haveConfig {
        return;
      }
      node := node.(assignment := {}, revokedPoints := {}, revokedTokens := {});
      node := node.(haveConfig := false);
    }

    method ExpireConfig(now: Time)
      modifies this
      ensures node == Expire(old(node), now)
    {
      if node.haveConfig && now - node.lastConfigAt >= CONFIG_MAX_AGE {
        ClearConfigLocked();
      }
    }

    method Poll(p: Poll, now: Time) returns (ok: bool)
      modifies this
      ensures node == PollOnce(old(node), p, now)
      ensures ok <==> p.Delivered? && p.config.nodeID == old(node).id
    {
      if p.Unreachable? {
        return false;
      }
      if p.Unauthorized? {
        ClearConfigLocked();
        return false;
      }
      if p.OtherStatus? || p.BadDocument? {
        return false;
      }
      if p.config.nodeID != node.id {
        return false;
      }
      ApplyConfig(p.config, now);
      return true;
    }
  }

  // ---- the control plane ---------------------------------------------------

  /** The control database as it changes over time. */
  datatype Control = Control(
    hosts: (Time, Stream) -> bool,          // the stream's node_id is this node
    active: (Time, Stream) -> bool,
    pointRevoked: (Time, Point) -> bool,
    tokenDead: (Time, Token) -> bool,       // revoked or expired
    streamOfPoint: Point -> Stream,
    streamOfToken: Token -> Stream)

  /** When the three SELECT statements behind one config ran. */
  datatype Snapshot = Snapshot(streams: Time, points: Time, tokens: Time)

  /** serveNodeConfig: assigned active streams, and the dead points and tokens of the node's streams. */
  ghost predicate Served(c: Config, k: Control, at: Snapshot) {
    && (forall s :: s in c.streams ==> k.hosts(at.streams, s) && k.active(at.streams, s))
    && (forall p :: p in c.revokedPoints <==> p != 0 && k.pointRevoked(at.points, p) && k.hosts(at.points, k.streamOfPoint(p)))
    && (forall t :: t in c.revokedTokens <==> t != 0 && k.tokenDead(at.tokens, t) && k.hosts(at.tokens, k.streamOfToken(t)))
  }

  // ---- runs ----------------------------------------------------------------

  /** `sent` and `read` belong to the config in force; `viewers` are requests between expiry check and decision. */
  datatype World = World(node: Node, now: Time, polled: Time, sent: Time, read: Snapshot, viewers: map<nat, Time>)

  datatype Event =
    | Pass(to: Time)
    | PollEnds(sent: Time, read: Snapshot, poll: Poll)
    | PollLoopExpires
    | Arrives(request: nat)
    | Leaves(request: nat)

  function Start(id: int): World {
    World(NewNode(id), 0, 0, 0, Snapshot(0, 0, 0), map[])
  }

  /** One poll at a time, each at most fifteen seconds long, its reads in order in between. */
  ghost predicate CanHappen(k: Control, w: World, e: Event) {
    match e
    case Pass(to) => w.now <= to
    case PollEnds(sent, read, poll) =>
      && w.polled <= sent <= read.streams <= read.points <= read.tokens <= w.now <= sent + CLIENT_TIMEOUT
      && (poll.Delivered? ==> Served(poll.config, k, read))
    case Arrives(r) => r !in w.viewers
    case _ => true
  }

  function Happens(w: World, e: Event): World {
    match e
    case Pass(to) => w.(now := to)
    case PollEnds(sent, read, poll) =>
      var after := w.(node := PollOnce(w.node, poll, w.now), polled := w.now);
      if poll.Delivered? && poll.config.nodeID == w.node.id then after.(sent := sent, read := read) else after
    case PollLoopExpires => w.(node := Expire(w.node, w.now))
    case Arrives(r) => w.(node := Expire(w.node, w.now), viewers := w.viewers[r := w.now])
    case Leaves(r) => w.(viewers := w.viewers - {r})
  }

  /** Some config served at `read` explains what the node holds. */
  ghost predicate Explained(k: Control, n: Node, read: Snapshot) {
    && (forall s :: s in n.assignment ==> k.hosts(read.streams, s) && k.active(read.streams, s))
    && (forall p :: p in n.revokedPoints <==> p != 0 && k.pointRevoked(read.points, p) && k.hosts(read.points, k.streamOfPoint(p)))
    && (forall t :: t in n.revokedTokens <==> t != 0 && k.tokenDead(read.tokens, t) && k.hosts(read.tokens, k.streamOfToken(t)))
  }

  ghost predicate Valid(k: Control, w: World) {
    && w.polled <= w.now
    && (!w.node.haveConfig ==> w.node.assignment == {})
    && (w.node.haveConfig ==>
          && Explained(k, w.node, w.read)
          && w.sent <= w.read.streams <= w.read.points <= w.read.tokens <= w.node.lastConfigAt <= w.now
          && w.node.lastConfigAt <= w.sent + CLIENT_TIMEOUT)
    && (forall r :: r in w.viewers ==> w.viewers[r] <= w.now && (w.node.haveConfig ==> w.viewers[r] - w.node.lastConfigAt < CONFIG_MAX_AGE))
  }

  lemma HappensKeepsValid(k: Control, w: World, e: Event)
    requires Valid(k, w) && CanHappen(k, w, e)
    ensures Valid(k, Happens(w, e))
  {
  }

  ghost predicate Runs(k: Control, w: World, events: seq<Event>)
    decreases |events|
  {
    events == [] || (CanHappen(k, w, events[0]) && Runs(k, Happens(w, events[0]), events[1..]))
  }

  ghost function After(k: Control, w: World, events: seq<Event>): World
    requires Runs(k, w, events)
    decreases |events|
  {
    if events == [] then w else After(k, Happens(w, events[0]), events[1..])
  }

  lemma {:induction false} RunsKeepValid(k: Control, w: World, events: seq<Event>)
    requires Valid(k, w) && Runs(k, w, events)
    ensures Valid(k, After(k, w, events))
    decreases |events|
  {
    if events != [] {
      HappensKeepsValid(k, w, events[0]);
      RunsKeepValid(k, Happens(w, events[0]), events[1..]);
    }
  }

  // ---- the bound -----------------------------------------------------------

  /** What the control plane said of the grant when the config in force was read. */
  ghost predicate Vouched(k: Control, g: Grant, read: Snapshot) {
    && k.hosts(read.streams, g.stream) && k.active(read.streams, g.stream)
    && !(g.point != 0 && k.pointRevoked(read.points, g.point) && k.hosts(read.points, k.streamOfPoint(g.point)))
    && !(g.token != 0 && k.tokenDead(read.tokens, g.token) && k.hosts(read.tokens, k.streamOfToken(g.token)))
  }

  /**
    Every authorised request is vouched for by reads of the control database that started less
    than 15 s + 5 min before the request arrived, whatever polls failed in between.
   */
  lemma AuthorizedIsVouchedRecently(k: Control, id: int, events: seq<Event>, r: nat, g: Grant, signed: bool, expires: Time)
    requires Runs(k, Start(id), events) && r in After(k, Start(id), events).viewers
    requires var w := After(k, Start(id), events); Decide(w.node, g, signed, expires, w.now).Authorized?
    ensures var w := After(k, Start(id), events);
            && Vouched(k, g, w.read)
            && w.viewers[r] - 315_000 < w.read.streams <= w.read.points <= w.read.tokens <= w.now
  {
    RunsKeepValid(k, Start(id), events);
  }

  /** From `since` to `until` the grant is dead for one and the same reason. */
  ghost predicate DeadThroughout(k: Control, g: Grant, since: Time, until: Time) {
    || (forall t :: since <= t <= until ==> !(k.hosts(t, g.stream) && k.active(t, g.stream)))
    || (g.point != 0 && k.streamOfPoint(g.point) == g.stream
        && forall t :: since <= t <= until ==> k.pointRevoked(t, g.point) && k.hosts(t, g.stream))
    || (g.token != 0 && k.streamOfToken(g.token) == g.stream
        && forall t :: since <= t <= until ==> k.tokenDead(t, g.token) && k.hosts(t, g.stream))
  }

  lemma DeadIsNotVouched(k: Control, g: Grant, since: Time, until: Time, read: Snapshot)
    requires DeadThroughout(k, g, since, until)
    requires since <= read.streams <= read.points <= read.tokens <= until
    ensures !Vouched(k, g, read)
  {
  }

  /**
    The lease bound: a grant dead since T (stream unassigned or disabled; or point or token
    revoked while the stream stays here) is refused to every request that arrives at
    T + 15 s + 5 min or later.
   */
  lemma DeadGrantsLapse(k: Control, id: int, events: seq<Event>, r: nat, g: Grant, signed: bool, expires: Time, since: Time)
    requires Runs(k, Start(id), events) && r in After(k, Start(id), events).viewers
    requires DeadThroughout(k, g, since, After(k, Start(id), events).now)
    requires After(k, Start(id), events).viewers[r] >= since + 315_000
    ensures var w := After(k, Start(id), events);
            !Decide(w.node, g, signed, expires, w.now).Authorized?
  {
    var w := After(k, Start(id), events);
    if Decide(w.node, g, signed, expires, w.now).Authorized? {
      AuthorizedIsVouchedRecently(k, id, events, r, g, signed, expires);
      DeadIsNotVouched(k, g, since, w.now, w.read);
    }
  }

  /** Nothing read before `since` is in force, and nothing read before it will come into force. */
  ghost predicate FreshSince(w: World, since: Time) {
    since <= w.polled && (w.node.haveConfig ==> since <= w.read.streams)
  }

  lemma {:induction false} StaysFresh(k: Control, w: World, events: seq<Event>, since: Time)
    requires Valid(k, w) && Runs(k, w, events) && FreshSince(w, since)
    ensures Valid(k, After(k, w, events)) && FreshSince(After(k, w, events), since)
    decreases |events|
  {
    if events != [] {
      HappensKeepsValid(k, w, events[0]);
      StaysFresh(k, Happens(w, events[0]), events[1..], since);
    }
  }

  /**
    Once one poll sent after T delivered a config, or any poll after T was rejected with 401 or
    403, a grant dead since T is refused at once and from then on.
   */
  lemma PollEndsDeadGrants(k: Control, w: World, poll: Event, later: seq<Event>, g: Grant, signed: bool, expires: Time, since: Time)
    requires Valid(k, w) && poll.PollEnds? && CanHappen(k, w, poll) && Runs(k, Happens(w, poll), later)
    requires (poll.poll.Delivered? && poll.poll.config.nodeID == w.node.id && poll.sent >= since) || (poll.poll.Unauthorized? && w.now >= since)
    requires DeadThroughout(k, g, since, After(k, Happens(w, poll), later).now)
    ensures var end := After(k, Happens(w, poll), later);
            !Decide(end.node, g, signed, expires, end.now).Authorized?
  {
    HappensKeepsValid(k, w, poll);
    StaysFresh(k, Happens(w, poll), later, since);
    var end := After(k, Happens(w, poll), later);
    if Allowed(end.node, g) {
      DeadIsNotVouched(k, g, since, end.now, end.read);
    }
  }

  // ---- the torn read -------------------------------------------------------

  /** A grant as the control plane signs it: its point and token, if any, are of its stream. */
  predicate Consistent(k: Control, g: Grant) {
    && (g.point != 0 ==> k.streamOfPoint(g.point) == g.stream)
    && (g.token != 0 ==> k.streamOfToken(g.token) == g.stream)
  }

  predicate PointDead(k: Control, g: Grant, t: Time) {
    g.point != 0 && k.pointRevoked(t, g.point)
  }

  predicate TokenDead(k: Control, g: Grant, t: Time) {
    g.token != 0 && k.tokenDead(t, g.token)
  }

  /**
    The reads behind one config are separate statements, and the second and third list the dead
    credentials of hosted streams only. So a config lets a grant through exactly when its stream was
    listed and was gone at every read that should have listed a dead credential of the grant.
   */
  lemma TornReadExactly(k: Control, n: Node, c: Config, read: Snapshot, g: Grant, now: Time)
    requires Served(c, k, read) && c.nodeID == n.id && Consistent(k, g)
    ensures Allowed(PollOnce(n, Delivered(c), now), g) <==>
              && g.stream in c.streams
              && (PointDead(k, g, read.points) ==> !k.hosts(read.points, g.stream))
              && (TokenDead(k, g, read.tokens) ==> !k.hosts(read.tokens, g.stream))
  {
  }

  /** At time t something is wrong with the grant. */
  predicate DeadAt(k: Control, g: Grant, t: Time) {
    !(k.hosts(t, g.stream) && k.active(t, g.stream)) || PointDead(k, g, t) || TokenDead(k, g, t)
  }

  /**
    Between the first read of a config and the one that lists it, a dead credential of the grant
    came back to life or its stream left the node.
   */
  predicate ChangedBetweenReads(k: Control, g: Grant, read: Snapshot) {
    || (PointDead(k, g, read.streams) && !(PointDead(k, g, read.points) && k.hosts(read.points, g.stream)))
    || (TokenDead(k, g, read.streams) && !(TokenDead(k, g, read.tokens) && k.hosts(read.tokens, g.stream)))
  }

  lemma VouchedDeadChanged(k: Control, g: Grant, read: Snapshot)
    requires Consistent(k, g) && Vouched(k, g, read) && DeadAt(k, g, read.streams)
    ensures ChangedBetweenReads(k, g, read)
  {
  }

  /**
    The bound with no condition on why the grant is dead: if it is dead at every moment since T, for
    whatever reason at each, a request arriving at T + 15 s + 5 min or later is authorised only by a
    config read after T between whose reads the database changed as said.
   */
  lemma LateAuthorizationNeedsAChange(k: Control, id: int, events: seq<Event>, r: nat, g: Grant, signed: bool, expires: Time, since: Time)
    requires Runs(k, Start(id), events) && r in After(k, Start(id), events).viewers && Consistent(k, g)
    requires forall t :: since <= t <= After(k, Start(id), events).now ==> DeadAt(k, g, t)
    requires After(k, Start(id), events).viewers[r] >= since + 315_000
    requires var w := After(k, Start(id), events); Decide(w.node, g, signed, expires, w.now).Authorized?
    ensures var w := After(k, Start(id), events);
            since < w.read.streams <= w.read.points <= w.read.tokens <= w.now && ChangedBetweenReads(k, g, w.read)
  {
    AuthorizedIsVouchedRecently(k, id, events, r, g, signed, expires);
    VouchedDeadChanged(k, g, After(k, Start(id), events).read);
  }

  /** The same once a poll sent after T has delivered, or any poll after T was rejected. */
  lemma AuthorizationAfterPollNeedsAChange(k: Control, w: World, poll: Event, later: seq<Event>, g: Grant, signed: bool, expires: Time, since: Time)
    requires Valid(k, w) && poll.PollEnds? && CanHappen(k, w, poll) && Runs(k, Happens(w, poll), later) && Consistent(k, g)
    requires (poll.poll.Delivered? && poll.poll.config.nodeID == w.node.id && poll.sent >= since) || (poll.poll.Unauthorized? && w.now >= since)
    requires forall t :: since <= t <= After(k, Happens(w, poll), later).now ==> DeadAt(k, g, t)
    requires var end := After(k, Happens(w, poll), later); Decide(end.node, g, signed, expires, end.now).Authorized?
    ensures var end := After(k, Happens(w, poll), later);
            since <= end.read.streams <= end.read.points <= end.read.tokens <= end.now && ChangedBetweenReads(k, g, end.read)
  {
    HappensKeepsValid(k, w, poll);
    StaysFresh(k, Happens(w, poll), later, since);
    var end := After(k, Happens(w, poll), later);
    assert Vouched(k, g, end.read);
    VouchedDeadChanged(k, g, end.read);
  }

  ghost predicate PointDeadSince(k: Control, g: Grant, since: Time, until: Time) {
    forall t :: since <= t <= until ==> PointDead(k, g, t)
  }

  ghost predicate TokenDeadSince(k: Control, g: Grant, since: Time, until: Time) {
    forall t :: since <= t <= until ==> TokenDead(k, g, t)
  }

  /**
    For a point revoked, or a token dead, ever since T, such a change is the stream's departure: it
    was here for the first read and gone for the one that should have listed the credential.
   */
  lemma LateAuthorizationNeedsADeparture(k: Control, id: int, events: seq<Event>, r: nat, g: Grant, signed: bool, expires: Time, since: Time)
    requires Runs(k, Start(id), events) && r in After(k, Start(id), events).viewers && Consistent(k, g)
    requires var now := After(k, Start(id), events).now; PointDeadSince(k, g, since, now) || TokenDeadSince(k, g, since, now)
    requires After(k, Start(id), events).viewers[r] >= since + 315_000
    requires var w := After(k, Start(id), events); Decide(w.node, g, signed, expires, w.now).Authorized?
    ensures var w := After(k, Start(id), events);
            && since < w.read.streams && k.hosts(w.read.streams, g.stream)
            && (PointDeadSince(k, g, since, w.now) ==> w.read.streams < w.read.points && !k.hosts(w.read.points, g.stream))
            && (TokenDeadSince(k, g, since, w.now) ==> w.read.streams < w.read.tokens && !k.hosts(w.read.tokens, g.stream))
  {
    AuthorizedIsVouchedRecently(k, id, events, r, g, signed, expires);
    var w := After(k, Start(id), events);
    assert PointDeadSince(k, g, since, w.now) ==> PointDead(k, g, w.read.points);
    assert TokenDeadSince(k, g, since, w.now) ==> TokenDead(k, g, w.read.tokens);
  }

  /** A control plane on which stream 3 leaves the node after an hour, its point and token dead all along. */
  function Departing(point: Point, token: Token): Control {
    Control((t: Time, s: Stream) => t <= 3600 * SECOND, (t: Time, s: Stream) => true,
            (t: Time, p: Point) => p == point, (t: Time, x: Token) => x == token, (p: Point) => 3, (x: Token) => 3)
  }

  /**
    So a credential dead from the start, point or token or both, is authorised after an hour, if
    the departure falls between two reads of a config.
   */
  lemma TornReadRevivesDeadGrant(point: Point, token: Token)
    ensures var k, g := Departing(point, token), Grant(3, point, token);
            && Consistent(k, g)
            && (point != 0 ==> forall t :: PointDead(k, g, t)) && (token != 0 ==> forall t :: TokenDead(k, g, t))
            && exists events ::
                 && Runs(k, Start(1), events)
                 && var w := After(k, Start(1), events);
                    && 0 in w.viewers && w.viewers[0] >= 3600 * SECOND
                    && Decide(w.node, g, true, w.now, w.now).Authorized?
  {
    var hour := 3600 * SECOND;
    var k, g := Departing(point, token), Grant(3, point, token);
    var config := Config(1, 10, [3], [], []);
    var read := Snapshot(hour, hour + 1, hour + 1);
    var events := [Pass(hour + 1), PollEnds(hour, read, Delivered(config)), Arrives(0)];
    assert Served(config, k, read);
    var w1 := Happens(Start(1), events[0]);
    var w2 := Happens(w1, events[1]);
    var w3 := Happens(w2, events[2]);
    Unfold(k, w2, events[2..], w3);
    Unfold(k, w1, events[1..], w2);
    Unfold(k, Start(1), events, w1);
    assert 3 in Elements(config.streams);
    assert Allowed(w3.node, g);
  }

  lemma Unfold(k: Control, w: World, events: seq<Event>, after: World)
    requires events != [] && CanHappen(k, w, events[0]) && after == Happens(w, events[0])
    ensures Runs(k, w, events) <==> Runs(k, after, events[1..])
    ensures Runs(k, w, events) ==> After(k, w, events) == After(k, after, events[1..])
  {
  }
}

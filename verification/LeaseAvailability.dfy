/**
  The other half of the lease: what a config lets through stays authorised while the control plane
  cannot be reached, until the node itself checks the age of the config.
 */
module LeaseAvailability {
  import opened Common
  import opened NodeLease

  const FIVE_MINUTES: Time := 5 * 60 * 1000

  /** The config hosts the grant's stream and lists neither its point nor its token. */
  predicate LetsThrough(c: Config, g: Grant) {
    g.stream in c.streams && g.point !in c.revokedPoints && (g.token == 0 || g.token !in c.revokedTokens)
  }

  /** A poll that changes what the node holds: a rejection, or a config for this node. */
  predicate Speaks(e: Event, id: int) {
    e.PollEnds? && (e.poll.Unauthorized? || (e.poll.Delivered? && e.poll.config.nodeID == id))
  }

  /** Polls that fail in any other way, and everything else. */
  ghost predicate Silent(events: seq<Event>, id: int) {
    forall i :: 0 <= i < |events| ==> !Speaks(events[i], id)
  }

  /** The age of the config is checked by the poll loop and by arriving requests. */
  predicate Checks(e: Event) {
    e.PollLoopExpires? || e.Arrives?
  }

  /** Some check of the run came at `deadline` or later. */
  ghost predicate CheckedFrom(w: World, events: seq<Event>, deadline: Time)
    decreases |events|
  {
    events != [] && ((Checks(events[0]) && w.now >= deadline) || CheckedFrom(Happens(w, events[0]), events[1..], deadline))
  }

  /** The node holds exactly what the config, applied at `at`, says. */
  predicate Holds(n: Node, c: Config, at: Time) {
    && n.haveConfig && n.lastConfigAt == at
    && n.assignment == Elements(c.streams) && n.revokedPoints == Elements(c.revokedPoints) && n.revokedTokens == Elements(c.revokedTokens)
  }

  predicate HoldsNothing(n: Node) {
    !n.haveConfig && n.assignment == {} && n.revokedPoints == {} && n.revokedTokens == {}
  }

  lemma SilenceKeepsConfig(k: Control, w: World, e: Event, c: Config, at: Time)
    requires CanHappen(k, w, e) && !Speaks(e, w.node.id) && Holds(w.node, c, at)
    ensures Happens(w, e).node.id == w.node.id
    ensures if Checks(e) && w.now >= at + FIVE_MINUTES then HoldsNothing(Happens(w, e).node) else Holds(Happens(w, e).node, c, at)
  {
  }

  lemma SilenceBringsNothing(k: Control, w: World, e: Event)
    requires CanHappen(k, w, e) && !Speaks(e, w.node.id) && HoldsNothing(w.node)
    ensures Happens(w, e).node.id == w.node.id && HoldsNothing(Happens(w, e).node)
  {
  }

  lemma {:induction false} NothingComesOfSilence(k: Control, w: World, events: seq<Event>)
    requires Runs(k, w, events) && Silent(events, w.node.id) && HoldsNothing(w.node)
    ensures HoldsNothing(After(k, w, events).node)
    decreases |events|
  {
    if events != [] {
      SilenceBringsNothing(k, w, events[0]);
      NothingComesOfSilence(k, Happens(w, events[0]), events[1..]);
    }
  }

  lemma {:induction false} ConfigOutlivesSilence(k: Control, w: World, events: seq<Event>, c: Config, at: Time)
    requires Runs(k, w, events) && Silent(events, w.node.id) && Holds(w.node, c, at)
    ensures var n := After(k, w, events).node;
            if CheckedFrom(w, events, at + FIVE_MINUTES) then HoldsNothing(n) else Holds(n, c, at)
    decreases |events|
  {
    if events != [] {
      var t := Happens(w, events[0]);
      SilenceKeepsConfig(k, w, events[0], c, at);
      if Checks(events[0]) && w.now >= at + FIVE_MINUTES {
        NothingComesOfSilence(k, t, events[1..]);
      } else {
        ConfigOutlivesSilence(k, t, events[1..], c, at);
      }
    }
  }

  lemma AppliedConfigHolds(w: World, c: Config)
    requires c.nodeID == w.node.id
    ensures Holds(PollOnce(w.node, Delivered(c), w.now), c, w.now) && PollOnce(w.node, Delivered(c), w.now).id == w.node.id
  {
  }

  lemma HeldConfigDecides(n: Node, c: Config, at: Time, g: Grant)
    requires Holds(n, c, at)
    ensures Allowed(n, g) <==> LetsThrough(c, g)
  {
  }

  /**
    After a config for this node was applied, as long as no poll is rejected and no other config comes,
    a request is authorised exactly if it is signed and its link has not expired, that config lets its
    grant through, and no check of the config's age came five minutes after it or later. Polls that
    fail do not count. A request that is not signed, or too late, is forbidden; any other is gone.
   */
  lemma AuthorizedExactly(k: Control, w: World, poll: Event, later: seq<Event>, g: Grant, signed: bool, expires: Time)
    requires poll.PollEnds? && CanHappen(k, w, poll) && poll.poll.Delivered? && poll.poll.config.nodeID == w.node.id
    requires Runs(k, Happens(w, poll), later) && Silent(later, w.node.id)
    ensures var end := After(k, Happens(w, poll), later);
            var verdict := Decide(end.node, g, signed, expires, end.now);
            && (verdict == Authorized <==>
                  signed && end.now <= expires && LetsThrough(poll.poll.config, g)
                  && !CheckedFrom(Happens(w, poll), later, w.now + FIVE_MINUTES))
            && (verdict == Forbidden <==> !signed || end.now > expires)
  {
    var c, t := poll.poll.config, Happens(w, poll);
    AppliedConfigHolds(w, c);
    ConfigOutlivesSilence(k, t, later, c, w.now);
    var n := After(k, t, later).node;
    if !CheckedFrom(t, later, w.now + FIVE_MINUTES) {
      HeldConfigDecides(n, c, w.now, g);
    }
  }

  /** A new node holds nothing, nor does one whose last word from the control plane was a rejection. */
  lemma RejectionLeavesNothing(id: int, n: Node, c: Config, at: Time, now: Time)
    requires Holds(n, c, at)
    ensures HoldsNothing(NewNode(id)) && HoldsNothing(PollOnce(n, Unauthorized, now))
  {
  }

  /** Once the config has expired or was rejected nothing is authorised until the next one comes. */
  lemma NothingAuthorizedWithoutConfig(k: Control, w: World, events: seq<Event>, g: Grant, signed: bool, expires: Time)
    requires HoldsNothing(w.node) && Runs(k, w, events) && Silent(events, w.node.id)
    ensures var end := After(k, w, events); Decide(end.node, g, signed, expires, end.now) != Authorized
  {
    NothingComesOfSilence(k, w, events);
  }

  /** Checks, requests and polls that fail can come at any time. */
  lemma AlwaysPossible(k: Control, w: World, r: nat, failure: Poll)
    requires w.polled <= w.now && !failure.Delivered?
    ensures CanHappen(k, w, PollLoopExpires) && CanHappen(k, w, Leaves(r)) && (r !in w.viewers ==> CanHappen(k, w, Arrives(r)))
    ensures CanHappen(k, w, PollEnds(w.now, Snapshot(w.now, w.now, w.now), failure)) && CanHappen(k, w, Pass(w.now))
  {
  }

  /** The node polls every 5 to 60 seconds, as told, and every ten when told anything else. */
  lemma PollsAsTold(n: Node, c: Config, now: Time)
    ensures var every := Apply(n, c, now).pollEvery;
            && 5000 <= every <= 60000
            && every == (if 5 <= c.pollSeconds <= 60 then c.pollSeconds * 1000 else 10000)
  {
  }
}

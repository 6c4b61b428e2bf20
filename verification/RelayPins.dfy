/**
  Which sessions are pinned: the supervisor's reconciliations interleaved with every other
  user of the remux manager. Viewers, the reaper and exiting processes act between any two of
  the supervisor's calls.
 */
module RelayPins {
  import opened Common
  import opened RemuxState
  import opened RemuxSafety
  import AlwaysOn

  function Pins(s: State): set<Stream>
    requires RefsKnown(s)
  {
    set st | st in s.sessions && s.calls[s.sessions[st]].pinned
  }

  // ---- only SetPinned(true) adds a pin -------------------------------------

  lemma StopAllAddsNoPins(s: State, refs: set<Ref>)
    requires RefsKnown(s)
    ensures RefsKnown(StopAll(s, refs)) ==> Pins(StopAll(s, refs)) <= Pins(s)
  {
  }

  lemma CommitAddsNoPins(s: State, r: Ref, id: string, spawned: bool, now: Time)
    requires RefsKnown(s) && TablesAgree(s) && r in s.calls && !s.calls[r].pinned
    requires RefsKnown(Commit(s, r, id, spawned, now).0)
    ensures Pins(Commit(s, r, id, spawned, now).0) <= Pins(s)
  {
    var (t, outcome) := Commit(s, r, id, spawned, now);
    if !outcome.Registers? {
      SameOrFewerPins(s, t);
    }
  }

  lemma StartAddsNoPins(s: State, stream: Stream, signature: string, playlist: bool, now: Time, call: Ref)
    requires RefsKnown(s) && call !in s.calls
    requires RefsKnown(Begin(s, stream, signature, playlist, now, call).0)
    ensures Pins(Begin(s, stream, signature, playlist, now, call).0) <= Pins(s)
  {
    var s1 := Settle(s, stream, signature, playlist, now).0;
    assert Pins(s1) <= Pins(s);
  }

  lemma CancelAddsNoPins(s: State, refs: set<Ref>)
    requires RefsKnown(s)
    ensures var t := s.(calls := CancelAll(s.calls, refs)); RefsKnown(t) && Pins(t) == Pins(s)
  {
  }

  /** The registered sessions are a subset of the old ones and carry the old pins. */
  lemma SameOrFewerPins(s: State, t: State)
    requires RefsKnown(s) && RefsKnown(t)
    requires forall st :: st in t.sessions ==> st in s.sessions && t.sessions[st] == s.sessions[st]
    requires forall r :: r in s.calls && r in t.calls ==> t.calls[r].pinned == s.calls[r].pinned
    ensures Pins(t) <= Pins(s)
  {
  }

  lemma ExistingAddsNoPins(s: State, stream: Stream, signature: string, playlist: bool, now: Time)
    requires RefsKnown(s) && RefsKnown(Existing(s, stream, signature, playlist, now).0)
    ensures Pins(Existing(s, stream, signature, playlist, now).0) <= Pins(s)
  {
    SameOrFewerPins(s, Existing(s, stream, signature, playlist, now).0);
  }

  lemma StopAddsNoPins(s: State, stream: Stream)
    requires RefsKnown(s) && RefsKnown(Stop(s, stream))
    ensures Pins(Stop(s, stream)) <= Pins(s)
  {
    CancelAddsNoPins(s, PendingOf(s, stream));
  }

  lemma CloseAddsNoPins(s: State)
    requires RefsKnown(s) && RefsKnown(CloseManager(s))
    ensures Pins(CloseManager(s)) <= Pins(s)
  {
    var s1 := s.(closed := true, calls := CancelAll(s.calls, AllPending(s)));
    CancelAddsNoPins(s, AllPending(s));
    assert RefsKnown(s1) && Pins(s1) == Pins(s.(calls := CancelAll(s.calls, AllPending(s))));
    StopAllAddsNoPins(s1, AllSessions(s));
  }

  lemma StepAddsNoPins(s: State, r: Ref, step: Step)
    requires RefsKnown(s) && r in s.calls && RefsKnown(Progress(s, r, step))
    ensures Pins(Progress(s, r, step)) <= Pins(s)
  {
    SameOrFewerPins(s, Progress(s, r, step));
  }

  lemma LeavingAddsNoPins(s: State, r: Ref)
    requires RefsKnown(s) && r in s.calls && RefsKnown(LeavePending(s, r))
    ensures Pins(LeavePending(s, r)) <= Pins(s)
  {
    SameOrFewerPins(s, LeavePending(s, r));
  }

  lemma UseAddsNoPins(s: State, stream: Stream, id: string, now: Time)
    requires RefsKnown(s) && RefsKnown(Use(s, stream, id, now).0)
    ensures Pins(Use(s, stream, id, now).0) <= Pins(s)
  {
    SameOrFewerPins(s, Use(s, stream, id, now).0);
  }

  lemma StartsAndStopsAddNoPins(s: State, e: Event)
    requires Valid(s) && Enabled(s, e) && (e.EStart? || e.ECommit? || e.EStop? || e.EClose? || e.EReapIdle?)
    requires RefsKnown(Next(s, e))
    ensures Pins(Next(s, e)) <= Pins(s)
  {
    match e {
      case EStart(stream, signature, playlist, now, call) => StartAddsNoPins(s, stream, signature, playlist, now, call);
      case ECommit(r, id, spawned, now) =>
        assert CallValid(s.calls[r]);
        CommitAddsNoPins(s, r, id, spawned, now);
      case EStop(stream) => StopAddsNoPins(s, stream);
      case EClose => CloseAddsNoPins(s);
      case EReapIdle(now) => StopAllAddsNoPins(s, IdleSessions(s, now));
    }
  }

  lemma OthersAddNoPins(s: State, e: Event)
    requires Valid(s) && Enabled(s, e) && !(e.ESetPinned? && e.pinned)
    requires RefsKnown(Next(s, e))
    ensures Pins(Next(s, e)) <= Pins(s)
  {
    match e {
      case EExisting(stream, signature, playlist, now) => ExistingAddsNoPins(s, stream, signature, playlist, now);
      case EStep(r, step) => StepAddsNoPins(s, r, step);
      case ELeavePending(r) => LeavingAddsNoPins(s, r);
      case ESetPinned(stream, _, now) => SettingOnePin(s, stream, false, now);
      case EUse(stream, id, now) => UseAddsNoPins(s, stream, id, now);
      case _ => StartsAndStopsAddNoPins(s, e);
    }
  }

  // ---- the supervisor ------------------------------------------------------

  datatype Stage =
    | Resting
    | Unpinning(todo: set<Stream>)   // the loop over the snapshot of pinned sessions
    | Working                        // the loop over the wanted streams

  /** `bound` is the set the pins are known to lie in: the previous wanted set until it is enforced. */
  datatype World = World(remux: State, relayOnly: bool, stage: Stage, want: set<Stream>, bound: set<Stream>)

  datatype Move =
    | Other(event: Event)                        // any step of anybody else
    | Reconcile(streams: seq<int>)               // the always-on streams as loaded
    | UnpinNext(stream: Stream, now: Time)
    | StartWork
    | PinWanted(stream: Stream, now: Time)       // after Existing, or after a relay started
    | Finish                                     // also an early return

  function Wanted(streams: seq<int>, slots: nat, relayOnly: bool): set<Stream> {
    set i | 0 <= i < AlwaysOn.Min(|streams|, AlwaysOn.MaxRelays(slots, relayOnly)) :: Stream(streams[i])
  }

  ghost predicate CanMove(w: World, m: Move) {
    Valid(w.remux) &&
    match m
    case Other(e) => Enabled(w.remux, e) && !e.ESetPinned?
    case Reconcile(_) => w.stage.Resting?
    case UnpinNext(stream, _) => w.stage.Unpinning? && stream in w.stage.todo
    case StartWork => w.stage == Unpinning({})
    case PinWanted(stream, _) => w.stage.Working? && stream in w.want
    case Finish => w.stage.Working?
  }

  ghost function Moved(w: World, m: Move): World
    requires CanMove(w, m)
  {
    match m
    case Other(e) => w.(remux := Next(w.remux, e))
    case Reconcile(streams) =>
      var want := Wanted(streams, w.remux.capacity, w.relayOnly);
      w.(stage := Unpinning(Pins(w.remux) - want), want := want)
    case UnpinNext(stream, now) =>
      w.(remux := SetPinned(w.remux, stream, false, now), stage := Unpinning(w.stage.todo - {stream}))
    case StartWork => w.(stage := Working, bound := w.want)
    case PinWanted(stream, now) => w.(remux := SetPinned(w.remux, stream, true, now))
    case Finish => w.(stage := Resting)
  }

  ghost predicate PinsBounded(w: World) {
    && Valid(w.remux)
    && Pins(w.remux) <= w.bound
    && |w.bound| <= AlwaysOn.MaxRelays(w.remux.capacity, w.relayOnly)
    && |w.want| <= AlwaysOn.MaxRelays(w.remux.capacity, w.relayOnly)
    && (w.stage.Unpinning? ==> Pins(w.remux) <= w.want + w.stage.todo)
    && (!w.stage.Unpinning? ==> w.bound == w.want)
  }

  lemma {:induction false} WantedIsBounded(streams: seq<int>, n: nat)
    requires n <= |streams|
    ensures |set i | 0 <= i < n :: Stream(streams[i])| <= n
  {
    if n > 0 {
      WantedIsBounded(streams, n - 1);
      assert (set i | 0 <= i < n :: Stream(streams[i])) == (set i | 0 <= i < n - 1 :: Stream(streams[i])) + {Stream(streams[n - 1])};
    }
  }

  lemma OtherKeepsBound(w: World, e: Event)
    requires PinsBounded(w) && CanMove(w, Other(e))
    ensures PinsBounded(Moved(w, Other(e)))
  {
    NextKeepsValid(w.remux, e);
    OthersAddNoPins(w.remux, e);
    CapacityStays(w.remux, e);
  }

  lemma StartKeepsCapacity(s: State, stream: Stream, signature: string, playlist: bool, now: Time, call: Ref)
    requires RefsKnown(s)
    ensures Begin(s, stream, signature, playlist, now, call).0.capacity == s.capacity
  {
  }

  lemma CapacityStays(s: State, e: Event)
    requires RefsKnown(s) && Enabled(s, e)
    ensures Next(s, e).capacity == s.capacity
  {
    match e {
      case EStart(stream, signature, playlist, now, call) => StartKeepsCapacity(s, stream, signature, playlist, now, call);
      case _ =>
    }
  }

  lemma SettingOnePin(s: State, stream: Stream, pinned: bool, now: Time)
    requires RefsKnown(s) && RefsKnown(SetPinned(s, stream, pinned, now))
    requires TablesAgree(s)
    ensures Pins(SetPinned(s, stream, pinned, now)) <= if pinned then Pins(s) + {stream} else Pins(s) - {stream}
  {
  }

  lemma PinningKeepsBound(w: World, m: Move)
    requires PinsBounded(w) && CanMove(w, m) && (m.UnpinNext? || m.PinWanted?)
    ensures PinsBounded(Moved(w, m))
  {
    NextKeepsValid(w.remux, ESetPinned(m.stream, m.PinWanted?, m.now));
    SettingOnePin(w.remux, m.stream, m.PinWanted?, m.now);
  }

  lemma MoveKeepsBound(w: World, m: Move)
    requires PinsBounded(w) && CanMove(w, m)
    ensures PinsBounded(Moved(w, m))
  {
    match m {
      case Other(e) => OtherKeepsBound(w, e);
      case Reconcile(streams) => WantedIsBounded(streams, AlwaysOn.Min(|streams|, AlwaysOn.MaxRelays(w.remux.capacity, w.relayOnly)));
      case UnpinNext(_, _) => PinningKeepsBound(w, m);
      case PinWanted(_, _) => PinningKeepsBound(w, m);
      case _ =>
    }
  }

  ghost predicate Plays(w: World, moves: seq<Move>)
    decreases |moves|
  {
    moves == [] || (CanMove(w, moves[0]) && Plays(Moved(w, moves[0]), moves[1..]))
  }

  ghost function Outcome(w: World, moves: seq<Move>): World
    requires Plays(w, moves)
    decreases |moves|
  {
    if moves == [] then w else Outcome(Moved(w, moves[0]), moves[1..])
  }

  lemma {:induction false} PlaysKeepBound(w: World, moves: seq<Move>)
    requires PinsBounded(w) && Plays(w, moves)
    ensures PinsBounded(Outcome(w, moves))
    ensures Outcome(w, moves).remux.capacity == w.remux.capacity && Outcome(w, moves).relayOnly == w.relayOnly
    decreases |moves|
  {
    if moves != [] {
      MoveKeepsBound(w, moves[0]);
      if moves[0].Other? {
        CapacityStays(w.remux, moves[0].event);
      }
      PlaysKeepBound(Moved(w, moves[0]), moves[1..]);
    }
  }

  function NewWorld(capacity: nat, relayOnly: bool): World {
    World(Initial(capacity), relayOnly, Resting, {}, {})
  }

  /** The streams the last reconciliation of the run loaded. */
  function LastLoaded(moves: seq<Move>): Option<seq<int>> {
    if moves == [] then None
    else if LastLoaded(moves[1..]).Some? then LastLoaded(moves[1..])
    else if moves[0].Reconcile? then Some(moves[0].streams)
    else None
  }

  /** What is wanted is a matter of the streams loaded last. */
  lemma {:induction false} WantedIsLoadedLast(w: World, moves: seq<Move>)
    requires PinsBounded(w) && Plays(w, moves)
    ensures var t, last := Outcome(w, moves), LastLoaded(moves);
            t.want == if last.Some? then Wanted(last.value, w.remux.capacity, w.relayOnly) else w.want
    decreases |moves|
  {
    if moves != [] {
      MoveKeepsBound(w, moves[0]);
      OneMoveWants(w, moves[0]);
      WantedIsLoadedLast(Moved(w, moves[0]), moves[1..]);
    }
  }

  lemma OneMoveWants(w: World, m: Move)
    requires CanMove(w, m)
    ensures var t := Moved(w, m);
            && t.relayOnly == w.relayOnly && t.remux.capacity == w.remux.capacity
            && t.want == if m.Reconcile? then Wanted(m.streams, w.remux.capacity, w.relayOnly) else w.want
  {
    if m.Other? {
      CapacityStays(w.remux, m.event);
    }
  }

  /** Only the pins the reconciliation found stale are taken off, and then the work starts. */
  lemma {:induction false} UnpinningEnds(w: World, now: Time) returns (moves: seq<Move>)
    requires PinsBounded(w) && w.stage.Unpinning?
    ensures Plays(w, moves)
    ensures var t := Outcome(w, moves); t.stage.Working? && t.want == w.want && t.remux.sessions == w.remux.sessions
    ensures forall m :: m in moves && m.UnpinNext? ==> m.stream in w.stage.todo
    decreases |w.stage.todo|
  {
    if w.stage.todo == {} {
      moves := [StartWork];
      assert Moved(w, StartWork).stage.Working? && [StartWork][1..] == [];
      assert Plays(Moved(w, StartWork), []);
    } else {
      var stream :| stream in w.stage.todo;
      var first := UnpinNext(stream, now);
      MoveKeepsBound(w, first);
      var rest := UnpinningEnds(Moved(w, first), now);
      moves := [first] + rest;
      assert moves[1..] == rest;
    }
  }

  /**
    From the moment the stale pins have been cleared until the next reconciliation only wanted
    streams are pinned, and at every moment no more of them than may be wanted at once.
   */
  lemma PinsStayWithinTheWanted(capacity: nat, relayOnly: bool, moves: seq<Move>)
    requires Plays(NewWorld(capacity, relayOnly), moves)
    ensures var w := Outcome(NewWorld(capacity, relayOnly), moves);
            && RefsKnown(w.remux)
            && |Pins(w.remux)| <= (if capacity == 0 then 1 else if relayOnly || capacity == 1 then capacity else capacity - 1)
            && (!w.stage.Unpinning? ==> Pins(w.remux) <= w.want)
            && w.want == (if LastLoaded(moves).Some? then Wanted(LastLoaded(moves).value, capacity, relayOnly) else {})
  {
    InitialIsValid(capacity);
    PlaysKeepBound(NewWorld(capacity, relayOnly), moves);
    WantedIsLoadedLast(NewWorld(capacity, relayOnly), moves);
    var w := Outcome(NewWorld(capacity, relayOnly), moves);
    SubsetIsNoLarger(Pins(w.remux), w.bound);
  }

  /** On a gateway with two slots or more the pinned relays always leave one for viewers. */
  lemma ViewersKeepASlot(capacity: nat, moves: seq<Move>)
    requires capacity >= 2 && Plays(NewWorld(capacity, false), moves)
    ensures var w := Outcome(NewWorld(capacity, false), moves);
            RefsKnown(w.remux) && |Pins(w.remux)| + 1 <= capacity
  {
    PinsStayWithinTheWanted(capacity, false, moves);
  }

  /** A reconciliation wants the first streams it loads: all but one slot's worth, or every slot's on a relay-only node. */
  lemma FirstStreamsAreWanted(streams: seq<int>, slots: nat, relayOnly: bool, k: nat)
    requires k < |streams| && AlwaysOn.Distinct(streams)
    ensures Stream(streams[k]) in Wanted(streams, slots, relayOnly) <==>
            k < 1 || (if relayOnly then k < slots else k + 1 < slots)
  {
    var n := AlwaysOn.Min(|streams|, AlwaysOn.MaxRelays(slots, relayOnly));
    if k < n {
      assert Stream(streams[k]) in Wanted(streams, slots, relayOnly);
    }
  }

  lemma {:induction false} SubsetIsNoLarger(a: set<Stream>, b: set<Stream>)
    requires a <= b
    ensures |a| <= |b|
  {
    if a != {} {
      var x :| x in a;
      SubsetIsNoLarger(a - {x}, b - {x});
    }
  }
}

/** The remux manager's promises, over every run of its state machine. */
module RemuxTheorems {
  import opened Common
  import opened RemuxState
  import opened RemuxSafety

  // ---- slots ---------------------------------------------------------------

  ghost function OpenStarts(s: State): set<Ref> {
    set r | r in s.calls && Starting(s.calls[r])
  }

  ghost function UnreleasedProcesses(s: State): set<Ref> {
    set r | r in s.calls && Started(s.calls[r]) && !s.calls[r].phase.Released? && !s.calls[r].phase.Done?
  }

  lemma HoldersSplit(s: State)
    ensures Holders(s.calls) == OpenStarts(s) + UnreleasedProcesses(s) && OpenStarts(s) !! UnreleasedProcesses(s)
  {
    forall r ensures r in Holders(s.calls) <==> r in OpenStarts(s) || r in UnreleasedProcesses(s) {
    }
  }

  lemma HoldersAreStartsAndProcesses(s: State)
    requires SlotsValid(s)
    ensures s.slots == |OpenStarts(s)| + |UnreleasedProcesses(s)|
    ensures forall r :: AtPhase(s, r, Freeing) || AtPhase(s, r, Drained) ==> s.slots >= 1
  {
    HoldersSplit(s);
    forall r | AtPhase(s, r, Freeing) || AtPhase(s, r, Drained) ensures s.slots >= 1 {
      assert r in Holders(s.calls);
    }
  }

  lemma {:induction false} CapacityIsFixed(s: State, events: seq<Event>)
    requires Runs(s, events)
    ensures After(s, events).capacity == s.capacity
    decreases |events|
  {
    if events != [] {
      CapacityIsFixed(Next(s, events[0]), events[1..]);
    }
  }

  /**
    In every interleaving the tokens are the Start calls that reserved and have neither
    committed nor released, plus the processes whose watch has not released; the cap holds,
    and whoever is about to receive from the channel finds a token there.
   */
  lemma SlotsAreAccountedFor(capacity: nat, events: seq<Event>)
    requires Runs(Initial(capacity), events)
    ensures var s := After(Initial(capacity), events);
            && s.slots == |OpenStarts(s)| + |UnreleasedProcesses(s)| <= capacity
            && (forall r :: AtPhase(s, r, Freeing) || AtPhase(s, r, Drained) ==> s.slots >= 1)
  {
    InitialIsValid(capacity);
    RunsKeepValid(Initial(capacity), events);
    var s := After(Initial(capacity), events);
    HoldersAreStartsAndProcesses(s);
    CapacityIsFixed(Initial(capacity), events);
  }

  // ---- tables and directories ----------------------------------------------

  /** How many of the three possible owners hold the call's directory. */
  function DirectoryOwners(s: State, r: Ref): nat
    requires r in s.calls
  {
    (if Started(s.calls[r]) then 0 else 1)
    + (if Registered(s, r) then 1 else 0)
    + (if s.calls[r].removal then 1 else 0)
  }

  /**
    `sessions` and `byID` agree in both directions, and every directory on disk belongs to
    exactly one of a start in progress, a registered session or a scheduled removal.
   */
  lemma TablesAndDirectoriesAgree(capacity: nat, events: seq<Event>)
    requires Runs(Initial(capacity), events)
    ensures var s := After(Initial(capacity), events);
            && (forall st :: st in s.sessions ==>
                  s.sessions[st] in s.calls && s.calls[s.sessions[st]].id in s.byID
                  && s.byID[s.calls[s.sessions[st]].id] == s.sessions[st])
            && (forall k :: k in s.byID ==>
                  s.byID[k] in s.calls && s.calls[s.byID[k]].stream in s.sessions
                  && s.sessions[s.calls[s.byID[k]].stream] == s.byID[k])
            && (forall r :: r in s.calls && s.calls[r].directory.Present? ==> DirectoryOwners(s, r) == 1)
            && (forall r :: Registered(s, r) ==> s.calls[r].directory.Present?)
  {
    InitialIsValid(capacity);
    RunsKeepValid(Initial(capacity), events);
    var s := After(Initial(capacity), events);
    forall r | r in s.calls && s.calls[r].directory.Present? ensures DirectoryOwners(s, r) == 1 {
      assert CallValid(s.calls[r]);
    }
    forall r | Registered(s, r) ensures s.calls[r].directory.Present? {
      assert CallValid(s.calls[r]);
    }
  }

  // ---- cancellation --------------------------------------------------------

  /** A start that was cancelled before it registered. */
  predicate Doomed(s: State, r: Ref) {
    r in s.calls && !Started(s.calls[r]) && (s.calls[r].phase.Opening? ==> s.calls[r].cancelled)
  }

  lemma BeginKeepsDoomed(s: State, stream: Stream, signature: string, playlist: bool, now: Time, call: Ref, r: Ref)
    requires RefsKnown(s) && call !in s.calls && Doomed(s, r)
    ensures Doomed(Begin(s, stream, signature, playlist, now, call).0, r)
  {
    var s1 := Settle(s, stream, signature, playlist, now).0;
    assert Doomed(s1, r);
    assert Doomed(Reserve(s1, stream, signature, call), r);
  }

  lemma CommitKeepsDoomed(s: State, q: Ref, id: string, spawned: bool, now: Time, r: Ref)
    requires RefsKnown(s) && Enabled(s, ECommit(q, id, spawned, now)) && Doomed(s, r)
    ensures Doomed(Commit(s, q, id, spawned, now).0, r)
  {
  }

  lemma ProgressKeepsDoomed(s: State, q: Ref, step: Step, r: Ref)
    requires RefsKnown(s) && Enabled(s, EStep(q, step)) && Doomed(s, r)
    ensures Doomed(Progress(s, q, step), r)
  {
  }

  lemma DoomedStaysDoomed(s: State, e: Event, r: Ref)
    requires RefsKnown(s) && Enabled(s, e) && Doomed(s, r)
    ensures Doomed(Next(s, e), r)
  {
    match e {
      case EStep(q, step) => ProgressKeepsDoomed(s, q, step, r);
      case EStart(stream, signature, playlist, now, call) => BeginKeepsDoomed(s, stream, signature, playlist, now, call, r);
      case ECommit(q, id, spawned, now) => CommitKeepsDoomed(s, q, id, spawned, now, r);
      case ELeavePending(q) => assert Doomed(LeavePending(s, q), r);
      case _ => OtherStepsKeepPhases(s, e);
    }
  }

  lemma {:induction false} DoomedForever(s: State, events: seq<Event>, r: Ref)
    requires Valid(s) && Runs(s, events) && Doomed(s, r)
    ensures Valid(After(s, events)) && Doomed(After(s, events), r)
    decreases |events|
  {
    if events != [] {
      NextKeepsValid(s, events[0]);
      DoomedStaysDoomed(s, events[0], r);
      DoomedForever(Next(s, events[0]), events[1..], r);
    }
  }

  lemma StopDooms(s: State, stream: Stream, r: Ref)
    requires RefsKnown(s) && PendingValid(s) && AtPhase(s, r, Opening) && s.calls[r].waiting && s.calls[r].stream == stream
    ensures Doomed(Stop(s, stream), r)
  {
    assert r in PendingOf(s, stream);
  }

  /** A pending start cancelled by Stop never registers, whatever happens afterwards. */
  lemma StoppedStartNeverRegisters(s: State, stream: Stream, r: Ref, events: seq<Event>)
    requires Valid(s) && AtPhase(s, r, Opening) && s.calls[r].stream == stream
    requires Runs(Stop(s, stream), events)
    ensures !Registered(After(Stop(s, stream), events), r)
  {
    NextKeepsValid(s, EStop(stream));
    StopDooms(s, stream, r);
    DoomedForever(Stop(s, stream), events, r);
  }

  lemma {:induction false} ClosedStaysClosed(s: State, events: seq<Event>)
    requires Valid(s) && s.closed && Runs(s, events)
    ensures Valid(After(s, events)) && After(s, events).closed
    decreases |events|
  {
    if events != [] {
      NextKeepsValid(s, events[0]);
      ClosedStaysClosed(Next(s, events[0]), events[1..]);
    }
  }

  /** Once Close has run no session is ever registered again. */
  lemma CloseIsFinal(s: State, events: seq<Event>)
    requires Valid(s) && Runs(CloseManager(s), events)
    ensures After(CloseManager(s), events).sessions == map[]
    ensures After(CloseManager(s), events).byID == map[]
  {
    NextKeepsValid(s, EClose);
    ClosedStaysClosed(CloseManager(s), events);
    var t := After(CloseManager(s), events);
    assert TablesAgree(t);
    assert t.byID.Keys == {};
  }

  // ---- bodies, and everything given back -----------------------------------

  /** No source body is closed twice, and a call past its exit has closed the one it obtained. */
  lemma BodiesAreClosedOnce(capacity: nat, events: seq<Event>, r: Ref)
    requires Runs(Initial(capacity), events)
    requires r in After(Initial(capacity), events).calls
    ensures var c := After(Initial(capacity), events).calls[r];
            c.closes <= 1
            && (c.phase.Returned? || c.phase.Drained? || c.phase.Released? || c.phase.Done? ==>
                  c.closes == if c.body.NoBody? then 0 else 1)
  {
    InitialIsValid(capacity);
    RunsKeepValid(Initial(capacity), events);
    assert CallValid(After(Initial(capacity), events).calls[r]);
  }

  /** Steps a call, its process or its goroutines take without a new request from outside. */
  predicate Internal(e: Event) {
    (e.EStep? && !e.step.AfterCancel?) || e.ECommit? || e.ELeavePending?
  }

  function Rank(c: Call): nat {
    match c.phase
    case Opening => 16 - (if c.directory.NoDirectory? then 0 else 1) - (if c.body.NoBody? then 0 else 1)
    case Running => 12 + (if c.waiting then 1 else 0)
    case Exited => 10 + (if c.waiting then 1 else 0)
    case Ended => 8 + (if c.waiting then 1 else 0)
    case Drained => 6 + (if c.waiting then 1 else 0)
    case Released => 4 + (if c.waiting then 1 else 0)
    case Done => (if c.waiting then 1 else 0) + (if c.directory.Present? then 1 else 0)
    case Abandoned => 6
    case Unwinding => 5
    case Closing => 4
    case Removing => 3
    case Freeing => 2
    case Returned => 0
  }

  /** Upper bound on the internal steps the given calls can still take. */
  ghost function Work(calls: map<Ref, Call>, refs: set<Ref>): nat
    requires refs <= calls.Keys
  {
    if refs == {} then 0 else
    var r :| r in refs;
    Rank(calls[r]) + Work(calls, refs - {r})
  }

  lemma {:induction false} WorkSplits(calls: map<Ref, Call>, refs: set<Ref>, r: Ref)
    requires refs <= calls.Keys && r in refs
    ensures Work(calls, refs) == Rank(calls[r]) + Work(calls, refs - {r})
    decreases refs
  {
    var q :| q in refs && Work(calls, refs) == Rank(calls[q]) + Work(calls, refs - {q});
    if q != r {
      WorkSplits(calls, refs - {q}, r);
      WorkSplits(calls, refs - {r}, q);
      assert refs - {q} - {r} == refs - {r} - {q};
    }
  }

  lemma {:induction false} WorkSame(calls: map<Ref, Call>, after: map<Ref, Call>, refs: set<Ref>)
    requires refs <= calls.Keys && refs <= after.Keys
    requires forall r :: r in refs ==> Rank(after[r]) == Rank(calls[r])
    ensures Work(after, refs) == Work(calls, refs)
    decreases refs
  {
    if refs != {} {
      var r :| r in refs;
      WorkSplits(calls, refs, r);
      WorkSplits(after, refs, r);
      WorkSame(calls, after, refs - {r});
    }
  }

  lemma StepLowersRank(c: Call, step: Step)
    requires CallValid(c) && CanTake(c, step) && !step.AfterCancel?
    ensures Rank(Take(c, step)) < Rank(c)
  {
  }

  lemma InternalStepsLowerRank(s: State, e: Event)
    requires Valid(s) && Enabled(s, e) && Internal(e)
    ensures Next(s, e).calls.Keys == s.calls.Keys
    ensures Rank(Next(s, e).calls[e.ref]) < Rank(s.calls[e.ref])
    ensures forall r :: r in s.calls && r != e.ref ==> Rank(Next(s, e).calls[r]) == Rank(s.calls[r])
  {
    assert CallValid(s.calls[e.ref]);
    if e.ECommit? {
      CommitLowersRank(s, e.ref, e.id, e.spawned, e.now);
    } else if e.EStep? {
      StepLowersRank(s.calls[e.ref], e.step);
    } else {
      LeavingLowersRank(s, e.ref);
    }
  }

  lemma LeavingLowersRank(s: State, r: Ref)
    requires Valid(s) && Enabled(s, ELeavePending(r))
    ensures var t := LeavePending(s, r);
            && t.calls.Keys == s.calls.Keys && Rank(t.calls[r]) < Rank(s.calls[r])
            && forall q :: q in s.calls && q != r ==> Rank(t.calls[q]) == Rank(s.calls[q])
  {
    assert CallValid(s.calls[r]);
  }

  lemma CommitLowersRank(s: State, r: Ref, id: string, spawned: bool, now: Time)
    requires RefsKnown(s) && r in s.calls && CallValid(s.calls[r]) && Enabled(s, ECommit(r, id, spawned, now))
    ensures var t := Commit(s, r, id, spawned, now).0;
            && t.calls.Keys == s.calls.Keys && Rank(t.calls[r]) < Rank(s.calls[r])
            && forall q :: q in s.calls && q != r ==> Rank(t.calls[q]) == Rank(s.calls[q])
  {
    var outcome := Commit(s, r, id, spawned, now).1;
    if outcome.Winner? {
      var w := outcome.session;
      assert Rank(s.calls[w].(lastUsed := now)) == Rank(s.calls[w]);
    }
  }

  lemma InternalStepsLowerWork(s: State, e: Event)
    requires Valid(s) && Enabled(s, e) && Internal(e)
    ensures Work(Next(s, e).calls, Next(s, e).calls.Keys) < Work(s.calls, s.calls.Keys)
  {
    var after := Next(s, e).calls;
    InternalStepsLowerRank(s, e);
    WorkSplits(s.calls, s.calls.Keys, e.ref);
    WorkSplits(after, after.Keys, e.ref);
    WorkSame(s.calls, after, s.calls.Keys - {e.ref});
  }

  /** Left alone, the manager comes to rest after a bounded number of steps. */
  lemma {:induction false} InternalRunsAreBounded(s: State, events: seq<Event>)
    requires Valid(s) && Runs(s, events)
    requires forall i :: 0 <= i < |events| ==> Internal(events[i])
    ensures |events| <= Work(s.calls, s.calls.Keys)
    decreases |events|
  {
    if events != [] {
      NextKeepsValid(s, events[0]);
      InternalStepsLowerWork(s, events[0]);
      InternalRunsAreBounded(Next(s, events[0]), events[1..]);
    }
  }

  ghost predicate AtRest(s: State) {
    forall e :: Internal(e) ==> !Enabled(s, e)
  }

  /** The internal step a call that is not finished can take next. */
  function OwnStep(s: State, r: Ref, unused: string): Event
    requires r in s.calls
  {
    var c := s.calls[r];
    match c.phase
    case Opening => if c.body.NoBody? then EStep(r, Fail) else ECommit(r, unused, false, 0)
    case Abandoned => ELeavePending(r)
    case Unwinding => EStep(r, CancelOwn)
    case Closing => EStep(r, CloseOwn)
    case Removing => EStep(r, RemoveOwn)
    case Freeing => EStep(r, FreeOwn)
    case Running => EStep(r, Exit)
    case Exited => EStep(r, CancelExited)
    case Ended => EStep(r, CloseExited)
    case Drained => EStep(r, ReleaseSlot)
    case Released => EStep(r, CloseDone)
    case _ => if c.waiting then ELeavePending(r) else EStep(r, RemoveDirectory)
  }

  lemma {:induction false} LongerThanAll(ids: set<string>) returns (n: nat)
    ensures forall id :: id in ids ==> |id| < n
    decreases |ids|
  {
    n := 0;
    if id :| id in ids {
      n := LongerThanAll(ids - {id});
      n := if |id| < n then n else |id| + 1;
    }
  }

  /** The finitely many identifiers in use leave one that is not. */
  lemma UnusedId(ids: set<string>) returns (unused: string)
    ensures unused !in ids
  {
    var n := LongerThanAll(ids);
    unused := seq(n, _ => 'a');
  }

  lemma CallAtRest(s: State, r: Ref)
    requires Valid(s) && AtRest(s) && r in s.calls
    ensures (s.calls[r].phase.Returned? || s.calls[r].phase.Done?) && !s.calls[r].waiting
    ensures s.calls[r].directory.Present? ==> Registered(s, r)
    ensures s.calls[r].closes == if s.calls[r].body.NoBody? then 0 else 1
  {
    assert CallValid(s.calls[r]);
    if Unfinished(s.calls[r]) {
      var unused := UnusedId(s.byID.Keys);
      OwnStepCanHappen(s, r, unused);
    }
  }

  predicate Unfinished(c: Call) {
    !(c.phase.Returned? || c.phase.Done?) || c.waiting || (c.directory.Present? && c.removal)
  }

  lemma OwnStepCanHappen(s: State, r: Ref, unused: string)
    requires unused !in s.byID && r in s.calls && CallValid(s.calls[r]) && Unfinished(s.calls[r])
    ensures Internal(OwnStep(s, r, unused)) && Enabled(s, OwnStep(s, r, unused))
  {
  }

  lemma WaiterOf(s: State, stream: Stream) returns (r: Ref)
    requires PendingValid(s) && stream in s.pending
    ensures r in s.calls && s.calls[r].waiting
  {
    r :| r in s.pending[stream];
  }

  lemma NoWaiterNothingPending(s: State)
    requires PendingValid(s) && forall r :: r in s.calls ==> !s.calls[r].waiting
    ensures s.pending == map[]
  {
    forall stream ensures stream !in s.pending {
      if stream in s.pending {
        var r := WaiterOf(s, stream);
      }
    }
  }

  /**
    A state with no internal step left has no call stuck half way: every slot is free, every
    obtained body was closed exactly once, every directory on disk belongs to a registered
    session and nothing is pending.
   */
  lemma RestMeansEverythingGivenBack(s: State)
    requires Valid(s) && AtRest(s)
    ensures s.slots == 0 && s.pending == map[]
    ensures forall r :: r in s.calls ==> s.calls[r].closes == if s.calls[r].body.NoBody? then 0 else 1
    ensures forall r :: r in s.calls && s.calls[r].directory.Present? ==> Registered(s, r)
  {
    forall r | r in s.calls
      ensures (s.calls[r].phase.Returned? || s.calls[r].phase.Done?) && !s.calls[r].waiting
      ensures s.calls[r].directory.Present? ==> Registered(s, r)
      ensures s.calls[r].closes == if s.calls[r].body.NoBody? then 0 else 1
    {
      CallAtRest(s, r);
    }
    assert Holders(s.calls) == {};
    NoWaiterNothingPending(s);
  }

  // ---- which session a caller gets -----------------------------------------

  /** Existing, and Start before it reserves, only hand out the stream's session for that very source. */
  lemma ReuseMatchesTheSource(s: State, stream: Stream, signature: string, playlist: bool, now: Time, call: Ref)
    requires Valid(s)
    ensures var (t, found) := Existing(s, stream, signature, playlist, now);
            found.Some? ==> Registered(t, found.value) && t.calls[found.value].stream == stream && t.calls[found.value].signature == signature
    ensures var (t, outcome) := Begin(s, stream, signature, playlist, now, call);
            outcome.Reused? ==> Registered(t, outcome.session)
                                && t.calls[outcome.session].stream == stream && t.calls[outcome.session].signature == signature
  {
  }

  /** A session is found by its identifier exactly when it is registered for the very stream asked for. */
  lemma FoundForItsOwnStream(s: State, stream: Stream, id: string, now: Time, r: Ref)
    requires Valid(s)
    ensures Use(s, stream, id, now).1 == Some(r) <==> Registered(s, r) && s.calls[r].stream == stream && s.calls[r].id == id
  {
    if Registered(s, r) {
      assert s.sessions[s.calls[r].stream] == r;
    }
  }

  /** A start that lost the race gets the session registered for its stream, and not one of its own. */
  lemma LoserGetsTheWinner(s: State, r: Ref, id: string, spawned: bool, now: Time)
    requires Valid(s) && Enabled(s, ECommit(r, id, spawned, now)) && Commit(s, r, id, spawned, now).1.Winner?
    ensures var w := Commit(s, r, id, spawned, now).1.session;
            Registered(s, w) && w != r && s.calls[w].stream == s.calls[r].stream
            && Registered(Commit(s, r, id, spawned, now).0, w)
  {
  }

  /** A Start call that has reserved a slot and obtained its body. */
  function Ready(stream: Stream, signature: string): Call {
    NewCall(stream, signature).(directory := Present, body := Open)
  }

  function Opens(stream: Stream, signature: string, r: Ref): seq<Event> {
    [EStart(stream, signature, false, 0, r), EStep(r, MakeDirectory), EStep(r, OpenBody)]
  }

  lemma OpensReady(s: State, stream: Stream, signature: string, r: Ref, rest: seq<Event>)
    requires RefsKnown(s) && r !in s.calls && !s.closed && stream !in s.sessions && s.slots < s.capacity
    ensures var t := Reserve(s, stream, signature, r).(calls := s.calls[r := Ready(stream, signature)]);
            && RefsKnown(t)
            && (Runs(t, rest) ==> Runs(s, Opens(stream, signature, r) + rest) && After(s, Opens(stream, signature, r) + rest) == After(t, rest))
  {
    var events := Opens(stream, signature, r) + rest;
    var s1 := Next(s, events[0]);
    var s2 := Next(s1, events[1]);
    var s3 := Next(s2, events[2]);
    assert s3 == Reserve(s, stream, signature, r).(calls := s.calls[r := Ready(stream, signature)]);
    var t := s3;
    assert events[1..][1..][1..] == rest;
    assert events[1..][0] == events[1] && events[1..][1..][0] == events[2];
    if Runs(t, rest) {
      assert Runs(s2, events[1..][1..]) && After(s2, events[1..][1..]) == After(t, rest);
      assert Runs(s1, events[1..]) && After(s1, events[1..]) == After(t, rest);
    }
  }

  /** A run in which the two sources differ: two viewers race across a change of source. */
  lemma LostRaceCanReturnAnotherSource(before: string, after: string)
    requires before != after
    ensures var events := Opens(Stream(1), after, 0) + (Opens(Stream(1), before, 1) + [ECommit(1, "id", true, 0)]);
            && Runs(Initial(2), events)
            && var s := After(Initial(2), events);
               && Enabled(s, ECommit(0, "other", true, 0)) && RefsKnown(s)
               && var (t, outcome) := Commit(s, 0, "other", true, 0);
                  && s.calls[0].signature == after
                  && outcome.Winner? && outcome.session in t.calls && t.calls[outcome.session].signature == before
  {
    var commit := ECommit(1, "id", true, 0);
    var s0 := Initial(2);
    OpensReady(s0, Stream(1), after, 0, Opens(Stream(1), before, 1) + [commit]);
    var s3 := Reserve(s0, Stream(1), after, 0).(calls := s0.calls[0 := Ready(Stream(1), after)]);
    OpensReady(s3, Stream(1), before, 1, [commit]);
    var s6 := Reserve(s3, Stream(1), before, 1).(calls := s3.calls[1 := Ready(Stream(1), before)]);
    var s7 := Next(s6, commit);
    assert Runs(s7, []) && After(s7, []) == s7;
    assert [commit][1..] == [];
    assert Runs(s6, [commit]) && After(s6, [commit]) == s7;
  }

  /** The reaper stops exactly the registered sessions that are unpinned and idle, and no other. */
  lemma ReaperTakesExactlyTheIdle(s: State, now: Time, r: Ref)
    requires Valid(s) && Registered(s, r)
    ensures Registered(Next(s, EReapIdle(now)), r) <==> s.calls[r].pinned || now - s.calls[r].lastUsed <= IDLE_TIME
  {
    assert r in IdleSessions(s, now) <==> Idle(s, r, now);
  }
}

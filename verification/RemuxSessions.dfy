/**
  When sessions come and go: what a start is answered, when it registers, how long a session is
  kept and what ends it, told from the events of a run and what their callers were answered.
 */
module RemuxSessions {
  import opened Common
  import opened RemuxState
  import opened RemuxSafety
  import opened RemuxRaces
  import RemuxTheorems

  // ---- what ends a session --------------------------------------------------

  /** The part of the invariant the steps below need. */
  ghost predicate Filed(s: State) {
    RefsKnown(s) && forall st :: st in s.sessions ==> s.calls[s.sessions[st]].stream == st
  }

  lemma ValidIsFiled(s: State)
    requires Valid(s)
    ensures Filed(s)
  {
  }

  /** What a step must be to end the registered session `r`. */
  predicate Ends(s: State, e: Event, r: Ref)
    requires r in s.calls
  {
    var c := s.calls[r];
    match e
    case EStart(stream, signature, playlist, _, _) =>
      !s.closed && stream == c.stream && (signature != c.signature || (!playlist && c.phase.Done?))
    case EExisting(stream, signature, playlist, _) =>
      stream == c.stream && signature == c.signature && !playlist && c.phase.Done?
    case EStop(stream) => stream == c.stream
    case EClose => true
    case EReapIdle(now) => !c.pinned && now - c.lastUsed > 90
    case _ => false
  }

  lemma SettleEndsExactly(s: State, stream: Stream, signature: string, playlist: bool, now: Time, r: Ref)
    requires Filed(s) && Registered(s, r)
    ensures var c, t := s.calls[r], Settle(s, stream, signature, playlist, now).0;
            && r in t.calls && t.calls[r].stream == c.stream
            && (Registered(t, r) <==> !(stream == c.stream && (signature != c.signature || (!playlist && c.phase.Done?))))
  {
  }

  lemma ReserveEndsNone(s: State, stream: Stream, signature: string, call: Ref, r: Ref)
    requires call !in s.calls && r in s.calls
    ensures Registered(Reserve(s, stream, signature, call), r) <==> Registered(s, r)
  {
  }

  lemma StartEndsExactly(s: State, stream: Stream, signature: string, playlist: bool, now: Time, call: Ref, r: Ref)
    requires Filed(s) && call !in s.calls && Registered(s, r)
    ensures !Registered(Begin(s, stream, signature, playlist, now, call).0, r) <==>
            Ends(s, EStart(stream, signature, playlist, now, call), r)
  {
    var s1 := Settle(s, stream, signature, playlist, now).0;
    SettleEndsExactly(s, stream, signature, playlist, now, r);
    assert call !in s1.calls;
    ReserveEndsNone(s1, stream, signature, call, r);
  }

  lemma CommitAddsAtMostOne(s: State, q: Ref, id: string, spawned: bool, now: Time)
    requires RefsKnown(s) && q in s.calls
    ensures var t := Commit(s, q, id, spawned, now).0;
            t.sessions == s.sessions || (s.calls[q].stream !in s.sessions && t.sessions == s.sessions[s.calls[q].stream := q])
  {
  }

  lemma CommitEndsNone(s: State, q: Ref, id: string, spawned: bool, now: Time, r: Ref)
    requires RefsKnown(s) && q in s.calls && Registered(s, r)
    ensures Registered(Commit(s, q, id, spawned, now).0, r)
  {
    CommitAddsAtMostOne(s, q, id, spawned, now);
    CommitKeepsRows(s, q, id, spawned, now);
    assert RowKept(s.calls[r], Commit(s, q, id, spawned, now).0.calls[r]);
  }

  lemma StopEndsExactly(s: State, stream: Stream, r: Ref)
    requires Filed(s) && Registered(s, r)
    ensures !Registered(Stop(s, stream), r) <==> stream == s.calls[r].stream
  {
  }

  lemma StopAllEndsExactly(s: State, refs: set<Ref>, r: Ref)
    requires Registered(s, r)
    ensures !Registered(StopAll(s, refs), r) <==> r in refs
  {
  }

  lemma CloseEnds(s: State, r: Ref)
    requires Registered(s, r)
    ensures !Registered(CloseManager(s), r)
  {
    assert s.sessions[s.calls[r].stream] in AllSessions(s);
  }

  lemma ReapEndsExactly(s: State, now: Time, r: Ref)
    requires Filed(s) && Registered(s, r)
    ensures !Registered(StopAll(s, IdleSessions(s, now)), r) <==> !s.calls[r].pinned && now - s.calls[r].lastUsed > 90
  {
    StopAllEndsExactly(s, IdleSessions(s, now), r);
    assert r in IdleSessions(s, now) <==> Idle(s, r, now);
  }

  lemma ExistingEndsExactly(s: State, stream: Stream, signature: string, playlist: bool, now: Time, r: Ref)
    requires Filed(s) && Registered(s, r)
    ensures !Registered(Existing(s, stream, signature, playlist, now).0, r) <==> Ends(s, EExisting(stream, signature, playlist, now), r)
  {
  }

  lemma LeavingEndsNone(s: State, q: Ref, r: Ref)
    requires q in s.calls
    ensures Registered(LeavePending(s, q), r) <==> Registered(s, r)
  {
  }

  lemma PinningEndsNone(s: State, stream: Stream, pinned: bool, now: Time, r: Ref)
    requires RefsKnown(s)
    ensures Registered(SetPinned(s, stream, pinned, now), r) <==> Registered(s, r)
  {
  }

  lemma LookingUpEndsNone(s: State, stream: Stream, id: string, now: Time, r: Ref)
    requires RefsKnown(s)
    ensures Registered(Use(s, stream, id, now).0, r) <==> Registered(s, r)
  {
  }

  lemma ProgressEndsNone(s: State, q: Ref, step: Step, r: Ref)
    requires q in s.calls && CanTake(s.calls[q], step)
    ensures Registered(Progress(s, q, step), r) <==> Registered(s, r)
  {
    TakeKeepsSource(s.calls[q], step);
  }

  /** A registered session ends at a step exactly if the step is one of those named in `Ends`. */
  lemma SessionEndsExactly(s: State, e: Event, r: Ref)
    requires Valid(s) && Enabled(s, e) && Registered(s, r)
    ensures !Registered(Next(s, e), r) <==> Ends(s, e, r)
  {
    ValidIsFiled(s);
    FiledSessionEndsExactly(s, e, r);
  }

  lemma FiledSessionEndsExactly(s: State, e: Event, r: Ref)
    requires Filed(s) && Enabled(s, e) && Registered(s, r)
    ensures !Registered(Next(s, e), r) <==> Ends(s, e, r)
  {
    match e {
      case EStart(stream, signature, playlist, now, call) => StartEndsExactly(s, stream, signature, playlist, now, call, r);
      case EExisting(stream, signature, playlist, now) => ExistingEndsExactly(s, stream, signature, playlist, now, r);
      case ECommit(q, id, spawned, now) => CommitEndsNone(s, q, id, spawned, now, r);
      case EStop(stream) => StopEndsExactly(s, stream, r);
      case EClose => CloseEnds(s, r);
      case EReapIdle(now) => ReapEndsExactly(s, now, r);
      case EStep(q, step) => ProgressEndsNone(s, q, step, r);
      case ELeavePending(q) => LeavingEndsNone(s, q, r);
      case ESetPinned(stream, pinned, now) => PinningEndsNone(s, stream, pinned, now, r);
      case EUse(stream, id, now) => LookingUpEndsNone(s, stream, id, now, r);
    }
  }

  // ---- the last use of a session --------------------------------------------

  datatype Usage = Usage(session: Ref, at: Time)

  function UsageOf(session: Option<Ref>, at: Time): Option<Usage> {
    if session.Some? then Some(Usage(session.value, at)) else None
  }

  /** The session a caller was handed, registered, found or pinned by the event. */
  function UsedBy(s: State, e: Event): Option<Usage>
    requires RefsKnown(s) && Enabled(s, e)
  {
    match e
    case EStart(stream, signature, playlist, now, call) =>
      var outcome := Begin(s, stream, signature, playlist, now, call).1;
      if outcome.Reused? then Some(Usage(outcome.session, now)) else None
    case ECommit(r, id, spawned, now) =>
      var outcome := Commit(s, r, id, spawned, now).1;
      if outcome.Registers? then Some(Usage(r, now))
      else if outcome.Winner? then Some(Usage(outcome.session, now))
      else None
    case EExisting(stream, signature, playlist, now) => UsageOf(Existing(s, stream, signature, playlist, now).1, now)
    case EUse(stream, id, now) => UsageOf(Use(s, stream, id, now).1, now)
    case ESetPinned(stream, _, now) => UsageOf(if stream in s.sessions then Some(s.sessions[stream]) else None, now)
    case _ => None
  }

  /** When the run last used the session `r`. */
  ghost function LastUse(s: State, events: seq<Event>, r: Ref): Option<Time>
    requires Runs(s, events)
    decreases |events|
  {
    if events == [] then None else
    var later, use := LastUse(Next(s, events[0]), events[1..], r), UsedBy(s, events[0]);
    if later.Some? then later
    else if use.Some? && use.value.session == r then Some(use.value.at)
    else None
  }

  /** What the event sets the pin of session `r` to; a new session is not pinned. */
  function PinnedBy(s: State, e: Event, r: Ref): Option<bool>
    requires RefsKnown(s) && Enabled(s, e)
  {
    if e.ESetPinned? && e.stream in s.sessions && s.sessions[e.stream] == r then Some(e.pinned)
    else if RegisteredBy(s, e) == Some(r) then Some(false)
    else None
  }

  /** What the run last set the pin of session `r` to. */
  ghost function LastPin(s: State, events: seq<Event>, r: Ref): Option<bool>
    requires Runs(s, events)
    decreases |events|
  {
    if events == [] then None else
    var later := LastPin(Next(s, events[0]), events[1..], r);
    if later.Some? then later else PinnedBy(s, events[0], r)
  }

  /** A session there after a step was used by it, or was there before and not touched. */
  ghost predicate UseFollows(s: State, t: State, use: Option<Usage>, r: Ref) {
    Registered(t, r) ==>
      if use.Some? && use.value.session == r then t.calls[r].lastUsed == use.value.at
      else Registered(s, r) && t.calls[r].lastUsed == s.calls[r].lastUsed
  }

  ghost predicate PinFollows(s: State, t: State, pin: Option<bool>, r: Ref) {
    Registered(t, r) ==>
      if pin.Some? then t.calls[r].pinned == pin.value else Registered(s, r) && t.calls[r].pinned == s.calls[r].pinned
  }

  lemma SettleFollows(s: State, stream: Stream, signature: string, playlist: bool, now: Time, r: Ref)
    requires Filed(s)
    ensures var (t, reuse) := Settle(s, stream, signature, playlist, now);
            UseFollows(s, t, UsageOf(reuse, now), r) && PinFollows(s, t, None, r)
  {
  }

  lemma ReserveMarksNone(s: State, stream: Stream, signature: string, call: Ref, r: Ref)
    requires Filed(s) && call !in s.calls
    ensures UseFollows(s, Reserve(s, stream, signature, call), None, r) && PinFollows(s, Reserve(s, stream, signature, call), None, r)
  {
  }

  lemma StartFollowsMarks(s: State, stream: Stream, signature: string, playlist: bool, now: Time, call: Ref, r: Ref)
    requires Filed(s) && call !in s.calls
    ensures var t, e := Begin(s, stream, signature, playlist, now, call).0, EStart(stream, signature, playlist, now, call);
            UseFollows(s, t, UsedBy(s, e), r) && PinFollows(s, t, PinnedBy(s, e, r), r)
  {
    var (s1, reuse) := Settle(s, stream, signature, playlist, now);
    SettleFollows(s, stream, signature, playlist, now, r);
    SettleStaysFiled(s, stream, signature, playlist, now);
    ReserveMarksNone(s1, stream, signature, call, r);
    FollowsOn(s, s1, Reserve(s1, stream, signature, call), r);
  }

  /** What leaves the marks alone can be added to a step that does too. */
  lemma FollowsOn(s: State, s1: State, t: State, r: Ref)
    requires UseFollows(s1, t, None, r) && PinFollows(s1, t, None, r)
    ensures UseFollows(s, s1, None, r) ==> UseFollows(s, t, None, r)
    ensures PinFollows(s, s1, None, r) ==> PinFollows(s, t, None, r)
  {
  }

  lemma SettleStaysFiled(s: State, stream: Stream, signature: string, playlist: bool, now: Time)
    requires Filed(s)
    ensures Filed(Settle(s, stream, signature, playlist, now).0)
    ensures Settle(s, stream, signature, playlist, now).0.calls.Keys == s.calls.Keys
  {
  }

  lemma WinnerFollows(s: State, q: Ref, w: Ref, now: Time, r: Ref)
    requires q in s.calls && w in s.calls
    ensures var t := Abandon(Touch(s, w, now), q); UseFollows(s, t, Some(Usage(w, now)), r) && PinFollows(s, t, None, r)
  {
  }

  lemma AbandonFollows(s: State, q: Ref, r: Ref)
    requires q in s.calls
    ensures UseFollows(s, Abandon(s, q), None, r) && PinFollows(s, Abandon(s, q), None, r)
  {
  }

  lemma RegisterFollows(s: State, q: Ref, id: string, now: Time, r: Ref)
    requires q in s.calls && !s.calls[q].pinned
    ensures var t := Register(s, q, id, now);
            UseFollows(s, t, Some(Usage(q, now)), r) && PinFollows(s, t, if r == q then Some(false) else None, r)
  {
  }

  lemma CommitFollowsMarks(s: State, q: Ref, id: string, spawned: bool, now: Time, r: Ref)
    requires Filed(s) && Enabled(s, ECommit(q, id, spawned, now)) && !s.calls[q].pinned
    ensures var t, e := Commit(s, q, id, spawned, now).0, ECommit(q, id, spawned, now);
            UseFollows(s, t, UsedBy(s, e), r) && PinFollows(s, t, PinnedBy(s, e, r), r)
  {
    var outcome := Commit(s, q, id, spawned, now).1;
    if outcome.Winner? {
      WinnerFollows(s, q, outcome.session, now, r);
    } else if outcome.Registers? {
      RegisterFollows(s, q, id, now, r);
    } else {
      AbandonFollows(s, q, r);
    }
  }

  lemma ExistingFollows(s: State, stream: Stream, signature: string, playlist: bool, now: Time, r: Ref)
    requires Filed(s)
    ensures var (t, found) := Existing(s, stream, signature, playlist, now);
            UseFollows(s, t, UsageOf(found, now), r) && PinFollows(s, t, None, r)
  {
  }

  lemma LookUpFollows(s: State, stream: Stream, id: string, now: Time, r: Ref)
    requires RefsKnown(s)
    ensures var (t, found) := Use(s, stream, id, now);
            UseFollows(s, t, UsageOf(found, now), r) && PinFollows(s, t, None, r)
  {
  }

  lemma PinFollowsItself(s: State, stream: Stream, pinned: bool, now: Time, r: Ref)
    requires RefsKnown(s)
    ensures var t, e := SetPinned(s, stream, pinned, now), ESetPinned(stream, pinned, now);
            UseFollows(s, t, UsedBy(s, e), r) && PinFollows(s, t, PinnedBy(s, e, r), r)
  {
  }

  lemma StopFollows(s: State, stream: Stream, r: Ref)
    requires Filed(s)
    ensures UseFollows(s, Stop(s, stream), None, r) && PinFollows(s, Stop(s, stream), None, r)
  {
  }

  lemma StopAllFollows(s: State, refs: set<Ref>, r: Ref)
    ensures UseFollows(s, StopAll(s, refs), None, r) && PinFollows(s, StopAll(s, refs), None, r)
  {
  }

  lemma CloseFollows(s: State, r: Ref)
    ensures UseFollows(s, CloseManager(s), None, r) && PinFollows(s, CloseManager(s), None, r)
  {
    var s1 := s.(closed := true, calls := CancelAll(s.calls, AllPending(s)));
    assert UseFollows(s, s1, None, r) && PinFollows(s, s1, None, r);
    StopAllFollows(s1, AllSessions(s), r);
  }

  lemma LeavingFollows(s: State, q: Ref, r: Ref)
    requires q in s.calls
    ensures UseFollows(s, LeavePending(s, q), None, r) && PinFollows(s, LeavePending(s, q), None, r)
  {
  }

  lemma TakeKeepsMarks(c: Call, step: Step)
    requires CanTake(c, step)
    ensures Take(c, step).lastUsed == c.lastUsed && Take(c, step).pinned == c.pinned
  {
  }

  lemma ProgressFollows(s: State, q: Ref, step: Step, r: Ref)
    requires q in s.calls && CanTake(s.calls[q], step)
    ensures UseFollows(s, Progress(s, q, step), None, r) && PinFollows(s, Progress(s, q, step), None, r)
  {
    TakeKeepsMarks(s.calls[q], step);
    TakeKeepsSource(s.calls[q], step);
  }

  lemma StepFollowsMarks(s: State, e: Event, r: Ref)
    requires Filed(s) && Enabled(s, e) && (e.ECommit? ==> !s.calls[e.ref].pinned)
    ensures UseFollows(s, Next(s, e), UsedBy(s, e), r) && PinFollows(s, Next(s, e), PinnedBy(s, e, r), r)
  {
    match e {
      case EStart(stream, signature, playlist, now, call) => StartFollowsMarks(s, stream, signature, playlist, now, call, r);
      case ECommit(q, id, spawned, now) => CommitFollowsMarks(s, q, id, spawned, now, r);
      case EExisting(stream, signature, playlist, now) => ExistingFollows(s, stream, signature, playlist, now, r);
      case EUse(stream, id, now) => LookUpFollows(s, stream, id, now, r);
      case ESetPinned(stream, pinned, now) => PinFollowsItself(s, stream, pinned, now, r);
      case EStop(stream) => StopFollows(s, stream, r);
      case EClose => CloseFollows(s, r);
      case EReapIdle(now) => StopAllFollows(s, IdleSessions(s, now), r);
      case ELeavePending(q) => LeavingFollows(s, q, r);
      case EStep(q, step) => ProgressFollows(s, q, step, r);
    }
  }

  lemma CommitsUnpinned(s: State, e: Event)
    requires Valid(s) && Enabled(s, e)
    ensures e.ECommit? ==> !s.calls[e.ref].pinned
  {
    if e.ECommit? {
      assert CallValid(s.calls[e.ref]);
    }
  }

  lemma {:induction false} MarksAreTheLast(s: State, events: seq<Event>, r: Ref)
    requires Valid(s) && Runs(s, events) && Registered(After(s, events), r)
    ensures var t, last := After(s, events), LastUse(s, events, r);
            if last.Some? then t.calls[r].lastUsed == last.value
            else Registered(s, r) && t.calls[r].lastUsed == s.calls[r].lastUsed
    ensures var t, last := After(s, events), LastPin(s, events, r);
            if last.Some? then t.calls[r].pinned == last.value
            else Registered(s, r) && t.calls[r].pinned == s.calls[r].pinned
    decreases |events|
  {
    if events != [] {
      NextKeepsValid(s, events[0]);
      ValidIsFiled(s);
      CommitsUnpinned(s, events[0]);
      MarksAreTheLast(Next(s, events[0]), events[1..], r);
      StepFollowsMarks(s, events[0], r);
    }
  }

  /**
    In every run the reaper ends a registered session exactly if its pin was not last set, and the
    session was last registered, handed out, found or pinned more than ninety seconds before.
   */
  lemma SessionIsReapedExactly(capacity: nat, events: seq<Event>, r: Ref, now: Time)
    requires Runs(Initial(capacity), events) && Registered(After(Initial(capacity), events), r)
    requires RefsKnown(After(Initial(capacity), events))
    ensures var used, pin := LastUse(Initial(capacity), events, r), LastPin(Initial(capacity), events, r);
            && used.Some? && pin.Some?
            && (!Registered(Next(After(Initial(capacity), events), EReapIdle(now)), r) <==> !pin.value && now - used.value > 90)
  {
    InitialIsValid(capacity);
    RunsKeepValid(Initial(capacity), events);
    MarksAreTheLast(Initial(capacity), events, r);
    SessionEndsExactly(After(Initial(capacity), events), EReapIdle(now), r);
  }

  /** In every run a session is pinned exactly if the last call to set its pin said so. */
  lemma PinIsTheLastSet(capacity: nat, events: seq<Event>, r: Ref)
    requires Runs(Initial(capacity), events) && Registered(After(Initial(capacity), events), r)
    ensures LastPin(Initial(capacity), events, r) == Some(After(Initial(capacity), events).calls[r].pinned)
  {
    InitialIsValid(capacity);
    MarksAreTheLast(Initial(capacity), events, r);
  }

  // ---- what a start is answered ---------------------------------------------

  /** The session a request for this stream and source may share. */
  ghost predicate Fits(s: State, r: Ref, stream: Stream, signature: string, playlist: bool) {
    Registered(s, r) && s.calls[r].stream == stream && s.calls[r].signature == signature && (playlist || !s.calls[r].phase.Done?)
  }

  /** A request shares a session exactly if one of its stream and source is registered and still usable. */
  lemma SessionIsSharedExactly(s: State, stream: Stream, signature: string, playlist: bool, now: Time, call: Ref, r: Ref)
    requires Valid(s)
    ensures Existing(s, stream, signature, playlist, now).1 == Some(r) <==> Fits(s, r, stream, signature, playlist)
    ensures Begin(s, stream, signature, playlist, now, call).1 == Reused(r) <==> Fits(s, r, stream, signature, playlist)
  {
    ValidIsFiled(s);
    SharedExactly(s, stream, signature, playlist, now, call, r);
    assert s.closed ==> s.sessions == map[];
  }

  lemma SharedExactly(s: State, stream: Stream, signature: string, playlist: bool, now: Time, call: Ref, r: Ref)
    requires Filed(s)
    ensures Existing(s, stream, signature, playlist, now).1 == Some(r) <==> Fits(s, r, stream, signature, playlist)
    ensures Begin(s, stream, signature, playlist, now, call).1 == Reused(r) <==> !s.closed && Fits(s, r, stream, signature, playlist)
  {
  }

  /**
    A start that shares no session is refused exactly if the manager is closed, finds it full
    exactly if the unfinished starts and processes take every slot, and else reserves.
   */
  lemma StartIsAnsweredExactly(s: State, stream: Stream, signature: string, playlist: bool, now: Time, call: Ref)
    requires Valid(s) && call !in s.calls
    ensures var outcome := Begin(s, stream, signature, playlist, now, call).1;
            var used := |RemuxTheorems.OpenStarts(s)| + |RemuxTheorems.UnreleasedProcesses(s)|;
            && (outcome.Refused? <==> s.closed)
            && (outcome.Full? <==> !s.closed && !outcome.Reused? && used == s.capacity)
            && (outcome.Reserved? <==> !s.closed && !outcome.Reused? && used < s.capacity)
            && (outcome.Reserved? ==> outcome.call == call)
  {
    RemuxTheorems.HoldersAreStartsAndProcesses(s);
  }

  // ---- when a start succeeds ------------------------------------------------

  /** Somebody stopped the stream, or closed the manager. */
  ghost predicate CalledOff(events: seq<Event>, stream: Stream) {
    exists i :: 0 <= i < |events| && (events[i] == EStop(stream) || events[i].EClose?)
  }

  /** A pending start's context is cancelled by a stop of its stream and by nothing else. */
  ghost predicate CancelFollows(s: State, t: State, e: Event, r: Ref)
    requires r in s.calls
  {
    r in t.calls && t.calls[r].phase.Opening? ==>
      (t.calls[r].cancelled <==> s.calls[r].cancelled || e == EStop(s.calls[r].stream) || e.EClose?)
  }

  lemma StartFollowsCancel(s: State, stream: Stream, signature: string, playlist: bool, now: Time, call: Ref, r: Ref)
    requires Filed(s) && TablesAgree(s) && call !in s.calls && AtPhase(s, r, Opening)
    ensures CancelFollows(s, Begin(s, stream, signature, playlist, now, call).0, EStart(stream, signature, playlist, now, call), r)
  {
    var s1 := Settle(s, stream, signature, playlist, now).0;
    assert s1.calls[r] == s.calls[r];
  }

  lemma CommitFollowsCancel(s: State, q: Ref, id: string, spawned: bool, now: Time, r: Ref)
    requires RefsKnown(s) && q in s.calls && AtPhase(s, r, Opening)
    ensures CancelFollows(s, Commit(s, q, id, spawned, now).0, ECommit(q, id, spawned, now), r)
  {
  }

  lemma StopFollowsCancel(s: State, stream: Stream, r: Ref)
    requires Filed(s) && TablesAgree(s) && PendingValid(s) && AtPhase(s, r, Opening) && s.calls[r].waiting
    ensures CancelFollows(s, Stop(s, stream), EStop(stream), r)
  {
    assert r in PendingOf(s, stream) <==> s.calls[r].stream == stream;
  }

  lemma CloseFollowsCancel(s: State, r: Ref)
    requires PendingValid(s) && AtPhase(s, r, Opening) && s.calls[r].waiting
    ensures CancelFollows(s, CloseManager(s), EClose, r)
  {
    assert r in AllPending(s);
  }

  lemma ReapFollowsCancel(s: State, now: Time, r: Ref)
    requires RefsKnown(s) && TablesAgree(s) && AtPhase(s, r, Opening)
    ensures CancelFollows(s, StopAll(s, IdleSessions(s, now)), EReapIdle(now), r)
  {
    assert r !in IdleSessions(s, now);
  }

  lemma TouchesFollowCancel(s: State, e: Event, r: Ref)
    requires RefsKnown(s) && TablesAgree(s) && AtPhase(s, r, Opening) && Enabled(s, e)
    requires e.EExisting? || e.ESetPinned? || e.EUse? || e.ELeavePending?
    ensures CancelFollows(s, Next(s, e), e, r)
  {
  }

  lemma ProgressFollowsCancel(s: State, q: Ref, step: Step, r: Ref)
    requires q in s.calls && CanTake(s.calls[q], step) && AtPhase(s, r, Opening)
    ensures CancelFollows(s, Progress(s, q, step), EStep(q, step), r)
  {
    StepFrame(s.calls[q], step);
  }

  lemma StepFollowsCancel(s: State, e: Event, r: Ref)
    requires Valid(s) && Enabled(s, e) && AtPhase(s, r, Opening)
    ensures CancelFollows(s, Next(s, e), e, r)
  {
    assert CallValid(s.calls[r]);
    ValidIsFiled(s);
    match e {
      case EStart(stream, signature, playlist, now, call) => StartFollowsCancel(s, stream, signature, playlist, now, call, r);
      case ECommit(q, id, spawned, now) => CommitFollowsCancel(s, q, id, spawned, now, r);
      case EStop(stream) => StopFollowsCancel(s, stream, r);
      case EClose => CloseFollowsCancel(s, r);
      case EReapIdle(now) => ReapFollowsCancel(s, now, r);
      case EStep(q, step) => ProgressFollowsCancel(s, q, step, r);
      case _ => TouchesFollowCancel(s, e, r);
    }
  }

  lemma {:induction false} CancelledExactly(s: State, events: seq<Event>, r: Ref)
    requires Valid(s) && Runs(s, events) && AtPhase(s, r, Opening) && AtPhase(After(s, events), r, Opening)
    ensures After(s, events).calls[r].cancelled <==> s.calls[r].cancelled || CalledOff(events, s.calls[r].stream)
    decreases |events|
  {
    if events != [] {
      var e, t, rest := events[0], Next(s, events[0]), events[1..];
      NextKeepsValid(s, e);
      StepFollows(s, e);
      OldRow(s, t, e, r);
      StillOpening(t, rest, r);
      StepFollowsCancel(s, e, r);
      CancelledExactly(t, rest, r);
      CalledOffFirst(events, s.calls[r].stream);
    }
  }

  lemma CalledOffFirst(events: seq<Event>, stream: Stream)
    requires events != []
    ensures CalledOff(events, stream) <==> events[0] == EStop(stream) || events[0].EClose? || CalledOff(events[1..], stream)
  {
    if CalledOff(events[1..], stream) {
      var i :| 0 <= i < |events[1..]| && (events[1..][i] == EStop(stream) || events[1..][i].EClose?);
      assert events[i + 1] == events[1..][i];
    }
    if CalledOff(events, stream) {
      var i :| 0 <= i < |events| && (events[i] == EStop(stream) || events[i].EClose?);
      assert i > 0 ==> events[1..][i - 1] == events[i];
    }
  }

  /** Who is opening after a run was opening before it. */
  lemma {:induction false} StillOpening(s: State, events: seq<Event>, r: Ref)
    requires Runs(s, events) && r in s.calls && AtPhase(After(s, events), r, Opening)
    ensures AtPhase(s, r, Opening)
    decreases |events|
  {
    if events != [] {
      StepFollows(s, events[0]);
      OldRow(s, Next(s, events[0]), events[0], r);
      StillOpening(Next(s, events[0]), events[1..], r);
    }
  }

  /**
    A start that has reserved and reaches its second locked region registers its session exactly if
    since then nobody stopped its stream or closed the manager, nobody else holds the stream, and
    the process was spawned.
   */
  lemma StartSucceedsExactly(s: State, start: Event, events: seq<Event>, commit: Event)
    requires Valid(s) && start.EStart? && Enabled(s, start)
    requires Begin(s, start.stream, start.signature, start.playlist, start.now, start.call).1.Reserved?
    requires Runs(Next(s, start), events) && commit.ECommit? && commit.ref == start.call
    requires RefsKnown(After(Next(s, start), events)) && Enabled(After(Next(s, start), events), commit)
    ensures var s1 := After(Next(s, start), events);
            Registered(Next(s1, commit), start.call) <==>
              !CalledOff(events, start.stream) && start.stream !in s1.sessions && commit.spawned
  {
    var s0, r := Next(s, start), start.call;
    var s1 := After(s0, events);
    NextKeepsValid(s, start);
    RunsKeepValid(s0, events);
    ReservedIsOpening(s, start);
    CancelledExactly(s0, events, r);
    RowsKeepTheirSource(s0, events, r);
    CommitRegistersExactly(s1, r, commit.id, commit.spawned, commit.now);
    assert s1.closed ==> s1.calls[r].cancelled;
  }

  lemma ReservedIsOpening(s: State, start: Event)
    requires RefsKnown(s) && start.EStart? && Enabled(s, start)
    requires Begin(s, start.stream, start.signature, start.playlist, start.now, start.call).1.Reserved?
    ensures var t, r := Next(s, start), start.call;
            AtPhase(t, r, Opening) && !t.calls[r].cancelled && t.calls[r].stream == start.stream
  {
  }

  lemma CommitRegistersExactly(s: State, r: Ref, id: string, spawned: bool, now: Time)
    requires RefsKnown(s) && TablesAgree(s) && Enabled(s, ECommit(r, id, spawned, now))
    ensures Registered(Commit(s, r, id, spawned, now).0, r) <==>
            !s.calls[r].cancelled && !s.closed && s.calls[r].stream !in s.sessions && spawned
  {
  }
}

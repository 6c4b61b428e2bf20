/** What every interleaving of the remux manager's steps keeps. */
module RemuxSafety {
  import opened Common
  import opened RemuxState

  // ---- the invariant -------------------------------------------------------

  ghost function Holders(calls: map<Ref, Call>): set<Ref> {
    set r | r in calls && HoldsSlot(calls[r])
  }

  /** The slots channel holds one token per holder, and never more than its capacity. */
  ghost predicate SlotsValid(s: State) {
    s.slots == |Holders(s.calls)| && s.slots <= s.capacity
  }

  /** `sessions` and `byID` describe the same set of sessions. */
  ghost predicate TablesAgree(s: State) {
    && (forall st :: st in s.sessions ==>
          var r := s.sessions[st];
          r in s.calls && s.calls[r].stream == st && Started(s.calls[r]) && !s.calls[r].removal
          && s.calls[r].id in s.byID && s.byID[s.calls[r].id] == r)
    && (forall k :: k in s.byID ==>
          var r := s.byID[k];
          r in s.calls && s.calls[r].id == k && s.calls[r].stream in s.sessions && s.sessions[s.calls[r].stream] == r)
  }

  /** `pending` lists exactly the waiting calls, without empty entries. */
  ghost predicate PendingValid(s: State) {
    && (forall st :: st in s.pending ==> s.pending[st] != {})
    && (forall st, r :: st in s.pending && r in s.pending[st] ==> r in s.calls && s.calls[r].waiting && s.calls[r].stream == st)
    && (forall r :: r in s.calls && s.calls[r].waiting ==> s.calls[r].stream in s.pending && r in s.pending[s.calls[r].stream])
  }

  /** What each program point says about the resources the call owns. */
  predicate CallValid(c: Call) {
    && c.closes == (if c.body.Closed? then 1 else 0)
    && (!Started(c) ==> !c.removal && !c.pinned)
    && (c.removal ==> c.cancelled)
    && match c.phase
       case Opening | Abandoned => c.waiting && !c.directory.Removed? && !c.body.Closed? && (c.body.Open? ==> c.directory.Present?)
       case Unwinding => !c.waiting && !c.directory.Removed? && !c.body.Closed? && (c.body.Open? ==> c.directory.Present?)
       case Closing => !c.waiting && c.cancelled && !c.directory.Removed? && !c.body.Closed? && (c.body.Open? ==> c.directory.Present?)
       case Removing => !c.waiting && c.cancelled && !c.directory.Removed? && !c.body.Open?
       case Freeing | Returned => !c.waiting && c.cancelled && !c.directory.Present? && !c.body.Open?
       case Running | Exited => c.directory.Present? && (c.body.Open? || (c.body.Closed? && c.cancelled))
       case Ended => c.directory.Present? && c.cancelled && !c.body.NoBody?
       case Drained | Released => c.directory.Present? && c.body.Closed? && c.cancelled
       case Done => c.body.Closed? && c.cancelled && (c.directory.Present? || (c.directory.Removed? && c.removal))
  }

  ghost predicate CallsValid(s: State) {
    forall r :: r in s.calls ==> CallValid(s.calls[r])
  }

  /** A session that is no longer registered has its removal scheduled. */
  ghost predicate NothingForgotten(s: State) {
    forall r :: r in s.calls && Started(s.calls[r]) && !Registered(s, r) ==> s.calls[r].removal
  }

  ghost predicate ClosedForGood(s: State) {
    s.closed ==> s.sessions == map[] && forall r :: r in s.calls && s.calls[r].phase.Opening? ==> s.calls[r].cancelled
  }

  ghost predicate TablesValid(s: State) {
    TablesAgree(s) && NothingForgotten(s)
  }

  ghost predicate OwnersValid(s: State) {
    PendingValid(s) && CallsValid(s) && ClosedForGood(s)
  }

  /** Everything but the slot count. */
  ghost predicate Ordered(s: State) {
    TablesValid(s) && OwnersValid(s)
  }

  ghost predicate Valid(s: State) {
    SlotsValid(s) && Ordered(s)
  }

  // ---- slot accounting -----------------------------------------------------

  lemma HoldersAfterUpdate(calls: map<Ref, Call>, r: Ref, c: Call)
    ensures Holders(calls[r := c]) == if HoldsSlot(c) then Holders(calls) + {r} else Holders(calls) - {r}
  {
  }

  lemma HoldersSame(calls: map<Ref, Call>, after: map<Ref, Call>)
    requires after.Keys == calls.Keys
    requires forall r :: r in calls ==> after[r].phase == calls[r].phase
    ensures Holders(after) == Holders(calls)
  {
  }

  lemma SettleKeepsSlots(s: State, stream: Stream, signature: string, playlist: bool, now: Time)
    requires SlotsValid(s) && RefsKnown(s)
    ensures SlotsValid(Settle(s, stream, signature, playlist, now).0)
    ensures Settle(s, stream, signature, playlist, now).0.calls.Keys == s.calls.Keys
  {
    HoldersSame(s.calls, Settle(s, stream, signature, playlist, now).0.calls);
  }

  function Tokens(c: Call): int {
    if HoldsSlot(c) then 1 else 0
  }

  /** One call changes: the token count must move by what the call's phase says. */
  lemma OneCallKeepsSlots(s: State, r: Ref, c: Call, slots: int)
    requires SlotsValid(s)
    requires r in s.calls && slots == s.slots + Tokens(c) - Tokens(s.calls[r])
    requires Tokens(c) <= Tokens(s.calls[r])
    ensures slots == |Holders(s.calls[r := c])| <= s.capacity
  {
    HoldersAfterUpdate(s.calls, r, c);
    if HoldsSlot(s.calls[r]) {
      assert r in Holders(s.calls);
    }
  }

  lemma ReserveKeepsSlots(s: State, stream: Stream, signature: string, call: Ref)
    requires SlotsValid(s) && s.slots < s.capacity && call !in s.calls
    ensures SlotsValid(Reserve(s, stream, signature, call))
  {
    HoldersAfterUpdate(s.calls, call, NewCall(stream, signature));
    assert call !in Holders(s.calls);
  }

  lemma StartKeepsSlots(s: State, stream: Stream, signature: string, playlist: bool, now: Time, call: Ref)
    requires SlotsValid(s) && RefsKnown(s) && call !in s.calls
    ensures SlotsValid(Begin(s, stream, signature, playlist, now, call).0)
  {
    var s1 := Settle(s, stream, signature, playlist, now).0;
    SettleKeepsSlots(s, stream, signature, playlist, now);
    if s1.slots < s1.capacity {
      ReserveKeepsSlots(s1, stream, signature, call);
    }
  }

  lemma CommitKeepsSlots(s: State, r: Ref, id: string, spawned: bool, now: Time)
    requires SlotsValid(s) && RefsKnown(s) && Enabled(s, ECommit(r, id, spawned, now))
    ensures SlotsValid(Commit(s, r, id, spawned, now).0)
  {
    var (t, outcome) := Commit(s, r, id, spawned, now);
    if outcome.Winner? {
      var touched := Touch(s, outcome.session, now);
      HoldersSame(s.calls, touched.calls);
      OneCallKeepsSlots(touched, r, touched.calls[r].(phase := Abandoned), s.slots);
    } else {
      OneCallKeepsSlots(s, r, t.calls[r], s.slots);
    }
  }

  /** No call changes phase and no cancelled context comes back. */
  ghost predicate SamePhases(s: State, t: State) {
    && t.calls.Keys == s.calls.Keys && t.slots == s.slots && t.capacity == s.capacity
    && (forall r :: r in s.calls ==> t.calls[r].phase == s.calls[r].phase)
    && (forall r :: r in s.calls && s.calls[r].cancelled ==> t.calls[r].cancelled)
  }

  lemma StopKeepsPhases(s: State, stream: Stream)
    requires RefsKnown(s)
    ensures SamePhases(s, Stop(s, stream))
  {
    assert SamePhases(s, s.(calls := CancelAll(s.calls, PendingOf(s, stream))));
  }

  lemma CloseKeepsPhases(s: State)
    ensures SamePhases(s, CloseManager(s))
  {
    assert SamePhases(s, s.(calls := CancelAll(s.calls, AllPending(s))));
  }

  lemma ExistingKeepsPhases(s: State, stream: Stream, signature: string, playlist: bool, now: Time)
    requires RefsKnown(s)
    ensures SamePhases(s, Existing(s, stream, signature, playlist, now).0)
  {
  }

  lemma TouchesKeepPhases(s: State, e: Event)
    requires RefsKnown(s) && (e.ESetPinned? || e.EUse? || e.EReapIdle?)
    ensures SamePhases(s, Next(s, e))
  {
  }

  /** The remaining steps move no call to another phase and touch no token. */
  lemma OtherStepsKeepPhases(s: State, e: Event)
    requires RefsKnown(s)
    requires e.EExisting? || e.EStop? || e.EClose? || e.ESetPinned? || e.EReapIdle? || e.EUse?
    ensures SamePhases(s, Next(s, e))
  {
    match e {
      case EStop(stream) => StopKeepsPhases(s, stream);
      case EClose => CloseKeepsPhases(s);
      case EExisting(stream, signature, playlist, now) => ExistingKeepsPhases(s, stream, signature, playlist, now);
      case _ => TouchesKeepPhases(s, e);
    }
  }

  lemma StepKeepsCallValid(c: Call, step: Step)
    requires CallValid(c) && CanTake(c, step)
    ensures CallValid(Take(c, step))
  {
    var own := step.CancelOwn? || step.CloseOwn? || step.RemoveOwn? || step.FreeOwn?;
    if own {
      OwnStepKeepsCallValid(c, step);
    } else {
      OtherStepKeepsCallValid(c, step);
    }
  }

  lemma OwnStepKeepsCallValid(c: Call, step: Step)
    requires CallValid(c) && CanTake(c, step) && (step.CancelOwn? || step.CloseOwn? || step.RemoveOwn? || step.FreeOwn?)
    ensures CallValid(Take(c, step))
  {
  }

  lemma OtherStepKeepsCallValid(c: Call, step: Step)
    requires CallValid(c) && CanTake(c, step) && !step.CancelOwn? && !step.CloseOwn? && !step.RemoveOwn? && !step.FreeOwn?
    ensures CallValid(Take(c, step))
  {
  }

  lemma StepFrame(c: Call, step: Step)
    requires CanTake(c, step)
    ensures Tokens(Take(c, step)) == Tokens(c) - Freed(step)
    ensures Take(c, step).stream == c.stream && Take(c, step).id == c.id && Take(c, step).waiting == c.waiting
    ensures Started(Take(c, step)) == Started(c) && Take(c, step).removal == c.removal
    ensures Take(c, step).phase.Opening? ==> c.phase.Opening? && Take(c, step).cancelled == c.cancelled
    ensures c.cancelled ==> Take(c, step).cancelled
  {
  }

  lemma ProgressKeepsSlots(s: State, r: Ref, step: Step)
    requires SlotsValid(s) && Enabled(s, EStep(r, step))
    ensures SlotsValid(Progress(s, r, step))
  {
    StepFrame(s.calls[r], step);
    OneCallKeepsSlots(s, r, Take(s.calls[r], step), s.slots - Freed(step));
  }

  lemma LeavePendingKeepsSlots(s: State, r: Ref)
    requires SlotsValid(s) && Enabled(s, ELeavePending(r))
    ensures SlotsValid(LeavePending(s, r))
  {
    OneCallKeepsSlots(s, r, LeavePending(s, r).calls[r], s.slots);
  }

  lemma NextKeepsSlots(s: State, e: Event)
    requires Valid(s) && Enabled(s, e)
    ensures SlotsValid(Next(s, e))
  {
    if e.EStep? {
      ProgressKeepsSlots(s, e.ref, e.step);
    } else if e.EStart? {
      StartKeepsSlots(s, e.stream, e.signature, e.playlist, e.now, e.call);
    } else if e.ECommit? {
      CommitKeepsSlots(s, e.ref, e.id, e.spawned, e.now);
    } else if e.ELeavePending? {
      LeavePendingKeepsSlots(s, e.ref);
    } else {
      OtherStepsKeepPhases(s, e);
      HoldersSame(s.calls, Next(s, e).calls);
    }
  }

  // ---- the other conjuncts -------------------------------------------------

  lemma StopSessionKeepsTables(s: State, r: Ref)
    requires TablesValid(s) && Registered(s, r)
    ensures TablesValid(StopSession(s, r))
  {
    var t := StopSession(s, r);
    forall q | q in t.calls && Started(t.calls[q]) && !Registered(t, q) ensures t.calls[q].removal {
      assert q == r || !Registered(s, q);
    }
  }

  lemma StopSessionKeeps(s: State, r: Ref)
    requires Ordered(s) && Registered(s, r)
    ensures Ordered(StopSession(s, r))
  {
    StopSessionKeepsTables(s, r);
    OneCallKeepsOwners(s, r, Stopped(s.calls[r]));
    SameOwners(s.(calls := s.calls[r := Stopped(s.calls[r])]), StopSession(s, r));
  }

  /** Only the tables and the slot count may differ, and a closed manager has no sessions. */
  lemma SameOwners(s: State, t: State)
    requires OwnersValid(s) && t.calls == s.calls && t.pending == s.pending && t.closed == s.closed
    requires t.sessions.Keys <= s.sessions.Keys
    ensures OwnersValid(t)
  {
  }

  lemma TouchKeeps(s: State, r: Ref, now: Time)
    requires Ordered(s) && r in s.calls
    ensures Ordered(Touch(s, r, now))
  {
    assert CallValid(s.calls[r]);
    OneCallKeeps(s, r, s.calls[r].(lastUsed := now));
  }

  /** Nothing that the tables depend on changes. */
  lemma SameCallsKeepTables(s: State, t: State)
    requires TablesValid(s)
    requires t.sessions == s.sessions && t.byID == s.byID && t.calls.Keys == s.calls.Keys
    requires forall r :: r in s.calls ==>
               && t.calls[r].stream == s.calls[r].stream && t.calls[r].id == s.calls[r].id
               && Started(t.calls[r]) == Started(s.calls[r]) && t.calls[r].removal == s.calls[r].removal
    ensures TablesValid(t)
  {
    forall r | r in t.calls && Started(t.calls[r]) && !Registered(t, r) ensures t.calls[r].removal {
      assert !Registered(s, r);
    }
  }

  lemma CancelKeeps(s: State, refs: set<Ref>)
    requires Ordered(s)
    ensures Ordered(s.(calls := CancelAll(s.calls, refs)))
  {
    SameCallsKeepTables(s, s.(calls := CancelAll(s.calls, refs)));
    CancelKeepsOwners(s, refs);
  }

  lemma CancelledStaysValid(c: Call)
    requires CallValid(c)
    ensures CallValid(c.(cancelled := true))
  {
  }

  lemma CancelKeepsPending(s: State, refs: set<Ref>)
    requires PendingValid(s)
    ensures PendingValid(s.(calls := CancelAll(s.calls, refs)))
  {
  }

  lemma CancelKeepsOwners(s: State, refs: set<Ref>)
    requires OwnersValid(s)
    ensures OwnersValid(s.(calls := CancelAll(s.calls, refs)))
  {
    var t := s.(calls := CancelAll(s.calls, refs));
    CancelKeepsPending(s, refs);
    forall r | r in t.calls ensures CallValid(t.calls[r]) {
      CancelledStaysValid(s.calls[r]);
    }
  }

  lemma StopAllKeepsTables(s: State, refs: set<Ref>)
    requires TablesValid(s)
    requires forall r :: r in refs ==> Registered(s, r)
    ensures TablesValid(StopAll(s, refs))
  {
    var t := StopAll(s, refs);
    forall r | r in t.calls && Started(t.calls[r]) && !Registered(t, r) ensures t.calls[r].removal {
      assert r in refs || !Registered(s, r);
    }
  }

  lemma StopAllKeepsCalls(s: State, refs: set<Ref>)
    requires TablesValid(s) && CallsValid(s)
    requires forall r :: r in refs ==> Registered(s, r)
    ensures CallsValid(StopAll(s, refs))
  {
  }

  lemma StopAllKeepsPending(s: State, refs: set<Ref>)
    requires PendingValid(s)
    ensures PendingValid(StopAll(s, refs))
  {
  }

  lemma ReserveKeepsTables(s: State, stream: Stream, signature: string, call: Ref)
    requires TablesValid(s) && call !in s.calls
    ensures TablesValid(Reserve(s, stream, signature, call))
  {
    var t := Reserve(s, stream, signature, call);
    forall r | r in t.calls && Started(t.calls[r]) && !Registered(t, r) ensures t.calls[r].removal {
      assert !Registered(s, r);
    }
  }

  lemma ReserveKeepsOwners(s: State, stream: Stream, signature: string, call: Ref)
    requires OwnersValid(s) && call !in s.calls && !s.closed
    ensures OwnersValid(Reserve(s, stream, signature, call))
  {
  }

  lemma SettleKeeps(s: State, stream: Stream, signature: string, playlist: bool, now: Time)
    requires Ordered(s)
    ensures Ordered(Settle(s, stream, signature, playlist, now).0)
  {
    if stream in s.sessions {
      StopSessionKeeps(s, s.sessions[stream]);
      TouchKeeps(s, s.sessions[stream], now);
    }
  }

  lemma StartKeeps(s: State, stream: Stream, signature: string, playlist: bool, now: Time, call: Ref)
    requires Ordered(s) && call !in s.calls
    ensures Ordered(Begin(s, stream, signature, playlist, now, call).0)
  {
    if !s.closed {
      var s1 := Settle(s, stream, signature, playlist, now).0;
      SettleKeeps(s, stream, signature, playlist, now);
      ReserveKeepsTables(s1, stream, signature, call);
      ReserveKeepsOwners(s1, stream, signature, call);
    }
  }

  lemma RegisterKeepsTables(s: State, r: Ref, id: string, now: Time)
    requires TablesValid(s) && AtPhase(s, r, Opening) && !s.calls[r].removal
    requires s.calls[r].stream !in s.sessions && id !in s.byID
    ensures TablesValid(Register(s, r, id, now))
  {
    var t := Register(s, r, id, now);
    forall q | q in t.calls && Started(t.calls[q]) && !Registered(t, q) ensures t.calls[q].removal {
      assert !Registered(s, q);
    }
  }

  lemma RegisterKeepsOwners(s: State, r: Ref, id: string, now: Time)
    requires OwnersValid(s) && AtPhase(s, r, Opening) && s.calls[r].body.Open? && !s.closed
    ensures OwnersValid(Register(s, r, id, now))
  {
  }

  lemma AbandonKeeps(s: State, r: Ref)
    requires Ordered(s) && AtPhase(s, r, Opening)
    ensures Ordered(Abandon(s, r))
  {
    assert CallValid(s.calls[r]);
    OneCallKeeps(s, r, s.calls[r].(phase := Abandoned));
  }

  lemma CommitKeeps(s: State, r: Ref, id: string, spawned: bool, now: Time)
    requires Ordered(s) && Enabled(s, ECommit(r, id, spawned, now))
    ensures Ordered(Commit(s, r, id, spawned, now).0)
  {
    var outcome := Commit(s, r, id, spawned, now).1;
    if outcome.Registers? {
      RegisterKeepsTables(s, r, id, now);
      RegisterKeepsOwners(s, r, id, now);
    } else if outcome.Winner? {
      TouchKeeps(s, outcome.session, now);
      AbandonKeeps(Touch(s, outcome.session, now), r);
    } else {
      AbandonKeeps(s, r);
    }
  }

  /** A step inside one call that leaves the tables alone. */
  lemma OneCallKeeps(s: State, r: Ref, c: Call)
    requires Ordered(s) && r in s.calls && CallValid(c)
    requires c.stream == s.calls[r].stream && c.id == s.calls[r].id
    requires c.waiting == s.calls[r].waiting && Started(c) == Started(s.calls[r]) && c.removal == s.calls[r].removal
    requires c.phase.Opening? ==> s.calls[r].phase.Opening? && c.cancelled == s.calls[r].cancelled
    ensures Ordered(s.(calls := s.calls[r := c]))
  {
    SameCallsKeepTables(s, s.(calls := s.calls[r := c]));
    OneCallKeepsOwners(s, r, c);
  }

  lemma OneCallKeepsOwners(s: State, r: Ref, c: Call)
    requires OwnersValid(s) && r in s.calls && CallValid(c)
    requires c.stream == s.calls[r].stream && c.waiting == s.calls[r].waiting
    requires c.phase.Opening? && s.closed ==> c.cancelled
    ensures OwnersValid(s.(calls := s.calls[r := c]))
  {
    OneCallKeepsPending(s, r, c);
  }

  lemma OneCallKeepsPending(s: State, r: Ref, c: Call)
    requires PendingValid(s) && r in s.calls
    requires c.stream == s.calls[r].stream && c.waiting == s.calls[r].waiting
    ensures PendingValid(s.(calls := s.calls[r := c]))
  {
  }

  lemma SetPinnedKeeps(s: State, stream: Stream, pinned: bool, now: Time)
    requires Ordered(s)
    ensures Ordered(SetPinned(s, stream, pinned, now))
  {
    if stream in s.sessions {
      var r := s.sessions[stream];
      OneCallKeeps(s, r, s.calls[r].(pinned := pinned, lastUsed := now));
    }
  }

  lemma LeavePendingKeeps(s: State, r: Ref)
    requires Ordered(s) && Enabled(s, ELeavePending(r))
    ensures Ordered(LeavePending(s, r))
  {
    SameCallsKeepTables(s, LeavePending(s, r));
    LeavePendingKeepsOwners(s, r);
  }

  lemma LeavePendingKeepsOwners(s: State, r: Ref)
    requires OwnersValid(s) && Enabled(s, ELeavePending(r))
    ensures OwnersValid(LeavePending(s, r))
  {
    var t := LeavePending(s, r);
    forall q | q in t.calls && t.calls[q].waiting
      ensures t.calls[q].stream in t.pending && q in t.pending[t.calls[q].stream]
    {
      assert q in PendingOf(s, s.calls[q].stream) - {r};
    }
  }

  lemma RegisteredSessions(s: State)
    requires TablesAgree(s)
    ensures forall r :: r in AllSessions(s) <==> Registered(s, r)
  {
  }

  lemma CloseKeeps(s: State)
    requires Ordered(s)
    ensures Ordered(CloseManager(s))
  {
    var s1 := s.(calls := CancelAll(s.calls, AllPending(s)));
    CancelKeeps(s, AllPending(s));
    RegisteredSessions(s1);
    StopAllKeepsTables(s1, AllSessions(s));
    StopAllKeepsCalls(s1, AllSessions(s));
    StopAllKeepsPending(s1, AllSessions(s));
    var t := CloseManager(s);
    assert t == StopAll(s1, AllSessions(s)).(closed := true);
    assert TablesAgree(t) && NothingForgotten(t) by {
      SameCallsKeepTables(StopAll(s1, AllSessions(s)), t);
    }
    CloseLeavesNothingOpen(s);
  }

  lemma CloseLeavesNothingOpen(s: State)
    requires PendingValid(s) && CallsValid(s)
    ensures ClosedForGood(CloseManager(s))
  {
    var t := CloseManager(s);
    assert forall st :: st in s.sessions ==> s.sessions[st] in AllSessions(s);
    forall r | r in t.calls && t.calls[r].phase.Opening? ensures t.calls[r].cancelled {
      assert r in s.pending[s.calls[r].stream];
    }
  }

  lemma ExistingKeeps(s: State, stream: Stream, signature: string, playlist: bool, now: Time)
    requires Ordered(s)
    ensures Ordered(Existing(s, stream, signature, playlist, now).0)
  {
    if stream in s.sessions {
      StopSessionKeeps(s, s.sessions[stream]);
      TouchKeeps(s, s.sessions[stream], now);
    }
  }

  lemma StopKeeps(s: State, stream: Stream)
    requires Ordered(s)
    ensures Ordered(Stop(s, stream))
  {
    CancelKeeps(s, PendingOf(s, stream));
    if stream in s.sessions {
      StopSessionKeeps(s.(calls := CancelAll(s.calls, PendingOf(s, stream))), s.sessions[stream]);
    }
  }

  lemma ReapKeeps(s: State, now: Time)
    requires Ordered(s)
    ensures Ordered(StopAll(s, IdleSessions(s, now)))
  {
    RegisteredSessions(s);
    assert IdleSessions(s, now) <= AllSessions(s);
    StopAllKeepsTables(s, IdleSessions(s, now));
    StopAllKeepsCalls(s, IdleSessions(s, now));
    StopAllKeepsPending(s, IdleSessions(s, now));
  }

  lemma ProgressKeeps(s: State, r: Ref, step: Step)
    requires Ordered(s) && Enabled(s, EStep(r, step))
    ensures Ordered(Progress(s, r, step))
  {
    var c := Take(s.calls[r], step);
    StepKeepsCallValid(s.calls[r], step);
    StepFrame(s.calls[r], step);
    OneCallKeeps(s, r, c);
    SameButSlots(s.(calls := s.calls[r := c]), Progress(s, r, step));
  }

  lemma SameButSlots(s: State, t: State)
    requires Ordered(s) && t.(slots := s.slots) == s
    ensures Ordered(t)
  {
  }

  lemma NextKeepsTables(s: State, e: Event)
    requires Valid(s) && Enabled(s, e)
    ensures Ordered(Next(s, e))
  {
    match e {
      case EStep(r, step) => ProgressKeeps(s, r, step);
      case EStart(stream, signature, playlist, now, call) => StartKeeps(s, stream, signature, playlist, now, call);
      case ECommit(r, id, spawned, now) => CommitKeeps(s, r, id, spawned, now);
      case ELeavePending(r) => LeavePendingKeeps(s, r);
      case EExisting(stream, signature, playlist, now) => ExistingKeeps(s, stream, signature, playlist, now);
      case EStop(stream) => StopKeeps(s, stream);
      case EClose => CloseKeeps(s);
      case EReapIdle(now) => ReapKeeps(s, now);
      case EUse(_, id, now) => if id in s.byID { TouchKeeps(s, s.byID[id], now); }
      case ESetPinned(stream, pinned, now) => SetPinnedKeeps(s, stream, pinned, now);
    }
  }

  lemma NextKeepsValid(s: State, e: Event)
    requires Valid(s) && Enabled(s, e)
    ensures Valid(Next(s, e))
  {
    NextKeepsSlots(s, e);
    NextKeepsTables(s, e);
  }

  // ---- runs ----------------------------------------------------------------

  /** `events` can happen one after the other from `s`. */
  ghost predicate Runs(s: State, events: seq<Event>)
    decreases |events|
  {
    RefsKnown(s) && (events == [] || (Enabled(s, events[0]) && Runs(Next(s, events[0]), events[1..])))
  }

  ghost function After(s: State, events: seq<Event>): State
    requires Runs(s, events)
    decreases |events|
  {
    if events == [] then s else After(Next(s, events[0]), events[1..])
  }

  lemma InitialIsValid(capacity: nat)
    ensures Valid(Initial(capacity))
  {
    assert Holders(Initial(capacity).calls) == {};
  }

  lemma {:induction false} RunsKeepValid(s: State, events: seq<Event>)
    requires Valid(s) && Runs(s, events)
    ensures Valid(After(s, events))
    decreases |events|
  {
    if events != [] {
      NextKeepsValid(s, events[0]);
      RunsKeepValid(Next(s, events[0]), events[1..]);
    }
  }
}

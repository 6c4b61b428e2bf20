/**
  Racing starts: which session a start that lost the race is handed, told from the registrations
  that happened since it reserved its slot.
 */
module RemuxRaces {
  import opened Common
  import opened RemuxState
  import opened RemuxSafety

  // ---- what a step does to rows and sessions --------------------------------

  /** The call an event registers, if it registers one. */
  function RegisteredBy(s: State, e: Event): Option<Ref>
    requires RefsKnown(s) && Enabled(s, e)
  {
    if e.ECommit? && Commit(s, e.ref, e.id, e.spawned, e.now).1.Registers? then Some(e.ref) else None
  }

  /** What a locked region leaves alone in a row: what its start asked for, and its body. */
  predicate RowKept(c: Call, d: Call) {
    && d.stream == c.stream && d.signature == c.signature && d.body == c.body && d.closes == c.closes
    && (d.phase.Opening? ==> c.phase.Opening?)
  }

  ghost predicate RowsKept(s: State, t: State) {
    && t.calls.Keys == s.calls.Keys
    && forall q :: q in s.calls ==> RowKept(s.calls[q], t.calls[q])
  }

  /** A step keeps every row, or takes one row one step on, or is a start that makes one. */
  ghost predicate RowsFollow(s: State, t: State, e: Event) {
    || RowsKept(s, t)
    || (e.EStep? && e.ref in s.calls && CanTake(s.calls[e.ref], e.step) && t.calls == s.calls[e.ref := Take(s.calls[e.ref], e.step)])
    || (e.EStart? && e.call !in s.calls && e.call in t.calls
        && t.calls[e.call] == NewCall(e.stream, e.signature)
        && RowsKept(s, t.(calls := t.calls - {e.call})))
  }

  lemma SettleKeepsRows(s: State, stream: Stream, signature: string, playlist: bool, now: Time)
    requires RefsKnown(s)
    ensures RowsKept(s, Settle(s, stream, signature, playlist, now).0)
  {
  }

  lemma ReserveMakesOneRow(s: State, stream: Stream, signature: string, call: Ref)
    requires call !in s.calls
    ensures var t := Reserve(s, stream, signature, call);
            && call in t.calls && t.calls[call] == NewCall(stream, signature)
            && t.calls - {call} == s.calls
  {
  }

  lemma StartFollows(s: State, stream: Stream, signature: string, playlist: bool, now: Time, call: Ref)
    requires RefsKnown(s) && call !in s.calls
    ensures RowsFollow(s, Begin(s, stream, signature, playlist, now, call).0, EStart(stream, signature, playlist, now, call))
  {
    var s1 := Settle(s, stream, signature, playlist, now).0;
    SettleKeepsRows(s, stream, signature, playlist, now);
    ReserveMakesOneRow(s1, stream, signature, call);
  }

  lemma CommitKeepsRows(s: State, r: Ref, id: string, spawned: bool, now: Time)
    requires RefsKnown(s) && r in s.calls
    ensures RowsKept(s, Commit(s, r, id, spawned, now).0)
  {
    var (t, outcome) := Commit(s, r, id, spawned, now);
    if outcome.Winner? {
      var w := outcome.session;
      var touched := Touch(s, w, now);
      OneRowKept(s, w, touched.calls[w], touched);
      OneRowKept(touched, r, t.calls[r], t);
    } else {
      OneRowKept(s, r, t.calls[r], t);
    }
  }

  lemma StopAllKeepsRows(s: State, refs: set<Ref>)
    ensures RowsKept(s, StopAll(s, refs))
  {
  }

  lemma StopKeepsRows(s: State, stream: Stream)
    requires RefsKnown(s)
    ensures RowsKept(s, Stop(s, stream))
  {
    var s1 := s.(calls := CancelAll(s.calls, PendingOf(s, stream)));
    assert RowsKept(s, s1);
    if stream in s.sessions {
      var r := s.sessions[stream];
      OneRowKept(s1, r, Stopped(s1.calls[r]), StopSession(s1, r));
    }
  }

  lemma CloseKeepsRows(s: State)
    ensures RowsKept(s, CloseManager(s))
  {
    assert RowsKept(s, s.(calls := CancelAll(s.calls, AllPending(s))));
    StopAllKeepsRows(s.(closed := true, calls := CancelAll(s.calls, AllPending(s))), AllSessions(s));
  }

  lemma ExistingKeepsRows(s: State, stream: Stream, signature: string, playlist: bool, now: Time)
    requires RefsKnown(s)
    ensures RowsKept(s, Existing(s, stream, signature, playlist, now).0)
  {
  }

  lemma OneRowKept(s: State, r: Ref, c: Call, t: State)
    requires r in s.calls && t.calls == s.calls[r := c]
    requires RowKept(s.calls[r], c)
    ensures RowsKept(s, t)
  {
  }

  lemma TakeKeepsSource(c: Call, step: Step)
    requires CanTake(c, step)
    ensures Take(c, step).stream == c.stream && Take(c, step).signature == c.signature
    ensures Take(c, step).phase.Opening? ==> c.phase.Opening?
  {
  }

  lemma PinKeepsRows(s: State, stream: Stream, pinned: bool, now: Time)
    requires RefsKnown(s)
    ensures RowsKept(s, SetPinned(s, stream, pinned, now))
  {
  }

  lemma UseKeepsRows(s: State, stream: Stream, id: string, now: Time)
    requires RefsKnown(s)
    ensures RowsKept(s, Use(s, stream, id, now).0)
  {
  }

  lemma LockedStepKeepsRows(s: State, e: Event)
    requires RefsKnown(s) && Enabled(s, e) && (e.ECommit? || e.EStop? || e.EClose? || e.EReapIdle? || e.EExisting?)
    ensures RowsKept(s, Next(s, e))
  {
    match e {
      case ECommit(r, id, spawned, now) => CommitKeepsRows(s, r, id, spawned, now);
      case EStop(stream) => StopKeepsRows(s, stream);
      case EClose => CloseKeepsRows(s);
      case EReapIdle(now) => StopAllKeepsRows(s, IdleSessions(s, now));
      case EExisting(stream, signature, playlist, now) => ExistingKeepsRows(s, stream, signature, playlist, now);
    }
  }

  lemma RowStepKeepsRows(s: State, e: Event)
    requires RefsKnown(s) && Enabled(s, e) && (e.ELeavePending? || e.ESetPinned? || e.EUse?)
    ensures RowsKept(s, Next(s, e))
  {
    match e {
      case ELeavePending(r) => OneRowKept(s, r, LeavePending(s, r).calls[r], LeavePending(s, r));
      case ESetPinned(stream, pinned, now) => PinKeepsRows(s, stream, pinned, now);
      case EUse(stream, id, now) => UseKeepsRows(s, stream, id, now);
    }
  }

  lemma StepFollows(s: State, e: Event)
    requires RefsKnown(s) && Enabled(s, e)
    ensures RowsFollow(s, Next(s, e), e)
  {
    if e.EStart? {
      StartFollows(s, e.stream, e.signature, e.playlist, e.now, e.call);
    } else if e.EStep? {
      assert Next(s, e).calls == s.calls[e.ref := Take(s.calls[e.ref], e.step)];
    } else if e.ELeavePending? || e.ESetPinned? || e.EUse? {
      RowStepKeepsRows(s, e);
    } else {
      LockedStepKeepsRows(s, e);
    }
  }

  /** A stream's session after a step is the one just registered, or the one before. */
  lemma StepSessions(s: State, e: Event, stream: Stream)
    requires RefsKnown(s) && Enabled(s, e)
    ensures var t := Next(s, e);
            if RegisteredBy(s, e).Some? && s.calls[e.ref].stream == stream
            then stream in t.sessions && t.sessions[stream] == e.ref
            else stream in t.sessions ==> stream in s.sessions && t.sessions[stream] == s.sessions[stream]
  {
  }

  // ---- the last registration ------------------------------------------------

  /** The call of the last registration for `stream` in the run. */
  ghost function LastRegistered(s: State, events: seq<Event>, stream: Stream): Option<Ref>
    requires Runs(s, events)
    decreases |events|
  {
    if events == [] then None else
    var later := LastRegistered(Next(s, events[0]), events[1..], stream);
    if later.Some? then later
    else if RegisteredBy(s, events[0]).Some? && s.calls[events[0].ref].stream == stream then Some(events[0].ref)
    else None
  }

  lemma {:induction false} SessionWasRegistered(s: State, events: seq<Event>, stream: Stream)
    requires Runs(s, events)
    ensures var t, last := After(s, events), LastRegistered(s, events, stream);
            stream in t.sessions ==>
              if last.Some? then t.sessions[stream] == last.value
              else stream in s.sessions && t.sessions[stream] == s.sessions[stream]
    decreases |events|
  {
    if events != [] {
      StepSessions(s, events[0], stream);
      SessionWasRegistered(Next(s, events[0]), events[1..], stream);
    }
  }

  lemma {:induction false} RowsKeepTheirSource(s: State, events: seq<Event>, q: Ref)
    requires Runs(s, events) && q in s.calls
    ensures var t := After(s, events);
            q in t.calls && t.calls[q].stream == s.calls[q].stream && t.calls[q].signature == s.calls[q].signature
    decreases |events|
  {
    if events != [] {
      StepFollows(s, events[0]);
      OldRow(s, Next(s, events[0]), events[0], q);
      RowsKeepTheirSource(Next(s, events[0]), events[1..], q);
    }
  }

  lemma OthersLeft(calls: map<Ref, Call>, r: Ref)
    ensures (calls - {r}).Keys == calls.Keys - {r}
  {
  }

  lemma NewRow(s: State, t: State, e: Event, q: Ref)
    requires RowsFollow(s, t, e) && q in t.calls && q !in s.calls
    ensures e.EStart? && q == e.call && t.calls[q].stream == e.stream && t.calls[q].signature == e.signature
  {
    if e.EStart? {
      OthersLeft(t.calls, e.call);
    }
  }

  lemma OldRow(s: State, t: State, e: Event, q: Ref)
    requires RowsFollow(s, t, e) && q in s.calls
    ensures q in t.calls && t.calls[q].stream == s.calls[q].stream && t.calls[q].signature == s.calls[q].signature
    ensures t.calls[q].phase.Opening? ==> s.calls[q].phase.Opening?
  {
    if e.EStart? {
      OthersLeft(t.calls, e.call);
    } else if e.EStep? && e.ref in s.calls && CanTake(s.calls[e.ref], e.step) {
      TakeKeepsSource(s.calls[e.ref], e.step);
    }
  }

  /** The signature of a row is the one its start asked for. */
  lemma {:induction false} RowsComeFromStarts(s: State, events: seq<Event>, q: Ref)
    requires Runs(s, events) && q !in s.calls && q in After(s, events).calls
    ensures exists k :: 0 <= k < |events| && events[k].EStart? && events[k].call == q
                        && events[k].stream == After(s, events).calls[q].stream
                        && events[k].signature == After(s, events).calls[q].signature
    decreases |events|
  {
    var s1 := Next(s, events[0]);
    StepFollows(s, events[0]);
    if q in s1.calls {
      RowsKeepTheirSource(s1, events[1..], q);
      NewRow(s, s1, events[0], q);
    } else {
      RowsComeFromStarts(s1, events[1..], q);
      var k :| 0 <= k < |events[1..]| && events[1..][k].EStart? && events[1..][k].call == q
               && events[1..][k].stream == After(s1, events[1..]).calls[q].stream
               && events[1..][k].signature == After(s1, events[1..]).calls[q].signature;
      assert events[k + 1] == events[1..][k];
    }
  }

  /** Once a start has reserved, its stream has no session yet. */
  lemma ReservedFindsNoSession(s: State, stream: Stream, signature: string, playlist: bool, now: Time, r: Ref)
    requires RefsKnown(s) && TablesAgree(s) && r !in s.calls && Begin(s, stream, signature, playlist, now, r).1.Reserved?
    ensures var t := Begin(s, stream, signature, playlist, now, r).0;
            stream !in t.sessions && r in t.calls && t.calls[r].stream == stream && t.calls[r].signature == signature
  {
  }

  /**
    A start that reserved and later lost the race is handed the session of the last call that
    registered for its stream in between.
   */
  lemma LoserGetsTheLastRegistration(s: State, start: Event, events: seq<Event>, commit: Event)
    requires Valid(s) && start.EStart? && Enabled(s, start)
    requires Begin(s, start.stream, start.signature, start.playlist, start.now, start.call).1.Reserved?
    requires Runs(Next(s, start), events) && commit.ECommit? && commit.ref == start.call
    requires RefsKnown(After(Next(s, start), events)) && Enabled(After(Next(s, start), events), commit)
    requires Commit(After(Next(s, start), events), commit.ref, commit.id, commit.spawned, commit.now).1.Winner?
    ensures var s1 := After(Next(s, start), events);
            var (t, outcome) := Commit(s1, commit.ref, commit.id, commit.spawned, commit.now);
            var last := LastRegistered(Next(s, start), events, start.stream);
            last == Some(outcome.session) && outcome.session in t.calls
  {
    ReservedFindsNoSession(s, start.stream, start.signature, start.playlist, start.now, start.call);
    SessionWasRegistered(Next(s, start), events, start.stream);
    RowsKeepTheirSource(Next(s, start), events, start.call);
  }

  lemma {:induction false} RunsJoin(s: State, first: seq<Event>, second: seq<Event>)
    requires Runs(s, first) && Runs(After(s, first), second)
    ensures Runs(s, first + second) && After(s, first + second) == After(After(s, first), second)
    decreases |first|
  {
    if first == [] {
      assert first + second == second;
    } else {
      RunsJoin(Next(s, first[0]), first[1..], second);
      assert (first + second)[1..] == first[1..] + second;
    }
  }

  /**
    The same over a whole run, told by its events alone: what the loser is handed is what the start
    of the last call to register for its stream had asked for.
   */
  lemma LoserGetsWhatTheLastAskedFor(capacity: nat, before: seq<Event>, start: Event, events: seq<Event>, commit: Event)
    requires Runs(Initial(capacity), before) && start.EStart? && Enabled(After(Initial(capacity), before), start)
    requires RefsKnown(After(Initial(capacity), before)) && Runs(Next(After(Initial(capacity), before), start), events)
    requires Begin(After(Initial(capacity), before), start.stream, start.signature, start.playlist, start.now, start.call).1.Reserved?
    requires var s1 := After(Next(After(Initial(capacity), before), start), events);
             commit.ECommit? && commit.ref == start.call && RefsKnown(s1) && Enabled(s1, commit)
             && Commit(s1, commit.ref, commit.id, commit.spawned, commit.now).1.Winner?
    ensures var s0 := Next(After(Initial(capacity), before), start);
            var (t, outcome) := Commit(After(s0, events), commit.ref, commit.id, commit.spawned, commit.now);
            var run := before + [start] + events;
            exists k :: 0 <= k < |run| && run[k].EStart? && Some(run[k].call) == LastRegistered(s0, events, start.stream)
                        && run[k].stream == start.stream
                        && outcome.session in t.calls && t.calls[outcome.session].signature == run[k].signature
  {
    var s := After(Initial(capacity), before);
    var s1 := After(Next(s, start), events);
    var run := before + [start] + events;
    ValidAfter(capacity, before);
    LoserGetsTheLastRegistration(s, start, events, commit);
    ReservedFindsNoSession(s, start.stream, start.signature, start.playlist, start.now, start.call);
    RowsKeepTheirSource(Next(s, start), events, start.call);
    WholeRun(capacity, before, start, events);
    ValidAfter(capacity, run);
    var w := LastRegistered(Next(s, start), events, start.stream).value;
    WinnersRow(s1, commit.ref, commit.id, commit.spawned, commit.now);
    RowsComeFromStarts(Initial(capacity), run, w);
  }

  lemma ValidAfter(capacity: nat, events: seq<Event>)
    requires Runs(Initial(capacity), events)
    ensures Valid(After(Initial(capacity), events))
  {
    InitialIsValid(capacity);
    RunsKeepValid(Initial(capacity), events);
  }

  lemma WinnersRow(s: State, r: Ref, id: string, spawned: bool, now: Time)
    requires RefsKnown(s) && TablesAgree(s) && r in s.calls && Commit(s, r, id, spawned, now).1.Winner?
    ensures var (t, outcome) := Commit(s, r, id, spawned, now);
            && outcome.session in s.calls && s.calls[outcome.session].stream == s.calls[r].stream
            && outcome.session in t.calls && t.calls[outcome.session].signature == s.calls[outcome.session].signature
  {
    CommitKeepsRows(s, r, id, spawned, now);
  }

  lemma WholeRun(capacity: nat, before: seq<Event>, start: Event, events: seq<Event>)
    requires Runs(Initial(capacity), before) && RefsKnown(After(Initial(capacity), before))
    requires Enabled(After(Initial(capacity), before), start) && Runs(Next(After(Initial(capacity), before), start), events)
    ensures var run := before + [start] + events;
            Runs(Initial(capacity), run) && After(Initial(capacity), run) == After(Next(After(Initial(capacity), before), start), events)
  {
    var s := After(Initial(capacity), before);
    assert ([start] + events)[1..] == events;
    assert Runs(s, [start] + events) && After(s, [start] + events) == After(Next(s, start), events);
    RunsJoin(Initial(capacity), before, [start] + events);
    assert before + [start] + events == before + ([start] + events);
  }

  // ---- agreement -----------------------------------------------------------

  /** Every open start and the session of the stream are for the one source. */
  ghost predicate Agree(s: State, stream: Stream, signature: string) {
    && (forall q :: q in s.calls && s.calls[q].stream == stream && s.calls[q].phase.Opening? ==> s.calls[q].signature == signature)
    && (stream in s.sessions ==> s.sessions[stream] in s.calls && s.calls[s.sessions[stream]].signature == signature)
  }

  predicate SameSource(e: Event, stream: Stream, signature: string) {
    e.EStart? && e.stream == stream ==> e.signature == signature
  }

  lemma StepKeepsAgreement(s: State, e: Event, stream: Stream, signature: string)
    requires RefsKnown(s) && Enabled(s, e) && Agree(s, stream, signature) && SameSource(e, stream, signature)
    ensures Agree(Next(s, e), stream, signature)
  {
    var t := Next(s, e);
    StepFollows(s, e);
    StepSessions(s, e, stream);
    forall q | q in t.calls && t.calls[q].stream == stream && t.calls[q].phase.Opening? ensures t.calls[q].signature == signature {
      if q in s.calls {
        OldRow(s, t, e, q);
      } else {
        NewRow(s, t, e, q);
      }
    }
    if stream in t.sessions {
      OldRow(s, t, e, t.sessions[stream]);
    }
  }

  lemma {:induction false} RunKeepsAgreement(s: State, events: seq<Event>, stream: Stream, signature: string)
    requires Runs(s, events) && Agree(s, stream, signature)
    requires forall k :: 0 <= k < |events| ==> SameSource(events[k], stream, signature)
    ensures Agree(After(s, events), stream, signature)
    decreases |events|
  {
    if events != [] {
      StepKeepsAgreement(s, events[0], stream, signature);
      RunKeepsAgreement(Next(s, events[0]), events[1..], stream, signature);
    }
  }

  lemma AgreementAtStart(s: State, start: Event)
    requires RefsKnown(s) && TablesAgree(s) && start.EStart? && Enabled(s, start)
    requires Begin(s, start.stream, start.signature, start.playlist, start.now, start.call).1.Reserved?
    requires forall q :: q in s.calls && s.calls[q].stream == start.stream && s.calls[q].phase.Opening? ==> s.calls[q].signature == start.signature
    ensures Agree(Next(s, start), start.stream, start.signature)
  {
    var t := Next(s, start);
    StepFollows(s, start);
    ReservedFindsNoSession(s, start.stream, start.signature, start.playlist, start.now, start.call);
    forall q | q in t.calls && t.calls[q].stream == start.stream && t.calls[q].phase.Opening? ensures t.calls[q].signature == start.signature {
      if q in s.calls {
        OldRow(s, t, start, q);
      }
    }
  }

  lemma CommitHandsTheSource(s: State, r: Ref, id: string, spawned: bool, now: Time, signature: string)
    requires RefsKnown(s) && r in s.calls && s.calls[r].signature == signature && Agree(s, s.calls[r].stream, signature)
    ensures var (t, outcome) := Commit(s, r, id, spawned, now);
            && (outcome.Winner? ==> outcome.session in t.calls && t.calls[outcome.session].signature == signature)
            && t.calls.Keys == s.calls.Keys && t.calls[r].signature == signature
  {
    CommitKeepsRows(s, r, id, spawned, now);
  }

  /**
    If every start of the stream that overlaps with this one, open when it reserved or begun
    before it commits, asks for the same source, then so does the session it is handed.
   */
  lemma AgreeingStartsGetTheirSource(s: State, start: Event, events: seq<Event>, commit: Event)
    requires Valid(s) && start.EStart? && Enabled(s, start)
    requires Begin(s, start.stream, start.signature, start.playlist, start.now, start.call).1.Reserved?
    requires Runs(Next(s, start), events) && commit.ECommit? && commit.ref == start.call
    requires RefsKnown(After(Next(s, start), events)) && Enabled(After(Next(s, start), events), commit)
    requires forall q :: q in s.calls && s.calls[q].stream == start.stream && s.calls[q].phase.Opening? ==> s.calls[q].signature == start.signature
    requires forall k :: 0 <= k < |events| ==> SameSource(events[k], start.stream, start.signature)
    ensures var s1 := After(Next(s, start), events);
            var (t, outcome) := Commit(s1, commit.ref, commit.id, commit.spawned, commit.now);
            && (outcome.Winner? ==> outcome.session in t.calls && t.calls[outcome.session].signature == start.signature)
            && start.call in t.calls && t.calls[start.call].signature == start.signature
  {
    ReservedFindsNoSession(s, start.stream, start.signature, start.playlist, start.now, start.call);
    AgreementAtStart(s, start);
    RunKeepsAgreement(Next(s, start), events, start.stream, start.signature);
    RowsKeepTheirSource(Next(s, start), events, start.call);
    CommitHandsTheSource(After(Next(s, start), events), start.call, commit.id, commit.spawned, commit.now, start.signature);
  }
}

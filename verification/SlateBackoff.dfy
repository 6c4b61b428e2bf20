/**
  Backoff over whole runs of the slate manager: an observer keeps, for each session, the last
  failure seen since its encoder was last started, and compares every start with it.
 */
module SlateBackoff {
  import opened Common
  import opened SlateState
  import opened SlateSafety

  datatype World = World(s: State, pending: map<Id, int>)

  /** This request finds its encoder dead soon after it was started, without the radio to blame. */
  predicate DiedYoung(s: State, id: Id, now: int) {
    id in s.sessions && s.sessions[id].encoder !in s.live
    && !s.sessions[id].usedRadio && now - s.sessions[id].started < 30000
  }

  /** The request gets as far as looking at its session. */
  predicate Heard(s: State, sign: Signature, e: Event)
    requires e.Get?
  {
    Refusal(s, sign, e.variant, e.key).None?
  }

  predicate Starts(s: State, sign: Signature, e: Event)
    requires e.Get? && Enabled(s, e)
  {
    Got(s, sign, e).1 == Served(MakeId(e.variant, e.key), |s.owners|)
  }

  /** The failures known once the request has looked at its session. */
  function Known(w: World, sign: Signature, e: Event): map<Id, int>
    requires e.Get?
  {
    var id := MakeId(e.variant, e.key);
    if Heard(w.s, sign, e) && DiedYoung(w.s, id, e.now) then w.pending[id := e.now] else w.pending
  }

  function Observe(w: World, sign: Signature, e: Event): map<Id, int>
    requires Enabled(w.s, e)
  {
    if !e.Get? then w.pending else
    var id := MakeId(e.variant, e.key);
    if Starts(w.s, sign, e) then Known(w, sign, e) - {id}
    else if Got(w.s, sign, e).1 == StartFailed then Known(w, sign, e)[id := e.now]
    else Known(w, sign, e)
  }

  function Step(w: World, sign: Signature, e: Event): World
    requires Enabled(w.s, e)
  {
    World(Next(w.s, sign, e), Observe(w, sign, e))
  }

  function Watched(w: World, sign: Signature, es: seq<Event>): World
    requires Runs(w.s, sign, es)
    decreases |es|
  {
    if es == [] then w else Watched(Step(w, sign, es[0]), sign, es[1..])
  }

  /** Every pending failure is the one the manager remembers, and its session is gone. */
  predicate Tracks(s: State, pending: map<Id, int>) {
    forall id :: id in pending ==> id !in s.sessions && id in s.failedAt && s.failedAt[id] == pending[id]
  }

  lemma BuryTracks(s: State, id: Id, now: int, pending: map<Id, int>)
    requires id in s.sessions && s.sessions[id].encoder !in s.live && Tracks(s, pending)
    ensures Tracks(Bury(s, id, id, now), if DiedYoung(s, id, now) then pending[id := now] else pending)
  {
  }

  lemma LookUpTracks(s: State, id: Id, now: int, pending: map<Id, int>)
    requires |s.sessions| <= MAX_PROCESSES && Tracks(s, pending)
    ensures Tracks(LookUp(s, id, now).0, if DiedYoung(s, id, now) then pending[id := now] else pending)
  {
    LookUpIs(s, id, now);
    if id in s.sessions && s.sessions[id].encoder !in s.live {
      BuryTracks(s, id, now, pending);
    }
  }

  /** A start respects the backoff, and what a start or a failed start leaves is tracked again. */
  lemma SupplyTracks(s: State, id: Id, now: int, choice: Option<Id>, launch: Launch, pending: map<Id, int>)
    requires Tracks(s, pending) && id !in s.sessions
    requires choice.Some? ==> choice.value in s.sessions
    ensures var (s', out) := Supply(s, id, now, choice, launch);
            if out.Served? && out.id == id then Tracks(s', pending - {id}) && (id in pending ==> now - pending[id] >= RESTART_BACKOFF)
            else Tracks(s', if out == StartFailed then pending[id := now] else pending)
  {
  }

  /** An encoder served as the next number was started by this request. */
  lemma NextNumberIsNew(s: State, sign: Signature, e: Event, s1: State, s': State, out: Outcome)
    requires e.Get? && Split(s, sign, e, s1, s', out) && SessionsOwned(s1) && out.Served?
    ensures out == Served(MakeId(e.variant, e.key), |s.owners|) <==>
            MakeId(e.variant, e.key) !in s1.sessions && out.id == MakeId(e.variant, e.key)
  {
    var id := MakeId(e.variant, e.key);
    if id !in s1.sessions {
      StartedNumber(s1, id, e.now, e.choice, e.launch);
    }
  }

  lemma StartedNumber(s: State, id: Id, now: int, choice: Option<Id>, launch: Launch)
    requires id !in s.sessions && (choice.Some? ==> choice.value in s.sessions)
    ensures var out := Supply(s, id, now, choice, launch).1;
            out.Served? && out.id == id ==> out.encoder == |s.owners|
  {
  }

  lemma SplitTracks(w: World, sign: Signature, e: Event, s1: State, s': State, out: Outcome, known: map<Id, int>)
    requires e.Get? && Split(w.s, sign, e, s1, s', out) && !Refused(w.s, s', out)
    requires SessionsOwned(s1) && Tracks(s1, known)
    ensures var id := MakeId(e.variant, e.key);
            if out == Served(id, |w.s.owners|) then Tracks(s', known - {id}) && (id in known ==> e.now - known[id] >= RESTART_BACKOFF)
            else Tracks(s', if out == StartFailed then known[id := e.now] else known)
  {
    var id := MakeId(e.variant, e.key);
    if out.Served? {
      NextNumberIsNew(w.s, sign, e, s1, s', out);
    }
    if id !in s1.sessions {
      SupplyTracks(s1, id, e.now, e.choice, e.launch, known);
    }
  }

  lemma HeardTracks(w: World, sign: Signature, e: Event)
    requires Valid(w.s, sign) && Tracks(w.s, w.pending) && e.Get? && Heard(w.s, sign, e)
    ensures var s1 := LookUp(Touch(w.s, e.key, e.now), MakeId(e.variant, e.key), e.now).0;
            SessionsOwned(s1) && Tracks(s1, Known(w, sign, e))
  {
    var touched, id := Touch(w.s, e.key, e.now), MakeId(e.variant, e.key);
    TouchKeeps(w.s, sign, e.key, e.now);
    LookUpKeeps(touched, sign, id, e.now);
    assert DiedYoung(touched, id, e.now) == DiedYoung(w.s, id, e.now);
    LookUpTracks(touched, id, e.now, w.pending);
  }

  lemma GetTracks(w: World, sign: Signature, e: Event)
    requires Valid(w.s, sign) && Tracks(w.s, w.pending) && e.Get? && Enabled(w.s, e)
    ensures Tracks(Next(w.s, sign, e), Observe(w, sign, e))
    ensures var id := MakeId(e.variant, e.key);
            Starts(w.s, sign, e) && id in Known(w, sign, e) ==> e.now - Known(w, sign, e)[id] >= RESTART_BACKOFF
  {
    var s1 := GetSplits(w.s, sign, e);
    var s', out := Got(w.s, sign, e).0, Got(w.s, sign, e).1;
    HeardUnlessRefused(w.s, sign, e);
    if Heard(w.s, sign, e) {
      HeardTracks(w, sign, e);
      SplitTracks(w, sign, e, s1, s', out, Known(w, sign, e));
    }
  }

  lemma SupplyAnswers(s: State, id: Id, now: int, choice: Option<Id>, launch: Launch)
    requires choice.Some? ==> choice.value in s.sessions
    ensures Supply(s, id, now, choice, launch).1 != NotExist && Supply(s, id, now, choice, launch).1 != Closed
  {
  }

  lemma HeardUnlessRefused(s: State, sign: Signature, e: Event)
    requires e.Get? && Enabled(s, e)
    ensures !Heard(s, sign, e) ==> Refused(s, Got(s, sign, e).0, Got(s, sign, e).1)
    ensures Heard(s, sign, e) ==> Got(s, sign, e).1 != NotExist && Got(s, sign, e).1 != Closed
  {
    if Heard(s, sign, e) {
      SupplyAnswers(LookUp(Touch(s, e.key, e.now), MakeId(e.variant, e.key), e.now).0, MakeId(e.variant, e.key), e.now, e.choice, e.launch);
    }
  }

  lemma OthersTrack(s: State, sign: Signature, e: Event, pending: map<Id, int>)
    requires Tracks(s, pending) && Enabled(s, e) && !e.Get?
    ensures Tracks(Next(s, sign, e), pending)
  {
    OthersFail(s, sign, e);
    OthersAddNone(s, sign, e);
  }

  lemma OthersAddNone(s: State, sign: Signature, e: Event)
    requires Enabled(s, e) && !e.Get?
    ensures Next(s, sign, e).sessions.Keys <= s.sessions.Keys
  {
  }

  lemma StepTracks(w: World, sign: Signature, e: Event)
    requires Valid(w.s, sign) && Tracks(w.s, w.pending) && Enabled(w.s, e)
    ensures Tracks(Step(w, sign, e).s, Step(w, sign, e).pending)
  {
    if e.Get? {
      GetTracks(w, sign, e);
    } else {
      OthersTrack(w.s, sign, e, w.pending);
    }
  }

  lemma {:induction false} RunTracks(w: World, sign: Signature, es: seq<Event>)
    requires Valid(w.s, sign) && Tracks(w.s, w.pending) && Runs(w.s, sign, es)
    ensures var w' := Watched(w, sign, es);
            w'.s == After(w.s, sign, es) && Valid(w'.s, sign) && Tracks(w'.s, w'.pending)
    decreases |es|
  {
    if es != [] {
      NextKeepsValid(w.s, sign, es[0]);
      StepTracks(w, sign, es[0]);
      RunTracks(Step(w, sign, es[0]), sign, es[1..]);
    }
  }

  /**
    In every run, an encoder is started for a session only if no failure of that session was seen
    since its last start, or ten seconds have passed since the last such failure.
   */
  lemma StartsRespectTheBackoff(sign: Signature, es: seq<Event>, e: Event)
    requires Runs(Initial(), sign, es) && e.Get?
    requires Enabled(After(Initial(), sign, es), e) && Starts(After(Initial(), sign, es), sign, e)
    ensures var known := Known(Watched(World(Initial(), map[]), sign, es), sign, e); var id := MakeId(e.variant, e.key);
            id in known ==> e.now - known[id] >= 10000
  {
    var w := World(Initial(), map[]);
    RunTracks(w, sign, es);
    GetTracks(Watched(w, sign, es), sign, e);
  }

  // ---- which requests are held back ----------------------------------------

  /** What is remembered of failures once a request for the session has been answered; a dead radio session clears it. */
  function Remembered(failed: map<Id, int>, s: State, id: Id, now: int, out: Outcome): map<Id, int> {
    var known := if RadioDied(s, id) then failed - {id} else if DiedYoung(s, id, now) then failed[id := now] else failed;
    if out == StartFailed then known[id := now] else known
  }

  /** When each session was last seen to have failed. */
  function Fail(s: State, sign: Signature, e: Event, failed: map<Id, int>): map<Id, int>
    requires Enabled(s, e)
  {
    if !e.Get? || !Heard(s, sign, e) then failed
    else Remembered(failed, s, MakeId(e.variant, e.key), e.now, Got(s, sign, e).1)
  }

  function Failures(s: State, sign: Signature, es: seq<Event>, failed: map<Id, int>): map<Id, int>
    requires Runs(s, sign, es)
    decreases |es|
  {
    if es == [] then failed else Failures(Next(s, sign, es[0]), sign, es[1..], Fail(s, sign, es[0], failed))
  }

  lemma BuryFails(s: State, id: Id, now: int)
    requires id in s.sessions && s.sessions[id].encoder !in s.live
    ensures var b := Bury(s, id, id, now);
            && b.failedAt == (if RadioDied(s, id) then s.failedAt - {id} else if DiedYoung(s, id, now) then s.failedAt[id := now] else s.failedAt)
            && b.radioMuted == (if RadioDied(s, id) then s.radioMuted[id := now + 300000] else s.radioMuted)
  {
  }

  lemma LookUpFails(s: State, id: Id, now: int)
    requires |s.sessions| <= MAX_PROCESSES
    ensures var s1 := LookUp(s, id, now).0;
            && s1.failedAt == (if RadioDied(s, id) then s.failedAt - {id} else if DiedYoung(s, id, now) then s.failedAt[id := now] else s.failedAt)
            && s1.radioMuted == (if RadioDied(s, id) then s.radioMuted[id := now + 300000] else s.radioMuted)
  {
    LookUpIs(s, id, now);
    if id in s.sessions && s.sessions[id].encoder !in s.live {
      BuryFails(s, id, now);
    }
  }

  lemma SupplyFails(s: State, id: Id, now: int, choice: Option<Id>, launch: Launch)
    requires choice.Some? ==> choice.value in s.sessions
    ensures var (t, out) := Supply(s, id, now, choice, launch);
            && t.failedAt == (if out == StartFailed then s.failedAt[id := now] else s.failedAt)
            && (out == StartFailed && id in s.failedAt ==> now - s.failedAt[id] >= 10000)
            && (out == BackingOff <==> id in s.failedAt && now - s.failedAt[id] < 10000)
  {
  }

  lemma AnswerFails(s: State, id: Id, now: int, choice: Option<Id>, launch: Launch)
    requires |s.sessions| <= MAX_PROCESSES && (choice.Some? ==> choice.value in LookUp(s, id, now).0.sessions)
    ensures var (t, out) := Answer(s, id, now, choice, launch);
            && t.failedAt == Remembered(s.failedAt, s, id, now, out)
            && (out == BackingOff <==>
                  !(id in s.sessions && s.sessions[id].encoder in s.live)
                  && (DiedYoung(s, id, now) || (!RadioDied(s, id) && id in s.failedAt && now - s.failedAt[id] < 10000)))
  {
    LookUpFails(s, id, now);
    LookUpIs(s, id, now);
    var (s1, found) := LookUp(s, id, now);
    if found.None? {
      SupplyFails(s1, id, now, choice, launch);
    }
  }

  lemma SameFailed(s: State, t: State, id: Id, now: int, out: Outcome)
    requires t.sessions == s.sessions && t.live == s.live
    ensures forall failed :: Remembered(failed, t, id, now, out) == Remembered(failed, s, id, now, out)
    ensures DiedYoung(t, id, now) == DiedYoung(s, id, now) && RadioDied(t, id) == RadioDied(s, id)
  {
  }

  lemma GetFails(s: State, sign: Signature, e: Event)
    requires Valid(s, sign) && e.Get? && Enabled(s, e)
    ensures Got(s, sign, e).0.failedAt == Fail(s, sign, e, s.failedAt)
    ensures var id := MakeId(e.variant, e.key);
            Got(s, sign, e).1 == BackingOff <==>
              && Heard(s, sign, e) && !(id in s.sessions && s.sessions[id].encoder in s.live)
              && (DiedYoung(s, id, e.now) || (!RadioDied(s, id) && id in s.failedAt && e.now - s.failedAt[id] < 10000))
  {
    var touched, id := Touch(s, e.key, e.now), MakeId(e.variant, e.key);
    HeardUnlessRefused(s, sign, e);
    if Heard(s, sign, e) {
      AnswerFails(touched, id, e.now, e.choice, e.launch);
      SameFailed(s, touched, id, e.now, Got(s, sign, e).1);
    }
  }

  lemma OthersFail(s: State, sign: Signature, e: Event)
    requires Enabled(s, e) && !e.Get?
    ensures Next(s, sign, e).failedAt == s.failedAt
  {
    match e {
      case Prep(d) => assert Prepare(s, sign, d).0.failedAt == s.failedAt;
      case Reap(now) => assert ReapIdle(s, now).failedAt == s.failedAt;
      case Restart(loaded, copies) => assert RestartOnAudioChange(s, loaded, copies).failedAt == s.failedAt;
      case Shut => assert Close(s).failedAt == s.failedAt;
      case Died(encoder) => assert Exit(s, encoder).failedAt == s.failedAt;
    }
  }

  lemma StepFails(s: State, sign: Signature, e: Event)
    requires Valid(s, sign) && Enabled(s, e)
    ensures Next(s, sign, e).failedAt == Fail(s, sign, e, s.failedAt)
  {
    if e.Get? {
      GetFails(s, sign, e);
    } else {
      OthersFail(s, sign, e);
    }
  }

  lemma {:induction false} FailuresAreRemembered(s: State, sign: Signature, es: seq<Event>)
    requires Valid(s, sign) && Runs(s, sign, es)
    ensures After(s, sign, es).failedAt == Failures(s, sign, es, s.failedAt)
    decreases |es|
  {
    if es != [] {
      NextKeepsValid(s, sign, es[0]);
      StepFails(s, sign, es[0]);
      FailuresAreRemembered(Next(s, sign, es[0]), sign, es[1..]);
    }
  }

  /**
    In every run a request that is let in is held back exactly if its session does not run and is
    found to have died young by this very request, or failed less than ten seconds before.
   */
  lemma RequestIsHeldBackExactly(sign: Signature, es: seq<Event>, e: Event)
    requires Runs(Initial(), sign, es) && e.Get? && Enabled(After(Initial(), sign, es), e)
    ensures var s, id := After(Initial(), sign, es), MakeId(e.variant, e.key);
            var failed := Failures(Initial(), sign, es, map[]);
            Got(s, sign, e).1 == BackingOff <==>
              && Heard(s, sign, e) && !(id in s.sessions && s.sessions[id].encoder in s.live)
              && (DiedYoung(s, id, e.now) || (!RadioDied(s, id) && id in failed && e.now - failed[id] < 10000))
  {
    RunsKeepValid(Initial(), sign, es);
    FailuresAreRemembered(Initial(), sign, es);
    GetFails(After(Initial(), sign, es), sign, e);
  }

  // ---- the radio -----------------------------------------------------------

  /** This request finds the radio session it would use dead. */
  predicate RadioDied(s: State, id: Id) {
    id in s.sessions && s.sessions[id].encoder !in s.live && s.sessions[id].usedRadio
  }

  /** When a dead radio session was last seen, for each session. */
  function Silence(s: State, sign: Signature, e: Event, silenced: map<Id, int>): map<Id, int> {
    if e.Get? && Heard(s, sign, e) && RadioDied(s, MakeId(e.variant, e.key)) then silenced[MakeId(e.variant, e.key) := e.now]
    else silenced
  }

  function Silences(s: State, sign: Signature, es: seq<Event>, silenced: map<Id, int>): map<Id, int>
    requires Runs(s, sign, es)
    decreases |es|
  {
    if es == [] then silenced else Silences(Next(s, sign, es[0]), sign, es[1..], Silence(s, sign, es[0], silenced))
  }

  predicate Mutes(s: State, silenced: map<Id, int>) {
    && s.radioMuted.Keys == silenced.Keys
    && forall id :: id in silenced ==> s.radioMuted[id] == silenced[id] + 300000
  }

  /** The session plays the radio exactly if it is set to and not muted. */
  predicate PlaysRadio(session: Session, id: Id, now: int, launch: Launch, silenced: map<Id, int>) {
    launch.Launched? && (session.usedRadio <==> launch.radio && !(id in silenced && now < silenced[id] + 300000))
  }

  lemma LookUpMutes(s: State, id: Id, now: int, silenced: map<Id, int>)
    requires |s.sessions| <= MAX_PROCESSES && Mutes(s, silenced)
    ensures Mutes(LookUp(s, id, now).0, if RadioDied(s, id) then silenced[id := now] else silenced)
  {
    LookUpFails(s, id, now);
    MutesGrow(s, LookUp(s, id, now).0, id, now, silenced);
  }

  lemma MutesGrow(s: State, t: State, id: Id, now: int, silenced: map<Id, int>)
    requires Mutes(s, silenced)
    ensures t.radioMuted == s.radioMuted ==> Mutes(t, silenced)
    ensures t.radioMuted == s.radioMuted[id := now + 300000] ==> Mutes(t, silenced[id := now])
  {
  }

  /** A start leaves the mutes alone and respects the one of its session. */
  lemma SupplyMutes(s: State, id: Id, now: int, choice: Option<Id>, launch: Launch, silenced: map<Id, int>)
    requires Mutes(s, silenced) && id !in s.sessions && (choice.Some? ==> choice.value in s.sessions)
    ensures var (s', out) := Supply(s, id, now, choice, launch);
            && s'.radioMuted == s.radioMuted
            && (out.Served? && out.id == id ==> id in s'.sessions && PlaysRadio(s'.sessions[id], id, now, launch, silenced))
  {
  }

  lemma HeardMutes(s: State, sign: Signature, e: Event, silenced: map<Id, int>)
    requires Valid(s, sign) && Mutes(s, silenced) && e.Get? && Heard(s, sign, e)
    ensures Mutes(LookUp(Touch(s, e.key, e.now), MakeId(e.variant, e.key), e.now).0, Silence(s, sign, e, silenced))
  {
    var touched, id := Touch(s, e.key, e.now), MakeId(e.variant, e.key);
    assert RadioDied(touched, id) == RadioDied(s, id);
    LookUpMutes(touched, id, e.now, silenced);
  }

  lemma SplitMutes(s: State, sign: Signature, e: Event, s1: State, s': State, out: Outcome, silenced: map<Id, int>)
    requires e.Get? && Split(s, sign, e, s1, s', out) && !Refused(s, s', out) && SessionsOwned(s1) && Mutes(s1, silenced)
    ensures Mutes(s', silenced)
    ensures var id := MakeId(e.variant, e.key);
            out == Served(id, |s.owners|) ==> id in s'.sessions && PlaysRadio(s'.sessions[id], id, e.now, e.launch, silenced)
  {
    var id := MakeId(e.variant, e.key);
    if out.Served? {
      NextNumberIsNew(s, sign, e, s1, s', out);
    }
    if id !in s1.sessions {
      SupplyMutes(s1, id, e.now, e.choice, e.launch, silenced);
    }
  }

  lemma GetMutes(s: State, sign: Signature, e: Event, silenced: map<Id, int>)
    requires Valid(s, sign) && Mutes(s, silenced) && e.Get? && Enabled(s, e)
    ensures Mutes(Next(s, sign, e), Silence(s, sign, e, silenced))
    ensures var s', id := Next(s, sign, e), MakeId(e.variant, e.key);
            Starts(s, sign, e) ==>
              id in s'.sessions && PlaysRadio(s'.sessions[id], id, e.now, e.launch, Silence(s, sign, e, silenced))
  {
    var s1 := GetSplits(s, sign, e);
    var s', out := Got(s, sign, e).0, Got(s, sign, e).1;
    HeardUnlessRefused(s, sign, e);
    if Heard(s, sign, e) {
      TouchKeeps(s, sign, e.key, e.now);
      LookUpKeeps(Touch(s, e.key, e.now), sign, MakeId(e.variant, e.key), e.now);
      HeardMutes(s, sign, e, silenced);
      SplitMutes(s, sign, e, s1, s', out, Silence(s, sign, e, silenced));
    }
  }

  lemma OthersMute(s: State, sign: Signature, e: Event)
    requires Enabled(s, e) && !e.Get?
    ensures Next(s, sign, e).radioMuted == s.radioMuted
  {
    match e {
      case Prep(d) => assert Prepare(s, sign, d).0.radioMuted == s.radioMuted;
      case Reap(now) => assert ReapIdle(s, now).radioMuted == s.radioMuted;
      case Restart(loaded, copies) => assert RestartOnAudioChange(s, loaded, copies).radioMuted == s.radioMuted;
      case Shut => assert Close(s).radioMuted == s.radioMuted;
      case Died(encoder) => assert Exit(s, encoder).radioMuted == s.radioMuted;
    }
  }

  lemma StepMutes(s: State, sign: Signature, e: Event, silenced: map<Id, int>)
    requires Valid(s, sign) && Mutes(s, silenced) && Enabled(s, e)
    ensures Mutes(Next(s, sign, e), Silence(s, sign, e, silenced))
  {
    if e.Get? {
      GetMutes(s, sign, e, silenced);
    } else {
      OthersMute(s, sign, e);
    }
  }

  lemma {:induction false} RunMutes(s: State, sign: Signature, es: seq<Event>, silenced: map<Id, int>)
    requires Valid(s, sign) && Mutes(s, silenced) && Runs(s, sign, es)
    ensures Valid(After(s, sign, es), sign) && Mutes(After(s, sign, es), Silences(s, sign, es, silenced))
    decreases |es|
  {
    if es != [] {
      NextKeepsValid(s, sign, es[0]);
      StepMutes(s, sign, es[0], silenced);
      RunMutes(Next(s, sign, es[0]), sign, es[1..], Silence(s, sign, es[0], silenced));
    }
  }

  /**
    In every run, a session that is started plays the radio exactly if it is set to, and the session
    was not seen dead with the radio in the last five minutes.
   */
  lemma RadioPlaysExactly(sign: Signature, es: seq<Event>, e: Event)
    requires Runs(Initial(), sign, es) && e.Get?
    requires Enabled(After(Initial(), sign, es), e) && Starts(After(Initial(), sign, es), sign, e)
    ensures var s := After(Initial(), sign, es); var s', id := Next(s, sign, e), MakeId(e.variant, e.key);
            var silenced := Silence(s, sign, e, Silences(Initial(), sign, es, map[]));
            id in s'.sessions && PlaysRadio(s'.sessions[id], id, e.now, e.launch, silenced)
  {
    RunMutes(Initial(), sign, es, map[]);
    GetMutes(After(Initial(), sign, es), sign, e, Silences(Initial(), sign, es, map[]));
  }
}

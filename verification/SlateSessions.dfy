/**
  When slates come and go: what a request is answered, how long a session and a personal slate are
  kept and what ends them, told from the events of a run and what their callers were answered.
 */
module SlateSessions {
  import opened Common
  import opened SlateState
  import opened SlateSafety

  // ---- what a request is answered -------------------------------------------

  predicate Running(s: State, id: Id) {
    id in s.sessions && s.sessions[id].encoder in s.live
  }

  /** A failure not ten seconds old holds the session back: its encoder died young, or it failed before. */
  predicate HeldBack(s: State, id: Id, now: int) {
    if id in s.sessions && s.sessions[id].usedRadio then false
    else if id in s.sessions && now - s.sessions[id].started < 30000 then true
    else id in s.failedAt && now - s.failedAt[id] < 10000
  }

  /** Four sessions run, and none of them is a dead one this request would clear away. */
  predicate NoRoom(s: State, id: Id) {
    id !in s.sessions && |s.sessions| >= 4
  }

  /** Forty hexadecimal digits in lower case. */
  predicate Digest(key: string) {
    |key| == 40 && forall k :: 0 <= k < |key| ==> key[k] in "0123456789abcdef"
  }

  lemma KeysAreDigests(key: string)
    ensures ValidKey(key) <==> Digest(key)
  {
    forall k | 0 <= k < |key| ensures key[k] in key && (key[k] in "0123456789abcdef" <==> '0' <= key[k] <= '9' || 'a' <= key[k] <= 'f') {
      HexDigits(key[k]);
    }
  }

  lemma HexDigits(c: char)
    ensures c in "0123456789abcdef" <==> '0' <= c <= '9' || 'a' <= c <= 'f'
  {
    var digits := "0123456789abcdef";
    if '0' <= c <= '9' {
      assert digits[c as int - '0' as int] == c;
    } else if 'a' <= c <= 'f' {
      assert digits[10 + c as int - 'a' as int] == c;
    }
  }

  /** The session a request asks for: the variant's own, or the personal one of its key. */
  function AskedFor(e: Event): Id
    requires e.Get?
  {
    if e.key == "" then Generic(e.variant) else Personal(e.variant, e.key)
  }

  /** The request names a variant and a key that exist. */
  predicate Named(s: State, sign: Signature, e: Event)
    requires e.Get?
  {
    && ValidVariant(e.variant)
    && (e.key != "" ==>
          Digest(e.key) && e.key in s.personal && s.personal[e.key].variant == e.variant
          && e.key == SignatureOf(sign, s.personal[e.key]))
  }

  lemma LetInExactly(s: State, sign: Signature, e: Event)
    requires Valid(s, sign) && e.Get?
    ensures Refusal(s, sign, e.variant, e.key).None? <==> !s.stopped && Named(s, sign, e)
    ensures var r := Refusal(s, sign, e.variant, e.key); r.Some? ==> r == Some(NotExist) || (s.stopped && r == Some(Closed))
  {
    KeysAreDigests(e.key);
  }

  lemma SupplyIs(s: State, id: Id, now: int, choice: Option<Id>, launch: Launch)
    requires choice.Some? ==> choice.value in s.sessions
    ensures Supply(s, id, now, choice, launch).1 ==
            if id in s.failedAt && now - s.failedAt[id] < 10000 then BackingOff
            else if |s.sessions| >= 4 then
              if choice.None? then CapReached else Served(choice.value, s.sessions[choice.value].encoder)
            else if launch.Broken? then StartFailed
            else Served(id, |s.owners|)
  {
  }

  /** A dead session leaves its room, and the memory of its failure unless it played the radio. */
  lemma BuriedIs(s: State, id: Id, now: int)
    requires id in s.sessions && s.sessions[id].encoder !in s.live && |s.sessions| <= 4
    ensures var b := Bury(s, id, id, now);
            && |b.sessions| < 4 && b.owners == s.owners
            && (id in b.failedAt && now - b.failedAt[id] < 10000 <==> HeldBack(s, id, now))
  {
    RemovedKeys(s.sessions, {id});
  }

  lemma AnswerWithoutSession(s: State, id: Id, now: int, choice: Option<Id>, launch: Launch)
    requires |s.sessions| <= 4 && !Running(s, id)
    requires choice.Some? ==> choice.value in LookUp(s, id, now).0.sessions
    ensures Answer(s, id, now, choice, launch) == Supply(LookUp(s, id, now).0, id, now, choice, launch)
  {
    LookUpIs(s, id, now);
  }

  lemma AnswerOfDead(s: State, id: Id, now: int, choice: Option<Id>, launch: Launch)
    requires |s.sessions| <= 4 && id in s.sessions && s.sessions[id].encoder !in s.live
    requires choice.Some? ==> choice.value in LookUp(s, id, now).0.sessions
    ensures Answer(s, id, now, choice, launch).1 ==
            if HeldBack(s, id, now) then BackingOff else if launch.Broken? then StartFailed else Served(id, |s.owners|)
  {
    AnswerWithoutSession(s, id, now, choice, launch);
    LookUpIs(s, id, now);
    SupplyIs(LookUp(s, id, now).0, id, now, choice, launch);
    BuriedIs(s, id, now);
  }

  lemma AnswerOfAbsent(s: State, id: Id, now: int, choice: Option<Id>, launch: Launch)
    requires |s.sessions| <= 4 && id !in s.sessions && (choice.Some? ==> choice.value in s.sessions)
    requires choice.Some? ==> choice.value in LookUp(s, id, now).0.sessions
    ensures Answer(s, id, now, choice, launch).1 ==
            if HeldBack(s, id, now) then BackingOff
            else if NoRoom(s, id) then
              if choice.None? then CapReached else Served(choice.value, s.sessions[choice.value].encoder)
            else if launch.Broken? then StartFailed
            else Served(id, |s.owners|)
  {
    AnswerWithoutSession(s, id, now, choice, launch);
    LookUpIs(s, id, now);
    SupplyIs(LookUp(s, id, now).0, id, now, choice, launch);
  }

  lemma AnswerOfRunning(s: State, id: Id, now: int, choice: Option<Id>, launch: Launch)
    requires |s.sessions| <= 4 && Running(s, id) && (choice.Some? ==> choice.value in LookUp(s, id, now).0.sessions)
    ensures Answer(s, id, now, choice, launch).1 == Served(id, s.sessions[id].encoder)
  {
    LookUpIs(s, id, now);
  }

  /** A generic session is served in its place, one of the same base if there is one. */
  predicate StandsIn(s: State, base: string, out: Outcome) {
    && out.Served? && out.id.Generic? && out.id in s.sessions && out.encoder == s.sessions[out.id].encoder
    && (Base(out.id.variant) == base || forall t :: t in s.sessions && t.Generic? ==> Base(t.variant) != base)
  }

  /**
    The answer to a request that is let in. A running session is served; else a failure less than ten
    seconds old holds it back; else, with four sessions of others, a generic one stands in if there is
    one; and else an encoder is started.
   */
  predicate Answered(s: State, id: Id, now: int, base: string, launch: Launch, out: Outcome) {
    if Running(s, id) then out == Served(id, s.sessions[id].encoder)
    else if HeldBack(s, id, now) then out == BackingOff
    else if NoRoom(s, id) then
      if forall t :: t in s.sessions ==> t.Personal? then out == CapReached else StandsIn(s, base, out)
    else if launch.Broken? then out == StartFailed
    else out == Served(id, |s.owners|)
  }

  lemma ChoiceStandsIn(s: State, base: string, choice: Option<Id>)
    requires ChoiceFits(s.sessions, base, choice)
    ensures choice.None? <==> forall t :: t in s.sessions ==> t.Personal?
    ensures choice.Some? ==> choice.value in s.sessions && StandsIn(s, base, Served(choice.value, s.sessions[choice.value].encoder))
  {
  }

  lemma AnsweredExactly(s: State, id: Id, now: int, base: string, choice: Option<Id>, launch: Launch)
    requires |s.sessions| <= 4 && ChoiceFits(LookUp(s, id, now).0.sessions, base, choice)
    ensures Answered(s, id, now, base, launch, Answer(s, id, now, choice, launch).1)
  {
    LookUpIs(s, id, now);
    if Running(s, id) {
      AnswerOfRunning(s, id, now, choice, launch);
    } else if id in s.sessions {
      AnswerOfDead(s, id, now, choice, launch);
    } else {
      ChoiceStandsIn(s, base, choice);
      AnswerOfAbsent(s, id, now, choice, launch);
    }
  }

  lemma SameAnswer(s: State, t: State, id: Id, now: int, base: string, launch: Launch, out: Outcome)
    requires t.sessions == s.sessions && t.live == s.live && t.failedAt == s.failedAt && t.owners == s.owners
    ensures Answered(t, id, now, base, launch, out) <==> Answered(s, id, now, base, launch, out)
  {
  }

  lemma LetInIsAnswered(s: State, sign: Signature, e: Event)
    requires Valid(s, sign) && e.Get? && Enabled(s, e) && Refusal(s, sign, e.variant, e.key).None?
    ensures Answered(s, MakeId(e.variant, e.key), e.now, Base(e.variant), e.launch, Got(s, sign, e).1)
  {
    var touched, id := Touch(s, e.key, e.now), MakeId(e.variant, e.key);
    AnsweredExactly(touched, id, e.now, Base(e.variant), e.choice, e.launch);
    SameAnswer(s, touched, id, e.now, Base(e.variant), e.launch, Got(s, sign, e).1);
  }

  lemma RefusedIsAnswered(s: State, sign: Signature, e: Event)
    requires e.Get? && Enabled(s, e) && Refusal(s, sign, e.variant, e.key).Some?
    ensures Got(s, sign, e).1 == Refusal(s, sign, e.variant, e.key).value
  {
  }

  lemma IdIsAskedFor(e: Event)
    requires e.Get?
    ensures MakeId(e.variant, e.key) == AskedFor(e)
  {
  }

  /** What a request is answered: one that names nothing there is, or comes after the close, is refused. */
  lemma RequestIsAnsweredExactly(s: State, sign: Signature, e: Event)
    requires Valid(s, sign) && e.Get? && Enabled(s, e)
    ensures var out := Got(s, sign, e).1;
            && (s.stopped ==> out == Closed || out == NotExist)
            && (!s.stopped && !Named(s, sign, e) ==> out == NotExist)
            && (!s.stopped && Named(s, sign, e) ==> Answered(s, AskedFor(e), e.now, Base(e.variant), e.launch, out))
  {
    LetInExactly(s, sign, e);
    IdIsAskedFor(e);
    if Refusal(s, sign, e.variant, e.key).None? {
      LetInIsAnswered(s, sign, e);
    } else {
      RefusedIsAnswered(s, sign, e);
    }
  }

  /** A new manager serves the first generic slate that is asked for. */
  lemma NewManagerServes(sign: Signature, e: Event)
    requires e.Get? && e.key == "" && ValidVariant(e.variant) && e.launch.Launched? && Enabled(Initial(), e)
    ensures Got(Initial(), sign, e).1 == Served(Generic(e.variant), 0)
  {
    RequestIsAnsweredExactly(Initial(), sign, e);
  }

  // ---- the last use and the last start --------------------------------------

  datatype Usage = Usage(id: Id, at: int)

  /** The session whose files the caller was given. */
  function UsedBy(s: State, sign: Signature, e: Event): Option<Usage>
    requires Enabled(s, e)
  {
    if e.Get? && Got(s, sign, e).1.Served? then Some(Usage(Got(s, sign, e).1.id, e.now)) else None
  }

  /** The session served by an encoder with a new number. */
  function StartedBy(s: State, sign: Signature, e: Event): Option<Id>
    requires Enabled(s, e)
  {
    if e.Get? && Got(s, sign, e).1.Served? && Got(s, sign, e).1.encoder == |s.owners| then Some(Got(s, sign, e).1.id) else None
  }

  /** When the run last served the session `id`. */
  function LastServed(s: State, sign: Signature, es: seq<Event>, id: Id): Option<int>
    requires Runs(s, sign, es)
    decreases |es|
  {
    if es == [] then None else
    var later, use := LastServed(Next(s, sign, es[0]), sign, es[1..], id), UsedBy(s, sign, es[0]);
    if later.Some? then later
    else if use.Some? && use.value.id == id then Some(use.value.at)
    else None
  }

  /** The request that last started an encoder for the session `id`. */
  function LastStart(s: State, sign: Signature, es: seq<Event>, id: Id): Option<Event>
    requires Runs(s, sign, es)
    decreases |es|
  {
    if es == [] then None else
    var later := LastStart(Next(s, sign, es[0]), sign, es[1..], id);
    if later.Some? then later
    else if StartedBy(s, sign, es[0]) == Some(id) then Some(es[0])
    else None
  }

  /** The session was started by this request. */
  predicate BornOf(session: Session, e: Event) {
    e.Get? && e.launch.Launched? && session.started == e.now && session.audio == e.launch.audio && session.copy == e.launch.copy
  }

  predicate SameBirth(a: Session, b: Session) {
    a.started == b.started && a.audio == b.audio && a.copy == b.copy && a.encoder == b.encoder && a.usedRadio == b.usedRadio
  }

  /** A session there after a step was used, or started, by it, or was there before with the same marks. */
  predicate MarksFollow(s: State, t: State, id: Id, use: Option<Usage>, start: Option<Id>, e: Event) {
    id in t.sessions ==>
      && (if use.Some? && use.value.id == id then t.sessions[id].lastUsed == use.value.at
          else id in s.sessions && t.sessions[id].lastUsed == s.sessions[id].lastUsed)
      && (if start == Some(id) then BornOf(t.sessions[id], e)
          else id in s.sessions && SameBirth(t.sessions[id], s.sessions[id]))
  }

  /** Sessions of `t` are sessions of `s`, unchanged. */
  predicate Fewer(s: State, t: State) {
    forall id :: id in t.sessions ==> id in s.sessions && t.sessions[id] == s.sessions[id]
  }

  lemma LookUpIsFewer(s: State, id: Id, now: int)
    requires |s.sessions| <= 4
    ensures Fewer(s, LookUp(s, id, now).0) && LookUp(s, id, now).0.owners == s.owners
  {
    LookUpIs(s, id, now);
  }

  lemma FewerFollows(s: State, s1: State, t: State, id: Id, use: Option<Usage>, start: Option<Id>, e: Event)
    requires Fewer(s, s1) && MarksFollow(s1, t, id, use, start, e)
    ensures MarksFollow(s, t, id, use, start, e)
  {
  }

  lemma UseFollows(s: State, id: Id, now: int, q: Id, e: Event)
    requires id in s.sessions
    ensures MarksFollow(s, Use(s, id, now).0, q, Some(Usage(id, now)), None, e)
  {
  }

  lemma StartFollows(s: State, id: Id, e: Event, q: Id)
    requires e.Get? && e.launch.Launched?
    ensures MarksFollow(s, Use(Launching(s, id, e.now, e.launch), id, e.now).0, q, Some(Usage(id, e.now)), Some(id), e)
  {
  }

  function UsageIn(out: Outcome, now: int): Option<Usage> {
    if out.Served? then Some(Usage(out.id, now)) else None
  }

  function StartIn(out: Outcome, next: nat): Option<Id> {
    if out.Served? && out.encoder == next then Some(out.id) else None
  }

  lemma SupplyFollows(s: State, id: Id, e: Event, q: Id)
    requires e.Get? && SessionsOwned(s) && id !in s.sessions && (e.choice.Some? ==> e.choice.value in s.sessions)
    ensures var (t, out) := Supply(s, id, e.now, e.choice, e.launch);
            MarksFollow(s, t, q, UsageIn(out, e.now), StartIn(out, |s.owners|), e)
  {
    if !(id in s.failedAt && e.now - s.failedAt[id] < RESTART_BACKOFF) {
      if |s.sessions| >= MAX_PROCESSES {
        if e.choice.Some? {
          UseFollows(s.(fallbacks := s.fallbacks[id := e.choice.value]), e.choice.value, e.now, q, e);
        }
      } else if e.launch.Launched? {
        StartFollows(s, id, e, q);
      }
    }
  }

  lemma AnswerFollows(s: State, e: Event, q: Id)
    requires e.Get? && SessionsOwned(s) && |s.sessions| <= 4
    requires e.choice.Some? ==> e.choice.value in LookUp(s, MakeId(e.variant, e.key), e.now).0.sessions
    ensures var (t, out) := Answer(s, MakeId(e.variant, e.key), e.now, e.choice, e.launch);
            MarksFollow(s, t, q, UsageIn(out, e.now), StartIn(out, |s.owners|), e)
  {
    var id := MakeId(e.variant, e.key);
    var (s1, found) := LookUp(s, id, e.now);
    LookUpIs(s, id, e.now);
    LookUpIsFewer(s, id, e.now);
    if found.Some? {
      UseFollows(s1, id, e.now, q, e);
    } else {
      SupplyFollows(s1, id, e, q);
    }
    var (t, out) := Answer(s, id, e.now, e.choice, e.launch);
    FewerFollows(s, s1, t, q, UsageIn(out, e.now), StartIn(out, |s.owners|), e);
  }

  lemma GetFollows(s: State, sign: Signature, e: Event, q: Id)
    requires Valid(s, sign) && e.Get? && Enabled(s, e)
    ensures MarksFollow(s, Next(s, sign, e), q, UsedBy(s, sign, e), StartedBy(s, sign, e), e)
  {
    if Refusal(s, sign, e.variant, e.key).None? {
      var touched := Touch(s, e.key, e.now);
      AnswerFollows(touched, e, q);
      FewerFollows(s, touched, Next(s, sign, e), q, UsedBy(s, sign, e), StartedBy(s, sign, e), e);
    }
  }

  lemma RemovingFollows(s: State, gone: set<Id>, q: Id, e: Event)
    ensures MarksFollow(s, Remove(s, gone), q, None, None, e)
  {
  }

  lemma OthersFollow(s: State, sign: Signature, e: Event, q: Id)
    requires !e.Get? && Enabled(s, e)
    ensures MarksFollow(s, Next(s, sign, e), q, None, None, e)
  {
    match e {
      case Reap(now) => RemovingFollows(s, IdleSessions(s, now), q, e);
      case Restart(loaded, copies) => RemovingFollows(s, OutdatedSessions(s, loaded, copies), q, e);
      case Shut => assert Fewer(s, Close(s));
      case Died(encoder) => assert Fewer(s, Exit(s, encoder));
      case Prep(d) => assert Fewer(s, Prepare(s, sign, d).0);
    }
  }

  lemma StepFollows(s: State, sign: Signature, e: Event, q: Id)
    requires Valid(s, sign) && Enabled(s, e)
    ensures MarksFollow(s, Next(s, sign, e), q, UsedBy(s, sign, e), StartedBy(s, sign, e), e)
  {
    if e.Get? {
      GetFollows(s, sign, e, q);
    } else {
      OthersFollow(s, sign, e, q);
    }
  }

  lemma {:induction false} MarksAreTheLast(s: State, sign: Signature, es: seq<Event>, id: Id)
    requires Valid(s, sign) && Runs(s, sign, es) && id in After(s, sign, es).sessions
    ensures var t, served := After(s, sign, es), LastServed(s, sign, es, id);
            if served.Some? then t.sessions[id].lastUsed == served.value
            else id in s.sessions && t.sessions[id].lastUsed == s.sessions[id].lastUsed
    ensures var t, start := After(s, sign, es), LastStart(s, sign, es, id);
            if start.Some? then BornOf(t.sessions[id], start.value)
            else id in s.sessions && SameBirth(t.sessions[id], s.sessions[id])
    decreases |es|
  {
    if es != [] {
      NextKeepsValid(s, sign, es[0]);
      MarksAreTheLast(Next(s, sign, es[0]), sign, es[1..], id);
      StepFollows(s, sign, es[0], id);
    }
  }

  // ---- what ends a session --------------------------------------------------

  /** The session is gone, or another encoder has its place. */
  predicate Ended(s: State, t: State, id: Id)
    requires id in s.sessions
  {
    id !in t.sessions || t.sessions[id].encoder != s.sessions[id].encoder
  }

  /** The settings the session was started with are not those of now. */
  predicate SettingsChanged(id: Id, audio: Option<Audio>, copy: Copy, loaded: Loaded, copies: Copies) {
    var audioChanged := loaded.Loaded? && audio.Some? && audio.value != loaded.audio;
    var textChanged := ValidVariant(id.variant) && copies(Reason(id.variant)).Some? && copies(Reason(id.variant)).value != copy;
    !loaded.LoadFails? && (audioChanged || textChanged)
  }

  lemma ReapEndsExactly(s: State, now: int, id: Id)
    requires id in s.sessions
    ensures Ended(s, ReapIdle(s, now), id) <==> now - s.sessions[id].lastUsed > 90000
  {
  }

  lemma RestartEndsExactly(s: State, loaded: Loaded, copies: Copies, id: Id)
    requires id in s.sessions
    ensures Ended(s, RestartOnAudioChange(s, loaded, copies), id) <==>
            SettingsChanged(id, s.sessions[id].audio, s.sessions[id].copy, loaded, copies)
    ensures Ended(s, RestartOnAudioChange(s, loaded, copies), id) <==> id !in RestartOnAudioChange(s, loaded, copies).sessions
  {
  }

  lemma ServingKeepsEncoders(s: State, id: Id, now: int, q: Id)
    requires id in s.sessions && q in s.sessions
    ensures !Ended(s, Use(s, id, now).0, q)
  {
  }

  lemma SupplyEndsNone(s: State, id: Id, now: int, choice: Option<Id>, launch: Launch, q: Id)
    requires id !in s.sessions && q in s.sessions && (choice.Some? ==> choice.value in s.sessions)
    ensures !Ended(s, Supply(s, id, now, choice, launch).0, q)
  {
  }

  lemma SupplyRenumbers(s: State, id: Id, now: int, choice: Option<Id>, launch: Launch)
    requires id !in s.sessions && (choice.Some? ==> choice.value in s.sessions)
    ensures var t := Supply(s, id, now, choice, launch).0; id in t.sessions ==> t.sessions[id].encoder == |s.owners|
  {
  }

  lemma AnswerEndsExactly(s: State, id: Id, now: int, choice: Option<Id>, launch: Launch, q: Id)
    requires SessionsOwned(s) && |s.sessions| <= 4 && q in s.sessions
    requires choice.Some? ==> choice.value in LookUp(s, id, now).0.sessions
    ensures Ended(s, Answer(s, id, now, choice, launch).0, q) <==> q == id && s.sessions[q].encoder !in s.live
  {
    var (s1, found) := LookUp(s, id, now);
    LookUpIs(s, id, now);
    if found.Some? {
      ServingKeepsEncoders(s1, id, now, q);
    } else {
      SupplyRenumbers(s1, id, now, choice, launch);
      if q in s1.sessions {
        SupplyEndsNone(s1, id, now, choice, launch, q);
      }
    }
  }

  /** What a step must be to end the registered session `id`. */
  predicate Ends(s: State, sign: Signature, e: Event, id: Id)
    requires id in s.sessions
  {
    match e
    case Get(_, _, _, _, _) => Named(s, sign, e) && id == AskedFor(e) && s.sessions[id].encoder !in s.live
    case Reap(now) => now - s.sessions[id].lastUsed > 90000
    case Restart(loaded, copies) => SettingsChanged(id, s.sessions[id].audio, s.sessions[id].copy, loaded, copies)
    case Shut => true
    case _ => false
  }

  lemma GetEndsExactly(s: State, sign: Signature, e: Event, id: Id)
    requires Valid(s, sign) && e.Get? && Enabled(s, e) && id in s.sessions
    ensures Ended(s, Got(s, sign, e).0, id) <==>
            Refusal(s, sign, e.variant, e.key).None? && id == MakeId(e.variant, e.key) && s.sessions[id].encoder !in s.live
  {
    if Refusal(s, sign, e.variant, e.key).None? {
      AnswerEndsExactly(Touch(s, e.key, e.now), MakeId(e.variant, e.key), e.now, e.choice, e.launch, id);
    }
  }

  lemma NoneAfterClose(s: State, sign: Signature, id: Id)
    requires Valid(s, sign) && id in s.sessions
    ensures !s.stopped
  {
  }

  lemma GetStepEndsExactly(s: State, sign: Signature, e: Event, id: Id)
    requires Valid(s, sign) && e.Get? && Enabled(s, e) && id in s.sessions
    ensures Ended(s, Got(s, sign, e).0, id) <==> Ends(s, sign, e, id)
  {
    LetInExactly(s, sign, e);
    IdIsAskedFor(e);
    NoneAfterClose(s, sign, id);
    GetEndsExactly(s, sign, e, id);
  }

  lemma OthersEndExactly(s: State, sign: Signature, e: Event, id: Id)
    requires Enabled(s, e) && !e.Get? && !s.stopped && id in s.sessions
    ensures Ended(s, Next(s, sign, e), id) <==> Ends(s, sign, e, id)
  {
    match e {
      case Reap(now) => ReapEndsExactly(s, now, id);
      case Restart(loaded, copies) => RestartEndsExactly(s, loaded, copies, id);
      case _ =>
    }
  }

  /** A session ends at a step exactly if the step is one of those named in `Ends`. */
  lemma SessionEndsExactly(s: State, sign: Signature, e: Event, id: Id)
    requires Valid(s, sign) && Enabled(s, e) && id in s.sessions
    ensures Ended(s, Next(s, sign, e), id) <==> Ends(s, sign, e, id)
  {
    if e.Get? {
      GetStepEndsExactly(s, sign, e, id);
    } else {
      NoneAfterClose(s, sign, id);
      OthersEndExactly(s, sign, e, id);
    }
  }

  // ---- which encoders run ---------------------------------------------------

  /** The step takes the encoder `n` down: it exits, or its session is reaped or restarted. */
  predicate TakesDown(s: State, e: Event, n: nat) {
    match e
    case Died(encoder) => n == encoder
    case Reap(now) => exists id :: id in s.sessions && s.sessions[id].encoder == n && now - s.sessions[id].lastUsed > 90000
    case Restart(loaded, copies) =>
      exists id :: id in s.sessions && s.sessions[id].encoder == n
                   && SettingsChanged(id, s.sessions[id].audio, s.sessions[id].copy, loaded, copies)
    case _ => false
  }

  lemma RemoveTakesDown(s: State, gone: set<Id>, n: nat)
    ensures n in Remove(s, gone).live <==> n in s.live && !exists id :: id in gone && id in s.sessions && s.sessions[id].encoder == n
  {
  }

  lemma OthersRun(s: State, sign: Signature, e: Event, n: nat)
    requires Enabled(s, e) && !e.Get?
    ensures n in Next(s, sign, e).live <==> n in s.live && !TakesDown(s, e, n)
  {
    match e {
      case Reap(now) => RemoveTakesDown(s, IdleSessions(s, now), n);
      case Restart(loaded, copies) => RemoveTakesDown(s, OutdatedSessions(s, loaded, copies), n);
      case Shut => assert Close(s).live == s.live;
      case Died(encoder) => assert Exit(s, encoder).live == s.live - {encoder};
      case Prep(d) => assert Prepare(s, sign, d).0.live == s.live;
    }
  }

  lemma SupplyRuns(s: State, id: Id, now: int, choice: Option<Id>, launch: Launch)
    requires SessionsOwned(s) && id !in s.sessions && (choice.Some? ==> choice.value in s.sessions)
    ensures var (t, out) := Supply(s, id, now, choice, launch);
            t.live == if StartIn(out, |s.owners|).Some? then s.live + {|s.owners|} else s.live
  {
  }

  lemma LookUpRuns(s: State, id: Id, now: int)
    requires SessionsOwned(s) && |s.sessions| <= 4
    ensures var s1 := LookUp(s, id, now).0; s1.live == s.live && s1.owners == s.owners && SessionsOwned(s1)
    ensures !Running(s, id) ==> id !in LookUp(s, id, now).0.sessions
  {
    LookUpIs(s, id, now);
  }

  lemma AnswerOfRunningRuns(s: State, id: Id, now: int, choice: Option<Id>, launch: Launch)
    requires |s.sessions| <= 4 && Running(s, id) && (choice.Some? ==> choice.value in LookUp(s, id, now).0.sessions)
    ensures Answer(s, id, now, choice, launch).0.live == s.live
  {
    LookUpIs(s, id, now);
  }

  lemma AnswerRuns(s: State, id: Id, now: int, choice: Option<Id>, launch: Launch)
    requires SessionsOwned(s) && |s.sessions| <= 4 && (choice.Some? ==> choice.value in LookUp(s, id, now).0.sessions)
    ensures var (t, out) := Answer(s, id, now, choice, launch);
            t.live == if StartIn(out, |s.owners|).Some? then s.live + {|s.owners|} else s.live
  {
    if Running(s, id) {
      AnswerOfRunning(s, id, now, choice, launch);
      AnswerOfRunningRuns(s, id, now, choice, launch);
    } else {
      AnswerWithoutSession(s, id, now, choice, launch);
      LookUpRuns(s, id, now);
      SupplyRuns(LookUp(s, id, now).0, id, now, choice, launch);
    }
  }

  lemma GetRuns(s: State, sign: Signature, e: Event)
    requires Valid(s, sign) && e.Get? && Enabled(s, e)
    ensures Got(s, sign, e).0.live == if StartedBy(s, sign, e).Some? then s.live + {|s.owners|} else s.live
  {
    if Refusal(s, sign, e.variant, e.key).None? {
      AnswerRuns(Touch(s, e.key, e.now), MakeId(e.variant, e.key), e.now, e.choice, e.launch);
    }
  }

  /** An encoder runs after a step exactly if the step started it, or it ran before and was not taken down. */
  lemma EncoderRunsExactly(s: State, sign: Signature, e: Event, n: nat)
    requires Valid(s, sign) && Enabled(s, e)
    ensures n in Next(s, sign, e).live <==>
              (StartedBy(s, sign, e).Some? && n == |s.owners|) || (n in s.live && !TakesDown(s, e, n))
  {
    if e.Get? {
      GetRuns(s, sign, e);
    } else {
      OthersRun(s, sign, e, n);
    }
  }

  /** In every run the reaper ends a session exactly if it was last served more than ninety seconds before. */
  lemma SessionIsReapedExactly(sign: Signature, es: seq<Event>, id: Id, now: int)
    requires Runs(Initial(), sign, es) && id in After(Initial(), sign, es).sessions
    ensures var served := LastServed(Initial(), sign, es, id);
            served.Some? && (id !in Next(After(Initial(), sign, es), sign, Reap(now)).sessions <==> now - served.value > 90000)
  {
    RunsKeepValid(Initial(), sign, es);
    MarksAreTheLast(Initial(), sign, es, id);
  }

  /**
    In every run a session is restarted exactly if the audio settings or the text it was started with
    are not those loaded now; settings that cannot be loaded restart nothing.
   */
  lemma SessionIsRestartedExactly(sign: Signature, es: seq<Event>, id: Id, loaded: Loaded, copies: Copies)
    requires Runs(Initial(), sign, es) && id in After(Initial(), sign, es).sessions
    ensures var start := LastStart(Initial(), sign, es, id);
            && start.Some? && start.value.Get? && start.value.launch.Launched?
            && (id !in Next(After(Initial(), sign, es), sign, Restart(loaded, copies)).sessions <==>
                SettingsChanged(id, start.value.launch.audio, start.value.launch.copy, loaded, copies))
  {
    RunsKeepValid(Initial(), sign, es);
    MarksAreTheLast(Initial(), sign, es, id);
    var t := After(Initial(), sign, es);
    RestartOfBorn(t, sign, loaded, copies, id, LastStart(Initial(), sign, es, id).value);
  }

  lemma RestartOfBorn(s: State, sign: Signature, loaded: Loaded, copies: Copies, id: Id, start: Event)
    requires id in s.sessions && BornOf(s.sessions[id], start)
    ensures id !in Next(s, sign, Restart(loaded, copies)).sessions <==>
            SettingsChanged(id, start.launch.audio, start.launch.copy, loaded, copies)
  {
    RestartEndsExactly(s, loaded, copies, id);
  }

  // ---- personal slates ------------------------------------------------------

  /** The slate names a valid variant and credential, and the manager is open. */
  predicate Acceptable(s: State, d: Descriptor) {
    ValidVariant(d.variant) && d.ap > 0 && d.cutoff != 0 && !s.stopped
  }

  /** A personal slate is refused if it is not acceptable, and, while new, when three others exist. */
  lemma PrepareRefusesExactly(s: State, sign: Signature, d: Descriptor)
    requires sign(d.variant, d.ap, d.token, d.cutoff) != ""
    ensures var (t, key) := Prepare(s, sign, d);
            && (key == "" <==> !Acceptable(s, d) || (sign(d.variant, d.ap, d.token, d.cutoff) !in s.personal && |s.personal| >= 3))
            && (key == "" ==> t == s)
  {
  }

  /** Else the caller gets the key signed for it, shared or new, and the slate counts as used. */
  lemma PreparedIsKept(s: State, sign: Signature, d: Descriptor)
    requires sign(d.variant, d.ap, d.token, d.cutoff) != "" && Prepare(s, sign, d).1 != ""
    ensures var (t, key) := Prepare(s, sign, d);
            && key == sign(d.variant, d.ap, d.token, d.cutoff)
            && t == s.(personal := s.personal[key := if key in s.personal then s.personal[key].(lastUsed := d.lastUsed) else d])
  {
  }

  /** The personal slate the event used: prepared, or asked for by a request that is let in. */
  function SlateUsedBy(s: State, sign: Signature, e: Event): Option<(string, int)> {
    if e.Prep? && Prepare(s, sign, e.descriptor).1 != "" then Some((Prepare(s, sign, e.descriptor).1, e.descriptor.lastUsed))
    else if e.Get? && e.key != "" && !s.stopped && Named(s, sign, e) then Some((e.key, e.now))
    else None
  }

  /** When the run last used the personal slate `key`. */
  function LastSlateUse(s: State, sign: Signature, es: seq<Event>, key: string): Option<int>
    requires Runs(s, sign, es)
    decreases |es|
  {
    if es == [] then None else
    var later, use := LastSlateUse(Next(s, sign, es[0]), sign, es[1..], key), SlateUsedBy(s, sign, es[0]);
    if later.Some? then later
    else if use.Some? && use.value.0 == key then Some(use.value.1)
    else None
  }

  predicate SlateFollows(s: State, t: State, key: string, use: Option<(string, int)>) {
    key in t.personal ==>
      if use.Some? && use.value.0 == key then t.personal[key].lastUsed == use.value.1
      else key in s.personal && t.personal[key].lastUsed == s.personal[key].lastUsed
  }

  lemma SupplyKeepsSlates(s: State, id: Id, now: int, choice: Option<Id>, launch: Launch)
    requires choice.Some? ==> choice.value in s.sessions
    ensures Supply(s, id, now, choice, launch).0.personal == s.personal
  {
  }

  lemma AnswerKeepsSlates(s: State, id: Id, now: int, choice: Option<Id>, launch: Launch)
    requires |s.sessions| <= 4 && (choice.Some? ==> choice.value in LookUp(s, id, now).0.sessions)
    ensures Answer(s, id, now, choice, launch).0.personal == s.personal
  {
    LookUpIs(s, id, now);
    var (s1, found) := LookUp(s, id, now);
    assert s1.personal == s.personal;
    if found.None? {
      SupplyKeepsSlates(s1, id, now, choice, launch);
    }
  }

  lemma GetFollowsSlates(s: State, sign: Signature, e: Event, key: string)
    requires Signs(sign) && Valid(s, sign) && e.Get? && Enabled(s, e)
    ensures SlateFollows(s, Next(s, sign, e), key, SlateUsedBy(s, sign, e))
  {
    var touched := Touch(s, e.key, e.now);
    LetInExactly(s, sign, e);
    if Refusal(s, sign, e.variant, e.key).None? {
      AnswerKeepsSlates(touched, MakeId(e.variant, e.key), e.now, e.choice, e.launch);
      TouchedSlate(s, e.key, e.now, key);
      SameSlates(s, touched, Next(s, sign, e), key, SlateUsedBy(s, sign, e));
    }
  }

  lemma SameSlates(s: State, t: State, u: State, key: string, use: Option<(string, int)>)
    requires u.personal == t.personal
    ensures SlateFollows(s, t, key, use) ==> SlateFollows(s, u, key, use)
  {
  }

  lemma OthersFollowSlates(s: State, sign: Signature, e: Event, key: string)
    requires Enabled(s, e) && !e.Get? && !e.Prep?
    ensures SlateFollows(s, Next(s, sign, e), key, None)
  {
  }

  lemma TouchedSlate(s: State, used: string, now: int, key: string)
    requires used != "" ==> used in s.personal
    requires "" !in s.personal
    ensures SlateFollows(s, Touch(s, used, now), key, if used != "" then Some((used, now)) else None)
  {
  }

  lemma PrepFollowsSlates(s: State, sign: Signature, d: Descriptor, key: string)
    requires sign(d.variant, d.ap, d.token, d.cutoff) != ""
    ensures SlateFollows(s, Prepare(s, sign, d).0, key, SlateUsedBy(s, sign, Prep(d)))
  {
    if Prepare(s, sign, d).1 != "" {
      PreparedIsKept(s, sign, d);
    } else {
      PrepareRefusesExactly(s, sign, d);
    }
  }

  /** The keys are digests, never empty. */
  ghost predicate Signs(sign: Signature) {
    forall variant, ap, token, cutoff :: sign(variant, ap, token, cutoff) != ""
  }

  lemma StepFollowsSlates(s: State, sign: Signature, e: Event, key: string)
    requires Signs(sign) && Valid(s, sign) && Enabled(s, e)
    ensures SlateFollows(s, Next(s, sign, e), key, SlateUsedBy(s, sign, e))
  {
    match e {
      case Get(_, _, _, _, _) => GetFollowsSlates(s, sign, e, key);
      case Prep(d) => PrepFollowsSlates(s, sign, d, key);
      case _ => OthersFollowSlates(s, sign, e, key);
    }
  }

  lemma {:induction false} SlateUseIsTheLast(s: State, sign: Signature, es: seq<Event>, key: string)
    requires Signs(sign) && Valid(s, sign) && Runs(s, sign, es) && key in After(s, sign, es).personal
    ensures var t, use := After(s, sign, es), LastSlateUse(s, sign, es, key);
            if use.Some? then t.personal[key].lastUsed == use.value
            else key in s.personal && t.personal[key].lastUsed == s.personal[key].lastUsed
    decreases |es|
  {
    if es != [] {
      NextKeepsValid(s, sign, es[0]);
      SlateUseIsTheLast(Next(s, sign, es[0]), sign, es[1..], key);
      StepFollowsSlates(s, sign, es[0], key);
    }
  }

  /** In every run the reaper drops a personal slate exactly if it was last prepared or asked for more than ninety seconds before. */
  lemma PersonalSlateIsReapedExactly(sign: Signature, es: seq<Event>, key: string, now: int)
    requires Signs(sign) && Runs(Initial(), sign, es) && key in After(Initial(), sign, es).personal
    ensures var use := LastSlateUse(Initial(), sign, es, key);
            use.Some? && (key !in Next(After(Initial(), sign, es), sign, Reap(now)).personal <==> now - use.value > 90000)
  {
    RunsKeepValid(Initial(), sign, es);
    SlateUseIsTheLast(Initial(), sign, es, key);
  }
}

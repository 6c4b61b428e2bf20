/**
  What every run of the slate manager keeps: the caps on encoders and personal slates, who may be
  given which files, backoff after failures, and that nothing starts once it is closed.
 */
module SlateSafety {
  import opened Common
  import opened SlateState

  // ---- runs ----------------------------------------------------------------

  datatype Event =
    | Get(variant: string, key: string, now: int, choice: Option<Id>, launch: Launch)
    | Prep(descriptor: Descriptor)
    | Reap(now: int)
    | Restart(loaded: Loaded, copies: Copies)
    | Shut
    | Died(encoder: nat)

  /** The fallback is one the loops over the sessions can end with. */
  predicate Enabled(s: State, e: Event) {
    e.Get? ==> ChoiceFits(LookUp(Touch(s, e.key, e.now), MakeId(e.variant, e.key), e.now).0.sessions, Base(e.variant), e.choice)
  }

  function Got(s: State, sign: Signature, e: Event): (State, Outcome)
    requires e.Get? && Enabled(s, e)
  {
    GetPath(s, sign, e.variant, e.key, e.now, e.choice, e.launch)
  }

  function Next(s: State, sign: Signature, e: Event): State
    requires Enabled(s, e)
  {
    match e
    case Get(_, _, _, _, _) => Got(s, sign, e).0
    case Prep(descriptor) => Prepare(s, sign, descriptor).0
    case Reap(now) => ReapIdle(s, now)
    case Restart(loaded, copies) => RestartOnAudioChange(s, loaded, copies)
    case Shut => Close(s)
    case Died(encoder) => Exit(s, encoder)
  }

  predicate Runs(s: State, sign: Signature, es: seq<Event>)
    decreases |es|
  {
    es == [] || (Enabled(s, es[0]) && Runs(Next(s, sign, es[0]), sign, es[1..]))
  }

  function After(s: State, sign: Signature, es: seq<Event>): State
    requires Runs(s, sign, es)
    decreases |es|
  {
    if es == [] then s else After(Next(s, sign, es[0]), sign, es[1..])
  }

  // ---- the invariant -------------------------------------------------------

  predicate SessionsOwned(s: State) {
    forall id :: id in s.sessions ==> s.sessions[id].encoder < |s.owners| && s.owners[s.sessions[id].encoder] == id
  }

  predicate LiveRegistered(s: State) {
    forall n :: n in s.live ==> n < |s.owners| && s.owners[n] in s.sessions && s.sessions[s.owners[n]].encoder == n
  }

  predicate Encoders(s: State) {
    && SessionsOwned(s)
    && |s.sessions| <= MAX_PROCESSES && |s.live| <= MAX_PROCESSES
    && (if s.stopped then s.sessions == map[] else LiveRegistered(s))
  }

  predicate Slates(s: State, sign: Signature) {
    && |s.personal| <= MAX_PERSONAL
    && forall key :: key in s.personal ==> key == SignatureOf(sign, s.personal[key])
  }

  predicate FallbacksGeneric(s: State) {
    forall id :: id in s.fallbacks ==> s.fallbacks[id].Generic?
  }

  predicate Valid(s: State, sign: Signature) {
    Encoders(s) && Slates(s, sign) && FallbacksGeneric(s)
  }

  // ---- cardinalities -------------------------------------------------------

  function Image<K, V>(m: map<K, V>, part: set<K>): set<V>
    requires part <= m.Keys
  {
    set k | k in part :: m[k]
  }

  lemma {:induction false} ImageBound<K, V>(m: map<K, V>, part: set<K>)
    requires part <= m.Keys
    ensures |Image(m, part)| <= |part|
    decreases |part|
  {
    if part != {} {
      var k :| k in part;
      ImageBound(m, part - {k});
      assert Image(m, part) == Image(m, part - {k}) + {m[k]};
    }
  }

  lemma SubsetBound<T>(a: set<T>, b: set<T>)
    requires a <= b
    ensures |a| <= |b|
  {
    assert b == a + (b - a);
  }

  /** While every live encoder belongs to a session, there are no more of them than sessions. */
  lemma LiveBound(s: State)
    requires LiveRegistered(s)
    ensures |s.live| <= |s.sessions|
  {
    var encoders := map id | id in s.sessions :: s.sessions[id].encoder;
    assert encoders.Keys == s.sessions.Keys;
    ImageBound(encoders, s.sessions.Keys);
    var image := Image(encoders, s.sessions.Keys);
    forall n | n in s.live ensures n in image {
      assert s.owners[n] in s.sessions.Keys && encoders[s.owners[n]] == n;
    }
    assert s.live <= image;
    SubsetBound(s.live, image);
    assert |image| <= |s.sessions.Keys| == |s.sessions|;
  }

  lemma RemovedKeys<K, V>(m: map<K, V>, gone: set<K>)
    ensures |m - gone| <= |m|
    ensures forall k :: k in m && k in gone ==> |m - gone| < |m|
  {
    assert (m - gone).Keys == m.Keys - gone;
    SubsetBound((m - gone).Keys, m.Keys);
    forall k | k in m && k in gone ensures |m - gone| < |m| {
      SubsetBound((m - gone).Keys, m.Keys - {k});
    }
  }

  lemma UpdatedKeys<K, V>(m: map<K, V>, k: K, v: V)
    ensures |m[k := v]| == if k in m then |m| else |m| + 1
  {
    assert m[k := v].Keys == m.Keys + {k};
  }

  // ---- the pieces of GetPath -----------------------------------------------

  lemma TouchKeeps(s: State, sign: Signature, key: string, now: int)
    requires Valid(s, sign)
    ensures Valid(Touch(s, key, now), sign)
  {
    if key in s.personal {
      UpdatedKeys(s.personal, key, s.personal[key].(lastUsed := now));
    }
  }

  lemma BuryKeeps(s: State, sign: Signature, id: Id, actual: Id, now: int)
    requires Valid(s, sign) && actual in s.sessions && s.sessions[actual].encoder !in s.live
    ensures Valid(Bury(s, id, actual, now), sign)
    ensures |Bury(s, id, actual, now).sessions| < MAX_PROCESSES
  {
    RemovedKeys(s.sessions, {actual});
  }

  /** A remembered fallback never decides: there are never as many sessions as it is compared with. */
  lemma RememberedFallbackIsDropped(s: State, sign: Signature, id: Id)
    requires Valid(s, sign) && id !in s.sessions
    ensures Candidate(s, id) == (s.(fallbacks := s.fallbacks - {id}), None)
  {
    assert id !in s.fallbacks ==> s.fallbacks - {id} == s.fallbacks;
  }

  /** So a request looks at its own session only. */
  lemma LookUpIs(s: State, id: Id, now: int)
    requires |s.sessions| <= MAX_PROCESSES
    ensures LookUp(s, id, now) ==
            if id !in s.sessions then (s.(fallbacks := s.fallbacks - {id}), None)
            else if s.sessions[id].encoder in s.live then (s, Some(id))
            else (Bury(s, id, id, now), None)
  {
    assert id !in s.fallbacks ==> s.fallbacks - {id} == s.fallbacks;
  }

  lemma LookUpKeeps(s: State, sign: Signature, id: Id, now: int)
    requires Valid(s, sign)
    ensures var (s1, found) := LookUp(s, id, now);
            Valid(s1, sign) && s1.stopped == s.stopped && s1.owners == s.owners && s1.live == s.live
            && (found.Some? ==> found.value == id && id in s1.sessions)
            && (found.None? ==> id !in s1.sessions)
  {
    LookUpIs(s, id, now);
    if id in s.sessions && s.sessions[id].encoder !in s.live {
      BuryKeeps(s, sign, id, id, now);
    }
  }

  lemma UseKeeps(s: State, sign: Signature, id: Id, now: int)
    requires Valid(s, sign) && id in s.sessions
    ensures Valid(Use(s, id, now).0, sign)
  {
    UpdatedKeys(s.sessions, id, s.sessions[id].(lastUsed := now));
  }

  lemma LaunchingKeeps(s: State, sign: Signature, id: Id, now: int, launch: Launch)
    requires Valid(s, sign) && !s.stopped && id !in s.sessions && |s.sessions| < MAX_PROCESSES && launch.Launched?
    ensures Valid(Launching(s, id, now, launch), sign)
  {
    LaunchingKeepsEncoders(s, id, now, launch);
  }

  lemma LaunchingKeepsEncoders(s: State, id: Id, now: int, launch: Launch)
    requires Encoders(s) && !s.stopped && id !in s.sessions && |s.sessions| < MAX_PROCESSES && launch.Launched?
    ensures Encoders(Launching(s, id, now, launch))
  {
    var s' := Launching(s, id, now, launch);
    UpdatedKeys(s.sessions, id, s'.sessions[id]);
    LaunchingKeepsLive(s, id, now, launch);
    LiveBound(s');
  }

  lemma LaunchingKeepsLive(s: State, id: Id, now: int, launch: Launch)
    requires LiveRegistered(s) && id !in s.sessions && launch.Launched?
    ensures LiveRegistered(Launching(s, id, now, launch))
  {
  }

  lemma SupplyKeeps(s: State, sign: Signature, id: Id, now: int, choice: Option<Id>, launch: Launch)
    requires Valid(s, sign) && !s.stopped && id !in s.sessions
    requires choice.Some? ==> choice.value in s.sessions && choice.value.Generic?
    ensures Valid(Supply(s, id, now, choice, launch).0, sign)
  {
    if |s.sessions| < MAX_PROCESSES {
      if launch.Launched? {
        StartKeeps(s, sign, id, now, launch);
      } else {
        FailedKeeps(s, sign, id, now);
      }
    } else if choice.Some? {
      FallbackKeeps(s, sign, id, choice.value, now);
    }
  }

  lemma StartKeeps(s: State, sign: Signature, id: Id, now: int, launch: Launch)
    requires Valid(s, sign) && !s.stopped && id !in s.sessions && |s.sessions| < MAX_PROCESSES && launch.Launched?
    ensures Valid(Use(Launching(s, id, now, launch), id, now).0, sign)
  {
    LaunchingKeeps(s, sign, id, now, launch);
    UseKeeps(Launching(s, id, now, launch), sign, id, now);
  }

  lemma FailedKeeps(s: State, sign: Signature, id: Id, now: int)
    requires Valid(s, sign)
    ensures Valid(s.(failedAt := s.failedAt[id := now]), sign)
  {
  }

  lemma FallbackKeeps(s: State, sign: Signature, id: Id, target: Id, now: int)
    requires Valid(s, sign) && target in s.sessions && target.Generic?
    ensures Valid(Use(s.(fallbacks := s.fallbacks[id := target]), target, now).0, sign)
  {
    UseKeeps(s.(fallbacks := s.fallbacks[id := target]), sign, target, now);
  }

  predicate Refused(s: State, s': State, out: Outcome) {
    s' == s && (out == NotExist || out == Closed)
  }

  /** The request was let in, and `s1` is the state once its session was looked up. */
  predicate LetIn(s: State, sign: Signature, e: Event, s1: State)
    requires e.Get?
  {
    && Refusal(s, sign, e.variant, e.key).None? && !s1.stopped
    && Valid(s1, sign)
    && s1.owners == s.owners && s1.live == s.live && s1.sessions.Keys <= s.sessions.Keys
    && (e.choice.Some? ==> e.choice.value in s1.sessions && e.choice.value.Generic?)
    && ChoiceFits(s1.sessions, Base(e.variant), e.choice)
  }

  predicate Split(s: State, sign: Signature, e: Event, s1: State, s': State, out: Outcome)
    requires e.Get?
  {
    var id := MakeId(e.variant, e.key);
    || Refused(s, s', out)
    || (LetIn(s, sign, e, s1)
        && if id in s1.sessions then (s', out) == Use(s1, id, e.now)
           else (s', out) == Supply(s1, id, e.now, e.choice, e.launch))
  }

  /** A request is refused, or uses its own live session, or is supplied with one. */
  lemma GetSplits(s: State, sign: Signature, e: Event) returns (s1: State)
    requires Valid(s, sign) && e.Get? && Enabled(s, e)
    ensures s1 == LookUp(Touch(s, e.key, e.now), MakeId(e.variant, e.key), e.now).0
    ensures Split(s, sign, e, s1, Got(s, sign, e).0, Got(s, sign, e).1)
  {
    var touched, id := Touch(s, e.key, e.now), MakeId(e.variant, e.key);
    TouchKeeps(s, sign, e.key, e.now);
    LookUpKeeps(touched, sign, id, e.now);
    LookUpOnlyRemoves(touched, id, e.now);
    s1 := LookUp(touched, id, e.now).0;
  }

  lemma LookUpOnlyRemoves(s: State, id: Id, now: int)
    ensures LookUp(s, id, now).0.sessions.Keys <= s.sessions.Keys
  {
  }

  lemma GetKeeps(s: State, sign: Signature, e: Event)
    requires Valid(s, sign) && e.Get? && Enabled(s, e)
    ensures Valid(Got(s, sign, e).0, sign)
  {
    var s1 := GetSplits(s, sign, e);
    SplitKeeps(s, sign, e, s1, Got(s, sign, e).0, Got(s, sign, e).1);
  }

  lemma SplitKeeps(s: State, sign: Signature, e: Event, s1: State, s': State, out: Outcome)
    requires Valid(s, sign) && e.Get? && Split(s, sign, e, s1, s', out)
    ensures Valid(s', sign)
  {
    if !Refused(s, s', out) {
      var id := MakeId(e.variant, e.key);
      if id in s1.sessions {
        UseKeeps(s1, sign, id, e.now);
      } else {
        SupplyKeeps(s1, sign, id, e.now, e.choice, e.launch);
      }
    }
  }

  // ---- the other operations ------------------------------------------------

  lemma PrepareKeeps(s: State, sign: Signature, d: Descriptor)
    requires Valid(s, sign)
    ensures Valid(Prepare(s, sign, d).0, sign)
  {
    var key := SignatureOf(sign, d);
    UpdatedKeys(s.personal, key, d);
    if key in s.personal {
      UpdatedKeys(s.personal, key, s.personal[key].(lastUsed := d.lastUsed));
    }
  }

  lemma RemoveKeeps(s: State, sign: Signature, gone: set<Id>)
    requires Valid(s, sign)
    ensures Valid(Remove(s, gone), sign)
  {
    var s' := Remove(s, gone);
    RemovedKeys(s.sessions, gone);
    SubsetBound(s'.live, s.live);
  }

  lemma ReapKeeps(s: State, sign: Signature, now: int)
    requires Valid(s, sign)
    ensures Valid(ReapIdle(s, now), sign)
  {
    RemoveKeeps(s, sign, IdleSessions(s, now));
    SubsetBound(ReapIdle(s, now).personal.Keys, s.personal.Keys);
  }

  lemma RestartKeeps(s: State, sign: Signature, loaded: Loaded, copies: Copies)
    requires Valid(s, sign)
    ensures Valid(RestartOnAudioChange(s, loaded, copies), sign)
  {
    if !loaded.LoadFails? {
      RemoveKeeps(s, sign, OutdatedSessions(s, loaded, copies));
    }
  }

  lemma CloseKeeps(s: State, sign: Signature)
    requires Valid(s, sign)
    ensures Valid(Close(s), sign)
  {
  }

  lemma ExitKeeps(s: State, sign: Signature, encoder: nat)
    requires Valid(s, sign)
    ensures Valid(Exit(s, encoder), sign)
  {
    SubsetBound(Exit(s, encoder).live, s.live);
  }

  lemma NextKeepsValid(s: State, sign: Signature, e: Event)
    requires Valid(s, sign) && Enabled(s, e)
    ensures Valid(Next(s, sign, e), sign)
  {
    if e.Get? {
      GetKeeps(s, sign, e);
    } else if e.Reap? || e.Restart? {
      RemovalsKeep(s, sign, e);
    } else {
      OthersKeep(s, sign, e);
    }
  }

  lemma RemovalsKeep(s: State, sign: Signature, e: Event)
    requires Valid(s, sign) && Enabled(s, e) && (e.Reap? || e.Restart?)
    ensures Valid(Next(s, sign, e), sign)
  {
    match e
    case Reap(now) => ReapKeeps(s, sign, now);
    case Restart(loaded, copies) => RestartKeeps(s, sign, loaded, copies);
  }

  lemma OthersKeep(s: State, sign: Signature, e: Event)
    requires Valid(s, sign) && Enabled(s, e) && (e.Prep? || e.Shut? || e.Died?)
    ensures Valid(Next(s, sign, e), sign)
  {
    match e
    case Prep(descriptor) => PrepareKeeps(s, sign, descriptor);
    case Shut => CloseKeeps(s, sign);
    case Died(encoder) => ExitKeeps(s, sign, encoder);
  }

  lemma {:induction false} RunsKeepValid(s: State, sign: Signature, es: seq<Event>)
    requires Valid(s, sign) && Runs(s, sign, es)
    ensures Valid(After(s, sign, es), sign)
    decreases |es|
  {
    if es != [] {
      NextKeepsValid(s, sign, es[0]);
      RunsKeepValid(Next(s, sign, es[0]), sign, es[1..]);
    }
  }

  // ---- theorems ------------------------------------------------------------

  /** In every run there are at most four running encoders and three personal slates. */
  lemma CapsHold(sign: Signature, es: seq<Event>)
    requires Runs(Initial(), sign, es)
    ensures var s := After(Initial(), sign, es);
            && |s.live| <= 4 && |s.personal| <= 3
            && forall id :: id in s.fallbacks ==> s.fallbacks[id].Generic?
  {
    RunsKeepValid(Initial(), sign, es);
  }

  /** Encoder numbers are never given to another session. */
  lemma GetKeepsOwners(s: State, sign: Signature, e: Event)
    requires Valid(s, sign) && e.Get? && Enabled(s, e)
    ensures s.owners <= Got(s, sign, e).0.owners
  {
    var s1 := GetSplits(s, sign, e);
    SplitOwners(s, sign, e, s1, Got(s, sign, e).0, Got(s, sign, e).1);
  }

  lemma SupplyKeepsOwners(s: State, id: Id, now: int, choice: Option<Id>, launch: Launch)
    requires choice.Some? ==> choice.value in s.sessions
    ensures s.owners <= Supply(s, id, now, choice, launch).0.owners
  {
  }

  lemma SplitOwners(s: State, sign: Signature, e: Event, s1: State, s': State, out: Outcome)
    requires e.Get? && Split(s, sign, e, s1, s', out)
    ensures s.owners <= s'.owners
  {
    if !Refused(s, s', out) && MakeId(e.variant, e.key) !in s1.sessions {
      SupplyKeepsOwners(s1, MakeId(e.variant, e.key), e.now, e.choice, e.launch);
    }
  }

  lemma OthersKeepOwners(s: State, sign: Signature, e: Event)
    requires Enabled(s, e) && !e.Get?
    ensures Next(s, sign, e).owners == s.owners
  {
  }

  lemma StepKeepsOwners(s: State, sign: Signature, e: Event)
    requires Valid(s, sign) && Enabled(s, e)
    ensures s.owners <= Next(s, sign, e).owners
  {
    if !e.Get? {
      OthersKeepOwners(s, sign, e);
    } else {
      GetKeepsOwners(s, sign, e);
    }
  }

  lemma {:induction false} RunsKeepOwners(s: State, sign: Signature, es: seq<Event>)
    requires Valid(s, sign) && Runs(s, sign, es)
    ensures s.owners <= After(s, sign, es).owners
    decreases |es|
  {
    if es != [] {
      NextKeepsValid(s, sign, es[0]);
      StepKeepsOwners(s, sign, es[0]);
      RunsKeepOwners(Next(s, sign, es[0]), sign, es[1..]);
    }
  }

  /** What is served is the caller's own session or a generic one, and the files are that session's. */
  lemma ServedIsOwnOrGeneric(s: State, sign: Signature, e: Event)
    requires Valid(s, sign) && e.Get? && Enabled(s, e) && Got(s, sign, e).1.Served?
    ensures var (s', out) := Got(s, sign, e);
            && out.encoder < |s'.owners| && s'.owners[out.encoder] == out.id
            && (out.id == (if e.key == "" then Generic(e.variant) else Personal(e.variant, e.key)) || out.id.Generic?)
            && (e.key != "" ==> e.key in s.personal && s.personal[e.key].variant == e.variant)
  {
    var s1 := GetSplits(s, sign, e);
    GetKeeps(s, sign, e);
    SplitServed(s, sign, e, s1, Got(s, sign, e).0, Got(s, sign, e).1);
  }

  lemma SupplyServes(s: State, id: Id, now: int, choice: Option<Id>, launch: Launch)
    requires choice.Some? ==> choice.value in s.sessions && choice.value.Generic?
    ensures var (s', out) := Supply(s, id, now, choice, launch);
            out.Served? ==> (out.id == id || out.id.Generic?) && out.id in s'.sessions && s'.sessions[out.id].encoder == out.encoder
  {
  }

  lemma SplitServed(s: State, sign: Signature, e: Event, s1: State, s': State, out: Outcome)
    requires e.Get? && Split(s, sign, e, s1, s', out) && out.Served? && SessionsOwned(s')
    ensures out.encoder < |s'.owners| && s'.owners[out.encoder] == out.id
    ensures out.id == MakeId(e.variant, e.key) || out.id.Generic?
    ensures e.key != "" ==> e.key in s.personal && s.personal[e.key].variant == e.variant
  {
    var id := MakeId(e.variant, e.key);
    if id !in s1.sessions {
      SupplyServes(s1, id, e.now, e.choice, e.launch);
    }
  }

  /** The files of an encoder started for a personal slate are only ever served to its variant and key. */
  lemma PersonalFilesStayPersonal(s: State, sign: Signature, encoder: nat, es: seq<Event>, e: Event)
    requires Valid(s, sign) && encoder < |s.owners| && s.owners[encoder].Personal?
    requires Runs(s, sign, es) && e.Get? && Enabled(After(s, sign, es), e)
    requires var out := Got(After(s, sign, es), sign, e).1; out.Served? && out.encoder == encoder
    ensures s.owners[encoder] == Personal(e.variant, e.key)
  {
    RunsKeepValid(s, sign, es);
    RunsKeepOwners(s, sign, es);
    var s1 := After(s, sign, es);
    ServedIsOwnOrGeneric(s1, sign, e);
    StepKeepsOwners(s1, sign, e);
  }

  lemma ClosedStep(s: State, sign: Signature, e: Event)
    requires Valid(s, sign) && s.stopped && Enabled(s, e)
    ensures var s' := Next(s, sign, e); s'.stopped && s'.owners == s.owners && s'.live <= s.live
    ensures e.Get? ==> !Got(s, sign, e).1.Served?
  {
    if e.Get? {
      var s1 := GetSplits(s, sign, e);
    }
  }

  /** Once closed, it stays closed: no encoder starts, and those left only exit. */
  lemma {:induction false} NothingStartsAfterClose(s: State, sign: Signature, es: seq<Event>)
    requires Valid(s, sign) && s.stopped && Runs(s, sign, es)
    ensures var s' := After(s, sign, es);
            s'.stopped && s'.owners == s.owners && s'.live <= s.live && s'.sessions == map[]
    decreases |es|
  {
    if es != [] {
      NextKeepsValid(s, sign, es[0]);
      ClosedStep(s, sign, es[0]);
      NothingStartsAfterClose(Next(s, sign, es[0]), sign, es[1..]);
    }
  }

  /** A radio session found dead is replaced at once, without the radio. */
  lemma DeadRadioIsReplacedInSilence(s: State, sign: Signature, e: Event)
    requires Valid(s, sign) && e.Get? && Enabled(s, e) && Refusal(s, sign, e.variant, e.key).None?
    requires var id := MakeId(e.variant, e.key);
             id in s.sessions && s.sessions[id].encoder !in s.live && s.sessions[id].usedRadio
    ensures var (s', out) := Got(s, sign, e); var id := MakeId(e.variant, e.key);
            if e.launch.Broken? then out == StartFailed && s'.owners == s.owners
            else out == Served(id, |s.owners|) && id in s'.sessions && !s'.sessions[id].usedRadio
  {
    var touched, id := Touch(s, e.key, e.now), MakeId(e.variant, e.key);
    BuriedRadio(touched, id, e.now);
    RemovedKeys(s.sessions, {id});
    assert Got(s, sign, e) == Supply(Bury(touched, id, id, e.now), id, e.now, e.choice, e.launch);
    SilentSupply(Bury(touched, id, id, e.now), id, e.now, e.choice, e.launch);
  }

  lemma BuriedRadio(s: State, id: Id, now: int)
    requires id in s.sessions && s.sessions[id].usedRadio && s.sessions[id].encoder !in s.live
    ensures LookUp(s, id, now) == (Bury(s, id, id, now), None)
    ensures var b := Bury(s, id, id, now);
            && id !in b.sessions && id !in b.failedAt && Muted(b, id, now)
            && b.sessions == s.sessions - {id} && b.owners == s.owners
  {
  }

  lemma SilentSupply(s: State, id: Id, now: int, choice: Option<Id>, launch: Launch)
    requires id !in s.sessions && id !in s.failedAt && |s.sessions| < MAX_PROCESSES && Muted(s, id, now)
    requires choice.Some? ==> choice.value in s.sessions
    ensures var (s', out) := Supply(s, id, now, choice, launch);
            if launch.Broken? then out == StartFailed && s'.owners == s.owners
            else out == Served(id, |s.owners|) && id in s'.sessions && !s'.sessions[id].usedRadio
  {
  }

  /**
    The cap refuses a request exactly if the request is let in, has no session and no backoff of
    its own, and four personal sessions hold every slot.
   */
  lemma CapReachedExactly(s: State, sign: Signature, e: Event)
    requires Valid(s, sign) && e.Get? && Enabled(s, e)
    ensures var id := MakeId(e.variant, e.key);
            Got(s, sign, e).1 == CapReached <==>
              && Refusal(s, sign, e.variant, e.key).None?
              && id !in s.sessions && !(id in s.failedAt && e.now - s.failedAt[id] < 10000)
              && |s.sessions| == 4 && forall t :: t in s.sessions ==> t.Personal?
  {
    var touched, id := Touch(s, e.key, e.now), MakeId(e.variant, e.key);
    RefusedOrAnswered(s, sign, e);
    LookUpBelowSlots(touched, id, e.now);
    AnswerMeetsCap(touched, id, e.now, e.choice, e.launch);
    FitsAtCap(LookUp(touched, id, e.now).0.sessions, Base(e.variant), e.choice);
  }

  lemma RefusedOrAnswered(s: State, sign: Signature, e: Event)
    requires e.Get? && Enabled(s, e)
    ensures var touched, id := Touch(s, e.key, e.now), MakeId(e.variant, e.key);
            && touched.sessions == s.sessions && touched.failedAt == s.failedAt
            && (Got(s, sign, e).1 == CapReached <==>
                Refusal(s, sign, e.variant, e.key).None? && Answer(touched, id, e.now, e.choice, e.launch).1 == CapReached)
  {
  }

  /** With fewer sessions than fallback slots a look-up sees the own session or none. */
  lemma LookUpBelowSlots(s: State, id: Id, now: int)
    requires |s.sessions| < FALLBACK_SLOTS
    ensures var (s1, found) := LookUp(s, id, now);
            if id !in s.sessions then found.None? && s1.sessions == s.sessions && s1.failedAt == s.failedAt
            else (found == Some(id) && id in s1.sessions) || |s1.sessions| < |s.sessions|
  {
    RemovedKeys(s.sessions, {id});
  }

  lemma FitsAtCap(sessions: map<Id, Session>, base: string, choice: Option<Id>)
    requires ChoiceFits(sessions, base, choice)
    ensures choice.None? <==> forall t :: t in sessions ==> t.Personal?
  {
  }

  lemma AnswerMeetsCap(s: State, id: Id, now: int, choice: Option<Id>, launch: Launch)
    requires |s.sessions| <= MAX_PROCESSES < FALLBACK_SLOTS
    requires choice.Some? ==> choice.value in LookUp(s, id, now).0.sessions
    ensures Answer(s, id, now, choice, launch).1 == CapReached <==>
            id !in s.sessions && !(id in s.failedAt && now - s.failedAt[id] < RESTART_BACKOFF)
            && |s.sessions| == MAX_PROCESSES && choice.None?
  {
    LookUpBelowSlots(s, id, now);
    SupplyMeetsCap(LookUp(s, id, now).0, id, now, choice, launch);
  }

  lemma SupplyMeetsCap(s: State, id: Id, now: int, choice: Option<Id>, launch: Launch)
    requires choice.Some? ==> choice.value in s.sessions
    ensures Supply(s, id, now, choice, launch).1 == CapReached <==>
            !(id in s.failedAt && now - s.failedAt[id] < RESTART_BACKOFF) && |s.sessions| >= MAX_PROCESSES && choice.None?
  {
  }

  /**
    The cap refuses a request only when four personal sessions hold every slot, and then one of
    them has outlived the slate it was started for.
   */
  lemma CapReachedMeansOrphan(s: State, sign: Signature, e: Event)
    requires Valid(s, sign) && e.Get? && Enabled(s, e) && Got(s, sign, e).1 == CapReached
    ensures exists id :: id in s.sessions && id.Personal? && (id.key in s.personal ==> s.personal[id.key].variant != id.variant)
  {
    var s1 := GetSplits(s, sign, e);
    SplitAtCap(s, sign, e, s1, Got(s, sign, e).0);
  }

  lemma SplitAtCap(s: State, sign: Signature, e: Event, s1: State, s': State)
    requires |s.personal| <= MAX_PERSONAL && e.Get? && Split(s, sign, e, s1, s', CapReached)
    ensures exists id :: id in s.sessions && id.Personal? && (id.key in s.personal ==> s.personal[id.key].variant != id.variant)
  {
    SupplyMeetsCap(s1, MakeId(e.variant, e.key), e.now, e.choice, e.launch);
    TooManyPersonal(s1.sessions.Keys, s.personal);
  }

  lemma TooManyPersonal(ids: set<Id>, personal: map<string, Descriptor>)
    requires |ids| >= MAX_PROCESSES && |personal| <= MAX_PERSONAL && forall id :: id in ids ==> id.Personal?
    ensures exists id :: id in ids && (id.key in personal ==> personal[id.key].variant != id.variant)
  {
    assert |personal.Keys| == |personal|;
    if forall id :: id in ids ==> id.key in personal && personal[id.key].variant == id.variant {
      KeysBound(personal, ids);
    }
  }

  /** Personal ids with a slate each are no more than the slates. */
  lemma {:induction false} KeysBound(personal: map<string, Descriptor>, ids: set<Id>)
    requires forall id :: id in ids ==> id.Personal? && id.key in personal && personal[id.key].variant == id.variant
    ensures |ids| <= |personal.Keys|
    decreases |ids|
  {
    if ids != {} {
      var id :| id in ids;
      var rest := personal - {id.key};
      forall other | other in ids - {id} ensures other.key in rest && rest[other.key].variant == other.variant {
        assert other.key == id.key ==> other == id;
      }
      KeysBound(rest, ids - {id});
      assert personal.Keys == rest.Keys + {id.key};
    }
  }
}

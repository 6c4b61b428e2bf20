/**
  State and locked steps of the slate manager. Encoders are numbered in the order they start; the
  number also names the encoder's directory. Time is in milliseconds and read once per step.
 */
module SlateState {
  import opened Common
  import opened Strings

  const IDLE_TIME: int := 90000
  const RESTART_BACKOFF: int := 10000
  const SHORT_LIVED: int := 30000
  const RADIO_MUTE: int := 300000
  const MAX_PERSONAL: nat := 3
  const MAX_PROCESSES: nat := 4

  /** The number of slots a remembered fallback is compared with. */
  const FALLBACK_SLOTS: nat := 6

  // ---- variants and session ids --------------------------------------------

  const UNAVAILABLE: string := "unavailable"
  const TEMPORARY: string := "temporarily-unavailable"
  const TEMPORARY_REASON: string := "temporarily_unavailable"
  const DEFAULT_REASON: string := "unauthorized_redistribution"

  predicate ValidReason(r: string) {
    || r == "limited_bandwidth" || r == "not_intended_for_public" || r == DEFAULT_REASON
    || r == "access_revoked_by_owner" || r == "stream_permanently_discontinued" || r == TEMPORARY_REASON
  }

  /** splitVariant: base and reason of a valid variant. */
  function SplitVariant(v: string): Option<(string, string)> {
    var colon := Find(v, ":", 0);
    var base := if colon.Some? then v[..colon.value] else v;
    if base != UNAVAILABLE && base != TEMPORARY then None else
    var reason := if colon.Some? then v[colon.value + 1..]
                  else if base == TEMPORARY then TEMPORARY_REASON else DEFAULT_REASON;
    if !ValidReason(reason) || (base == TEMPORARY && reason != TEMPORARY_REASON)
       || (base == UNAVAILABLE && reason == TEMPORARY_REASON) then None
    else Some((base, reason))
  }

  predicate ValidVariant(v: string) {
    SplitVariant(v).Some?
  }

  function Base(v: string): string {
    if ValidVariant(v) then SplitVariant(v).value.0 else ""
  }

  function Reason(v: string): string {
    if ValidVariant(v) then SplitVariant(v).value.1 else ""
  }

  /** A session is generic, or personal to a key. */
  datatype Id = Generic(variant: string) | Personal(variant: string, key: string)

  /** The map key the manager builds: the variant, or variant, slash and key. */
  function IdText(id: Id): string {
    match id
    case Generic(variant) => variant
    case Personal(variant, key) => variant + "/" + key
  }

  function MakeId(variant: string, key: string): Id {
    if key == "" then Generic(variant) else Personal(variant, key)
  }

  predicate ValidKey(key: string) {
    |key| == 40 && forall c :: c in key ==> '0' <= c <= '9' || 'a' <= c <= 'f'
  }

  predicate LowerText(s: string) {
    forall c :: c in s ==> 'a' <= c <= 'z' || c == '_' || c == '-'
  }

  lemma BasesAreLower()
    ensures LowerText(UNAVAILABLE) && LowerText(TEMPORARY)
  {
  }

  lemma ShortReasonsAreLower()
    ensures LowerText("limited_bandwidth") && LowerText("not_intended_for_public") && LowerText(DEFAULT_REASON)
  {
  }

  lemma LongReasonsAreLower()
    ensures LowerText("access_revoked_by_owner") && LowerText("stream_permanently_discontinued") && LowerText(TEMPORARY_REASON)
  {
  }

  lemma ReasonIsLower(r: string)
    requires ValidReason(r)
    ensures LowerText(r)
  {
    ShortReasonsAreLower();
    LongReasonsAreLower();
  }

  lemma Around(v: string, at: nat)
    requires at < |v| && LowerText(v[..at]) && v[at] == ':' && LowerText(v[at + 1..])
    ensures '/' !in v
  {
    assert v == v[..at] + [v[at]] + v[at + 1..];
  }

  lemma VariantHasNoSlash(v: string)
    requires ValidVariant(v)
    ensures '/' !in v
  {
    BasesAreLower();
    ReasonIsLower(SplitVariant(v).value.1);
    var colon := Find(v, ":", 0);
    if colon.Some? {
      assert v[colon.value..colon.value + 1][0] == ':';
      Around(v, colon.value);
    }
  }

  lemma ColonAfter(base: string, reason: string)
    requires ':' !in base
    ensures Find(base + ":" + reason, ":", 0) == Some(|base|)
    ensures (base + ":" + reason)[..|base|] == base && (base + ":" + reason)[|base| + 1..] == reason
  {
    var v := base + ":" + reason;
    forall k | 0 <= k <= |base| ensures At(v, k, ":") <==> k == |base| {
      assert v[k..k + 1] == [v[k]];
      assert k < |base| ==> v[k] == base[k];
    }
    var found := Find(v, ":", 0);
    assert At(v, |base|, ":") && found.Some?;
    assert At(v, found.value, ":");
  }

  lemma NoColon(base: string)
    requires ':' !in base
    ensures Find(base, ":", 0).None?
  {
    forall k | 0 <= k <= |base| ensures !At(base, k, ":") {
      if k < |base| {
        assert base[k..k + 1] == [base[k]];
      }
    }
  }

  lemma BasesHaveNoColon()
    ensures ':' !in "unavailable" && ':' !in "temporarily-unavailable"
  {
    BasesAreLower();
  }

  /** The reason belongs to the base. */
  predicate BelongsTo(base: string, reason: string) {
    || (base == "temporarily-unavailable" && reason == "temporarily_unavailable")
    || (base == "unavailable"
        && (reason == "limited_bandwidth" || reason == "not_intended_for_public" || reason == "unauthorized_redistribution"
            || reason == "access_revoked_by_owner" || reason == "stream_permanently_discontinued"))
  }

  /** A variant is a base alone, with its usual reason, or a base, a colon and a reason that belongs to it. */
  predicate Spells(v: string, base: string, reason: string) {
    || v == base + ":" + reason
    || (v == base && reason == if base == "unavailable" then "unauthorized_redistribution" else "temporarily_unavailable")
  }

  /** The variants there are, and what each stands for. */
  lemma VariantsAreExactly(v: string, base: string, reason: string)
    ensures SplitVariant(v) == Some((base, reason)) <==> BelongsTo(base, reason) && Spells(v, base, reason)
    ensures BelongsTo(base, reason) && Spells(v, base, reason) ==> Base(v) == base && Reason(v) == reason
  {
    BasesHaveNoColon();
    if BelongsTo(base, reason) && v == base + ":" + reason {
      ColonAfter(base, reason);
    }
    if BelongsTo(base, reason) && v == base {
      NoColon(base);
    }
    if SplitVariant(v) == Some((base, reason)) {
      SplitSpells(v, base, reason);
    }
  }

  lemma SplitSpells(v: string, base: string, reason: string)
    requires SplitVariant(v) == Some((base, reason))
    ensures BelongsTo(base, reason) && Spells(v, base, reason)
  {
    var colon := Find(v, ":", 0);
    if colon.Some? {
      assert v[colon.value..colon.value + 1] == ":" && v == v[..colon.value] + v[colon.value..colon.value + 1] + v[colon.value + 1..];
    }
  }

  lemma SlashCut(variant: string, key: string)
    requires '/' !in key
    ensures LastIndex(variant + "/" + key, '/') == Some(|variant|)
    ensures (variant + "/" + key)[..|variant|] == variant && (variant + "/" + key)[|variant| + 1..] == key
  {
    var text := variant + "/" + key;
    assert text[|variant| + 1..] == key;
    LastIndexIs(text, '/', |variant|);
  }

  /** The texts of ids are told apart, and a slash in one means that it is personal. */
  lemma IdTextIsFaithful(a: Id, b: Id)
    requires ValidVariant(a.variant) && ValidVariant(b.variant)
    requires (a.Personal? ==> ValidKey(a.key)) && (b.Personal? ==> ValidKey(b.key))
    ensures IdText(a) == IdText(b) <==> a == b
    ensures '/' in IdText(a) <==> a.Personal?
  {
    VariantHasNoSlash(a.variant);
    VariantHasNoSlash(b.variant);
    if a.Personal? {
      SlashCut(a.variant, a.key);
    }
    if b.Personal? {
      SlashCut(b.variant, b.key);
    }
  }

  // ---- state ---------------------------------------------------------------

  /** Audio settings and normalised slate texts, told apart by number. */
  datatype Audio = Audio(number: nat)
  datatype Copy = Copy(number: nat)

  datatype Session = Session(encoder: nat, started: int, lastUsed: int, usedRadio: bool, audio: Option<Audio>, copy: Copy)

  /** What a personal slate is for; a cutoff of 0 is the zero time. */
  datatype Descriptor = Descriptor(variant: string, ap: int, token: int, cutoff: int, lastUsed: int)

  /** The keyed digest of a descriptor. */
  type Signature = (string, int, int, int) -> string

  function SignatureOf(sign: Signature, d: Descriptor): string {
    sign(d.variant, d.ap, d.token, d.cutoff)
  }

  datatype State = State(
    sessions: map<Id, Session>,
    personal: map<string, Descriptor>,
    failedAt: map<Id, int>,
    radioMuted: map<Id, int>,
    fallbacks: map<Id, Id>,
    stopped: bool,
    live: set<nat>,      // encoders that have not exited
    owners: seq<Id>      // for which session each encoder was started
  )

  function Initial(): State {
    State(map[], map[], map[], map[], map[], false, {}, [])
  }

  // ---- GetPath -------------------------------------------------------------

  /** An attempt to start an encoder: what was configured, and whether it plays the radio. */
  datatype Launch = Broken | Launched(radio: bool, audio: Option<Audio>, copy: Copy)

  datatype Outcome = NotExist | Closed | BackingOff | CapReached | StartFailed | Served(id: Id, encoder: nat)

  predicate Recognised(s: State, sign: Signature, variant: string, key: string) {
    key in s.personal && s.personal[key].variant == variant && key == SignatureOf(sign, s.personal[key])
  }

  function Touch(s: State, key: string, now: int): State {
    if key in s.personal then s.(personal := s.personal[key := s.personal[key].(lastUsed := now)]) else s
  }

  /** The session to look at first: the own one, or a remembered fallback. */
  function Candidate(s: State, id: Id): (State, Option<Id>) {
    if id in s.sessions then (s, Some(id))
    else if id !in s.fallbacks then (s, None)
    else if |s.sessions| < FALLBACK_SLOTS then (s.(fallbacks := s.fallbacks - {id}), None)
    else if s.fallbacks[id] in s.sessions then (s, Some(s.fallbacks[id]))
    else (s.(fallbacks := s.fallbacks - {id}), None)
  }

  /** A session whose encoder has exited is removed, with what its end means for the next start. */
  function Bury(s: State, id: Id, actual: Id, now: int): State
    requires actual in s.sessions
  {
    var session := s.sessions[actual];
    s.(radioMuted := if session.usedRadio then s.radioMuted[actual := now + RADIO_MUTE] else s.radioMuted,
       failedAt := if session.usedRadio then s.failedAt - {actual}
                   else if now - session.started < SHORT_LIVED then s.failedAt[actual := now]
                   else s.failedAt,
       sessions := s.sessions - {actual},
       fallbacks := s.fallbacks - {id})
  }

  /** The state after the session was looked up, and the live session found, if any. */
  function LookUp(s: State, id: Id, now: int): (State, Option<Id>) {
    var (s1, actual) := Candidate(s, id);
    if actual.None? || actual.value !in s1.sessions then (s1, None)
    else if s1.sessions[actual.value].encoder in s1.live then (s1, actual)
    else (Bury(s1, id, actual.value, now), None)
  }

  /** A generic session of the same base if there is one, else any generic session. */
  predicate ChoiceFits(sessions: map<Id, Session>, base: string, choice: Option<Id>) {
    match choice
    case None => forall t :: t in sessions ==> t.Personal?
    case Some(t) =>
      && t in sessions && t.Generic?
      && (Base(t.variant) == base || forall u :: u in sessions && u.Generic? ==> Base(u.variant) != base)
  }

  function Muted(s: State, id: Id, now: int): bool {
    id in s.radioMuted && now < s.radioMuted[id]
  }

  function Launching(s: State, id: Id, now: int, launch: Launch): State
    requires launch.Launched?
  {
    var n := |s.owners|;
    s.(sessions := s.sessions[id := Session(n, now, now, launch.radio && !Muted(s, id, now), launch.audio, launch.copy)],
       live := s.live + {n}, owners := s.owners + [id])
  }

  function Use(s: State, id: Id, now: int): (State, Outcome)
    requires id in s.sessions
  {
    (s.(sessions := s.sessions[id := s.sessions[id].(lastUsed := now)]), Served(id, s.sessions[id].encoder))
  }

  /** No live session: back off, fall back at the cap, or start an encoder. */
  function Supply(s: State, id: Id, now: int, choice: Option<Id>, launch: Launch): (State, Outcome)
    requires choice.Some? ==> choice.value in s.sessions
  {
    if id in s.failedAt && now - s.failedAt[id] < RESTART_BACKOFF then (s, BackingOff)
    else if |s.sessions| >= MAX_PROCESSES then
      if choice.None? then (s, CapReached)
      else Use(s.(fallbacks := s.fallbacks[id := choice.value]), choice.value, now)
    else if launch.Broken? then (s.(failedAt := s.failedAt[id := now]), StartFailed)
    else Use(Launching(s, id, now, launch), id, now)
  }

  /** A request that was let in: its live session, or one supplied to it. */
  function Answer(s: State, id: Id, now: int, choice: Option<Id>, launch: Launch): (State, Outcome)
    requires choice.Some? ==> choice.value in LookUp(s, id, now).0.sessions
  {
    var (s1, found) := LookUp(s, id, now);
    if found.Some? && found.value in s1.sessions then Use(s1, found.value, now)
    else Supply(s1, id, now, choice, launch)
  }

  /** Why a request is turned away, if it is. */
  function Refusal(s: State, sign: Signature, variant: string, key: string): Option<Outcome> {
    if !ValidVariant(variant) || (key != "" && !ValidKey(key)) then Some(NotExist)
    else if s.stopped then Some(Closed)
    else if key != "" && !Recognised(s, sign, variant, key) then Some(NotExist)
    else None
  }

  /** GetPath up to the end of its locked part, for a valid file name. */
  function GetPath(s: State, sign: Signature, variant: string, key: string, now: int, choice: Option<Id>, launch: Launch): (State, Outcome)
    requires choice.Some? ==> choice.value in LookUp(Touch(s, key, now), MakeId(variant, key), now).0.sessions
  {
    var refusal := Refusal(s, sign, variant, key);
    if refusal.Some? then (s, refusal.value)
    else Answer(Touch(s, key, now), MakeId(variant, key), now, choice, launch)
  }

  // ---- the other operations ------------------------------------------------

  function Prepare(s: State, sign: Signature, d: Descriptor): (State, string) {
    if !ValidVariant(d.variant) || d.ap <= 0 || d.cutoff == 0 || s.stopped then (s, "") else
    var key := SignatureOf(sign, d);
    if key in s.personal then (s.(personal := s.personal[key := s.personal[key].(lastUsed := d.lastUsed)]), key)
    else if |s.personal| >= MAX_PERSONAL then (s, "")
    else (s.(personal := s.personal[key := d]), key)
  }

  /** Sessions are cancelled, waited for and removed. */
  function Remove(s: State, gone: set<Id>): State {
    s.(sessions := s.sessions - gone,
       live := s.live - (set id | id in gone && id in s.sessions :: s.sessions[id].encoder))
  }

  function IdleSessions(s: State, now: int): set<Id> {
    set id | id in s.sessions && now - s.sessions[id].lastUsed > IDLE_TIME
  }

  function ReapIdle(s: State, now: int): State {
    var kept := map key | key in s.personal && now - s.personal[key].lastUsed <= IDLE_TIME :: s.personal[key];
    Remove(s, IdleSessions(s, now)).(personal := kept)
  }

  /** What the audio settings loader says; there may be none. */
  datatype Loaded = NoLoader | LoadFails | Loaded(audio: Audio)

  /** The normalised text for a reason; None if it cannot be loaded or is not acceptable. */
  type Copies = string -> Option<Copy>

  predicate Outdated(id: Id, session: Session, loaded: Loaded, copies: Copies) {
    || (loaded.Loaded? && session.audio.Some? && session.audio.value != loaded.audio)
    || (ValidVariant(id.variant) && copies(Reason(id.variant)).Some? && copies(Reason(id.variant)).value != session.copy)
  }

  function OutdatedSessions(s: State, loaded: Loaded, copies: Copies): set<Id> {
    set id | id in s.sessions && Outdated(id, s.sessions[id], loaded, copies)
  }

  function RestartOnAudioChange(s: State, loaded: Loaded, copies: Copies): State {
    if loaded.LoadFails? then s else Remove(s, OutdatedSessions(s, loaded, copies))
  }

  /** Every session is cancelled; the encoders exit later. */
  function Close(s: State): State {
    if s.stopped then s else s.(stopped := true, sessions := map[])
  }

  function Exit(s: State, encoder: nat): State {
    s.(live := s.live - {encoder})
  }
}

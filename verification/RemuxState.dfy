/**
  The remux session manager as a state machine.

  Every region the manager runs under its mutex, every channel operation and every
  resource a Start call acquires outside the lock is one atomic step; the steps of
  concurrent callers interleave freely. A `Ref` stands for one Start call that reserved
  a slot, together with the context, source body, temporary directory, process and
  session that call may acquire.
 */
module RemuxState {
  import opened Common

  datatype Stream = Stream(row: int)
  type Ref = nat
  type Time = int

  // An unpinned session unused for longer than this many seconds is reaped.
  const IDLE_TIME: Time := 90

  datatype Phase =
    | Opening     // slot reserved, listed in pending, working outside the lock
    | Abandoned   // about to return without a session of its own; still listed in pending
    | Unwinding   // off the pending list; about to cancel its context
    | Closing     // ... to close the body it may have
    | Removing    // ... to remove the directory it may have
    | Freeing     // ... to give its slot back
    | Returned    // everything given back
    | Running     // ffmpeg spawned
    | Exited      // watch: cmd.Wait returned, about to cancel the context
    | Ended       // ... to close the body
    | Drained     // ... to give the slot back
    | Released    // slot given back
    | Done        // done channel closed

  datatype Directory = NoDirectory | Present | Removed

  // Closed means that the sync.Once around the source body has fired.
  datatype Body = NoBody | Open | Closed

  datatype Call = Call(
    stream: Stream,
    signature: string,
    id: string,           // the session's random identifier, set when it registers
    phase: Phase,
    waiting: bool,        // listed in pending
    cancelled: bool,      // its context
    directory: Directory,
    body: Body,
    closes: nat,          // how often the underlying source body was closed
    pinned: bool,
    lastUsed: Time,
    removal: bool)        // a goroutine will remove the directory once done is closed

  datatype State = State(
    capacity: nat,
    slots: int,                       // tokens in the slots channel
    closed: bool,
    sessions: map<Stream, Ref>,
    byID: map<string, Ref>,
    pending: map<Stream, set<Ref>>,
    calls: map<Ref, Call>)

  function Initial(capacity: nat): State {
    State(capacity, 0, false, map[], map[], map[], map[])
  }

  predicate Started(c: Call) {
    c.phase.Running? || c.phase.Exited? || c.phase.Ended? || c.phase.Drained? || c.phase.Released? || c.phase.Done?
  }

  /** Start has reserved, and neither registered a session nor given its slot back. */
  predicate Starting(c: Call) {
    c.phase.Opening? || c.phase.Abandoned? || c.phase.Unwinding? || c.phase.Closing? || c.phase.Removing? || c.phase.Freeing?
  }

  predicate HoldsSlot(c: Call) {
    Starting(c) || c.phase.Running? || c.phase.Exited? || c.phase.Ended? || c.phase.Drained?
  }

  predicate Registered(s: State, r: Ref) {
    r in s.calls && s.calls[r].stream in s.sessions && s.sessions[s.calls[r].stream] == r
  }

  // ---- effects on one call -------------------------------------------------

  function CloseBody(c: Call): Call {
    if c.body.Open? then c.(body := Closed, closes := c.closes + 1) else c
  }

  function Stopped(c: Call): Call {
    c.(cancelled := true, removal := true)
  }

  function Touch(s: State, r: Ref, now: Time): State
    requires r in s.calls
  {
    s.(calls := s.calls[r := s.calls[r].(lastUsed := now)])
  }

  /** stopLocked: unregister, cancel, schedule the removal of the directory. */
  function StopSession(s: State, r: Ref): State
    requires r in s.calls
  {
    s.(sessions := s.sessions - {s.calls[r].stream},
    byID := s.byID - {s.calls[r].id},
    calls := s.calls[r := Stopped(s.calls[r])])
  }

  function Abandon(s: State, r: Ref): State
    requires r in s.calls
  {
    s.(calls := s.calls[r := s.calls[r].(phase := Abandoned)])
  }

  function PendingOf(s: State, stream: Stream): set<Ref> {
    if stream in s.pending then s.pending[stream] else {}
  }

  // ---- Start, first locked region ------------------------------------------

  datatype StartOutcome = Refused | Reused(session: Ref) | Full | Reserved(call: Ref)

  /** What Start does about the session it finds: reuse it, stop it, or nothing. */
  function Settle(s: State, stream: Stream, signature: string, playlist: bool, now: Time): (State, Option<Ref>)
    requires stream in s.sessions ==> s.sessions[stream] in s.calls
  {
    if stream !in s.sessions then (s, None) else
    var r := s.sessions[stream];
    if s.calls[r].signature != signature || (!playlist && s.calls[r].phase.Done?) then
      (StopSession(s, r), None)
    else
      (Touch(s, r, now), Some(r))
  }

  function NewCall(stream: Stream, signature: string): Call {
    Call(stream, signature, "", Opening, true, false, NoDirectory, NoBody, 0, false, 0, false)
  }

  function Reserve(s: State, stream: Stream, signature: string, call: Ref): State {
    s.(slots := s.slots + 1,
    pending := s.pending[stream := PendingOf(s, stream) + {call}],
    calls := s.calls[call := NewCall(stream, signature)])
  }

  function Begin(s: State, stream: Stream, signature: string, playlist: bool, now: Time, call: Ref): (State, StartOutcome)
    requires stream in s.sessions ==> s.sessions[stream] in s.calls
  {
    if s.closed then (s, Refused) else
    var (s1, reuse) := Settle(s, stream, signature, playlist, now);
    if reuse.Some? then (s1, Reused(reuse.value))
    else if s1.slots >= s1.capacity then (s1, Full)
    else (Reserve(s1, stream, signature, call), Reserved(call))
  }

  // ---- Start, second locked region -----------------------------------------

  datatype CommitOutcome = Cancelled | ManagerClosed | Winner(session: Ref) | SpawnFailed | Registers

  function Register(s: State, r: Ref, id: string, now: Time): State
    requires r in s.calls
  {
    s.(sessions := s.sessions[s.calls[r].stream := r],
    byID := s.byID[id := r],
    calls := s.calls[r := s.calls[r].(id := id, phase := Running, lastUsed := now)])
  }

  function Commit(s: State, r: Ref, id: string, spawned: bool, now: Time): (State, CommitOutcome)
    requires r in s.calls
    requires s.calls[r].stream in s.sessions ==> s.sessions[s.calls[r].stream] in s.calls
  {
    if s.calls[r].cancelled then (Abandon(s, r), Cancelled)
    else if s.closed then (Abandon(s, r), ManagerClosed)
    else if s.calls[r].stream in s.sessions then
      var w := s.sessions[s.calls[r].stream];
      (Abandon(Touch(s, w, now), r), Winner(w))
    else if !spawned then (Abandon(s, r), SpawnFailed)
    else (Register(s, r, id, now), Registers)
  }

  /** The locked half of Start's deferred function. */
  function LeavePending(s: State, r: Ref): State
    requires r in s.calls
  {
    var c := s.calls[r];
    var rest := PendingOf(s, c.stream) - {r};
    s.(pending := if rest == {} then s.pending - {c.stream} else s.pending[c.stream := rest],
    calls := s.calls[r := c.(waiting := false, phase := if c.phase.Abandoned? then Unwinding else c.phase)])
  }

  // ---- steps of one call outside the lock ----------------------------------

  datatype Step =
    | MakeDirectory
    | Fail              // identifier, directory or open failed, or open gave no body
    | OpenBody
    | CancelOwn         // the unlocked half of the deferred function: cancel,
    | CloseOwn          // body.Close,
    | RemoveOwn         // os.RemoveAll,
    | FreeOwn           // <-m.slots
    | Exit              // watch: cmd.Wait returns
    | CancelExited      // watch: s.cancel
    | CloseExited       // watch: body.Close
    | ReleaseSlot       // watch: <-m.slots
    | CloseDone         // watch: close(s.done)
    | AfterCancel       // the context's AfterFunc closes the body
    | RemoveDirectory   // the removal goroutine has seen done closed

  /** Where the call's program counters are when the step can happen. */
  predicate CanTake(c: Call, step: Step) {
    match step
    case MakeDirectory => c.phase.Opening? && c.directory.NoDirectory?
    case Fail => c.phase.Opening? && c.body.NoBody?
    case OpenBody => c.phase.Opening? && c.directory.Present? && c.body.NoBody?
    case CancelOwn => c.phase.Unwinding?
    case CloseOwn => c.phase.Closing?
    case RemoveOwn => c.phase.Removing?
    case FreeOwn => c.phase.Freeing?
    case Exit => c.phase.Running?
    case CancelExited => c.phase.Exited?
    case CloseExited => c.phase.Ended?
    case ReleaseSlot => c.phase.Drained?
    case CloseDone => c.phase.Released?
    case AfterCancel => Started(c) && c.cancelled
    case RemoveDirectory => c.phase.Done? && c.removal && c.directory.Present?
  }

  function Take(c: Call, step: Step): Call {
    match step
    case MakeDirectory => c.(directory := Present)
    case Fail => c.(phase := Abandoned)
    case OpenBody => c.(body := Open)
    case CancelOwn => c.(phase := Closing, cancelled := true)
    case CloseOwn => CloseBody(c).(phase := Removing)
    case RemoveOwn => c.(phase := Freeing, directory := if c.directory.Present? then Removed else c.directory)
    case FreeOwn => c.(phase := Returned)
    case Exit => c.(phase := Exited)
    case CancelExited => c.(phase := Ended, cancelled := true)
    case CloseExited => CloseBody(c).(phase := Drained)
    case ReleaseSlot => c.(phase := Released)
    case CloseDone => c.(phase := Done)
    case AfterCancel => CloseBody(c)
    case RemoveDirectory => c.(directory := Removed)
  }

  /** FreeOwn and ReleaseSlot receive one token from the slots channel. */
  function Freed(step: Step): nat {
    if step.FreeOwn? || step.ReleaseSlot? then 1 else 0
  }

  function Progress(s: State, r: Ref, step: Step): State
    requires r in s.calls
  {
    s.(slots := s.slots - Freed(step), calls := s.calls[r := Take(s.calls[r], step)])
  }

  // ---- the other methods ---------------------------------------------------

  function Existing(s: State, stream: Stream, signature: string, playlist: bool, now: Time): (State, Option<Ref>)
    requires stream in s.sessions ==> s.sessions[stream] in s.calls
  {
    if stream !in s.sessions || s.calls[s.sessions[stream]].signature != signature then (s, None) else
    var r := s.sessions[stream];
    if s.calls[r].phase.Done? && !playlist then (StopSession(s, r), None) else (Touch(s, r, now), Some(r))
  }

  function CancelAll(calls: map<Ref, Call>, refs: set<Ref>): map<Ref, Call> {
    map r | r in calls :: if r in refs then calls[r].(cancelled := true) else calls[r]
  }

  function Stop(s: State, stream: Stream): State
    requires stream in s.sessions ==> s.sessions[stream] in s.calls
  {
    var s1 := s.(calls := CancelAll(s.calls, PendingOf(s, stream)));
    if stream in s.sessions then StopSession(s1, s.sessions[stream]) else s1
  }

  predicate Idle(s: State, r: Ref, now: Time)
    requires r in s.calls
  {
    !s.calls[r].pinned && now - s.calls[r].lastUsed > IDLE_TIME
  }

  /** Stop every registered session in `refs`. */
  function StopAll(s: State, refs: set<Ref>): State {
    s.(sessions := map st | st in s.sessions && s.sessions[st] !in refs :: s.sessions[st],
    byID := map k | k in s.byID && s.byID[k] !in refs :: s.byID[k],
    calls := map r | r in s.calls :: if r in refs then Stopped(s.calls[r]) else s.calls[r])
  }

  function IdleSessions(s: State, now: Time): set<Ref>
    requires forall st :: st in s.sessions ==> s.sessions[st] in s.calls
  {
    set st | st in s.sessions && Idle(s, s.sessions[st], now) :: s.sessions[st]
  }

  function AllPending(s: State): set<Ref> {
    set st, r | st in s.pending && r in s.pending[st] :: r
  }

  function AllSessions(s: State): set<Ref> {
    set st | st in s.sessions :: s.sessions[st]
  }

  function CloseManager(s: State): State {
    StopAll(s.(closed := true, calls := CancelAll(s.calls, AllPending(s))), AllSessions(s))
  }

  function SetPinned(s: State, stream: Stream, pinned: bool, now: Time): State
    requires stream in s.sessions ==> s.sessions[stream] in s.calls
  {
    if stream !in s.sessions then s else
    var r := s.sessions[stream];
    s.(calls := s.calls[r := s.calls[r].(pinned := pinned, lastUsed := now)])
  }

  /** GetPath for one of the two kinds of file name it accepts. */
  function Use(s: State, stream: Stream, id: string, now: Time): (State, Option<Ref>)
    requires id in s.byID ==> s.byID[id] in s.calls
  {
    if id !in s.byID || s.calls[s.byID[id]].stream != stream then (s, None)
    else (Touch(s, s.byID[id], now), Some(s.byID[id]))
  }

  // ---- the machine ---------------------------------------------------------

  datatype Event =
    // locked regions
    | EStart(stream: Stream, signature: string, playlist: bool, now: Time, call: Ref)
    | ECommit(ref: Ref, id: string, spawned: bool, now: Time)
    | ELeavePending(ref: Ref)
    | EExisting(stream: Stream, signature: string, playlist: bool, now: Time)
    | EStop(stream: Stream)
    | EClose
    | ESetPinned(stream: Stream, pinned: bool, now: Time)
    | EReapIdle(now: Time)
    | EUse(stream: Stream, id: string, now: Time)
    // everything outside the lock
    | EStep(ref: Ref, step: Step)

  predicate AtPhase(s: State, r: Ref, phase: Phase) {
    r in s.calls && s.calls[r].phase == phase
  }

  /** Where the program counters are when the event can happen. */
  predicate Enabled(s: State, e: Event) {
    match e
    case EStart(_, _, _, _, call) => call !in s.calls
    case ECommit(r, id, _, _) => AtPhase(s, r, Opening) && s.calls[r].body.Open? && id !in s.byID
    case ELeavePending(r) => r in s.calls && s.calls[r].waiting && (s.calls[r].phase.Abandoned? || Started(s.calls[r]))
    case EStep(r, step) => r in s.calls && CanTake(s.calls[r], step)
    case _ => true
  }

  /** Every reference a table holds is a known call. */
  predicate RefsKnown(s: State) {
    && (forall st :: st in s.sessions ==> s.sessions[st] in s.calls)
    && (forall k :: k in s.byID ==> s.byID[k] in s.calls)
  }

  function Next(s: State, e: Event): State
    requires RefsKnown(s) && Enabled(s, e)
  {
    match e
    case EStart(stream, signature, playlist, now, call) => Begin(s, stream, signature, playlist, now, call).0
    case ECommit(r, id, spawned, now) => Commit(s, r, id, spawned, now).0
    case ELeavePending(r) => LeavePending(s, r)
    case EExisting(stream, signature, playlist, now) => Existing(s, stream, signature, playlist, now).0
    case EStop(stream) => Stop(s, stream)
    case EClose => CloseManager(s)
    case ESetPinned(stream, pinned, now) => SetPinned(s, stream, pinned, now)
    case EReapIdle(now) => StopAll(s, IdleSessions(s, now))
    case EUse(stream, id, now) => Use(s, stream, id, now).0
    case EStep(r, step) => Progress(s, r, step)
  }
}

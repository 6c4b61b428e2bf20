/**
  Several leak-checker processes, the single-row scan lock and the "scan now" flag. Every SQL
  statement is one atomic step and the statements of different processes interleave freely
  under a monotone clock.
 */
module CheckerProtocol {
  import opened Common

  type Pid = nat
  type Time = int      // milliseconds, as SQLite stores them
  type Request = int   // the value an admin click writes

  const STALE_AFTER: Time := 15 * 60 * 1000

  datatype Stage = Locked | Scanning | Scanned

  /** Where a checker process stands; `seen` is the flag value ShouldRun read. */
  datatype Pc =
    | Idle
    | Decided(seen: Option<Request>)                 // about to INSERT the lock row
    | InsertFailed(seen: Option<Request>)            // about to SELECT it
    | RowGone(seen: Option<Request>)                 // about to INSERT once more
    | Looked(seen: Option<Request>, stamp: Time)     // about to compare with the clock
    | Stealing(seen: Option<Request>, stamp: Time)   // about to UPDATE ... WHERE acquired_at = stamp
    | Holding(seen: Option<Request>, stamp: Time, stage: Stage)

  /** `complete` is whether the scan ended without an error; the request flag does not depend on it. */
  datatype Entry = Clicked(request: Request) | Began(pid: Pid) | Ended(pid: Pid, complete: bool)

  datatype State = State(now: Time, row: Option<Time>, flag: Option<Request>, pcs: map<Pid, Pc>, log: seq<Entry>)

  const INITIAL := State(0, None, None, map[], [])

  function PcOf(s: State, p: Pid): Pc {
    if p in s.pcs then s.pcs[p] else Idle
  }

  datatype Event =
    | Tick(to: Time)
    | Click(request: Request)
    | Decide(pid: Pid)
    | Insert(pid: Pid)
    | Select(pid: Pid)
    | Check(pid: Pid)
    | Steal(pid: Pid)
    | BeginScan(pid: Pid)
    | EndScan(pid: Pid, complete: bool)
    | ClearIfUnchanged(pid: Pid)
    | Release(pid: Pid)
    | Crash(pid: Pid)

  predicate Enabled(s: State, e: Event) {
    match e
    case Tick(to) => s.now <= to
    case Click(_) => true
    case Decide(p) => PcOf(s, p).Idle?
    case Insert(p) => PcOf(s, p).Decided? || PcOf(s, p).RowGone?
    case Select(p) => PcOf(s, p).InsertFailed?
    case Check(p) => PcOf(s, p).Looked?
    case Steal(p) => PcOf(s, p).Stealing?
    case BeginScan(p) => PcOf(s, p).Holding? && PcOf(s, p).stage.Locked?
    case EndScan(p, _) => PcOf(s, p).Holding? && PcOf(s, p).stage.Scanning?
    case ClearIfUnchanged(p) => PcOf(s, p).Holding? && PcOf(s, p).stage.Scanned? && PcOf(s, p).seen.Some?
    case Release(p) => PcOf(s, p).Holding?
    case Crash(p) => true
  }

  function Goto(s: State, p: Pid, pc: Pc): State {
    s.(pcs := s.pcs[p := pc])
  }

  function Next(s: State, e: Event): State
    requires Enabled(s, e)
  {
    match e
    case Tick(to) => s.(now := to)
    case Click(request) => s.(flag := Some(request), log := s.log + [Clicked(request)])
    case Decide(p) => Goto(s, p, Decided(s.flag))
    case Insert(p) =>
      var pc := PcOf(s, p);
      if s.row.None? then Goto(s, p, Holding(pc.seen, s.now, Locked)).(row := Some(s.now))
      else Goto(s, p, if pc.Decided? then InsertFailed(pc.seen) else Idle)
    case Select(p) =>
      var pc := PcOf(s, p);
      Goto(s, p, if s.row.None? then RowGone(pc.seen) else Looked(pc.seen, s.row.value))
    case Check(p) =>
      var pc := PcOf(s, p);
      Goto(s, p, if s.now - pc.stamp < STALE_AFTER then Idle else Stealing(pc.seen, pc.stamp))
    case Steal(p) =>
      var pc := PcOf(s, p);
      if s.row == Some(pc.stamp) then Goto(s, p, Holding(pc.seen, s.now, Locked)).(row := Some(s.now))
      else Goto(s, p, Idle)
    case BeginScan(p) => Goto(s, p, PcOf(s, p).(stage := Scanning)).(log := s.log + [Began(p)])
    case EndScan(p, complete) => Goto(s, p, PcOf(s, p).(stage := Scanned)).(log := s.log + [Ended(p, complete)])
    case ClearIfUnchanged(p) => if s.flag == PcOf(s, p).seen then s.(flag := None) else s
    case Release(p) => Goto(s, p, Idle).(row := None)
    case Crash(p) => Goto(s, p, Idle)
  }

  // ---- mutual exclusion ----------------------------------------------------

  ghost predicate OneHolder(s: State) {
    forall p, q :: PcOf(s, p).Holding? && PcOf(s, q).Holding? ==> p == q
  }

  ghost predicate LockValid(s: State) {
    && (s.row.Some? ==> s.row.value <= s.now)
    && (forall p :: PcOf(s, p).Holding? ==> s.row == Some(PcOf(s, p).stamp))
    && (forall p :: PcOf(s, p).Stealing? ==> s.now >= PcOf(s, p).stamp + STALE_AFTER)
    && OneHolder(s)
  }

  /** The step steals the row, by the stamp read from it, from a process that still acts as holder. */
  ghost predicate StealsHeldRow(s: State, e: Event) {
    && e.Steal? && PcOf(s, e.pid).Stealing? && s.row == Some(PcOf(s, e.pid).stamp)
    && exists p :: PcOf(s, p).Holding?
  }

  /** Holders act for less than fifteen minutes: time does not pass that point under them. */
  ghost predicate Timely(s: State, e: Event) {
    e.Tick? ==> forall p :: PcOf(s, p).Holding? ==> e.to < PcOf(s, p).stamp + 900_000
  }

  ghost predicate HoldersFresh(s: State) {
    forall p :: PcOf(s, p).Holding? ==> s.now < PcOf(s, p).stamp + 900_000   // fifteen minutes
  }

  /** A step moves at most the program counter of the process that takes it. */
  lemma OthersStay(s: State, e: Event)
    requires Enabled(s, e)
    ensures forall q :: e.Tick? || e.Click? || q != e.pid ==> PcOf(Next(s, e), q) == PcOf(s, q)
  {
  }

  /** A step ends exclusion exactly if it steals a held row, and then the holder is past its time. */
  lemma StepEndsExclusionExactly(s: State, e: Event)
    requires LockValid(s) && Enabled(s, e)
    ensures OneHolder(Next(s, e)) <==> !StealsHeldRow(s, e)
    ensures LockValid(Next(s, e)) <==> !StealsHeldRow(s, e)
    ensures StealsHeldRow(s, e) ==> !HoldersFresh(s)
  {
    var t := Next(s, e);
    OthersStay(s, e);
    if StealsHeldRow(s, e) {
      var p :| PcOf(s, p).Holding?;
      assert PcOf(t, p).Holding? && PcOf(t, e.pid).Holding? && p != e.pid;
    }
  }

  lemma TimelyStepKeepsFresh(s: State, e: Event)
    requires HoldersFresh(s) && Enabled(s, e) && Timely(s, e)
    ensures HoldersFresh(Next(s, e))
  {
    OthersStay(s, e);
  }

  // ---- no request is lost --------------------------------------------------

  ghost predicate Overwritten(log: seq<Entry>, i: nat) {
    exists j :: i < j < |log| && log[j].Clicked?
  }

  ghost predicate BegunSince(log: seq<Entry>, i: nat, p: Pid) {
    exists j :: i < j < |log| && log[j] == Began(p)
  }

  /** A scan that began after position `i` has ended, with or without an error. */
  ghost predicate ScannedSince(log: seq<Entry>, i: nat) {
    exists j, k :: i < j < k < |log| && ScanAt(log, j, k)
  }

  predicate ScanAt(log: seq<Entry>, j: nat, k: nat)
    requires j < k < |log|
  {
    log[j].Began? && log[k].Ended? && log[k].pid == log[j].pid
  }

  /** What became of the click at `i`. */
  ghost predicate Accounted(s: State, i: nat)
    requires i < |s.log| && s.log[i].Clicked?
  {
    s.flag == Some(s.log[i].request) || Overwritten(s.log, i) || ScannedSince(s.log, i)
  }

  ghost predicate Distinct(log: seq<Entry>) {
    forall i, j :: 0 <= i < j < |log| && log[i].Clicked? && log[j].Clicked? ==> log[i] != log[j]
  }

  /** A process that read a request read one that had been clicked; its scan is in the log after it. */
  ghost predicate SeenValid(log: seq<Entry>, p: Pid, pc: Pc) {
    !pc.Idle? && pc.seen.Some? ==>
      exists i: nat :: i < |log| && log[i] == Clicked(pc.seen.value)
           && (pc.Holding? && pc.stage.Scanning? ==> BegunSince(log, i, p))
           && (pc.Holding? && pc.stage.Scanned? ==> ScannedSince(log, i))
  }

  /** Position `i` is the newest click. */
  ghost predicate LastClick(log: seq<Entry>, i: nat) {
    i < |log| && log[i].Clicked? && !Overwritten(log, i)
  }

  /** What the flag and the processes know are clicks that happened, the flag's being the newest. */
  ghost predicate Known(s: State) {
    && (s.flag.Some? ==> exists i: nat :: LastClick(s.log, i) && s.log[i] == Clicked(s.flag.value))
    && forall p :: SeenValid(s.log, p, PcOf(s, p))
  }

  ghost predicate AllAccounted(s: State) {
    forall i :: 0 <= i < |s.log| && s.log[i].Clicked? ==> Accounted(s, i)
  }

  ghost predicate RequestsValid(s: State) {
    Known(s) && AllAccounted(s)
  }

  lemma LaterLogKeeps(log: seq<Entry>, e: Entry, i: nat, p: Pid)
    ensures Overwritten(log, i) ==> Overwritten(log + [e], i)
    ensures BegunSince(log, i, p) ==> BegunSince(log + [e], i, p)
    ensures ScannedSince(log, i) ==> ScannedSince(log + [e], i)
    ensures i < |log| && e == Began(p) ==> BegunSince(log + [e], i, p)
    ensures BegunSince(log, i, p) && e.Ended? && e.pid == p ==> ScannedSince(log + [e], i)
    ensures i < |log| && e.Clicked? ==> Overwritten(log + [e], i)
  {
    var after := log + [e];
    if Overwritten(log, i) {
      var j :| i < j < |log| && log[j].Clicked?;
      assert after[j].Clicked?;
    }
    if BegunSince(log, i, p) {
      var j :| i < j < |log| && log[j] == Began(p);
      assert after[j] == Began(p);
      assert e.Ended? && e.pid == p ==> ScanAt(after, j, |log|);
    }
    if ScannedSince(log, i) {
      var j, k :| i < j < k < |log| && ScanAt(log, j, k);
      assert ScanAt(after, j, k);
    }
    assert after[|log|] == e;
  }

  lemma LaterLogKeepsSeen(log: seq<Entry>, e: Entry, p: Pid, pc: Pc)
    requires SeenValid(log, p, pc)
    ensures SeenValid(log + [e], p, pc)
    ensures e == Began(p) && pc.Holding? ==> SeenValid(log + [e], p, pc.(stage := Scanning))
    ensures e.Ended? && e.pid == p && pc.Holding? && pc.stage.Scanning? ==> SeenValid(log + [e], p, pc.(stage := Scanned))
  {
    if !pc.Idle? && pc.seen.Some? {
      var i: nat :| i < |log| && log[i] == Clicked(pc.seen.value)
           && (pc.Holding? && pc.stage.Scanning? ==> BegunSince(log, i, p))
           && (pc.Holding? && pc.stage.Scanned? ==> ScannedSince(log, i));
      LaterLogKeeps(log, e, i, p);
      assert (log + [e])[i] == Clicked(pc.seen.value);
    }
  }

  lemma LaterLogKeepsLast(log: seq<Entry>, e: Entry, i: nat)
    ensures LastClick(log, i) && !e.Clicked? ==> LastClick(log + [e], i)
    ensures e.Clicked? ==> LastClick(log + [e], |log|)
  {
  }

  lemma LaterLogKeepsAccounted(s: State, t: State, e: Entry)
    requires AllAccounted(s)
    requires t.log == s.log + [e] && (if e.Clicked? then t.flag == Some(e.request) else t.flag == s.flag)
    ensures AllAccounted(t)
  {
    forall i | 0 <= i < |t.log| && t.log[i].Clicked? ensures Accounted(t, i) {
      if i < |s.log| {
        assert Accounted(s, i);
        LaterLogKeeps(s.log, e, i, 0);
      }
    }
  }

  /** The entry a step adds to the log, if it adds one. */
  function Logged(e: Event): Option<Entry> {
    match e
    case Click(request) => Some(Clicked(request))
    case BeginScan(p) => Some(Began(p))
    case EndScan(p, complete) => Some(Ended(p, complete))
    case _ => None
  }

  lemma LoggingKeepsKnown(s: State, e: Event)
    requires Known(s) && Enabled(s, e) && Logged(e).Some?
    ensures Known(Next(s, e))
  {
    var t, entry := Next(s, e), Logged(e).value;
    OthersStay(s, e);
    forall p ensures SeenValid(t.log, p, PcOf(t, p)) {
      LaterLogKeepsSeen(s.log, entry, p, PcOf(s, p));
    }
    if e.Click? {
      LaterLogKeepsLast(s.log, entry, |s.log|);
      assert t.log[|s.log|] == entry;
    } else if t.flag.Some? {
      var i: nat :| LastClick(s.log, i) && s.log[i] == Clicked(s.flag.value);
      LaterLogKeepsLast(s.log, entry, i);
      assert t.log[i] == s.log[i];
    }
  }

  lemma QuietKeepsKnown(s: State, e: Event)
    requires Known(s) && Enabled(s, e) && Logged(e).None?
    ensures Known(Next(s, e))
  {
    var t := Next(s, e);
    OthersStay(s, e);
    forall p ensures SeenValid(t.log, p, PcOf(t, p)) {
      assert SeenValid(s.log, p, PcOf(s, p));
    }
  }

  /** Only a clear can leave a click unaccounted for. */
  lemma OtherStepsKeepAccounted(s: State, e: Event)
    requires AllAccounted(s) && Enabled(s, e) && !e.ClearIfUnchanged?
    ensures AllAccounted(Next(s, e))
  {
    var t := Next(s, e);
    if Logged(e).Some? {
      LaterLogKeepsAccounted(s, t, Logged(e).value);
    } else {
      assert forall i :: 0 <= i < |s.log| && s.log[i].Clicked? ==> Accounted(s, i) && Accounted(t, i);
    }
  }

  /** The clear leaves the flag alone, or the newest click was followed by a whole scan. */
  ghost predicate SafeClear(s: State, p: Pid)
    requires Enabled(s, ClearIfUnchanged(p))
  {
    s.flag != PcOf(s, p).seen || forall i: nat :: LastClick(s.log, i) ==> ScannedSince(s.log, i)
  }

  /** Whether a clear leaves a click unaccounted for is a matter of the newest click alone. */
  lemma SafeClearKeepsAccounted(s: State, p: Pid)
    requires RequestsValid(s) && Enabled(s, ClearIfUnchanged(p))
    ensures AllAccounted(Next(s, ClearIfUnchanged(p))) <==> SafeClear(s, p)
  {
    var t := Next(s, ClearIfUnchanged(p));
    if s.flag != PcOf(s, p).seen {
      assert t == s;
    } else {
      assert forall i :: 0 <= i < |s.log| && s.log[i].Clicked? ==> Accounted(s, i);
      if SafeClear(s, p) {
        forall i | 0 <= i < |t.log| && t.log[i].Clicked? ensures Accounted(t, i) {
          assert !Overwritten(s.log, i) ==> LastClick(s.log, i);
        }
      }
      if AllAccounted(t) {
        forall i: nat | LastClick(s.log, i) ensures ScannedSince(s.log, i) {
          assert Accounted(t, i);
        }
      }
    }
  }

  /** With distinct values, what a process clears is the very click it read before its scan. */
  lemma DistinctClearsAreSafe(s: State, p: Pid)
    requires Known(s) && Enabled(s, ClearIfUnchanged(p)) && Distinct(s.log)
    ensures SafeClear(s, p)
  {
    if s.flag == PcOf(s, p).seen {
      assert SeenValid(s.log, p, PcOf(s, p));
      var k: nat :| k < |s.log| && s.log[k] == Clicked(PcOf(s, p).seen.value) && ScannedSince(s.log, k);
      var last: nat :| LastClick(s.log, last) && s.log[last] == Clicked(s.flag.value);
      assert k == last;
      forall i: nat | LastClick(s.log, i) ensures ScannedSince(s.log, i) {
        assert i == last;
      }
    }
  }

  lemma NextKeepsRequests(s: State, e: Event)
    requires RequestsValid(s) && Enabled(s, e) && Distinct(s.log)
    ensures RequestsValid(Next(s, e))
  {
    if Logged(e).Some? {
      LoggingKeepsKnown(s, e);
    } else {
      QuietKeepsKnown(s, e);
    }
    if e.ClearIfUnchanged? {
      DistinctClearsAreSafe(s, e.pid);
      SafeClearKeepsAccounted(s, e.pid);
    } else {
      OtherStepsKeepAccounted(s, e);
    }
  }

  // ---- runs ----------------------------------------------------------------

  /** A run in which every click writes a new value and, if `timely`, holders act in time. */
  ghost predicate Runs(s: State, events: seq<Event>, timely: bool)
    decreases |events|
  {
    events == [] ||
    (Enabled(s, events[0]) && (timely ==> Timely(s, events[0])) && Runs(Next(s, events[0]), events[1..], timely))
  }

  ghost function After(s: State, events: seq<Event>, timely: bool): State
    requires Runs(s, events, timely)
    decreases |events|
  {
    if events == [] then s else After(Next(s, events[0]), events[1..], timely)
  }

  /** At every moment of the run at most one process acts as holder. */
  ghost predicate AlwaysOneHolder(s: State, events: seq<Event>)
    decreases |events|
  {
    OneHolder(s) && (events != [] && Enabled(s, events[0]) ==> AlwaysOneHolder(Next(s, events[0]), events[1..]))
  }

  /** No step of the run steals the row from a process that still acts as holder. */
  ghost predicate NeverStolen(s: State, events: seq<Event>)
    decreases |events|
  {
    events != [] && Enabled(s, events[0]) ==> !StealsHeldRow(s, events[0]) && NeverStolen(Next(s, events[0]), events[1..])
  }

  lemma {:induction false} ExclusionFromExactly(s: State, events: seq<Event>)
    requires LockValid(s) && Runs(s, events, false)
    ensures AlwaysOneHolder(s, events) <==> NeverStolen(s, events)
    decreases |events|
  {
    if events != [] {
      StepEndsExclusionExactly(s, events[0]);
      if !StealsHeldRow(s, events[0]) {
        ExclusionFromExactly(Next(s, events[0]), events[1..]);
      }
    }
  }

  /** Two processes never act as holders at once exactly if no slow holder's row is stolen under it. */
  lemma ExclusionExactly(events: seq<Event>)
    requires Runs(INITIAL, events, false)
    ensures AlwaysOneHolder(INITIAL, events) <==> NeverStolen(INITIAL, events)
  {
    ExclusionFromExactly(INITIAL, events);
  }

  lemma {:induction false} TimelyRunKeepsLock(s: State, events: seq<Event>)
    requires LockValid(s) && HoldersFresh(s) && Runs(s, events, true)
    ensures NeverStolen(s, events) && LockValid(After(s, events, true))
    decreases |events|
  {
    if events != [] {
      StepEndsExclusionExactly(s, events[0]);
      TimelyStepKeepsFresh(s, events[0]);
      TimelyRunKeepsLock(Next(s, events[0]), events[1..]);
    }
  }

  /**
    At most one process ever acts as holder, however many read the same stale row and try to
    steal it, provided each holder releases or stops acting within fifteen minutes of its stamp.
   */
  lemma AtMostOneHolder(events: seq<Event>, p: Pid, q: Pid)
    requires Runs(INITIAL, events, true)
    requires PcOf(After(INITIAL, events, true), p).Holding? && PcOf(After(INITIAL, events, true), q).Holding?
    ensures p == q
  {
    TimelyRunKeepsLock(INITIAL, events);
  }

  /** Process `p` takes the free lock. */
  lemma TakesFreeLock(s: State, p: Pid, rest: seq<Event>)
    requires s.row.None? && PcOf(s, p).Idle?
    ensures var t := Goto(s, p, Holding(s.flag, s.now, Locked)).(row := Some(s.now));
            Runs(t, rest, false) ==>
              Runs(s, [Decide(p), Insert(p)] + rest, false) && After(s, [Decide(p), Insert(p)] + rest, false) == After(t, rest, false)
  {
    var events := [Decide(p), Insert(p)] + rest;
    var s1 := Next(s, Decide(p));
    var s2 := Next(s1, Insert(p));
    assert s2 == Goto(s, p, Holding(s.flag, s.now, Locked)).(row := Some(s.now));
    assert events[1..][1..] == rest;
    Unfold(s1, events[1..], s2, false);
    Unfold(s, events, s1, false);
  }

  /** Process `p` finds the row taken and reads its stamp. */
  lemma LooksAtStaleLock(s: State, p: Pid, to: Time, rest: seq<Event>)
    requires s.row.Some? && PcOf(s, p).Idle? && s.now <= to
    ensures var t := Goto(s, p, Looked(s.flag, s.row.value)).(now := to);
            Runs(t, rest, false) ==>
              && Runs(s, [Decide(p), Insert(p), Tick(to), Select(p)] + rest, false)
              && After(s, [Decide(p), Insert(p), Tick(to), Select(p)] + rest, false) == After(t, rest, false)
  {
    var events := [Decide(p), Insert(p), Tick(to), Select(p)] + rest;
    var s1 := Next(s, Decide(p));
    var s2 := Next(s1, Insert(p));
    var s3 := Next(s2, Tick(to));
    var s4 := Next(s3, Select(p));
    assert s4 == Goto(s, p, Looked(s.flag, s.row.value)).(now := to);
    assert events[4..] == rest;
    Unfold(s3, events[3..], s4, false);
    Unfold(s2, events[2..], s3, false);
    Unfold(s1, events[1..], s2, false);
    Unfold(s, events, s1, false);
  }

  /** ... and, if the stamp is stale, steals the row. */
  lemma StealsStaleLock(s: State, p: Pid)
    requires PcOf(s, p).Looked? && s.row == Some(PcOf(s, p).stamp) && s.now - PcOf(s, p).stamp >= STALE_AFTER
    ensures Runs(s, [Check(p), Steal(p)], false)
    ensures After(s, [Check(p), Steal(p)], false) == Goto(s, p, Holding(PcOf(s, p).seen, s.now, Locked)).(row := Some(s.now))
  {
    var events := [Check(p), Steal(p)];
    var s1 := Next(s, Check(p));
    var s2 := Next(s1, Steal(p));
    assert s2 == Goto(s, p, Holding(PcOf(s, p).seen, s.now, Locked)).(row := Some(s.now));
    Unfold(s1, events[1..], s2, false);
    Unfold(s, events, s1, false);
  }

  /** Without the proviso two processes scan at once: the slow one's row is stolen under it. */
  lemma SlowHolderBreaksExclusion()
    ensures var events := [Decide(0), Insert(0)] + ([Decide(1), Insert(1), Tick(STALE_AFTER), Select(1)] + [Check(1), Steal(1)]);
            && Runs(INITIAL, events, false)
            && PcOf(After(INITIAL, events, false), 0).Holding? && PcOf(After(INITIAL, events, false), 1).Holding?
  {
    var held := Goto(INITIAL, 0, Holding(None, 0, Locked)).(row := Some(0));
    var looked := Goto(held, 1, Looked(None, 0)).(now := STALE_AFTER);
    StealsStaleLock(looked, 1);
    LooksAtStaleLock(held, 1, STALE_AFTER, [Check(1), Steal(1)]);
    TakesFreeLock(INITIAL, 0, [Decide(1), Insert(1), Tick(STALE_AFTER), Select(1)] + [Check(1), Steal(1)]);
  }

  /** A lock that is given back can be taken at once. */
  lemma ReleasedLockIsFree(s: State, p: Pid, q: Pid)
    requires PcOf(s, p).Holding? && PcOf(s, q).Idle?
    ensures var events := [Release(p)] + ([Decide(q), Insert(q)] + []);
            Runs(s, events, false) && PcOf(After(s, events, false), q).Holding? && !PcOf(After(s, events, false), p).Holding?
  {
    var t := Next(s, Release(p));
    var events := [Release(p)] + ([Decide(q), Insert(q)] + []);
    assert events[1..] == [Decide(q), Insert(q)] + [];
    TakesFreeLock(t, q, []);
    Unfold(s, events, t, false);
  }

  /** A lock whose holder crashed is taken over once it is stale. */
  lemma CrashedHolderIsReplaced(s: State, p: Pid, q: Pid)
    requires PcOf(s, p).Holding? && s.row == Some(PcOf(s, p).stamp) && PcOf(s, q).Idle? && s.now <= PcOf(s, p).stamp + 900_000
    ensures var events := [Crash(p)] + ([Decide(q), Insert(q), Tick(PcOf(s, p).stamp + 900_000), Select(q)] + [Check(q), Steal(q)]);
            Runs(s, events, false) && PcOf(After(s, events, false), q).Holding? && !PcOf(After(s, events, false), p).Holding?
  {
    var to := PcOf(s, p).stamp + 900_000;
    var t := Next(s, Crash(p));
    var looked := Goto(t, q, Looked(t.flag, t.row.value)).(now := to);
    var events := [Crash(p)] + ([Decide(q), Insert(q), Tick(to), Select(q)] + [Check(q), Steal(q)]);
    assert events[1..] == [Decide(q), Insert(q), Tick(to), Select(q)] + [Check(q), Steal(q)];
    StealsStaleLock(looked, q);
    LooksAtStaleLock(t, q, to, [Check(q), Steal(q)]);
    Unfold(s, events, t, false);
  }

  lemma Unfold(s: State, events: seq<Event>, t: State, timely: bool)
    requires events != [] && Enabled(s, events[0]) && t == Next(s, events[0]) && !timely
    ensures Runs(s, events, timely) <==> Runs(t, events[1..], timely)
    ensures Runs(s, events, timely) ==> After(s, events, timely) == After(t, events[1..], timely)
  {
  }

  lemma {:induction false} LogOnlyGrows(s: State, events: seq<Event>, timely: bool)
    requires Runs(s, events, timely)
    ensures |s.log| <= |After(s, events, timely).log| && After(s, events, timely).log[..|s.log|] == s.log
    decreases |events|
  {
    if events != [] {
      LogOnlyGrows(Next(s, events[0]), events[1..], timely);
    }
  }

  lemma DistinctPrefix(log: seq<Entry>, n: nat)
    requires Distinct(log) && n <= |log|
    ensures Distinct(log[..n])
  {
  }

  lemma {:induction false} RunsKeepRequests(s: State, events: seq<Event>, timely: bool)
    requires RequestsValid(s) && Runs(s, events, timely) && Distinct(After(s, events, timely).log)
    ensures RequestsValid(After(s, events, timely))
    decreases |events|
  {
    if events != [] {
      LogOnlyGrows(s, events, timely);
      LogOnlyGrows(Next(s, events[0]), events[1..], timely);
      DistinctPrefix(After(s, events, timely).log, |s.log|);
      NextKeepsRequests(s, events[0]);
      RunsKeepRequests(Next(s, events[0]), events[1..], timely);
    }
  }

  /**
    No scan request is lost: if the clicks wrote distinct values, each click is still pending,
    or was overwritten by a later click, or a scan that began after it has run to its end.
   */
  lemma NoRequestIsLost(events: seq<Event>, timely: bool, i: nat)
    requires Runs(INITIAL, events, timely) && Distinct(After(INITIAL, events, timely).log)
    requires i < |After(INITIAL, events, timely).log| && After(INITIAL, events, timely).log[i].Clicked?
    ensures var s := After(INITIAL, events, timely);
            s.flag == Some(s.log[i].request) || Overwritten(s.log, i) || ScannedSince(s.log, i)
  {
    RunsKeepRequests(INITIAL, events, timely);
    assert Accounted(After(INITIAL, events, timely), i);
  }

  /** Nor need the scan have succeeded: one that stopped with an error clears the request all the same. */
  lemma FailedScanClears(request: Request)
    ensures var events := [Click(request)] + ([Decide(0), Insert(0)] + [BeginScan(0), EndScan(0, false), ClearIfUnchanged(0)]);
            && Runs(INITIAL, events, false)
            && var s := After(INITIAL, events, false);
               s.flag.None? && s.log == [Clicked(request), Began(0), Ended(0, false)]
  {
    var tail := [BeginScan(0), EndScan(0, false), ClearIfUnchanged(0)];
    var s1 := State(0, None, Some(request), map[], [Clicked(request)]);
    var held := Goto(s1, 0, Holding(s1.flag, 0, Locked)).(row := Some(0));
    TakesFreeLock(s1, 0, tail);
    var t1 := Next(held, tail[0]);
    var t2 := Next(t1, tail[1]);
    var t3 := Next(t2, tail[2]);
    Unfold(t2, tail[2..], t3, false);
    Unfold(t1, tail[1..], t2, false);
    Unfold(held, tail, t1, false);
    var events := [Click(request)] + ([Decide(0), Insert(0)] + tail);
    assert events[1..] == [Decide(0), Insert(0)] + tail;
    Unfold(INITIAL, events, s1, false);
  }

  /** Two clicks in the same millisecond write the same value, and the second can be lost. */
  lemma EqualClicksCanBeLost(request: Request)
    ensures var events := [Click(request)] + ([Decide(0), Insert(0)] + [BeginScan(0), Click(request), EndScan(0, true), ClearIfUnchanged(0)]);
            && Runs(INITIAL, events, false)
            && var s := After(INITIAL, events, false);
               s.flag.None? && s.log == [Clicked(request), Began(0), Clicked(request), Ended(0, true)]
               && !Overwritten(s.log, 2) && !ScannedSince(s.log, 2)
  {
    var tail := [BeginScan(0), Click(request), EndScan(0, true), ClearIfUnchanged(0)];
    var s1 := State(0, None, Some(request), map[], [Clicked(request)]);
    var held := Goto(s1, 0, Holding(s1.flag, 0, Locked)).(row := Some(0));
    RescanLosesEqualClick(held, request);
    TakesFreeLock(s1, 0, tail);
    var events := [Click(request)] + ([Decide(0), Insert(0)] + tail);
    assert events[1..] == [Decide(0), Insert(0)] + tail;
    Unfold(INITIAL, events, s1, false);
    assert s1.log + [Began(0), Clicked(request), Ended(0, true)] == [Clicked(request), Began(0), Clicked(request), Ended(0, true)];
  }

  lemma RescanLosesEqualClick(s: State, request: Request)
    requires PcOf(s, 0).Holding? && PcOf(s, 0).stage.Locked? && PcOf(s, 0).seen == Some(request)
    ensures var events := [BeginScan(0), Click(request), EndScan(0, true), ClearIfUnchanged(0)];
            && Runs(s, events, false)
            && After(s, events, false).flag.None?
            && After(s, events, false).log == s.log + [Began(0), Clicked(request), Ended(0, true)]
  {
    var events := [BeginScan(0), Click(request), EndScan(0, true), ClearIfUnchanged(0)];
    var s1 := Next(s, events[0]);
    var s2 := Next(s1, events[1]);
    var s3 := Next(s2, events[2]);
    var s4 := Next(s3, events[3]);
    assert s4.flag.None? && s4.log == s.log + [Began(0), Clicked(request), Ended(0, true)];
    Unfold(s3, events[3..], s4, false);
    Unfold(s2, events[2..], s3, false);
    Unfold(s1, events[1..], s2, false);
    Unfold(s, events, s1, false);
  }
}

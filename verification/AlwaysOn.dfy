/**
  The always-on relay supervisor: exponential backoff in wrapping 64-bit arithmetic, and the
  retry discipline of one relay over whole runs of reconciliations.
 */
module AlwaysOn {
  import opened Common

  type Time = int   // nanoseconds

  const SECOND: int := 1_000_000_000
  const MIN_BACKOFF: int := 30 * SECOND
  const MAX_BACKOFF: int := 600 * SECOND
  const MIN_HEALTHY: int := 120 * SECOND

  const TWO_TO_64: int := 0x1_0000_0000_0000_0000
  const TWO_TO_63: int := 0x8000_0000_0000_0000

  // ---- the backoff ---------------------------------------------------------

  function Pow2(k: nat): nat {
    if k == 0 then 1 else 2 * Pow2(k - 1)
  }

  /** Two's complement wrap-around to 64 bits. */
  function Wrap(x: int): int {
    (x + TWO_TO_63) % TWO_TO_64 - TWO_TO_63
  }

  /** Go's `x << k` on an int64; a shift by the width or more gives zero. */
  function ShiftLeft(x: int, k: nat): int {
    if k >= 64 then 0 else Wrap(x * Pow2(k))
  }

  function Backoff(failures: nat): int
    requires failures >= 1
  {
    var backoff := ShiftLeft(MIN_BACKOFF, failures - 1);
    if backoff > MAX_BACKOFF || backoff <= 0 then MAX_BACKOFF else backoff
  }

  function Min(a: int, b: int): int {
    if a < b then a else b
  }

  lemma Doubled(a: int, b: int)
    ensures 2 * (a * b) == (2 * a) * b
  {
  }

  lemma {:induction false} Pow2Adds(i: nat, j: nat)
    ensures Pow2(i + j) == Pow2(i) * Pow2(j)
  {
    if i > 0 {
      Pow2Adds(i - 1, j);
      Doubled(Pow2(i - 1), Pow2(j));
    }
  }

  lemma {:induction false} Pow2AtLeast(i: nat, j: nat)
    requires i <= j
    ensures Pow2(i) <= Pow2(j)
  {
    if i < j {
      Pow2AtLeast(i, j - 1);
    }
  }

  lemma Pow2Small()
    ensures Pow2(5) == 32 && Pow2(10) == 1024 && Pow2(28) == 268_435_456 && Pow2(29) == 536_870_912
    ensures Pow2(30) == 1_073_741_824
  {
    assert Pow2(10) == 1024;
    assert Pow2(20) == 1_048_576 by { Pow2Adds(10, 10); }
    Pow2Adds(20, 10);
    assert Pow2(30) == 2 * Pow2(29) && Pow2(29) == 2 * Pow2(28);
  }

  /** 30 s is a multiple of 2^10 ns, so shifts by 30 and more leave a multiple of 2^40 ns. */
  lemma LargeShift(k: nat)
    requires 30 <= k < 64
    ensures ShiftLeft(MIN_BACKOFF, k) <= 0 || ShiftLeft(MIN_BACKOFF, k) > MAX_BACKOFF
  {
    LargePower(k);
    WrapOfMultiple(29_296_875 * Pow2(k - 30));
  }

  lemma LargePower(k: nat)
    requires k >= 30
    ensures MIN_BACKOFF * Pow2(k) == 0x100_0000_0000 * (29_296_875 * Pow2(k - 30))
  {
    Pow2Small();
    Pow2Adds(30, k - 30);
  }

  lemma WrapOfMultiple(y: int)
    ensures Wrap(0x100_0000_0000 * y) <= 0 || Wrap(0x100_0000_0000 * y) > MAX_BACKOFF
  {
    var z := y + 0x80_0000;
    assert 0x100_0000_0000 * y + TWO_TO_63 == 0x100_0000_0000 * z;
    assert (0x100_0000_0000 * z) % TWO_TO_64 == 0x100_0000_0000 * (z % 0x100_0000);
  }

  /** Up to 28 bits nothing overflows. */
  lemma ExactShift(k: nat)
    requires k <= 28
    ensures ShiftLeft(MIN_BACKOFF, k) == MIN_BACKOFF * Pow2(k) > 0
  {
    Pow2Small();
    Pow2AtLeast(k, 28);
    Pow2AtLeast(0, k);
    SmallMultiple(Pow2(k));
  }

  lemma SmallMultiple(p: int)
    requires 1 <= p <= 268_435_456
    ensures Wrap(MIN_BACKOFF * p) == MIN_BACKOFF * p > 0
  {
    assert MIN_BACKOFF * 268_435_456 < TWO_TO_63;
    WrapSmall(MIN_BACKOFF * p);
  }

  lemma WrapSmall(x: int)
    requires 0 <= x < TWO_TO_63
    ensures Wrap(x) == x
  {
  }

  /** From 5 bits on the doubling is past the cap. */
  lemma PastTheCap(k: nat)
    requires k >= 5
    ensures MIN_BACKOFF * Pow2(k) > MAX_BACKOFF
  {
    Pow2Small();
    Pow2AtLeast(5, k);
  }

  lemma BelowTheCap(k: nat)
    requires k < 5
    ensures MIN_BACKOFF * Pow2(k) <= MAX_BACKOFF
  {
    assert Pow2(4) == 16;
    Pow2AtLeast(k, 4);
  }

  lemma OverflowingShift(k: nat)
    requires k > 28
    ensures ShiftLeft(MIN_BACKOFF, k) <= 0 || ShiftLeft(MIN_BACKOFF, k) > MAX_BACKOFF
  {
    if k == 29 {
      Pow2Small();
    } else if k < 64 {
      LargeShift(k);
    }
  }

  /** The overflowing shift is capped doubling: 30 s, 60 s, ... and never more than 600 s. */
  lemma BackoffIsCappedDoubling(failures: nat)
    requires failures >= 1
    ensures Backoff(failures) == Min(MIN_BACKOFF * Pow2(failures - 1), MAX_BACKOFF)
  {
    var k := failures - 1;
    if k <= 28 {
      ExactShift(k);
    } else {
      OverflowingShift(k);
    }
    if k < 5 {
      BelowTheCap(k);
    } else {
      PastTheCap(k);
    }
  }

  lemma BackoffNeverDecreases(failures: nat)
    requires failures >= 1
    ensures MIN_BACKOFF <= Backoff(failures) <= Backoff(failures + 1) <= MAX_BACKOFF
  {
    BackoffIsCappedDoubling(failures);
    BackoffIsCappedDoubling(failures + 1);
    Pow2AtLeast(0, failures - 1);
  }

  // ---- one relay -----------------------------------------------------------

  /** alwaysOnState; the zero time is 0 for nextTry and None for runningSince. */
  datatype Relay = Relay(failures: nat, nextTry: Time, runningSince: Option<Time>)

  const NEW_RELAY := Relay(0, 0, None)

  /** The stream's entry in the snapshot of pinned sessions. */
  datatype Snapshot = NotPinned | Alive | Dead

  /**
    What one reconciliation sees of a wanted stream, with the clock readings in the order they
    are taken. Sessions may have been started, replaced or stopped by viewers in between.
   */
  datatype Observation = Observation(
    snapshot: Snapshot, existing: bool, starts: bool,
    examined: Time, found: Time, checked: Time, finished: Time)

  datatype Note =
    | Attempted(at: Time)
    | Failed(at: Time, backoff: Time)
    | Started(at: Time)
    | Proven(at: Time)          // the failure count is reset

  function Failing(r: Relay, at: Time): (Relay, Note) {
    var backoff := Backoff(r.failures + 1);
    (Relay(r.failures + 1, at + backoff, None), Failed(at, backoff))
  }

  predicate Healthy(r: Relay, at: Time) {
    r.runningSince.Some? && at - r.runningSince.value >= MIN_HEALTHY
  }

  /** What happens once a dead pinned relay has been dealt with. */
  function Continue(r: Relay, o: Observation): (Relay, seq<Note>) {
    if o.existing then
      if Healthy(r, o.found) then (r.(failures := 0, nextTry := 0), [Proven(o.found)]) else (r, [])
    else if o.checked < r.nextTry then (r, [])
    else if o.starts then
      (r.(nextTry := 0, runningSince := Some(o.finished)), [Attempted(o.checked), Started(o.finished)])
    else
      var (after, note) := Failing(r, o.finished);
      (after, [Attempted(o.checked), note])
  }

  function Reconcile(r: Relay, o: Observation): (Relay, seq<Note>) {
    if o.snapshot.Dead? then
      if r.runningSince.Some? && o.examined - r.runningSince.value < MIN_HEALTHY then
        var (after, note) := Failing(r, o.found);
        (after, [note])
      else
        Continue(r.(runningSince := None), o)
    else
      Continue(r, o)
  }

  class Supervisor {
    var relay: Relay

    constructor ()
      ensures relay == NEW_RELAY
    {
      relay := NEW_RELAY;
    }

    method Fail(now: Time) returns (backoff: Time)
      modifies this
      ensures (relay, Failed(now, backoff)) == Failing(old(relay), now)
    {
      relay := relay.(failures := relay.failures + 1);
      backoff := ShiftLeft(MIN_BACKOFF, relay.failures - 1);
      if backoff > MAX_BACKOFF || backoff <= 0 {
        backoff := MAX_BACKOFF;
      }
      relay := relay.(nextTry := now + backoff, runningSince := None);
    }

    /** The body of reconcileAlwaysOn's loop over the wanted streams. */
    method ReconcileStream(o: Observation) returns (notes: seq<Note>)
      modifies this
      ensures (relay, notes) == Reconcile(old(relay), o)
    {
      notes := [];
      if o.snapshot.Dead? {
        if relay.runningSince.Some? && o.examined - relay.runningSince.value < MIN_HEALTHY {
          var backoff := Fail(o.found);
          return [Failed(o.found, backoff)];
        }
        relay := relay.(runningSince := None);
      }
      if o.existing {
        if relay.runningSince.Some? && o.found - relay.runningSince.value >= MIN_HEALTHY {
          relay := relay.(failures := 0, nextTry := 0);
          notes := [Proven(o.found)];
        }
        return;
      }
      if o.checked < relay.nextTry {
        return;
      }
      if !o.starts {
        var backoff := Fail(o.finished);
        return [Attempted(o.checked), Failed(o.finished, backoff)];
      }
      relay := relay.(nextTry := 0, runningSince := Some(o.finished));
      return [Attempted(o.checked), Started(o.finished)];
    }
  }

  // ---- whole runs ----------------------------------------------------------

  predicate InOrder(from: Time, o: Observation) {
    0 <= from <= o.examined <= o.found <= o.checked <= o.finished
  }

  /** The clock never goes back, within a reconciliation or between them. */
  predicate Clocked(from: Time, run: seq<Observation>)
    decreases |run|
  {
    0 <= from && (run == [] || (InOrder(from, run[0]) && Clocked(run[0].finished, run[1..])))
  }

  /** The relay and its history after `run`, from a relay with history `h`. */
  function Play(r: Relay, h: seq<Note>, run: seq<Observation>): (Relay, seq<Note>)
    decreases |run|
  {
    if run == [] then (r, h) else
    var (after, notes) := Reconcile(r, run[0]);
    Play(after, h + notes, run[1..])
  }

  /** Failures since the count was last reset. */
  function Streak(h: seq<Note>): nat {
    if h == [] then 0 else
    var last := h[|h| - 1];
    if last.Proven? then 0 else if last.Failed? then Streak(h[..|h| - 1]) + 1 else Streak(h[..|h| - 1])
  }

  /** No start is attempted before any earlier failure plus its backoff. */
  ghost predicate BackoffRespected(h: seq<Note>) {
    forall i, j :: 0 <= i < j < |h| && h[i].Failed? && h[j].Attempted? ==> h[j].at >= h[i].at + h[i].backoff
  }

  /** Each failure waits the capped doubling of 30 s for its place in the streak. */
  ghost predicate BackoffMatchesStreak(h: seq<Note>) {
    forall j :: 0 <= j < |h| && h[j].Failed? ==> h[j].backoff == Min(MIN_BACKOFF * Pow2(Streak(h[..j])), MAX_BACKOFF)
  }

  /** A start at `k` with no failure after it. */
  ghost predicate StandingStart(h: seq<Note>, k: nat, at: Time) {
    k < |h| && h[k] == Started(at) && forall m :: k < m < |h| ==> !h[m].Failed?
  }

  /** The count is reset only for a relay that has run two minutes since the last failure. */
  ghost predicate ResetsAreEarned(h: seq<Note>) {
    forall j :: 0 <= j < |h| && h[j].Proven? ==>
      exists k :: 0 <= k < j && StandingStart(h[..j], k, h[k].at) && h[j].at - h[k].at >= MIN_HEALTHY
  }

  /** Every failure's backoff is over by the next try, or already. */
  ghost predicate Waited(h: seq<Note>, nextTry: Time, now: Time) {
    forall i :: 0 <= i < |h| && h[i].Failed? ==> h[i].at + h[i].backoff <= nextTry || h[i].at + h[i].backoff <= now
  }

  ghost predicate Running(r: Relay, h: seq<Note>) {
    r.runningSince.Some? ==> r.nextTry == 0 && exists k: nat :: StandingStart(h, k, r.runningSince.value)
  }

  ghost predicate Orderly(h: seq<Note>) {
    BackoffRespected(h) && BackoffMatchesStreak(h) && ResetsAreEarned(h)
  }

  ghost predicate Consistent(r: Relay, h: seq<Note>, now: Time) {
    r.failures == Streak(h) && Waited(h, r.nextTry, now) && Running(r, h) && Orderly(h)
  }

  /** Adding one note keeps what the earlier notes established. */
  lemma Appended(h: seq<Note>, n: Note)
    ensures (h + [n])[..|h|] == h
    ensures Streak(h + [n]) == if n.Proven? then 0 else if n.Failed? then Streak(h) + 1 else Streak(h)
    ensures forall j :: 0 <= j <= |h| ==> (h + [n])[..j] == h[..j]
    ensures BackoffMatchesStreak(h) && (n.Failed? ==> n.backoff == Min(MIN_BACKOFF * Pow2(Streak(h)), MAX_BACKOFF)) ==> BackoffMatchesStreak(h + [n])
  {
    assert (h + [n])[..|h|] == h;
    assert forall j :: 0 <= j <= |h| ==> (h + [n])[..j] == h[..j];
  }

  lemma AppendKeepsResets(h: seq<Note>, n: Note)
    requires ResetsAreEarned(h)
    requires n.Proven? ==> exists k :: 0 <= k < |h| && StandingStart(h, k, h[k].at) && n.at - h[k].at >= MIN_HEALTHY
    ensures ResetsAreEarned(h + [n])
  {
    var g := h + [n];
    Appended(h, n);
    forall j | 0 <= j < |g| && g[j].Proven?
      ensures exists k :: 0 <= k < j && StandingStart(g[..j], k, g[k].at) && g[j].at - g[k].at >= MIN_HEALTHY
    {
      var k :| 0 <= k < j && StandingStart(h[..j], k, h[k].at) && g[j].at - h[k].at >= MIN_HEALTHY;
      assert g[..j] == h[..j] && g[k] == h[k];
    }
  }

  lemma AppendKeepsRespect(h: seq<Note>, n: Note)
    requires BackoffRespected(h)
    requires n.Attempted? ==> forall i :: 0 <= i < |h| && h[i].Failed? ==> n.at >= h[i].at + h[i].backoff
    ensures BackoffRespected(h + [n])
  {
  }

  /** A note that is no reset keeps a history orderly if an attempt has waited and a failure waits its turn. */
  lemma AppendKeepsOrder(h: seq<Note>, n: Note)
    requires Orderly(h) && !n.Proven?
    requires n.Attempted? ==> forall i :: 0 <= i < |h| && h[i].Failed? ==> n.at >= h[i].at + h[i].backoff
    requires n.Failed? ==> n.backoff == Min(MIN_BACKOFF * Pow2(Streak(h)), MAX_BACKOFF)
    ensures Orderly(h + [n])
  {
    AppendKeepsRespect(h, n);
    Appended(h, n);
    AppendKeepsResets(h, n);
  }

  lemma AppendKeepsWaiting(h: seq<Note>, n: Note, nextTry: Time, now: Time, later: Time, at: Time)
    requires Waited(h, nextTry, now) && now <= at && (nextTry <= later || nextTry <= at)
    requires n.Failed? ==> n.at + n.backoff <= later
    ensures Waited(h + [n], later, at)
  {
  }

  lemma StillStanding(h: seq<Note>, n: Note, k: nat, at: Time)
    requires StandingStart(h, k, at) && !n.Failed?
    ensures StandingStart(h + [n], k, at)
  {
  }

  lemma AppendKeepsRunning(r: Relay, h: seq<Note>, n: Note)
    requires Running(r, h) && !n.Failed?
    ensures Running(r, h + [n])
  {
    if r.runningSince.Some? {
      var k: nat :| StandingStart(h, k, r.runningSince.value);
      StillStanding(h, n, k, r.runningSince.value);
    }
  }

  lemma FailingKeeps(r: Relay, h: seq<Note>, now: Time, at: Time)
    requires Consistent(r, h, now) && now <= at && r.nextTry <= at
    ensures var (after, note) := Failing(r, at); Consistent(after, h + [note], at)
  {
    var (after, note) := Failing(r, at);
    BackoffIsCappedDoubling(r.failures + 1);
    Appended(h, note);
    AppendKeepsOrder(h, note);
    AppendKeepsWaiting(h, note, r.nextTry, now, after.nextTry, at);
  }

  lemma AttemptKeeps(r: Relay, h: seq<Note>, now: Time, at: Time)
    requires Consistent(r, h, now) && now <= at && r.nextTry <= at
    ensures Consistent(r, h + [Attempted(at)], at)
  {
    Appended(h, Attempted(at));
    AppendKeepsOrder(h, Attempted(at));
    AppendKeepsWaiting(h, Attempted(at), r.nextTry, now, r.nextTry, at);
    AppendKeepsRunning(r, h, Attempted(at));
  }

  lemma StartedKeeps(r: Relay, h: seq<Note>, now: Time, at: Time)
    requires Consistent(r, h, now) && now <= at && r.nextTry <= now
    ensures Consistent(r.(nextTry := 0, runningSince := Some(at)), h + [Started(at)], at)
  {
    Appended(h, Started(at));
    AppendKeepsOrder(h, Started(at));
    AppendKeepsWaiting(h, Started(at), r.nextTry, now, 0, at);
    assert StandingStart(h + [Started(at)], |h|, at);
  }

  lemma ProvenIsEarned(h: seq<Note>, k: nat, since: Time, at: Time)
    requires Orderly(h) && StandingStart(h, k, since) && at - since >= MIN_HEALTHY
    ensures Orderly(h + [Proven(at)])
  {
    assert StandingStart(h, k, h[k].at);
    AppendKeepsRespect(h, Proven(at));
    Appended(h, Proven(at));
    AppendKeepsResets(h, Proven(at));
  }

  lemma ProvenKeeps(r: Relay, h: seq<Note>, now: Time, at: Time)
    requires Consistent(r, h, now) && now <= at && Healthy(r, at)
    ensures Consistent(r.(failures := 0, nextTry := 0), h + [Proven(at)], at)
  {
    var k: nat :| StandingStart(h, k, r.runningSince.value);
    ProvenIsEarned(h, k, r.runningSince.value, at);
    Appended(h, Proven(at));
    AppendKeepsWaiting(h, Proven(at), r.nextTry, now, 0, at);
    AppendKeepsRunning(r, h, Proven(at));
  }

  lemma LaterKeeps(r: Relay, h: seq<Note>, now: Time, at: Time)
    requires Consistent(r, h, now) && now <= at
    ensures Consistent(r, h, at) && h + [] == h
  {
  }

  lemma AttemptThen(r: Relay, h: seq<Note>, now: Time, o: Observation)
    requires Consistent(r, h, now) && now <= o.checked <= o.finished && r.nextTry <= o.checked
    ensures o.starts ==> Consistent(r.(nextTry := 0, runningSince := Some(o.finished)), h + [Attempted(o.checked), Started(o.finished)], o.finished)
    ensures !o.starts ==> Consistent(Failing(r, o.finished).0, h + [Attempted(o.checked), Failing(r, o.finished).1], o.finished)
  {
    var g := h + [Attempted(o.checked)];
    AttemptKeeps(r, h, now, o.checked);
    if o.starts {
      StartedKeeps(r, g, o.checked, o.finished);
      assert h + [Attempted(o.checked), Started(o.finished)] == g + [Started(o.finished)];
    } else {
      FailingKeeps(r, g, o.checked, o.finished);
      assert h + [Attempted(o.checked), Failing(r, o.finished).1] == g + [Failing(r, o.finished).1];
    }
  }

  lemma ContinueKeeps(r: Relay, h: seq<Note>, now: Time, o: Observation)
    requires Consistent(r, h, now) && now <= o.found <= o.checked <= o.finished
    ensures Consistent(Continue(r, o).0, h + Continue(r, o).1, o.finished)
  {
    LaterKeeps(r, h, now, o.finished);
    if o.existing && Healthy(r, o.found) {
      ProvenKeeps(r, h, now, o.found);
      LaterKeeps(r.(failures := 0, nextTry := 0), h + [Proven(o.found)], o.found, o.finished);
    } else if !o.existing && o.checked >= r.nextTry {
      AttemptThen(r, h, now, o);
    }
  }

  lemma ReconcileKeeps(r: Relay, h: seq<Note>, now: Time, o: Observation)
    requires Consistent(r, h, now) && InOrder(now, o)
    ensures Consistent(Reconcile(r, o).0, h + Reconcile(r, o).1, o.finished)
  {
    if o.snapshot.Dead? && r.runningSince.Some? && o.examined - r.runningSince.value < MIN_HEALTHY {
      FailingKeeps(r, h, now, o.found);
    } else if o.snapshot.Dead? {
      ContinueKeeps(r.(runningSince := None), h, now, o);
    } else {
      ContinueKeeps(r, h, now, o);
    }
  }

  lemma NewIsConsistent(now: Time)
    ensures Consistent(NEW_RELAY, [], now)
  {
  }

  lemma {:induction false} PlayKeeps(r: Relay, h: seq<Note>, now: Time, run: seq<Observation>) returns (end: Time)
    requires Consistent(r, h, now) && Clocked(now, run)
    ensures Consistent(Play(r, h, run).0, Play(r, h, run).1, end)
    ensures Orderly(Play(r, h, run).1)
    decreases |run|
  {
    end := now;
    if run != [] {
      var (after, notes) := Reconcile(r, run[0]);
      ReconcileKeeps(r, h, now, run[0]);
      end := PlayKeeps(after, h + notes, run[0].finished, run[1..]);
    }
  }

  /**
    For a stream wanted in every reconciliation, whatever viewers start or stop meanwhile:
    no start is attempted before any recorded failure plus its backoff; each backoff is
    min(30 s * 2^(n-1), 600 s) for the n-th failure in a row; and the row ends only when a relay
    started since the last failure was observed at least two minutes later.
   */
  lemma RetriesRespectTheBackoff(from: Time, run: seq<Observation>)
    requires Clocked(from, run)
    ensures Orderly(Play(NEW_RELAY, [], run).1)
  {
    NewIsConsistent(from);
    var end := PlayKeeps(NEW_RELAY, [], from, run);
  }

  // ---- which streams are wanted --------------------------------------------

  function MaxRelays(slots: nat, relayOnly: bool): nat {
    var n := if relayOnly then slots else slots - 1;
    if n < 1 then 1 else n
  }

  /** The first `n` of the streams, as a set. */
  function First(streams: seq<int>, n: nat): set<int>
    requires n <= |streams|
  {
    set k | 0 <= k < n :: streams[k]
  }

  predicate Distinct(streams: seq<int>) {
    forall i, j :: 0 <= i < j < |streams| ==> streams[i] != streams[j]
  }

  lemma OneMore(streams: seq<int>, i: nat)
    requires i < |streams|
    ensures First(streams, i + 1) == First(streams, i) + {streams[i]}
  {
  }

  lemma {:induction false} FirstCount(streams: seq<int>, n: nat)
    requires n <= |streams| && Distinct(streams)
    ensures |First(streams, n)| == n
    decreases n
  {
    if n > 0 {
      FirstCount(streams, n - 1);
      OneMore(streams, n - 1);
      assert streams[n - 1] !in First(streams, n - 1);
    }
  }

  lemma FirstMembers(streams: seq<int>, n: nat)
    requires n <= |streams| && Distinct(streams)
    ensures forall i :: 0 <= i < |streams| ==> (streams[i] in First(streams, n) <==> i < n)
  {
  }

  lemma OneMoreRefused(streams: seq<int>, n: nat, i: nat)
    requires n <= i < |streams|
    ensures streams[n..i + 1] == streams[n..i] + [streams[i]]
  {
  }

  /** The loop that picks the wanted streams; the rest are reported as having no slot. */
  method PickWanted(streams: seq<int>, slots: nat, relayOnly: bool) returns (want: set<int>, refused: seq<int>)
    requires Distinct(streams)
    ensures var most := if relayOnly then slots else slots - 1;
            |want| == if |streams| <= most then |streams| else if most >= 1 then most else if |streams| == 0 then 0 else 1
    ensures forall i :: 0 <= i < |streams| ==> (streams[i] in want <==> i < |want|)
    ensures |want| <= |streams| && refused == streams[|want|..]
  {
    var maxRelays := slots - 1;
    if relayOnly {
      maxRelays := slots;
    }
    if maxRelays < 1 {
      maxRelays := 1;
    }
    want, refused := PickFirst(streams, maxRelays);
    FirstMembers(streams, |want|);
  }

  method PickFirst(streams: seq<int>, maxRelays: nat) returns (want: set<int>, refused: seq<int>)
    requires Distinct(streams)
    ensures var n := Min(|streams|, maxRelays);
            want == First(streams, n) && |want| == n && refused == streams[n..]
  {
    want, refused := {}, [];
    ghost var n: nat := 0;
    for i := 0 to |streams|
      invariant n == Min(i, maxRelays) && want == First(streams, n) && refused == streams[n..i]
    {
      FirstCount(streams, n);
      if |want| >= maxRelays {
        OneMoreRefused(streams, n, i);
        refused := refused + [streams[i]];
      } else {
        OneMore(streams, i);
        want, n := want + {streams[i]}, n + 1;
      }
    }
    FirstCount(streams, n);
  }
}

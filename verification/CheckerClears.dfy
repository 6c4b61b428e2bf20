/**
  When a clear of the "scan now" flag loses a request, told by what happened while the scan of
  the clearing process ran, over every run of the checker protocol that keeps exclusion.
 */
module CheckerClears {
  import opened Common
  import opened CheckerProtocol

  /** The scan of `p` that began at `b` is the last one the log shows. */
  ghost predicate LastScan(log: seq<Entry>, p: Pid, b: nat) {
    b < |log| && log[b] == Began(p) && forall i :: b < i < |log| ==> !log[i].Began?
  }

  ghost predicate EndedAfter(log: seq<Entry>, p: Pid, b: nat) {
    exists k :: b < k < |log| && log[k].Ended? && log[k].pid == p
  }

  ghost predicate ClickedAfter(log: seq<Entry>, b: nat) {
    exists i :: b < i < |log| && log[i].Clicked?
  }

  /** A process past the start of its scan owns the last scan of the log. */
  ghost predicate OwnsLastScan(log: seq<Entry>, p: Pid, pc: Pc) {
    pc.Holding? && !pc.stage.Locked? ==>
      exists b: nat :: LastScan(log, p, b) && (pc.stage.Scanned? ==> EndedAfter(log, p, b))
  }

  ghost predicate ScansValid(s: State) {
    forall p :: OwnsLastScan(s.log, p, PcOf(s, p))
  }

  lemma LaterEntryKeepsScan(log: seq<Entry>, e: Entry, p: Pid, b: nat)
    requires LastScan(log, p, b)
    ensures !e.Began? ==> LastScan(log + [e], p, b)
    ensures EndedAfter(log, p, b) ==> EndedAfter(log + [e], p, b)
    ensures e.Ended? && e.pid == p ==> EndedAfter(log + [e], p, b)
  {
    var after := log + [e];
    if EndedAfter(log, p, b) {
      var k :| b < k < |log| && log[k].Ended? && log[k].pid == p;
      assert after[k] == log[k];
    }
    assert after[|log|] == e;
  }

  lemma LaterEntryKeepsOwner(log: seq<Entry>, e: Entry, p: Pid, pc: Pc)
    requires OwnsLastScan(log, p, pc) && !e.Began?
    ensures OwnsLastScan(log + [e], p, pc)
    ensures e.Ended? && e.pid == p && pc.Holding? && pc.stage.Scanning? ==> OwnsLastScan(log + [e], p, pc.(stage := Scanned))
  {
    if pc.Holding? && !pc.stage.Locked? {
      var b: nat :| LastScan(log, p, b) && (pc.stage.Scanned? ==> EndedAfter(log, p, b));
      LaterEntryKeepsScan(log, e, p, b);
    }
  }

  /** A new scan takes the place of the last one: no other process holds the lock. */
  lemma BeginKeepsScans(s: State, p: Pid)
    requires ScansValid(s) && OneHolder(s) && Enabled(s, BeginScan(p))
    ensures ScansValid(Next(s, BeginScan(p)))
  {
    var t := Next(s, BeginScan(p));
    OthersStay(s, BeginScan(p));
    assert LastScan(t.log, p, |s.log|);
  }

  lemma NextKeepsScans(s: State, e: Event)
    requires ScansValid(s) && OneHolder(s) && Enabled(s, e)
    ensures ScansValid(Next(s, e))
  {
    if e.BeginScan? {
      BeginKeepsScans(s, e.pid);
    } else {
      var t := Next(s, e);
      OthersStay(s, e);
      forall p ensures OwnsLastScan(t.log, p, PcOf(t, p)) {
        assert OwnsLastScan(s.log, p, PcOf(s, p));
        if Logged(e).Some? {
          LaterEntryKeepsOwner(s.log, Logged(e).value, p, PcOf(s, p));
        }
      }
    }
  }

  ghost predicate Valid(s: State) {
    LockValid(s) && ScansValid(s)
  }

  lemma NextKeepsValid(s: State, e: Event)
    requires Valid(s) && Enabled(s, e) && !StealsHeldRow(s, e)
    ensures Valid(Next(s, e))
  {
    StepEndsExclusionExactly(s, e);
    NextKeepsScans(s, e);
  }

  // ---- one clear -----------------------------------------------------------

  lemma {:induction false} NewestClick(log: seq<Entry>, n: nat, b: nat) returns (i: nat)
    requires b < n <= |log| && exists j :: b < j < n && log[j].Clicked?
    ensures b < i < n && log[i].Clicked? && forall j :: i < j < n ==> !log[j].Clicked?
    decreases n
  {
    i := n - 1;
    if !log[i].Clicked? {
      i := NewestClick(log, n - 1, b);
    }
  }

  /** A click after the start of the last scan is followed by no other scan. */
  lemma ClickAfterIsUnscanned(log: seq<Entry>, p: Pid, b: nat) returns (i: nat)
    requires LastScan(log, p, b) && ClickedAfter(log, b)
    ensures b < i < |log| && log[i].Clicked? && !Overwritten(log, i) && !ScannedSince(log, i)
  {
    i := NewestClick(log, |log|, b);
  }

  lemma ClickBeforeIsScanned(log: seq<Entry>, p: Pid, b: nat, i: nat)
    requires LastScan(log, p, b) && EndedAfter(log, p, b) && i < b
    ensures ScannedSince(log, i)
  {
    var k :| b < k < |log| && log[k].Ended? && log[k].pid == p;
    assert ScanAt(log, b, k);
  }

  lemma ClearFromLosesExactly(s: State, p: Pid, b: nat)
    requires AllAccounted(s) && Enabled(s, ClearIfUnchanged(p))
    requires LastScan(s.log, p, b) && EndedAfter(s.log, p, b)
    ensures AllAccounted(Next(s, ClearIfUnchanged(p))) <==> s.flag != PcOf(s, p).seen || !ClickedAfter(s.log, b)
  {
    var t := Next(s, ClearIfUnchanged(p));
    if s.flag != PcOf(s, p).seen {
      assert t == s;
    } else if ClickedAfter(s.log, b) {
      var i := ClickAfterIsUnscanned(s.log, p, b);
      assert !Accounted(t, i);
    } else {
      forall i | 0 <= i < |t.log| && t.log[i].Clicked? ensures Accounted(t, i) {
        ClickBeforeIsScanned(s.log, p, b, i);
      }
    }
  }

  // ---- runs ----------------------------------------------------------------

  lemma {:induction false} RunKeepsValid(s: State, events: seq<Event>, timely: bool)
    requires Valid(s) && Runs(s, events, timely) && NeverStolen(s, events)
    ensures Valid(After(s, events, timely))
    decreases |events|
  {
    if events != [] {
      NextKeepsValid(s, events[0]);
      RunKeepsValid(Next(s, events[0]), events[1..], timely);
    }
  }

  /**
    In a run that keeps exclusion a clear by `p` loses a request exactly if the flag still holds
    the value `p` read and somebody clicked after the scan of `p` began, at `b` of the log.
   */
  lemma ClearLosesExactly(events: seq<Event>, timely: bool, p: Pid) returns (b: nat)
    requires Runs(INITIAL, events, timely) && NeverStolen(INITIAL, events)
    requires Enabled(After(INITIAL, events, timely), ClearIfUnchanged(p)) && AllAccounted(After(INITIAL, events, timely))
    ensures var s := After(INITIAL, events, timely);
            && LastScan(s.log, p, b)
            && (AllAccounted(Next(s, ClearIfUnchanged(p))) <==>
                s.flag != PcOf(s, p).seen || forall i :: b < i < |s.log| ==> !s.log[i].Clicked?)
  {
    var s := After(INITIAL, events, timely);
    RunKeepsValid(INITIAL, events, timely);
    assert OwnsLastScan(s.log, p, PcOf(s, p));
    b :| LastScan(s.log, p, b) && EndedAfter(s.log, p, b);
    ClearFromLosesExactly(s, p, b);
  }

  /** The step clears a flag that holds the value its process read, although somebody clicked during the scan. */
  ghost predicate ClearsLateClick(s: State, e: Event) {
    && e.ClearIfUnchanged? && Enabled(s, e) && s.flag == PcOf(s, e.pid).seen
    && exists b: nat :: LastScan(s.log, e.pid, b) && ClickedAfter(s.log, b)
  }

  lemma StepLosesExactly(s: State, e: Event)
    requires Valid(s) && AllAccounted(s) && Enabled(s, e)
    ensures AllAccounted(Next(s, e)) <==> !ClearsLateClick(s, e)
  {
    if e.ClearIfUnchanged? {
      assert OwnsLastScan(s.log, e.pid, PcOf(s, e.pid));
      var b: nat :| LastScan(s.log, e.pid, b) && EndedAfter(s.log, e.pid, b);
      ClearFromLosesExactly(s, e.pid, b);
      assert forall c: nat :: LastScan(s.log, e.pid, c) ==> c == b;
    } else {
      OtherStepsKeepAccounted(s, e);
    }
  }

  /** At every moment of the run each click is pending, overwritten or scanned. */
  ghost predicate AlwaysAccounted(s: State, events: seq<Event>)
    decreases |events|
  {
    AllAccounted(s) && (events != [] && Enabled(s, events[0]) ==> AlwaysAccounted(Next(s, events[0]), events[1..]))
  }

  ghost predicate NeverClearsLateClick(s: State, events: seq<Event>)
    decreases |events|
  {
    events != [] && Enabled(s, events[0]) ==>
      !ClearsLateClick(s, events[0]) && NeverClearsLateClick(Next(s, events[0]), events[1..])
  }

  lemma {:induction false} LossFromExactly(s: State, events: seq<Event>, timely: bool)
    requires Valid(s) && AllAccounted(s) && Runs(s, events, timely) && NeverStolen(s, events)
    ensures AlwaysAccounted(s, events) <==> NeverClearsLateClick(s, events)
    decreases |events|
  {
    if events != [] {
      StepLosesExactly(s, events[0]);
      NextKeepsValid(s, events[0]);
      if !ClearsLateClick(s, events[0]) {
        LossFromExactly(Next(s, events[0]), events[1..], timely);
      }
    }
  }

  /** A run that keeps exclusion loses a request exactly if some clear of it takes a click made during its own scan. */
  lemma RequestsAreLostExactly(events: seq<Event>, timely: bool)
    requires Runs(INITIAL, events, timely) && NeverStolen(INITIAL, events)
    ensures AlwaysAccounted(INITIAL, events) <==> NeverClearsLateClick(INITIAL, events)
  {
    LossFromExactly(INITIAL, events, timely);
  }
}

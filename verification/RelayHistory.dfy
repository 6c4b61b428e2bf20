/**
  The always-on supervisor told by its history: what a reconciliation does follows from the notes of
  the earlier ones and from what they saw, without the fields the supervisor keeps.
 */
module RelayHistory {
  import opened Common
  import opened AlwaysOn

  /** Until when the last failure holds off the next try; a start or a proof of health ends the wait. */
  function DueAt(h: seq<Note>): Time {
    if h == [] then 0 else
    match h[|h| - 1]
    case Failed(at, backoff) => at + backoff
    case Started(_) => 0
    case Proven(_) => 0
    case Attempted(_) => DueAt(h[..|h| - 1])
  }

  /** The notes of the reconciliation that sees `o` after `run`. */
  function NotesAfter(run: seq<Observation>, o: Observation): seq<Note> {
    Reconcile(Play(NEW_RELAY, [], run).0, o).1
  }

  function LastNote(notes: seq<Note>): Option<Note> {
    if notes == [] then None else Some(notes[|notes| - 1])
  }

  /** A start begins a life and a failure ends it, and so does a death that was seen, unless a start followed. */
  function SinceAfter(since: Option<Time>, o: Observation, last: Option<Note>): Option<Time> {
    if last.Some? && last.value.Started? then Some(last.value.at)
    else if (last.Some? && last.value.Failed?) || o.snapshot.Dead? then None
    else since
  }

  /** Since when the relay is known to run. */
  function Since(run: seq<Observation>): Option<Time> {
    if run == [] then None else
    var before, o := run[..|run| - 1], run[|run| - 1];
    SinceAfter(Since(before), o, LastNote(NotesAfter(before, o)))
  }

  lemma {:induction false} OneMoreObservation(r: Relay, h: seq<Note>, run: seq<Observation>, o: Observation)
    ensures var (after, g) := Play(r, h, run);
            Play(r, h, run + [o]) == (Reconcile(after, o).0, g + Reconcile(after, o).1)
    decreases |run|
  {
    if run == [] {
      assert [] + [o] == [o] && [o][1..] == [];
    } else {
      assert (run + [o])[1..] == run[1..] + [o];
      var (after, notes) := Reconcile(r, run[0]);
      OneMoreObservation(after, h + notes, run[1..], o);
    }
  }

  lemma NotedTwice(h: seq<Note>, a: Note, b: Note)
    ensures h + [a, b] == h + [a] + [b]
  {
  }

  lemma OneNote(h: seq<Note>, n: Note)
    ensures DueAt(h + [n]) == match n case Failed(at, backoff) => at + backoff case Attempted(_) => DueAt(h) case _ => 0
    ensures Streak(h + [n]) == if n.Proven? then 0 else if n.Failed? then Streak(h) + 1 else Streak(h)
  {
    assert (h + [n])[..|h|] == h;
  }

  /** The fields the supervisor keeps are what the history says. */
  ghost predicate Remembers(r: Relay, h: seq<Note>, since: Option<Time>) {
    r.failures == Streak(h) && r.nextTry == DueAt(h) && r.runningSince == since
  }

  /** The relay was found dead less than two minutes after its start. */
  predicate DiedEarly(since: Option<Time>, o: Observation) {
    o.snapshot.Dead? && since.Some? && o.examined - since.value < 120_000_000_000
  }

  lemma FailureIsRemembered(r: Relay, h: seq<Note>, at: Time)
    requires r.failures == Streak(h)
    ensures var (after, note) := Failing(r, at); Remembers(after, h + [note], None)
  {
    OneNote(h, Failing(r, at).1);
  }

  lemma AttemptIsRemembered(r: Relay, h: seq<Note>, since: Option<Time>, o: Observation)
    requires Remembers(r, h, since)
    ensures Remembers(r.(nextTry := 0, runningSince := Some(o.finished)), h + [Attempted(o.checked), Started(o.finished)], Some(o.finished))
    ensures var (after, note) := Failing(r, o.finished); Remembers(after, h + [Attempted(o.checked), note], None)
  {
    var g, note := h + [Attempted(o.checked)], Failing(r, o.finished).1;
    OneNote(h, Attempted(o.checked));
    OneNote(g, Started(o.finished));
    NotedTwice(h, Attempted(o.checked), Started(o.finished));
    FailureIsRemembered(r, g, o.finished);
    NotedTwice(h, Attempted(o.checked), note);
  }

  lemma ExistingIsRemembered(r: Relay, h: seq<Note>, since: Option<Time>, o: Observation)
    requires Remembers(r, h, since) && o.existing
    ensures var (after, notes) := Continue(r, o); Remembers(after, h + notes, since)
    ensures LastNote(Continue(r, o).1) == if Healthy(r, o.found) then Some(Proven(o.found)) else None
  {
    OneNote(h, Proven(o.found));
    assert h + [] == h;
  }

  lemma TryIsRemembered(r: Relay, h: seq<Note>, since: Option<Time>, o: Observation)
    requires Remembers(r, h, since) && !o.existing
    ensures var (after, notes) := Continue(r, o);
            && (notes == [] ==> Remembers(after, h + notes, since))
            && (notes != [] && o.starts ==> Remembers(after, h + notes, Some(o.finished)) && LastNote(notes) == Some(Started(o.finished)))
            && (notes != [] && !o.starts ==> Remembers(after, h + notes, None) && LastNote(notes).Some? && LastNote(notes).value.Failed?)
  {
    AttemptIsRemembered(r, h, since, o);
    assert h + [] == h;
  }

  lemma ContinueRemembers(r: Relay, h: seq<Note>, since: Option<Time>, o: Observation)
    requires Remembers(r, h, since) && (o.snapshot.Dead? ==> since.None?)
    ensures var (after, notes) := Continue(r, o); Remembers(after, h + notes, SinceAfter(since, o, LastNote(notes)))
  {
    if o.existing {
      ExistingIsRemembered(r, h, since, o);
    } else {
      TryIsRemembered(r, h, since, o);
    }
  }

  lemma ForgetIsRemembered(r: Relay, h: seq<Note>, since: Option<Time>)
    requires Remembers(r, h, since)
    ensures Remembers(r.(runningSince := None), h, None)
  {
  }

  /** A death seen wipes out what was known before. */
  lemma DeathWipes(since: Option<Time>, o: Observation, last: Option<Note>)
    requires o.snapshot.Dead?
    ensures SinceAfter(since, o, last) == SinceAfter(None, o, last)
  {
  }

  lemma ReconcileRemembers(r: Relay, h: seq<Note>, since: Option<Time>, o: Observation)
    requires Remembers(r, h, since)
    ensures var (after, notes) := Reconcile(r, o); Remembers(after, h + notes, SinceAfter(since, o, LastNote(notes)))
  {
    if DiedEarly(r.runningSince, o) {
      FailureIsRemembered(r, h, o.found);
    } else if o.snapshot.Dead? {
      ForgetIsRemembered(r, h, since);
      ContinueRemembers(r.(runningSince := None), h, None, o);
      DeathWipes(since, o, LastNote(Reconcile(r, o).1));
    } else {
      ContinueRemembers(r, h, since, o);
    }
  }

  lemma {:induction false} PlayRemembers(run: seq<Observation>)
    ensures var (r, h) := Play(NEW_RELAY, [], run); Remembers(r, h, Since(run))
    decreases |run|
  {
    if run != [] {
      var before, o := run[..|run| - 1], run[|run| - 1];
      PlayRemembers(before);
      var (r, h) := Play(NEW_RELAY, [], before);
      OneMoreObservation(NEW_RELAY, [], before, o);
      assert run == before + [o];
      ReconcileRemembers(r, h, Since(before), o);
    }
  }

  /** 30 s doubled for each failure in a row before this one, up to ten minutes. */
  function Delay(streak: nat): Time {
    var delay := 30_000_000_000 * Pow2(streak);
    if delay <= 600_000_000_000 then delay else 600_000_000_000
  }

  /** What a reconciliation notes, given the failures in a row, the time the next try is due and the life of the relay. */
  function Notes(streak: nat, due: Time, since: Option<Time>, o: Observation): seq<Note> {
    if DiedEarly(since, o) then [Failed(o.found, Delay(streak))]
    else if o.existing then
      if !o.snapshot.Dead? && since.Some? && o.found - since.value >= 120_000_000_000 then [Proven(o.found)] else []
    else if o.checked < due then []
    else if o.starts then [Attempted(o.checked), Started(o.finished)]
    else [Attempted(o.checked), Failed(o.finished, Delay(streak))]
  }

  lemma BackoffIsDelay(failures: nat)
    ensures Backoff(failures + 1) == Delay(failures)
  {
    BackoffIsCappedDoubling(failures + 1);
  }

  lemma ReconcileNotes(r: Relay, o: Observation)
    ensures Reconcile(r, o).1 == Notes(r.failures, r.nextTry, r.runningSince, o)
  {
    BackoffIsDelay(r.failures);
  }

  /**
    A reconciliation follows the history. An early death is a failure. A session that exists resets
    the row of failures exactly if it was not found dead and has run for two minutes. Without a session
    a start is tried exactly if the last failure's delay is over, and a failed try is a failure.
   */
  lemma ReconciliationFollowsHistory(run: seq<Observation>, o: Observation)
    ensures var h := Play(NEW_RELAY, [], run).1;
            NotesAfter(run, o) == Notes(Streak(h), DueAt(h), Since(run), o)
  {
    PlayRemembers(run);
    ReconcileNotes(Play(NEW_RELAY, [], run).0, o);
  }
}

/** One scan run: when it may call itself complete, and what one hit may revoke. */
module Scanner {
  import opened Common
  import LeakDatabase
  import LeakSafety
  import Matcher

  /** GitHub's answer to one search, and how recording each of its hits ended. */
  datatype Answer =
    | Failed(rateLimited: bool, exhausted: bool)
    | Results(incomplete: bool, exhausted: bool, recorded: seq<bool>)

  /** What happens during a run: the k-th search, cancellation, and the bookkeeping of sources. */
  datatype World = World(
    answer: nat -> Answer,
    cancelled: nat -> bool,            // before the i-th access point
    touched: (nat, nat) -> bool,       // last_scanned_at of source j, at access point i
    stopsWhenExhausted: bool)          // MaxRateWait == 0

  datatype RunError = LoadFailed | ContextDone | StoppedEarly | PartialCoverage

  datatype Summary = Summary(checked: nat, queries: nat, err: Option<RunError>)

  /** The search worked, was complete, and every hit was recorded and responded to. */
  predicate Perfect(w: World, k: nat) {
    var a := w.answer(k);
    a.Results? && !a.incomplete && !(a.exhausted && w.stopsWhenExhausted) && forall r :: 0 <= r < |a.recorded| ==> a.recorded[r]
  }

  predicate AllPerfect(w: World, from: nat, to: nat) {
    forall k :: from <= k < to ==> Perfect(w, k)
  }

  function Qualified(sources: seq<bool>): nat {
    if sources == [] then 0 else Qualified(sources[..|sources| - 1]) + (if sources[|sources| - 1] then 1 else 0)
  }

  datatype Tally = Tally(queryErrors: nat, incomplete: nat, recordErrors: nat)

  function Faults(t: Tally): nat {
    t.queryErrors + t.incomplete + t.recordErrors
  }

  method RecordAll(recorded: seq<bool>, before: nat) returns (errors: nat)
    ensures errors >= before
    ensures errors == before <==> forall r :: 0 <= r < |recorded| ==> recorded[r]
  {
    errors := before;
    for r := 0 to |recorded|
      invariant errors >= before
      invariant errors == before <==> forall q :: 0 <= q < r ==> recorded[q]
    {
      if !recorded[r] {
        errors := errors + 1;
      }
    }
  }

  /** One search and its hits. */
  method OneSearch(w: World, k: nat, before: Tally) returns (stop: bool, tally: Tally)
    ensures Faults(tally) >= Faults(before)
    ensures !stop && Faults(tally) == Faults(before) <==> Perfect(w, k)
  {
    tally := before;
    var a := w.answer(k);
    if a.Failed? {
      if a.rateLimited {
        return true, tally;
      }
      tally := tally.(queryErrors := tally.queryErrors + 1);
      return a.exhausted && w.stopsWhenExhausted, tally;
    }
    if a.incomplete {
      tally := tally.(incomplete := tally.incomplete + 1);
    }
    var errors := RecordAll(a.recorded, tally.recordErrors);
    tally := tally.(recordErrors := errors);
    stop := a.exhausted && w.stopsWhenExhausted;
  }

  /** searchAndRecord: one code search, one issue search, one pull-request search. */
  method SearchAndRecord(w: World, made: nat, before: Tally) returns (stop: bool, queries: nat, tally: Tally)
    ensures Faults(tally) >= Faults(before)
    ensures !stop ==> queries == made + 3
    ensures !stop && Faults(tally) == Faults(before) <==> AllPerfect(w, made, made + 3)
  {
    stop, tally := OneSearch(w, made, before);
    queries := made + 1;
    if stop {
      return;
    }
    var kinds := 0;
    while kinds < 2
      invariant kinds <= 2 && queries == made + 1 + kinds
      invariant Faults(tally) >= Faults(before)
      invariant Faults(tally) == Faults(before) <==> AllPerfect(w, made, queries)
    {
      stop, tally := OneSearch(w, queries, tally);
      queries := queries + 1;
      if stop {
        return;
      }
      kinds := kinds + 1;
    }
  }

  /** Everything went right from query 0 on, for `points` access points and the given sources. */
  ghost predicate Complete(w: World, points: nat, sources: seq<bool>, queries: nat) {
    && AllPerfect(w, 0, queries)
    && (forall i :: 0 <= i < points ==> !w.cancelled(i))
    && (forall i, j :: 0 <= i < points && 0 <= j < |sources| && sources[j] ==> w.touched(i, j))
  }

  lemma CompleteMeans(w: World, points: nat, sources: seq<bool>, queries: nat)
    ensures Complete(w, points, sources, queries) <==>
              && (forall i :: 0 <= i < points ==> !w.cancelled(i))
              && (forall i, j :: 0 <= i < points && 0 <= j < |sources| && sources[j] ==> w.touched(i, j))
              && forall k :: 0 <= k < queries ==>
                   && w.answer(k).Results? && !w.answer(k).incomplete && !(w.answer(k).exhausted && w.stopsWhenExhausted)
                   && forall r :: 0 <= r < |w.answer(k).recorded| ==> w.answer(k).recorded[r]
  {
    forall k: nat ensures Perfect(w, k) <==>
                     && w.answer(k).Results? && !w.answer(k).incomplete && !(w.answer(k).exhausted && w.stopsWhenExhausted)
                     && forall r :: 0 <= r < |w.answer(k).recorded| ==> w.answer(k).recorded[r]
    {
    }
  }

  /** The loop over the sources for access point `i`. */
  method ScanSources(w: World, i: nat, sources: seq<bool>, made: nat, before: Tally) returns (stop: bool, queries: nat, tally: Tally)
    ensures Faults(tally) >= Faults(before)
    ensures !stop ==> queries == made + 3 * Qualified(sources)
    ensures !stop && Faults(tally) == Faults(before) <==>
              AllPerfect(w, made, made + 3 * Qualified(sources)) && forall j :: 0 <= j < |sources| && sources[j] ==> w.touched(i, j)
  {
    stop, queries, tally := false, made, before;
    for j := 0 to |sources|
      invariant queries == made + 3 * Qualified(sources[..j])
      invariant Faults(tally) >= Faults(before)
      invariant Faults(tally) == Faults(before) <==>
                  AllPerfect(w, made, queries) && forall q :: 0 <= q < j && sources[q] ==> w.touched(i, q)
    {
      QualifiedStep(sources, j);
      if sources[j] {
        stop, queries, tally := SearchAndRecord(w, queries, tally);
        if stop {
          return;
        }
        if !w.touched(i, j) {
          tally := tally.(recordErrors := tally.recordErrors + 1);
        }
      }
    }
    assert sources[..|sources|] == sources;
  }

  /** The sources that are searched are those that qualify. */
  lemma {:induction false} QualifiedCounts(sources: seq<bool>)
    ensures Qualified(sources) == |set j | 0 <= j < |sources| && sources[j]|
    decreases |sources|
  {
    if sources != [] {
      var n := |sources| - 1;
      QualifiedCounts(sources[..n]);
      var before, after := set j | 0 <= j < n && sources[..n][j], set j | 0 <= j < |sources| && sources[j];
      assert after == if sources[n] then before + {n} else before;
    }
  }

  lemma QualifiedStep(sources: seq<bool>, j: nat)
    requires j < |sources|
    ensures Qualified(sources[..j + 1]) == Qualified(sources[..j]) + (if sources[j] then 1 else 0)
    ensures Qualified(sources[..j + 1]) <= Qualified(sources)
  {
    assert sources[..j + 1][..j] == sources[..j];
    QualifiedGrows(sources, j + 1);
  }

  lemma {:induction false} QualifiedGrows(sources: seq<bool>, j: nat)
    requires j <= |sources|
    ensures Qualified(sources[..j]) <= Qualified(sources)
    decreases |sources| - j
  {
    if j < |sources| {
      assert sources[..j + 1][..j] == sources[..j];
      QualifiedGrows(sources, j + 1);
    } else {
      assert sources[..j] == sources;
    }
  }

  /**
    Run. It returns no error exactly when it made 3 * access points * (1 + qualified sources)
    searches and every one of them worked, was complete, and had all its hits recorded.
   */
  method Run(w: World, loads: bool, points: nat, sources: seq<bool>) returns (sum: Summary)
    ensures sum.err.None? <==>
              && loads && (forall i :: 0 <= i < points ==> !w.cancelled(i))
              && (forall i, j :: 0 <= i < points && 0 <= j < |sources| && sources[j] ==> w.touched(i, j))
              && forall k :: 0 <= k < 3 * (points * (1 + Qualified(sources))) ==>
                   && w.answer(k).Results? && !w.answer(k).incomplete && !(w.answer(k).exhausted && w.stopsWhenExhausted)
                   && forall r :: 0 <= r < |w.answer(k).recorded| ==> w.answer(k).recorded[r]
    ensures sum.err.None? ==> sum.queries == 3 * (points * (1 + Qualified(sources))) && sum.checked == points
  {
    sum := Summary(0, 0, None);
    CompleteMeans(w, points, sources, 3 * (points * (1 + Qualified(sources))));
    if !loads {
      return sum.(err := Some(LoadFailed));
    }
    var tally := Tally(0, 0, 0);
    ghost var perPoint := 1 + Qualified(sources);
    for i := 0 to points
      invariant sum.err.None? && sum.checked == i
      invariant sum.queries == 3 * (i * perPoint)
      invariant Faults(tally) == 0 <==>
                  && AllPerfect(w, 0, sum.queries)
                  && (forall p, j :: 0 <= p < i && 0 <= j < |sources| && sources[j] ==> w.touched(p, j))
      invariant forall p :: 0 <= p < i ==> !w.cancelled(p)
    {
      EarlierPoints(i, points, perPoint);
      if w.cancelled(i) {
        return sum.(err := Some(ContextDone));
      }
      sum := sum.(checked := sum.checked + 1);
      ghost var made := sum.queries;
      var stop, queries;
      stop, queries, tally := SearchAndRecord(w, sum.queries, tally);
      sum := sum.(queries := queries);
      if stop {
        return sum.(err := Some(StoppedEarly));
      }
      stop, queries, tally := ScanSources(w, i, sources, sum.queries, tally);
      sum := sum.(queries := queries);
      if stop {
        return sum.(err := Some(StoppedEarly));
      }
    }
    if Faults(tally) > 0 {
      sum := sum.(err := Some(PartialCoverage));
    }
  }

  lemma EarlierPoints(i: nat, points: nat, perPoint: nat)
    requires i < points
    ensures (i + 1) * perPoint == i * perPoint + perPoint
    ensures i * perPoint + perPoint <= points * perPoint
  {
    assert points * perPoint == (i + 1) * perPoint + (points - i - 1) * perPoint;
  }

  // ---- one hit -------------------------------------------------------------

  /**
    recordIfMatch and respond: whatever other processes do between the two transactions, the
    only credential the response can revoke is the one the text gave away, or the access point
    itself when its address is the credential.
   */
  lemma OneHitRevokesWhatTheTextGaveAway(
    ap: Matcher.AccessPoint, baseURL: string, text: string, sha256: string -> string,
    db: LeakDatabase.Database, source: string, url: string, rows: LeakDatabase.Reads,
    others: seq<LeakDatabase.Event>, incident: LeakDatabase.Id, u: LeakDatabase.Target)
    requires forall s :: |sha256(s)| >= 12
    requires Matcher.Classify(ap, baseURL, text, sha256).Some?
    requires var m := Matcher.Classify(ap, baseURL, text, sha256).value;
             LeakDatabase.Enabled(db, LeakDatabase.ERecord(m, source, url, rows))
             && LeakSafety.Runs(LeakDatabase.Next(db, LeakDatabase.ERecord(m, source, url, rows)), others)
    ensures var m := Matcher.Classify(ap, baseURL, text, sha256).value;
            var between := LeakSafety.After(LeakDatabase.Next(db, LeakDatabase.ERecord(m, source, url, rows)), others);
            var after := LeakDatabase.AutoRevoke(between, m, incident).0;
            LeakDatabase.Dead(after, u) && !LeakDatabase.Dead(between, u) ==>
              if ap.isPrivate then u.TokenTarget? && Matcher.GivesAway(ap, Matcher.Anchor(ap, baseURL), text, sha256, u.id)
              else u == LeakDatabase.PointTarget(ap.id)
  {
    var m := Matcher.Classify(ap, baseURL, text, sha256).value;
    LeakSafety.OneMatchRevokesOneCredential(db, m, source, url, rows, others, incident, u);
    if m.confidence.Confirmed? {
      Matcher.ConfirmedNamesOneCredential(ap, baseURL, text, sha256);
    }
  }
}

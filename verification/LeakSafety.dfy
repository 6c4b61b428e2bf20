/** What scanner, automatic revocation and operators together can never do to the database. */
module LeakSafety {
  import opened Common
  import opened LeakDatabase

  // ---- runs ----------------------------------------------------------------

  ghost predicate Runs(db: Database, events: seq<Event>)
    decreases |events|
  {
    events == [] || (Enabled(db, events[0]) && Runs(Next(db, events[0]), events[1..]))
  }

  ghost function After(db: Database, events: seq<Event>): Database
    requires Runs(db, events)
    decreases |events|
  {
    if events == [] then db else After(Next(db, events[0]), events[1..])
  }

  // ---- revocation is final, and only the named credential is touched --------

  /** The one credential a step may revoke. */
  function MayRevoke(db: Database, e: Event): Option<Target> {
    match e
    case EAutoRevoke(m, i) =>
      if m.confidence.Confirmed? && i in db.incidents && Open(db.incidents[i].status) then Some(TargetOf(m)) else None
    case ETriage(a, i, operator) =>
      if a.Confirm? && i in db.incidents && MaySee(operator, db.incidents[i]) && Allowed(a, db.incidents[i].status) then ConfirmTarget(db, i) else None
    case EOperatorRevoke(t) => Some(t)
    case _ => None
  }

  lemma RevokeOnly(db: Database, t: Target)
    ensures Alive(db, t) ==> Dead(Revoke(db, t), t)
    ensures forall u :: u != t ==> (Dead(Revoke(db, t), u) <==> Dead(db, u)) && (Alive(Revoke(db, t), u) <==> Alive(db, u))
    ensures forall u :: Dead(db, u) ==> Dead(Revoke(db, t), u)
  {
  }

  /** RecordMatch touches no credential and no existing incident. */
  lemma RecordFrame(db: Database, m: Match, source: string, url: string, rows: Reads)
    requires ValidReads(db, m, DedupeKey(source, url, m.matched), rows)
    ensures var after := RecordMatch(db, m, source, url, rows).0;
            && after.tokens == db.tokens && after.points == db.points && after.drafts == db.drafts
            && ((after.incidents == db.incidents && after.nextIncident == db.nextIncident)
                || (rows.open.None? && after.nextIncident == db.nextIncident + 1
                    && after.incidents == db.incidents[db.nextIncident := NewIncident(m, url)]))
  {
  }

  /** No other step touches a finding. */
  lemma OthersFrame(db: Database, e: Event)
    requires Enabled(db, e) && !e.ERecord?
    ensures Next(db, e).findings == db.findings && Next(db, e).nextFinding == db.nextFinding
  {
  }

  lemma AutoRevokeRevokes(db: Database, m: Match, i: Id, u: Target)
    ensures var e := EAutoRevoke(m, i);
            && (Dead(db, u) ==> Dead(Next(db, e), u))
            && (Dead(Next(db, e), u) && !Dead(db, u) ==> MayRevoke(db, e) == Some(u))
            && (MayRevoke(db, e) == Some(u) && Alive(db, u) ==> Dead(Next(db, e), u))
  {
    RevokeOnly(db, TargetOf(m));
  }

  lemma TriageRevokes(db: Database, a: Action, i: Id, operator: Operator, u: Target)
    ensures var e := ETriage(a, i, operator);
            && (Dead(db, u) ==> Dead(Next(db, e), u))
            && (Dead(Next(db, e), u) && !Dead(db, u) ==> MayRevoke(db, e) == Some(u))
            && (MayRevoke(db, e) == Some(u) && Alive(db, u) ==> Dead(Next(db, e), u))
  {
    if MayRevoke(db, ETriage(a, i, operator)).Some? {
      RevokeOnly(db, MayRevoke(db, ETriage(a, i, operator)).value);
    }
  }

  lemma StepRevokes(db: Database, e: Event, u: Target)
    requires Enabled(db, e)
    ensures Dead(db, u) ==> Dead(Next(db, e), u)
    ensures Dead(Next(db, e), u) && !Dead(db, u) ==> MayRevoke(db, e) == Some(u)
    ensures MayRevoke(db, e) == Some(u) && Alive(db, u) ==> Dead(Next(db, e), u)
  {
    match e {
      case ERecord(m, source, url, rows) => RecordFrame(db, m, source, url, rows);
      case EAutoRevoke(m, i) => AutoRevokeRevokes(db, m, i, u);
      case ETriage(a, i, operator) => TriageRevokes(db, a, i, operator, u);
      case EOperatorRevoke(target) => RevokeOnly(db, target);
      case _ =>
    }
  }

  /** A revoked token or access point stays revoked over every run. */
  lemma {:induction false} RevocationIsFinal(db: Database, events: seq<Event>, u: Target)
    requires Runs(db, events) && Dead(db, u)
    ensures Dead(After(db, events), u)
    decreases |events|
  {
    if events != [] {
      StepRevokes(db, events[0], u);
      RevocationIsFinal(Next(db, events[0]), events[1..], u);
    }
  }

  /** Recording a match and responding to it revokes at most the credential the match identified. */
  lemma OneMatchRevokesOneCredential(db: Database, m: Match, source: string, url: string, rows: Reads, others: seq<Event>, i: Id, u: Target)
    requires Enabled(db, ERecord(m, source, url, rows))
    requires Runs(Next(db, ERecord(m, source, url, rows)), others)
    ensures var db1 := Next(db, ERecord(m, source, url, rows));
            var db2 := After(db1, others);
            var db3 := Next(db2, EAutoRevoke(m, i));
            && (Dead(db1, u) <==> Dead(db, u))
            && (Dead(db3, u) && !Dead(db2, u) ==> u == TargetOf(m) && m.confidence.Confirmed?)
            && var answer := AutoRevoke(db2, m, i).1;
               (answer.None? ==> db3 == db2)
               && (answer.Some? && answer.value.inactive ==> !Alive(db3, TargetOf(m)))
               && (answer.Some? && answer.value.revokedNow <==> Alive(db2, TargetOf(m)) && Dead(db3, TargetOf(m)))
  {
    var db1 := Next(db, ERecord(m, source, url, rows));
    StepRevokes(db, ERecord(m, source, url, rows), u);
    StepRevokes(After(db1, others), EAutoRevoke(m, i), u);
    StepRevokes(After(db1, others), EAutoRevoke(m, i), TargetOf(m));
    RevokeOnly(After(db1, others), TargetOf(m));
  }

  /** The stream a credential belongs to. */
  function StreamOf(db: Database, t: Target): Option<Id> {
    match t
    case TokenTarget(id) =>
      if id in db.tokens && db.tokens[id].point in db.points then Some(db.points[db.tokens[id].point].stream) else None
    case PointTarget(id) => if id in db.points then Some(db.points[id].stream) else None
  }

  /** Triage by an operator who is no administrator reaches incidents and credentials of own streams only. */
  lemma TriageStaysInOwnStreams(db: Database, a: Action, i: Id, operator: Operator, u: Target, j: Id)
    requires !operator.admin
    ensures var after := Triage(db, a, i, operator).0;
            && (Dead(after, u) && !Dead(db, u) ==> StreamOf(db, u).Some? && StreamOf(db, u).value in operator.streams)
            && (j in db.incidents && j in after.incidents && after.incidents[j] != db.incidents[j] ==> db.incidents[j].stream in operator.streams)
  {
    TriageRevokes(db, a, i, operator, u);
  }

  // ---- incidents move forward ----------------------------------------------

  predicate Follows(before: Status, after: Status) {
    match before
    case New | Suspected => after == before || after.Affirmed? || after.Dismissed?
    case Affirmed => after.Affirmed? || after.Resolved?
    case Dismissed | Resolved => after == before
  }

  /** Incident rows survive with their identity, and statuses only move forward. */
  predicate Advances(before: Database, after: Database, i: Id) {
    i in before.incidents ==>
      && i in after.incidents
      && after.incidents[i].stream == before.incidents[i].stream
      && after.incidents[i].token == before.incidents[i].token
      && after.incidents[i].byChecker == before.incidents[i].byChecker
      && (Open(after.incidents[i].status) ==> Open(before.incidents[i].status))
      && (!Open(before.incidents[i].status) ==> after.incidents[i].status == before.incidents[i].status)
  }

  ghost predicate IdsValid(db: Database) {
    && (forall i :: i in db.incidents ==> i < db.nextIncident)
    && (forall f :: f in db.findings ==> f < db.nextFinding)
    && (forall r :: r in db.drafts ==> db.drafts[r].incident in db.incidents)
  }

  predicate Grows(before: Incident, after: Incident) {
    && after.stream == before.stream && after.token == before.token && after.byChecker == before.byChecker
    && Follows(before.status, after.status) && before.history <= after.history
  }

  lemma LogGrows(db: Database, j: Id, status: Status, e: Entry, i: Id)
    requires i in db.incidents && j in db.incidents && Follows(db.incidents[j].status, status)
    ensures i in Log(db, j, status, e).incidents && Grows(db.incidents[i], Log(db, j, status, e).incidents[i])
  {
  }

  lemma AutoRevokeGrows(db: Database, m: Match, j: Id, i: Id)
    requires i in db.incidents
    ensures i in AutoRevoke(db, m, j).0.incidents && Grows(db.incidents[i], AutoRevoke(db, m, j).0.incidents[i])
  {
    var db1 := Revoke(db, TargetOf(m));
    assert db1.incidents == db.incidents;
    if j in db.incidents && Open(db.incidents[j].status) {
      var logged := if Alive(db, TargetOf(m)) then Some(TargetOf(m)) else None;
      LogGrows(db1, j, Affirmed, Entry("leakchecker", Some(Affirmed), logged, None), i);
    }
  }

  lemma TriageGrows(db: Database, a: Action, j: Id, operator: Operator, i: Id)
    requires i in db.incidents
    ensures i in Triage(db, a, j, operator).0.incidents && Grows(db.incidents[i], Triage(db, a, j, operator).0.incidents[i])
  {
    if j in db.incidents && MaySee(operator, db.incidents[j]) && Allowed(a, db.incidents[j].status) {
      var target := if a.Confirm? then ConfirmTarget(db, j) else None;
      var revoked := if target.Some? && Alive(db, target.value) then target else None;
      var db1 := if revoked.Some? then Revoke(db, revoked.value) else db;
      assert db1.incidents == db.incidents;
      LogGrows(db1, j, Outcome(a), Entry(operator.name, Some(Outcome(a)), revoked, None), i);
    }
  }

  lemma StepGrows(db: Database, e: Event, i: Id)
    requires IdsValid(db) && Enabled(db, e) && i in db.incidents && !e.EWriteReply?
    ensures i in Next(db, e).incidents && Grows(db.incidents[i], Next(db, e).incidents[i])
  {
    match e {
      case ERecord(m, source, url, rows) => RecordFrame(db, m, source, url, rows);
      case EAutoRevoke(m, j) => AutoRevokeGrows(db, m, j, i);
      case ETriage(a, j, operator) => TriageGrows(db, a, j, operator, i);
      case _ =>
    }
  }

  lemma StepAdvances(db: Database, e: Event, i: Id)
    requires IdsValid(db) && Enabled(db, e)
    ensures Advances(db, Next(db, e), i)
    ensures i in db.incidents ==> Follows(db.incidents[i].status, Next(db, e).incidents[i].status)
  {
    if i in db.incidents && !e.EWriteReply? {
      StepGrows(db, e, i);
    }
  }

  lemma RecordKeepsIds(db: Database, m: Match, source: string, url: string, rows: Reads)
    requires IdsValid(db) && ValidReads(db, m, DedupeKey(source, url, m.matched), rows)
    ensures IdsValid(RecordMatch(db, m, source, url, rows).0)
  {
    RecordFrame(db, m, source, url, rows);
  }

  lemma OthersKeepIds(db: Database, e: Event)
    requires IdsValid(db) && Enabled(db, e) && !e.ERecord?
    ensures IdsValid(Next(db, e))
  {
    OthersFrame(db, e);
  }

  lemma StepKeepsIds(db: Database, e: Event)
    requires IdsValid(db) && Enabled(db, e)
    ensures IdsValid(Next(db, e))
  {
    if e.ERecord? {
      RecordKeepsIds(db, e.m, e.source, e.url, e.rows);
    } else {
      OthersKeepIds(db, e);
    }
  }

  /** Dismissed and resolved incidents keep their status over every run. */
  lemma {:induction false} ClosedIncidentsStayClosed(db: Database, events: seq<Event>, i: Id)
    requires IdsValid(db) && Runs(db, events) && i in db.incidents
    ensures Advances(db, After(db, events), i)
    decreases |events|
  {
    if events != [] {
      StepAdvances(db, events[0], i);
      StepKeepsIds(db, events[0]);
      ClosedIncidentsStayClosed(Next(db, events[0]), events[1..], i);
    }
  }

  // ---- findings ------------------------------------------------------------

  ghost predicate FindingsValid(db: Database) {
    && (forall f, g :: f in db.findings && g in db.findings && db.findings[f].key == db.findings[g].key ==> f == g)
    && (forall f :: f in db.findings && !db.findings[f].confidence.Mention? ==>
          db.findings[f].incident.Some? && db.findings[f].incident.value in db.incidents)
  }

  predicate SameOpenGroup(a: Incident, b: Incident) {
    && a.byChecker && b.byChecker && Open(a.status) && Open(b.status)
    && a.stream == b.stream && a.token == b.token
  }

  /** At most one open incident the checker created per stream and token (or none). */
  ghost predicate OneOpenIncident(db: Database) {
    forall i, j :: i in db.incidents && j in db.incidents && SameOpenGroup(db.incidents[i], db.incidents[j]) ==> i == j
  }

  lemma WriteKeepsFindings(db: Database, m: Match, key: string, found: Option<Id>, incident: Option<Id>)
    requires IdsValid(db) && FindingsValid(db) && Selects(FindingsWith(db, key), found)
    requires incident.Some? ==> incident.value in db.incidents
    requires !m.confidence.Mention? ==> incident.Some?
    ensures FindingsValid(WriteFinding(db, m, key, found, incident))
  {
    if found.None? {
      assert forall f :: f in db.findings ==> f !in FindingsWith(db, key);
    }
  }

  lemma RecordKeepsFindings(db: Database, m: Match, source: string, url: string, rows: Reads)
    requires IdsValid(db) && FindingsValid(db) && ValidReads(db, m, DedupeKey(source, url, m.matched), rows)
    ensures FindingsValid(RecordMatch(db, m, source, url, rows).0)
  {
    var key := DedupeKey(source, url, m.matched);
    if !AlreadyRecorded(db, m, rows.found) {
      if m.confidence.Mention? {
        WriteKeepsFindings(db, m, key, rows.found, None);
      } else {
        var (db1, i) := FindOrCreateIncident(db, m, url, rows.open);
        assert FindingsWith(db1, key) == FindingsWith(db, key);
        WriteKeepsFindings(db1, m, key, rows.found, Some(i));
      }
    }
  }

  lemma RecordKeepsOneOpen(db: Database, m: Match, source: string, url: string, rows: Reads)
    requires IdsValid(db) && OneOpenIncident(db) && ValidReads(db, m, DedupeKey(source, url, m.matched), rows)
    ensures OneOpenIncident(RecordMatch(db, m, source, url, rows).0)
  {
    RecordFrame(db, m, source, url, rows);
    if rows.open.None? {
      assert forall i :: i in db.incidents ==> i !in OpenIncidents(db, m);
    }
  }

  lemma OthersKeepFindings(db: Database, e: Event)
    requires IdsValid(db) && FindingsValid(db) && Enabled(db, e) && !e.ERecord?
    ensures FindingsValid(Next(db, e))
  {
    forall i ensures Advances(db, Next(db, e), i) {
      StepAdvances(db, e, i);
    }
    OthersFrame(db, e);
  }

  lemma OthersCreateNone(db: Database, e: Event, i: Id)
    requires Enabled(db, e) && !e.ERecord? && i in Next(db, e).incidents && i !in db.incidents
    ensures !Next(db, e).incidents[i].byChecker
  {
  }

  lemma OthersKeepOneOpen(db: Database, e: Event)
    requires IdsValid(db) && OneOpenIncident(db) && Enabled(db, e) && !e.ERecord?
    ensures OneOpenIncident(Next(db, e))
  {
    var after := Next(db, e);
    forall i, j | i in after.incidents && j in after.incidents && SameOpenGroup(after.incidents[i], after.incidents[j])
      ensures i == j
    {
      StepAdvances(db, e, i);
      StepAdvances(db, e, j);
      if i !in db.incidents {
        OthersCreateNone(db, e, i);
      } else if j !in db.incidents {
        OthersCreateNone(db, e, j);
      } else {
        assert SameOpenGroup(db.incidents[i], db.incidents[j]);
      }
    }
  }

  ghost predicate EvidenceValid(db: Database) {
    IdsValid(db) && FindingsValid(db) && OneOpenIncident(db)
  }

  lemma StepKeepsEvidence(db: Database, e: Event)
    requires EvidenceValid(db) && Enabled(db, e)
    ensures EvidenceValid(Next(db, e))
  {
    StepKeepsIds(db, e);
    if e.ERecord? {
      RecordKeepsFindings(db, e.m, e.source, e.url, e.rows);
      RecordKeepsOneOpen(db, e.m, e.source, e.url, e.rows);
    } else {
      OthersKeepFindings(db, e);
      OthersKeepOneOpen(db, e);
    }
  }

  lemma {:induction false} RunsKeepEvidence(db: Database, events: seq<Event>)
    requires EvidenceValid(db) && Runs(db, events)
    ensures EvidenceValid(After(db, events))
    decreases |events|
  {
    if events != [] {
      StepKeepsEvidence(db, events[0]);
      RunsKeepEvidence(Next(db, events[0]), events[1..]);
    }
  }

  /**
    Over any run mixed with triage and manual incidents: one finding per dedupe key, an incident
    for every finding above a mention, and at most one open checker incident per stream and token.
   */
  lemma EvidenceIsGrouped(events: seq<Event>)
    requires Runs(EMPTY, events)
    ensures FindingsValid(After(EMPTY, events)) && OneOpenIncident(After(EMPTY, events))
  {
    RunsKeepEvidence(EMPTY, events);
  }

  /** A finding is never lost and its confidence never lowered. */
  lemma StepKeepsConfidence(db: Database, e: Event, f: Id)
    requires IdsValid(db) && Enabled(db, e) && f in db.findings
    ensures f in Next(db, e).findings
    ensures Next(db, e).findings[f].key == db.findings[f].key
    ensures Rank(Next(db, e).findings[f].confidence) >= Rank(db.findings[f].confidence)
  {
    if e.ERecord? {
      RecordKeepsConfidence(db, e.m, e.source, e.url, e.rows, f);
    } else {
      OthersFrame(db, e);
    }
  }

  lemma RecordKeepsConfidence(db: Database, m: Match, source: string, url: string, rows: Reads, f: Id)
    requires IdsValid(db) && ValidReads(db, m, DedupeKey(source, url, m.matched), rows) && f in db.findings
    ensures var after := RecordMatch(db, m, source, url, rows).0;
            && f in after.findings && after.findings[f].key == db.findings[f].key
            && Rank(after.findings[f].confidence) >= Rank(db.findings[f].confidence)
  {
  }

  lemma {:induction false} ConfidenceNeverDrops(db: Database, events: seq<Event>, f: Id)
    requires IdsValid(db) && Runs(db, events) && f in db.findings
    ensures f in After(db, events).findings
    ensures Rank(After(db, events).findings[f].confidence) >= Rank(db.findings[f].confidence)
    decreases |events|
  {
    if events != [] {
      StepKeepsIds(db, events[0]);
      StepKeepsConfidence(db, events[0], f);
      ConfidenceNeverDrops(Next(db, events[0]), events[1..], f);
    }
  }

  /**
    Recording a match leaves its finding in place at least as strong, and recording the same
    evidence again, after anything else that happened meanwhile, changes nothing.
   */
  lemma RecordingAgainChangesNothing(db: Database, m: Match, source: string, url: string, rows: Reads, others: seq<Event>, again: Reads)
    requires EvidenceValid(db) && Enabled(db, ERecord(m, source, url, rows))
    requires Runs(Next(db, ERecord(m, source, url, rows)), others)
    requires ValidReads(After(Next(db, ERecord(m, source, url, rows)), others), m, DedupeKey(source, url, m.matched), again)
    ensures var later := After(Next(db, ERecord(m, source, url, rows)), others);
            && RecordMatch(later, m, source, url, again).0 == later
            && !RecordMatch(later, m, source, url, again).1.created
            && (!m.confidence.Mention? ==> RecordMatch(later, m, source, url, again).1.incident.Some?)
  {
    var key := DedupeKey(source, url, m.matched);
    var db1 := Next(db, ERecord(m, source, url, rows));
    var later := After(db1, others);
    StepKeepsEvidence(db, ERecord(m, source, url, rows));
    RunsKeepEvidence(db1, others);
    var f := RecordedFinding(db, m, source, url, rows);
    FindingKeepsKey(db1, others, f);
    ConfidenceNeverDrops(db1, others, f);
    assert f in FindingsWith(later, key);
    assert again.found == Some(f);
  }

  /** A finding above a mention is attached to an open incident of its own stream and token. */
  lemma RecordingAttachesToItsGroup(db: Database, m: Match, source: string, url: string, rows: Reads)
    requires IdsValid(db) && ValidReads(db, m, DedupeKey(source, url, m.matched), rows)
    ensures var (after, r) := RecordMatch(db, m, source, url, rows);
            r.created && !m.confidence.Mention? ==>
              && r.incident.Some? && r.incident.value in after.incidents
              && after.incidents[r.incident.value].stream == m.stream
              && after.incidents[r.incident.value].token == m.token
              && Open(after.incidents[r.incident.value].status)
              && exists f :: f in FindingsWith(after, DedupeKey(source, url, m.matched)) && after.findings[f].incident == r.incident
                             && after.findings[f].confidence == m.confidence
  {
    var (after, r) := RecordMatch(db, m, source, url, rows);
    if r.created && !m.confidence.Mention? {
      var f := if rows.found.Some? then rows.found.value else db.nextFinding;
      assert f in FindingsWith(after, DedupeKey(source, url, m.matched));
    }
  }

  lemma RecordedFinding(db: Database, m: Match, source: string, url: string, rows: Reads) returns (f: Id)
    requires IdsValid(db) && ValidReads(db, m, DedupeKey(source, url, m.matched), rows)
    ensures var after := RecordMatch(db, m, source, url, rows).0;
            && f in after.findings && after.findings[f].key == DedupeKey(source, url, m.matched)
            && Rank(after.findings[f].confidence) >= Rank(m.confidence)
  {
    f := if rows.found.Some? then rows.found.value else db.nextFinding;
  }

  lemma {:induction false} FindingKeepsKey(db: Database, events: seq<Event>, f: Id)
    requires IdsValid(db) && Runs(db, events) && f in db.findings
    ensures f in After(db, events).findings && After(db, events).findings[f].key == db.findings[f].key
    decreases |events|
  {
    if events != [] {
      StepKeepsIds(db, events[0]);
      StepKeepsConfidence(db, events[0], f);
      FindingKeepsKey(Next(db, events[0]), events[1..], f);
    }
  }

  // ---- a credential is logged as revoked at most once ----------------------

  predicate OnceEach(h: seq<Entry>) {
    forall k, l :: 0 <= k < l < |h| && h[k].revoked.Some? ==> h[k].revoked != h[l].revoked
  }

  /** `owner` remembers in which incident a revocation was logged. */
  ghost predicate HistoryValid(owner: map<Target, Id>, i: Id, h: seq<Entry>) {
    && OnceEach(h)
    && forall k :: 0 <= k < |h| && h[k].revoked.Some? ==> h[k].revoked.value in owner && owner[h[k].revoked.value] == i
  }

  /** Every stored history and every history a pending reply will write back agrees with `owner`. */
  ghost predicate LogsValid(db: Database, owner: map<Target, Id>) {
    && (forall t :: t in owner ==> Dead(db, t))
    && (forall i :: i in db.incidents ==> HistoryValid(owner, i, db.incidents[i].history))
    && (forall r :: r in db.drafts ==> HistoryValid(owner, db.drafts[r].incident, db.drafts[r].history))
  }

  lemma AppendQuiet(owner: map<Target, Id>, i: Id, h: seq<Entry>, e: Entry)
    requires HistoryValid(owner, i, h) && e.revoked.None?
    ensures HistoryValid(owner, i, h + [e])
  {
  }

  lemma AppendRevocation(owner: map<Target, Id>, i: Id, h: seq<Entry>, e: Entry)
    requires HistoryValid(owner, i, h) && e.revoked.Some? && e.revoked.value !in owner
    ensures HistoryValid(owner[e.revoked.value := i], i, h + [e])
  {
  }

  lemma MoreOwners(owner: map<Target, Id>, t: Target, j: Id, i: Id, h: seq<Entry>)
    requires HistoryValid(owner, i, h) && t !in owner
    ensures HistoryValid(owner[t := j], i, h)
  {
  }

  /** Logging a revocation that just took effect, in incident `i`. */
  lemma RevokeAndLog(db: Database, owner: map<Target, Id>, i: Id, status: Status, e: Entry) returns (owner': map<Target, Id>)
    requires LogsValid(db, owner) && i in db.incidents
    requires e.revoked.Some? ==> Alive(db, e.revoked.value)
    ensures LogsValid(Log(if e.revoked.Some? then Revoke(db, e.revoked.value) else db, i, status, e), owner')
  {
    var after := Log(if e.revoked.Some? then Revoke(db, e.revoked.value) else db, i, status, e);
    if e.revoked.None? {
      owner' := owner;
      AppendQuiet(owner, i, db.incidents[i].history, e);
    } else {
      var t := e.revoked.value;
      RevokeOnly(db, t);
      owner' := owner[t := i];
      AppendRevocation(owner, i, db.incidents[i].history, e);
      forall j | j in after.incidents && j != i ensures HistoryValid(owner', j, after.incidents[j].history) {
        MoreOwners(owner, t, i, j, db.incidents[j].history);
      }
      forall r | r in after.drafts ensures HistoryValid(owner', after.drafts[r].incident, after.drafts[r].history) {
        MoreOwners(owner, t, i, db.drafts[r].incident, db.drafts[r].history);
      }
    }
  }

  lemma QuietKeepsLogs(db: Database, e: Event, owner: map<Target, Id>)
    requires LogsValid(db, owner) && Enabled(db, e)
    requires e.EReadForReply? || e.ECreateIncident? || e.EOperatorRevoke? || e.EAddPoint? || e.EAddToken?
    ensures LogsValid(Next(db, e), owner)
  {
    forall u | Dead(db, u) ensures Dead(Next(db, e), u) {
      StepRevokes(db, e, u);
    }
  }

  lemma RecordKeepsLogs(db: Database, m: Match, source: string, url: string, rows: Reads, owner: map<Target, Id>)
    requires LogsValid(db, owner) && ValidReads(db, m, DedupeKey(source, url, m.matched), rows)
    ensures LogsValid(RecordMatch(db, m, source, url, rows).0, owner)
  {
    var after := RecordMatch(db, m, source, url, rows).0;
    RecordFrame(db, m, source, url, rows);
    forall u | Dead(db, u) ensures Dead(after, u) {
    }
    forall i | i in after.incidents ensures HistoryValid(owner, i, after.incidents[i].history) {
    }
  }

  lemma WriteReplyKeepsLogs(db: Database, request: nat, actor: string, comment: string, owner: map<Target, Id>)
    requires LogsValid(db, owner)
    ensures LogsValid(WriteReply(db, request, actor, comment), owner)
  {
    if request in db.drafts {
      AppendQuiet(owner, db.drafts[request].incident, db.drafts[request].history, ReplyEntry(actor, comment));
    }
    var after := WriteReply(db, request, actor, comment);
    assert after.tokens == db.tokens && after.points == db.points;
  }

  lemma StepKeepsLogs(db: Database, e: Event, owner: map<Target, Id>) returns (owner': map<Target, Id>)
    requires LogsValid(db, owner) && Enabled(db, e)
    ensures LogsValid(Next(db, e), owner')
  {
    owner' := owner;
    match e {
      case ERecord(m, source, url, rows) => RecordKeepsLogs(db, m, source, url, rows, owner);
      case EAutoRevoke(m, i) =>
        if Next(db, e) != db {
          var target := TargetOf(m);
          var revoked := if Alive(db, target) then Some(target) else None;
          owner' := RevokeAndLog(db, owner, i, Affirmed, Entry("leakchecker", Some(Affirmed), revoked, None));
        }
      case ETriage(a, i, operator) =>
        if Triage(db, a, i, operator).1 {
          var target := if a.Confirm? then ConfirmTarget(db, i) else None;
          var revoked := if target.Some? && Alive(db, target.value) then target else None;
          owner' := RevokeAndLog(db, owner, i, Outcome(a), Entry(operator.name, Some(Outcome(a)), revoked, None));
        }
      case ERecordReply(i, actor, comment) =>
        if i in db.incidents {
          owner' := RevokeAndLog(db, owner, i, db.incidents[i].status, ReplyEntry(actor, comment));
        }
      case EWriteReply(request, actor, comment) => WriteReplyKeepsLogs(db, request, actor, comment, owner);
      case _ => QuietKeepsLogs(db, e, owner);
    }
  }

  lemma {:induction false} RunsKeepLogs(db: Database, events: seq<Event>, owner: map<Target, Id>) returns (owner': map<Target, Id>)
    requires LogsValid(db, owner) && Runs(db, events)
    ensures LogsValid(After(db, events), owner')
    decreases |events|
  {
    owner' := owner;
    if events != [] {
      owner' := StepKeepsLogs(db, events[0], owner);
      owner' := RunsKeepLogs(Next(db, events[0]), events[1..], owner');
    }
  }

  /**
    Over every run of scanner, automatic revocation and triage, including replies that write
    back an old history: a credential is logged as revoked at most once in all histories, and a
    credential so logged is revoked.
   */
  lemma EachRevocationIsLoggedOnce(events: seq<Event>, i: Id, k: nat, j: Id, l: nat)
    requires Runs(EMPTY, events)
    requires i in After(EMPTY, events).incidents && k < |After(EMPTY, events).incidents[i].history|
    requires j in After(EMPTY, events).incidents && l < |After(EMPTY, events).incidents[j].history|
    requires After(EMPTY, events).incidents[i].history[k].revoked.Some?
    requires After(EMPTY, events).incidents[i].history[k].revoked == After(EMPTY, events).incidents[j].history[l].revoked
    ensures i == j && k == l
    ensures Dead(After(EMPTY, events), After(EMPTY, events).incidents[i].history[k].revoked.value)
  {
    var owner := RunsKeepLogs(EMPTY, events, map[]);
    var db := After(EMPTY, events);
    assert HistoryValid(owner, i, db.incidents[i].history) && HistoryValid(owner, j, db.incidents[j].history);
  }

  // ---- histories are not append-only ---------------------------------------

  /** Every step but the late write of a reply appends to the histories. */
  lemma OtherStepsAppend(db: Database, e: Event, i: Id)
    requires IdsValid(db) && Enabled(db, e) && i in db.incidents && !e.EWriteReply?
    ensures i in Next(db, e).incidents && db.incidents[i].history <= Next(db, e).incidents[i].history
  {
    StepGrows(db, e, i);
  }
}

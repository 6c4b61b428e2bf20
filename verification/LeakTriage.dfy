/**
  What one triage, one automatic revocation and one recording do to the rows they name, and that
  they do nothing to the others.
 */
module LeakTriage {
  import opened Common
  import opened LeakDatabase
  import opened LeakSafety

  /** The step kills the credential. */
  predicate Kills(before: Database, after: Database, u: Target) {
    Dead(after, u) && !Dead(before, u)
  }

  /** Finding `f` belongs to incident `i`, and no finding of `i` is newer. */
  ghost predicate NewestOf(db: Database, i: Id, f: Id) {
    && f in db.findings && db.findings[f].incident == Some(i)
    && forall g :: g in db.findings && db.findings[g].incident == Some(i) ==> g <= f
  }

  lemma {:induction false} LastFindingBelow(db: Database, i: Id, bound: Id, f: Id)
    ensures LastFinding(db, i, bound) == Some(f) <==>
              && f < bound && f in db.findings && db.findings[f].incident == Some(i)
              && forall g :: f < g < bound && g in db.findings ==> db.findings[g].incident != Some(i)
    decreases bound
  {
    if bound > 0 {
      LastFindingBelow(db, i, bound - 1, f);
    }
  }

  lemma LastFindingIsNewest(db: Database, i: Id, f: Id)
    requires IdsValid(db)
    ensures LastFinding(db, i, db.nextFinding) == Some(f) <==> NewestOf(db, i, f)
  {
    LastFindingBelow(db, i, db.nextFinding, f);
  }

  /** The operator may see the incident, and it waits for a decision. */
  predicate MayDecide(db: Database, i: Id, o: Operator) {
    && i in db.incidents && (o.admin || db.incidents[i].stream in o.streams)
    && (db.incidents[i].status.New? || db.incidents[i].status.Suspected?)
  }

  lemma TriageKills(db: Database, a: Action, i: Id, o: Operator, u: Target)
    ensures Kills(db, Triage(db, a, i, o).0, u) <==> MayRevoke(db, ETriage(a, i, o)) == Some(u) && Alive(db, u)
  {
    TriageRevokes(db, a, i, o, u);
  }

  /**
    Confirming revokes an access point exactly if the confirmation is allowed, the incident names
    no token, and the newest finding of this very incident is of that point, active and of the
    incident's stream.
   */
  lemma ConfirmRevokesPointExactly(db: Database, i: Id, o: Operator, p: Id)
    requires IdsValid(db)
    ensures Kills(db, Triage(db, Confirm, i, o).0, PointTarget(p)) <==>
              && MayDecide(db, i, o) && db.incidents[i].token.None?
              && p in db.points && db.points[p].active && db.points[p].stream == db.incidents[i].stream
              && exists f :: NewestOf(db, i, f) && db.findings[f].point == p
  {
    TriageKills(db, Confirm, i, o, PointTarget(p));
    var last := LastFinding(db, i, db.nextFinding);
    if last.Some? {
      LastFindingIsNewest(db, i, last.value);
    }
    if f :| NewestOf(db, i, f) {
      LastFindingIsNewest(db, i, f);
    }
  }

  /** Confirming revokes a token exactly if it is the one the incident names, live and of the incident's stream. */
  lemma ConfirmRevokesTokenExactly(db: Database, i: Id, o: Operator, t: Id)
    ensures Kills(db, Triage(db, Confirm, i, o).0, TokenTarget(t)) <==>
              && MayDecide(db, i, o) && db.incidents[i].token == Some(t)
              && t in db.tokens && !db.tokens[t].revoked
              && db.tokens[t].point in db.points && db.points[db.tokens[t].point].stream == db.incidents[i].stream
  {
    TriageKills(db, Confirm, i, o, TokenTarget(t));
  }

  lemma OthersRevokeNothing(db: Database, a: Action, i: Id, o: Operator, u: Target)
    requires !a.Confirm?
    ensures !Kills(db, Triage(db, a, i, o).0, u)
  {
    TriageKills(db, a, i, o, u);
  }

  /** Which decisions are open in which status, and the status each leads to. */
  predicate Decides(a: Action, before: Status, after: Status) {
    || (a.Confirm? && (before.New? || before.Suspected?) && after.Affirmed?)
    || (a.Dismiss? && (before.New? || before.Suspected?) && after.Dismissed?)
    || (a.Resolve? && before.Affirmed? && after.Resolved?)
  }

  /** The credential the triage kills, if it kills one. */
  ghost predicate KillsOnly(before: Database, after: Database, u: Option<Target>) {
    forall v :: Kills(before, after, v) <==> Some(v) == u
  }

  /**
    A triage either does nothing, or moves the incident to the status of its action and logs it with
    the operator, the new status and the credential it killed. It is done exactly if the operator may
    see the incident and its status allows the action. Other incidents and the findings stay.
   */
  lemma TriageIsLogged(db: Database, a: Action, i: Id, o: Operator)
    ensures var (after, done) := Triage(db, a, i, o);
            && (done <==> i in db.incidents && (o.admin || db.incidents[i].stream in o.streams)
                          && exists s :: Decides(a, db.incidents[i].status, s))
            && (!done ==> after == db)
            && (done ==>
                  && i in after.incidents && Decides(a, db.incidents[i].status, after.incidents[i].status)
                  && |after.incidents[i].history| == |db.incidents[i].history| + 1
                  && var entry := after.incidents[i].history[|db.incidents[i].history|];
                     && after.incidents[i].history == db.incidents[i].history + [entry]
                     && entry.actor == o.name && entry.to == Some(after.incidents[i].status) && entry.reply.None?
                     && KillsOnly(db, after, entry.revoked))
            && after.incidents - {i} == db.incidents - {i} && after.findings == db.findings
  {
    var (after, done) := Triage(db, a, i, o);
    TriageFrame(db, a, i, o);
    TriageLogsItsKill(db, a, i, o);
    if i in db.incidents {
      assert Allowed(a, db.incidents[i].status) ==> Decides(a, db.incidents[i].status, Outcome(a));
    }
  }

  lemma TriageFrame(db: Database, a: Action, i: Id, o: Operator)
    ensures var after := Triage(db, a, i, o).0; after.incidents - {i} == db.incidents - {i} && after.findings == db.findings
  {
  }

  lemma TriageLogsItsKill(db: Database, a: Action, i: Id, o: Operator)
    ensures var (after, done) := Triage(db, a, i, o);
            done ==>
              && i in db.incidents && i in after.incidents
              && |after.incidents[i].history| == |db.incidents[i].history| + 1
              && KillsOnly(db, after, after.incidents[i].history[|db.incidents[i].history|].revoked)
  {
    var after := Triage(db, a, i, o).0;
    forall u ensures Kills(db, after, u) <==> MayRevoke(db, ETriage(a, i, o)) == Some(u) && Alive(db, u) {
      TriageKills(db, a, i, o, u);
    }
  }

  // ---- automatic revocation -------------------------------------------------

  /** Automatic revocation kills exactly the credential of a confirmed match whose incident is still open. */
  lemma AutoRevokeKillsExactly(db: Database, m: Match, i: Id, u: Target)
    ensures Kills(db, AutoRevoke(db, m, i).0, u) <==>
              && m.confidence.Confirmed? && i in db.incidents
              && (db.incidents[i].status.New? || db.incidents[i].status.Suspected? || db.incidents[i].status.Affirmed?)
              && Alive(db, u)
              && match u case TokenTarget(t) => m.token == Some(t) case PointTarget(p) => m.token.None? && m.point == p
  {
    AutoRevokeRevokes(db, m, i, u);
  }

  /**
    What automatic revocation answers and logs. Nothing for a match that is not confirmed or an
    incident that is closed, an error for one that is not there; else the incident is confirmed, and
    logged by the checker exactly if it was not before or the credential was still live.
   */
  lemma AutoRevokeIsLogged(db: Database, m: Match, i: Id)
    ensures var (after, answer) := AutoRevoke(db, m, i);
            if !m.confidence.Confirmed? then after == db && answer == Some(Revocation(false, false))
            else if i !in db.incidents then after == db && answer == None
            else if db.incidents[i].status.Dismissed? || db.incidents[i].status.Resolved? then after == db && answer == Some(Revocation(false, false))
            else
              var u := if m.token.Some? then TokenTarget(m.token.value) else PointTarget(m.point);
              var before := db.incidents[i];
              && answer == Some(Revocation(true, Alive(db, u)))
              && i in after.incidents && after.incidents - {i} == db.incidents - {i} && after.findings == db.findings
              && after.incidents[i] ==
                 (if before.status.Affirmed? && !Alive(db, u) then before
                  else before.(status := Affirmed,
                    history := before.history + [Entry("leakchecker", Some(Affirmed), if Alive(db, u) then Some(u) else None, None)]))
  {
    RevokeOnly(db, TargetOf(m));
  }

  /** A manual incident is a new row, new in status, without token and history; the others stay. */
  lemma ManualIncidentIsNew(db: Database, stream: Id, url: string)
    requires IdsValid(db)
    ensures var after := CreateIncident(db, stream, url);
            && |after.incidents.Keys - db.incidents.Keys| == 1
            && (forall i :: i in db.incidents ==> i in after.incidents && after.incidents[i] == db.incidents[i])
            && (forall i :: i in after.incidents && i !in db.incidents ==>
                  var c := after.incidents[i];
                  c.stream == stream && c.url == url && c.status.New? && c.token.None? && c.history == [] && !c.byChecker)
            && after.findings == db.findings && after.tokens == db.tokens && after.points == db.points
  {
    assert CreateIncident(db, stream, url).incidents.Keys - db.incidents.Keys == {db.nextIncident};
  }

  /** A request that has written its reply writes no more. */
  lemma ReplyIsWrittenOnce(db: Database, request: nat, actor: string, comment: string, actor': string, comment': string)
    requires request in db.drafts && db.drafts[request].incident in db.incidents
    ensures var after := WriteReply(db, request, actor, comment);
            WriteReply(after, request, actor', comment') == after
  {
  }

  /** Whatever is stored, the two SELECT statements return some rows, or none. */
  lemma SomeRowsAreRead(db: Database, m: Match, key: string) returns (r: Reads)
    ensures ValidReads(db, m, key, r)
  {
    var found, open: Option<Id> := None, None;
    if FindingsWith(db, key) != {} {
      var f: Id :| f in FindingsWith(db, key);
      found := Some(f);
    }
    if OpenIncidents(db, m) != {} {
      var i: Id :| i in OpenIncidents(db, m);
      open := Some(i);
    }
    r := Reads(found, open);
  }

  // ---- recording ------------------------------------------------------------

  /** The database already holds the evidence, at least as sure. */
  ghost predicate Known(db: Database, key: string, c: Confidence) {
    exists f :: f in db.findings && db.findings[f].key == key && AtLeast(db.findings[f].confidence, c)
  }

  predicate AtLeast(c: Confidence, d: Confidence) {
    c.Confirmed? || d.Mention? || (c.Probable? && d.Probable?)
  }

  lemma RankIsStrength(c: Confidence, d: Confidence)
    ensures Rank(c) >= Rank(d) <==> AtLeast(c, d)
  {
  }

  /** Evidence is recorded exactly if it is not stored yet, or only as something weaker. */
  lemma EvidenceIsRecordedExactly(db: Database, m: Match, source: string, url: string, rows: Reads)
    requires EvidenceValid(db) && ValidReads(db, m, DedupeKey(source, url, m.matched), rows)
    ensures var (after, r) := RecordMatch(db, m, source, url, rows);
            && (r.created <==> !Known(db, DedupeKey(source, url, m.matched), m.confidence))
            && (!r.created ==> after == db)
  {
    var key := DedupeKey(source, url, m.matched);
    if rows.found.Some? {
      RankIsStrength(db.findings[rows.found.value].confidence, m.confidence);
    } else {
      assert forall f :: f in db.findings ==> f !in FindingsWith(db, key);
    }
  }

  /** What the finding of a match says, given the finding it replaces, if any. */
  predicate Tells(f: Finding, m: Match, key: string, stored: Option<Finding>, incident: Option<Id>) {
    && f.key == key && f.confidence == m.confidence && f.matched == m.matched
    && match stored
       case None => f.point == m.point && f.token == m.token && f.incident == incident
       case Some(o) =>
         && f.point == o.point
         && f.token == (if m.token.Some? then m.token else o.token)
         && f.incident == (if incident.Some? then incident else o.incident)
  }

  /** A recorded match is told by one finding, the stored one or a new one; the others stay. */
  lemma RecordingWritesOneFinding(db: Database, m: Match, source: string, url: string, rows: Reads) returns (f: Id)
    requires IdsValid(db) && ValidReads(db, m, DedupeKey(source, url, m.matched), rows)
    requires RecordMatch(db, m, source, url, rows).1.created
    ensures var (after, r) := RecordMatch(db, m, source, url, rows);
            var key := DedupeKey(source, url, m.matched);
            && f in after.findings && after.findings - {f} == db.findings - {f}
            && (f in db.findings ==> db.findings[f].key == key)
            && (f !in db.findings ==> forall g :: g in db.findings ==> db.findings[g].key != key)
            && Tells(after.findings[f], m, key, if f in db.findings then Some(db.findings[f]) else None, r.incident)
  {
    var key := DedupeKey(source, url, m.matched);
    f := if rows.found.Some? then rows.found.value else db.nextFinding;
    if rows.found.None? {
      assert forall g :: g in db.findings ==> g !in FindingsWith(db, key);
    }
  }

  ghost predicate OpenFor(db: Database, m: Match, i: Id) {
    && i in db.incidents && db.incidents[i].stream == m.stream && db.incidents[i].token == m.token
    && (db.incidents[i].status.New? || db.incidents[i].status.Suspected? || db.incidents[i].status.Affirmed?)
  }

  /**
    A recorded match above a mention belongs to an open incident of its stream and token if there is
    one, and else to a new one, suspected for a confirmed match and new otherwise. A mention has none.
   */
  lemma RecordingPicksTheIncident(db: Database, m: Match, source: string, url: string, rows: Reads)
    requires IdsValid(db) && ValidReads(db, m, DedupeKey(source, url, m.matched), rows)
    requires RecordMatch(db, m, source, url, rows).1.created
    ensures var (after, r) := RecordMatch(db, m, source, url, rows);
            && (r.incident.None? <==> m.confidence.Mention?)
            && (r.incident.None? ==> after.incidents == db.incidents)
            && (r.incident.Some? ==>
                  if exists i :: OpenFor(db, m, i) then OpenFor(db, m, r.incident.value) && after.incidents == db.incidents
                  else
                    var status := if m.confidence.Confirmed? then Suspected else New;
                    r.incident.value !in db.incidents
                    && after.incidents == db.incidents[r.incident.value :=
                         Incident(m.stream, m.token, true, url, status, [Entry("leakchecker", Some(status), None, None)])])
  {
    forall i ensures i in OpenIncidents(db, m) <==> OpenFor(db, m, i) {
    }
  }

  // ---- the dedupe key -------------------------------------------------------

  lemma BarComesAfter(a: string, x: string)
    requires '|' !in a
    ensures (a + "|" + x)[|a|] == '|' && forall k :: 0 <= k < |a| ==> (a + "|" + x)[k] != '|'
    ensures (a + "|" + x)[..|a|] == a && (a + "|" + x)[|a| + 1..] == x
  {
  }

  lemma FirstBar(a: string, b: string, x: string, y: string)
    requires '|' !in a && '|' !in b && a + "|" + x == b + "|" + y
    ensures a == b && x == y
  {
    BarComesAfter(a, x);
    BarComesAfter(b, y);
    assert |a| == |b|;
  }

  /** Different evidence has different keys, as long as a source and an address hold no bar. */
  lemma KeysTellEvidenceApart(source: string, url: string, matched: string, source': string, url': string, matched': string)
    requires '|' !in source && '|' !in url && '|' !in source' && '|' !in url'
    ensures DedupeKey(source, url, matched) == DedupeKey(source', url', matched') <==>
            source == source' && url == url' && matched == matched'
  {
    if DedupeKey(source, url, matched) == DedupeKey(source', url', matched') {
      assert DedupeKey(source, url, matched) == source + "|" + (url + "|" + matched);
      assert DedupeKey(source', url', matched') == source' + "|" + (url' + "|" + matched');
      FirstBar(source, source', url + "|" + matched, url' + "|" + matched');
      FirstBar(url, url', matched, matched');
    }
  }
}

/**
  The store's transactions, statement by statement. Each is proved to be the step of the same
  name, for whichever rows its SELECT statements return.
 */
module LeakStore {
  import opened Common
  import opened LeakDatabase

  class Store {
    var tokens: map<Id, Token>
    var points: map<Id, Point>
    var incidents: map<Id, Incident>
    var findings: map<Id, Finding>
    var nextIncident: Id
    var nextFinding: Id
    var drafts: map<nat, Draft>

    ghost function View(): Database
      reads this
    {
      Database(tokens, points, incidents, findings, nextIncident, nextFinding, drafts)
    }

    constructor ()
      ensures View() == EMPTY
    {
      tokens, points, incidents, findings := map[], map[], map[], map[];
      nextIncident, nextFinding, drafts := 0, 0, map[];
    }

    method FindOrCreate(m: Match, url: string) returns (id: Id, selected: Option<Id>)
      modifies this`incidents, this`nextIncident
      ensures Selects(OpenIncidents(old(View()), m), selected)
      ensures (View(), id) == FindOrCreateIncident(old(View()), m, url, selected)
    {
      var rows := set i | i in incidents && incidents[i].stream == m.stream && incidents[i].token == m.token && Open(incidents[i].status);
      if rows != {} {
        id :| id in rows;
        return id, Some(id);
      }
      var status := New;
      if m.confidence.Confirmed? {
        status := Suspected;
      }
      id := nextIncident;
      incidents := incidents[id := Incident(m.stream, m.token, true, url, status, [Entry("leakchecker", Some(status), None, None)])];
      nextIncident := nextIncident + 1;
      selected := None;
    }

    method Record(m: Match, source: string, url: string) returns (created: bool, incident: Option<Id>, rows: Reads)
      modifies this
      ensures ValidReads(old(View()), m, DedupeKey(source, url, m.matched), rows)
      ensures (View(), Recorded(created, incident)) == RecordMatch(old(View()), m, source, url, rows)
    {
      var key := DedupeKey(source, url, m.matched);
      var existing: Option<Id> := None;
      var keyed := set f | f in findings && findings[f].key == key;
      if keyed != {} {
        var f: Id :| f in keyed;
        existing := Some(f);
      }
      if existing.Some? && Rank(findings[existing.value].confidence) >= Rank(m.confidence) {
        var unread := AnyOpenIncident(m);
        return false, findings[existing.value].incident, Reads(existing, unread);
      }
      incident := None;
      var selected: Option<Id>;
      if !m.confidence.Mention? {
        var id;
        id, selected := FindOrCreate(m, url);
        incident := Some(id);
      } else {
        selected := AnyOpenIncident(m);
      }
      if existing.Some? {
        var f := findings[existing.value];
        f := f.(confidence := m.confidence, matched := m.matched);
        if incident.Some? {
          f := f.(incident := incident);
        }
        if m.token.Some? {
          f := f.(token := m.token);
        }
        findings := findings[existing.value := f];
      } else {
        findings := findings[nextFinding := Finding(incident, m.confidence, m.matched, key, m.point, m.token)];
        nextFinding := nextFinding + 1;
      }
      return true, incident, Reads(existing, selected);
    }

    /** The row a SELECT would have returned on the paths that do not run it. */
    method AnyOpenIncident(m: Match) returns (row: Option<Id>)
      ensures Selects(OpenIncidents(View(), m), row)
    {
      var rows := set i | i in incidents && incidents[i].stream == m.stream && incidents[i].token == m.token && Open(incidents[i].status);
      row := None;
      if rows != {} {
        var i: Id :| i in rows;
        row := Some(i);
      }
    }

    /** UPDATE access_tokens or access_points; `changed` is whether a row was affected. */
    method RevokeRow(t: Target) returns (changed: bool)
      modifies this`tokens, this`points
      ensures View() == Revoke(old(View()), t)
      ensures changed <==> Alive(old(View()), t)
    {
      changed := false;
      match t {
        case TokenTarget(id) =>
          if id in tokens && !tokens[id].revoked {
            tokens := tokens[id := tokens[id].(revoked := true)];
            changed := true;
          }
        case PointTarget(id) =>
          if id in points && points[id].active {
            points := points[id := points[id].(active := false)];
            changed := true;
          }
      }
    }

    method AutoRevokeMatch(m: Match, i: Id) returns (answer: Option<Revocation>)
      modifies this`tokens, this`points, this`incidents
      ensures (View(), answer) == AutoRevoke(old(View()), m, i)
    {
      if !m.confidence.Confirmed? {
        return Some(Revocation(false, false));
      }
      if i !in incidents {
        return None;
      }
      var status := incidents[i].status;
      if !status.New? && !status.Suspected? && !status.Affirmed? {
        return Some(Revocation(false, false));
      }
      var revokedNow := RevokeRow(TargetOf(m));
      if revokedNow || !status.Affirmed? {
        var entry := Entry("leakchecker", Some(Affirmed), None, None);
        if revokedNow {
          entry := entry.(revoked := Some(TargetOf(m)));
        }
        var history := incidents[i].history + [entry];
        incidents := incidents[i := incidents[i].(status := Affirmed, history := history)];
      }
      return Some(Revocation(true, revokedNow));
    }

    /** The newest finding of the incident. Findings keep their access point here, so each can name one. */
    method NewestFinding(i: Id) returns (found: Option<Id>)
      ensures found == LastFinding(View(), i, nextFinding)
      ensures found.Some? ==> found.value in findings && findings[found.value].incident == Some(i)
      ensures forall g :: g in findings && g < nextFinding && findings[g].incident == Some(i) ==> found.Some? && g <= found.value
    {
      var n: nat := nextFinding;
      found := None;
      while n > 0
        invariant forall g :: g in findings && n <= g < nextFinding ==> findings[g].incident != Some(i)
        invariant LastFinding(View(), i, nextFinding) == LastFinding(View(), i, n)
      {
        n := n - 1;
        if n in findings && findings[n].incident == Some(i) {
          return Some(n);
        }
      }
    }

    method TriageIncident(a: Action, i: Id, operator: Operator) returns (ok: bool)
      modifies this`tokens, this`points, this`incidents
      ensures (View(), ok) == Triage(old(View()), a, i, operator)
    {
      if i !in incidents || (!operator.admin && incidents[i].stream !in operator.streams) || !Allowed(a, incidents[i].status) {
        return false;
      }
      var incident := incidents[i];
      var revoked: Option<Target> := None;
      if a.Confirm? {
        if incident.token.Some? {
          var id := incident.token.value;
          if id in tokens && tokens[id].point in points && points[tokens[id].point].stream == incident.stream {
            var changed := RevokeRow(TokenTarget(id));
            if changed {
              revoked := Some(TokenTarget(id));
            }
          }
        } else {
          var f := NewestFinding(i);
          if f.Some? && f.value in findings && findings[f.value].point in points && points[findings[f.value].point].stream == incident.stream {
            var changed := RevokeRow(PointTarget(findings[f.value].point));
            if changed {
              revoked := Some(PointTarget(findings[f.value].point));
            }
          }
        }
      }
      var history := incident.history + [Entry(operator.name, Some(Outcome(a)), revoked, None)];
      incidents := incidents[i := incident.(status := Outcome(a), history := history)];
      return true;
    }
  }
}

/**
  The database the leak checker (Go) and the incident pages (PHP) share, as values: each
  transaction is one step. A SELECT ... LIMIT 1 without an order is resolved by a parameter.
 */
module LeakDatabase {
  import opened Common

  type Id = nat

  datatype Confidence = Mention | Probable | Confirmed

  datatype Status = New | Suspected | Affirmed | Dismissed | Resolved   // new, probable, confirmed, dismissed, resolved

  /** A credential that can be revoked. */
  datatype Target = TokenTarget(id: Id) | PointTarget(id: Id)

  /** One element of actions_taken. `revoked` stands for the actions revoked and auto_revoked. */
  datatype Entry = Entry(actor: string, to: Option<Status>, revoked: Option<Target>, reply: Option<string>)

  datatype Token = Token(point: Id, revoked: bool)
  datatype Point = Point(stream: Id, active: bool)
  datatype Incident = Incident(stream: Id, token: Option<Id>, byChecker: bool, url: string, status: Status, history: seq<Entry>)
  datatype Finding = Finding(incident: Option<Id>, confidence: Confidence, matched: string, key: string, point: Id, token: Option<Id>)

  /** What Classify returns. */
  datatype Match = Match(confidence: Confidence, point: Id, stream: Id, token: Option<Id>, matched: string)

  /** A GitHub reply an operator's request is posting, with the history it read beforehand. */
  datatype Draft = Draft(incident: Id, history: seq<Entry>)

  datatype Database = Database(
    tokens: map<Id, Token>,
    points: map<Id, Point>,
    incidents: map<Id, Incident>,
    findings: map<Id, Finding>,
    nextIncident: Id,            // AUTOINCREMENT
    nextFinding: Id,
    drafts: map<nat, Draft>)

  const EMPTY := Database(map[], map[], map[], map[], 0, 0, map[])

  predicate Open(s: Status) {
    s.New? || s.Suspected? || s.Affirmed?
  }

  predicate Dead(db: Database, t: Target) {
    match t
    case TokenTarget(id) => id in db.tokens && db.tokens[id].revoked
    case PointTarget(id) => id in db.points && !db.points[id].active
  }

  predicate Alive(db: Database, t: Target) {
    match t
    case TokenTarget(id) => id in db.tokens && !db.tokens[id].revoked
    case PointTarget(id) => id in db.points && db.points[id].active
  }

  /** UPDATE ... SET revoked WHERE id = ? AND still active. */
  function Revoke(db: Database, t: Target): Database {
    if !Alive(db, t) then db else
    match t
    case TokenTarget(id) => db.(tokens := db.tokens[id := db.tokens[id].(revoked := true)])
    case PointTarget(id) => db.(points := db.points[id := db.points[id].(active := false)])
  }

  function Rank(c: Confidence): nat {
    match c
    case Confirmed => 2
    case Probable => 1
    case Mention => 0
  }

  /** The text whose SHA-256 is the dedupe key; the hash is taken to be injective. */
  function DedupeKey(source: string, url: string, matched: string): string {
    source + "|" + url + "|" + matched
  }

  function Log(db: Database, i: Id, status: Status, e: Entry): Database
    requires i in db.incidents
  {
    db.(incidents := db.incidents[i := db.incidents[i].(status := status, history := db.incidents[i].history + [e])])
  }

  // ---- RecordMatch ---------------------------------------------------------

  /** The rows the two SELECT statements of RecordMatch return. */
  datatype Reads = Reads(found: Option<Id>, open: Option<Id>)

  function FindingsWith(db: Database, key: string): set<Id> {
    set f | f in db.findings && db.findings[f].key == key
  }

  function OpenIncidents(db: Database, m: Match): set<Id> {
    set i | i in db.incidents && db.incidents[i].stream == m.stream && db.incidents[i].token == m.token && Open(db.incidents[i].status)
  }

  predicate Selects(rows: set<Id>, row: Option<Id>) {
    if rows == {} then row.None? else row.Some? && row.value in rows
  }

  predicate ValidReads(db: Database, m: Match, key: string, r: Reads) {
    Selects(FindingsWith(db, key), r.found) && Selects(OpenIncidents(db, m), r.open)
  }

  function InitialStatus(c: Confidence): Status {
    if c.Confirmed? then Suspected else New
  }

  function NewIncident(m: Match, url: string): Incident {
    var status := InitialStatus(m.confidence);
    Incident(m.stream, m.token, true, url, status, [Entry("leakchecker", Some(status), None, None)])
  }

  function FindOrCreateIncident(db: Database, m: Match, url: string, open: Option<Id>): (Database, Id) {
    if open.Some? then (db, open.value) else
    (db.(incidents := db.incidents[db.nextIncident := NewIncident(m, url)], nextIncident := db.nextIncident + 1), db.nextIncident)
  }

  /** COALESCE(?, column) */
  function Coalesce(given: Option<Id>, column: Option<Id>): Option<Id> {
    if given.Some? then given else column
  }

  predicate AlreadyRecorded(db: Database, m: Match, found: Option<Id>) {
    found.Some? && found.value in db.findings && Rank(db.findings[found.value].confidence) >= Rank(m.confidence)
  }

  function WriteFinding(db: Database, m: Match, key: string, found: Option<Id>, incident: Option<Id>): Database
    requires found.Some? ==> found.value in db.findings
  {
    if found.Some? then
      var f := db.findings[found.value];
      db.(findings := db.findings[found.value := f.(confidence := m.confidence, matched := m.matched,
        incident := Coalesce(incident, f.incident), token := Coalesce(m.token, f.token))])
    else
      db.(findings := db.findings[db.nextFinding := Finding(incident, m.confidence, m.matched, key, m.point, m.token)],
        nextFinding := db.nextFinding + 1)
  }

  datatype Recorded = Recorded(created: bool, incident: Option<Id>)

  function RecordMatch(db: Database, m: Match, source: string, url: string, r: Reads): (Database, Recorded)
    requires ValidReads(db, m, DedupeKey(source, url, m.matched), r)
  {
    if AlreadyRecorded(db, m, r.found) then (db, Recorded(false, db.findings[r.found.value].incident)) else
    var (db1, incident) :=
      if m.confidence.Mention? then (db, None)
      else var (db1, i) := FindOrCreateIncident(db, m, url, r.open); (db1, Some(i));
    (WriteFinding(db1, m, DedupeKey(source, url, m.matched), r.found, incident), Recorded(true, incident))
  }

  // ---- AutoRevoke ----------------------------------------------------------

  /** The one credential a match is about. */
  function TargetOf(m: Match): Target {
    if m.token.Some? then TokenTarget(m.token.value) else PointTarget(m.point)
  }

  /** Whether the target is inactive afterwards, and whether this call made it so. */
  datatype Revocation = Revocation(inactive: bool, revokedNow: bool)

  /** None is the error for an incident that does not exist. */
  function AutoRevoke(db: Database, m: Match, i: Id): (Database, Option<Revocation>) {
    if !m.confidence.Confirmed? then (db, Some(Revocation(false, false)))
    else if i !in db.incidents then (db, None)
    else if !Open(db.incidents[i].status) then (db, Some(Revocation(false, false)))
    else
      var target := TargetOf(m);
      var now := Alive(db, target);
      var db1 := Revoke(db, target);
      if now || !db.incidents[i].status.Affirmed? then
        (Log(db1, i, Affirmed, Entry("leakchecker", Some(Affirmed), if now then Some(target) else None, None)), Some(Revocation(true, now)))
      else
        (db1, Some(Revocation(true, now)))
  }

  // ---- triage --------------------------------------------------------------

  datatype Action = Confirm | Dismiss | Resolve

  predicate Allowed(a: Action, s: Status) {
    match a
    case Confirm | Dismiss => s.New? || s.Suspected?
    case Resolve => s.Affirmed?
  }

  function Outcome(a: Action): Status {
    match a
    case Confirm => Affirmed
    case Dismiss => Dismissed
    case Resolve => Resolved
  }

  /** The newest of the findings below `bound` that belong to incident `i`. */
  function LastFinding(db: Database, i: Id, bound: Id): Option<Id>
    decreases bound
  {
    if bound == 0 then None
    else if bound - 1 in db.findings && db.findings[bound - 1].incident == Some(i) then Some(bound - 1)
    else LastFinding(db, i, bound - 1)
  }

  /** What confirming incident `i` would revoke, if it is of the incident's own stream. */
  function ConfirmTarget(db: Database, i: Id): Option<Target>
    requires i in db.incidents
  {
    var incident := db.incidents[i];
    if incident.token.Some? then
      var id := incident.token.value;
      if id in db.tokens && db.tokens[id].point in db.points && db.points[db.tokens[id].point].stream == incident.stream
      then Some(TokenTarget(id)) else None
    else
      var f := LastFinding(db, i, db.nextFinding);
      if f.Some? && f.value in db.findings && db.findings[f.value].point in db.points
         && db.points[db.findings[f.value].point].stream == incident.stream
      then Some(PointTarget(db.findings[f.value].point)) else None
  }

  /** Who is signed in: an administrator, or the owner of some streams. */
  datatype Operator = Operator(name: string, admin: bool, streams: set<Id>)

  predicate MaySee(o: Operator, incident: Incident) {
    o.admin || incident.stream in o.streams
  }

  function Triage(db: Database, a: Action, i: Id, operator: Operator): (Database, bool) {
    if i !in db.incidents || !MaySee(operator, db.incidents[i]) || !Allowed(a, db.incidents[i].status) then (db, false) else
    var target := if a.Confirm? then ConfirmTarget(db, i) else None;
    var revoked := if target.Some? && Alive(db, target.value) then target else None;
    var db1 := if revoked.Some? then Revoke(db, revoked.value) else db;
    (Log(db1, i, Outcome(a), Entry(operator.name, Some(Outcome(a)), revoked, None)), true)
  }

  function CreateIncident(db: Database, stream: Id, url: string): Database {
    db.(incidents := db.incidents[db.nextIncident := Incident(stream, None, false, url, New, [])], nextIncident := db.nextIncident + 1)
  }

  // ---- replies -------------------------------------------------------------

  function ReplyEntry(actor: string, comment: string): Entry {
    Entry(actor, None, None, Some(comment))
  }

  /** RecordReply: reads and appends in one transaction. */
  function RecordReply(db: Database, i: Id, actor: string, comment: string): Database {
    if i !in db.incidents then db else Log(db, i, db.incidents[i].status, ReplyEntry(actor, comment))
  }

  /** The github_reply page reads the history first, ... */
  function ReadForReply(db: Database, request: nat, i: Id): Database {
    if i !in db.incidents then db else
    db.(drafts := db.drafts[request := Draft(i, db.incidents[i].history)])
  }

  /** ... posts the comment, and then writes back the history it read with one more entry. */
  function WriteReply(db: Database, request: nat, actor: string, comment: string): Database {
    if request !in db.drafts then db else
    var d := db.drafts[request];
    if d.incident !in db.incidents then db else
    db.(incidents := db.incidents[d.incident := db.incidents[d.incident].(history := d.history + [ReplyEntry(actor, comment)])],
    drafts := db.drafts - {request})
  }

  // ---- the machine ---------------------------------------------------------

  datatype Event =
    | ERecord(m: Match, source: string, url: string, rows: Reads)
    | EAutoRevoke(m: Match, incident: Id)
    | ETriage(action: Action, incident: Id, operator: Operator)
    | ECreateIncident(stream: Id, url: string)
    | ERecordReply(incident: Id, actor: string, comment: string)
    | EReadForReply(request: nat, incident: Id)
    | EWriteReply(request: nat, actor: string, comment: string)
    | EOperatorRevoke(target: Target)
    | EAddPoint(id: Id, stream: Id)
    | EAddToken(id: Id, point: Id)

  predicate Enabled(db: Database, e: Event) {
    match e
    case ERecord(m, source, url, rows) => ValidReads(db, m, DedupeKey(source, url, m.matched), rows)
    case EReadForReply(request, _) => request !in db.drafts
    case EAddPoint(id, _) => id !in db.points
    case EAddToken(id, _) => id !in db.tokens
    case _ => true
  }

  function Next(db: Database, e: Event): Database
    requires Enabled(db, e)
  {
    match e
    case ERecord(m, source, url, rows) => RecordMatch(db, m, source, url, rows).0
    case EAutoRevoke(m, i) => AutoRevoke(db, m, i).0
    case ETriage(a, i, operator) => Triage(db, a, i, operator).0
    case ECreateIncident(stream, url) => CreateIncident(db, stream, url)
    case ERecordReply(i, actor, comment) => RecordReply(db, i, actor, comment)
    case EReadForReply(request, i) => ReadForReply(db, request, i)
    case EWriteReply(request, actor, comment) => WriteReply(db, request, actor, comment)
    case EOperatorRevoke(target) => Revoke(db, target)
    case EAddPoint(id, stream) => db.(points := db.points[id := Point(stream, true)])
    case EAddToken(id, point) => db.(tokens := db.tokens[id := Token(point, false)])
  }
}

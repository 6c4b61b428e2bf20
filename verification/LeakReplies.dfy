/**
  The reply page reads an incident's history, posts a comment, and then writes the history back:
  exactly when that loses nothing, and what it can lose.
 */
module LeakReplies {
  import opened Common
  import opened LeakDatabase
  import opened LeakSafety

  function History(db: Database, i: Id): seq<Entry> {
    if i in db.incidents then db.incidents[i].history else []
  }

  /** No step of the run changes the history of incident `i`. */
  ghost predicate Untouched(db: Database, events: seq<Event>, i: Id)
    requires Runs(db, events)
    decreases |events|
  {
    events == [] || (History(Next(db, events[0]), i) == History(db, i) && Untouched(Next(db, events[0]), events[1..], i))
  }

  /** The comment a step logs as a reply. */
  function CommentOf(e: Event): Option<string> {
    match e
    case ERecordReply(_, _, comment) => Some(comment)
    case EWriteReply(_, _, comment) => Some(comment)
    case _ => None
  }

  predicate Unlogged(h: seq<Entry>, comment: string) {
    forall k :: 0 <= k < |h| ==> h[k].reply != Some(comment)
  }

  /** GitHub gives each comment an address of its own: neither this request's nor one logged before. */
  predicate OwnComment(e: Event, h: seq<Entry>, comment: string) {
    CommentOf(e).Some? ==> CommentOf(e).value != comment && Unlogged(h, CommentOf(e).value)
  }

  predicate AppendsOther(before: seq<Entry>, after: seq<Entry>, comment: string) {
    after == before || (|after| == |before| + 1 && before <= after && after[|before|].reply != Some(comment))
  }

  lemma LogAppends(db: Database, j: Id, status: Status, e: Entry, i: Id, comment: string)
    requires j in db.incidents && i in db.incidents && e.reply != Some(comment)
    ensures AppendsOther(History(db, i), History(Log(db, j, status, e), i), comment)
  {
  }

  lemma TriageAppends(db: Database, a: Action, j: Id, operator: Operator, i: Id, comment: string)
    requires i in db.incidents
    ensures AppendsOther(History(db, i), History(Triage(db, a, j, operator).0, i), comment)
  {
    if Triage(db, a, j, operator).1 {
      var target := if a.Confirm? then ConfirmTarget(db, j) else None;
      var revoked := if target.Some? && Alive(db, target.value) then target else None;
      var db1 := if revoked.Some? then Revoke(db, revoked.value) else db;
      assert db1.incidents == db.incidents;
      LogAppends(db1, j, Outcome(a), Entry(operator.name, Some(Outcome(a)), revoked, None), i, comment);
    }
  }

  lemma AutoRevokeAppends(db: Database, m: Match, j: Id, i: Id, comment: string)
    requires i in db.incidents
    ensures AppendsOther(History(db, i), History(AutoRevoke(db, m, j).0, i), comment)
  {
    var db1 := Revoke(db, TargetOf(m));
    assert db1.incidents == db.incidents;
    if j in db.incidents && Open(db.incidents[j].status) {
      var logged := if Alive(db, TargetOf(m)) then Some(TargetOf(m)) else None;
      LogAppends(db1, j, Affirmed, Entry("leakchecker", Some(Affirmed), logged, None), i, comment);
    }
  }

  lemma StepAppends(db: Database, e: Event, i: Id, comment: string)
    requires IdsValid(db) && Enabled(db, e) && i in db.incidents && !e.EWriteReply? && CommentOf(e) != Some(comment)
    ensures i in Next(db, e).incidents && AppendsOther(History(db, i), History(Next(db, e), i), comment)
  {
    match e {
      case ERecord(m, source, url, rows) => RecordFrame(db, m, source, url, rows);
      case EAutoRevoke(m, j) => AutoRevokeAppends(db, m, j, i, comment);
      case ETriage(a, j, operator) => TriageAppends(db, a, j, operator, i, comment);
      case ERecordReply(j, actor, reply) => 
        if j in db.incidents {
          LogAppends(db, j, db.incidents[j].status, ReplyEntry(actor, reply), i, comment);
        }
      case _ =>
    }
  }

  /** A request that has read incident `i` with history `h` is still to write. */
  ghost predicate Drafted(db: Database, request: nat, i: Id, h: seq<Entry>) {
    IdsValid(db) && request in db.drafts && db.drafts[request] == Draft(i, h)
  }

  lemma StepKeepsDraft(db: Database, e: Event, request: nat, i: Id, h: seq<Entry>)
    requires Drafted(db, request, i, h) && Enabled(db, e) && !(e.EWriteReply? && e.request == request)
    ensures Drafted(Next(db, e), request, i, h) && i in db.incidents
  {
    StepKeepsIds(db, e);
    if e.ERecord? {
      RecordFrame(db, e.m, e.source, e.url, e.rows);
    }
  }

  lemma PrefixFacts(a: seq<Entry>, b: seq<Entry>, c: seq<Entry>, k: nat)
    ensures a <= b && b <= c ==> a <= c
    ensures k < |b| && b <= c ==> b[k] == c[k]
  {
  }

  /** Once the stored history differs from the one read, it is no part of what the request will write. */
  lemma ChangeShows(h: seq<Entry>, before: seq<Entry>, after: seq<Entry>, mine: Entry)
    requires mine.reply.Some? && AppendsOther(before, after, mine.reply.value)
    requires before == h || !(before <= h + [mine])
    ensures after == before || !(after <= h + [mine])
  {
    PrefixFacts(before, after, h + [mine], |h|);
    assert (h + [mine])[|h|] == mine;
  }

  lemma LateWriteShows(h: seq<Entry>, other: seq<Entry>, reply: Entry, mine: Entry)
    requires reply.reply.Some? && reply.reply != mine.reply && Unlogged(h, reply.reply.value)
    ensures !(other + [reply] <= h + [mine])
  {
    PrefixFacts([], other + [reply], h + [mine], |other|);
  }

  lemma StepOnHistory(db: Database, e: Event, request: nat, i: Id, h: seq<Entry>, mine: Entry)
    requires Drafted(db, request, i, h) && Enabled(db, e) && !(e.EWriteReply? && e.request == request)
    requires mine.reply.Some? && OwnComment(e, h, mine.reply.value)
    requires History(db, i) == h || !(History(db, i) <= h + [mine])
    ensures History(Next(db, e), i) == History(db, i) || !(History(Next(db, e), i) <= h + [mine])
  {
    if e.EWriteReply? {
      if e.request in db.drafts && db.drafts[e.request].incident == i {
        LateWriteShows(h, db.drafts[e.request].history, ReplyEntry(e.actor, e.comment), mine);
      }
    } else {
      StepAppends(db, e, i, mine.reply.value);
      ChangeShows(h, History(db, i), History(Next(db, e), i), mine);
    }
  }

  lemma {:induction false} RunOnHistory(db: Database, events: seq<Event>, request: nat, i: Id, h: seq<Entry>, mine: Entry)
    requires Drafted(db, request, i, h) && Runs(db, events) && mine.reply.Some?
    requires forall e :: e in events ==> !(e.EWriteReply? && e.request == request) && OwnComment(e, h, mine.reply.value)
    requires History(db, i) == h || !(History(db, i) <= h + [mine])
    ensures Drafted(After(db, events), request, i, h)
    ensures if History(db, i) == h && Untouched(db, events, i) then History(After(db, events), i) == h
            else !(History(After(db, events), i) <= h + [mine])
    decreases |events|
  {
    if events != [] {
      StepKeepsDraft(db, events[0], request, i, h);
      StepOnHistory(db, events[0], request, i, h, mine);
      RunOnHistory(Next(db, events[0]), events[1..], request, i, h, mine);
    }
  }

  /**
    The late write keeps the stored history exactly when no step between the page's read and its
    write changed the history of the incident.
   */
  lemma ReplyKeepsHistory(db: Database, request: nat, i: Id, others: seq<Event>, actor: string, comment: string)
    requires IdsValid(db) && i in db.incidents && request !in db.drafts
    requires Runs(ReadForReply(db, request, i), others)
    requires forall e :: e in others ==> !(e.EWriteReply? && e.request == request) && OwnComment(e, History(db, i), comment)
    ensures var read := ReadForReply(db, request, i);
            var stored := After(read, others);
            History(stored, i) <= History(WriteReply(stored, request, actor, comment), i) <==> Untouched(read, others, i)
  {
    var read, h, mine := ReadForReply(db, request, i), History(db, i), ReplyEntry(actor, comment);
    StepKeepsIds(db, EReadForReply(request, i));
    RunOnHistory(read, others, request, i, h, mine);
    assert i in After(read, others).incidents;
    assert History(WriteReply(After(read, others), request, actor, comment), i) == h + [mine];
  }

  lemma Unfold(db: Database, events: seq<Event>, after: Database)
    requires events != [] && Enabled(db, events[0]) && after == Next(db, events[0])
    ensures Runs(db, events) <==> Runs(after, events[1..])
    ensures Runs(db, events) ==> After(db, events) == After(after, events[1..])
  {
  }

  lemma {:induction false} SameLastFinding(db: Database, after: Database, i: Id, bound: Id)
    requires after.findings == db.findings
    ensures LastFinding(after, i, bound) == LastFinding(db, i, bound)
    decreases bound
  {
    if bound > 0 {
      SameLastFinding(db, after, i, bound - 1);
    }
  }

  /** Confirming right after the read revokes the target and logs it. */
  lemma ConfirmedMeanwhile(db: Database, i: Id, request: nat, operator: Operator)
    requires i in db.incidents && MaySee(operator, db.incidents[i]) && Allowed(Confirm, db.incidents[i].status) && request !in db.drafts
    requires ConfirmTarget(db, i).Some? && Alive(db, ConfirmTarget(db, i).value)
    ensures var t := Triage(ReadForReply(db, request, i), Confirm, i, operator).0;
            && Dead(t, ConfirmTarget(db, i).value) && i in t.incidents
            && request in t.drafts && t.drafts[request] == Draft(i, db.incidents[i].history)
  {
    var read := ReadForReply(db, request, i);
    SameLastFinding(db, read, i, db.nextFinding);
    RevokeOnly(read, ConfirmTarget(db, i).value);
  }

  /** A confirmation between the read and the write disappears from the log: the credential is dead, unlogged. */
  lemma LateReplyErasesRevocation(db: Database, i: Id, request: nat, operator: Operator, comment: string)
    requires i in db.incidents && MaySee(operator, db.incidents[i]) && Allowed(Confirm, db.incidents[i].status) && request !in db.drafts
    requires ConfirmTarget(db, i).Some? && Alive(db, ConfirmTarget(db, i).value)
    requires forall k :: 0 <= k < |db.incidents[i].history| ==> db.incidents[i].history[k].revoked != ConfirmTarget(db, i)
    ensures var events := [EReadForReply(request, i), ETriage(Confirm, i, operator), EWriteReply(request, operator.name, comment)];
            && Runs(db, events)
            && Dead(After(db, events), ConfirmTarget(db, i).value)
            && i in After(db, events).incidents
            && forall e :: e in After(db, events).incidents[i].history ==> e.revoked != ConfirmTarget(db, i)
  {
    var events := [EReadForReply(request, i), ETriage(Confirm, i, operator), EWriteReply(request, operator.name, comment)];
    var db1 := Next(db, events[0]);
    var db2 := Next(db1, events[1]);
    var db3 := Next(db2, events[2]);
    ConfirmedMeanwhile(db, i, request, operator);
    Unfold(db2, events[2..], db3);
    Unfold(db1, events[1..], db2);
    Unfold(db, events, db1);
    assert db3.incidents[i].history == db.incidents[i].history + [ReplyEntry(operator.name, comment)];
    assert db3.tokens == db2.tokens && db3.points == db2.points;
  }
}

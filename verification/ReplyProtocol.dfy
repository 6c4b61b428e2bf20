/**
  Posting the public notice "once": the checker and the incident page look for a stored reply,
  post a comment on GitHub and store the reply, in three steps that interleave and may stop half way.
 */
module ReplyProtocol {
  type Pid = nat
  type Url = string

  datatype Pc = Idle | Clear(url: Url) | Commented(url: Url, comment: nat)

  datatype Entry = Looked(pid: Pid, url: Url) | Posted(pid: Pid, url: Url) | Recorded(pid: Pid, url: Url)

  /** A comment is named by its place in the log; `replies` is the table with a unique source_url. */
  datatype State = State(pcs: map<Pid, Pc>, replies: map<Url, nat>, log: seq<Entry>)

  const INITIAL := State(map[], map[], [])

  function PcOf(s: State, p: Pid): Pc {
    if p in s.pcs then s.pcs[p] else Idle
  }

  datatype Event = Look(pid: Pid, url: Url) | Post(pid: Pid) | Record(pid: Pid) | Stop(pid: Pid)

  predicate Enabled(s: State, e: Event) {
    match e
    case Look(p, _) => PcOf(s, p).Idle?
    case Post(p) => PcOf(s, p).Clear?
    case Record(p) => PcOf(s, p).Commented?
    case Stop(_) => true
  }

  function Go(s: State, p: Pid, pc: Pc, entry: Entry): State {
    s.(pcs := s.pcs[p := pc], log := s.log + [entry])
  }

  function Next(s: State, e: Event): State
    requires Enabled(s, e)
  {
    match e
    case Look(p, url) => Go(s, p, if url in s.replies then Idle else Clear(url), Looked(p, url))
    case Post(p) => Go(s, p, Commented(PcOf(s, p).url, |s.log|), Posted(p, PcOf(s, p).url))
    case Record(p) =>
      var pc := PcOf(s, p);
      Go(s, p, Idle, Recorded(p, pc.url)).(replies := if pc.url in s.replies then s.replies else s.replies[pc.url := pc.comment])
    case Stop(p) => s.(pcs := s.pcs[p := Idle])
  }

  ghost predicate Runs(s: State, events: seq<Event>)
    decreases |events|
  {
    events == [] || (Enabled(s, events[0]) && Runs(Next(s, events[0]), events[1..]))
  }

  ghost function After(s: State, events: seq<Event>): State
    requires Runs(s, events)
    decreases |events|
  {
    if events == [] then s else After(Next(s, events[0]), events[1..])
  }

  // ---- what the log says ---------------------------------------------------

  /** Entry `k` is a look at `url` by `p`, nothing was recorded for it before, and `p` did nothing else until `to`. */
  ghost predicate ClearLook(log: seq<Entry>, p: Pid, url: Url, k: nat, to: nat) {
    && k < to <= |log| && log[k] == Looked(p, url)
    && (forall m :: 0 <= m < k && log[m].Recorded? ==> log[m].url != url)
    && (forall m :: k < m < to ==> log[m].pid != p)
  }

  /** Every comment was posted by a request that had found no reply recorded. */
  ghost predicate PostsAreClear(log: seq<Entry>) {
    forall j :: 0 <= j < |log| && log[j].Posted? ==> exists k: nat :: ClearLook(log, log[j].pid, log[j].url, k, j)
  }

  ghost predicate PcValid(s: State, p: Pid) {
    match PcOf(s, p)
    case Idle => true
    case Clear(url) => exists k: nat :: ClearLook(s.log, p, url, k, |s.log|)
    case Commented(url, c) => c < |s.log| && s.log[c] == Posted(p, url)
  }

  ghost predicate RepliesValid(s: State) {
    && (forall m :: 0 <= m < |s.log| && s.log[m].Recorded? ==> s.log[m].url in s.replies)
    && (forall url :: url in s.replies ==> s.replies[url] < |s.log| && s.log[s.replies[url]].Posted? && s.log[s.replies[url]].url == url)
  }

  ghost predicate Valid(s: State) {
    RepliesValid(s) && PostsAreClear(s.log) && forall p :: PcValid(s, p)
  }

  lemma ClearLookStays(log: seq<Entry>, e: Entry, p: Pid, url: Url, k: nat, to: nat)
    requires ClearLook(log, p, url, k, to)
    ensures ClearLook(log + [e], p, url, k, to)
    ensures to == |log| && e.pid != p ==> ClearLook(log + [e], p, url, k, to + 1)
  {
  }

  lemma OthersStayValid(s: State, p: Pid, pc: Pc, entry: Entry, q: Pid)
    requires PcValid(s, q) && q != p && entry.pid == p
    ensures PcValid(Go(s, p, pc, entry), q)
  {
    if PcOf(s, q).Clear? {
      var k: nat :| ClearLook(s.log, q, PcOf(s, q).url, k, |s.log|);
      ClearLookStays(s.log, entry, q, PcOf(s, q).url, k, |s.log|);
    }
  }

  lemma PostsStayClear(log: seq<Entry>, e: Entry)
    requires PostsAreClear(log)
    requires e.Posted? ==> exists k: nat :: ClearLook(log, e.pid, e.url, k, |log|)
    ensures PostsAreClear(log + [e])
  {
    var after := log + [e];
    forall j | 0 <= j < |after| && after[j].Posted? ensures exists k: nat :: ClearLook(after, after[j].pid, after[j].url, k, j) {
      var k: nat :| ClearLook(log, after[j].pid, after[j].url, k, j);
      ClearLookStays(log, e, after[j].pid, after[j].url, k, j);
    }
  }

  lemma LookIsClear(s: State, p: Pid, url: Url)
    requires RepliesValid(s) && url !in s.replies
    ensures ClearLook(s.log + [Looked(p, url)], p, url, |s.log|, |s.log| + 1)
  {
  }

  lemma NextKeepsValid(s: State, e: Event)
    requires Valid(s) && Enabled(s, e)
    ensures Valid(Next(s, e))
  {
    var s' := Next(s, e);
    var p := e.pid;
    if !e.Stop? {
      var entry := s'.log[|s.log|];
      assert PcValid(s, p);
      PostsStayClear(s.log, entry);
      forall q ensures PcValid(s', q) {
        if q != p {
          OthersStayValid(s, p, PcOf(s', p), entry, q);
        } else if e.Look? && e.url !in s.replies {
          LookIsClear(s, p, e.url);
        }
      }
    } else {
      forall q ensures PcValid(s', q) {
        assert PcValid(s, q);
      }
    }
  }

  lemma {:induction false} RunsKeepValid(s: State, events: seq<Event>)
    requires Valid(s) && Runs(s, events)
    ensures Valid(After(s, events))
    decreases |events|
  {
    if events != [] {
      NextKeepsValid(s, events[0]);
      RunsKeepValid(Next(s, events[0]), events[1..]);
    }
  }

  // ---- theorems ------------------------------------------------------------

  /** The stored reply of an issue is a comment posted on it, and never replaced. */
  lemma {:induction false} StoredReplyStands(s: State, events: seq<Event>, url: Url)
    requires Valid(s) && Runs(s, events) && url in s.replies
    ensures var t := After(s, events);
            url in t.replies && t.replies[url] == s.replies[url] && t.replies[url] < |t.log|
            && t.log[t.replies[url]].Posted? && t.log[t.replies[url]].url == url
    decreases |events|
  {
    if events != [] {
      NextKeepsValid(s, events[0]);
      StoredReplyStands(Next(s, events[0]), events[1..], url);
    }
  }

  /** A reply is stored before the next request looks, and no comment falls between a look and its own post. */
  ghost predicate OneAtATime(log: seq<Entry>, url: Url) {
    && (forall i, k :: 0 <= i < k < |log| && log[i].Posted? && log[k].Looked? && log[i].url == url == log[k].url ==>
          exists m :: i < m < k && log[m].Recorded? && log[m].url == url)
    && (forall p, k: nat, j: nat, i :: j < |log| && log[j] == Posted(p, url) && ClearLook(log, p, url, k, j) && k < i < j ==>
          !(log[i].Posted? && log[i].url == url))
  }

  /** An issue with two comments had requests that did not take turns, or did not store their reply. */
  lemma TwoCommentsMeanOverlap(events: seq<Event>, url: Url, i: nat, j: nat)
    requires Runs(INITIAL, events) && i < j < |After(INITIAL, events).log|
    requires var log := After(INITIAL, events).log;
             log[i].Posted? && log[j].Posted? && log[i].url == url == log[j].url
    ensures !OneAtATime(After(INITIAL, events).log, url)
  {
    RunsKeepValid(INITIAL, events);
    var log := After(INITIAL, events).log;
    var p := log[j].pid;
    var k: nat :| ClearLook(log, p, url, k, j);
    assert log[j] == Posted(p, url) && log[k] == Looked(p, url);
    if i < k {
      assert forall m :: i < m < k && log[m].Recorded? ==> log[m].url != url;
    } else {
      assert k < i < j && log[i].Posted? && log[i].url == url;
    }
  }

  lemma {:induction false} LogOnlyGrows(s: State, events: seq<Event>)
    requires Runs(s, events)
    ensures s.log <= After(s, events).log
    decreases |events|
  {
    if events != [] {
      LogOnlyGrows(Next(s, events[0]), events[1..]);
    }
  }

  lemma {:induction false} RunsSplit(s: State, events: seq<Event>, a: nat)
    requires Runs(s, events) && a <= |events|
    ensures Runs(s, events[..a]) && Runs(After(s, events[..a]), events[a..])
    ensures After(After(s, events[..a]), events[a..]) == After(s, events)
    decreases a
  {
    if a == 0 {
      assert events[..0] == [] && events[0..] == events;
    } else {
      RunsSplit(Next(s, events[0]), events[1..], a - 1);
      assert events[..a][1..] == events[1..][..a - 1] && events[1..][a - 1..] == events[a..];
    }
  }

  lemma {:induction false} RunsJoin(s: State, events: seq<Event>, e: Event)
    requires Runs(s, events) && Enabled(After(s, events), e)
    ensures Runs(s, events + [e]) && After(s, events + [e]) == Next(After(s, events), e)
    decreases |events|
  {
    if events == [] {
      assert [e][1..] == [];
    } else {
      RunsJoin(Next(s, events[0]), events[1..], e);
      assert (events + [e])[1..] == events[1..] + [e];
    }
  }

  /** Until it acts itself, a process stays where it is. */
  lemma {:induction false} StaysUntilItActs(s: State, events: seq<Event>, p: Pid)
    requires Runs(s, events) && forall m :: 0 <= m < |events| ==> events[m].pid != p
    ensures PcOf(After(s, events), p) == PcOf(s, p)
    decreases |events|
  {
    if events != [] {
      assert events[0].pid != p;
      StaysUntilItActs(Next(s, events[0]), events[1..], p);
    }
  }

  lemma PrefixRuns(events: seq<Event>, i: nat)
    requires Runs(INITIAL, events) && i < |events|
    ensures Runs(INITIAL, events[..i]) && Enabled(After(INITIAL, events[..i]), events[i])
  {
    RunsSplit(INITIAL, events, i);
    assert events[i] == events[i..][0];
  }

  lemma OneMoreEvent(events: seq<Event>, i: nat)
    requires i < |events| && Runs(INITIAL, events)
    ensures Runs(INITIAL, events[..i]) && Runs(INITIAL, events[..i + 1]) && Enabled(After(INITIAL, events[..i]), events[i])
    ensures After(INITIAL, events[..i + 1]) == Next(After(INITIAL, events[..i]), events[i])
  {
    PrefixRuns(events, i);
    assert events[..i] + [events[i]] == events[..i + 1];
    RunsJoin(INITIAL, events[..i], events[i]);
  }

  /** With `events[a]` a request finds no reply stored for `url`, and `events[j]`, the next thing its process does, posts. */
  ghost predicate LooksThenPosts(events: seq<Event>, url: Url, a: nat, j: nat) {
    && a < j < |events| && events[j].Post? && events[a] == Look(events[j].pid, url)
    && Runs(INITIAL, events[..a]) && url !in After(INITIAL, events[..a]).replies
    && forall m :: a < m < j ==> events[m].pid != events[j].pid
  }

  /** The `n`-th entry of the log was written by `events[j]`. */
  ghost predicate WrittenBy(events: seq<Event>, j: nat, n: nat) {
    j < |events| && Runs(INITIAL, events[..j]) && n == |After(INITIAL, events[..j]).log|
  }

  lemma ClearUntilItPosts(events: seq<Event>, url: Url, a: nat, j: nat)
    requires Runs(INITIAL, events) && LooksThenPosts(events, url, a, j)
    ensures Runs(INITIAL, events[..j]) && PcOf(After(INITIAL, events[..j]), events[j].pid) == Clear(url)
  {
    var before := events[..j];
    OneMoreEvent(events, a);
    PrefixRuns(events, j);
    RunsSplit(INITIAL, before, a + 1);
    assert before[..a + 1] == events[..a + 1];
    StaysUntilItActs(After(INITIAL, events[..a + 1]), before[a + 1..], events[j].pid);
  }

  /** A request that found no reply stored posts its comment whatever others do before. */
  lemma ClearRequestPosts(events: seq<Event>, url: Url, a: nat, j: nat) returns (n: nat)
    requires Runs(INITIAL, events) && LooksThenPosts(events, url, a, j)
    ensures WrittenBy(events, j, n) && n < |After(INITIAL, events).log|
    ensures After(INITIAL, events).log[n] == Posted(events[j].pid, url)
  {
    ClearUntilItPosts(events, url, a, j);
    n := |After(INITIAL, events[..j]).log|;
    OneMoreEvent(events, j);
    RunsSplit(INITIAL, events, j + 1);
    LogOnlyGrows(After(INITIAL, events[..j + 1]), events[j + 1..]);
  }

  /** What finds no reply stored for `url` is a look of the process, the last thing it did. */
  lemma {:induction false} ClearComesFromALook(events: seq<Event>, p: Pid, url: Url, j: nat) returns (a: nat)
    requires Runs(INITIAL, events) && j <= |events| && Runs(INITIAL, events[..j]) && PcOf(After(INITIAL, events[..j]), p) == Clear(url)
    ensures a < j && events[a] == Look(p, url) && Runs(INITIAL, events[..a]) && url !in After(INITIAL, events[..a]).replies
    ensures forall m :: a < m < j ==> events[m].pid != p
    decreases j
  {
    OneMoreEvent(events, j - 1);
    a := j - 1;
    if events[a].pid != p {
      a := ClearComesFromALook(events, p, url, j - 1);
    }
  }

  lemma {:induction false} PostIsWrittenBy(events: seq<Event>, n: nat, i: nat) returns (j: nat)
    requires Runs(INITIAL, events) && i <= |events| && Runs(INITIAL, events[..i])
    requires n < |After(INITIAL, events[..i]).log| && After(INITIAL, events[..i]).log[n].Posted?
    ensures WrittenBy(events, j, n) && j < i && events[j].Post?
    ensures var s, entry := After(INITIAL, events[..j]), After(INITIAL, events[..i]).log[n];
            PcOf(s, events[j].pid) == Clear(entry.url)
    decreases i
  {
    OneMoreEvent(events, i - 1);
    if n < |After(INITIAL, events[..i - 1]).log| {
      j := PostIsWrittenBy(events, n, i - 1);
    } else {
      j := i - 1;
    }
  }

  /** Each comment was posted by a request that looked before any reply was stored. */
  lemma CommentComesFromALook(events: seq<Event>, n: nat) returns (a: nat, j: nat)
    requires Runs(INITIAL, events) && n < |After(INITIAL, events).log| && After(INITIAL, events).log[n].Posted?
    ensures LooksThenPosts(events, After(INITIAL, events).log[n].url, a, j) && WrittenBy(events, j, n)
  {
    assert events[..|events|] == events;
    j := PostIsWrittenBy(events, n, |events|);
    a := ClearComesFromALook(events, events[j].pid, After(INITIAL, events).log[n].url, j);
  }

  lemma {:induction false} LogGrowsWithoutStops(s: State, events: seq<Event>)
    requires Runs(s, events) && events != [] && !events[0].Stop?
    ensures |s.log| < |After(s, events).log|
  {
    LogOnlyGrows(Next(s, events[0]), events[1..]);
  }

  /** Different posts of a run write different entries of the log. */
  lemma LaterPostIsElsewhere(events: seq<Event>, j: nat, k: nat, n: nat, m: nat)
    requires Runs(INITIAL, events) && j < k && WrittenBy(events, j, n) && WrittenBy(events, k, m) && !events[j].Stop?
    ensures n < m
  {
    RunsSplit(INITIAL, events[..k], j);
    assert events[..k][..j] == events[..j] && events[..k][j..][0] == events[j];
    LogGrowsWithoutStops(After(INITIAL, events[..j]), events[..k][j..]);
  }

  ghost predicate TwoComments(log: seq<Entry>, url: Url) {
    exists n, m :: 0 <= n < m < |log| && log[n].Posted? && log[m].Posted? && log[n].url == url == log[m].url
  }

  /** Two requests for one issue that each find no reply stored, whenever they look, and each post, put two comments on it. */
  lemma OverlapPostsTwice(events: seq<Event>, url: Url, a: nat, j: nat, b: nat, k: nat)
    requires Runs(INITIAL, events) && LooksThenPosts(events, url, a, j) && LooksThenPosts(events, url, b, k) && j < k
    ensures TwoComments(After(INITIAL, events).log, url)
  {
    var n := ClearRequestPosts(events, url, a, j);
    var m := ClearRequestPosts(events, url, b, k);
    LaterPostIsElsewhere(events, j, k, n, m);
  }

  /** Two posts were made by requests that looked while no reply was stored. */
  ghost predicate TwoClearPosts(events: seq<Event>, url: Url) {
    exists a, j, b, k :: j < k && LooksThenPosts(events, url, a, j) && LooksThenPosts(events, url, b, k)
  }

  lemma TwoCommentsComeFromLooks(events: seq<Event>, url: Url, n: nat, m: nat)
    requires Runs(INITIAL, events) && n < m < |After(INITIAL, events).log|
    requires After(INITIAL, events).log[n].Posted? && After(INITIAL, events).log[n].url == url
    requires After(INITIAL, events).log[m].Posted? && After(INITIAL, events).log[m].url == url
    ensures TwoClearPosts(events, url)
  {
    var a, j := CommentComesFromALook(events, n);
    var b, k := CommentComesFromALook(events, m);
    if k < j {
      LaterPostIsElsewhere(events, k, j, m, n);
    }
    assert j < k;
  }

  /** An issue has two comments exactly if two posts were made by requests that looked while no reply was stored. */
  lemma TwoCommentsExactly(events: seq<Event>, url: Url)
    requires Runs(INITIAL, events)
    ensures TwoComments(After(INITIAL, events).log, url) <==> TwoClearPosts(events, url)
  {
    var log := After(INITIAL, events).log;
    if TwoComments(log, url) {
      var n, m :| 0 <= n < m < |log| && log[n].Posted? && log[m].Posted? && log[n].url == url == log[m].url;
      TwoCommentsComeFromLooks(events, url, n, m);
    }
    if TwoClearPosts(events, url) {
      var a, j, b, k :| j < k && LooksThenPosts(events, url, a, j) && LooksThenPosts(events, url, b, k);
      OverlapPostsTwice(events, url, a, j, b, k);
    }
  }

  /** The requests need not even be under way at one moment: one comment stands, unstored, when the other looks. */
  lemma UnstoredReplyIsPostedAgain(url: Url)
    ensures var events := [Look(0, url), Post(0), Look(1, url), Post(1)];
            && Runs(INITIAL, events)
            && After(INITIAL, events).log == [Looked(0, url), Posted(0, url), Looked(1, url), Posted(1, url)]
  {
    RunsJoin(INITIAL, [], Look(0, url));
    RunsJoin(INITIAL, [Look(0, url)], Post(0));
    RunsJoin(INITIAL, [Look(0, url), Post(0)], Look(1, url));
    RunsJoin(INITIAL, [Look(0, url), Post(0), Look(1, url)], Post(1));
    assert [Look(0, url), Post(0), Look(1, url), Post(1)] == [Look(0, url), Post(0), Look(1, url)] + [Post(1)];
    assert [Look(0, url), Post(0), Look(1, url)] == [Look(0, url), Post(0)] + [Look(1, url)];
    assert [Look(0, url), Post(0)] == [Look(0, url)] + [Post(0)] && [] + [Look(0, url)] == [Look(0, url)];
  }

  /** The same if the first request stops before it stores its reply. */
  lemma StoppedReplyIsPostedAgain(url: Url)
    ensures var events := [Look(0, url), Post(0), Stop(0)] + [Look(1, url), Post(1)];
            && Runs(INITIAL, events)
            && After(INITIAL, events).log == [Looked(0, url), Posted(0, url), Looked(1, url), Posted(1, url)]
  {
    var first := [Look(0, url)];
    var second := first + [Post(0)];
    var third := second + [Stop(0)];
    var fourth := third + [Look(1, url)];
    assert [] + [Look(0, url)] == first;
    RunsJoin(INITIAL, [], Look(0, url));
    RunsJoin(INITIAL, first, Post(0));
    RunsJoin(INITIAL, second, Stop(0));
    RunsJoin(INITIAL, third, Look(1, url));
    RunsJoin(INITIAL, fourth, Post(1));
    assert [Look(0, url), Post(0), Stop(0)] + [Look(1, url), Post(1)] == fourth + [Post(1)];
  }
}

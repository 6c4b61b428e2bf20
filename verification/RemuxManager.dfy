/**
  The remux manager as the object the gateway uses. Each method is one locked region; it is
  proved to move the manager's state exactly as the state machine says, so every call keeps
  the invariant (RemuxSafety.NextKeepsValid). The preconditions are the parts of that invariant
  a body relies on.
 */
module RemuxManager {
  import opened Common
  import opened RemuxState
  import opened RemuxSafety

  class Manager {
    const capacity: nat
    var slots: int
    var closed: bool
    var sessions: map<Stream, Ref>
    var byID: map<string, Ref>
    var pending: map<Stream, set<Ref>>
    var calls: map<Ref, Call>

    ghost function View(): State
      reads this
    {
      State(capacity, slots, closed, sessions, byID, pending, calls)
    }

    constructor (capacity: nat)
      ensures View() == Initial(capacity) && Valid(View())
    {
      this.capacity := capacity;
      slots, closed := 0, false;
      sessions, byID, pending, calls := map[], map[], map[], map[];
      new;
      InitialIsValid(capacity);
    }

    /** stopLocked */
    method StopLocked(r: Ref)
      requires r in calls
      modifies this
      ensures View() == StopSession(old(View()), r)
    {
      sessions := sessions - {calls[r].stream};
      byID := byID - {calls[r].id};
      calls := calls[r := calls[r].(cancelled := true)];
      calls := calls[r := calls[r].(removal := true)];
    }

    method TouchLocked(r: Ref, now: Time)
      requires r in calls
      modifies this
      ensures View() == Touch(old(View()), r, now)
    {
      calls := calls[r := calls[r].(lastUsed := now)];
    }

    /** The first locked region of Start. `playlist` says whether the session's playlist file exists. */
    method Start(stream: Stream, signature: string, playlist: bool, now: Time, call: Ref) returns (outcome: StartOutcome)
      requires RefsKnown(View()) && call !in calls
      modifies this
      ensures (View(), outcome) == Begin(old(View()), stream, signature, playlist, now, call)
    {
      if closed {
        return Refused;
      }
      if stream in sessions {
        var r := sessions[stream];
        if calls[r].signature == signature {
          if playlist {
            TouchLocked(r, now);
            return Reused(r);
          }
          if calls[r].phase.Done? {
            StopLocked(r);
          } else {
            TouchLocked(r, now);
            return Reused(r);
          }
        } else {
          StopLocked(r);
        }
      }
      if slots >= capacity {
        return Full;
      }
      ghost var settled := View();
      slots := slots + 1;
      if stream !in pending {
        pending := pending[stream := {}];
      }
      pending := pending[stream := pending[stream] + {call}];
      calls := calls[call := NewCall(stream, signature)];
      assert pending == settled.pending[stream := PendingOf(settled, stream) + {call}];
      return Reserved(call);
    }

    /** The second locked region of Start. */
    method CommitStart(r: Ref, id: string, spawned: bool, now: Time) returns (outcome: CommitOutcome)
      requires RefsKnown(View()) && Enabled(View(), ECommit(r, id, spawned, now))
      modifies this
      ensures (View(), outcome) == Commit(old(View()), r, id, spawned, now)
    {
      var stream := calls[r].stream;
      if calls[r].cancelled {
        outcome := Cancelled;
      } else if closed {
        outcome := ManagerClosed;
      } else if stream in sessions {
        TouchLocked(sessions[stream], now);
        outcome := Winner(sessions[stream]);
      } else if !spawned {
        outcome := SpawnFailed;
      } else {
        calls := calls[r := calls[r].(id := id, phase := Running, lastUsed := now)];
        sessions := sessions[stream := r];
        byID := byID[id := r];
        return Registers;
      }
      calls := calls[r := calls[r].(phase := Abandoned)];
    }

    /** The locked half of Start's deferred function. */
    method LeavePendingList(r: Ref)
      requires r in calls && calls[r].stream in pending
      modifies this
      ensures View() == LeavePending(old(View()), r)
    {
      var stream := calls[r].stream;
      var rest := pending[stream] - {r};
      if rest == {} {
        pending := pending - {stream};
      } else {
        pending := pending[stream := rest];
      }
      var c := calls[r].(waiting := false);
      if c.phase.Abandoned? {
        c := c.(phase := Unwinding);
      }
      calls := calls[r := c];
    }

    method ExistingSession(stream: Stream, signature: string, playlist: bool, now: Time) returns (found: Option<Ref>)
      requires RefsKnown(View())
      modifies this
      ensures (View(), found) == Existing(old(View()), stream, signature, playlist, now)
    {
      if stream !in sessions || calls[sessions[stream]].signature != signature {
        return None;
      }
      var r := sessions[stream];
      if calls[r].phase.Done? && !playlist {
        StopLocked(r);
        return None;
      }
      TouchLocked(r, now);
      return Some(r);
    }

    /** Cancel every context in `refs`, one after the other. */
    method CancelEach(refs: set<Ref>)
      modifies this`calls
      ensures calls == CancelAll(old(calls), refs)
    {
      var todo := refs;
      while todo != {}
        invariant todo <= refs
        invariant calls == CancelAll(old(calls), refs - todo)
        decreases todo
      {
        var r :| r in todo;
        if r in calls {
          calls := calls[r := calls[r].(cancelled := true)];
        }
        todo := todo - {r};
      }
    }

    method StopStream(stream: Stream)
      requires RefsKnown(View())
      modifies this
      ensures View() == Stop(old(View()), stream)
    {
      CancelEach(if stream in pending then pending[stream] else {});
      if stream in sessions {
        StopLocked(sessions[stream]);
      }
    }

    /** Stop the sessions in `refs`, one after the other, while ranging over the table. */
    method StopEach(refs: set<Ref>)
      requires TablesValid(View()) && forall r :: r in refs ==> Registered(View(), r)
      modifies this
      ensures View() == StopAll(old(View()), refs)
    {
      ghost var before := View();
      var todo := refs;
      ghost var done: set<Ref> := {};
      StopNone(before);
      while todo != {}
        invariant done + todo == refs && done !! todo
        invariant View() == StopAll(before, done)
        decreases todo
      {
        var r :| r in todo;
        StopOne(before, done, r);
        StopLocked(r);
        todo, done := todo - {r}, done + {r};
      }
      assert done == refs;
    }

    method Close()
      requires TablesValid(View())
      modifies this
      ensures View() == CloseManager(old(View()))
    {
      ghost var before := View();
      closed := true;
      CancelPending();
      CancellingKeepsTables(before);
      StopEach(set st | st in sessions :: sessions[st]);
    }

    /** Cancel every pending start, stream by stream. */
    method CancelPending()
      modifies this`calls
      ensures calls == CancelAll(old(calls), AllPending(old(View())))
    {
      ghost var before := View();
      var todo := pending.Keys;
      CancelNone(calls);
      while todo != {}
        invariant todo <= pending.Keys
        invariant calls == CancelAll(before.calls, PendingIn(before, pending.Keys - todo))
        decreases todo
      {
        var stream :| stream in todo;
        CancelTwice(before.calls, PendingIn(before, pending.Keys - todo), pending[stream]);
        CancelEach(pending[stream]);
        assert PendingIn(before, pending.Keys - (todo - {stream}))
            == PendingIn(before, pending.Keys - todo) + pending[stream];
        todo := todo - {stream};
      }
      assert PendingIn(before, pending.Keys) == AllPending(before);
    }

    method Pin(stream: Stream, pinned: bool, now: Time) returns (ok: bool)
      requires RefsKnown(View())
      modifies this
      ensures View() == SetPinned(old(View()), stream, pinned, now)
      ensures ok <==> stream in old(sessions)
    {
      if stream !in sessions {
        return false;
      }
      var r := sessions[stream];
      calls := calls[r := calls[r].(pinned := pinned)];
      TouchLocked(r, now);
      return true;
    }

    /** The streams with a pinned session, and whether its process is alive. */
    method Pinned() returns (alive: map<Stream, bool>)
      requires RefsKnown(View())
      ensures forall st :: st in alive <==> st in sessions && calls[sessions[st]].pinned
      ensures forall st :: st in alive ==> (alive[st] <==> !calls[sessions[st]].phase.Done?)
    {
      alive := map[];
      var todo := sessions.Keys;
      while todo != {}
        invariant todo <= sessions.Keys
        invariant alive == map st | st in sessions && st !in todo && calls[sessions[st]].pinned :: !calls[sessions[st]].phase.Done?
        decreases todo
      {
        var st :| st in todo;
        todo := todo - {st};
        if calls[sessions[st]].pinned {
          alive := alive[st := !calls[sessions[st]].phase.Done?];
        }
      }
    }

    method ReapIdle(now: Time)
      requires TablesValid(View())
      modifies this
      ensures View() == StopAll(old(View()), IdleSessions(old(View()), now))
    {
      ghost var before := View();
      var todo := sessions.Keys;
      ghost var done: set<Ref> := {};
      StopNone(before);
      while todo != {}
        invariant todo <= before.sessions.Keys
        invariant done <= IdleSessions(before, now)
        invariant forall st :: st in before.sessions ==> (before.sessions[st] in done <==> st !in todo && Idle(before, before.sessions[st], now))
        invariant View() == StopAll(before, done)
        decreases todo
      {
        var st :| st in todo;
        StillRegistered(before, done, before.sessions[st]);
        if !calls[sessions[st]].pinned && now - calls[sessions[st]].lastUsed > IDLE_TIME {
          StopOne(before, done, sessions[st]);
          done := done + {sessions[st]};
          StopLocked(sessions[st]);
        }
        todo := todo - {st};
      }
      assert done == IdleSessions(before, now);
    }

    method GetPath(stream: Stream, id: string, name: string, now: Time) returns (found: Option<Ref>)
      requires RefsKnown(View())
      modifies this
      ensures if GeneratedName(name) then (View(), found) == Use(old(View()), stream, id, now)
              else View() == old(View()) && found.None?
    {
      if name != "index.m3u8" && !SegmentName(name) {
        return None;
      }
      if id !in byID || calls[byID[id]].stream != stream {
        return None;
      }
      TouchLocked(byID[id], now);
      return Some(byID[id]);
    }
  }

  predicate SegmentName(name: string) {
    |name| == 12 && name[..3] == "seg" && (forall k :: 3 <= k < 9 ==> '0' <= name[k] <= '9') && name[9..] == ".ts"
  }

  /** The files GetPath gives out. */
  predicate GeneratedName(name: string) {
    name == "index.m3u8" || SegmentName(name)
  }

  /** The generated names are the playlist and the segments with six digits. */
  lemma NamesAreExactly(name: string)
    ensures GeneratedName(name) <==>
              name == "index.m3u8"
              || exists digits: string :: name == "seg" + digits + ".ts" && |digits| == 6 && forall k :: 0 <= k < 6 ==> digits[k] in "0123456789"
  {
    if SegmentName(name) {
      var digits := name[3..9];
      assert name == name[..3] + digits + name[9..];
      forall k | 0 <= k < 6 ensures digits[k] in "0123456789" {
        DigitIsListed(digits[k]);
      }
    }
    if digits: string :| name == "seg" + digits + ".ts" && |digits| == 6 && forall k :: 0 <= k < 6 ==> digits[k] in "0123456789" {
      assert name[..3] == "seg" && name[9..] == ".ts";
      forall k | 3 <= k < 9 ensures '0' <= name[k] <= '9' {
        assert name[k] == digits[k - 3];
        DigitIsListed(digits[k - 3]);
      }
    }
  }

  lemma DigitIsListed(c: char)
    ensures '0' <= c <= '9' <==> c in "0123456789"
  {
    var digits := "0123456789";
    if '0' <= c <= '9' {
      assert digits[c as int - '0' as int] == c;
    }
  }

  /** A generated name stays inside the session's directory. */
  lemma GeneratedNameIsOneElement(name: string)
    requires GeneratedName(name)
    ensures '/' !in name && '\\' !in name && name != "" && name != "." && name != ".."
  {
    if SegmentName(name) {
      assert name == name[..3] + name[3..9] + name[9..];
    }
  }

  /** What Close has done before it stops the sessions. */
  function Cancelling(s: State): State {
    s.(closed := true, calls := CancelAll(s.calls, AllPending(s)))
  }

  lemma CancellingKeepsTables(s: State)
    requires TablesValid(s)
    ensures TablesAgree(Cancelling(s)) && forall r :: r in AllSessions(s) ==> Registered(Cancelling(s), r)
    ensures (set st | st in s.sessions :: s.sessions[st]) == AllSessions(s)
  {
    SameCallsKeepTables(s, Cancelling(s));
    RegisteredSessions(Cancelling(s));
  }

  function PendingIn(s: State, streams: set<Stream>): set<Ref> {
    set st, r | st in streams && st in s.pending && r in s.pending[st] :: r
  }

  lemma CancelNone(calls: map<Ref, Call>)
    ensures CancelAll(calls, {}) == calls
  {
  }

  lemma CancelTwice(calls: map<Ref, Call>, first: set<Ref>, second: set<Ref>)
    ensures CancelAll(CancelAll(calls, first), second) == CancelAll(calls, first + second)
  {
  }

  lemma StopNone(s: State)
    ensures StopAll(s, {}) == s
  {
  }

  /** Stopping one more registered session after stopping a set of them. */
  lemma StopOne(s: State, refs: set<Ref>, r: Ref)
    requires TablesAgree(s) && Registered(s, r) && r !in refs
    ensures r in StopAll(s, refs).calls && StopSession(StopAll(s, refs), r) == StopAll(s, refs + {r})
  {
    assert StopAll(s, refs).calls[r] == s.calls[r];
    var t, u := StopSession(StopAll(s, refs), r), StopAll(s, refs + {r});
    StopOneSession(s, refs, r);
    assert t.calls == u.calls;
  }

  lemma StopOneSession(s: State, refs: set<Ref>, r: Ref)
    requires TablesAgree(s) && Registered(s, r) && r !in refs
    ensures StopAll(s, refs).sessions - {s.calls[r].stream} == StopAll(s, refs + {r}).sessions
    ensures StopAll(s, refs).byID - {s.calls[r].id} == StopAll(s, refs + {r}).byID
  {
  }

  lemma StillRegistered(s: State, refs: set<Ref>, r: Ref)
    requires TablesAgree(s) && Registered(s, r) && r !in refs
    ensures Registered(StopAll(s, refs), r) && StopAll(s, refs).calls[r] == s.calls[r]
  {
  }
}

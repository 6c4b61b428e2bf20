/**
  The slate manager as the object the gateway uses. Each method is one locked region and moves the
  state as SlateState says; which fallback is taken depends on the order of a map, so GetPath is
  proved to take some fallback that fits.
 */
module SlateManager {
  import opened Common
  import opened SlateState

  /** GetPath may end in this state and outcome, for one of the fallbacks that fit. */
  ghost predicate Results(s: State, sign: Signature, variant: string, key: string, now: int, launch: Launch, s': State, out: Outcome) {
    exists choice ::
      ChoiceFits(LookUp(Touch(s, key, now), MakeId(variant, key), now).0.sessions, Base(variant), choice)
      && (s', out) == GetPath(s, sign, variant, key, now, choice, launch)
  }

  class Manager {
    const sign: Signature
    var sessions: map<Id, Session>
    var personal: map<string, Descriptor>
    var failedAt: map<Id, int>
    var radioMuted: map<Id, int>
    var fallbacks: map<Id, Id>
    var stopped: bool
    var live: set<nat>
    var owners: seq<Id>

    ghost function View(): State
      reads this
    {
      State(sessions, personal, failedAt, radioMuted, fallbacks, stopped, live, owners)
    }

    constructor (sign: Signature)
      ensures View() == Initial() && this.sign == sign
    {
      this.sign := sign;
      sessions, personal, failedAt, radioMuted, fallbacks := map[], map[], map[], map[], map[];
      stopped, live, owners := false, {}, [];
    }

    method Prepare(d: Descriptor) returns (key: string)
      modifies this
      ensures (View(), key) == SlateState.Prepare(old(View()), sign, d)
    {
      if !ValidVariant(d.variant) || d.ap <= 0 || d.cutoff == 0 {
        return "";
      }
      if stopped {
        return "";
      }
      key := SignatureOf(sign, d);
      if key in personal {
        personal := personal[key := personal[key].(lastUsed := d.lastUsed)];
        return;
      }
      if |personal| >= MAX_PERSONAL {
        return "";
      }
      personal := personal[key := d];
    }

    /** The session GetPath looks at first; a dead one is removed. */
    method LookUpLocked(id: Id, now: int) returns (found: Option<Id>)
      modifies this
      ensures (View(), found) == LookUp(old(View()), id, now)
    {
      var actual := id;
      if id !in sessions {
        if id !in fallbacks {
          return None;
        }
        if |sessions| < FALLBACK_SLOTS {
          fallbacks := fallbacks - {id};
          return None;
        }
        actual := fallbacks[id];
        if actual !in sessions {
          fallbacks := fallbacks - {id};
          return None;
        }
      }
      var session := sessions[actual];
      if session.encoder in live {
        return Some(actual);
      }
      if session.usedRadio {
        radioMuted := radioMuted[actual := now + RADIO_MUTE];
        failedAt := failedAt - {actual};
      } else if now - session.started < SHORT_LIVED {
        failedAt := failedAt[actual := now];
      }
      sessions := sessions - {actual};
      fallbacks := fallbacks - {id};
      return None;
    }

    /** Both loops over the sessions: same base first, then any generic session. */
    method PickFallback(variant: string) returns (choice: Option<Id>)
      ensures ChoiceFits(sessions, Base(variant), choice)
    {
      choice := AnyGeneric(Some(Base(variant)));
      if choice.None? {
        choice := AnyGeneric(None);
      }
    }

    method AnyGeneric(base: Option<string>) returns (choice: Option<Id>)
      ensures choice.Some? ==> choice.value in sessions && Suits(choice.value, base)
      ensures choice.None? ==> forall t :: t in sessions ==> !Suits(t, base)
    {
      var todo := sessions.Keys;
      while todo != {}
        invariant todo <= sessions.Keys
        invariant forall t :: t in sessions && t !in todo ==> !Suits(t, base)
      {
        var t :| t in todo;
        if Suits(t, base) {
          return Some(t);
        }
        todo := todo - {t};
      }
      return None;
    }

    method UseLocked(id: Id, now: int) returns (out: Outcome)
      requires id in sessions
      modifies this
      ensures (View(), out) == Use(old(View()), id, now)
    {
      sessions := sessions[id := sessions[id].(lastUsed := now)];
      return Served(id, sessions[id].encoder);
    }

    method StartLocked(id: Id, now: int, launch: Launch)
      requires launch.Launched?
      modifies this
      ensures View() == Launching(old(View()), id, now, launch)
    {
      var silent := id in radioMuted && now < radioMuted[id];
      var n := |owners|;
      owners := owners + [id];
      live := live + {n};
      sessions := sessions[id := Session(n, now, now, launch.radio && !silent, launch.audio, launch.copy)];
    }

    method SupplyLocked(id: Id, variant: string, now: int, launch: Launch) returns (out: Outcome, ghost choice: Option<Id>)
      modifies this
      ensures ChoiceFits(old(sessions), Base(variant), choice)
      ensures (View(), out) == Supply(old(View()), id, now, choice, launch)
    {
      var target := PickFallback(variant);
      choice := target;
      if id in failedAt && now - failedAt[id] < RESTART_BACKOFF {
        out := BackingOff;
      } else if |sessions| >= MAX_PROCESSES {
        if target.None? {
          out := CapReached;
        } else {
          fallbacks := fallbacks[id := target.value];
          out := UseLocked(target.value, now);
        }
      } else if launch.Broken? {
        failedAt := failedAt[id := now];
        out := StartFailed;
      } else {
        StartLocked(id, now, launch);
        out := UseLocked(id, now);
      }
    }

    /** GetPath once the request is let in. */
    method ServeLocked(id: Id, variant: string, now: int, launch: Launch) returns (out: Outcome, ghost choice: Option<Id>)
      modifies this
      ensures ChoiceFits(LookUp(old(View()), id, now).0.sessions, Base(variant), choice)
      ensures (View(), out) == Answer(old(View()), id, now, choice, launch)
    {
      var found := LookUpLocked(id, now);
      if found.Some? && found.value in sessions {
        choice := SomeChoice(sessions, Base(variant));
        out := UseLocked(found.value, now);
      } else {
        out, choice := SupplyLocked(id, variant, now, launch);
      }
    }

    method Admit(variant: string, key: string) returns (refusal: Option<Outcome>)
      ensures refusal == Refusal(View(), sign, variant, key)
    {
      if !ValidVariant(variant) || (key != "" && !ValidKey(key)) {
        return Some(NotExist);
      }
      if stopped {
        return Some(Closed);
      }
      if key != "" && (key !in personal || personal[key].variant != variant || key != SignatureOf(sign, personal[key])) {
        return Some(NotExist);
      }
      return None;
    }

    method GetPath(variant: string, key: string, now: int, launch: Launch) returns (out: Outcome)
      modifies this
      ensures Results(old(View()), sign, variant, key, now, launch, View(), out)
    {
      ghost var before := View();
      var refusal := Admit(variant, key);
      if refusal.Some? {
        RefusedResult(before, sign, variant, key, now, launch);
        return refusal.value;
      }
      if key in personal {
        personal := personal[key := personal[key].(lastUsed := now)];
      }
      assert View() == Touch(before, key, now);
      ghost var choice;
      out, choice := ServeLocked(MakeId(variant, key), variant, now, launch);
      AnsweredResult(before, sign, variant, key, now, launch, choice);
    }

    /** Cancel, wait for the encoder to exit, and forget the session. */
    method StopLocked(id: Id)
      requires id in sessions
      modifies this
      ensures View() == Remove(old(View()), {id})
    {
      live := live - {sessions[id].encoder};
      sessions := sessions - {id};
    }

    method ReapIdle(now: int)
      modifies this
      ensures View() == SlateState.ReapIdle(old(View()), now)
    {
      ghost var before := View();
      var todo := sessions.Keys;
      ghost var done: set<Id> := {};
      RemoveNone(before);
      while todo != {}
        invariant View() == Remove(before, done)
        invariant todo <= before.sessions.Keys && done !! todo && done <= before.sessions.Keys
        invariant forall id :: id in before.sessions && id !in todo ==> (id in done <==> id in IdleSessions(before, now))
      {
        var id :| id in todo;
        if now - sessions[id].lastUsed > IDLE_TIME {
          RemoveOneMore(before, done, id);
          StopLocked(id);
          done := done + {id};
        }
        todo := todo - {id};
      }
      assert done == IdleSessions(before, now);
      DropIdleDescriptors(now);
    }

    method DropIdleDescriptors(now: int)
      modifies this
      ensures View() == old(View()).(personal := personal)
      ensures personal == map key | key in old(personal) && now - old(personal)[key].lastUsed <= IDLE_TIME :: old(personal)[key]
    {
      var all := personal;
      var todo := personal.Keys;
      while todo != {}
        invariant View() == old(View()).(personal := personal)
        invariant todo <= all.Keys && personal.Keys <= all.Keys
        invariant forall key :: key in all ==> (key in personal <==> key in todo || now - all[key].lastUsed <= IDLE_TIME)
        invariant forall key :: key in personal ==> personal[key] == all[key]
      {
        var key :| key in todo;
        if now - personal[key].lastUsed > IDLE_TIME {
          personal := personal - {key};
        }
        todo := todo - {key};
      }
    }

    method RestartOnAudioChange(loaded: Loaded, copies: Copies)
      modifies this
      ensures View() == SlateState.RestartOnAudioChange(old(View()), loaded, copies)
    {
      if loaded.LoadFails? {
        return;
      }
      ghost var before := View();
      var todo := sessions.Keys;
      ghost var done: set<Id> := {};
      RemoveNone(before);
      while todo != {}
        invariant View() == Remove(before, done)
        invariant todo <= before.sessions.Keys && done !! todo && done <= before.sessions.Keys
        invariant forall id :: id in before.sessions && id !in todo ==> (id in done <==> id in OutdatedSessions(before, loaded, copies))
      {
        var id :| id in todo;
        var session := sessions[id];
        var textChanged := false;
        if ValidVariant(id.variant) {
          var current := copies(Reason(id.variant));
          textChanged := current.Some? && current.value != session.copy;
        }
        if (loaded.Loaded? && session.audio.Some? && session.audio.value != loaded.audio) || textChanged {
          RemoveOneMore(before, done, id);
          StopLocked(id);
          done := done + {id};
        }
        todo := todo - {id};
      }
      assert done == OutdatedSessions(before, loaded, copies);
    }

    method Close()
      modifies this
      ensures View() == SlateState.Close(old(View()))
    {
      if stopped {
        return;
      }
      stopped := true;
      sessions := map[];
    }
  }

  /** There is always an end to the loops over the sessions. */
  lemma SomeChoice(sessions: map<Id, Session>, base: string) returns (choice: Option<Id>)
    ensures ChoiceFits(sessions, base, choice)
  {
    if t :| t in sessions && t.Generic? && Base(t.variant) == base {
      choice := Some(t);
    } else if t :| t in sessions && t.Generic? {
      choice := Some(t);
    } else {
      choice := None;
    }
  }

  lemma RefusedResult(s: State, sign: Signature, variant: string, key: string, now: int, launch: Launch)
    requires Refusal(s, sign, variant, key).Some?
    ensures Results(s, sign, variant, key, now, launch, s, Refusal(s, sign, variant, key).value)
  {
    var choice := SomeChoice(LookUp(Touch(s, key, now), MakeId(variant, key), now).0.sessions, Base(variant));
  }

  lemma AnsweredResult(s: State, sign: Signature, variant: string, key: string, now: int, launch: Launch, choice: Option<Id>)
    requires Refusal(s, sign, variant, key).None?
    requires ChoiceFits(LookUp(Touch(s, key, now), MakeId(variant, key), now).0.sessions, Base(variant), choice)
    ensures var (s', out) := Answer(Touch(s, key, now), MakeId(variant, key), now, choice, launch);
            Results(s, sign, variant, key, now, launch, s', out)
  {
  }

  predicate Suits(t: Id, base: Option<string>) {
    t.Generic? && (base.None? || Base(t.variant) == base.value)
  }

  lemma RemoveNone(s: State)
    ensures Remove(s, {}) == s
  {
  }

  lemma RemoveOneMore(s: State, done: set<Id>, id: Id)
    requires id in s.sessions && id !in done
    ensures id in Remove(s, done).sessions && Remove(Remove(s, done), {id}) == Remove(s, done + {id})
  {
    var a, b := Remove(Remove(s, done), {id}), Remove(s, done + {id});
    assert a.sessions == b.sessions;
    assert a.live == b.live;
  }
}

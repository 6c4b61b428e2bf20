/**
  Who closes a source response body, from the fetch to the end of the remux call it may be handed
  to: the entry and relay fetches, the sniffed prefix that is read twice but served once, and every
  close a run of the session manager makes.
 */
module BodyOwnership {
  import opened Common
  import opened RemuxState
  import opened RemuxSafety
  import opened RemuxRaces
  import RemuxTheorems

  type Byte = bv8

  /** A response body: what the source has still to deliver, and how often it was closed. */
  class Body {
    var unread: seq<Byte>
    var closes: nat

    constructor (content: seq<Byte>)
      ensures unread == content && closes == 0
    {
      unread, closes := content, 0;
    }

    /** One Read call: any number of the next bytes the transport happens to have, at most `limit`. */
    method Read(limit: nat, available: nat) returns (chunk: seq<Byte>)
      modifies this`unread
      ensures |chunk| <= limit && |chunk| <= available
      ensures old(unread) == chunk + unread
      ensures |chunk| == limit || |chunk| == available || unread == []
    {
      var n := if limit < available then limit else available;
      n := if n < |unread| then n else |unread|;
      chunk, unread := unread[..n], unread[n..];
    }

    method Close()
      modifies this`closes
      ensures closes == old(closes) + 1
    {
      closes := closes + 1;
    }
  }

  /** prefixedReadCloser: re-serves the sniffed bytes, then continues with the body. */
  class PrefixedReader {
    const prefix: seq<Byte>
    const body: Body
    var off: nat

    ghost predicate Valid()
      reads this
    {
      off <= |prefix|
    }

    /** Everything a reader of this object has yet to see. */
    ghost function Remaining(): seq<Byte>
      requires Valid()
      reads this, body
    {
      prefix[off..] + body.unread
    }

    constructor (prefix: seq<Byte>, body: Body)
      ensures Valid() && this.prefix == prefix && this.body == body
      ensures Remaining() == prefix + body.unread
    {
      this.prefix, this.body, off := prefix, body, 0;
    }

    /** No byte is lost, repeated or reordered between the sniff and the session. */
    method Read(limit: nat, available: nat) returns (chunk: seq<Byte>)
      requires Valid()
      modifies this`off, body`unread
      ensures Valid() && |chunk| <= limit
      ensures old(Remaining()) == chunk + Remaining()
      ensures available > 0 && limit > 0 && old(Remaining()) != [] ==> chunk != []
    {
      if off < |prefix| {
        var n := if limit < |prefix| - off then limit else |prefix| - off;
        chunk := prefix[off..off + n];
        assert prefix[off..] == chunk + prefix[off + n..];
        off := off + n;
        return;
      }
      chunk := body.Read(limit, available);
    }

    method Close()
      modifies body`closes
      ensures body.closes == old(body.closes) + 1
    {
      body.Close();
    }
  }

  /** closeOnceReadCloser: only the first Close reaches the reader below. */
  class CloseOnce {
    const reader: PrefixedReader
    var fired: bool

    constructor (reader: PrefixedReader)
      ensures this.reader == reader && !fired
    {
      this.reader := reader;
      fired := false;
    }

    method Close()
      modifies this, reader.body`closes
      ensures fired
      ensures reader.body.closes == old(reader.body.closes) + (if old(fired) then 0 else 1)
    {
      if !fired {
        fired := true;
        reader.Close();
      }
    }
  }

  function Sum(chunks: seq<nat>): nat {
    if chunks == [] then 0 else Sum(chunks[..|chunks| - 1]) + chunks[|chunks| - 1]
  }

  /** The head is the first `window` bytes, or fewer if the content or what the transport delivers ends before. */
  predicate HeadOf(head: seq<Byte>, content: seq<Byte>, window: nat, chunks: seq<nat>) {
    && head <= content && |head| <= window && |head| <= Sum(chunks)
    && (|head| == window || head == content || |head| == Sum(chunks))
  }

  /** io.ReadFull over the sniff window; the transport delivers `chunks[i]` bytes on the i-th read. */
  method ReadFull(body: Body, window: nat, chunks: seq<nat>) returns (head: seq<Byte>)
    modifies body`unread
    ensures old(body.unread) == head + body.unread && HeadOf(head, old(body.unread), window, chunks)
  {
    head := [];
    for i := 0 to |chunks|
      invariant old(body.unread) == head + body.unread && HeadOf(head, old(body.unread), window, chunks[..i])
    {
      assert chunks[..i + 1][..i] == chunks[..i];
      var chunk := body.Read(window - |head|, chunks[i]);
      head := head + chunk;
    }
    assert chunks[..|chunks|] == chunks;
  }

  // ---- the entry request ---------------------------------------------------

  datatype Fetch = Failed(timeout: bool) | Response(body: Body, status: nat)

  /** What a sniffed head looks like, in the order the handler asks. */
  datatype Kind = TransportStream | Playlist | Other

  /** The sniff: how the transport delivers, whether reading fails, and what a head looks like. */
  datatype Sniff = Sniff(window: nat, chunks: seq<nat>, fails: bool, kindOf: seq<Byte> -> Kind)

  /** What the environment answers about the stream during one entry request. */
  datatype Entry = Entry(
    refusing: bool,       // a session for this source is registered, asked without remux permission
    existing: bool,       // ... and when asked again, for everybody
    allowRemux: bool)

  /**
    sniffAndServe for an entry, with serveRemuxEntry, where `called` says whether Start called open;
    `transferred` is whether the body is no longer the caller's.
   */
  method SniffAndServe(sniff: Sniff, body: Body, allowRemux: bool, called: bool)
    returns (transferred: bool, handed: Option<PrefixedReader>, head: seq<Byte>)
    modifies body
    ensures HeadOf(head, old(body.unread), sniff.window, sniff.chunks)
    ensures transferred <==> !sniff.fails && sniff.kindOf(head).TransportStream? && allowRemux
    ensures handed.Some? <==> transferred && called
    ensures handed.Some? ==> handed.value.body == body && handed.value.Valid() && handed.value.Remaining() == old(body.unread)
    ensures body.closes == old(body.closes) + (if transferred && !called then 1 else 0)
  {
    handed := None;
    head := ReadFull(body, sniff.window, sniff.chunks);
    if sniff.fails {
      return false, None, head;
    }
    if sniff.kindOf(head).TransportStream? {
      if !allowRemux {
        return false, None, head;
      }
      var reader := new PrefixedReader(head, body);
      var used := false;
      if called {
        used, handed := true, Some(reader);
      }
      if !used {
        reader.Close();
      }
      return true, handed, head;
    }
    return false, None, head;   // a playlist or any other content was served from here
  }

  /** The request ends before anything is fetched. */
  predicate AnsweredBefore(e: Entry) {
    (!e.allowRemux && e.refusing) || e.existing
  }

  function Obtained(e: Entry, first: Fetch, second: Fetch): Option<Fetch> {
    if AnsweredBefore(e) then None
    else if first.Response? then Some(first)
    else if first.timeout && second.Response? then Some(second) else None
  }

  function Bodies(first: Fetch, second: Fetch): set<Body> {
    (if first.Response? then {first.body} else {}) + (if second.Response? then {second.body} else {})
  }

  /** serveEntry. `handed` is what a remux session now owns. */
  method ServeEntry(e: Entry, sniff: Sniff, first: Fetch, second: Fetch, called: bool)
    returns (handed: Option<PrefixedReader>, head: seq<Byte>)
    requires first.Response? && second.Response? ==> first.body != second.body
    modifies Bodies(first, second)
    ensures var got := Obtained(e, first, second);
            && (handed.Some? <==> got.Some? && got.value.status < 400 && called
                                  && !sniff.fails && sniff.kindOf(head).TransportStream? && e.allowRemux)
            && (got.Some? && got.value.status < 400 ==> HeadOf(head, old(got.value.body.unread), sniff.window, sniff.chunks))
            && (handed.Some? ==> handed.value.body == got.value.body && handed.value.Valid()
                                 && handed.value.Remaining() == old(got.value.body.unread))
            && (got.Some? ==> got.value.body.closes == old(got.value.body.closes) + (if handed.Some? then 0 else 1))
    ensures forall b :: b in Bodies(first, second) && (Obtained(e, first, second).None? || b != Obtained(e, first, second).value.body) ==>
              b.closes == old(b.closes)
    ensures first.Response? ==>
              first.body.closes == old(first.body.closes) + (if e.existing || (!e.allowRemux && e.refusing) || handed.Some? then 0 else 1)
    ensures second.Response? ==>
              second.body.closes == old(second.body.closes)
                + (if !e.existing && (e.allowRemux || !e.refusing) && first.Failed? && first.timeout && handed.None? then 1 else 0)
  {
    handed, head := None, [];
    if !e.allowRemux && e.refusing {
      return;
    }
    if e.existing {
      return;
    }
    var resp := first;
    if resp.Failed? && resp.timeout {
      resp := second;
    }
    if resp.Failed? {
      return;
    }
    if resp.status >= 400 {
      resp.body.Close();
      return;
    }
    var transferred;
    transferred, handed, head := SniffAndServe(sniff, resp.body, e.allowRemux, called);
    if !transferred {
      resp.body.Close();
    }
  }

  // ---- the always-on relay's source ----------------------------------------

  datatype RelaySource = NoSource | Direct(reader: PrefixedReader) | Pulled

  /** openRelaySource: the fetched body is closed before returning unless it is what is returned. */
  method OpenRelaySource(fetch: Fetch, sniff: Sniff) returns (source: RelaySource, head: seq<Byte>)
    modifies if fetch.Response? then {fetch.body} else {}
    ensures fetch.Failed? ==> source.NoSource?
    ensures source.Direct? <==> fetch.Response? && fetch.status < 400 && sniff.kindOf(head).TransportStream?
    ensures source.Pulled? <==> fetch.Response? && fetch.status < 400 && sniff.kindOf(head).Playlist?
    ensures fetch.Response? && fetch.status < 400 ==> HeadOf(head, old(fetch.body.unread), sniff.window, sniff.chunks)
    ensures source.Direct? ==> source.reader.Valid() && source.reader.body == fetch.body
                               && source.reader.Remaining() == old(fetch.body.unread)
    ensures fetch.Response? ==> fetch.body.closes == old(fetch.body.closes) + (if source.Direct? then 0 else 1)
  {
    head := [];
    if fetch.Failed? {
      return NoSource, head;
    }
    if fetch.status >= 400 {
      fetch.body.Close();
      return NoSource, head;
    }
    head := ReadFull(fetch.body, sniff.window, sniff.chunks);
    if sniff.kindOf(head).TransportStream? {
      var reader := new PrefixedReader(head, fetch.body);
      return Direct(reader), head;
    }
    fetch.body.Close();
    return if sniff.kindOf(head).Playlist? then Pulled else NoSource, head;
  }

  // ---- the remux call a body is handed to -----------------------------------

  predicate HasBody(s: State, call: Ref) {
    call in s.calls && !s.calls[call].body.NoBody?
  }

  /** The steps at which some goroutine of the call closes its body. */
  predicate ClosesBody(step: Step) {
    step.CloseOwn? || step.CloseExited? || step.AfterCancel?
  }

  function Closes(s: State, call: Ref): nat {
    if call in s.calls then s.calls[call].closes else 0
  }

  /** Open called back successfully during the run. */
  predicate Opened(events: seq<Event>, call: Ref) {
    EStep(call, OpenBody) in events
  }

  lemma TakenBody(c: Call, step: Step)
    requires CanTake(c, step)
    ensures var d := Take(c, step);
            && (d.body.NoBody? <==> c.body.NoBody? && !step.OpenBody?)
            && (d.body.Closed? <==> c.body.Closed? || (ClosesBody(step) && c.body.Open?))
            && d.closes == c.closes + (if ClosesBody(step) && c.body.Open? then 1 else 0)
  {
  }

  /** What an event does to the body of `call`. */
  lemma BodyStep(s: State, e: Event, call: Ref)
    requires RefsKnown(s) && Enabled(s, e)
    ensures var t := Next(s, e);
            && (HasBody(t, call) <==> HasBody(s, call) || e == EStep(call, OpenBody))
            && Closes(t, call) == Closes(s, call)
                 + (if e.EStep? && e.ref == call && ClosesBody(e.step) && s.calls[call].body.Open? then 1 else 0)
  {
    var t := Next(s, e);
    StepFollows(s, e);
    if e.EStart? {
      OthersLeft(t.calls, e.call);
      BodyOfNewRow(s, t, e, call);
    } else if e.EStep? {
      TakenBody(s.calls[e.ref], e.step);
      BodyOfStep(s, t, e.ref, e.step, call);
    }
  }

  lemma BodyOfNewRow(s: State, t: State, e: Event, call: Ref)
    requires e.EStart? && RowsFollow(s, t, e)
    ensures HasBody(t, call) == HasBody(s, call) && Closes(t, call) == Closes(s, call)
  {
    OthersLeft(t.calls, e.call);
    if call in s.calls {
      OldBody(s, t, e, call);
    } else if call in t.calls {
      NewRow(s, t, e, call);
    }
  }

  lemma OldBody(s: State, t: State, e: Event, q: Ref)
    requires e.EStart? && RowsFollow(s, t, e) && q in s.calls
    ensures q in t.calls && t.calls[q].body == s.calls[q].body && t.calls[q].closes == s.calls[q].closes
  {
    OthersLeft(t.calls, e.call);
  }

  lemma BodyOfStep(s: State, t: State, r: Ref, step: Step, call: Ref)
    requires r in s.calls && CanTake(s.calls[r], step) && t.calls == s.calls[r := Take(s.calls[r], step)]
    ensures HasBody(t, call) <==> HasBody(s, call) || EStep(r, step) == EStep(call, OpenBody)
    ensures Closes(t, call) == Closes(s, call) + (if r == call && ClosesBody(step) && s.calls[call].body.Open? then 1 else 0)
  {
    TakenBody(s.calls[r], step);
  }

  /** A call obtained a body exactly if its open succeeded at some point of the run. */
  lemma {:induction false} BodyObtainedExactly(s: State, events: seq<Event>, call: Ref)
    requires Runs(s, events)
    ensures HasBody(After(s, events), call) <==> HasBody(s, call) || Opened(events, call)
    decreases |events|
  {
    if events != [] {
      BodyStep(s, events[0], call);
      BodyObtainedExactly(Next(s, events[0]), events[1..], call);
      assert events == [events[0]] + events[1..];
    }
  }

  /** Every close that reaches the wrapped body while `events` happen to `call`, in their order. */
  method ReplayCloses(once: CloseOnce, start: State, events: seq<Event>, call: Ref)
    requires Valid(start) && Runs(start, events) && call !in start.calls && !once.fired
    modifies once, once.reader.body`closes
    ensures once.reader.body.closes == old(once.reader.body.closes) + Closes(After(start, events), call)
  {
    var s := start;
    ghost var before := once.reader.body.closes;
    for k := 0 to |events|
      invariant Valid(s) && Runs(s, events[k..]) && After(s, events[k..]) == After(start, events)
      invariant once.fired <==> Closes(s, call) == 1
      invariant once.reader.body.closes == before + Closes(s, call)
    {
      var e := events[k];
      assert events[k..][0] == e && events[k..][1..] == events[k + 1..];
      BodyStep(s, e, call);
      NextKeepsValid(s, e);
      ClosedAtMostOnce(s, call);
      ClosedAtMostOnce(Next(s, e), call);
      if e.EStep? && e.ref == call && ClosesBody(e.step) && !s.calls[call].body.NoBody? {
        once.Close();
      }
      s := Next(s, e);
    }
  }

  lemma ClosedAtMostOnce(s: State, call: Ref)
    requires CallsValid(s)
    ensures Closes(s, call) <= 1
    ensures call in s.calls ==> (Closes(s, call) == 1 <==> s.calls[call].body.Closed?)
  {
    if call in s.calls {
      assert CallValid(s.calls[call]);
    }
  }

  // ---- end to end ----------------------------------------------------------

  /** Start has returned to the request that was given the number `call`, if one was. */
  predicate StartReturned(s: State, call: Ref) {
    call in s.calls ==> s.calls[call].phase.Returned? || (Started(s.calls[call]) && !s.calls[call].waiting)
  }

  lemma RunFromInitial(capacity: nat, events: seq<Event>, call: Ref)
    requires Runs(Initial(capacity), events)
    ensures Valid(Initial(capacity)) && Valid(After(Initial(capacity), events))
    ensures HasBody(After(Initial(capacity), events), call) <==> Opened(events, call)
    ensures Closes(After(Initial(capacity), events), call) <= 1
  {
    InitialIsValid(capacity);
    RunsKeepValid(Initial(capacity), events);
    BodyObtainedExactly(Initial(capacity), events, call);
    ClosedAtMostOnce(After(Initial(capacity), events), call);
  }

  lemma ClosedAtRest(s: State, call: Ref)
    requires Valid(s) && RemuxTheorems.AtRest(s) && HasBody(s, call)
    ensures Closes(s, call) == 1
  {
    RemuxTheorems.CallAtRest(s, call);
  }

  /**
    An entry request together with a run of the session manager, observed at any time after its
    Start returned: the body it obtained has been closed at most once, by the request or by the
    call it was handed to, and exactly once when the manager is at rest.
   */
  method EntryInRun(e: Entry, sniff: Sniff, first: Fetch, second: Fetch, capacity: nat, events: seq<Event>, call: Ref)
    requires first.Response? && second.Response? ==> first.body != second.body
    requires Runs(Initial(capacity), events) && StartReturned(After(Initial(capacity), events), call)
    modifies Bodies(first, second)
    ensures var got, s := Obtained(e, first, second), After(Initial(capacity), events);
            got.Some? ==>
              && old(got.value.body.closes) <= got.value.body.closes <= old(got.value.body.closes) + 1
              && (RemuxTheorems.AtRest(s) ==> got.value.body.closes == old(got.value.body.closes) + 1)
  {
    RunFromInitial(capacity, events, call);
    ghost var s := After(Initial(capacity), events);
    var handed, head := ServeEntry(e, sniff, first, second, Opened(events, call));
    if handed.Some? {
      var once := new CloseOnce(handed.value);
      ReplayCloses(once, Initial(capacity), events, call);
      if RemuxTheorems.AtRest(s) {
        ClosedAtRest(s, call);
      }
    }
  }

  /**
    The same for a relay, whose open callback is openRelaySource: if the run opened the call exactly
    when that returned a source, the fetched body is closed at most once, and once at rest.
   */
  method RelayInRun(fetch: Fetch, sniff: Sniff, capacity: nat, events: seq<Event>, call: Ref) returns (source: RelaySource)
    requires fetch.Response? && Runs(Initial(capacity), events)
    modifies fetch.body
    ensures var s := After(Initial(capacity), events);
            (Opened(events, call) <==> !source.NoSource?) ==>
              && old(fetch.body.closes) <= fetch.body.closes <= old(fetch.body.closes) + 1
              && (RemuxTheorems.AtRest(s) ==> fetch.body.closes == old(fetch.body.closes) + 1)
  {
    RunFromInitial(capacity, events, call);
    ghost var s := After(Initial(capacity), events);
    var head;
    source, head := OpenRelaySource(fetch, sniff);
    if source.Direct? {
      var once := new CloseOnce(source.reader);
      ReplayCloses(once, Initial(capacity), events, call);
      if Opened(events, call) && RemuxTheorems.AtRest(s) {
        ClosedAtRest(s, call);
      }
    }
  }
}

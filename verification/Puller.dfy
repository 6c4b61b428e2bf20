/**
  The HLS puller: which media sequence numbers it fetches while following a playlist window that
  may slide, jump, shrink or restart. Sequence numbers are non-negative (RFC 8216, section
  4.3.3.2) and do not reach the end of the 64-bit range.
 */
module Puller {
  import opened Common

  const LIVE_EDGE_WINDOW: int := 3
  const MAX_FAILURES: nat := 5

  /** A loaded media playlist: `count` segments, numbered from `start`. */
  datatype Media = Media(start: nat, count: nat, ended: bool)

  datatype Load = Unusable(fatal: bool) | Loaded(media: Media)

  /** How fetching and copying one segment ends. */
  datatype Copy = Copied | Skipped | Fatal

  /** loadMedia refuses a playlist without segments. */
  predicate ValidLoad(l: Load) {
    l.Loaded? ==> l.media.count > 0
  }

  function Last(m: Media): int {
    m.start + m.count - 1
  }

  /** Where the loop over the segments starts, given the cursor (-1 before the first load). */
  function Rejoin(next: int, m: Media): int {
    if next < 0 || next > Last(m) + 1 || next < m.start then
      var edge := Last(m) - LIVE_EDGE_WINDOW + 1;
      if edge < m.start then m.start else edge
    else next
  }

  datatype End = EndOfStream | GaveUp | Aborted | OutOfLoads

  /** The numbers fetched from one playlist. */
  datatype Batch = Batch(media: Media, cursor: int, numbers: seq<int>)

  function Range(from: int, to: int): seq<int>
    requires from <= to + 1
  {
    seq(to + 1 - from, i requires 0 <= i => from + i)
  }

  /** The loop over the segments of one playlist, from `from` to the end of the window. */
  method FetchWindow(m: Media, cursor: int, from: int, load: nat, copies: (nat, int) -> Copy) returns (batch: Batch, fatal: bool, next: int)
    requires m.count > 0 && cursor >= -1 && from == Rejoin(cursor, m)
    ensures batch.media == m && batch.cursor == cursor && ValidBatch(batch)
    ensures !fatal ==> next == Last(m) + 1 && CompleteBatch(batch)
    ensures FatalIsLast(copies, load, batch.numbers)
    ensures fatal <==> MeetsFatal(copies, load, batch.numbers)
  {
    next, fatal := from, false;
    var numbers := [];
    var last := m.start + m.count - 1;
    while next <= last
      invariant from <= next <= last + 1
      invariant numbers == Range(from, next - 1)
      invariant forall k :: 0 <= k < |numbers| ==> !copies(load, numbers[k]).Fatal?
      decreases last + 1 - next
    {
      assert 0 <= next - m.start < m.count;   // m.segments[next - m.seq] is in range
      numbers := numbers + [next];
      if copies(load, next).Fatal? {
        assert from <= next <= Last(m) && numbers == Range(from, next);
        assert copies(load, numbers[|numbers| - 1]).Fatal?;
        return Batch(m, cursor, numbers), true, next;
      }
      next := next + 1;
    }
    batch := Batch(m, cursor, numbers);
  }

  /** One of the numbers fetched from the load ended the pull. */
  ghost predicate MeetsFatal(copies: (nat, int) -> Copy, load: nat, numbers: seq<int>) {
    exists k :: 0 <= k < |numbers| && copies(load, numbers[k]).Fatal?
  }

  /** ... and then it was the last. */
  ghost predicate FatalIsLast(copies: (nat, int) -> Copy, load: nat, numbers: seq<int>) {
    forall k :: 0 <= k < |numbers| - 1 ==> !copies(load, numbers[k]).Fatal?
  }

  /** The fifth unusable load in a row. */
  ghost predicate FifthInARow(loads: seq<Load>, i: nat) {
    4 <= i < |loads| && forall k :: i - 4 <= k <= i ==> loads[k].Unusable?
  }

  /** The numbers fetched from load `i`. */
  function NumbersOf(loads: seq<Load>, batches: seq<Batch>, i: nat): seq<int>
    requires i < |loads|
  {
    var b := |Medias(loads[..i])|;
    if b < |batches| then batches[b].numbers else []
  }

  /** How load `i` ends the pull, if it does. */
  ghost function EndBy(loads: seq<Load>, copies: (nat, int) -> Copy, batches: seq<Batch>, i: nat): Option<End>
    requires i < |loads|
  {
    match loads[i]
    case Unusable(fatal) => if fatal then Some(Aborted) else if FifthInARow(loads, i) then Some(GaveUp) else None
    case Loaded(media) =>
      if MeetsFatal(copies, i, NumbersOf(loads, batches, i)) then Some(Aborted)
      else if media.ended then Some(EndOfStream)
      else None
  }

  /** The loads before `used` left the pull going, and a fatal number was the last of its load. */
  ghost predicate GoesOn(loads: seq<Load>, copies: (nat, int) -> Copy, batches: seq<Batch>, used: nat) {
    used <= |loads| && forall i :: 0 <= i < used ==> EndBy(loads, copies, batches, i).None?
  }

  /** The pull ends with the first load that ends it, and as that load says; or the loads run out. */
  ghost predicate EndsExactly(loads: seq<Load>, copies: (nat, int) -> Copy, batches: seq<Batch>, end: End, used: nat) {
    && used <= |loads|
    && (forall i :: 0 <= i < used && loads[i].Loaded? ==> FatalIsLast(copies, i, NumbersOf(loads, batches, i)))
    && if end.OutOfLoads? then used == |loads| && GoesOn(loads, copies, batches, used)
       else used > 0 && GoesOn(loads, copies, batches, used - 1) && EndBy(loads, copies, batches, used - 1) == Some(end)
  }

  /** Exactly the last `failures` loads were unusable. */
  ghost predicate FailuresInARow(loads: seq<Load>, used: nat, failures: nat) {
    FailedToTheEnd(loads, used, failures) && (failures < used ==> loads[used - failures - 1].Loaded?)
  }

  /** The pull has gone on so far. */
  ghost predicate GoingOn(loads: seq<Load>, copies: (nat, int) -> Copy, batches: seq<Batch>, used: nat, failures: nat) {
    && GoesOn(loads, copies, batches, used) && FailuresInARow(loads, used, failures) && failures < 5
    && |batches| == |Medias(loads[..used])|
    && forall i :: 0 <= i < used && loads[i].Loaded? ==> FatalIsLast(copies, i, NumbersOf(loads, batches, i))
  }

  lemma {:induction false} MediasGrow(loads: seq<Load>, i: nat, n: nat)
    requires i < n <= |loads| && loads[i].Loaded?
    ensures |Medias(loads[..i])| < |Medias(loads[..n])|
    decreases n
  {
    assert loads[..n][..n - 1] == loads[..n - 1];
    if i < n - 1 {
      MediasGrow(loads, i, n - 1);
    }
  }

  /** What was fetched from earlier loads stays as it was. */
  lemma EarlierNumbersStay(loads: seq<Load>, batches: seq<Batch>, b: Batch, used: nat)
    requires used <= |loads| && |batches| == |Medias(loads[..used])|
    ensures forall i :: 0 <= i < used && loads[i].Loaded? ==> NumbersOf(loads, batches + [b], i) == NumbersOf(loads, batches, i)
  {
    forall i | 0 <= i < used && loads[i].Loaded? ensures NumbersOf(loads, batches + [b], i) == NumbersOf(loads, batches, i) {
      MediasGrow(loads, i, used);
    }
  }

  lemma UnusableGoesOn(loads: seq<Load>, copies: (nat, int) -> Copy, batches: seq<Batch>, used: nat, failures: nat)
    requires GoingOn(loads, copies, batches, used, failures) && used < |loads| && loads[used].Unusable?
    ensures loads[used].fatal ==> EndsExactly(loads, copies, batches, Aborted, used + 1)
    ensures !loads[used].fatal && failures + 1 >= 5 ==> EndsExactly(loads, copies, batches, GaveUp, used + 1)
    ensures !loads[used].fatal && failures + 1 < 5 ==> GoingOn(loads, copies, batches, used + 1, failures + 1)
  {
    assert loads[..used + 1][..used] == loads[..used];
    assert FifthInARow(loads, used) <==> failures == 4;
  }

  lemma BatchGoesOn(loads: seq<Load>, copies: (nat, int) -> Copy, batches: seq<Batch>, used: nat, failures: nat, b: Batch)
    requires GoingOn(loads, copies, batches, used, failures) && used < |loads| && loads[used] == Loaded(b.media)
    requires FatalIsLast(copies, used, b.numbers)
    ensures MeetsFatal(copies, used, b.numbers) ==> EndsExactly(loads, copies, batches + [b], Aborted, used + 1)
    ensures !MeetsFatal(copies, used, b.numbers) && b.media.ended ==> EndsExactly(loads, copies, batches + [b], EndOfStream, used + 1)
    ensures !MeetsFatal(copies, used, b.numbers) && !b.media.ended ==> GoingOn(loads, copies, batches + [b], used + 1, 0)
  {
    assert loads[..used + 1][..used] == loads[..used];
    assert NumbersOf(loads, batches + [b], used) == b.numbers;
    EarlierNumbersStay(loads, batches, b, used);
    forall i | 0 <= i < used ensures EndBy(loads, copies, batches + [b], i) == EndBy(loads, copies, batches, i) {
    }
  }

  /** The playlists among the loads, in order. */
  function Medias(loads: seq<Load>): seq<Media> {
    if loads == [] then []
    else Medias(loads[..|loads| - 1]) + (if loads[|loads| - 1].Loaded? then [loads[|loads| - 1].media] else [])
  }

  function MediasOf(batches: seq<Batch>): seq<Media> {
    seq(|batches|, b requires 0 <= b < |batches| => batches[b].media)
  }

  /** The last `n` of the loads used so far were unusable. */
  ghost predicate FailedToTheEnd(loads: seq<Load>, used: nat, n: nat) {
    n <= used <= |loads| && forall i :: used - n <= i < used ==> loads[i].Unusable?
  }

  /** What run has done when it asks for the next playlist. */
  ghost predicate Following(loads: seq<Load>, used: nat, batches: seq<Batch>, next: int, failures: nat) {
    && used <= |loads| && failures < MAX_FAILURES
    && next == CursorAfter(-1, batches) && next >= -1
    && ChainedBatches(-1, batches)
    && (forall b :: 0 <= b < |batches| ==> CompleteBatch(batches[b]) && !batches[b].media.ended)
    && MediasOf(batches) == Medias(loads[..used])
    && FailedToTheEnd(loads, used, failures)
  }

  lemma AfterUnusable(loads: seq<Load>, used: nat, batches: seq<Batch>, next: int, failures: nat)
    requires Following(loads, used, batches, next, failures) && used < |loads| && loads[used].Unusable?
    ensures FailedToTheEnd(loads, used + 1, failures + 1)
    ensures failures + 1 < MAX_FAILURES ==> Following(loads, used + 1, batches, next, failures + 1)
    ensures MediasOf(batches) == Medias(loads[..used + 1])
  {
    assert loads[..used + 1][..used] == loads[..used];
  }

  lemma AfterBatch(loads: seq<Load>, used: nat, batches: seq<Batch>, next: int, failures: nat, b: Batch)
    requires Following(loads, used, batches, next, failures) && used < |loads|
    requires loads[used] == Loaded(b.media) && ValidBatch(b) && b.cursor == next
    ensures ChainedBatches(-1, batches + [b]) && MediasOf(batches + [b]) == Medias(loads[..used + 1])
    ensures CompleteBatch(b) && !b.media.ended ==> Following(loads, used + 1, batches + [b], Last(b.media) + 1, 0)
  {
    assert loads[..used + 1][..used] == loads[..used];
    assert MediasOf(batches + [b]) == MediasOf(batches) + [b.media];
    ChainGrows(-1, batches, b);
  }

  /** What run promises when it returns. */
  ghost predicate Ended(loads: seq<Load>, batches: seq<Batch>, end: End, used: nat) {
    && used <= |loads| && ChainedBatches(-1, batches) && MediasOf(batches) == Medias(loads[..used])
    && (forall b :: 0 <= b < |batches| - 1 ==> !batches[b].media.ended)
    && match end
       case EndOfStream => batches != [] && CompleteBatch(batches[|batches| - 1]) && batches[|batches| - 1].media.ended
       case GaveUp => FailedToTheEnd(loads, used, MAX_FAILURES)
       case Aborted => true
       case OutOfLoads => used == |loads| && forall b :: 0 <= b < |batches| ==> CompleteBatch(batches[b]) && !batches[b].media.ended
  }

  lemma EndsUnusable(loads: seq<Load>, used: nat, batches: seq<Batch>, next: int, failures: nat)
    requires Following(loads, used, batches, next, failures) && used < |loads| && loads[used].Unusable?
    ensures Ended(loads, batches, Aborted, used + 1)
    ensures failures + 1 >= MAX_FAILURES ==> Ended(loads, batches, GaveUp, used + 1)
  {
    AfterUnusable(loads, used, batches, next, failures);
  }

  lemma EndsWithBatch(loads: seq<Load>, used: nat, batches: seq<Batch>, next: int, failures: nat, b: Batch)
    requires Following(loads, used, batches, next, failures) && used < |loads|
    requires loads[used] == Loaded(b.media) && ValidBatch(b) && b.cursor == next
    ensures Ended(loads, batches + [b], Aborted, used + 1)
    ensures CompleteBatch(b) && b.media.ended ==> Ended(loads, batches + [b], EndOfStream, used + 1)
  {
    AfterBatch(loads, used, batches, next, failures, b);
  }

  lemma EndsOutOfLoads(loads: seq<Load>, batches: seq<Batch>, next: int, failures: nat)
    requires Following(loads, |loads|, batches, next, failures)
    ensures Ended(loads, batches, OutOfLoads, |loads|)
  {
  }

  /** The beginning of the loop's body: where to fetch from. */
  method FindCursor(next: int, m: Media) returns (from: int)
    ensures from == Rejoin(next, m)
  {
    from := next;
    var last := m.start + m.count - 1;
    if next < 0 || next > last + 1 || next < m.start {
      from := last - LIVE_EDGE_WINDOW + 1;
      if from < m.start {
        from := m.start;
      }
    }
  }

  ghost predicate Pulling(loads: seq<Load>, copies: (nat, int) -> Copy, batches: seq<Batch>, used: nat, next: int, failures: nat) {
    Following(loads, used, batches, next, failures) && GoingOn(loads, copies, batches, used, failures)
  }

  ghost predicate Pulled(loads: seq<Load>, copies: (nat, int) -> Copy, batches: seq<Batch>, end: End, used: nat) {
    Ended(loads, batches, end, used) && EndsExactly(loads, copies, batches, end, used)
  }

  lemma OnUnusable(loads: seq<Load>, copies: (nat, int) -> Copy, batches: seq<Batch>, used: nat, next: int, failures: nat)
    requires Pulling(loads, copies, batches, used, next, failures) && used < |loads| && loads[used].Unusable?
    ensures if loads[used].fatal then Pulled(loads, copies, batches, Aborted, used + 1)
            else if failures + 1 >= MAX_FAILURES then Pulled(loads, copies, batches, GaveUp, used + 1)
            else Pulling(loads, copies, batches, used + 1, next, failures + 1)
  {
    EndsUnusable(loads, used, batches, next, failures);
    AfterUnusable(loads, used, batches, next, failures);
    UnusableGoesOn(loads, copies, batches, used, failures);
  }

  lemma OnBatch(loads: seq<Load>, copies: (nat, int) -> Copy, batches: seq<Batch>, used: nat, next: int, failures: nat, b: Batch)
    requires Pulling(loads, copies, batches, used, next, failures) && used < |loads| && loads[used] == Loaded(b.media)
    requires ValidBatch(b) && b.cursor == next && FatalIsLast(copies, used, b.numbers)
    requires !MeetsFatal(copies, used, b.numbers) ==> CompleteBatch(b)
    ensures if MeetsFatal(copies, used, b.numbers) then Pulled(loads, copies, batches + [b], Aborted, used + 1)
            else if b.media.ended then Pulled(loads, copies, batches + [b], EndOfStream, used + 1)
            else Pulling(loads, copies, batches + [b], used + 1, Last(b.media) + 1, 0)
  {
    EndsWithBatch(loads, used, batches, next, failures, b);
    AfterBatch(loads, used, batches, next, failures, b);
    BatchGoesOn(loads, copies, batches, used, failures, b);
  }

  lemma OutOfLoadsEnds(loads: seq<Load>, copies: (nat, int) -> Copy, batches: seq<Batch>, next: int, failures: nat)
    requires Pulling(loads, copies, batches, |loads|, next, failures)
    ensures Pulled(loads, copies, batches, OutOfLoads, |loads|)
  {
    EndsOutOfLoads(loads, batches, next, failures);
  }

  lemma NothingYet(loads: seq<Load>, copies: (nat, int) -> Copy)
    ensures Pulling(loads, copies, [], 0, -1, 0)
  {
  }

  /** The body of the loop: one load followed. `stop` is how the pull ended, if it did. */
  method FollowLoad(loads: seq<Load>, copies: (nat, int) -> Copy, before: seq<Batch>, used: nat, cursor: int, failed: nat)
    returns (batches: seq<Batch>, next: int, failures: nat, stop: Option<End>)
    requires used < |loads| && ValidLoad(loads[used]) && Pulling(loads, copies, before, used, cursor, failed)
    ensures stop.None? ==> Pulling(loads, copies, batches, used + 1, next, failures)
    ensures stop.Some? ==> Pulled(loads, copies, batches, stop.value, used + 1)
  {
    batches, next, failures, stop := before, cursor, failed, None;
    var load := loads[used];
    if load.Unusable? {
      OnUnusable(loads, copies, before, used, cursor, failed);
      if load.fatal {
        stop := Some(Aborted);
        return;
      }
      failures := failures + 1;
      if failures >= MAX_FAILURES {
        stop := Some(GaveUp);
      }
    } else {
      var from := FindCursor(cursor, load.media);
      var batch, fatal, after := FetchWindow(load.media, cursor, from, used, copies);
      OnBatch(loads, copies, before, used, cursor, failed, batch);
      batches, failures, next := before + [batch], 0, after;
      if fatal {
        stop := Some(Aborted);
      } else if load.media.ended {
        stop := Some(EndOfStream);
      }
    }
  }

  /**
    run. `loads` are the answers of successive playlist loads (when they run out the caller has
    closed the reader), `copies` the fate of each number of each load. Returns what was fetched:
    one batch for each usable playlist, each starting from the cursor the one before it left.
   */
  method Run(loads: seq<Load>, copies: (nat, int) -> Copy) returns (batches: seq<Batch>, end: End, used: nat)
    requires forall i :: 0 <= i < |loads| ==> ValidLoad(loads[i])
    ensures Ended(loads, batches, end, used)
    ensures EndsExactly(loads, copies, batches, end, used)
  {
    batches, used := [], 0;
    var next := -1;
    var failures := 0;
    NothingYet(loads, copies);
    while used < |loads|
      invariant used <= |loads| && Pulling(loads, copies, batches, used, next, failures)
      decreases |loads| - used
    {
      var stop;
      batches, next, failures, stop := FollowLoad(loads, copies, batches, used, next, failures);
      used := used + 1;
      if stop.Some? {
        return batches, stop.value, used;
      }
    }
    OutOfLoadsEnds(loads, copies, batches, next, failures);
    end := OutOfLoads;
  }

  // ---- what is fetched -----------------------------------------------------

  /** From the rejoin point the whole rest of the window, in order. */
  predicate CompleteBatch(b: Batch) {
    Rejoin(b.cursor, b.media) <= Last(b.media) + 1 && b.numbers == Range(Rejoin(b.cursor, b.media), Last(b.media))
  }

  /** ... or a non-empty beginning of it, when a segment ends the pull. */
  predicate ValidBatch(b: Batch) {
    && b.media.count > 0 && b.cursor >= -1
    && (CompleteBatch(b) ||
        exists to :: Rejoin(b.cursor, b.media) <= to <= Last(b.media) && b.numbers == Range(Rejoin(b.cursor, b.media), to))
  }

  function CursorAfter(cursor: int, batches: seq<Batch>): int {
    if batches == [] then cursor else Last(batches[|batches| - 1].media) + 1
  }

  /** Each batch starts from the cursor the one before it left. */
  ghost predicate ChainedBatches(cursor: int, batches: seq<Batch>) {
    forall b :: 0 <= b < |batches| ==>
      ValidBatch(batches[b]) && batches[b].cursor == CursorAfter(cursor, batches[..b]) && (b < |batches| - 1 ==> CompleteBatch(batches[b]))
  }

  lemma ChainGrows(cursor: int, batches: seq<Batch>, b: Batch)
    requires ChainedBatches(cursor, batches) && forall i :: 0 <= i < |batches| ==> CompleteBatch(batches[i])
    requires ValidBatch(b) && b.cursor == CursorAfter(cursor, batches)
    ensures ChainedBatches(cursor, batches + [b])
  {
    assert forall i :: 0 <= i <= |batches| ==> (batches + [b])[..i] == batches[..i];
    assert batches[..|batches|] == batches;
  }

  function Fetched(batches: seq<Batch>): seq<int> {
    if batches == [] then [] else Fetched(batches[..|batches| - 1]) + batches[|batches| - 1].numbers
  }

  /** Numbers stay inside the playlist they came from, ascend by one, and never overlap the cursor. */
  lemma BatchIsConsecutive(b: Batch)
    requires ValidBatch(b)
    ensures forall i :: 0 <= i < |b.numbers| ==> b.media.start <= b.numbers[i] <= Last(b.media)
    ensures forall i :: 0 <= i < |b.numbers| - 1 ==> b.numbers[i + 1] == b.numbers[i] + 1
    ensures b.numbers != [] ==> b.numbers[0] == Rejoin(b.cursor, b.media)
  {
  }

  /** A first load or a jump lands within the last three segments; otherwise nothing is left out. */
  lemma RejoinIsNearTheLiveEdge(b: Batch)
    requires ValidBatch(b)
    ensures var from := Rejoin(b.cursor, b.media);
            && b.media.start <= from <= Last(b.media) + 1
            && (from != b.cursor ==> from > Last(b.media) - LIVE_EDGE_WINDOW && from <= Last(b.media))
            && (b.media.start <= b.cursor <= Last(b.media) + 1 ==> from == b.cursor)
            && (from > b.cursor >= 0 ==> b.media.start > b.cursor)
  {
  }

  /** A first load or a jump is joined at the last three segments, or the whole window if it is shorter. */
  lemma RejoinFetchesThree(b: Batch)
    requires ValidBatch(b) && CompleteBatch(b) && !(b.media.start <= b.cursor <= Last(b.media) + 1)
    ensures |b.numbers| == if b.media.count < 3 then b.media.count else 3
    ensures b.numbers != [] && b.numbers[|b.numbers| - 1] == b.media.start + b.media.count - 1
  {
  }

  ghost predicate LastNeverDecreases(batches: seq<Batch>) {
    forall b :: 0 < b < |batches| ==> Last(batches[b - 1].media) <= Last(batches[b].media)
  }

  ghost predicate Ascending(s: seq<int>) {
    forall i, j :: 0 <= i < j < |s| ==> s[i] < s[j]
  }

  /**
    While the last sequence number never decreases, the whole run fetches strictly ascending
    numbers: nothing is fetched twice and nothing goes backwards.
   */
  lemma {:induction false} NothingIsFetchedTwice(batches: seq<Batch>)
    requires ChainedBatches(-1, batches) && LastNeverDecreases(batches)
    ensures Ascending(Fetched(batches))
    ensures forall i :: 0 <= i < |Fetched(batches)| ==> Fetched(batches)[i] < CursorAfter(-1, batches)
    decreases |batches|
  {
    if batches != [] {
      var rest, b := batches[..|batches| - 1], batches[|batches| - 1];
      ChainShrinks(batches);
      NothingIsFetchedTwice(rest);
      RangeAscends(b);
      RejoinIsNearTheLiveEdge(b);
      if rest != [] {
        assert Last(batches[|batches| - 2].media) <= Last(b.media);
      }
      AscendingJoins(Fetched(rest), b.numbers, b.cursor);
    }
  }

  lemma ChainShrinks(batches: seq<Batch>)
    requires batches != [] && ChainedBatches(-1, batches) && LastNeverDecreases(batches)
    ensures var rest := batches[..|batches| - 1];
            && ChainedBatches(-1, rest) && LastNeverDecreases(rest)
            && ValidBatch(batches[|batches| - 1]) && batches[|batches| - 1].cursor == CursorAfter(-1, rest)
            && (rest != [] ==> rest[|rest| - 1] == batches[|batches| - 2])
  {
    var rest := batches[..|batches| - 1];
    assert forall i :: 0 <= i <= |rest| ==> rest[..i] == batches[..i];
  }

  lemma AscendingJoins(s: seq<int>, t: seq<int>, bound: int)
    requires Ascending(s) && Ascending(t)
    requires forall i :: 0 <= i < |s| ==> s[i] < bound
    requires forall i :: 0 <= i < |t| ==> t[i] >= bound
    ensures Ascending(s + t)
  {
  }

  lemma RangeAscends(b: Batch)
    requires ValidBatch(b)
    ensures Ascending(b.numbers)
    ensures forall i :: 0 <= i < |b.numbers| ==> Rejoin(b.cursor, b.media) <= b.numbers[i] <= Last(b.media)
  {
  }

  /** Numbers are left out between two playlists only when the window has moved past the cursor. */
  lemma GapsAreForced(batches: seq<Batch>, b: nat)
    requires ChainedBatches(-1, batches) && 0 < b < |batches| && batches[b].numbers != []
    requires Last(batches[b - 1].media) <= Last(batches[b].media)
    ensures batches[b].numbers[0] == Last(batches[b - 1].media) + 1
            || batches[b].media.start > Last(batches[b - 1].media) + 1
  {
    assert batches[..b][|batches[..b]| - 1] == batches[b - 1];
    BatchIsConsecutive(batches[b]);
    RejoinIsNearTheLiveEdge(batches[b]);
  }

  // ---- restarts ------------------------------------------------------------

  ghost predicate AllComplete(batches: seq<Batch>) {
    forall b :: 0 <= b < |batches| ==> CompleteBatch(batches[b])
  }

  /** The last number of the newest playlist has been fetched. */
  lemma {:induction false} LastWasFetched(batches: seq<Batch>)
    requires batches != [] && ChainedBatches(-1, batches) && AllComplete(batches)
    ensures Last(batches[|batches| - 1].media) in Fetched(batches)
    decreases |batches|
  {
    var rest, b := batches[..|batches| - 1], batches[|batches| - 1];
    ChainDrops(batches);
    if b.numbers != [] {
      assert b.numbers[|b.numbers| - 1] == Last(b.media);
    } else {
      RejoinIsNearTheLiveEdge(b);
      LastWasFetched(rest);
    }
  }

  lemma ChainDrops(batches: seq<Batch>)
    requires batches != [] && ChainedBatches(-1, batches)
    ensures var rest := batches[..|batches| - 1];
            && ChainedBatches(-1, rest)
            && ValidBatch(batches[|batches| - 1]) && batches[|batches| - 1].cursor == CursorAfter(-1, rest)
            && Fetched(batches) == Fetched(rest) + batches[|batches| - 1].numbers
  {
    var rest := batches[..|batches| - 1];
    assert forall i :: 0 <= i <= |rest| ==> rest[..i] == batches[..i];
  }

  /** A playlist that ends below the cursor's number is joined below it. */
  lemma DropRejoinsBelow(b: Batch)
    requires ValidBatch(b) && CompleteBatch(b) && Last(b.media) + 1 < b.cursor
    ensures b.numbers != [] && b.numbers[0] < b.cursor - 1
  {
    RejoinIsNearTheLiveEdge(b);
  }

  lemma NotAscending(s: seq<int>, t: seq<int>, x: int)
    requires x in s && t != [] && t[0] <= x
    ensures !Ascending(s + t)
  {
    var i :| 0 <= i < |s| && s[i] == x;
    assert (s + t)[i] == x && (s + t)[|s|] == t[0];
  }

  lemma OrderAllowsNoDrop(fetched: seq<int>, b: Batch)
    requires ValidBatch(b) && CompleteBatch(b) && b.cursor - 1 in fetched && Ascending(fetched + b.numbers)
    ensures Last(b.media) >= b.cursor - 1
  {
    if Last(b.media) < b.cursor - 1 {
      DropRejoinsBelow(b);
      NotAscending(fetched, b.numbers, b.cursor - 1);
    }
  }

  lemma OneMoreWithoutDrop(rest: seq<Batch>, b: Batch)
    requires LastNeverDecreases(rest) && (rest != [] ==> Last(rest[|rest| - 1].media) <= Last(b.media))
    ensures LastNeverDecreases(rest + [b])
  {
  }

  /** A last batch that keeps the order does not end below the one before. */
  lemma OrderedStep(batches: seq<Batch>)
    requires batches != [] && ChainedBatches(-1, batches) && AllComplete(batches) && Ascending(Fetched(batches))
    ensures var rest, b := batches[..|batches| - 1], batches[|batches| - 1];
            && ChainedBatches(-1, rest) && AllComplete(rest) && Ascending(Fetched(rest))
            && (rest != [] ==> Last(rest[|rest| - 1].media) <= Last(b.media))
  {
    var rest, b := batches[..|batches| - 1], batches[|batches| - 1];
    ChainDrops(batches);
    AscendingPrefix(Fetched(rest), b.numbers);
    if rest != [] {
      LastWasFetched(rest);
      OrderAllowsNoDrop(Fetched(rest), b);
    }
  }

  lemma {:induction false} OrderedOnlyWithoutDrops(batches: seq<Batch>)
    requires ChainedBatches(-1, batches) && AllComplete(batches) && Ascending(Fetched(batches))
    ensures LastNeverDecreases(batches)
    decreases |batches|
  {
    if batches != [] {
      var rest, b := batches[..|batches| - 1], batches[|batches| - 1];
      OrderedStep(batches);
      OrderedOnlyWithoutDrops(rest);
      OneMoreWithoutDrop(rest, b);
      assert batches == rest + [b];
    }
  }

  lemma AscendingPrefix(s: seq<int>, t: seq<int>)
    requires Ascending(s + t)
    ensures Ascending(s)
  {
    forall i, j | 0 <= i < j < |s| ensures s[i] < s[j] {
      assert (s + t)[i] < (s + t)[j];
    }
  }

  /**
    Following playlists to their ends, the run fetches in strictly ascending order exactly when no
    playlist's last number is lower than that of the one before.
   */
  lemma AscendingExactly(batches: seq<Batch>)
    requires ChainedBatches(-1, batches) && AllComplete(batches)
    ensures Ascending(Fetched(batches)) <==> LastNeverDecreases(batches)
  {
    if LastNeverDecreases(batches) {
      NothingIsFetchedTwice(batches);
    }
    if Ascending(Fetched(batches)) {
      OrderedOnlyWithoutDrops(batches);
    }
  }

  ghost predicate Repeats(s: seq<int>) {
    exists i, j :: 0 <= i < j < |s| && s[i] == s[j]
  }

  /** Playlist `b` is joined at or before the number `x`, which the run had fetched before. */
  ghost predicate MeetsFetched(batches: seq<Batch>, b: nat, x: int) {
    && b < |batches| && x in Fetched(batches[..b])
    && Rejoin(batches[b].cursor, batches[b].media) <= x <= Last(batches[b].media)
  }

  lemma AscendingIsApart(t: seq<int>, i: int, j: int)
    requires Ascending(t)
    ensures 0 <= i < j < |t| ==> t[i] != t[j]
  {
  }

  lemma RepeatInJoin(s: seq<int>, t: seq<int>)
    requires Ascending(t) && Repeats(s + t)
    ensures Repeats(s) || exists x :: x in s && x in t
  {
    var all := s + t;
    var i, j :| 0 <= i < j < |all| && all[i] == all[j];
    AscendingIsApart(t, i - |s|, j - |s|);
    if j < |s| {
      assert s[i] == s[j];
    } else {
      assert all[i] in s && t[j - |s|] in t;
    }
  }

  lemma JoinRepeats(s: seq<int>, t: seq<int>, x: int)
    ensures Repeats(s) ==> Repeats(s + t)
    ensures x in s && x in t ==> Repeats(s + t)
  {
    var all := s + t;
    if Repeats(s) {
      var i, j :| 0 <= i < j < |s| && s[i] == s[j];
      assert all[i] == all[j];
    }
    if x in s && x in t {
      var i :| 0 <= i < |s| && s[i] == x;
      var j :| 0 <= j < |t| && t[j] == x;
      assert all[i] == x && all[|s| + j] == x;
    }
  }

  lemma MeetsInPrefix(batches: seq<Batch>, b: nat, x: int)
    requires batches != [] && b < |batches| - 1
    ensures MeetsFetched(batches, b, x) <==> MeetsFetched(batches[..|batches| - 1], b, x)
  {
    assert batches[..|batches| - 1][..b] == batches[..b];
  }

  lemma InRange(from: int, to: int, x: int)
    requires from <= to + 1
    ensures x in Range(from, to) <==> from <= x <= to
  {
    if from <= x <= to {
      assert Range(from, to)[x - from] == x;
    }
  }

  lemma LastBatchMeets(batches: seq<Batch>, x: int)
    requires batches != [] && CompleteBatch(batches[|batches| - 1])
    ensures MeetsFetched(batches, |batches| - 1, x) <==>
            x in Fetched(batches[..|batches| - 1]) && x in batches[|batches| - 1].numbers
  {
    var b := batches[|batches| - 1];
    InRange(Rejoin(b.cursor, b.media), Last(b.media), x);
  }

  /** A number fetched twice was met by the newest playlist, or twice before it. */
  lemma RepeatWasMet(batches: seq<Batch>) returns (x: int)
    requires batches != [] && ChainedBatches(-1, batches) && AllComplete(batches) && Repeats(Fetched(batches))
    ensures Repeats(Fetched(batches[..|batches| - 1])) || MeetsFetched(batches, |batches| - 1, x)
  {
    var rest, b := batches[..|batches| - 1], batches[|batches| - 1];
    ChainDrops(batches);
    RangeAscends(b);
    RepeatInJoin(Fetched(rest), b.numbers);
    x := 0;
    if !Repeats(Fetched(rest)) {
      x :| x in Fetched(rest) && x in b.numbers;
      LastBatchMeets(batches, x);
    }
  }

  lemma {:induction false} MeetingRepeats(batches: seq<Batch>, b: nat, x: int)
    requires ChainedBatches(-1, batches) && AllComplete(batches) && MeetsFetched(batches, b, x)
    ensures Repeats(Fetched(batches))
    decreases |batches|
  {
    var rest, last := batches[..|batches| - 1], batches[|batches| - 1];
    ChainDrops(batches);
    if b == |rest| {
      LastBatchMeets(batches, x);
    } else {
      MeetsInPrefix(batches, b, x);
      MeetingRepeats(rest, b, x);
    }
    JoinRepeats(Fetched(rest), last.numbers, x);
  }

  /**
    Following playlists to their ends, the run fetches some number twice exactly when some playlist
    is joined at or before a number fetched earlier in the run.
   */
  lemma {:induction false} RepeatsExactly(batches: seq<Batch>)
    requires ChainedBatches(-1, batches) && AllComplete(batches)
    ensures Repeats(Fetched(batches)) <==> exists b, x :: MeetsFetched(batches, b, x)
    decreases |batches|
  {
    if Repeats(Fetched(batches)) {
      var y := RepeatWasMet(batches);
      var rest := batches[..|batches| - 1];
      if Repeats(Fetched(rest)) {
        ChainDrops(batches);
        RepeatsExactly(rest);
        var b, x :| MeetsFetched(rest, b, x);
        MeetsInPrefix(batches, b, x);
      }
    }
    if exists b, x :: MeetsFetched(batches, b, x) {
      var b, x :| MeetsFetched(batches, b, x);
      MeetingRepeats(batches, b, x);
    }
  }

  /** A restart can have a number fetched again: here the window goes from 10..12 back to 10. */
  lemma RestartFetchesAgain()
    ensures exists batches, i, j :: ChainedBatches(-1, batches) && AllComplete(batches)
                                    && 0 <= i < j < |Fetched(batches)| && Fetched(batches)[i] == Fetched(batches)[j]
  {
    var b0 := Batch(Media(10, 3, false), -1, Range(10, 12));
    var b1 := Batch(Media(10, 1, false), 13, Range(10, 10));
    var batches := [b0, b1];
    assert CompleteBatch(b0) && CompleteBatch(b1);
    assert batches[..0] == [] && batches[..1] == [b0];
    assert ChainedBatches(-1, batches);
    assert Fetched([b0]) == Fetched([]) + b0.numbers;
    assert Fetched(batches) == [10, 11, 12, 10];
    assert Fetched(batches)[0] == Fetched(batches)[3];
  }

  // ---- choosing a variant --------------------------------------------------

  /** The lines of a playlist as resolveVariant reads them; `target` is None for an unparsable URI. */
  datatype Line = StreamInf(bandwidth: int) | Uri(target: Option<string>) | Ignored

  datatype Variant = MediaPlaylist | Best(target: string) | NoVariants

  /** The variants a master playlist offers: each URI with the STREAM-INF before it. */
  predicate Offers(lines: seq<Line>, k: nat, bandwidth: int) {
    && 0 < k < |lines| && lines[k].Uri? && lines[k].target.Some? && bandwidth >= 0
    && exists j :: 0 <= j < k && lines[j] == StreamInf(bandwidth) && forall i :: j < i < k ==> lines[i].Ignored?
  }

  method ResolveVariant(lines: seq<Line>) returns (v: Variant)
    ensures v.MediaPlaylist? <==> forall k :: 0 <= k < |lines| ==> !lines[k].StreamInf?
    ensures v.Best? ==> exists k: nat, bw :: Offers(lines, k, bw) && lines[k].target == Some(v.target)
                                        && (forall j: nat, other :: Offers(lines, j, other) ==> other <= bw)
                                        && (forall j: nat :: Offers(lines, j, bw) ==> k <= j)
    ensures v.NoVariants? ==> forall k: nat, bw :: !Offers(lines, k, bw)
  {
    var best: Option<string> := None;
    var bestBW, pendingBW := -1, -1;
    var isMaster := false;
    ghost var at, info: nat := 0, 0;   // where the best variant is, and the pending STREAM-INF
    for i := 0 to |lines|
      invariant isMaster <==> exists k :: 0 <= k < i && lines[k].StreamInf?
      invariant best.None? <==> bestBW == -1
      invariant bestBW >= -1
      invariant best.Some? ==> at < i && Offers(lines, at, bestBW) && lines[at].target == best
      invariant forall j: nat, other :: j < i && Offers(lines, j, other) ==> other <= bestBW && (other == bestBW ==> at <= j)
      invariant isMaster && pendingBW != -2 ==> info < i && lines[info] == StreamInf(pendingBW) && forall k :: info < k < i ==> lines[k].Ignored?
      invariant isMaster && pendingBW == -2 ==>
                  forall j, bw :: 0 <= j < i && lines[j] == StreamInf(bw) && bw >= 0 ==> exists k :: j < k < i && !lines[k].Ignored?
    {
      match lines[i] {
        case StreamInf(bandwidth) =>
          isMaster, pendingBW, info := true, bandwidth, i;
        case Uri(target) =>
          if pendingBW != -2 && isMaster {
            if target.Some? && pendingBW > bestBW {
              best, bestBW, at := target, pendingBW, i;
            }
            pendingBW := -2;
          }
        case Ignored =>
      }
    }
    if !isMaster {
      return MediaPlaylist;
    }
    if best.None? {
      return NoVariants;
    }
    return Best(best.value);
  }
}

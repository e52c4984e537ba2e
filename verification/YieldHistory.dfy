/** The yield history that a job carries in an annotation: recording prunes what the window no longer needs, and
    timestamps are written without fractions of a second. */
module YieldHistory {
  import opened Foundation

  /** The annotation: absent, not a JSON array of strings, or an array whose entries may fail to parse. */
  datatype Annotation = Absent | Malformed | Entries(entries: seq<Option<Time>>)

  function Parsed(entries: seq<Option<Time>>): seq<Time> {
    if entries == [] then []
    else Parsed(entries[..|entries| - 1]) +
         (if entries[|entries| - 1].Some? then [entries[|entries| - 1].value] else [])
  }

  /** parseYieldHistory. */
  function History(a: Annotation): seq<Time> {
    if a.Entries? then Parsed(a.entries) else []
  }

  /** How many instants are not before the cutoff. */
  function Count(ts: seq<Time>, cutoff: Time): (n: nat)
    ensures n <= |ts|
  {
    if ts == [] then 0 else Count(ts[..|ts| - 1], cutoff) + (if ts[|ts| - 1] >= cutoff then 1 else 0)
  }

  function StoredAll(ts: seq<Time>): (r: seq<Time>)
    ensures |r| == |ts|
  {
    seq(|ts|, i requires 0 <= i < |ts| => Stored(ts[i]))
  }

  function Recent(ts: seq<Time>, cutoff: Time): seq<Time> {
    if ts == [] then []
    else Recent(ts[..|ts| - 1], cutoff) + (if ts[|ts| - 1] >= cutoff then [ts[|ts| - 1]] else [])
  }

  /** What is left of the history after a yield at `now` is recorded. */
  function Recorded(ts: seq<Time>, now: Time, window: int): seq<Time> {
    StoredAll(Recent(ts, now - window) + [now])
  }

  function RecordedAll(ts: seq<Time>, events: seq<Time>, window: int): seq<Time>
    decreases |events|
  {
    if events == [] then ts
    else Recorded(RecordedAll(ts, events[..|events| - 1], window), events[|events| - 1], window)
  }

  function YieldsInWindow(ts: seq<Time>, now: Time, window: int): nat {
    if window <= 0 then 0 else Count(ts, now - window)
  }

  // ---- The telemetry code ----

  method ParseYieldHistory(a: Annotation) returns (ts: seq<Time>)
    ensures ts == History(a)
  {
    ts := [];
    if !a.Entries? { return; }
    for i := 0 to |a.entries|
      invariant ts == Parsed(a.entries[..i])
    {
      assert a.entries[..i + 1][..i] == a.entries[..i];
      if a.entries[i].Some? {
        ts := ts + [a.entries[i].value];
      }
    }
    assert a.entries[..|a.entries|] == a.entries;
  }

  class Annotations {
    var yieldHistory: Annotation

    method CountYieldsInWindow(now: Time, window: int) returns (count: nat)
      ensures count == YieldsInWindow(History(yieldHistory), now, window)
    {
      if window <= 0 { return 0; }
      if yieldHistory.Absent? { return 0; }
      var ts := ParseYieldHistory(yieldHistory);
      var cutoff := now - window;
      count := 0;
      for i := 0 to |ts|
        invariant count == Count(ts[..i], cutoff)
      {
        assert ts[..i + 1][..i] == ts[..i];
        if !(ts[i] < cutoff) { count := count + 1; }
      }
      assert ts[..|ts|] == ts;
    }

    method RecordYieldEvent(now: Time, window: int) returns (changed: bool)
      modifies this
      ensures History(yieldHistory) == Recorded(old(History(yieldHistory)), now, window)
      ensures yieldHistory.Entries? && changed
    {
      var existing := ParseYieldHistory(yieldHistory);
      var cutoff := now - window;
      var kept: seq<Time> := [];
      for i := 0 to |existing|
        invariant kept == Recent(existing[..i], cutoff)
      {
        assert existing[..i + 1][..i] == existing[..i];
        if !(existing[i] < cutoff) { kept := kept + [existing[i]]; }
      }
      assert existing[..|existing|] == existing;
      kept := kept + [now];
      yieldHistory := Marshalled(kept);
      MarshalKeepsSeconds(kept);
      changed := true;
    }
  }

  function Marshalled(ts: seq<Time>): Annotation {
    Entries(seq(|ts|, i requires 0 <= i < |ts| => Some(Stored(ts[i]))))
  }

  /** Writing and reading back costs only the fractions of a second. */
  lemma {:induction false} MarshalKeepsSeconds(ts: seq<Time>)
    ensures History(Marshalled(ts)) == StoredAll(ts)
    decreases |ts|
  {
    if ts != [] {
      var front := ts[..|ts| - 1];
      MarshalKeepsSeconds(front);
      assert Marshalled(ts).entries[..|ts| - 1] == Marshalled(front).entries;
      assert StoredAll(ts) == StoredAll(front) + [Stored(ts[|ts| - 1])];
    }
  }

  // ---- What pruning keeps ----

  lemma {:induction false} CountAppend(ts: seq<Time>, us: seq<Time>, cutoff: Time)
    ensures Count(ts + us, cutoff) == Count(ts, cutoff) + Count(us, cutoff)
    decreases |us|
  {
    if us == [] {
      assert ts + us == ts;
    } else {
      assert (ts + us)[..|ts + us| - 1] == ts + us[..|us| - 1];
      CountAppend(ts, us[..|us| - 1], cutoff);
    }
  }

  /** The entries at or after the cutoff, by position. */
  function Positions(ts: seq<Time>, cutoff: Time): set<int> {
    set i | 0 <= i < |ts| && ts[i] >= cutoff
  }

  /** Counting is taking the size of that set. */
  lemma {:induction false} CountIsSize(ts: seq<Time>, cutoff: Time)
    ensures Count(ts, cutoff) == |Positions(ts, cutoff)|
    decreases |ts|
  {
    if ts != [] {
      var front, n := ts[..|ts| - 1], |ts| - 1;
      CountIsSize(front, cutoff);
      assert Positions(ts, cutoff) == Positions(front, cutoff) + if ts[n] >= cutoff then {n} else {};
    }
  }

  /** What recording keeps of the old history is exactly what lies within the window; nothing else is carried along. */
  lemma {:induction false} RecentExactly(ts: seq<Time>, cutoff: Time)
    ensures |Recent(ts, cutoff)| == |Positions(ts, cutoff)|
    ensures forall x :: x in Recent(ts, cutoff) <==> x in ts && x >= cutoff
    decreases |ts|
  {
    if ts != [] {
      var front, n := ts[..|ts| - 1], |ts| - 1;
      RecentExactly(front, cutoff);
      assert Positions(ts, cutoff) == Positions(front, cutoff) + if ts[n] >= cutoff then {n} else {};
      assert forall x :: x in ts <==> x in front || x == ts[n];
    }
  }

  /** Moving the cutoff forward never counts more. */
  lemma {:induction false} CountMonotone(ts: seq<Time>, c: Time, d: Time)
    requires c <= d
    ensures Count(ts, d) <= Count(ts, c)
    decreases |ts|
  {
    if ts != [] { CountMonotone(ts[..|ts| - 1], c, d); }
  }

  /** Pruning at an earlier cutoff cannot be noticed at a later one. */
  lemma {:induction false} PruningIsInvisible(ts: seq<Time>, early: Time, late: Time)
    requires early <= late
    ensures Count(StoredAll(Recent(ts, early)), late) == Count(StoredAll(ts), late)
    decreases |ts|
  {
    if ts != [] {
      var front, last := ts[..|ts| - 1], ts[|ts| - 1];
      PruningIsInvisible(front, early, late);
      var kept := Recent(front, early);
      assert StoredAll(ts)[..|ts| - 1] == StoredAll(front);
      if last >= early {
        assert StoredAll(kept + [last])[..|kept|] == StoredAll(kept);
      } else {
        assert kept + [] == kept;
      }
    }
  }

  /** One record adds its event to the count and, from then on, takes nothing away. */
  lemma RecordingIsSeen(ts: seq<Time>, now: Time, window: int, cutoff: Time)
    requires now - window <= cutoff
    ensures Count(Recorded(ts, now, window), cutoff) == Count(StoredAll(ts), cutoff) + Count([Stored(now)], cutoff)
  {
    PruningIsInvisible(ts, now - window, cutoff);
    var kept := Recent(ts, now - window);
    assert StoredAll(kept + [now]) == StoredAll(kept) + [Stored(now)];
    CountAppend(StoredAll(kept), [Stored(now)], cutoff);
  }

  lemma StoredTwice(ts: seq<Time>)
    ensures StoredAll(StoredAll(ts)) == StoredAll(ts)
  {
    forall i | 0 <= i < |ts| ensures Stored(Stored(ts[i])) == Stored(ts[i]) { StoredOrder(ts[i], ts[i]); }
  }

  /** Recording cuts everything it keeps. */
  lemma RecordedIsStored(ts: seq<Time>, now: Time, window: int)
    ensures StoredAll(Recorded(ts, now, window)) == Recorded(ts, now, window)
  {
    StoredTwice(Recent(ts, now - window) + [now]);
  }

  /** The full history after the events: what was there before is cut to seconds by the first record. */
  function FullHistory(ts: seq<Time>, events: seq<Time>): seq<Time> {
    if events == [] then ts else StoredAll(ts) + StoredAll(events)
  }

  lemma FullHistorySnoc(ts: seq<Time>, events: seq<Time>)
    requires events != []
    ensures FullHistory(ts, events) ==
            StoredAll(FullHistory(ts, events[..|events| - 1])) + [Stored(events[|events| - 1])]
  {
    var before := events[..|events| - 1];
    StoredTwice(ts);
    StoredTwice(before);
    assert StoredAll(StoredAll(ts) + StoredAll(before)) == StoredAll(StoredAll(ts)) + StoredAll(StoredAll(before));
    assert StoredAll(events) == StoredAll(before) + [Stored(events[|events| - 1])];
  }

  /** Pruned history agrees with full history: whatever yields were recorded on top of any history ts, at any later
      instant the pruned annotation counts what the full list of second-truncated entries counts. */
  lemma {:induction false} PrunedAgreesWithFull(ts: seq<Time>, events: seq<Time>, window: int, now: Time)
    requires forall i :: 0 <= i < |events| ==> events[i] <= now
    ensures YieldsInWindow(RecordedAll(ts, events, window), now, window) ==
            YieldsInWindow(FullHistory(ts, events), now, window)
    decreases |events|, 0
  {
    if events != [] {
      var before, last := events[..|events| - 1], events[|events| - 1];
      var pruned, cutoff := RecordedAll(ts, before, window), now - window;
      CutCountsAgree(ts, before, window, now);
      RecordingIsSeen(pruned, last, window, cutoff);
      FullHistorySnoc(ts, events);
      CountAppend(StoredAll(FullHistory(ts, before)), [Stored(last)], cutoff);
    }
  }

  /** The same, after one more cut to seconds on both sides. */
  lemma {:induction false} CutCountsAgree(ts: seq<Time>, events: seq<Time>, window: int, now: Time)
    requires forall i :: 0 <= i < |events| ==> events[i] <= now
    ensures window > 0 ==>
      Count(StoredAll(RecordedAll(ts, events, window)), now - window) == Count(StoredAll(FullHistory(ts, events)), now - window)
    decreases |events|, 1
  {
    if events != [] {
      PrunedAgreesWithFull(ts, events, window, now);
      RecordedIsStored(RecordedAll(ts, events[..|events| - 1], window), events[|events| - 1], window);
      StoredTwice(ts + events);
      assert StoredAll(ts + events) == StoredAll(ts) + StoredAll(events);
    }
  }

  /** Truncation costs at most one second of window. */
  lemma {:induction false} TruncationCostsASecond(events: seq<Time>, cutoff: Time)
    ensures Count(events, cutoff + SECOND) <= Count(StoredAll(events), cutoff) <= Count(events, cutoff)
    decreases |events|
  {
    if events != [] {
      var front := events[..|events| - 1];
      assert StoredAll(events)[..|events| - 1] == StoredAll(front);
      TruncationCostsASecond(front, cutoff);
    }
  }

  /** For any recorded yields and a window w, the count from the annotation lies between the exact counts for w minus
      one second and for w. */
  lemma PrunedWithinASecond(events: seq<Time>, window: int, now: Time)
    requires forall i :: 0 <= i < |events| ==> events[i] <= now
    ensures YieldsInWindow(events, now, window - SECOND)
         <= YieldsInWindow(RecordedAll([], events, window), now, window)
         <= YieldsInWindow(events, now, window)
  {
    PrunedAgreesWithFull([], events, window, now);
    assert StoredAll([]) + StoredAll(events) == StoredAll(events);
    TruncationCostsASecond(events, now - window);
    if events == [] { assert StoredAll(events) == events; }
  }
}

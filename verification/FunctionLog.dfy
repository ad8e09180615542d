/**
  The in-memory function log: a cursor-addressed queue of execution parts, trimmed by the
  number of completions it holds, and read by polling with the last cursor received.
  A cursor is a non-negative finite double; such doubles are ordered like their bit patterns,
  and `next_after(INFINITY)` is the next pattern, so cursors are naturals here.
 */
module FunctionLog {
  import opened Prelude

  datatype UdfType = Query | Mutation | Action | HttpAction

  datatype Execution = Execution(
    caller: string, udfType: UdfType, environment: string,
    failed: bool, executionTime: nat, logLines: seq<string>)

  datatype Part = Completion(execution: Execution) | Progress(logLines: seq<string>)

  datatype Entry = Entry(ts: nat, part: Part)

  datatype Log = Log(entries: seq<Entry>, completions: int, max: nat)

  // `None` is a system clock before the epoch.
  function NextTime(entries: seq<Entry>, clock: Option<nat>): Result<nat> {
    match clock
    case None => Err
    case Some(now) =>
      if entries == [] then Ok(now)
      else
        var lowerBound := entries[|entries| - 1].ts + 1;
        Ok(if lowerBound > now then lowerBound else now)
  }

  /** The next cursor is the least one that is not before the clock and after every entry. */
  lemma NextTimeIsLeast(entries: seq<Entry>, now: nat, ts: nat)
    requires Increasing(entries)
    ensures var next := NextTime(entries, Some(now)).value;
            && now <= next && (forall i :: 0 <= i < |entries| ==> entries[i].ts < next)
            && (now <= ts && (forall i :: 0 <= i < |entries| ==> entries[i].ts < ts) ==> next <= ts)
  {
    if entries != [] {
      assert forall i :: 0 <= i < |entries| ==> entries[i].ts <= entries[|entries| - 1].ts;
    }
  }

  function Completions(entries: seq<Entry>): nat {
    if entries == [] then 0
    else (if entries[0].part.Completion? then 1 else 0) + Completions(entries[1..])
  }

  function Evict(log: Log): Log
    decreases |log.entries|
  {
    if log.completions <= log.max || log.entries == [] then log
    else
      Evict(Log(log.entries[1..],
                log.completions - (if log.entries[0].part.Completion? then 1 else 0), log.max))
  }

  function Append(log: Log, part: Part, ts: nat): Log {
    var pushed := log.entries + [Entry(ts, part)];
    if part.Completion? then Evict(Log(pushed, log.completions + 1, log.max))
    else log.(entries := pushed)
  }

  // `partition_point(|ts| ts <= cursor)`.
  function FirstAfter(entries: seq<Entry>, cursor: nat): (ix: nat)
    ensures ix <= |entries|
    ensures forall i :: 0 <= i < ix ==> entries[i].ts <= cursor
    ensures ix < |entries| ==> entries[ix].ts > cursor
  {
    if entries == [] || entries[0].ts > cursor then 0 else 1 + FirstAfter(entries[1..], cursor)
  }

  function Strip(part: Part): Part {
    if part.Completion? && (part.execution.udfType.Action? || part.execution.udfType.HttpAction?)
    then Completion(part.execution.(logLines := []))
    else part
  }

  /** A streamed part differs from the logged one iff it is an action's completion with log lines. */
  lemma StripIff(part: Part)
    ensures Strip(part) != part <==>
            && part.Completion? && part.execution.logLines != []
            && part.execution.udfType != Query && part.execution.udfType != Mutation
    ensures part.Completion? ==>
              Strip(part).Completion? && Strip(part).execution.(logLines := part.execution.logLines) == part.execution
  {
  }

  function Stripped(entries: seq<Entry>): seq<Part> {
    seq(|entries|, i requires 0 <= i < |entries| => Strip(entries[i].part))
  }

  // `None` while there is nothing new and the caller keeps waiting.
  function StreamParts(entries: seq<Entry>, cursor: nat): Option<(seq<Part>, nat)> {
    var ix := FirstAfter(entries, cursor);
    if ix < |entries| then Some((Stripped(entries[ix..]), entries[|entries| - 1].ts)) else None
  }

  // ---------------------------------------------------------------- the log alone

  ghost predicate Increasing(entries: seq<Entry>) {
    forall i, j :: 0 <= i < j < |entries| ==> entries[i].ts < entries[j].ts
  }

  lemma {:induction false} CompletionsConcat(a: seq<Entry>, b: seq<Entry>)
    ensures Completions(a + b) == Completions(a) + Completions(b)
  {
    if a == [] {
      assert a + b == b;
    } else {
      CompletionsConcat(a[1..], b);
      assert (a + b)[1..] == a[1..] + b;
    }
  }

  ghost function CompletionPositions(entries: seq<Entry>): set<nat> {
    set i: nat | i < |entries| && entries[i].part.Completion?
  }

  lemma PositionsLast(entries: seq<Entry>, x: Entry)
    ensures |CompletionPositions(entries + [x])| == |CompletionPositions(entries)| + if x.part.Completion? then 1 else 0
  {
    if x.part.Completion? {
      assert CompletionPositions(entries + [x]) == CompletionPositions(entries) + {|entries|};
    } else {
      assert CompletionPositions(entries + [x]) == CompletionPositions(entries);
    }
  }

  /** The number of completions is the number of positions that hold one. */
  lemma {:induction false} CompletionsAreCounted(entries: seq<Entry>)
    ensures Completions(entries) == |CompletionPositions(entries)|
    decreases |entries|
  {
    if entries == [] {
      assert CompletionPositions(entries) == {};
    } else {
      var n := |entries| - 1;
      assert entries == entries[..n] + [entries[n]];
      CompletionsAreCounted(entries[..n]);
      CompletionsConcat(entries[..n], [entries[n]]);
      PositionsLast(entries[..n], entries[n]);
    }
  }

  lemma TailSlice(entries: seq<Entry>, m: nat)
    requires 0 < m <= |entries|
    ensures entries[m..] == entries[1..][m - 1..]
  {
  }

  /**
    Eviction removes the shortest prefix that leaves at most `max` completions: any shorter
    prefix would leave too many.
   */
  lemma {:induction false} EvictDropsShortestPrefix(log: Log) returns (n: nat)
    requires log.completions == Completions(log.entries)
    ensures n <= |log.entries|
    ensures Evict(log) == Log(log.entries[n..], Completions(log.entries[n..]), log.max)
    ensures Completions(log.entries[n..]) <= log.max
    ensures n > 0 ==> Completions(log.entries[n..]) == log.max
    ensures forall m :: 0 <= m < n ==> Completions(log.entries[m..]) > log.max
    decreases |log.entries|
  {
    var entries := log.entries;
    assert entries[0..] == entries;
    n := 0;
    if log.completions > log.max {
      var rest := Log(entries[1..], Completions(entries[1..]), log.max);
      assert Evict(log) == Evict(rest);
      var k := EvictDropsShortestPrefix(rest);
      n := k + 1;
      TailSlice(entries, n);
      forall m | 0 < m < n ensures Completions(entries[m..]) > log.max {
        TailSlice(entries, m);
      }
    }
  }

  // ---------------------------------------------------------------- writers and one polling reader

  // `history` holds every entry ever appended; the log is what remains of it. The reader
  // started at `start`; `delivered` and `missed` are positions in the history.
  datatype Sys = Sys(
    log: Log, history: seq<Entry>,
    start: nat, cursor: nat, delivered: seq<nat>, missed: set<nat>, got: seq<Part>)

  datatype Event = Write(part: Part, clock: Option<nat>) | Poll

  function Init(max: nat, start: nat): Sys {
    Sys(Log([], 0, max), [], start, start, [], {}, [])
  }

  function Evicted(s: Sys): int {
    |s.history| - |s.log.entries|
  }

  function Range(a: nat, b: nat): seq<nat>
    requires a <= b
  {
    seq(b - a, i requires 0 <= i < b - a => a + i)
  }

  // Entries the reader has not seen and no poll can return any more.
  function MissedNow(s: Sys): set<nat>
    requires |s.log.entries| <= |s.history|
  {
    set j: nat | j < Evicted(s) && s.history[j].ts > s.cursor
  }

  // The history position of the first entry a poll returns.
  function FirstPosition(s: Sys): nat
    requires |s.log.entries| <= |s.history|
  {
    Evicted(s) + FirstAfter(s.log.entries, s.cursor)
  }

  function NextPoll(s: Sys): Sys
    requires |s.log.entries| <= |s.history|
  {
    var r := StreamParts(s.log.entries, s.cursor);
    if r.None? then s
    else
      s.(cursor := r.value.1, got := s.got + r.value.0,
      delivered := s.delivered + Range(FirstPosition(s), |s.history|),
      missed := s.missed + MissedNow(s))
  }

  function Next(s: Sys, e: Event): Sys
    requires |s.log.entries| <= |s.history|
  {
    match e
    case Write(part, clock) =>
      (match NextTime(s.log.entries, clock)
       case Err => s
       case Ok(ts) => s.(log := Append(s.log, part, ts), history := s.history + [Entry(ts, part)]))
    case Poll => NextPoll(s)
  }

  // The log is the end of the history.
  ghost predicate IsEndOf(entries: seq<Entry>, history: seq<Entry>) {
    && |entries| <= |history|
    && forall k :: 0 <= k < |entries| ==> entries[k] == history[|history| - |entries| + k]
  }

  ghost predicate LogSound(s: Sys) {
    && IsEndOf(s.log.entries, s.history)
    && Increasing(s.history)
    && s.log.completions == Completions(s.log.entries) <= s.log.max
    && (Evicted(s) > 0 ==> s.log.completions == s.log.max)
    && (s.history != [] ==> s.log.entries != [])
  }

  ghost predicate InOrder(delivered: seq<nat>) {
    forall i, j :: 0 <= i < j < |delivered| ==> delivered[i] < delivered[j]
  }

  // Position `j` is one the reader has asked for: after its first cursor, up to its last.
  ghost predicate Asked(s: Sys, j: nat)
    requires j < |s.history|
  {
    s.start < s.history[j].ts <= s.cursor
  }

  ghost predicate Covered(s: Sys) {
    && (forall j :: 0 <= j < |s.history| ==> (Asked(s, j) <==> j in s.delivered || j in s.missed))
    && (forall j :: j in s.missed ==> j < Evicted(s) && j !in s.delivered)
  }

  ghost predicate Contents(s: Sys) {
    && |s.got| == |s.delivered|
    && (forall i :: 0 <= i < |s.delivered| ==>
          s.delivered[i] < |s.history| && s.got[i] == Strip(s.history[s.delivered[i]].part))
  }

  /** Each entry between `start` and `cursor` was delivered once, in order, or evicted unseen. */
  ghost predicate ReaderSound(s: Sys) {
    && s.start <= s.cursor
    && (s.cursor > s.start ==> s.history != [] && s.cursor <= s.history[|s.history| - 1].ts)
    && InOrder(s.delivered) && Covered(s) && Contents(s)
  }

  lemma InitIsSound(max: nat, start: nat)
    ensures LogSound(Init(max, start)) && ReaderSound(Init(max, start))
    ensures var s := Init(max, start); s.log.max == max && s.cursor == s.start == start && s.history == []
  {
  }

  // Eviction never removes a final completion.
  lemma EvictKeepsLast(log: Log, e: Entry) returns (n: nat)
    requires log.max >= 1 && e.part.Completion? && log.completions == Completions(log.entries + [e])
    ensures n <= |log.entries|
    ensures var after := Evict(Log(log.entries + [e], log.completions, log.max));
            && after == Log((log.entries + [e])[n..], Completions((log.entries + [e])[n..]), log.max)
            && after.completions <= log.max && (n > 0 ==> after.completions == log.max)
            && (n == 0 ==> after.completions == log.completions)
  {
    var pushed, last := log.entries + [e], |log.entries|;
    assert pushed[last..] == [e] && pushed[0..] == pushed;
    assert Completions(pushed[last..]) == 1;
    n := EvictDropsShortestPrefix(Log(pushed, log.completions, log.max));
  }

  // An append keeps a non-empty suffix of the log, ending in the new entry.
  lemma AppendKeepsSuffix(log: Log, part: Part, ts: nat) returns (n: nat)
    requires log.completions == Completions(log.entries) <= log.max && log.max >= 1
    ensures var pushed, after := log.entries + [Entry(ts, part)], Append(log, part, ts);
            && n < |pushed| && after.entries == pushed[n..]
            && after.completions == Completions(after.entries) <= after.max == log.max
            && after.completions >= log.completions && (n > 0 ==> after.completions == log.max)
  {
    var e := Entry(ts, part);
    CompletionsConcat(log.entries, [e]);
    assert Completions([e]) == if part.Completion? then 1 else 0;
    n := 0;
    if part.Completion? {
      n := EvictKeepsLast(Log(log.entries, log.completions + 1, log.max), e);
    }
  }

  lemma IncreasingAppend(h: seq<Entry>, e: Entry)
    requires Increasing(h) && (h != [] ==> e.ts > h[|h| - 1].ts)
    ensures Increasing(h + [e])
  {
    forall i | 0 <= i < |h| ensures h[i].ts < e.ts {
      assert h[i].ts <= h[|h| - 1].ts;
    }
  }

  lemma EndOfAppend(entries: seq<Entry>, h: seq<Entry>, e: Entry, n: nat)
    requires IsEndOf(entries, h) && n <= |entries| + 1
    ensures IsEndOf((entries + [e])[n..], h + [e])
  {
  }

  lemma AppendSound(s: Sys, part: Part, ts: nat)
    requires LogSound(s) && s.log.max >= 1
    requires s.log.entries != [] ==> ts > s.log.entries[|s.log.entries| - 1].ts
    ensures LogSound(s.(log := Append(s.log, part, ts), history := s.history + [Entry(ts, part)]))
    ensures |Append(s.log, part, ts).entries| <= |s.log.entries| + 1
  {
    var e := Entry(ts, part);
    var n := AppendKeepsSuffix(s.log, part, ts);
    EndOfAppend(s.log.entries, s.history, e, n);
    LastIsLast(s.log.entries, s.history);
    IncreasingAppend(s.history, e);
  }

  lemma LastIsLast(entries: seq<Entry>, h: seq<Entry>)
    requires IsEndOf(entries, h)
    ensures entries != [] ==> entries[|entries| - 1] == h[|h| - 1]
  {
  }

  // A new entry lies past the reader's cursor, or the reader started in the future.
  lemma AppendReader(s: Sys, t: Sys, e: Entry)
    requires ReaderSound(s) && (s.history != [] ==> e.ts > s.history[|s.history| - 1].ts)
    requires |s.log.entries| <= |s.history| && |t.log.entries| <= |s.log.entries| + 1
    requires t == s.(log := t.log, history := s.history + [e])
    ensures ReaderSound(t)
  {
    assert !Asked(t, |s.history|);
    forall j | 0 <= j < |t.history|
      ensures Asked(t, j) <==> j in t.delivered || j in t.missed
    {
      if j < |s.history| {
        assert Asked(t, j) <==> Asked(s, j);
      }
    }
  }

  lemma WriteSound(s: Sys, part: Part, clock: Option<nat>)
    requires LogSound(s) && ReaderSound(s) && s.log.max >= 1
    ensures LogSound(Next(s, Write(part, clock))) && ReaderSound(Next(s, Write(part, clock)))
  {
    if clock.Some? {
      var ts := NextTime(s.log.entries, clock).value;
      AppendSound(s, part, ts);
      LastIsLast(s.log.entries, s.history);
      AppendReader(s, Next(s, Write(part, clock)), Entry(ts, part));
    }
  }

  // A poll returns exactly the unseen entries that are still in the log.
  lemma PollPosition(h: seq<Entry>, entries: seq<Entry>, cursor: nat, j: nat)
    requires IsEndOf(entries, h) && Increasing(h) && j < |h| && FirstAfter(entries, cursor) < |entries|
    ensures var gone := |h| - |entries|;
            h[j].ts > cursor && j >= gone <==> j >= gone + FirstAfter(entries, cursor)
  {
    var gone, ix := |h| - |entries|, FirstAfter(entries, cursor);
    if gone <= j {
      assert entries[j - gone] == h[j];
      assert entries[ix] == h[gone + ix];
    }
  }

  lemma EndSlice(h: seq<Entry>, entries: seq<Entry>, ix: nat)
    requires IsEndOf(entries, h) && ix <= |entries|
    ensures entries[ix..] == h[|h| - |entries| + ix..]
  {
  }

  lemma PollCovered(s: Sys, t: Sys, first: nat)
    requires Increasing(s.history) && Covered(s) && |s.log.entries| <= |s.history| && s.start <= s.cursor
    requires Evicted(s) <= first < |s.history|
    requires forall j :: 0 <= j < |s.history| ==> (s.history[j].ts > s.cursor && j >= Evicted(s) <==> j >= first)
    requires t.history == s.history && t.log == s.log && t.start == s.start
    requires t.cursor == s.history[|s.history| - 1].ts > s.cursor
    requires t.delivered == s.delivered + Range(first, |s.history|) && t.missed == s.missed + MissedNow(s)
    ensures Covered(t)
  {
    forall j: nat | j < |s.history|
      ensures j in t.delivered <==> j in s.delivered || j >= first
    {
      if j >= first {
        assert Range(first, |s.history|)[j - first] == j;
      }
    }
    forall j: nat | j < |s.history|
      ensures Asked(t, j) <==> j in t.delivered || j in t.missed
      ensures j in t.missed ==> j !in t.delivered
    {
      assert Asked(s, j) <==> j in s.delivered || j in s.missed;
      assert s.history[j].ts <= t.cursor;
    }
    forall j | j in t.missed ensures j < Evicted(t) && j !in t.delivered {
    }
  }

  lemma PollContents(s: Sys, first: nat)
    requires InOrder(s.delivered) && Covered(s) && Contents(s) && first <= |s.history|
    requires forall j :: 0 <= j < |s.history| && j >= first ==> s.history[j].ts > s.cursor
    ensures var d := s.delivered + Range(first, |s.history|);
            InOrder(d) && Contents(s.(delivered := d, got := s.got + Stripped(s.history[first..])))
  {
    forall i | 0 <= i < |s.delivered| ensures s.delivered[i] < first {
      assert s.delivered[i] in s.delivered;
      assert Asked(s, s.delivered[i]);
    }
  }

  // What a successful poll does, in terms of history positions.
  lemma PollStep(s: Sys, first: nat)
    requires IsEndOf(s.log.entries, s.history) && first == FirstPosition(s)
    requires FirstAfter(s.log.entries, s.cursor) < |s.log.entries|
    ensures first < |s.history|
    ensures Next(s, Poll) == s.(cursor := s.history[|s.history| - 1].ts,
                                got := s.got + Stripped(s.history[first..]),
                                delivered := s.delivered + Range(first, |s.history|),
                                missed := s.missed + MissedNow(s))
  {
    StreamPartsValue(s.history, s.log.entries, s.cursor);
    assert NextPoll(s).delivered == s.delivered + Range(first, |s.history|);
  }

  lemma StreamPartsValue(h: seq<Entry>, entries: seq<Entry>, cursor: nat)
    requires IsEndOf(entries, h) && FirstAfter(entries, cursor) < |entries|
    ensures var first := |h| - |entries| + FirstAfter(entries, cursor);
            StreamParts(entries, cursor) == Some((Stripped(h[first..]), h[|h| - 1].ts))
  {
    EndSlice(h, entries, FirstAfter(entries, cursor));
    LastIsLast(entries, h);
  }

  lemma PollReader(s: Sys, t: Sys, first: nat)
    requires LogSound(s) && ReaderSound(s) && first == FirstPosition(s) < |s.history|
    requires FirstAfter(s.log.entries, s.cursor) < |s.log.entries|
    requires t == s.(cursor := s.history[|s.history| - 1].ts,
                     got := s.got + Stripped(s.history[first..]),
                     delivered := s.delivered + Range(first, |s.history|),
                     missed := s.missed + MissedNow(s))
    ensures ReaderSound(t)
  {
    forall j | 0 <= j < |s.history|
      ensures s.history[j].ts > s.cursor && j >= Evicted(s) <==> j >= first
    {
      PollPosition(s.history, s.log.entries, s.cursor, j);
    }
    PollCovered(s, t, first);
    PollContents(s, first);
    assert Contents(t);
  }

  lemma PollSound(s: Sys)
    requires LogSound(s) && ReaderSound(s)
    ensures LogSound(Next(s, Poll)) && ReaderSound(Next(s, Poll))
  {
    if FirstAfter(s.log.entries, s.cursor) < |s.log.entries| {
      PollStep(s, FirstPosition(s));
      PollReader(s, Next(s, Poll), FirstPosition(s));
    }
  }

  ghost function After(s: Sys, es: seq<Event>): Option<Sys>
    decreases |es|
  {
    if es == [] then Some(s)
    else if |s.log.entries| > |s.history| then None
    else After(Next(s, es[0]), es[1..])
  }

  /**
    Over every run of writers and one polling reader, whatever the clock does: cursors strictly
    increase over the whole history, and the parts received are the entries after the first
    cursor, each once and in order, except those already evicted when their poll came.
   */
  lemma {:induction false} StreamingIsExactlyOnce(s: Sys, es: seq<Event>)
    requires LogSound(s) && ReaderSound(s) && s.log.max >= 1
    ensures After(s, es).Some?
    ensures var t := After(s, es).value;
            && LogSound(t) && Increasing(t.history)
            && InOrder(t.delivered) && Covered(t) && Contents(t)
            && t.start == s.start && t.log.max == s.log.max
            && s.missed <= t.missed
    decreases |es|
  {
    if es != [] {
      StepSound(s, es[0]);
      StreamingIsExactlyOnce(Next(s, es[0]), es[1..]);
    }
  }

  function Parts(entries: seq<Entry>): seq<Part> {
    seq(|entries|, i requires 0 <= i < |entries| => entries[i].part)
  }

  // The parts that a run writes: those whose clock can be read.
  function Written(es: seq<Event>): seq<Part> {
    if es == [] then [] else WrittenBy(es[0]) + Written(es[1..])
  }

  function WrittenBy(e: Event): seq<Part> {
    if e.Write? && e.clock.Some? then [e.part] else []
  }

  /** Over every run, the history is exactly what was written, in order. */
  lemma {:induction false} HistoryIsWritten(s: Sys, es: seq<Event>)
    requires LogSound(s) && ReaderSound(s) && s.log.max >= 1
    ensures After(s, es).Some? && Parts(After(s, es).value.history) == Parts(s.history) + Written(es)
    decreases |es|
  {
    if es != [] {
      StepSound(s, es[0]);
      HistoryIsWritten(Next(s, es[0]), es[1..]);
      StepHistory(s, es[0]);
      AppendAssoc(Parts(s.history), WrittenBy(es[0]), Written(es[1..]));
    }
  }

  lemma AppendAssoc<T>(a: seq<T>, b: seq<T>, c: seq<T>)
    ensures (a + b) + c == a + (b + c)
  {
  }

  lemma StepHistory(s: Sys, e: Event)
    requires |s.log.entries| <= |s.history|
    ensures Parts(Next(s, e).history) == Parts(s.history) + WrittenBy(e)
  {
  }

  lemma StepSound(s: Sys, e: Event)
    requires LogSound(s) && ReaderSound(s) && s.log.max >= 1
    ensures var t := Next(s, e);
            LogSound(t) && ReaderSound(t) && t.log.max == s.log.max && t.start == s.start && s.missed <= t.missed
  {
    match e
    case Write(part, clock) =>
      WriteSound(s, part, clock);
      if clock.Some? {
        var n := AppendKeepsSuffix(s.log, part, NextTime(s.log.entries, clock).value);
      }
    case Poll => PollSound(s);
  }

  lemma PollReachesTheEnd(s: Sys)
    requires LogSound(s) && s.history != []
    ensures s.history[|s.history| - 1].ts <= Next(s, Poll).cursor
  {
    LastIsLast(s.log.entries, s.history);
  }

  /** After any poll, every entry past the first cursor has been delivered, or was evicted unseen. */
  lemma PollCatchesUp(s: Sys, j: nat)
    requires LogSound(s) && ReaderSound(s) && j < |s.history| && s.history[j].ts > s.start
    ensures j in Next(s, Poll).delivered || j in s.missed || (j < Evicted(s) && s.history[j].ts > s.cursor)
  {
    PollReachesTheEnd(s);
    AskedUpTo(s, j);
    PollSound(s);
    AskedIsServed(Next(s, Poll), j);
  }

  lemma AskedUpTo(s: Sys, j: nat)
    requires Increasing(s.history) && j < |s.history| && |s.log.entries| <= |s.history|
    requires s.history[j].ts > s.start && s.history[|s.history| - 1].ts <= Next(s, Poll).cursor
    ensures Next(s, Poll).history == s.history && Asked(Next(s, Poll), j)
  {
  }

  lemma AskedIsServed(t: Sys, j: nat)
    requires Covered(t) && j < |t.history| && Asked(t, j)
    ensures j in t.delivered || j in t.missed
  {
  }

  lemma {:induction false} EndCompletions(entries: seq<Entry>, h: seq<Entry>)
    requires IsEndOf(entries, h)
    ensures Completions(h) == Completions(h[..|h| - |entries|]) + Completions(entries)
  {
    var gone := |h| - |entries|;
    EndSlice(h, entries, 0);
    assert entries[0..] == entries && h == h[..gone] + h[gone..];
    CompletionsConcat(h[..gone], h[gone..]);
  }

  lemma {:induction false} OnlyConcat(a: seq<Entry>, b: seq<Entry>)
    ensures OnlyCompletions(a + b) == OnlyCompletions(a) + OnlyCompletions(b)
    decreases |b|
  {
    if b == [] {
      assert a + b == a;
    } else {
      var n, m := |a + b| - 1, |b| - 1;
      OnlyConcat(a, b[..m]);
      assert (a + b)[..n] == a + b[..m] && (a + b)[n] == b[m];
    }
  }

  lemma {:induction false} OnlyLength(entries: seq<Entry>)
    ensures |OnlyCompletions(entries)| == Completions(entries)
  {
    if entries != [] {
      var n := |entries| - 1;
      OnlyLength(entries[..n]);
      assert entries == entries[..n] + [entries[n]];
      CompletionsConcat(entries[..n], [entries[n]]);
    }
  }

  /** Each completion is streamed whole, at the place given by the completions before it. */
  lemma {:induction false} OnlyAt(entries: seq<Entry>, i: nat)
    requires i < |entries| && entries[i].part.Completion?
    ensures var place := Completions(entries[..i]);
            place < |OnlyCompletions(entries)| && OnlyCompletions(entries)[place] == entries[i].part
  {
    var a, b := entries[..i], entries[i + 1..];
    assert entries == a + [entries[i]] + b;
    OnlyConcat(a + [entries[i]], b);
    OnlyConcat(a, [entries[i]]);
    OnlyLength(a);
    assert OnlyCompletions([entries[i]]) == [entries[i].part] by {
      assert [entries[i]][..0] == [];
    }
  }

  lemma EndOnly(entries: seq<Entry>, h: seq<Entry>)
    requires IsEndOf(entries, h)
    ensures var done := OnlyCompletions(h);
            |done| >= Completions(entries) && OnlyCompletions(entries) == done[|done| - Completions(entries)..]
  {
    var gone := |h| - |entries|;
    EndSlice(h, entries, 0);
    assert entries[0..] == entries && h == h[..gone] + h[gone..];
    OnlyConcat(h[..gone], entries);
    OnlyLength(entries);
  }

  /** In every reachable state the log holds the last `max` completions, or all there were. */
  lemma RetainsTheLastCompletions(s: Sys, es: seq<Event>)
    requires LogSound(s) && ReaderSound(s) && s.log.max >= 1
    ensures After(s, es).Some?
    ensures var t := After(s, es).value;
            var done := OnlyCompletions(t.history);
            && t.log.completions == (if |done| < t.log.max then |done| else t.log.max)
            && OnlyCompletions(t.log.entries) == done[|done| - t.log.completions..]
  {
    StreamingIsExactlyOnce(s, es);
    var t := After(s, es).value;
    EndCompletions(t.log.entries, t.history);
    EndOnly(t.log.entries, t.history);
    OnlyLength(t.history);
    if Evicted(t) == 0 {
      assert t.history[..0] == [];
    }
  }

  /** With `MAX_UDF_EXECUTION` 0 the log forgets its last cursor, and cursors can repeat. */
  lemma CursorsRepeatWithoutRetention(e: Execution, now: nat)
    ensures var w := Write(Completion(e), Some(now));
            var t := After(Init(0, 0), [w, w]);
            t.Some? && t.value.history == [Entry(now, Completion(e)), Entry(now, Completion(e))]
            && !Increasing(t.value.history)
  {
    var w := Write(Completion(e), Some(now));
    var x := Entry(now, Completion(e));
    var s := Init(0, 0);
    assert Evict(Log([x], 1, 0)) == Log([], 0, 0);
    var s1 := Next(s, w);
    assert s.log.entries + [x] == [x] && s.history + [x] == [x];
    assert s1 == s.(history := [x]);
    var s2 := Next(s1, w);
    assert s1.history + [x] == [x, x];
    assert s2 == s.(history := [x, x]);
    assert [w, w][1..] == [w] && [w][1..] == [];
    assert After(s, [w, w]) == After(s1, [w]) == After(s2, []) == Some(s2);
    assert s2.history[0].ts == s2.history[1].ts;
  }

  // ---------------------------------------------------------------- summaries

  datatype Group = Group(caller: string, udfType: UdfType, environment: string)

  datatype Summary = Summary(invocations: nat, errors: nat, executionTime: nat)

  const NOTHING := Summary(0, 0, 0)

  function GroupOf(e: Execution): Group {
    Group(e.caller, e.udfType, e.environment)
  }

  function AddExecution(s: Summary, e: Execution): Summary {
    Summary(s.invocations + 1, s.errors + (if e.failed then 1 else 0), s.executionTime + e.executionTime)
  }

  function AddSummaries(a: Summary, b: Summary): Summary {
    Summary(a.invocations + b.invocations, a.errors + b.errors, a.executionTime + b.executionTime)
  }

  // The completions of one group, or of all groups, summed from the oldest on.
  function Tally(entries: seq<Entry>, group: Option<Group>): Summary {
    if entries == [] then NOTHING
    else
      var last, before := entries[|entries| - 1].part, Tally(entries[..|entries| - 1], group);
      if last.Completion? && (group.Some? ==> GroupOf(last.execution) == group.value)
      then AddExecution(before, last.execution) else before
  }

  lemma TallySnoc(a: seq<Entry>, x: Entry, group: Option<Group>)
    ensures Tally(a + [x], group) ==
            if x.part.Completion? && (group.Some? ==> GroupOf(x.part.execution) == group.value)
            then AddExecution(Tally(a, group), x.part.execution) else Tally(a, group)
  {
    assert (a + [x])[..|a|] == a;
  }

  // A completion, and of that caller, type and environment when a group is given.
  ghost predicate Counts(x: Entry, group: Option<Group>) {
    && x.part.Completion?
    && (group.Some? ==>
          && x.part.execution.caller == group.value.caller
          && x.part.execution.udfType == group.value.udfType
          && x.part.execution.environment == group.value.environment)
  }

  ghost function Invoked(entries: seq<Entry>, group: Option<Group>): set<nat> {
    set i: nat | i < |entries| && Counts(entries[i], group)
  }

  ghost function FailedAt(entries: seq<Entry>, group: Option<Group>): set<nat> {
    set i: nat | i < |entries| && Counts(entries[i], group) && entries[i].part.execution.failed
  }

  // The execution times at positions `0..n-1`, summed.
  ghost function TimeUpTo(entries: seq<Entry>, group: Option<Group>, n: nat): nat
    requires n <= |entries|
  {
    if n == 0 then 0
    else
      var x := entries[n - 1];
      TimeUpTo(entries, group, n - 1) + if Counts(x, group) then x.part.execution.executionTime else 0
  }

  lemma InvokedLast(entries: seq<Entry>, x: Entry, group: Option<Group>)
    ensures |Invoked(entries + [x], group)| == |Invoked(entries, group)| + if Counts(x, group) then 1 else 0
  {
    if Counts(x, group) {
      assert Invoked(entries + [x], group) == Invoked(entries, group) + {|entries|};
    } else {
      assert Invoked(entries + [x], group) == Invoked(entries, group);
    }
  }

  lemma FailedLast(entries: seq<Entry>, x: Entry, group: Option<Group>)
    ensures |FailedAt(entries + [x], group)| ==
            |FailedAt(entries, group)| + if Counts(x, group) && x.part.execution.failed then 1 else 0
  {
    if Counts(x, group) && x.part.execution.failed {
      assert FailedAt(entries + [x], group) == FailedAt(entries, group) + {|entries|};
    } else {
      assert FailedAt(entries + [x], group) == FailedAt(entries, group);
    }
  }

  lemma {:induction false} TimeOfPrefix(entries: seq<Entry>, x: Entry, group: Option<Group>, n: nat)
    requires n <= |entries|
    ensures TimeUpTo(entries + [x], group, n) == TimeUpTo(entries, group, n)
  {
    if n > 0 {
      TimeOfPrefix(entries, x, group, n - 1);
    }
  }

  /**
    What a summary counts: invocations are the positions that hold a completion of the group, errors
    those of them that failed, and the execution time is the sum of their execution times.
   */
  lemma {:induction false} TallyCounts(entries: seq<Entry>, group: Option<Group>)
    ensures var t := Tally(entries, group);
            && t.invocations == |Invoked(entries, group)|
            && t.errors == |FailedAt(entries, group)|
            && t.executionTime == TimeUpTo(entries, group, |entries|)
    decreases |entries|
  {
    if entries == [] {
      assert Invoked(entries, group) == {} && FailedAt(entries, group) == {};
    } else {
      var n := |entries| - 1;
      var a, x := entries[..n], entries[n];
      assert entries == a + [x];
      TallyCounts(a, group);
      TallySnoc(a, x, group);
      InvokedLast(a, x, group);
      FailedLast(a, x, group);
      TimeOfPrefix(a, x, group, n);
    }
  }

  /** Two executions are summed together iff caller, type and environment agree. */
  lemma SameGroupIff(a: Execution, b: Execution)
    ensures GroupOf(a) == GroupOf(b) <==>
            a.caller == b.caller && a.udfType == b.udfType && a.environment == b.environment
  {
  }

  // `calls` holds the summary of every group that occurs, and of no other.
  ghost predicate Grouped(calls: map<Group, Summary>, entries: seq<Entry>) {
    forall g :: GroupedAt(calls, entries, g)
  }

  ghost predicate GroupedAt(calls: map<Group, Summary>, entries: seq<Entry>, g: Group) {
    && (g in calls <==> Tally(entries, Some(g)).invocations > 0)
    && (g in calls ==> calls[g] == Tally(entries, Some(g)))
  }

  lemma {:induction false} TallyNothing(entries: seq<Entry>, group: Option<Group>)
    ensures Tally(entries, group).invocations == 0 ==> Tally(entries, group) == NOTHING
  {
    if entries != [] {
      TallyNothing(entries[..|entries| - 1], group);
    }
  }

  function AddCall(calls: map<Group, Summary>, x: Entry): map<Group, Summary> {
    if x.part.Completion? then
      var g := GroupOf(x.part.execution);
      calls[g := AddExecution(if g in calls then calls[g] else NOTHING, x.part.execution)]
    else calls
  }

  lemma GroupedSnoc(calls: map<Group, Summary>, entries: seq<Entry>, x: Entry)
    requires Grouped(calls, entries)
    ensures Grouped(AddCall(calls, x), entries + [x])
  {
    forall g: Group ensures GroupedAt(AddCall(calls, x), entries + [x], g) {
      assert GroupedAt(calls, entries, g);
      TallySnoc(entries, x, Some(g));
      TallyNothing(entries, Some(g));
    }
  }

  /** Summaries of consecutive polls add up to the summary of everything polled. */
  lemma {:induction false} TallyConcat(a: seq<Entry>, b: seq<Entry>, group: Option<Group>)
    ensures Tally(a + b, group) == AddSummaries(Tally(a, group), Tally(b, group))
    decreases |b|
  {
    if b == [] {
      assert a + b == a;
    } else {
      var n, m := |a + b| - 1, |b| - 1;
      TallyConcat(a, b[..m], group);
      assert (a + b)[..n] == a + b[..m];
      assert (a + b)[n] == b[m];
    }
  }

  /** The mutable log behind the lock. */
  class Inner {
    var log: seq<Entry>
    var numExecutionCompletions: nat
    const maxUdfExecution: nat

    ghost function View(): Log
      reads this
    {
      Log(log, numExecutionCompletions, maxUdfExecution)
    }

    ghost predicate Valid()
      reads this
    {
      numExecutionCompletions == Completions(log) && Increasing(log)
    }

    constructor (maxUdfExecution: nat)
      ensures Valid() && log == [] && this.maxUdfExecution == maxUdfExecution
    {
      this.maxUdfExecution := maxUdfExecution;
      log, numExecutionCompletions := [], 0;
    }

    method LogExecution(execution: Execution, clock: Option<nat>) returns (r: Result<()>)
      requires Valid()
      modifies this
      ensures Valid()
      ensures r.Ok? <==> clock.Some?
      ensures View() == match old(NextTime(log, clock))
                        case Ok(ts) => old(Append(View(), Completion(execution), ts))
                        case Err => old(View())
      ensures r.Ok? ==> numExecutionCompletions <= maxUdfExecution
    {
      var nextTime := NextTime(log, clock);
      if nextTime.Err? {
        return Err;
      }
      var e := Entry(nextTime.value, Completion(execution));
      CompletionsConcat(log, [e]);
      IncreasingAppend(log, e);
      log := log + [e];
      numExecutionCompletions := numExecutionCompletions + 1;
      while numExecutionCompletions > maxUdfExecution
        invariant Valid()
        invariant Evict(View()) == old(Append(View(), Completion(execution), nextTime.value))
        decreases |log|
      {
        var front := log[0];
        log := log[1..];
        if front.part.Completion? {
          numExecutionCompletions := numExecutionCompletions - 1;
        }
      }
      r := Ok(());
    }

    method LogExecutionProgress(logLines: seq<string>, clock: Option<nat>) returns (r: Result<()>)
      requires Valid()
      modifies this`log
      ensures Valid()
      ensures r.Ok? <==> clock.Some?
      ensures View() == match old(NextTime(log, clock))
                        case Ok(ts) => old(Append(View(), Progress(logLines), ts))
                        case Err => old(View())
    {
      var nextTime := NextTime(log, clock);
      if nextTime.Err? {
        return Err;
      }
      var e := Entry(nextTime.value, Progress(logLines));
      CompletionsConcat(log, [e]);
      IncreasingAppend(log, e);
      log := log + [e];
      r := Ok(());
    }

    // `stream`: the completions after the cursor, whole, in order. `None` keeps waiting.
    method Stream(cursor: nat) returns (r: Option<(seq<Execution>, nat)>)
      ensures r.None? <==> StreamParts(log, cursor).None?
      ensures r.Some? ==>
                && r.value.1 == StreamParts(log, cursor).value.1
                && AsParts(r.value.0) == OnlyCompletions(log[FirstAfter(log, cursor)..])
                && |r.value.0| == Completions(log[FirstAfter(log, cursor)..])
    {
      var ix := FirstAfter(log, cursor);
      if ix == |log| {
        return None;
      }
      var executions := CollectCompletions(log[ix..]);
      OnlyLength(log[ix..]);
      r := Some((executions, log[|log| - 1].ts));
    }

    static method CollectCompletions(entries: seq<Entry>) returns (executions: seq<Execution>)
      ensures AsParts(executions) == OnlyCompletions(entries)
    {
      executions := [];
      var i := 0;
      while i < |entries|
        invariant 0 <= i <= |entries|
        invariant AsParts(executions) == OnlyCompletions(entries[..i])
      {
        assert entries[..i + 1][..i] == entries[..i];
        if entries[i].part.Completion? {
          executions := executions + [entries[i].part.execution];
        }
        i := i + 1;
      }
      assert entries[..i] == entries;
    }

    // `None` asks for the whole log; the first result is `None` when there is nothing new.
    method UdfSummary(cursor: Option<nat>)
      returns (total: Option<Summary>, calls: map<Group, Summary>, newCursor: Option<nat>)
      ensures newCursor == if log == [] then None else Some(log[|log| - 1].ts)
      ensures var ix := if cursor.Some? then FirstAfter(log, cursor.value) else 0;
              && (total.None? <==> ix == |log|)
              && (total.Some? ==> total.value == Tally(log[ix..], None))
              && Grouped(calls, log[ix..])
    {
      newCursor := if log == [] then None else Some(log[|log| - 1].ts);
      var ix := if cursor.Some? then FirstAfter(log, cursor.value) else 0;
      var sum;
      sum, calls := Summarize(log[ix..]);
      total := if ix == |log| then None else Some(sum);
    }

    static method Summarize(entries: seq<Entry>) returns (sum: Summary, calls: map<Group, Summary>)
      ensures sum == Tally(entries, None) && Grouped(calls, entries)
    {
      sum, calls := NOTHING, map[];
      var i := 0;
      while i < |entries|
        invariant 0 <= i <= |entries|
        invariant sum == Tally(entries[..i], None) && Grouped(calls, entries[..i])
      {
        TallySnoc(entries[..i], entries[i], None);
        GroupedSnoc(calls, entries[..i], entries[i]);
        assert entries[..i + 1] == entries[..i] + [entries[i]];
        if entries[i].part.Completion? {
          var e := entries[i].part.execution;
          var g := GroupOf(e);
          var entry := if g in calls then calls[g] else NOTHING;
          calls := calls[g := AddExecution(entry, e)];
          sum := AddExecution(sum, e);
        }
        i := i + 1;
      }
      assert entries[..i] == entries;
    }
  }

  function AsParts(executions: seq<Execution>): seq<Part> {
    seq(|executions|, i requires 0 <= i < |executions| => Completion(executions[i]))
  }

  function OnlyCompletions(entries: seq<Entry>): seq<Part> {
    if entries == [] then []
    else
      var last, before := entries[|entries| - 1].part, OnlyCompletions(entries[..|entries| - 1]);
      if last.Completion? then before + [last] else before
  }
}

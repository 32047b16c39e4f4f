/** The event history of a run (core/events.py) and the stream that resumes from it
    (api/routers/runs.py). Emitting an event is one step. */
module Events {
  import opened Common

  datatype Event = Event(number: int, kind: string, data: string)

  predicate IsTerminal(e: Event) {
    e.kind == "run.end" || e.kind == "run.error" || e.kind == "run.cancelled"
  }

  /** Events are numbered from one, without gaps. */
  ghost predicate Numbered(published: seq<Event>) {
    forall i :: 0 <= i < |published| ==> published[i].number == i + 1
  }

  /** The oldest of `n` events that a history trimmed to the last `cap` events keeps. */
  function Oldest(n: nat, cap: nat): nat {
    if n <= cap then 0 else n - cap
  }

  /** Of the events from index `from` to `to`, those numbered above `after` begin here. */
  function Later(from: nat, to: nat, after: int): (start: nat)
    requires from <= to
    ensures from <= start <= to
  {
    if after >= to then to else if after > from then after else from
  }

  /** Where the replay of `n` events after number `after` begins. */
  function ReplayStart(n: nat, cap: nat, after: int): nat {
    Later(Oldest(n, cap), n, after)
  }

  /** The texts of the token events. */
  function Tokens(published: seq<Event>): string {
    if published == [] then ""
    else
      var last := published[|published| - 1];
      Tokens(published[..|published| - 1]) + if last.kind == "step.token" then last.data else ""
  }

  function Joined(chunks: seq<string>): string {
    if chunks == [] then "" else Joined(chunks[..|chunks| - 1]) + chunks[|chunks| - 1]
  }

  /** The events numbered above `after`. */
  function Newer(events: seq<Event>, after: int): seq<Event> {
    if events == [] then []
    else
      var before, last := Newer(events[..|events| - 1], after), events[|events| - 1];
      if last.number > after then before + [last] else before
  }

  lemma {:induction false} AllNewer(events: seq<Event>, after: int)
    requires forall i :: 0 <= i < |events| ==> events[i].number > after
    ensures Newer(events, after) == events
  {
    if events != [] {
      AllNewer(events[..|events| - 1], after);
    }
  }

  lemma {:induction false} NoneNewer(events: seq<Event>, after: int)
    requires forall i :: 0 <= i < |events| ==> events[i].number <= after
    ensures Newer(events, after) == []
  {
    if events != [] {
      NoneNewer(events[..|events| - 1], after);
    }
  }

  lemma {:induction false} NewerJoined(a: seq<Event>, b: seq<Event>, after: int)
    ensures Newer(a + b, after) == Newer(a, after) + Newer(b, after)
  {
    if b == [] {
      assert a + b == a;
    } else {
      NewerJoined(a, b[..|b| - 1], after);
      assert (a + b)[..|a + b| - 1] == a + b[..|b| - 1];
    }
  }

  lemma NewerIsASlice(published: seq<Event>, lo: nat, hi: nat, after: int)
    requires Numbered(published) && lo <= hi <= |published|
    ensures Newer(published[lo..hi], after) == published[Later(lo, hi, after)..hi]
  {
    var start := Later(lo, hi, after);
    if lo < start {
      NoneNewer(published[lo..start], after);
    }
    if start < hi {
      AllNewer(published[start..hi], after);
    }
    NewerJoined(published[lo..start], published[start..hi], after);
    SlicesJoin(published, lo, start, hi);
  }

  lemma SlicesJoin(published: seq<Event>, lo: nat, mid: nat, hi: nat)
    requires lo <= mid <= hi <= |published|
    ensures published[lo..mid] + published[mid..hi] == published[lo..hi]
  {}

  /** The filter of `replay`; numbers start at one, so that nothing has to be filtered for zero. */
  method KeepNewer(events: seq<Event>, after: int) returns (kept: seq<Event>)
    requires forall i :: 0 <= i < |events| ==> events[i].number > 0
    ensures kept == Newer(events, after)
  {
    if after == 0 {
      AllNewer(events, 0);
      return events;
    }
    kept := [];
    for i := 0 to |events|
      invariant kept == Newer(events[..i], after)
    {
      assert events[..i + 1][..i] == events[..i];
      if events[i].number > after {
        kept := kept + [events[i]];
      }
    }
    assert events[..|events|] == events;
  }

  class EventEmitter {
    const cap: nat
    var last: nat
    var history: seq<Event>
    ghost var published: seq<Event>

    ghost predicate Valid()
      reads this
    {
      cap > 0 && last == |published| && Numbered(published) && history == published[Oldest(last, cap)..]
    }

    constructor (cap: nat)
      requires cap > 0
      ensures Valid() && published == [] && this.cap == cap
    {
      this.cap := cap;
      last, history, published := 0, [], [];
    }

    method Emit(kind: string, data: string) returns (number: nat)
      requires Valid()
      modifies this
      ensures Valid() && number == |published|
      ensures published == old(published) + [Event(number, kind, data)]
    {
      last := last + 1;
      number := last;
      var event := Event(number, kind, data);
      history := history + [event];
      if |history| > cap {
        history := history[|history| - cap..];
      }
      published := published + [event];
    }

    /** `replay`: exactly the events after the given number that the history still has. */
    method Replay(after: int) returns (events: seq<Event>)
      requires Valid()
      ensures events == published[ReplayStart(|published|, cap, after)..]
    {
      NewerIsASlice(published, Oldest(last, cap), last, after);
      assert published[Oldest(last, cap)..last] == history;
      events := KeepNewer(history, after);
    }
  }

  class TokenBuffer {
    const emitter: EventEmitter
    const flushChars: nat
    var buffer: seq<string>
    var size: nat

    ghost predicate Valid()
      reads this, emitter
    {
      emitter.Valid() && size == |Joined(buffer)|
    }

    constructor (emitter: EventEmitter, flushChars: nat)
      requires emitter.Valid()
      ensures Valid() && this.emitter == emitter && this.flushChars == flushChars && buffer == []
    {
      this.emitter, this.flushChars := emitter, flushChars;
      buffer, size := [], 0;
    }

    /** Every pushed character is in the published tokens or waits in the buffer, in order. */
    method Push(chunk: string)
      requires Valid()
      modifies this, emitter
      ensures Valid()
      ensures Tokens(emitter.published) + Joined(buffer) == Tokens(old(emitter.published)) + Joined(old(buffer)) + chunk
      ensures buffer == [] || size < flushChars
    {
      buffer := buffer + [chunk];
      assert buffer[..|buffer| - 1] == old(buffer);
      size := size + |chunk|;
      if size >= flushChars {
        Flush();
      }
    }

    method Flush()
      requires Valid()
      modifies this, emitter
      ensures Valid() && buffer == []
      ensures Tokens(emitter.published) == Tokens(old(emitter.published)) + Joined(old(buffer))
      ensures |emitter.published| == |old(emitter.published)| + if old(buffer) == [] then 0 else 1
    {
      if buffer == [] {
        return;
      }
      var text := Joined(buffer);
      buffer, size := [], 0;
      var number := emitter.Emit("step.token", text);
      assert emitter.published[..|emitter.published| - 1] == old(emitter.published);
    }
  }

  // ---- The stream ---------------------------------------------------------------------

  /** Up to the first terminal event, and with it. */
  function UntilTerminal(events: seq<Event>): seq<Event> {
    if events == [] then []
    else if IsTerminal(events[0]) then [events[0]]
    else [events[0]] + UntilTerminal(events[1..])
  }

  predicate HasTerminal(events: seq<Event>) {
    exists i :: 0 <= i < |events| && IsTerminal(events[i])
  }

  function Max(a: int, b: int): int {
    if a > b then a else b
  }

  function Highest(events: seq<Event>, after: int): int {
    if events == [] then after else Highest(events[1..], Max(after, events[0].number))
  }

  /** The live part: what is not newer than everything sent so far is skipped. */
  function Feed(live: seq<Event>, highest: int): seq<Event> {
    if live == [] then []
    else if live[0].number <= highest then Feed(live[1..], highest)
    else if IsTerminal(live[0]) then [live[0]]
    else [live[0]] + Feed(live[1..], live[0].number)
  }

  function Sent(replayed: seq<Event>, live: seq<Event>, after: int, ended: Option<string>): seq<Event> {
    if HasTerminal(replayed) then UntilTerminal(replayed)
    else
      var highest := Highest(replayed, after);
      if ended.Some? && highest == after then replayed + [Event(highest + 1, "run.end", ended.value)]
      else replayed + Feed(live, highest)
  }

  lemma OneReplayed(replayed: seq<Event>, i: nat, highest: int)
    requires i < |replayed|
    ensures Highest(replayed[i..], highest) == Highest(replayed[i + 1..], Max(highest, replayed[i].number))
    ensures HasTerminal(replayed[..i + 1]) <==> HasTerminal(replayed[..i]) || IsTerminal(replayed[i])
  {
    assert replayed[i..][1..] == replayed[i + 1..];
    assert forall k :: 0 <= k < i ==> replayed[..i + 1][k] == replayed[..i][k];
    assert replayed[..i + 1][i] == replayed[i];
  }

  lemma OneFed(live: seq<Event>, i: nat, highest: int)
    requires i < |live|
    ensures var e, rest := live[i], live[i + 1..];
            Feed(live[i..], highest) == if e.number <= highest then Feed(rest, highest)
                                        else if IsTerminal(e) then [e] else [e] + Feed(rest, e.number)
  {
    assert live[i..][0] == live[i] && live[i..][1..] == live[i + 1..];
  }

  /** The generator of `stream_run`: `ended` is the status of a run that is over, `live` what
      arrives before the client disconnects. */
  method Generate(replayed: seq<Event>, live: seq<Event>, after: int, ended: Option<string>) returns (sent: seq<Event>)
    ensures sent == Sent(replayed, live, after, ended)
  {
    var over, highest;
    sent, highest, over := SendReplayed(replayed, after);
    if over {
      return;
    }
    if ended.Some? && highest == after {
      return sent + [Event(highest + 1, "run.end", ended.value)];
    }
    var fed := SendLive(live, highest);
    sent := sent + fed;
  }

  method SendReplayed(replayed: seq<Event>, after: int) returns (sent: seq<Event>, highest: int, over: bool)
    ensures over <==> HasTerminal(replayed)
    ensures if over then sent == UntilTerminal(replayed) else sent == replayed && highest == Highest(replayed, after)
  {
    sent, highest := [], after;
    for i := 0 to |replayed|
      invariant sent == replayed[..i] && !HasTerminal(replayed[..i])
      invariant Highest(replayed, after) == Highest(replayed[i..], highest)
    {
      OneReplayed(replayed, i, highest);
      highest := Max(highest, replayed[i].number);
      sent := sent + [replayed[i]];
      if IsTerminal(replayed[i]) {
        StopsAt(replayed, i);
        return sent, highest, true;
      }
    }
    assert replayed[..|replayed|] == replayed;
    over := false;
  }

  method SendLive(live: seq<Event>, already: int) returns (sent: seq<Event>)
    ensures sent == Feed(live, already)
  {
    var highest := already;
    sent := [];
    for i := 0 to |live|
      invariant Feed(live, already) == sent + Feed(live[i..], highest)
    {
      OneFed(live, i, highest);
      if live[i].number > highest {
        highest := live[i].number;
        sent := sent + [live[i]];
        if IsTerminal(live[i]) {
          return;
        }
      }
    }
  }

  lemma {:induction false} StopsAt(events: seq<Event>, i: nat)
    requires i < |events| && IsTerminal(events[i]) && !HasTerminal(events[..i])
    ensures HasTerminal(events) && UntilTerminal(events) == events[..i + 1]
  {
    if i > 0 {
      assert !IsTerminal(events[0]) by { assert events[..i][0] == events[0]; }
      assert !HasTerminal(events[1..][..i - 1]) by {
        assert events[1..][..i - 1] == events[..i][1..];
      }
      StopsAt(events[1..], i - 1);
      assert events[..i + 1] == [events[0]] + events[1..][..i];
    }
  }

  // ---- What a client receives ---------------------------------------------------------

  /** The end of the stream of the events from index `lo` to `hi`. */
  function Cut(published: seq<Event>, lo: nat, hi: nat): (end: nat)
    requires lo <= hi <= |published|
    ensures lo <= end <= hi && (lo < hi ==> lo < end)
    decreases hi - lo
  {
    if lo == hi then hi else if IsTerminal(published[lo]) then lo + 1 else Cut(published, lo + 1, hi)
  }

  /** It is the first terminal event, or everything there is. */
  lemma {:induction false} CutIsTheEnd(published: seq<Event>, lo: nat, hi: nat)
    requires lo <= hi <= |published|
    ensures var end := Cut(published, lo, hi);
            && (forall i :: lo <= i < end - 1 ==> !IsTerminal(published[i]))
            && (end < hi ==> lo < end && IsTerminal(published[end - 1]))
    decreases hi - lo
  {
    if lo < hi && !IsTerminal(published[lo]) {
      CutIsTheEnd(published, lo + 1, hi);
    }
  }

  lemma {:induction false} CutAtTerminal(published: seq<Event>, lo: nat, hi: nat, t: nat)
    requires lo <= t < hi <= |published| && IsTerminal(published[t])
    ensures lo < Cut(published, lo, hi) <= t + 1 && IsTerminal(published[Cut(published, lo, hi) - 1])
    decreases hi - lo
  {
    if lo < t && !IsTerminal(published[lo]) {
      CutAtTerminal(published, lo + 1, hi, t);
    }
  }

  /** A terminal event before `mid` ends the stream there, however long it could be. */
  lemma {:induction false} CutStays(published: seq<Event>, lo: nat, mid: nat, hi: nat)
    requires lo <= mid <= hi <= |published|
    ensures Cut(published, lo, hi) ==
            if HasTerminal(published[lo..mid]) then Cut(published, lo, mid) else Cut(published, mid, hi)
    decreases mid - lo
  {
    if lo < mid {
      var events := published[lo..mid];
      HeadAndRest(published, lo, mid);
      CutStays(published, lo + 1, mid, hi);
      assert forall i :: 0 <= i < |events[1..]| ==> events[1..][i] == events[i + 1];
      assert HasTerminal(events) <==> IsTerminal(events[0]) || HasTerminal(events[1..]) by {
        if i :| 0 <= i < |events| && IsTerminal(events[i]) {
          assert i > 0 ==> events[1..][i - 1] == events[i];
        }
      }
    }
  }

  lemma HeadAndRest(published: seq<Event>, lo: nat, hi: nat)
    requires lo < hi <= |published|
    ensures published[lo..hi][0] == published[lo] && published[lo..hi][1..] == published[lo + 1..hi]
    ensures forall k :: lo + 1 <= k <= hi ==> [published[lo]] + published[lo + 1..k] == published[lo..k]
  {}

  lemma {:induction false} UntilTerminalIsASlice(published: seq<Event>, lo: nat, hi: nat)
    requires lo <= hi <= |published|
    ensures UntilTerminal(published[lo..hi]) == published[lo..Cut(published, lo, hi)]
    ensures !HasTerminal(published[lo..hi]) ==> Cut(published, lo, hi) == hi
    decreases hi - lo
  {
    if lo < hi {
      var events := published[lo..hi];
      HeadAndRest(published, lo, hi);
      UntilTerminalIsASlice(published, lo + 1, hi);
      if !HasTerminal(events) {
        assert !IsTerminal(events[0]);
        assert forall i :: 0 <= i < |events[1..]| ==> events[1..][i] == events[i + 1];
      }
    }
  }

  lemma {:induction false} HighestIsTheLast(published: seq<Event>, lo: nat, hi: nat, after: int)
    requires Numbered(published) && lo <= hi <= |published|
    ensures Highest(published[lo..hi], after) == if lo < hi then Max(after, hi) else after
    decreases hi - lo
  {
    if lo < hi {
      assert published[lo..hi][1..] == published[lo + 1..hi];
      HighestIsTheLast(published, lo + 1, hi, Max(after, lo + 1));
    }
  }

  lemma {:induction false} FeedIsASlice(published: seq<Event>, lo: nat, hi: nat, highest: int)
    requires Numbered(published) && lo <= hi <= |published|
    ensures var start := Later(lo, hi, highest);
            Feed(published[lo..hi], highest) == published[start..Cut(published, start, hi)]
    decreases hi - lo
  {
    if lo < hi {
      HeadAndRest(published, lo, hi);
      FeedIsASlice(published, lo + 1, hi, if lo + 1 <= highest then highest else lo + 1);
    }
  }

  /** A connection: `n` events were published when it read the history, `m` when it subscribed, and
      it lasted until event `e`. No more than `heard` of what it sent reached the client: it may
      drop at any place, in the replay as well. */
  datatype Connection = Connection(n: nat, m: nat, e: nat, ended: Option<string>, heard: nat)

  ghost predicate Possible(published: seq<Event>, c: Connection) {
    Numbered(published) && c.n <= c.m <= c.e <= |published|
  }

  function Stream(published: seq<Event>, cap: nat, c: Connection, after: int): seq<Event>
    requires c.n <= c.m <= c.e <= |published|
  {
    Sent(published[ReplayStart(c.n, cap, after)..c.n], published[c.m..c.e], after, c.ended)
  }

  /** The run was over and nothing was left to replay: the stream makes up a last event. */
  predicate MadeUp(cap: nat, c: Connection, after: int) {
    c.ended.Some? && ReplayStart(c.n, cap, after) == c.n
  }

  /** What a connection sends: a piece of the history up to a terminal event, and then a piece of
      what was published after it subscribed. */
  lemma StreamIsTwoSlices(published: seq<Event>, cap: nat, c: Connection, after: int)
    requires Possible(published, c)
    ensures var start := ReplayStart(c.n, cap, after);
            var sent := Stream(published, cap, c, after);
            if HasTerminal(published[start..c.n]) then sent == published[start..Cut(published, start, c.n)]
            else if MadeUp(cap, c, after) then sent == [Event(after + 1, "run.end", c.ended.value)]
            else
              var next := Later(c.m, c.e, if start < c.n then c.n else after);
              sent == published[start..c.n] + published[next..Cut(published, next, c.e)]
  {
    var start := ReplayStart(c.n, cap, after);
    UntilTerminalIsASlice(published, start, c.n);
    HighestIsTheLast(published, start, c.n, after);
    FeedIsASlice(published, c.m, c.e, if start < c.n then c.n else after);
    if start < c.n {
      assert after < c.n;
    }
  }

  function LastNumber(events: seq<Event>, after: int): int {
    if events == [] then after else events[|events| - 1].number
  }

  /** Every event is numbered above the one before it, the first one above `after`. */
  ghost predicate Ascending(events: seq<Event>, after: int) {
    if events == [] then true
    else
      var before := events[..|events| - 1];
      Ascending(before, after) && events[|events| - 1].number > LastNumber(before, after)
  }

  lemma {:induction false} AscendingJoined(a: seq<Event>, b: seq<Event>, after: int)
    requires Ascending(a, after) && Ascending(b, LastNumber(a, after))
    ensures Ascending(a + b, after) && LastNumber(a + b, after) == LastNumber(b, LastNumber(a, after))
  {
    if b == [] {
      assert a + b == a;
    } else {
      AscendingJoined(a, b[..|b| - 1], after);
      assert (a + b)[..|a + b| - 1] == a + b[..|b| - 1];
    }
  }

  lemma {:induction false} SliceAscends(published: seq<Event>, lo: nat, hi: nat, after: int)
    requires Numbered(published) && lo <= hi <= |published| && (lo < hi ==> after <= lo)
    ensures Ascending(published[lo..hi], after) && LastNumber(published[lo..hi], after) == if lo < hi then hi else after
  {
    if lo < hi {
      SliceAscends(published, lo, hi - 1, after);
      assert published[lo..hi][..hi - lo - 1] == published[lo..hi - 1];
    }
  }

  /** A stream never goes back and never repeats a number. */
  lemma StreamAscends(published: seq<Event>, cap: nat, c: Connection, after: int)
    requires Possible(published, c)
    ensures Ascending(Stream(published, cap, c, after), after)
  {
    StreamIsTwoSlices(published, cap, c, after);
    var start := ReplayStart(c.n, cap, after);
    if HasTerminal(published[start..c.n]) {
      SliceAscends(published, start, Cut(published, start, c.n), after);
    } else if !MadeUp(cap, c, after) {
      var highest := if start < c.n then c.n else after;
      var next := Later(c.m, c.e, highest);
      SliceAscends(published, start, c.n, after);
      SliceAscends(published, next, Cut(published, next, c.e), highest);
      AscendingJoined(published[start..c.n], published[next..Cut(published, next, c.e)], after);
    }
  }

  /** One after the other, from the number after `after`. */
  ghost predicate Gapless(events: seq<Event>, after: int) {
    forall i :: 0 <= i < |events| ==> events[i].number == after + 1 + i
  }

  lemma SliceGapless(published: seq<Event>, lo: nat, hi: nat, after: int)
    requires Numbered(published) && lo <= hi <= |published|
    ensures Gapless(published[lo..hi], after) <==> lo == hi || lo == after
  {
    if lo < hi && lo != after {
      assert published[lo..hi][0] == published[lo];
    }
  }

  lemma GaplessJoined(a: seq<Event>, b: seq<Event>, after: int)
    ensures Gapless(a + b, after) <==> Gapless(a, after) && Gapless(b, after + |a|)
  {
    if Gapless(a + b, after) {
      assert forall i :: 0 <= i < |a| ==> a[i] == (a + b)[i];
      assert forall i :: 0 <= i < |b| ==> b[i] == (a + b)[|a| + i];
    }
  }

  /** The numbers a client gets have no hole exactly when the history still has all it asked for
      and, unless the replay ends the stream, nothing is published between the replay and the
      subscription or nothing comes after it; or the one event there is was made up. A hole at the
      end does not show: see `DeliversIff`. */
  lemma GaplessIff(published: seq<Event>, cap: nat, c: Connection, after: nat)
    requires Possible(published, c) && cap > 0 && after <= c.n
    ensures Gapless(Stream(published, cap, c, after), after) <==>
              || MadeUp(cap, c, after)
              || (c.n - after <= cap && (HasTerminal(published[after..c.n]) || c.m == c.n || c.m == c.e))
  {
    StreamIsTwoSlices(published, cap, c, after);
    var start := ReplayStart(c.n, cap, after);
    if HasTerminal(published[start..c.n]) {
      SliceGapless(published, start, Cut(published, start, c.n), after);
    } else if !MadeUp(cap, c, after) {
      var next := Later(c.m, c.e, if start < c.n then c.n else after);
      var end := Cut(published, next, c.e);
      SliceGapless(published, start, c.n, after);
      SliceGapless(published, next, end, after + c.n - start);
      GaplessJoined(published[start..c.n], published[next..end], after);
    }
  }

  /** The resume is within the history, and unless the replay ends the stream nothing is published
      before the subscription. */
  predicate Lossless(published: seq<Event>, cap: nat, c: Connection, after: nat)
    requires after <= c.n <= |published|
  {
    c.n - after <= cap && (HasTerminal(published[after..c.n]) || c.m == c.n)
  }

  ghost predicate Begins(events: seq<Event>, sent: seq<Event>) {
    |events| <= |sent| && forall i :: 0 <= i < |events| ==> sent[i] == events[i]
  }

  /** The end that is made up is the next event itself. */
  predicate TrueEnd(published: seq<Event>, c: Connection)
    requires c.n < |published| && c.ended.Some?
  {
    published[c.n] == Event(c.n + 1, "run.end", c.ended.value)
  }

  /** A connection sends everything after number `after`, up to the first terminal event or to where
      it ends, exactly when it is lossless; one whose end is made up, exactly when nothing more was
      published, or just that end. */
  lemma DeliversIff(published: seq<Event>, cap: nat, c: Connection, after: nat)
    requires Possible(published, c) && cap > 0 && after <= c.n
    ensures Begins(published[after..Cut(published, after, c.e)], Stream(published, cap, c, after)) <==>
              if MadeUp(cap, c, after) then c.n == c.e || TrueEnd(published, c) else Lossless(published, cap, c, after)
    ensures !MadeUp(cap, c, after) && Lossless(published, cap, c, after) ==>
              Stream(published, cap, c, after) == published[after..Cut(published, after, c.e)]
  {
    StreamIsTwoSlices(published, cap, c, after);
    if MadeUp(cap, c, after) {
      MadeUpDelivers(published, cap, c, after);
    } else if c.n - after > cap {
      TooLate(published, cap, c, after);
    } else {
      CutStays(published, after, c.n, c.e);
      if !HasTerminal(published[after..c.n]) {
        if c.m == c.n {
          SlicesJoin(published, after, c.n, Cut(published, c.n, c.e));
        } else {
          LostInBetween(published, after, c.n, c.m, c.e);
        }
      }
    }
  }

  lemma MadeUpDelivers(published: seq<Event>, cap: nat, c: Connection, after: nat)
    requires Possible(published, c) && cap > 0 && after <= c.n && MadeUp(cap, c, after)
    ensures Begins(published[after..Cut(published, after, c.e)], Stream(published, cap, c, after)) <==>
              c.n == c.e || TrueEnd(published, c)
  {
    StreamIsTwoSlices(published, cap, c, after);
    var all, sent := published[after..Cut(published, after, c.e)], Stream(published, cap, c, after);
    assert after == c.n && sent == [Event(after + 1, "run.end", c.ended.value)];
    if c.n < c.e {
      assert all[0] == published[c.n];
      if TrueEnd(published, c) {
        assert all == [published[c.n]];
      }
    }
  }

  lemma TooLate(published: seq<Event>, cap: nat, c: Connection, after: nat)
    requires Possible(published, c) && 0 < cap < c.n - after
    ensures !Begins(published[after..Cut(published, after, c.e)], Stream(published, cap, c, after))
  {
    StreamIsTwoSlices(published, cap, c, after);
    var start, sent, all := ReplayStart(c.n, cap, after), Stream(published, cap, c, after), published[after..Cut(published, after, c.e)];
    assert start < c.n && sent != [] && sent[0] == published[start];
    assert all[0] == published[after];
  }

  lemma LostInBetween(published: seq<Event>, after: nat, n: nat, m: nat, e: nat)
    requires Numbered(published) && after <= n < m <= e <= |published|
    ensures !Begins(published[after..Cut(published, n, e)], published[after..n] + published[m..Cut(published, m, e)])
  {
    var sent, all := published[after..n] + published[m..Cut(published, m, e)], published[after..Cut(published, n, e)];
    assert all[n - after] == published[n];
    if |sent| > n - after {
      assert sent[n - after] == published[m];
    }
  }

  // ---- Across reconnects --------------------------------------------------------------

  ghost predicate AllPossible(published: seq<Event>, connections: seq<Connection>) {
    if connections == [] then true
    else AllPossible(published, connections[..|connections| - 1]) && Possible(published, connections[|connections| - 1])
  }

  /** What reaches the client of one connection. */
  function Heard(published: seq<Event>, cap: nat, c: Connection, after: int): seq<Event>
    requires c.n <= c.m <= c.e <= |published|
  {
    var sent := Stream(published, cap, c, after);
    if c.heard < |sent| then sent[..c.heard] else sent
  }

  /** Each connection resumes after the last number received. */
  ghost function Received(published: seq<Event>, cap: nat, connections: seq<Connection>): seq<Event>
    requires AllPossible(published, connections)
  {
    if connections == [] then []
    else
      var before := Received(published, cap, connections[..|connections| - 1]);
      before + Heard(published, cap, connections[|connections| - 1], LastNumber(before, 0))
  }

  lemma {:induction false} PrefixAscends(events: seq<Event>, k: nat, after: int)
    requires Ascending(events, after) && k <= |events|
    ensures Ascending(events[..k], after)
  {
    if k < |events| {
      PrefixAscends(events[..|events| - 1], k, after);
      assert events[..|events| - 1][..k] == events[..k];
    } else {
      assert events[..k] == events;
    }
  }

  /** Over any reconnects, lossy or not, and wherever connections drop, a client never sees an event
      twice or out of order. */
  lemma {:induction false} ReconnectsAscend(published: seq<Event>, cap: nat, connections: seq<Connection>)
    requires AllPossible(published, connections)
    ensures Ascending(Received(published, cap, connections), 0)
  {
    if connections != [] {
      var n := |connections| - 1;
      var c, before := connections[n], Received(published, cap, connections[..n]);
      var after := LastNumber(before, 0);
      ReconnectsAscend(published, cap, connections[..n]);
      StreamAscends(published, cap, c, after);
      var sent := Stream(published, cap, c, after);
      PrefixAscends(sent, if c.heard < |sent| then c.heard else |sent|, after);
      assert sent[..|sent|] == sent;
      AscendingJoined(before, Heard(published, cap, c, after), 0);
    }
  }

  /** Every connection resumes losslessly after what the client has. */
  ghost predicate Steady(published: seq<Event>, cap: nat, connections: seq<Connection>)
    requires AllPossible(published, connections)
  {
    if connections == [] then true
    else
      var n := |connections| - 1;
      var c, after := connections[n], LastNumber(Received(published, cap, connections[..n]), 0);
      Steady(published, cap, connections[..n]) &&
      0 <= after <= c.n && !MadeUp(cap, c, after) && Lossless(published, cap, c, after)
  }

  /** How far such a client gets: each connection takes it on to the first terminal event or to
      where the connection ends, unless it drops before. */
  ghost function Reached(published: seq<Event>, connections: seq<Connection>): (k: nat)
    requires AllPossible(published, connections)
    ensures k <= |published|
  {
    if connections == [] then 0
    else
      var c, before := connections[|connections| - 1], Reached(published, connections[..|connections| - 1]);
      var end := if before <= c.e then Cut(published, before, c.e) else before;
      if before + c.heard < end then before + c.heard else end
  }

  lemma LastOfPrefix(published: seq<Event>, k: nat)
    requires Numbered(published) && k <= |published|
    ensures LastNumber(published[..k], 0) == k
  {}

  lemma HeardGoesOn(published: seq<Event>, cap: nat, c: Connection, after: nat, end: nat)
    requires Possible(published, c) && cap > 0 && after <= c.n && !MadeUp(cap, c, after) && Lossless(published, cap, c, after)
    requires var all := Cut(published, after, c.e); end == if after + c.heard < all then after + c.heard else all
    ensures Heard(published, cap, c, after) == published[after..end]
  {
    DeliversIff(published, cap, c, after);
    var all := Cut(published, after, c.e);
    assert |Stream(published, cap, c, after)| == all - after;
    if after + c.heard < all {
      PrefixOfSlice(published, after, all, c.heard);
    }
  }

  lemma PrefixOfSlice(published: seq<Event>, lo: nat, hi: nat, k: nat)
    requires lo + k <= hi <= |published|
    ensures published[lo..hi][..k] == published[lo..lo + k]
  {}

  /** Then the client has exactly the first events of the run, each of them once, as far as its
      connections reached. */
  lemma {:induction false} SteadyClientsMissNothing(published: seq<Event>, cap: nat, connections: seq<Connection>)
    requires cap > 0 && Numbered(published) && AllPossible(published, connections) && Steady(published, cap, connections)
    ensures Received(published, cap, connections) == published[..Reached(published, connections)]
  {
    if connections != [] {
      var n := |connections| - 1;
      SteadyClientsMissNothing(published, cap, connections[..n]);
      var before, end := Reached(published, connections[..n]), Reached(published, connections);
      LastOfPrefix(published, before);
      HeardGoesOn(published, cap, connections[n], before, end);
      SlicesJoin(published, 0, before, end);
      assert published[0..end] == published[..end] && published[0..before] == published[..before];
    }
  }

  /** If the last connection does not drop before the run's first terminal event, the last thing the
      client hears is that event. */
  lemma TheEndIsHeard(published: seq<Event>, cap: nat, connections: seq<Connection>, t: nat)
    requires cap > 0 && Numbered(published) && connections != []
    requires AllPossible(published, connections) && Steady(published, cap, connections)
    requires var c, before := connections[|connections| - 1], Reached(published, connections[..|connections| - 1]);
             before <= t < c.e && IsTerminal(published[t]) && c.heard >= |published|
    ensures var received := Received(published, cap, connections);
            received != [] && IsTerminal(received[|received| - 1]) && |received| <= t + 1
  {
    SteadyClientsMissNothing(published, cap, connections);
    var c, before := connections[|connections| - 1], Reached(published, connections[..|connections| - 1]);
    CutAtTerminal(published, before, c.e, t);
    var end := Reached(published, connections);
    assert end == Cut(published, before, c.e) && published[..end][end - 1] == published[end - 1];
  }
}

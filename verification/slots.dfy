/** Concurrency slots: the counter with a time to live in Redis (core/ratelimit.py) and the worker
    jobs that hold the slots (worker/main.py). Times are whole seconds. */
module ConcurrencySlots {
  import opened Common

  // ---- The counter --------------------------------------------------------------------

  datatype Key = Absent | Present(value: int, expiresAt: Option<int>)

  /** What Redis answers with at `now`: an expired key is gone. */
  function Seen(key: Key, now: int): Key {
    if key.Present? && key.expiresAt.Some? && now >= key.expiresAt.value then Absent else key
  }

  function Value(key: Key): int {
    if key.Present? then key.value else 0
  }

  /** The script of `acquire_slot`. */
  function Acquire(key: Key, now: int, limit: int, ttl: int): (Key, bool) {
    var current := Value(Seen(key, now));
    if current >= limit then (Seen(key, now), false) else (Present(current + 1, Some(now + ttl)), true)
  }

  /** DECR: keeps the time to live, and creates a missing key without one. */
  function Decremented(key: Key, now: int): Key {
    match Seen(key, now)
    case Absent => Present(-1, None)
    case Present(v, e) => Present(v - 1, e)
  }

  /** `release_slot`: SET drops the time to live. */
  function Release(key: Key, now: int): Key {
    var key' := Decremented(key, now);
    if key'.value < 0 then Present(0, None) else key'
  }

  /** The key has not expired. */
  predicate IsThere(key: Key, now: int) {
    key.Present? && (key.expiresAt.Some? ==> now < key.expiresAt.value)
  }

  class RateLimiter {
    var key: Key

    constructor ()
      ensures key == Absent
    {
      key := Absent;
    }

    method AcquireSlot(now: int, limit: int, ttl: int) returns (acquired: bool)
      modifies this
      ensures (key, acquired) == Acquire(old(key), now, limit, ttl)
      ensures var held := if IsThere(old(key), now) then old(key).value else 0;
              && (acquired <==> held < limit)
              && (acquired ==> key == Present(held + 1, Some(now + ttl)))
              && (!acquired ==> key == if IsThere(old(key), now) then old(key) else Absent)
    {
      key := Seen(key, now);
      var current := if key.Present? then key.value else 0;
      if current >= limit {
        return false;
      }
      key := if key.Present? then key.(value := key.value + 1) else Present(1, None);
      key := key.(expiresAt := Some(now + ttl));
      return true;
    }

    method ReleaseSlot(now: int)
      modifies this
      ensures key == Release(old(key), now)
      ensures key == if IsThere(old(key), now) && old(key).value > 0 then old(key).(value := old(key).value - 1)
                     else Present(0, None)
    {
      key := Seen(key, now);
      key := if key.Present? then key.(value := key.value - 1) else Present(-1, None);
      if key.value < 0 {
        key := Present(0, None);
      }
    }
  }

  // ---- Jobs ---------------------------------------------------------------------------

  /** `lifetime` bounds how long a job can hold its slot: the worker cancels it by then. */
  datatype Config = Config(limit: nat, ttl: nat, lifetime: nat)

  /** The settings of the worker for a run timeout: the slot outlives the job by three minutes. */
  function WorkerConfig(limit: nat, runTimeout: nat): Config {
    Config(limit, runTimeout + 300, runTimeout + 120)
  }

  /** `live` are the jobs that hold a slot, with the time they took it. `lost` counts the slots
      of jobs that crashed since the key was last absent, `granted` is the last grant. */
  datatype State = State(now: int, key: Key, live: map<nat, int>, lost: nat, granted: Option<int>)

  datatype Event =
    | Tick(seconds: nat)
    | Start(job: nat)
    | Finish(job: nat)
    | Crash(job: nat)

  predicate Enabled(c: Config, s: State, e: Event) {
    match e
    case Tick(d) => forall j :: j in s.live ==> s.now + d <= s.live[j] + c.lifetime
    case Start(j) => j !in s.live
    case Finish(j) => j in s.live
    case Crash(j) => j in s.live
  }

  /** `run_workflow` up to the slot, its `finally`, and a worker that dies in between. */
  function Next(c: Config, s: State, e: Event): State {
    match e
    case Tick(d) =>
      var key := Seen(s.key, s.now + d);
      s.(now := s.now + d, key := key, lost := if key.Absent? then 0 else s.lost)
    case Start(j) =>
      var (key, acquired) := Acquire(s.key, s.now, c.limit, c.ttl);
      if acquired then s.(key := key, live := s.live[j := s.now], granted := Some(s.now)) else s.(key := key)
    case Finish(j) => s.(key := Release(s.key, s.now), live := s.live - {j})
    case Crash(j) => s.(live := s.live - {j}, lost := s.lost + 1)
  }

  const INITIAL := State(0, Absent, map[], 0, None)

  function After(c: Config, events: seq<Event>): State {
    if events == [] then INITIAL else Next(c, After(c, events[..|events| - 1]), events[|events| - 1])
  }

  /** Every event was possible when it happened. */
  ghost predicate ValidRun(c: Config, events: seq<Event>) {
    if events == [] then true
    else
      var before := events[..|events| - 1];
      ValidRun(c, before) && Enabled(c, After(c, before), events[|events| - 1])
  }

  // ---- What every run keeps -----------------------------------------------------------

  /** The counter is exact: it counts the live jobs and the slots crashed jobs left behind. The
      key is there, and lasts, for as long as anybody holds a slot. */
  ghost predicate Safe(c: Config, s: State) {
    && Value(s.key) == |s.live| + s.lost <= c.limit
    && Seen(s.key, s.now) == s.key
    && (s.key.Present? ==> s.granted.Some? && s.key.expiresAt == Some(s.granted.value + c.ttl))
    && (s.granted.Some? ==> s.granted.value <= s.now)
    && forall j :: j in s.live ==>
         s.granted.Some? && s.live[j] <= s.granted.value && s.now <= s.live[j] + c.lifetime
  }

  lemma WithoutOne<K, V>(m: map<K, V>, k: K)
    requires k in m
    ensures |m - {k}| == |m| - 1
  {
    assert (m - {k}).Keys == m.Keys - {k};
    assert |m.Keys - {k}| == |m.Keys| - 1;
    assert |m| == |m.Keys|;
  }

  lemma TickIsSafe(c: Config, s: State, d: nat)
    requires c.lifetime < c.ttl && Safe(c, s) && Enabled(c, s, Tick(d))
    ensures Safe(c, Next(c, s, Tick(d)))
  {
    if Seen(s.key, s.now + d).Absent? && s.key.Present? {
      NoneLeft(c, s, d);
    }
  }

  lemma NoneLeft(c: Config, s: State, d: nat)
    requires c.lifetime < c.ttl && Safe(c, s) && Enabled(c, s, Tick(d))
    requires s.key.Present? && Seen(s.key, s.now + d).Absent?
    ensures s.live == map[]
  {
    assert s.live.Keys == {};
  }

  lemma StartIsSafe(c: Config, s: State, j: nat)
    requires c.lifetime < c.ttl && Safe(c, s) && Enabled(c, s, Start(j))
    ensures Safe(c, Next(c, s, Start(j)))
  {
    var live := s.live[j := s.now];
    assert live.Keys == s.live.Keys + {j};
    assert |live| == |s.live| + 1;
  }

  lemma StepIsSafe(c: Config, s: State, e: Event)
    requires c.lifetime < c.ttl && Safe(c, s) && Enabled(c, s, e)
    ensures Safe(c, Next(c, s, e))
    ensures e.Finish? ==> Decremented(s.key, s.now).value >= 0
  {
    match e
    case Tick(d) => TickIsSafe(c, s, d);
    case Start(j) => StartIsSafe(c, s, j);
    case Finish(j) => HolderHasKey(c, s, j);
    case Crash(j) => WithoutOne(s.live, j);
  }

  lemma HolderHasKey(c: Config, s: State, j: nat)
    requires c.lifetime < c.ttl && Safe(c, s) && j in s.live
    ensures s.key.Present? && s.key.value >= 1 && Seen(s.key, s.now) == s.key
    ensures |s.live - {j}| == |s.live| - 1
  {
    WithoutOne(s.live, j);
    assert |s.live| >= 1;
  }

  lemma RunStep(c: Config, events: seq<Event>, e: Event)
    ensures After(c, events + [e]) == Next(c, After(c, events), e)
    ensures ValidRun(c, events + [e]) <==> ValidRun(c, events) && Enabled(c, After(c, events), e)
  {
    assert (events + [e])[..|events|] == events;
  }

  /** In every run with crashes: the counter is the number of live jobs plus the slots lost to
      crashes, it never exceeds the limit, and the key does not expire under a live job. */
  lemma {:induction false} EveryRunIsSafe(c: Config, events: seq<Event>)
    requires c.lifetime < c.ttl && ValidRun(c, events)
    ensures Safe(c, After(c, events))
  {
    if events != [] {
      EveryRunIsSafe(c, events[..|events| - 1]);
      StepIsSafe(c, After(c, events[..|events| - 1]), events[|events| - 1]);
    }
  }

  /** The clamp in `release_slot` is never reached, for the worker's own timeouts. */
  lemma ReleaseNeverClamps(limit: nat, runTimeout: nat, events: seq<Event>, j: nat)
    requires var c := WorkerConfig(limit, runTimeout); ValidRun(c, events) && j in After(c, events).live
    ensures var c := WorkerConfig(limit, runTimeout);
            var s := After(c, events);
            && |s.live| <= Value(s.key) <= limit
            && Decremented(s.key, s.now).value >= 0
            && Release(s.key, s.now) == Decremented(s.key, s.now)
  {
    var c := WorkerConfig(limit, runTimeout);
    EveryRunIsSafe(c, events);
    HolderHasKey(c, After(c, events), j);
  }

  /** Slots lost to crashes do not wedge the organisation: a job is refused exactly when live
      and lost slots fill the limit, and that cannot last a whole time to live after the last
      grant. */
  lemma RefusalsEnd(c: Config, events: seq<Event>)
    requires c.lifetime < c.ttl && ValidRun(c, events) && c.limit > 0
    ensures var s := After(c, events);
            var refused := !Acquire(s.key, s.now, c.limit, c.ttl).1;
            && (refused <==> |s.live| + s.lost == c.limit)
            && (refused ==> s.granted.Some? && s.now < s.granted.value + c.ttl)
  {
    EveryRunIsSafe(c, events);
  }

  // ---- The slack is needed ------------------------------------------------------------

  function Starts(n: nat): seq<Event> {
    if n == 0 then [] else Starts(n - 1) + [Start(n - 1)]
  }

  function Holders(n: nat): (m: map<nat, int>)
    ensures |m| == n && forall j: nat :: (j in m <==> j < n) && (j in m ==> m[j] == 0)
  {
    if n == 0 then map[] else Holders(n - 1)[n - 1 := 0]
  }

  /** The state after `n` jobs started at once. */
  function Started(c: Config, n: nat): State {
    if n == 0 then INITIAL else State(0, Present(n, Some(c.ttl)), Holders(n), 0, Some(0))
  }

  ghost predicate Reaches(c: Config, events: seq<Event>, s: State) {
    ValidRun(c, events) && After(c, events) == s
  }

  lemma RunTo(c: Config, events: seq<Event>, e: Event, s: State, s': State)
    requires Reaches(c, events, s) && Enabled(c, s, e) && Next(c, s, e) == s'
    ensures Reaches(c, events + [e], s')
  {
    RunStep(c, events, e);
  }

  lemma OneMoreStarts(c: Config, n: nat)
    requires n < c.limit && c.ttl > 0
    ensures Enabled(c, Started(c, n), Start(n)) && Next(c, Started(c, n), Start(n)) == Started(c, n + 1)
  {}

  lemma OneMoreRuns(c: Config, n: nat, earlier: seq<Event>, events: seq<Event>)
    requires n < c.limit && c.ttl > 0 && events == earlier + [Start(n)] && Reaches(c, earlier, Started(c, n))
    ensures Reaches(c, events, Started(c, n + 1))
  {
    OneMoreStarts(c, n);
    RunTo(c, earlier, Start(n), Started(c, n), Started(c, n + 1));
  }

  lemma {:induction false} ManyStart(c: Config, n: nat)
    requires n <= c.limit && c.ttl > 0
    ensures Reaches(c, Starts(n), Started(c, n))
  {
    if n > 0 {
      ManyStart(c, n - 1);
      OneMoreRuns(c, n - 1, Starts(n - 1), Starts(n));
    }
  }

  /** If a job may live as long as the key, the ceiling can be broken: a full set of holders
      waits for the key to expire and one more job starts beside them. */
  lemma SlackIsNeeded(c: Config) returns (events: seq<Event>)
    requires c.ttl <= c.lifetime && c.limit > 0 && c.ttl > 0
    ensures ValidRun(c, events) && |After(c, events).live| > c.limit
  {
    var starts := Starts(c.limit);
    ManyStart(c, c.limit);
    RunStep(c, starts, Tick(c.ttl));
    RunStep(c, starts + [Tick(c.ttl)], Start(c.limit));
    events := starts + [Tick(c.ttl)] + [Start(c.limit)];
    assert After(c, events).live == Holders(c.limit)[c.limit := c.ttl];
  }

  /** The ceiling holds in every run exactly when the key outlasts the longest job. */
  lemma CeilingIffSlack(c: Config)
    requires c.limit > 0 && c.ttl > 0
    ensures (forall events :: ValidRun(c, events) ==> |After(c, events).live| <= c.limit) <==> c.lifetime < c.ttl
  {
    if c.lifetime < c.ttl {
      forall events | ValidRun(c, events)
        ensures |After(c, events).live| <= c.limit
      {
        EveryRunIsSafe(c, events);
      }
    } else {
      var events := SlackIsNeeded(c);
    }
  }
}

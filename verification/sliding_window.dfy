/** The sliding-window rate limiter (core/ratelimit.py): one Lua script over a sorted set, run
    atomically for each request. Times are seconds, as real numbers. */
module SlidingWindow {
  import opened Common

  /** A sorted set: each member with its score. A member is the fresh identifier of a request. */
  type Zset = map<nat, real>

  datatype Verdict = Verdict(allowed: bool, used: nat, reset: int)

  datatype Request = Request(now: real, member: nat)

  function Ceiling(x: real): (r: int)
    ensures r as real - 1.0 < x <= r as real
  {
    -((-x).Floor)
  }

  /** ZREMRANGEBYSCORE key 0 (now - window). */
  function Trim(z: Zset, now: real, window: nat): Zset {
    map m | m in z && !(0.0 <= z[m] <= now - window as real) :: z[m]
  }

  lemma {:induction false} LowestExists(z: Zset, keys: set<nat>)
    requires keys != {} && keys <= z.Keys
    ensures exists m :: m in keys && forall k :: k in keys ==> z[m] <= z[k]
  {
    var m :| m in keys;
    var rest := keys - {m};
    if rest == {} {
      assert keys == {m};
    } else {
      LowestExists(z, rest);
      var m' :| m' in rest && forall k :: k in rest ==> z[m'] <= z[k];
      var low := if z[m'] < z[m] then m' else m;
      assert forall k :: k in keys ==> k in rest || k == m;
      assert low in keys && forall k :: k in keys ==> z[low] <= z[k];
    }
  }

  /** The score ZRANGE key 0 0 WITHSCORES returns. */
  ghost function Oldest(z: Zset): (r: real)
    requires z != map[]
    ensures exists m :: m in z && z[m] == r
    ensures forall m :: m in z ==> r <= z[m]
  {
    assert z.Keys != {};
    LowestExists(z, z.Keys);
    var m :| m in z.Keys && forall k :: k in z.Keys ==> z[m] <= z[k];
    z[m]
  }

  /** The script, without the expiry it sets. */
  ghost function Script(z: Zset, req: Request, window: nat, limit: nat): (Zset, Verdict) {
    var kept := Trim(z, req.now, window);
    if |kept| >= limit then
      (kept, Verdict(false, |kept|,
                     if kept == map[] then window else Ceiling(Oldest(kept) + window as real - req.now)))
    else
      (kept[req.member := req.now], Verdict(true, |kept| + 1, 0))
  }

  /** The key in Redis: the set and when it expires. */
  datatype Stored = Stored(z: Zset, expiresAt: Option<real>)

  function Present(s: Stored, now: real): Zset {
    if s.expiresAt.Some? && now >= s.expiresAt.value then map[] else s.z
  }

  ghost function ScriptWithExpiry(s: Stored, req: Request, window: nat, limit: nat): (Stored, Verdict) {
    var (z, v) := Script(Present(s, req.now), req, window, limit);
    (Stored(z, if v.allowed then Some(req.now + window as real)
               else if Present(s, req.now) == s.z then s.expiresAt else None), v)
  }

  class Bucket {
    var z: Zset
    var expiresAt: Option<real>

    constructor ()
      ensures z == map[] && expiresAt == None
    {
      z, expiresAt := map[], None;
    }

    /** One evaluation of the script. */
    method Check(req: Request, window: nat, limit: nat) returns (v: Verdict)
      modifies this
      ensures (Stored(z, expiresAt), v) == ScriptWithExpiry(old(Stored(z, expiresAt)), req, window, limit)
    {
      if expiresAt.Some? && req.now >= expiresAt.value {
        if z != map[] {
          expiresAt := None;
        }
        z := map[];
      }
      z := Trim(z, req.now, window);
      var used := |z|;
      if used >= limit {
        var reset: int := window;
        if z != map[] {
          var oldest := LowestScore(z);
          reset := Ceiling(oldest + window as real - req.now);
        }
        return Verdict(false, used, reset);
      }
      z := z[req.member := req.now];
      expiresAt := Some(req.now + window as real);
      return Verdict(true, used + 1, 0);
    }
  }

  method LowestScore(z: Zset) returns (r: real)
    requires z != map[]
    ensures r == Oldest(z)
  {
    var m :| m in z;
    r := z[m];
    var rest := z.Keys - {m};
    while rest != {}
      invariant rest <= z.Keys
      invariant exists k :: k in z && z[k] == r
      invariant forall k :: k in z.Keys - rest ==> r <= z[k]
      decreases |rest|
    {
      var k :| k in rest;
      if z[k] < r {
        r := z[k];
      }
      rest := rest - {k};
    }
  }

  // ---- Runs ---------------------------------------------------------------------------

  /** The set after a sequence of requests. */
  ghost function After(reqs: seq<Request>, window: nat, limit: nat): Zset {
    if reqs == [] then map[]
    else Script(After(reqs[..|reqs| - 1], window, limit), reqs[|reqs| - 1], window, limit).0
  }

  /** The verdicts on them. */
  ghost function Verdicts(reqs: seq<Request>, window: nat, limit: nat): (v: seq<Verdict>)
    ensures |v| == |reqs|
  {
    if reqs == [] then []
    else
      var front := reqs[..|reqs| - 1];
      Verdicts(front, window, limit) + [Script(After(front, window, limit), reqs[|reqs| - 1], window, limit).1]
  }

  lemma {:induction false} OneRequest(reqs: seq<Request>, n: nat, window: nat, limit: nat)
    requires n < |reqs|
    ensures Script(After(reqs[..n], window, limit), reqs[n], window, limit) ==
            (After(reqs[..n + 1], window, limit), Verdicts(reqs, window, limit)[n])
  {
    assert reqs[..n + 1][..n] == reqs[..n];
    if n < |reqs| - 1 {
      OneRequest(reqs[..|reqs| - 1], n, window, limit);
      assert reqs[..|reqs| - 1][..n] == reqs[..n] && reqs[..|reqs| - 1][..n + 1] == reqs[..n + 1];
    } else {
      assert reqs[..n + 1] == reqs;
    }
  }

  /** A clock that does not run backwards, and members that never repeat: each carries a fresh
      UUID, which its number in the run stands for. */
  ghost predicate Orderly(reqs: seq<Request>) {
    && (forall i :: 0 <= i < |reqs| ==> reqs[i].now >= 0.0 && reqs[i].member == i)
    && (forall i, j :: 0 <= i < j < |reqs| ==> reqs[i].now <= reqs[j].now)
  }

  /** The admissions among the first `n` requests that are less than a window old at `now`. */
  ghost function Live(reqs: seq<Request>, v: seq<Verdict>, n: nat, now: real, window: nat): set<nat>
    requires n <= |reqs| == |v|
  {
    set i: nat | i < n && v[i].allowed && reqs[i].now > now - window as real
  }

  // ---- What the set holds -------------------------------------------------------------

  /** `z` holds exactly the admissions in `live`, each with its time. */
  ghost predicate Holds(reqs: seq<Request>, z: Zset, live: set<nat>)
    requires forall i :: i in live ==> i < |reqs|
  {
    z.Keys == live && forall i :: i in live ==> z[i] == reqs[i].now
  }

  /** The admissions the set holds after `n` requests: those young enough for the latest of
      them, and the latest itself. */
  ghost function Kept(reqs: seq<Request>, v: seq<Verdict>, n: nat, window: nat): set<nat>
    requires n <= |reqs| == |v|
  {
    if n == 0 then {}
    else Live(reqs, v, n - 1, reqs[n - 1].now, window) + (if v[n - 1].allowed then {n - 1} else {})
  }

  /** Of what the set holds, trimming leaves what is less than a window old. */
  lemma TrimKeeps(reqs: seq<Request>, z: Zset, held: set<nat>, now: real, window: nat)
    requires Orderly(reqs) && (forall i :: i in held ==> i < |reqs|) && Holds(reqs, z, held)
    ensures Holds(reqs, Trim(z, now, window), set i | i in held && reqs[i].now > now - window as real)
  {}

  lemma LiveAmongKept(reqs: seq<Request>, v: seq<Verdict>, n: nat, window: nat)
    requires Orderly(reqs) && n < |reqs| == |v|
    ensures Live(reqs, v, n, reqs[n].now, window) ==
            set i | i in Kept(reqs, v, n, window) && reqs[i].now > reqs[n].now - window as real
  {
    if n > 0 {
      assert reqs[n - 1].now <= reqs[n].now;
    }
  }

  lemma ScriptHolds(reqs: seq<Request>, v: seq<Verdict>, n: nat, z: Zset, window: nat, limit: nat)
    requires Orderly(reqs) && n < |reqs| == |v| && v[n] == Script(z, reqs[n], window, limit).1
    requires Holds(reqs, Trim(z, reqs[n].now, window), Live(reqs, v, n, reqs[n].now, window))
    ensures Holds(reqs, Script(z, reqs[n], window, limit).0, Kept(reqs, v, n + 1, window))
  {
    var kept, live := Trim(z, reqs[n].now, window), Live(reqs, v, n, reqs[n].now, window);
    ScriptCases(z, reqs[n], window, limit);
    if v[n].allowed {
      AddHolds(reqs, kept, live, n);
    }
  }

  lemma AddHolds(reqs: seq<Request>, z: Zset, live: set<nat>, n: nat)
    requires (forall i :: i in live ==> i < |reqs|) && n < |reqs| && Holds(reqs, z, live)
    ensures Holds(reqs, z[n := reqs[n].now], live + {n})
  {}

  /** The two ways the script ends. */
  lemma ScriptCases(z: Zset, req: Request, window: nat, limit: nat)
    ensures var (z', v) := Script(z, req, window, limit);
            var kept := Trim(z, req.now, window);
            && (v.allowed <==> |kept| < limit)
            && z' == (if v.allowed then kept[req.member := req.now] else kept)
            && v.used == |kept| + (if v.allowed then 1 else 0)
            && (!v.allowed && limit > 0 ==>
                  kept != map[] && v.reset == Ceiling(Oldest(kept) + window as real - req.now))
  {}

  /** What request `n` finds once the script has trimmed the set: exactly the admissions that
      are less than a window old. */
  lemma {:induction false} TrimHolds(reqs: seq<Request>, n: nat, window: nat, limit: nat)
    requires Orderly(reqs) && n < |reqs|
    ensures var v := Verdicts(reqs, window, limit);
            Holds(reqs, Trim(After(reqs[..n], window, limit), reqs[n].now, window), Live(reqs, v, n, reqs[n].now, window))
    decreases n
  {
    var v := Verdicts(reqs, window, limit);
    if n > 0 {
      TrimHolds(reqs, n - 1, window, limit);
      OneRequest(reqs, n - 1, window, limit);
      ScriptHolds(reqs, v, n - 1, After(reqs[..n - 1], window, limit), window, limit);
    }
    TrimKeeps(reqs, After(reqs[..n], window, limit), Kept(reqs, v, n, window), reqs[n].now, window);
    LiveAmongKept(reqs, v, n, window);
  }

  // ---- What the limiter guarantees ----------------------------------------------------

  /** A request is admitted exactly when fewer than `limit` admissions are less than a window
      old, and what it is told it has used is their number. */
  lemma DecisionIsTheCount(reqs: seq<Request>, n: nat, window: nat, limit: nat)
    requires Orderly(reqs) && n < |reqs|
    ensures var v := Verdicts(reqs, window, limit);
            var live := Live(reqs, v, n, reqs[n].now, window);
            && (v[n].allowed <==> |live| < limit)
            && v[n].used == |live| + if v[n].allowed then 1 else 0
  {
    var v := Verdicts(reqs, window, limit);
    TrimHolds(reqs, n, window, limit);
    OneRequest(reqs, n, window, limit);
  }

  lemma {:induction false} Latest(s: set<nat>)
    requires s != {}
    ensures exists m :: m in s && forall i :: i in s ==> i <= m
  {
    var m :| m in s;
    var rest := s - {m};
    if rest == {} {
      assert s == {m};
    } else {
      Latest(rest);
      var m' :| m' in rest && forall i :: i in rest ==> i <= m';
      var high := if m' > m then m' else m;
      assert forall i :: i in s ==> i in rest || i == m;
      assert high in s && forall i :: i in s ==> i <= high;
    }
  }

  lemma SubsetSize<T>(a: set<T>, b: set<T>)
    requires a <= b
    ensures |a| <= |b|
  {
    assert b == a + (b - a);
  }

  lemma OneLess(a: set<nat>, b: set<nat>, i: nat)
    requires a <= b && i in b && i !in a
    ensures |a| < |b|
  {
    SubsetSize(a, b - {i});
  }

  /** Admissions that lie less than a window apart are at most `limit`: whichever way a window
      is laid over the run, closed on the left or on the right, it holds no more. */
  lemma AtMostLimitPerWindow(reqs: seq<Request>, s: set<nat>, window: nat, limit: nat)
    requires Orderly(reqs)
    requires forall i :: i in s ==> i < |reqs| && Verdicts(reqs, window, limit)[i].allowed
    requires forall i, j :: i in s && j in s ==> reqs[j].now - reqs[i].now < window as real
    ensures |s| <= limit
  {
    if s != {} {
      Latest(s);
      var m :| m in s && forall i :: i in s ==> i <= m;
      var v := Verdicts(reqs, window, limit);
      DecisionIsTheCount(reqs, m, window, limit);
      SpreadIsLive(reqs, v, s, m, window);
      SubsetSize(s - {m}, Live(reqs, v, m, reqs[m].now, window));
    }
  }

  lemma SpreadIsLive(reqs: seq<Request>, v: seq<Verdict>, s: set<nat>, m: nat, window: nat)
    requires |v| == |reqs| && m in s && forall i :: i in s ==> i <= m < |reqs| && v[i].allowed
    requires forall i, j :: i in s && j in s ==> reqs[j].now - reqs[i].now < window as real
    ensures s - {m} <= Live(reqs, v, m, reqs[m].now, window)
  {
    forall i | i in s - {m}
      ensures i in Live(reqs, v, m, reqs[m].now, window)
    {
      assert reqs[m].now - reqs[i].now < window as real;
    }
  }

  lemma LiveIsBounded(reqs: seq<Request>, n: nat, window: nat, limit: nat)
    requires Orderly(reqs) && n < |reqs|
    ensures |Live(reqs, Verdicts(reqs, window, limit), n, reqs[n].now, window)| <= limit
  {
    var s := Live(reqs, Verdicts(reqs, window, limit), n, reqs[n].now, window);
    forall i, j | i in s && j in s
      ensures reqs[j].now - reqs[i].now < window as real
    {
      assert reqs[j].now <= reqs[n].now;
    }
    AtMostLimitPerWindow(reqs, s, window, limit);
  }

  /** A refused caller that comes back after the delay it was told, with nobody admitted in
      between, is admitted; only a limit of zero keeps it out. */
  lemma ResetIsHonest(reqs: seq<Request>, n: nat, m: nat, window: nat, limit: nat)
    requires Orderly(reqs) && n < m < |reqs|
    requires var v := Verdicts(reqs, window, limit);
             && (forall i :: n <= i < m ==> !v[i].allowed)
             && reqs[m].now >= reqs[n].now + v[n].reset as real
    ensures Verdicts(reqs, window, limit)[m].allowed <==> limit > 0
  {
    DecisionIsTheCount(reqs, n, window, limit);
    DecisionIsTheCount(reqs, m, window, limit);
    if limit > 0 {
      var v := Verdicts(reqs, window, limit);
      LiveIsBounded(reqs, n, window, limit);
      var i := OneIsOut(reqs, n, reqs[m].now, window, limit);
      NothingNew(reqs, v, n, m, window);
      OneLess(Live(reqs, v, m, reqs[m].now, window), Live(reqs, v, n, reqs[n].now, window), i);
    }
  }

  /** Before the oldest entry is out of the window, nobody is admitted. */
  lemma NotYet(reqs: seq<Request>, n: nat, m: nat, window: nat, limit: nat)
    requires Orderly(reqs) && n < m < |reqs| && limit > 0 && !Verdicts(reqs, window, limit)[n].allowed
    requires reqs[m].now <= reqs[n].now + (Verdicts(reqs, window, limit)[n].reset - 1) as real
    ensures !Verdicts(reqs, window, limit)[m].allowed
  {
    var v := Verdicts(reqs, window, limit);
    var z := Refused(reqs, n, window, limit);
    DecisionIsTheCount(reqs, n, window, limit);
    DecisionIsTheCount(reqs, m, window, limit);
    var earlier, later := Live(reqs, v, n, reqs[n].now, window), Live(reqs, v, m, reqs[m].now, window);
    forall i | i in earlier
      ensures i in later
    {
      assert i in z && Oldest(z) <= z[i] == reqs[i].now;
    }
    SubsetSize(earlier, later);
  }

  /** For a caller that comes back, nobody admitted in between, after a whole number of seconds: it
      is admitted exactly when that is no less than the delay it was told. */
  lemma ResetIsLeast(reqs: seq<Request>, n: nat, m: nat, seconds: int, window: nat, limit: nat)
    requires Orderly(reqs) && n < m < |reqs| && limit > 0
    requires (forall i :: n <= i < m ==> !Verdicts(reqs, window, limit)[i].allowed)
    requires reqs[m].now == reqs[n].now + seconds as real
    ensures Verdicts(reqs, window, limit)[m].allowed <==> seconds >= Verdicts(reqs, window, limit)[n].reset
  {
    if seconds >= Verdicts(reqs, window, limit)[n].reset {
      ResetIsHonest(reqs, n, m, window, limit);
    } else {
      NotYet(reqs, n, m, window, limit);
    }
  }

  /** With a limit of zero the delay is the window. */
  lemma ResetOfNone(reqs: seq<Request>, n: nat, window: nat)
    requires Orderly(reqs) && n < |reqs|
    ensures Verdicts(reqs, window, 0)[n] == Verdict(false, 0, window)
  {
    DecisionIsTheCount(reqs, n, window, 0);
    OneRequest(reqs, n, window, 0);
    LiveIsBounded(reqs, n, window, 0);
    TrimHolds(reqs, n, window, 0);
    assert Trim(After(reqs[..n], window, 0), reqs[n].now, window).Keys == {};
  }

  /** What the set looks like to a request that is refused. */
  lemma Refused(reqs: seq<Request>, n: nat, window: nat, limit: nat) returns (z: Zset)
    requires Orderly(reqs) && n < |reqs| && limit > 0 && !Verdicts(reqs, window, limit)[n].allowed
    ensures Holds(reqs, z, Live(reqs, Verdicts(reqs, window, limit), n, reqs[n].now, window)) && z != map[]
    ensures Verdicts(reqs, window, limit)[n].reset == Ceiling(Oldest(z) + window as real - reqs[n].now)
  {
    z := Trim(After(reqs[..n], window, limit), reqs[n].now, window);
    TrimHolds(reqs, n, window, limit);
    OneRequest(reqs, n, window, limit);
    ScriptCases(After(reqs[..n], window, limit), reqs[n], window, limit);
  }

  lemma OneIsOut(reqs: seq<Request>, n: nat, back: real, window: nat, limit: nat) returns (i: nat)
    requires Orderly(reqs) && n < |reqs| && limit > 0
    requires var v := Verdicts(reqs, window, limit)[n]; !v.allowed && back >= reqs[n].now + v.reset as real
    ensures i in Live(reqs, Verdicts(reqs, window, limit), n, reqs[n].now, window)
    ensures reqs[i].now <= back - window as real
  {
    var z := Refused(reqs, n, window, limit);
    var live := Live(reqs, Verdicts(reqs, window, limit), n, reqs[n].now, window);
    i := OldestLeaves(reqs, z, live, reqs[n].now, back, window);
  }

  lemma NothingNew(reqs: seq<Request>, v: seq<Verdict>, n: nat, m: nat, window: nat)
    requires Orderly(reqs) && n < m < |reqs| == |v| && forall i :: n <= i < m ==> !v[i].allowed
    ensures Live(reqs, v, m, reqs[m].now, window) <= Live(reqs, v, n, reqs[n].now, window)
  {
    assert reqs[n].now <= reqs[m].now;
  }

  /** By then the oldest entry is out of the window. */
  lemma OldestLeaves(reqs: seq<Request>, z: Zset, held: set<nat>, now: real, back: real, window: nat) returns (i: nat)
    requires (forall i :: i in held ==> i < |reqs|) && Holds(reqs, z, held) && z != map[]
    requires back >= now + Ceiling(Oldest(z) + window as real - now) as real
    ensures i in held && reqs[i].now <= back - window as real
  {
    i :| i in z && z[i] == Oldest(z);
  }

  // ---- The expiry ---------------------------------------------------------------------

  ghost function StoredAfter(reqs: seq<Request>, window: nat, limit: nat): Stored {
    if reqs == [] then Stored(map[], None)
    else ScriptWithExpiry(StoredAfter(reqs[..|reqs| - 1], window, limit), reqs[|reqs| - 1], window, limit).0
  }

  /** Nothing in the set outlives the key. */
  ghost predicate OutlivesItsEntries(s: Stored, window: nat) {
    forall m :: m in s.z ==> s.expiresAt.Some? && s.z[m] >= 0.0 && s.z[m] + window as real <= s.expiresAt.value
  }

  lemma ExpiryStep(s: Stored, z: Zset, req: Request, window: nat, limit: nat)
    requires s.z == z && OutlivesItsEntries(s, window) && req.now >= 0.0
    requires s.expiresAt.Some? ==> s.expiresAt.value <= req.now + window as real
    ensures var (s', v) := ScriptWithExpiry(s, req, window, limit);
            && (s'.z, v) == Script(z, req, window, limit)
            && OutlivesItsEntries(s', window)
            && (s'.expiresAt.Some? ==> s'.expiresAt.value <= req.now + window as real)
  {
    assert Trim(Present(s, req.now), req.now, window) == Trim(z, req.now, window);
  }

  lemma {:induction false} ExpiryKeepsTheSet(reqs: seq<Request>, n: nat, window: nat, limit: nat)
    requires Orderly(reqs) && n <= |reqs|
    ensures var s := StoredAfter(reqs[..n], window, limit);
            && s.z == After(reqs[..n], window, limit) && OutlivesItsEntries(s, window)
            && (s.expiresAt.Some? ==> n > 0 && s.expiresAt.value <= reqs[n - 1].now + window as real)
  {
    if n > 0 {
      ExpiryKeepsTheSet(reqs, n - 1, window, limit);
      assert reqs[..n][..n - 1] == reqs[..n - 1];
      ExpiryStep(StoredAfter(reqs[..n - 1], window, limit), After(reqs[..n - 1], window, limit), reqs[n - 1], window, limit);
    }
  }

  /** Dropping the key when it expires changes no verdict. */
  lemma ExpiryChangesNothing(reqs: seq<Request>, n: nat, window: nat, limit: nat)
    requires Orderly(reqs) && n < |reqs|
    ensures ScriptWithExpiry(StoredAfter(reqs[..n], window, limit), reqs[n], window, limit).1 ==
            Verdicts(reqs, window, limit)[n]
  {
    OneRequest(reqs, n, window, limit);
    ExpiryKeepsTheSet(reqs, n, window, limit);
    ExpiryStep(StoredAfter(reqs[..n], window, limit), After(reqs[..n], window, limit), reqs[n], window, limit);
  }
}

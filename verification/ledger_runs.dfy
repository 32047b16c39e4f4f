/** The ledger under concurrent requests (core/billing.py). A request looks its key up, then posts
    under the lock on the organisation; reconciling sums the entries up before it takes the lock. */
module LedgerRuns {
  import opened Common
  import opened Billing

  /** `total` is the sum read when the ledger had `seen` entries. */
  datatype Client =
    | Looking(request: Request)
    | Posting(request: Request)
    | Done(request: Request, answer: Option<Entry>)
    | Summed(org: string, total: int, seen: nat)

  datatype System = System(books: Books, clients: map<nat, Client>)

  datatype Event =
    | NewOrg(org: string)
    | Arrive(client: nat, request: Request)
    | Look(client: nat)
    | Insert(client: nat)
    | SumUp(client: nat, org: string)
    | WriteBack(client: nat)

  predicate Enabled(s: System, e: Event) {
    match e
    case NewOrg(org) => org !in s.books.credits
    case Arrive(p, _) => p !in s.clients
    case Look(p) => p in s.clients && s.clients[p].Looking?
    case Insert(p) => p in s.clients && s.clients[p].Posting?
    case SumUp(p, _) => p !in s.clients
    case WriteBack(p) => p in s.clients && s.clients[p].Summed?
  }

  /** An insert that meets the entry of a faster twin breaks the unique constraint: the request
      rolls back and starts over. */
  function Inserted(b: Books, r: Request): (Books, Client) {
    if r.org !in b.credits then (b, Done(r, None))
    else if Find(b.entries, r.org, r.key).Some? then (b, Looking(r))
    else (Added(b, r), Done(r, Some(Added(b, r).entries[|b.entries|])))
  }

  function WrittenBack(b: Books, org: string, total: int): Books {
    if org in b.credits then b.(credits := b.credits[org := total]) else b
  }

  /** An event that is not possible changes nothing. */
  function Next(s: System, e: Event): System {
    if !Enabled(s, e) then s else
    match e
    case NewOrg(org) => s.(books := s.books.(credits := s.books.credits[org := 0]))
    case Arrive(p, r) => s.(clients := s.clients[p := Looking(r)])
    case Look(p) =>
      var r := s.clients[p].request;
      var found := Find(s.books.entries, r.org, r.key);
      s.(clients := s.clients[p := if found.Some? then Done(r, found) else Posting(r)])
    case Insert(p) =>
      var (books, client) := Inserted(s.books, s.clients[p].request);
      System(books, s.clients[p := client])
    case SumUp(p, org) =>
      s.(clients := s.clients[p := Summed(org, Balance(s.books.entries, org), |s.books.entries|)])
    case WriteBack(p) =>
      var c := s.clients[p];
      System(WrittenBack(s.books, c.org, c.total), s.clients - {p})
  }

  const EMPTY := System(Books(map[], []), map[])

  function After(events: seq<Event>): System {
    if events == [] then EMPTY else Next(After(events[..|events| - 1]), events[|events| - 1])
  }

  // ---- What every run keeps -----------------------------------------------------------

  /** What a client knows of the ledger is so. */
  ghost predicate Informed(entries: seq<Entry>, c: Client) {
    match c
    case Looking(_) => true
    case Posting(_) => true
    case Done(r, answer) => answer.Some? ==> Find(entries, r.org, r.key) == answer
    case Summed(org, total, seen) => seen <= |entries| && total == Balance(entries[..seen], org)
  }

  /** Whatever happens: keys are unique, organisations exist, answers are the ledger's. */
  ghost predicate Safe(s: System) {
    && Unique(s.books.entries)
    && (forall i :: 0 <= i < |s.books.entries| ==> s.books.entries[i].org in s.books.credits)
    && forall p :: p in s.clients ==> Informed(s.books.entries, s.clients[p])
  }

  /** Nothing that was posted since a sum was read changes it. */
  predicate Current(entries: seq<Entry>, c: Client)
    requires c.Summed? && c.seen <= |entries|
  {
    Balance(entries[c.seen..], c.org) == 0
  }

  ghost predicate Exact(s: System) {
    Chained(s.books.entries) && Cached(s.books)
  }

  lemma AppendedKeepsInformed(entries: seq<Entry>, e: Entry, c: Client)
    requires Informed(entries, c) && Find(entries, e.org, e.key).None?
    ensures Informed(entries + [e], c)
  {
    assert (entries + [e])[..|entries|] == entries;
    if c.Summed? {
      assert (entries + [e])[..c.seen] == entries[..c.seen];
    }
  }

  lemma {:induction false} NoEntriesNoBalance(entries: seq<Entry>, org: string)
    requires forall i :: 0 <= i < |entries| ==> entries[i].org != org
    ensures Balance(entries, org) == 0
  {
    if entries != [] {
      NoEntriesNoBalance(entries[..|entries| - 1], org);
    }
  }

  lemma InsertIsSafe(s: System, p: nat)
    requires Safe(s) && Enabled(s, Insert(p))
    ensures var after := Next(s, Insert(p)); Safe(after) && (Exact(s) ==> Exact(after))
  {
    var b, r := s.books, s.clients[p].request;
    if r.org in b.credits && Find(b.entries, r.org, r.key).None? {
      AddedKeepsKeys(b, r);
      var e := Added(b, r).entries[|b.entries|];
      assert Added(b, r).entries == b.entries + [e];
      AllStayInformed(s, e);
      if Exact(s) {
        AddedKeepsBalances(b, r);
      }
    }
  }

  lemma AllStayInformed(s: System, e: Entry)
    requires Safe(s) && Find(s.books.entries, e.org, e.key).None?
    ensures forall q :: q in s.clients ==> Informed(s.books.entries + [e], s.clients[q])
  {
    forall q | q in s.clients
      ensures Informed(s.books.entries + [e], s.clients[q])
    {
      AppendedKeepsInformed(s.books.entries, e, s.clients[q]);
    }
  }

  /** Writing the sum back leaves the right balance exactly when what was posted for the
      organisation in between adds up to nothing. */
  lemma WriteBackIsRightIffCurrent(s: System, p: nat)
    requires Safe(s) && Exact(s) && Enabled(s, WriteBack(p)) && s.clients[p].org in s.books.credits
    ensures Exact(Next(s, WriteBack(p))) <==> Current(s.books.entries, s.clients[p])
  {
    var c, entries := s.clients[p], s.books.entries;
    assert Informed(entries, c);
    BalanceAppend(entries[..c.seen], entries[c.seen..], c.org);
    assert entries[..c.seen] + entries[c.seen..] == entries;
    assert Next(s, WriteBack(p)).books.credits[c.org] == c.total;
  }

  lemma StepIsSafe(s: System, e: Event)
    requires Safe(s)
    ensures Safe(Next(s, e))
  {
    if Enabled(s, e) {
      match e
      case Insert(p) => InsertIsSafe(s, p);
      case SumUp(p, org) => assert s.books.entries[..|s.books.entries|] == s.books.entries;
      case _ =>
    }
  }

  /** Every run: no organisation and key twice, and every request is answered with the one entry
      that carries its key, however often and by whomever it was sent. */
  lemma {:induction false} EveryRunIsSafe(events: seq<Event>)
    ensures Safe(After(events))
  {
    if events != [] {
      EveryRunIsSafe(events[..|events| - 1]);
      StepIsSafe(After(events[..|events| - 1]), events[|events| - 1]);
    }
  }

  /** No reconciliation wrote a stale sum back. */
  ghost predicate Undisturbed(events: seq<Event>) {
    if events == [] then true
    else
      var before, last := events[..|events| - 1], events[|events| - 1];
      Undisturbed(before) && (last.WriteBack? ==> MayWriteBack(After(before), last.client))
  }

  ghost predicate MayWriteBack(s: System, p: nat) {
    p in s.clients && s.clients[p].Summed? && s.clients[p].seen <= |s.books.entries| ==> Current(s.books.entries, s.clients[p])
  }

  lemma StepIsExact(s: System, e: Event)
    requires Safe(s) && Exact(s) && (e.WriteBack? ==> MayWriteBack(s, e.client))
    ensures Exact(Next(s, e))
  {
    if Enabled(s, e) {
      match e
      case NewOrg(org) => NoEntriesNoBalance(s.books.entries, org);
      case Insert(p) => InsertIsSafe(s, p);
      case WriteBack(p) =>
        assert Informed(s.books.entries, s.clients[p]);
        if s.clients[p].org in s.books.credits {
          WriteBackIsRightIffCurrent(s, p);
        }
      case _ =>
    }
  }

  /** In every such run the cached balance is the sum of the entries and every entry notes the
      balance at its place. */
  lemma {:induction false} UndisturbedRunsAreSound(events: seq<Event>)
    requires Undisturbed(events)
    ensures Sound(After(events).books)
  {
    EveryRunIsSafe(events);
    if events != [] {
      var before := events[..|events| - 1];
      UndisturbedRunsAreSound(before);
      EveryRunIsSafe(before);
      StepIsExact(After(before), events[|events| - 1]);
    }
  }

  lemma {:induction false} PrefixIsUndisturbed(events: seq<Event>, k: nat)
    requires Undisturbed(events) && k <= |events|
    ensures Undisturbed(events[..k])
  {
    if k < |events| {
      PrefixIsUndisturbed(events[..|events| - 1], k);
      assert events[..|events| - 1][..k] == events[..k];
    } else {
      assert events[..k] == events;
    }
  }

  /** Only a current sum keeps the ledger exact. */
  lemma StepWasCurrent(s: System, e: Event)
    requires Safe(s) && Exact(s) && Exact(Next(s, e)) && e.WriteBack?
    ensures MayWriteBack(s, e.client)
  {
    if Enabled(s, e) {
      var c, entries := s.clients[e.client], s.books.entries;
      assert Informed(entries, c);
      if c.org in s.books.credits {
        WriteBackIsRightIffCurrent(s, e.client);
      } else {
        NoEntriesNoBalance(entries[c.seen..], c.org);
      }
    }
  }

  lemma {:induction false} ExactRunsAreUndisturbed(events: seq<Event>)
    requires forall k :: 0 <= k <= |events| ==> Exact(After(events[..k]))
    ensures Undisturbed(events)
  {
    if events != [] {
      var before, last := events[..|events| - 1], events[|events| - 1];
      assert forall k :: 0 <= k <= |before| ==> before[..k] == events[..k];
      ExactRunsAreUndisturbed(before);
      EveryRunIsSafe(before);
      if last.WriteBack? {
        assert events[..|events|] == events && Exact(After(before));
        StepWasCurrent(After(before), last);
      }
    }
  }

  /** The cache and the entries agree all through a run exactly when no reconciliation in it wrote
      back a sum that what was posted in between had changed. */
  lemma ExactIffUndisturbed(events: seq<Event>)
    ensures Undisturbed(events) <==> forall k :: 0 <= k <= |events| ==> Exact(After(events[..k]))
  {
    if Undisturbed(events) {
      forall k | 0 <= k <= |events|
        ensures Exact(After(events[..k]))
      {
        PrefixIsUndisturbed(events, k);
        UndisturbedRunsAreSound(events[..k]);
      }
    } else if forall k :: 0 <= k <= |events| ==> Exact(After(events[..k])) {
      ExactRunsAreUndisturbed(events);
    }
  }

  /** Two requests with one key get one answer. */
  lemma TwinsAgree(events: seq<Event>, p: nat, q: nat)
    requires var m := After(events).clients;
             && p in m && q in m && m[p].Done? && m[q].Done? && m[p].answer.Some? && m[q].answer.Some?
             && m[p].request.org == m[q].request.org && m[p].request.key == m[q].request.key
    ensures After(events).clients[p].answer == After(events).clients[q].answer
    ensures var r := After(events).clients[p].request;
            Charged(After(events).books.entries, r.org, r.key) == After(events).clients[p].answer.value.amount
  {
    EveryRunIsSafe(events);
    var s := After(events);
    assert Informed(s.books.entries, s.clients[p]) && Informed(s.books.entries, s.clients[q]);
    ChargedOnce(s.books.entries, s.clients[p].request.org, s.clients[p].request.key);
  }

  /** The request was sent. */
  ghost predicate Sent(events: seq<Event>, r: Request) {
    exists k :: 0 <= k < |events| && events[k].Arrive? && events[k].request == r
  }

  ghost predicate SaysWhatWasSent(events: seq<Event>, e: Entry) {
    exists r :: Sent(events, r) && Says(e, r, e.balanceAfter)
  }

  /** A client works on a request that was sent. */
  ghost predicate Asked(events: seq<Event>, c: Client) {
    c.Looking? || c.Posting? || c.Done? ==> Sent(events, c.request)
  }

  lemma SentStays(events: seq<Event>, e: Event, r: Request)
    ensures Sent(events, r) ==> Sent(events + [e], r)
    ensures e.Arrive? && e.request == r ==> Sent(events + [e], r)
  {
    if Sent(events, r) {
      var k :| 0 <= k < |events| && events[k].Arrive? && events[k].request == r;
      assert (events + [e])[k] == events[k];
    }
    assert (events + [e])[|events|] == e;
  }

  /** Nothing is in the ledger but what somebody asked for: every entry says what a request said
      that was sent, amount and all. */
  lemma {:induction false} EntriesWereSent(events: seq<Event>)
    ensures forall i :: 0 <= i < |After(events).books.entries| ==> SaysWhatWasSent(events, After(events).books.entries[i])
    ensures forall p :: p in After(events).clients ==> Asked(events, After(events).clients[p])
  {
    if events != [] {
      var before, last := events[..|events| - 1], events[|events| - 1];
      EntriesWereSent(before);
      assert events == before + [last];
      var s, s' := After(before), After(events);
      forall p | p in s'.clients
        ensures Asked(events, s'.clients[p])
      {
        if p in s.clients && !s.clients[p].Summed? {
          SentStays(before, last, s.clients[p].request);
        }
        if last.Arrive? {
          SentStays(before, last, last.request);
        }
      }
      forall i | 0 <= i < |s'.books.entries|
        ensures SaysWhatWasSent(events, s'.books.entries[i])
      {
        EntryWasSent(before, last, i);
      }
    }
  }

  lemma EntryWasSent(before: seq<Event>, last: Event, i: nat)
    requires forall i :: 0 <= i < |After(before).books.entries| ==> SaysWhatWasSent(before, After(before).books.entries[i])
    requires forall p :: p in After(before).clients ==> Asked(before, After(before).clients[p])
    requires i < |Next(After(before), last).books.entries|
    ensures SaysWhatWasSent(before + [last], Next(After(before), last).books.entries[i])
  {
    var s, s' := After(before), Next(After(before), last);
    StepAppends(s, last);
    if i < |s.books.entries| {
      assert s'.books.entries[i] == s.books.entries[i];
      var r :| Sent(before, r) && Says(s.books.entries[i], r, s.books.entries[i].balanceAfter);
      SentStays(before, last, r);
    } else {
      var r := s.clients[last.client].request;
      assert Asked(before, s.clients[last.client]);
      SentStays(before, last, r);
      PostDoes(s.books, r);
      assert Says(s'.books.entries[i], r, s'.books.entries[i].balanceAfter);
    }
  }

  /** The ledger is append-only. */
  lemma {:induction false} EntriesStay(events: seq<Event>, k: nat)
    requires k <= |events|
    ensures var earlier, later := After(events[..k]).books.entries, After(events).books.entries;
            |earlier| <= |later| && later[..|earlier|] == earlier
  {
    if k < |events| {
      var before := events[..|events| - 1];
      EntriesStay(before, k);
      assert before[..k] == events[..k];
      StepAppends(After(before), events[|events| - 1]);
    } else {
      assert events[..k] == events;
    }
  }

  lemma StepAppends(s: System, e: Event)
    ensures var earlier, later := s.books.entries, Next(s, e).books.entries;
            later == earlier || (|later| == |earlier| + 1 && later[..|earlier|] == earlier)
  {}

  lemma RunStep(events: seq<Event>, e: Event)
    ensures After(events + [e]) == Next(After(events), e)
  {
    assert (events + [e])[..|events|] == events;
  }

  /** A request that lost the race ends after one more look. */
  lemma LosersEnd(events: seq<Event>, p: nat)
    requires Enabled(After(events), Insert(p)) && Next(After(events), Insert(p)).clients[p].Looking?
    ensures var s := After(events + [Insert(p)] + [Look(p)]); p in s.clients && s.clients[p].Done?
    ensures After(events + [Insert(p)] + [Look(p)]).books == After(events).books
  {
    RunStep(events, Insert(p));
    RunStep(events + [Insert(p)], Look(p));
  }

  /** Any sound ledger, any organisation in it and any new post that moves its balance: with a
      reconciliation around it the cache ends up wrong. */
  lemma StaleSumDrifts(events: seq<Event>, p: nat, q: nat, r: Request) returns (more: seq<Event>)
    requires Undisturbed(events)
    requires p != q && p !in After(events).clients && q !in After(events).clients
    requires var b := After(events).books;
             r.org in b.credits && Find(b.entries, r.org, r.key).None? && r.amount != 0
    ensures !Cached(After(more).books)
  {
    UndisturbedRunsAreSound(events);
    more := RunFive(events, SumUp(p, r.org), Arrive(q, r), Look(q), Insert(q), WriteBack(p));
    PostInside(After(events), p, q, r);
  }

  lemma RunFive(events: seq<Event>, a: Event, b: Event, c: Event, d: Event, e: Event) returns (more: seq<Event>)
    ensures After(more) == Next(Next(Next(Next(Next(After(events), a), b), c), d), e)
  {
    RunStep(events, a);
    RunStep(events + [a], b);
    RunStep(events + [a] + [b], c);
    RunStep(events + [a] + [b] + [c], d);
    RunStep(events + [a] + [b] + [c] + [d], e);
    more := events + [a] + [b] + [c] + [d] + [e];
  }

  /** A post between the sum and the write-back. */
  lemma PostInside(s: System, p: nat, q: nat, r: Request)
    requires Exact(s) && p != q && p !in s.clients && q !in s.clients
    requires r.org in s.books.credits && Find(s.books.entries, r.org, r.key).None? && r.amount != 0
    ensures !Cached(Next(Next(Next(Next(Next(s, SumUp(p, r.org)), Arrive(q, r)), Look(q)), Insert(q)), WriteBack(p)).books)
  {
    var summed := Next(s, SumUp(p, r.org));
    var posting := Next(Next(summed, Arrive(q, r)), Look(q));
    assert posting == System(s.books, s.clients[p := summed.clients[p]][q := Posting(r)]);
    var posted := Next(posting, Insert(q));
    assert posted.books == Added(s.books, r) && posted.clients[p] == summed.clients[p];
    AddedKeepsBalances(s.books, r);
    assert Balance(posted.books.entries, r.org) == posted.books.credits[r.org] == s.books.credits[r.org] + r.amount;
    var after := Next(posted, WriteBack(p));
    assert after.books.credits[r.org] == Balance(s.books.entries, r.org) && after.books.entries == posted.books.entries;
  }
}

/** The credit ledger (core/billing.py): an append-only list of entries, unique by organisation and
    idempotency key, beside the cached balance of every organisation. */
module Billing {
  import opened Common
  import opened Pricing

  datatype Entry = Entry(org: string, key: string, kind: string, amount: int, balanceAfter: int, description: string)

  datatype Request = Request(org: string, key: string, kind: string, amount: int, description: string)

  datatype Books = Books(credits: map<string, int>, entries: seq<Entry>)

  datatype LedgerError = NoSuchOrg | GrantNotPositive

  /** The sum of an organisation's entries. */
  function Balance(entries: seq<Entry>, org: string): int {
    if entries == [] then 0
    else
      var last := entries[|entries| - 1];
      Balance(entries[..|entries| - 1], org) + if last.org == org then last.amount else 0
  }

  /** The lookup by organisation and key. */
  function Find(entries: seq<Entry>, org: string, key: string): Option<Entry> {
    if entries == [] then None
    else
      var last := entries[|entries| - 1];
      if last.org == org && last.key == key then Some(last) else Find(entries[..|entries| - 1], org, key)
  }

  // ---- What the ledger promises -------------------------------------------------------

  /** No entry repeats the organisation and key of an earlier one. */
  ghost predicate Unique(entries: seq<Entry>) {
    if entries == [] then true
    else
      var before, last := entries[..|entries| - 1], entries[|entries| - 1];
      Unique(before) && Find(before, last.org, last.key).None?
  }

  /** Every entry notes the balance it leaves. */
  ghost predicate Chained(entries: seq<Entry>) {
    if entries == [] then true
    else
      var last := entries[|entries| - 1];
      Chained(entries[..|entries| - 1]) && last.balanceAfter == Balance(entries, last.org)
  }

  /** The cache says what the entries say. */
  ghost predicate Cached(b: Books) {
    forall org :: org in b.credits ==> b.credits[org] == Balance(b.entries, org)
  }

  ghost predicate Sound(b: Books) {
    Unique(b.entries) && Chained(b.entries) && Cached(b)
  }

  lemma {:induction false} FindFinds(entries: seq<Entry>, org: string, key: string, i: nat)
    requires i < |entries| && entries[i].org == org && entries[i].key == key
    ensures Find(entries, org, key).Some?
  {
    if i < |entries| - 1 {
      FindFinds(entries[..|entries| - 1], org, key, i);
    }
  }

  /** Organisation and key identify an entry: a retried post finds the one it made. */
  lemma {:induction false} FoundIsTheOne(entries: seq<Entry>, org: string, key: string, i: nat)
    requires Unique(entries) && i < |entries| && entries[i].org == org && entries[i].key == key
    ensures Find(entries, org, key) == Some(entries[i])
    ensures forall j :: 0 <= j < |entries| && entries[j].org == org && entries[j].key == key ==> j == i
  {
    var n := |entries| - 1;
    var before := entries[..n];
    if i < n {
      FoundIsTheOne(before, org, key, i);
      assert before[i] == entries[i];
      FindFinds(before, org, key, i);
      assert forall j :: 0 <= j < n ==> before[j] == entries[j];
    } else {
      forall j | 0 <= j < n && entries[j].org == org && entries[j].key == key
        ensures false
      {
        FindFinds(before, org, key, j);
      }
    }
  }

  /** `balance_after` is the sum of the organisation's entries up to and with this one. */
  lemma {:induction false} BalanceAfterIsThePrefixSum(entries: seq<Entry>, i: nat)
    requires Chained(entries) && i < |entries|
    ensures entries[i].balanceAfter == Balance(entries[..i + 1], entries[i].org)
  {
    var n := |entries| - 1;
    if i < n {
      BalanceAfterIsThePrefixSum(entries[..n], i);
      assert entries[..n][..i + 1] == entries[..i + 1];
    } else {
      assert entries[..i + 1] == entries;
    }
  }

  lemma {:induction false} BalanceAppend(a: seq<Entry>, b: seq<Entry>, org: string)
    ensures Balance(a + b, org) == Balance(a, org) + Balance(b, org)
  {
    if b == [] {
      assert a + b == a;
    } else {
      BalanceAppend(a, b[..|b| - 1], org);
      assert (a + b)[..|a + b| - 1] == a + b[..|b| - 1];
    }
  }

  /** Everything posted under one organisation and key. */
  function Charged(entries: seq<Entry>, org: string, key: string): int {
    if entries == [] then 0
    else
      var last := entries[|entries| - 1];
      Charged(entries[..|entries| - 1], org, key) + if last.org == org && last.key == key then last.amount else 0
  }

  /** A run is debited at most once: all that was ever posted under its key is one entry. */
  lemma {:induction false} ChargedOnce(entries: seq<Entry>, org: string, key: string)
    requires Unique(entries)
    ensures var found := Find(entries, org, key);
            Charged(entries, org, key) == if found.Some? then found.value.amount else 0
  {
    if entries != [] {
      ChargedOnce(entries[..|entries| - 1], org, key);
    }
  }

  // ---- The operations -----------------------------------------------------------------

  function Shortened(description: string): string {
    if |description| > 400 then description[..400] else description
  }

  /** Balance and entry written together, under the lock on the organisation. */
  function Added(b: Books, r: Request): Books
    requires r.org in b.credits
  {
    var balance := b.credits[r.org] + r.amount;
    Books(b.credits[r.org := balance],
          b.entries + [Entry(r.org, r.key, r.kind, r.amount, balance, Shortened(r.description))])
  }

  function Post(b: Books, r: Request): (Books, Result<Entry, LedgerError>) {
    var existing := Find(b.entries, r.org, r.key);
    if existing.Some? then (b, Ok(existing.value))
    else if r.org !in b.credits then (b, Err(NoSuchOrg))
    else
      var after := Added(b, r);
      (after, Ok(after.entries[|b.entries|]))
  }

  function RunKey(run: string): string {
    "run:" + run
  }

  function Debit(org: string, run: string, billable: int): Request {
    Request(org, RunKey(run), "debit", -(MicrocentsToCents(billable) as int), "run " + run)
  }

  /** `reconcile` when nothing is posted while it works. */
  function Reconciled(b: Books, org: string): Books {
    if org in b.credits then b.(credits := b.credits[org := Balance(b.entries, org)]) else b
  }

  // ---- What a post does to the books --------------------------------------------------

  /** An entry under this key is there already. */
  ghost predicate Taken(entries: seq<Entry>, org: string, key: string) {
    exists i :: 0 <= i < |entries| && entries[i].org == org && entries[i].key == key
  }

  /** The entry says what was asked for, and the balance it leaves. */
  ghost predicate Says(e: Entry, r: Request, balance: int) {
    && e.org == r.org && e.key == r.key && e.kind == r.kind && e.amount == r.amount && e.balanceAfter == balance
    && |e.description| <= 400 && e.description <= r.description && (|r.description| <= 400 ==> e.description == r.description)
  }

  /** One more entry, which moves the balance of its organisation by its amount and no other. */
  ghost predicate Posted(before: Books, r: Request, after: Books) {
    && |after.entries| == |before.entries| + 1 && after.entries[..|before.entries|] == before.entries
    && after.credits.Keys == before.credits.Keys && r.org in before.credits
    && Says(after.entries[|before.entries|], r, before.credits[r.org] + r.amount)
    && forall org :: org in before.credits ==>
         after.credits[org] == before.credits[org] + if org == r.org then r.amount else 0
  }

  /** A post under a new key adds the entry it asks for; one under a known key returns that entry;
      for an organisation that does not exist it fails. Only the first changes anything. */
  ghost predicate PostedOnce(before: Books, r: Request, after: Books, entry: Result<Entry, LedgerError>) {
    if Taken(before.entries, r.org, r.key) then
      && after == before && entry.Ok? && entry.value in before.entries && entry.value.org == r.org && entry.value.key == r.key
    else if r.org !in before.credits then after == before && entry == Err(NoSuchOrg)
    else Posted(before, r, after) && entry == Ok(after.entries[|before.entries|])
  }

  lemma {:induction false} FoundIfTaken(entries: seq<Entry>, org: string, key: string)
    ensures Taken(entries, org, key) <==> Find(entries, org, key).Some?
    ensures Find(entries, org, key).Some? ==>
              var e := Find(entries, org, key).value; e in entries && e.org == org && e.key == key
  {
    if entries != [] {
      var n := |entries| - 1;
      FoundIfTaken(entries[..n], org, key);
      if Taken(entries, org, key) && (entries[n].org != org || entries[n].key != key) {
        var i :| 0 <= i < |entries| && entries[i].org == org && entries[i].key == key;
        assert entries[..n][i] == entries[i];
      }
      if Taken(entries[..n], org, key) {
        var i :| 0 <= i < n && entries[..n][i].org == org && entries[..n][i].key == key;
        assert entries[i] == entries[..n][i];
      }
    }
  }

  lemma PostDoes(b: Books, r: Request)
    ensures PostedOnce(b, r, Post(b, r).0, Post(b, r).1)
  {
    FoundIfTaken(b.entries, r.org, r.key);
  }

  /** All that is under a new key after a post is the amount posted. */
  lemma {:induction false} PostedIsCharged(before: Books, r: Request, after: Books)
    requires Posted(before, r, after) && !Taken(before.entries, r.org, r.key)
    ensures Charged(after.entries, r.org, r.key) == r.amount
  {
    var n := |before.entries|;
    assert after.entries[..n] == before.entries;
    NothingCharged(before.entries, r.org, r.key);
  }

  lemma {:induction false} NothingCharged(entries: seq<Entry>, org: string, key: string)
    requires !Taken(entries, org, key)
    ensures Charged(entries, org, key) == 0
  {
    if entries != [] {
      var n := |entries| - 1;
      assert forall i :: 0 <= i < n ==> entries[..n][i] == entries[i];
      NothingCharged(entries[..n], org, key);
    }
  }

  /** Two runs have two keys. */
  lemma RunKeysDiffer(a: string, b: string)
    ensures RunKey(a) == RunKey(b) ==> a == b
  {
    assert RunKey(a)[4..] == a && RunKey(b)[4..] == b;
  }

  class Ledger {
    var credits: map<string, int>
    var entries: seq<Entry>

    function State(): Books
      reads this
    {
      Books(credits, entries)
    }

    constructor ()
      ensures Sound(State()) && credits == map[] && entries == []
    {
      credits, entries := map[], [];
    }

    method PostEntry(r: Request) returns (entry: Result<Entry, LedgerError>)
      modifies this
      ensures (State(), entry) == Post(old(State()), r)
      ensures PostedOnce(old(State()), r, State(), entry)
      ensures old(Sound(State())) ==> Sound(State())
    {
      PostKeepsSound(State(), r);
      PostDoes(State(), r);
      var existing := Find(entries, r.org, r.key);
      if existing.Some? {
        return Ok(existing.value);
      }
      if r.org !in credits {
        return Err(NoSuchOrg);
      }
      credits := credits[r.org := credits[r.org] + r.amount];
      var posted := Entry(r.org, r.key, r.kind, r.amount, credits[r.org], Shortened(r.description));
      entries := entries + [posted];
      return Ok(posted);
    }

    /** Debits the least number of cents that covers the run, once. */
    method ChargeRun(enabled: bool, org: string, run: string, billable: int) returns (r: Result<Option<Entry>, LedgerError>)
      modifies this
      ensures old(Sound(State())) ==> Sound(State())
      ensures !enabled || billable <= 0 ==> State() == old(State()) && r == Ok(None)
      ensures enabled && billable > 0 ==>
                var (after, posted) := Post(old(State()), Debit(org, run, billable));
                State() == after && r == if posted.Ok? then Ok(Some(posted.value)) else Err(posted.error)
      ensures enabled && billable > 0 && org in old(credits) && !Taken(old(entries), org, RunKey(run)) ==>
                && Charged(entries, org, RunKey(run)) == 0 - MicrocentsToCents(billable) < 0
                && org in credits && credits[org] == old(credits)[org] - MicrocentsToCents(billable)
                && forall o :: o in old(credits) && o != org ==> o in credits && credits[o] == old(credits)[o]
      ensures org !in old(credits) || Taken(old(entries), org, RunKey(run)) ==> State() == old(State())
    {
      if !enabled || billable <= 0 {
        return Ok(None);
      }
      var cents := MicrocentsToCents(billable);
      if cents == 0 {
        return Ok(None);
      }
      var posted := PostEntry(Request(org, RunKey(run), "debit", -(cents as int), "run " + run));
      r := if posted.Ok? then Ok(Some(posted.value)) else Err(posted.error);
      if org in old(credits) && !Taken(old(entries), org, RunKey(run)) {
        PostedIsCharged(old(State()), Debit(org, run, billable), State());
      }
    }

    /** `unique` stands for the random part of a key the caller did not give. */
    method Grant(org: string, amount: int, kind: string, description: string, key: Option<string>, unique: string)
      returns (entry: Result<Entry, LedgerError>)
      modifies this
      ensures old(Sound(State())) ==> Sound(State())
      ensures amount <= 0 ==> State() == old(State()) && entry == Err(GrantNotPositive)
      ensures amount > 0 ==>
                var given := if key.Some? && key.value != "" then key.value else kind + ":" + unique;
                (State(), entry) == Post(old(State()), Request(org, given, kind, amount, description))
      ensures amount > 0 && org in old(credits) && !Taken(old(entries), org, GrantKey(kind, key, unique)) ==>
                Posted(old(State()), Request(org, GrantKey(kind, key, unique), kind, amount, description), State())
    {
      if amount <= 0 {
        return Err(GrantNotPositive);
      }
      var given := if key.Some? && key.value != "" then key.value else kind + ":" + unique;
      entry := PostEntry(Request(org, given, kind, amount, description));
    }

    /** The key a grant is posted under: the one given, unless it is empty. */
    function GrantKey(kind: string, key: Option<string>, unique: string): string {
      if key.None? || key.value == "" then kind + ":" + unique else key.value
    }

    /** The transaction is undone. */
    method RollBack(before: Books)
      modifies this
      ensures State() == before
    {
      credits, entries := before.credits, before.entries;
    }

    method Reconcile(org: string) returns (balance: Result<int, LedgerError>)
      modifies this
      ensures State() == Reconciled(old(State()), org)
      ensures balance == if org in credits then Ok(Balance(entries, org)) else Err(NoSuchOrg)
      ensures old(Sound(State())) ==> State() == old(State())
    {
      var total := Balance(entries, org);
      if org !in credits {
        return Err(NoSuchOrg);
      }
      credits := credits[org := total];
      return Ok(total);
    }
  }

  lemma AddedKeepsKeys(b: Books, r: Request)
    requires Unique(b.entries) && r.org in b.credits && Find(b.entries, r.org, r.key).None?
    ensures var after := Added(b, r).entries;
            Unique(after) && after[..|b.entries|] == b.entries && Find(after, r.org, r.key) == Some(after[|b.entries|])
  {
    var after := Added(b, r).entries;
    assert after[..|after| - 1] == b.entries;
  }

  lemma AddedKeepsBalances(b: Books, r: Request)
    requires Chained(b.entries) && Cached(b) && r.org in b.credits
    ensures Chained(Added(b, r).entries) && Cached(Added(b, r))
  {
    var after := Added(b, r).entries;
    assert after[..|after| - 1] == b.entries;
  }

  lemma PostKeepsSound(b: Books, r: Request)
    ensures Sound(b) ==> Sound(Post(b, r).0)
  {
    if Sound(b) && r.org in b.credits && Find(b.entries, r.org, r.key).None? {
      AddedKeepsKeys(b, r);
      AddedKeepsBalances(b, r);
    }
  }

  /** A repeated post, whatever it asks for, returns the original entry and changes nothing. */
  lemma RepeatedPostIsHarmless(b: Books, r: Request, again: Request)
    requires Unique(b.entries) && Post(b, r).1.Ok? && again.org == r.org && again.key == r.key
    ensures Post(Post(b, r).0, again) == (Post(b, r).0, Post(b, r).1)
  {
    if Find(b.entries, r.org, r.key).None? {
      AddedKeepsKeys(b, r);
    }
  }

  /** Several organisations reconciled, one after the other. */
  function ReconciledAll(b: Books, orgs: seq<string>): Books {
    if orgs == [] then b else Reconciled(ReconciledAll(b, orgs[..|orgs| - 1]), orgs[|orgs| - 1])
  }

  /** Reconciling sets exactly the named caches right, however they drifted. */
  lemma {:induction false} ReconcilingRepairs(b: Books, orgs: seq<string>)
    ensures var after := ReconciledAll(b, orgs);
            && after.entries == b.entries && after.credits.Keys == b.credits.Keys
            && forall o :: o in b.credits ==>
                 after.credits[o] == if o in orgs then Balance(b.entries, o) else b.credits[o]
  {
    if orgs != [] {
      var n := |orgs| - 1;
      ReconcilingRepairs(b, orgs[..n]);
      assert forall o :: o in orgs <==> o in orgs[..n] || o == orgs[n];
    }
  }
}

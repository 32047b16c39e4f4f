/** One run from its ceilings to the ledger (core/runner.py). */
module Settlement {
  import opened Common
  import opened Billing
  import opened Engines
  import opened Pricing
  import opened Turns
  import opened Budgets

  /** A workflow may ask for less than the deployment allows, never for more. */
  function Ceiling(asked: Option<int>, allowed: int): (ceiling: int)
    ensures ceiling <= allowed
    ensures asked.Some? ==> ceiling <= asked.value
    ensures ceiling == allowed || asked == Some(ceiling)
  {
    if asked.Some? && asked.value < allowed then asked.value else allowed
  }

  datatype Limits = Limits(maxSteps: int, maxCostCents: int, maxToolIterations: nat, maxToolCallsPerTurn: nat)

  datatype Graph = Graph(maxSteps: Option<int>, maxCostCents: Option<int>)

  function ConfigFor(graph: Graph, limits: Limits): Config {
    Config(limits.maxToolIterations, limits.maxToolCallsPerTurn,
           Ceiling(graph.maxSteps, limits.maxSteps),
           Ceiling(graph.maxCostCents, limits.maxCostCents) * MICROCENTS_PER_CENT)
  }

  datatype Status = Succeeded | Failed | WasCancelled | BudgetExceeded | TimedOut

  /** The run is under the deployment's ceilings, and under the workflow's own where these are lower;
      the cost ceiling is given in cents. */
  lemma CeilingsOfTheRun(graph: Graph, limits: Limits)
    ensures var c := ConfigFor(graph, limits);
            && c.maxSteps <= limits.maxSteps && c.maxCost <= limits.maxCostCents * 1_000_000
            && (graph.maxSteps.Some? ==> c.maxSteps <= graph.maxSteps.value)
            && (graph.maxCostCents.Some? ==> c.maxCost <= graph.maxCostCents.value * 1_000_000)
            && (c.maxSteps == limits.maxSteps || graph.maxSteps == Some(c.maxSteps))
            && (c.maxCost == limits.maxCostCents * 1_000_000 ||
                (graph.maxCostCents.Some? && c.maxCost == graph.maxCostCents.value * 1_000_000))
            && c.maxToolIterations == limits.maxToolIterations && c.maxToolCallsPerTurn == limits.maxToolCallsPerTurn
  {}

  predicate HitCeiling(f: Failure) {
    f == Stopped(StepLimit) || f == Stopped(CostLimit)
  }

  predicate RanOutOfTime(f: Failure) {
    f == Stopped(TimeLimit) || f == Interrupted(Deadline)
  }

  /** What the status of a run means: each of the five for its own kind of ending. */
  lemma StatusTells(failure: Option<RunFailure>)
    ensures StatusOf(failure) == Succeeded <==> failure.None?
    ensures StatusOf(failure) == BudgetExceeded <==> failure.Some? && failure.value.TurnFailed? && HitCeiling(failure.value.failure)
    ensures StatusOf(failure) == TimedOut <==> failure.Some? && failure.value.TurnFailed? && RanOutOfTime(failure.value.failure)
    ensures StatusOf(failure) == WasCancelled <==>
              failure == Some(TurnFailed(Stopped(Cancelled))) || failure == Some(TurnFailed(Interrupted(Shutdown)))
    ensures StatusOf(failure) == Failed <==>
              failure.Some? && (failure.value.TurnFailed? ==> failure.value.failure in {Provider, Interrupted(Broken)})
  {}

  function StatusOf(failure: Option<RunFailure>): Status {
    match failure
    case None => Succeeded
    case Some(TurnFailed(Stopped(Cancelled))) => WasCancelled
    case Some(TurnFailed(Stopped(TimeLimit))) => TimedOut
    case Some(TurnFailed(Stopped(_))) => BudgetExceeded
    case Some(TurnFailed(Interrupted(Deadline))) => TimedOut
    case Some(TurnFailed(Interrupted(Shutdown))) => WasCancelled
    case Some(_) => Failed
  }

  /** What the run row says in the end. */
  datatype RunRow = RunRow(status: Status, stepsUsed: nat, cost: nat, costCents: nat, billable: nat)

  /** `totals["billable"]`, added up step record by step record. */
  method AddBillable(records: seq<StepRecord>) returns (billable: nat)
    ensures billable == RecordedBillable(records)
  {
    billable := 0;
    for i := 0 to |records|
      invariant billable == RecordedBillable(records[..i])
    {
      assert records[..i + 1][..i] == records[..i];
      billable := billable + records[i].billable;
    }
    assert records[..|records|] == records;
  }

  /** The row accounts for the run: nothing that was spent is missing, and what is billed is the
      marked-up cost of the platform's calls in finished turns. */
  ghost predicate Accounts(c: Config, row: RunRow, h: History, markup: nat -> nat) {
    && row.stepsUsed == |h.trace|
    && row.cost == Cost(h.trace) == RecordedCost(h.records) + Cost(h.open)
    && |h.open| <= |h.trace|
    && row.billable == RecordedBillable(h.records) == Billable(h.trace[..|h.trace| - |h.open|], markup)
    && (h.trace != [] ==>
          |h.trace| <= c.maxSteps && row.cost < c.maxCost + h.trace[|h.trace| - 1].answer.cost)
  }

  /** A shutdown is the one end of the topology that is raised again: nothing commits then. */
  predicate Raised(ending: Option<RunFailure>) {
    ending == Some(TurnFailed(Interrupted(Shutdown)))
  }

  predicate IsShutdown(cause: Option<Interruption>) {
    cause == Some(Shutdown)
  }

  ghost predicate NeverShutDown(world: World) {
    && (forall n :: !IsShutdown(world.pause(n)))
    && forall n :: world.reply(n) != Unheard(Shutdown)
  }

  /** What is committed: the row, and the one debit. */
  ghost predicate Committed(c: Config, row: RunRow, h: History, markup: nat -> nat, ending: Option<RunFailure>,
                            enabled: bool, org: string, run: string, before: Books, after: Books)
  {
    && Accounts(c, row, h, markup) && row.costCents == MicrocentsToCents(row.cost) && row.status == StatusOf(ending)
    && after == if enabled && row.billable > 0 then Post(before, Debit(org, run, row.billable)).0 else before
  }

  /** From the first call to the last, the run did what its topology asked for. */
  ghost predicate Served(world: World, choose: seq<StepRecord> -> Move, h: History, legs: seq<Leg>, ending: Option<RunFailure>) {
    && InLegs(world, choose, h.records, h.trace, legs, ending.Some?) && legs[0] == Leg(0, 0)
    && (ending.Some? && !ending.value.Misconfigured? ==> |legs| >= 2)
  }

  /** `execute_run` for a topology that is any function of what the agents said. Everything is one
      transaction: `opens` and `closes` say whether what comes before the topology and after it, up
      to the commit, succeeds. Whatever ends the topology, its own completion, a failed turn, a
      configuration error, a timeout, the run is charged once for its finished turns, but a
      shutdown undoes row and debit. `h` is what happened. */
  method ExecuteRun(graph: Graph, limits: Limits, world: World, choose: seq<StepRecord> -> Move,
                    ledger: Ledger, enabled: bool, org: string, run: string, opens: bool, closes: bool)
    returns (row: Option<RunRow>, ending: Option<RunFailure>, charged: Result<Option<Entry>, LedgerError>, ghost h: History,
             ghost legs: seq<Leg>)
    modifies ledger
    ensures row.Some? <==> opens && closes && charged.Ok? && !Raised(ending)
    ensures charged.Err? ==> org !in old(ledger.credits)
    ensures row.Some? ==> Committed(ConfigFor(graph, limits), row.value, h, world.markup, ending,
                                    enabled, org, run, old(ledger.State()), ledger.State())
    ensures row.None? ==> ledger.State() == old(ledger.State())
    ensures row.Some? ==> Debited(old(ledger.State()), ledger.State(), enabled, org, run, row.value.billable)
    ensures old(Sound(ledger.State())) ==> Sound(ledger.State())
    ensures row.Some? && h.trace != [] ==>
              && |h.trace| <= limits.maxSteps && (graph.maxSteps.Some? ==> |h.trace| <= graph.maxSteps.value)
              && row.value.cost < limits.maxCostCents * 1_000_000 + h.trace[|h.trace| - 1].answer.cost
    ensures enabled && RecordedBillable(h.records) > 0 ==>
              (HasDebit(ledger.State(), org, run) <==> row.Some? || HasDebit(old(ledger.State()), org, run))
    ensures ending.None? && opens ==> h.open == [] && choose(h.records).Done?
    ensures ending == Some(Misconfigured) ==> h.open == [] && choose(h.records).Fail?
    ensures ending.Some? && ending.value.TurnFailed? && ending.value.failure.Interrupted? ==>
              FromOutside(world, ending.value.failure.cause)
    ensures opens && closes && org in old(ledger.credits) && NeverShutDown(world) ==> row.Some?
    ensures OpenTurn(ConfigFor(graph, limits), h.open, h.next) && |h.trace| >= |h.open|
    ensures if opens then Served(world, choose, h, legs, ending) else h.trace == []
  {
    row, ending, charged, h, legs := None, None, Ok(None), History([], [], [], [], 1), [];
    if !opens {
      return;
    }
    var settled;
    CeilingsOfTheRun(graph, limits);
    settled, ending, h, legs := RunToEnd(ConfigFor(graph, limits), world, choose);
    var kept;
    kept, charged := Charge(settled.billable, Raised(ending), ledger, enabled, org, run, closes);
    if kept {
      row := Some(settled);
    }
  }

  /** Under a key that was free the organisation pays the least number of cents that covers the run,
      once, and nobody else pays anything. */
  ghost predicate Debited(before: Books, after: Books, enabled: bool, org: string, run: string, billable: nat) {
    enabled && billable > 0 && !HasDebit(before, org, run) ==>
      && org in before.credits && after.credits.Keys == before.credits.Keys
      && Charged(after.entries, org, RunKey(run)) == 0 - MicrocentsToCents(billable)
      && forall o :: o in before.credits ==>
           after.credits[o] == before.credits[o] - if o == org then MicrocentsToCents(billable) else 0
  }

  lemma PostDebits(b: Books, org: string, run: string, billable: nat)
    requires Post(b, Debit(org, run, billable)).1.Ok?
    ensures Debited(b, Post(b, Debit(org, run, billable)).0, true, org, run, billable)
  {
    var r := Debit(org, run, billable);
    PostDoes(b, r);
    FoundIfTaken(b.entries, org, RunKey(run));
    if !HasDebit(b, org, run) {
      PostedIsCharged(b, r, Post(b, r).0);
    }
  }

  /** The end of the transaction. */
  method Charge(billable: nat, raised: bool, ledger: Ledger, enabled: bool, org: string, run: string, closes: bool)
    returns (kept: bool, charged: Result<Option<Entry>, LedgerError>)
    modifies ledger
    ensures kept <==> closes && charged.Ok? && !raised
    ensures charged.Err? ==> org !in old(ledger.credits)
    ensures kept ==> ledger.State() == if enabled && billable > 0 then Post(old(ledger.State()), Debit(org, run, billable)).0
                                       else old(ledger.State())
    ensures kept ==> Debited(old(ledger.State()), ledger.State(), enabled, org, run, billable)
    ensures !kept ==> ledger.State() == old(ledger.State())
    ensures old(Sound(ledger.State())) ==> Sound(ledger.State())
    ensures enabled && billable > 0 ==>
              (HasDebit(ledger.State(), org, run) <==> kept || HasDebit(old(ledger.State()), org, run))
  {
    var before := ledger.State();
    charged := ledger.ChargeRun(enabled, org, run, billable);
    if enabled && billable > 0 {
      PostLeavesDebit(before, org, run, billable);
      if charged.Ok? {
        PostDebits(before, org, run, billable);
      }
    }
    kept := !raised && closes && charged.Ok?;
    if !kept {
      ledger.RollBack(before);
    }
  }

  /** The topology, and the row of the run. */
  method RunToEnd(c: Config, world: World, choose: seq<StepRecord> -> Move)
    returns (row: RunRow, ending: Option<RunFailure>, ghost h: History, ghost legs: seq<Leg>)
    ensures Accounts(c, row, h, world.markup) && row.costCents == MicrocentsToCents(row.cost) && row.status == StatusOf(ending)
    ensures ending.None? ==> h.open == [] && choose(h.records).Done?
    ensures ending == Some(Misconfigured) ==> h.open == [] && choose(h.records).Fail?
    ensures ending.Some? && ending.value.TurnFailed? && ending.value.failure.Interrupted? ==>
              FromOutside(world, ending.value.failure.cause)
    ensures OpenTurn(c, h.open, h.next) && Served(world, choose, h, legs, ending)
  {
    var engine := new Engine(c, world);
    ending, legs := engine.RunPreset(choose);
    engine.RunIsBounded();
    h := engine.h;
    CostIsConserved(c, h, world.markup, engine.state.exhausted, engine.toolRows);
    var billable := AddBillable(engine.records);
    row := RunRow(StatusOf(ending), engine.budget.stepsUsed, engine.budget.spent,
                  MicrocentsToCents(engine.budget.spent), billable);
  }

  ghost predicate HasDebit(b: Books, org: string, run: string) {
    Find(b.entries, org, RunKey(run)).Some?
  }

  lemma PostLeavesDebit(b: Books, org: string, run: string, billable: nat)
    ensures var (after, posted) := Post(b, Debit(org, run, billable));
            posted.Ok? <==> HasDebit(after, org, run)
    ensures Post(b, Debit(org, run, billable)).1.Err? ==> org !in b.credits && Post(b, Debit(org, run, billable)).0 == b
  {
    if Find(b.entries, org, RunKey(run)).None? && org in b.credits {
      var after := Added(b, Debit(org, run, billable)).entries;
      assert after[..|after| - 1] == b.entries;
    }
  }

  // ---- From the calls to the debit ----------------------------------------------------

  /** What the platform's own keys paid for. */
  function PlatformCosts(calls: seq<Call>): seq<nat> {
    if calls == [] then []
    else
      var before, last := PlatformCosts(calls[..|calls| - 1]), calls[|calls| - 1].answer;
      if last.platform then before + [last.cost] else before
  }

  lemma {:induction false} BillableIsMarkedUp(calls: seq<Call>, markup: nat -> nat)
    ensures Billable(calls, markup) == MarkedUp(PlatformCosts(calls), markup)
    ensures |PlatformCosts(calls)| <= |calls|
  {
    if calls != [] {
      var before, last := calls[..|calls| - 1], calls[|calls| - 1].answer;
      BillableIsMarkedUp(before, markup);
      if last.platform {
        var costs := PlatformCosts(before) + [last.cost];
        assert costs[..|costs| - 1] == PlatformCosts(before);
      }
    }
  }

  /** In hundredths of a micro-cent: the cents cover the platform's calls with the margin, but for
      half a micro-cent a call, and exceed them by less than one cent and as much. */
  ghost predicate Covers(cents: nat, costs: seq<nat>, percent: nat, calls: nat) {
    var exact := Total(costs) * (100 + percent);
    exact - 50 * calls <= 100 * MICROCENTS_PER_CENT * cents < exact + 50 * calls + 100 * MICROCENTS_PER_CENT
  }

  lemma MarkupIsCovered(costs: seq<nat>, markup: nat -> nat, percent: nat, calls: nat)
    requires IsMarkup(markup, percent) && MarkedUp(costs, markup) > 0 && |costs| <= calls
    ensures Covers(MicrocentsToCents(MarkedUp(costs, markup)), costs, percent, calls)
  {
    DebitCoversTheRun(costs, markup, percent);
  }

  /** From any run to its debit: what the organisation loses covers the platform's calls of the
      finished turns. */
  lemma DebitCoversThePlatform(c: Config, row: RunRow, h: History, markup: nat -> nat, percent: nat, org: string, run: string,
                               before: Books)
    requires Accounts(c, row, h, markup) && row.billable > 0 && IsMarkup(markup, percent)
    requires org in before.credits && !Taken(before.entries, org, RunKey(run))
    ensures var calls, after := h.trace[..|h.trace| - |h.open|], Post(before, Debit(org, run, row.billable)).0;
            && org in after.credits && before.credits[org] > after.credits[org]
            && Covers(before.credits[org] - after.credits[org], PlatformCosts(calls), percent, |calls|)
  {
    var calls := h.trace[..|h.trace| - |h.open|];
    BillableIsMarkedUp(calls, markup);
    MarkupIsCovered(PlatformCosts(calls), markup, percent, |calls|);
    PostDoes(before, Debit(org, run, row.billable));
  }

  /** Executing a run again, as a second delivery would, charges nothing more. */
  lemma SecondChargeIsNothing(b: Books, org: string, run: string, billable: nat, again: nat)
    requires Unique(b.entries) && org in b.credits
    ensures var once := Post(b, Debit(org, run, billable)).0;
            && Post(once, Debit(org, run, again)).0 == once
            && Charged(once.entries, org, RunKey(run)) == Post(b, Debit(org, run, billable)).1.value.amount
  {
    RepeatedPostIsHarmless(b, Debit(org, run, billable), Debit(org, run, again));
    if Find(b.entries, org, RunKey(run)).None? {
      AddedKeepsKeys(b, Debit(org, run, billable));
    }
    ChargedOnce(Post(b, Debit(org, run, billable)).0.entries, org, RunKey(run));
  }
}

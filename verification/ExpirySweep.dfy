/**
 Many instances sharing the auction table (apps/auctionhouse/repo/auction_mysql.go and the sweep, cancel and buyout of
 apps/auctionhouse/service/auction.go). Each SQL statement is one atomic step. A sweep selects a row, deletes it, and
 settles if the rows-affected count says that its own DELETE took the row. Cancels and buyouts mail first and delete
 afterwards, whatever that DELETE finds. Any statement may fail, before or after it took effect.
 */
module ExpirySweep {
  import opened Words

  type Instance = nat
  type AuctionId = nat

  datatype Row = Row(bidder: uint32, lastBid: uint32)

  /** Between its SELECT and its DELETE an instance holds the row it saw. */
  datatype Phase = Idle | Holding(id: AuctionId, seen: Row)

  datatype Kind = Cancel | Buyout

  /** A cancel or buyout whose mails are out and whose DELETE is not. */
  datatype Sale = Sale(kind: Kind, who: Instance, id: AuctionId, ticket: nat)

  datatype Settlement = Settlement(who: Instance, id: AuctionId, row: Row)

  /** Whose DELETE took a row: a sweep's, a sweep's that never learned of it, or that of a cancel or buyout. */
  datatype Remover = BySweep | ByUnansweredSweep | BySale

  datatype Removal = Removal(remover: Remover, row: Row)

  /**
   The table; which instance has which auction in its cache and among the candidates of its sweep; where each sweep
   is; and the open cancels and buyouts. The rest is history: auctions ever listed, rows taken, settlements, mailings,
   buyouts that stopped after paying the seller, sale DELETEs that found no row or failed, sweeps whose held row a bid has
   changed, settlements based on such a row.
   */
  datatype State = State(
    table: map<AuctionId, Row>, cached: set<(Instance, AuctionId)>, todo: set<(Instance, AuctionId)>,
    phase: map<Instance, Phase>, sales: set<Sale>,
    listed: set<AuctionId>, removed: map<AuctionId, Removal>, settled: seq<Settlement>,
    mailed: multiset<AuctionId>, stopped: multiset<AuctionId>, missed: multiset<AuctionId>, failed: multiset<AuctionId>,
    hit: set<Instance>, outdated: set<AuctionId>)

  datatype Step =
    | List(who: Instance, id: AuctionId)
    | Learn(who: Instance, id: AuctionId)
    | Forget(who: Instance, id: AuctionId)
    | Bid(id: AuctionId, row: Row)
    | Begin(who: Instance, ids: set<AuctionId>)
    | Select(who: Instance, id: AuctionId)
    | SelectFails(who: Instance, id: AuctionId)
    | Delete(who: Instance)
    | DeleteFails(who: Instance)
    | DeleteReplyLost(who: Instance)
    | StopAfterPaying(who: Instance, id: AuctionId)
    | Mail(sale: Sale)
    | Remove(sale: Sale, answered: bool)
    | RemoveFails(sale: Sale)

  function PhaseOf(s: State, i: Instance): Phase {
    if i in s.phase then s.phase[i] else Idle
  }

  /**
   Ids come from the primary key: none is listed twice. Terminal events are published after the row is gone. A sweep
   takes its candidates from the cache, and works on one at a time. A cancel or buyout starts from the cache.
   */
  predicate Enabled(s: State, step: Step) {
    match step
    case List(_, id) => id !in s.listed
    case Learn(_, id) => id in s.listed
    case Forget(_, id) => id in s.listed && id !in s.table
    case Bid(_, _) => true
    case Begin(i, ids) => PhaseOf(s, i).Idle? && forall id :: id in ids ==> (i, id) in s.cached
    case Select(i, id) => PhaseOf(s, i).Idle? && (i, id) in s.todo
    case SelectFails(i, id) => PhaseOf(s, i).Idle? && (i, id) in s.todo
    case Delete(i) => PhaseOf(s, i).Holding?
    case DeleteFails(i) => PhaseOf(s, i).Holding?
    case DeleteReplyLost(i) => PhaseOf(s, i).Holding?
    case StopAfterPaying(i, id) => (i, id) in s.cached
    case Mail(sale) => (sale.who, sale.id) in s.cached && sale !in s.sales
    case Remove(sale, _) => sale in s.sales
    case RemoveFails(sale) => sale in s.sales
  }

  /** A DELETE of one row by its primary key. */
  function Drop(s: State, id: AuctionId, by_: Remover): State {
    if id in s.table then s.(table := s.table - {id}, removed := s.removed[id := Removal(by_, s.table[id])]) else s
  }

  /** The instance is done with a candidate, whatever became of it: it leaves the cache. */
  function Finish(s: State, i: Instance, id: AuctionId): State {
    s.(phase := s.phase[i := Idle], cached := s.cached - {(i, id)}, hit := s.hit - {i})
  }

  function Holders(s: State, id: AuctionId): set<Instance> {
    set i | i in s.phase && s.phase[i].Holding? && s.phase[i].id == id
  }

  function Next(s: State, step: Step): State
    requires Enabled(s, step)
  {
    match step
    case List(i, id) =>
      s.(table := s.table[id := Row(0, 0)], listed := s.listed + {id}, cached := s.cached + {(i, id)})
    case Learn(i, id) => s.(cached := s.cached + {(i, id)})
    case Forget(i, id) => s.(cached := s.cached - {(i, id)})
    // UPDATE ... WHERE id = ?: no effect without the row
    case Bid(id, row) =>
      if id in s.table then s.(table := s.table[id := row], hit := s.hit + Holders(s, id)) else s
    case Begin(i, ids) => s.(todo := s.todo + set id | id in ids :: (i, id))
    case Select(i, id) =>
      var s1 := s.(todo := s.todo - {(i, id)});
      if id in s.table then s1.(phase := s.phase[i := Holding(id, s.table[id])], hit := s.hit - {i})
      else Finish(s1, i, id)
    case SelectFails(i, id) => Finish(s.(todo := s.todo - {(i, id)}), i, id)
    case Delete(i) =>
      var id, seen := s.phase[i].id, s.phase[i].seen;
      // zero rows affected: somebody else was faster
      if id !in s.table then Finish(s, i, id)
      else
        Finish(Drop(s, id, BySweep), i, id).(
          settled := s.settled + [Settlement(i, id, seen)],
          outdated := if i in s.hit then s.outdated + {id} else s.outdated)
    case DeleteFails(i) => Finish(s, i, s.phase[i].id)
    case DeleteReplyLost(i) => Finish(Drop(s, s.phase[i].id, ByUnansweredSweep), i, s.phase[i].id)
    // a buyout whose item mail fails returns with the seller paid and everything else as it was
    case StopAfterPaying(_, id) => s.(stopped := s.stopped + multiset{id})
    case Mail(sale) =>
      s.(sales := s.sales + {sale}, mailed := s.mailed + multiset{sale.id},
         cached := if sale.kind == Cancel then s.cached - {(sale.who, sale.id)} else s.cached)
    case Remove(sale, answered) =>
      var s1 := Drop(s, sale.id, BySale);
      s1.(sales := s.sales - {sale},
          missed := if sale.id in s.table then s.missed else s.missed + multiset{sale.id},
          cached := if answered && sale.kind == Buyout then s.cached - {(sale.who, sale.id)} else s.cached)
    case RemoveFails(sale) => s.(sales := s.sales - {sale}, failed := s.failed + multiset{sale.id})
  }

  const INITIAL := State(
    map[], {}, {}, map[], {}, {}, map[], [], multiset{}, multiset{}, multiset{}, multiset{}, {}, {})

  ghost predicate Runs(s: State, steps: seq<Step>)
    decreases |steps|
  {
    steps != [] ==> Enabled(s, steps[0]) && Runs(Next(s, steps[0]), steps[1..])
  }

  ghost function Run(s: State, steps: seq<Step>): State
    requires Runs(s, steps)
    decreases |steps|
  {
    if steps == [] then s else Run(Next(s, steps[0]), steps[1..])
  }

  // ----- rows -----

  /** A row that was listed is in the table or was taken, and all work is about listed rows. */
  ghost predicate Rows(s: State) {
    && s.table.Keys <= s.listed && s.removed.Keys == s.listed - s.table.Keys
    && (forall x :: x in s.cached ==> x.1 in s.listed) && (forall x :: x in s.todo ==> x.1 in s.listed)
    && (forall i :: i in s.phase && s.phase[i].Holding? ==> s.phase[i].id in s.listed)
    && (forall x :: x in s.sales ==> x.id in s.listed)
  }

  lemma BeginKeepsRows(s: State, step: Step)
    requires Rows(s) && step.Begin? && Enabled(s, step)
    ensures Rows(Next(s, step))
  {
    forall x | x in Next(s, step).todo ensures x.1 in s.listed {
      if x !in s.todo {
        var id :| id in step.ids && x == (step.who, id);
        assert (step.who, id) in s.cached;
      }
    }
  }

  lemma SweepKeepsRows(s: State, step: Step)
    requires Rows(s) && Enabled(s, step)
    requires step.Select? || step.SelectFails? || step.Delete? || step.DeleteFails? || step.DeleteReplyLost?
    ensures Rows(Next(s, step))
  {
  }

  lemma StepKeepsRows(s: State, step: Step)
    requires Rows(s) && Enabled(s, step)
    ensures Rows(Next(s, step))
  {
    if step.Begin? {
      BeginKeepsRows(s, step);
    } else if step.Select? || step.SelectFails? || step.Delete? || step.DeleteFails? || step.DeleteReplyLost? {
      SweepKeepsRows(s, step);
    }
  }

  // ----- sweeps settle at most once -----

  /** How many settlements the auction has had. */
  function Settlements(settled: seq<Settlement>, id: AuctionId): nat {
    if settled == [] then 0
    else Settlements(settled[..|settled| - 1], id) + if settled[|settled| - 1].id == id then 1 else 0
  }

  predicate TakenBy(s: State, id: AuctionId, who: Remover) {
    id in s.removed && s.removed[id].remover == who
  }

  ghost predicate SettledOnce(s: State) {
    forall id :: SettledOf(s, id)
  }

  lemma SettlementsMore(settled: seq<Settlement>, x: Settlement, id: AuctionId)
    ensures Settlements(settled + [x], id) == Settlements(settled, id) + if x.id == id then 1 else 0
  {
    assert (settled + [x])[..|settled|] == settled;
  }

  ghost predicate SettledOf(s: State, id: AuctionId) {
    Settlements(s.settled, id) == if TakenBy(s, id, BySweep) then 1 else 0
  }

  lemma DeleteKeepsSettled(s: State, step: Step, id: AuctionId)
    requires Rows(s) && SettledOf(s, id) && step.Delete? && Enabled(s, step)
    ensures SettledOf(Next(s, step), id)
  {
    if s.phase[step.who].id in s.table {
      SettlementsMore(s.settled, Settlement(step.who, s.phase[step.who].id, s.phase[step.who].seen), id);
    }
  }

  lemma OtherKeepsSettled(s: State, step: Step, id: AuctionId)
    requires Rows(s) && SettledOf(s, id) && !step.Delete? && Enabled(s, step)
    ensures SettledOf(Next(s, step), id)
  {
  }

  /** Only a sweep's answered DELETE of an existing row settles; no step touches the removal of another row. */
  lemma StepKeepsSettledOnce(s: State, step: Step)
    requires Rows(s) && SettledOnce(s) && Enabled(s, step)
    ensures SettledOnce(Next(s, step))
  {
    forall id ensures SettledOf(Next(s, step), id) {
      assert SettledOf(s, id);
      if step.Delete? {
        DeleteKeepsSettled(s, step, id);
      } else {
        OtherKeepsSettled(s, step, id);
      }
    }
  }

  // ----- mailings -----

  ghost function Open(s: State, id: AuctionId): set<Sale> {
    set x | x in s.sales && x.id == id
  }

  /** Every mailing is still open, or its DELETE took the row, found none, or failed. */
  ghost predicate Mailings(s: State) {
    forall id :: MailingsOf(s, id)
  }

  lemma OpenMore(s: State, t: State, sale: Sale, id: AuctionId)
    requires sale !in s.sales && t.sales == s.sales + {sale}
    ensures |Open(t, id)| == |Open(s, id)| + if sale.id == id then 1 else 0
  {
    assert Open(t, id) == Open(s, id) + if sale.id == id then {sale} else {};
  }

  lemma OpenLess(s: State, t: State, sale: Sale, id: AuctionId)
    requires sale in s.sales && t.sales == s.sales - {sale}
    ensures |Open(t, id)| == |Open(s, id)| - if sale.id == id then 1 else 0
  {
    OpenMore(t, s, sale, id);
    assert t.sales + {sale} == s.sales;
  }

  /** The account of one auction's mailings. */
  ghost predicate MailingsOf(s: State, id: AuctionId) {
    s.mailed[id] == |Open(s, id)| + s.missed[id] + s.failed[id] + if TakenBy(s, id, BySale) then 1 else 0
  }

  lemma SaleKeepsMailings(s: State, step: Step, id: AuctionId)
    requires Rows(s) && MailingsOf(s, id) && Enabled(s, step) && (step.Mail? || step.Remove? || step.RemoveFails?)
    ensures MailingsOf(Next(s, step), id)
  {
    if step.Mail? {
      OpenMore(s, Next(s, step), step.sale, id);
    } else {
      OpenLess(s, Next(s, step), step.sale, id);
    }
  }

  lemma OtherKeepsMailings(s: State, step: Step, id: AuctionId)
    requires Rows(s) && MailingsOf(s, id) && Enabled(s, step) && !(step.Mail? || step.Remove? || step.RemoveFails?)
    ensures MailingsOf(Next(s, step), id)
  {
    assert Open(Next(s, step), id) == Open(s, id);
  }

  lemma StepKeepsMailings(s: State, step: Step)
    requires Rows(s) && Mailings(s) && Enabled(s, step)
    ensures Mailings(Next(s, step))
  {
    forall id ensures MailingsOf(Next(s, step), id) {
      assert MailingsOf(s, id);
      if step.Mail? || step.Remove? || step.RemoveFails? {
        SaleKeepsMailings(s, step, id);
      } else {
        OtherKeepsMailings(s, step, id);
      }
    }
  }

  // ----- whole runs -----

  ghost predicate Inv(s: State) {
    Rows(s) && SettledOnce(s) && Mailings(s)
  }

  lemma {:induction false} RunKeepsInv(s: State, steps: seq<Step>)
    requires Inv(s) && Runs(s, steps)
    ensures Inv(Run(s, steps))
    decreases |steps|
  {
    if steps != [] {
      StepKeepsRows(s, steps[0]);
      StepKeepsSettledOnce(s, steps[0]);
      StepKeepsMailings(s, steps[0]);
      RunKeepsInv(Next(s, steps[0]), steps[1..]);
    }
  }

  lemma InitialInv()
    ensures Inv(INITIAL)
  {
    forall id ensures Open(INITIAL, id) == {} {
    }
  }

  /**
   In every interleaving, with any failures, sweeps settle an auction at most once and never one whose row is still
   there; and of the rows that are gone they have settled all but those a cancel, a buyout or an unanswered DELETE took.
   */
  lemma AtMostOnce(steps: seq<Step>, id: AuctionId)
    requires Runs(INITIAL, steps)
    ensures var s := Run(INITIAL, steps);
            && Settlements(s.settled, id) <= 1
            && (Settlements(s.settled, id) == 1 ==> id in s.listed && id !in s.table)
            && (id in s.listed && id !in s.table ==>
                  (Settlements(s.settled, id) == 1 <==> !TakenBy(s, id, BySale) && !TakenBy(s, id, ByUnansweredSweep)))
  {
    InitialInv();
    RunKeepsInv(INITIAL, steps);
    assert SettledOf(Run(INITIAL, steps), id);
  }

  /** Times an auction was paid out: by a sweep, or by the mails of a cancel or buyout, complete or not. */
  ghost function Payouts(s: State, id: AuctionId): nat {
    Settlements(s.settled, id) + s.mailed[id] + s.stopped[id]
  }

  /**
   The exact number of payouts, in every reachable state: one for a row that is gone, unless its DELETE went
   unanswered, and one more for every cancel or buyout whose DELETE found no row, failed, is still to come, or was
   never reached because the item mail failed.
   */
  lemma PayoutsCounted(steps: seq<Step>, id: AuctionId)
    requires Runs(INITIAL, steps)
    ensures var s := Run(INITIAL, steps);
            Payouts(s, id) ==
            (if id in s.removed && !TakenBy(s, id, ByUnansweredSweep) then 1 else 0)
            + s.stopped[id] + s.missed[id] + s.failed[id] + |Open(s, id)|
  {
    InitialInv();
    RunKeepsInv(INITIAL, steps);
    assert MailingsOf(Run(INITIAL, steps), id) && SettledOf(Run(INITIAL, steps), id);
  }

  ghost predicate NoFailures(steps: seq<Step>) {
    forall x :: x in steps ==>
      && !x.SelectFails? && !x.DeleteFails? && !x.DeleteReplyLost? && !x.StopAfterPaying? && !x.RemoveFails?
      && (x.Remove? ==> x.answered)
  }

  ghost predicate Faultless(s: State) {
    s.stopped == multiset{} && s.failed == multiset{} && forall id :: !TakenBy(s, id, ByUnansweredSweep)
  }

  lemma {:induction false} RunStaysFaultless(s: State, steps: seq<Step>)
    requires Faultless(s) && Runs(s, steps) && NoFailures(steps)
    ensures Faultless(Run(s, steps))
    decreases |steps|
  {
    if steps != [] {
      assert steps[0] in steps && forall x :: x in steps[1..] ==> x in steps;
      StepStaysFaultless(s, steps[0]);
      RunStaysFaultless(Next(s, steps[0]), steps[1..]);
    }
  }

  lemma StepStaysFaultless(s: State, step: Step)
    requires Faultless(s) && Enabled(s, step)
    requires !step.DeleteReplyLost? && !step.StopAfterPaying? && !step.RemoveFails?
    ensures Faultless(Next(s, step))
  {
    var t := Next(s, step);
    forall id ensures !TakenBy(t, id, ByUnansweredSweep) {
      assert !TakenBy(s, id, ByUnansweredSweep);
    }
  }

  /**
   When no statement failed and no cancel or buyout of the auction is open, it was paid out twice if and only if the
   DELETE of a cancel or buyout found no row - which that DELETE's rows-affected count, not read by the source, tells.
   */
  lemma PaidTwiceIffSaleFoundNoRow(steps: seq<Step>, id: AuctionId)
    requires Runs(INITIAL, steps) && NoFailures(steps) && Open(Run(INITIAL, steps), id) == {}
    ensures var s := Run(INITIAL, steps);
            Payouts(s, id) >= 2 <==> id in s.missed
  {
    PayoutsCounted(steps, id);
    RunStaysFaultless(INITIAL, steps);
    var s := Run(INITIAL, steps);
    assert s.stopped[id] == 0 && s.failed[id] == 0 && !TakenBy(s, id, ByUnansweredSweep);
    MissedAreRemoved(INITIAL, steps, id);
  }

  lemma {:induction false} MissedAreRemoved(s: State, steps: seq<Step>, id: AuctionId)
    requires Rows(s) && Runs(s, steps) && (id in s.missed ==> id in s.removed)
    ensures id in Run(s, steps).missed ==> id in Run(s, steps).removed
    decreases |steps|
  {
    if steps != [] {
      StepKeepsRows(s, steps[0]);
      MissedAreRemoved(Next(s, steps[0]), steps[1..], id);
    }
  }

  // ----- exactly once, when no statement fails -----

  /** Every row in the table is in some instance's cache, or a cancel or buyout of it is open. */
  ghost predicate Tended(s: State) {
    forall id :: id in s.table ==> (exists i :: (i, id) in s.cached) || Open(s, id) != {}
  }

  lemma StepTends(s: State, step: Step)
    requires Tended(s) && Enabled(s, step) && NoFailures([step])
    ensures Tended(Next(s, step))
  {
    var t := Next(s, step);
    assert step in [step];
    forall id | id in t.table ensures (exists i :: (i, id) in t.cached) || Open(t, id) != {} {
      if step.List? && step.id == id {
        assert (step.who, id) in t.cached;
      } else if step.Mail? && step.sale.id == id {
        assert step.sale in Open(t, id);
      } else if Open(s, id) != {} {
        var x :| x in Open(s, id);
        assert x in Open(t, id);
      } else {
        var i :| (i, id) in s.cached;
        assert (i, id) in t.cached;
      }
    }
  }

  lemma {:induction false} RunTends(s: State, steps: seq<Step>)
    requires Tended(s) && Runs(s, steps) && NoFailures(steps)
    ensures Tended(Run(s, steps))
    decreases |steps|
  {
    if steps != [] {
      assert steps[0] in steps && forall x :: x in steps[1..] ==> x in steps;
      StepTends(s, steps[0]);
      RunTends(Next(s, steps[0]), steps[1..]);
    }
  }

  /**
   When no statement failed and every instance has processed the auction - none caches it, no cancel or buyout of it is
   open - a listed auction was paid out once and once more for each sale DELETE that found no row; by sweeps alone,
   exactly once.
   */
  lemma ExactlyOnce(steps: seq<Step>, id: AuctionId)
    requires Runs(INITIAL, steps) && NoFailures(steps) && id in Run(INITIAL, steps).listed
    requires (forall i :: (i, id) !in Run(INITIAL, steps).cached) && Open(Run(INITIAL, steps), id) == {}
    ensures var s := Run(INITIAL, steps);
            && Payouts(s, id) == 1 + s.missed[id]
            && (s.mailed[id] == 0 ==> Settlements(s.settled, id) == 1)
  {
    var s := Run(INITIAL, steps);
    InitialInv();
    RunKeepsInv(INITIAL, steps);
    RunTends(INITIAL, steps);
    assert id !in s.table;
    RunStaysFaultless(INITIAL, steps);
    assert s.stopped[id] == 0 && s.failed[id] == 0 && !TakenBy(s, id, ByUnansweredSweep);
    assert SettledOf(s, id);
    assert MailingsOf(s, id);
  }

  // ----- a failing DELETE abandons the auction -----

  /** The row is there, and no instance has it in its cache, in its sweep or in an open cancel or buyout. */
  ghost predicate Abandoned(s: State, id: AuctionId) {
    && id in s.table && id in s.listed && Open(s, id) == {}
    && (forall i :: (i, id) !in s.cached && (i, id) !in s.todo)
    && (forall i :: i in s.phase && s.phase[i].Holding? ==> s.phase[i].id != id)
  }

  lemma StepStaysAbandoned(s: State, step: Step, id: AuctionId)
    requires Abandoned(s, id) && Enabled(s, step) && !(step.Learn? && step.id == id)
    ensures Abandoned(Next(s, step), id) && Payouts(Next(s, step), id) == Payouts(s, id)
  {
    var t := Next(s, step);
    if step.Mail? || step.Remove? || step.RemoveFails? {
      assert forall x :: x in s.sales && x.id == id ==> x in Open(s, id);
      assert Open(t, id) == Open(s, id);
    } else if step.Delete? && s.phase[step.who].id in s.table {
      SettlementsMore(s.settled, Settlement(step.who, s.phase[step.who].id, s.phase[step.who].seen), id);
    }
    assert Open(t, id) == {};
  }

  /** No instance ever comes back to it, unless the news of its listing reaches one late. */
  lemma {:induction false} AbandonedForever(s: State, steps: seq<Step>, id: AuctionId)
    requires Abandoned(s, id) && Runs(s, steps) && forall x :: x in steps ==> !(x.Learn? && x.id == id)
    ensures Abandoned(Run(s, steps), id) && Payouts(Run(s, steps), id) == Payouts(s, id)
    decreases |steps|
  {
    if steps != [] {
      assert steps[0] in steps && forall x :: x in steps[1..] ==> x in steps;
      StepStaysAbandoned(s, steps[0], id);
      AbandonedForever(Next(s, steps[0]), steps[1..], id);
    }
  }

  /** Nobody but instance i's present candidate work knows the auction. */
  ghost predicate KnownOnlyTo(s: State, i: Instance, id: AuctionId) {
    && Open(s, id) == {}
    && (forall j :: (j, id) !in s.todo) && (forall j :: (j, id) in s.cached ==> j == i)
    && (forall j :: j in s.phase && s.phase[j].Holding? && s.phase[j].id == id ==> j == i)
  }

  /** A failing SELECT does the same to a candidate that nobody else knows. */
  lemma FailingSelectAbandons(s: State, i: Instance, id: AuctionId)
    requires Rows(s) && Enabled(s, SelectFails(i, id))
    ensures Abandoned(Next(s, SelectFails(i, id)), id) <==>
            && id in s.table && Open(s, id) == {}
            && (forall j :: (j, id) in s.todo || (j, id) in s.cached ==> j == i)
            && (forall j :: j in s.phase && s.phase[j].Holding? ==> s.phase[j].id != id)
  {
    var t := Next(s, SelectFails(i, id));
    assert Open(t, id) == Open(s, id);
    assert forall j :: (j, id) in t.cached <==> (j, id) in s.cached && j != i;
    assert forall j :: (j, id) in t.todo <==> (j, id) in s.todo && j != i;
    assert forall j :: j in t.phase && t.phase[j].Holding? <==> j in s.phase && s.phase[j].Holding?;
    assert forall j :: j in s.phase && s.phase[j].Holding? ==> t.phase[j] == s.phase[j];
  }

  /** A failing DELETE abandons an existing row exactly when its instance was the only one to know the auction. */
  lemma FailingDeleteAbandons(s: State, i: Instance)
    requires Rows(s) && PhaseOf(s, i).Holding?
    ensures var id := s.phase[i].id;
            Abandoned(Next(s, DeleteFails(i)), id) <==> id in s.table && KnownOnlyTo(s, i, id)
  {
    var id := s.phase[i].id;
    var t := Next(s, DeleteFails(i));
    assert Open(t, id) == Open(s, id);
    assert t.phase[i] == Idle && forall j :: j != i ==> PhaseOf(t, j) == PhaseOf(s, j);
    assert forall j :: (j, id) in t.cached <==> (j, id) in s.cached && j != i;
    assert forall j :: j in t.phase && t.phase[j].Holding? <==> j in s.phase && s.phase[j].Holding? && j != i;
  }

  // ----- what the settlement is based on -----

  /** A bid that takes effect raises the last one, as PlaceBid demands of the auction it knows. */
  ghost predicate Rising(s: State, steps: seq<Step>)
    requires Runs(s, steps)
    decreases |steps|
  {
    steps != [] ==> Raises(s, steps[0]) && Rising(Next(s, steps[0]), steps[1..])
  }

  ghost predicate Raises(s: State, step: Step) {
    step.Bid? && step.id in s.table ==> step.row.lastBid > s.table[step.id].lastBid
  }

  /** A held row is the one in the table exactly when no bid has hit it; a settlement used the row that was deleted
      exactly when it is not marked as outdated. */
  ghost predicate Faithful(s: State) {
    && (forall i :: i in s.phase && s.phase[i].Holding? && s.phase[i].id in s.table ==>
          var row := s.table[s.phase[i].id];
          s.phase[i].seen.lastBid <= row.lastBid && (s.phase[i].seen == row <==> i !in s.hit))
    && s.outdated <= s.removed.Keys
    && (forall x :: x in s.settled ==>
          x.id in s.removed && (x.row == s.removed[x.id].row <==> x.id !in s.outdated))
  }

  lemma BidStaysFaithful(s: State, step: Step)
    requires Rows(s) && Faithful(s) && step.Bid? && Raises(s, step)
    ensures Faithful(Next(s, step))
  {
  }

  lemma DeleteStaysFaithful(s: State, step: Step)
    requires Rows(s) && Faithful(s) && step.Delete? && Enabled(s, step)
    ensures Faithful(Next(s, step))
  {
  }

  lemma RemovalStaysFaithful(s: State, step: Step)
    requires Rows(s) && Faithful(s) && (step.DeleteReplyLost? || step.Remove?) && Enabled(s, step)
    ensures Faithful(Next(s, step))
  {
  }

  lemma SweepStaysFaithful(s: State, step: Step)
    requires Rows(s) && Faithful(s) && (step.Select? || step.SelectFails? || step.DeleteFails?) && Enabled(s, step)
    ensures Faithful(Next(s, step))
  {
  }

  lemma StepStaysFaithful(s: State, step: Step)
    requires Rows(s) && Faithful(s) && Enabled(s, step) && Raises(s, step)
    ensures Faithful(Next(s, step))
  {
    if step.Bid? {
      BidStaysFaithful(s, step);
    } else if step.Delete? {
      DeleteStaysFaithful(s, step);
    } else if step.DeleteReplyLost? || step.Remove? {
      RemovalStaysFaithful(s, step);
    } else if step.Select? || step.SelectFails? || step.DeleteFails? {
      SweepStaysFaithful(s, step);
    }
  }

  /** Over every run with rising bids: a settlement is outdated if and only if a bid hit the row its sweep held. */
  lemma {:induction false} OutdatedIffHit(s: State, steps: seq<Step>)
    requires Rows(s) && Faithful(s) && Runs(s, steps) && Rising(s, steps)
    ensures Rows(Run(s, steps)) && Faithful(Run(s, steps))
    decreases |steps|
  {
    if steps != [] {
      StepKeepsRows(s, steps[0]);
      StepStaysFaithful(s, steps[0]);
      OutdatedIffHit(Next(s, steps[0]), steps[1..]);
    }
  }

  predicate EndsSweep(step: Step, i: Instance) {
    (step.Delete? || step.DeleteFails? || step.DeleteReplyLost?) && step.who == i
  }

  predicate BidsOn(step: Step, id: AuctionId) {
    step.Bid? && step.id == id
  }

  /** While instance i holds its row, it is hit exactly by the bids on that row. */
  lemma HitStep(s: State, step: Step, i: Instance, id: AuctionId)
    requires Rows(s) && Enabled(s, step) && !EndsSweep(step, i)
    requires i in s.phase && s.phase[i].Holding? && s.phase[i].id == id && id in s.table
    ensures var t := Next(s, step);
            && i in t.phase && t.phase[i] == s.phase[i]
            && (i in t.hit <==> i in s.hit || BidsOn(step, id))
  {
  }

  lemma {:induction false} GoneStaysGone(s: State, steps: seq<Step>, id: AuctionId)
    requires Rows(s) && Runs(s, steps) && id in s.listed && id !in s.table
    ensures id !in Run(s, steps).table
    decreases |steps|
  {
    if steps != [] {
      StepKeepsRows(s, steps[0]);
      GoneStaysGone(Next(s, steps[0]), steps[1..], id);
    }
  }

  lemma {:induction false} HitIffBidBetween(s: State, steps: seq<Step>, i: Instance, id: AuctionId)
    requires Rows(s) && Runs(s, steps) && (forall x :: x in steps ==> !EndsSweep(x, i))
    requires i in s.phase && s.phase[i].Holding? && s.phase[i].id == id && id in s.listed && id in Run(s, steps).table
    ensures var t := Run(s, steps);
            && i in t.phase && t.phase[i] == s.phase[i]
            && (i in t.hit <==> i in s.hit || exists x :: x in steps && BidsOn(x, id))
    decreases |steps|
  {
    if id !in s.table {
      GoneStaysGone(s, steps, id);
      assert false;
    } else if steps != [] {
      var step, rest := steps[0], steps[1..];
      assert step in steps && forall x :: x in steps <==> x == step || x in rest;
      StepKeepsRows(s, step);
      HitStep(s, step, i, id);
      HitIffBidBetween(Next(s, step), rest, i, id);
    }
  }

  /**
   The exact condition, in terms of the run: a sweep that selects an existing row and later deletes it settles on the
   row as it was deleted if and only if no bid on the auction came between its own SELECT and its own DELETE.
   */
  lemma SettlesCurrentRowIffNoBidBetween(before: seq<Step>, i: Instance, id: AuctionId, between: seq<Step>)
    requires Runs(INITIAL, before) && Rising(INITIAL, before)
    requires Enabled(Run(INITIAL, before), Select(i, id)) && id in Run(INITIAL, before).table
    requires Runs(Next(Run(INITIAL, before), Select(i, id)), between)
    requires Rising(Next(Run(INITIAL, before), Select(i, id)), between)
    requires forall x :: x in between ==> !EndsSweep(x, i)
    requires id in Run(Next(Run(INITIAL, before), Select(i, id)), between).table
    ensures var s := Run(Next(Run(INITIAL, before), Select(i, id)), between);
            && Enabled(s, Delete(i))
            && var t := Next(s, Delete(i));
            && |t.settled| == |s.settled| + 1 && t.settled[|s.settled|].who == i && t.settled[|s.settled|].id == id
            && id in t.removed
            && (t.settled[|s.settled|].row == t.removed[id].row <==> !exists x :: x in between && BidsOn(x, id))
  {
    var s0 := Run(INITIAL, before);
    var s1 := Next(s0, Select(i, id));
    OutdatedIffHit(INITIAL, before);
    StepKeepsRows(s0, Select(i, id));
    StepStaysFaithful(s0, Select(i, id));
    OutdatedIffHit(s1, between);
    HitIffBidBetween(s1, between, i, id);
  }

  /** The row after the bids among the steps. */
  function RowAfter(row: Row, steps: seq<Step>, id: AuctionId): Row
    decreases |steps|
  {
    if steps == [] then row else RowAfter(if BidsOn(steps[0], id) then steps[0].row else row, steps[1..], id)
  }

  lemma TableStep(s: State, step: Step, id: AuctionId)
    requires Rows(s) && Enabled(s, step) && id in s.table && id in Next(s, step).table
    ensures Next(s, step).table[id] == if BidsOn(step, id) then step.row else s.table[id]
  {
  }

  lemma {:induction false} TableFollowsBids(s: State, steps: seq<Step>, id: AuctionId)
    requires Rows(s) && Runs(s, steps) && id in s.table && id in Run(s, steps).table
    ensures Run(s, steps).table[id] == RowAfter(s.table[id], steps, id)
    decreases |steps|
  {
    if steps != [] {
      var t := Next(s, steps[0]);
      StepKeepsRows(s, steps[0]);
      if id !in t.table {
        GoneStaysGone(t, steps[1..], id);
        assert false;
      } else {
        TableStep(s, steps[0], id);
        TableFollowsBids(t, steps[1..], id);
      }
    }
  }

  /** Whether or not bids rise: the settlement uses the row of the SELECT, while the DELETE takes the last bid's. */
  lemma SettlesOnTheSelectedRow(s: State, i: Instance, id: AuctionId, between: seq<Step>)
    requires Rows(s) && Enabled(s, Select(i, id)) && id in s.table
    requires Runs(Next(s, Select(i, id)), between) && (forall x :: x in between ==> !EndsSweep(x, i))
    requires id in Run(Next(s, Select(i, id)), between).table
    ensures var s2 := Run(Next(s, Select(i, id)), between);
            && Enabled(s2, Delete(i))
            && var t := Next(s2, Delete(i));
            && t.settled == s2.settled + [Settlement(i, id, s.table[id])]
            && id in t.removed && t.removed[id].row == RowAfter(s.table[id], between, id)
  {
    var s1 := Next(s, Select(i, id));
    StepKeepsRows(s, Select(i, id));
    HitIffBidBetween(s1, between, i, id);
    TableFollowsBids(s1, between, id);
  }

  /** The failing case happens: the sale is settled on the row of the SELECT. */
  lemma LateBidIsMissed(i: Instance, id: AuctionId)
    ensures exists steps ::
      Runs(INITIAL, steps) && var s := Run(INITIAL, steps);
      |s.settled| == 1 && id in s.removed && s.settled[0].id == id && s.settled[0].row != s.removed[id].row
  {
    var s2 := Next(Next(INITIAL, List(i, id)), Begin(i, {id}));
    assert (i, id) in s2.todo && PhaseOf(s2, i).Idle? && s2.table == map[id := Row(0, 0)] && s2.settled == [];
    LateBidSteps(s2, i, id);
    var rest := [Select(i, id)] + ([Bid(id, Row(9, 100))] + ([Delete(i)] + []));
    RunCons(Next(INITIAL, List(i, id)), Begin(i, {id}), rest);
    RunCons(INITIAL, List(i, id), [Begin(i, {id})] + rest);
  }

  lemma LateBidSteps(s: State, i: Instance, id: AuctionId)
    requires Enabled(s, Select(i, id)) && s.table == map[id := Row(0, 0)] && s.settled == []
    ensures var steps := [Select(i, id)] + ([Bid(id, Row(9, 100))] + ([Delete(i)] + []));
            && Runs(s, steps) && var t := Run(s, steps);
            && |t.settled| == 1 && id in t.removed && t.settled[0].id == id && t.settled[0].row != t.removed[id].row
  {
    var s1 := Next(s, Select(i, id));
    var s2 := Next(s1, Bid(id, Row(9, 100)));
    assert s2.phase[i] == Holding(id, Row(0, 0)) && s2.table[id] == Row(9, 100);
    RunCons(s2, Delete(i), []);
    RunCons(s1, Bid(id, Row(9, 100)), [Delete(i)] + []);
    RunCons(s, Select(i, id), [Bid(id, Row(9, 100))] + ([Delete(i)] + []));
  }

  lemma RunCons(s: State, step: Step, rest: seq<Step>)
    requires Enabled(s, step) && Runs(Next(s, step), rest)
    ensures Runs(s, [step] + rest) && Run(s, [step] + rest) == Run(Next(s, step), rest)
  {
    assert ([step] + rest)[1..] == rest;
  }

  // ----- when a sale's DELETE finds no row -----

  /** The step is a DELETE of the row. */
  predicate Takes(s: State, step: Step, id: AuctionId) {
    match step
    case Delete(i) => PhaseOf(s, i).Holding? && PhaseOf(s, i).id == id
    case DeleteReplyLost(i) => PhaseOf(s, i).Holding? && PhaseOf(s, i).id == id
    case Remove(sale, _) => sale.id == id
    case _ => false
  }

  ghost predicate TakenIn(s: State, steps: seq<Step>, id: AuctionId)
    requires Runs(s, steps)
    decreases |steps|
  {
    steps != [] && (Takes(s, steps[0], id) || TakenIn(Next(s, steps[0]), steps[1..], id))
  }

  lemma RowGoneStep(s: State, step: Step, id: AuctionId)
    requires Rows(s) && Enabled(s, step) && id in s.listed
    ensures id !in Next(s, step).table <==> id !in s.table || Takes(s, step, id)
    ensures id in Next(s, step).listed
  {
  }

  /** A listed row leaves the table if and only if some DELETE takes it. */
  lemma {:induction false} RowGoneIffTaken(s: State, steps: seq<Step>, id: AuctionId)
    requires Rows(s) && Runs(s, steps) && id in s.listed
    ensures id !in Run(s, steps).table <==> id !in s.table || TakenIn(s, steps, id)
    decreases |steps|
  {
    if steps != [] {
      StepKeepsRows(s, steps[0]);
      RowGoneStep(s, steps[0], id);
      RowGoneIffTaken(Next(s, steps[0]), steps[1..], id);
    }
  }

  /**
   The race behind a double payout: the DELETE of a cancel or buyout finds no row if and only if the row was gone when
   its mails went out, or a sweep or another cancel or buyout deleted it before this one did.
   */
  lemma MissesIffTakenBetween(s: State, sale: Sale, between: seq<Step>, answered: bool)
    requires Rows(s) && Enabled(s, Mail(sale)) && Runs(Next(s, Mail(sale)), between)
    requires sale in Run(Next(s, Mail(sale)), between).sales
    ensures var s1 := Next(s, Mail(sale));
            var t := Run(s1, between);
            Next(t, Remove(sale, answered)).missed[sale.id] == t.missed[sale.id] + 1
            <==> sale.id !in s.table || TakenIn(s1, between, sale.id)
  {
    StepKeepsRows(s, Mail(sale));
    assert (sale.who, sale.id) in s.cached;
    RowGoneIffTaken(Next(s, Mail(sale)), between, sale.id);
  }

  // ----- the failing cases -----

  lemma TwoMails(i: Instance, id: AuctionId, a: Sale, b: Sale)
    requires a == Sale(Buyout, i, id, 0) && b == Sale(Cancel, i, id, 1)
    ensures var steps := [List(i, id)] + ([Mail(a)] + ([Mail(b)] + []));
            && Runs(INITIAL, steps) && Run(INITIAL, steps).sales == {a, b} && Payouts(Run(INITIAL, steps), id) == 2
  {
    var s1 := Next(INITIAL, List(i, id));
    var s2 := Next(s1, Mail(a));
    RunCons(s2, Mail(b), []);
    RunCons(s1, Mail(a), [Mail(b)] + []);
    RunCons(INITIAL, List(i, id), [Mail(a)] + ([Mail(b)] + []));
  }

  /** The DELETEs that follow change neither the payouts nor, in the end, leave anything open. */
  lemma TwoRemoves(s: State, steps: seq<Step>, a: Sale, b: Sale)
    requires Runs(s, steps) && a != b && Run(s, steps).sales == {a, b} && a.id == b.id
    ensures var all := steps + [Remove(a, true)] + [Remove(b, true)];
            && Runs(s, all) && Open(Run(s, all), a.id) == {} && Payouts(Run(s, all), a.id) == Payouts(Run(s, steps), a.id)
  {
    RunSnoc(s, steps, Remove(a, true));
    RunSnoc(s, steps + [Remove(a, true)], Remove(b, true));
  }

  /** No statement fails, and yet: a buyout and a cancel both mail before either deletes. */
  lemma PaidTwiceHappens(i: Instance, id: AuctionId)
    ensures exists steps :: Runs(INITIAL, steps) && NoFailures(steps)
              && Payouts(Run(INITIAL, steps), id) == 2 && Open(Run(INITIAL, steps), id) == {}
  {
    var a, b := Sale(Buyout, i, id, 0), Sale(Cancel, i, id, 1);
    var steps := [List(i, id)] + ([Mail(a)] + ([Mail(b)] + []));
    TwoMails(i, id, a, b);
    TwoRemoves(INITIAL, steps, a, b);
    assert NoFailures(steps + [Remove(a, true)] + [Remove(b, true)]);
  }

  lemma Candidate(i: Instance, id: AuctionId)
    ensures var steps := [List(i, id)] + ([Begin(i, {id})] + ([Select(i, id)] + []));
            && Runs(INITIAL, steps) && var s := Run(INITIAL, steps);
            && s.phase == map[i := Holding(id, Row(0, 0))] && s.table == map[id := Row(0, 0)] && s.todo == {}
            && s.cached == {(i, id)} && s.sales == {} && s.listed == {id} && s.removed == map[] && Payouts(s, id) == 0
  {
    var s1 := Next(INITIAL, List(i, id));
    var s2 := Next(s1, Begin(i, {id}));
    assert s2.todo == {(i, id)};
    RunCons(s2, Select(i, id), []);
    RunCons(s1, Begin(i, {id}), [Select(i, id)] + []);
    RunCons(INITIAL, List(i, id), [Begin(i, {id})] + ([Select(i, id)] + []));
  }

  lemma {:induction false} RunSnoc(s: State, steps: seq<Step>, step: Step)
    requires Runs(s, steps) && Enabled(Run(s, steps), step)
    ensures Runs(s, steps + [step]) && Run(s, steps + [step]) == Next(Run(s, steps), step)
    decreases |steps|
  {
    if steps == [] {
      assert steps + [step] == [step] + [];
      RunCons(s, step, []);
    } else {
      RunSnoc(Next(s, steps[0]), steps[1..], step);
      assert steps + [step] == [steps[0]] + (steps[1..] + [step]);
      RunCons(s, steps[0], steps[1..] + [step]);
    }
  }

  /** A DELETE whose reply is lost leaves an auction gone and never paid out. */
  lemma LostReplyPaysNobody(i: Instance, id: AuctionId)
    ensures exists steps :: Runs(INITIAL, steps) && var s := Run(INITIAL, steps);
              id in s.listed && id !in s.table && Payouts(s, id) == 0
  {
    var steps := [List(i, id)] + ([Begin(i, {id})] + ([Select(i, id)] + []));
    Candidate(i, id);
    RunSnoc(INITIAL, steps, DeleteReplyLost(i));
    var s := Run(INITIAL, steps + [DeleteReplyLost(i)]);
    assert id in s.listed && id !in s.table && Payouts(s, id) == 0;
  }

  lemma OnlyCandidate(s: State, i: Instance, id: AuctionId)
    requires s.phase == map[i := Holding(id, Row(0, 0))] && s.table == map[id := Row(0, 0)] && s.todo == {}
    requires s.cached == {(i, id)} && s.sales == {} && s.listed == {id} && s.removed == map[]
    ensures Abandoned(Next(s, DeleteFails(i)), id)
  {
    assert Open(s, id) == {};
    FailingDeleteAbandons(s, i);
  }

  /** A DELETE that fails abandons an auction. */
  lemma AbandonedHappens(i: Instance, id: AuctionId)
    ensures exists steps :: Runs(INITIAL, steps) && Abandoned(Run(INITIAL, steps), id)
  {
    var steps := [List(i, id)] + ([Begin(i, {id})] + ([Select(i, id)] + []));
    Candidate(i, id);
    OnlyCandidate(Run(INITIAL, steps), i, id);
    RunSnoc(INITIAL, steps, DeleteFails(i));
    assert Abandoned(Run(INITIAL, steps + [DeleteFails(i)]), id);
  }
}

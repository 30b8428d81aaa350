/** Managers and their branches: what a manager's calls can and cannot touch. */
module BranchScopes {
  import opened Options
  import opened Money
  import opened Calendar
  import opened Ledger
  import opened Books
  import opened BookTheorems
  import opened Expenses

  /** A journal, an expense or a deletion by a manager of the branch. */
  predicate ByManagerOf(e: Event, branch: string) {
    match e.call
    case PostJournal(_, actor, _) => !actor.isAdmin && actor.branch == Some(branch)
    case CreateExpense(_, _, _, user) => !user.isAdmin && user.branch == Some(branch)
    case DeleteExpense(_, user) => !user.isAdmin && user.branch == Some(branch)
    case _ => false
  }

  function InOtherBranch(branch: string): Selection {
    (e: Entry) => e.branch != branch
  }

  lemma ManagerBranch(requested: Option<string>, user: Actor)
    requires !user.isAdmin && user.branch.Some?
    ensures ResolvedBranch(requested, user).Ok? ==> ResolvedBranch(requested, user).value == user.branch.value
    ensures ExpenseBranch(requested, user) == Ok(user.branch.value)
  {
  }

  /** The branch of an expense: an admin's is the one named, a manager's the own one whatever is named. */
  lemma ExpenseBranchIff(requested: Option<string>, user: Actor, branch: string)
    ensures ExpenseBranch(requested, user) == Ok(branch)
      <==> if user.isAdmin then requested == Some(branch) else user.branch == Some(branch)
  {
  }

  /** Every row that a manager's call adds is of the manager's branch, whatever branch it asks for. */
  lemma {:induction false} AddedInOwnBranch(w: World, e: Event, branch: string)
    requires ByManagerOf(e, branch)
    ensures forall r | r in Added(w, e) :: r.branch == branch
  {
    if e.call.PostJournal? && Added(w, e) != [] {
      ManagerBranch(e.call.dto.branch, e.call.actor);
      var t := EntryText(e);
      LineRowsShareDate(e.call.dto.lines, branch, t.stored, NextNumber(w.db, ReadYear(t)), e.call.voucherId);
    } else if e.call.CreateExpense? {
      ManagerBranch(e.call.requested, e.call.user);
    }
  }

  predicate AllByManagerOf(events: seq<Event>, branch: string) {
    forall i | 0 <= i < |events| :: ByManagerOf(events[i], branch)
  }

  lemma {:induction false} NothingInOtherBranches(w: World, events: seq<Event>, branch: string)
    requires AllByManagerOf(events, branch)
    ensures NeverAdds(w, events, InOtherBranch(branch))
    decreases |events|
  {
    if events != [] {
      AddedInOwnBranch(w, events[0], branch);
      forall i | 0 <= i < |Added(w, events[0])| ensures !InOtherBranch(branch)(Added(w, events[0])[i]) {
        assert Added(w, events[0])[i] in Added(w, events[0]);
      }
      NothingInOtherBranches(Next(w, events[0]), events[1..], branch);
    }
  }

  /** Managers stay in their branch: over every run of calls by managers of one branch, the rows of
      every other branch are as they were, less those under a deleted reference. */
  lemma {:induction false} ManagersStayInBranch(w: World, events: seq<Event>, branch: string)
    requires AllByManagerOf(events, branch)
    ensures Where(After(w, events).db.ledger, InOtherBranch(branch))
      == Without(Where(w.db.ledger, InOtherBranch(branch)), RunDeleted(w, events))
  {
    NothingInOtherBranches(w, events, branch);
    SelectionOnlyShrinks(w, events, InOtherBranch(branch));
  }

  predicate NewIds(w: World, events: seq<Event>)
    decreases |events|
  {
    events == [] || (NewExpenseId(w, events[0]) && NewIds(Next(w, events[0]), events[1..]))
  }

  /** A manager's call leaves the expenses of other branches alone and creates pending ones of its own. */
  lemma {:induction false} OtherExpensesUntouched(w: World, e: Event, branch: string, id: string)
    requires ByManagerOf(e, branch) && NewExpenseId(w, e)
    ensures id in w.db.expenses && w.db.expenses[id].branch != branch ==>
      id in Next(w, e).db.expenses && Next(w, e).db.expenses[id] == w.db.expenses[id]
    ensures id in Next(w, e).db.expenses && id !in w.db.expenses ==>
      e.call.CreateExpense? && Next(w, e).db.expenses[id] == ExpenseRow(branch, Cents(e.call.amount), Pending)
  {
    if e.call.CreateExpense? {
      ExpensesAfterCreate(w, e);
      ManagerBranch(e.call.requested, e.call.user);
    } else if e.call.DeleteExpense? {
      DeletedIff(w, e.call.id, e.call.user);
    } else {
      ExpensesAfterOther(w, e);
    }
  }

  /** Over every run of calls by managers of one branch the expenses of every other branch stay. */
  lemma {:induction false} ManagersSpareOtherExpenses(w: World, events: seq<Event>, branch: string, id: string)
    requires AllByManagerOf(events, branch) && NewIds(w, events)
    requires id in w.db.expenses && w.db.expenses[id].branch != branch
    ensures id in After(w, events).db.expenses && After(w, events).db.expenses[id] == w.db.expenses[id]
    decreases |events|
  {
    if events != [] {
      OtherExpensesUntouched(w, events[0], branch, id);
      ManagersSpareOtherExpenses(Next(w, events[0]), events[1..], branch, id);
    }
  }
}

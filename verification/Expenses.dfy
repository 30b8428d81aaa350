/** Expenses and their ledger rows, which are tied together only by an eight-character reference. */
module Expenses {
  import opened Options
  import opened Text
  import opened Money
  import opened Calendar
  import opened Ledger
  import opened Books
  import opened BookTheorems
  import opened Chokepoint
  import FiscalCache

  /** The row is the posting of the expense. */
  predicate RowOf(row: Entry, id: string, x: ExpenseRow) {
    && row.reference == ExpenseReference(id)
    && row.branch == x.branch && row.cents == x.cents && row.side == Debit && row.voucher.None?
  }

  /** Live expenses have different references: their first eight characters differ. */
  predicate DistinctReferences(w: World) {
    forall a, b | a in w.db.expenses && b in w.db.expenses && a != b :: ExpenseReference(a) != ExpenseReference(b)
  }

  /** Each row under an expense reference is the posting of a live expense. */
  predicate AllMatched(w: World) {
    forall row | row in w.db.ledger && IsExpenseReference(row.reference) ::
      exists id | id in w.db.expenses :: RowOf(row, id, w.db.expenses[id])
  }

  /** No two rows share an expense reference. */
  predicate AllSingle(rows: seq<Entry>) {
    forall i, j | 0 <= i < j < |rows| && IsExpenseReference(rows[i].reference) :: rows[i].reference != rows[j].reference
  }

  predicate Matched(w: World) {
    AllMatched(w) && AllSingle(w.db.ledger)
  }

  /** A new expense id is new in its first eight characters. */
  predicate FreshExpense(w: World, e: Event) {
    e.call.CreateExpense? ==>
      forall id | id in w.db.expenses :: ExpenseReference(id) != ExpenseReference(e.call.id)
  }

  predicate FreshExpenses(w: World, events: seq<Event>)
    decreases |events|
  {
    events == [] ||
    (SystemPosting(events[0]) && FreshExpense(w, events[0]) && FreshExpenses(Next(w, events[0]), events[1..]))
  }

  lemma {:induction false} WhereKeepsUnique(rows: seq<Entry>, keep: Selection)
    requires AllSingle(rows)
    ensures AllSingle(Where(rows, keep))
  {
    if rows != [] {
      WhereKeepsUnique(rows[1..], keep);
      WhereMembers(rows[1..], keep);
      var kept, rest := Where(rows, keep), Where(rows[1..], keep);
      forall i, j | 0 <= i < j < |kept| && IsExpenseReference(kept[i].reference)
        ensures kept[i].reference != kept[j].reference
      {
        if keep(rows[0]) && i == 0 {
          assert kept[j] == rest[j - 1] && rest[j - 1] in rest;
          assert rest[j - 1] in rows[1..];
          var k :| 0 <= k < |rows[1..]| && rows[1..][k] == rest[j - 1];
          assert rows[k + 1] == rest[j - 1];
        } else if keep(rows[0]) {
          assert kept[i] == rest[i - 1] && kept[j] == rest[j - 1];
        } else {
          assert kept == rest;
        }
      }
    }
  }

  lemma ExpensesAfterCreate(w: World, e: Event)
    requires e.call.CreateExpense?
    ensures var branch := ExpenseBranch(e.call.requested, e.call.user);
      Next(w, e).db.expenses ==
        if branch.Ok? then w.db.expenses[e.call.id := ExpenseRow(branch.value, Cents(e.call.amount), Pending)]
        else w.db.expenses
  {
    var branch := ExpenseBranch(e.call.requested, e.call.user);
    if branch.Ok? {
      ExpenseSaved(w, branch.value, e.call.amount, e.call.id, e.clock);
    }
  }

  /** Other calls than those on expenses leave the expenses alone. */
  lemma ExpensesAfterOther(w: World, e: Event)
    requires !e.call.CreateExpense? && !e.call.DeleteExpense? && !e.call.ReviewExpense?
    ensures Next(w, e).db.expenses == w.db.expenses
  {
    if e.call.Post? {
      PostedLedger(w, e.call.input, e.clock);
    }
  }

  /** What a call does to the expenses it does not name. */
  lemma {:induction false} OtherExpensesStay(w: World, e: Event, id: string)
    requires id in w.db.expenses && !(e.call.DeleteExpense? && e.call.id == id) && !(e.call.CreateExpense? && e.call.id == id)
    ensures id in Next(w, e).db.expenses
    ensures Next(w, e).db.expenses[id].(status := Pending) == w.db.expenses[id].(status := Pending)
  {
    if e.call.CreateExpense? {
      ExpensesAfterCreate(w, e);
    } else if !e.call.DeleteExpense? && !e.call.ReviewExpense? {
      ExpensesAfterOther(w, e);
    }
  }

  lemma NewExpenses(w: World, e: Event, id: string)
    requires id in Next(w, e).db.expenses && id !in w.db.expenses
    ensures e.call.CreateExpense? && e.call.id == id
  {
    if e.call.CreateExpense? {
      ExpensesAfterCreate(w, e);
    } else if !e.call.DeleteExpense? && !e.call.ReviewExpense? {
      ExpensesAfterOther(w, e);
    }
  }

  /** The row that a call adds under an expense reference is that of the expense it creates. */
  lemma AddedExpenseRow(w: World, e: Event, row: Entry)
    requires SystemPosting(e) && row in Added(w, e) && IsExpenseReference(row.reference)
    ensures e.call.CreateExpense? && e.call.id in Next(w, e).db.expenses
    ensures Added(w, e) == [row] && RowOf(row, e.call.id, Next(w, e).db.expenses[e.call.id])
  {
    AddedRows(w, e);
    if e.call.CreateExpense? {
      var branch := ExpenseBranch(e.call.requested, e.call.user);
      ExpenseSaved(w, branch.value, e.call.amount, e.call.id, e.clock);
    }
  }

  lemma NextKeepsDistinct(w: World, e: Event)
    requires DistinctReferences(w) && FreshExpense(w, e)
    ensures DistinctReferences(Next(w, e))
  {
    var w1 := Next(w, e);
    forall a, b | a in w1.db.expenses && b in w1.db.expenses && a != b
      ensures ExpenseReference(a) != ExpenseReference(b)
    {
      if a !in w.db.expenses {
        NewExpenses(w, e, a);
      }
      if b !in w.db.expenses {
        NewExpenses(w, e, b);
      }
    }
  }

  /** Generated expense ids are new. */
  predicate NewExpenseId(w: World, e: Event) {
    e.call.CreateExpense? ==> e.call.id !in w.db.expenses
  }

  lemma KeptRowIsMatched(w: World, e: Event, row: Entry)
    requires AllMatched(w) && NewExpenseId(w, e)
    requires row in Without(w.db.ledger, Deleted(w, e)) && IsExpenseReference(row.reference)
    ensures exists id | id in Next(w, e).db.expenses :: RowOf(row, id, Next(w, e).db.expenses[id])
    ensures exists id | id in w.db.expenses :: row.reference == ExpenseReference(id)
  {
    WhereMembers(w.db.ledger, NotReferenced(Deleted(w, e)));
    var id :| id in w.db.expenses && RowOf(row, id, w.db.expenses[id]);
    if e.call.DeleteExpense? && e.call.id == id {
      assert ExpenseDeleted(w, id, e.call.user).1.Refused?;
      assert Next(w, e) == w;
    } else {
      OtherExpensesStay(w, e, id);
    }
  }

  lemma NextKeepsAllMatched(w: World, e: Event)
    requires AllMatched(w) && SystemPosting(e) && NewExpenseId(w, e)
    ensures AllMatched(Next(w, e))
  {
    LedgerStep(w, e);
    forall row | row in Next(w, e).db.ledger && IsExpenseReference(row.reference)
      ensures exists id | id in Next(w, e).db.expenses :: RowOf(row, id, Next(w, e).db.expenses[id])
    {
      if row in Added(w, e) {
        AddedExpenseRow(w, e, row);
      } else {
        KeptRowIsMatched(w, e, row);
      }
    }
  }

  lemma {:induction false} SingleAppends(rows: seq<Entry>, more: seq<Entry>)
    requires AllSingle(rows) && AllSingle(more)
    requires forall r, s | r in rows && s in more && IsExpenseReference(r.reference) :: r.reference != s.reference
    ensures AllSingle(rows + more)
  {
    var all := rows + more;
    forall i, j | 0 <= i < j < |all| && IsExpenseReference(all[i].reference) ensures all[i].reference != all[j].reference {
      if i < |rows| && j >= |rows| {
        assert all[i] in rows && all[j] in more;
      }
    }
  }

  lemma NextKeepsAllSingle(w: World, e: Event)
    requires DistinctReferences(w) && Matched(w) && SystemPosting(e) && FreshExpense(w, e)
    ensures AllSingle(Next(w, e).db.ledger)
  {
    LedgerStep(w, e);
    var kept, added := Without(w.db.ledger, Deleted(w, e)), Added(w, e);
    WhereKeepsUnique(w.db.ledger, NotReferenced(Deleted(w, e)));
    forall r, s | r in kept && s in added && IsExpenseReference(r.reference) ensures r.reference != s.reference {
      if r.reference == s.reference {
        AddedExpenseRow(w, e, s);
        KeptRowIsMatched(w, e, r);
      }
    }
    AddedRows(w, e);
    if e.call.PostJournal? {
      forall i | 0 <= i < |added| ensures !IsExpenseReference(added[i].reference) {
        assert added[i] in added;
      }
    }
    SingleAppends(kept, added);
  }

  lemma NextKeepsMatched(w: World, e: Event)
    requires DistinctReferences(w) && Matched(w) && SystemPosting(e) && FreshExpense(w, e)
    ensures Matched(Next(w, e))
  {
    NextKeepsAllMatched(w, e);
    NextKeepsAllSingle(w, e);
  }

  /** Correspondence over runs: as long as live expenses differ in their first eight
      characters, every row under an expense reference is the posting of exactly one live
      expense, with its branch and amount, and an expense has at most one row. */
  lemma {:induction false} RowsMatchLiveExpenses(w: World, events: seq<Event>)
    requires DistinctReferences(w) && Matched(w) && FreshExpenses(w, events)
    ensures Matched(After(w, events)) && DistinctReferences(After(w, events))
    decreases |events|
  {
    if events != [] {
      NextKeepsDistinct(w, events[0]);
      NextKeepsMatched(w, events[0]);
      RowsMatchLiveExpenses(Next(w, events[0]), events[1..]);
    }
  }

  lemma {:induction false} AtMostOneRemoved(rows: seq<Entry>, reference: string)
    requires IsExpenseReference(reference)
    requires AllSingle(rows)
    ensures |rows| - 1 <= |Without(rows, {reference})| <= |rows|
  {
    if rows != [] {
      if rows[0].reference == reference {
        forall i | 0 <= i < |rows[1..]| ensures rows[1..][i].reference != reference {
          assert rows[1..][i] == rows[i + 1];
        }
        WhereKeepsAll(rows[1..], NotReferenced({reference}));
      } else {
        AtMostOneRemoved(rows[1..], reference);
      }
    }
  }

  /** Deleting an expense takes at most one row, its own posting: every journal line and every
      row of another reference stays, in order. */
  lemma DeletionTakesOwnRowOnly(w: World, id: string, user: Actor, keep: Selection)
    requires DistinctReferences(w) && Matched(w) && ExpenseDeleted(w, id, user).1.Done?
    requires forall row :: keep(row) ==> row.reference != ExpenseReference(id)
    ensures var ledger := ExpenseDeleted(w, id, user).0.db.ledger;
            && |w.db.ledger| - 1 <= |ledger| <= |w.db.ledger|
            && (forall row | row in w.db.ledger && row !in ledger :: RowOf(row, id, w.db.expenses[id]))
            && Where(ledger, keep) == Where(w.db.ledger, keep)
  {
    var reference, ledger := ExpenseReference(id), ExpenseDeleted(w, id, user).0.db.ledger;
    ExpenseReferenceIsOne(id);
    AtMostOneRemoved(w.db.ledger, reference);
    WhereMembers(w.db.ledger, NotReferenced({reference}));
    forall row | row in w.db.ledger && row !in ledger ensures RowOf(row, id, w.db.expenses[id]) {
      var owner :| owner in w.db.expenses && RowOf(row, owner, w.db.expenses[owner]);
      assert owner == id;
    }
    WhereCommutes(w.db.ledger, NotReferenced({reference}), keep);
    WhereMembers(w.db.ledger, keep);
    WhereKeepsAll(Where(w.db.ledger, keep), NotReferenced({reference}));
  }

  /** The converse of the correspondence: creating an expense always saves it, and posts its
      row exactly when this month is open. */
  lemma ExpensePostedIff(w: World, requested: Option<string>, amount: real, id: string, user: Actor, clock: Clock)
    requires Coherent(w) && clock.now >= FiscalCache.CACHE_TTL_MS && ExpenseBranch(requested, user).Ok?
    requires CodesMatch(w)
    ensures var (w1, outcome) := ExpenseCreated(w, requested, amount, id, user, clock);
            && id in w1.db.expenses
            && w1.db.expenses[id] == ExpenseRow(ExpenseBranch(requested, user).value, Cents(amount), Pending)
            && (PeriodOf(clock.today) !in w.db.locks ==>
                  exists row :: RowOf(row, id, w1.db.expenses[id]) && w1.db.ledger == w.db.ledger + [row])
            && (PeriodOf(clock.today) in w.db.locks ==> w1.db.ledger == w.db.ledger && outcome == Refused(PeriodLocked))
  {
    AssertOpenIsExact(w, DateOrToday(None, clock), clock.now);
    var branch := ExpenseBranch(requested, user).value;
    var input := ExpenseInput(branch, amount, id);
    ExpenseSaved(w, branch, amount, id, clock);
    LookUpIsExact(w, PostingCode(input));
    var rows := PostedRow(w, input, clock);
    if PeriodOf(clock.today) !in w.db.locks {
      assert rows != [];
      assert RowOf(rows[0], id, ExpenseCreated(w, requested, amount, id, user, clock).0.db.expenses[id]);
    }
  }

  // Expenses that share their first eight characters.

  predicate NewExpenseIds(w: World, events: seq<Event>)
    decreases |events|
  {
    events == [] ||
    (SystemPosting(events[0]) && NewExpenseId(w, events[0]) && NewExpenseIds(Next(w, events[0]), events[1..]))
  }

  /** Over runs whose expense ids are new, though perhaps not in their first eight characters,
      every row under an expense reference is still the posting of some live expense. */
  lemma {:induction false} RowsBelongToLiveExpenses(w: World, events: seq<Event>)
    requires AllMatched(w) && NewExpenseIds(w, events)
    ensures AllMatched(After(w, events))
    decreases |events|
  {
    if events != [] {
      NextKeepsAllMatched(w, events[0]);
      RowsBelongToLiveExpenses(Next(w, events[0]), events[1..]);
    }
  }

  predicate HasRow(w: World, id: string) {
    id in w.db.expenses && exists row | row in w.db.ledger :: RowOf(row, id, w.db.expenses[id])
  }

  lemma RowAfterDeletion(w: World, id: string, user: Actor, other: string)
    requires ExpenseDeleted(w, id, user).1.Done? && HasRow(w, other) && other != id
    ensures HasRow(ExpenseDeleted(w, id, user).0, other) <==> ExpenseReference(other) != ExpenseReference(id)
  {
    WhereMembers(w.db.ledger, NotReferenced({ExpenseReference(id)}));
    var row :| row in w.db.ledger && RowOf(row, other, w.db.expenses[other]);
    if ExpenseReference(other) != ExpenseReference(id) {
      assert row in ExpenseDeleted(w, id, user).0.db.ledger;
    }
  }

  /** Deleting an expense leaves every other expense the row it has exactly when none of them
      shares its first eight characters. */
  lemma {:induction false} DeletionSparesOthersIff(w: World, id: string, user: Actor)
    requires ExpenseDeleted(w, id, user).1.Done?
    ensures (forall other | other != id && HasRow(w, other) :: HasRow(ExpenseDeleted(w, id, user).0, other))
      <==> (forall other | other != id && HasRow(w, other) :: ExpenseReference(other) != ExpenseReference(id))
  {
    forall other | other != id && HasRow(w, other)
      ensures HasRow(ExpenseDeleted(w, id, user).0, other) <==> ExpenseReference(other) != ExpenseReference(id)
    {
      RowAfterDeletion(w, id, user, other);
    }
  }

  lemma SameFirstEight(a: string, b: string)
    requires |a| >= 8 && |b| >= 8 && a[..8] == b[..8]
    ensures ExpenseReference(a) == ExpenseReference(b)
  {
  }

  predicate NoCapitals(s: string) {
    forall i | 0 <= i < |s| :: !('A' <= s[i] <= 'Z')
  }

  lemma UpperIsInjective(a: string, b: string)
    requires |a| == |b| && NoCapitals(a) && NoCapitals(b) && Upper(a) == Upper(b)
    ensures a == b
  {
    forall i | 0 <= i < |a| ensures a[i] == b[i] {
      assert UpperChar(a[i]) == Upper(a)[i] == Upper(b)[i] == UpperChar(b[i]);
    }
  }

  /** Ids in lower case, as they are generated, share a reference exactly when their first eight
      characters are the same. */
  lemma {:induction false} SharedReferenceIff(a: string, b: string)
    requires |a| >= 8 && |b| >= 8 && NoCapitals(a) && NoCapitals(b)
    ensures ExpenseReference(a) == ExpenseReference(b) <==> a[..8] == b[..8]
  {
    var ra, rb := ExpenseReference(a), ExpenseReference(b);
    assert ra[4..] == Upper(a[..8]) && rb[4..] == Upper(b[..8]);
    if ra == rb {
      UpperIsInjective(a[..8], b[..8]);
    }
  }

  /** Nothing stands in the way of posting today. */
  predicate Ready(w: World, clock: Clock) {
    Coherent(w) && CodesMatch(w) && clock.now >= FiscalCache.CACHE_TTL_MS && PeriodOf(clock.today) !in w.db.locks
  }

  /** An expense with this id, created by somebody who may. */
  predicate Creates(e: Event, id: string) {
    e.call.CreateExpense? && e.call.id == id && ExpenseBranch(e.call.requested, e.call.user).Ok?
  }

  lemma CreationTables(w: World, e: Event, id: string)
    requires Creates(e, id)
    ensures Next(w, e).db.locks == w.db.locks && Next(w, e).db.expenses.Keys == w.db.expenses.Keys + {id}
  {
    ExpensesAfterCreate(w, e);
    CreatedKeepsLocks(w, e);
  }

  lemma {:induction false} CreationStep(w: World, e: Event, id: string, clock: Clock)
    requires Creates(e, id) && Ready(w, clock)
    ensures Ready(Next(w, e), clock) && Next(w, e).db.expenses.Keys == w.db.expenses.Keys + {id}
  {
    CreationTables(w, e, id);
    NextKeepsCoherent(w, e);
    NextKeepsCodesMatch(w, e);
  }

  lemma CreationHasRow(w: World, e: Event, id: string)
    requires Creates(e, id) && Ready(w, e.clock)
    ensures HasRow(Next(w, e), id)
  {
    var w1 := ExpenseCreated(w, e.call.requested, e.call.amount, id, e.call.user, e.clock).0;
    ExpensePostedIff(w, e.call.requested, e.call.amount, id, e.call.user, e.clock);
    var row :| RowOf(row, id, w1.db.expenses[id]) && w1.db.ledger == w.db.ledger + [row];
    assert w1.db.ledger[|w.db.ledger|] == row;
  }

  lemma AfterTwo(w: World, a: Event, b: Event)
    ensures After(w, [a, b]) == Next(Next(w, a), b)
  {
    var w1, rest := Next(w, a), [b];
    assert [a, b][1..] == rest && rest[1..] == [];
    assert After(w1, rest) == After(Next(w1, b), rest[1..]);
  }

  lemma AfterThree(w: World, a: Event, b: Event, c: Event)
    ensures After(w, [a, b, c]) == Next(After(w, [a, b]), c)
  {
    assert [a, b, c][1..] == [b, c];
    AfterTwo(Next(w, a), b, c);
    AfterTwo(w, a, b);
  }

  lemma {:induction false} CreationRun(w: World, first: Event, second: Event, a: string, b: string)
    requires Creates(first, a) && Creates(second, b) && Ready(w, second.clock)
    ensures a in After(w, [first, second]).db.expenses && HasRow(After(w, [first, second]), b)
  {
    AfterTwo(w, first, second);
    CreationStep(w, first, a, second.clock);
    var w1 := Next(w, first);
    CreationTables(w1, second, b);
    CreationHasRow(w1, second, b);
  }

  lemma DeletionTakesSharedRow(w: World, e: Event, a: string, b: string)
    requires a in w.db.expenses && HasRow(w, b) && a != b && ExpenseReference(a) == ExpenseReference(b)
    requires e.call.DeleteExpense? && e.call.id == a && e.call.user.isAdmin
    ensures b in Next(w, e).db.expenses && !HasRow(Next(w, e), b)
  {
    RowAfterDeletion(w, a, e.call.user, b);
  }

  /** Two expenses whose ids agree on eight characters, created in an open month; an admin then
      deletes the first. That takes the row of the second, which stays live without one. */
  lemma {:induction false} CollidingExpenseLosesRow(
      w: World, first: Event, second: Event, deletion: Event, a: string, b: string)
    requires a != b && |a| >= 8 && |b| >= 8 && a[..8] == b[..8]
    requires Creates(first, a) && Creates(second, b) && Ready(w, second.clock)
    requires deletion.call.DeleteExpense? && deletion.call.id == a && deletion.call.user.isAdmin
    ensures a in After(w, [first, second]).db.expenses && HasRow(After(w, [first, second]), b)
    ensures var after := After(w, [first, second, deletion]);
            b in after.db.expenses && !HasRow(after, b)
  {
    CreationRun(w, first, second, a, b);
    SameFirstEight(a, b);
    AfterThree(w, first, second, deletion);
    DeletionTakesSharedRow(After(w, [first, second]), deletion, a, b);
  }

  // Who may do what to an expense, and what becomes of it.

  /** A deletion is done exactly for an expense that exists and, by a manager, is pending and of
      the manager's own branch; otherwise nothing changes. */
  lemma DeletedIff(w: World, id: string, user: Actor)
    ensures var (w1, outcome) := ExpenseDeleted(w, id, user);
            && (outcome.Done? <==>
                  id in w.db.expenses
                  && (user.isAdmin || (user.branch == Some(w.db.expenses[id].branch) && w.db.expenses[id].status == Pending)))
            && (outcome.Done? ==> w1.db.expenses == map x | x in w.db.expenses && x != id :: w.db.expenses[x])
            && (outcome.Refused? ==> w1 == w)
  {
  }

  /** The call reviews the expense. */
  predicate Reviews(e: Event, id: string, verdict: ExpenseStatus) {
    e.call == ReviewExpense(id, verdict)
  }

  /** A review changes the status of a pending expense to its verdict, once: of one that has a
      verdict it changes nothing. */
  lemma {:induction false} ReviewDecides(w: World, e: Event, id: string, verdict: ExpenseStatus)
    requires Reviews(e, id, verdict) && id in w.db.expenses
    ensures Next(w, e).db.expenses == w.db.expenses[id := w.db.expenses[id].(
      status := if w.db.expenses[id].status == Pending then verdict else w.db.expenses[id].status)]
  {
    if w.db.expenses[id].status != Pending {
      assert w.db.expenses[id := w.db.expenses[id]] == w.db.expenses;
    }
  }

  predicate DeletesExpense(e: Event, id: string) {
    e.call.DeleteExpense? && e.call.id == id
  }

  predicate KeepsExpense(w: World, events: seq<Event>, id: string)
    decreases |events|
  {
    events == [] ||
    (!DeletesExpense(events[0], id) && NewExpenseId(w, events[0]) && KeepsExpense(Next(w, events[0]), events[1..], id))
  }

  lemma {:induction false} VerdictStays(w: World, e: Event, id: string)
    requires id in w.db.expenses && w.db.expenses[id].status != Pending && !DeletesExpense(e, id) && NewExpenseId(w, e)
    ensures id in Next(w, e).db.expenses && Next(w, e).db.expenses[id] == w.db.expenses[id]
  {
    if e.call.CreateExpense? {
      ExpensesAfterCreate(w, e);
    } else if !e.call.DeleteExpense? && !e.call.ReviewExpense? {
      ExpensesAfterOther(w, e);
    }
  }

  /** A verdict is final: over every run that does not delete the expense it keeps status, branch
      and amount. */
  lemma {:induction false} VerdictIsFinal(w: World, events: seq<Event>, id: string)
    requires id in w.db.expenses && w.db.expenses[id].status != Pending && KeepsExpense(w, events, id)
    ensures id in After(w, events).db.expenses && After(w, events).db.expenses[id] == w.db.expenses[id]
    decreases |events|
  {
    if events != [] {
      VerdictStays(w, events[0], id);
      VerdictIsFinal(Next(w, events[0]), events[1..], id);
    }
  }
}

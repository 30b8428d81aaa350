/** The `total` a voucher is stored with, against the ledger rows it is stored beside. */
module VoucherTotals {
  import opened Options
  import opened Money
  import opened Calendar
  import opened Sums
  import opened Ledger
  import opened Books
  import opened BookTheorems

  /** One for each row of the side. */
  function CountOf(side: Side): Entry -> int {
    (e: Entry) => if e.side == side then 1 else 0
  }

  function OfVoucher(id: string): Selection {
    (e: Entry) => e.voucher == Some(id)
  }

  /** The total is off the sum of the selected rows of a side by nothing, or by at most half a cent a row. */
  predicate SideWithin(total: int, rows: seq<Entry>, keep: Selection, side: Side, exact: bool) {
    var sum, count := Sum(rows, keep, Of(side)), Sum(rows, keep, CountOf(side));
    if exact then total == sum else -count <= 2 * (total - sum) <= count
  }

  predicate TotalWithin(total: int, rows: seq<Entry>, keep: Selection, exact: bool) {
    SideWithin(total, rows, keep, Debit, exact) && SideWithin(total, rows, keep, Credit, exact)
  }

  /** A journal, if it is one, in whole cents. */
  predicate WholeCentCall(e: Event) {
    e.call.PostJournal? ==> forall i | 0 <= i < |e.call.dto.lines| :: WholeCents(e.call.dto.lines[i].amount)
  }

  lemma {:induction false} LineRowsSums(
      lines: seq<Line>, branch: string, date: Date, number: string, voucherId: string, side: Side)
    ensures var rows := LineRows(lines, branch, date, number, voucherId);
            && Sum(rows, Everything(), Of(side)) == SumOfCents(Amounts(lines, side))
            && Sum(rows, Everything(), CountOf(side)) == |Amounts(lines, side)|
  {
    if lines != [] {
      var rows := LineRows(lines, branch, date, number, voucherId);
      assert rows[1..] == LineRows(lines[1..], branch, date, number, voucherId);
      LineRowsSums(lines[1..], branch, date, number, voucherId, side);
      AmountsCons(lines, side);
    }
  }

  /** The rounded sum of one side is off its rounded terms by its carry. */
  lemma SumWithin(amounts: seq<real>, total: int)
    requires total == Cents(Total(amounts))
    ensures total - SumOfCents(amounts) == Carry(amounts)
    ensures -|amounts| <= 2 * (total - SumOfCents(amounts)) <= |amounts|
  {
    RoundedSum(amounts);
    CarryBound(amounts);
  }

  predicate AddsVoucher(w: World, e: Event) {
    Next(w, e).db.vouchers != w.db.vouchers
  }

  lemma PostedKeepsVouchers(w: World, input: PostInput, clock: Clock)
    ensures Posted(w, input, clock).0.db.vouchers == w.db.vouchers
  {
    PostedLedger(w, input, clock);
  }

  lemma CreatedKeepsVouchers(w: World, e: Event)
    requires e.call.CreateExpense?
    ensures Next(w, e).db.vouchers == w.db.vouchers
  {
    var branch := ExpenseBranch(e.call.requested, e.call.user);
    if branch.Ok? {
      ExpenseSaved(w, branch.value, e.call.amount, e.call.id, e.clock);
    }
  }

  /** Only an accepted journal adds a voucher, and it adds one at the end. */
  lemma {:induction false} VoucherAdded(w: World, e: Event)
    ensures AddsVoucher(w, e) ==>
      && e.call.PostJournal? && Journaled(w, e.call.dto, e.call.actor, e.call.voucherId, e.clock).1.Done?
      && |Next(w, e).db.vouchers| == |w.db.vouchers| + 1
      && Next(w, e).db.vouchers[..|w.db.vouchers|] == w.db.vouchers
  {
    match e.call
    case PostJournal(dto, actor, voucherId) =>
    case Post(input) => PostedKeepsVouchers(w, input, e.clock);
    case CreateExpense(_, _, _, _) => CreatedKeepsVouchers(w, e);
    case _ =>
  }

  /** What is stored for an accepted journal, in terms of its lines. */
  lemma StoredVoucher(w: World, e: Event)
    requires e.call.PostJournal? && Journaled(w, e.call.dto, e.call.actor, e.call.voucherId, e.clock).1.Done?
    ensures |Next(w, e).db.vouchers| == |w.db.vouchers| + 1
    ensures var v, lines := Next(w, e).db.vouchers[|w.db.vouchers|], e.call.dto.lines;
            && v.id == e.call.voucherId
            && v.total == Cents(Total(Amounts(lines, Debit))) == Cents(Total(Amounts(lines, Credit)))
            && Added(w, e) == LineRows(lines, v.branch, v.date, v.number, v.id)
  {
  }

  lemma {:induction false} SideTotal(
      lines: seq<Line>, branch: string, date: Date, number: string, voucherId: string, total: int, side: Side, exact: bool)
    requires total == Cents(Total(Amounts(lines, side)))
    requires exact ==> forall i | 0 <= i < |lines| :: WholeCents(lines[i].amount)
    ensures SideWithin(total, LineRows(lines, branch, date, number, voucherId), Everything(), side, exact)
  {
    LineRowsSums(lines, branch, date, number, voucherId, side);
    SumWithin(Amounts(lines, side), total);
    if exact {
      AmountsWhole(lines, side);
      WholeCentsCarryNothing(Amounts(lines, side));
    }
  }

  /** A new voucher against the rows added with it: they share its branch, date, number and id,
      and its total is off each side of them by at most half a cent a row, by nothing if the
      amounts are whole cents. */
  lemma {:induction false} NewVoucherTotal(w: World, e: Event, exact: bool)
    requires AddsVoucher(w, e) && (exact ==> WholeCentCall(e))
    ensures |Next(w, e).db.vouchers| == |w.db.vouchers| + 1 && e.call.PostJournal?
    ensures var v, rows := Next(w, e).db.vouchers[|w.db.vouchers|], Added(w, e);
            && v.id == e.call.voucherId
            && (forall r | r in rows ::
                  r.branch == v.branch && r.date == v.date && r.reference == v.number && r.voucher == Some(v.id))
            && TotalWithin(v.total, rows, Everything(), exact)
  {
    VoucherAdded(w, e);
    StoredVoucher(w, e);
    var v, lines := Next(w, e).db.vouchers[|w.db.vouchers|], e.call.dto.lines;
    LineRowsShareDate(lines, v.branch, v.date, v.number, v.id);
    SideTotal(lines, v.branch, v.date, v.number, v.id, v.total, Debit, exact);
    SideTotal(lines, v.branch, v.date, v.number, v.id, v.total, Credit, exact);
  }

  // Over runs.

  predicate HasVoucher(vouchers: seq<VoucherRow>, id: string) {
    exists i | 0 <= i < |vouchers| :: vouchers[i].id == id
  }

  /** Voucher lines belong to stored vouchers. */
  predicate LinesHaveVouchers(w: World) {
    forall r | r in w.db.ledger && r.voucher.Some? :: HasVoucher(w.db.vouchers, r.voucher.value)
  }

  /** Every stored total is right for the rows that carry the id of its voucher. */
  predicate TotalsWithin(w: World, exact: bool) {
    forall v | v in w.db.vouchers :: TotalWithin(v.total, w.db.ledger, OfVoucher(v.id), exact)
  }

  predicate TotalsKept(w: World, exact: bool) {
    JournalsSafe(w) && LinesHaveVouchers(w) && TotalsWithin(w, exact)
  }

  /** Generated voucher ids are new, and direct postings are system postings. */
  predicate FreshVoucher(w: World, e: Event) {
    SystemPosting(e) && (e.call.PostJournal? ==> !HasVoucher(w.db.vouchers, e.call.voucherId))
  }

  predicate FreshVouchers(w: World, events: seq<Event>)
    decreases |events|
  {
    events == [] || (FreshVoucher(w, events[0]) && FreshVouchers(Next(w, events[0]), events[1..]))
  }

  lemma HasVoucherExtends(vouchers: seq<VoucherRow>, more: seq<VoucherRow>, id: string)
    requires HasVoucher(vouchers, id) && vouchers <= more
    ensures HasVoucher(more, id)
  {
    var i :| 0 <= i < |vouchers| && vouchers[i].id == id;
    assert more[i].id == id;
  }

  lemma {:induction false} VouchersOnlyGrow(w: World, e: Event)
    ensures w.db.vouchers <= Next(w, e).db.vouchers
  {
    VoucherAdded(w, e);
  }

  /** A voucher line that a call adds is a line of the voucher that it stores. */
  lemma {:induction false} AddedLineHasVoucher(w: World, e: Event, r: Entry)
    requires SystemPosting(e) && r in Added(w, e) && r.voucher.Some?
    ensures e.call.PostJournal? && r.voucher == Some(e.call.voucherId)
    ensures HasVoucher(Next(w, e).db.vouchers, e.call.voucherId)
  {
    AddedRows(w, e);
    if e.call.PostJournal? {
      StoredVoucher(w, e);
      var v := Next(w, e).db.vouchers[|w.db.vouchers|];
      LineRowsShareDate(e.call.dto.lines, v.branch, v.date, v.number, v.id);
    }
  }

  lemma {:induction false} NextKeepsLines(w: World, e: Event)
    requires LinesHaveVouchers(w) && SystemPosting(e)
    ensures LinesHaveVouchers(Next(w, e))
  {
    VouchersOnlyGrow(w, e);
    forall r | r in Next(w, e).db.ledger && r.voucher.Some? ensures HasVoucher(Next(w, e).db.vouchers, r.voucher.value) {
      RowsAfter(w, e, r);
      if r in w.db.ledger {
        HasVoucherExtends(w.db.vouchers, Next(w, e).db.vouchers, r.voucher.value);
      } else {
        AddedLineHasVoucher(w, e, r);
      }
    }
  }

  /** The rows of a voucher after a call: those before it and those added. */
  lemma {:induction false} VoucherRowsAfter(w: World, e: Event, id: string, value: Entry -> int)
    requires JournalsSafe(w)
    ensures Sum(Next(w, e).db.ledger, OfVoucher(id), value)
      == Sum(w.db.ledger, OfVoucher(id), value) + Sum(Added(w, e), OfVoucher(id), value)
  {
    LedgerStep(w, e);
    if e.call.DeleteExpense? {
      ExpenseReferenceIsOne(e.call.id);
    }
    SumWhere(w.db.ledger, NotReferenced(Deleted(w, e)), OfVoucher(id), value);
    SumAppends(Without(w.db.ledger, Deleted(w, e)), Added(w, e), OfVoucher(id), value);
  }

  /** No row of the call is a line of another voucher. */
  lemma NothingForOthers(w: World, e: Event, id: string, value: Entry -> int)
    requires SystemPosting(e) && (e.call.PostJournal? ==> e.call.voucherId != id)
    ensures Sum(Added(w, e), OfVoucher(id), value) == 0
  {
    forall i | 0 <= i < |Added(w, e)| ensures !OfVoucher(id)(Added(w, e)[i]) {
      if Added(w, e)[i].voucher.Some? {
        AddedLineHasVoucher(w, e, Added(w, e)[i]);
      }
    }
    NoRowsNoSum(Added(w, e), OfVoucher(id), value);
  }

  lemma TotalWithinAgrees(total: int, rows: seq<Entry>, keep: Selection, more: seq<Entry>, keep': Selection, exact: bool)
    requires TotalWithin(total, rows, keep, exact)
    requires forall side: Side :: Sum(more, keep', Of(side)) == Sum(rows, keep, Of(side))
    requires forall side: Side :: Sum(more, keep', CountOf(side)) == Sum(rows, keep, CountOf(side))
    ensures TotalWithin(total, more, keep', exact)
  {
  }

  lemma {:induction false} OldTotalStays(w: World, e: Event, v: VoucherRow, exact: bool)
    requires TotalsKept(w, exact) && FreshVoucher(w, e) && v in w.db.vouchers
    ensures TotalWithin(v.total, Next(w, e).db.ledger, OfVoucher(v.id), exact)
  {
    var k :| 0 <= k < |w.db.vouchers| && w.db.vouchers[k] == v;
    assert HasVoucher(w.db.vouchers, v.id);
    forall side: Side
      ensures Sum(Next(w, e).db.ledger, OfVoucher(v.id), Of(side)) == Sum(w.db.ledger, OfVoucher(v.id), Of(side))
      ensures Sum(Next(w, e).db.ledger, OfVoucher(v.id), CountOf(side)) == Sum(w.db.ledger, OfVoucher(v.id), CountOf(side))
    {
      VoucherRowsAfter(w, e, v.id, Of(side));
      VoucherRowsAfter(w, e, v.id, CountOf(side));
      NothingForOthers(w, e, v.id, Of(side));
      NothingForOthers(w, e, v.id, CountOf(side));
    }
    TotalWithinAgrees(v.total, w.db.ledger, OfVoucher(v.id), Next(w, e).db.ledger, OfVoucher(v.id), exact);
  }

  lemma NoOldLines(w: World, id: string, value: Entry -> int)
    requires LinesHaveVouchers(w) && !HasVoucher(w.db.vouchers, id)
    ensures Sum(w.db.ledger, OfVoucher(id), value) == 0
  {
    forall i | 0 <= i < |w.db.ledger| ensures !OfVoucher(id)(w.db.ledger[i]) {
      assert w.db.ledger[i] in w.db.ledger;
    }
    NoRowsNoSum(w.db.ledger, OfVoucher(id), value);
  }

  lemma {:induction false} NewTotalHolds(w: World, e: Event, exact: bool)
    requires TotalsKept(w, exact) && FreshVoucher(w, e) && AddsVoucher(w, e) && (exact ==> WholeCentCall(e))
    ensures |Next(w, e).db.vouchers| == |w.db.vouchers| + 1
    ensures var v := Next(w, e).db.vouchers[|w.db.vouchers|];
            TotalWithin(v.total, Next(w, e).db.ledger, OfVoucher(v.id), exact)
  {
    NewVoucherTotal(w, e, exact);
    var v, rows := Next(w, e).db.vouchers[|w.db.vouchers|], Added(w, e);
    forall side: Side
      ensures Sum(Next(w, e).db.ledger, OfVoucher(v.id), Of(side)) == Sum(rows, Everything(), Of(side))
      ensures Sum(Next(w, e).db.ledger, OfVoucher(v.id), CountOf(side)) == Sum(rows, Everything(), CountOf(side))
    {
      NewRowsOf(w, e, v.id, Of(side));
      NewRowsOf(w, e, v.id, CountOf(side));
    }
    TotalWithinAgrees(v.total, rows, Everything(), Next(w, e).db.ledger, OfVoucher(v.id), exact);
  }

  lemma NewRowsOf(w: World, e: Event, id: string, value: Entry -> int)
    requires JournalsSafe(w) && LinesHaveVouchers(w) && !HasVoucher(w.db.vouchers, id)
    requires forall r | r in Added(w, e) :: r.voucher == Some(id)
    ensures Sum(Next(w, e).db.ledger, OfVoucher(id), value) == Sum(Added(w, e), Everything(), value)
  {
    VoucherRowsAfter(w, e, id, value);
    NoOldLines(w, id, value);
    SumAgrees(Added(w, e), OfVoucher(id), Everything(), value);
  }

  lemma {:induction false} NextKeepsTotals(w: World, e: Event, exact: bool)
    requires TotalsKept(w, exact) && FreshVoucher(w, e) && (exact ==> WholeCentCall(e))
    ensures TotalsKept(Next(w, e), exact)
  {
    NextKeepsJournalsSafe(w, e);
    NextKeepsLines(w, e);
    VoucherAdded(w, e);
    var vouchers := Next(w, e).db.vouchers;
    forall v | v in vouchers ensures TotalWithin(v.total, Next(w, e).db.ledger, OfVoucher(v.id), exact) {
      var k :| 0 <= k < |vouchers| && vouchers[k] == v;
      if AddsVoucher(w, e) && k == |w.db.vouchers| {
        NewTotalHolds(w, e, exact);
      } else {
        assert vouchers[..|w.db.vouchers|][k] == w.db.vouchers[k];
        OldTotalStays(w, e, v, exact);
      }
    }
  }

  /** Stored totals over runs: whatever is posted, deleted, locked or rolled back, the total of
      every stored voucher is off each side of the ledger rows that carry its id by at most half
      a cent a row, and equal to both sides if all journals are in whole cents. */
  lemma {:induction false} TotalsOverRuns(w: World, events: seq<Event>, exact: bool)
    requires TotalsKept(w, exact) && FreshVouchers(w, events)
    requires exact ==> forall i | 0 <= i < |events| :: WholeCentCall(events[i])
    ensures TotalsKept(After(w, events), exact)
    decreases |events|
  {
    if events != [] {
      NextKeepsTotals(w, events[0], exact);
      TotalsOverRuns(Next(w, events[0]), events[1..], exact);
    }
  }
}

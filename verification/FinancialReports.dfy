/** Trial balance, balance sheet, day book and ledger summary: four readings of one ledger. */
module FinancialReports {
  import opened Options
  import opened Money
  import opened Calendar
  import opened Sums
  import opened Ledger
  import opened Books
  import opened BookTheorems
  import opened Chokepoint

  datatype AccountSum = AccountSum(account: Account, debits: int, credits: int)

  datatype TrialBalance = TrialBalance(
    rows: seq<AccountSum>, unmappedDebits: int, unmappedCredits: int,
    totalDebits: int, totalCredits: int, balanced: bool)

  datatype BalanceSheet = BalanceSheet(
    retainedEarnings: int, totalAssets: int, totalLiabilities: int, totalEquity: int, balanced: bool)

  datatype DayBook = DayBook(rows: seq<Entry>, totalDebits: int, totalCredits: int)

  // The queries.

  /** The ON clause of the join: the account and the window. */
  function OnAccount(a: Account, win: Window): Selection {
    (e: Entry) => e.account == Some(a.id) && Covers(win, e.branch, e.date)
  }

  /** LEFT JOIN: the matching entries of an account, or one row without an entry. */
  function Joined(a: Account, ledger: seq<Entry>, win: Window): seq<Option<Entry>> {
    var matches := Where(ledger, OnAccount(a, win));
    if matches == [] then [None] else Present(matches)
  }

  function Present(rows: seq<Entry>): seq<Option<Entry>> {
    if rows == [] then [] else [Some(rows[0])] + Present(rows[1..])
  }

  /** SUM(CASE WHEN entry_type = side THEN amount ELSE 0 END) over joined rows. */
  function JoinedSum(rows: seq<Option<Entry>>, side: Side): int {
    if rows == [] then 0
    else (if rows[0].Some? && rows[0].value.side == side then rows[0].value.cents else 0) + JoinedSum(rows[1..], side)
  }

  /** GROUP BY account. */
  function AccountSums(accounts: seq<Account>, ledger: seq<Entry>, win: Window): (sums: seq<AccountSum>)
    ensures |sums| == |accounts| && forall i | 0 <= i < |sums| :: sums[i].account == accounts[i]
  {
    if accounts == [] then []
    else
      var rows := Joined(accounts[0], ledger, win);
      [AccountSum(accounts[0], JoinedSum(rows, Debit), JoinedSum(rows, Credit))] + AccountSums(accounts[1..], ledger, win)
  }

  function UnmappedIn(win: Window): Selection {
    (e: Entry) => e.account.None? && Covers(win, e.branch, e.date)
  }

  function MappedIn(win: Window): Selection {
    (e: Entry) => e.account.Some? && Covers(win, e.branch, e.date)
  }

  function OnDay(branch: Option<string>, day: Date): Selection {
    (e: Entry) => e.date == day && (branch.Some? ==> e.branch == branch.value)
  }

  // The reports.

  function TotalOf(sums: seq<AccountSum>, side: Side): int {
    if sums == [] then 0
    else (if side == Debit then sums[0].debits else sums[0].credits) + TotalOf(sums[1..], side)
  }

  function TrialBalanceOf(db: Tables, win: Window): TrialBalance {
    var rows := AccountSums(db.accounts, db.ledger, win);
    var ud, uc := Sum(db.ledger, UnmappedIn(win), Of(Debit)), Sum(db.ledger, UnmappedIn(win), Of(Credit));
    var d, c := TotalOf(rows, Debit) + ud, TotalOf(rows, Credit) + uc;
    TrialBalance(rows, ud, uc, d, c, d == c)
  }

  /** `accountBalance`: assets and expenses carry debit balances, the others credit balances. */
  function AccountBalance(kind: AccountType, debits: int, credits: int): int {
    if kind == Asset || kind == Expense then debits - credits else credits - debits
  }

  function SectionTotal(sums: seq<AccountSum>, kind: AccountType): int {
    if sums == [] then 0
    else
      (if sums[0].account.kind == kind then AccountBalance(kind, sums[0].debits, sums[0].credits) else 0)
      + SectionTotal(sums[1..], kind)
  }

  function UpTo(branch: Option<string>, asOf: Date): Window {
    Window(branch, None, Some(asOf))
  }

  function BalanceSheetOf(db: Tables, branch: Option<string>, asOf: Date): BalanceSheet {
    var sums := AccountSums(db.accounts, db.ledger, UpTo(branch, asOf));
    var retained := SectionTotal(sums, Income) - SectionTotal(sums, Expense);
    var assets, liabilities := SectionTotal(sums, Asset), SectionTotal(sums, Liability);
    var equity := SectionTotal(sums, Equity) + retained;
    BalanceSheet(retained, assets, liabilities, equity, assets == liabilities + equity)
  }

  function DayBookOf(db: Tables, branch: Option<string>, day: Date): DayBook {
    var rows := Where(db.ledger, OnDay(branch, day));
    DayBook(rows, Sum(rows, Everything(), Of(Debit)), Sum(rows, Everything(), Of(Credit)))
  }

  /** `getLedgerSummary`: credits, debits and the number of entries, without a window. */
  function LedgerSummary(db: Tables, branch: Option<string>): (int, int, nat) {
    var all := InWindow(Window(branch, None, None));
    (Sum(db.ledger, all, Of(Credit)), Sum(db.ledger, all, Of(Debit)), |Where(db.ledger, all)|)
  }

  // One ledger.

  lemma {:induction false} PresentSum(rows: seq<Entry>, keep: Selection, side: Side)
    ensures JoinedSum(Present(Where(rows, keep)), side) == Sum(rows, keep, Of(side))
  {
    if rows != [] {
      PresentSum(rows[1..], keep, side);
      var rest := Where(rows[1..], keep);
      if keep(rows[0]) {
        assert Where(rows, keep)[1..] == rest;
        assert Present(Where(rows, keep))[1..] == Present(rest);
      } else {
        assert Where(rows, keep) == rest;
      }
    }
  }

  lemma AccountSumsTail(accounts: seq<Account>, ledger: seq<Entry>, win: Window, i: nat)
    requires 0 < i < |accounts|
    ensures AccountSums(accounts, ledger, win)[i] == AccountSums(accounts[1..], ledger, win)[i - 1]
    ensures accounts[1..][i - 1] == accounts[i]
  {
  }

  /** The outer join sums what the account's rows sum to, and zero for an account without rows. */
  lemma {:induction false} AccountSumsAreSums(accounts: seq<Account>, ledger: seq<Entry>, win: Window, i: nat)
    requires i < |accounts|
    ensures var s := AccountSums(accounts, ledger, win)[i];
            && s.debits == Sum(ledger, OnAccount(accounts[i], win), Of(Debit))
            && s.credits == Sum(ledger, OnAccount(accounts[i], win), Of(Credit))
  {
    if i == 0 {
      JoinedSums(accounts[0], ledger, win);
    } else {
      AccountSumsTail(accounts, ledger, win, i);
      AccountSumsAreSums(accounts[1..], ledger, win, i - 1);
    }
  }

  lemma JoinedSums(a: Account, ledger: seq<Entry>, win: Window)
    ensures forall side: Side :: JoinedSum(Joined(a, ledger, win), side) == Sum(ledger, OnAccount(a, win), Of(side))
  {
    forall side: Side ensures JoinedSum(Joined(a, ledger, win), side) == Sum(ledger, OnAccount(a, win), Of(side)) {
      PresentSum(ledger, OnAccount(a, win), side);
    }
  }

  const ACCOUNT_OF: Entry -> Option<string> := (e: Entry) => e.account
  const DATE_OF: Entry -> Date := (e: Entry) => e.date

  /** The values of the account column: the ids of the chart. */
  function Ids(accounts: seq<Account>): (ids: seq<Option<string>>)
    ensures |ids| == |accounts| && forall i | 0 <= i < |ids| :: ids[i] == Some(accounts[i].id)
  {
    seq(|accounts|, i requires 0 <= i < |accounts| => Some(accounts[i].id))
  }

  lemma {:induction false} AccountsAreGroups(accounts: seq<Account>, ledger: seq<Entry>, win: Window, side: Side)
    ensures TotalOf(AccountSums(accounts, ledger, win), side)
      == SumOfGroups(ledger, InWindow(win), ACCOUNT_OF, Ids(accounts), Of(side))
  {
    if accounts != [] {
      var a := accounts[0];
      JoinedSums(a, ledger, win);
      SumAgrees(ledger, OnAccount(a, win), Having(InWindow(win), ACCOUNT_OF, Some(a.id)), Of(side));
      assert Ids(accounts)[1..] == Ids(accounts[1..]);
      AccountsAreGroups(accounts[1..], ledger, win, side);
    }
  }

  /** The mapped rows of a window are partitioned by the accounts. */
  lemma MappedTotals(w: World, win: Window, side: Side)
    requires Sound(w)
    ensures TotalOf(AccountSums(w.db.accounts, w.db.ledger, win), side) == Sum(w.db.ledger, MappedIn(win), Of(side))
  {
    var ledger, ids := w.db.ledger, Ids(w.db.accounts);
    AccountsAreGroups(w.db.accounts, ledger, win, side);
    SameGroups(ledger, win, w.db.accounts, side);
    forall i | 0 <= i < |ledger| && MappedIn(win)(ledger[i]) ensures ledger[i].account in ids {
      var k :| 0 <= k < |w.db.accounts| && w.db.accounts[k].id == ledger[i].account.value;
      assert ids[k] == ledger[i].account;
    }
    GroupsPartition(ledger, MappedIn(win), ACCOUNT_OF, ids, Of(side));
  }

  /** Grouping by account ids sees mapped rows only. */
  lemma {:induction false} SameGroups(ledger: seq<Entry>, win: Window, accounts: seq<Account>, side: Side)
    ensures SumOfGroups(ledger, InWindow(win), ACCOUNT_OF, Ids(accounts), Of(side))
      == SumOfGroups(ledger, MappedIn(win), ACCOUNT_OF, Ids(accounts), Of(side))
  {
    if accounts != [] {
      var id := Some(accounts[0].id);
      SumAgrees(ledger, Having(InWindow(win), ACCOUNT_OF, id), Having(MappedIn(win), ACCOUNT_OF, id), Of(side));
      assert Ids(accounts)[1..] == Ids(accounts[1..]);
      SameGroups(ledger, win, accounts[1..], side);
    }
  }

  /** Every figure of the trial balance from the ledger: the rows of each account, in the order
      of the chart, and the rows without one. */
  lemma {:induction false} TrialBalanceFigures(w: World, win: Window)
    requires Sound(w)
    ensures var t, ledger := TrialBalanceOf(w.db, win), w.db.ledger;
            && |t.rows| == |w.db.accounts|
            && (forall i | 0 <= i < |t.rows| ::
                  && t.rows[i].account == w.db.accounts[i]
                  && t.rows[i].debits == Sum(ledger, OnAccount(w.db.accounts[i], win), Of(Debit))
                  && t.rows[i].credits == Sum(ledger, OnAccount(w.db.accounts[i], win), Of(Credit)))
            && t.unmappedDebits == Sum(ledger, InWindow(win), Of(Debit)) - Sum(ledger, MappedIn(win), Of(Debit))
            && t.unmappedCredits == Sum(ledger, InWindow(win), Of(Credit)) - Sum(ledger, MappedIn(win), Of(Credit))
  {
    forall i | 0 <= i < |w.db.accounts|
      ensures var s := AccountSums(w.db.accounts, w.db.ledger, win)[i];
              && s.debits == Sum(w.db.ledger, OnAccount(w.db.accounts[i], win), Of(Debit))
              && s.credits == Sum(w.db.ledger, OnAccount(w.db.accounts[i], win), Of(Credit))
    {
      AccountSumsAreSums(w.db.accounts, w.db.ledger, win, i);
    }
    SumSplits(w.db.ledger, InWindow(win), MappedIn(win), UnmappedIn(win), Of(Debit));
    SumSplits(w.db.ledger, InWindow(win), MappedIn(win), UnmappedIn(win), Of(Credit));
  }

  /** The trial balance totals all rows of its window, mapped and unmapped, each once; so it
      is balanced exactly when the rows of the window net to zero. */
  lemma TrialBalanceIsComplete(w: World, win: Window)
    requires Sound(w)
    ensures var t := TrialBalanceOf(w.db, win);
            && t.totalDebits == Sum(w.db.ledger, InWindow(win), Of(Debit))
            && t.totalCredits == Sum(w.db.ledger, InWindow(win), Of(Credit))
            && t.totalDebits - t.totalCredits == Net(w.db.ledger, InWindow(win))
            && (t.balanced <==> Net(w.db.ledger, InWindow(win)) == 0)
  {
    forall side: Side
      ensures TotalOf(AccountSums(w.db.accounts, w.db.ledger, win), side) + Sum(w.db.ledger, UnmappedIn(win), Of(side))
        == Sum(w.db.ledger, InWindow(win), Of(side))
    {
      MappedTotals(w, win, side);
      SumSplits(w.db.ledger, InWindow(win), MappedIn(win), UnmappedIn(win), Of(side));
    }
    NetIsDifference(w.db.ledger, InWindow(win));
  }

  /** Books over whole runs. Starting with an empty ledger and a sound chart, after any run of
      journals, system postings, expenses, locks and seedings, and for every branch filter and
      dates, the trial balance is off by exactly the rounding gaps of the journals plus the
      single-sided postings; with whole-cent journals only by the latter. */
  lemma {:induction false} TrialBalanceOverRuns(w: World, events: seq<Event>, win: Window)
    requires Sound(w) && w.db.ledger == [] && Chokepoint.FreshRun(w, events)
    requires forall i | 0 <= i < |events| :: SystemPosting(events[i])
    ensures var end := After(w, events);
            var t := TrialBalanceOf(end.db, win);
            && t.totalDebits - t.totalCredits == RunGap(w, events, win) + Net(end.db.ledger, SingleSidedRows(win))
            && (CarriesAgree(events) ==> t.totalDebits - t.totalCredits == Net(end.db.ledger, SingleSidedRows(win)))
  {
    RunsKeepSound(w, events);
    TrialBalanceIsComplete(After(w, events), win);
    WindowBalance(w, events, win);
  }

  /** Anything but a direct posting or an expense; journals in whole cents. */
  predicate WholeCentJournal(e: Event) {
    && !e.call.Post? && !e.call.CreateExpense?
    && (e.call.PostJournal? ==> forall i | 0 <= i < |e.call.dto.lines| :: WholeCents(e.call.dto.lines[i].amount))
  }

  lemma JournalAddsNoSingleSidedRow(w: World, e: Event, win: Window)
    requires WholeCentJournal(e)
    ensures forall i | 0 <= i < |Added(w, e)| :: !SingleSidedRows(win)(Added(w, e)[i])
  {
    AddedRows(w, e);
    forall i | 0 <= i < |Added(w, e)| ensures !SingleSidedRows(win)(Added(w, e)[i]) {
      assert Added(w, e)[i] in Added(w, e);
    }
  }

  lemma {:induction false} JournalsAddNoSingleSidedRows(w: World, events: seq<Event>, win: Window)
    requires forall i | 0 <= i < |events| :: WholeCentJournal(events[i])
    ensures NeverAdds(w, events, SingleSidedRows(win))
    decreases |events|
  {
    if events != [] {
      JournalAddsNoSingleSidedRow(w, events[0], win);
      JournalsAddNoSingleSidedRows(Next(w, events[0]), events[1..], win);
    }
  }

  lemma WholeCentJournalsCarryNothing(events: seq<Event>)
    requires forall i | 0 <= i < |events| :: WholeCentJournal(events[i])
    ensures CarriesAgree(events)
  {
    forall i | 0 <= i < |events| && events[i].call.PostJournal? ensures Gap(events[i].call.dto.lines) == 0 {
      assert WholeCentJournal(events[i]);
      NoGap(events[i].call.dto.lines);
    }
  }

  /** Books of whole-cent journals balance: from an empty ledger, after any run of journals,
      locks, seedings, reviews and deletions, the trial balance of every branch and all dates
      is balanced. */
  lemma {:induction false} WholeCentBooksBalance(w: World, events: seq<Event>, win: Window)
    requires Sound(w) && w.db.ledger == [] && Chokepoint.FreshRun(w, events)
    requires forall i | 0 <= i < |events| :: WholeCentJournal(events[i])
    ensures TrialBalanceOf(After(w, events).db, win).balanced
  {
    forall i | 0 <= i < |events| ensures SystemPosting(events[i]) {
      assert WholeCentJournal(events[i]);
    }
    TrialBalanceOverRuns(w, events, win);
    WholeCentJournalsCarryNothing(events);
    JournalsAddNoSingleSidedRows(w, events, win);
    SelectionOnlyShrinks(w, events, SingleSidedRows(win));
    var ledger := After(w, events).db.ledger;
    WhereMembers(ledger, SingleSidedRows(win));
    assert Where(ledger, SingleSidedRows(win)) == [];
    NothingSelected(ledger, SingleSidedRows(win));
  }

  lemma {:induction false} RunsKeepSound(w: World, events: seq<Event>)
    requires Sound(w) && Chokepoint.FreshRun(w, events)
    ensures Sound(After(w, events))
    decreases |events|
  {
    if events != [] {
      NextKeepsSound(w, events[0]);
      RunsKeepSound(Next(w, events[0]), events[1..]);
    }
  }

  /** The rows of a window on accounts of some types: the ledger joined with the chart. */
  function OfTypes(accounts: seq<Account>, kinds: set<AccountType>, win: Window): Selection {
    (e: Entry) =>
      Covers(win, e.branch, e.date)
      && exists i | 0 <= i < |accounts| :: e.account == Some(accounts[i].id) && accounts[i].kind in kinds
  }

  /** One account less: its rows are apart from those of the others. */
  lemma {:induction false} TypesCons(
      accounts: seq<Account>, kinds: set<AccountType>, ledger: seq<Entry>, win: Window, value: Entry -> int)
    requires accounts != [] && ChartOk(accounts)
    ensures Sum(ledger, OfTypes(accounts, kinds, win), value)
      == (if accounts[0].kind in kinds then Sum(ledger, OnAccount(accounts[0], win), value) else 0)
         + Sum(ledger, OfTypes(accounts[1..], kinds, win), value)
  {
    var a, rest := accounts[0], accounts[1..];
    forall e: Entry
      ensures OfTypes(accounts, kinds, win)(e)
        <==> (a.kind in kinds && OnAccount(a, win)(e)) || OfTypes(rest, kinds, win)(e)
      ensures !(OnAccount(a, win)(e) && OfTypes(rest, kinds, win)(e))
    {
      RowOfTypes(accounts, kinds, win, e);
    }
    if a.kind in kinds {
      SumSplits(ledger, OfTypes(accounts, kinds, win), OnAccount(a, win), OfTypes(rest, kinds, win), value);
    } else {
      SumAgrees(ledger, OfTypes(accounts, kinds, win), OfTypes(rest, kinds, win), value);
    }
  }

  lemma RowOfTypes(accounts: seq<Account>, kinds: set<AccountType>, win: Window, e: Entry)
    requires accounts != [] && ChartOk(accounts)
    ensures OfTypes(accounts, kinds, win)(e)
      <==> (accounts[0].kind in kinds && OnAccount(accounts[0], win)(e)) || OfTypes(accounts[1..], kinds, win)(e)
    ensures !(OnAccount(accounts[0], win)(e) && OfTypes(accounts[1..], kinds, win)(e))
  {
    var rest := accounts[1..];
    forall i | 0 <= i < |rest| ensures rest[i] == accounts[i + 1] && rest[i].id != accounts[0].id {
    }
    if OfTypes(accounts, kinds, win)(e) {
      var i :| 0 <= i < |accounts| && e.account == Some(accounts[i].id) && accounts[i].kind in kinds;
      assert i > 0 ==> rest[i - 1] == accounts[i];
    }
  }

  /** A section is the net of the ledger rows on the accounts of its type, with the sign of the type. */
  lemma {:induction false} SectionIsNet(accounts: seq<Account>, ledger: seq<Entry>, win: Window, kind: AccountType)
    requires ChartOk(accounts)
    ensures var net := Net(ledger, OfTypes(accounts, {kind}, win));
            SectionTotal(AccountSums(accounts, ledger, win), kind)
            == if kind == Asset || kind == Expense then net else -net
    decreases |accounts|
  {
    if accounts == [] {
      NoRowsNoSum(ledger, OfTypes(accounts, {kind}, win), Signed());
    } else {
      var a := accounts[0];
      TypesCons(accounts, {kind}, ledger, win, Signed());
      SectionIsNet(accounts[1..], ledger, win, kind);
      JoinedSums(a, ledger, win);
      NetIsDifference(ledger, OnAccount(a, win));
    }
  }

  /** Types add up: the rows of disjoint types are apart. */
  lemma {:induction false} TypesSplit(
      accounts: seq<Account>, kinds: set<AccountType>, more: set<AccountType>, ledger: seq<Entry>, win: Window)
    requires ChartOk(accounts) && kinds !! more
    ensures Net(ledger, OfTypes(accounts, kinds + more, win))
      == Net(ledger, OfTypes(accounts, kinds, win)) + Net(ledger, OfTypes(accounts, more, win))
    decreases |accounts|
  {
    if accounts == [] {
      NoRowsNoSum(ledger, OfTypes(accounts, kinds, win), Signed());
      NoRowsNoSum(ledger, OfTypes(accounts, more, win), Signed());
      NoRowsNoSum(ledger, OfTypes(accounts, kinds + more, win), Signed());
    } else {
      TypesCons(accounts, kinds, ledger, win, Signed());
      TypesCons(accounts, more, ledger, win, Signed());
      TypesCons(accounts, kinds + more, ledger, win, Signed());
      TypesSplit(accounts[1..], kinds, more, ledger, win);
    }
  }

  /** The figures of the sheet from the ledger rows up to the date: assets are debits less credits
      on Asset accounts; liabilities, retained earnings and equity are credits less debits on
      Liability, on Income and Expense, and on Equity, Income and Expense accounts. */
  lemma {:induction false} BalanceSheetFigures(w: World, branch: Option<string>, asOf: Date)
    requires Sound(w)
    ensures var b, win := BalanceSheetOf(w.db, branch, asOf), Window(branch, None, Some(asOf));
            && b.totalAssets == Net(w.db.ledger, OfTypes(w.db.accounts, {Asset}, win))
            && b.totalLiabilities == -Net(w.db.ledger, OfTypes(w.db.accounts, {Liability}, win))
            && b.retainedEarnings == -Net(w.db.ledger, OfTypes(w.db.accounts, {Income, Expense}, win))
            && b.totalEquity == -Net(w.db.ledger, OfTypes(w.db.accounts, {Equity, Income, Expense}, win))
  {
    var accounts, ledger, win := w.db.accounts, w.db.ledger, Window(branch, None, Some(asOf));
    SectionIsNet(accounts, ledger, win, Asset);
    SectionIsNet(accounts, ledger, win, Liability);
    SectionIsNet(accounts, ledger, win, Equity);
    SectionIsNet(accounts, ledger, win, Income);
    SectionIsNet(accounts, ledger, win, Expense);
    TypesSplit(accounts, {Income}, {Expense}, ledger, win);
    TypesSplit(accounts, {Equity}, {Income, Expense}, ledger, win);
    assert {Income} + {Expense} == {Income, Expense};
    assert {Equity} + {Income, Expense} == {Equity, Income, Expense};
  }

  lemma EveryType(kind: AccountType)
    ensures kind in {Asset, Liability, Equity, Income, Expense}
  {
    assert kind == Asset || kind == Liability || kind == Equity || kind == Income || kind == Expense;
  }

  /** The rows of all types are the mapped rows. */
  lemma AllTypesAreMapped(w: World, win: Window)
    requires Sound(w)
    ensures Net(w.db.ledger, OfTypes(w.db.accounts, {Asset, Liability, Equity, Income, Expense}, win))
      == Net(w.db.ledger, MappedIn(win))
  {
    var accounts, all := w.db.accounts, {Asset, Liability, Equity, Income, Expense};
    forall i | 0 <= i < |w.db.ledger|
      ensures OfTypes(accounts, all, win)(w.db.ledger[i]) == MappedIn(win)(w.db.ledger[i])
    {
      var e := w.db.ledger[i];
      if e.account.Some? {
        var k :| 0 <= k < |accounts| && accounts[k].id == e.account.value;
        EveryType(accounts[k].kind);
      }
    }
    SumAgrees(w.db.ledger, OfTypes(accounts, all, win), MappedIn(win), Signed());
  }

  /** Balance-sheet identity, for any ledger: assets less liabilities and equity, with income
      less expenses rolled in as retained earnings, are debits less credits of the mapped rows
      up to the date. So the sheet balances exactly when the mapped trial balance does. */
  lemma {:induction false} BalanceSheetIdentity(w: World, branch: Option<string>, asOf: Date)
    requires Sound(w)
    ensures var b := BalanceSheetOf(w.db, branch, asOf);
            var win := UpTo(branch, asOf);
            && b.totalAssets - (b.totalLiabilities + b.totalEquity) == Net(w.db.ledger, MappedIn(win))
            && (b.balanced <==> Net(w.db.ledger, MappedIn(win)) == 0)
            && (Sum(w.db.ledger, UnmappedIn(win), Signed()) == 0 ==>
                  (b.balanced <==> TrialBalanceOf(w.db, win).balanced))
  {
    var accounts, ledger, win := w.db.accounts, w.db.ledger, UpTo(branch, asOf);
    BalanceSheetFigures(w, branch, asOf);
    TypesSplit(accounts, {Liability}, {Equity, Income, Expense}, ledger, win);
    assert {Liability} + {Equity, Income, Expense} == {Liability, Equity, Income, Expense};
    TypesSplit(accounts, {Asset}, {Liability, Equity, Income, Expense}, ledger, win);
    assert {Asset} + {Liability, Equity, Income, Expense} == {Asset, Liability, Equity, Income, Expense};
    AllTypesAreMapped(w, win);
    TrialBalanceIsComplete(w, win);
    SumSplits(ledger, InWindow(win), MappedIn(win), UnmappedIn(win), Signed());
  }

  function One(): Entry -> int {
    (e: Entry) => 1
  }

  lemma {:induction false} WhereCounts(rows: seq<Entry>, keep: Selection)
    ensures |Where(rows, keep)| == Sum(rows, keep, One())
  {
    if rows != [] {
      WhereCounts(rows[1..], keep);
    }
  }

  /** The summary and the trial balance without a window agree, and the entry count counts each
      row of the branch once. */
  lemma {:induction false} SummaryAgrees(w: World, branch: Option<string>)
    requires Sound(w)
    ensures var t := TrialBalanceOf(w.db, Window(branch, None, None));
            && LedgerSummary(w.db, branch).0 == t.totalCredits && LedgerSummary(w.db, branch).1 == t.totalDebits
            && LedgerSummary(w.db, branch).2
               == Sum(w.db.ledger, (e: Entry) => branch.None? || e.branch == branch.value, One())
  {
    var all := InWindow(Window(branch, None, None));
    TrialBalanceIsComplete(w, Window(branch, None, None));
    WhereCounts(w.db.ledger, all);
    SumAgrees(w.db.ledger, all, (e: Entry) => branch.None? || e.branch == branch.value, One());
  }

  /** The day book has exactly the rows of its day and branch, in ledger order. */
  lemma {:induction false} DayBookRows(db: Tables, branch: Option<string>, day: Date)
    ensures forall row ::
      (row in DayBookOf(db, branch, day).rows
       <==> row in db.ledger && row.date == day && (branch.Some? ==> row.branch == branch.value))
    ensures |DayBookOf(db, branch, day).rows| == Sum(db.ledger, OnDay(branch, day), One())
  {
    WhereMembers(db.ledger, OnDay(branch, day));
    WhereCounts(db.ledger, OnDay(branch, day));
  }

  function DayTotals(db: Tables, branch: Option<string>, days: seq<Date>, side: Side): int {
    if days == [] then 0
    else
      var book := DayBookOf(db, branch, days[0]);
      (if side == Debit then book.totalDebits else book.totalCredits) + DayTotals(db, branch, days[1..], side)
  }

  lemma DayBookTotal(db: Tables, branch: Option<string>, day: Date, side: Side)
    ensures Sum(Where(db.ledger, OnDay(branch, day)), Everything(), Of(side)) == Sum(db.ledger, OnDay(branch, day), Of(side))
  {
    var rows := Where(db.ledger, OnDay(branch, day));
    SumWhere(db.ledger, OnDay(branch, day), OnDay(branch, day), Of(side));
    forall i | 0 <= i < |rows| ensures OnDay(branch, day)(rows[i]) {
      WhereMembers(db.ledger, OnDay(branch, day));
      assert rows[i] in rows;
    }
    SumAgrees(rows, Everything(), OnDay(branch, day), Of(side));
  }

  lemma {:induction false} DaysAreGroups(db: Tables, win: Window, days: seq<Date>, side: Side)
    requires forall d | d in days ::
      (win.start.Some? ==> Ordinal(win.start.value) <= Ordinal(d)) && (win.end.Some? ==> Ordinal(d) <= Ordinal(win.end.value))
    ensures DayTotals(db, win.branch, days, side) == SumOfGroups(db.ledger, InWindow(win), DATE_OF, days, Of(side))
  {
    if days != [] {
      assert days[0] in days;
      DayBookTotal(db, win.branch, days[0], side);
      SumAgrees(db.ledger, OnDay(win.branch, days[0]), Having(InWindow(win), DATE_OF, days[0]), Of(side));
      DaysAreGroups(db, win, days[1..], side);
    }
  }

  /** The day books of a window's days, each day once, add up to its trial balance. */
  lemma DayBooksAddUp(w: World, win: Window, days: seq<Date>)
    requires Sound(w) && Distinct(days)
    requires forall d | d in days ::
      (win.start.Some? ==> Ordinal(win.start.value) <= Ordinal(d)) && (win.end.Some? ==> Ordinal(d) <= Ordinal(win.end.value))
    requires forall i | 0 <= i < |w.db.ledger| :: InWindow(win)(w.db.ledger[i]) ==> w.db.ledger[i].date in days
    ensures DayTotals(w.db, win.branch, days, Debit) == TrialBalanceOf(w.db, win).totalDebits
    ensures DayTotals(w.db, win.branch, days, Credit) == TrialBalanceOf(w.db, win).totalCredits
  {
    forall side: Side
      ensures DayTotals(w.db, win.branch, days, side) == Sum(w.db.ledger, InWindow(win), Of(side))
    {
      DaysAreGroups(w.db, win, days, side);
      GroupsPartition(w.db.ledger, InWindow(win), DATE_OF, days, Of(side));
    }
    TrialBalanceIsComplete(w, win);
  }

  /** Adjacent windows add up account by account, when no row is dated between them. */
  lemma {:induction false} AdjacentWindowsAdd(
      db: Tables, branch: Option<string>, start: Option<Date>, mid: Date, next: Date, end: Option<Date>, i: nat)
    requires i < |db.accounts| && Ordinal(mid) < Ordinal(next)
    requires start.Some? ==> Ordinal(start.value) <= Ordinal(next)
    requires end.Some? ==> Ordinal(mid) <= Ordinal(end.value)
    requires forall k | 0 <= k < |db.ledger| ::
      !(Ordinal(mid) < Ordinal(db.ledger[k].date) < Ordinal(next))
    ensures var first := AccountSums(db.accounts, db.ledger, Window(branch, start, Some(mid)))[i];
            var second := AccountSums(db.accounts, db.ledger, Window(branch, Some(next), end))[i];
            var whole := AccountSums(db.accounts, db.ledger, Window(branch, start, end))[i];
            whole.debits == first.debits + second.debits && whole.credits == first.credits + second.credits
  {
    var a := db.accounts[i];
    var w1, w2, w3 := Window(branch, start, Some(mid)), Window(branch, Some(next), end), Window(branch, start, end);
    AccountSumsAreSums(db.accounts, db.ledger, w1, i);
    AccountSumsAreSums(db.accounts, db.ledger, w2, i);
    AccountSumsAreSums(db.accounts, db.ledger, w3, i);
    SumSplits(db.ledger, OnAccount(a, w3), OnAccount(a, w1), OnAccount(a, w2), Of(Debit));
    SumSplits(db.ledger, OnAccount(a, w3), OnAccount(a, w1), OnAccount(a, w2), Of(Credit));
  }

  // What one call moves.

  /** The lines of a voucher on one account. */
  function LinesOn(lines: seq<Line>, account: string): seq<Line> {
    if lines == [] then []
    else (if lines[0].account == account then [lines[0]] else []) + LinesOn(lines[1..], account)
  }

  lemma {:induction false} LineRowsOnAccount(
      lines: seq<Line>, branch: string, date: Date, number: string, voucherId: string, a: Account, win: Window, side: Side)
    ensures Sum(LineRows(lines, branch, date, number, voucherId), OnAccount(a, win), Of(side))
      == if Covers(win, branch, date) then SumOfCents(Amounts(LinesOn(lines, a.id), side)) else 0
  {
    if lines != [] {
      var rows := LineRows(lines, branch, date, number, voucherId);
      assert rows[1..] == LineRows(lines[1..], branch, date, number, voucherId);
      LineRowsOnAccount(lines[1..], branch, date, number, voucherId, a, win, side);
      var rest := LinesOn(lines[1..], a.id);
      if lines[0].account == a.id {
        assert LinesOn(lines, a.id)[1..] == rest;
        AmountsCons(LinesOn(lines, a.id), side);
      } else {
        assert LinesOn(lines, a.id) == rest;
      }
    }
  }

  /** An accepted journal moves each account of the chart, in every window with its branch and
      date, by the rounded amounts of its own lines on either side, and in no other window. */
  lemma {:induction false} JournalMovesAccounts(w: World, e: Event, i: nat, win: Window)
    requires e.call.PostJournal? && i < |w.db.accounts|
    requires Journaled(w, e.call.dto, e.call.actor, e.call.voucherId, e.clock).1.Done?
    ensures ResolvedBranch(e.call.dto.branch, e.call.actor).Ok? && Next(w, e).db.accounts == w.db.accounts
    ensures var before := AccountSums(w.db.accounts, w.db.ledger, win)[i];
            var after := AccountSums(w.db.accounts, Next(w, e).db.ledger, win)[i];
            var own := LinesOn(e.call.dto.lines, w.db.accounts[i].id);
            if Covers(win, ResolvedBranch(e.call.dto.branch, e.call.actor).value, EntryText(e).stored)
            then after.debits == before.debits + SumOfCents(Amounts(own, Debit))
              && after.credits == before.credits + SumOfCents(Amounts(own, Credit))
            else after == before
  {
    AccountsAfter(w, e);
    JournaledLedger(w, e);
    var a, t := w.db.accounts[i], EntryText(e);
    var branch, number := ResolvedBranch(e.call.dto.branch, e.call.actor).value, NextNumber(w.db, ReadYear(t));
    AccountSumsAreSums(w.db.accounts, w.db.ledger, win, i);
    AccountSumsAreSums(w.db.accounts, Next(w, e).db.ledger, win, i);
    forall side: Side
      ensures Sum(Next(w, e).db.ledger, OnAccount(a, win), Of(side)) == Sum(w.db.ledger, OnAccount(a, win), Of(side))
        + if Covers(win, branch, t.stored) then SumOfCents(Amounts(LinesOn(e.call.dto.lines, a.id), side)) else 0
    {
      SumAppends(w.db.ledger, Added(w, e), OnAccount(a, win), Of(side));
      LineRowsOnAccount(e.call.dto.lines, branch, t.stored, number, e.call.voucherId, a, win, side);
    }
  }

  /** An accepted posting moves the one account it is for, on its side by its amount in cents, in
      every window with its branch and date; nothing else moves. */
  lemma {:induction false} PostMovesItsAccount(w: World, e: Event, i: nat, win: Window, side: Side)
    requires Sound(w) && SystemSeeded(w.db.accounts) && i < |w.db.accounts|
    requires e.call.Post? && Added(w, e) != []
    ensures Sum(Next(w, e).db.ledger, OnAccount(w.db.accounts[i], win), Of(side))
      == Sum(w.db.ledger, OnAccount(w.db.accounts[i], win), Of(side))
         + if IsFor(e.call.input, w.db.accounts[i]) && e.call.input.side == side
              && Covers(win, e.call.input.branch, EntryText(e).stored)
           then Cents(e.call.input.amount) else 0
  {
    var a, input := w.db.accounts[i], e.call.input;
    assert a in w.db.accounts;
    PostLedger(w, e);
    PostingIsStored(w, input, e.clock);
    var row := PostedRow(w, input, e.clock)[0];
    assert Added(w, e) == [row];
    SumAppends(w.db.ledger, [row], OnAccount(a, win), Of(side));
    SumOfOne(row, OnAccount(a, win), Of(side));
  }

  lemma SumOfOne(row: Entry, keep: Selection, value: Entry -> int)
    ensures Sum([row], keep, value) == if keep(row) then value(row) else 0
  {
    assert Sum([row][1..], keep, value) == 0;
  }
}

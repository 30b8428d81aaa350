/** The chart of accounts behind the ledger chokepoint: every row gets an existing account. */
module Chokepoint {
  import opened Options
  import opened Calendar
  import opened Ledger
  import opened Books
  import opened BookTheorems
  import opened Money
  import FiscalCache

  /** Account ids and codes are unique. */
  predicate ChartOk(accounts: seq<Account>) {
    forall i, j | 0 <= i < j < |accounts| ::
      accounts[i].id != accounts[j].id && accounts[i].code != accounts[j].code
  }

  predicate HasAccount(accounts: seq<Account>, code: AccountCode, id: string) {
    exists i | 0 <= i < |accounts| :: accounts[i].code == code && accounts[i].id == id
  }

  /** Every hit of the code cache is a row of the chart. */
  predicate CodesMatch(w: World) {
    forall code | code in w.codes :: HasAccount(w.db.accounts, code, w.codes[code])
  }

  /** No ledger row refers to a missing account. */
  predicate Referential(w: World) {
    forall i | 0 <= i < |w.db.ledger| ::
      w.db.ledger[i].account.Some? ==> HasId(w.db.accounts, w.db.ledger[i].account.value)
  }

  predicate SystemSeeded(accounts: seq<Account>) {
    forall code: SystemCode :: HasCode(accounts, System(code))
  }

  predicate Sound(w: World) {
    ChartOk(w.db.accounts) && CodesMatch(w) && Referential(w)
  }

  /** Generated account ids are new. */
  predicate FreshAccountIds(w: World, e: Event) {
    e.call.EnsureSeeded? ==>
      && |e.call.ids| == |SYSTEM_ACCOUNTS|
      && (forall i, j | 0 <= i < j < |e.call.ids| :: e.call.ids[i] != e.call.ids[j])
      && (forall i | 0 <= i < |e.call.ids| :: !HasId(w.db.accounts, e.call.ids[i]))
  }

  predicate FreshRun(w: World, events: seq<Event>)
    decreases |events|
  {
    events == [] || (FreshAccountIds(w, events[0]) && FreshRun(Next(w, events[0]), events[1..]))
  }

  lemma {:induction false} IdsByCodeAreAccounts(accounts: seq<Account>, code: AccountCode)
    ensures code in IdsByCode(accounts) <==> HasCode(accounts, code)
    ensures code in IdsByCode(accounts) ==> HasAccount(accounts, code, IdsByCode(accounts)[code])
  {
    if accounts != [] {
      var init, last := accounts[..|accounts| - 1], accounts[|accounts| - 1];
      IdsByCodeAreAccounts(init, code);
      assert accounts[|accounts| - 1].code == last.code;
      if code != last.code && HasCode(init, code) {
        var i :| 0 <= i < |init| && init[i].code == code && init[i].id == IdsByCode(init)[code];
        assert accounts[i] == init[i];
      }
    }
  }

  /** A lookup through the cache finds the account of a code exactly when the chart has one. */
  lemma LookUpIsExact(w: World, code: AccountCode)
    requires CodesMatch(w)
    ensures var (codes, id) := LookUpCode(w.codes, w.db.accounts, code);
            && (id.Some? <==> HasCode(w.db.accounts, code))
            && (id.Some? ==> HasAccount(w.db.accounts, code, id.value))
            && CodesMatch(w.(codes := codes))
  {
    IdsByCodeAreAccounts(w.db.accounts, code);
    if code in w.codes {
      var i :| 0 <= i < |w.db.accounts| && w.db.accounts[i].code == code && w.db.accounts[i].id == w.codes[code];
    }
    forall c | c in IdsByCode(w.db.accounts) ensures HasAccount(w.db.accounts, c, IdsByCode(w.db.accounts)[c]) {
      IdsByCodeAreAccounts(w.db.accounts, c);
    }
  }

  /** A posting through the chokepoint: the code cache stays right, and with a seeded chart the
      row has an account of the chart, the one of its code unless the caller named an id. */
  lemma PostedIsMapped(w: World, input: PostInput, clock: Clock)
    requires CodesMatch(w)
    ensures CodesMatch(Posted(w, input, clock).0)
    ensures var rows := PostedRow(w, input, clock);
            rows != [] ==>
              && (rows[0].account.Some? ==> HasId(w.db.accounts, rows[0].account.value))
              && (SystemSeeded(w.db.accounts) ==> rows[0].account.Some?)
              && (input.accountId.None? && rows[0].account.Some? ==>
                    HasAccount(w.db.accounts, PostingCode(input), rows[0].account.value))
  {
    LookUpIsExact(w, PostingCode(input));
    assert SystemSeeded(w.db.accounts) ==> HasCode(w.db.accounts, System(PostingCode(input).code));
  }

  /** The account a posting is for: the one it names by id, else by code, else by its reference. */
  predicate IsFor(input: PostInput, a: Account) {
    if input.accountId.Some? then a.id == input.accountId.value
    else if input.accountCode.Some? then a.code == System(input.accountCode.value)
    else a.code == System(ClassifyLedgerAccount(Some(input.reference), input.side, input.saleId))
  }

  /** An accepted posting is stored as it came, in cents, under its date, and, with a seeded chart,
      on the one account it is for. */
  lemma {:induction false} PostingIsStored(w: World, input: PostInput, clock: Clock)
    requires CodesMatch(w) && ChartOk(w.db.accounts) && SystemSeeded(w.db.accounts) && PostedRow(w, input, clock) != []
    ensures var row := PostedRow(w, input, clock)[0];
            && |PostedRow(w, input, clock)| == 1
            && row.branch == input.branch && row.side == input.side && row.cents == Cents(input.amount)
            && row.reference == input.reference && row.saleId == input.saleId && row.voucher == input.voucher
            && row.date == DateOrToday(input.entryDate, clock).stored
            && (forall a | a in w.db.accounts :: IsFor(input, a) <==> row.account == Some(a.id))
            && (exists a :: a in w.db.accounts && row.account == Some(a.id))
  {
    PostedIsMapped(w, input, clock);
    var row := PostedRow(w, input, clock)[0];
    var k :| 0 <= k < |w.db.accounts| && w.db.accounts[k].id == row.account.value;
    assert w.db.accounts[k] in w.db.accounts;
    forall a | a in w.db.accounts ensures IsFor(input, a) <==> row.account == Some(a.id) {
      if input.accountId.None? {
        OnlyAccountOfCode(w.db.accounts, PostingCode(input), row.account.value, a);
      }
    }
  }

  lemma HasAccountHasId(accounts: seq<Account>, code: AccountCode, id: string)
    requires HasAccount(accounts, code, id)
    ensures HasId(accounts, id)
  {
    var i :| 0 <= i < |accounts| && accounts[i].code == code && accounts[i].id == id;
  }

  /** A posting is accepted exactly when the month its date reads as is not locked and the account
      that it names by id, if any, exists; the lock is looked at first, and a refusal changes no table. */
  lemma {:induction false} PostAcceptedIff(w: World, input: PostInput, clock: Clock)
    requires Coherent(w) && clock.now >= FiscalCache.CACHE_TTL_MS && CodesMatch(w)
    ensures var (w1, outcome) := Posted(w, input, clock);
            var open := ReadPeriod(DateOrToday(input.entryDate, clock)) !in w.db.locks;
            var known := input.accountId.None? || HasId(w.db.accounts, input.accountId.value);
            && (outcome.Done? <==> open && known)
            && (outcome.Refused? ==> w1.db == w.db && outcome.error == if open then UnknownAccount else PeriodLocked)
  {
    AssertOpenIsExact(w, DateOrToday(input.entryDate, clock), clock.now);
    LookUpIsExact(w, PostingCode(input));
    var id := LookUpCode(w.codes, w.db.accounts, PostingCode(input)).1;
    if id.Some? {
      HasAccountHasId(w.db.accounts, PostingCode(input), id.value);
    }
  }

  lemma OnlyAccountOfCode(accounts: seq<Account>, code: AccountCode, id: string, a: Account)
    requires ChartOk(accounts) && HasAccount(accounts, code, id) && a in accounts
    ensures a.code == code <==> a.id == id
  {
    var i :| 0 <= i < |accounts| && accounts[i].code == code && accounts[i].id == id;
    var j :| 0 <= j < |accounts| && accounts[j] == a;
  }

  lemma {:induction false} LineRowsAccounts(lines: seq<Line>, branch: string, date: Date, number: string, voucherId: string)
    ensures forall r | r in LineRows(lines, branch, date, number, voucherId) ::
      exists i | 0 <= i < |lines| :: r.account == Some(lines[i].account)
  {
    if lines != [] {
      LineRowsAccounts(lines[1..], branch, date, number, voucherId);
      forall r | r in LineRows(lines, branch, date, number, voucherId)
        ensures exists i | 0 <= i < |lines| :: r.account == Some(lines[i].account)
      {
        if r in LineRows(lines[1..], branch, date, number, voucherId) {
          var i :| 0 <= i < |lines[1..]| && r.account == Some(lines[1..][i].account);
          assert lines[i + 1] == lines[1..][i];
        } else {
          assert r.account == Some(lines[0].account);
        }
      }
    }
  }

  /** Every added row refers to an account of the chart, and has one if the chart is seeded. */
  lemma AddedRowsAreMapped(w: World, e: Event)
    requires CodesMatch(w)
    ensures forall r | r in Added(w, e) ::
      (r.account.Some? ==> HasId(w.db.accounts, r.account.value)) && (SystemSeeded(w.db.accounts) ==> r.account.Some?)
  {
    match e.call
    case PostJournal(dto, actor, voucherId) =>
      if Journaled(w, dto, actor, voucherId, e.clock).1.Done? {
        var t := EntryText(e);
        LineRowsAccounts(dto.lines, ResolvedBranch(dto.branch, actor).value, t.stored,
                         NextNumber(w.db, ReadYear(t)), voucherId);
      }
    case Post(input) => PostedIsMapped(w, input, e.clock);
    case CreateExpense(requested, amount, id, user) =>
      var branch := ExpenseBranch(requested, user);
      if branch.Ok? {
        PostedIsMapped(w, ExpenseInput(branch.value, amount, id), e.clock);
      }
    case _ =>
  }

  lemma {:induction false} SeedingKeepsChart(accounts: seq<Account>, seeds: seq<(SystemCode, AccountType)>, ids: seq<string>)
    requires |ids| == |seeds| && ChartOk(accounts)
    requires forall i, j | 0 <= i < j < |ids| :: ids[i] != ids[j]
    requires forall i | 0 <= i < |ids| :: !HasId(accounts, ids[i])
    ensures ChartOk(WithSystemAccounts(accounts, seeds, ids))
    ensures accounts <= WithSystemAccounts(accounts, seeds, ids)
    ensures forall i | 0 <= i < |seeds| :: HasCode(WithSystemAccounts(accounts, seeds, ids), System(seeds[i].0))
    decreases |ids|
  {
    if seeds != [] {
      var (code, kind) := seeds[0];
      var more := if HasCode(accounts, System(code)) then accounts else accounts + [Account(ids[0], System(code), kind)];
      forall i | 0 <= i < |ids[1..]| ensures !HasId(more, ids[1..][i]) {
        assert ids[1..][i] == ids[i + 1];
      }
      assert HasCode(more, System(code)) by {
        assert !HasCode(accounts, System(code)) ==> more[|accounts|].code == System(code);
      }
      SeedingKeepsChart(more, seeds[1..], ids[1..]);
      var all := WithSystemAccounts(more, seeds[1..], ids[1..]);
      var k :| 0 <= k < |more| && more[k].code == System(code);
      assert all[k] == more[k];
      forall i | 0 <= i < |seeds| ensures HasCode(all, System(seeds[i].0)) {
        assert i > 0 ==> seeds[i] == seeds[1..][i - 1];
      }
    }
  }

  /** What seeding adds has the type its number tells. */
  lemma {:induction false} SeededTypes(
      accounts: seq<Account>, seeds: seq<(SystemCode, AccountType)>, ids: seq<string>, k: nat)
    requires |ids| == |seeds| && forall i | 0 <= i < |seeds| :: seeds[i].1 == TypeOfNumber(AccountNumber(seeds[i].0))
    requires |accounts| <= k < |WithSystemAccounts(accounts, seeds, ids)|
    ensures var a := WithSystemAccounts(accounts, seeds, ids)[k];
            a.code.System? && a.kind == TypeOfNumber(AccountNumber(a.code.code))
    decreases |ids|
  {
    if seeds != [] {
      var (code, kind) := seeds[0];
      var more := if HasCode(accounts, System(code)) then accounts else accounts + [Account(ids[0], System(code), kind)];
      assert forall i | 0 <= i < |seeds[1..]| :: seeds[1..][i] == seeds[i + 1];
      if k < |more| {
        SeedingExtends(more, seeds[1..], ids[1..]);
      } else {
        SeededTypes(more, seeds[1..], ids[1..], k);
      }
    }
  }

  lemma {:induction false} SeedingExtends(accounts: seq<Account>, seeds: seq<(SystemCode, AccountType)>, ids: seq<string>)
    requires |ids| == |seeds|
    ensures accounts <= WithSystemAccounts(accounts, seeds, ids)
    decreases |ids|
  {
    if seeds != [] {
      var (code, kind) := seeds[0];
      SeedingExtends(if HasCode(accounts, System(code)) then accounts else accounts + [Account(ids[0], System(code), kind)],
                     seeds[1..], ids[1..]);
    }
  }

  /** Accounts that `ensureSeeded` adds to any chart are system accounts of the type of their number. */
  lemma {:induction false} SeedsHaveTheirTypes(w: World, ids: seq<string>, k: nat)
    requires |ids| == |SYSTEM_ACCOUNTS| && |w.db.accounts| <= k < |Seeded(w, ids).db.accounts|
    ensures var a := Seeded(w, ids).db.accounts[k]; a.code.System? && a.kind == TypeOfNumber(AccountNumber(a.code.code))
  {
    var seeds := SYSTEM_ACCOUNTS;
    forall i | 0 <= i < |seeds| ensures seeds[i].1 == TypeOfNumber(AccountNumber(seeds[i].0)) {
      ChartFollowsNumbers(i);
    }
    SeededAccounts(w, ids);
    SeededTypes(w.db.accounts, seeds, ids, k);
  }

  /** Seeding completes the chart, touches no existing account, and does nothing the second time. */
  lemma SeedingIsIdempotent(w: World, ids: seq<string>, more: seq<string>, clock: Clock)
    requires Sound(w) && FreshAccountIds(w, Event(EnsureSeeded(ids), clock)) && |more| == |SYSTEM_ACCOUNTS|
    ensures SystemSeeded(Seeded(w, ids).db.accounts) && w.db.accounts <= Seeded(w, ids).db.accounts
    ensures Seeded(Seeded(w, ids), more).db == Seeded(w, ids).db
  {
    SeedingKeepsChart(w.db.accounts, SYSTEM_ACCOUNTS, ids);
    var accounts := Seeded(w, ids).db.accounts;
    forall code: SystemCode ensures HasCode(accounts, System(code)) {
      var i := SeedIndex(code);
      assert HasCode(accounts, System(SYSTEM_ACCOUNTS[i].0));
    }
    SeedingSeededChart(accounts, SYSTEM_ACCOUNTS, more);
  }

  function SeedIndex(code: SystemCode): (i: nat)
    ensures i < |SYSTEM_ACCOUNTS| && SYSTEM_ACCOUNTS[i].0 == code
  {
    match code
    case Cash => 0
    case Bank => 1
    case AccountsReceivable => 2
    case Inventory => 3
    case AccountsPayable => 4
    case OwnersEquity => 5
    case SalesRevenue => 6
    case OtherIncome => 7
    case CostOfGoodsSold => 8
    case OperatingExpenses => 9
  }

  lemma {:induction false} SeedingSeededChart(accounts: seq<Account>, seeds: seq<(SystemCode, AccountType)>, ids: seq<string>)
    requires |ids| == |seeds| && SystemSeeded(accounts)
    ensures WithSystemAccounts(accounts, seeds, ids) == accounts
    decreases |ids|
  {
    if seeds != [] {
      assert HasCode(accounts, System(seeds[0].0));
      SeedingSeededChart(accounts, seeds[1..], ids[1..]);
    }
  }

  lemma AccountsAfter(w: World, e: Event)
    ensures !e.call.EnsureSeeded? ==> Next(w, e).db.accounts == w.db.accounts
  {
    if e.call.Post? {
      PostedLedger(w, e.call.input, e.clock);
    } else if e.call.CreateExpense? {
      var branch := ExpenseBranch(e.call.requested, e.call.user);
      if branch.Ok? {
        ExpenseSaved(w, branch.value, e.call.amount, e.call.id, e.clock);
      }
    }
  }

  lemma HasIdExtends(accounts: seq<Account>, more: seq<Account>, id: string)
    requires accounts <= more && HasId(accounts, id)
    ensures HasId(more, id)
  {
    var i :| 0 <= i < |accounts| && accounts[i].id == id;
    assert more[i] == accounts[i];
  }

  lemma NextKeepsCodesMatch(w: World, e: Event)
    requires CodesMatch(w)
    ensures CodesMatch(Next(w, e))
  {
    AccountsAfter(w, e);
    match e.call
    case Post(input) => PostedIsMapped(w, input, e.clock);
    case CreateExpense(requested, amount, id, user) =>
      var branch := ExpenseBranch(requested, user);
      if branch.Ok? {
        var saved := w.(db := w.db.(expenses := w.db.expenses[id := ExpenseRow(branch.value, Cents(amount), Pending)]));
        PostedIsMapped(saved, ExpenseInput(branch.value, amount, id), e.clock);
      }
    case _ =>
  }

  lemma SeededAccounts(w: World, ids: seq<string>)
    requires |ids| == |SYSTEM_ACCOUNTS|
    ensures Seeded(w, ids).db.accounts == WithSystemAccounts(w.db.accounts, SYSTEM_ACCOUNTS, ids)
  {
  }

  lemma SeededKeepsChart(w: World, e: Event)
    requires ChartOk(w.db.accounts) && FreshAccountIds(w, e) && e.call.EnsureSeeded?
    ensures ChartOk(Seeded(w, e.call.ids).db.accounts) && w.db.accounts <= Seeded(w, e.call.ids).db.accounts
  {
    var seeds := SYSTEM_ACCOUNTS;
    SeededAccounts(w, e.call.ids);
    SeedingKeepsChart(w.db.accounts, seeds, e.call.ids);
  }

  lemma {:induction false} NextKeepsChart(w: World, e: Event)
    requires ChartOk(w.db.accounts) && FreshAccountIds(w, e)
    ensures ChartOk(Next(w, e).db.accounts) && w.db.accounts <= Next(w, e).db.accounts
  {
    if e.call.EnsureSeeded? {
      SeededKeepsChart(w, e);
    } else {
      AccountsAfter(w, e);
    }
  }

  lemma {:induction false} NextKeepsReferential(w: World, e: Event)
    requires CodesMatch(w) && Referential(w) && w.db.accounts <= Next(w, e).db.accounts
    ensures Referential(Next(w, e))
  {
    var w1 := Next(w, e);
    AddedRowsAreMapped(w, e);
    forall i | 0 <= i < |w1.db.ledger| && w1.db.ledger[i].account.Some?
      ensures HasId(w1.db.accounts, w1.db.ledger[i].account.value)
    {
      RowsAfter(w, e, w1.db.ledger[i]);
      HasIdExtends(w.db.accounts, w1.db.accounts, w1.db.ledger[i].account.value);
    }
  }

  lemma {:induction false} NextKeepsSound(w: World, e: Event)
    requires Sound(w) && FreshAccountIds(w, e)
    ensures Sound(Next(w, e)) && w.db.accounts <= Next(w, e).db.accounts
  {
    NextKeepsChart(w, e);
    NextKeepsCodesMatch(w, e);
    NextKeepsReferential(w, e);
  }

  function Unmapped(): Selection {
    (e: Entry) => e.account.None?
  }

  lemma {:induction false} SeededRunsMapRows(w: World, events: seq<Event>)
    requires Sound(w) && SystemSeeded(w.db.accounts) && FreshRun(w, events)
    ensures NeverAdds(w, events, Unmapped()) && Sound(After(w, events))
    decreases |events|
  {
    if events != [] {
      var e, w1 := events[0], Next(w, events[0]);
      AddedRowsAreMapped(w, e);
      forall i | 0 <= i < |Added(w, e)| ensures !Unmapped()(Added(w, e)[i]) {
        assert Added(w, e)[i] in Added(w, e);
      }
      NextKeepsSound(w, e);
      forall code: SystemCode ensures HasCode(w1.db.accounts, System(code)) {
        assert HasCode(w.db.accounts, System(code));
        var i :| 0 <= i < |w.db.accounts| && w.db.accounts[i].code == System(code);
        assert w1.db.accounts[i] == w.db.accounts[i];
      }
      SeededRunsMapRows(w1, events[1..]);
    }
  }

  /** Chokepoint completeness: once the chart is seeded, no run ever adds to the unmapped
      bucket, and every account a row refers to exists. */
  lemma NothingGoesUnmapped(w: World, events: seq<Event>)
    requires Sound(w) && SystemSeeded(w.db.accounts) && FreshRun(w, events)
    ensures Where(After(w, events).db.ledger, Unmapped()) == Without(Where(w.db.ledger, Unmapped()), RunDeleted(w, events))
    ensures Sound(After(w, events))
  {
    SeededRunsMapRows(w, events);
    SelectionOnlyShrinks(w, events, Unmapped());
  }

  /** The migration's UPDATE on one row: rows without account get the account of their CASE code. */
  function Backfilled(accounts: seq<Account>, e: Entry): Entry {
    var code := System(BackfillCode(Some(e.reference), e.side, e.saleId));
    if e.account.Some? || code !in IdsByCode(accounts) then e else e.(account := Some(IdsByCode(accounts)[code]))
  }

  /** The backfill only fills in: a row that has an account stays as it is, and any other row keeps
      all the rest. */
  lemma BackfillOnlyFillsIn(accounts: seq<Account>, e: Entry)
    ensures e.account.Some? ==> Backfilled(accounts, e) == e
    ensures Backfilled(accounts, e).(account := e.account) == e
    ensures Backfilled(accounts, e).account.Some?
      <==> e.account.Some? || HasCode(accounts, System(BackfillCode(Some(e.reference), e.side, e.saleId)))
  {
    IdsByCodeAreAccounts(accounts, System(BackfillCode(Some(e.reference), e.side, e.saleId)));
  }

  lemma OneAccountPerCode(accounts: seq<Account>, code: AccountCode, a: string, b: string)
    requires ChartOk(accounts) && HasAccount(accounts, code, a) && HasAccount(accounts, code, b)
    ensures a == b
  {
    var i :| 0 <= i < |accounts| && accounts[i].code == code && accounts[i].id == a;
    var j :| 0 <= j < |accounts| && accounts[j].code == code && accounts[j].id == b;
  }

  /** The runtime and the backfill agree: clearing the account of a classified posting and
      running the backfill again gives the row back. */
  lemma {:induction false} BackfillReproduces(w: World, input: PostInput, clock: Clock)
    requires Sound(w) && SystemSeeded(w.db.accounts) && input.accountId.None? && input.accountCode.None?
    ensures var rows := PostedRow(w, input, clock);
            rows != [] ==> Backfilled(w.db.accounts, rows[0].(account := None)) == rows[0]
  {
    var rows := PostedRow(w, input, clock);
    if rows != [] {
      PostedIsMapped(w, input, clock);
      ClassifierMatchesBackfill(Some(input.reference), input.side, input.saleId);
      var code := PostingCode(input);
      assert HasCode(w.db.accounts, System(code.code));
      IdsByCodeAreAccounts(w.db.accounts, code);
      OneAccountPerCode(w.db.accounts, code, rows[0].account.value, IdsByCode(w.db.accounts)[code]);
    }
  }
}

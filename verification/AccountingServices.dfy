/** The accounting services as the objects they are: a database, two caching repositories and
    the services over them, each method proved against the transition functions of Books. */
module AccountingServices {
  import opened Options
  import opened Text
  import opened Money
  import opened Calendar
  import opened Ledger
  import opened Books
  import FiscalCache
  import VoucherNumbering

  class Database {
    var tables: Tables

    constructor (tables: Tables)
      ensures this.tables == tables
    {
      this.tables := tables;
    }
  }

  class FiscalPeriodsService {
    const db: Database
    var lockedSet: set<string>
    var cacheLoadedAt: nat

    constructor (db: Database)
      ensures this.db == db && Cache() == LockCache({}, 0)
    {
      this.db := db;
      lockedSet, cacheLoadedAt := {}, 0;
    }

    function Cache(): LockCache
      reads this
    {
      LockCache(lockedSet, cacheLoadedAt)
    }

    method BustCache()
      modifies this`cacheLoadedAt
      ensures cacheLoadedAt == 0
    {
      cacheLoadedAt := 0;
    }

    method RefreshCacheIfStale(now: nat)
      modifies this
      ensures Cache() == Refreshed(old(Cache()), db.tables.locks, now)
    {
      if now - cacheLoadedAt < FiscalCache.CACHE_TTL_MS {
        return;
      }
      lockedSet := Keys(db.tables.locks);
      cacheLoadedAt := now;
    }

    /** The caller's text, of which only the slices at 0-3 and 5-6 are looked at. */
    method AssertOpen(entryDate: DateText, now: nat) returns (open: bool)
      modifies this
      ensures Cache() == Refreshed(old(Cache()), db.tables.locks, now)
      ensures open == IsOpen(Cache(), entryDate)
    {
      var year, month := Number(entryDate.text[..4]), Number(entryDate.text[5..7]);
      RefreshCacheIfStale(now);
      open := Key(Period(year, month)) !in lockedSet;
    }

    method Lock(year: nat, month: nat, ghost codes: map<AccountCode, string>) returns (outcome: Outcome)
      modifies this, db
      ensures (World(db.tables, Cache(), codes), outcome)
        == LockPeriod(World(old(db.tables), old(Cache()), codes), Period(year, month))
    {
      if Period(year, month) in db.tables.locks {
        return Refused(AlreadyLocked);
      }
      db.tables := db.tables.(locks := db.tables.locks + {Period(year, month)});
      BustCache();
      outcome := Done;
    }

    method Unlock(year: nat, month: nat, ghost codes: map<AccountCode, string>)
      modifies this, db
      ensures World(db.tables, Cache(), codes)
        == UnlockPeriod(World(old(db.tables), old(Cache()), codes), Period(year, month))
    {
      db.tables := db.tables.(locks := db.tables.locks - {Period(year, month)});
      BustCache();
    }
  }

  class AccountsRepository {
    const db: Database
    var idByCodeCache: map<AccountCode, string>

    constructor (db: Database)
      ensures this.db == db && idByCodeCache == map[]
    {
      this.db := db;
      idByCodeCache := map[];
    }

    /** INSERT ... ON CONFLICT DO NOTHING, one system account at a time. */
    method EnsureSeeded(ids: seq<string>)
      requires |ids| == |SYSTEM_ACCOUNTS|
      modifies this, db
      ensures idByCodeCache == map[]
      ensures db.tables == old(db.tables).(accounts := WithSystemAccounts(old(db.tables.accounts), SYSTEM_ACCOUNTS, ids))
    {
      var seeds := SYSTEM_ACCOUNTS;
      InsertSeeds(seeds, ids);
      idByCodeCache := map[];
    }

    method InsertSeeds(seeds: seq<(SystemCode, AccountType)>, ids: seq<string>)
      requires |ids| == |seeds|
      modifies db
      ensures db.tables == old(db.tables).(accounts := WithSystemAccounts(old(db.tables.accounts), seeds, ids))
    {
      for i := 0 to |seeds|
        invariant WithSystemAccounts(db.tables.accounts, seeds[i..], ids[i..])
          == WithSystemAccounts(old(db.tables.accounts), seeds, ids)
        invariant db.tables == old(db.tables).(accounts := db.tables.accounts)
      {
        var (code, kind) := seeds[i];
        assert seeds[i..][0] == seeds[i] && seeds[i..][1..] == seeds[i + 1..] && ids[i..][1..] == ids[i + 1..];
        if !HasCode(db.tables.accounts, System(code)) {
          db.tables := db.tables.(accounts := db.tables.accounts + [Account(ids[i], System(code), kind)]);
        }
      }
    }

    /** The map of all accounts by code, built row by row. */
    method LoadCodes() returns (loaded: map<AccountCode, string>)
      ensures loaded == IdsByCode(db.tables.accounts)
    {
      var rows := db.tables.accounts;
      loaded := map[];
      for i := 0 to |rows|
        invariant loaded == IdsByCode(rows[..i])
      {
        assert rows[..i + 1][..i] == rows[..i];
        loaded := loaded[rows[i].code := rows[i].id];
      }
      assert rows[..|rows|] == rows;
    }

    method IdByCode(code: AccountCode) returns (id: Option<string>)
      modifies this
      ensures (idByCodeCache, id) == LookUpCode(old(idByCodeCache), db.tables.accounts, code)
    {
      if code in idByCodeCache {
        return Some(idByCodeCache[code]);
      }
      idByCodeCache := LoadCodes();
      id := if code in idByCodeCache then Some(idByCodeCache[code]) else None;
    }
  }

  class AccountingRepository {
    const db: Database
    const accounts: AccountsRepository
    const fiscalPeriods: FiscalPeriodsService

    constructor (db: Database, accounts: AccountsRepository, fiscalPeriods: FiscalPeriodsService)
      requires accounts.db == db && fiscalPeriods.db == db
      ensures this.db == db && this.accounts == accounts && this.fiscalPeriods == fiscalPeriods && Wired()
    {
      this.db, this.accounts, this.fiscalPeriods := db, accounts, fiscalPeriods;
    }

    /** All parts work on the same database. */
    predicate Wired() {
      accounts.db == db && fiscalPeriods.db == db
    }

    /** The state as Books sees it. */
    function State(): World
      reads db, accounts, fiscalPeriods
    {
      World(db.tables, fiscalPeriods.Cache(), accounts.idByCodeCache)
    }

    method StampAccount(input: PostInput, clock: Clock) returns (stamped: Result<Entry>)
      requires Wired()
      modifies accounts, fiscalPeriods
      ensures (State(), stamped) == Stamped(old(State()), input, clock)
    {
      var entryDate := DateOrToday(input.entryDate, clock);
      var open := fiscalPeriods.AssertOpen(entryDate, clock.now);
      if !open {
        return Err(PeriodLocked);
      }
      if input.accountId.Some? {
        return Ok(EntryOf(input, entryDate.stored, input.accountId));
      }
      var code := if input.accountCode.Some? then input.accountCode.value
                  else ClassifyLedgerAccount(Some(input.reference), input.side, input.saleId);
      var accountId := accounts.IdByCode(System(code));
      stamped := Ok(EntryOf(input, entryDate.stored, accountId));
    }

    /** Also `createLedgerEntryWithManager`: the caller's transaction is around it. */
    method CreateLedgerEntry(input: PostInput, clock: Clock) returns (outcome: Outcome)
      requires Wired()
      modifies db, accounts, fiscalPeriods
      ensures (State(), outcome) == Posted(old(State()), input, clock)
    {
      var stamped := StampAccount(input, clock);
      if stamped.Err? {
        return Refused(stamped.error);
      }
      var e := stamped.value;
      if e.account.Some? && !HasId(db.tables.accounts, e.account.value) {
        return Refused(UnknownAccount);
      }
      db.tables := db.tables.(ledger := db.tables.ledger + [e]);
      outcome := Done;
    }

    method DeleteLedgerByReference(reference: string)
      modifies db
      ensures db.tables == old(db.tables).(ledger := Without(old(db.tables.ledger), {reference}))
    {
      var rows, kept := db.tables.ledger, [];
      for i := 0 to |rows|
        invariant db.tables == old(db.tables) && kept == Without(rows[..i], {reference})
      {
        assert rows[..i + 1] == rows[..i] + [rows[i]];
        WhereAppends(rows[..i], [rows[i]], NotReferenced({reference}));
        if rows[i].reference != reference {
          kept := kept + [rows[i]];
        }
      }
      assert rows[..|rows|] == rows;
      db.tables := db.tables.(ledger := kept);
    }
  }

  class JournalVouchersService {
    const db: Database
    const accounting: AccountingRepository

    constructor (db: Database, accounting: AccountingRepository)
      requires accounting.db == db && accounting.Wired()
      ensures this.db == db && this.accounting == accounting && Wired()
    {
      this.db, this.accounting := db, accounting;
    }

    predicate Wired() {
      accounting.db == db && accounting.Wired()
    }

    /** The sum of the amounts of one side, accumulated line by line. */
    method SideTotal(lines: seq<Line>, side: Side) returns (cents: int)
      ensures cents == Cents(Total(Amounts(lines, side)))
    {
      var sum := 0.0;
      for i := 0 to |lines|
        invariant sum + Total(Amounts(lines[i..], side)) == Total(Amounts(lines, side))
      {
        assert lines[i..][1..] == lines[i + 1..];
        AmountsTotal(lines[i..], side);
        if lines[i].side == side {
          sum := sum + lines[i].amount;
        }
      }
      cents := Cents(sum);
    }

    /** Read, increment and save the counter of the year, then print the number. */
    method NextVoucherNumber(year: nat) returns (number: string)
      modifies db
      ensures number == NextNumber(old(db.tables), year)
      ensures db.tables == old(db.tables).(counters := old(db.tables.counters)[year := NextSequence(old(db.tables), year)])
    {
      var existing := if year in db.tables.counters then Some(db.tables.counters[year]) else None;
      var nextSeq := (if existing.Some? then existing.value else 0) + 1;
      db.tables := db.tables.(counters := db.tables.counters[year := nextSeq]);
      number := VoucherNumbering.Print(VoucherNumbering.Voucher(year, nextSeq));
    }

    method AllAccountsExist(lines: seq<Line>) returns (ok: bool)
      ensures ok <==> forall i | 0 <= i < |lines| :: HasId(db.tables.accounts, lines[i].account)
    {
      for i := 0 to |lines|
        invariant forall j | 0 <= j < i :: HasId(db.tables.accounts, lines[j].account)
      {
        if !HasId(db.tables.accounts, lines[i].account) {
          return false;
        }
      }
      return true;
    }

    method Create(dto: JournalDto, actor: Actor, voucherId: string, clock: Clock) returns (outcome: Outcome)
      requires Wired()
      modifies db, accounting.accounts, accounting.fiscalPeriods
      ensures (accounting.State(), outcome) == Journaled(old(accounting.State()), dto, actor, voucherId, clock)
    {
      var branch := ResolvedBranch(dto.branch, actor);
      if branch.Err? {
        return Refused(branch.error);
      }
      var entryDate := DateOrToday(dto.entryDate, clock);
      if LexLess(Iso(clock.today), entryDate.text) {
        return Refused(FutureDate);
      }
      var debits := SideTotal(dto.lines, Debit);
      var credits := SideTotal(dto.lines, Credit);
      if debits <= 0 || credits <= 0 {
        return Refused(OneSided);
      }
      if debits != credits {
        return Refused(OutOfBalance);
      }
      var allExist := AllAccountsExist(dto.lines);
      if !allExist {
        return Refused(UnknownAccount);
      }
      LinesNotEmpty(dto.lines);
      outcome := Transact(dto.lines, branch.value, entryDate, debits, voucherId, clock);
    }

    /** The transaction of `create`; a refusal inside it rolls the tables back. */
    method Transact(lines: seq<Line>, branch: string, entryDate: DateText, total: int, voucherId: string, clock: Clock)
      returns (outcome: Outcome)
      requires Wired() && lines != []
      requires forall i | 0 <= i < |lines| :: HasId(db.tables.accounts, lines[i].account)
      modifies db, accounting.accounts, accounting.fiscalPeriods
      ensures (accounting.State(), outcome)
        == Transacted(old(accounting.State()), lines, branch, entryDate, total, voucherId, clock)
    {
      var begin := db.tables;
      var voucherNumber := NextVoucherNumber(Number(entryDate.text[..4]));
      if NumberTaken(db.tables, voucherNumber) {
        db.tables := begin;
        return Refused(DuplicateNumber);
      }
      var voucher := VoucherRow(voucherId, voucherNumber, branch, entryDate.stored, total);
      db.tables := db.tables.(vouchers := db.tables.vouchers + [voucher]);
      ghost var w := accounting.State();
      ghost var cache := Refreshed(w.cache, w.db.locks, clock.now);
      for i := 0 to |lines|
        invariant Wired()
        invariant i > 0 ==> IsOpen(cache, entryDate)
        invariant accounting.State() == w.(
          db := w.db.(ledger := w.db.ledger + LineRows(lines[..i], branch, entryDate.stored, voucherNumber, voucherId)),
          cache := if i > 0 then cache else w.cache)
      {
        ghost var before := accounting.State();
        var input := LineInput(lines[i], branch, entryDate, voucherNumber, voucherId);
        LinePosted(w, before, input, clock);
        var posted := accounting.CreateLedgerEntry(input, clock);
        if posted.Refused? {
          db.tables := begin;
          return Refused(posted.error);
        }
        LineRowsGrow(lines, i, branch, entryDate.stored, voucherNumber, voucherId);
      }
      assert lines[..|lines|] == lines;
      outcome := Done;
    }
  }

  lemma AmountsTotal(lines: seq<Line>, side: Side)
    requires lines != []
    ensures Total(Amounts(lines, side))
      == (if lines[0].side == side then lines[0].amount else 0.0) + Total(Amounts(lines[1..], side))
  {
    var rest := Amounts(lines[1..], side);
    assert ([lines[0].amount] + rest)[1..] == rest && [] + rest == rest;
  }

  lemma {:induction false} LineRowsGrow(
      lines: seq<Line>, i: nat, branch: string, date: Date, number: string, voucherId: string)
    requires i < |lines|
    ensures LineRows(lines[..i + 1], branch, date, number, voucherId)
      == LineRows(lines[..i], branch, date, number, voucherId) + [LineRow(lines[i], branch, date, number, voucherId)]
  {
    if i == 0 {
      assert lines[..1] == [lines[0]];
    } else {
      var rest := lines[1..];
      assert lines[..i + 1][1..] == rest[..i] && lines[..i][1..] == rest[..i - 1] && rest[i - 1] == lines[i];
      LineRowsGrow(rest, i - 1, branch, date, number, voucherId);
    }
  }

  /** Posting one line of a voucher whose account exists: refused if its month is locked, with
      the cache refreshed at most once whichever line it is. */
  lemma LinePosted(w: World, before: World, input: PostInput, clock: Clock)
    requires input.accountId.Some? && input.entryDate.Some? && HasId(before.db.accounts, input.accountId.value)
    requires before.db.locks == w.db.locks
    requires before.cache == w.cache || before.cache == Refreshed(w.cache, w.db.locks, clock.now)
    ensures var cache := Refreshed(w.cache, w.db.locks, clock.now);
            Posted(before, input, clock) ==
              if IsOpen(cache, input.entryDate.value)
              then
                var e := EntryOf(input, input.entryDate.value.stored, input.accountId);
                (before.(cache := cache, db := before.db.(ledger := before.db.ledger + [e])), Done)
              else (before.(cache := cache), Refused(PeriodLocked))
  {
    assert Refreshed(before.cache, before.db.locks, clock.now) == Refreshed(w.cache, w.db.locks, clock.now);
  }

  class AccountingService {
    const db: Database
    const accounting: AccountingRepository

    constructor (db: Database, accounting: AccountingRepository)
      requires accounting.db == db && accounting.Wired()
      ensures this.db == db && this.accounting == accounting && Wired()
    {
      this.db, this.accounting := db, accounting;
    }

    predicate Wired() {
      accounting.db == db && accounting.Wired()
    }

    method CreateExpense(requested: Option<string>, amount: real, id: string, user: Actor, clock: Clock)
      returns (outcome: Outcome)
      requires Wired()
      modifies db, accounting.accounts, accounting.fiscalPeriods
      ensures (accounting.State(), outcome) == ExpenseCreated(old(accounting.State()), requested, amount, id, user, clock)
    {
      var branch: string;
      if !user.isAdmin {
        if user.branch.None? {
          return Refused(NoBranchLinked);
        }
        branch := user.branch.value;
      } else {
        if requested.None? {
          return Refused(BranchRequired);
        }
        branch := requested.value;
      }
      db.tables := db.tables.(expenses := db.tables.expenses[id := ExpenseRow(branch, Cents(amount), Pending)]);
      outcome := accounting.CreateLedgerEntry(
        PostInput(branch, Debit, amount, ExpenseReference(id), None, None, None, None, None), clock);
    }

    method DeleteExpense(id: string, user: Actor) returns (outcome: Outcome)
      requires Wired()
      modifies db
      ensures (accounting.State(), outcome) == ExpenseDeleted(old(accounting.State()), id, user)
    {
      if id !in db.tables.expenses {
        return Refused(ExpenseNotFound);
      }
      var expense := db.tables.expenses[id];
      if !user.isAdmin {
        if Some(expense.branch) != user.branch {
          return Refused(OtherBranch);
        }
        if expense.status != Pending {
          return Refused(NotPending);
        }
      }
      accounting.DeleteLedgerByReference(ExpenseReference(id));
      db.tables := db.tables.(expenses := db.tables.expenses - {id});
      outcome := Done;
    }

    method ReviewExpense(id: string, verdict: ExpenseStatus) returns (outcome: Outcome)
      requires Wired()
      modifies db
      ensures (accounting.State(), outcome) == ExpenseReviewed(old(accounting.State()), id, verdict)
    {
      if id !in db.tables.expenses {
        return Refused(ExpenseNotFound);
      }
      var expense := db.tables.expenses[id];
      if expense.status != Pending {
        return Refused(NotPending);
      }
      db.tables := db.tables.(expenses := db.tables.expenses[id := expense.(status := verdict)]);
      outcome := Done;
    }
  }
}

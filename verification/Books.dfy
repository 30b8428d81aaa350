/** The accounting services as one transition function over the database tables and the two
    in-process caches: what each call leaves behind. The classes in AccountingServices
    implement it step by step; the theorems about whole runs are in BookTheorems. */
module Books {
  import opened Options
  import opened Text
  import opened Money
  import opened Calendar
  import opened Ledger
  import FiscalCache
  import VoucherNumbering

  datatype ExpenseStatus = Pending | Approved | Rejected

  datatype ExpenseRow = ExpenseRow(branch: string, cents: int, status: ExpenseStatus)

  datatype VoucherRow = VoucherRow(id: string, number: string, branch: string, date: Date, total: int)

  datatype Tables = Tables(
    accounts: seq<Account>,
    locks: set<Period>,
    ledger: seq<Entry>,
    counters: map<nat, nat>,
    vouchers: seq<VoucherRow>,
    expenses: map<string, ExpenseRow>)

  /** The cached lock set and the time it was loaded, 0 when busted. */
  datatype LockCache = LockCache(lockedSet: set<string>, loadedAt: nat)

  datatype World = World(db: Tables, cache: LockCache, codes: map<AccountCode, string>)

  /** Milliseconds since 1970, and the UTC date of today. */
  datatype Clock = Clock(now: nat, today: Date)

  datatype Error =
    | AlreadyLocked | PeriodLocked | FutureDate | OneSided | OutOfBalance | UnknownAccount | DuplicateNumber
    | BranchRequired | NoBranchLinked | OtherBranch | ExpenseNotFound | NotPending

  datatype Result<+T> = Ok(value: T) | Err(error: Error)

  datatype Outcome = Done | Refused(error: Error)

  /** A user as the services look at one: a manager is pinned to a branch, an admin is not. */
  datatype Actor = Actor(isAdmin: bool, branch: Option<string>)

  // Fiscal periods.

  function Refreshed(cache: LockCache, locks: set<Period>, now: nat): LockCache {
    if now - cache.loadedAt < FiscalCache.CACHE_TTL_MS then cache else LockCache(Keys(locks), now)
  }

  /** Whether the month that the services read out of the text is open. */
  predicate IsOpen(cache: LockCache, t: DateText) {
    TextKey(t) !in cache.lockedSet
  }

  /** The entry date a caller gives, otherwise `toIsoDate(new Date())`. */
  function DateOrToday(given: Option<DateText>, clock: Clock): (t: DateText)
    ensures given.None? ==> ReadsRight(t) && t.stored == clock.today
  {
    DashedReadsRight(clock.today);
    if given.Some? then given.value else Dashed(clock.today)
  }

  function LockPeriod(w: World, p: Period): (World, Outcome) {
    if p in w.db.locks then (w, Refused(AlreadyLocked))
    else (w.(db := w.db.(locks := w.db.locks + {p}), cache := w.cache.(loadedAt := 0)), Done)
  }

  function UnlockPeriod(w: World, p: Period): World {
    w.(db := w.db.(locks := w.db.locks - {p}), cache := w.cache.(loadedAt := 0))
  }

  // Chart of accounts.

  predicate HasCode(accounts: seq<Account>, code: AccountCode) {
    exists i | 0 <= i < |accounts| :: accounts[i].code == code
  }

  predicate HasId(accounts: seq<Account>, id: string) {
    exists i | 0 <= i < |accounts| :: accounts[i].id == id
  }

  /** INSERT ... ON CONFLICT DO NOTHING for each system account; `ids` are the generated ids. */
  function WithSystemAccounts(accounts: seq<Account>, seeds: seq<(SystemCode, AccountType)>, ids: seq<string>): seq<Account>
    requires |ids| == |seeds|
    decreases |ids|
  {
    if seeds == [] then accounts
    else
      var (code, kind) := seeds[0];
      WithSystemAccounts(
        if HasCode(accounts, System(code)) then accounts else accounts + [Account(ids[0], System(code), kind)],
        seeds[1..], ids[1..])
  }

  /** `new Map(rows.map((a) => [a.code, a.id]))`. */
  function IdsByCode(accounts: seq<Account>): map<AccountCode, string> {
    if accounts == [] then map[]
    else
      var last := accounts[|accounts| - 1];
      IdsByCode(accounts[..|accounts| - 1])[last.code := last.id]
  }

  /** `idByCode`: a hit in the cache, otherwise a reload of the whole chart. */
  function LookUpCode(codes: map<AccountCode, string>, accounts: seq<Account>, code: AccountCode)
    : (map<AccountCode, string>, Option<string>)
  {
    if code in codes then (codes, Some(codes[code]))
    else
      var loaded := IdsByCode(accounts);
      (loaded, if code in loaded then Some(loaded[code]) else None)
  }

  // The ledger chokepoint.

  datatype PostInput = PostInput(
    branch: string,
    side: Side,
    amount: real,
    reference: string,
    saleId: Option<string>,
    accountId: Option<string>,
    accountCode: Option<SystemCode>,
    voucher: Option<string>,
    entryDate: Option<DateText>)

  function PostingCode(input: PostInput): AccountCode {
    System(if input.accountCode.Some? then input.accountCode.value
           else ClassifyLedgerAccount(Some(input.reference), input.side, input.saleId))
  }

  function EntryOf(input: PostInput, date: Date, account: Option<string>): Entry {
    Entry(input.branch, input.side, Cents(input.amount), input.reference, input.saleId, account, input.voucher, date)
  }

  /** `stampAccount`: the business date must be open, and an account is assigned. */
  function Stamped(w: World, input: PostInput, clock: Clock): (World, Result<Entry>) {
    var w1 := w.(cache := Refreshed(w.cache, w.db.locks, clock.now));
    var t := DateOrToday(input.entryDate, clock);
    if !IsOpen(w1.cache, t) then (w1, Err(PeriodLocked))
    else if input.accountId.Some? then (w1, Ok(EntryOf(input, t.stored, input.accountId)))
    else
      var (codes, account) := LookUpCode(w.codes, w.db.accounts, PostingCode(input));
      (w1.(codes := codes), Ok(EntryOf(input, t.stored, account)))
  }

  /** Saving a stamped row; the foreign key refuses an account that does not exist. */
  function Posted(w: World, input: PostInput, clock: Clock): (World, Outcome) {
    var (w1, stamped) := Stamped(w, input, clock);
    match stamped
    case Err(error) => (w1, Refused(error))
    case Ok(e) =>
      if e.account.Some? && !HasId(w.db.accounts, e.account.value) then (w1, Refused(UnknownAccount))
      else (w1.(db := w1.db.(ledger := w1.db.ledger + [e])), Done)
  }

  // Journal vouchers.

  datatype Line = Line(account: string, side: Side, amount: real)

  datatype JournalDto = JournalDto(branch: Option<string>, entryDate: Option<DateText>, lines: seq<Line>)

  /** The amounts of one side, in order. */
  function Amounts(lines: seq<Line>, side: Side): seq<real> {
    if lines == [] then []
    else (if lines[0].side == side then [lines[0].amount] else []) + Amounts(lines[1..], side)
  }

  lemma LinesNotEmpty(lines: seq<Line>)
    requires Cents(Total(Amounts(lines, Debit))) > 0
    ensures lines != []
  {
    if lines == [] {
      RoundWhole(Total([]) * 100.0, 0);
    }
  }

  function ResolvedBranch(requested: Option<string>, actor: Actor): Result<string> {
    if actor.isAdmin then
      if requested.None? then Err(BranchRequired) else Ok(requested.value)
    else if actor.branch.None? then Err(NoBranchLinked)
    else if requested.Some? && requested != actor.branch then Err(OtherBranch)
    else Ok(actor.branch.value)
  }

  function LineInput(l: Line, branch: string, t: DateText, number: string, voucherId: string): PostInput {
    PostInput(branch, l.side, l.amount, number, None, Some(l.account), None, Some(voucherId), Some(t))
  }

  function LineRow(l: Line, branch: string, date: Date, number: string, voucherId: string): Entry {
    Entry(branch, l.side, Cents(l.amount), number, None, Some(l.account), Some(voucherId), date)
  }

  /** One ledger row a line. */
  function LineRows(lines: seq<Line>, branch: string, date: Date, number: string, voucherId: string): seq<Entry> {
    if lines == [] then []
    else [LineRow(lines[0], branch, date, number, voucherId)] + LineRows(lines[1..], branch, date, number, voucherId)
  }

  function NextSequence(db: Tables, year: nat): nat {
    (if year in db.counters then db.counters[year] else 0) + 1
  }

  function NextNumber(db: Tables, year: nat): string {
    VoucherNumbering.Print(VoucherNumbering.Voucher(year, NextSequence(db, year)))
  }

  predicate NumberTaken(db: Tables, number: string) {
    exists i | 0 <= i < |db.vouchers| :: db.vouchers[i].number == number
  }

  /** The comparison of texts that refuses future entry dates. */
  predicate InTheFuture(t: DateText, clock: Clock) {
    LexLess(Iso(clock.today), t.text)
  }

  /** What `create` refuses before it opens its transaction. */
  function JournalRefusal(db: Tables, dto: JournalDto, actor: Actor, clock: Clock): Option<Error> {
    var debits, credits := Cents(Total(Amounts(dto.lines, Debit))), Cents(Total(Amounts(dto.lines, Credit)));
    if ResolvedBranch(dto.branch, actor).Err? then Some(ResolvedBranch(dto.branch, actor).error)
    else if InTheFuture(DateOrToday(dto.entryDate, clock), clock) then Some(FutureDate)
    else if debits <= 0 || credits <= 0 then Some(OneSided)
    else if debits != credits then Some(OutOfBalance)
    else if exists i | 0 <= i < |dto.lines| :: !HasId(db.accounts, dto.lines[i].account) then Some(UnknownAccount)
    else None
  }

  /** The transaction of `create`: the counter, the voucher and its rows, or none of them. */
  function Transacted(
      w: World, lines: seq<Line>, branch: string, t: DateText, total: int, voucherId: string, clock: Clock)
    : (World, Outcome)
  {
    var year := ReadYear(t);
    var number := NextNumber(w.db, year);
    var w1 := w.(cache := Refreshed(w.cache, w.db.locks, clock.now));
    if NumberTaken(w.db, number) then (w, Refused(DuplicateNumber))
    else if !IsOpen(w1.cache, t) then (w1, Refused(PeriodLocked))
    else
      (w1.(db := w.db.(
         counters := w.db.counters[year := NextSequence(w.db, year)],
         vouchers := w.db.vouchers + [VoucherRow(voucherId, number, branch, t.stored, total)],
         ledger := w.db.ledger + LineRows(lines, branch, t.stored, number, voucherId))),
       Done)
  }

  /** `create`. */
  function Journaled(w: World, dto: JournalDto, actor: Actor, voucherId: string, clock: Clock): (World, Outcome) {
    var refusal := JournalRefusal(w.db, dto, actor, clock);
    if refusal.Some? then (w, Refused(refusal.value))
    else
      Transacted(w, dto.lines, ResolvedBranch(dto.branch, actor).value, DateOrToday(dto.entryDate, clock),
                 Cents(Total(Amounts(dto.lines, Debit))), voucherId, clock)
  }

  // Expenses.

  /** `EXP-` and the first eight characters of the id in upper case. */
  function ExpenseReference(id: string): string {
    "EXP-" + Upper(if |id| <= 8 then id else id[..8])
  }

  function ExpenseBranch(requested: Option<string>, user: Actor): Result<string> {
    if !user.isAdmin then
      if user.branch.None? then Err(NoBranchLinked) else Ok(user.branch.value)
    else if requested.None? then Err(BranchRequired)
    else Ok(requested.value)
  }

  function ExpenseInput(branch: string, amount: real, id: string): PostInput {
    PostInput(branch, Debit, amount, ExpenseReference(id), None, None, None, None, None)
  }

  /** `createExpense`: the expense is saved first and stays when the posting is refused. */
  function ExpenseCreated(w: World, requested: Option<string>, amount: real, id: string, user: Actor, clock: Clock)
    : (World, Outcome)
  {
    match ExpenseBranch(requested, user)
    case Err(error) => (w, Refused(error))
    case Ok(branch) =>
      var saved := w.(db := w.db.(expenses := w.db.expenses[id := ExpenseRow(branch, Cents(amount), Pending)]));
      Posted(saved, ExpenseInput(branch, amount, id), clock)
  }

  function ExpenseDeleted(w: World, id: string, user: Actor): (World, Outcome) {
    if id !in w.db.expenses then (w, Refused(ExpenseNotFound))
    else if !user.isAdmin && Some(w.db.expenses[id].branch) != user.branch then (w, Refused(OtherBranch))
    else if !user.isAdmin && !w.db.expenses[id].status.Pending? then (w, Refused(NotPending))
    else
      (w.(db := w.db.(ledger := Without(w.db.ledger, {ExpenseReference(id)}), expenses := w.db.expenses - {id})), Done)
  }

  function ExpenseReviewed(w: World, id: string, verdict: ExpenseStatus): (World, Outcome) {
    if id !in w.db.expenses then (w, Refused(ExpenseNotFound))
    else if !w.db.expenses[id].status.Pending? then (w, Refused(NotPending))
    else (w.(db := w.db.(expenses := w.db.expenses[id := w.db.expenses[id].(status := verdict)])), Done)
  }

  // Runs.

  datatype Call =
    | Lock(period: Period)
    | Unlock(period: Period)
    | PostJournal(dto: JournalDto, actor: Actor, voucherId: string)
    | Post(input: PostInput)
    | CreateExpense(requested: Option<string>, amount: real, id: string, user: Actor)
    | DeleteExpense(id: string, user: Actor)
    | ReviewExpense(id: string, verdict: ExpenseStatus)
    | EnsureSeeded(ids: seq<string>)

  datatype Event = Event(call: Call, clock: Clock)

  function Seeded(w: World, ids: seq<string>): World
    requires |ids| == |SYSTEM_ACCOUNTS|
  {
    w.(db := w.db.(accounts := WithSystemAccounts(w.db.accounts, SYSTEM_ACCOUNTS, ids)), codes := map[])
  }

  /** One atomic service call. */
  function Next(w: World, e: Event): World {
    match e.call
    case Lock(p) => LockPeriod(w, p).0
    case Unlock(p) => UnlockPeriod(w, p)
    case PostJournal(dto, actor, voucherId) => Journaled(w, dto, actor, voucherId, e.clock).0
    case Post(input) => Posted(w, input, e.clock).0
    case CreateExpense(requested, amount, id, user) => ExpenseCreated(w, requested, amount, id, user, e.clock).0
    case DeleteExpense(id, user) => ExpenseDeleted(w, id, user).0
    case ReviewExpense(id, verdict) => ExpenseReviewed(w, id, verdict).0
    case EnsureSeeded(ids) => if |ids| == |SYSTEM_ACCOUNTS| then Seeded(w, ids) else w
  }

  function After(w: World, events: seq<Event>): World
    decreases |events|
  {
    if events == [] then w else After(Next(w, events[0]), events[1..])
  }
}

/** What whole runs of the accounting services keep. */
module BookTheorems {
  import opened Options
  import opened Text
  import opened Money
  import opened Calendar
  import opened Sums
  import opened Ledger
  import opened Books
  import FiscalCache
  import VoucherNumbering

  /** The wall clock is past the first 15 seconds of 1970. */
  predicate Wound(e: Event) {
    e.clock.now >= FiscalCache.CACHE_TTL_MS
  }

  // The cache against the lock table.

  /** A loaded cache equals the lock table. */
  predicate Coherent(w: World) {
    w.cache.loadedAt != 0 ==> w.cache.lockedSet == Keys(w.db.locks)
  }

  lemma PostedKeepsCoherent(w: World, input: PostInput, clock: Clock)
    requires Coherent(w)
    ensures Coherent(Posted(w, input, clock).0)
  {
  }

  lemma JournaledKeepsCoherent(w: World, dto: JournalDto, actor: Actor, voucherId: string, clock: Clock)
    requires Coherent(w)
    ensures Coherent(Journaled(w, dto, actor, voucherId, clock).0)
  {
  }

  lemma NextKeepsCoherent(w: World, e: Event)
    requires Coherent(w)
    ensures Coherent(Next(w, e))
  {
    match e.call
    case PostJournal(dto, actor, voucherId) => JournaledKeepsCoherent(w, dto, actor, voucherId, e.clock);
    case Post(input) => PostedKeepsCoherent(w, input, e.clock);
    case CreateExpense(requested, amount, id, user) =>
      var branch := ExpenseBranch(requested, user);
      if branch.Ok? {
        var saved := w.(db := w.db.(expenses := w.db.expenses[id := ExpenseRow(branch.value, Cents(amount), Pending)]));
        PostedKeepsCoherent(saved, ExpenseInput(branch.value, amount, id), e.clock);
      }
    case _ =>
  }

  /** With a coherent cache, an entry date is accepted exactly when the month read out of it is
      not locked; for a text that reads right that is the month it is stored under. */
  lemma AssertOpenIsExact(w: World, t: DateText, now: nat)
    requires Coherent(w) && now >= FiscalCache.CACHE_TTL_MS
    ensures IsOpen(Refreshed(w.cache, w.db.locks, now), t) <==> ReadPeriod(t) !in w.db.locks
    ensures ReadsRight(t) ==> (IsOpen(Refreshed(w.cache, w.db.locks, now), t) <==> PeriodOf(t.stored) !in w.db.locks)
  {
    KeyMember(ReadPeriod(t), w.db.locks);
  }

  /** One process with atomic calls: after any run, `assertOpen` accepts an entry date exactly
      when the month it reads is not in the lock table at that moment. */
  lemma {:induction false} AssertOpenIsExactOverRuns(w: World, events: seq<Event>, t: DateText, now: nat)
    requires Coherent(w) && now >= FiscalCache.CACHE_TTL_MS
    ensures var end := After(w, events);
            Coherent(end) && (IsOpen(Refreshed(end.cache, end.db.locks, now), t) <==> ReadPeriod(t) !in end.db.locks)
    decreases |events|
  {
    if events == [] {
      AssertOpenIsExact(w, t, now);
    } else {
      NextKeepsCoherent(w, events[0]);
      AssertOpenIsExactOverRuns(Next(w, events[0]), events[1..], t, now);
    }
  }

  // What one call adds to the ledger and deletes from it.

  /** The entry date a call posts under. */
  function EntryText(e: Event): DateText {
    DateOrToday(if e.call.PostJournal? then e.call.dto.entryDate
                else if e.call.Post? then e.call.input.entryDate
                else None, e.clock)
  }

  function Added(w: World, e: Event): seq<Entry> {
    match e.call
    case PostJournal(dto, actor, voucherId) =>
      if Journaled(w, dto, actor, voucherId, e.clock).1.Done? then JournalRowsOf(w, e) else []
    case Post(input) => PostedRow(w, input, e.clock)
    case CreateExpense(requested, amount, id, user) =>
      var branch := ExpenseBranch(requested, user);
      if branch.Ok? then PostedRow(w, ExpenseInput(branch.value, amount, id), e.clock) else []
    case _ => []
  }

  /** The rows of a journal that is accepted. */
  function JournalRowsOf(w: World, e: Event): seq<Entry>
    requires e.call.PostJournal? && ResolvedBranch(e.call.dto.branch, e.call.actor).Ok?
  {
    LineRows(e.call.dto.lines, ResolvedBranch(e.call.dto.branch, e.call.actor).value, EntryText(e).stored,
             NextNumber(w.db, ReadYear(EntryText(e))), e.call.voucherId)
  }

  function PostedRow(w: World, input: PostInput, clock: Clock): seq<Entry> {
    if Posted(w, input, clock).1.Done? then [Stamped(w, input, clock).1.value] else []
  }

  function Deleted(w: World, e: Event): set<string> {
    if e.call.DeleteExpense? && ExpenseDeleted(w, e.call.id, e.call.user).1.Done?
    then {ExpenseReference(e.call.id)} else {}
  }

  lemma PostedLedger(w: World, input: PostInput, clock: Clock)
    ensures Posted(w, input, clock).0.db == w.db.(ledger := w.db.ledger + PostedRow(w, input, clock))
  {
  }

  lemma TransactedLedger(
      w: World, lines: seq<Line>, branch: string, t: DateText, total: int, voucherId: string, clock: Clock)
    ensures var (w1, outcome) := Transacted(w, lines, branch, t, total, voucherId, clock);
            w1.db.ledger == w.db.ledger
              + if outcome.Done? then LineRows(lines, branch, t.stored, NextNumber(w.db, ReadYear(t)), voucherId) else []
  {
  }

  lemma {:induction false} JournaledLedger(w: World, e: Event)
    requires e.call.PostJournal?
    ensures Next(w, e).db.ledger == w.db.ledger + Added(w, e)
  {
    var dto := e.call.dto;
    if JournalRefusal(w.db, dto, e.call.actor, e.clock).None? {
      TransactedLedger(w, dto.lines, ResolvedBranch(dto.branch, e.call.actor).value, EntryText(e),
                       Cents(Total(Amounts(dto.lines, Debit))), e.call.voucherId, e.clock);
    }
  }

  /** Saving the expense first does not change how its posting goes. */
  lemma ExpenseSaved(w: World, branch: string, amount: real, id: string, clock: Clock)
    ensures var saved := w.(db := w.db.(expenses := w.db.expenses[id := ExpenseRow(branch, Cents(amount), Pending)]));
            var input := ExpenseInput(branch, amount, id);
            && PostedRow(saved, input, clock) == PostedRow(w, input, clock)
            && Posted(saved, input, clock).0.db
               == saved.db.(ledger := w.db.ledger + PostedRow(w, input, clock))
  {
    var saved := w.(db := w.db.(expenses := w.db.expenses[id := ExpenseRow(branch, Cents(amount), Pending)]));
    PostedLedger(saved, ExpenseInput(branch, amount, id), clock);
  }

  lemma CreatedLedger(w: World, e: Event)
    requires e.call.CreateExpense?
    ensures Next(w, e).db.ledger == w.db.ledger + Added(w, e)
  {
    var branch := ExpenseBranch(e.call.requested, e.call.user);
    if branch.Ok? {
      ExpenseSaved(w, branch.value, e.call.amount, e.call.id, e.clock);
    }
  }

  lemma PostLedger(w: World, e: Event)
    requires e.call.Post?
    ensures Next(w, e).db.ledger == w.db.ledger + Added(w, e)
  {
    PostedLedger(w, e.call.input, e.clock);
  }

  lemma LockLedger(w: World, p: Period)
    ensures LockPeriod(w, p).0.db.ledger == w.db.ledger && UnlockPeriod(w, p).db.ledger == w.db.ledger
  {
  }

  lemma ReviewLedger(w: World, id: string, verdict: ExpenseStatus)
    ensures ExpenseReviewed(w, id, verdict).0.db.ledger == w.db.ledger
  {
  }

  predicate Posts(e: Event) {
    e.call.PostJournal? || e.call.Post? || e.call.CreateExpense?
  }

  lemma NothingDeleted(w: World, e: Event)
    requires !e.call.DeleteExpense?
    ensures Without(w.db.ledger, Deleted(w, e)) == w.db.ledger
  {
    WhereKeepsAll(w.db.ledger, NotReferenced({}));
  }

  lemma DeletionStep(w: World, e: Event)
    requires e.call.DeleteExpense?
    ensures Next(w, e).db.ledger == Without(w.db.ledger, Deleted(w, e))
  {
    WhereKeepsAll(w.db.ledger, NotReferenced({}));
  }

  lemma {:induction false} QuietStep(w: World, e: Event)
    requires !e.call.DeleteExpense? && !Posts(e)
    ensures Next(w, e).db.ledger == w.db.ledger
  {
    match e.call
    case Lock(p) => LockLedger(w, p);
    case Unlock(p) => LockLedger(w, p);
    case ReviewExpense(id, verdict) => ReviewLedger(w, id, verdict);
    case EnsureSeeded(_) =>
  }

  lemma {:induction false} PostingStep(w: World, e: Event)
    requires Posts(e)
    ensures Next(w, e).db.ledger == w.db.ledger + Added(w, e)
  {
    if e.call.PostJournal? {
      JournaledLedger(w, e);
    } else if e.call.Post? {
      PostLedger(w, e);
    } else {
      CreatedLedger(w, e);
    }
  }

  lemma NothingAdded(w: World, e: Event)
    requires !Posts(e)
    ensures Added(w, e) == []
  {
  }

  /** Every call is a deletion by reference followed by an insertion. */
  lemma {:induction false} LedgerStep(w: World, e: Event)
    ensures Next(w, e).db.ledger == Without(w.db.ledger, Deleted(w, e)) + Added(w, e)
  {
    if Posts(e) {
      PostingStep(w, e);
      NothingDeleted(w, e);
    } else {
      NothingAdded(w, e);
      if e.call.DeleteExpense? {
        DeletionStep(w, e);
      } else {
        QuietStep(w, e);
        NothingDeleted(w, e);
      }
    }
  }

  function RunDeleted(w: World, events: seq<Event>): set<string>
    decreases |events|
  {
    if events == [] then {} else Deleted(w, events[0]) + RunDeleted(Next(w, events[0]), events[1..])
  }

  /** No call of the run adds a row of the selection. */
  predicate NeverAdds(w: World, events: seq<Event>, keep: Selection)
    decreases |events|
  {
    events == [] ||
    ((forall i | 0 <= i < |Added(w, events[0])| :: !keep(Added(w, events[0])[i]))
     && NeverAdds(Next(w, events[0]), events[1..], keep))
  }

  /** A selection to which nothing is added only loses rows, those deleted by reference. */
  lemma {:induction false} SelectionOnlyShrinks(w: World, events: seq<Event>, keep: Selection)
    requires NeverAdds(w, events, keep)
    ensures Where(After(w, events).db.ledger, keep) == Without(Where(w.db.ledger, keep), RunDeleted(w, events))
    decreases |events|
  {
    if events == [] {
      WhereKeepsAll(Where(w.db.ledger, keep), NotReferenced({}));
    } else {
      var e, w1 := events[0], Next(w, events[0]);
      SelectionOnlyShrinks(w1, events[1..], keep);
      LedgerStep(w, e);
      WhereAppends(Without(w.db.ledger, Deleted(w, e)), Added(w, e), keep);
      WhereKeepsNone(Added(w, e), keep);
      WhereCommutes(w.db.ledger, NotReferenced(Deleted(w, e)), keep);
      assert Where(w1.db.ledger, keep) == Without(Where(w.db.ledger, keep), Deleted(w, e));
      WithoutTwice(Where(w.db.ledger, keep), Deleted(w, e), RunDeleted(w1, events[1..]));
    }
  }

  // Locked months.

  function InMonth(p: Period): Selection {
    (e: Entry) => PeriodOf(e.date) == p
  }

  lemma {:induction false} LineRowsShareDate(lines: seq<Line>, branch: string, date: Date, number: string, voucherId: string)
    ensures forall r | r in LineRows(lines, branch, date, number, voucherId) ::
      r.date == date && r.branch == branch && r.reference == number && r.voucher == Some(voucherId)
  {
    if lines != [] {
      LineRowsShareDate(lines[1..], branch, date, number, voucherId);
    }
  }

  /** What a call adds is stored under the date of its text. */
  lemma AddedRowsShareDate(w: World, e: Event)
    ensures forall r | r in Added(w, e) :: r.date == EntryText(e).stored
  {
    if e.call.PostJournal? && Added(w, e) != [] {
      var t := EntryText(e);
      LineRowsShareDate(e.call.dto.lines, ResolvedBranch(e.call.dto.branch, e.call.actor).value, t.stored,
                        NextNumber(w.db, ReadYear(t)), e.call.voucherId);
    }
  }

  lemma AddedOnlyWhenOpen(w: World, e: Event)
    requires Added(w, e) != []
    ensures IsOpen(Refreshed(w.cache, w.db.locks, e.clock.now), EntryText(e))
  {
  }

  /** Rows are added only when the month read out of the entry date is open; each of them is
      then dated in an open month if the text reads right. */
  lemma {:induction false} AddedRowsAreOpen(w: World, e: Event)
    requires Coherent(w) && Wound(e)
    ensures Added(w, e) != [] ==> ReadPeriod(EntryText(e)) !in w.db.locks
    ensures ReadsRight(EntryText(e)) ==> forall r | r in Added(w, e) :: PeriodOf(r.date) !in w.db.locks
  {
    if Added(w, e) != [] {
      AddedOnlyWhenOpen(w, e);
      AssertOpenIsExact(w, EntryText(e), e.clock.now);
      AddedRowsShareDate(w, e);
    }
  }

  predicate Unlocks(e: Event, p: Period) {
    e.call == Unlock(p)
  }

  /** The event can touch the closed month only through the lock check: it does not unlock the
      month, and if its entry date is stored in the month it also reads as the month. */
  predicate RespectsLock(e: Event, p: Period) {
    Wound(e) && !Unlocks(e, p) && (PeriodOf(EntryText(e).stored) == p ==> ReadsRight(EntryText(e)))
  }

  lemma ClosedMonthGetsNothing(w: World, e: Event, p: Period)
    requires Coherent(w) && p in w.db.locks && RespectsLock(e, p)
    ensures forall i | 0 <= i < |Added(w, e)| :: !InMonth(p)(Added(w, e)[i])
  {
    AddedRowsAreOpen(w, e);
    AddedRowsShareDate(w, e);
    forall i | 0 <= i < |Added(w, e)| ensures !InMonth(p)(Added(w, e)[i]) {
      assert Added(w, e)[i] in Added(w, e);
    }
  }

  lemma PostedKeepsLocks(w: World, input: PostInput, clock: Clock)
    ensures Posted(w, input, clock).0.db.locks == w.db.locks
  {
  }

  lemma JournaledKeepsLocks(w: World, e: Event)
    requires e.call.PostJournal?
    ensures Next(w, e).db.locks == w.db.locks
  {
  }

  lemma CreatedKeepsLocks(w: World, e: Event)
    requires e.call.CreateExpense?
    ensures Next(w, e).db.locks == w.db.locks
  {
    var branch := ExpenseBranch(e.call.requested, e.call.user);
    if branch.Ok? {
      ExpenseSaved(w, branch.value, e.call.amount, e.call.id, e.clock);
    }
  }

  lemma OthersKeepLocks(w: World, e: Event)
    requires !Posts(e) && !e.call.Lock? && !e.call.Unlock?
    ensures Next(w, e).db.locks == w.db.locks
  {
  }

  lemma {:induction false} LockStays(w: World, e: Event, p: Period)
    requires p in w.db.locks && !Unlocks(e, p)
    ensures p in Next(w, e).db.locks
  {
    match e.call
    case PostJournal(_, _, _) => JournaledKeepsLocks(w, e);
    case Post(input) => PostedKeepsLocks(w, input, e.clock);
    case CreateExpense(_, _, _, _) => CreatedKeepsLocks(w, e);
    case Lock(_) =>
    case Unlock(_) =>
    case _ => OthersKeepLocks(w, e);
  }

  lemma {:induction false} LockedMonthNeverGrows(w: World, events: seq<Event>, p: Period)
    requires Coherent(w) && p in w.db.locks
    requires forall i | 0 <= i < |events| :: RespectsLock(events[i], p)
    ensures NeverAdds(w, events, InMonth(p)) && p in After(w, events).db.locks
    decreases |events|
  {
    if events != [] {
      var e := events[0];
      assert RespectsLock(e, p);
      ClosedMonthGetsNothing(w, e, p);
      NextKeepsCoherent(w, e);
      LockStays(w, e, p);
      LockedMonthNeverGrows(Next(w, e), events[1..], p);
    }
  }

  /** Closed months: from a lock to the next unlock, whatever journals, postings and expenses
      are tried in between, the rows of the month only lose those deleted by reference, as long
      as no text stored in the month reads as another. */
  lemma {:induction false} ClosedMonthIsFrozen(w: World, events: seq<Event>, p: Period)
    requires Coherent(w) && p in w.db.locks
    requires forall i | 0 <= i < |events| :: RespectsLock(events[i], p)
    ensures Where(After(w, events).db.ledger, InMonth(p))
      == Without(Where(w.db.ledger, InMonth(p)), RunDeleted(w, events))
  {
    LockedMonthNeverGrows(w, events, p);
    SelectionOnlyShrinks(w, events, InMonth(p));
  }

  // What a lock and an unlock do to the months that are accepted.

  /** `assertOpen` lets an entry date pass. */
  predicate Accepts(w: World, t: DateText, now: nat) {
    IsOpen(Refreshed(w.cache, w.db.locks, now), t)
  }

  /** Locking a month closes that month and no other; it is refused for a month that is closed already. */
  lemma {:induction false} LockClosesMonth(w: World, p: Period, t: DateText, now: nat)
    requires Coherent(w) && now >= FiscalCache.CACHE_TTL_MS
    ensures Accepts(LockPeriod(w, p).0, t, now) <==> Accepts(w, t, now) && ReadPeriod(t) != p
    ensures ReadPeriod(t) == p ==> (LockPeriod(w, p).1.Done? <==> Accepts(w, t, now))
    ensures LockPeriod(w, p).1.Done? || LockPeriod(w, p) == (w, Refused(AlreadyLocked))
  {
    AssertOpenIsExact(w, t, now);
    AssertOpenIsExact(LockPeriod(w, p).0, t, now);
  }

  /** Unlocking a month opens that month and no other. */
  lemma {:induction false} UnlockOpensMonth(w: World, p: Period, t: DateText, now: nat)
    requires Coherent(w) && now >= FiscalCache.CACHE_TTL_MS
    ensures Accepts(UnlockPeriod(w, p), t, now) <==> Accepts(w, t, now) || ReadPeriod(t) == p
  {
    AssertOpenIsExact(w, t, now);
    AssertOpenIsExact(UnlockPeriod(w, p), t, now);
  }

  /** Whether a month is closed after a run, by the last lock or unlock of it. */
  predicate ClosedBy(before: bool, events: seq<Event>, p: Period) {
    if events == [] then before
    else
      var last := events[|events| - 1].call;
      if last == Lock(p) then true
      else if last == Unlock(p) then false
      else ClosedBy(before, events[..|events| - 1], p)
  }

  lemma {:induction false} OthersKeepAccepting(w: World, e: Event, t: DateText, now: nat)
    requires Coherent(w) && now >= FiscalCache.CACHE_TTL_MS && e.call != Lock(ReadPeriod(t)) && e.call != Unlock(ReadPeriod(t))
    ensures Accepts(Next(w, e), t, now) <==> Accepts(w, t, now)
  {
    if e.call.Lock? {
      LockClosesMonth(w, e.call.period, t, now);
    } else if e.call.Unlock? {
      UnlockOpensMonth(w, e.call.period, t, now);
    } else {
      NextKeepsCoherent(w, e);
      KeepsLocks(w, e);
      AssertOpenIsExact(w, t, now);
      AssertOpenIsExact(Next(w, e), t, now);
    }
  }

  lemma {:induction false} KeepsLocks(w: World, e: Event)
    requires !e.call.Lock? && !e.call.Unlock?
    ensures Next(w, e).db.locks == w.db.locks
  {
    match e.call
    case PostJournal(_, _, _) => JournaledKeepsLocks(w, e);
    case Post(input) => PostedKeepsLocks(w, input, e.clock);
    case CreateExpense(_, _, _, _) => CreatedKeepsLocks(w, e);
    case _ => OthersKeepLocks(w, e);
  }

  lemma {:induction false} AfterSnoc(w: World, events: seq<Event>, last: Event)
    ensures After(w, events + [last]) == Next(After(w, events), last)
    decreases |events|
  {
    if events == [] {
      var one := events + [last];
      assert one[0] == last && one[1..] == [];
      assert After(Next(w, last), one[1..]) == Next(w, last);
    } else {
      assert (events + [last])[1..] == events[1..] + [last];
      AfterSnoc(Next(w, events[0]), events[1..], last);
    }
  }

  /** The last word on a month: after any run an entry date is accepted exactly when the last
      lock or unlock of the month it reads was an unlock, or there was none and the month was
      accepted before. */
  lemma {:induction false} LastLockDecides(w: World, events: seq<Event>, t: DateText, now: nat)
    requires Coherent(w) && now >= FiscalCache.CACHE_TTL_MS
    ensures Coherent(After(w, events))
    ensures Accepts(After(w, events), t, now) <==> !ClosedBy(!Accepts(w, t, now), events, ReadPeriod(t))
    decreases |events|
  {
    if events != [] {
      var init, last := events[..|events| - 1], events[|events| - 1];
      assert events == init + [last];
      LastLockDecides(w, init, t, now);
      AfterSnoc(w, init, last);
      var before := After(w, init);
      NextKeepsCoherent(before, last);
      if last.call == Lock(ReadPeriod(t)) {
        LockClosesMonth(before, ReadPeriod(t), t, now);
      } else if last.call == Unlock(ReadPeriod(t)) {
        UnlockOpensMonth(before, ReadPeriod(t), t, now);
      } else {
        OthersKeepAccepting(before, last, t, now);
      }
    }
  }

  lemma LockLocks(w: World, p: Period)
    ensures p in LockPeriod(w, p).0.db.locks
  {
  }

  /** From the call that locks a month on, whatever was locked before, its rows are frozen. */
  lemma {:induction false} LockFreezesMonth(w: World, clock: Clock, events: seq<Event>, p: Period)
    requires Coherent(w) && forall i | 0 <= i < |events| :: RespectsLock(events[i], p)
    ensures var lock := Event(Lock(p), clock);
            Where(After(w, [lock] + events).db.ledger, InMonth(p))
            == Without(Where(w.db.ledger, InMonth(p)), RunDeleted(w, [lock] + events))
  {
    var lock := Event(Lock(p), clock);
    var w1 := Next(w, lock);
    assert ([lock] + events)[0] == lock && ([lock] + events)[1..] == events;
    NextKeepsCoherent(w, lock);
    LockLocks(w, p);
    LockLedger(w, p);
    ClosedMonthIsFrozen(w1, events, p);
    assert Deleted(w, lock) == {};
    assert {} + RunDeleted(w1, events) == RunDeleted(w1, events);
  }

  // Journals balance.

  /** The rounding gap of a voucher: stored debits minus stored credits when its check passed. */
  function Gap(lines: seq<Line>): int {
    Carry(Amounts(lines, Credit)) - Carry(Amounts(lines, Debit))
  }

  lemma {:induction false} LineRowsNet(
      lines: seq<Line>, branch: string, date: Date, number: string, voucherId: string, keep: Selection)
    requires forall r | r in LineRows(lines, branch, date, number, voucherId) :: keep(r)
    ensures Net(LineRows(lines, branch, date, number, voucherId), keep)
      == SumOfCents(Amounts(lines, Debit)) - SumOfCents(Amounts(lines, Credit))
  {
    if lines != [] {
      var rows := LineRows(lines, branch, date, number, voucherId);
      assert rows[0] in rows && rows[1..] == LineRows(lines[1..], branch, date, number, voucherId);
      LineRowsNet(lines[1..], branch, date, number, voucherId, keep);
      AmountsCons(lines, Debit);
      AmountsCons(lines, Credit);
    }
  }

  lemma AmountsCons(lines: seq<Line>, side: Side)
    requires lines != []
    ensures SumOfCents(Amounts(lines, side))
      == (if lines[0].side == side then Cents(lines[0].amount) else 0) + SumOfCents(Amounts(lines[1..], side))
  {
    var rest := Amounts(lines[1..], side);
    assert ([lines[0].amount] + rest)[1..] == rest && [] + rest == rest;
  }

  lemma {:induction false} AmountsCount(lines: seq<Line>)
    ensures |Amounts(lines, Debit)| + |Amounts(lines, Credit)| == |lines|
  {
    if lines != [] {
      AmountsCount(lines[1..]);
    }
  }

  /** Rounding gap. The check rounds the sums, storage rounds each line: for an accepted
      voucher of n lines the stored sides differ by exactly the difference of their carries,
      at most n/2 cents, and the rounded sum of debits, which is stored as the total, is off the
      stored debits by at most half a cent a debit line. Stored sides are equal exactly when the
      carries are. */
  lemma VoucherRoundingGap(lines: seq<Line>, branch: string, date: Date, number: string, voucherId: string)
    requires Cents(Total(Amounts(lines, Debit))) == Cents(Total(Amounts(lines, Credit)))
    ensures var rows := LineRows(lines, branch, date, number, voucherId);
            var debits := Cents(Total(Amounts(lines, Debit)));
            && Net(rows, Everything()) == Gap(lines)
            && (Net(rows, Everything()) == 0 <==> Carry(Amounts(lines, Debit)) == Carry(Amounts(lines, Credit)))
            && -|lines| <= 2 * Gap(lines) <= |lines|
            && -|Amounts(lines, Debit)| <= 2 * (debits - SumOfCents(Amounts(lines, Debit))) <= |Amounts(lines, Debit)|
  {
    LineRowsNet(lines, branch, date, number, voucherId, Everything());
    RoundedSum(Amounts(lines, Debit));
    RoundedSum(Amounts(lines, Credit));
    CarryBound(Amounts(lines, Debit));
    CarryBound(Amounts(lines, Credit));
    AmountsCount(lines);
  }

  lemma {:induction false} AmountsWhole(lines: seq<Line>, side: Side)
    requires forall i | 0 <= i < |lines| :: WholeCents(lines[i].amount)
    ensures forall i | 0 <= i < |Amounts(lines, side)| :: WholeCents(Amounts(lines, side)[i])
  {
    if lines != [] {
      AmountsWhole(lines[1..], side);
    }
  }

  /** Whole-cent amounts, or one line a side, leave no gap. */
  lemma NoGap(lines: seq<Line>)
    requires (forall i | 0 <= i < |lines| :: WholeCents(lines[i].amount))
          || (|Amounts(lines, Debit)| == 1 && |Amounts(lines, Credit)| == 1)
    ensures Gap(lines) == 0
  {
    if forall i | 0 <= i < |lines| :: WholeCents(lines[i].amount) {
      AmountsWhole(lines, Debit);
      AmountsWhole(lines, Credit);
      WholeCentsCarryNothing(Amounts(lines, Debit));
      WholeCentsCarryNothing(Amounts(lines, Credit));
    } else {
      CarryBound(Amounts(lines, Debit));
      CarryBound(Amounts(lines, Credit));
    }
  }

  function FractionalCents(a: string, b: string): seq<Line> {
    [Line(a, Debit, 0.014), Line(a, Debit, 0.014), Line(b, Credit, 0.03)]
  }

  /** Two debits of 1.4 cents against a credit of 3 cents pass the check and are stored as 1 + 1 against 3. */
  lemma FractionalCentsGap(a: string, b: string)
    ensures var lines := FractionalCents(a, b);
            Cents(Total(Amounts(lines, Debit))) == Cents(Total(Amounts(lines, Credit))) == 3 && Gap(lines) == -1
  {
    var lines := FractionalCents(a, b);
    assert lines[1..] == [lines[1], lines[2]] && lines[1..][1..] == [lines[2]] && lines[1..][1..][1..] == [];
    forall side: Side
      ensures Amounts(lines, side) == if side == Debit then [0.014, 0.014] else [0.03]
    {
      assert Amounts([lines[2]], side) == if side == Debit then [] else [0.03];
      assert Amounts(lines[1..], side) == if side == Debit then [0.014] else [0.03];
    }
    assert [0.014, 0.014][1..] == [0.014] && [0.014][1..] == [] && [0.03][1..] == [];
    assert Cents(0.014) == 1 && Cents(0.028) == 3 && Cents(0.03) == 3;
    assert Residue(0.014) == 0.4 && Residue(0.03) == 0.0;
  }

  // Windows.

  /** An optional branch and optional inclusive date bounds, as the reports filter. */
  datatype Window = Window(branch: Option<string>, start: Option<Date>, end: Option<Date>)

  predicate Covers(win: Window, branch: string, date: Date) {
    && (win.branch.Some? ==> branch == win.branch.value)
    && (win.start.Some? ==> Ordinal(win.start.value) <= Ordinal(date))
    && (win.end.Some? ==> Ordinal(date) <= Ordinal(win.end.value))
  }

  function InWindow(win: Window): Selection {
    (e: Entry) => Covers(win, e.branch, e.date)
  }

  function JournalRows(win: Window): Selection {
    (e: Entry) => Covers(win, e.branch, e.date) && e.voucher.Some?
  }

  function SingleSidedRows(win: Window): Selection {
    (e: Entry) => Covers(win, e.branch, e.date) && e.voucher.None?
  }

  /** Journal rows never carry an expense reference, so deletions by reference spare them. */
  predicate JournalsSafe(w: World) {
    forall i | 0 <= i < |w.db.ledger| :: w.db.ledger[i].voucher.Some? ==> !IsExpenseReference(w.db.ledger[i].reference)
  }

  /** A direct posting is a system posting: not a voucher line, not under an expense reference. */
  predicate SystemPosting(e: Event) {
    e.call.Post? ==> e.call.input.voucher.None? && !IsExpenseReference(e.call.input.reference)
  }

  lemma NumberIsNoExpenseReference(v: VoucherNumbering.Voucher)
    ensures !IsExpenseReference(VoucherNumbering.Print(v))
  {
    assert VoucherNumbering.Print(v)[0] == 'J';
    assert "EXP-"[0] == 'E';
  }

  lemma ExpenseReferenceIsOne(id: string)
    ensures IsExpenseReference(ExpenseReference(id))
  {
    assert ExpenseReference(id)[..4] == "EXP-";
  }

  /** The rows a call adds: all of one voucher with one date and branch, or one without voucher. */
  lemma AddedRows(w: World, e: Event)
    requires SystemPosting(e)
    ensures e.call.PostJournal? ==>
      forall r | r in Added(w, e) :: r.voucher.Some? && !IsExpenseReference(r.reference)
    ensures !e.call.PostJournal? ==> |Added(w, e)| <= 1 && forall r | r in Added(w, e) :: r.voucher.None?
  {
    if e.call.PostJournal? {
      var dto, t := e.call.dto, EntryText(e);
      if Journaled(w, dto, e.call.actor, e.call.voucherId, e.clock).1.Done? {
        var year := ReadYear(t);
        LineRowsShareDate(dto.lines, ResolvedBranch(dto.branch, e.call.actor).value, t.stored,
                          NextNumber(w.db, year), e.call.voucherId);
        NumberIsNoExpenseReference(VoucherNumbering.Voucher(year, NextSequence(w.db, year)));
      }
    }
  }

  /** What one accepted journal contributes to a window. */
  function EventGap(w: World, e: Event, win: Window): int {
    if e.call.PostJournal? && Journaled(w, e.call.dto, e.call.actor, e.call.voucherId, e.clock).1.Done?
       && Covers(win, ResolvedBranch(e.call.dto.branch, e.call.actor).value, EntryText(e).stored)
    then Gap(e.call.dto.lines) else 0
  }

  function RunGap(w: World, events: seq<Event>, win: Window): int
    decreases |events|
  {
    if events == [] then 0 else EventGap(w, events[0], win) + RunGap(Next(w, events[0]), events[1..], win)
  }

  lemma AddedNet(w: World, e: Event, win: Window)
    requires SystemPosting(e)
    ensures Net(Added(w, e), JournalRows(win)) == EventGap(w, e, win)
  {
    AddedRows(w, e);
    var rows := Added(w, e);
    if e.call.PostJournal? && rows != [] {
      var dto, date := e.call.dto, EntryText(e).stored;
      var branch, number := ResolvedBranch(dto.branch, e.call.actor).value, NextNumber(w.db, ReadYear(EntryText(e)));
      LineRowsShareDate(dto.lines, branch, date, number, e.call.voucherId);
      if Covers(win, branch, date) {
        LineRowsNet(dto.lines, branch, date, number, e.call.voucherId, JournalRows(win));
        RoundedSum(Amounts(dto.lines, Debit));
        RoundedSum(Amounts(dto.lines, Credit));
      } else {
        NothingSelected(rows, JournalRows(win));
      }
    } else {
      NothingSelected(rows, JournalRows(win));
    }
  }

  lemma NothingSelected(rows: seq<Entry>, keep: Selection)
    requires forall r | r in rows :: !keep(r)
    ensures Net(rows, keep) == 0
  {
    NoRowsNoSum(rows, keep, Signed());
  }

  lemma DeletionSparesJournals(w: World, e: Event, win: Window)
    requires JournalsSafe(w)
    ensures Net(Without(w.db.ledger, Deleted(w, e)), JournalRows(win)) == Net(w.db.ledger, JournalRows(win))
  {
    if e.call.DeleteExpense? {
      ExpenseReferenceIsOne(e.call.id);
    }
    SumWhere(w.db.ledger, NotReferenced(Deleted(w, e)), JournalRows(win), Signed());
  }

  /** The rows of a ledger after a call are old rows and added ones. */
  lemma RowsAfter(w: World, e: Event, row: Entry)
    requires row in Next(w, e).db.ledger
    ensures row in w.db.ledger || row in Added(w, e)
  {
    LedgerStep(w, e);
    WhereMembers(w.db.ledger, NotReferenced(Deleted(w, e)));
  }

  lemma AddedRowIsSafe(w: World, e: Event, row: Entry)
    requires SystemPosting(e) && row in Added(w, e) && row.voucher.Some?
    ensures !IsExpenseReference(row.reference)
  {
    AddedRows(w, e);
  }

  lemma {:induction false} NextKeepsJournalsSafe(w: World, e: Event)
    requires JournalsSafe(w) && SystemPosting(e)
    ensures JournalsSafe(Next(w, e))
  {
    var ledger := Next(w, e).db.ledger;
    forall i | 0 <= i < |ledger| && ledger[i].voucher.Some? ensures !IsExpenseReference(ledger[i].reference) {
      RowsAfter(w, e, ledger[i]);
      if ledger[i] !in w.db.ledger {
        AddedRowIsSafe(w, e, ledger[i]);
      }
    }
  }

  /** Books over runs. In every window of any branch filter and any dates, the journal rows of
      a run net to exactly the rounding gaps of its accepted journals: no window splits a
      voucher, and no other call touches a journal row. */
  lemma {:induction false} JournalsNetToTheirGaps(w: World, events: seq<Event>, win: Window)
    requires JournalsSafe(w) && forall i | 0 <= i < |events| :: SystemPosting(events[i])
    ensures Net(After(w, events).db.ledger, JournalRows(win))
      == Net(w.db.ledger, JournalRows(win)) + RunGap(w, events, win)
    ensures JournalsSafe(After(w, events))
    decreases |events|
  {
    if events != [] {
      var e := events[0];
      assert SystemPosting(e);
      LedgerStep(w, e);
      SumAppends(Without(w.db.ledger, Deleted(w, e)), Added(w, e), JournalRows(win), Signed());
      AddedNet(w, e, win);
      DeletionSparesJournals(w, e, win);
      NextKeepsJournalsSafe(w, e);
      JournalsNetToTheirGaps(Next(w, e), events[1..], win);
    }
  }

  /** Every journal of the run has equal carries, as whole-cent journals do. */
  predicate CarriesAgree(events: seq<Event>) {
    forall i | 0 <= i < |events| && events[i].call.PostJournal? :: Gap(events[i].call.dto.lines) == 0
  }

  lemma {:induction false} NoRunGap(w: World, events: seq<Event>, win: Window)
    requires CarriesAgree(events)
    ensures RunGap(w, events, win) == 0
    decreases |events|
  {
    if events != [] {
      assert events[0].call.PostJournal? ==> Gap(events[0].call.dto.lines) == 0;
      NoRunGap(Next(w, events[0]), events[1..], win);
    }
  }

  /** Starting with an empty ledger, debits minus credits of every window are exactly the
      rounding gaps plus the signed sum of the single-sided postings in the window; without
      fractional cents the journals drop out. */
  lemma WindowBalance(w: World, events: seq<Event>, win: Window)
    requires w.db.ledger == [] && forall i | 0 <= i < |events| :: SystemPosting(events[i])
    ensures var ledger := After(w, events).db.ledger;
            Net(ledger, InWindow(win)) == RunGap(w, events, win) + Net(ledger, SingleSidedRows(win))
            && (CarriesAgree(events) ==> Net(ledger, InWindow(win)) == Net(ledger, SingleSidedRows(win)))
  {
    JournalsNetToTheirGaps(w, events, win);
    SumSplits(After(w, events).db.ledger, InWindow(win), JournalRows(win), SingleSidedRows(win), Signed());
    if CarriesAgree(events) {
      NoRunGap(w, events, win);
    }
  }
}

/** Journal vouchers in the accounting services: which are accepted, and how their numbers
    relate to the interleaved numbering machine. */
module Vouchers {
  import opened Options
  import opened Money
  import opened Calendar
  import opened Ledger
  import opened Books
  import opened BookTheorems
  import FiscalCache
  import N = VoucherNumbering

  /** The committed counters and vouchers as the numbering machine sees them at rest. */
  function Numbering(db: Tables, vs: seq<N.Voucher>): N.State {
    N.State(db.counters, vs, map[])
  }

  /** `vs` are the vouchers behind the stored numbers, and every year runs 1, 2, ..., lastSeq. */
  ghost predicate Numbered(db: Tables, vs: seq<N.Voucher>) {
    && |vs| == |db.vouchers|
    && (forall i | 0 <= i < |vs| :: db.vouchers[i].number == N.Print(vs[i]))
    && N.GapFree(Numbering(db, vs))
  }

  function NextVoucher(db: Tables, year: nat): N.Voucher {
    N.Voucher(year, NextSequence(db, year))
  }

  /** The next number of a year is never taken. */
  lemma NextNumberIsFree(db: Tables, vs: seq<N.Voucher>, year: nat)
    requires Numbered(db, vs)
    ensures !NumberTaken(db, NextNumber(db, year)) && !N.Committed(Numbering(db, vs), NextNumber(db, year))
  {
    var v := NextVoucher(db, year);
    assert N.Sequences(vs, year) == N.UpTo(N.LastSeq(Numbering(db, vs), year));
    forall i | 0 <= i < |vs| ensures N.Print(vs[i]) != N.Print(v) {
      N.PrintIsInjective(vs[i], v);
      N.SequencesMember(vs, year, v.sequence);
      assert v.sequence !in N.UpTo(v.sequence - 1);
      assert vs[i] in vs;
    }
  }

  /** The four steps of one transaction. */
  function Steps(id: nat, year: nat): seq<N.Step> {
    [N.Select(id, year), N.Save(id), N.Insert(id), N.Commit(id)]
  }

  /** A voucher created in one atomic call is a legal run of the numbering machine: select,
      save, insert, commit, with the same counters and one more voucher. */
  lemma CreationRunsTheMachine(db: Tables, vs: seq<N.Voucher>, id: nat, year: nat)
    requires Numbered(db, vs)
    ensures var s := Numbering(db, vs);
            N.Legal(s, Steps(id, year))
            && N.After(s, Steps(id, year))
               == N.State(db.counters[year := NextSequence(db, year)], vs + [NextVoucher(db, year)], map[])
  {
    var s, steps := Numbering(db, vs), Steps(id, year);
    NextNumberIsFree(db, vs, year);
    var s1 := N.Apply(s, steps[0]);
    assert s1.open[id].voucher == NextVoucher(db, year);
    var s2 := N.Apply(s1, steps[1]);
    assert s2.open[id].writes;
    var s3 := N.Apply(s2, steps[2]);
    var s4 := N.Apply(s3, steps[3]);
    assert s4.open == map[];
    assert steps[3..] == [steps[3]] && steps[3..][1..] == [];
    assert N.Legal(s4, []) && N.After(s4, []) == s4;
    assert steps[3..][0] == steps[3];
    assert N.Legal(s3, steps[3..]) && N.After(s3, steps[3..]) == N.After(s4, steps[3..][1..]);
    assert steps[2..][1..] == steps[3..];
    assert N.Legal(s2, steps[2..]) && N.After(s2, steps[2..]) == s4;
    assert steps[1..][1..] == steps[2..];
    assert N.Legal(s1, steps[1..]) && N.After(s1, steps[1..]) == s4;
  }

  /** What a journal needs besides an open month. */
  predicate Acceptable(db: Tables, dto: JournalDto, actor: Actor, clock: Clock) {
    && ResolvedBranch(dto.branch, actor).Ok?
    && !InTheFuture(DateOrToday(dto.entryDate, clock), clock)
    && Cents(Total(Amounts(dto.lines, Debit))) == Cents(Total(Amounts(dto.lines, Credit))) > 0
    && forall i | 0 <= i < |dto.lines| :: HasId(db.accounts, dto.lines[i].account)
  }

  /** A journal is accepted exactly when its branch resolves, its text is not later than today's,
      its rounded sides are equal and positive, its accounts exist, and the month its text reads
      as is not locked; a refused one leaves the tables as they were. */
  lemma {:induction false} JournalAcceptedIff(
      w: World, vs: seq<N.Voucher>, dto: JournalDto, actor: Actor, voucherId: string, clock: Clock)
    requires Coherent(w) && clock.now >= FiscalCache.CACHE_TTL_MS && Numbered(w.db, vs)
    ensures var (w1, outcome) := Journaled(w, dto, actor, voucherId, clock);
            && (outcome.Done? <==>
                  Acceptable(w.db, dto, actor, clock) && ReadPeriod(DateOrToday(dto.entryDate, clock)) !in w.db.locks)
            && (outcome.Refused? ==> w1.db == w.db)
  {
    var t := DateOrToday(dto.entryDate, clock);
    AssertOpenIsExact(w, t, clock.now);
    NextNumberIsFree(w.db, vs, ReadYear(t));
  }

  /** Whose books a journal is for: an admin names the branch, a manager has one and may only repeat it. */
  predicate MayWriteFor(actor: Actor, requested: Option<string>, branch: string) {
    if actor.isAdmin then requested == Some(branch)
    else actor.branch == Some(branch) && (requested.None? || requested == Some(branch))
  }

  /** The branch of a journal: the only one that the actor may write for, if there is one. */
  lemma JournalBranch(dto: JournalDto, actor: Actor)
    ensures forall branch: string :: ResolvedBranch(dto.branch, actor) == Ok(branch) <==> MayWriteFor(actor, dto.branch, branch)
  {
  }

  /** A refusal names its cause: the reason that is reported holds of the journal. */
  lemma {:induction false} RefusalNamesCause(
      w: World, vs: seq<N.Voucher>, dto: JournalDto, actor: Actor, voucherId: string, clock: Clock)
    requires Coherent(w) && clock.now >= FiscalCache.CACHE_TTL_MS && Numbered(w.db, vs)
    requires Journaled(w, dto, actor, voucherId, clock).1.Refused?
    ensures var error := Journaled(w, dto, actor, voucherId, clock).1.error;
            var t := DateOrToday(dto.entryDate, clock);
            var debits, credits := Cents(Total(Amounts(dto.lines, Debit))), Cents(Total(Amounts(dto.lines, Credit)));
            match error
            case BranchRequired => actor.isAdmin && dto.branch.None?
            case NoBranchLinked => !actor.isAdmin && actor.branch.None?
            case OtherBranch => !actor.isAdmin && actor.branch.Some? && dto.branch.Some? && dto.branch != actor.branch
            case FutureDate => InTheFuture(t, clock)
            case OneSided => debits <= 0 || credits <= 0
            case OutOfBalance => debits != credits
            case UnknownAccount => exists i | 0 <= i < |dto.lines| :: !HasId(w.db.accounts, dto.lines[i].account)
            case PeriodLocked => ReadPeriod(t) in w.db.locks
            case _ => false
  {
    var t := DateOrToday(dto.entryDate, clock);
    AssertOpenIsExact(w, t, clock.now);
    NextNumberIsFree(w.db, vs, ReadYear(t));
  }

  /** The text comparison is the date comparison for dashed texts; a basic text passes it
      exactly when it is of an earlier year. */
  lemma NotInTheFutureIff(d: Date, clock: Clock)
    requires Dashed(d).Valid() && Basic(d).Valid()
    ensures !InTheFuture(Dashed(d), clock) <==> Ordinal(d) <= Ordinal(clock.today)
    ensures !InTheFuture(Basic(d), clock) <==> d.year < clock.today.year
  {
    IsoOrder(clock.today, d);
    BasicOrder(d, clock.today);
  }

  /** A closed month is open to every journal whose text is stored in it but reads as a month
      that is not locked: all its lines enter the closed month. */
  lemma {:induction false} MisreadTextEntersClosedMonth(w: World, vs: seq<N.Voucher>, e: Event, p: Period)
    requires Coherent(w) && Wound(e) && Numbered(w.db, vs) && e.call.PostJournal?
    requires Acceptable(w.db, e.call.dto, e.call.actor, e.clock)
    requires p in w.db.locks && PeriodOf(EntryText(e).stored) == p && ReadPeriod(EntryText(e)) !in w.db.locks
    ensures Where(Next(w, e).db.ledger, InMonth(p)) == Where(w.db.ledger, InMonth(p)) + Added(w, e)
    ensures |Added(w, e)| == |e.call.dto.lines| > 0
  {
    var dto := e.call.dto;
    JournalAcceptedIff(w, vs, dto, e.call.actor, e.call.voucherId, e.clock);
    JournaledLedger(w, e);
    AddedRowsShareDate(w, e);
    WhereAppends(w.db.ledger, Added(w, e), InMonth(p));
    WhereKeepsAll(Added(w, e), InMonth(p));
    LineRowsCount(dto.lines, ResolvedBranch(dto.branch, e.call.actor).value, EntryText(e).stored,
                  NextNumber(w.db, ReadYear(EntryText(e))), e.call.voucherId);
    LinesNotEmpty(dto.lines);
  }

  lemma {:induction false} LineRowsCount(lines: seq<Line>, branch: string, date: Date, number: string, voucherId: string)
    ensures |LineRows(lines, branch, date, number, voucherId)| == |lines|
  {
    if lines != [] {
      LineRowsCount(lines[1..], branch, date, number, voucherId);
    }
  }

  /** So with December 2025 locked, any acceptable journal dated `20251231` and posted in a later
      year puts its lines into the closed month. */
  lemma {:induction false} LastOf2025EntersClosedDecember(w: World, vs: seq<N.Voucher>, e: Event)
    requires Coherent(w) && Wound(e) && Numbered(w.db, vs) && e.call.PostJournal?
    requires Basic(LAST_OF_2025).Valid() && e.call.dto.entryDate == Some(Basic(LAST_OF_2025)) && e.clock.today.year > 2025
    requires ResolvedBranch(e.call.dto.branch, e.call.actor).Ok?
    requires Cents(Total(Amounts(e.call.dto.lines, Debit))) == Cents(Total(Amounts(e.call.dto.lines, Credit))) > 0
    requires forall i | 0 <= i < |e.call.dto.lines| :: HasId(w.db.accounts, e.call.dto.lines[i].account)
    requires Period(2025, 12) in w.db.locks && Period(2025, 23) !in w.db.locks
    ensures |Where(Next(w, e).db.ledger, InMonth(Period(2025, 12)))|
      == |Where(w.db.ledger, InMonth(Period(2025, 12)))| + |e.call.dto.lines|
      > |Where(w.db.ledger, InMonth(Period(2025, 12)))|
  {
    LastOf2025Misread();
    DashedReadsRight(LAST_OF_2025);
    NotInTheFutureIff(LAST_OF_2025, e.clock);
    MisreadTextEntersClosedMonth(w, vs, e, Period(2025, 12));
  }

  /** An accepted voucher that does not balance: in every coherent world with an open current
      month and two accounts, `create` takes the three lines and their stored rows net to a cent. */
  lemma {:induction false} AcceptedButUnbalanced(
      w: World, vs: seq<N.Voucher>, a: string, b: string, branch: string, voucherId: string, clock: Clock)
    requires Coherent(w) && clock.now >= FiscalCache.CACHE_TTL_MS && Numbered(w.db, vs)
    requires HasId(w.db.accounts, a) && HasId(w.db.accounts, b) && PeriodOf(clock.today) !in w.db.locks
    ensures var call := PostJournal(JournalDto(Some(branch), None, FractionalCents(a, b)), Actor(true, None), voucherId);
            var e := Event(call, clock);
            && Journaled(w, call.dto, call.actor, voucherId, clock).1.Done?
            && Next(w, e).db.ledger == w.db.ledger + Added(w, e)
            && Net(Added(w, e), Everything()) == -1
  {
    var dto := JournalDto(Some(branch), None, FractionalCents(a, b));
    var e := Event(PostJournal(dto, Actor(true, None), voucherId), clock);
    var t := DateOrToday(None, clock);
    FractionalCentsGap(a, b);
    TodayIsNotInTheFuture(clock);
    assert Acceptable(w.db, dto, Actor(true, None), clock);
    JournalAcceptedIff(w, vs, dto, Actor(true, None), voucherId, clock);
    JournaledLedger(w, e);
    VoucherRoundingGap(dto.lines, branch, t.stored, NextNumber(w.db, ReadYear(t)), voucherId);
  }

  lemma TodayIsNotInTheFuture(clock: Clock)
    ensures !InTheFuture(DateOrToday(None, clock), clock)
  {
    IsoOrder(clock.today, clock.today);
  }

  lemma NumbersAfterOther(w: World, e: Event)
    requires !e.call.PostJournal? || Journaled(w, e.call.dto, e.call.actor, e.call.voucherId, e.clock).1.Refused?
    ensures Next(w, e).db.vouchers == w.db.vouchers && Next(w, e).db.counters == w.db.counters
  {
    if e.call.Post? {
      PostedLedger(w, e.call.input, e.clock);
    } else if e.call.CreateExpense? {
      var branch := ExpenseBranch(e.call.requested, e.call.user);
      if branch.Ok? {
        ExpenseSaved(w, branch.value, e.call.amount, e.call.id, e.clock);
      }
    }
  }

  lemma NextKeepsNumbered(w: World, vs: seq<N.Voucher>, e: Event) returns (vs': seq<N.Voucher>)
    requires Numbered(w.db, vs)
    ensures Numbered(Next(w, e).db, vs') && vs <= vs'
  {
    if e.call.PostJournal? && Journaled(w, e.call.dto, e.call.actor, e.call.voucherId, e.clock).1.Done? {
      var year := ReadYear(EntryText(e));
      vs' := vs + [NextVoucher(w.db, year)];
      CreationRunsTheMachine(w.db, vs, 0, year);
      N.NumberingIsGapFree(Numbering(w.db, vs), Steps(0, year));
      var s := N.State(w.db.counters[year := NextSequence(w.db, year)], vs', map[]);
      assert N.GapFree(s);
      JournalStored(w, e);
      assert Numbering(Next(w, e).db, vs') == s;
    } else {
      vs' := vs;
      NumbersAfterOther(w, e);
      assert Numbering(Next(w, e).db, vs) == Numbering(w.db, vs);
    }
  }

  lemma JournalStored(w: World, e: Event)
    requires e.call.PostJournal? && Journaled(w, e.call.dto, e.call.actor, e.call.voucherId, e.clock).1.Done?
    ensures var year := ReadYear(EntryText(e));
            && Next(w, e).db.counters == w.db.counters[year := NextSequence(w.db, year)]
            && |Next(w, e).db.vouchers| == |w.db.vouchers| + 1
            && Next(w, e).db.vouchers[..|w.db.vouchers|] == w.db.vouchers
            && Next(w, e).db.vouchers[|w.db.vouchers|].number == N.Print(NextVoucher(w.db, year))
            && Next(w, e).db.vouchers[|w.db.vouchers|].date == EntryText(e).stored
  {
  }

  /** Numbers over runs of the services: the stored numbers of each entry-date year are those of
      1, 2, ..., lastSeq, so the UNIQUE constraint never refuses a voucher. */
  lemma {:induction false} RunsStayNumbered(w: World, vs: seq<N.Voucher>, events: seq<Event>)
    returns (vs': seq<N.Voucher>)
    requires Numbered(w.db, vs)
    ensures Numbered(After(w, events).db, vs') && vs <= vs'
    ensures forall year: nat :: !NumberTaken(After(w, events).db, NextNumber(After(w, events).db, year))
    decreases |events|
  {
    if events == [] {
      vs' := vs;
      forall year: nat ensures !NumberTaken(w.db, NextNumber(w.db, year)) {
        NextNumberIsFree(w.db, vs, year);
      }
    } else {
      var vs1 := NextKeepsNumbered(w, vs, events[0]);
      vs' := RunsStayNumbered(Next(w, events[0]), vs1, events[1..]);
    }
  }
}

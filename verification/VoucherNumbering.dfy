/** Journal voucher numbers under interleaved transactions: the counter row of a year is
    read with a row lock, saved, and a voucher row with a UNIQUE number is inserted. */
module VoucherNumbering {
  import opened Text

  const SEQ_WIDTH: nat := 6

  datatype Voucher = Voucher(year: nat, sequence: nat)

  /** `JV-YYYY-NNNNNN`; the sequence grows past six digits when it has to. */
  function Print(v: Voucher): string {
    "JV-" + Decimal(v.year) + "-" + PadZeros(Decimal(v.sequence), SEQ_WIDTH)
  }

  /** The year and the padded sequence are where the first two hyphens put them. */
  lemma PrintParts(y: string, t: string, y': string, t': string)
    requires '-' !in y && '-' !in y' && "JV-" + y + "-" + t == "JV-" + y' + "-" + t'
    ensures y == y' && t == t'
  {
    assert ("JV-" + y + "-" + t)[3..] == y + ['-'] + t && ("JV-" + y' + "-" + t')[3..] == y' + ['-'] + t';
    SplitAtSeparator(y, t, y', t', '-');
  }

  lemma PrintIsInjective(v: Voucher, w: Voucher)
    ensures Print(v) == Print(w) ==> v == w
  {
    if Print(v) == Print(w) {
      PrintParts(Decimal(v.year), PadZeros(Decimal(v.sequence), SEQ_WIDTH),
                 Decimal(w.year), PadZeros(Decimal(w.sequence), SEQ_WIDTH));
      NumberOfDecimal(v.year);
      NumberOfDecimal(w.year);
      NumberOfPadded(Decimal(v.sequence), SEQ_WIDTH);
      NumberOfPadded(Decimal(w.sequence), SEQ_WIDTH);
      NumberOfDecimal(v.sequence);
      NumberOfDecimal(w.sequence);
    }
  }

  /** The first digits of a fixed field are zero when the number is short. */
  lemma {:induction false} FixedIsPadded(n: nat, width: nat)
    requires n < Pow10(width) && width > 0
    ensures Fixed(n, width) == PadZeros(Decimal(n), width) && |Decimal(n)| <= width
    decreases width
  {
    if n < 10 {
      PadOne(n, width);
    } else {
      assert width > 1;
      FixedIsPadded(n / 10, width - 1);
      PadAppends(Decimal(n / 10), [Digit(n % 10)], width - 1);
    }
  }

  lemma {:induction false} PadOne(n: nat, width: nat)
    requires n < 10 && width > 0
    ensures Fixed(n, width) == PadZeros(Decimal(n), width)
    decreases width
  {
    if width == 1 {
      assert Fixed(n, 1) == Fixed(n / 10, 0) + [Digit(n % 10)];
    } else {
      PadOne(0, width - 1);
      PadAppends(Decimal(0), [Digit(n)], width - 1);
      assert Decimal(0) + [Digit(n)] == "0" + Decimal(n);
    }
  }

  lemma {:induction false} PadAppends(s: string, t: string, width: nat)
    requires AllDigits(s) && AllDigits(t) && |s| <= width
    ensures PadZeros(s + t, width + |t|) == PadZeros(s, width) + t
    decreases width - |s|
  {
    if |s| < width {
      assert "0" + (s + t) == ("0" + s) + t;
      PadAppends("0" + s, t, width);
    }
  }

  lemma {:induction false} DecimalIsShort(n: nat, width: nat)
    requires width > 0 && n >= Pow10(width)
    ensures |Decimal(n)| > width
    decreases width
  {
    if width > 1 {
      DecimalIsShort(n / 10, width - 1);
    } else {
      assert Pow10(1) == 10 * Pow10(0) == 10;
    }
  }

  /** Six digits up to 999999, all its digits from then on. */
  lemma {:induction false} PrintsSixDigits(v: Voucher)
    ensures v.sequence < 1000000 ==> Print(v) == "JV-" + Decimal(v.year) + "-" + Fixed(v.sequence, 6)
    ensures v.sequence >= 1000000 ==> Print(v) == "JV-" + Decimal(v.year) + "-" + Decimal(v.sequence)
  {
    Million();
    if v.sequence < 1000000 {
      FixedIsPadded(v.sequence, 6);
    } else {
      DecimalIsShort(v.sequence, 6);
    }
  }

  lemma Million()
    ensures Pow10(6) == 1000000
  {
    assert Pow10(3) == 10 * Pow10(2) == 1000;
    assert Pow10(6) == 10 * Pow10(5) == 100 * Pow10(4) == 1000 * Pow10(3);
  }

  /** Numbers of a year sort as text in the order of their sequences as long as those have six digits. */
  lemma {:induction false} PrintOrder(year: nat, m: nat, n: nat)
    requires m < 1000000 && n < 1000000
    ensures LexLess(Print(Voucher(year, m)), Print(Voucher(year, n))) <==> m < n
  {
    Million();
    PrintsSixDigits(Voucher(year, m));
    PrintsSixDigits(Voucher(year, n));
    FixedOrder(m, n, 6);
    var front := "JV-" + Decimal(year) + "-";
    LexConcat(front, Fixed(m, 6), front, Fixed(n, 6));
    NotLess(front);
  }

  lemma {:induction false} NotLess(s: string)
    ensures !LexLess(s, s)
  {
    if s != "" {
      NotLess(s[1..]);
    }
  }

  datatype Phase =
    | Selected  // the counter row has been looked up
    | Saved     // `repo.save(row)` done
    | Inserted  // the voucher row inserted, not yet committed

  /** An open transaction. `found`: its select saw the counter row and locked it.
      `writes`: its save changes the row (an insert or an update). */
  datatype Transaction = Transaction(voucher: Voucher, found: bool, phase: Phase, writes: bool)

  /** Committed tables and open transactions. */
  datatype State = State(counters: map<nat, nat>, vouchers: seq<Voucher>, open: map<nat, Transaction>)

  datatype Step =
    | Select(id: nat, year: nat)
    | Save(id: nat)
    | Insert(id: nat)
    | Commit(id: nat)
    | Rollback(id: nat)

  function LastSeq(s: State, year: nat): nat {
    if year in s.counters then s.counters[year] else 0
  }

  /** The transaction holds the counter row: locked by its select, or written by its save. */
  predicate Holds(t: Transaction) {
    t.found || (!t.phase.Selected? && t.writes)
  }

  /** No other transaction holds the counter row of `year`. */
  predicate RowFree(s: State, id: nat, year: nat) {
    forall j | j in s.open && j != id :: !(Holds(s.open[j]) && s.open[j].voucher.year == year)
  }

  predicate Committed(s: State, number: string) {
    exists i | 0 <= i < |s.vouchers| :: Print(s.vouchers[i]) == number
  }

  predicate NumberFree(s: State, id: nat, number: string) {
    !Committed(s, number)
    && forall j | j in s.open && j != id && s.open[j].phase.Inserted? :: Print(s.open[j].voucher) != number
  }

  /** Whether saving the counter row changes it: always when the select found it;
      otherwise unless a row with the same value has appeared in the meantime. */
  predicate SaveWrites(s: State, t: Transaction) {
    t.found || t.voucher.year !in s.counters || s.counters[t.voucher.year] != t.voucher.sequence
  }

  /** A step that has to wait for a lock, or that a constraint refuses, is not enabled. */
  predicate Enabled(s: State, step: Step) {
    match step
    case Select(id, year) => id !in s.open && (year in s.counters ==> RowFree(s, id, year))
    case Save(id) =>
      id in s.open && s.open[id].phase.Selected?
      && (SaveWrites(s, s.open[id]) ==> RowFree(s, id, s.open[id].voucher.year))
    case Insert(id) => id in s.open && s.open[id].phase.Saved? && NumberFree(s, id, Print(s.open[id].voucher))
    case Commit(id) => id in s.open && s.open[id].phase.Inserted?
    case Rollback(id) => id in s.open
  }

  function Apply(s: State, step: Step): State
    requires Enabled(s, step)
  {
    match step
    case Select(id, year) =>
      s.(open := s.open[id := Transaction(Voucher(year, LastSeq(s, year) + 1), year in s.counters, Selected, false)])
    case Save(id) => s.(open := s.open[id := s.open[id].(phase := Saved, writes := SaveWrites(s, s.open[id]))])
    case Insert(id) => s.(open := s.open[id := s.open[id].(phase := Inserted)])
    case Commit(id) =>
      var t := s.open[id];
      State(if t.writes then s.counters[t.voucher.year := t.voucher.sequence] else s.counters,
            s.vouchers + [t.voucher], s.open - {id})
    case Rollback(id) => s.(open := s.open - {id})
  }

  predicate Legal(s: State, steps: seq<Step>)
    decreases |steps|
  {
    steps == [] || (Enabled(s, steps[0]) && Legal(Apply(s, steps[0]), steps[1..]))
  }

  function After(s: State, steps: seq<Step>): State
    requires Legal(s, steps)
    decreases |steps|
  {
    if steps == [] then s else After(Apply(s, steps[0]), steps[1..])
  }

  /** The sequence numbers of one year, in order of commit. */
  function Sequences(vouchers: seq<Voucher>, year: nat): seq<nat> {
    if vouchers == [] then []
    else
      var last := vouchers[|vouchers| - 1];
      Sequences(vouchers[..|vouchers| - 1], year) + (if last.year == year then [last.sequence] else [])
  }

  function UpTo(n: nat): (s: seq<nat>)
    ensures |s| == n
  {
    seq(n, i => i + 1)
  }

  /** The committed vouchers of every year carry 1, 2, ..., lastSeq, in that order. */
  ghost predicate GapFree(s: State) {
    forall year: nat :: Sequences(s.vouchers, year) == UpTo(LastSeq(s, year))
  }

  predicate GoodTransaction(s: State, t: Transaction) {
    var v := t.voucher;
    && (t.found ==> v.year in s.counters && s.counters[v.year] + 1 == v.sequence)
    && (!t.found ==> v.sequence == 1)
    && (!t.phase.Selected? && !t.writes ==> !t.found && LastSeq(s, v.year) >= 1)
    && (t.phase.Inserted? ==> !Committed(s, Print(v)))
  }

  /** At most one transaction holds the counter row of a year. */
  predicate OneHolder(s: State) {
    forall j, k | j in s.open && k in s.open && j != k && Holds(s.open[j]) && Holds(s.open[k]) ::
      s.open[j].voucher.year != s.open[k].voucher.year
  }

  /** Inserted vouchers have different numbers. */
  predicate InsertedDiffer(s: State) {
    forall j, k | j in s.open && k in s.open && j != k && s.open[j].phase.Inserted? && s.open[k].phase.Inserted? ::
      Print(s.open[j].voucher) != Print(s.open[k].voucher)
  }

  ghost predicate Invariant(s: State) {
    && GapFree(s)
    && (forall j | j in s.open :: GoodTransaction(s, s.open[j]))
    && OneHolder(s)
    && InsertedDiffer(s)
  }

  lemma {:induction false} SequencesMember(vouchers: seq<Voucher>, year: nat, n: nat)
    ensures n in Sequences(vouchers, year) <==> Voucher(year, n) in vouchers
  {
    if vouchers != [] {
      var init, last := vouchers[..|vouchers| - 1], vouchers[|vouchers| - 1];
      assert vouchers == init + [last];
      SequencesMember(init, year, n);
    }
  }

  /** Number 1 of a year is committed exactly when the year's last sequence is at least 1. */
  lemma FirstCommitted(s: State, year: nat)
    requires GapFree(s)
    ensures LastSeq(s, year) >= 1 ==> Committed(s, Print(Voucher(year, 1)))
  {
    if LastSeq(s, year) >= 1 {
      assert UpTo(LastSeq(s, year))[0] == 1;
      SequencesMember(s.vouchers, year, 1);
      var i :| 0 <= i < |s.vouchers| && s.vouchers[i] == Voucher(year, 1);
      assert Print(s.vouchers[i]) == Print(Voucher(year, 1));
    }
  }

  /** A commit takes exactly the next number of its year. */
  lemma CommitTakesNext(s: State, id: nat)
    requires Invariant(s) && Enabled(s, Commit(id))
    ensures var s', v := Apply(s, Commit(id)), s.open[id].voucher;
            && s'.vouchers == s.vouchers + [v]
            && v.sequence == LastSeq(s, v.year) + 1
            && s'.counters == s.counters[v.year := v.sequence]
  {
    assert GoodTransaction(s, s.open[id]);
    FirstCommitted(s, s.open[id].voucher.year);
  }

  lemma CommitKeepsNumbers(s: State, id: nat)
    requires Invariant(s) && Enabled(s, Commit(id))
    ensures GapFree(Apply(s, Commit(id)))
  {
    var s', v := Apply(s, Commit(id)), s.open[id].voucher;
    CommitTakesNext(s, id);
    assert s'.vouchers[..|s'.vouchers| - 1] == s.vouchers;
    forall year: nat ensures Sequences(s'.vouchers, year) == UpTo(LastSeq(s', year)) {
      assert Sequences(s.vouchers, year) == UpTo(LastSeq(s, year));
    }
  }

  lemma CommitKeepsTransactions(s: State, id: nat, j: nat)
    requires Invariant(s) && Enabled(s, Commit(id)) && j in s.open && j != id
    ensures GoodTransaction(Apply(s, Commit(id)), s.open[j])
  {
    var s', v := Apply(s, Commit(id)), s.open[id].voucher;
    CommitTakesNext(s, id);
    assert GoodTransaction(s, s.open[id]) && GoodTransaction(s, s.open[j]);
    assert s.open[j].phase.Inserted? ==> Print(v) != Print(s.open[j].voucher);
  }

  lemma CommitKeepsInvariant(s: State, id: nat)
    requires Invariant(s) && Enabled(s, Commit(id))
    ensures Invariant(Apply(s, Commit(id)))
  {
    CommitKeepsNumbers(s, id);
    forall j | j in Apply(s, Commit(id)).open ensures GoodTransaction(Apply(s, Commit(id)), s.open[j]) {
      CommitKeepsTransactions(s, id, j);
    }
  }

  lemma OtherStepKeepsNumbers(s: State, step: Step)
    requires Invariant(s) && Enabled(s, step) && !step.Commit?
    ensures GapFree(Apply(s, step))
  {
    var s' := Apply(s, step);
    forall year: nat ensures Sequences(s'.vouchers, year) == UpTo(LastSeq(s', year)) {
      assert Sequences(s.vouchers, year) == UpTo(LastSeq(s, year));
    }
  }

  lemma OtherStepKeepsGood(s: State, step: Step, j: nat)
    requires Invariant(s) && Enabled(s, step) && !step.Commit? && j in Apply(s, step).open
    ensures GoodTransaction(Apply(s, step), Apply(s, step).open[j])
  {
    assert j != step.id ==> j in s.open && Apply(s, step).open[j] == s.open[j];
  }

  /** Everybody but the stepping transaction is as before. */
  lemma OthersStay(s: State, step: Step, j: nat)
    requires Enabled(s, step) && !step.Commit? && j in Apply(s, step).open && j != step.id
    ensures j in s.open && Apply(s, step).open[j] == s.open[j]
  {
  }

  lemma StepperHoldsAlone(s: State, step: Step, j: nat)
    requires OneHolder(s) && Enabled(s, step) && !step.Commit? && step.id in Apply(s, step).open
    requires j in s.open && j != step.id && Holds(s.open[j]) && Holds(Apply(s, step).open[step.id])
    ensures s.open[j].voucher.year != Apply(s, step).open[step.id].voucher.year
  {
  }

  lemma {:induction false} OtherStepKeepsHolder(s: State, step: Step)
    requires OneHolder(s) && Enabled(s, step) && !step.Commit?
    ensures OneHolder(Apply(s, step))
  {
    var s' := Apply(s, step);
    forall j, k | j in s'.open && k in s'.open && j != k && Holds(s'.open[j]) && Holds(s'.open[k])
      ensures s'.open[j].voucher.year != s'.open[k].voucher.year
    {
      if j == step.id {
        OthersStay(s, step, k);
        StepperHoldsAlone(s, step, k);
      } else {
        OthersStay(s, step, j);
        if k == step.id {
          StepperHoldsAlone(s, step, j);
        } else {
          OthersStay(s, step, k);
        }
      }
    }
  }

  lemma StepperDiffers(s: State, step: Step, j: nat)
    requires InsertedDiffer(s) && Enabled(s, step) && !step.Commit? && step.id in Apply(s, step).open
    requires j in s.open && j != step.id && s.open[j].phase.Inserted? && Apply(s, step).open[step.id].phase.Inserted?
    ensures Print(s.open[j].voucher) != Print(Apply(s, step).open[step.id].voucher)
  {
  }

  lemma {:induction false} OtherStepKeepsDifferent(s: State, step: Step)
    requires InsertedDiffer(s) && Enabled(s, step) && !step.Commit?
    ensures InsertedDiffer(Apply(s, step))
  {
    var s' := Apply(s, step);
    forall j, k | j in s'.open && k in s'.open && j != k && s'.open[j].phase.Inserted? && s'.open[k].phase.Inserted?
      ensures Print(s'.open[j].voucher) != Print(s'.open[k].voucher)
    {
      if j == step.id {
        OthersStay(s, step, k);
        StepperDiffers(s, step, k);
      } else {
        OthersStay(s, step, j);
        if k == step.id {
          StepperDiffers(s, step, j);
        } else {
          OthersStay(s, step, k);
        }
      }
    }
  }

  lemma {:induction false} OtherStepKeepsInvariant(s: State, step: Step)
    requires Invariant(s) && Enabled(s, step) && !step.Commit?
    ensures Invariant(Apply(s, step))
  {
    OtherStepKeepsNumbers(s, step);
    var s' := Apply(s, step);
    forall j | j in s'.open ensures GoodTransaction(s', s'.open[j]) {
      OtherStepKeepsGood(s, step, j);
    }
    OtherStepKeepsHolder(s, step);
    OtherStepKeepsDifferent(s, step);
  }

  lemma StepKeepsInvariant(s: State, step: Step)
    requires Invariant(s) && Enabled(s, step)
    ensures Invariant(Apply(s, step))
  {
    if step.Commit? {
      CommitKeepsInvariant(s, step.id);
    } else {
      OtherStepKeepsInvariant(s, step);
    }
  }

  lemma {:induction false} RunsKeepInvariant(s: State, steps: seq<Step>)
    requires Invariant(s) && Legal(s, steps)
    ensures Invariant(After(s, steps))
    decreases |steps|
  {
    if steps != [] {
      StepKeepsInvariant(s, steps[0]);
      RunsKeepInvariant(Apply(s, steps[0]), steps[1..]);
    }
  }

  lemma {:induction false} DistinctSequences(vouchers: seq<Voucher>, year: nat, n: nat, i: nat, j: nat)
    requires Sequences(vouchers, year) == UpTo(n) && i < j < |vouchers|
    ensures vouchers[i].year == vouchers[j].year == year ==> vouchers[i].sequence != vouchers[j].sequence
  {
    var init, last := vouchers[..|vouchers| - 1], vouchers[|vouchers| - 1];
    if last.year == year {
      assert UpTo(n)[n - 1] == n == last.sequence;
      assert Sequences(init, year) == UpTo(n)[..n - 1] == UpTo(n - 1);
      if j < |init| {
        DistinctSequences(init, year, n - 1, i, j);
      } else if vouchers[i].year == year {
        assert vouchers[i] == init[i];
        SequencesMember(init, year, vouchers[i].sequence);
      }
    } else if j < |init| {
      assert Sequences(init, year) == UpTo(n);
      DistinctSequences(init, year, n, i, j);
    }
  }

  /** Voucher numbering, for every interleaving of any number of transactions, with rollbacks
      anywhere and with races for the first voucher of a year: each year's committed vouchers
      carry exactly 1, 2, ..., lastSeq in commit order, and no two printed numbers are equal. */
  lemma NumberingIsGapFree(s: State, steps: seq<Step>)
    requires GapFree(s) && s.open == map[] && Legal(s, steps)
    ensures var end := After(s, steps);
            && (forall year: nat :: Sequences(end.vouchers, year) == UpTo(LastSeq(end, year)))
            && (forall i, j | 0 <= i < j < |end.vouchers| :: Print(end.vouchers[i]) != Print(end.vouchers[j]))
  {
    RunsKeepInvariant(s, steps);
    var end := After(s, steps);
    forall i, j | 0 <= i < j < |end.vouchers| ensures Print(end.vouchers[i]) != Print(end.vouchers[j]) {
      PrintIsInjective(end.vouchers[i], end.vouchers[j]);
      var year := end.vouchers[i].year;
      assert Sequences(end.vouchers, year) == UpTo(LastSeq(end, year));
      DistinctSequences(end.vouchers, year, LastSeq(end, year), i, j);
    }
  }

  /** When several transactions find no counter row for a new year, the first to commit
      shuts the others out for good: whatever happens next, none of them can insert. */
  lemma LosersOfTheFirstYearRace(s: State, steps: seq<Step>, more: seq<Step>, id: nat)
    requires GapFree(s) && s.open == map[] && Legal(s, steps) && Legal(After(s, steps), more)
    requires id in After(s, steps).open && !After(s, steps).open[id].found
    requires LastSeq(After(s, steps), After(s, steps).open[id].voucher.year) >= 1
    requires id in After(After(s, steps), more).open && forall k | 0 <= k < |more| :: more[k].id != id
    ensures !Enabled(After(After(s, steps), more), Insert(id)) && !Enabled(After(After(s, steps), more), Commit(id))
  {
    RunsKeepInvariant(s, steps);
    ShutOut(After(s, steps), more, id);
  }

  lemma {:induction false} ShutOut(s: State, more: seq<Step>, id: nat)
    requires Invariant(s) && Legal(s, more) && id in s.open && !s.open[id].found
    requires LastSeq(s, s.open[id].voucher.year) >= 1
    requires id in After(s, more).open && forall k | 0 <= k < |more| :: more[k].id != id
    ensures !Enabled(After(s, more), Insert(id)) && !Enabled(After(s, more), Commit(id))
    decreases |more|
  {
    var v := s.open[id].voucher;
    FirstCommitted(s, v.year);
    assert GoodTransaction(s, s.open[id]);
    assert Voucher(v.year, 1) == v;
    if more != [] {
      var s' := Apply(s, more[0]);
      assert more[0].id != id;
      StepKeepsInvariant(s, more[0]);
      assert s'.open[id] == s.open[id];
      ShutOut(s', more[1..], id);
    }
  }
}

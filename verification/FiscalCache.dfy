/** The fiscal-period cache under interleaving. A refresh is a database read and, later,
    an installation; other calls, other processes and the clock move in between. */
module FiscalCache {
  import opened Calendar

  const CACHE_TTL_MS: nat := 15000

  /** The lock table at one moment. */
  datatype Instant = Instant(time: nat, table: set<Period>)

  /** An `assertOpen` call that found the cache stale: before or after its read of the table. */
  datatype Call = Reading(period: Period) | Fetched(period: Period, at: nat)

  /** `history` ends in the present; `source` is the moment whose table the cached set came from. */
  datatype State = State(
    history: seq<Instant>,
    lockedSet: set<string>,
    cacheLoadedAt: nat,
    source: nat,
    calls: map<nat, Call>)

  datatype Step =
    | Tick(now: nat)
    | Change(table: set<Period>)       // a lock or unlock reaches the table, from any process
    | Bust                             // `bustCache` in this process
    | LockHere(table: set<Period>)     // a change and its bust with nothing in between
    | Pass(period: Period)             // `assertOpen` on a fresh cache decides at once
    | Enter(call: nat, period: Period) // `assertOpen` on a stale cache starts a refresh
    | Read(call: nat)                  // the refresh reads the table
    | Install(call: nat)               // the refresh installs what it read, and decides

  function Now(s: State): nat
    requires s.history != []
  {
    s.history[|s.history| - 1].time
  }

  function Table(s: State): set<Period>
    requires s.history != []
  {
    s.history[|s.history| - 1].table
  }

  predicate Fresh(s: State)
    requires s.history != []
  {
    Now(s) - s.cacheLoadedAt < CACHE_TTL_MS
  }

  /** A fresh process, at any wall-clock time past the first 15 seconds of 1970. */
  predicate Initial(s: State) {
    |s.history| == 1 && Now(s) >= CACHE_TTL_MS && s.lockedSet == {} && s.cacheLoadedAt == 0 && s.calls == map[]
  }

  /** `latency` bounds the time between a read and its installation. */
  predicate Enabled(s: State, step: Step, latency: nat)
    requires s.history != []
  {
    match step
    case Tick(now) => now >= Now(s)
    case Change(_) => true
    case Bust => true
    case LockHere(_) => true
    case Pass(_) => Fresh(s)
    case Enter(c, _) => !Fresh(s) && c !in s.calls
    case Read(c) => c in s.calls && s.calls[c].Reading?
    case Install(c) =>
      c in s.calls && s.calls[c].Fetched? && s.calls[c].at < |s.history|
      && Now(s) <= s.history[s.calls[c].at].time + latency
  }

  function Apply(s: State, step: Step, latency: nat): (s': State)
    requires s.history != [] && Enabled(s, step, latency)
    ensures s'.history != []
  {
    match step
    case Tick(now) => s.(history := s.history + [Instant(now, Table(s))])
    case Change(table) => s.(history := s.history + [Instant(Now(s), table)])
    case Bust => s.(cacheLoadedAt := 0)
    case LockHere(table) => s.(history := s.history + [Instant(Now(s), table)], cacheLoadedAt := 0)
    case Pass(_) => s
    case Enter(c, p) => s.(calls := s.calls[c := Reading(p)])
    case Read(c) => s.(calls := s.calls[c := Fetched(s.calls[c].period, |s.history| - 1)])
    case Install(c) =>
      s.(lockedSet := Keys(s.history[s.calls[c].at].table), cacheLoadedAt := Now(s),
         source := s.calls[c].at, calls := s.calls - {c})
  }

  predicate Decides(step: Step) {
    step.Pass? || step.Install?
  }

  function Decided(s: State, step: Step, latency: nat): Period
    requires s.history != [] && Enabled(s, step, latency) && Decides(step)
  {
    if step.Pass? then step.period else s.calls[step.call].period
  }

  /** The verdict of `assertOpen`: the cached set, after the step, does not hold the key. */
  predicate Accepts(s: State, step: Step, latency: nat)
    requires s.history != [] && Enabled(s, step, latency) && Decides(step)
  {
    Key(Decided(s, step, latency)) !in Apply(s, step, latency).lockedSet
  }

  predicate Legal(s: State, steps: seq<Step>, latency: nat)
    requires s.history != []
    decreases |steps|
  {
    steps == [] || (Enabled(s, steps[0], latency) && Legal(Apply(s, steps[0], latency), steps[1..], latency))
  }

  function After(s: State, steps: seq<Step>, latency: nat): (s': State)
    requires s.history != [] && Legal(s, steps, latency)
    ensures s'.history != []
    decreases |steps|
  {
    if steps == [] then s else After(Apply(s, steps[0], latency), steps[1..], latency)
  }

  /** A loaded cache mirrors the table of a moment at most `latency` before it was loaded. */
  predicate Traceable(s: State, latency: nat) {
    && s.history != []
    && Now(s) >= CACHE_TTL_MS
    && (forall c | c in s.calls && s.calls[c].Fetched? :: s.calls[c].at < |s.history|)
    && (s.cacheLoadedAt != 0 ==>
          s.source < |s.history|
          && s.lockedSet == Keys(s.history[s.source].table)
          && s.cacheLoadedAt <= s.history[s.source].time + latency)
  }

  lemma TraceableNext(s: State, step: Step, latency: nat)
    requires Traceable(s, latency) && Enabled(s, step, latency)
    ensures Traceable(Apply(s, step, latency), latency)
  {
  }

  lemma {:induction false} RunsAreTraceable(s: State, steps: seq<Step>, latency: nat)
    requires Traceable(s, latency) && Legal(s, steps, latency)
    ensures Traceable(After(s, steps, latency), latency)
    decreases |steps|
  {
    if steps != [] {
      TraceableNext(s, steps[0], latency);
      RunsAreTraceable(Apply(s, steps[0], latency), steps[1..], latency);
    }
  }

  /** The verdict is the true state of the month at instant `k`, which is recent enough. */
  predicate JustifiedBy(s: State, step: Step, latency: nat, k: nat)
    requires s.history != [] && Enabled(s, step, latency) && Decides(step)
  {
    k < |s.history|
    && Now(s) < s.history[k].time + CACHE_TTL_MS + latency
    && (Accepts(s, step, latency) <==> Decided(s, step, latency) !in s.history[k].table)
  }

  /** Bounded staleness. In every run, with any number of refreshes in flight and any other
      process locking and unlocking, each verdict is the true state of its month at some
      instant less than TTL + latency ago. */
  lemma StalenessBound(s: State, steps: seq<Step>, step: Step, latency: nat)
    requires Initial(s) && Legal(s, steps, latency)
    requires Decides(step) && Enabled(After(s, steps, latency), step, latency)
    ensures exists k :: JustifiedBy(After(s, steps, latency), step, latency, k)
  {
    RunsAreTraceable(s, steps, latency);
    var end := After(s, steps, latency);
    assert Traceable(Apply(end, step, latency), latency);
    var end' := Apply(end, step, latency);
    var k := end'.source;
    assert end'.history == end.history && end'.cacheLoadedAt != 0;
    KeyMember(Decided(end, step, latency), end.history[k].table);
    assert JustifiedBy(end, step, latency, k);
  }

  /** In seconds: without read latency no verdict is older than fifteen seconds. */
  lemma {:induction false} FifteenSeconds(s: State, steps: seq<Step>, step: Step)
    requires Initial(s) && Legal(s, steps, 0)
    requires Decides(step) && Enabled(After(s, steps, 0), step, 0)
    ensures var end := After(s, steps, 0);
            exists k | 0 <= k < |end.history| ::
              Now(end) - end.history[k].time < 15 * 1000
              && (Accepts(end, step, 0) <==> Decided(end, step, 0) !in end.history[k].table)
  {
    StalenessBound(s, steps, step, 0);
    var k :| JustifiedBy(After(s, steps, 0), step, 0, k);
  }

  lemma RunCons(s: State, step: Step, rest: seq<Step>, latency: nat)
    requires s.history != [] && Enabled(s, step, latency) && Legal(Apply(s, step, latency), rest, latency)
    ensures Legal(s, [step] + rest, latency)
    ensures After(s, [step] + rest, latency) == After(Apply(s, step, latency), rest, latency)
  {
    assert ([step] + rest)[0] == step && ([step] + rest)[1..] == rest;
  }

  lemma RunOne(s: State, step: Step, latency: nat)
    requires s.history != [] && Enabled(s, step, latency)
    ensures Legal(s, [step], latency) && After(s, [step], latency) == Apply(s, step, latency)
  {
    var rest: seq<Step> := [];
    RunCons(s, step, rest, latency);
    assert [step] + rest == [step];
  }

  /** Install and wait, with a read of a table without `p` while the present one has it. */
  lemma StaleInstall(s: State, c: nat, p: Period, wait: nat, latency: nat)
    requires s.history != [] && Enabled(s, Install(c), latency) && wait < CACHE_TTL_MS
    requires p in Table(s) && p !in s.history[s.calls[c].at].table
    ensures var steps := [Install(c), Tick(Now(s) + wait)];
            Legal(s, steps, latency)
            && var end := After(s, steps, latency);
            Table(end) == Table(s) && Now(end) == Now(s) + wait && Enabled(end, Pass(p), latency) && Accepts(end, Pass(p), latency)
  {
    var s1 := Apply(s, Install(c), latency);
    RunOne(s1, Tick(Now(s) + wait), latency);
    RunCons(s, Install(c), [Tick(Now(s) + wait)], latency);
    assert [Install(c), Tick(Now(s) + wait)] == [Install(c)] + [Tick(Now(s) + wait)];
    KeyMember(p, s.history[s.calls[c].at].table);
  }

  /** The bound is not zero: a refresh that read before a lock and installs after its bust
      brings the unlocked set back, and the closed month stays open for up to a TTL. */
  lemma {:induction false} RefreshStraddlingALock(s: State, c: nat, p: Period, wait: nat, latency: nat)
    requires Initial(s) && p !in Table(s) && wait < CACHE_TTL_MS
    ensures var steps := [Enter(c, p)] + ([Read(c)] + ([LockHere(Table(s) + {p})] + [Install(c), Tick(Now(s) + wait)]));
            Legal(s, steps, latency)
            && var end := After(s, steps, latency);
            p in Table(end) && Now(end) == Now(s) + wait && Enabled(end, Pass(p), latency) && Accepts(end, Pass(p), latency)
  {
    var last := [Install(c), Tick(Now(s) + wait)];
    var s1 := Apply(s, Enter(c, p), latency);
    var s2 := Apply(s1, Read(c), latency);
    var s3 := Apply(s2, LockHere(Table(s) + {p}), latency);
    StaleInstall(s3, c, p, wait, latency);
    RunCons(s2, LockHere(Table(s) + {p}), last, latency);
    RunCons(s1, Read(c), [LockHere(Table(s) + {p})] + last, latency);
    RunCons(s, Enter(c, p), [Read(c)] + ([LockHere(Table(s) + {p})] + last), latency);
  }

  /** In seconds: after such a lock the month stays open for any wait below fifteen seconds. */
  lemma {:induction false} OpenForFifteenSeconds(s: State, c: nat, p: Period, wait: nat, latency: nat)
    requires Initial(s) && p !in Table(s) && wait < 15 * 1000
    ensures exists steps ::
      Legal(s, steps, latency)
      && p in Table(After(s, steps, latency)) && Now(After(s, steps, latency)) == Now(s) + wait
      && Enabled(After(s, steps, latency), Pass(p), latency) && Accepts(After(s, steps, latency), Pass(p), latency)
  {
    var steps := [Enter(c, p)] + ([Read(c)] + ([LockHere(Table(s) + {p})] + [Install(c), Tick(Now(s) + wait)]));
    RefreshStraddlingALock(s, c, p, wait, latency);
    assert Legal(s, steps, latency);
  }

  // Which states and steps are harmless.

  predicate RightVerdict(s: State, step: Step, latency: nat)
    requires s.history != [] && Enabled(s, step, latency) && Decides(step)
  {
    Accepts(s, step, latency) <==> Decided(s, step, latency) !in Table(s)
  }

  predicate Disturbs(step: Step) {
    step.Change? || step.LockHere?
  }

  /** A verdict at the end of a legal continuation in which nothing locks or unlocks. */
  predicate VerdictAfter(s: State, steps: seq<Step>, step: Step, latency: nat)
    requires s.history != []
  {
    && (forall i | 0 <= i < |steps| :: !Disturbs(steps[i]))
    && Legal(s, steps, latency)
    && Decides(step) && Enabled(After(s, steps, latency), step, latency)
  }

  /** As long as nothing locks or unlocks, every verdict is the state of its month. */
  ghost predicate Exact(s: State, latency: nat)
    requires s.history != []
  {
    forall steps, step | VerdictAfter(s, steps, step, latency) :: RightVerdict(After(s, steps, latency), step, latency)
  }

  /** No refresh holds a table it can still install. */
  predicate NoneInstallable(s: State, latency: nat)
    requires s.history != []
  {
    forall c | c in s.calls :: !Enabled(s, Install(c), latency)
  }

  /** What the cache holds, if it is fresh, and what pending refreshes can still install is the table. */
  predicate Aligned(s: State, latency: nat)
    requires Traceable(s, latency)
  {
    && (Fresh(s) ==> s.history[s.source].table == Table(s))
    && (forall c | c in s.calls && Enabled(s, Install(c), latency) :: s.history[s.calls[c].at].table == Table(s))
  }

  /** A step is quiet unless it changes the table behind the cache's back: while a refresh can
      still install an earlier read, or, without a bust, while the cache is fresh. */
  predicate Quiet(s: State, step: Step, latency: nat)
    requires s.history != []
  {
    match step
    case Change(table) => table == Table(s) || (!Fresh(s) && NoneInstallable(s, latency))
    case LockHere(table) => table == Table(s) || NoneInstallable(s, latency)
    case _ => true
  }

  lemma AlignedNext(s: State, step: Step, latency: nat)
    requires Traceable(s, latency) && Aligned(s, latency) && Enabled(s, step, latency) && !Disturbs(step)
    ensures Traceable(Apply(s, step, latency), latency) && Aligned(Apply(s, step, latency), latency)
  {
    TraceableNext(s, step, latency);
    var s' := Apply(s, step, latency);
    forall c | c in s'.calls && Enabled(s', Install(c), latency)
      ensures s'.history[s'.calls[c].at].table == Table(s')
    {
      assert c in s.calls && (s.calls[c] == s'.calls[c] ==> Enabled(s, Install(c), latency));
    }
  }

  lemma AlignedVerdict(s: State, step: Step, latency: nat)
    requires Traceable(s, latency) && Aligned(s, latency) && Enabled(s, step, latency) && Decides(step)
    ensures RightVerdict(s, step, latency)
  {
    KeyMember(Decided(s, step, latency), Table(s));
  }

  lemma {:induction false} AlignedContinuations(s: State, steps: seq<Step>, step: Step, latency: nat)
    requires Traceable(s, latency) && Aligned(s, latency) && VerdictAfter(s, steps, step, latency)
    ensures RightVerdict(After(s, steps, latency), step, latency)
    decreases |steps|
  {
    if steps == [] {
      AlignedVerdict(s, step, latency);
    } else {
      assert !Disturbs(steps[0]);
      AlignedNext(s, steps[0], latency);
      AlignedContinuations(Apply(s, steps[0], latency), steps[1..], step, latency);
    }
  }

  lemma SomeDifference(a: set<Period>, b: set<Period>) returns (p: Period)
    requires a != b
    ensures p in a <==> p !in b
  {
    if a <= b {
      assert !(b <= a);
      p :| p in b && p !in a;
    } else {
      p :| p in a && p !in b;
    }
  }

  /** A fresh cache that differs from the table gives a wrong verdict at once. */
  lemma StaleCacheMisleads(s: State, latency: nat)
    requires Traceable(s, latency) && Fresh(s) && s.history[s.source].table != Table(s)
    ensures !Exact(s, latency)
  {
    var p := SomeDifference(s.history[s.source].table, Table(s));
    KeyMember(p, s.history[s.source].table);
    assert VerdictAfter(s, [], Pass(p), latency) && !RightVerdict(s, Pass(p), latency);
    assert After(s, [], latency) == s;
  }

  /** A pending refresh that differs from the table gives one once it has installed. */
  lemma StaleReadMisleads(s: State, c: nat, latency: nat)
    requires Traceable(s, latency) && c in s.calls && Enabled(s, Install(c), latency)
    requires s.history[s.calls[c].at].table != Table(s)
    ensures !Exact(s, latency)
  {
    var p := SomeDifference(s.history[s.calls[c].at].table, Table(s));
    KeyMember(p, s.history[s.calls[c].at].table);
    var s1 := Apply(s, Install(c), latency);
    RunOne(s, Install(c), latency);
    assert VerdictAfter(s, [Install(c)], Pass(p), latency) && !RightVerdict(s1, Pass(p), latency);
  }

  /** Which states are exact: in every reachable state, all verdicts of all continuations without
      a lock or unlock are right exactly when a fresh cache equals the table and so does every
      read that can still be installed. */
  lemma {:induction false} ExactIffAligned(s: State, latency: nat)
    requires Traceable(s, latency)
    ensures Exact(s, latency) <==> Aligned(s, latency)
  {
    if Aligned(s, latency) {
      forall steps, step | VerdictAfter(s, steps, step, latency)
        ensures RightVerdict(After(s, steps, latency), step, latency)
      {
        AlignedContinuations(s, steps, step, latency);
      }
    } else if Fresh(s) && s.history[s.source].table != Table(s) {
      StaleCacheMisleads(s, latency);
    } else {
      var c :| c in s.calls && Enabled(s, Install(c), latency) && s.history[s.calls[c].at].table != Table(s);
      StaleReadMisleads(s, c, latency);
    }
  }

  lemma DisturbanceAligned(s: State, step: Step, latency: nat)
    requires Traceable(s, latency) && Aligned(s, latency) && Enabled(s, step, latency) && Disturbs(step)
    ensures Traceable(Apply(s, step, latency), latency)
    ensures Aligned(Apply(s, step, latency), latency) <==> Quiet(s, step, latency)
  {
    TraceableNext(s, step, latency);
    var s' := Apply(s, step, latency);
    forall c | c in s.calls
      ensures Enabled(s', Install(c), latency) <==> Enabled(s, Install(c), latency)
      ensures s.calls[c].Fetched? ==> s'.history[s'.calls[c].at] == s.history[s.calls[c].at]
    {
    }
    if !NoneInstallable(s, latency) {
      var c :| c in s.calls && Enabled(s, Install(c), latency);
      assert s'.history[s'.calls[c].at].table == Table(s);
    }
  }

  /** Which steps are harmless: from an exact state, exactly the quiet steps lead to an exact
      state. Any other step has a continuation without further change and a wrong verdict. */
  lemma {:induction false} ExactIffQuiet(s: State, step: Step, latency: nat)
    requires Traceable(s, latency) && Exact(s, latency) && Enabled(s, step, latency)
    ensures Exact(Apply(s, step, latency), latency) <==> Quiet(s, step, latency)
  {
    ExactIffAligned(s, latency);
    TraceableNext(s, step, latency);
    ExactIffAligned(Apply(s, step, latency), latency);
    if Disturbs(step) {
      DisturbanceAligned(s, step, latency);
    } else {
      AlignedNext(s, step, latency);
    }
  }

  predicate QuietRun(s: State, steps: seq<Step>, latency: nat)
    requires s.history != [] && Legal(s, steps, latency)
    decreases |steps|
  {
    steps == [] || (Quiet(s, steps[0], latency) && QuietRun(Apply(s, steps[0], latency), steps[1..], latency))
  }

  lemma {:induction false} QuietRunsStayExact(s: State, steps: seq<Step>, latency: nat)
    requires Traceable(s, latency) && Exact(s, latency) && Legal(s, steps, latency) && QuietRun(s, steps, latency)
    ensures Exact(After(s, steps, latency), latency)
    decreases |steps|
  {
    if steps != [] {
      TraceableNext(s, steps[0], latency);
      ExactIffQuiet(s, steps[0], latency);
      QuietRunsStayExact(Apply(s, steps[0], latency), steps[1..], latency);
    }
  }

  /** From the start of a process, at the end of every quiet run each verdict is the state of
      the month right now. */
  lemma {:induction false} QuietRunsAreExact(s: State, steps: seq<Step>, step: Step, latency: nat)
    requires Initial(s) && Legal(s, steps, latency) && QuietRun(s, steps, latency)
    requires Decides(step) && Enabled(After(s, steps, latency), step, latency)
    ensures RightVerdict(After(s, steps, latency), step, latency)
  {
    ExactIffAligned(s, latency);
    QuietRunsStayExact(s, steps, latency);
    var end := After(s, steps, latency);
    assert VerdictAfter(end, [], step, latency) && After(end, [], latency) == end;
  }
}

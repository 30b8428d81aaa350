/** The barcode scan detector: a timed machine over key events, and the batch reading of the
    whole event trace that it computes on the fly. */
module ScanDetection {
  import opened Options
  import opened Text

  datatype Config = Config(maxTimeBetweenKeys: nat, minLength: int, prefixChars: seq<string>, suffixChars: seq<string>)

  datatype Event =
    | Key(time: nat, key: string, ignored: bool) // ignored: a modifier is held, or the focus is editable
    | Timeout(time: nat)                         // the safety timer fires
    | Reset(time: nat)                           // the hook is disabled or set up anew

  /** Buffer, time of the last key (0: none), and the deadline of the pending timer. */
  datatype State = State(buffer: string, lastKeyTime: nat, timer: Option<nat>)

  const IDLE: State := State("", 0, None)

  predicate EndsWith(s: string, suffix: string) {
    |suffix| <= |s| && s[|s| - |suffix|..] == suffix
  }

  function StripPrefix(s: string, prefix: string): string {
    if StartsWith(s, prefix) then s[|prefix|..] else s
  }

  /** `slice(0, -suffix.length)`; for the empty suffix that is `slice(0, 0)`, the empty string. */
  function StripSuffix(s: string, suffix: string): string {
    if !EndsWith(s, suffix) then s else if suffix == "" then "" else s[..|s| - |suffix|]
  }

  function StripPrefixes(s: string, prefixes: seq<string>): string {
    if prefixes == [] then s else StripPrefixes(StripPrefix(s, prefixes[0]), prefixes[1..])
  }

  function StripSuffixes(s: string, suffixes: seq<string>): string {
    if suffixes == [] then s else StripSuffixes(StripSuffix(s, suffixes[0]), suffixes[1..])
  }

  function Clean(raw: string, prefixes: seq<string>, suffixes: seq<string>): string {
    Trim(StripSuffixes(StripPrefixes(raw, prefixes), suffixes))
  }

  method CleanBarcode(raw: string, prefixes: seq<string>, suffixes: seq<string>) returns (code: string)
    ensures code == Clean(raw, prefixes, suffixes)
  {
    var result := raw;
    for i := 0 to |prefixes|
      invariant StripPrefixes(result, prefixes[i..]) == StripPrefixes(raw, prefixes)
    {
      result := StripPrefix(result, prefixes[i]);
      assert prefixes[i..][1..] == prefixes[i + 1..];
    }
    assert result == StripPrefixes(raw, prefixes);
    ghost var middle := result;
    for i := 0 to |suffixes|
      invariant StripSuffixes(result, suffixes[i..]) == StripSuffixes(middle, suffixes)
    {
      result := StripSuffix(result, suffixes[i]);
      assert suffixes[i..][1..] == suffixes[i + 1..];
    }
    code := Trim(result);
  }

  function Scan(c: Config, buffer: string): Option<string> {
    var code := Clean(buffer, c.prefixChars, c.suffixChars);
    if |code| >= c.minLength then Some(code) else None
  }

  /** The buffer that a key finds: emptied when the gap before it is too long. */
  function BufferAt(c: Config, s: State, time: nat): string {
    if s.lastKeyTime > 0 && time - s.lastKeyTime > c.maxTimeBetweenKeys then "" else s.buffer
  }

  /** The state after one event. */
  function Next(c: Config, s: State, e: Event): State {
    match e
    case Key(time, key, ignored) =>
      if ignored then s
      else if key == "Enter" then IDLE
      else
        State(BufferAt(c, s, time) + (if |key| == 1 then key else ""), time, Some(time + 3 * c.maxTimeBetweenKeys))
    case Timeout(_) => IDLE
    case Reset(_) => IDLE
  }

  /** The barcode that one event passes to `onScan`, if any. */
  function Report(c: Config, s: State, e: Event): Option<string> {
    if e.Key? && !e.ignored && e.key == "Enter" then Scan(c, BufferAt(c, s, e.time)) else None
  }

  function Listed(scan: Option<string>): seq<string> {
    if scan.Some? then [scan.value] else []
  }

  class ScanDetector {
    const config: Config
    var bufferRef: string
    var lastKeyTimeRef: nat
    var timeoutRef: Option<nat>

    function Current(): State
      reads this
    {
      State(bufferRef, lastKeyTimeRef, timeoutRef)
    }

    constructor (config: Config)
      ensures this.config == config && Current() == IDLE
    {
      this.config := config;
      bufferRef, lastKeyTimeRef, timeoutRef := "", 0, None;
    }

    method ResetBuffer()
      modifies this`bufferRef, this`lastKeyTimeRef
      ensures bufferRef == "" && lastKeyTimeRef == 0
    {
      bufferRef := "";
      lastKeyTimeRef := 0;
    }

    method HandleKeyDown(now: nat, key: string, ignored: bool) returns (onScan: Option<string>)
      modifies this
      ensures Current() == Next(config, old(Current()), Key(now, key, ignored))
      ensures onScan == Report(config, old(Current()), Key(now, key, ignored))
    {
      if ignored {
        return None;
      }
      var timeSinceLastKey := now - lastKeyTimeRef;
      if lastKeyTimeRef > 0 && timeSinceLastKey > config.maxTimeBetweenKeys {
        ResetBuffer();
      }
      lastKeyTimeRef := now;
      timeoutRef := None;
      if key == "Enter" {
        var scannedBarcode := CleanBarcode(bufferRef, config.prefixChars, config.suffixChars);
        onScan := if |scannedBarcode| >= config.minLength then Some(scannedBarcode) else None;
        ResetBuffer();
        return;
      }
      if |key| == 1 {
        bufferRef := bufferRef + key;
      }
      timeoutRef := Some(now + config.maxTimeBetweenKeys * 3);
      onScan := None;
    }

    method OnTimeout(now: nat)
      modifies this
      ensures Current() == Next(config, old(Current()), Timeout(now))
    {
      timeoutRef := None;
      ResetBuffer();
    }

    method TearDown(now: nat)
      modifies this
      ensures Current() == Next(config, old(Current()), Reset(now))
    {
      timeoutRef := None;
      ResetBuffer();
    }
  }

  /** Everything passed to `onScan` over a trace. */
  function Scans(c: Config, s: State, events: seq<Event>): seq<string>
    decreases |events|
  {
    if events == [] then []
    else Listed(Report(c, s, events[0])) + Scans(c, Next(c, s, events[0]), events[1..])
  }

  /** The clock is positive and does not go back; a timer fires when it is pending and due. */
  predicate Legal(c: Config, s: State, now: nat, events: seq<Event>)
    decreases |events|
  {
    events == [] ||
    (events[0].time >= now && events[0].time > 0
     && (events[0].Timeout? ==> s.timer.Some? && events[0].time >= s.timer.value)
     && Legal(c, Next(c, s, events[0]), events[0].time, events[1..]))
  }

  /** The trace as the machine without a timer sees it. */
  function Untimed(events: seq<Event>): seq<Event> {
    if events == [] then []
    else (if events[0].Timeout? then [] else [events[0]]) + Untimed(events[1..])
  }

  /** The timed machine has been reset by its timer where the other waits for a late key. */
  predicate Bisimilar(c: Config, s: State, t: State, now: nat) {
    && (s.lastKeyTime > 0 ==> s.timer == Some(s.lastKeyTime + 3 * c.maxTimeBetweenKeys))
    && ((s.buffer == t.buffer && s.lastKeyTime == t.lastKeyTime && (s.timer.Some? ==> s.lastKeyTime > 0))
        || (s == IDLE && t.lastKeyTime > 0 && now >= t.lastKeyTime + 3 * c.maxTimeBetweenKeys))
  }

  lemma {:induction false} TimedMatchesUntimed(c: Config, s: State, t: State, now: nat, events: seq<Event>)
    requires c.maxTimeBetweenKeys > 0 && Bisimilar(c, s, t, now) && Legal(c, s, now, events)
    ensures Scans(c, s, events) == Scans(c, t, Untimed(events))
    decreases |events|
  {
    if events != [] {
      var e := events[0];
      var s' := Next(c, s, e);
      if e.Timeout? {
        assert Untimed(events) == Untimed(events[1..]);
        TimedMatchesUntimed(c, s', t, e.time, events[1..]);
      } else {
        assert Untimed(events) == [e] + Untimed(events[1..]);
        assert Untimed(events)[1..] == Untimed(events[1..]);
        TimedMatchesUntimed(c, s', Next(c, t, e), e.time, events[1..]);
      }
    }
  }

  /** With a zero gap the timer can fire between two keys of the same millisecond. */
  lemma TimerMattersWithoutGaps(c: Config, a: Event, fires: Event, enter: Event, events: seq<Event>)
    requires c == Config(0, 1, [], [])
    requires a == Key(1, "a", false) && fires == Timeout(1) && enter == Key(1, "Enter", false)
    requires events == [a] + ([fires] + ([enter] + []))
    ensures Legal(c, IDLE, 0, events) && Scans(c, IDLE, events) != Scans(c, IDLE, Untimed(events))
  {
    ScanOfTyped(c);
    var typed, last := Next(c, IDLE, a), [enter] + [];
    assert typed.buffer == "" + "a" == "a";
    ScansCons(c, typed, 1, enter, []);
    ScansCons(c, IDLE, 1, enter, []);
    ScansCons(c, typed, 1, fires, last);
    ScansCons(c, IDLE, 0, a, [fires] + last);
    ScansCons(c, IDLE, 0, a, last);
  }

  lemma ScanOfTyped(c: Config)
    requires c == Config(0, 1, [], [])
    ensures Scan(c, "a") == Some("a") && Scan(c, "") == None
  {
    assert !IsSpace("a"[0]);
  }

  lemma ScansCons(c: Config, s: State, now: nat, e: Event, rest: seq<Event>)
    ensures Scans(c, s, [e] + rest) == Listed(Report(c, s, e)) + Scans(c, Next(c, s, e), rest)
    ensures Untimed([e] + rest) == (if e.Timeout? then [] else [e]) + Untimed(rest)
    ensures Legal(c, s, now, [e] + rest) <==>
      e.time >= now && e.time > 0 && (e.Timeout? ==> s.timer.Some? && e.time >= s.timer.value)
      && Legal(c, Next(c, s, e), e.time, rest)
  {
    assert ([e] + rest)[1..] == rest;
  }

  /** The safety timer is observationally redundant, for every configuration and every legal
      trace, exactly when the maximum gap is positive. */
  lemma TimerIsRedundantIff(max: nat)
    ensures (forall c: Config, events | c.maxTimeBetweenKeys == max && Legal(c, IDLE, 0, events) ::
               Scans(c, IDLE, events) == Scans(c, IDLE, Untimed(events)))
            <==> max > 0
  {
    if max > 0 {
      forall c: Config, events | c.maxTimeBetweenKeys == max && Legal(c, IDLE, 0, events)
        ensures Scans(c, IDLE, events) == Scans(c, IDLE, Untimed(events))
      {
        TimedMatchesUntimed(c, IDLE, IDLE, 0, events);
      }
    } else {
      var c, a, fires, enter := Config(0, 1, [], []), Key(1, "a", false), Timeout(1), Key(1, "Enter", false);
      var events := [a] + ([fires] + ([enter] + []));
      TimerMattersWithoutGaps(c, a, fires, enter, events);
    }
  }

  /** What the handler does not ignore. */
  function Accepted(events: seq<Event>): seq<Event> {
    if events == [] then []
    else (if events[0].Key? && events[0].ignored then [] else [events[0]]) + Accepted(events[1..])
  }

  predicate PlainKey(e: Event) {
    e.Key? && e.key != "Enter"
  }

  /** Event `j` is a plain key and the next event comes soon enough. */
  predicate Continues(c: Config, events: seq<Event>, j: nat)
    requires j + 1 < |events|
  {
    PlainKey(events[j]) && events[j + 1].time - events[j].time <= c.maxTimeBetweenKeys
  }

  /** From `start` up to `end`: plain keys only, every gap, the one to `end` included, short enough. */
  predicate IsRun(c: Config, events: seq<Event>, start: nat, end: nat)
    requires end < |events|
  {
    start <= end && forall j | start <= j < end :: Continues(c, events, j)
  }

  function RunStart(c: Config, events: seq<Event>, end: nat): (start: nat)
    requires end < |events|
    ensures start <= end
  {
    if end > 0 && Continues(c, events, end - 1) then RunStart(c, events, end - 1) else end
  }

  /** `RunStart` is where the longest run up to `end` starts. */
  lemma {:induction false} RunStartIsLongest(c: Config, events: seq<Event>, start: nat, end: nat)
    requires end < |events|
    ensures IsRun(c, events, start, end) <==> RunStart(c, events, end) <= start <= end
  {
    if start < end {
      if Continues(c, events, end - 1) {
        RunStartIsLongest(c, events, start, end - 1);
      }
    }
  }

  /** The single characters among the keys. */
  function Printable(events: seq<Event>): string {
    if events == [] then ""
    else
      var last := events[|events| - 1];
      Printable(events[..|events| - 1]) + (if last.Key? && |last.key| == 1 then last.key else "")
  }

  /** The batch reading: each Enter scans the printable keys of the longest run before it. */
  function BatchScans(c: Config, events: seq<Event>, from: nat): seq<string>
    requires from <= |events|
    decreases |events| - from
  {
    if from == |events| then []
    else
      var e := events[from];
      var scan := if e.Key? && e.key == "Enter"
                  then Scan(c, Printable(events[RunStart(c, events, from)..from])) else None;
      Listed(scan) + BatchScans(c, events, from + 1)
  }

  lemma {:induction false} IgnoredKeysDoNothing(c: Config, s: State, events: seq<Event>)
    ensures Scans(c, s, events) == Scans(c, s, Accepted(events))
    decreases |events|
  {
    if events != [] {
      var e := events[0];
      IgnoredKeysDoNothing(c, Next(c, s, e), events[1..]);
      if e.Key? && e.ignored {
        assert Accepted(events) == Accepted(events[1..]);
      } else {
        assert Accepted(events)[1..] == Accepted(events[1..]);
      }
    }
  }

  /** What the machine knows after the first `n` events. */
  predicate Knows(c: Config, s: State, events: seq<Event>, n: nat)
    requires n <= |events|
  {
    if n > 0 && PlainKey(events[n - 1])
    then s.lastKeyTime == events[n - 1].time && s.buffer == Printable(events[RunStart(c, events, n - 1)..n])
    else s.lastKeyTime == 0 && s.buffer == ""
  }

  lemma BufferIsRun(c: Config, s: State, events: seq<Event>, n: nat)
    requires n < |events| && Knows(c, s, events, n)
    requires forall j | 0 <= j < |events| :: events[j].time > 0
    ensures BufferAt(c, s, events[n].time) == Printable(events[RunStart(c, events, n)..n])
  {
    if n > 0 && Continues(c, events, n - 1) {
      assert RunStart(c, events, n) == RunStart(c, events, n - 1);
    } else {
      assert RunStart(c, events, n) == n && events[n..n] == [];
    }
  }

  lemma {:induction false} OneMoreKey(c: Config, s: State, events: seq<Event>, n: nat)
    requires n < |events| && PlainKey(events[n]) && !events[n].ignored
    requires BufferAt(c, s, events[n].time) == Printable(events[RunStart(c, events, n)..n])
    ensures Knows(c, Next(c, s, events[n]), events, n + 1)
  {
    var run := events[RunStart(c, events, n)..n + 1];
    assert run[..|run| - 1] == events[RunStart(c, events, n)..n];
  }

  lemma {:induction false} MachineMatchesBatch(c: Config, s: State, events: seq<Event>, n: nat)
    requires n <= |events| && Knows(c, s, events, n)
    requires forall j | 0 <= j < |events| ::
      events[j].time > 0 && !events[j].Timeout? && (events[j].Key? ==> !events[j].ignored)
    ensures Scans(c, s, events[n..]) == BatchScans(c, events, n)
    decreases |events| - n
  {
    if n < |events| {
      var e := events[n];
      assert events[n..][0] == e && events[n..][1..] == events[n + 1..];
      BufferIsRun(c, s, events, n);
      if PlainKey(e) {
        OneMoreKey(c, s, events, n);
      }
      MachineMatchesBatch(c, Next(c, s, e), events, n + 1);
    }
  }

  lemma {:induction false} AcceptedUntimed(c: Config, s: State, now: nat, events: seq<Event>)
    requires Legal(c, s, now, events)
    ensures forall j | 0 <= j < |Accepted(Untimed(events))| ::
      var e := Accepted(Untimed(events))[j]; e.time > 0 && !e.Timeout? && (e.Key? ==> !e.ignored)
    decreases |events|
  {
    if events != [] {
      AcceptedUntimed(c, Next(c, s, events[0]), events[0].time, events[1..]);
      if !events[0].Timeout? {
        assert Untimed(events) == [events[0]] + Untimed(events[1..]);
        assert Untimed(events)[1..] == Untimed(events[1..]);
      } else {
        assert Untimed(events) == Untimed(events[1..]);
      }
    }
  }

  /** The detector refines the batch reading: over every legal trace, with ignored keys, resets
      and timer firings anywhere, it reports exactly the scans of the accepted events. */
  lemma DetectorRefinesBatch(c: Config, events: seq<Event>)
    requires c.maxTimeBetweenKeys > 0 && Legal(c, IDLE, 0, events)
    ensures Scans(c, IDLE, events) == BatchScans(c, Accepted(Untimed(events)), 0)
  {
    TimedMatchesUntimed(c, IDLE, IDLE, 0, events);
    IgnoredKeysDoNothing(c, IDLE, Untimed(events));
    AcceptedUntimed(c, IDLE, 0, events);
    var accepted := Accepted(Untimed(events));
    assert accepted[0..] == accepted;
    MachineMatchesBatch(c, IDLE, accepted, 0);
  }

  function TotalLength(parts: seq<string>): nat {
    if parts == [] then 0 else |parts[0]| + TotalLength(parts[1..])
  }

  function Xs(n: nat): string {
    seq(n, _ => 'x')
  }

  lemma {:induction false} PrefixesLeaveXs(n: nat, prefixes: seq<string>)
    ensures exists k: nat :: StripPrefixes(Xs(n), prefixes) == Xs(k) && k + TotalLength(prefixes) >= n
  {
    if prefixes == [] {
      assert StripPrefixes(Xs(n), prefixes) == Xs(n);
    } else {
      var k := |StripPrefix(Xs(n), prefixes[0])|;
      assert StripPrefix(Xs(n), prefixes[0]) == Xs(k);
      PrefixesLeaveXs(k, prefixes[1..]);
    }
  }

  lemma {:induction false} SuffixesLeaveXs(n: nat, suffixes: seq<string>)
    requires "" !in suffixes
    ensures exists k: nat :: StripSuffixes(Xs(n), suffixes) == Xs(k) && k + TotalLength(suffixes) >= n
  {
    if suffixes == [] {
      assert StripSuffixes(Xs(n), suffixes) == Xs(n);
    } else {
      var k := |StripSuffix(Xs(n), suffixes[0])|;
      assert StripSuffix(Xs(n), suffixes[0]) == Xs(k);
      SuffixesLeaveXs(k, suffixes[1..]);
    }
  }

  lemma {:induction false} EmptySuffixEmpties(s: string, suffixes: seq<string>)
    requires s == "" || "" in suffixes
    ensures StripSuffixes(s, suffixes) == ""
  {
    if suffixes != [] {
      EmptySuffixEmpties(StripSuffix(s, suffixes[0]), suffixes[1..]);
    }
  }

  /** Cleaning loses every barcode exactly when the empty string is configured as a suffix. */
  lemma EmptySuffixErasesEveryScan(prefixes: seq<string>, suffixes: seq<string>)
    ensures (forall raw :: Clean(raw, prefixes, suffixes) == "") <==> "" in suffixes
  {
    if "" in suffixes {
      forall raw ensures Clean(raw, prefixes, suffixes) == "" {
        EmptySuffixEmpties(StripPrefixes(raw, prefixes), suffixes);
      }
    } else {
      var n := TotalLength(prefixes) + TotalLength(suffixes) + 1;
      PrefixesLeaveXs(n, prefixes);
      var k: nat :| StripPrefixes(Xs(n), prefixes) == Xs(k) && k + TotalLength(prefixes) >= n;
      SuffixesLeaveXs(k, suffixes);
      var m: nat :| StripSuffixes(Xs(k), suffixes) == Xs(m) && m + TotalLength(suffixes) >= k;
      assert Xs(m)[0] == 'x' && Xs(m)[m - 1] == 'x';
      assert Clean(Xs(n), prefixes, suffixes) == Xs(m) != "";
    }
  }

  /** The prefixes one after the other, and the suffixes the other way round: what a scanner adds
      around a code so that cleaning takes it off layer by layer. */
  function Front(prefixes: seq<string>): string {
    if prefixes == [] then "" else prefixes[0] + Front(prefixes[1..])
  }

  function Back(suffixes: seq<string>): string {
    if suffixes == [] then "" else Back(suffixes[1..]) + suffixes[0]
  }

  lemma FramedPrefix(prefix: string, rest: string)
    ensures StripPrefix(prefix + rest, prefix) == rest
  {
  }

  lemma FramedSuffix(rest: string, suffix: string)
    requires suffix != ""
    ensures StripSuffix(rest + suffix, suffix) == rest
  {
  }

  lemma {:induction false} StripFront(prefixes: seq<string>, rest: string)
    ensures StripPrefixes(Front(prefixes) + rest, prefixes) == rest
  {
    if prefixes == [] {
      assert Front(prefixes) + rest == rest;
    } else {
      assert Front(prefixes) + rest == prefixes[0] + (Front(prefixes[1..]) + rest);
      FramedPrefix(prefixes[0], Front(prefixes[1..]) + rest);
      StripFront(prefixes[1..], rest);
    }
  }

  lemma {:induction false} StripBack(rest: string, suffixes: seq<string>)
    requires "" !in suffixes
    ensures StripSuffixes(rest + Back(suffixes), suffixes) == rest
  {
    if suffixes == [] {
      assert rest + Back(suffixes) == rest;
    } else {
      assert rest + Back(suffixes) == (rest + Back(suffixes[1..])) + suffixes[0];
      FramedSuffix(rest + Back(suffixes[1..]), suffixes[0]);
      StripBack(rest, suffixes[1..]);
    }
  }

  /** Cleaning undoes framing: a code between white space, with all prefixes before it in order and
      all suffixes after it in reverse, none of them empty, is what is left. */
  lemma {:induction false} CleanUnframes(
      prefixes: seq<string>, before: string, code: string, after: string, suffixes: seq<string>)
    requires "" !in suffixes && AllSpaces(before) && AllSpaces(after) && Trimmed(code)
    ensures Clean(Front(prefixes) + (before + code + after) + Back(suffixes), prefixes, suffixes) == code
  {
    var inner := before + code + after;
    assert Front(prefixes) + inner + Back(suffixes) == Front(prefixes) + (inner + Back(suffixes));
    StripFront(prefixes, inner + Back(suffixes));
    StripBack(inner, suffixes);
    TrimOf(before, code, after);
  }

  /** The key events of a text, character by character. */
  function Keys(text: string, times: seq<nat>): seq<Event>
    requires |times| == |text|
  {
    if text == "" then [] else [Key(times[0], [text[0]], false)] + Keys(text[1..], times[1..])
  }

  /** No gap is longer than the maximum, from a first key time on. */
  predicate Quick(c: Config, last: nat, times: seq<nat>)
    decreases |times|
  {
    times == [] || (last <= times[0] <= last + c.maxTimeBetweenKeys && Quick(c, times[0], times[1..]))
  }

  lemma TypedKey(c: Config, s: State, time: nat, key: string)
    requires |key| == 1 && (s.lastKeyTime > 0 ==> s.lastKeyTime <= time <= s.lastKeyTime + c.maxTimeBetweenKeys)
    ensures Next(c, s, Key(time, key, false)) == State(s.buffer + key, time, Some(time + 3 * c.maxTimeBetweenKeys))
    ensures Report(c, s, Key(time, key, false)) == None
  {
  }

  lemma KeysCons(text: string, times: seq<nat>, last: Event)
    requires text != "" && |times| == |text|
    ensures Keys(text, times) + [last] == [Key(times[0], [text[0]], false)] + (Keys(text[1..], times[1..]) + [last])
  {
  }

  lemma QuickCons(c: Config, last: nat, times: seq<nat>, enter: nat)
    requires times != [] && Quick(c, last, times + [enter])
    ensures last <= times[0] <= last + c.maxTimeBetweenKeys && Quick(c, times[0], times[1..] + [enter])
  {
    assert (times + [enter])[0] == times[0] && (times + [enter])[1..] == times[1..] + [enter];
  }

  lemma QuickEnter(c: Config, s: State, enter: nat)
    requires s.lastKeyTime > 0 && Quick(c, s.lastKeyTime, [] + [enter])
    ensures Scans(c, s, [] + [Key(enter, "Enter", false)]) == Listed(Scan(c, s.buffer))
  {
    var last := Key(enter, "Enter", false);
    assert [] + [enter] == [enter] && [] + [last] == [last] + [];
    ScansCons(c, s, 0, last, []);
  }

  /** A quick key reports nothing and goes on with a longer buffer. */
  lemma QuickKey(c: Config, s: State, time: nat, key: string, rest: seq<Event>)
    requires |key| == 1 && s.lastKeyTime > 0 && s.lastKeyTime <= time <= s.lastKeyTime + c.maxTimeBetweenKeys
    ensures var next := State(s.buffer + key, time, Some(time + 3 * c.maxTimeBetweenKeys));
            Scans(c, s, [Key(time, key, false)] + rest) == Scans(c, next, rest)
  {
    TypedKey(c, s, time, key);
    ScansCons(c, s, 0, Key(time, key, false), rest);
  }

  lemma Moved(a: string, text: string)
    requires text != ""
    ensures (a + [text[0]]) + text[1..] == a + text
  {
  }

  lemma {:induction false} QuickKeys(c: Config, s: State, text: string, times: seq<nat>, enter: nat)
    requires |times| == |text| && s.lastKeyTime > 0 && Quick(c, s.lastKeyTime, times + [enter])
    ensures Scans(c, s, Keys(text, times) + [Key(enter, "Enter", false)]) == Listed(Scan(c, s.buffer + text))
    decreases |text|, 1
  {
    var last := Key(enter, "Enter", false);
    if text == "" {
      QuickEnter(c, s, enter);
      assert s.buffer + text == s.buffer;
    } else {
      QuickCons(c, s.lastKeyTime, times, enter);
      KeysCons(text, times, last);
      var next := State(s.buffer + [text[0]], times[0], Some(times[0] + 3 * c.maxTimeBetweenKeys));
      QuickKey(c, s, times[0], [text[0]], Keys(text[1..], times[1..]) + [last]);
      QuickTail(c, s, next, text, times, enter);
    }
  }

  lemma {:induction false} QuickTail(c: Config, s: State, next: State, text: string, times: seq<nat>, enter: nat)
    requires text != "" && |times| == |text| && next.lastKeyTime > 0 && Quick(c, next.lastKeyTime, times[1..] + [enter])
    requires next.buffer == s.buffer + [text[0]]
    ensures Scans(c, next, Keys(text[1..], times[1..]) + [Key(enter, "Enter", false)]) == Listed(Scan(c, s.buffer + text))
    decreases |text|, 0
  {
    QuickKeys(c, next, text[1..], times[1..], enter);
    Moved(s.buffer, text);
  }

  lemma {:induction false} QuickScan(c: Config, raw: string, times: seq<nat>, enter: nat)
    requires raw != "" && |times| == |raw| && times[0] > 0 && Quick(c, times[0], times[1..] + [enter])
    ensures Scans(c, IDLE, Keys(raw, times) + [Key(enter, "Enter", false)]) == Listed(Scan(c, "" + raw))
  {
    var next := State("" + [raw[0]], times[0], Some(times[0] + 3 * c.maxTimeBetweenKeys));
    KeysCons(raw, times, Key(enter, "Enter", false));
    FirstKey(c, times[0], [raw[0]], Keys(raw[1..], times[1..]) + [Key(enter, "Enter", false)]);
    QuickTail(c, IDLE, next, raw, times, enter);
  }

  lemma FirstKey(c: Config, time: nat, key: string, rest: seq<Event>)
    requires |key| == 1
    ensures var next := State("" + key, time, Some(time + 3 * c.maxTimeBetweenKeys));
            Scans(c, IDLE, [Key(time, key, false)] + rest) == Scans(c, next, rest)
  {
    TypedKey(c, IDLE, time, key);
    ScansCons(c, IDLE, 0, Key(time, key, false), rest);
  }

  /** From scanner to barcode: an idle detector that gets a framed code key by key, with no gap
      longer than the maximum, and then Enter, reports exactly the code if it is long enough and
      nothing otherwise. */
  lemma {:induction false} QuickScanIsReported(c: Config, raw: string, code: string, times: seq<nat>, enter: nat)
    requires raw != "" && |times| == |raw| && times[0] > 0 && Quick(c, times[0], times[1..] + [enter])
    requires code == Clean(raw, c.prefixChars, c.suffixChars)
    ensures Scans(c, IDLE, Keys(raw, times) + [Key(enter, "Enter", false)]) == if |code| >= c.minLength then [code] else []
  {
    QuickScan(c, raw, times, enter);
    ScanIfLong(c, raw, code);
  }

  lemma ScanIfLong(c: Config, raw: string, code: string)
    requires code == Clean(raw, c.prefixChars, c.suffixChars)
    ensures Listed(Scan(c, "" + raw)) == if |code| >= c.minLength then [code] else []
  {
    assert "" + raw == raw;
  }

  /** A pause longer than the maximum anywhere before Enter loses what was typed before it. */
  lemma {:induction false} PauseLosesKeys(c: Config, s: State, text: string, times: seq<nat>, enter: nat)
    requires text != "" && |times| == |text| && times[0] > s.lastKeyTime + c.maxTimeBetweenKeys && s.lastKeyTime > 0
    requires Quick(c, times[0], times[1..] + [enter])
    ensures Scans(c, s, Keys(text, times) + [Key(enter, "Enter", false)])
      == Scans(c, IDLE, Keys(text, times) + [Key(enter, "Enter", false)])
  {
    var first, last := Key(times[0], [text[0]], false), Key(enter, "Enter", false);
    var rest := Keys(text[1..], times[1..]) + [last];
    KeysCons(text, times, last);
    ScansCons(c, s, 0, first, rest);
    ScansCons(c, IDLE, 0, first, rest);
    assert Next(c, s, first) == Next(c, IDLE, first);
  }
}

/** The temporary password generator: one character of each kind, a random fill, and an
    in-place Fisher-Yates shuffle. `draws` are the results of `crypto.randomInt`, in order. */
module PasswordGenerator {
  import opened Sums

  /** The four kinds of characters. */
  datatype Alphabets = Alphabets(upper: string, lower: string, digits: string, symbols: string) {
    predicate Usable() {
      upper != "" && lower != "" && digits != "" && symbols != ""
    }

    function All(): string {
      upper + lower + digits + symbols
    }

    /** The characters that position k of the draft is drawn from. */
    function Pool(k: nat): (chars: string)
      requires Usable()
      ensures chars != ""
    {
      if k == 0 then upper else if k == 1 then lower else if k == 2 then digits else if k == 3 then symbols else All()
    }
  }

  const ALPHABETS := Alphabets("ABCDEFGHJKLMNPQRSTUVWXYZ", "abcdefghjkmnpqrstuvwxyz", "23456789", "@#$%&*!")

  function Size(length: int): nat {
    if length < 4 then 4 else length
  }

  /** What `randomInt` guarantees: n draws below the size of their pool, then one draw from
      0..i for each position i of the shuffle, from the last one down. */
  predicate InRange(chars: Alphabets, n: nat, draws: seq<nat>)
    requires chars.Usable()
  {
    PartnersInRange(n, draws) && forall k | 0 <= k < n :: draws[k] < |chars.Pool(k)|
  }

  predicate PartnersInRange(n: nat, draws: seq<nat>) {
    n > 0 && |draws| == 2 * n - 1 && forall k | n <= k < 2 * n - 1 :: draws[k] <= 2 * n - 1 - k
  }

  /** The characters before the shuffle. */
  function Draft(pools: seq<string>, draws: seq<nat>): (s: string)
    requires |draws| == |pools| && forall k | 0 <= k < |pools| :: draws[k] < |pools[k]|
    ensures |s| == |pools| && forall k | 0 <= k < |s| :: s[k] == pools[k][draws[k]]
  {
    seq(|pools|, k requires 0 <= k < |pools| => pools[k][draws[k]])
  }

  function Pools(chars: Alphabets, n: nat): (p: seq<string>)
    requires chars.Usable()
    ensures |p| == n && forall k | 0 <= k < n :: p[k] == chars.Pool(k)
  {
    if n == 0 then [] else Pools(chars, n - 1) + [chars.Pool(n - 1)]
  }

  /** The partner of each position; position 0 is its own. */
  function Choices(n: nat, draws: seq<nat>): (c: seq<nat>)
    requires PartnersInRange(n, draws)
    ensures ValidChoices(n, c)
  {
    seq(n, i requires 0 <= i < n => if i == 0 then 0 else draws[2 * n - 1 - i])
  }

  predicate ValidChoices(n: nat, choices: seq<nat>) {
    |choices| == n && forall i | 0 <= i < n :: choices[i] <= i
  }

  /** What is left to shuffle once s[j] has gone to the end: the last item takes its place. */
  function Rest<T>(s: seq<T>, j: nat): (r: seq<T>)
    requires j < |s|
    ensures |r| == |s| - 1
    ensures forall k | 0 <= k < |r| :: r[k] == if k == j then s[|s| - 1] else s[k]
  {
    s[j := s[|s| - 1]][..|s| - 1]
  }

  /** Fisher-Yates: the last position is settled first, then the rest is shuffled. */
  function Shuffle<T>(s: seq<T>, choices: seq<nat>): (t: seq<T>)
    requires ValidChoices(|s|, choices)
    ensures |t| == |s|
    decreases |s|
  {
    if s == [] then []
    else
      var i := |s| - 1;
      Shuffle(Rest(s, choices[i]), choices[..i]) + [s[choices[i]]]
  }

  /** The outcome when positions above i are settled. */
  function Outcome<T>(a: seq<T>, i: nat, choices: seq<nat>): seq<T>
    requires i < |a| && ValidChoices(|a|, choices)
  {
    Shuffle(a[..i + 1], choices[..i + 1]) + a[i + 1..]
  }

  /** Swapping positions i and choices[i] settles position i. */
  lemma SwapSettles<T>(before: seq<T>, after: seq<T>, i: nat, choices: seq<nat>)
    requires 0 < i < |before| && ValidChoices(|before|, choices)
    requires after == before[i := before[choices[i]]][choices[i] := before[i]]
    ensures Outcome(after, i - 1, choices) == Outcome(before, i, choices)
  {
    var s := before[..i + 1];
    assert after[..i] == Rest(s, choices[i]);
    assert choices[..i + 1][..i] == choices[..i] && choices[..i + 1][i] == choices[i];
    assert Shuffle(s, choices[..i + 1]) == Shuffle(after[..i], choices[..i]) + [after[i]];
    assert after[i..] == [after[i]] + before[i + 1..];
  }

  lemma OutcomeStarts<T>(a: seq<T>, choices: seq<nat>)
    requires a != [] && ValidChoices(|a|, choices)
    ensures Outcome(a, |a| - 1, choices) == Shuffle(a, choices)
  {
    assert a[..|a|] == a && choices[..|a|] == choices;
  }

  lemma OutcomeEnds<T>(a: seq<T>, choices: seq<nat>)
    requires a != [] && ValidChoices(|a|, choices)
    ensures Outcome(a, 0, choices) == a
  {
    assert Shuffle(a[..1], choices[..1]) == [a[0]];
  }

  lemma ChoiceOf(n: nat, draws: seq<nat>, i: nat)
    requires PartnersInRange(n, draws) && 0 < i < n
    ensures draws[2 * n - 1 - i] == Choices(n, draws)[i] <= i
  {
  }

  /** The outcome of the loop when positions above i are settled. */
  ghost function Pending(a: seq<char>, i: nat, draws: seq<nat>): seq<char>
    requires i < |a| && PartnersInRange(|a|, draws)
  {
    Outcome(a, i, Choices(|a|, draws))
  }

  /** One turn of the loop: swap, and position i is settled. */
  method Settle(arr: array<char>, i: nat, j: nat, ghost draws: seq<nat>)
    requires 0 < i < arr.Length && PartnersInRange(arr.Length, draws) && j == draws[2 * arr.Length - 1 - i]
    modifies arr
    ensures Pending(arr[..], i - 1, draws) == Pending(old(arr[..]), i, draws)
  {
    ghost var before, choices := arr[..], Choices(arr.Length, draws);
    ChoiceOf(arr.Length, draws, i);
    arr[i], arr[j] := arr[j], arr[i];
    assert arr[..] == before[i := before[j]][j := before[i]];
    SwapSettles(before, arr[..], i, choices);
  }

  method ShuffleInPlace(arr: array<char>, draws: seq<nat>)
    requires PartnersInRange(arr.Length, draws)
    modifies arr
    ensures arr[..] == Shuffle(old(arr[..]), Choices(arr.Length, draws))
  {
    OutcomeStarts(arr[..], Choices(arr.Length, draws));
    var next, i := arr.Length, arr.Length - 1;
    while i > 0
      invariant 0 <= i < arr.Length && next == 2 * arr.Length - 1 - i
      invariant Pending(arr[..], i, draws) == Pending(old(arr[..]), arr.Length - 1, draws)
    {
      var j := draws[next];
      ChoiceOf(arr.Length, draws, i);
      Settle(arr, i, j, draws);
      next := next + 1;
      i := i - 1;
    }
    OutcomeEnds(arr[..], Choices(arr.Length, draws));
  }

  lemma PrefixGrows(s: string, i: nat)
    requires i < |s|
    ensures s[..i + 1] == s[..i] + [s[i]]
  {
  }

  lemma DraftAt(chars: Alphabets, n: nat, draws: seq<nat>, i: nat)
    requires chars.Usable() && InRange(chars, n, draws) && i < n
    ensures Draft(Pools(chars, n), draws[..n])[i] == chars.Pool(i)[draws[i]]
  {
  }

  lemma DraftGrows(chars: Alphabets, n: nat, draws: seq<nat>, i: nat)
    requires chars.Usable() && InRange(chars, n, draws) && i < n
    ensures var draft := Draft(Pools(chars, n), draws[..n]);
            draft[..i + 1] == draft[..i] + [chars.Pool(i)[draws[i]]]
  {
    DraftAt(chars, n, draws, i);
    PrefixGrows(Draft(Pools(chars, n), draws[..n]), i);
  }

  method DraftPassword(chars: Alphabets, length: int, draws: seq<nat>) returns (draft: string)
    requires chars.Usable() && InRange(chars, Size(length), draws)
    ensures draft == Draft(Pools(chars, Size(length)), draws[..Size(length)])
  {
    ghost var n := Size(length);
    draft := [chars.upper[draws[0]]];
    DraftGrows(chars, n, draws, 0);
    draft := draft + [chars.lower[draws[1]]];
    DraftGrows(chars, n, draws, 1);
    draft := draft + [chars.digits[draws[2]]];
    DraftGrows(chars, n, draws, 2);
    draft := draft + [chars.symbols[draws[3]]];
    DraftGrows(chars, n, draws, 3);
    var allChars := chars.All();
    var i := 4;
    while i < length
      invariant 4 <= i <= n && draft == Draft(Pools(chars, n), draws[..n])[..i]
    {
      draft := draft + [allChars[draws[i]]];
      DraftGrows(chars, n, draws, i);
      i := i + 1;
    }
  }

  method RandomPassword(length: int, draws: seq<nat>) returns (password: string)
    requires InRange(ALPHABETS, Size(length), draws)
    ensures password == Generated(ALPHABETS, length, draws)
  {
    var draft := DraftPassword(ALPHABETS, length, draws);
    var arr := new char[|draft|](k requires 0 <= k < |draft| => draft[k]);
    assert arr[..] == draft;
    ShuffleInPlace(arr, draws);
    password := arr[..];
  }

  function Generated(chars: Alphabets, length: int, draws: seq<nat>): string
    requires chars.Usable() && InRange(chars, Size(length), draws)
  {
    Shuffle(Draft(Pools(chars, Size(length)), draws[..Size(length)]), Choices(Size(length), draws))
  }

  predicate HasOneOf(s: string, chars: string) {
    exists i | 0 <= i < |s| :: s[i] in chars
  }

  lemma Split<T>(s: seq<T>, i: nat)
    requires i < |s|
    ensures s == s[..i] + [s[i]] + s[i + 1..]
    ensures multiset(s) == multiset(s[..i]) + multiset{s[i]} + multiset(s[i + 1..])
  {
    assert s == s[..i] + [s[i]] + s[i + 1..];
  }

  lemma RestPieces<T>(s: seq<T>, j: nat)
    requires j < |s| - 1
    ensures var last := |s| - 1;
            Rest(s, j) == s[..j] + [s[last]] + s[j + 1..last] && s[j + 1..] == s[j + 1..last] + [s[last]]
  {
  }

  lemma RestMultiset<T>(s: seq<T>, j: nat)
    requires j < |s|
    ensures multiset(Rest(s, j)) + multiset{s[j]} == multiset(s)
  {
    Split(s, j);
    if j == |s| - 1 {
      assert Rest(s, j) == s[..j] && s[j + 1..] == [];
    } else {
      RestPieces(s, j);
    }
  }

  lemma {:induction false} ShufflePermutes<T>(s: seq<T>, choices: seq<nat>)
    requires ValidChoices(|s|, choices)
    ensures multiset(Shuffle(s, choices)) == multiset(s)
    decreases |s|
  {
    if s != [] {
      var i := |s| - 1;
      ShufflePermutes(Rest(s, choices[i]), choices[..i]);
      RestMultiset(s, choices[i]);
    }
  }

  lemma Survives(draft: string, password: string, k: nat, chars: string)
    requires k < |draft| && draft[k] in chars && multiset(password) == multiset(draft)
    ensures HasOneOf(password, chars)
  {
    assert draft[k] in multiset(draft);
    assert draft[k] in password;
  }

  lemma DraftIsOfAlphabet(chars: Alphabets, n: nat, draws: seq<nat>)
    requires chars.Usable() && InRange(chars, n, draws)
    ensures forall c | c in Draft(Pools(chars, n), draws[..n]) :: c in chars.All()
  {
    var draft := Draft(Pools(chars, n), draws[..n]);
    forall k | 0 <= k < |draft| ensures draft[k] in chars.All() {
      assert draft[k] in chars.Pool(k);
    }
  }

  lemma StaysInAlphabet(draft: string, password: string, all: string)
    requires multiset(password) == multiset(draft) && forall c | c in draft :: c in all
    ensures forall i | 0 <= i < |password| :: password[i] in all
  {
    forall i | 0 <= i < |password| ensures password[i] in all {
      assert password[i] in multiset(draft);
    }
  }

  /** Every password has max(4, length) characters, all of the alphabet, and one of each kind. */
  lemma {:induction false} PasswordIsStrong(chars: Alphabets, length: int, draws: seq<nat>)
    requires chars.Usable() && InRange(chars, Size(length), draws)
    ensures var password := Generated(chars, length, draws);
            && |password| == Size(length)
            && (forall i | 0 <= i < |password| :: password[i] in chars.All())
            && (forall kind | 0 <= kind < 4 :: HasOneOf(password, chars.Pool(kind)))
  {
    var n, password := Size(length), Generated(chars, length, draws);
    var draft := Draft(Pools(chars, n), draws[..n]);
    ShufflePermutes(draft, Choices(n, draws));
    DraftIsOfAlphabet(chars, n, draws);
    StaysInAlphabet(draft, password, chars.All());
    forall kind | 0 <= kind < 4 ensures HasOneOf(password, chars.Pool(kind)) {
      Survives(draft, password, kind, chars.Pool(kind));
    }
  }

  predicate IsUpperCase(c: char) {
    'A' <= c <= 'Z'
  }

  predicate IsLowerCase(c: char) {
    'a' <= c <= 'z'
  }

  predicate IsNumeral(c: char) {
    '0' <= c <= '9'
  }

  /** Characters that are easily taken for another one. */
  predicate IsAmbiguous(c: char) {
    c == 'I' || c == 'O' || c == 'i' || c == 'l' || c == 'o' || c == '0' || c == '1'
  }

  /** All characters are between two others and none is ambiguous. */
  predicate Legible(chars: string, lo: char, hi: char) {
    forall i | 0 <= i < |chars| :: lo <= chars[i] <= hi && !IsAmbiguous(chars[i])
  }

  lemma LegibleParts(a: string, b: string, c: string, lo: char, hi: char)
    requires Legible(a, lo, hi) && Legible(b, lo, hi) && Legible(c, lo, hi)
    ensures Legible(a + b + c, lo, hi)
  {
  }

  lemma UpperParts()
    ensures ALPHABETS.upper == "ABCDEFGH" + "JKLMNPQR" + "STUVWXYZ"
    ensures Legible("ABCDEFGH", 'A', 'Z') && Legible("JKLMNPQR", 'A', 'Z') && Legible("STUVWXYZ", 'A', 'Z')
  {
  }

  lemma LowerParts()
    ensures ALPHABETS.lower == "abcdefgh" + "jkmnpqrs" + "tuvwxyz"
    ensures Legible("abcdefgh", 'a', 'z') && Legible("jkmnpqrs", 'a', 'z') && Legible("tuvwxyz", 'a', 'z')
  {
  }

  lemma {:induction false} LegibleLetters()
    ensures Legible(ALPHABETS.upper, 'A', 'Z') && Legible(ALPHABETS.lower, 'a', 'z')
  {
    UpperParts();
    LegibleParts("ABCDEFGH", "JKLMNPQR", "STUVWXYZ", 'A', 'Z');
    LowerParts();
    LegibleParts("abcdefgh", "jkmnpqrs", "tuvwxyz", 'a', 'z');
  }

  lemma LegibleDigits()
    ensures Legible(ALPHABETS.digits, '0', '9')
  {
  }

  /** Symbols are below the digits or between them and the letters. */
  lemma LegibleSymbols()
    ensures forall i | 0 <= i < |ALPHABETS.symbols| :: IsSymbol(ALPHABETS.symbols[i])
  {
  }

  predicate IsSymbol(c: char) {
    !IsUpperCase(c) && !IsLowerCase(c) && !IsNumeral(c)
  }

  lemma SomeBetween(password: string, chars: string, lo: char, hi: char)
    requires HasOneOf(password, chars) && Legible(chars, lo, hi)
    ensures exists i | 0 <= i < |password| :: lo <= password[i] <= hi
  {
    var i :| 0 <= i < |password| && password[i] in chars;
  }

  lemma SomeSymbol(password: string, chars: string)
    requires HasOneOf(password, chars) && forall i | 0 <= i < |chars| :: IsSymbol(chars[i])
    ensures exists i | 0 <= i < |password| :: IsSymbol(password[i])
  {
    var i :| 0 <= i < |password| && password[i] in chars;
    assert IsSymbol(password[i]);
  }

  /** What a temporary password is, in terms of its characters: at least four, at least as many
      as asked for and no more, with an upper-case and a lower-case letter, a digit and a symbol,
      and nothing that is easily misread. */
  lemma {:induction false} TemporaryPassword(length: int, draws: seq<nat>)
    requires InRange(ALPHABETS, Size(length), draws)
    ensures var password := Generated(ALPHABETS, length, draws);
            && |password| == (if length < 4 then 4 else length)
            && (exists i | 0 <= i < |password| :: IsUpperCase(password[i]))
            && (exists i | 0 <= i < |password| :: IsLowerCase(password[i]))
            && (exists i | 0 <= i < |password| :: IsNumeral(password[i]))
            && (exists i | 0 <= i < |password| :: IsSymbol(password[i]))
            && (forall i | 0 <= i < |password| :: !IsAmbiguous(password[i]))
  {
    var password := Generated(ALPHABETS, length, draws);
    PasswordIsStrong(ALPHABETS, length, draws);
    AreLegible(ALPHABETS, password);
  }

  /** The same of any password drawn from legible alphabets. */
  lemma {:induction false} AreLegible(chars: Alphabets, password: string)
    requires chars == ALPHABETS && forall kind | 0 <= kind < 4 :: HasOneOf(password, chars.Pool(kind))
    requires forall i | 0 <= i < |password| :: password[i] in chars.All()
    ensures exists i | 0 <= i < |password| :: IsUpperCase(password[i])
    ensures exists i | 0 <= i < |password| :: IsLowerCase(password[i])
    ensures exists i | 0 <= i < |password| :: IsNumeral(password[i])
    ensures exists i | 0 <= i < |password| :: IsSymbol(password[i])
    ensures forall i | 0 <= i < |password| :: !IsAmbiguous(password[i])
  {
    LegibleLetters();
    LegibleDigits();
    LegibleSymbols();
    FromPools(chars, password, chars.upper, chars.lower, chars.digits, chars.symbols);
  }

  lemma {:induction false} FromPools(
      chars: Alphabets, password: string, upper: string, lower: string, digits: string, symbols: string)
    requires chars == Alphabets(upper, lower, digits, symbols) && chars.Usable()
    requires forall kind | 0 <= kind < 4 :: HasOneOf(password, chars.Pool(kind))
    requires forall i | 0 <= i < |password| :: password[i] in chars.All()
    requires Legible(upper, 'A', 'Z') && Legible(lower, 'a', 'z') && Legible(digits, '0', '9')
    requires forall i | 0 <= i < |symbols| :: IsSymbol(symbols[i])
    ensures exists i | 0 <= i < |password| :: IsUpperCase(password[i])
    ensures exists i | 0 <= i < |password| :: IsLowerCase(password[i])
    ensures exists i | 0 <= i < |password| :: IsNumeral(password[i])
    ensures exists i | 0 <= i < |password| :: IsSymbol(password[i])
    ensures forall i | 0 <= i < |password| :: !IsAmbiguous(password[i])
  {
    OneOf(chars, password);
    SomeBetween(password, upper, 'A', 'Z');
    SomeBetween(password, lower, 'a', 'z');
    SomeBetween(password, digits, '0', '9');
    SomeSymbol(password, symbols);
    forall i | 0 <= i < |password| ensures !IsAmbiguous(password[i]) {
      InAlphabet(chars, password[i]);
    }
  }

  lemma OneOf(chars: Alphabets, password: string)
    requires chars.Usable() && forall kind | 0 <= kind < 4 :: HasOneOf(password, chars.Pool(kind))
    ensures HasOneOf(password, chars.upper) && HasOneOf(password, chars.lower)
    ensures HasOneOf(password, chars.digits) && HasOneOf(password, chars.symbols)
  {
    assert HasOneOf(password, chars.Pool(0)) && HasOneOf(password, chars.Pool(1));
    assert HasOneOf(password, chars.Pool(2)) && HasOneOf(password, chars.Pool(3));
  }

  lemma InAlphabet(chars: Alphabets, c: char)
    requires c in chars.All()
    ensures c in chars.upper || c in chars.lower || c in chars.digits || c in chars.symbols
  {
  }

  lemma RestDistinct<T>(s: seq<T>, j: nat)
    requires Distinct(s) && j < |s|
    ensures Distinct(Rest(s, j))
  {
  }

  lemma ShuffleUnfolds<T>(s: seq<T>, c: seq<nat>)
    requires s != [] && ValidChoices(|s|, c)
    ensures var i := |s| - 1;
            ValidChoices(i, c[..i]) && Shuffle(s, c)[i] == s[c[i]]
            && Shuffle(s, c)[..i] == Shuffle(Rest(s, c[i]), c[..i])
  {
  }

  lemma SamePlace<T>(s: seq<T>, i: nat, j: nat)
    requires Distinct(s) && i < |s| && j < |s| && s[i] == s[j]
    ensures i == j
  {
  }

  lemma SameUpToLast(c: seq<nat>, d: seq<nat>)
    requires |c| == |d| > 0 && c[..|c| - 1] == d[..|d| - 1] && c[|c| - 1] == d[|d| - 1]
    ensures c == d
  {
    assert c == c[..|c| - 1] + [c[|c| - 1]] && d == d[..|d| - 1] + [d[|d| - 1]];
  }

  /** Different draws give different shuffles of distinct items. */
  lemma {:induction false} ShuffleIsInjective<T>(s: seq<T>, c: seq<nat>, d: seq<nat>)
    requires Distinct(s) && ValidChoices(|s|, c) && ValidChoices(|s|, d)
    requires Shuffle(s, c) == Shuffle(s, d)
    ensures c == d
    decreases |s|
  {
    if s != [] {
      var i := |s| - 1;
      ShuffleUnfolds(s, c);
      ShuffleUnfolds(s, d);
      SamePlace(s, c[i], d[i]);
      RestDistinct(s, c[i]);
      ShuffleIsInjective(Rest(s, c[i]), c[..i], d[..i]);
      SameUpToLast(c, d);
    }
  }

  lemma SameWithout<T>(a: multiset<T>, b: multiset<T>, x: T)
    requires a + multiset{x} == b + multiset{x}
    ensures a == b
  {
    assert a == a + multiset{x} - multiset{x};
  }

  /** Where the last item of an arrangement is in the original, and what is left of both. */
  lemma LastItem<T>(s: seq<T>, t: seq<T>) returns (j: nat)
    requires multiset(t) == multiset(s) && s != []
    ensures |t| == |s| && j < |s| && s[j] == t[|t| - 1]
    ensures multiset(t[..|t| - 1]) == multiset(Rest(s, j))
  {
    assert |t| == |multiset(t)| && |s| == |multiset(s)|;
    var i := |t| - 1;
    assert t[i] in multiset(s);
    j :| j < |s| && s[j] == t[i];
    RestMultiset(s, j);
    assert t == t[..i] + [t[i]];
    SameWithout(multiset(t[..i]), multiset(Rest(s, j)), t[i]);
  }

  lemma ShuffleCons<T>(s: seq<T>, j: nat, rest: seq<nat>)
    requires j < |s| && ValidChoices(|s| - 1, rest)
    ensures ValidChoices(|s|, rest + [j]) && Shuffle(s, rest + [j]) == Shuffle(Rest(s, j), rest) + [s[j]]
  {
    assert (rest + [j])[..|s| - 1] == rest;
  }

  /** The draws that shuffle s into a given arrangement of it. */
  lemma {:induction false} ShuffleIsOnto<T>(s: seq<T>, t: seq<T>) returns (c: seq<nat>)
    requires multiset(t) == multiset(s)
    ensures ValidChoices(|s|, c) && Shuffle(s, c) == t
    decreases |s|
  {
    if s == [] {
      assert |t| == |multiset(t)|;
      c := [];
    } else {
      var j := LastItem(s, t);
      var rest := ShuffleIsOnto(Rest(s, j), t[..|t| - 1]);
      ShuffleCons(s, j, rest);
      c := rest + [j];
    }
  }

  /** Fisher-Yates is fair: every arrangement of distinct items comes from exactly one vector
      of draws, so equally likely draws make equally likely arrangements. */
  lemma {:induction false} ShuffleIsBijective<T(!new)>(s: seq<T>, t: seq<T>)
    requires Distinct(s)
    ensures multiset(t) == multiset(s) <==> exists c :: ValidChoices(|s|, c) && Shuffle(s, c) == t
    ensures forall c, d | ValidChoices(|s|, c) && ValidChoices(|s|, d) && Shuffle(s, c) == t && Shuffle(s, d) == t :: c == d
  {
    if multiset(t) == multiset(s) {
      var c := ShuffleIsOnto(s, t);
    }
    forall c | ValidChoices(|s|, c) ensures multiset(Shuffle(s, c)) == multiset(s) {
      ShufflePermutes(s, c);
    }
    forall c, d | ValidChoices(|s|, c) && ValidChoices(|s|, d) && Shuffle(s, c) == t && Shuffle(s, d) == t
      ensures c == d
    {
      ShuffleIsInjective(s, c, d);
    }
  }

  // Which passwords can come out.

  predicate Apart(a: string, b: string) {
    forall c | c in a :: c !in b
  }

  /** No character is of two kinds. */
  predicate KindsApart(chars: Alphabets) {
    && Apart(chars.upper, chars.lower) && Apart(chars.upper, chars.digits) && Apart(chars.upper, chars.symbols)
    && Apart(chars.lower, chars.digits) && Apart(chars.lower, chars.symbols) && Apart(chars.digits, chars.symbols)
  }

  function IndexOf(chars: string, c: char): (i: nat)
    requires c in chars
    ensures i < |chars| && chars[i] == c
  {
    if chars[0] == c then 0 else 1 + IndexOf(chars[1..], c)
  }

  /** Takes a character of a kind out; those of other kinds stay. */
  lemma TakeOut(s: string, kind: string) returns (c: char, rest: string)
    requires HasOneOf(s, kind)
    ensures c in kind && multiset(s) == multiset{c} + multiset(rest) && |rest| == |s| - 1
    ensures forall other | Apart(kind, other) && HasOneOf(s, other) :: HasOneOf(rest, other)
  {
    var i :| 0 <= i < |s| && s[i] in kind;
    c, rest := s[i], s[..i] + s[i + 1..];
    Split(s, i);
    assert multiset(rest) == multiset(s[..i]) + multiset(s[i + 1..]);
    forall other | Apart(kind, other) && HasOneOf(s, other) ensures HasOneOf(rest, other) {
      var j :| 0 <= j < |s| && s[j] in other;
      assert j != i;
      assert rest[if j < i then j else j - 1] == s[j];
    }
  }

  /** A strong text rearranged so that it starts with one character of each kind. */
  lemma {:induction false} KindsInFront(chars: Alphabets, s: string) returns (draft: string)
    requires chars.Usable() && KindsApart(chars)
    requires HasOneOf(s, chars.upper) && HasOneOf(s, chars.lower) && HasOneOf(s, chars.digits) && HasOneOf(s, chars.symbols)
    ensures multiset(draft) == multiset(s) && |draft| == |s| >= 4
    ensures draft[0] in chars.upper && draft[1] in chars.lower && draft[2] in chars.digits && draft[3] in chars.symbols
  {
    var u, s1 := TakeOut(s, chars.upper);
    var l, s2 := TakeOut(s1, chars.lower);
    var d, s3 := TakeOut(s2, chars.digits);
    var y, s4 := TakeOut(s3, chars.symbols);
    draft := [u, l, d, y] + s4;
    assert multiset([u, l, d, y]) == multiset{u} + multiset{l} + multiset{d} + multiset{y};
    assert multiset(draft) == multiset([u, l, d, y]) + multiset(s4);
  }

  /** The draws that pick the characters of a draft and then shuffle it with given partners. */
  function DrawsFor(chars: Alphabets, draft: string, choices: seq<nat>): (draws: seq<nat>)
    requires chars.Usable() && draft != [] && |choices| == |draft|
    requires forall k | 0 <= k < |draft| :: draft[k] in chars.Pool(k)
    ensures |draws| == 2 * |draft| - 1
    ensures forall k | 0 <= k < |draft| :: draws[k] == IndexOf(chars.Pool(k), draft[k])
    ensures forall k | |draft| <= k < 2 * |draft| - 1 :: draws[k] == choices[2 * |draft| - 1 - k]
  {
    var n := |draft|;
    seq(n, k requires 0 <= k < n => IndexOf(chars.Pool(k), draft[k]))
    + seq(n - 1, m requires 0 <= m < n - 1 => choices[n - 1 - m])
  }

  lemma DrawsInRange(chars: Alphabets, draft: string, choices: seq<nat>)
    requires chars.Usable() && draft != [] && ValidChoices(|draft|, choices)
    requires forall k | 0 <= k < |draft| :: draft[k] in chars.Pool(k)
    ensures InRange(chars, |draft|, DrawsFor(chars, draft, choices))
  {
    var n, draws := |draft|, DrawsFor(chars, draft, choices);
    forall k | n <= k < 2 * n - 1 ensures draws[k] <= 2 * n - 1 - k {
      assert choices[2 * n - 1 - k] <= 2 * n - 1 - k;
    }
  }

  lemma DraftOfDraws(chars: Alphabets, draft: string, choices: seq<nat>)
    requires chars.Usable() && draft != [] && ValidChoices(|draft|, choices)
    requires forall k | 0 <= k < |draft| :: draft[k] in chars.Pool(k)
    requires InRange(chars, |draft|, DrawsFor(chars, draft, choices))
    ensures Draft(Pools(chars, |draft|), DrawsFor(chars, draft, choices)[..|draft|]) == draft
  {
  }

  lemma ChoicesOfDraws(chars: Alphabets, draft: string, choices: seq<nat>)
    requires chars.Usable() && draft != [] && ValidChoices(|draft|, choices)
    requires forall k | 0 <= k < |draft| :: draft[k] in chars.Pool(k)
    requires InRange(chars, |draft|, DrawsFor(chars, draft, choices))
    ensures Choices(|draft|, DrawsFor(chars, draft, choices)) == choices
  {
    var n, draws := |draft|, DrawsFor(chars, draft, choices);
    forall i | 0 <= i < n ensures Choices(n, draws)[i] == choices[i] {
      if i > 0 {
        ChoiceOf(n, draws, i);
        assert draws[2 * n - 1 - i] == choices[i];
      } else {
        assert choices[0] <= 0;
      }
    }
  }

  lemma FromAlphabet(chars: Alphabets, draft: string, s: string)
    requires multiset(draft) == multiset(s) && forall i | 0 <= i < |s| :: s[i] in chars.All()
    ensures forall k | 0 <= k < |draft| :: draft[k] in chars.All()
  {
    forall k | 0 <= k < |draft| ensures draft[k] in chars.All() {
      assert draft[k] in multiset(s);
    }
  }

  /** Every strong password can come out: any text of the right length over the alphabet with a
      character of each kind is what some draws in range generate. */
  lemma {:induction false} EveryStrongText(chars: Alphabets, length: int, s: string) returns (draws: seq<nat>)
    requires chars.Usable() && KindsApart(chars) && |s| == Size(length)
    requires forall i | 0 <= i < |s| :: s[i] in chars.All()
    requires HasOneOf(s, chars.upper) && HasOneOf(s, chars.lower) && HasOneOf(s, chars.digits) && HasOneOf(s, chars.symbols)
    ensures InRange(chars, Size(length), draws) && Generated(chars, length, draws) == s
  {
    var draft := KindsInFront(chars, s);
    FromAlphabet(chars, draft, s);
    var choices := ShuffleIsOnto(draft, s);
    draws := DrawsFor(chars, draft, choices);
    DrawsInRange(chars, draft, choices);
    DraftOfDraws(chars, draft, choices);
    ChoicesOfDraws(chars, draft, choices);
  }

  lemma ApartByRange(a: string, b: string, lo: char, hi: char, lo': char, hi': char)
    requires Legible(a, lo, hi) && Legible(b, lo', hi') && (hi < lo' || hi' < lo)
    ensures Apart(a, b)
  {
    forall c | c in a ensures c !in b {
      var i :| 0 <= i < |a| && a[i] == c;
    }
  }

  lemma ApartFromSymbols(a: string, symbols: string)
    requires (forall i | 0 <= i < |symbols| :: IsSymbol(symbols[i])) && forall i | 0 <= i < |a| :: !IsSymbol(a[i])
    ensures Apart(a, symbols)
  {
    forall c | c in a ensures c !in symbols {
      var i :| 0 <= i < |a| && a[i] == c;
    }
  }

  lemma {:induction false} AlphabetsApart(chars: Alphabets)
    requires Legible(chars.upper, 'A', 'Z') && Legible(chars.lower, 'a', 'z') && Legible(chars.digits, '0', '9')
    requires forall i | 0 <= i < |chars.symbols| :: IsSymbol(chars.symbols[i])
    ensures KindsApart(chars)
  {
    ApartByRange(chars.upper, chars.lower, 'A', 'Z', 'a', 'z');
    ApartByRange(chars.upper, chars.digits, 'A', 'Z', '0', '9');
    ApartByRange(chars.lower, chars.digits, 'a', 'z', '0', '9');
    ApartFromSymbols(chars.upper, chars.symbols);
    ApartFromSymbols(chars.lower, chars.symbols);
    ApartFromSymbols(chars.digits, chars.symbols);
  }

  /** So the temporary passwords are exactly the texts of their length over the four alphabets that
      have an upper-case letter, a lower-case letter, a digit and a symbol. */
  lemma {:induction false} PasswordsAreStrongTexts(length: int, s: string)
    ensures (exists draws :: InRange(ALPHABETS, Size(length), draws) && Generated(ALPHABETS, length, draws) == s)
      <==> && |s| == Size(length)
           && (forall i | 0 <= i < |s| :: s[i] in ALPHABETS.upper + ALPHABETS.lower + ALPHABETS.digits + ALPHABETS.symbols)
           && HasOneOf(s, ALPHABETS.upper) && HasOneOf(s, ALPHABETS.lower)
           && HasOneOf(s, ALPHABETS.digits) && HasOneOf(s, ALPHABETS.symbols)
  {
    var chars := ALPHABETS;
    LegibleLetters();
    LegibleDigits();
    LegibleSymbols();
    AlphabetsApart(chars);
    StrongTexts(chars, length, s);
  }

  lemma {:induction false} StrongTexts(chars: Alphabets, length: int, s: string)
    requires chars.Usable() && KindsApart(chars)
    ensures (exists draws :: InRange(chars, Size(length), draws) && Generated(chars, length, draws) == s)
      <==> && |s| == Size(length)
           && (forall i | 0 <= i < |s| :: s[i] in chars.upper + chars.lower + chars.digits + chars.symbols)
           && HasOneOf(s, chars.upper) && HasOneOf(s, chars.lower)
           && HasOneOf(s, chars.digits) && HasOneOf(s, chars.symbols)
  {
    if draws :| InRange(chars, Size(length), draws) && Generated(chars, length, draws) == s {
      PasswordIsStrong(chars, length, draws);
      OneOf(chars, s);
    } else if |s| == Size(length)
      && (forall i | 0 <= i < |s| :: s[i] in chars.All())
      && HasOneOf(s, chars.upper) && HasOneOf(s, chars.lower) && HasOneOf(s, chars.digits) && HasOneOf(s, chars.symbols) {
      var found := EveryStrongText(chars, length, s);
    }
  }
}

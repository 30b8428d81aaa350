/** Rotating refresh tokens: families of opaque tokens of which only hashes are stored.
    Each service call is one atomic step; raw tokens and family ids are fresh when drawn. */
module RefreshTokens {
  import opened Options

  /** SHA-256, taken to be injective. */
  datatype Hash = Sha256(raw: nat)

  datatype Token = Token(user: nat, family: nat, expiresAt: nat, revokedAt: Option<nat>, replacedBy: Option<Hash>)

  /** The `refresh_tokens` table by its UNIQUE hash. */
  type Table = map<Hash, Token>

  datatype Call =
    | Issue(user: nat, family: nat, raw: nat, now: nat)
    | Rotate(presented: nat, raw: nat, now: nat)
    | Revoke(presented: nat, now: nat)
    | DeleteExpired(now: nat)

  datatype Reply = Issued(raw: nat) | Rotated(user: nat, token: nat) | Invalid | Expired | Done

  predicate Active(t: Token) {
    t.revokedAt.None?
  }

  function WithFamilyRevoked(rows: Table, family: nat, now: nat): Table {
    map h | h in rows ::
      if rows[h].family == family && Active(rows[h]) then rows[h].(revokedAt := Some(now)) else rows[h]
  }

  function WithoutExpired(rows: Table, now: nat): Table {
    map h | h in rows && rows[h].expiresAt >= now :: rows[h]
  }

  /** What one service call does to the table and what it answers. */
  function Served(rows: Table, call: Call, ttl: nat): (Table, Reply) {
    match call
    case Issue(user, family, raw, now) =>
      (rows[Sha256(raw) := Token(user, family, now + ttl, None, None)], Issued(raw))
    case Rotate(presented, raw, now) =>
      var h := Sha256(presented);
      if h !in rows then (rows, Invalid)
      else if !Active(rows[h]) then (WithFamilyRevoked(rows, rows[h].family, now), Invalid)
      else if rows[h].expiresAt <= now then (rows[h := rows[h].(revokedAt := Some(now))], Expired)
      else
        (rows[h := rows[h].(revokedAt := Some(now), replacedBy := Some(Sha256(raw)))]
             [Sha256(raw) := Token(rows[h].user, rows[h].family, now + ttl, None, None)],
         Rotated(rows[h].user, raw))
    case Revoke(presented, now) =>
      var h := Sha256(presented);
      (if h in rows && Active(rows[h]) then WithFamilyRevoked(rows, rows[h].family, now) else rows, Done)
    case DeleteExpired(now) => (WithoutExpired(rows, now), Done)
  }

  class RefreshTokenRepository {
    var rows: Table

    constructor ()
      ensures rows == map[]
    {
      rows := map[];
    }

    method Create(user: nat, hash: Hash, family: nat, expiresAt: nat)
      requires hash !in rows
      modifies this
      ensures rows == old(rows)[hash := Token(user, family, expiresAt, None, None)]
    {
      rows := rows[hash := Token(user, family, expiresAt, None, None)];
    }

    method FindByHash(hash: Hash) returns (found: Option<Token>)
      ensures found == if hash in rows then Some(rows[hash]) else None
    {
      if hash in rows {
        found := Some(rows[hash]);
      } else {
        found := None;
      }
    }

    method MarkRotated(hash: Hash, replacedBy: Hash, revokedAt: nat)
      requires hash in rows
      modifies this
      ensures rows == old(rows)[hash := old(rows)[hash].(replacedBy := Some(replacedBy), revokedAt := Some(revokedAt))]
    {
      rows := rows[hash := rows[hash].(replacedBy := Some(replacedBy), revokedAt := Some(revokedAt))];
    }

    method RevokeById(hash: Hash, revokedAt: nat)
      requires hash in rows
      modifies this
      ensures rows == old(rows)[hash := old(rows)[hash].(revokedAt := Some(revokedAt))]
    {
      rows := rows[hash := rows[hash].(revokedAt := Some(revokedAt))];
    }

    /** UPDATE ... WHERE family = :family AND revoked_at IS NULL, row by row. */
    method RevokeFamily(family: nat, revokedAt: nat)
      modifies this
      ensures rows == WithFamilyRevoked(old(rows), family, revokedAt)
    {
      var todo := rows.Keys;
      while todo != {}
        invariant todo <= old(rows).Keys == rows.Keys
        invariant forall h | h in todo :: rows[h] == old(rows)[h]
        invariant forall h | h in rows && h !in todo :: rows[h] == WithFamilyRevoked(old(rows), family, revokedAt)[h]
      {
        var h :| h in todo;
        todo := todo - {h};
        if rows[h].family == family && Active(rows[h]) {
          rows := rows[h := rows[h].(revokedAt := Some(revokedAt))];
        }
      }
    }

    method DeleteExpired(now: nat) returns (removed: nat)
      modifies this
      ensures rows == WithoutExpired(old(rows), now)
      ensures removed == |old(rows)| - |rows|
    {
      var kept := WithoutExpired(rows, now);
      assert kept.Keys <= rows.Keys;
      assert rows.Keys == kept.Keys + (rows.Keys - kept.Keys);
      removed := |rows.Keys - kept.Keys|;
      rows := kept;
    }
  }

  class RefreshTokenService {
    const refreshTokens: RefreshTokenRepository
    const ttlMs: nat

    constructor (refreshTokens: RefreshTokenRepository, ttlMs: nat)
      ensures this.refreshTokens == refreshTokens && this.ttlMs == ttlMs
    {
      this.refreshTokens := refreshTokens;
      this.ttlMs := ttlMs;
    }

    method Issue(user: nat, family: nat, raw: nat, now: nat) returns (token: nat)
      requires Sha256(raw) !in refreshTokens.rows
      modifies refreshTokens
      ensures (refreshTokens.rows, Issued(token)) == Served(old(refreshTokens.rows), Call.Issue(user, family, raw, now), ttlMs)
    {
      refreshTokens.Create(user, Sha256(raw), family, now + ttlMs);
      token := raw;
    }

    method Rotate(rawToken: nat, raw: nat, now: nat) returns (reply: Reply)
      requires Sha256(raw) !in refreshTokens.rows
      modifies refreshTokens
      ensures (refreshTokens.rows, reply) == Served(old(refreshTokens.rows), Call.Rotate(rawToken, raw, now), ttlMs)
    {
      var found := refreshTokens.FindByHash(Sha256(rawToken));
      if found.None? {
        return Invalid;
      }
      var existing := found.value;
      if !Active(existing) {
        refreshTokens.RevokeFamily(existing.family, now);
        return Invalid;
      }
      if existing.expiresAt <= now {
        refreshTokens.RevokeById(Sha256(rawToken), now);
        return Expired;
      }
      refreshTokens.MarkRotated(Sha256(rawToken), Sha256(raw), now);
      refreshTokens.Create(existing.user, Sha256(raw), existing.family, now + ttlMs);
      return Rotated(existing.user, raw);
    }

    method Revoke(rawToken: nat, now: nat)
      modifies refreshTokens
      ensures refreshTokens.rows == Served(old(refreshTokens.rows), Call.Revoke(rawToken, now), ttlMs).0
    {
      var existing := refreshTokens.FindByHash(Sha256(rawToken));
      if existing.Some? && Active(existing.value) {
        refreshTokens.RevokeFamily(existing.value.family, now);
      }
    }
  }

  /** A run remembers every raw token and family ever drawn, and the clock. */
  datatype World = World(rows: Table, drawn: set<nat>, families: set<nat>, clock: nat)

  /** The clock does not go back; raw tokens and families are fresh. */
  predicate Admissible(w: World, call: Call) {
    call.now >= w.clock
    && (call.Issue? ==> call.raw !in w.drawn && call.family !in w.families)
    && (call.Rotate? ==> call.raw !in w.drawn)
  }

  function Next(w: World, call: Call, ttl: nat): World {
    World(Served(w.rows, call, ttl).0,
          if call.Issue? || call.Rotate? then w.drawn + {call.raw} else w.drawn,
          if call.Issue? then w.families + {call.family} else w.families,
          call.now)
  }

  predicate Run(w: World, calls: seq<Call>, ttl: nat)
    decreases |calls|
  {
    calls == [] || (Admissible(w, calls[0]) && Run(Next(w, calls[0], ttl), calls[1..], ttl))
  }

  function After(w: World, calls: seq<Call>, ttl: nat): World
    decreases |calls|
  {
    if calls == [] then w else After(Next(w, calls[0], ttl), calls[1..], ttl)
  }

  /** A replacement is stored, in the same family, for the same user, and outlives its predecessor. */
  predicate GoodLink(rows: Table, h: Hash)
    requires h in rows
  {
    rows[h].replacedBy.Some? ==>
      var k := rows[h].replacedBy.value;
      !Active(rows[h]) && k in rows && rows[h].expiresAt <= rows[k].expiresAt
      && rows[h].family == rows[k].family && rows[h].user == rows[k].user
  }

  /** At most one unrevoked token a family. */
  predicate OneActive(rows: Table) {
    forall h, k | h in rows && k in rows && h != k && Active(rows[h]) && Active(rows[k]) ::
      rows[h].family != rows[k].family
  }

  /** No two tokens share a replacement: chains do not fork or join. */
  predicate NoForks(rows: Table) {
    forall h, k | h in rows && k in rows && h != k && rows[h].replacedBy.Some? ::
      rows[h].replacedBy != rows[k].replacedBy
  }

  predicate OneUser(rows: Table) {
    forall h, k | h in rows && k in rows && rows[h].family == rows[k].family :: rows[h].user == rows[k].user
  }

  /** Hashes and families are drawn ones, and nothing expires later than `ttl` from now. */
  predicate Bounded(w: World, ttl: nat) {
    && (forall h | h in w.rows :: h.raw in w.drawn && w.rows[h].family in w.families)
    && (forall h | h in w.rows :: w.rows[h].expiresAt <= w.clock + ttl)
  }

  predicate Good(w: World, ttl: nat) {
    && Bounded(w, ttl)
    && (forall h | h in w.rows :: GoodLink(w.rows, h))
    && OneActive(w.rows) && NoForks(w.rows) && OneUser(w.rows)
  }

  const EMPTY: World := World(map[], {}, {}, 0)

  /** `rows'` has rows of `rows` only, some of them perhaps newly revoked. */
  predicate Shrinks(rows: Table, rows': Table) {
    forall h | h in rows' :: h in rows && (Active(rows'[h]) ==> Active(rows[h]))
      && rows'[h] == rows[h].(revokedAt := rows'[h].revokedAt)
  }

  lemma ShrinkingKeepsFamilies(rows: Table, rows': Table)
    requires Shrinks(rows, rows') && OneActive(rows) && NoForks(rows) && OneUser(rows)
    ensures OneActive(rows') && NoForks(rows') && OneUser(rows')
  {
    assert OneActive(rows');
    assert NoForks(rows');
    assert OneUser(rows');
  }

  lemma RevokingKeepsGood(w: World, call: Call, ttl: nat)
    requires Good(w, ttl) && Admissible(w, call) && Shrinks(w.rows, Next(w, call, ttl).rows)
    ensures Good(Next(w, call, ttl), ttl)
  {
    var rows' := Next(w, call, ttl).rows;
    ShrinkingKeepsFamilies(w.rows, rows');
    forall g | g in rows' ensures GoodLink(rows', g) {
      assert GoodLink(w.rows, g);
    }
  }

  /** A token of a family that no row has. */
  lemma FirstOfFamily(rows: Table, k: Hash, minted: Token)
    requires OneActive(rows) && NoForks(rows) && OneUser(rows)
    requires k !in rows && minted.replacedBy.None? && forall g | g in rows :: rows[g].family != minted.family
    ensures OneActive(rows[k := minted]) && NoForks(rows[k := minted]) && OneUser(rows[k := minted])
  {
    var rows' := rows[k := minted];
    assert OneActive(rows');
    assert NoForks(rows');
    assert OneUser(rows');
  }

  lemma {:induction false} IssueKeepsGood(w: World, call: Call, ttl: nat)
    requires Good(w, ttl) && Admissible(w, call) && call.Issue?
    ensures Good(Next(w, call, ttl), ttl)
  {
    var rows' := Next(w, call, ttl).rows;
    forall g | g in rows' ensures GoodLink(rows', g) {
      assert g in w.rows ==> GoodLink(w.rows, g);
    }
    FirstOfFamily(w.rows, Sha256(call.raw), Token(call.user, call.family, call.now + ttl, None, None));
  }

  /** A rotation is one spent row and one new row. */
  lemma RotationKeepsFamilies(rows: Table, h: Hash, k: Hash, spent: Token, minted: Token)
    requires OneActive(rows) && NoForks(rows) && OneUser(rows)
    requires h in rows && k !in rows && Active(rows[h])
    requires spent.user == minted.user == rows[h].user && spent.family == minted.family == rows[h].family
    requires !Active(spent) && spent.replacedBy == Some(k) && minted.replacedBy.None?
    requires forall g | g in rows :: rows[g].replacedBy != Some(k)
    ensures OneActive(rows[h := spent][k := minted])
    ensures NoForks(rows[h := spent][k := minted])
    ensures OneUser(rows[h := spent][k := minted])
  {
    var rows' := rows[h := spent][k := minted];
    assert OneActive(rows');
    assert NoForks(rows');
    assert OneUser(rows');
  }

  /** The row of the presented token after a rotation. */
  function Spent(t: Token, k: Hash, now: nat): Token {
    t.(revokedAt := Some(now), replacedBy := Some(k))
  }

  lemma RotationTable(rows: Table, call: Call, ttl: nat)
    requires call.Rotate? && Served(rows, call, ttl).1.Rotated?
    ensures var h, k := Sha256(call.presented), Sha256(call.raw);
            && h in rows && Active(rows[h]) && rows[h].expiresAt > call.now
            && Served(rows, call, ttl).0
               == rows[h := Spent(rows[h], k, call.now)][k := Token(rows[h].user, rows[h].family, call.now + ttl, None, None)]
  {
  }

  /** After the rotation of h into k every link is good. */
  lemma RotationLinks(rows: Table, h: Hash, k: Hash, spent: Token, minted: Token, g: Hash)
    requires h in rows && k !in rows && spent.replacedBy == Some(k) && !Active(spent) && minted.replacedBy.None?
    requires spent.user == minted.user == rows[h].user && spent.family == minted.family == rows[h].family
    requires spent.expiresAt == rows[h].expiresAt <= minted.expiresAt
    requires g in rows[h := spent][k := minted] && (g in rows ==> GoodLink(rows, g))
    ensures GoodLink(rows[h := spent][k := minted], g)
  {
  }

  lemma NobodyPointsTo(w: World, k: Hash, ttl: nat)
    requires Good(w, ttl) && k.raw !in w.drawn
    ensures k !in w.rows && forall g | g in w.rows :: GoodLink(w.rows, g) && w.rows[g].replacedBy != Some(k)
  {
    forall g | g in w.rows ensures GoodLink(w.rows, g) && w.rows[g].replacedBy != Some(k) {
      assert GoodLink(w.rows, g);
    }
  }

  lemma RotationKeepsBounded(w: World, call: Call, ttl: nat)
    requires Bounded(w, ttl) && Admissible(w, call) && call.Rotate? && Served(w.rows, call, ttl).1.Rotated?
    ensures Bounded(Next(w, call, ttl), ttl)
  {
    RotationTable(w.rows, call, ttl);
  }

  lemma {:induction false} RotationKeepsGood(w: World, call: Call, ttl: nat)
    requires Good(w, ttl) && Admissible(w, call)
    requires call.Rotate? && Served(w.rows, call, ttl).1.Rotated?
    ensures Good(Next(w, call, ttl), ttl)
  {
    var h, k := Sha256(call.presented), Sha256(call.raw);
    RotationTable(w.rows, call, ttl);
    RotationKeepsBounded(w, call, ttl);
    NobodyPointsTo(w, k, ttl);
    var spent := Spent(w.rows[h], k, call.now);
    var minted := Token(w.rows[h].user, w.rows[h].family, call.now + ttl, None, None);
    var rows' := w.rows[h := spent][k := minted];
    RotationKeepsFamilies(w.rows, h, k, spent, minted);
    forall g | g in rows' ensures GoodLink(rows', g) {
      RotationLinks(w.rows, h, k, spent, minted, g);
    }
  }

  lemma {:induction false} StepKeepsGood(w: World, call: Call, ttl: nat)
    requires Good(w, ttl) && Admissible(w, call)
    ensures Good(Next(w, call, ttl), ttl)
  {
    if call.Issue? {
      IssueKeepsGood(w, call, ttl);
    } else if call.Rotate? && Served(w.rows, call, ttl).1.Rotated? {
      RotationKeepsGood(w, call, ttl);
    } else {
      RevokingKeepsGood(w, call, ttl);
    }
  }

  /** A step leaves a revoked row as it is or deletes it, and never brings a drawn token back. */
  lemma StepKeepsRevoked(w: World, call: Call, h: Hash, ttl: nat)
    requires Admissible(w, call) && h.raw in w.drawn && (h in w.rows ==> !Active(w.rows[h]))
    ensures var rows' := Next(w, call, ttl).rows; h in rows' ==> h in w.rows && rows'[h] == w.rows[h]
  {
  }

  /** Token-family safety over every run: at most one unrevoked token a family, one user a
      family, every stored replacement present and later to expire, no two predecessors. */
  lemma {:induction false} RunsKeepGood(w: World, calls: seq<Call>, ttl: nat)
    requires Good(w, ttl) && Run(w, calls, ttl)
    ensures Good(After(w, calls, ttl), ttl)
    decreases |calls|
  {
    if calls != [] {
      StepKeepsGood(w, calls[0], ttl);
      RunsKeepGood(Next(w, calls[0], ttl), calls[1..], ttl);
    }
  }

  /** The n-th successor of a token along `replacedBy`. */
  function Successor(rows: Table, h: Hash, n: nat): Option<Hash>
    decreases n
  {
    if h !in rows then None
    else if n == 0 then Some(h)
    else if rows[h].replacedBy.None? then None
    else Successor(rows, rows[h].replacedBy.value, n - 1)
  }

  /** Along a chain of any length expiry never decreases, and family and user stay. */
  lemma {:induction false} ChainsExpireInOrder(w: World, h: Hash, n: nat, ttl: nat)
    requires Good(w, ttl) && Successor(w.rows, h, n).Some?
    ensures var k := Successor(w.rows, h, n).value;
            k in w.rows && w.rows[h].expiresAt <= w.rows[k].expiresAt
            && w.rows[h].family == w.rows[k].family && w.rows[h].user == w.rows[k].user
    decreases n
  {
    if n > 0 {
      assert GoodLink(w.rows, h);
      ChainsExpireInOrder(w, w.rows[h].replacedBy.value, n - 1, ttl);
    }
  }

  /** Housekeeping takes whole prefixes of chains: when a token goes, all before it go, and
      what stays of a chain still leads where it led. */
  lemma HousekeepingTakesPrefixes(w: World, h: Hash, n: nat, now: nat, ttl: nat)
    requires Good(w, ttl) && now >= w.clock && Successor(w.rows, h, n).Some?
    ensures var rows' := Next(w, DeleteExpired(now), ttl).rows;
            var k := Successor(w.rows, h, n).value;
            (k !in rows' ==> h !in rows') && (h in rows' ==> Successor(rows', h, n) == Some(k))
  {
    ChainsExpireInOrder(w, h, n, ttl);
    if w.rows[h].expiresAt >= now {
      ChainSurvives(w, h, n, now, ttl);
    }
  }

  lemma {:induction false} ChainSurvives(w: World, h: Hash, n: nat, now: nat, ttl: nat)
    requires Good(w, ttl) && Successor(w.rows, h, n).Some? && w.rows[h].expiresAt >= now
    ensures Successor(WithoutExpired(w.rows, now), h, n) == Successor(w.rows, h, n)
    decreases n
  {
    if n > 0 {
      assert GoodLink(w.rows, h);
      ChainSurvives(w, w.rows[h].replacedBy.value, n - 1, now, ttl);
    }
  }

  /** Revocation is written once: a revoked row is never changed again, only deleted, and a
      deleted row never comes back. */
  lemma {:induction false} RevocationIsFinal(w: World, calls: seq<Call>, h: Hash, ttl: nat)
    requires Run(w, calls, ttl) && h.raw in w.drawn
    requires h in w.rows ==> !Active(w.rows[h])
    ensures var end := After(w, calls, ttl).rows;
            h in end ==> h in w.rows && end[h] == w.rows[h]
    decreases |calls|
  {
    if calls != [] {
      StepKeepsRevoked(w, calls[0], h, ttl);
      RevocationIsFinal(Next(w, calls[0], ttl), calls[1..], h, ttl);
    }
  }

  /** A raw token succeeds in `rotate` at most once, whatever is called in between. */
  lemma RotatesAtMostOnce(w: World, raw: nat, now: nat, presented: nat, calls: seq<Call>, again: Call, ttl: nat)
    requires Good(w, ttl) && Run(w, [Rotate(presented, raw, now)] + calls + [again], ttl)
    requires Served(w.rows, Rotate(presented, raw, now), ttl).1.Rotated?
    requires again.Rotate? && again.presented == presented
    ensures Served(After(w, [Rotate(presented, raw, now)] + calls, ttl).rows, again, ttl).1 == Invalid
  {
    var first := Rotate(presented, raw, now);
    var w1 := Next(w, first, ttl);
    assert ([first] + calls + [again])[1..] == calls + [again];
    assert ([first] + calls)[1..] == calls;
    RunPrefix(w1, calls, [again], ttl);
    StepKeepsGood(w, first, ttl);
    RevocationIsFinal(w1, calls, Sha256(presented), ttl);
  }

  lemma {:induction false} RunPrefix(w: World, calls: seq<Call>, more: seq<Call>, ttl: nat)
    requires Run(w, calls + more, ttl)
    ensures Run(w, calls, ttl)
    decreases |calls|
  {
    if calls != [] {
      assert (calls + more)[1..] == calls[1..] + more;
      RunPrefix(Next(w, calls[0], ttl), calls[1..], more, ttl);
    }
  }

  /** No token of the family is active. */
  predicate Dead(rows: Table, family: nat) {
    forall h | h in rows && rows[h].family == family :: !Active(rows[h])
  }

  lemma DeadStaysDead(w: World, call: Call, family: nat, ttl: nat)
    requires Admissible(w, call) && family in w.families && Dead(w.rows, family)
    ensures Dead(Next(w, call, ttl).rows, family) && family in Next(w, call, ttl).families
  {
  }

  /** A dead family stays dead over every run: no token of it is ever active again. */
  lemma {:induction false} DeadFamiliesStayDead(w: World, calls: seq<Call>, family: nat, ttl: nat)
    requires Run(w, calls, ttl) && family in w.families && Dead(w.rows, family)
    ensures Dead(After(w, calls, ttl).rows, family)
    decreases |calls|
  {
    if calls != [] {
      DeadStaysDead(w, calls[0], family, ttl);
      DeadFamiliesStayDead(Next(w, calls[0], ttl), calls[1..], family, ttl);
    }
  }

  /** Replay and logout: presenting a stored spent token to `rotate`, or a stored active one
      to `revoke`, kills the family for good. */
  lemma CompromisedFamilyDies(w: World, call: Call, calls: seq<Call>, ttl: nat)
    requires Good(w, ttl) && Run(w, [call] + calls, ttl)
    requires (call.Rotate? || call.Revoke?) && Sha256(call.presented) in w.rows
    requires call.Rotate? ==> !Active(w.rows[Sha256(call.presented)])
    requires call.Revoke? ==> Active(w.rows[Sha256(call.presented)])
    ensures Dead(After(w, [call] + calls, ttl).rows, w.rows[Sha256(call.presented)].family)
  {
    assert ([call] + calls)[1..] == calls;
    DeadFamiliesStayDead(Next(w, call, ttl), calls, w.rows[Sha256(call.presented)].family, ttl);
  }

  /** No token of the family is active, now or at the end of any run. */
  ghost predicate DeadForGood(w: World, family: nat, ttl: nat) {
    forall calls | Run(w, calls, ttl) :: Dead(After(w, calls, ttl).rows, family)
  }

  lemma DeadIsForGood(w: World, family: nat, ttl: nat)
    requires family in w.families
    ensures DeadForGood(w, family, ttl) <==> Dead(w.rows, family)
  {
    assert Run(w, [], ttl) && After(w, [], ttl) == w;
    if Dead(w.rows, family) {
      forall calls | Run(w, calls, ttl) ensures Dead(After(w, calls, ttl).rows, family) {
        DeadFamiliesStayDead(w, calls, family, ttl);
      }
    }
  }

  /** The limits of both: `revoke` of a spent token, and `rotate` of a spent token whose row is
      already cleaned up, touch nothing. Logout ends the family for good exactly when the
      presented token is active, or the family was dead anyway; a replay exactly when the row
      of the spent token is still stored, or the family was dead anyway. */
  lemma LogoutAndReplayLimits(w: World, presented: nat, raw: nat, family: nat, now: nat, ttl: nat)
    requires Good(w, ttl) && Admissible(w, Rotate(presented, raw, now)) && family in w.families
    requires Sha256(presented) in w.rows ==> w.rows[Sha256(presented)].family == family
    ensures var h := Sha256(presented);
            && (DeadForGood(Next(w, Revoke(presented, now), ttl), family, ttl)
                <==> Dead(w.rows, family) || (h in w.rows && Active(w.rows[h])))
            && ((h in w.rows ==> !Active(w.rows[h])) ==>
                (DeadForGood(Next(w, Rotate(presented, raw, now), ttl), family, ttl)
                 <==> Dead(w.rows, family) || h in w.rows))
  {
    DeadIsForGood(Next(w, Revoke(presented, now), ttl), family, ttl);
    DeadIsForGood(Next(w, Rotate(presented, raw, now), ttl), family, ttl);
  }

  /** The same from the start: after any run of issues, rotations, logouts and clean-ups. */
  lemma TokenFamilySafety(calls: seq<Call>, ttl: nat)
    requires Run(EMPTY, calls, ttl)
    ensures var rows := After(EMPTY, calls, ttl).rows;
            OneActive(rows) && OneUser(rows) && NoForks(rows) && forall h | h in rows :: GoodLink(rows, h)
  {
    RunsKeepGood(EMPTY, calls, ttl);
  }

  lemma RunCons(w: World, call: Call, rest: seq<Call>, ttl: nat)
    requires Admissible(w, call) && Run(Next(w, call, ttl), rest, ttl)
    ensures Run(w, [call] + rest, ttl) && After(w, [call] + rest, ttl) == After(Next(w, call, ttl), rest, ttl)
  {
    assert ([call] + rest)[0] == call && ([call] + rest)[1..] == rest;
  }

  lemma RunOne(w: World, call: Call, ttl: nat)
    requires Admissible(w, call)
    ensures Run(w, [call], ttl) && After(w, [call], ttl) == Next(w, call, ttl)
  {
    var rest: seq<Call> := [];
    RunCons(w, call, rest, ttl);
    assert [call] + rest == [call];
  }

  /** A logout with the token that was current before the last rotation logs nobody out. */
  lemma {:induction false} LogoutWithOldToken(user: nat, family: nat, ttl: nat)
    requires ttl > 0
    ensures var calls := [Issue(user, family, 0, 0)] + ([Rotate(0, 1, 0)] + [Revoke(0, 0)]);
            Run(EMPTY, calls, ttl) && !Dead(After(EMPTY, calls, ttl).rows, family)
  {
    var w1 := Next(EMPTY, Issue(user, family, 0, 0), ttl);
    var w2 := Next(w1, Rotate(0, 1, 0), ttl);
    assert !Active(w2.rows[Sha256(0)]) && Active(w2.rows[Sha256(1)]);
    RunOne(w2, Revoke(0, 0), ttl);
    RunCons(w1, Rotate(0, 1, 0), [Revoke(0, 0)], ttl);
    RunCons(EMPTY, Issue(user, family, 0, 0), [Rotate(0, 1, 0)] + [Revoke(0, 0)], ttl);
  }

  /** A replay goes unnoticed once the row of the spent token is cleaned up, while the chain lives. */
  lemma {:induction false} ReplayAfterCleanup(user: nat, family: nat, ttl: nat)
    requires ttl > 1
    ensures var late := [DeleteExpired(ttl + 1)] + [Rotate(0, 2, ttl + 1)];
            var calls := [Issue(user, family, 0, 0)] + ([Rotate(0, 1, 1)] + late);
            Run(EMPTY, calls, ttl) && !Dead(After(EMPTY, calls, ttl).rows, family)
  {
    var late := [DeleteExpired(ttl + 1)] + [Rotate(0, 2, ttl + 1)];
    var w1 := Next(EMPTY, Issue(user, family, 0, 0), ttl);
    var w2 := Next(w1, Rotate(0, 1, 1), ttl);
    assert w2.rows[Sha256(1)] == Token(user, family, 1 + ttl, None, None);
    var w3 := Next(w2, DeleteExpired(ttl + 1), ttl);
    assert Sha256(0) !in w3.rows && w3.rows[Sha256(1)] == w2.rows[Sha256(1)];
    RunOne(w3, Rotate(0, 2, ttl + 1), ttl);
    RunCons(w2, DeleteExpired(ttl + 1), [Rotate(0, 2, ttl + 1)], ttl);
    RunCons(w1, Rotate(0, 1, 1), late, ttl);
    RunCons(EMPTY, Issue(user, family, 0, 0), [Rotate(0, 1, 1)] + late, ttl);
  }
}

/** Refresh tokens against the calls of the run that made them: whose a token is, how long it
    lasts, and whom a rotation logs in. */
module TokenHistory {
  import opened Options
  import opened RefreshTokens

  /** The call opens a family for a user. */
  predicate Opens(call: Call, family: nat, user: nat) {
    call.Issue? && call.family == family && call.user == user
  }

  /** The call draws a raw token that lasts until `expiresAt`. */
  predicate Draws(call: Call, raw: nat, expiresAt: nat, ttl: nat) {
    (call.Issue? || call.Rotate?) && call.raw == raw && call.now + ttl == expiresAt
  }

  /** One of the calls opened the family, and it did so for this user. */
  predicate OpenedFor(calls: seq<Call>, family: nat, user: nat) {
    && (exists i | 0 <= i < |calls| :: Opens(calls[i], family, user))
    && (forall i | 0 <= i < |calls| && calls[i].Issue? && calls[i].family == family :: calls[i].user == user)
  }

  /** One of the calls drew the token, and with this expiry. */
  predicate DrawnUntil(calls: seq<Call>, raw: nat, expiresAt: nat, ttl: nat) {
    && (exists i | 0 <= i < |calls| :: Draws(calls[i], raw, expiresAt, ttl))
    && (forall i | 0 <= i < |calls| && (calls[i].Issue? || calls[i].Rotate?) && calls[i].raw == raw ::
          calls[i].now + ttl == expiresAt)
  }

  /** Every drawn family and raw token is remembered. */
  predicate Remembered(w: World, done: seq<Call>) {
    && (forall i | 0 <= i < |done| && done[i].Issue? :: done[i].family in w.families)
    && (forall i | 0 <= i < |done| && (done[i].Issue? || done[i].Rotate?) :: done[i].raw in w.drawn)
  }

  /** Every stored token has the user of the call that opened its family and the expiry of the
      call that drew it. */
  predicate Recorded(rows: Table, done: seq<Call>, ttl: nat) {
    forall h | h in rows ::
      OpenedFor(done, rows[h].family, rows[h].user) && DrawnUntil(done, h.raw, rows[h].expiresAt, ttl)
  }

  predicate Known(w: World) {
    forall h | h in w.rows :: h.raw in w.drawn && w.rows[h].family in w.families
  }

  lemma RememberedNext(w: World, done: seq<Call>, call: Call, ttl: nat)
    requires Remembered(w, done)
    ensures Remembered(Next(w, call, ttl), done + [call])
  {
  }

  /** Later calls do not change who opened a family that is known by then. */
  lemma OpenedForExtends(w: World, done: seq<Call>, call: Call, family: nat, user: nat)
    requires OpenedFor(done, family, user) && family in w.families && Admissible(w, call)
    ensures OpenedFor(done + [call], family, user)
  {
    var all := done + [call];
    var i :| 0 <= i < |done| && Opens(done[i], family, user);
    assert Opens(all[i], family, user);
  }

  lemma DrawnUntilExtends(w: World, done: seq<Call>, call: Call, raw: nat, expiresAt: nat, ttl: nat)
    requires DrawnUntil(done, raw, expiresAt, ttl) && raw in w.drawn && Admissible(w, call)
    ensures DrawnUntil(done + [call], raw, expiresAt, ttl)
  {
    var all := done + [call];
    var i :| 0 <= i < |done| && Draws(done[i], raw, expiresAt, ttl);
    assert Draws(all[i], raw, expiresAt, ttl);
  }

  lemma NewlyOpened(w: World, done: seq<Call>, call: Call)
    requires Remembered(w, done) && Admissible(w, call) && call.Issue?
    ensures OpenedFor(done + [call], call.family, call.user)
  {
    var all := done + [call];
    assert Opens(all[|done|], call.family, call.user);
  }

  lemma NewlyDrawn(w: World, done: seq<Call>, call: Call, ttl: nat)
    requires Remembered(w, done) && Admissible(w, call) && (call.Issue? || call.Rotate?)
    ensures DrawnUntil(done + [call], call.raw, call.now + ttl, ttl)
  {
    var all := done + [call];
    assert Draws(all[|done|], call.raw, call.now + ttl, ttl);
  }

  /** A row after a call is an old one, perhaps newly revoked or replaced, or the one it draws. */
  lemma RowAfter(w: World, call: Call, h: Hash, ttl: nat)
    requires h in Next(w, call, ttl).rows
    ensures var t := Next(w, call, ttl).rows[h];
            || (h in w.rows && t.user == w.rows[h].user && t.family == w.rows[h].family && t.expiresAt == w.rows[h].expiresAt)
            || (call.Issue? && h == Sha256(call.raw) && t == Token(call.user, call.family, call.now + ttl, None, None))
            || (call.Rotate? && h == Sha256(call.raw) && Sha256(call.presented) in w.rows
                && t == Token(w.rows[Sha256(call.presented)].user, w.rows[Sha256(call.presented)].family,
                              call.now + ttl, None, None))
  {
  }

  lemma {:induction false} RecordedNext(w: World, done: seq<Call>, call: Call, ttl: nat)
    requires Known(w) && Remembered(w, done) && Recorded(w.rows, done, ttl) && Admissible(w, call)
    ensures Recorded(Next(w, call, ttl).rows, done + [call], ttl)
  {
    var rows' := Next(w, call, ttl).rows;
    forall h | h in rows'
      ensures OpenedFor(done + [call], rows'[h].family, rows'[h].user)
      ensures DrawnUntil(done + [call], h.raw, rows'[h].expiresAt, ttl)
    {
      RecordedRow(w, done, call, h, ttl);
    }
  }

  lemma {:induction false} RecordedRow(w: World, done: seq<Call>, call: Call, h: Hash, ttl: nat)
    requires Known(w) && Remembered(w, done) && Recorded(w.rows, done, ttl) && Admissible(w, call)
    requires h in Next(w, call, ttl).rows
    ensures var t := Next(w, call, ttl).rows[h];
            OpenedFor(done + [call], t.family, t.user) && DrawnUntil(done + [call], h.raw, t.expiresAt, ttl)
  {
    RowAfter(w, call, h, ttl);
    var t := Next(w, call, ttl).rows[h];
    if h in w.rows && t.user == w.rows[h].user && t.family == w.rows[h].family && t.expiresAt == w.rows[h].expiresAt {
      OpenedForExtends(w, done, call, t.family, t.user);
      DrawnUntilExtends(w, done, call, h.raw, t.expiresAt, ttl);
    } else {
      NewlyDrawn(w, done, call, ttl);
      if call.Issue? {
        NewlyOpened(w, done, call);
      } else {
        OpenedForExtends(w, done, call, t.family, t.user);
      }
    }
  }

  lemma {:induction false} RunsAreRecorded(w: World, done: seq<Call>, calls: seq<Call>, ttl: nat)
    requires Good(w, ttl) && Remembered(w, done) && Recorded(w.rows, done, ttl) && Run(w, calls, ttl)
    ensures Recorded(After(w, calls, ttl).rows, done + calls, ttl)
    decreases |calls|
  {
    if calls == [] {
      assert done + calls == done;
    } else {
      var call, w1 := calls[0], Next(w, calls[0], ttl);
      StepKeepsGood(w, call, ttl);
      RememberedNext(w, done, call, ttl);
      RecordedNext(w, done, call, ttl);
      RunsAreRecorded(w1, done + [call], calls[1..], ttl);
      assert (done + [call]) + calls[1..] == done + calls;
    }
  }

  /** Whose a token is: after every run, each stored token has the user of the one `issue` call
      that opened its family, and expires exactly a lifetime after the call that drew it. */
  lemma {:induction false} TokensBelongToOpeners(calls: seq<Call>, ttl: nat)
    requires Run(EMPTY, calls, ttl)
    ensures Recorded(After(EMPTY, calls, ttl).rows, calls, ttl)
  {
    RunsAreRecorded(EMPTY, [], calls, ttl);
    assert [] + calls == calls;
  }

  /** Whom a rotation logs in. At the end of every run, `rotate` succeeds exactly for a stored
      unrevoked token less than a lifetime old; it then answers with the new raw token and the
      user for whom the run opened the family, and that token is stored active in the family. */
  lemma {:induction false} RotationAnswersOwner(calls: seq<Call>, call: Call, ttl: nat)
    requires Run(EMPTY, calls, ttl) && Admissible(After(EMPTY, calls, ttl), call) && call.Rotate?
    ensures var rows, h := After(EMPTY, calls, ttl).rows, Sha256(call.presented);
            var (rows', reply) := Served(rows, call, ttl);
            && (reply.Rotated? <==>
                  h in rows && Active(rows[h]) && exists until :: DrawnUntil(calls, call.presented, until, ttl) && call.now < until)
            && (reply.Rotated? ==>
                  && reply.token == call.raw && OpenedFor(calls, rows[h].family, reply.user)
                  && Sha256(call.raw) in rows' && Active(rows'[Sha256(call.raw)])
                  && rows'[Sha256(call.raw)].family == rows[h].family && rows'[Sha256(call.raw)].user == reply.user)
            && (!reply.Rotated? ==> reply == if h in rows && Active(rows[h]) then Expired else Invalid)
  {
    TokensBelongToOpeners(calls, ttl);
    var rows, h := After(EMPTY, calls, ttl).rows, Sha256(call.presented);
    if h in rows {
      assert DrawnUntil(calls, call.presented, rows[h].expiresAt, ttl);
      forall until | DrawnUntil(calls, call.presented, until, ttl) ensures until == rows[h].expiresAt {
        var i :| 0 <= i < |calls| && Draws(calls[i], call.presented, until, ttl);
      }
    }
  }

  /** `issue` answers with a token that is stored active for the user, in the new family. */
  lemma IssueAnswersStored(rows: Table, call: Call, ttl: nat)
    requires call.Issue?
    ensures var (rows', reply) := Served(rows, call, ttl);
            && reply.Issued? && Sha256(reply.raw) in rows' && Active(rows'[Sha256(reply.raw)])
            && reply.raw == call.raw && Opens(call, rows'[Sha256(reply.raw)].family, rows'[Sha256(reply.raw)].user)
  {
  }

  /** A token that is revoked by a call is stamped with the time of the call. */
  lemma RevocationIsStamped(w: World, call: Call, h: Hash, ttl: nat)
    requires Admissible(w, call) && h in w.rows && Active(w.rows[h])
    requires h in Next(w, call, ttl).rows && !Active(Next(w, call, ttl).rows[h]) && h.raw in w.drawn
    ensures Next(w, call, ttl).rows[h].revokedAt == Some(call.now)
  {
  }

  /** Clean-up takes no token that could still rotate, and every one past its expiry. */
  lemma CleanUpSparesUsable(w: World, h: Hash, now: nat, ttl: nat)
    requires h in w.rows
    ensures w.rows[h].expiresAt > now ==>
      h in Next(w, DeleteExpired(now), ttl).rows && Next(w, DeleteExpired(now), ttl).rows[h] == w.rows[h]
    ensures w.rows[h].expiresAt < now ==> h !in Next(w, DeleteExpired(now), ttl).rows
  {
  }
}

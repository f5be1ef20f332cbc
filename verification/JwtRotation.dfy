/** Single-use rotation of refresh tokens: the revocation list of consumed token ids. */
module JwtRotation {
  import opened Wrappers

  /** What a verified token carries; an id that is missing or not text reads as empty, `exp` is in seconds. */
  datatype Token = Token(jti: string, exp: Option<int>)

  /**
   A call of _jwt_refresh_and_rotate: whether the signature holds, the clock as
   jwt.verify reads it and as the bridge reads it afterwards (milliseconds), the
   new lifetime in seconds, and whether signing works.
  */
  datatype Call = Call(token: Token, signatureOk: bool, verifyAt: nat, now: nat, ttl: int, signs: bool, newId: string)

  datatype Outcome = Refused | Rotated(token: Token)

  type Revocations = map<string, int>

  const MAX_TTL_SECONDS := 30 * 24 * 3600
  const MAX_TTL_MS := MAX_TTL_SECONDS * 1000

  /** jsonwebtoken rejects a token from the second its `exp` names. */
  predicate Verifies(c: Call) {
    c.signatureOk && (c.token.exp.Some? ==> c.verifyAt / 1000 < c.token.exp.value)
  }

  function Sweep(m: Revocations, now: nat): Revocations {
    map jti | jti in m && m[jti] > now :: m[jti]
  }

  /** When the revocation entry written at `now` lapses. */
  function Lapse(exp: Option<int>, now: nat): int {
    var oldExp := if exp.Some? then exp.value else 0;
    var remaining := if oldExp - now / 1000 > 0 then oldExp - now / 1000 else 0;
    now + if remaining * 1000 < MAX_TTL_MS then remaining * 1000 else MAX_TTL_MS
  }

  function Rotate(m: Revocations, c: Call): (Revocations, Outcome) {
    if c.ttl <= 0 || !Verifies(c) || c.token.jti == "" then (m, Refused)
    else
      var m1 := Sweep(m, c.now);
      if c.token.jti in m1 && m1[c.token.jti] > c.now then (m1, Refused)
      else if c.signs then
        (m1[c.token.jti := Lapse(c.token.exp, c.now)], Rotated(Token(c.newId, Some(c.now / 1000 + c.ttl))))
      else
        (m1[c.token.jti := Lapse(c.token.exp, c.now)] - {c.token.jti}, Refused)
  }

  // ---------------------------------------------------------------------
  // One call
  // ---------------------------------------------------------------------

  /** A call rotates exactly when its token verifies, has an id no unlapsed entry names, and signing works. */
  lemma RotatesIff(m: Revocations, c: Call)
    ensures Rotate(m, c).1.Rotated? <==>
              && c.ttl > 0 && Verifies(c) && c.token.jti != "" && c.signs
              && (c.token.jti in m ==> m[c.token.jti] <= c.now)
  {
  }

  /** A call that does not rotate leaves every unlapsed entry of other tokens, and consumes nothing. */
  lemma RefusalConsumesNothing(m: Revocations, c: Call, jti: string)
    requires Rotate(m, c).1.Refused? && jti in Rotate(m, c).0
    ensures jti in m && Rotate(m, c).0[jti] == m[jti]
  {
  }

  /** The token a rotation returns can be rotated in turn exactly until its lifetime has passed. */
  lemma NewTokenRotatesUntilExpiry(m: Revocations, c: Call, next: Call)
    requires Rotate(m, c).1.Rotated? && next.token == Rotate(m, c).1.token && c.newId != "" && c.newId != c.token.jti
    requires c.newId !in m && next.signatureOk && next.signs && next.ttl > 0
    ensures Rotate(Rotate(m, c).0, next).1.Rotated? <==> next.verifyAt / 1000 < c.now / 1000 + c.ttl
  {
    RotatesIff(Rotate(m, c).0, next);
  }

  /** The entry outlasts the token exactly when the expiry is at most 30 days away. */
  lemma EntryOutlastsToken(exp: int, now: nat)
    requires now / 1000 < exp
    ensures Lapse(Some(exp), now) >= exp * 1000 <==> exp - now / 1000 <= MAX_TTL_SECONDS
  {
  }

  // ---------------------------------------------------------------------
  // Runs
  // ---------------------------------------------------------------------

  /** The clock does not go back, within a call or between calls. */
  predicate Monotone(calls: seq<Call>) {
    && (forall i :: 0 <= i < |calls| ==> calls[i].verifyAt <= calls[i].now)
    && (forall i, k :: 0 <= i < k < |calls| ==> calls[i].now <= calls[k].verifyAt)
  }

  /** The token passes verification in its last moments, and the clock is read again past its expiry. */
  predicate Straddles(c: Call) {
    c.token.exp.Some? && c.verifyAt < c.token.exp.value * 1000 <= c.now
  }

  function Before(m: Revocations, calls: seq<Call>, i: nat): Revocations
    requires i <= |calls|
  {
    if i == 0 then m else Rotate(Before(m, calls, i - 1), calls[i - 1]).0
  }

  function OutcomeOf(m: Revocations, calls: seq<Call>, i: nat): Outcome
    requires i < |calls|
  {
    Rotate(Before(m, calls, i), calls[i]).1
  }

  /** The token is past its expiry, or its id is revoked until then. */
  predicate Spent(m: Revocations, jti: string, exp: int, clock: nat) {
    clock >= exp * 1000 || (jti in m && m[jti] >= exp * 1000)
  }

  lemma RotationSpends(m: Revocations, c: Call)
    requires Rotate(m, c).1.Rotated? && c.verifyAt <= c.now
    requires c.token.exp.Some? && c.token.exp.value - c.now / 1000 <= MAX_TTL_SECONDS
    ensures Spent(Rotate(m, c).0, c.token.jti, c.token.exp.value, c.now)
  {
    if c.now / 1000 < c.token.exp.value {
      EntryOutlastsToken(c.token.exp.value, c.now);
    }
  }

  /** No call undoes that, whichever token it is for; the token itself is refused unless the call straddles its expiry. */
  lemma SpentStays(m: Revocations, c: Call, jti: string, exp: int, clock: nat)
    requires Spent(m, jti, exp, clock) && clock <= c.verifyAt <= c.now
    requires c.token.jti == jti ==> c.token.exp == Some(exp)
    ensures Spent(Rotate(m, c).0, jti, exp, c.now)
    ensures c.token.jti == jti && !Straddles(c) ==> Rotate(m, c).1.Refused?
  {
  }

  /** Each id belongs to one token. */
  ghost predicate OneTokenEach(calls: seq<Call>) {
    forall i, k :: 0 <= i < |calls| && 0 <= k < |calls| && calls[i].token.jti == calls[k].token.jti ==>
      calls[i].token == calls[k].token
  }

  predicate WithinMonth(c: Call) {
    c.token.exp.Some? && c.token.exp.value - c.now / 1000 <= MAX_TTL_SECONDS
  }

  /**
   Single use over whole runs: once a token whose expiry is at most 30 days away
   has been rotated, every later call with it is refused, except one that straddles its expiry.
  */
  lemma {:induction false} RotatedAtMostOnce(m: Revocations, calls: seq<Call>, i: nat, k: nat)
    requires i < k < |calls| && Monotone(calls) && OneTokenEach(calls)
    requires OutcomeOf(m, calls, i).Rotated? && WithinMonth(calls[i])
    ensures Spent(Before(m, calls, k + 1), calls[i].token.jti, calls[i].token.exp.value, calls[k].now)
    ensures calls[k].token == calls[i].token && !Straddles(calls[k]) ==> OutcomeOf(m, calls, k).Refused?
    decreases k
  {
    hide Rotate, Spent, Verifies, Straddles;
    if k == i + 1 {
      RotationSpends(Before(m, calls, i), calls[i]);
    } else {
      RotatedAtMostOnce(m, calls, i, k - 1);
    }
    SpentStays(Before(m, calls, k), calls[k], calls[i].token.jti, calls[i].token.exp.value, calls[k - 1].now);
  }

  /** A straddling call is the last that can rotate the token, so no token within 30 days is rotated three times. */
  lemma RotatedAtMostTwice(m: Revocations, calls: seq<Call>, i: nat, k: nat, l: nat)
    requires i < k < l < |calls| && Monotone(calls) && OneTokenEach(calls)
    requires calls[i].token == calls[k].token == calls[l].token && WithinMonth(calls[i])
    requires OutcomeOf(m, calls, i).Rotated? && OutcomeOf(m, calls, k).Rotated?
    ensures OutcomeOf(m, calls, l).Refused?
  {
    RotatedAtMostOnce(m, calls, i, k);
    assert !Verifies(calls[l]);
  }

  // ---------------------------------------------------------------------
  // When rotation is single-use
  // ---------------------------------------------------------------------

  /** A later call with the same token. */
  predicate Replay(first: Call, c: Call) {
    c.token == first.token && first.now <= c.verifyAt <= c.now
  }

  /** Which replays of a rotated token rotate it again: those that verify when the entry has lapsed at the second reading. */
  lemma ReplayExactly(m: Revocations, first: Call, c: Call)
    requires Rotate(m, first).1.Rotated? && Replay(first, c)
    ensures Rotate(Rotate(m, first).0, c).1.Rotated? <==>
              c.ttl > 0 && Verifies(c) && c.signs && Lapse(c.token.exp, first.now) <= c.now
  {
    RotatesIff(Rotate(m, first).0, c);
  }

  /** When the two clock readings of every call are at most `skew` milliseconds apart, every replay is refused. */
  ghost predicate SingleUse(m: Revocations, first: Call, skew: nat) {
    forall c :: Replay(first, c) && c.now - c.verifyAt <= skew ==> Rotate(Rotate(m, first).0, c).1.Refused?
  }

  /**
   For every bound on the distance of the two readings: a rotated token is
   single-use exactly when it has an expiry that has passed already, or that the
   entry outlasts by at least the bound.
  */
  lemma SingleUseIff(m: Revocations, first: Call, skew: nat)
    requires Rotate(m, first).1.Rotated?
    ensures var exp := first.token.exp;
            SingleUse(m, first, skew) <==>
              exp.Some? && (exp.value * 1000 <= first.now || Lapse(exp, first.now) >= exp.value * 1000 + skew)
  {
    hide Rotate, Verifies, Lapse;
    var t, exp, lapse := Rotate(m, first).0, first.token.exp, Lapse(first.token.exp, first.now);
    LapseAfter(exp, first.now);
    if exp.Some? && (exp.value * 1000 <= first.now || lapse >= exp.value * 1000 + skew) {
      forall c | Replay(first, c) && c.now - c.verifyAt <= skew ensures Rotate(t, c).1.Refused? {
        ReplayExactly(m, first, c);
        VerifiesBefore(c);
      }
    } else {
      var at := if exp.None? then lapse else exp.value * 1000 - 1;
      var again := Call(first.token, true, at, if lapse < at then at else lapse, 1, true, "");
      ReplayExactly(m, first, again);
      VerifiesBefore(again);
      assert Replay(first, again) && again.now - again.verifyAt <= skew;
    }
  }

  lemma VerifiesBefore(c: Call)
    ensures Verifies(c) <==> c.signatureOk && (c.token.exp.Some? ==> c.verifyAt < c.token.exp.value * 1000)
  {
  }

  lemma LapseAfter(exp: Option<int>, now: nat)
    ensures Lapse(exp, now) >= now && (exp.None? ==> Lapse(exp, now) == now)
  {
  }

  /** Read at one instant, the clock makes a token single-use exactly when its expiry is at most 30 days away. */
  lemma SingleUseWithinMonth(m: Revocations, first: Call)
    requires Rotate(m, first).1.Rotated?
    ensures SingleUse(m, first, 0) <==> WithinMonth(first)
  {
    SingleUseIff(m, first, 0);
    if first.token.exp.Some? && first.now / 1000 < first.token.exp.value {
      EntryOutlastsToken(first.token.exp.value, first.now);
    }
    hide Rotate, SingleUse, Verifies;
  }

  /**
   A straddling replay rotates a token a second time exactly when the entry has
   lapsed; the entry of a token within 30 days lapses as many milliseconds after
   the expiry as the first rotation came after a full second.
  */
  lemma StraddlingReplay(m: Revocations, first: Call, c: Call)
    requires Rotate(m, first).1.Rotated? && Replay(first, c) && Straddles(c) && WithinMonth(first)
    requires c.signatureOk && c.signs && c.ttl > 0
    ensures Rotate(Rotate(m, first).0, c).1.Rotated? <==> c.now >= c.token.exp.value * 1000 + first.now % 1000
  {
    ReplayExactly(m, first, c);
  }

  /** Both outcomes occur for every token within 30 days: it can be rotated twice, and a straddling replay can be refused. */
  lemma StraddlingReplays(token: Token) returns (onTheSecond: Call, later: Call, again: Call)
    requires token.jti != "" && token.exp.Some? && 0 < token.exp.value <= MAX_TTL_SECONDS
    ensures Rotate(map[], onTheSecond).1.Rotated? && Replay(onTheSecond, again) && Straddles(again)
    ensures Rotate(Rotate(map[], onTheSecond).0, again).1.Rotated?
    ensures Rotate(map[], later).1.Rotated? && Replay(later, again) && Rotate(Rotate(map[], later).0, again).1.Refused?
  {
    var end := token.exp.value * 1000;
    onTheSecond := Call(token, true, 0, 0, 1, true, "a");
    later := Call(token, true, 1, 1, 1, true, "a");
    again := Call(token, true, end - 1, end, 1, true, "b");
  }

  // ---------------------------------------------------------------------
  // The bridge
  // ---------------------------------------------------------------------

  class CryptoBridge {
    var consumedJtis: Revocations

    constructor ()
      ensures consumedJtis == map[]
    {
      consumedJtis := map[];
    }

    method SweepConsumedJtis(now: nat)
      modifies this
      ensures consumedJtis == Sweep(old(consumedJtis), now)
    {
      var todo := consumedJtis.Keys;
      while todo != {}
        invariant forall jti :: jti in consumedJtis <==>
                    jti in old(consumedJtis) && (jti in todo || old(consumedJtis)[jti] > now)
        invariant forall jti :: jti in consumedJtis ==> consumedJtis[jti] == old(consumedJtis)[jti]
      {
        var jti :| jti in todo;
        if jti in consumedJtis && consumedJtis[jti] <= now {
          consumedJtis := consumedJtis - {jti};
        }
        todo := todo - {jti};
      }
    }

    method RefreshAndRotate(c: Call) returns (r: Outcome)
      modifies this
      ensures (consumedJtis, r) == Rotate(old(consumedJtis), c)
    {
      hide Sweep;
      if c.ttl <= 0 || !Verifies(c) || c.token.jti == "" {
        return Refused;
      }
      SweepConsumedJtis(c.now);
      var jti := c.token.jti;
      if jti in consumedJtis && consumedJtis[jti] > c.now {
        return Refused;
      }
      var nowSec := c.now / 1000;
      var oldExp := if c.token.exp.Some? then c.token.exp.value else 0;
      var remainingSec := if oldExp - nowSec > 0 then oldExp - nowSec else 0;
      var revokeTtlMs := if remainingSec * 1000 < MAX_TTL_MS then remainingSec * 1000 else MAX_TTL_MS;
      consumedJtis := consumedJtis[jti := c.now + revokeTtlMs];
      if !c.signs {
        consumedJtis := consumedJtis - {jti};
        return Refused;
      }
      return Rotated(Token(c.newId, Some(nowSec + c.ttl)));
    }
  }
}

/** Revoked access tokens: pruning the map never changes an answer. */
module TokenRevocation {
  type Revoked = map<string, int>

  function Prune(m: Revoked, now: int): Revoked {
    map jti | jti in m && m[jti] >= now :: m[jti]
  }

  /** `revokedExp && revokedExp >= now`, where an expiry of zero counts as absent. */
  predicate Listed(m: Revoked, jti: string, now: int) {
    jti in m && m[jti] != 0 && m[jti] >= now
  }

  function Revoke(m: Revoked, jti: string, exp: int, now: int): Revoked {
    var pruned := Prune(m, now);
    if exp <= now then pruned else pruned[jti := exp]
  }

  /** The reference: the same without ever dropping an entry. */
  function RevokeKeepingAll(m: Revoked, jti: string, exp: int, now: int): Revoked {
    if exp <= now then m else m[jti := exp]
  }

  datatype Call = RevokeCall(jti: string, exp: int, now: int) | QueryCall(jti: string, now: int)

  function StepPruned(m: Revoked, c: Call): Revoked {
    match c
    case RevokeCall(jti, exp, now) => Revoke(m, jti, exp, now)
    case QueryCall(_, now) => Prune(m, now)
  }

  function StepKept(m: Revoked, c: Call): Revoked {
    match c
    case RevokeCall(jti, exp, now) => RevokeKeepingAll(m, jti, exp, now)
    case QueryCall(_, _) => m
  }

  /** The answers of the queries of a run, with and without pruning. */
  function AnswersPruned(m: Revoked, calls: seq<Call>): seq<bool>
    decreases |calls|
  {
    if calls == [] then []
    else (if calls[0].QueryCall? then [Listed(Prune(m, calls[0].now), calls[0].jti, calls[0].now)] else [])
         + AnswersPruned(StepPruned(m, calls[0]), calls[1..])
  }

  function AnswersKept(m: Revoked, calls: seq<Call>): seq<bool>
    decreases |calls|
  {
    if calls == [] then []
    else (if calls[0].QueryCall? then [Listed(m, calls[0].jti, calls[0].now)] else [])
         + AnswersKept(StepKept(m, calls[0]), calls[1..])
  }

  predicate ClockForward(calls: seq<Call>, from: int)
    decreases |calls|
  {
    calls == [] || (from <= calls[0].now && ClockForward(calls[1..], calls[0].now))
  }

  /** The pruned map is the kept one without entries that had expired when the clock last moved. */
  ghost predicate Refines(pruned: Revoked, kept: Revoked, now: int) {
    && (forall jti :: jti in pruned ==> jti in kept && pruned[jti] == kept[jti])
    && (forall jti :: jti in kept && kept[jti] >= now ==> jti in pruned)
  }

  lemma {:induction false} PrunedAnswersAlike(pruned: Revoked, kept: Revoked, calls: seq<Call>, now: int)
    requires Refines(pruned, kept, now) && ClockForward(calls, now)
    ensures AnswersPruned(pruned, calls) == AnswersKept(kept, calls)
    decreases |calls|
  {
    if calls == [] {
    } else {
      PrunedAnswersAlike(StepPruned(pruned, calls[0]), StepKept(kept, calls[0]), calls[1..], calls[0].now);
    }
  }

  /** Under a clock that never runs backwards, every query is answered as by a map that is never pruned. */
  lemma PruningIsInvisible(calls: seq<Call>, now: int)
    requires ClockForward(calls, now)
    ensures AnswersPruned(map[], calls) == AnswersKept(map[], calls)
  {
    PrunedAnswersAlike(map[], map[], calls, now);
  }

  /** And after each call nothing expired is retained. */
  lemma NothingExpiredRetained(m: Revoked, c: Call)
    ensures forall jti :: jti in StepPruned(m, c) ==> StepPruned(m, c)[jti] >= c.now
  {
  }

  // ---- What is refused ----

  /** The last expiry under which a token was revoked by a call that took it, if any. */
  function LastRevoked(calls: seq<Call>, jti: string): int {
    if calls == [] then 0
    else
      var last := calls[|calls| - 1];
      if last.RevokeCall? && last.jti == jti && last.exp > last.now then last.exp
      else LastRevoked(calls[..|calls| - 1], jti)
  }

  function Kept(calls: seq<Call>): Revoked {
    if calls == [] then map[] else StepKept(Kept(calls[..|calls| - 1]), calls[|calls| - 1])
  }

  function Pruned(calls: seq<Call>): Revoked {
    if calls == [] then map[] else StepPruned(Pruned(calls[..|calls| - 1]), calls[|calls| - 1])
  }

  /** The clock never runs backwards over the calls, and is past the epoch. */
  predicate Ordered(calls: seq<Call>) {
    calls == []
    || (0 <= calls[|calls| - 1].now && Ordered(calls[..|calls| - 1])
        && (|calls| > 1 ==> calls[|calls| - 2].now <= calls[|calls| - 1].now))
  }

  lemma {:induction false} KeptIsLastRevoked(calls: seq<Call>, jti: string)
    requires Ordered(calls)
    ensures jti in Kept(calls) <==> LastRevoked(calls, jti) != 0
    ensures jti in Kept(calls) ==> Kept(calls)[jti] == LastRevoked(calls, jti) > 0
  {
    if calls == [] {
    } else {
      KeptIsLastRevoked(calls[..|calls| - 1], jti);
    }
  }

  lemma {:induction false} PrunedRefinesKept(calls: seq<Call>, now: int)
    requires Ordered(calls) && (calls != [] ==> calls[|calls| - 1].now <= now)
    ensures Refines(Pruned(calls), Kept(calls), now)
  {
    if calls == [] {
    } else {
      PrunedRefinesKept(calls[..|calls| - 1], calls[|calls| - 1].now);
    }
  }

  /** After any calls, a token is refused exactly while the expiry it was last revoked under has not passed. */
  lemma {:induction false} RevokedUntilExpiry(calls: seq<Call>, jti: string, now: int)
    requires Ordered(calls) && now >= 0 && (calls != [] ==> calls[|calls| - 1].now <= now)
    ensures Listed(Prune(Pruned(calls), now), jti, now)
            <==> LastRevoked(calls, jti) != 0 && now <= LastRevoked(calls, jti)
  {
    KeptIsLastRevoked(calls, jti);
    PrunedRefinesKept(calls, now);
  }
}

/** Visitor passes: verification by code and by pass, and what every run of them keeps. */
module Visitors {
  import opened Wrappers

  datatype PassStatus = PENDING | VERIFIED | EXPIRED | REVOKED

  /** A bcrypt hash of a code, as an injective function. */
  datatype CodeHash = Bcrypt(code: string)

  datatype Pass = Pass(codeHash: CodeHash, expiresAt: int, status: PassStatus, usedAt: Option<int>,
                       verifiedById: Option<string>)

  datatype LogAction = VerifiedEntry | DeniedEntry

  datatype LogRow = LogRow(pass: nat, guardUserId: string, action: LogAction)

  /** Passes in the order they were created, so a later position is a newer pass; the verification log. */
  datatype State = State(passes: seq<Pass>, log: seq<LogRow>)

  datatype Answer = Answer(verified: bool, pass: Option<nat>)

  datatype LinkStatus = LinkActive | LinkExpired | LinkRevoked

  /** An invite link of a tenant account. */
  datatype InviteLink = InviteLink(accountId: string, status: LinkStatus, expiresAt: int)

  const CODE_TTL_MS := 24 * 60 * 60 * 1000
  const CANDIDATES := 200

  // ---- Scanning by code ----

  predicate IsCandidate(p: Pass) {
    p.status == PENDING || p.status == VERIFIED
  }

  /** The newest pending or verified passes among the first n, newest first, at most `limit` of them. */
  function Candidates(passes: seq<Pass>, n: nat, limit: nat): (found: seq<nat>)
    requires n <= |passes|
    ensures |found| <= limit
    ensures forall i :: 0 <= i < |found| ==> found[i] < n && IsCandidate(passes[found[i]])
    ensures forall i, j :: 0 <= i < j < |found| ==> found[i] > found[j]
    ensures forall k :: 0 <= k < n && IsCandidate(passes[k]) && k !in found ==>
              |found| == limit && forall i :: 0 <= i < |found| ==> k < found[i]
  {
    if n == 0 || limit == 0 then []
    else if IsCandidate(passes[n - 1]) then [n - 1] + Candidates(passes, n - 1, limit - 1)
    else Candidates(passes, n - 1, limit)
  }

  predicate Lapsed(p: Pass, now: int) {
    p.status == PENDING && now > p.expiresAt
  }

  predicate Matches(p: Pass, code: string, now: int) {
    !Lapsed(p, now) && p.codeHash == Bcrypt(code)
  }

  ghost predicate InTable(passes: seq<Pass>, candidates: seq<nat>) {
    forall i :: 0 <= i < |candidates| ==> candidates[i] < |passes|
  }

  ghost predicate Descending(candidates: seq<nat>) {
    forall i, j :: 0 <= i < j < |candidates| ==> candidates[i] > candidates[j]
  }

  /** The position among the candidates, from i on, of the first that matches; past the end if none does. */
  function FirstMatch(passes: seq<Pass>, candidates: seq<nat>, code: string, now: int, i: nat): (n: nat)
    requires InTable(passes, candidates) && i <= |candidates|
    ensures i <= n <= |candidates|
    ensures n < |candidates| ==> Matches(passes[candidates[n]], code, now)
    ensures forall j :: i <= j < n ==> !Matches(passes[candidates[j]], code, now)
    decreases |candidates| - i
  {
    if i == |candidates| || Matches(passes[candidates[i]], code, now) then i
    else FirstMatch(passes, candidates, code, now, i + 1)
  }

  function Accept(p: Pass, guardUserId: string, at: int): Pass {
    p.(status := VERIFIED, usedAt := Some(at), verifiedById := Some(guardUserId))
  }

  function Expire(p: Pass): Pass {
    p.(status := EXPIRED)
  }

  /** What a pass becomes once its turn in a scan has come. */
  function Pruned(p: Pass, now: int): Pass {
    if Lapsed(p, now) then Expire(p) else p
  }

  /** The table after the first n candidates were walked past. */
  function AfterScan(passes: seq<Pass>, candidates: seq<nat>, n: nat, now: int): (after: seq<Pass>)
    requires InTable(passes, candidates) && n <= |candidates|
    ensures |after| == |passes|
  {
    if n == 0 then passes
    else AfterScan(passes, candidates, n - 1, now)[candidates[n - 1] := Pruned(passes[candidates[n - 1]], now)]
  }

  class VisitorService {
    var links: map<string, InviteLink>
    var passes: seq<Pass>
    var log: seq<LogRow>

    constructor (links: map<string, InviteLink>)
      ensures this.links == links && passes == [] && log == []
    {
      this.links, passes, log := links, [], [];
    }

    ghost function Current(): State
      reads this
    {
      State(passes, log)
    }

    /** The clock is read for the link and again for the expiry of the code. */
    method CreatePass(accountId: string, linkId: string, code: string, now: int, later: int) returns (r: Result<nat>)
      modifies this`links, this`passes
      ensures linkId !in old(links) ==> r == Err(NotFound)
      ensures linkId in old(links) && old(links)[linkId].accountId != accountId ==> r == Err(Forbidden)
      ensures r.Ok? <==> linkId in old(links) && old(links)[linkId].accountId == accountId
                         && old(links)[linkId].status.LinkActive? && now <= old(links)[linkId].expiresAt
      ensures r.Err? ==> r == Err(NotFound) || r == Err(Forbidden) || r == Err(BadRequest)
      ensures r == Err(BadRequest) ==> linkId in old(links) && old(links)[linkId].accountId == accountId
      ensures r.Ok? ==> r.value == |old(passes)|
                        && passes == old(passes)
                                     + [Pass(Bcrypt(code), later + 24 * 60 * 60 * 1000, PENDING, None, None)]
      ensures r.Err? ==> passes == old(passes)
      ensures links == if r == Err(BadRequest) && old(links)[linkId].status.LinkActive?
                       then old(links)[linkId := old(links)[linkId].(status := LinkExpired)] else old(links)
    {
      if linkId !in links {
        return Err(NotFound);
      }
      var link := links[linkId];
      if link.accountId != accountId {
        return Err(Forbidden);
      }
      if !link.status.LinkActive? {
        return Err(BadRequest);
      }
      if now > link.expiresAt {
        links := links[linkId := link.(status := LinkExpired)];
        return Err(BadRequest);
      }
      passes := passes + [Pass(Bcrypt(code), later + CODE_TTL_MS, PENDING, None, None)];
      r := Ok(|passes| - 1);
    }

    method LogAttempt(pass: nat, guardUserId: string, action: LogAction)
      modifies this`log
      ensures log == old(log) + [LogRow(pass, guardUserId, action)]
    {
      log := log + [LogRow(pass, guardUserId, action)];
    }

    /** The clock is read once before the scan and once more when a pass is used. */
    method VerifyByCode(guardUserId: string, code: string, now: int, later: int) returns (answer: Answer)
      modifies this`passes, this`log
      ensures (Current(), answer) == ByCode(old(Current()), guardUserId, code, now, later)
    {
      var candidates := Candidates(passes, |passes|, CANDIDATES);
      var i := 0;
      while i < |candidates|
        invariant 0 <= i <= |candidates| && log == old(log)
        invariant passes == AfterScan(old(passes), candidates, i, now)
        invariant FirstMatch(old(passes), candidates, code, now, 0) == FirstMatch(old(passes), candidates, code, now, i)
      {
        var id := candidates[i];
        var candidate := passes[id];
        NotYetScanned(old(passes), candidates, i, now);
        if candidate.status == PENDING && now > candidate.expiresAt {
          passes := passes[id := candidate.(status := EXPIRED)];
        } else if candidate.codeHash == Bcrypt(code) {
          if candidate.status == VERIFIED {
            LogAttempt(id, guardUserId, VerifiedEntry);
            return Answer(true, Some(id));
          }
          candidate := candidate.(status := VERIFIED);
          candidate := candidate.(usedAt := Some(later));
          candidate := candidate.(verifiedById := Some(guardUserId));
          passes := passes[id := candidate];
          LogAttempt(id, guardUserId, VerifiedEntry);
          return Answer(true, Some(id));
        } else {
          assert passes == passes[id := Pruned(old(passes)[id], now)];
        }
        i := i + 1;
      }
      answer := Answer(false, None);
    }

    method VerifyPass(guardUserId: string, id: nat, code: string, now: int, later: int) returns (r: Result<Answer>)
      modifies this`passes, this`log
      ensures (Current(), r) == ByPass(old(Current()), guardUserId, id, code, now, later)
    {
      if id >= |passes| {
        return Err(NotFound);
      }
      var pass := passes[id];
      if pass.status == REVOKED {
        return Err(BadRequest);
      }
      if pass.status == EXPIRED {
        LogAttempt(id, guardUserId, DeniedEntry);
        return Ok(Answer(false, Some(id)));
      }
      if now > pass.expiresAt {
        passes := passes[id := pass.(status := EXPIRED)];
        LogAttempt(id, guardUserId, DeniedEntry);
        return Ok(Answer(false, Some(id)));
      }
      if pass.status == VERIFIED {
        LogAttempt(id, guardUserId, VerifiedEntry);
        return Ok(Answer(true, Some(id)));
      }
      if pass.codeHash != Bcrypt(code) {
        LogAttempt(id, guardUserId, DeniedEntry);
        return Ok(Answer(false, Some(id)));
      }
      pass := pass.(status := VERIFIED);
      pass := pass.(usedAt := Some(later));
      pass := pass.(verifiedById := Some(guardUserId));
      passes := passes[id := pass];
      LogAttempt(id, guardUserId, VerifiedEntry);
      r := Ok(Answer(true, Some(id)));
    }
  }

  // ---- The two verifications as functions ----

  function ByCode(s: State, guardUserId: string, code: string, now: int, later: int): (State, Answer) {
    var candidates := Candidates(s.passes, |s.passes|, CANDIDATES);
    var n := FirstMatch(s.passes, candidates, code, now, 0);
    var passes := AfterScan(s.passes, candidates, n, now);
    if n == |candidates| then (s.(passes := passes), Answer(false, None))
    else
      var id := candidates[n];
      (State(if s.passes[id].status == VERIFIED then passes else passes[id := Accept(s.passes[id], guardUserId, later)],
             s.log + [LogRow(id, guardUserId, VerifiedEntry)]),
       Answer(true, Some(id)))
  }

  function ByPass(s: State, guardUserId: string, id: nat, code: string, now: int, later: int): (State, Result<Answer>) {
    if id >= |s.passes| then (s, Err(NotFound))
    else
      var p := s.passes[id];
      var denied := s.(log := s.log + [LogRow(id, guardUserId, DeniedEntry)]);
      var verified := s.(log := s.log + [LogRow(id, guardUserId, VerifiedEntry)]);
      if p.status == REVOKED then (s, Err(BadRequest))
      else if p.status == EXPIRED then (denied, Ok(Answer(false, Some(id))))
      else if now > p.expiresAt then (denied.(passes := s.passes[id := Expire(p)]), Ok(Answer(false, Some(id))))
      else if p.status == VERIFIED then (verified, Ok(Answer(true, Some(id))))
      else if p.codeHash != Bcrypt(code) then (denied, Ok(Answer(false, Some(id))))
      else (verified.(passes := s.passes[id := Accept(p, guardUserId, later)]), Ok(Answer(true, Some(id))))
  }

  // ---- What a scan does to the table ----

  /** The scan touches the candidates it has walked past and nothing else. */
  lemma {:induction false} AfterScanAt(passes: seq<Pass>, candidates: seq<nat>, n: nat, now: int, k: nat)
    requires InTable(passes, candidates) && n <= |candidates| && k < |passes|
    ensures AfterScan(passes, candidates, n, now)[k]
            == if exists i :: 0 <= i < n && candidates[i] == k then Pruned(passes[k], now) else passes[k]
  {
    if n == 0 {
    } else {
      AfterScanAt(passes, candidates, n - 1, now, k);
      if candidates[n - 1] != k && exists i :: 0 <= i < n && candidates[i] == k {
        var i :| 0 <= i < n && candidates[i] == k;
        assert i < n - 1;
      }
    }
  }

  lemma NotYetScanned(passes: seq<Pass>, candidates: seq<nat>, n: nat, now: int)
    requires InTable(passes, candidates) && Descending(candidates) && n < |candidates|
    ensures AfterScan(passes, candidates, n, now)[candidates[n]] == passes[candidates[n]]
  {
    AfterScanAt(passes, candidates, n, now, candidates[n]);
  }

  /** A verification by code answers with the newest candidate that matches and has not lapsed. */
  lemma {:induction false} ByCodePicksNewest(s: State, guardUserId: string, code: string, now: int, later: int)
    ensures var candidates := Candidates(s.passes, |s.passes|, CANDIDATES);
            var answer := ByCode(s, guardUserId, code, now, later).1;
            && (answer.verified <==> answer.pass.Some?)
            && (answer.verified <==> exists id :: id in candidates && Matches(s.passes[id], code, now))
            && (answer.verified ==> && answer.pass.value in candidates
                                    && Matches(s.passes[answer.pass.value], code, now))
            && (forall id :: answer.verified && id in candidates && Matches(s.passes[id], code, now)
                             ==> id <= answer.pass.value)
  {
    var candidates := Candidates(s.passes, |s.passes|, CANDIDATES);
    var n := FirstMatch(s.passes, candidates, code, now, 0);
    forall id | id in candidates && Matches(s.passes[id], code, now)
      ensures n < |candidates| && id <= candidates[n]
    {
      var i :| 0 <= i < |candidates| && candidates[i] == id;
    }
  }

  /** Before its answer the scan expires exactly the lapsed candidates newer than it, or all of them when
      nothing matches. */
  lemma ScanExpires(passes: seq<Pass>, candidates: seq<nat>, code: string, now: int, k: nat)
    requires InTable(passes, candidates) && Descending(candidates) && k < |passes|
    ensures var n := FirstMatch(passes, candidates, code, now, 0);
            AfterScan(passes, candidates, n, now)[k]
            == if k in candidates && Lapsed(passes[k], now) && (n < |candidates| ==> k > candidates[n])
               then Expire(passes[k]) else passes[k]
  {
    AfterScanAt(passes, candidates, FirstMatch(passes, candidates, code, now, 0), now, k);
  }

  /** The table after a verification by code: the answer's pass is marked used if it was pending, the
      lapsed candidates newer than it are expired, and every other pass is as before. */
  lemma ByCodeChanges(s: State, guardUserId: string, code: string, now: int, later: int, k: nat)
    requires k < |s.passes|
    ensures var candidates := Candidates(s.passes, |s.passes|, CANDIDATES);
            var (after, answer) := ByCode(s, guardUserId, code, now, later);
            && |after.passes| == |s.passes|
            && after.passes[k] ==
                 if answer.pass == Some(k) then
                   (if s.passes[k].status == PENDING then Accept(s.passes[k], guardUserId, later) else s.passes[k])
                 else if k in candidates && Lapsed(s.passes[k], now) && (answer.pass.Some? ==> k > answer.pass.value)
                 then Expire(s.passes[k]) else s.passes[k]
  {
    var candidates := Candidates(s.passes, |s.passes|, CANDIDATES);
    ScanExpires(s.passes, candidates, code, now, k);
  }

  /** How many pending or verified passes among the first n are newer than a pass. */
  function NewerOpen(passes: seq<Pass>, n: nat, id: nat): nat
    requires n <= |passes|
  {
    if n <= id + 1 then 0
    else NewerOpen(passes, n - 1, id)
         + if passes[n - 1].status == PENDING || passes[n - 1].status == VERIFIED then 1 else 0
  }

  lemma InFront(first: nat, rest: seq<nat>, id: nat)
    ensures id in [first] + rest <==> id == first || id in rest
  {
  }

  lemma CandidatesStep(passes: seq<Pass>, n: nat, limit: nat, id: nat)
    requires 0 < n <= |passes| && limit > 0
    ensures id in Candidates(passes, n, limit)
            <==> if IsCandidate(passes[n - 1]) then id == n - 1 || id in Candidates(passes, n - 1, limit - 1)
                 else id in Candidates(passes, n - 1, limit)
  {
    if IsCandidate(passes[n - 1]) {
      InFront(n - 1, Candidates(passes, n - 1, limit - 1), id);
    }
  }

  lemma {:induction false} CandidatesIff(passes: seq<Pass>, n: nat, limit: nat, id: nat)
    requires n <= |passes|
    ensures id in Candidates(passes, n, limit)
            <==> && id < n && (passes[id].status == PENDING || passes[id].status == VERIFIED)
                 && NewerOpen(passes, n, id) < limit
    decreases n
  {
    if n == 0 || limit == 0 {
      assert Candidates(passes, n, limit) == [];
    } else {
      CandidatesStep(passes, n, limit, id);
      CandidatesIff(passes, n - 1, if IsCandidate(passes[n - 1]) then limit - 1 else limit, id);
    }
  }

  /** A pass can be found by code only while it is pending or verified and fewer than 200 such passes are newer. */
  lemma {:induction false} FoundAmongNewest(s: State, guardUserId: string, code: string, now: int, later: int)
    ensures var answer := ByCode(s, guardUserId, code, now, later).1;
            answer.verified ==>
              && answer.pass.value < |s.passes| && NewerOpen(s.passes, |s.passes|, answer.pass.value) < 200
              && (s.passes[answer.pass.value].status == PENDING || s.passes[answer.pass.value].status == VERIFIED)
    ensures !ByCode(s, guardUserId, code, now, later).1.verified ==>
              forall id ::
                (0 <= id < |s.passes| && (s.passes[id].status == PENDING || s.passes[id].status == VERIFIED)
                 && NewerOpen(s.passes, |s.passes|, id) < 200) ==> !Matches(s.passes[id], code, now)
  {
    ByCodePicksNewest(s, guardUserId, code, now, later);
    var answer := ByCode(s, guardUserId, code, now, later).1;
    if answer.verified {
      CandidatesIff(s.passes, |s.passes|, CANDIDATES, answer.pass.value);
    } else {
      forall id | (0 <= id < |s.passes| && (s.passes[id].status == PENDING || s.passes[id].status == VERIFIED)
                   && NewerOpen(s.passes, |s.passes|, id) < 200)
        ensures !Matches(s.passes[id], code, now)
      {
        CandidatesIff(s.passes, |s.passes|, CANDIDATES, id);
      }
    }
  }

  // ---- Where the two verifications agree ----

  /** A verification by code answers with a pass exactly when the pass is a candidate that matches and no
      newer candidate does. */
  lemma {:induction false} ByCodeAnswersIff(s: State, guardUserId: string, id: nat, code: string, now: int, later: int)
    ensures ByCode(s, guardUserId, code, now, later).1 == Answer(true, Some(id)) <==> NewestMatch(s, id, code, now)
  {
    ByCodePicksNewest(s, guardUserId, code, now, later);
  }

  ghost predicate NewestMatch(s: State, id: nat, code: string, now: int) {
    var candidates := Candidates(s.passes, |s.passes|, CANDIDATES);
    id in candidates && Matches(s.passes[id], code, now)
    && forall k :: k in candidates && k > id ==> !Matches(s.passes[k], code, now)
  }

  /** A verification of a pass answers true exactly when the pass has not run past its expiry and is either
      verified already, whatever the code, or pending with that code. */
  lemma ByPassAnswersIff(s: State, guardUserId: string, id: nat, code: string, now: int, later: int)
    ensures ByPass(s, guardUserId, id, code, now, later).1 == Ok(Answer(true, Some(id)))
            <==> && id < |s.passes| && now <= s.passes[id].expiresAt
                 && (s.passes[id].status == VERIFIED
                     || (s.passes[id].status == PENDING && s.passes[id].codeHash == Bcrypt(code)))
  {
  }

  /** A pass that is found by its code is accepted for itself too, unless it is verified and past its expiry. */
  lemma {:induction false} FoundByCodeIsAcceptedIff(s: State, guardUserId: string, id: nat, code: string, now: int,
                                                    later: int)
    requires ByCode(s, guardUserId, code, now, later).1 == Answer(true, Some(id))
    ensures ByPass(s, guardUserId, id, code, now, later).1 == Ok(Answer(true, Some(id)))
            <==> !(s.passes[id].status == VERIFIED && now > s.passes[id].expiresAt)
  {
    ByCodePicksNewest(s, guardUserId, code, now, later);
  }

  /** A pass that is accepted for itself is found by the code exactly when it is among the candidates, the
      code is its own, and no newer candidate matches it. */
  lemma {:induction false} AcceptedIsFoundByCodeIff(s: State, guardUserId: string, id: nat, code: string, now: int,
                                                    later: int)
    requires ByPass(s, guardUserId, id, code, now, later).1 == Ok(Answer(true, Some(id)))
    ensures var candidates := Candidates(s.passes, |s.passes|, CANDIDATES);
            ByCode(s, guardUserId, code, now, later).1 == Answer(true, Some(id))
            <==> && id in candidates && s.passes[id].codeHash == Bcrypt(code)
                 && forall k :: k in candidates && k > id ==> !Matches(s.passes[k], code, now)
  {
    ByPassAnswersIff(s, guardUserId, id, code, now, later);
    ByCodeAnswersIff(s, guardUserId, id, code, now, later);
  }

  /** The two verifications give a pass the same answer exactly when neither exception applies: it is not
      the newest match while verified and past its expiry, and it is not accepted with a foreign code, out
      of the candidates' reach or behind a newer match. */
  lemma {:induction false} VerificationsAgreeIff(s: State, guardUserId: string, id: nat, code: string, now: int,
                                                 later: int)
    requires id < |s.passes|
    ensures var p := s.passes[id];
            (ByCode(s, guardUserId, code, now, later).1 == Answer(true, Some(id))
             <==> ByPass(s, guardUserId, id, code, now, later).1 == Ok(Answer(true, Some(id))))
            <==> if NewestMatch(s, id, code, now) then p.status != VERIFIED || now <= p.expiresAt
                 else now > p.expiresAt || (p.status != VERIFIED && (p.status != PENDING || p.codeHash != Bcrypt(code)))
  {
    ByPassAnswersIff(s, guardUserId, id, code, now, later);
    ByCodeAnswersIff(s, guardUserId, id, code, now, later);
    CandidatesAreOpen(s.passes, id);
  }

  lemma CandidatesAreOpen(passes: seq<Pass>, id: nat)
    requires id < |passes|
    ensures id in Candidates(passes, |passes|, CANDIDATES) ==> IsCandidate(passes[id])
  {
  }

  /** The first exception: asked for by its code, a verified pass past its expiry is answered true and stays
      verified; asked for by itself it is answered false and expires. */
  lemma VerifiedPastExpiry(s: State, guardUserId: string, id: nat, code: string, now: int, later: int)
    requires NewestMatch(s, id, code, now)
    requires s.passes[id].status == VERIFIED && now > s.passes[id].expiresAt
    ensures var (after, answer) := ByCode(s, guardUserId, code, now, later);
            answer == Answer(true, Some(id)) && after.passes[id] == s.passes[id]
    ensures var (after, r) := ByPass(s, guardUserId, id, code, now, later);
            r == Ok(Answer(false, Some(id))) && after.passes[id] == Expire(s.passes[id])
  {
    ByCodeAnswersIff(s, guardUserId, id, code, now, later);
    ByCodeChanges(s, guardUserId, code, now, later, id);
  }

  /** The second exception: a verified pass that has not expired is answered true for any code at all,
      while a code that no candidate has is never found. */
  lemma {:induction false} AnyCodeForVerified(s: State, guardUserId: string, id: nat, code: string, now: int,
                                              later: int)
    requires id < |s.passes| && s.passes[id].status == VERIFIED && now <= s.passes[id].expiresAt
    requires forall k :: 0 <= k < |s.passes| ==> s.passes[k].codeHash != Bcrypt(code)
    ensures ByPass(s, guardUserId, id, code, now, later).1 == Ok(Answer(true, Some(id)))
    ensures ByCode(s, guardUserId, code, now, later).1 == Answer(false, None)
  {
    ByCodePicksNewest(s, guardUserId, code, now, later);
  }

  // ---- What a verification leaves behind ----

  /** A verification by code logs one VERIFIED row of the guard for the pass it answers, and none otherwise. */
  lemma {:induction false} ByCodeLogs(s: State, guardUserId: string, code: string, now: int, later: int)
    ensures var (after, answer) := ByCode(s, guardUserId, code, now, later);
            after.log == s.log + if answer.verified then [LogRow(answer.pass.value, guardUserId, VerifiedEntry)] else []
  {
    ByCodePicksNewest(s, guardUserId, code, now, later);
  }

  /** A verification of a pass logs one row of the guard for every answer, VERIFIED for true and DENIED for
      false, and none for a refusal: not found, or revoked. */
  lemma ByPassLogs(s: State, guardUserId: string, id: nat, code: string, now: int, later: int)
    ensures var (after, r) := ByPass(s, guardUserId, id, code, now, later);
            && (r == Err(NotFound) <==> id >= |s.passes|)
            && (r == Err(BadRequest) <==> id < |s.passes| && s.passes[id].status == REVOKED)
            && (r.Err? ==> after == s && (r == Err(NotFound) || r == Err(BadRequest)))
            && (r.Ok? ==> r.value.pass == Some(id)
                          && after.log == s.log + [LogRow(id, guardUserId,
                                                          if r.value.verified then VerifiedEntry else DeniedEntry)])
  {
  }

  /** It marks a pending pass used, by whom and when, exactly when it accepts it; it expires one that has run
      past its expiry; and it changes no other pass. */
  lemma ByPassChanges(s: State, guardUserId: string, id: nat, code: string, now: int, later: int, k: nat)
    requires id < |s.passes| && k < |s.passes|
    ensures var (after, r) := ByPass(s, guardUserId, id, code, now, later);
            var p := s.passes[id];
            && |after.passes| == |s.passes| && (k != id ==> after.passes[k] == s.passes[k])
            && after.passes[id] ==
                 if (p.status == PENDING || p.status == VERIFIED) && now > p.expiresAt then p.(status := EXPIRED)
                 else if p.status == PENDING && p.codeHash == Bcrypt(code)
                 then p.(status := VERIFIED, usedAt := Some(later), verifiedById := Some(guardUserId))
                 else p
  {
  }

  // ---- Runs ----

  datatype Event =
    | Create(code: string, expiresAt: int)
    | VerifyCode(guard: string, code: string, now: int, later: int)
    | VerifyOne(guard: string, id: nat, code: string, now: int, later: int)

  function Next(s: State, e: Event): State {
    match e
    case Create(code, expiresAt) => s.(passes := s.passes + [Pass(Bcrypt(code), expiresAt, PENDING, None, None)])
    case VerifyCode(guard, code, now, later) => ByCode(s, guard, code, now, later).0
    case VerifyOne(guard, id, code, now, later) => ByPass(s, guard, id, code, now, later).0
  }

  /** The pass an event answers `verified: true` for, if any. */
  function AnsweredTrue(s: State, e: Event): Option<nat> {
    match e
    case Create(_, _) => None
    case VerifyCode(guard, code, now, later) => ByCode(s, guard, code, now, later).1.pass
    case VerifyOne(guard, id, code, now, later) =>
      var r := ByPass(s, guard, id, code, now, later).1;
      if r.Ok? && r.value.verified then r.value.pass else None
  }

  function Run(s: State, events: seq<Event>): State
    decreases |events|
  {
    if events == [] then s else Run(Next(s, events[0]), events[1..])
  }

  /** How a pass may change at one step taken at `now`: not at all, from pending to expired or to verified
      in time, or from verified to expired. The mark of use is set with VERIFIED and never changes. */
  predicate MayBecome(before: Pass, after: Pass, now: int, guardUserId: string, later: int) {
    || after == before
    || (after == Expire(before) && now > before.expiresAt && (before.status == PENDING || before.status == VERIFIED))
    || (before.status == PENDING && now <= before.expiresAt && after == Accept(before, guardUserId, later))
  }

  /** Used and verified-by are set together, on passes that are or were verified; a pending one has neither. */
  predicate Sound(p: Pass) {
    && (p.usedAt.Some? <==> p.verifiedById.Some?)
    && (p.status == PENDING ==> p.usedAt.None?)
    && (p.status == VERIFIED ==> p.usedAt.Some?)
  }

  lemma ByCodeSteps(s: State, guard: string, code: string, now: int, later: int, k: nat)
    requires k < |s.passes|
    ensures k < |ByCode(s, guard, code, now, later).0.passes|
    ensures MayBecome(s.passes[k], ByCode(s, guard, code, now, later).0.passes[k], now, guard, later)
  {
    ByCodeChanges(s, guard, code, now, later, k);
    ByCodePicksNewest(s, guard, code, now, later);
  }

  /** Every step changes each pass only in the ways allowed. */
  lemma StepsAreAllowed(s: State, e: Event, k: nat)
    requires k < |s.passes|
    ensures |s.passes| <= |Next(s, e).passes|
    ensures e.Create? ==> Next(s, e).passes[k] == s.passes[k]
    ensures !e.Create? ==> MayBecome(s.passes[k], Next(s, e).passes[k], e.now, e.guard, e.later)
  {
    if e.VerifyCode? {
      ByCodeSteps(s, e.guard, e.code, e.now, e.later, k);
    }
  }

  ghost predicate AllSound(s: State) {
    forall k :: 0 <= k < |s.passes| ==> Sound(s.passes[k])
  }

  lemma StepKeepsSound(s: State, e: Event)
    requires AllSound(s)
    ensures AllSound(Next(s, e))
  {
    forall k | 0 <= k < |s.passes| ensures k < |Next(s, e).passes| && Sound(Next(s, e).passes[k]) {
      StepsAreAllowed(s, e, k);
    }
  }

  /** How often a pass turns verified in a run. */
  function TimesVerified(s: State, events: seq<Event>, k: nat): nat
    decreases |events|
  {
    if events == [] then 0
    else
      var next := Next(s, events[0]);
      (if k < |s.passes| && k < |next.passes| && s.passes[k].status != VERIFIED && next.passes[k].status == VERIFIED
       then 1 else 0)
      + TimesVerified(next, events[1..], k)
  }

  /** Over any run a pass turns verified at most once, is never pending again, never leaves EXPIRED or
      REVOKED, and keeps its mark of use once it has one. */
  lemma {:induction false} PassRuns(s: State, events: seq<Event>, k: nat)
    requires AllSound(s) && k < |s.passes|
    ensures AllSound(Run(s, events)) && k < |Run(s, events).passes|
    ensures var before, after := s.passes[k], Run(s, events).passes[k];
            && (before.status == EXPIRED || before.status == REVOKED ==> after == before)
            && (before.status == VERIFIED ==> after.status == VERIFIED || after.status == EXPIRED)
            && (before.usedAt.Some? ==> after.usedAt == before.usedAt && after.verifiedById == before.verifiedById)
    ensures TimesVerified(s, events, k) <= (if s.passes[k].status == PENDING then 1 else 0)
    decreases |events|
  {
    if events == [] {
    } else {
      StepKeepsSound(s, events[0]);
      StepsAreAllowed(s, events[0], k);
      PassRuns(Next(s, events[0]), events[1..], k);
    }
  }

  // ---- The log ----

  function VerifiedRows(log: seq<LogRow>, k: nat): nat {
    if log == [] then 0
    else VerifiedRows(log[..|log| - 1], k)
         + (if log[|log| - 1].pass == k && log[|log| - 1].action == VerifiedEntry then 1 else 0)
  }

  function TrueAnswers(s: State, events: seq<Event>, k: nat): nat
    decreases |events|
  {
    if events == [] then 0
    else (if AnsweredTrue(s, events[0]) == Some(k) then 1 else 0) + TrueAnswers(Next(s, events[0]), events[1..], k)
  }

  lemma StepLogs(s: State, e: Event, k: nat)
    ensures VerifiedRows(Next(s, e).log, k) == VerifiedRows(s.log, k) + if AnsweredTrue(s, e) == Some(k) then 1 else 0
  {
    var next := Next(s, e);
    assert next.log != s.log ==> next.log[..|s.log|] == s.log;
  }

  /** Over any run, the VERIFIED rows a pass gains in the log are its answers `verified: true`. */
  lemma {:induction false} LogMatchesAnswers(s: State, events: seq<Event>, k: nat)
    ensures VerifiedRows(Run(s, events).log, k) == VerifiedRows(s.log, k) + TrueAnswers(s, events, k)
    decreases |events|
  {
    if events == [] {
    } else {
      StepLogs(s, events[0], k);
      LogMatchesAnswers(Next(s, events[0]), events[1..], k);
    }
  }
}

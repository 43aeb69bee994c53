/** Sessions: token versions and refresh rotation over any run of logins, refreshes, logouts and
    password changes. */
module Sessions {
  import opened Wrappers

  /** A signed token: its user, the token version at issue, and a serial no other token has. */
  datatype Token = Token(user: string, version: nat, serial: nat)

  /** Digest and bcrypt together, as an injective function. */
  datatype Hash = Hashed(token: Token)

  /** What happened, for the record: a refresh token handed out, a session ended, all tokens of a user
      invalidated. */
  datatype Fact = Issued(token: Token) | Ended(user: string) | Invalidated(user: string)

  /** Refresh hashes by user, token versions by user, the next serial, and the record. */
  datatype State = State(refresh: map<string, Option<Hash>>, versions: map<string, nat>, nextSerial: nat,
                         facts: seq<Fact>)

  datatype Event =
    | Login(user: string)
    | Refresh(user: string, token: Token)
    | Logout(user: string)
    | ChangePassword(user: string)
    | ResetPassword(user: string)

  function VersionOf(versions: map<string, nat>, user: string): nat {
    if user in versions then versions[user] else 0
  }

  /** A login or refresh signs an access token and a refresh token with the current version. */
  function RefreshTokenIssued(s: State, user: string): Token {
    Token(user, VersionOf(s.versions, user), s.nextSerial + 1)
  }

  function AccessTokenIssued(s: State, user: string): Token {
    Token(user, VersionOf(s.versions, user), s.nextSerial)
  }

  function Issue(s: State, user: string): State {
    var token := RefreshTokenIssued(s, user);
    s.(refresh := s.refresh[user := Some(Hashed(token))], nextSerial := s.nextSerial + 2,
       facts := s.facts + [Issued(token)])
  }

  predicate Honoured(s: State, user: string, token: Token) {
    user in s.refresh && s.refresh[user] == Some(Hashed(token))
  }

  function Invalidate(s: State, user: string): State {
    s.(refresh := s.refresh[user := None], versions := s.versions[user := VersionOf(s.versions, user) + 1],
       facts := s.facts + [Invalidated(user)])
  }

  function Step(s: State, e: Event): State {
    if e.user !in s.refresh then s
    else
      match e
      case Login(user) => Issue(s, user)
      case Refresh(user, token) => if Honoured(s, user, token) then Issue(s, user) else s
      case Logout(user) => s.(refresh := s.refresh[user := None], facts := s.facts + [Ended(user)])
      case ChangePassword(user) => Invalidate(s, user)
      case ResetPassword(user) => Invalidate(s, user)
  }

  function Run(s: State, events: seq<Event>): State
    decreases |events|
  {
    if events == [] then s else Run(Step(s, events[0]), events[1..])
  }

  predicate PassesVersion(s: State, token: Token) {
    token.version == VersionOf(s.versions, token.user)
  }

  // ---- The record as a reference ----

  /** The refresh token issued last since the latest logout, change or reset of the user. */
  function LastIssued(facts: seq<Fact>, user: string): Option<Token> {
    if facts == [] then None
    else
      match facts[|facts| - 1]
      case Issued(token) => if token.user == user then Some(token) else LastIssued(facts[..|facts| - 1], user)
      case Ended(u) => if u == user then None else LastIssued(facts[..|facts| - 1], user)
      case Invalidated(u) => if u == user then None else LastIssued(facts[..|facts| - 1], user)
  }

  function Invalidations(facts: seq<Fact>, user: string): nat {
    if facts == [] then 0
    else Invalidations(facts[..|facts| - 1], user)
         + if facts[|facts| - 1] == Invalidated(user) then 1 else 0
  }

  /** No password change or reset of the user from a point of the record on. */
  ghost predicate Undisturbed(facts: seq<Fact>, user: string, from: nat) {
    forall i :: from <= i < |facts| ==> facts[i] != Invalidated(user)
  }

  /** A process that has just started: nobody signed in, no versions, nothing on record. */
  predicate Started(s: State) {
    s.versions == map[] && s.facts == [] && forall u :: u in s.refresh ==> s.refresh[u].None?
  }

  ghost predicate Recorded(s: State) {
    && (forall u :: u in s.refresh ==>
          s.refresh[u] == match LastIssued(s.facts, u) case Some(t) => Some(Hashed(t)) case None => None)
    && (forall u :: VersionOf(s.versions, u) == Invalidations(s.facts, u))
    && (forall i :: 0 <= i < |s.facts| && s.facts[i].Issued? ==> s.facts[i].token.serial < s.nextSerial)
  }

  lemma StepKeepsRecord(s: State, e: Event)
    requires Recorded(s)
    ensures Recorded(Step(s, e))
    ensures s.nextSerial <= Step(s, e).nextSerial && s.facts <= Step(s, e).facts
    ensures Step(s, e).refresh.Keys == s.refresh.Keys
  {
    var next := Step(s, e);
    if next != s {
      assert next.facts[..|s.facts|] == s.facts;
    }
  }

  lemma {:induction false} RunsKeepRecord(s: State, events: seq<Event>)
    requires Recorded(s)
    ensures Recorded(Run(s, events))
    ensures s.nextSerial <= Run(s, events).nextSerial && s.facts <= Run(s, events).facts
    ensures Run(s, events).refresh.Keys == s.refresh.Keys
    decreases |events|
  {
    if events == [] {
    } else {
      StepKeepsRecord(s, events[0]);
      RunsKeepRecord(Step(s, events[0]), events[1..]);
    }
  }

  // ---- Refresh rotation ----

  /** After any run, a refresh token is honoured exactly when it is the last one issued to its user since
      that user's latest logout, password change or reset; so at most one is. */
  lemma HonouredIsLastIssued(s: State, events: seq<Event>, user: string, token: Token)
    requires Started(s) && user in s.refresh
    ensures Honoured(Run(s, events), user, token) <==> LastIssued(Run(s, events).facts, user) == Some(token)
  {
    RunsKeepRecord(s, events);
  }

  /** Every refresh hash stored is of a serial at least `from`. */
  ghost predicate StoredSince(s: State, user: string, from: nat) {
    user in s.refresh && s.refresh[user].Some? ==> s.refresh[user].value.token.serial >= from
  }

  lemma {:induction false} SerialsOnlyGrow(s: State, events: seq<Event>, user: string, from: nat)
    requires StoredSince(s, user, from) && from <= s.nextSerial
    ensures StoredSince(Run(s, events), user, from)
    decreases |events|
  {
    if events == [] {
    } else {
      SerialsOnlyGrow(Step(s, events[0]), events[1..], user, from);
    }
  }

  /** A refresh token that has been used is never honoured again, whatever happens afterwards. */
  lemma RotatedNeverAgain(s: State, before: seq<Event>, user: string, token: Token, after: seq<Event>)
    requires Started(s) && Honoured(Run(s, before), user, token)
    ensures !Honoured(Run(Step(Run(s, before), Refresh(user, token)), after), user, token)
  {
    var used := Run(s, before);
    RunsKeepRecord(s, before);
    LastIssuedIsOnRecord(used.facts, user);
    SerialsOnlyGrow(Step(used, Refresh(user, token)), after, user, used.nextSerial);
  }

  lemma {:induction false} LastIssuedIsOnRecord(facts: seq<Fact>, user: string)
    ensures LastIssued(facts, user).Some? ==> Issued(LastIssued(facts, user).value) in facts
  {
    if facts == [] {
    } else {
      LastIssuedIsOnRecord(facts[..|facts| - 1], user);
    }
  }

  // ---- Token versions ----

  lemma {:induction false} InvalidationsGrow(facts: seq<Fact>, user: string, from: nat)
    requires from <= |facts|
    ensures Invalidations(facts[..from], user) <= Invalidations(facts, user)
    ensures Invalidations(facts[..from], user) == Invalidations(facts, user) <==> Undisturbed(facts, user, from)
  {
    if from < |facts| {
      var earlier := facts[..|facts| - 1];
      assert earlier[..from] == facts[..from];
      InvalidationsGrow(earlier, user, from);
      assert forall i :: 0 <= i < |earlier| ==> earlier[i] == facts[i];
    } else {
      assert facts[..from] == facts;
    }
  }

  /** A token issued at some moment passes the version test later exactly when its user's password has
      neither been changed nor reset in between. */
  lemma VersionTestIsUndisturbed(s: State, before: seq<Event>, user: string, after: seq<Event>)
    requires Started(s)
    ensures var issuing := Run(s, before);
            var later := Run(Issue(issuing, user), after);
            && (PassesVersion(later, RefreshTokenIssued(issuing, user))
                <==> Undisturbed(later.facts, user, |issuing.facts|))
            && (PassesVersion(later, AccessTokenIssued(issuing, user))
                <==> Undisturbed(later.facts, user, |issuing.facts|))
  {
    var issuing := Run(s, before);
    RunsKeepRecord(s, before);
    var issued := Issue(issuing, user);
    assert issued.facts[..|issuing.facts|] == issuing.facts;
    IssueKeepsVersions(issuing, user);
    VersionsFollowRecord(issued, after);
    var later := Run(issued, after);
    assert later.facts[..|issuing.facts|] == issuing.facts;
    InvalidationsGrow(later.facts, user, |issuing.facts|);
  }

  ghost predicate VersionsRecorded(s: State) {
    forall u :: VersionOf(s.versions, u) == Invalidations(s.facts, u)
  }

  lemma IssueKeepsVersions(s: State, user: string)
    requires VersionsRecorded(s)
    ensures VersionsRecorded(Issue(s, user)) && s.facts <= Issue(s, user).facts
  {
    assert Issue(s, user).facts[..|s.facts|] == s.facts;
  }

  lemma {:induction false} VersionsFollowRecord(s: State, events: seq<Event>)
    requires VersionsRecorded(s)
    ensures VersionsRecorded(Run(s, events)) && s.facts <= Run(s, events).facts
    decreases |events|
  {
    if events == [] {
    } else {
      var next := Step(s, events[0]);
      assert next.facts != s.facts ==> next.facts[..|s.facts|] == s.facts;
      VersionsFollowRecord(next, events[1..]);
    }
  }

  // ---- The same over the events alone ----

  /** The event hands tokens to the user: a login, or a refresh with the honoured token. */
  predicate Issues(s: State, e: Event, user: string) {
    user in s.refresh && (e == Login(user) || (e.Refresh? && e.user == user && Honoured(s, user, e.token)))
  }

  /** The event changes or resets the user's password. */
  predicate Resets(e: Event, user: string) {
    e == ChangePassword(user) || e == ResetPassword(user)
  }

  /** The event ends the user's session. */
  predicate Ends(e: Event, user: string) {
    e == Logout(user) || Resets(e, user)
  }

  /** What one event does to one user: it issues and stores, ends, resets and raises the version by one, or
      leaves the user alone; nobody else's tokens or version change. */
  lemma StepOnUser(s: State, e: Event, user: string)
    requires user in s.refresh
    ensures var next := Step(s, e);
            && user in next.refresh
            && VersionOf(next.versions, user) == VersionOf(s.versions, user) + (if Resets(e, user) then 1 else 0)
            && (Issues(s, e, user) ==> next.refresh[user] == Some(Hashed(RefreshTokenIssued(s, user))))
            && (Ends(e, user) ==> next.refresh[user] == None)
            && (!Issues(s, e, user) && !Ends(e, user) ==> next.refresh[user] == s.refresh[user])
  {
  }

  lemma {:induction false} VersionCountsResets(s: State, events: seq<Event>, user: string)
    requires user in s.refresh
    ensures user in Run(s, events).refresh
    ensures VersionOf(Run(s, events).versions, user) >= VersionOf(s.versions, user)
    ensures VersionOf(Run(s, events).versions, user) == VersionOf(s.versions, user)
            <==> forall i :: 0 <= i < |events| ==> !Resets(events[i], user)
    decreases |events|
  {
    if events == [] {
    } else {
      StepOnUser(s, events[0], user);
      VersionCountsResets(Step(s, events[0]), events[1..], user);
      assert forall i :: 0 <= i < |events[1..]| ==> events[1..][i] == events[i + 1];
    }
  }

  /** Both tokens an event hands out pass the version test later exactly when no event since has changed or
      reset the user's password. */
  lemma {:induction false} TokensLastUntilReset(s: State, e: Event, user: string, after: seq<Event>)
    requires Issues(s, e, user)
    ensures var later := Run(Step(s, e), after);
            && (PassesVersion(later, AccessTokenIssued(s, user))
                <==> forall i :: 0 <= i < |after| ==> !Resets(after[i], user))
            && (PassesVersion(later, RefreshTokenIssued(s, user))
                <==> forall i :: 0 <= i < |after| ==> !Resets(after[i], user))
  {
    StepOnUser(s, e, user);
    VersionCountsResets(Step(s, e), after, user);
  }

  /** The event at a position of a run issued the token, and no later one issued to the user or ended the
      user's session. */
  ghost predicate IssuedLast(s: State, events: seq<Event>, user: string, token: Token, i: nat) {
    && i < |events| && Issues(Run(s, events[..i]), events[i], user)
    && token == RefreshTokenIssued(Run(s, events[..i]), user)
    && forall j :: i < j < |events| ==> Quiet(Run(s, events[..j]), events[j], user)
  }

  /** The event neither issues to the user nor ends the user's session. */
  predicate Quiet(s: State, e: Event, user: string) {
    !Issues(s, e, user) && !Ends(e, user)
  }

  lemma {:induction false} RunOneMore(s: State, events: seq<Event>, e: Event)
    ensures Run(s, events + [e]) == Step(Run(s, events), e)
    decreases |events|
  {
    if events == [] {
      assert [e][1..] == [] && events + [e] == [e];
    } else {
      assert (events + [e])[1..] == events[1..] + [e];
      RunOneMore(Step(s, events[0]), events[1..], e);
    }
  }

  lemma IssuedLastOneMore(s: State, events: seq<Event>, e: Event, user: string, token: Token, i: nat)
    ensures IssuedLast(s, events + [e], user, token, i)
            <==> if i == |events|
                 then Issues(Run(s, events), e, user) && token == RefreshTokenIssued(Run(s, events), user)
                 else IssuedLast(s, events, user, token, i) && Quiet(Run(s, events), e, user)
  {
    var all := events + [e];
    assert all[..|events|] == events;
    assert forall j :: 0 <= j < |events| ==> all[j] == events[j] && all[..j] == events[..j];
    if i < |events| && IssuedLast(s, all, user, token, i) {
      assert Quiet(Run(s, all[..|events|]), all[|events|], user);
      forall j | i < j < |events| ensures Quiet(Run(s, events[..j]), events[j], user) {
        assert Quiet(Run(s, all[..j]), all[j], user);
      }
    }
  }

  /** After any run, a refresh token is honoured exactly when some event of the run issued it to the user and
      no later event issued another, logged the user out, or changed or reset the password. */
  lemma {:induction false} HonouredIffIssuedLast(s: State, events: seq<Event>, user: string, token: Token)
    requires user in s.refresh && s.refresh[user] == None
    ensures user in Run(s, events).refresh
    ensures Honoured(Run(s, events), user, token) <==> exists i: nat :: IssuedLast(s, events, user, token, i)
    decreases |events|
  {
    if events == [] {
    } else {
      var init, e := events[..|events| - 1], events[|events| - 1];
      assert events == init + [e];
      HonouredIffIssuedLast(s, init, user, token);
      RunOneMore(s, init, e);
      StepOnUser(Run(s, init), e, user);
      forall i: nat
        ensures IssuedLast(s, events, user, token, i)
                <==> if i == |init|
                     then Issues(Run(s, init), e, user) && token == RefreshTokenIssued(Run(s, init), user)
                     else IssuedLast(s, init, user, token, i) && Quiet(Run(s, init), e, user)
      {
        IssuedLastOneMore(s, init, e, user, token, i);
      }
      HonouredStep(Run(s, init), e, user, token);
      if i: nat :| IssuedLast(s, init, user, token, i) && Quiet(Run(s, init), e, user) {
        assert i < |init| && IssuedLast(s, events, user, token, i);
      }
      if Issues(Run(s, init), e, user) && token == RefreshTokenIssued(Run(s, init), user) {
        assert IssuedLast(s, events, user, token, |init|);
      }
    }
  }

  lemma HonouredStep(s: State, e: Event, user: string, token: Token)
    requires user in s.refresh
    ensures Honoured(Step(s, e), user, token)
            <==> if Issues(s, e, user) then token == RefreshTokenIssued(s, user)
                 else Quiet(s, e, user) && Honoured(s, user, token)
  {
    StepOnUser(s, e, user);
  }
}

/** The authentication service: reads of a ceremony, and the transactions that commit or roll back whole. */
module AuthService {
  import opened Wrappers
  import opened Auth

  const CHALLENGE_LIVE_CAP: nat := 32

  datatype AuthError = ChallengeInvalid | GrantInvalid | WebauthnInvalid | RateLimited | LastCredential | NotRegistered

  class AuthService {
    var owner: Option<nat>
    var grants: map<nat, Grant>
    var challenges: map<nat, Challenge>
    var credentials: map<nat, Credential>
    var sessions: map<nat, Session>
    var nextId: nat

    constructor ()
      ensures State() == Rows(None, map[], map[], map[], map[], 0) && Valid()
    {
      owner, grants, challenges, credentials, sessions, nextId := None, map[], map[], map[], map[], 0;
    }

    function State(): Rows
      reads this
    {
      Rows(owner, grants, challenges, credentials, sessions, nextId)
    }

    ghost predicate Valid()
      reads this
    {
      Minted(State())
    }

    /** Put every row back as a snapshot holds it: the transaction failed. */
    method RollBack(r: Rows)
      modifies this
      ensures State() == r
    {
      owner, grants, challenges, credentials, sessions, nextId := r.owner, r.grants, r.challenges, r.credentials,
          r.sessions, r.nextId;
    }

    // ---- reads ----

    /** The unspent challenges a response with this text answers. */
    function Answering(text: nat, purpose: Purpose): set<nat>
      reads this
    {
      set id | id in challenges && LiveChallenge(State(), id) && challenges[id].text == text
          && challenges[id].purpose == purpose
    }

    /** An unspent challenge of this purpose that a response answers, if it has not expired. */
    method FindLiveChallenge(text: nat, purpose: Purpose, now: int) returns (found: Result<nat, AuthError>)
      ensures found.Ok? ==> Answers(challenges, found.value, text, purpose) && now < challenges[found.value].expires
      ensures found.Err? ==> found.error == ChallengeInvalid
      ensures found.Err? ==>
        || (forall id :: !Answers(challenges, id, text, purpose))
        || exists id :: Answers(challenges, id, text, purpose) && challenges[id].expires <= now
    {
      assert forall id :: id in Answering(text, purpose) <==> Answers(challenges, id, text, purpose);
      var live := Answering(text, purpose);
      if live == {} { return Err(ChallengeInvalid); }
      var id :| id in live;
      if challenges[id].expires <= now { return Err(ChallengeInvalid); }
      return Ok(id);
    }

    /**
     Issue a challenge: expired rows go first, and a purpose at its live cap refuses to grow.
     A refusal still deletes what has expired.
     */
    method IssueChallenge(purpose: Purpose, forOwner: Option<nat>, text: nat, generation: nat, ttl: int, now: int)
      returns (issued: Result<nat, AuthError>)
      requires Valid()
      modifies this`challenges, this`nextId
      ensures Valid()
      ensures issued.Ok? <==> |LiveFor(old(challenges), purpose, forOwner, now)| < CHALLENGE_LIVE_CAP
      ensures issued.Ok? ==>
                && State() ==
                   RowsNext(old(State()),
                            Step.IssueChallenge(Challenge(purpose, forOwner, text, generation, now + ttl, false, false),
                                                now))
                && issued.value == old(nextId) && LiveChallenge(State(), issued.value)
      ensures issued.Err? ==>
        State() == old(State()).(challenges := Unexpired(old(challenges), now)) && issued.error == RateLimited
      ensures ttl > 0 ==>
        |LiveFor(challenges, purpose, forOwner, now)| <= |LiveFor(old(challenges), purpose, forOwner, now)| + 1
    {
      ghost var before := LiveFor(challenges, purpose, forOwner, now);
      challenges := Unexpired(challenges, now);
      var live := LiveFor(challenges, purpose, forOwner, now);
      assert live == before;
      if |live| >= CHALLENGE_LIVE_CAP { return Err(RateLimited); }
      var id := nextId;
      challenges := challenges[id := Challenge(purpose, forOwner, text, generation, now + ttl, false, false)];
      nextId := nextId + 1;
      assert LiveFor(challenges, purpose, forOwner, now) <= live + {id};
      SubsetSize(LiveFor(challenges, purpose, forOwner, now), live + {id});
      return Ok(id);
    }

    // ---- guarded updates ----

    method ConsumeChallenge(id: nat) returns (won: bool)
      modifies this`challenges
      ensures won <==> LiveChallenge(old(State()), id)
      ensures State() == if won then Auth.ConsumeChallenge(old(State()), id) else old(State())
    {
      won := id in challenges && !challenges[id].consumed && !challenges[id].revoked;
      if won { challenges := challenges[id := challenges[id].(consumed := true)]; }
    }

    method ConsumeGrant(id: nat) returns (won: bool)
      modifies this`grants
      ensures won <==> LiveGrant(old(State()), id)
      ensures State() == if won then Auth.ConsumeGrant(old(State()), id) else old(State())
    {
      won := id in grants && !grants[id].consumed && !grants[id].revoked;
      if won { grants := grants[id := grants[id].(consumed := true)]; }
    }

    /** The locked re-read: still registered, and the counter moves on or the passkey counts nothing. */
    method RequireLiveCredential(id: nat, newCounter: nat) returns (live: bool)
      ensures live <==> LiveCredential(State(), id, newCounter)
    {
      if id !in credentials || credentials[id].revoked { return false; }
      var row := credentials[id];
      if (newCounter > 0 || row.counter > 0) && newCounter <= row.counter { return false; }
      return true;
    }

    method InsertCredential(forOwner: nat, authenticator: nat, counter: nat) returns (inserted: bool)
      modifies this`credentials, this`nextId
      ensures inserted <==> !Registered(old(credentials), authenticator)
      ensures State() == if inserted then AddCredential(old(State()), forOwner, authenticator, counter)
              else old(State())
    {
      inserted := !exists id :: id in credentials && credentials[id].authenticator == authenticator;
      if inserted {
        credentials := credentials[nextId := Credential(forOwner, authenticator, counter, false)];
        nextId := nextId + 1;
      }
    }

    method InsertSession(forOwner: nat, generation: nat, inspection: bool, now: int)
      modifies this`sessions, this`nextId
      ensures State() == OpenSession(old(State()), forOwner, generation, inspection, now)
    {
      sessions := sessions[nextId := Session(forOwner, generation, inspection, now, false)];
      nextId := nextId + 1;
    }

    // ---- the four commits ----

    method CommitEnrollment(c: Ceremony) returns (ok: Result<(), AuthError>)
      requires Valid() && c.Enrollment?
      modifies this
      ensures Valid() && (ok.Ok? <==> Commits(old(State()), c))
      ensures State() == RowsNext(old(State()), Commit(c))
      ensures ok.Ok? ==>
        var id := if old(owner).None? && c.atRead.None? then old(nextId) + 1 else old(nextId);
        var current := if c.atRead.Some? then c.atRead else owner;
        && current.Some? && (old(owner).Some? ==> owner == old(owner))
        && credentials == old(credentials)[id := Credential(current.value, c.authenticator, c.counter, false)]
        && sessions == old(sessions)[id + 1 := Session(current.value, c.generation, c.inspection, c.now, false)]
        && c.challenge in challenges && challenges[c.challenge].consumed
        && c.grant in grants && grants[c.grant].consumed
    {
      hide Minted, Registered;
      var before := State();
      StepMints(before, Commit(c));
      var granted := ConsumeGrant(c.grant);
      if !granted { return Err(GrantInvalid); }
      var current := if c.atRead.Some? then c.atRead.value else if owner.Some? then owner.value else nextId;
      if c.atRead.None? && owner.None? {
        owner := Some(nextId);
        nextId := nextId + 1;
      }
      var inserted := InsertCredential(current, c.authenticator, c.counter);
      if !inserted {
        RollBack(before);
        return Err(WebauthnInvalid);
      }
      var consumed := ConsumeChallenge(c.challenge);
      if !consumed {
        RollBack(before);
        return Err(ChallengeInvalid);
      }
      InsertSession(current, c.generation, c.inspection, c.now);
      return Ok(());
    }

    method CommitLogin(c: Ceremony) returns (ok: Result<(), AuthError>)
      requires Valid() && c.Login?
      modifies this
      ensures Valid() && (ok.Ok? <==> Commits(old(State()), c))
      ensures State() == RowsNext(old(State()), Commit(c))
      ensures ok.Ok? ==>
        && sessions == old(sessions)[old(nextId) := Session(c.owner, c.generation, c.inspection, c.now, false)]
        && LiveSession(State(), old(nextId)) && c.credential in credentials && c.credential in old(credentials)
        && credentials == old(credentials)[c.credential := old(credentials)[c.credential].(counter := c.counter)]
        && c.challenge in challenges && challenges[c.challenge].consumed
    {
      var before := State();
      StepMints(before, Commit(c));
      var consumed := ConsumeChallenge(c.challenge);
      if !consumed { return Err(ChallengeInvalid); }
      var live := RequireLiveCredential(c.credential, c.counter);
      if !live {
        RollBack(before);
        return Err(WebauthnInvalid);
      }
      credentials := credentials[c.credential := credentials[c.credential].(counter := c.counter)];
      InsertSession(c.owner, c.generation, c.inspection, c.now);
      return Ok(());
    }

    method CommitReverification(c: Ceremony) returns (ok: Result<(), AuthError>)
      requires Valid() && c.Reverification?
      modifies this
      ensures Valid() && (ok.Ok? <==> Commits(old(State()), c))
      ensures State() == RowsNext(old(State()), Commit(c))
      ensures ok.Ok? ==>
        && c.session in old(sessions) && c.credential in old(credentials)
        && sessions == old(sessions)[c.session := old(sessions)[c.session].(verifiedAt := c.now)]
        && credentials == old(credentials)[c.credential := old(credentials)[c.credential].(counter := c.counter)]
        && c.challenge in challenges && challenges[c.challenge].consumed
    {
      var before := State();
      StepMints(before, Commit(c));
      var consumed := ConsumeChallenge(c.challenge);
      if !consumed { return Err(ChallengeInvalid); }
      var live := RequireLiveCredential(c.credential, c.counter);
      if !live || c.session !in sessions {
        RollBack(before);
        return Err(WebauthnInvalid);
      }
      credentials := credentials[c.credential := credentials[c.credential].(counter := c.counter)];
      sessions := sessions[c.session := sessions[c.session].(verifiedAt := c.now)];
      return Ok(());
    }

    method CommitCredentialEnrollment(c: Ceremony) returns (ok: Result<(), AuthError>)
      requires Valid() && c.Adding?
      modifies this
      ensures Valid() && (ok.Ok? <==> Commits(old(State()), c))
      ensures State() == RowsNext(old(State()), Commit(c))
      ensures ok.Ok? ==>
        && credentials == old(credentials)[old(nextId) := Credential(c.owner, c.authenticator, c.counter, false)]
        && sessions == old(sessions) && c.challenge in challenges && challenges[c.challenge].consumed
    {
      var before := State();
      StepMints(before, Commit(c));
      var consumed := ConsumeChallenge(c.challenge);
      if !consumed { return Err(ChallengeInvalid); }
      var inserted := InsertCredential(c.owner, c.authenticator, c.counter);
      if !inserted {
        RollBack(before);
        return Err(WebauthnInvalid);
      }
      return Ok(());
    }

    // ---- revocation ----

    /** Revoke credentials, sessions, challenges and grants together. */
    method RevokeAllAuthState()
      requires Valid()
      modifies this
      ensures Valid() && State() == RowsNext(old(State()), RevokeAll)
      ensures forall id :: !LiveChallenge(State(), id) && !LiveGrant(State(), id)
      ensures forall id, counter :: !LiveCredential(State(), id, counter)
      ensures sessions.Keys == old(sessions).Keys && credentials.Keys == old(credentials).Keys
      ensures forall id :: id in sessions ==> sessions[id] == old(sessions)[id].(revoked := true)
      ensures forall id :: id in credentials ==> credentials[id] == old(credentials)[id].(revoked := true)
      ensures owner == old(owner)
    {
      StepMints(State(), RevokeAll);
      credentials := RevokedCredentials(credentials);
      sessions := RevokedSessions(sessions);
      challenges := RevokedChallenges(challenges);
      grants := RevokedGrants(grants, None);
    }

    /** Log one session out. */
    method RevokeSession(id: nat) returns (done: bool)
      requires Valid()
      modifies this`sessions
      ensures Valid() && State() == RowsNext(old(State()), Logout(id))
      ensures done <==> LiveSession(old(State()), id)
      ensures !LiveSession(State(), id) && sessions.Keys == old(sessions).Keys
      ensures forall other :: other in sessions && other != id ==> sessions[other] == old(sessions)[other]
      ensures id in sessions ==> sessions[id] == old(sessions)[id].(revoked := true)
    {
      StepMints(State(), Logout(id));
      done := id in sessions && !sessions[id].revoked;
      if done {
        sessions := sessions[id := sessions[id].(revoked := true)];
      } else if id in sessions {
        assert sessions[id := sessions[id].(revoked := true)] == sessions;
      }
    }

    /** Remove one active passkey of an owner, never the last. */
    method RemoveCredential(forOwner: nat, id: nat) returns (ok: Result<(), AuthError>)
      requires Valid()
      modifies this`credentials
      ensures Valid() && State() == RowsNext(old(State()), Remove(forOwner, id))
      ensures ok.Ok? <==>
        HeldBy(old(State()), id, forOwner) && exists other :: other != id && HeldBy(old(State()), other, forOwner)
      ensures ok.Ok? ==>
        Active(State(), forOwner) == Active(old(State()), forOwner) - {id} && Active(State(), forOwner) != {}
      ensures ok == Err(LastCredential) ==>
        HeldBy(old(State()), id, forOwner) && forall other :: HeldBy(old(State()), other, forOwner) ==> other == id
    {
      assert forall other :: other in Active(State(), forOwner) <==> HeldBy(State(), other, forOwner);
      if HeldBy(State(), id, forOwner) { AnotherOne(Active(State(), forOwner), id); }
      StepMints(State(), Remove(forOwner, id));
      if id !in credentials || credentials[id].owner != forOwner
          || credentials[id].revoked { return Err(NotRegistered); }
      var remaining := Active(State(), forOwner);
      if |remaining| <= 1 {
        OneElement(remaining, id);
        return Err(LastCredential);
      }
      credentials := credentials[id := credentials[id].(revoked := true)];
      assert |remaining - {id}| == |remaining| - 1;
      assert Active(State(), forOwner) == remaining - {id};
      return Ok(());
    }
  }

  /** An unspent challenge of this purpose whose text a response repeats. */
  predicate Answers(m: map<nat, Challenge>, id: nat, text: nat, purpose: Purpose) {
    id in m && m[id].text == text && m[id].purpose == purpose && !m[id].consumed && !m[id].revoked
  }

  /** A challenge counts against the cap of its purpose and owner while it is unspent and unexpired. */
  predicate CountsFor(c: Challenge, purpose: Purpose, forOwner: Option<nat>, now: int) {
    c.purpose == purpose && c.owner == forOwner && !c.consumed && !c.revoked && now < c.expires
  }

  /** The challenges of one purpose and owner that still count against the cap. */
  function LiveFor(m: map<nat, Challenge>, purpose: Purpose, forOwner: Option<nat>, now: int): set<nat> {
    set id | id in m && m[id].purpose == purpose && m[id].owner == forOwner && !m[id].consumed && !m[id].revoked
        && now < m[id].expires
  }

  /** What counts against the cap of a purpose and owner, challenge by challenge. */
  lemma CountedAre(m: map<nat, Challenge>, purpose: Purpose, forOwner: Option<nat>, now: int)
    ensures forall id :: id in LiveFor(m, purpose, forOwner, now) <==>
              id in m && CountsFor(m[id], purpose, forOwner, now)
  {
  }

  lemma SubsetSize(a: set<nat>, b: set<nat>)
    requires a <= b
    ensures |a| <= |b|
  {
    assert b == a + (b - a);
  }

  lemma OneElement(s: set<nat>, x: nat)
    requires x in s && |s| <= 1
    ensures s == {x}
  {
    SubsetSize({x}, s);
    assert |s - {x}| == 0;
  }
}

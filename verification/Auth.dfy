/**
 Passkey ceremonies over the authentication rows. A ceremony reads and verifies first and
 commits later, in one transaction that either does everything or nothing; between the two
 anything else may commit.
 */
module Auth {
  import opened Wrappers

  datatype Purpose = FirstEnrollment | RecoveryEnrollment | LoginPurpose | ReverifyPurpose | AddCredentialPurpose

  datatype Challenge = Challenge(purpose: Purpose, owner: Option<nat>, text: nat, generation: nat, expires: int,
                                 consumed: bool, revoked: bool)

  datatype Grant = Grant(bootstrap: bool, token: nat, expires: int, consumed: bool, revoked: bool)

  /** `authenticator` is the identifier the passkey itself reports; it is unique over all rows. */
  datatype Credential = Credential(owner: nat, authenticator: nat, counter: nat, revoked: bool)

  datatype Session = Session(owner: nat, generation: nat, inspection: bool, verifiedAt: int, revoked: bool)

  datatype Rows = Rows(owner: Option<nat>, grants: map<nat, Grant>, challenges: map<nat, Challenge>,
                       credentials: map<nat, Credential>, sessions: map<nat, Session>, nextId: nat)

  /** What a ceremony's read phase hands to its transaction; nothing of it is trusted to be current. */
  datatype Ceremony =
    | Enrollment(challenge: nat, grant: nat, atRead: Option<nat>, generation: nat, inspection: bool, authenticator: nat,
                 counter: nat, now: int)
    | Login(challenge: nat, owner: nat, generation: nat, inspection: bool, credential: nat, counter: nat, now: int)
    | Reverification(challenge: nat, session: nat, credential: nat, counter: nat, now: int)
    | Adding(challenge: nat, owner: nat, authenticator: nat, counter: nat)

  /** One committed ceremony, the counter it left on a credential, and the session it opened. */
  datatype Entry = Entry(ceremony: Ceremony, credential: nat, counter: nat, session: Option<nat>)

  // ---- guarded updates ----

  predicate LiveChallenge(r: Rows, id: nat) {
    id in r.challenges && !r.challenges[id].consumed && !r.challenges[id].revoked
  }

  predicate LiveGrant(r: Rows, id: nat) {
    id in r.grants && !r.grants[id].consumed && !r.grants[id].revoked
  }

  function ConsumeChallenge(r: Rows, id: nat): Rows
    requires id in r.challenges
  {
    r.(challenges := r.challenges[id := r.challenges[id].(consumed := true)])
  }

  function ConsumeGrant(r: Rows, id: nat): Rows
    requires id in r.grants
  {
    r.(grants := r.grants[id := r.grants[id].(consumed := true)])
  }

  /** A counter that may follow another: it advances, or the authenticator counts nothing. */
  predicate Follows(before: nat, after: nat) {
    after > before || (before == 0 && after == 0)
  }

  predicate LiveCredential(r: Rows, id: nat, counter: nat) {
    id in r.credentials && !r.credentials[id].revoked && Follows(r.credentials[id].counter, counter)
  }

  predicate Registered(credentials: map<nat, Credential>, authenticator: nat) {
    exists id :: id in credentials && credentials[id].authenticator == authenticator
  }

  function OpenSession(r: Rows, owner: nat, generation: nat, inspection: bool, now: int): Rows {
    r.(sessions := r.sessions[r.nextId := Session(owner, generation, inspection, now, false)], nextId := r.nextId + 1)
  }

  function AddCredential(r: Rows, owner: nat, authenticator: nat, counter: nat): Rows {
    r.(credentials := r.credentials[r.nextId := Credential(owner, authenticator, counter, false)],
       nextId := r.nextId + 1)
  }

  function UseCredential(r: Rows, id: nat, counter: nat): Rows
    requires id in r.credentials
  {
    r.(credentials := r.credentials[id := r.credentials[id].(counter := counter)])
  }

  /** The owner of an enrollment: the one read, or the single one there is, created when there is none. */
  function EnsureOwner(r: Rows, atRead: Option<nat>): Rows {
    if atRead.Some? || r.owner.Some? then r else r.(owner := Some(r.nextId), nextId := r.nextId + 1)
  }

  function EnrolledOwner(r: Rows, atRead: Option<nat>): nat {
    if atRead.Some? then atRead.value else if r.owner.Some? then r.owner.value else r.nextId
  }

  /** Whether the transaction of a ceremony goes through on these rows. */
  predicate Commits(r: Rows, c: Ceremony) {
    LiveChallenge(r, c.challenge) &&
    match c
    case Enrollment(_, grant, _, _, _, authenticator, _, _) => LiveGrant(r, grant)
        && !Registered(r.credentials, authenticator)
    case Login(_, _, _, _, credential, counter, _) => LiveCredential(r, credential, counter)
    case Reverification(_, session, credential, counter, _) => LiveCredential(r, credential, counter)
        && session in r.sessions
    case Adding(_, _, authenticator, _) => !Registered(r.credentials, authenticator)
  }

  function Committed(r: Rows, c: Ceremony): Rows
    requires Commits(r, c)
  {
    match c
    case Enrollment(challenge, grant, atRead, generation, inspection, authenticator, counter, now) =>
      var owned := EnsureOwner(ConsumeGrant(r, grant), atRead);
      var enrolled := AddCredential(owned, EnrolledOwner(r, atRead), authenticator, counter);
      OpenSession(ConsumeChallenge(enrolled, challenge), EnrolledOwner(r, atRead), generation, inspection, now)
    case Login(challenge, owner, generation, inspection, credential, counter, now) =>
      OpenSession(UseCredential(ConsumeChallenge(r, challenge), credential, counter), owner, generation, inspection,
                  now)
    case Reverification(challenge, session, credential, counter, now) =>
      var used := UseCredential(ConsumeChallenge(r, challenge), credential, counter);
      used.(sessions := used.sessions[session := used.sessions[session].(verifiedAt := now)])
    case Adding(challenge, owner, authenticator, counter) =>
      AddCredential(ConsumeChallenge(r, challenge), owner, authenticator, counter)
  }

  /** The credential a committed ceremony used or made. */
  function CredentialOf(r: Rows, c: Ceremony): nat {
    match c
    case Enrollment(_, _, atRead, _, _, _, _, _) => EnsureOwner(r, atRead).nextId
    case Login(_, _, _, _, credential, _, _) => credential
    case Reverification(_, _, credential, _, _) => credential
    case Adding(_, _, _, _) => r.nextId
  }

  /** The session a committed ceremony opened. */
  function SessionOf(r: Rows, c: Ceremony): Option<nat> {
    match c
    case Enrollment(_, _, atRead, _, _, _, _, _) => Some(EnsureOwner(r, atRead).nextId + 1)
    case Login(_, _, _, _, _, _, _) => Some(r.nextId)
    case _ => None
  }

  // ---- everything that commits ----

  datatype Step =
    | Commit(ceremony: Ceremony)
    | IssueChallenge(challenge: Challenge, now: int)
    | IssueGrant(bootstrap: bool, token: nat, expires: int)
    | RevokeAll
    | Logout(session: nat)
    | Remove(owner: nat, credential: nat)

  datatype Sys = Sys(rows: Rows, log: seq<Entry>)

  function RevokedCredentials(m: map<nat, Credential>): map<nat, Credential> {
    map id | id in m :: m[id].(revoked := true)
  }

  function RevokedSessions(m: map<nat, Session>): map<nat, Session> {
    map id | id in m :: m[id].(revoked := true)
  }

  function RevokedChallenges(m: map<nat, Challenge>): map<nat, Challenge> {
    map id | id in m :: if m[id].consumed then m[id] else m[id].(revoked := true)
  }

  function RevokedGrants(m: map<nat, Grant>, bootstrap: Option<bool>): map<nat, Grant> {
    map id | id in m ::
      if m[id].consumed || (bootstrap.Some? && m[id].bootstrap != bootstrap.value) then m[id]
          else m[id].(revoked := true)
  }

  function Unexpired(m: map<nat, Challenge>, now: int): map<nat, Challenge> {
    map id | id in m && now <= m[id].expires :: m[id]
  }

  function Active(r: Rows, owner: nat): set<nat> {
    set id | id in r.credentials && r.credentials[id].owner == owner && !r.credentials[id].revoked
  }

  predicate Removable(r: Rows, owner: nat, credential: nat) {
    credential in Active(r, owner) && |Active(r, owner)| > 1
  }

  function RowsNext(r: Rows, step: Step): Rows {
    match step
    case Commit(c) => if Commits(r, c) then Committed(r, c) else r
    case IssueChallenge(challenge, now) =>
      r.(challenges := Unexpired(r.challenges, now)[r.nextId := challenge.(consumed := false, revoked := false)],
         nextId := r.nextId + 1)
    case IssueGrant(bootstrap, token, expires) =>
      r.(grants := RevokedGrants(r.grants, Some(bootstrap))[r.nextId := Grant(bootstrap, token, expires, false, false)],
         nextId := r.nextId + 1)
    case RevokeAll =>
      r.(credentials := RevokedCredentials(r.credentials), sessions := RevokedSessions(r.sessions),
         challenges := RevokedChallenges(r.challenges), grants := RevokedGrants(r.grants, None))
    case Logout(id) => if id in r.sessions then r.(sessions := r.sessions[id := r.sessions[id].(revoked := true)])
        else r
    case Remove(owner, id) =>
      if Removable(r, owner, id) then r.(credentials := r.credentials[id := r.credentials[id].(revoked := true)]) else r
  }

  function Next(s: Sys, step: Step): Sys {
    Sys(RowsNext(s.rows, step),
        if step.Commit? && Commits(s.rows, step.ceremony)
        then s.log + [Entry(step.ceremony, CredentialOf(s.rows, step.ceremony), step.ceremony.counter,
                            SessionOf(s.rows, step.ceremony))]
        else s.log)
  }

  function Run(s: Sys, steps: seq<Step>): Sys
    decreases |steps|
  {
    if steps == [] then s else Run(Next(s, steps[0]), steps[1..])
  }

  /** Identifiers below the next one only. */
  ghost predicate Minted(r: Rows) {
    && (forall id :: id in r.challenges ==> id < r.nextId) && (forall id :: id in r.grants ==> id < r.nextId)
    && (forall id :: id in r.credentials ==> id < r.nextId) && (forall id :: id in r.sessions ==> id < r.nextId)
  }

  lemma StepMints(r: Rows, step: Step)
    requires Minted(r)
    ensures Minted(RowsNext(r, step)) && r.nextId <= RowsNext(r, step).nextId
  {
  }

  // ---- what one step does to one row ----

  predicate CommitsNow(r: Rows, step: Step) {
    step.Commit? && Commits(r, step.ceremony)
  }

  /** A challenge is consumed by the ceremony that answers it, revoked by a revoke-all, and deleted once expired. */
  lemma ChallengeStep(r: Rows, step: Step, id: nat)
    requires Minted(r)
    ensures var t := RowsNext(r, step);
            if id in r.challenges then
              && (id in t.challenges <==> !(step.IssueChallenge? && r.challenges[id].expires < step.now))
              && (id in t.challenges ==>
                    t.challenges[id] == r.challenges[id].(
                      consumed := r.challenges[id].consumed || (CommitsNow(r, step) && step.ceremony.challenge == id),
                      revoked := r.challenges[id].revoked || (step.RevokeAll? && !r.challenges[id].consumed)))
            else
              && (id in t.challenges <==> step.IssueChallenge? && id == r.nextId)
              && (id in t.challenges ==> t.challenges[id] == step.challenge.(consumed := false, revoked := false))
  {
  }

  /** A grant is consumed by its enrollment, and revoked by a revoke-all or a newer grant for its purpose. */
  lemma GrantStep(r: Rows, step: Step, id: nat)
    requires Minted(r)
    ensures var t := RowsNext(r, step);
            if id in r.grants then
              && id in t.grants
              && t.grants[id] == r.grants[id].(
                   consumed := r.grants[id].consumed
                               || (CommitsNow(r, step) && step.ceremony.Enrollment? && step.ceremony.grant == id),
                   revoked := r.grants[id].revoked
                              || (!r.grants[id].consumed
                                  && (step.RevokeAll?
                                     || (step.IssueGrant? && step.bootstrap == r.grants[id].bootstrap))))
            else
              && (id in t.grants <==> step.IssueGrant? && id == r.nextId)
              && (id in t.grants ==> t.grants[id] == Grant(step.bootstrap, step.token, step.expires, false, false))
  {
  }

  /** An unrevoked passkey of an owner. */
  predicate HeldBy(r: Rows, id: nat, owner: nat) {
    id in r.credentials && r.credentials[id].owner == owner && !r.credentials[id].revoked
  }

  /** A credential takes the counter of the ceremony that uses it, and is revoked by its removal or a revoke-all. */
  lemma CredentialStep(r: Rows, step: Step, id: nat)
    requires Minted(r) && id in r.credentials
    ensures var t := RowsNext(r, step);
            && id in t.credentials
            && t.credentials[id] == r.credentials[id].(
                 counter := if CommitsNow(r, step) && (step.ceremony.Login? || step.ceremony.Reverification?)
                               && step.ceremony.credential == id
                            then step.ceremony.counter else r.credentials[id].counter,
                 revoked := r.credentials[id].revoked || step.RevokeAll?
                            || (step.Remove? && step.credential == id && r.credentials[id].owner == step.owner
                                && exists other :: other != id && HeldBy(r, other, step.owner)))
  {
    if step.Remove? && id in Active(r, step.owner) {
      AnotherOne(Active(r, step.owner), id);
      assert forall other :: other in Active(r, step.owner) <==> HeldBy(r, other, step.owner);
    }
  }

  /** A set is larger than one of its members exactly when it has another. */
  lemma AnotherOne(s: set<nat>, x: nat)
    requires x in s
    ensures |s| > 1 <==> exists y :: y in s && y != x
  {
    var rest := s - {x};
    assert |rest| == |s| - 1;
    if y :| y in s && y != x {
      assert y in rest;
    } else {
      assert rest == {};
    }
  }

  /** A credential appears only with the ceremony that registers it, for its owner and with its counter. */
  lemma CredentialAppears(r: Rows, step: Step, id: nat)
    requires Minted(r) && id !in r.credentials
    ensures id in RowsNext(r, step).credentials <==>
              CommitsNow(r, step) && (step.ceremony.Enrollment? || step.ceremony.Adding?)
              && CredentialOf(r, step.ceremony) == id
    ensures id in RowsNext(r, step).credentials ==>
              var c := step.ceremony;
              && r.nextId <= id && !Registered(r.credentials, c.authenticator)
              && RowsNext(r, step).credentials[id] ==
                 Credential(if c.Adding? then c.owner
                     else EnrolledOwner(r, c.atRead), c.authenticator, c.counter, false)
  {
  }

  // ---- once ----

  /** This challenge can never be consumed again. */
  predicate SpentChallenge(r: Rows, id: nat) {
    id < r.nextId && !LiveChallenge(r, id)
  }

  predicate SpentGrant(r: Rows, id: nat) {
    id < r.nextId && !LiveGrant(r, id)
  }

  lemma SpentStays(r: Rows, step: Step, id: nat)
    requires Minted(r)
    ensures SpentChallenge(r, id) ==> SpentChallenge(RowsNext(r, step), id)
    ensures SpentGrant(r, id) ==> SpentGrant(RowsNext(r, step), id)
  {
  }

  lemma CommitSpends(r: Rows, c: Ceremony)
    requires Minted(r) && Commits(r, c)
    ensures SpentChallenge(Committed(r, c), c.challenge)
    ensures c.Enrollment? ==> SpentGrant(Committed(r, c), c.grant)
  {
  }

  /** Two committed ceremonies share neither a challenge nor a grant. */
  predicate Apart(a: Ceremony, b: Ceremony) {
    a.challenge != b.challenge && (a.Enrollment? && b.Enrollment? ==> a.grant != b.grant)
  }

  ghost predicate Once(s: Sys) {
    && Minted(s.rows)
    && (forall k :: 0 <= k < |s.log| ==>
          && SpentChallenge(s.rows, s.log[k].ceremony.challenge)
          && (s.log[k].ceremony.Enrollment? ==> SpentGrant(s.rows, s.log[k].ceremony.grant)))
    && (forall i, j :: 0 <= i < j < |s.log| ==> Apart(s.log[i].ceremony, s.log[j].ceremony))
  }

  lemma StepKeepsOnce(s: Sys, step: Step)
    requires Once(s)
    ensures Once(Next(s, step))
  {
    hide RowsNext, Committed;
    StepMints(s.rows, step);
    var t := Next(s, step);
    forall k | 0 <= k < |t.log|
      ensures SpentChallenge(t.rows, t.log[k].ceremony.challenge)
      ensures t.log[k].ceremony.Enrollment? ==> SpentGrant(t.rows, t.log[k].ceremony.grant)
    {
      if k < |s.log| {
        SpentStays(s.rows, step, s.log[k].ceremony.challenge);
        if s.log[k].ceremony.Enrollment? { SpentStays(s.rows, step, s.log[k].ceremony.grant); }
      } else {
        CommitSpends(s.rows, step.ceremony);
        assert t.rows == Committed(s.rows, step.ceremony) by { RowsAfterCommit(s.rows, step.ceremony); }
      }
    }
  }

  lemma RowsAfterCommit(r: Rows, c: Ceremony)
    requires Commits(r, c)
    ensures RowsNext(r, Commit(c)) == Committed(r, c)
  {
  }

  /** Under every interleaving, a challenge commits at most one ceremony and so does a grant. */
  lemma {:induction false} EachCommitsOnce(s: Sys, steps: seq<Step>)
    requires Once(s)
    ensures Once(Run(s, steps))
    decreases |steps|
  {
    if steps != [] {
      StepKeepsOnce(s, steps[0]);
      EachCommitsOnce(Next(s, steps[0]), steps[1..]);
    }
  }

  // ---- revocation ----

  /** Everything that commits from entry `from` on answers a challenge issued after `mark`. */
  ghost predicate OnlyNewer(s: Sys, from: nat, mark: nat) {
    && Minted(s.rows) && mark <= s.rows.nextId
    && (forall id :: 0 <= id < mark ==> SpentChallenge(s.rows, id))
    && (forall k :: from <= k < |s.log| ==> s.log[k].ceremony.challenge >= mark)
  }

  lemma StepKeepsNewer(s: Sys, step: Step, from: nat, mark: nat)
    requires OnlyNewer(s, from, mark)
    ensures OnlyNewer(Next(s, step), from, mark)
  {
    hide RowsNext, Committed;
    StepMints(s.rows, step);
    forall id | 0 <= id < mark ensures SpentChallenge(Next(s, step).rows, id) {
      SpentStays(s.rows, step, id);
    }
    forall id | 0 <= id < mark ensures !LiveChallenge(s.rows, id) {
      assert SpentChallenge(s.rows, id);
    }
  }

  lemma {:induction false} RunKeepsNewer(s: Sys, steps: seq<Step>, from: nat, mark: nat)
    requires OnlyNewer(s, from, mark)
    ensures OnlyNewer(Run(s, steps), from, mark)
    decreases |steps|
  {
    if steps != [] {
      StepKeepsNewer(s, steps[0], from, mark);
      RunKeepsNewer(Next(s, steps[0]), steps[1..], from, mark);
    }
  }

  /** Nothing whose challenge was issued before a revoke-all commits after it, wherever its reads happened. */
  lemma NothingOldCommitsAfterRevokeAll(s: Sys, steps: seq<Step>, k: nat)
    requires Minted(s.rows)
    requires |s.log| <= k < |Run(Next(s, RevokeAll), steps).log|
    ensures Run(Next(s, RevokeAll), steps).log[k].ceremony.challenge >= s.rows.nextId
  {
    var t := Next(s, RevokeAll);
    assert OnlyNewer(t, |s.log|, s.rows.nextId);
    RunKeepsNewer(t, steps, |s.log|, s.rows.nextId);
  }

  lemma StepLeavesRevoked(r: Rows, step: Step, id: nat)
    requires Minted(r) && id in r.credentials && r.credentials[id].revoked
    ensures id in RowsNext(r, step).credentials && RowsNext(r, step).credentials[id] == r.credentials[id]
  {
  }

  /** A credential of before a revoke-all is never used again. */
  lemma {:induction false} RevokedStaysRevoked(s: Sys, steps: seq<Step>, id: nat)
    requires Minted(s.rows) && id in s.rows.credentials && s.rows.credentials[id].revoked
    ensures id in Run(s, steps).rows.credentials && Run(s, steps).rows.credentials[id].revoked
    ensures Run(s, steps).rows.credentials[id] == s.rows.credentials[id]
    decreases |steps|
  {
    hide RowsNext;
    if steps != [] {
      StepMints(s.rows, steps[0]);
      StepLeavesRevoked(s.rows, steps[0], id);
      RevokedStaysRevoked(Next(s, steps[0]), steps[1..], id);
    }
  }

  // ---- sessions ----

  predicate LiveSession(r: Rows, id: nat) {
    id in r.sessions && !r.sessions[id].revoked
  }

  /** The sessions a step revokes. */
  predicate Revokes(step: Step, id: nat) {
    step.RevokeAll? || step == Logout(id)
  }

  /**
   What one step does to one session row that is there: a reverification moves its verification
   time, a logout of it or a revoke-all revokes it, and nothing else touches it.
   */
  lemma SessionStep(r: Rows, step: Step, id: nat)
    requires Minted(r) && id in r.sessions
    ensures id in RowsNext(r, step).sessions
    ensures var was, now := r.sessions[id], RowsNext(r, step).sessions[id];
            && now.owner == was.owner && now.generation == was.generation && now.inspection == was.inspection
            && (now.revoked <==> was.revoked || Revokes(step, id))
            && (now.verifiedAt != was.verifiedAt ==>
                  step.Commit? && Commits(r, step.ceremony) && step.ceremony.Reverification?
                  && step.ceremony.session == id && now.verifiedAt == step.ceremony.now)
  {
  }

  /** Who a ceremony opens its session for. */
  function SessionOwner(r: Rows, c: Ceremony): nat
    requires c.Enrollment? || c.Login?
  {
    if c.Login? then c.owner else EnrolledOwner(r, c.atRead)
  }

  /** A session row appears only with the ceremony that opens it, live, for its owner, generation and kind. */
  lemma SessionOpens(r: Rows, step: Step, id: nat)
    requires Minted(r) && id !in r.sessions
    ensures id in RowsNext(r, step).sessions <==>
              step.Commit? && Commits(r, step.ceremony) && SessionOf(r, step.ceremony) == Some(id)
    ensures id in RowsNext(r, step).sessions ==>
              var c := step.ceremony;
              && r.nextId <= id && (c.Enrollment? || c.Login?)
              && RowsNext(r, step).sessions[id] == Session(SessionOwner(r, c), c.generation, c.inspection, c.now, false)
  {
  }

  /** A session row is never live again once revoked, and never changes owner, generation or kind. */
  lemma {:induction false} SessionStands(s: Sys, steps: seq<Step>, id: nat)
    requires Minted(s.rows) && id in s.rows.sessions
    ensures id in Run(s, steps).rows.sessions
    ensures var was, now := s.rows.sessions[id], Run(s, steps).rows.sessions[id];
            && now.owner == was.owner && now.generation == was.generation && now.inspection == was.inspection
            && (now.revoked <==> was.revoked || exists k :: 0 <= k < |steps| && Revokes(steps[k], id))
    decreases |steps|
  {
    hide RowsNext;
    if steps != [] {
      StepMints(s.rows, steps[0]);
      SessionStep(s.rows, steps[0], id);
      SessionStands(Next(s, steps[0]), steps[1..], id);
      assert forall k :: 0 <= k < |steps[1..]| ==> steps[1..][k] == steps[k + 1];
      assert forall k :: 0 < k < |steps| ==> steps[k] == steps[1..][k - 1];
    }
  }

  /** Since entry `from`: rows below `mark` are revoked, and any other was opened by a later entry. */
  ghost predicate SessionsSince(s: Sys, from: nat, mark: nat) {
    && Minted(s.rows) && mark <= s.rows.nextId && from <= |s.log|
    && (forall id :: id in s.rows.sessions && id < mark ==> s.rows.sessions[id].revoked)
    && (forall id :: id in s.rows.sessions && mark <= id ==>
          exists k :: from <= k < |s.log| && OpenedBy(s, k, id))
  }

  /** Entry `k` opened this session, for its own generation and kind. */
  predicate OpenedBy(s: Sys, k: nat, id: nat)
    requires k < |s.log| && id in s.rows.sessions
  {
    var c := s.log[k].ceremony;
    && s.log[k].session == Some(id) && (c.Enrollment? || c.Login?)
    && s.rows.sessions[id].generation == c.generation && s.rows.sessions[id].inspection == c.inspection
    && (c.Login? ==> s.rows.sessions[id].owner == c.owner)
  }

  lemma StepKeepsSessions(s: Sys, step: Step, from: nat, mark: nat)
    requires SessionsSince(s, from, mark)
    ensures SessionsSince(Next(s, step), from, mark)
  {
    hide RowsNext, Commits, SessionOf;
    StepMints(s.rows, step);
    var t := Next(s, step);
    forall id | id in t.rows.sessions
      ensures id < mark ==> t.rows.sessions[id].revoked
      ensures mark <= id ==> exists k :: from <= k < |t.log| && OpenedBy(t, k, id)
    {
      if id in s.rows.sessions {
        SessionStep(s.rows, step, id);
        if mark <= id {
          var k :| from <= k < |s.log| && OpenedBy(s, k, id);
          assert OpenedBy(t, k, id);
        }
      } else {
        SessionOpens(s.rows, step, id);
        assert OpenedBy(t, |s.log|, id);
      }
    }
  }

  lemma {:induction false} RunKeepsSessions(s: Sys, steps: seq<Step>, from: nat, mark: nat)
    requires SessionsSince(s, from, mark)
    ensures SessionsSince(Run(s, steps), from, mark)
    decreases |steps|
  {
    if steps != [] {
      StepKeepsSessions(s, steps[0], from, mark);
      RunKeepsSessions(Next(s, steps[0]), steps[1..], from, mark);
    }
  }

  /**
   Whatever is live after a revoke-all was opened by a ceremony that committed after it: no
   session of before survives, however ceremonies and reads interleave.
   */
  lemma OnlyNewSessionsLive(s: Sys, steps: seq<Step>, id: nat)
    requires Minted(s.rows)
    ensures var t := Run(Next(s, RevokeAll), steps);
            LiveSession(t.rows, id) ==> exists k :: |s.log| <= k < |t.log| && OpenedBy(t, k, id)
  {
    var t := Next(s, RevokeAll);
    forall i | i in t.rows.sessions ensures t.rows.sessions[i].revoked {
      SessionStep(s.rows, RevokeAll, i);
    }
    assert SessionsSince(t, |s.log|, s.rows.nextId);
    RunKeepsSessions(t, steps, |s.log|, s.rows.nextId);
  }

  // ---- counters ----

  /** No committed counter of a credential exceeds the stored one, and each follows those before it. */
  ghost predicate CountersClimb(s: Sys) {
    && Minted(s.rows)
    && (forall k :: 0 <= k < |s.log| ==>
          s.log[k].credential in s.rows.credentials
              && s.log[k].counter <= s.rows.credentials[s.log[k].credential].counter)
    && (forall i, j :: 0 <= i < j < |s.log| && s.log[i].credential == s.log[j].credential ==>
          Follows(s.log[i].counter, s.log[j].counter))
  }

  lemma CounterStep(r: Rows, step: Step, id: nat)
    requires Minted(r) && id in r.credentials
    ensures id in RowsNext(r, step).credentials
            && r.credentials[id].counter <= RowsNext(r, step).credentials[id].counter
  {
  }

  lemma CommitCounter(r: Rows, c: Ceremony)
    requires Minted(r) && Commits(r, c)
    ensures CredentialOf(r, c) in Committed(r, c).credentials
            && Committed(r, c).credentials[CredentialOf(r, c)].counter == c.counter
    ensures CredentialOf(r, c) in r.credentials ==> Follows(r.credentials[CredentialOf(r, c)].counter, c.counter)
  {
  }

  lemma StepKeepsClimb(s: Sys, step: Step)
    requires CountersClimb(s)
    ensures CountersClimb(Next(s, step))
  {
    hide RowsNext, Committed, Commits;
    StepMints(s.rows, step);
    var t := Next(s, step);
    if step.Commit? && Commits(s.rows, step.ceremony) {
      CommitCounter(s.rows, step.ceremony);
      RowsAfterCommit(s.rows, step.ceremony);
    }
    forall k | 0 <= k < |t.log|
      ensures t.log[k].credential in t.rows.credentials
              && t.log[k].counter <= t.rows.credentials[t.log[k].credential].counter
    {
      if k < |s.log| { CounterStep(s.rows, step, s.log[k].credential); }
    }
  }

  /**
   Under every interleaving the committed counters of a credential never regress, and strictly
   increase as soon as either of two is non-zero, its first one at registration included.
   */
  lemma {:induction false} CountersNeverRegress(s: Sys, steps: seq<Step>)
    requires CountersClimb(s)
    ensures CountersClimb(Run(s, steps))
    decreases |steps|
  {
    if steps != [] {
      StepKeepsClimb(s, steps[0]);
      CountersNeverRegress(Next(s, steps[0]), steps[1..]);
    }
  }

  // ---- the last passkey and the one owner ----

  /** Nothing but a revoke-all takes an owner's last active passkey. */
  lemma {:induction false} LastPasskeyStays(s: Sys, steps: seq<Step>, owner: nat)
    requires Minted(s.rows) && RevokeAll !in steps && exists id :: HeldBy(s.rows, id, owner)
    ensures exists id :: HeldBy(Run(s, steps).rows, id, owner)
    decreases |steps|
  {
    hide RowsNext;
    if steps != [] {
      StepMints(s.rows, steps[0]);
      StepKeepsPasskey(s.rows, steps[0], owner);
      LastPasskeyStays(Next(s, steps[0]), steps[1..], owner);
      assert Run(s, steps) == Run(Next(s, steps[0]), steps[1..]);
    } else {
      assert Run(s, steps) == s;
    }
  }

  lemma StepKeepsPasskey(r: Rows, step: Step, owner: nat)
    requires Minted(r) && !step.RevokeAll? && exists id :: HeldBy(r, id, owner)
    ensures exists id :: HeldBy(RowsNext(r, step), id, owner)
  {
    var id :| HeldBy(r, id, owner);
    CredentialStep(r, step, id);
    if !HeldBy(RowsNext(r, step), id, owner) {
      var other :| other != id && HeldBy(r, other, owner);
      CredentialStep(r, step, other);
      assert HeldBy(RowsNext(r, step), other, owner);
    }
  }

  lemma StepKeepsOwner(r: Rows, step: Step)
    requires r.owner.Some?
    ensures RowsNext(r, step).owner == r.owner
  {
  }

  /** Concurrent enrollments never make a second owner. */
  lemma {:induction false} OneOwner(s: Sys, steps: seq<Step>)
    requires s.rows.owner.Some?
    ensures Run(s, steps).rows.owner == s.rows.owner
    decreases |steps|
  {
    hide RowsNext;
    if steps != [] {
      StepKeepsOwner(s.rows, steps[0]);
      OneOwner(Next(s, steps[0]), steps[1..]);
    }
  }
}

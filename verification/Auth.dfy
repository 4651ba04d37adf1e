/**
 * The refresh-token lifecycle over serial runs of register, login, refresh and logout.  Tokens are
 * opaque fresh values; a chain is a login and the tokens exchanged for one another since.
 */
module Auth {
  type Id = int

  const REFRESH_LIFETIME := 30 * 86_400_000_000

  datatype Option<T> = None | Some(value: T)

  /** A row of `refresh_tokens`; `chain`, the first token of its chain, is there for the proofs. */
  datatype Token = Token(user: Id, expires: int, revoked: Option<int>, chain: Id) {
    predicate Live() { revoked.None? }
  }

  datatype User = User(email: string, password: string, active: bool)

  /** `exchanged` lists the tokens that have been traded for a new pair, in order. */
  datatype Sessions = Sessions(users: map<Id, User>, tokens: map<Id, Token>, exchanged: seq<Id>)

  datatype Outcome = Issued | EmailTaken | BadCredentials | Deactivated | UnknownToken | Reused | Expired | LoggedOut
                   | Changed

  datatype Reply = Reply(sessions: Sessions, outcome: Outcome)

  predicate EmailKnown(users: map<Id, User>, email: string) {
    exists u | u in users :: users[u].email == email
  }

  /** `user` is the account the email belongs to, if it belongs to any. */
  predicate Owns(users: map<Id, User>, user: Id, email: string) {
    EmailKnown(users, email) ==> user in users && users[user].email == email
  }

  function Issue(tokens: map<Id, Token>, token: Id, user: Id, chain: Id, now: int): map<Id, Token> {
    tokens[token := Token(user, now + REFRESH_LIFETIME, None, chain)]
  }

  function Revoke(t: Token, now: int): Token {
    if t.revoked.None? then t.(revoked := Some(now)) else t
  }

  function RevokeAll(tokens: map<Id, Token>, user: Id, now: int): map<Id, Token> {
    map t | t in tokens :: if tokens[t].user == user then Revoke(tokens[t], now) else tokens[t]
  }

  function Register(s: Sessions, user: Id, email: string, password: string, token: Id, now: int): Reply {
    if EmailKnown(s.users, email) then Reply(s, EmailTaken)
    else
      Reply(s.(users := s.users[user := User(email, password, true)],
               tokens := Issue(s.tokens, token, user, token, now)), Issued)
  }

  predicate LoginOf(s: Sessions, user: Id, email: string, password: string) {
    user in s.users && s.users[user].email == email && s.users[user].password == password
  }

  function Refresh(s: Sessions, presented: Id, token: Id, now: int): Reply {
    if presented !in s.tokens then Reply(s, UnknownToken)
    else
      var stored := s.tokens[presented];
      if stored.revoked.Some? then Reply(s.(tokens := RevokeAll(s.tokens, stored.user, now)), Reused)
      else if stored.expires <= now then Reply(s, Expired)
      else if stored.user !in s.users || !s.users[stored.user].active then Reply(s, Deactivated)
      else
        var spent := s.tokens[presented := Revoke(stored, now)];
        Reply(s.(tokens := Issue(spent, token, stored.user, stored.chain, now),
                 exchanged := s.exchanged + [presented]), Issued)
  }

  function Logout(s: Sessions, presented: Id, now: int): Reply {
    if presented !in s.tokens then Reply(s, UnknownToken)
    else Reply(s.(tokens := s.tokens[presented := Revoke(s.tokens[presented], now)]), LoggedOut)
  }

  datatype Request =
    | RegisterRequest(user: Id, email: string, password: string, token: Id, now: int)
      /** `user` is what looking the email up finds. */
    | LoginRequest(user: Id, email: string, password: string, token: Id, now: int)
    | RefreshRequest(presented: Id, token: Id, now: int)
    | LogoutRequest(presented: Id, now: int)
      /** An account is deactivated or let back in. */
    | AccountChange(user: Id, active: bool)

  function Login(s: Sessions, user: Id, email: string, password: string, token: Id, now: int): Reply {
    if !LoginOf(s, user, email, password) then Reply(s, BadCredentials)
    else if !s.users[user].active then Reply(s, Deactivated)
    else Reply(s.(tokens := Issue(s.tokens, token, user, token, now)), Issued)
  }

  function Handle(s: Sessions, r: Request): Reply {
    match r
    case RegisterRequest(user, email, password, token, now) => Register(s, user, email, password, token, now)
    case LoginRequest(user, email, password, token, now) => Login(s, user, email, password, token, now)
    case RefreshRequest(presented, token, now) => Refresh(s, presented, token, now)
    case LogoutRequest(presented, now) => Logout(s, presented, now)
    case AccountChange(user, active) =>
      var changed := if user in s.users then s.users[user := s.users[user].(active := active)] else s.users;
      Reply(s.(users := changed), Changed)
  }

  /** New tokens and accounts get values never used before. */
  predicate Legal(s: Sessions, r: Request) {
    match r
    case RegisterRequest(user, _, _, token, _) => user !in s.users && token !in s.tokens
    case LoginRequest(user, email, _, token, _) => token !in s.tokens && Owns(s.users, user, email)
    case RefreshRequest(_, token, _) => token !in s.tokens
    case _ => true
  }

  function After(s: Sessions, run: seq<Request>): Sessions
    decreases |run|
  {
    if run == [] then s else Handle(After(s, run[..|run| - 1]), run[|run| - 1]).sessions
  }

  predicate LegalRun(s: Sessions, run: seq<Request>) {
    forall k | 0 <= k < |run| :: Legal(After(s, run[..k]), run[k])
  }

  const EMPTY := Sessions(map[], map[], [])

  // ---- the invariant ----

  ghost predicate OneLivePerChain(tokens: map<Id, Token>) {
    forall s, t | s in tokens && t in tokens && tokens[s].Live() && tokens[t].Live() &&
                  tokens[s].chain == tokens[t].chain :: s == t
  }

  ghost predicate ChainsKnown(tokens: map<Id, Token>) {
    forall t {:trigger tokens[t].chain} | t in tokens :: tokens[t].chain in tokens
  }

  ghost predicate Spent(exchanged: seq<Id>, tokens: map<Id, Token>) {
    forall t | t in exchanged :: t in tokens && !tokens[t].Live()
  }

  ghost predicate Distinct(ids: seq<Id>) {
    forall i, j | 0 <= i < j < |ids| :: ids[i] != ids[j]
  }

  ghost predicate ChainOk(tokens: map<Id, Token>) {
    OneLivePerChain(tokens) && ChainsKnown(tokens)
  }

  ghost predicate Invariant(s: Sessions) {
    ChainOk(s.tokens) && Spent(s.exchanged, s.tokens) && Distinct(s.exchanged)
  }

  /** Revoking some tokens, and nothing else. */
  ghost predicate OnlyRevokes(s: map<Id, Token>, t: map<Id, Token>) {
    t.Keys == s.Keys && forall k | k in s :: t[k].chain == s[k].chain && (t[k].Live() ==> s[k].Live())
  }

  lemma RevokingKeeps(s: map<Id, Token>, t: map<Id, Token>, exchanged: seq<Id>)
    requires ChainOk(s) && OnlyRevokes(s, t) && Spent(exchanged, s)
    ensures ChainOk(t) && Spent(exchanged, t)
  {
  }

  lemma ExchangeKeeps(s: Sessions, presented: Id, token: Id, now: int)
    requires Invariant(s) && token !in s.tokens && presented in s.tokens && s.tokens[presented].Live()
    ensures var stored := s.tokens[presented];
            var t := Issue(s.tokens[presented := Revoke(stored, now)], token, stored.user, stored.chain, now);
            Invariant(s.(tokens := t, exchanged := s.exchanged + [presented]))
  {
  }

  lemma RefreshKeeps(s: Sessions, presented: Id, token: Id, now: int)
    requires Invariant(s) && token !in s.tokens
    ensures Invariant(Refresh(s, presented, token, now).sessions)
  {
    if presented in s.tokens {
      if s.tokens[presented].Live() {
        ExchangeKeeps(s, presented, token, now);
      } else {
        RevokingKeeps(s.tokens, RevokeAll(s.tokens, s.tokens[presented].user, now), s.exchanged);
      }
    }
  }

  lemma LogoutKeeps(s: Sessions, presented: Id, now: int)
    requires Invariant(s)
    ensures Invariant(Logout(s, presented, now).sessions)
  {
  }

  lemma LoginKeeps(s: Sessions, user: Id, token: Id, now: int)
    requires Invariant(s) && token !in s.tokens
    ensures Invariant(s.(tokens := Issue(s.tokens, token, user, token, now)))
  {
  }

  lemma HandleKeeps(s: Sessions, r: Request)
    requires Invariant(s) && Legal(s, r)
    ensures Invariant(Handle(s, r).sessions)
  {
    match r
    case RegisterRequest(user, _, _, token, now) => LoginKeeps(s, user, token, now);
    case LoginRequest(user, _, _, token, now) => LoginKeeps(s, user, token, now);
    case RefreshRequest(presented, token, now) => RefreshKeeps(s, presented, token, now);
    case LogoutRequest(presented, now) => LogoutKeeps(s, presented, now);
    case AccountChange(_, _) =>
  }

  lemma LastStep(s: Sessions, run: seq<Request>)
    requires run != [] && LegalRun(s, run)
    ensures LegalRun(s, run[..|run| - 1])
    ensures Legal(After(s, run[..|run| - 1]), run[|run| - 1])
  {
    var before := run[..|run| - 1];
    forall k | 0 <= k < |before| ensures Legal(After(s, before[..k]), before[k]) {
      assert before[..k] == run[..k];
      assert Legal(After(s, run[..k]), run[k]);
    }
  }

  /** Over every serial run from the start: at most one live token a chain, and no token exchanged twice. */
  lemma {:induction false} RunKeeps(run: seq<Request>)
    requires LegalRun(EMPTY, run)
    ensures Invariant(After(EMPTY, run))
    decreases |run|
  {
    if run != [] {
      LastStep(EMPTY, run);
      RunKeeps(run[..|run| - 1]);
      HandleKeeps(After(EMPTY, run[..|run| - 1]), run[|run| - 1]);
    }
  }

  /** A token that was exchanged is never exchanged again: presenting it is answered as reuse, in every later state. */
  lemma ExchangedTokensAreSpent(run: seq<Request>, i: nat, token: Id, now: int)
    requires LegalRun(EMPTY, run) && i < |After(EMPTY, run).exchanged|
    ensures var s := After(EMPTY, run);
            Refresh(s, s.exchanged[i], token, now).outcome == Reused
  {
    RunKeeps(run);
  }

  lemma HandleKeepsRevoked(s: Sessions, r: Request, t: Id)
    requires Legal(s, r) && t in s.tokens && !s.tokens[t].Live()
    ensures t in Handle(s, r).sessions.tokens && Handle(s, r).sessions.tokens[t] == s.tokens[t]
  {
  }

  /** Revocation is never undone, nor even restamped. */
  lemma {:induction false} RevokedForGood(s: Sessions, run: seq<Request>, t: Id)
    requires LegalRun(s, run) && t in s.tokens && !s.tokens[t].Live()
    ensures t in After(s, run).tokens && After(s, run).tokens[t] == s.tokens[t]
    decreases |run|
  {
    if run != [] {
      LastStep(s, run);
      RevokedForGood(s, run[..|run| - 1], t);
      HandleKeepsRevoked(After(s, run[..|run| - 1]), run[|run| - 1], t);
    }
  }

  predicate RefreshIssues(s: Sessions, presented: Id, now: int) {
    && presented in s.tokens && s.tokens[presented].Live() && now < s.tokens[presented].expires
    && s.tokens[presented].user in s.users && s.users[s.tokens[presented].user].active
  }

  /** Presenting a token gives a new pair exactly when it is live, unexpired and its account is active. */
  lemma RefreshIssuesExactlyWhen(s: Sessions, presented: Id, token: Id, now: int)
    requires token !in s.tokens
    ensures var r := Refresh(s, presented, token, now);
            && (r.outcome == Issued <==> RefreshIssues(s, presented, now))
            && (r.outcome == Issued ==>
                && !r.sessions.tokens[presented].Live() && token in r.sessions.tokens && r.sessions.tokens[token].Live()
                && r.sessions.tokens[token].chain == s.tokens[presented].chain
                && r.sessions.tokens[token].user == s.tokens[presented].user)
  {
  }

  /** Presenting a revoked token leaves that user without a live token, and every other user's as they were. */
  lemma ReuseEndsAllSessions(s: Sessions, presented: Id, token: Id, now: int)
    requires presented in s.tokens && !s.tokens[presented].Live()
    ensures var r := Refresh(s, presented, token, now);
            && r.outcome == Reused && r.sessions.tokens.Keys == s.tokens.Keys
            && forall t | t in s.tokens ::
                 if s.tokens[t].user == s.tokens[presented].user then !r.sessions.tokens[t].Live()
                 else r.sessions.tokens[t] == s.tokens[t]
  {
  }

  /** So once a spent token comes back, nobody can refresh for that user until the next login. */
  lemma ReuseLocksOut(s: Sessions, presented: Id, other: Id, token: Id, now: int, later: int)
    requires presented in s.tokens && !s.tokens[presented].Live()
    requires other in s.tokens && s.tokens[other].user == s.tokens[presented].user
    ensures Refresh(Refresh(s, presented, token, now).sessions, other, token, later).outcome == Reused
  {
  }

  // ---- what each request answers and leaves, in the columns of the rows ----

  /** Tokens that were there are as they were, and one more is: live, of this user and chain, good for thirty days. */
  ghost predicate OneMore(s: Sessions, t: Sessions, token: Id, user: Id, chain: Id, now: int) {
    && t.tokens.Keys == s.tokens.Keys + {token}
    && (forall o | o in s.tokens && o != token :: t.tokens[o] == s.tokens[o])
    && t.tokens[token].user == user && t.tokens[token].chain == chain && t.tokens[token].revoked == None
    && t.tokens[token].expires == now + 30 * 24 * 60 * 60 * 1_000_000
  }

  /**
   * A taken email is refused and changes nothing; otherwise the account is there, active, with a session of its
   * own.
   */
  lemma RegisterExactlyWhen(s: Sessions, user: Id, email: string, password: string, token: Id, now: int)
    requires user !in s.users && token !in s.tokens
    ensures var r := Register(s, user, email, password, token, now);
            var taken := exists u | u in s.users :: s.users[u].email == email;
            && (r.outcome == EmailTaken <==> taken) && (r.outcome == Issued <==> !taken)
            && (taken ==> r.sessions == s)
            && (!taken ==> && r.sessions.users == s.users[user := User(email, password, true)]
                           && OneMore(s, r.sessions, token, user, token, now) && r.sessions.exchanged == s.exchanged)
  {
  }

  /** `user` is what looking the email up finds: no account, a wrong password and a deactivated account are refused. */
  lemma LoginExactlyWhen(s: Sessions, user: Id, email: string, password: string, token: Id, now: int)
    requires token !in s.tokens
    requires (exists u | u in s.users :: s.users[u].email == email) ==> user in s.users && s.users[user].email == email
    ensures var r := Login(s, user, email, password, token, now);
            var known := exists u | u in s.users :: s.users[u].email == email;
            && (r.outcome == BadCredentials <==> !known || s.users[user].password != password)
            && (r.outcome == Deactivated <==> known && s.users[user].password == password && !s.users[user].active)
            && (r.outcome == Issued <==> known && s.users[user].password == password && s.users[user].active)
            && r.sessions.users == s.users && r.sessions.exchanged == s.exchanged
            && if r.outcome == Issued then OneMore(s, r.sessions, token, user, token, now) else r.sessions == s
  {
  }

  /** The first refusal that applies; an exchange revokes the one token and adds the other. */
  lemma RefreshExactlyWhen(s: Sessions, presented: Id, token: Id, now: int)
    requires token !in s.tokens
    ensures var r := Refresh(s, presented, token, now);
            && (r.outcome == UnknownToken <==> presented !in s.tokens)
            && (presented in s.tokens ==>
                  var stored := s.tokens[presented];
                  var active := stored.user in s.users && s.users[stored.user].active;
                  && (r.outcome == Reused <==> stored.revoked != None)
                  && (r.outcome == Expired <==> stored.revoked == None && stored.expires <= now)
                  && (r.outcome == Deactivated <==> stored.revoked == None && now < stored.expires && !active)
                  && (r.outcome == Issued <==> stored.revoked == None && now < stored.expires && active)
                  && (r.outcome == Issued ==>
                        && OneMore(s.(tokens := s.tokens[presented := stored.(revoked := Some(now))]),
                                   r.sessions, token, stored.user, stored.chain, now)
                        && r.sessions.exchanged == s.exchanged + [presented]))
            && (r.outcome in {UnknownToken, Expired, Deactivated} ==> r.sessions == s)
            && r.sessions.users == s.users
  {
  }

  /** After a logout the token is dead, and presenting it again counts as reuse; every other token is as it was. */
  lemma LogoutExactlyWhen(s: Sessions, presented: Id, token: Id, now: int, later: int)
    ensures var r := Logout(s, presented, now);
            && (r.outcome == UnknownToken <==> presented !in s.tokens) &&
                  (r.outcome == LoggedOut <==> presented in s.tokens)
            && (presented !in s.tokens ==> r.sessions == s)
            && (presented in s.tokens ==>
                  && r.sessions.users == s.users && r.sessions.exchanged == s.exchanged
                  && r.sessions.tokens.Keys == s.tokens.Keys
                  && (forall t | t in s.tokens && t != presented :: r.sessions.tokens[t] == s.tokens[t])
                  && r.sessions.tokens[presented].revoked ==
                     (if s.tokens[presented].revoked == None then Some(now) else s.tokens[presented].revoked)
                  && Refresh(r.sessions, presented, token, later).outcome == Reused)
  {
  }

  // ---- an exchange whose commit comes later than its read ----

  /** The commit of a refresh that read the token as live and passed its checks, on the sessions as they are by then. */
  function LateExchange(s: Sessions, presented: Id, token: Id, now: int): Sessions
    requires presented in s.tokens
  {
    var stored := s.tokens[presented];
    var spent := s.tokens[presented := stored.(revoked := Some(now))];
    s.(tokens := Issue(spent, token, stored.user, stored.chain, now), exchanged := s.exchanged + [presented])
  }

  /** While the token is still live it is the whole refresh, run at once. */
  lemma PromptExchangeIsSerial(s: Sessions, presented: Id, token: Id, now: int)
    requires RefreshIssues(s, presented, now)
    ensures Refresh(s, presented, token, now) == Reply(LateExchange(s, presented, token, now), Issued)
  {
  }

  /**
   * The chain guarantees outlive a late commit exactly when the token was not exchanged, nor its chain
   * continued, meanwhile.
   */
  lemma LateExchangeKeepsExactlyWhen(s: Sessions, presented: Id, token: Id, now: int)
    requires Invariant(s) && presented in s.tokens && token !in s.tokens
    ensures Invariant(LateExchange(s, presented, token, now)) <==>
            presented !in s.exchanged &&
            forall t | t in s.tokens && t != presented && s.tokens[t].chain == s.tokens[presented].chain ::
                  !s.tokens[t].Live()
  {
    var after := LateExchange(s, presented, token, now);
    var n := |s.exchanged|;
    assert after.exchanged[n] == presented && forall i | 0 <= i < n :: after.exchanged[i] == s.exchanged[i];
    assert Distinct(after.exchanged) <==> presented !in s.exchanged by {
      if presented in s.exchanged {
        var i :| 0 <= i < n && s.exchanged[i] == presented;
        assert after.exchanged[i] == after.exchanged[n];
      }
    }
    assert Spent(after.exchanged, after.tokens);
    assert ChainsKnown(after.tokens);
    if OneLivePerChain(after.tokens) {
      forall t | t in s.tokens && t != presented && s.tokens[t].chain == s.tokens[presented].chain
        ensures !s.tokens[t].Live()
      {
        assert after.tokens[t] == s.tokens[t] && after.tokens[token].Live();
      }
    }
  }

  /**
   * It fails when two refreshes read one token as live: the first commits, then the second, and the chain has two
   * live tokens.  Any state in which the token can be refreshed will do.
   */
  lemma TwoExchangesOfOneToken(s: Sessions, presented: Id, one: Id, two: Id, now: int, later: int)
    requires Invariant(s) && RefreshIssues(s, presented, now) && RefreshIssues(s, presented, later)
    requires one !in s.tokens && two !in s.tokens && one != two
    ensures var t := LateExchange(LateExchange(s, presented, one, now), presented, two, later);
            && one in t.tokens && two in t.tokens && t.tokens[one].Live() && t.tokens[two].Live()
            && t.tokens[one].chain == t.tokens[two].chain == s.tokens[presented].chain && !Invariant(t)
  {
    var t := LateExchange(LateExchange(s, presented, one, now), presented, two, later);
    assert t.tokens[one].Live() && t.tokens[two].Live();
  }

  // ---- app/services/auth.py ----

  class AuthService {
    var users: map<Id, User>
    var tokens: map<Id, Token>
    ghost var exchanged: seq<Id>

    ghost function View(): Sessions
      reads this
    {
      Sessions(users, tokens, exchanged)
    }

    method IssueTokenPair(token: Id, user: Id, chain: Id, now: int)
      modifies this`tokens
      ensures tokens == Issue(old(tokens), token, user, chain, now)
      ensures token in tokens && tokens[token].Live() && tokens[token].user == user && tokens[token].expires > now
      ensures forall t | t in old(tokens) && t != token :: t in tokens && tokens[t] == old(tokens)[t]
    {
      tokens := tokens[token := Token(user, now + REFRESH_LIFETIME, None, chain)];
    }

    method RegisterUser(user: Id, email: string, password: string, token: Id, now: int) returns (o: Outcome)
      requires user !in users && token !in tokens
      modifies this
      ensures Reply(View(), o) == Register(old(View()), user, email, password, token, now)
    {
      if EmailKnown(users, email) {
        return EmailTaken;
      }
      users := users[user := User(email, password, true)];
      IssueTokenPair(token, user, token, now);
      return Issued;
    }

    method LogIn(user: Id, email: string, password: string, token: Id, now: int) returns (o: Outcome)
      requires token !in tokens && Owns(users, user, email)
      modifies this
      ensures Reply(View(), o) == Login(old(View()), user, email, password, token, now)
    {
      if user !in users || users[user].email != email || users[user].password != password {
        return BadCredentials;
      }
      if !users[user].active {
        return Deactivated;
      }
      IssueTokenPair(token, user, token, now);
      return Issued;
    }

    method RefreshToken(presented: Id, token: Id, now: int) returns (o: Outcome)
      requires token !in tokens
      modifies this
      ensures Reply(View(), o) == Refresh(old(View()), presented, token, now)
    {
      if presented !in tokens {
        return UnknownToken;
      }
      var stored := tokens[presented];
      if stored.revoked != None {
        tokens := RevokeAll(tokens, stored.user, now);
        return Reused;
      }
      if stored.expires <= now {
        return Expired;
      }
      if stored.user !in users || !users[stored.user].active {
        return Deactivated;
      }
      tokens := tokens[presented := stored.(revoked := Some(now))];
      exchanged := exchanged + [presented];
      IssueTokenPair(token, stored.user, stored.chain, now);
      return Issued;
    }

    method LogOut(presented: Id, now: int) returns (o: Outcome)
      modifies this
      ensures Reply(View(), o) == Logout(old(View()), presented, now)
    {
      if presented !in tokens {
        return UnknownToken;
      }
      if tokens[presented].revoked == None {
        tokens := tokens[presented := tokens[presented].(revoked := Some(now))];
      }
      return LoggedOut;
    }
  }
}

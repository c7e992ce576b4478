/** Sign-in nonces and refresh tokens under concurrent requests. A request that deletes on use and then inserts
    does so in two statements, between which anything else may run. */
module Sessions {
  const NONCE_SECONDS := 300
  const REFRESH_SECONDS := 604800

  /** A stored refresh token. root is a history variable: the login or wallet link the token descends from. */
  datatype Token = Token(user: nat, expiresAt: int, root: nat)

  /** A request between its delete and its insert. */
  datatype Handler = Passed(nonce: nat) | Rotating(user: nat, root: nat)

  /** The tables, the open requests, and history variables: identifiers generated so far, how often each nonce
      was accepted and each token used, and the user each login was for. */
  datatype State = State(
    nonces: map<nat, int>, tokens: map<nat, Token>, handlers: map<nat, Handler>,
    nonceIds: set<nat>, tokenIds: set<nat>, passed: multiset<nat>, used: multiset<nat>, roots: map<nat, nat>)

  const INIT := State(map[], map[], map[], {}, {}, multiset{}, multiset{}, map[])

  datatype Step =
    | Challenge(nonce: nat, now: real)
    | TakeNonce(h: nat, nonce: nat, now: real)
    | Login(h: nat, root: nat, user: nat, token: nat, now: real)
    | OAuthLogin(root: nat, user: nat, token: nat, now: real)
    | TakeToken(h: nat, token: nat, now: real)
    | Reissue(h: nat, token: nat, now: real)
    | Drop(h: nat)
    | Logout(token: nat)
    | CleanNonces(readAt: real)
    | CleanTokens(readAt: real)

  /** DELETE ... WHERE nonce = n AND created_at > now - 300. */
  predicate NonceLive(nonces: map<nat, int>, n: nat, now: real) {
    n in nonces && nonces[n] as real > now - NONCE_SECONDS as real
  }

  /** DELETE ... WHERE token_hash = t AND expires_at > now. */
  predicate TokenLive(tokens: map<nat, Token>, t: nat, now: real) {
    t in tokens && tokens[t].expiresAt as real > now
  }

  /** created_at is an integer column, so its default is rounded to the nearest second. */
  function Rounded(now: real): int {
    (now + 0.5).Floor
  }

  function NewToken(user: nat, root: nat, now: real): Token {
    Token(user, now.Floor + REFRESH_SECONDS, root)
  }

  function LiveNonces(nonces: map<nat, int>, now: real): map<nat, int> {
    map n | n in nonces && !(nonces[n] < now.Floor - NONCE_SECONDS) :: nonces[n]
  }

  function LiveTokens(tokens: map<nat, Token>, now: real): map<nat, Token> {
    map t | t in tokens && !(tokens[t].expiresAt < now.Floor) :: tokens[t]
  }

  /** Generated nonces and tokens are new; hashes of different tokens differ, so a token stands for its hash. */
  predicate Enabled(s: State, step: Step) {
    match step
    case Challenge(n, _) => n !in s.nonceIds
    case TakeNonce(h, _, _) => h !in s.handlers
    case Login(h, root, _, token, _) =>
      h in s.handlers && s.handlers[h].Passed? && root !in s.roots && token !in s.tokenIds
    case OAuthLogin(root, _, token, _) => root !in s.roots && token !in s.tokenIds
    case TakeToken(h, _, _) => h !in s.handlers
    case Reissue(h, token, _) => h in s.handlers && s.handlers[h].Rotating? && token !in s.tokenIds
    case Drop(h) => h in s.handlers
    case _ => true
  }

  function Apply(s: State, step: Step): State
    requires Enabled(s, step)
  {
    match step
    case Challenge(n, now) => s.(nonces := s.nonces[n := Rounded(now)], nonceIds := s.nonceIds + {n})
    case TakeNonce(h, n, now) =>
      if NonceLive(s.nonces, n, now) then
        s.(nonces := s.nonces - {n}, handlers := s.handlers[h := Passed(n)], passed := s.passed + multiset{n})
      else s
    case Login(h, root, user, token, now) => Start(s.(handlers := s.handlers - {h}), root, user, token, now)
    case OAuthLogin(root, user, token, now) => Start(s, root, user, token, now)
    case TakeToken(h, token, now) =>
      if TokenLive(s.tokens, token, now) then
        s.(tokens := s.tokens - {token}, used := s.used + multiset{token},
           handlers := s.handlers[h := Rotating(s.tokens[token].user, s.tokens[token].root)])
      else s
    case Reissue(h, token, now) =>
      var me := s.handlers[h];
      s.(tokens := s.tokens[token := NewToken(me.user, me.root, now)],
         tokenIds := s.tokenIds + {token}, handlers := s.handlers - {h})
    case Drop(h) => s.(handlers := s.handlers - {h})
    case Logout(token) => s.(tokens := s.tokens - {token})
    case CleanNonces(readAt) => s.(nonces := LiveNonces(s.nonces, readAt))
    case CleanTokens(readAt) => s.(tokens := LiveTokens(s.tokens, readAt))
  }

  function Start(s: State, root: nat, user: nat, token: nat, now: real): State {
    s.(tokens := s.tokens[token := NewToken(user, root, now)],
       tokenIds := s.tokenIds + {token}, roots := s.roots[root := user])
  }

  ghost predicate Legal(s: State, run: seq<Step>)
    decreases |run|
  {
    run == [] || (Enabled(s, run[0]) && Legal(Apply(s, run[0]), run[1..]))
  }

  ghost function Exec(s: State, run: seq<Step>): State
    requires Legal(s, run)
    decreases |run|
  {
    if run == [] then s else Exec(Apply(s, run[0]), run[1..])
  }

  // ---------------------------------------------------------------- invariants

  /** Who carries a session on: a stored token, or a request that is rotating one. */
  datatype Carrier = Stored(t: nat) | InFlight(h: nat)

  predicate Carries(s: State, c: Carrier, root: nat) {
    match c
    case Stored(t) => t in s.tokens && s.tokens[t].root == root
    case InFlight(h) => h in s.handlers && s.handlers[h].Rotating? && s.handlers[h].root == root
  }

  function CarriedUser(s: State, c: Carrier): nat
    requires exists root :: Carries(s, c, root)
  {
    match c
    case Stored(t) => s.tokens[t].user
    case InFlight(h) => s.handlers[h].user
  }

  ghost predicate OneCarrier(s: State) {
    forall c, d, root :: Carries(s, c, root) && Carries(s, d, root) ==> c == d
  }

  ghost predicate CarriersOwned(s: State) {
    forall c, root :: Carries(s, c, root) ==> root in s.roots && CarriedUser(s, c) == s.roots[root]
  }

  ghost predicate Once(s: State) {
    && s.nonces.Keys <= s.nonceIds && s.tokens.Keys <= s.tokenIds
    && (forall n :: n in s.passed ==> s.passed[n] == 1 && n in s.nonceIds && n !in s.nonces)
    && (forall t :: t in s.used ==> s.used[t] == 1 && t in s.tokenIds && t !in s.tokens)
  }

  ghost predicate Inv(s: State) {
    OneCarrier(s) && CarriersOwned(s) && Once(s)
  }

  lemma OnceStep(s: State, step: Step)
    requires Once(s) && Enabled(s, step)
    ensures Once(Apply(s, step))
  {}

  /** Where a carrier of a later state comes from: it was one before, or it took the session over, or it began one. */
  lemma CarrierOrigin(s: State, step: Step, c: Carrier, root: nat)
    requires Once(s) && Enabled(s, step) && Carries(Apply(s, step), c, root)
    ensures var after := Apply(s, step);
            || (Carries(s, c, root) && CarriedUser(after, c) == CarriedUser(s, c))
            || (step.TakeToken? && c == InFlight(step.h) && Carries(s, Stored(step.token), root)
                && !Carries(after, Stored(step.token), root)
                && CarriedUser(after, c) == CarriedUser(s, Stored(step.token)))
            || (step.Reissue? && c == Stored(step.token) && Carries(s, InFlight(step.h), root)
                && !Carries(after, InFlight(step.h), root)
                && CarriedUser(after, c) == CarriedUser(s, InFlight(step.h)))
            || ((step.Login? || step.OAuthLogin?) && c == Stored(step.token) && root == step.root
                && CarriedUser(after, c) == step.user)
  {}

  /** The token the step stores, if it stores one, lives for seven days from the second of its issue. */
  function StoredBy(s: State, step: Step): map<nat, Token>
    requires Enabled(s, step)
  {
    match step
    case Login(_, root, user, token, now) => map[token := Token(user, now.Floor + 604800, root)]
    case OAuthLogin(root, user, token, now) => map[token := Token(user, now.Floor + 604800, root)]
    case Reissue(h, token, now) =>
      map[token := Token(s.handlers[h].user, now.Floor + 604800, s.handlers[h].root)]
    case _ => map[]
  }

  /** A token is stored by a login or the second half of a rotation, and leaves by a use that finds it alive, a logout,
      or a cleanup after its life; nothing else touches it. */
  lemma TokenMoves(s: State, step: Step, t: nat)
    requires Enabled(s, step)
    ensures var after := Apply(s, step).tokens;
            if t in StoredBy(s, step) then t in after && after[t] == StoredBy(s, step)[t]
            else
              && (t in after <==>
                    && t in s.tokens
                    && !(step.TakeToken? && step.token == t && s.tokens[t].expiresAt as real > step.now)
                    && !(step.Logout? && step.token == t)
                    && !(step.CleanTokens? && s.tokens[t].expiresAt < step.readAt.Floor))
              && (t in after ==> after[t] == s.tokens[t])
  {}

  /** A nonce is stored once, at the nearest second, and leaves by a use within five minutes or a cleanup after. */
  lemma NonceMoves(s: State, step: Step, n: nat)
    requires Enabled(s, step)
    ensures var after := Apply(s, step).nonces;
            if step.Challenge? && step.nonce == n then n in after && after[n] == (step.now + 0.5).Floor
            else
              && (n in after <==>
                    && n in s.nonces
                    && !(step.TakeNonce? && step.nonce == n && s.nonces[n] as real > step.now - 300.0)
                    && !(step.CleanNonces? && s.nonces[n] < step.readAt.Floor - 300))
              && (n in after ==> after[n] == s.nonces[n])
  {}

  lemma InvStep(s: State, step: Step)
    requires Inv(s) && Enabled(s, step)
    ensures Inv(Apply(s, step))
  {
    var after := Apply(s, step);
    OnceStep(s, step);
    assert forall r :: r in s.roots ==> r in after.roots && after.roots[r] == s.roots[r];
    forall c, root | Carries(after, c, root) ensures root in after.roots && CarriedUser(after, c) == after.roots[root] {
      CarrierOrigin(s, step, c, root);
    }
    forall c, d, root | Carries(after, c, root) && Carries(after, d, root) ensures c == d {
      CarrierOrigin(s, step, c, root);
      CarrierOrigin(s, step, d, root);
    }
  }

  lemma {:induction false} InvRun(s: State, run: seq<Step>)
    requires Inv(s) && Legal(s, run)
    ensures Inv(Exec(s, run))
    decreases |run|
  {
    if run != [] {
      InvStep(s, run[0]);
      InvRun(Apply(s, run[0]), run[1..]);
    }
  }

  // ---------------------------------------------------------------- what follows

  function Descendants(s: State, root: nat): set<nat> {
    set t | t in s.tokens && s.tokens[t].root == root
  }

  lemma AtMostOneElement(a: set<nat>)
    requires forall x, y :: x in a && y in a ==> x == y
    ensures |a| <= 1
  {
    if a != {} {
      var x :| x in a;
      assert a == {x};
    }
  }

  /** In every interleaving each login has at most one refresh token alive, for its own user, and while a request
      rotates it none at all. */
  lemma OneLiveToken(run: seq<Step>, root: nat)
    requires Legal(INIT, run)
    ensures var s := Exec(INIT, run);
            && |Descendants(s, root)| <= 1
            && (forall t :: t in Descendants(s, root) ==> root in s.roots && s.tokens[t].user == s.roots[root])
            && (forall h :: h in s.handlers && s.handlers[h].Rotating? && s.handlers[h].root == root ==>
                  Descendants(s, root) == {})
  {
    InvRun(INIT, run);
    var s := Exec(INIT, run);
    forall x, y | x in Descendants(s, root) && y in Descendants(s, root) ensures x == y {
      assert Carries(s, Stored(x), root) && Carries(s, Stored(y), root);
    }
    AtMostOneElement(Descendants(s, root));
    forall t | t in Descendants(s, root) ensures root in s.roots && s.tokens[t].user == s.roots[root] {
      assert Carries(s, Stored(t), root);
    }
    forall h, t | h in s.handlers && s.handlers[h].Rotating? && s.handlers[h].root == root && t in Descendants(s, root)
      ensures false
    {
      assert Carries(s, InFlight(h), root) && Carries(s, Stored(t), root);
    }
  }

  /** Each nonce lets at most one verify or link_wallet past its check, and each refresh token is used at most once. */
  lemma UsedOnce(run: seq<Step>, n: nat)
    requires Legal(INIT, run)
    ensures Exec(INIT, run).passed[n] <= 1 && Exec(INIT, run).used[n] <= 1
  {
    InvRun(INIT, run);
  }

  /** The state before step i of a run. */
  ghost function At(s: State, run: seq<Step>, i: nat): State
    requires Legal(s, run) && i <= |run|
    decreases i
  {
    if i == 0 then s else At(Apply(s, run[0]), run[1..], i - 1)
  }

  lemma {:induction false} AtNext(s: State, run: seq<Step>, i: nat)
    requires Legal(s, run) && i < |run|
    ensures Enabled(At(s, run, i), run[i]) && At(s, run, i + 1) == Apply(At(s, run, i), run[i])
    decreases i
  {
    if i > 0 {
      assert run[1..][i - 1] == run[i];
      AtNext(Apply(s, run[0]), run[1..], i - 1);
    }
  }

  lemma {:induction false} InvAt(s: State, run: seq<Step>, i: nat)
    requires Legal(s, run) && Inv(s) && i <= |run|
    ensures Inv(At(s, run, i))
    decreases i
  {
    if i > 0 {
      InvStep(s, run[0]);
      InvAt(Apply(s, run[0]), run[1..], i - 1);
    }
  }

  lemma UsesGrow(s: State, step: Step)
    requires Enabled(s, step)
    ensures s.passed <= Apply(s, step).passed && s.used <= Apply(s, step).used
  {}

  lemma {:induction false} UsesStand(s: State, run: seq<Step>, i: nat, j: nat)
    requires Legal(s, run) && i <= j <= |run|
    ensures At(s, run, i).passed <= At(s, run, j).passed && At(s, run, i).used <= At(s, run, j).used
    decreases j
  {
    if i < j {
      AtNext(s, run, j - 1);
      UsesStand(s, run, i, j - 1);
      UsesGrow(At(s, run, j - 1), run[j - 1]);
    }
  }

  /** Of all the requests of a run that bring a nonce or a token, at most the first that finds it alive gets past: at
      no later step is it there any more. */
  lemma OneUserOfEach(run: seq<Step>, i: nat, j: nat)
    requires Legal(INIT, run) && i < j <= |run|
    ensures var s := At(INIT, run, i);
            match run[i]
            case TakeNonce(_, n, now) =>
              n in s.nonces && s.nonces[n] as real > now - 300.0 ==> n !in At(INIT, run, j).nonces
            case TakeToken(_, t, now) =>
              t in s.tokens && s.tokens[t].expiresAt as real > now ==> t !in At(INIT, run, j).tokens
            case _ => true
  {
    AtNext(INIT, run, i);
    UsesStand(INIT, run, i + 1, j);
    InvAt(INIT, run, j);
    var after := At(INIT, run, i + 1);
    match run[i]
    case TakeNonce(_, n, _) =>
      assert n in after.passed ==> n in At(INIT, run, j).passed;
    case TakeToken(_, t, _) =>
      assert t in after.used ==> t in At(INIT, run, j).used;
    case _ =>
  }

  /** A nonce or token that has been used is refused at every later time. */
  lemma NoReplay(run: seq<Step>, n: nat, now: real)
    requires Legal(INIT, run)
    ensures var s := Exec(INIT, run);
            && (n in s.passed ==> !NonceLive(s.nonces, n, now))
            && (n in s.used ==> !TokenLive(s.tokens, n, now))
  {
    InvRun(INIT, run);
  }
}

/** The authentication tables and the statements of the handlers on them. */
module AuthTables {
  import opened Sessions

  lemma OneStep(s: State, x: Step)
    requires Enabled(s, x)
    ensures Legal(s, [x]) && Exec(s, [x]) == Apply(s, x)
  {
    assert [x][1..] == [];
  }

  lemma TwoSteps(s: State, x: Step, y: Step)
    requires Enabled(s, x) && Enabled(Apply(s, x), y)
    ensures Legal(s, [x, y]) && Exec(s, [x, y]) == Apply(Apply(s, x), y)
  {
    assert [x, y][1..] == [y];
    OneStep(Apply(s, x), y);
  }

  /** A refresh with nothing in between is a run of the protocol. */
  lemma RefreshIsARun(s: State, h: nat, t: nat, fresh_: nat, now: real) returns (run: seq<Step>)
    requires h !in s.handlers && fresh_ !in s.tokenIds
    ensures Legal(s, run) && Exec(s, run).nonces == s.nonces && Exec(s, run).handlers == s.handlers
    ensures Exec(s, run).tokens ==
            if TokenLive(s.tokens, t, now)
            then (s.tokens - {t})[fresh_ := NewToken(s.tokens[t].user, s.tokens[t].root, now)]
            else s.tokens
  {
    var take := TakeToken(h, t, now);
    if TokenLive(s.tokens, t, now) {
      run := [take, Reissue(h, fresh_, now)];
      TwoSteps(s, take, Reissue(h, fresh_, now));
      assert Exec(s, run).handlers == s.handlers;
    } else {
      run := [take];
      OneStep(s, take);
    }
  }

  /** And so is a verify or link_wallet: it fails its nonce check, or is refused for its signature with the nonce
      used up, or signs in. */
  lemma SignInIsARun(s: State, h: nat, n: nat, signed: bool, root: nat, user: nat, token: nat, now: real)
    returns (run: seq<Step>)
    requires h !in s.handlers && root !in s.roots && token !in s.tokenIds
    ensures Legal(s, run) && Exec(s, run).handlers == s.handlers
    ensures var e := Exec(s, run);
            && e.nonces == (if NonceLive(s.nonces, n, now) then s.nonces - {n} else s.nonces)
            && e.tokens == if NonceLive(s.nonces, n, now) && signed then s.tokens[token := NewToken(user, root, now)]
                           else s.tokens
  {
    var take := TakeNonce(h, n, now);
    if NonceLive(s.nonces, n, now) {
      var last := if signed then Login(h, root, user, token, now) else Drop(h);
      run := [take, last];
      TwoSteps(s, take, last);
      assert Exec(s, run).handlers == s.handlers;
    } else {
      run := [take];
      OneStep(s, take);
    }
  }

  /** And so are the two deletions of the keeper, each with its own reading of the clock. */
  lemma CleanupIsARun(s: State, first: real, second: real) returns (run: seq<Step>)
    ensures Legal(s, run)
    ensures Exec(s, run) == s.(nonces := LiveNonces(s.nonces, first), tokens := LiveTokens(s.tokens, second))
  {
    run := [CleanNonces(first), CleanTokens(second)];
    TwoSteps(s, CleanNonces(first), CleanTokens(second));
  }

  class AuthStore {
    var nonces: map<nat, int>
    var tokens: map<nat, Token>

    constructor ()
      ensures nonces == map[] && tokens == map[]
    {
      nonces, tokens := map[], map[];
    }

    /** The nonce column is the primary key. */
    method Challenge(n: nat, now: real) returns (ok: bool)
      modifies this`nonces
      ensures ok <==> n !in old(nonces)
      ensures forall other :: other != n || !ok ==>
                (other in nonces <==> other in old(nonces)) && (other in nonces ==> nonces[other] == old(nonces)[other])
      ensures ok ==> forall later: real ::
                (now <= later < now + 299.0 ==> NonceLive(nonces, n, later))
                && (later >= now + 301.0 ==> !NonceLive(nonces, n, later))
    {
      ok := n !in nonces;
      if ok {
        nonces := nonces[n := Rounded(now)];
      }
    }

    /** Delete on use, shared by verify and link_wallet. */
    method ConsumeNonce(n: nat, now: real) returns (ok: bool)
      modifies this`nonces
      ensures ok <==> n in old(nonces) && old(nonces)[n] as real > now - 300.0
      ensures nonces == if ok then old(nonces) - {n} else old(nonces)
      ensures ok ==> forall later: real :: !NonceLive(nonces, n, later)
    {
      ok := n in nonces && nonces[n] as real > now - NONCE_SECONDS as real;
      if ok {
        nonces := nonces - {n};
      }
    }

    method IssueAndStoreRefreshToken(t: nat, user: nat, root: nat, now: real)
      modifies this`tokens
      ensures tokens == old(tokens)[t := NewToken(user, root, now)]
      ensures tokens[t].user == user && tokens[t].root == root
      ensures forall later: real ::
                (later <= now + 604799.0 ==> TokenLive(tokens, t, later))
                && (later >= now + 604800.0 ==> !TokenLive(tokens, t, later))
    {
      tokens := tokens[t := Token(user, now.Floor + REFRESH_SECONDS, root)];
    }

    /** One rotation with nothing in between: the old token is gone, the new one carries the session on. */
    method Refresh(t: nat, fresh_: nat, now: real) returns (ok: bool)
      requires fresh_ != t
      modifies this`tokens
      ensures ok <==> t in old(tokens) && old(tokens)[t].expiresAt as real > now
      ensures !ok ==> tokens == old(tokens)
      ensures ok ==> && t !in tokens && fresh_ in tokens
                     && tokens[fresh_].user == old(tokens)[t].user && tokens[fresh_].root == old(tokens)[t].root
                     && tokens[fresh_].expiresAt == now.Floor + 604800
                     && tokens - {fresh_} == old(tokens) - {t, fresh_}
    {
      ok := t in tokens && tokens[t].expiresAt as real > now;
      if ok {
        var row := tokens[t];
        tokens := tokens - {t};
        IssueAndStoreRefreshToken(fresh_, row.user, row.root, now);
      }
    }

    method Logout(t: nat)
      modifies this`tokens
      ensures tokens == old(tokens) - {t}
      ensures forall other, later: real ::
                TokenLive(tokens, other, later) <==> other != t && TokenLive(old(tokens), other, later)
    {
      tokens := tokens - {t};
    }

    /** Two statements, each after a reading of the clock. */
    method CleanupExpiredAuthRecords(first: real, second: real)
      modifies this
      ensures nonces == LiveNonces(old(nonces), first) && tokens == LiveTokens(old(tokens), second)
      ensures forall n :: n in nonces <==> n in old(nonces) && old(nonces)[n] >= first.Floor - 300
      ensures forall t :: t in tokens <==> t in old(tokens) && old(tokens)[t].expiresAt >= second.Floor
      ensures forall n, later: real :: later >= first ==>
                (NonceLive(nonces, n, later) <==> NonceLive(old(nonces), n, later))
      ensures forall t, later: real :: later >= second ==>
                (TokenLive(tokens, t, later) <==> TokenLive(old(tokens), t, later))
    {
      nonces := map n | n in nonces && !(nonces[n] < first.Floor - NONCE_SECONDS) :: nonces[n];
      tokens := map t | t in tokens && !(tokens[t].expiresAt < second.Floor) :: tokens[t];
    }
  }
}

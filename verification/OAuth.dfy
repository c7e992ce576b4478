/** Accounts, their OAuth bindings, wallets and e-mail indexes, and the SQL statements by which a login reads and
    writes them, one at a time. */
module IdentityTables {
  import opened Common

  datatype Provider = Google | Microsoft
  /** One row key of auth_oauth: the provider and the id it gives the person. */
  datatype Identity = Identity(provider: Provider, id: string)

  /** contacts holds the keyed hash of the e-mail address, not the address. */
  datatype Tables = Tables(
    accounts: set<nat>, oauth: map<Identity, nat>, contacts: map<nat, nat>, wallets: map<string, nat>)

  /** How far a request has come. */
  datatype Pc =
    | Arrived
    | Looked(found: Option<nat>)
    | Unbound
    | Nobody
    | Chosen(user: nat)
    | Bound(user: nat)
    | Success(user: nat)
    | Refused
    | Error
  {
    predicate Finished() {
      Success? || Refused? || Error?
    }

    predicate HasUser() {
      Chosen? || Bound? || Success?
    }
  }

  datatype Kind =
    | OAuth(identity: Identity, email: nat)
    | Verify(pubkey: string)
    | Link(pubkey: string, caller: nat)

  datatype Request = Request(kind: Kind, pc: Pc)

  /** u signs in through p. */
  predicate Holds(t: Tables, u: nat, p: Provider) {
    exists id | id in t.oauth :: t.oauth[id] == u && id.provider == p
  }

  /** Someone with this e-mail signs in through another provider. */
  predicate Conflict(t: Tables, email: nat, p: Provider) {
    exists id | id in t.oauth :: id.provider != p && t.oauth[id] in t.contacts && t.contacts[t.oauth[id]] == email
  }

  /** The users the lookup by e-mail and provider may return; it takes any one of them. */
  function SameProvider(t: Tables, email: nat, p: Provider): set<nat> {
    set u | u in t.contacts && t.contacts[u] == email && Holds(t, u, p)
  }

  /** Every binding with this provider whose user has the e-mail is found. */
  lemma BindingsAreFound(t: Tables, email: nat, p: Provider)
    ensures forall id ::
              id in t.oauth && id.provider == p && t.oauth[id] in t.contacts && t.contacts[t.oauth[id]] == email ==>
              t.oauth[id] in SameProvider(t, email, p)
  {
    forall id | id in t.oauth && id.provider == p && t.oauth[id] in t.contacts && t.contacts[t.oauth[id]] == email
      ensures t.oauth[id] in SameProvider(t, email, p)
    {
      assert Holds(t, t.oauth[id], p);
    }
  }

  function Lookup<K(==), V>(m: map<K, V>, k: K): Option<V> {
    if k in m then Some(m[k]) else None
  }

  /** The row the database picks, or the id it generates, must be one it can pick or generate. */
  predicate Possible(t: Tables, q: Request, pick: nat) {
    && (q.kind.OAuth? && q.pc.Unbound? && SameProvider(t, q.kind.email, q.kind.identity.provider) != {} ==>
          pick in SameProvider(t, q.kind.email, q.kind.identity.provider))
    && (q.pc.Nobody? ==> pick !in t.accounts)
  }

  /** The next statement of a request, when it succeeds. */
  function Statement(t: Tables, q: Request, pick: nat): (Tables, Pc)
    requires !q.pc.Finished()
  {
    match q.kind
    case OAuth(identity, email) =>
      (match q.pc
       case Arrived => (t, Looked(Lookup(t.oauth, identity)))
       case Looked(found) =>
         if Conflict(t, email, identity.provider) then (t, Refused)
         else (t, if found.Some? then Chosen(found.value) else Unbound)
       case Unbound => (t, if SameProvider(t, email, identity.provider) == {} then Nobody else Chosen(pick))
       case Nobody => (t.(accounts := t.accounts + {pick}), Chosen(pick))
       case Chosen(u) => (t.(oauth := t.oauth[identity := u]), Bound(u))
       case Bound(u) => (t.(contacts := t.contacts[u := email]), Success(u)))
    case Verify(pubkey) =>
      (match q.pc
       case Arrived => (t, if pubkey in t.wallets then Success(t.wallets[pubkey]) else Nobody)
       case Nobody => (t.(accounts := t.accounts + {pick}), Chosen(pick))
       case Chosen(u) => InsertWallet(t, pubkey, u)
       case _ => (t, Error))
    case Link(pubkey, caller) =>
      (match q.pc
       case Arrived => (t, if pubkey in t.wallets then Refused else Chosen(caller))
       case Chosen(u) => InsertWallet(t, pubkey, u)
       case _ => (t, Error))
  }

  /** The wallet is the primary key, and its owner must be an account. */
  function InsertWallet(t: Tables, pubkey: string, u: nat): (Tables, Pc) {
    if pubkey in t.wallets || u !in t.accounts then (t, Error) else (t.(wallets := t.wallets[pubkey := u]), Success(u))
  }

  /** The same with the database's reply: a request whose statement reports an error gives up. */
  function After(t: Tables, q: Request, pick: nat, reply: Reply): (Tables, Request)
    requires !q.pc.Finished()
  {
    var (t1, pc1) := Statement(t, q, pick);
    match reply
    case Done => (t1, q.(pc := pc1))
    case Failed => (t, q.(pc := Error))
    case Lost => (t1, q.(pc := Error))
  }

  /** How many statements may still follow, and the place of the next one in the handler. */
  function Left(pc: Pc): nat {
    match pc
    case Arrived => 6
    case Looked(_) => 5
    case Unbound => 4
    case Nobody => 3
    case Chosen(_) => 2
    case Bound(_) => 1
    case _ => 0
  }

  const STATEMENTS := 6

  /** A request run to its end with nothing in between: picked is the row a lookup returns, created the id of a new
      account, and replies[k] the database's answer to the handler's statement k. */
  function Solo(t: Tables, q: Request, picked: nat, created: nat, replies: seq<Reply>): (Tables, Request)
    requires |replies| == STATEMENTS
    decreases Left(q.pc)
  {
    if q.pc.Finished() then (t, q)
    else
      var (t1, q1) := After(t, q, if q.pc.Nobody? then created else picked, replies[STATEMENTS - Left(q.pc)]);
      Solo(t1, q1, picked, created, replies)
  }

  predicate Fitting(t: Tables, q: Request, picked: nat, created: nat) {
    && (Left(q.pc) >= 3 ==> created !in t.accounts)
    && (q.kind.OAuth? && Left(q.pc) >= 4 && SameProvider(t, q.kind.email, q.kind.identity.provider) != {} ==>
          picked in SameProvider(t, q.kind.email, q.kind.identity.provider))
  }
}

/** Any number of logins whose statements interleave. */
module IdentityProtocol {
  import opened Common
  import opened IdentityTables

  /** home is bookkeeping: the provider through which an account was created. */
  datatype State = State(t: Tables, requests: map<nat, Request>, home: map<nat, Provider>)
  datatype Step = Arrive(r: nat, q: Request) | Next(r: nat, pick: nat, reply: Reply)

  const INIT := State(Tables({}, map[], map[], map[]), map[], map[])

  predicate Enabled(s: State, step: Step) {
    match step
    case Arrive(r, q) => r !in s.requests && q.pc.Arrived?
    case Next(r, pick, _) => r in s.requests && !s.requests[r].pc.Finished() && Possible(s.t, s.requests[r], pick)
  }

  function Apply(s: State, step: Step): State
    requires Enabled(s, step)
  {
    match step
    case Arrive(r, q) => s.(requests := s.requests[r := q])
    case Next(r, pick, reply) =>
      var q := s.requests[r];
      var (t, q1) := After(s.t, q, pick, reply);
      State(t, s.requests[r := q1],
            if q.kind.OAuth? && q.pc.Nobody? && reply.TookEffect() then s.home[pick := q.kind.identity.provider]
            else s.home)
  }

  ghost predicate Legal(s: State, run: seq<Step>)
    decreases |run|
  {
    run == [] || (Enabled(s, run[0]) && Legal(Apply(s, run[0]), run[1..]))
  }

  ghost function Exec(s: State, run: seq<Step>): State
    requires Legal(s, run)
    decreases |run|
  {
    if run == [] then s else Exec(Apply(s, run[0]), run[1..])
  }

  /** What a request may rely on whatever the others do. */
  ghost predicate Sound(s: State, q: Request) {
    match q.kind
    case OAuth(identity, _) =>
      && (q.pc.HasUser() ==> q.pc.user in s.home && s.home[q.pc.user] == identity.provider)
      && (q.pc.Looked? && q.pc.found.Some? ==>
            q.pc.found.value in s.home && s.home[q.pc.found.value] == identity.provider)
    case Verify(pubkey) => q.pc.Success? ==> pubkey in s.t.wallets && s.t.wallets[pubkey] == q.pc.user
    case Link(pubkey, _) => q.pc.Success? ==> pubkey in s.t.wallets && s.t.wallets[pubkey] == q.pc.user
  }

  ghost predicate Inv(s: State) {
    && (forall id :: id in s.t.oauth ==> s.t.oauth[id] in s.home && s.home[s.t.oauth[id]] == id.provider)
    && (forall r :: r in s.requests ==> Sound(s, s.requests[r]))
    && s.home.Keys <= s.t.accounts
    && s.t.contacts.Keys <= s.home.Keys
  }

  lemma PickedIsHome(s: State, u: nat, email: nat, p: Provider)
    requires Inv(s) && u in SameProvider(s.t, email, p)
    ensures u in s.home && s.home[u] == p
  {}

  lemma OnlyGrow(s: State, r: nat, pick: nat, reply: Reply)
    requires Inv(s) && Enabled(s, Next(r, pick, reply))
    ensures var next := Apply(s, Next(r, pick, reply));
            && (forall u :: u in s.home ==> u in next.home && next.home[u] == s.home[u])
            && (forall w :: w in s.t.wallets ==> w in next.t.wallets && next.t.wallets[w] == s.t.wallets[w])
  {}

  /** What the tables gain in bindings and contacts is by a request of the right provider. */
  lemma TablesNext(s: State, r: nat, pick: nat, reply: Reply)
    requires Inv(s) && Enabled(s, Next(r, pick, reply))
    ensures var next := Apply(s, Next(r, pick, reply));
            && (forall id :: id in next.t.oauth ==>
                  next.t.oauth[id] in next.home && next.home[next.t.oauth[id]] == id.provider)
            && next.home.Keys <= next.t.accounts
            && next.t.contacts.Keys <= next.home.Keys
  {
    var q := s.requests[r];
    assert Sound(s, q);
    if q.kind.OAuth? && !q.pc.Nobody? {
      assert Apply(s, Next(r, pick, reply)).home == s.home;
    }
  }

  lemma OwnNext(s: State, r: nat, pick: nat, reply: Reply)
    requires Inv(s) && Enabled(s, Next(r, pick, reply))
    ensures var next := Apply(s, Next(r, pick, reply)); Sound(next, next.requests[r])
  {
    var q := s.requests[r];
    assert Sound(s, q);
    if q.kind.OAuth? && q.pc.Unbound? && SameProvider(s.t, q.kind.email, q.kind.identity.provider) != {} {
      PickedIsHome(s, pick, q.kind.email, q.kind.identity.provider);
    }
  }

  lemma InvNext(s: State, r: nat, pick: nat, reply: Reply)
    requires Inv(s) && Enabled(s, Next(r, pick, reply))
    ensures Inv(Apply(s, Next(r, pick, reply)))
  {
    var next := Apply(s, Next(r, pick, reply));
    OnlyGrow(s, r, pick, reply);
    TablesNext(s, r, pick, reply);
    OwnNext(s, r, pick, reply);
    forall other | other in next.requests && other != r ensures Sound(next, next.requests[other]) {
      assert Sound(s, s.requests[other]);
    }
  }

  lemma {:induction false} InvRun(s: State, run: seq<Step>)
    requires Inv(s) && Legal(s, run)
    ensures Inv(Exec(s, run))
    decreases |run|
  {
    if run != [] {
      if run[0].Next? {
        InvNext(s, run[0].r, run[0].pick, run[0].reply);
      }
      InvRun(Apply(s, run[0]), run[1..]);
    }
  }

  /** In every interleaving, with failures anywhere, all OAuth bindings of an account are with one provider. */
  lemma OneProviderPerUser(run: seq<Step>, a: Identity, b: Identity)
    requires Legal(INIT, run)
    requires var t := Exec(INIT, run).t; a in t.oauth && b in t.oauth && t.oauth[a] == t.oauth[b]
    ensures a.provider == b.provider
  {
    InvRun(INIT, run);
  }

  /** In every interleaving a wallet that has signed in or been linked stands for one account, always the same. */
  lemma WalletIsOneUser(run: seq<Step>, r1: nat, r2: nat)
    requires Legal(INIT, run)
    requires var s := Exec(INIT, run);
             && r1 in s.requests && !s.requests[r1].kind.OAuth?
             && r2 in s.requests && !s.requests[r2].kind.OAuth?
             && s.requests[r1].kind.pubkey == s.requests[r2].kind.pubkey
             && s.requests[r1].pc.Success? && s.requests[r2].pc.Success?
    ensures var s := Exec(INIT, run); s.requests[r1].pc.user == s.requests[r2].pc.user
  {
    InvRun(INIT, run);
    var s := Exec(INIT, run);
    assert Sound(s, s.requests[r1]) && Sound(s, s.requests[r2]);
  }

  // ---------------------------------------------------------------- when simultaneous logins go wrong

  predicate SameEmail(t: Tables, u: nat, v: nat) {
    u in t.contacts && v in t.contacts && t.contacts[u] == t.contacts[v]
  }

  /** No e-mail index is shared by users of different providers. */
  ghost predicate EmailsApart(t: Tables) {
    forall a, b :: a in t.oauth && b in t.oauth && SameEmail(t, t.oauth[a], t.oauth[b]) ==> a.provider == b.provider
  }

  /** Every login that succeeded was for the user its identity is bound to now. */
  ghost predicate SuccessesStand(s: State) {
    forall r :: r in s.requests && s.requests[r].kind.OAuth? && s.requests[r].pc.Success? ==>
      s.requests[r].kind.identity in s.t.oauth && s.t.oauth[s.requests[r].kind.identity] == s.requests[r].pc.user
  }

  /** A write that what the request has read no longer covers: by now someone of another provider has the e-mail
      that the write would make an OAuth user's. */
  predicate StaleWrite(t: Tables, q: Request) {
    q.kind.OAuth? &&
    match q.pc
    case Chosen(u) => u in t.contacts && Conflict(t, t.contacts[u], q.kind.identity.provider)
    case Bound(u) => Holds(t, u, q.kind.identity.provider) && Conflict(t, q.kind.email, q.kind.identity.provider)
    case _ => false
  }

  predicate WritesFresh(s: State, step: Step)
    requires Enabled(s, step)
  {
    step.Next? && step.reply.TookEffect() ==> !StaleWrite(s.t, s.requests[step.r])
  }

  lemma BindKeepsApartIff(s: State, q: Request, pick: nat)
    requires Inv(s) && EmailsApart(s.t) && q.kind.OAuth? && q.pc.Chosen? && Sound(s, q)
    ensures EmailsApart(Statement(s.t, q, pick).0) <==> !StaleWrite(s.t, q)
  {
    var t, u, p := s.t, q.pc.user, q.kind.identity.provider;
    var t1 := Statement(t, q, pick).0;
    if StaleWrite(t, q) {
      var id :| id in t.oauth && id.provider != p && t.oauth[id] in t.contacts
                && t.contacts[t.oauth[id]] == t.contacts[u];
      assert SameEmail(t1, t1.oauth[id], t1.oauth[q.kind.identity]);
    } else {
      forall a, b | a in t1.oauth && b in t1.oauth && SameEmail(t1, t1.oauth[a], t1.oauth[b])
        ensures a.provider == b.provider
      {
        assert a != q.kind.identity ==> a in t.oauth && t1.oauth[a] == t.oauth[a];
        assert b != q.kind.identity ==> b in t.oauth && t1.oauth[b] == t.oauth[b];
      }
    }
  }

  lemma ContactKeepsApartIff(s: State, q: Request, pick: nat)
    requires Inv(s) && EmailsApart(s.t) && q.kind.OAuth? && q.pc.Bound? && Sound(s, q)
    ensures EmailsApart(Statement(s.t, q, pick).0) <==> !StaleWrite(s.t, q)
  {
    var t, u, p := s.t, q.pc.user, q.kind.identity.provider;
    var t1 := Statement(t, q, pick).0;
    if StaleWrite(t, q) {
      var id :| id in t.oauth && id.provider != p && t.oauth[id] in t.contacts
                && t.contacts[t.oauth[id]] == q.kind.email;
      var own :| own in t.oauth && t.oauth[own] == u && own.provider == p;
      assert SameEmail(t1, t1.oauth[id], t1.oauth[own]);
    } else {
      forall a, b | a in t1.oauth && b in t1.oauth && SameEmail(t1, t1.oauth[a], t1.oauth[b])
        ensures a.provider == b.provider
      {
        assert t.oauth[a] == u ==> a.provider == p;
        assert t.oauth[b] == u ==> b.provider == p;
      }
    }
  }

  lemma ApartStepIff(s: State, step: Step)
    requires Inv(s) && EmailsApart(s.t) && Enabled(s, step)
    ensures EmailsApart(Apply(s, step).t) <==> WritesFresh(s, step)
  {
    if step.Next? {
      var q := s.requests[step.r];
      assert Sound(s, q);
      if q.kind.OAuth? && q.pc.Chosen? {
        BindKeepsApartIff(s, q, step.pick);
      } else if q.kind.OAuth? && q.pc.Bound? {
        ContactKeepsApartIff(s, q, step.pick);
      }
    }
  }

  ghost predicate FreshThroughout(s: State, run: seq<Step>)
    requires Legal(s, run)
    decreases |run|
  {
    run == [] || (WritesFresh(s, run[0]) && FreshThroughout(Apply(s, run[0]), run[1..]))
  }

  ghost predicate ApartThroughout(s: State, run: seq<Step>)
    requires Legal(s, run)
    decreases |run|
  {
    EmailsApart(s.t) && (run == [] || ApartThroughout(Apply(s, run[0]), run[1..]))
  }

  lemma {:induction false} ApartRunIff(s: State, run: seq<Step>)
    requires Inv(s) && EmailsApart(s.t) && Legal(s, run)
    ensures ApartThroughout(s, run) <==> FreshThroughout(s, run)
    decreases |run|
  {
    if run != [] {
      var next := Apply(s, run[0]);
      ApartStepIff(s, run[0]);
      if run[0].Next? {
        InvNext(s, run[0].r, run[0].pick, run[0].reply);
      }
      if EmailsApart(next.t) {
        ApartRunIff(next, run[1..]);
      } else {
        assert !ApartThroughout(next, run[1..]);
      }
    }
  }

  /** However the statements of any number of logins interleave, e-mails stay within one provider throughout exactly
      when no write of the run is stale. */
  lemma EmailsApartIff(run: seq<Step>)
    requires Legal(INIT, run)
    ensures ApartThroughout(INIT, run) <==> FreshThroughout(INIT, run)
  {
    ApartRunIff(INIT, run);
  }

  /** The step rebinds the identity of a login that completed for another user, or completes a login whose own
      binding has been overwritten. */
  ghost predicate Displaces(s: State, step: Step)
    requires Enabled(s, step)
  {
    step.Next? && s.requests[step.r].kind.OAuth? &&
    var q := s.requests[step.r];
    match q.pc
    case Chosen(u) =>
      step.reply.TookEffect() &&
      exists v :: v in s.requests && s.requests[v].kind.OAuth? && s.requests[v].pc.Success?
                  && s.requests[v].kind.identity == q.kind.identity && s.requests[v].pc.user != u
    case Bound(u) => step.reply.Done? && !(q.kind.identity in s.t.oauth && s.t.oauth[q.kind.identity] == u)
    case _ => false
  }

  lemma StandStepIff(s: State, step: Step)
    requires SuccessesStand(s) && Enabled(s, step)
    ensures SuccessesStand(Apply(s, step)) <==> !Displaces(s, step)
  {
    var next := Apply(s, step);
    if Displaces(s, step) && s.requests[step.r].pc.Chosen? {
      var q := s.requests[step.r];
      var v :| v in s.requests && s.requests[v].kind.OAuth? && s.requests[v].pc.Success?
               && s.requests[v].kind.identity == q.kind.identity && s.requests[v].pc.user != q.pc.user;
      assert next.requests[v] == s.requests[v];
    } else if Displaces(s, step) {
      assert next.requests[step.r].pc.Success?;
    } else {
      forall r | r in next.requests && next.requests[r].kind.OAuth? && next.requests[r].pc.Success?
        ensures next.requests[r].kind.identity in next.t.oauth
                && next.t.oauth[next.requests[r].kind.identity] == next.requests[r].pc.user
      {
        assert r in s.requests;
        assert (step.Next? && r == step.r) || next.requests[r] == s.requests[r];
      }
    }
  }

  ghost predicate NoneDisplaced(s: State, run: seq<Step>)
    requires Legal(s, run)
    decreases |run|
  {
    run == [] || (!Displaces(s, run[0]) && NoneDisplaced(Apply(s, run[0]), run[1..]))
  }

  ghost predicate StandThroughout(s: State, run: seq<Step>)
    requires Legal(s, run)
    decreases |run|
  {
    SuccessesStand(s) && (run == [] || StandThroughout(Apply(s, run[0]), run[1..]))
  }

  lemma {:induction false} StandRunIff(s: State, run: seq<Step>)
    requires SuccessesStand(s) && Legal(s, run)
    ensures StandThroughout(s, run) <==> NoneDisplaced(s, run)
    ensures NoneDisplaced(s, run) ==> SuccessesStand(Exec(s, run))
    decreases |run|
  {
    if run != [] {
      var next := Apply(s, run[0]);
      StandStepIff(s, run[0]);
      if SuccessesStand(next) {
        StandRunIff(next, run[1..]);
      } else {
        assert !StandThroughout(next, run[1..]);
      }
    }
  }

  /** Every completed login keeps standing for the user its identity is bound to, throughout a run, exactly when no
      login of the run displaces another; and then all completed logins of an identity are for one user. */
  lemma LoginsStandIff(run: seq<Step>)
    requires Legal(INIT, run)
    ensures StandThroughout(INIT, run) <==> NoneDisplaced(INIT, run)
    ensures NoneDisplaced(INIT, run) ==> OneUserPerIdentity(Exec(INIT, run))
  {
    StandRunIff(INIT, run);
  }

  ghost predicate OneUserPerIdentity(s: State) {
    forall r1, r2 :: r1 in s.requests && r2 in s.requests && Completed(s.requests[r1]) && Completed(s.requests[r2])
                     && s.requests[r1].kind.identity == s.requests[r2].kind.identity
                     ==> s.requests[r1].pc.user == s.requests[r2].pc.user
  }

  predicate Completed(q: Request) {
    q.kind.OAuth? && q.pc.Success?
  }

  // ---------------------------------------------------------------- requests one at a time

  /** Only the request that arrived last runs; one that is left unfinished has been given up. */
  ghost predicate Serial(run: seq<Step>, current: Option<nat>)
    decreases |run|
  {
    run == [] ||
    (match run[0]
     case Arrive(r, _) => Serial(run[1..], Some(r))
     case Next(r, _, _) => current == Some(r) && Serial(run[1..], current))
  }

  /** What the running request may rely on when nobody else runs. */
  ghost predicate Consistent(t: Tables, q: Request) {
    q.kind.OAuth? ==>
      match q.pc
      case Looked(found) => found == Lookup(t.oauth, q.kind.identity)
      case Unbound => q.kind.identity !in t.oauth && !Conflict(t, q.kind.email, q.kind.identity.provider)
      case Nobody => q.kind.identity !in t.oauth && !Conflict(t, q.kind.email, q.kind.identity.provider)
      case Chosen(u) =>
        && (q.kind.identity in t.oauth ==> t.oauth[q.kind.identity] == u)
        && !Conflict(t, q.kind.email, q.kind.identity.provider)
        && (u in t.contacts ==> Holds(t, u, q.kind.identity.provider))
      case Bound(u) =>
        && q.kind.identity in t.oauth && t.oauth[q.kind.identity] == u
        && !Conflict(t, q.kind.email, q.kind.identity.provider)
      case _ => true
  }

  ghost predicate SerialInv(s: State, current: Option<nat>) {
    && Inv(s) && EmailsApart(s.t) && SuccessesStand(s)
    && (current.Some? ==> current.value in s.requests && Consistent(s.t, s.requests[current.value]))
  }

  /** Bindings are only added. */
  ghost predicate Extends(t: Tables, t1: Tables) {
    forall id :: id in t.oauth ==> id in t1.oauth && t1.oauth[id] == t.oauth[id]
  }

  lemma ReadingStep(s: State, r: nat, pick: nat)
    requires SerialInv(s, Some(r)) && Enabled(s, Next(r, pick, Done)) && s.requests[r].kind.OAuth?
    requires s.requests[r].pc.Arrived? || s.requests[r].pc.Looked? || s.requests[r].pc.Unbound?
    ensures var next := Apply(s, Next(r, pick, Done)); next.t == s.t && Consistent(s.t, next.requests[r])
  {
    var q := s.requests[r];
    if q.pc.Looked? && q.pc.found.Some? {
      assert Holds(s.t, q.pc.found.value, q.kind.identity.provider);
    }
  }

  lemma CreatingStep(t: Tables, q: Request, pick: nat)
    requires q.kind.OAuth? && q.pc.Nobody? && Consistent(t, q) && EmailsApart(t) && pick !in t.contacts
    ensures var (t1, pc1) := Statement(t, q, pick);
            Consistent(t1, q.(pc := pc1)) && EmailsApart(t1) && Extends(t, t1)
  {}

  lemma BindingStep(s: State, q: Request, pick: nat)
    requires Inv(s) && EmailsApart(s.t) && q.kind.OAuth? && q.pc.Chosen? && Consistent(s.t, q)
    ensures var (t1, pc1) := Statement(s.t, q, pick);
            Consistent(t1, q.(pc := pc1)) && EmailsApart(t1) && Extends(s.t, t1)
  {
    var t, u := s.t, q.pc.user;
    var t1 := Statement(t, q, pick).0;
    assert !Conflict(t1, q.kind.email, q.kind.identity.provider);
    forall a, b | a in t1.oauth && b in t1.oauth && SameEmail(t1, t1.oauth[a], t1.oauth[b])
      ensures a.provider == b.provider
    {
      if a == q.kind.identity || b == q.kind.identity {
        var id :| id in t.oauth && t.oauth[id] == u && id.provider == q.kind.identity.provider;
        assert (if a == q.kind.identity then id else a) in t.oauth;
        assert (if b == q.kind.identity then id else b) in t.oauth;
      }
    }
  }

  lemma ContactStep(s: State, q: Request, pick: nat)
    requires Inv(s) && EmailsApart(s.t) && q.kind.OAuth? && q.pc.Bound? && Consistent(s.t, q)
    ensures var t1 := Statement(s.t, q, pick).0;
            EmailsApart(t1) && Extends(s.t, t1) && q.kind.identity in t1.oauth && t1.oauth[q.kind.identity] == q.pc.user
  {
    var t1 := Statement(s.t, q, pick).0;
    forall a, b | a in t1.oauth && b in t1.oauth && SameEmail(t1, t1.oauth[a], t1.oauth[b])
      ensures a.provider == b.provider
    {
      assert t1.oauth[a] == q.pc.user ==> a.provider == q.kind.identity.provider;
      assert t1.oauth[b] == q.pc.user ==> b.provider == q.kind.identity.provider;
    }
  }

  /** One statement of the only running request, whatever the database replies. */
  lemma StatementKeeps(s: State, r: nat, pick: nat)
    requires SerialInv(s, Some(r)) && Enabled(s, Next(r, pick, Done))
    ensures var q := s.requests[r];
            var (t1, pc1) := Statement(s.t, q, pick);
            && Consistent(t1, q.(pc := pc1)) && EmailsApart(t1) && Extends(s.t, t1)
            && (q.kind.OAuth? && pc1.Success? ==> q.kind.identity in t1.oauth && t1.oauth[q.kind.identity] == pc1.user)
  {
    var q := s.requests[r];
    if q.kind.OAuth? {
      match q.pc
      case Nobody => CreatingStep(s.t, q, pick);
      case Chosen(_) => BindingStep(s, q, pick);
      case Bound(_) => ContactStep(s, q, pick);
      case _ => ReadingStep(s, r, pick);
    }
  }

  lemma SerialNext(s: State, r: nat, pick: nat, reply: Reply)
    requires SerialInv(s, Some(r)) && Enabled(s, Next(r, pick, reply))
    ensures var next := Apply(s, Next(r, pick, reply)); SerialInv(next, Some(r)) && Extends(s.t, next.t)
  {
    InvNext(s, r, pick, reply);
    assert Enabled(s, Next(r, pick, Done));
    StatementKeeps(s, r, pick);
  }

  /** Requests handled one at a time make no stale write and displace no login, and only add bindings. */
  lemma {:induction false} SerialRun(s: State, current: Option<nat>, run: seq<Step>)
    requires SerialInv(s, current) && Legal(s, run) && Serial(run, current)
    ensures FreshThroughout(s, run) && NoneDisplaced(s, run) && Extends(s.t, Exec(s, run).t)
    ensures EmailsApart(Exec(s, run).t)
    decreases |run|
  {
    if run != [] {
      match run[0]
      case Arrive(r, q) => SerialRun(Apply(s, run[0]), Some(r), run[1..]);
      case Next(r, pick, reply) =>
        SerialNext(s, r, pick, reply);
        ApartStepIff(s, run[0]);
        StandStepIff(s, run[0]);
        SerialRun(Apply(s, run[0]), current, run[1..]);
    }
  }

  /** Handled one at a time, with failures anywhere, no e-mail index is shared across providers. */
  lemma SerialEmailsApart(run: seq<Step>)
    requires Legal(INIT, run) && Serial(run, None)
    ensures FreshThroughout(INIT, run) && EmailsApart(Exec(INIT, run).t)
  {
    SerialRun(INIT, None, run);
  }

  /** Handled one at a time, two logins of the same identity that both succeed are for the same user. */
  lemma SerialLoginsAgree(run: seq<Step>)
    requires Legal(INIT, run) && Serial(run, None)
    ensures NoneDisplaced(INIT, run) && OneUserPerIdentity(Exec(INIT, run))
  {
    SerialRun(INIT, None, run);
    LoginsStandIff(run);
  }

  // ---------------------------------------------------------------- two logins at once

  function Thrice(r: nat): seq<Step> {
    [Next(r, r, Done), Next(r, r, Done), Next(r, r, Done)]
  }

  function BothLook(a: Identity, b: Identity, email: nat): seq<Step> {
    [Arrive(1, Request(OAuth(a, email), Arrived)), Arrive(2, Request(OAuth(b, email), Arrived))] + Thrice(1) + Thrice(2)
  }

  /** Two first logins with one e-mail: both look before either writes. */
  function TwoAtOnce(a: Identity, b: Identity, email: nat): seq<Step> {
    BothLook(a, b, email) + Thrice(1) + Thrice(2)
  }

  lemma {:induction false} LegalJoin(s: State, run1: seq<Step>, run2: seq<Step>)
    requires Legal(s, run1) && Legal(Exec(s, run1), run2)
    ensures Legal(s, run1 + run2) && Exec(s, run1 + run2) == Exec(Exec(s, run1), run2)
    decreases |run1|
  {
    if run1 == [] {
      assert run1 + run2 == run2;
    } else {
      assert (run1 + run2)[1..] == run1[1..] + run2;
      LegalJoin(Apply(s, run1[0]), run1[1..], run2);
    }
  }

  lemma Three(s: State, x: Step, y: Step, z: Step, s1: State, s2: State, s3: State)
    requires Enabled(s, x) && Apply(s, x) == s1
    requires Enabled(s1, y) && Apply(s1, y) == s2
    requires Enabled(s2, z) && Apply(s2, z) == s3
    ensures Legal(s, [x, y, z]) && Exec(s, [x, y, z]) == s3
  {
    assert [x, y, z][1..] == [y, z] && [y, z][1..] == [z] && [z][1..] == [];
    assert Legal(s2, [z]) && Exec(s2, [z]) == Exec(s3, []);
    assert Legal(s1, [y, z]) && Exec(s1, [y, z]) == s3;
  }

  lemma Two(s: State, x: Step, y: Step, s1: State, s2: State)
    requires Enabled(s, x) && Apply(s, x) == s1
    requires Enabled(s1, y) && Apply(s1, y) == s2
    ensures Legal(s, [x, y]) && Exec(s, [x, y]) == s2
  {
    assert [x, y][1..] == [y] && [y][1..] == [];
    assert Legal(s1, [y]) && Exec(s1, [y]) == Exec(s2, []);
  }

  /** A request that finds nothing goes on to create an account. */
  lemma LooksInVain(s: State, r: nat, pick: nat)
    requires r in s.requests && s.requests[r].kind.OAuth? && s.requests[r].pc.Arrived? && s.t.oauth == map[]
    ensures var run := [Next(r, pick, Done), Next(r, pick, Done), Next(r, pick, Done)];
            Legal(s, run) && Exec(s, run) == s.(requests := s.requests[r := s.requests[r].(pc := Nobody)])
  {
    var q := s.requests[r];
    var n := Next(r, pick, Done);
    var s1 := s.(requests := s.requests[r := q.(pc := Looked(None))]);
    var s2 := s.(requests := s.requests[r := q.(pc := Unbound)]);
    var s3 := s.(requests := s.requests[r := q.(pc := Nobody)]);
    assert Apply(s, n).requests == s1.requests;
    assert Apply(s1, n).requests == s2.requests;
    assert SameProvider(s.t, q.kind.email, q.kind.identity.provider) == {};
    assert Apply(s2, n).requests == s3.requests;
    Three(s, n, n, n, s1, s2, s3);
  }

  lemma Creates(s: State, r: nat, pick: nat)
    requires r in s.requests && s.requests[r].kind.OAuth? && s.requests[r].pc.Nobody? && pick !in s.t.accounts
    ensures var q := s.requests[r];
            var run := [Next(r, pick, Done), Next(r, pick, Done), Next(r, pick, Done)];
            && Legal(s, run)
            && Exec(s, run) == State(
                 Tables(s.t.accounts + {pick}, s.t.oauth[q.kind.identity := pick],
                        s.t.contacts[pick := q.kind.email], s.t.wallets),
                 s.requests[r := q.(pc := Success(pick))], s.home[pick := q.kind.identity.provider])
  {
    var q := s.requests[r];
    var n := Next(r, pick, Done);
    var home := s.home[pick := q.kind.identity.provider];
    var t1 := s.t.(accounts := s.t.accounts + {pick});
    var t2 := t1.(oauth := t1.oauth[q.kind.identity := pick]);
    var t3 := t2.(contacts := t2.contacts[pick := q.kind.email]);
    var s1 := State(t1, s.requests[r := q.(pc := Chosen(pick))], home);
    var s2 := State(t2, s.requests[r := q.(pc := Bound(pick))], home);
    var s3 := State(t3, s.requests[r := q.(pc := Success(pick))], home);
    assert Apply(s1, n).requests == s2.requests;
    assert Apply(s2, n).requests == s3.requests;
    Three(s, n, n, n, s1, s2, s3);
  }

  lemma BothLookEnds(a: Identity, b: Identity, email: nat)
    ensures Legal(INIT, BothLook(a, b, email))
    ensures Exec(INIT, BothLook(a, b, email))
            == INIT.(requests := map[1 := Request(OAuth(a, email), Nobody), 2 := Request(OAuth(b, email), Nobody)])
  {
    var q1, q2 := Request(OAuth(a, email), Arrived), Request(OAuth(b, email), Arrived);
    var s0 := INIT.(requests := map[1 := q1, 2 := q2]);
    Two(INIT, Arrive(1, q1), Arrive(2, q2), INIT.(requests := map[1 := q1]), s0) by {
      assert map[1 := q1][2 := q2] == map[1 := q1, 2 := q2];
    }
    LooksInVain(s0, 1, 1);
    var s1 := Exec(s0, Thrice(1));
    LooksInVain(s1, 2, 2);
    assert Exec(s1, Thrice(2)).requests == map[1 := q1.(pc := Nobody), 2 := q2.(pc := Nobody)];
    LegalJoin(INIT, [Arrive(1, q1), Arrive(2, q2)], Thrice(1));
    LegalJoin(INIT, [Arrive(1, q1), Arrive(2, q2)] + Thrice(1), Thrice(2));
  }

  lemma TwoAtOnceEnds(a: Identity, b: Identity, email: nat)
    ensures Legal(INIT, TwoAtOnce(a, b, email))
    ensures var s := Exec(INIT, TwoAtOnce(a, b, email));
            && s.requests == map[1 := Request(OAuth(a, email), Success(1)), 2 := Request(OAuth(b, email), Success(2))]
            && s.t.oauth == map[a := 1][b := 2]
            && s.t.contacts == map[1 := email, 2 := email]
  {
    BothLookEnds(a, b, email);
    var s2 := Exec(INIT, BothLook(a, b, email));
    Creates(s2, 1, 1);
    var s3 := Exec(s2, Thrice(1));
    Creates(s3, 2, 2);
    LegalJoin(INIT, BothLook(a, b, email), Thrice(1));
    LegalJoin(INIT, BothLook(a, b, email) + Thrice(1), Thrice(2));
    var s := Exec(s3, Thrice(2));
    assert s.requests == map[1 := Request(OAuth(a, email), Success(1)), 2 := Request(OAuth(b, email), Success(2))];
    assert s.t.oauth == map[a := 1][b := 2];
    assert s.t.contacts == map[1 := email, 2 := email];
  }

  /** Two simultaneous first logins with one e-mail through both providers leave it shared. */
  lemma SimultaneousLoginsShareEmail(x: string, y: string, email: nat)
    ensures var run := TwoAtOnce(Identity(Google, x), Identity(Microsoft, y), email);
            Legal(INIT, run) && !EmailsApart(Exec(INIT, run).t)
  {
    var a, b := Identity(Google, x), Identity(Microsoft, y);
    TwoAtOnceEnds(a, b, email);
    var t := Exec(INIT, TwoAtOnce(a, b, email)).t;
    assert a in t.oauth && b in t.oauth;
  }

  /** Two simultaneous first logins of one identity both succeed, for different users, and the first one's account
      can never be reached by that identity again. */
  lemma SimultaneousLoginsDisagree(a: Identity, email: nat)
    ensures var run := TwoAtOnce(a, a, email);
            && Legal(INIT, run)
            && Exec(INIT, run).requests
               == map[1 := Request(OAuth(a, email), Success(1)), 2 := Request(OAuth(a, email), Success(2))]
            && Exec(INIT, run).t.oauth == map[a := 2]
  {
    TwoAtOnceEnds(a, a, email);
  }
}

/** The handlers as they act on the tables. */
module IdentityHandlers {
  import opened Common
  import opened IdentityTables
  import opened IdentityProtocol

  /** A handler that nobody interrupts is a serial run of the protocol. */
  lemma {:induction false} SoloIsARun(s: State, r: nat, picked: nat, created: nat, replies: seq<Reply>)
    returns (run: seq<Step>)
    requires r in s.requests && |replies| == STATEMENTS && Fitting(s.t, s.requests[r], picked, created)
    ensures Legal(s, run) && Serial(run, Some(r))
    ensures r in Exec(s, run).requests
            && (Exec(s, run).t, Exec(s, run).requests[r]) == Solo(s.t, s.requests[r], picked, created, replies)
    decreases Left(s.requests[r].pc)
  {
    var q := s.requests[r];
    if q.pc.Finished() {
      run := [];
    } else {
      var step := Next(r, if q.pc.Nobody? then created else picked, replies[STATEMENTS - Left(q.pc)]);
      var rest := SoloIsARun(Apply(s, step), r, picked, created, replies);
      run := [step] + rest;
      assert run[1..] == rest;
    }
  }

  /** One statement of an uninterrupted request; after an error nothing follows. */
  lemma SoloStep(t: Tables, q: Request, picked: nat, created: nat, replies: seq<Reply>)
    requires |replies| == STATEMENTS && !q.pc.Finished()
    ensures var reply := replies[STATEMENTS - Left(q.pc)];
            var (t1, q1) := After(t, q, if q.pc.Nobody? then created else picked, reply);
            && Solo(t, q, picked, created, replies) == Solo(t1, q1, picked, created, replies)
            && (!reply.Done? ==> Solo(t, q, picked, created, replies) == (t1, q.(pc := Error)))
  {}

  class IdentityStore {
    var accounts: set<nat>
    var oauth: map<Identity, nat>
    var contacts: map<nat, nat>
    var wallets: map<string, nat>

    constructor ()
      ensures Now() == INIT.t
    {
      accounts, oauth, contacts, wallets := {}, map[], map[], map[];
    }

    function Now(): Tables
      reads this
    {
      Tables(accounts, oauth, contacts, wallets)
    }

    method ResolveOrCreateOauthUser(identity: Identity, email: nat, picked: nat, created: nat, replies: seq<Reply>)
      returns (outcome: Pc)
      requires |replies| == STATEMENTS && created !in accounts
      requires var users := SameProvider(Now(), email, identity.provider); users == {} || picked in users
      modifies this
      ensures (Now(), Request(OAuth(identity, email), outcome))
              == old(Solo(Now(), Request(OAuth(identity, email), Arrived), picked, created, replies))
      ensures outcome.Refused? || outcome.Success? || outcome == Error
      ensures outcome.Refused? <==>
                && replies[0] == Done && replies[1] == Done
                && exists other :: other in old(oauth) && other.provider != identity.provider
                                   && old(oauth)[other] in old(contacts) && old(contacts)[old(oauth)[other]] == email
      ensures (forall k :: 0 <= k < STATEMENTS ==> replies[k] == Done) ==> outcome.Refused? || outcome.Success?
      ensures outcome.Success? ==>
                && (forall k :: 0 <= k < STATEMENTS && replies[k] != Done ==>
                      k == 3 || (k == 2 && identity in old(oauth)))
                && oauth == old(oauth)[identity := outcome.user] && contacts == old(contacts)[outcome.user := email]
      ensures outcome.Success? && identity in old(oauth) ==>
                outcome.user == old(oauth)[identity] && accounts == old(accounts)
      ensures outcome.Success? && identity !in old(oauth) ==>
                var u := outcome.user;
                || (&& u in old(contacts) && old(contacts)[u] == email && accounts == old(accounts)
                    && exists id :: id in old(oauth) && id.provider == identity.provider && old(oauth)[id] == u)
                || (&& u == created && accounts == old(accounts) + {created} && replies[3] == Done
                    && forall id :: id in old(oauth) && id.provider == identity.provider ==>
                         !(old(oauth)[id] in old(contacts) && old(contacts)[old(oauth)[id]] == email))
      ensures outcome.Refused? ==> Now() == old(Now())
      ensures wallets == old(wallets)
    {
      ghost var k := OAuth(identity, email);
      SoloStep(Now(), Request(k, Arrived), picked, created, replies);
      if !replies[0].Done? {
        return Error;
      }
      var found := Lookup(oauth, identity);
      SoloStep(Now(), Request(k, Looked(found)), picked, created, replies);
      if !replies[1].Done? {
        return Error;
      }
      if Conflict(Now(), email, identity.provider) {
        return Refused;
      }
      outcome := if found.Some? then Chosen(found.value) else Unbound;
      if found.None? {
        BindingsAreFound(Now(), email, identity.provider);
        outcome := FindOrCreateUser(identity, email, picked, created, replies);
      }
      if outcome.Chosen? {
        outcome := BindIdentity(identity, email, outcome.user, picked, created, replies);
      }
    }

    /** The branch of resolve_or_create_oauth_user for an identity that is not bound yet. */
    method FindOrCreateUser(identity: Identity, email: nat, picked: nat, created: nat, replies: seq<Reply>)
      returns (outcome: Pc)
      requires |replies| == STATEMENTS && Fitting(Now(), Request(OAuth(identity, email), Unbound), picked, created)
      modifies this`accounts
      ensures outcome.Chosen? || outcome.Error?
      ensures Solo(Now(), Request(OAuth(identity, email), outcome), picked, created, replies)
              == old(Solo(Now(), Request(OAuth(identity, email), Unbound), picked, created, replies))
      ensures outcome.Chosen? <==>
                replies[2] == Done && (SameProvider(old(Now()), email, identity.provider) == {} ==> replies[3] == Done)
      ensures outcome.Chosen? ==>
                if SameProvider(old(Now()), email, identity.provider) == {}
                then outcome.user == created && accounts == old(accounts) + {created}
                else outcome.user in SameProvider(old(Now()), email, identity.provider) && accounts == old(accounts)
    {
      ghost var k := OAuth(identity, email);
      SoloStep(Now(), Request(k, Unbound), picked, created, replies);
      if !replies[2].Done? {
        return Error;
      }
      if SameProvider(Now(), email, identity.provider) != {} {
        return Chosen(picked);
      }
      SoloStep(Now(), Request(k, Nobody), picked, created, replies);
      if replies[3].TookEffect() {
        accounts := accounts + {created};
      }
      outcome := if replies[3].Done? then Chosen(created) else Error;
    }

    /** The two upserts that end resolve_or_create_oauth_user. */
    method BindIdentity(identity: Identity, email: nat, user: nat, picked: nat, created: nat, replies: seq<Reply>)
      returns (outcome: Pc)
      requires |replies| == STATEMENTS
      modifies this`oauth, this`contacts
      ensures (Now(), Request(OAuth(identity, email), outcome))
              == old(Solo(Now(), Request(OAuth(identity, email), Chosen(user)), picked, created, replies))
      ensures outcome == if replies[4] == Done && replies[5] == Done then Success(user) else Error
      ensures oauth == old(oauth) || oauth == old(oauth)[identity := user]
      ensures outcome.Success? ==> oauth == old(oauth)[identity := user] && contacts == old(contacts)[user := email]
    {
      ghost var k := OAuth(identity, email);
      SoloStep(Now(), Request(k, Chosen(user)), picked, created, replies);
      if replies[4].TookEffect() {
        oauth := oauth[identity := user];
      }
      if !replies[4].Done? {
        return Error;
      }
      SoloStep(Now(), Request(k, Bound(user)), picked, created, replies);
      outcome := UpsertEmailContact(user, email, replies[5]);
    }

    method UpsertEmailContact(user: nat, email: nat, reply: Reply) returns (outcome: Pc)
      modifies this`contacts
      ensures contacts == if reply.TookEffect() then old(contacts)[user := email] else old(contacts)
      ensures forall u :: u != user ==> Lookup(contacts, u) == old(Lookup(contacts, u))
      ensures outcome == if reply.Done? then Success(user) else Error
    {
      if reply.TookEffect() {
        contacts := contacts[user := email];
      }
      outcome := if reply.Done? then Success(user) else Error;
    }

    /** The part of verify after the nonce and the signature have been checked. */
    method VerifyWallet(pubkey: string, picked: nat, created: nat, replies: seq<Reply>) returns (outcome: Pc)
      requires |replies| == STATEMENTS && created !in accounts
      modifies this
      ensures (Now(), Request(Verify(pubkey), outcome))
              == old(Solo(Now(), Request(Verify(pubkey), Arrived), picked, created, replies))
      ensures pubkey in old(wallets) ==>
                && Now() == old(Now())
                && outcome == if replies[0] == Done then Success(old(wallets)[pubkey]) else Error
      ensures pubkey !in old(wallets) ==>
                outcome == if replies[0] == Done && replies[3] == Done && replies[4] == Done
                           then Success(created) else Error
      ensures outcome.Success? && pubkey !in old(wallets) ==>
                wallets == old(wallets)[pubkey := created] && accounts == old(accounts) + {created}
      ensures oauth == old(oauth) && contacts == old(contacts)
    {
      SoloStep(Now(), Request(Verify(pubkey), Arrived), picked, created, replies);
      if !replies[0].Done? {
        return Error;
      }
      if pubkey in wallets {
        return Success(wallets[pubkey]);
      }
      SoloStep(Now(), Request(Verify(pubkey), Nobody), picked, created, replies);
      if replies[3].TookEffect() {
        accounts := accounts + {created};
      }
      if !replies[3].Done? {
        return Error;
      }
      SoloStep(Now(), Request(Verify(pubkey), Chosen(created)), picked, created, replies);
      outcome := InsertAuthWallet(pubkey, created, replies[4]);
    }

    /** The part of link_wallet after the nonce and the signature have been checked. */
    method LinkWallet(pubkey: string, caller: nat, picked: nat, created: nat, replies: seq<Reply>) returns (outcome: Pc)
      requires |replies| == STATEMENTS
      modifies this
      ensures (Now(), Request(Link(pubkey, caller), outcome))
              == old(Solo(Now(), Request(Link(pubkey, caller), Arrived), picked, created, replies))
      ensures pubkey in old(wallets) ==> Now() == old(Now()) && outcome == if replies[0] == Done then Refused else Error
      ensures pubkey !in old(wallets) ==>
                outcome == if replies[0] == Done && replies[4] == Done && caller in accounts
                           then Success(caller) else Error
      ensures outcome.Success? ==> wallets == old(wallets)[pubkey := caller]
      ensures oauth == old(oauth) && contacts == old(contacts) && accounts == old(accounts)
    {
      SoloStep(Now(), Request(Link(pubkey, caller), Arrived), picked, created, replies);
      if !replies[0].Done? {
        return Error;
      }
      if pubkey in wallets {
        return Refused;
      }
      SoloStep(Now(), Request(Link(pubkey, caller), Chosen(caller)), picked, created, replies);
      outcome := InsertAuthWallet(pubkey, caller, replies[4]);
    }

    method InsertAuthWallet(pubkey: string, user: nat, reply: Reply) returns (outcome: Pc)
      modifies this`wallets
      ensures var (t1, pc1) := InsertWallet(old(Now()), pubkey, user);
              Now() == (if reply.TookEffect() then t1 else old(Now())) && outcome == if reply.Done? then pc1 else Error
    {
      var free := pubkey !in wallets && user in accounts;
      if free && reply.TookEffect() {
        wallets := wallets[pubkey := user];
      }
      outcome := if free && reply.Done? then Success(user) else Error;
    }
  }
}

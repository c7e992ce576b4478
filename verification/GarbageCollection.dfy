/** The keeper deletes expired nonces and tokens and marks expired invitations. Runs with and without these
    steps are compared by the answers the clients get. */
module GarbageCollection {
  import opened Invitations
  import S = Sessions

  /** original tells the invitations a draft was created with from those sent again, which no slot carries. */
  datatype Invite = Invite(status: InviteStatus, expiresAt: int, original: bool)

  /** A refresh request between its delete and its insert. */
  datatype Rotation = Rotation(user: nat, root: nat)

  datatype Db = Db(
    nonces: map<nat, int>, tokens: map<nat, S.Token>, rotating: map<nat, Rotation>, invites: map<nat, Invite>)

  const EMPTY := Db(map[], map[], map[], map[])

  /** verify and link_wallet are CheckNonce and Issue, refresh is TakeToken and Reissue. accept_invite reads the
      clock before it waits for the rows it locks, and the keeper before each of its statements, so those readings may
      be older than their turn. */
  datatype Op =
    | Challenge(n: nat)
    | CheckNonce(n: nat)
    | Issue(t: nat, user: nat)
    | TakeToken(h: nat, t: nat)
    | Reissue(h: nat, next: nat)
    | Logout(t: nat)
    | Send(id: nat, lifetime: int)
    | GetInvite(id: nat)
    | Accept(id: nat, readAt: real)
    | Reinvite(old_: nat, id: nat, lifetime: int)
    | CleanNonces(readAt: real)
    | CleanTokens(readAt: real)
    | ExpireInvites(readAt: real)
  {
    predicate Maintenance() {
      CleanNonces? || CleanTokens? || ExpireInvites?
    }

    predicate OnInvites() {
      Send? || GetInvite? || Accept? || Reinvite?
    }
  }

  datatype Event = Event(now: real, op: Op)

  predicate Open(i: Invite, now: real) {
    i.status.Pending? && !(i.expiresAt < now.Floor)
  }

  /** The new tables and the answer: success, or the handler's error. */
  function Step(db: Db, e: Event): (Db, bool) {
    var now := e.now;
    match e.op
    case Challenge(n) => if n in db.nonces then (db, false) else (db.(nonces := db.nonces[n := S.Rounded(now)]), true)
    case CheckNonce(n) =>
      if S.NonceLive(db.nonces, n, now) then (db.(nonces := db.nonces - {n}), true) else (db, false)
    case Issue(t, user) =>
      if t in db.tokens then (db, false) else (db.(tokens := db.tokens[t := S.NewToken(user, t, now)]), true)
    case TakeToken(h, t) =>
      if S.TokenLive(db.tokens, t, now) && h !in db.rotating then
        (db.(tokens := db.tokens - {t},
             rotating := db.rotating[h := Rotation(db.tokens[t].user, db.tokens[t].root)]), true)
      else (db, false)
    case Reissue(h, next) =>
      if h in db.rotating && next !in db.tokens then
        (db.(tokens := db.tokens[next := S.NewToken(db.rotating[h].user, db.rotating[h].root, now)],
             rotating := db.rotating - {h}), true)
      else (db, false)
    case Logout(t) => (db.(tokens := db.tokens - {t}), true)
    case Send(id, lifetime) =>
      if id in db.invites then (db, false)
      else (db.(invites := db.invites[id := Invite(Pending, now.Floor + lifetime, true)]), true)
    case GetInvite(id) => (db, id in db.invites && Open(db.invites[id], now))
    case Accept(id, readAt) =>
      if id in db.invites && Open(db.invites[id], readAt) && db.invites[id].original then
        (db.(invites := db.invites[id := db.invites[id].(status := Accepted)]), true)
      else (db, false)
    case Reinvite(old_, id, lifetime) =>
      if old_ in db.invites && db.invites[old_].status.Expired? && id !in db.invites then
        (db.(invites := db.invites[id := Invite(Pending, now.Floor + lifetime, false)]), true)
      else (db, false)
    case CleanNonces(readAt) => (db.(nonces := S.LiveNonces(db.nonces, readAt)), true)
    case CleanTokens(readAt) => (db.(tokens := S.LiveTokens(db.tokens, readAt)), true)
    case ExpireInvites(readAt) =>
      (db.(invites := map id | id in db.invites ::
             if db.invites[id].status.Pending? && db.invites[id].expiresAt < readAt.Floor
             then db.invites[id].(status := Expired) else db.invites[id]), true)
  }

  /** When a request succeeds; one that fails changes nothing. */
  lemma AnswerIff(db: Db, e: Event)
    ensures Step(db, e).1 <==>
            match e.op
            case Challenge(n) => n !in db.nonces
            case CheckNonce(n) => n in db.nonces && db.nonces[n] as real > e.now - 300.0
            case Issue(t, _) => t !in db.tokens
            case TakeToken(h, t) =>
              h !in db.rotating && t in db.tokens && db.tokens[t].expiresAt as real > e.now
            case Reissue(h, next) => h in db.rotating && next !in db.tokens
            case Send(id, _) => id !in db.invites
            case GetInvite(id) =>
              id in db.invites && db.invites[id].status == Pending && db.invites[id].expiresAt >= e.now.Floor
            case Accept(id, readAt) =>
              && id in db.invites && db.invites[id].status == Pending && db.invites[id].expiresAt >= readAt.Floor
              && db.invites[id].original
            case Reinvite(old_, id, _) =>
              old_ in db.invites && db.invites[old_].status == Expired && id !in db.invites
            case _ => true
    ensures !Step(db, e).1 ==> Step(db, e).0 == db
  {}

  /** An invitation comes from being sent or sent again, leaves Pending by an acceptance or by the keeper after its
      time, and keeps the rest of its row. */
  lemma InviteMoves(db: Db, e: Event, id: nat)
    ensures var (next, ok) := Step(db, e);
            var after := next.invites;
            if id in db.invites then
              && id in after && after[id].expiresAt == db.invites[id].expiresAt
              && after[id].original == db.invites[id].original
              && after[id].status == if e.op.Accept? && e.op.id == id && ok then Accepted
                                     else if e.op.ExpireInvites? && db.invites[id].status == Pending
                                             && db.invites[id].expiresAt < e.op.readAt.Floor then Expired
                                     else db.invites[id].status
            else
              && (id in after <==> (e.op.Send? || (e.op.Reinvite? && ok)) && e.op.id == id)
              && (id in after ==> after[id] == Invite(Pending, e.now.Floor + e.op.lifetime, e.op.Send?))
  {}

  /** A token issued or reissued by a request that succeeds; it leaves by a use, a logout, or the keeper after its
      life. */
  lemma TokenMoves(db: Db, e: Event, t: nat)
    ensures var (next, ok) := Step(db, e);
            var after := next.tokens;
            if t in db.tokens then
              && (t !in after <==>
                    || (e.op.TakeToken? && e.op.t == t && ok)
                    || (e.op.Logout? && e.op.t == t)
                    || (e.op.CleanTokens? && db.tokens[t].expiresAt < e.op.readAt.Floor))
              && (t in after ==> after[t] == db.tokens[t])
            else
              && (t in after <==> (e.op.Issue? && e.op.t == t) || (e.op.Reissue? && e.op.next == t && ok))
              && (t in after ==>
                    after[t] == S.Token(if e.op.Issue? then e.op.user else db.rotating[e.op.h].user,
                                        e.now.Floor + 604800,
                                        if e.op.Issue? then t else db.rotating[e.op.h].root))
  {}

  /** A nonce is stored by a challenge at the nearest second, and leaves by a check that finds it alive or by the keeper
      after five minutes. */
  lemma NonceMoves(db: Db, e: Event, n: nat)
    ensures var (next, ok) := Step(db, e);
            var after := next.nonces;
            if n in db.nonces then
              && (n !in after <==>
                    || (e.op.CheckNonce? && e.op.n == n && ok)
                    || (e.op.CleanNonces? && db.nonces[n] < e.op.readAt.Floor - 300))
              && (n in after ==> after[n] == db.nonces[n])
            else
              && (n in after <==> e.op.Challenge? && e.op.n == n)
              && (n in after ==> after[n] == (e.now + 0.5).Floor)
  {}

  /** A refresh holds what it took from its token until it issues the next one. */
  lemma RotationMoves(db: Db, e: Event, h: nat)
    ensures var (next, ok) := Step(db, e);
            var after := next.rotating;
            if h in db.rotating then
              && (h !in after <==> e.op.Reissue? && e.op.h == h && ok)
              && (h in after ==> after[h] == db.rotating[h])
            else
              && (h in after <==> e.op.TakeToken? && e.op.h == h && ok)
              && (h in after ==> after[h] == Rotation(db.tokens[e.op.t].user, db.tokens[e.op.t].root))
  {}

  /** What the clients are told, in order. */
  function Answers(db: Db, run: seq<Event>): seq<bool>
    decreases |run|
  {
    if run == [] then []
    else
      var (next, ok) := Step(db, run[0]);
      if run[0].op.Maintenance() then Answers(next, run[1..]) else [ok] + Answers(next, run[1..])
  }

  /** The run without the keeper. */
  function Visible(run: seq<Event>): seq<Event> {
    if run == [] then []
    else if run[0].op.Maintenance() then Visible(run[1..]) else [run[0]] + Visible(run[1..])
  }

  /** The steps happen in the order of the clock, and a reading is never ahead of it. */
  predicate ClockFrom(run: seq<Event>, now: real)
    decreases |run|
  {
    run == [] ||
    (now <= run[0].now && ReadsInTime(run[0]) && ClockFrom(run[1..], run[0].now))
  }

  predicate ReadsInTime(e: Event) {
    e.op.Accept? || e.op.Maintenance() ==> e.op.readAt <= e.now
  }

  /** The nonces, tokens and invitation ids generated so far. */
  datatype Issued = Issued(ns: set<nat>, ts: set<nat>, ids: set<nat>)

  const NONE := Issued({}, {}, {})

  predicate IsFresh(op: Op, k: Issued) {
    match op
    case Challenge(n) => n !in k.ns
    case Issue(t, _) => t !in k.ts
    case Reissue(_, next) => next !in k.ts
    case Send(id, _) => id !in k.ids
    case Reinvite(_, id, _) => id !in k.ids
    case _ => true
  }

  function Used(op: Op, k: Issued): Issued {
    match op
    case Challenge(n) => k.(ns := k.ns + {n})
    case Issue(t, _) => k.(ts := k.ts + {t})
    case Reissue(_, next) => k.(ts := k.ts + {next})
    case Send(id, _) => k.(ids := k.ids + {id})
    case Reinvite(_, id, _) => k.(ids := k.ids + {id})
    case _ => k
  }

  /** Generated nonces, tokens and invitation ids are new. */
  predicate FreshIds(run: seq<Event>, k: Issued)
    decreases |run|
  {
    run == [] || (IsFresh(run[0].op, k) && FreshIds(run[1..], Used(run[0].op, k)))
  }

  /** The ids generated for invitations sent again. */
  function ResentIds(run: seq<Event>): set<nat> {
    if run == [] then {} else (if run[0].op.Reinvite? then {run[0].op.id} else {}) + ResentIds(run[1..])
  }

  /** An acceptance whose invitation expired between its reading of the clock and its turn. */
  predicate Overdue(db: Db, e: Event) {
    && e.op.Accept? && e.op.id in db.invites && db.invites[e.op.id].original
    && e.op.readAt.Floor <= db.invites[e.op.id].expiresAt < e.now.Floor
  }

  /** The answers that ought not to depend on the keeper: all but those about inviting again, and those to overdue
      acceptances. */
  predicate Exempt(db: Db, e: Event, resent: set<nat>) {
    e.op.Maintenance() || e.op.Reinvite? || (e.op.GetInvite? && e.op.id in resent) || Overdue(db, e)
  }

  function FirmAnswers(db: Db, run: seq<Event>, resent: set<nat>): seq<bool>
    decreases |run|
  {
    if run == [] then []
    else
      var (next, ok) := Step(db, run[0]);
      (if Exempt(db, run[0], resent) then [] else [ok]) + FirmAnswers(next, run[1..], resent)
  }

  // ---------------------------------------------------------------- the two runs side by side

  ghost predicate NoncesAgree(c: map<nat, int>, u: map<nat, int>, now: real) {
    && (forall n :: n in c ==> n in u && c[n] == u[n])
    && (forall n :: n in u && n !in c ==> !S.NonceLive(u, n, now))
  }

  ghost predicate TokensAgree(c: map<nat, S.Token>, u: map<nat, S.Token>, now: real) {
    && (forall t :: t in c ==> t in u && c[t] == u[t])
    && (forall t :: t in u && t !in c ==> !S.TokenLive(u, t, now))
  }

  /** A row of the untouched run beside the same row of the cleaned one. */
  ghost predicate RowsAgree(c: Invite, u: Invite, now: real) {
    && c.expiresAt == u.expiresAt && c.original && u.original && !u.status.Expired?
    && (c == u || (c.status.Expired? && u.expiresAt < now.Floor))
  }

  ghost predicate InvitesAgree(c: map<nat, Invite>, u: map<nat, Invite>, now: real, resent: set<nat>) {
    && (forall id :: id in u ==> id in c && RowsAgree(c[id], u[id], now))
    && (forall id :: id in c && id !in u ==> !c[id].original && id in resent)
  }

  /** cleaned has seen the keeper, untouched has not: they differ only in rows that no client can use any more, and
      in invitations sent again. */
  ghost predicate Agree(cleaned: Db, untouched: Db, now: real, resent: set<nat>) {
    && NoncesAgree(cleaned.nonces, untouched.nonces, now)
    && TokensAgree(cleaned.tokens, untouched.tokens, now)
    && cleaned.rotating == untouched.rotating
    && InvitesAgree(cleaned.invites, untouched.invites, now, resent)
  }

  lemma FloorMonotone(a: real, b: real)
    requires a <= b
    ensures a.Floor <= b.Floor
  {}

  lemma AgreeLater(c: Db, u: Db, now: real, later: real, resent: set<nat>)
    requires Agree(c, u, now, resent) && now <= later
    ensures Agree(c, u, later, resent)
  {
    FloorMonotone(now, later);
  }

  lemma MaintenanceAgrees(c: Db, u: Db, e: Event, resent: set<nat>)
    requires Agree(c, u, e.now, resent) && e.op.Maintenance() && ReadsInTime(e)
    ensures Agree(Step(c, e).0, u, e.now, resent)
  {
    FloorMonotone(e.op.readAt, e.now);
    assert e.op.readAt.Floor as real <= e.op.readAt;
  }

  predicate KeysWithin(db: Db, k: Issued) {
    db.nonces.Keys <= k.ns && db.tokens.Keys <= k.ts && db.invites.Keys <= k.ids
  }

  lemma NonceRequestAgrees(c: Db, u: Db, e: Event, resent: set<nat>)
    requires Agree(c, u, e.now, resent) && (e.op.Challenge? || e.op.CheckNonce?)
    requires e.op.Challenge? ==> e.op.n !in u.nonces
    ensures Step(c, e).1 == Step(u, e).1
    ensures Agree(Step(c, e).0, Step(u, e).0, e.now, resent)
  {}

  lemma TokenRequestAgrees(c: Db, u: Db, e: Event, resent: set<nat>)
    requires Agree(c, u, e.now, resent)
    requires e.op.Issue? || e.op.TakeToken? || e.op.Reissue? || e.op.Logout?
    requires (e.op.Issue? ==> e.op.t !in u.tokens) && (e.op.Reissue? ==> e.op.next !in u.tokens)
    ensures Step(c, e).1 == Step(u, e).1
    ensures Agree(Step(c, e).0, Step(u, e).0, e.now, resent)
  {}

  lemma AuthRequestAgrees(c: Db, u: Db, e: Event, resent: set<nat>, k: Issued)
    requires Agree(c, u, e.now, resent) && KeysWithin(u, k) && IsFresh(e.op, k)
    requires !e.op.OnInvites() && !e.op.Maintenance()
    ensures Step(c, e).1 == Step(u, e).1
    ensures Agree(Step(c, e).0, Step(u, e).0, e.now, resent)
  {
    if e.op.Challenge? || e.op.CheckNonce? {
      NonceRequestAgrees(c, u, e, resent);
    } else {
      TokenRequestAgrees(c, u, e, resent);
    }
  }

  lemma InviteRequestAgrees(c: Db, u: Db, e: Event, resent: set<nat>)
    requires Agree(c, u, e.now, resent) && e.op.OnInvites()
    requires e.op.Send? || e.op.Reinvite? ==> e.op.id !in c.invites
    requires e.op.Reinvite? ==> e.op.id in resent
    requires ReadsInTime(e)
    ensures Agree(Step(c, e).0, Step(u, e).0, e.now, resent)
    ensures Exempt(c, e, resent) == Exempt(u, e, resent)
    ensures Exempt(u, e, resent) || Step(c, e).1 == Step(u, e).1
    ensures e.op.Reinvite? ==> !Step(u, e).1
  {
    if e.op.Accept? {
      AcceptAgrees(c, u, e, resent);
    }
  }

  lemma AcceptAgrees(c: Db, u: Db, e: Event, resent: set<nat>)
    requires Agree(c, u, e.now, resent) && e.op.Accept? && ReadsInTime(e)
    ensures Agree(Step(c, e).0, Step(u, e).0, e.now, resent)
    ensures Exempt(c, e, resent) == Exempt(u, e, resent)
    ensures Exempt(u, e, resent) || Step(c, e).1 == Step(u, e).1
  {
    FloorMonotone(e.op.readAt, e.now);
    if e.op.id in u.invites {
      assert RowsAgree(c.invites[e.op.id], u.invites[e.op.id], e.now);
    }
  }

  lemma KeysGrow(db: Db, e: Event, k: Issued)
    requires KeysWithin(db, k)
    ensures KeysWithin(Step(db, e).0, Used(e.op, k))
  {}

  /** One request in both runs. */
  lemma RequestAgrees(c: Db, u: Db, e: Event, resent: set<nat>, k: Issued)
    requires Agree(c, u, e.now, resent) && !e.op.Maintenance()
    requires KeysWithin(c, k) && KeysWithin(u, k) && IsFresh(e.op, k)
    requires e.op.Reinvite? ==> e.op.id in resent
    requires ReadsInTime(e)
    ensures Agree(Step(c, e).0, Step(u, e).0, e.now, resent)
    ensures Exempt(c, e, resent) == Exempt(u, e, resent)
    ensures Exempt(u, e, resent) || Step(c, e).1 == Step(u, e).1
    ensures KeysWithin(Step(c, e).0, Used(e.op, k)) && KeysWithin(Step(u, e).0, Used(e.op, k))
  {
    KeysGrow(c, e, k);
    KeysGrow(u, e, k);
    if e.op.OnInvites() {
      InviteRequestAgrees(c, u, e, resent);
    } else {
      AuthRequestAgrees(c, u, e, resent, k);
    }
  }

  lemma {:induction false} FirmRuns(c: Db, u: Db, now: real, run: seq<Event>, resent: set<nat>, k: Issued)
    requires Agree(c, u, now, resent) && ClockFrom(run, now) && ResentIds(run) <= resent
    requires KeysWithin(c, k) && KeysWithin(u, k) && FreshIds(run, k)
    ensures FirmAnswers(c, run, resent) == FirmAnswers(u, Visible(run), resent)
    decreases |run|
  {
    if run != [] {
      var e, rest := run[0], run[1..];
      AgreeLater(c, u, now, e.now, resent);
      if e.op.Maintenance() {
        MaintenanceAgrees(c, u, e, resent);
        KeysGrow(c, e, k);
        FirmRuns(Step(c, e).0, u, e.now, rest, resent, k);
      } else {
        assert Visible(run)[0] == e && Visible(run)[1..] == Visible(rest);
        RequestAgrees(c, u, e, resent, k);
        FirmRuns(Step(c, e).0, Step(u, e).0, e.now, rest, resent, Used(e.op, k));
      }
    }
  }

  /** Every verify, link, refresh, logout, get-invite and accept is answered with the keeper as it is without, in
      every run: what is left aside is inviting again, looking at an invitation that was sent again, and
      acceptances that waited past the expiry of their invitation. */
  lemma CleanupInvisible(run: seq<Event>, start: real)
    requires ClockFrom(run, start) && FreshIds(run, NONE)
    ensures FirmAnswers(EMPTY, run, ResentIds(run)) == FirmAnswers(EMPTY, Visible(run), ResentIds(run))
  {
    FirmRuns(EMPTY, EMPTY, start, run, ResentIds(run), NONE);
  }

  /** The tables after some events. */
  function After(db: Db, run: seq<Event>): Db
    decreases |run|
  {
    if run == [] then db else After(Step(db, run[0]).0, run[1..])
  }

  /** The firm answers, from the last request backwards. */
  lemma {:induction false} FirmAnswersSnoc(db: Db, run: seq<Event>, e: Event, resent: set<nat>)
    ensures var before := After(db, run);
            var exempt := e.op.CleanNonces? || e.op.CleanTokens? || e.op.ExpireInvites? || e.op.Reinvite?
                          || (e.op.GetInvite? && e.op.id in resent)
                          || (e.op.Accept? && e.op.id in before.invites && before.invites[e.op.id].original
                              && e.op.readAt.Floor <= before.invites[e.op.id].expiresAt < e.now.Floor);
            FirmAnswers(db, run + [e], resent)
            == FirmAnswers(db, run, resent) + if exempt then [] else [Step(before, e).1]
    decreases |run|
  {
    if run == [] {
      assert (run + [e])[1..] == [];
    } else {
      assert (run + [e])[1..] == run[1..] + [e];
      FirmAnswersSnoc(Step(db, run[0]).0, run[1..], e, resent);
    }
  }

  lemma {:induction false} AnswerAgrees(c: Db, u: Db, now: real, run: seq<Event>, resent: set<nat>, k: Issued, i: nat)
    requires Agree(c, u, now, resent) && ClockFrom(run, now) && ResentIds(run) <= resent
    requires KeysWithin(c, k) && KeysWithin(u, k) && FreshIds(run, k) && i < |run|
    ensures Exempt(After(c, run[..i]), run[i], resent) ||
            Step(After(c, run[..i]), run[i]).1 == Step(After(u, Visible(run[..i])), run[i]).1
    decreases |run|
  {
    var e, rest := run[0], run[1..];
    AgreeLater(c, u, now, e.now, resent);
    if i == 0 {
      if !e.op.Maintenance() {
        RequestAgrees(c, u, e, resent, k);
      }
    } else {
      var before := run[..i];
      assert before[0] == e && before[1..] == rest[..i - 1] && run[i] == rest[i - 1];
      if e.op.Maintenance() {
        MaintenanceAgrees(c, u, e, resent);
        KeysGrow(c, e, k);
        AnswerAgrees(Step(c, e).0, u, e.now, rest, resent, k, i - 1);
      } else {
        assert Visible(before)[0] == e && Visible(before)[1..] == Visible(rest[..i - 1]);
        RequestAgrees(c, u, e, resent, k);
        AnswerAgrees(Step(c, e).0, Step(u, e).0, e.now, rest, resent, Used(e.op, k), i - 1);
      }
    }
  }

  lemma {:induction false} ResentByReinvite(run: seq<Event>, id: nat)
    requires id in ResentIds(run)
    ensures exists j :: 0 <= j < |run| && run[j].op.Reinvite? && run[j].op.id == id
    decreases |run|
  {
    if run[0].op.Reinvite? && run[0].op.id == id {
      assert run[0].op.Reinvite?;
    } else {
      ResentByReinvite(run[1..], id);
      var j :| 0 <= j < |run[1..]| && run[1..][j].op.Reinvite? && run[1..][j].op.id == id;
      assert run[j + 1].op.Reinvite? && run[j + 1].op.id == id;
    }
  }

  /** The same request by request: each of these is answered in its place as it would be had the keeper never run. */
  lemma EachAnswerAgrees(run: seq<Event>, start: real, i: nat)
    requires ClockFrom(run, start) && FreshIds(run, NONE) && i < |run|
    requires !run[i].op.CleanNonces? && !run[i].op.CleanTokens? && !run[i].op.ExpireInvites? && !run[i].op.Reinvite?
    requires run[i].op.GetInvite? ==> forall j :: 0 <= j < |run| && run[j].op.Reinvite? ==> run[j].op.id != run[i].op.id
    requires run[i].op.Accept? ==>
               var invites, id := After(EMPTY, run[..i]).invites, run[i].op.id;
               id in invites && invites[id].original && run[i].op.readAt.Floor <= invites[id].expiresAt ==>
                 run[i].now.Floor <= invites[id].expiresAt
    ensures Step(After(EMPTY, run[..i]), run[i]).1 == Step(After(EMPTY, Visible(run[..i])), run[i]).1
  {
    AnswerAgrees(EMPTY, EMPTY, start, run, ResentIds(run), NONE, i);
    if run[i].op.GetInvite? && run[i].op.id in ResentIds(run) {
      ResentByReinvite(run, run[i].op.id);
    }
  }

  lemma {:induction false} VisibleResends(run: seq<Event>)
    ensures ResentIds(Visible(run)) == ResentIds(run)
  {
    if run != [] {
      VisibleResends(run[1..]);
      if !run[0].op.Maintenance() {
        assert Visible(run)[1..] == Visible(run[1..]);
      }
    }
  }

  /** So keeper steps may stand anywhere: two runs of the same requests get the same answers. */
  lemma CleanupAnywhere(run1: seq<Event>, run2: seq<Event>, start: real)
    requires ClockFrom(run1, start) && FreshIds(run1, NONE)
    requires ClockFrom(run2, start) && FreshIds(run2, NONE)
    requires Visible(run1) == Visible(run2)
    ensures FirmAnswers(EMPTY, run1, ResentIds(run1)) == FirmAnswers(EMPTY, run2, ResentIds(run2))
  {
    CleanupInvisible(run1, start);
    CleanupInvisible(run2, start);
    VisibleResends(run1);
    VisibleResends(run2);
  }

  // ---------------------------------------------------------------- what can tell

  /** An answer that shows that the keeper ran: a successful request to invite again, or an acceptance that finds its
      invitation marked although it had not expired when the clock was read. */
  predicate Notices(db: Db, e: Event) {
    || (e.op.Reinvite? && Step(db, e).1)
    || (e.op.Accept? && e.op.id in db.invites && db.invites[e.op.id].original
        && db.invites[e.op.id].status.Expired? && e.op.readAt.Floor <= db.invites[e.op.id].expiresAt)
  }

  predicate NothingNoticed(db: Db, run: seq<Event>)
    decreases |run|
  {
    run == [] || (!Notices(db, run[0]) && NothingNoticed(Step(db, run[0]).0, run[1..]))
  }

  /** So far nothing was noticed: what the keeper has marked is still pending without it, and nothing was sent again. */
  ghost predicate Unnoticed(c: Db, u: Db) {
    c.invites.Keys == u.invites.Keys &&
    forall id :: id in c.invites && c.invites[id].status.Expired? ==> u.invites[id].status.Pending?
  }

  lemma MaintenanceUnnoticed(c: Db, u: Db, e: Event)
    requires Agree(c, u, e.now, {}) && Unnoticed(c, u) && e.op.Maintenance()
    ensures Unnoticed(Step(c, e).0, u) && !Notices(c, e)
  {
    forall id | id in c.invites && c.invites[id].status.Pending? ensures u.invites[id].status.Pending? {
      assert RowsAgree(c.invites[id], u.invites[id], e.now);
    }
  }

  lemma NoticedIff(c: Db, u: Db, e: Event)
    requires Agree(c, u, e.now, {}) && Unnoticed(c, u) && e.op.OnInvites()
    requires e.op.Send? || e.op.Reinvite? ==> e.op.id !in c.invites
    requires ReadsInTime(e)
    ensures Step(c, e).1 == Step(u, e).1 <==> !Notices(c, e)
    ensures !Notices(c, e) ==> Agree(Step(c, e).0, Step(u, e).0, e.now, {}) && Unnoticed(Step(c, e).0, Step(u, e).0)
  {
    if (e.op.Accept? || e.op.GetInvite?) && e.op.id in u.invites {
      assert RowsAgree(c.invites[e.op.id], u.invites[e.op.id], e.now);
    }
    if e.op.Accept? {
      FloorMonotone(e.op.readAt, e.now);
    }
    if e.op.Reinvite? && e.op.old_ in u.invites {
      assert RowsAgree(c.invites[e.op.old_], u.invites[e.op.old_], e.now);
    }
  }

  lemma TailsDecide(a: bool, x: seq<bool>, y: seq<bool>)
    ensures [a] + x == [a] + y <==> x == y
  {
    if [a] + x == [a] + y {
      assert ([a] + x)[1..] == x && ([a] + y)[1..] == y;
    }
  }

  lemma RequestNoticedIff(c: Db, u: Db, e: Event, k: Issued)
    requires Agree(c, u, e.now, {}) && Unnoticed(c, u) && !e.op.Maintenance()
    requires KeysWithin(c, k) && KeysWithin(u, k) && IsFresh(e.op, k)
    requires ReadsInTime(e)
    ensures Step(c, e).1 == Step(u, e).1 <==> !Notices(c, e)
    ensures !Notices(c, e) ==> Agree(Step(c, e).0, Step(u, e).0, e.now, {}) && Unnoticed(Step(c, e).0, Step(u, e).0)
  {
    if e.op.OnInvites() {
      NoticedIff(c, u, e);
    } else {
      AuthRequestAgrees(c, u, e, {}, k);
      AuthSparesInvites(c, e);
      AuthSparesInvites(u, e);
    }
  }

  lemma AuthSparesInvites(db: Db, e: Event)
    requires !e.op.OnInvites() && !e.op.Maintenance()
    ensures Step(db, e).0.invites == db.invites
  {}

  lemma {:induction false} CompareRuns(c: Db, u: Db, now: real, run: seq<Event>, k: Issued)
    requires Agree(c, u, now, {}) && Unnoticed(c, u) && ClockFrom(run, now)
    requires KeysWithin(c, k) && KeysWithin(u, k) && FreshIds(run, k)
    ensures Answers(c, run) == Answers(u, Visible(run)) <==> NothingNoticed(c, run)
    decreases |run|
  {
    if run != [] {
      var e, rest := run[0], run[1..];
      AgreeLater(c, u, now, e.now, {});
      KeysGrow(c, e, k);
      if e.op.Maintenance() {
        MaintenanceAgrees(c, u, e, {});
        MaintenanceUnnoticed(c, u, e);
        CompareRuns(Step(c, e).0, u, e.now, rest, k);
      } else {
        var v := Visible(run);
        assert v[0] == e && v[1..] == Visible(rest);
        RequestNoticedIff(c, u, e, k);
        if Notices(c, e) {
          assert Answers(c, run)[0] != Answers(u, v)[0];
        } else {
          KeysGrow(u, e, k);
          CompareRuns(Step(c, e).0, Step(u, e).0, e.now, rest, Used(e.op, k));
          TailsDecide(Step(c, e).1, Answers(Step(c, e).0, rest), Answers(Step(u, e).0, Visible(rest)));
        }
      }
    }
  }

  /** All answers, those about inviting again included, are as without the keeper exactly when none of the run shows
      that it ran. */
  lemma CleanupInvisibleIff(run: seq<Event>, start: real)
    requires ClockFrom(run, start) && FreshIds(run, NONE)
    ensures Answers(EMPTY, run) == Answers(EMPTY, Visible(run)) <==> NothingNoticed(EMPTY, run)
  {
    CompareRuns(EMPTY, EMPTY, start, run, NONE);
  }

  const MARKED := EMPTY.(invites := map[1 := Invite(Expired, 10, true)])

  /** An invitation is sent, expires, and is marked by the keeper. */
  function SendAndMark(): seq<Event> {
    [Event(0.0, Send(1, 10)), Event(20.0, ExpireInvites(20.0))]
  }

  lemma AfterMark(last: Event)
    requires last.now >= 20.0
    ensures NothingNoticed(EMPTY, SendAndMark() + [last]) <==> !Notices(MARKED, last)
  {
    var run := SendAndMark() + [last];
    assert run[1..] == [run[1], last] && run[1..][1..] == [last] && [last][1..] == [];
    var d1 := Step(EMPTY, run[0]).0;
    assert d1.invites == map[1 := Invite(Pending, 10, true)] by {
      assert 0.0.Floor == 0;
    }
    var d2 := Step(d1, run[1]).0;
    assert d2 == MARKED by {
      assert 20.0.Floor == 20;
      assert d2.invites == MARKED.invites;
    }
    assert NothingNoticed(MARKED, [last]) <==> !Notices(MARKED, last) by {
      assert NothingNoticed(Step(MARKED, last).0, []);
    }
    assert !Notices(d1, run[1]) && !Notices(EMPTY, run[0]);
    assert NothingNoticed(d1, run[1..]) <==> NothingNoticed(d2, run[1..][1..]);
  }

  lemma RunIsTimely(last: Event)
    requires last.now >= 20.0 && ReadsInTime(last)
    requires IsFresh(last.op, NONE.(ids := {1}))
    ensures ClockFrom(SendAndMark() + [last], 0.0) && FreshIds(SendAndMark() + [last], NONE)
  {
    var run := SendAndMark() + [last];
    assert run[1..] == [run[1], last] && run[1..][1..] == [last] && [last][1..] == [];
    assert ClockFrom([last], 20.0) && ClockFrom(run[1..], 0.0);
    var k := NONE.(ids := {1});
    assert Used(run[0].op, NONE) == k by { assert {} + {1} == {1}; }
    assert FreshIds([last], k) && FreshIds(run[1..], k);
  }

  /** A run in which a request to invite again shows that the keeper ran. */
  lemma ReinviteNoticesKeeper() returns (run: seq<Event>)
    ensures ClockFrom(run, 0.0) && FreshIds(run, NONE)
    ensures Answers(EMPTY, run) != Answers(EMPTY, Visible(run))
  {
    var last := Event(30.0, Reinvite(1, 2, 10));
    run := SendAndMark() + [last];
    RunIsTimely(last);
    AfterMark(last);
    CleanupInvisibleIff(run, 0.0);
  }

  /** A run in which an acceptance that read the clock in time, and waited, shows it. */
  lemma WaitingAcceptNoticesKeeper() returns (run: seq<Event>)
    ensures ClockFrom(run, 0.0) && FreshIds(run, NONE)
    ensures Answers(EMPTY, run) != Answers(EMPTY, Visible(run))
  {
    var last := Event(20.0, Accept(1, 10.0));
    run := SendAndMark() + [last];
    RunIsTimely(last);
    assert 10.0.Floor == 10;
    AfterMark(last);
    CleanupInvisibleIff(run, 0.0);
  }
}

/** The table `agreement_parties` and the SQL statements that touch it.
    One row per (agreement, party); the lock of the expiry worker is a value of the status column. */
module AgreementTable {
  import opened Common

  datatype PartyStatus = PendingSignatures | Expiring | Cancelled | Expired
  {
    predicate Terminal() {
      Cancelled? || Expired?
    }
  }

  datatype Key = Key(pda: string, party: string)
  datatype Row = Row(creator: string, status: PartyStatus, expiresAt: int, signedAt: Option<int>)
  type Table = map<Key, Row>

  const SIGNING_WINDOW_SECONDS := 2592000

  predicate HasRow(rows: Table, pda: string) {
    exists k :: k in rows && k.pda == pda
  }

  /** Every row of the agreement has a status in the given set. */
  predicate AllIn(rows: Table, pda: string, allowed: set<PartyStatus>) {
    forall k :: k in rows && k.pda == pda ==> rows[k].status in allowed
  }

  /** The party rows of each agreement carry one status. */
  predicate Uniform(rows: Table) {
    forall k1, k2 :: k1 in rows && k2 in rows && k1.pda == k2.pda ==> rows[k1].status == rows[k2].status
  }

  /** UPDATE ... SET status = to WHERE agreement_pda = pda AND status IN from. */
  function UpdateStatus(rows: Table, pda: string, from: set<PartyStatus>, to: PartyStatus): Table {
    map k | k in rows :: if k.pda == pda && rows[k].status in from then rows[k].(status := to) else rows[k]
  }

  predicate Matches(rows: Table, pda: string, from: set<PartyStatus>) {
    exists k :: k in rows && k.pda == pda && rows[k].status in from
  }

  function LockRows(rows: Table, pda: string): Table {
    UpdateStatus(rows, pda, {PendingSignatures}, Expiring)
  }

  function UnlockRows(rows: Table, pda: string): Table {
    UpdateStatus(rows, pda, {Expiring}, PendingSignatures)
  }

  /** The listener's UPDATE has no status guard. */
  function CloseRows(rows: Table, pda: string, to: PartyStatus): Table {
    map k | k in rows :: if k.pda == pda then rows[k].(status := to) else rows[k]
  }

  function SignRow(rows: Table, k: Key, now: int): Table {
    if k in rows then rows[k := rows[k].(signedAt := Some(now))] else rows
  }

  /** INSERT ... ON CONFLICT (party_pubkey, agreement_pda) DO NOTHING. */
  function InsertRow(rows: Table, k: Key, creator: string, now: int): Table {
    if k in rows then rows
    else rows[k := Row(creator, PendingSignatures, now + SIGNING_WINDOW_SECONDS, None)]
  }

  function InsertRows(rows: Table, pda: string, parties: seq<string>, creator: string, now: int): Table
    decreases |parties|
  {
    if parties == [] then rows
    else InsertRows(InsertRow(rows, Key(pda, parties[0]), creator, now), pda, parties[1..], creator, now)
  }

  /** Giving the lock back restores the table exactly when nothing of the agreement was being expired before. */
  lemma UnlockUndoesLockIff(rows: Table, pda: string)
    ensures UnlockRows(LockRows(rows, pda), pda) == rows <==> !Matches(rows, pda, {Expiring})
  {
    var back := UnlockRows(LockRows(rows, pda), pda);
    if Matches(rows, pda, {Expiring}) {
      var k :| k in rows && k.pda == pda && rows[k].status in {Expiring};
      assert back[k].status.PendingSignatures?;
    } else {
      forall k | k in rows ensures back[k] == rows[k] {}
    }
  }

  datatype Candidate = Candidate(pda: string, creator: string)

  /** SELECT DISTINCT agreement_pda, creator_pubkey ... WHERE status = 'PendingSignatures' AND expires_at < now. */
  function Due(rows: Table, now: int): set<Candidate> {
    set k | k in rows && rows[k].status.PendingSignatures? && rows[k].expiresAt < now
      :: Candidate(k.pda, rows[k].creator)
  }

  lemma DueIff(rows: Table, now: int, c: Candidate)
    ensures c in Due(rows, now) <==>
            exists k :: k in rows && k.pda == c.pda && rows[k].creator == c.creator
                        && rows[k].status == PendingSignatures && rows[k].expiresAt < now
  {}

  /** The query has no ORDER BY, so any order of its answer is possible. */
  ghost predicate IsScan(rows: Table, now: int, found: seq<Candidate>) {
    NoDuplicates(found) && (set c | c in found) == Due(rows, now)
  }

  /** A replayed CreateAgreement event with the same party list changes nothing; a first one leaves
      exactly one pending row per listed party beside the rows that were there. */
  lemma {:induction false} InsertRowsEffect(rows: Table, pda: string, parties: seq<string>, creator: string, now: int)
    ensures var after := InsertRows(rows, pda, parties, creator, now);
            && after.Keys == rows.Keys + (set p | p in parties :: Key(pda, p))
            && (forall k :: k in rows ==> after[k] == rows[k])
            && (forall k :: k in after && k !in rows ==>
                  after[k] == Row(creator, PendingSignatures, now + SIGNING_WINDOW_SECONDS, None))
            && ((forall p :: p in parties ==> Key(pda, p) in rows) ==> after == rows)
    decreases |parties|
  {
    if parties != [] {
      var one := InsertRow(rows, Key(pda, parties[0]), creator, now);
      InsertRowsEffect(one, pda, parties[1..], creator, now);
      assert forall p :: p in parties <==> p == parties[0] || p in parties[1..];
    }
  }
}

/** Any number of expiry workers, event listeners and replays over one table, one SQL statement or
    transaction submission per step, in any order. */
module ExpiryProtocol {
  import opened Common
  import opened AgreementTable

  /** Where a worker is inside one cycle: between candidates, holding a lock it has yet to submit for,
      or holding a lock it has to give back because the submission failed. */
  datatype Phase = Between | Holding(pda: string) | Reverting(pda: string)
  datatype Worker = Worker(queue: seq<Candidate>, phase: Phase)
  {
    predicate Holds(p: string) {
      (phase.Holding? || phase.Reverting?) && phase.pda == p
    }
  }

  /** submitted counts, per agreement, the submissions whose success the submitting worker has seen. */
  datatype State = State(rows: Table, workers: map<nat, Worker>, submitted: multiset<string>)

  datatype Step =
    | Spawn(w: nat)
    | Crash(w: nat)
    | Scan(w: nat, now: int, found: seq<Candidate>)
    | LockNext(w: nat, reply: Reply)
    | Submit(w: nat, ok: bool)
    | Unlock(w: nat, reply: Reply)
    | Insert(k: Key, creator: string, now: int)
    | Sign(k: Key, now: int)
    | Close(pda: string, to: PartyStatus)

  const INIT := State(map[], map[], multiset{})

  ghost predicate Enabled(s: State, step: Step) {
    match step
    case Spawn(w) => w !in s.workers
    case Crash(w) => w in s.workers
    case Scan(w, now, found) =>
      w in s.workers && s.workers[w] == Worker([], Between) && IsScan(s.rows, now, found)
    case LockNext(w, _) => w in s.workers && s.workers[w].phase.Between? && s.workers[w].queue != []
    case Submit(w, _) => w in s.workers && s.workers[w].phase.Holding?
    case Unlock(w, _) => w in s.workers && s.workers[w].phase.Reverting?
    case Close(_, to) => to.Terminal()
    case _ => true
  }

  /** The lock attempt on the next candidate. Only an answered UPDATE that changed a row gives the lock. */
  function LockNextEffect(s: State, w: nat, reply: Reply): State
    requires w in s.workers && s.workers[w].queue != []
  {
    var me := s.workers[w];
    var pda := me.queue[0].pda;
    var won := reply.Done? && Matches(s.rows, pda, {PendingSignatures});
    State(
      if reply.TookEffect() then LockRows(s.rows, pda) else s.rows,
      s.workers[w := Worker(me.queue[1..], if won then Holding(pda) else Between)],
      s.submitted)
  }

  ghost function Apply(s: State, step: Step): State
    requires Enabled(s, step)
  {
    match step
    case Spawn(w) => s.(workers := s.workers[w := Worker([], Between)])
    case Crash(w) => s.(workers := s.workers - {w})
    case Scan(w, _, found) => s.(workers := s.workers[w := Worker(found, Between)])
    case LockNext(w, reply) => LockNextEffect(s, w, reply)
    case Submit(w, ok) =>
      var me := s.workers[w];
      if ok then
        s.(workers := s.workers[w := me.(phase := Between)], submitted := s.submitted + multiset{me.phase.pda})
      else s.(workers := s.workers[w := me.(phase := Reverting(me.phase.pda))])
    case Unlock(w, reply) =>
      var me := s.workers[w];
      s.(rows := if reply.TookEffect() then UnlockRows(s.rows, me.phase.pda) else s.rows,
         workers := s.workers[w := me.(phase := Between)])
    case Insert(k, creator, now) => s.(rows := InsertRow(s.rows, k, creator, now))
    case Sign(k, now) => s.(rows := SignRow(s.rows, k, now))
    case Close(pda, to) => s.(rows := CloseRows(s.rows, pda, to))
  }

  ghost predicate Legal(s: State, run: seq<Step>)
    decreases |run|
  {
    run == [] || (Enabled(s, run[0]) && Legal(Apply(s, run[0]), run[1..]))
  }

  ghost function Exec(s: State, run: seq<Step>): State
    requires Legal(s, run)
    decreases |run|
  {
    if run == [] then s else Exec(Apply(s, run[0]), run[1..])
  }

  /** An insertion adds no row to an agreement that already has a row and is no longer pending. This is what
      "the party list is fixed by the creation of the agreement" gives: a complete creation inserts all its
      rows while they are pending, and every later replay finds them. */
  ghost predicate TimelyInsert(s: State, step: Step) {
    step.Insert? && step.k !in s.rows ==> AllIn(s.rows, step.k.pda, {PendingSignatures})
  }

  ghost predicate TimelyInserts(s: State, run: seq<Step>)
    requires Legal(s, run)
    decreases |run|
  {
    run == [] || (TimelyInsert(s, run[0]) && TimelyInserts(Apply(s, run[0]), run[1..]))
  }

  // ---------------------------------------------------------------- one status per agreement

  ghost predicate UniformThroughout(s: State, run: seq<Step>)
    requires Legal(s, run)
    decreases |run|
  {
    Uniform(s.rows) && (run == [] || UniformThroughout(Apply(s, run[0]), run[1..]))
  }

  lemma UniformStep(s: State, step: Step)
    requires Uniform(s.rows) && Enabled(s, step)
    ensures Uniform(Apply(s, step).rows) <==> TimelyInsert(s, step)
  {
    if step.Insert? && step.k !in s.rows {
      var after := Apply(s, step).rows;
      if Uniform(after) {
        forall k | k in s.rows && k.pda == step.k.pda ensures s.rows[k].status == PendingSignatures {
          assert after[k].status == after[step.k].status;
        }
      }
    }
  }

  /** All party rows of an agreement carry the same status in every state of a run exactly when no insertion
      of the run is late. */
  lemma {:induction false} UniformIffTimely(s: State, run: seq<Step>)
    requires Legal(s, run) && Uniform(s.rows)
    ensures UniformThroughout(s, run) <==> TimelyInserts(s, run)
    decreases |run|
  {
    if run != [] {
      UniformStep(s, run[0]);
      var next := Apply(s, run[0]);
      if Uniform(next.rows) {
        UniformIffTimely(next, run[1..]);
      } else {
        assert !UniformThroughout(next, run[1..]);
      }
    }
  }

  // ---------------------------------------------------------------- finality

  /** The agreement is known and every row of it is Cancelled or Expired. */
  ghost predicate Closed(rows: Table, pda: string) {
    HasRow(rows, pda) && AllIn(rows, pda, {Cancelled, Expired})
  }

  ghost predicate ClosedThroughout(s: State, run: seq<Step>, pda: string)
    requires Legal(s, run)
    decreases |run|
  {
    Closed(s.rows, pda) && (run == [] || ClosedThroughout(Apply(s, run[0]), run[1..], pda))
  }

  ghost predicate NoNewParty(s: State, run: seq<Step>, pda: string)
    requires Legal(s, run)
    decreases |run|
  {
    run == [] ||
    (!(run[0].Insert? && run[0].k.pda == pda && run[0].k !in s.rows) &&
     NoNewParty(Apply(s, run[0]), run[1..], pda))
  }

  /** A cancel or expire event closes the agreement exactly when its creation has been seen before. */
  lemma CloseClosesKnown(s: State, pda: string, to: PartyStatus)
    requires to == Cancelled || to == Expired
    ensures Closed(Apply(s, Close(pda, to)).rows, pda) <==> HasRow(s.rows, pda)
  {
    var after := Apply(s, Close(pda, to)).rows;
    assert after.Keys == s.rows.Keys;
    if HasRow(s.rows, pda) {
      var k :| k in s.rows && k.pda == pda;
      assert k in after;
    }
    if HasRow(after, pda) {
      var k :| k in after && k.pda == pda;
      assert k in s.rows;
    }
  }

  lemma ClosedStep(s: State, step: Step, pda: string)
    requires Closed(s.rows, pda) && Enabled(s, step)
    ensures Closed(Apply(s, step).rows, pda) <==>
            !(step.Insert? && step.k.pda == pda && step.k !in s.rows)
  {
    var after := Apply(s, step).rows;
    var k :| k in s.rows && k.pda == pda;
    assert k in after;
    if step.Insert? && step.k.pda == pda && step.k !in s.rows {
      assert after[step.k].status == PendingSignatures;
    }
  }

  /** Once closed, an agreement stays closed through every late lock, late unlock, signature and replayed
      creation of a run; the only thing that reopens it is an insertion of a party it did not have. */
  lemma {:induction false} ClosedIffNoNewParty(s: State, run: seq<Step>, pda: string)
    requires Legal(s, run) && Closed(s.rows, pda)
    ensures ClosedThroughout(s, run, pda) <==> NoNewParty(s, run, pda)
    decreases |run|
  {
    if run != [] {
      ClosedStep(s, run[0], pda);
      var next := Apply(s, run[0]);
      if Closed(next.rows, pda) {
        ClosedIffNoNewParty(next, run[1..], pda);
      } else {
        assert !ClosedThroughout(next, run[1..], pda);
      }
    }
  }

  // ---------------------------------------------------------------- mutual exclusion

  ghost predicate MutualExclusion(s: State) {
    forall v, w, pda ::
      v in s.workers && w in s.workers && s.workers[v].Holds(pda) && s.workers[w].Holds(pda) ==> v == w
  }

  /** No lock is held twice, and none is held or won again after a submission has succeeded. */
  ghost predicate Exclusive(s: State) {
    && MutualExclusion(s)
    && forall pda :: pda in s.submitted ==>
         s.submitted[pda] == 1 && forall w :: w in s.workers ==> !s.workers[w].Holds(pda)
  }

  /** Some worker holds the agreement's lock, or a submission for it has succeeded. */
  ghost predicate Busy(s: State, pda: string) {
    pda in s.submitted || exists w :: w in s.workers && s.workers[w].Holds(pda)
  }

  /** The step adds no party row to a busy agreement. */
  ghost predicate SparesBusy(s: State, step: Step) {
    step.Insert? && step.k !in s.rows ==> !Busy(s, step.k.pda)
  }

  ghost predicate SparesBusyThroughout(s: State, run: seq<Step>)
    requires Legal(s, run)
    decreases |run|
  {
    run == [] || (SparesBusy(s, run[0]) && SparesBusyThroughout(Apply(s, run[0]), run[1..]))
  }

  /** The agreement has rows and none of them can be locked. */
  ghost predicate Unlockable(s: State, pda: string) {
    HasRow(s.rows, pda) && AllIn(s.rows, pda, {Expiring, Cancelled, Expired})
  }

  ghost predicate HeldIsTaken(s: State) {
    forall w, pda :: w in s.workers && s.workers[w].Holds(pda) ==> Unlockable(s, pda)
  }

  ghost predicate SubmittedIsTaken(s: State) {
    forall pda :: pda in s.submitted ==> Unlockable(s, pda)
  }

  ghost predicate Inv(s: State) {
    Exclusive(s) && HeldIsTaken(s) && SubmittedIsTaken(s)
  }

  /** Frame: what a step other than an unlock by the holder does to an agreement that cannot be locked. */
  lemma UnlockableStep(s: State, step: Step, pda: string)
    requires Enabled(s, step) && Unlockable(s, pda)
    requires step.Insert? && step.k.pda == pda ==> step.k in s.rows
    requires step.Unlock? && step.reply.TookEffect() ==> s.workers[step.w].phase.pda != pda
    ensures Unlockable(Apply(s, step), pda)
  {
    var k :| k in s.rows && k.pda == pda;
    assert k in Apply(s, step).rows;
  }

  /** Locking needs a pending row, so no one can take what is already taken. */
  lemma LockTakesFree(s: State, w: nat, reply: Reply)
    requires Inv(s) && Enabled(s, LockNext(w, reply))
    ensures var pda := s.workers[w].queue[0].pda;
            var after := Apply(s, LockNext(w, reply));
            after.workers[w].phase.Holding? ==>
              after.workers[w].phase.pda == pda && Unlockable(after, pda) && !Busy(s, pda)
  {
    var pda := s.workers[w].queue[0].pda;
    var after := Apply(s, LockNext(w, reply));
    if after.workers[w].phase.Holding? {
      var k :| k in s.rows && k.pda == pda && s.rows[k].status in {PendingSignatures};
      assert k in after.rows;
      assert !Unlockable(s, pda);
      assert forall j :: j in after.rows && j.pda == pda ==> !after.rows[j].status.PendingSignatures?;
      AllButPending(after, pda);
    }
  }

  lemma AllButPending(s: State, pda: string)
    requires HasRow(s.rows, pda) && forall j :: j in s.rows && j.pda == pda ==> !s.rows[j].status.PendingSignatures?
    ensures Unlockable(s, pda)
  {}

  lemma HeldStep(s: State, step: Step)
    requires Inv(s) && Enabled(s, step) && SparesBusy(s, step)
    ensures HeldIsTaken(Apply(s, step)) && MutualExclusion(Apply(s, step))
  {
    var after := Apply(s, step);
    if step.LockNext? {
      LockTakesFree(s, step.w, step.reply);
    }
    forall w, pda | w in after.workers && after.workers[w].Holds(pda)
      ensures Unlockable(after, pda)
    {
      if w in s.workers && s.workers[w].Holds(pda) {
        assert Busy(s, pda);
        UnlockableStep(s, step, pda);
      }
    }
  }

  lemma SubmittedStep(s: State, step: Step, pda: string)
    requires Inv(s) && Enabled(s, step) && SparesBusy(s, step)
    requires pda in Apply(s, step).submitted
    ensures Unlockable(Apply(s, step), pda) && Apply(s, step).submitted[pda] == 1
    ensures forall w :: w in Apply(s, step).workers ==> !Apply(s, step).workers[w].Holds(pda)
  {
    if step.LockNext? {
      LockTakesFree(s, step.w, step.reply);
    }
    if step.Submit? && step.ok {
      assert s.workers[step.w].Holds(s.workers[step.w].phase.pda);
    }
    assert Busy(s, pda) && Unlockable(s, pda);
    UnlockableStep(s, step, pda);
  }

  lemma InvStep(s: State, step: Step)
    requires Inv(s) && Enabled(s, step) && SparesBusy(s, step)
    ensures Inv(Apply(s, step))
  {
    HeldStep(s, step);
    forall pda | pda in Apply(s, step).submitted
      ensures Unlockable(Apply(s, step), pda) && Apply(s, step).submitted[pda] == 1
      ensures forall w :: w in Apply(s, step).workers ==> !Apply(s, step).workers[w].Holds(pda)
    {
      SubmittedStep(s, step, pda);
    }
  }

  lemma {:induction false} InvRun(s: State, run: seq<Step>)
    requires Inv(s) && Legal(s, run) && SparesBusyThroughout(s, run)
    ensures Inv(Exec(s, run))
    decreases |run|
  {
    if run != [] {
      InvStep(s, run[0]);
      InvRun(Apply(s, run[0]), run[1..]);
    }
  }

  /** At most one of any number of workers holds the lock of an agreement, in every state reached without adding
      a row to a busy agreement. */
  lemma ExpiryMutualExclusion(run: seq<Step>)
    requires Legal(INIT, run) && SparesBusyThroughout(INIT, run)
    ensures MutualExclusion(Exec(INIT, run))
    ensures forall pda :: Exec(INIT, run).submitted[pda] <= 1
  {
    InvRun(INIT, run);
  }

  lemma {:induction false} SubmittedGrows(s: State, run: seq<Step>)
    requires Legal(s, run)
    ensures s.submitted <= Exec(s, run).submitted
    decreases |run|
  {
    if run != [] {
      SubmittedGrows(Apply(s, run[0]), run[1..]);
    }
  }

  /** After a submission has succeeded, no worker ever holds the lock of that agreement again, and no second
      submission succeeds, as long as no row is added to a busy agreement. */
  lemma NoSecondExpiry(before: seq<Step>, later: seq<Step>, pda: string)
    requires Legal(INIT, before) && SparesBusyThroughout(INIT, before)
    requires pda in Exec(INIT, before).submitted
    requires Legal(Exec(INIT, before), later) && SparesBusyThroughout(Exec(INIT, before), later)
    ensures var end := Exec(Exec(INIT, before), later);
            end.submitted[pda] == 1 && forall w :: w in end.workers ==> !end.workers[w].Holds(pda)
  {
    InvRun(INIT, before);
    var mid := Exec(INIT, before);
    InvRun(mid, later);
    SubmittedGrows(mid, later);
    assert pda in Exec(mid, later).submitted;
  }

  /** Timely insertions are among the harmless ones: what is busy has no pending row. */
  lemma TimelySparesBusy(s: State, step: Step)
    requires Inv(s) && TimelyInsert(s, step)
    ensures SparesBusy(s, step)
  {
    assert forall pda :: Busy(s, pda) ==> Unlockable(s, pda);
  }

  lemma Prepend(s: State, step: Step, rest: seq<Step>)
    requires Enabled(s, step) && Legal(Apply(s, step), rest)
    ensures Legal(s, [step] + rest)
    ensures Exec(s, [step] + rest) == Exec(Apply(s, step), rest)
    ensures SparesBusyThroughout(s, [step] + rest)
            <==> SparesBusy(s, step) && SparesBusyThroughout(Apply(s, step), rest)
  {
    assert ([step] + rest)[1..] == rest;
  }

  // ---------------------------------------------------------------- only what is due is expired

  /** The state before step i of a run. */
  ghost function At(s: State, run: seq<Step>, i: nat): State
    requires Legal(s, run) && i <= |run|
    decreases i
  {
    if i == 0 then s else At(Apply(s, run[0]), run[1..], i - 1)
  }

  lemma {:induction false} AtNext(s: State, run: seq<Step>, i: nat)
    requires Legal(s, run) && i < |run|
    ensures Enabled(At(s, run, i), run[i]) && At(s, run, i + 1) == Apply(At(s, run, i), run[i])
    decreases i
  {
    if i > 0 {
      assert run[1..][i - 1] == run[i];
      AtNext(Apply(s, run[0]), run[1..], i - 1);
    }
  }

  /** Step i is the worker's scan, and at its time the candidate's agreement had a pending row past its deadline. */
  ghost predicate ScannedDue(s: State, run: seq<Step>, i: nat, w: nat, c: Candidate)
    requires Legal(s, run) && i < |run|
  {
    run[i].Scan? && run[i].w == w &&
    var rows := At(s, run, i).rows;
    exists k :: k in rows && k.pda == c.pda && rows[k].creator == c.creator
                && rows[k].status == PendingSignatures && rows[k].expiresAt < run[i].now
  }

  lemma {:induction false} QueuedWasDue(s: State, run: seq<Step>, j: nat, w: nat, c: Candidate)
    requires Legal(s, run) && j <= |run| && w !in s.workers
    requires w in At(s, run, j).workers && c in At(s, run, j).workers[w].queue
    ensures exists i :: 0 <= i < j && ScannedDue(s, run, i, w, c)
    decreases j
  {
    if j > 0 {
      var before, step := At(s, run, j - 1), run[j - 1];
      AtNext(s, run, j - 1);
      if step.Scan? && step.w == w {
        ScanFindsDue(before.rows, step.now, step.found, c);
        assert ScannedDue(s, run, j - 1, w, c);
      } else {
        assert w in before.workers && c in before.workers[w].queue;
        QueuedWasDue(s, run, j - 1, w, c);
      }
    }
  }

  lemma ScanFindsDue(rows: Table, now: int, found: seq<Candidate>, c: Candidate)
    requires IsScan(rows, now, found) && c in found
    ensures exists k :: k in rows && k.pda == c.pda && rows[k].creator == c.creator
                        && rows[k].status == PendingSignatures && rows[k].expiresAt < now
  {
    assert c in (set d | d in found);
    assert c in Due(rows, now);
  }

  /** In every run, each lock attempt of a worker is on an agreement that had a pending row past its deadline when
      that worker's own scan found it. */
  lemma LockedWasDue(run: seq<Step>, j: nat)
    requires Legal(INIT, run) && j < |run| && run[j].LockNext?
    ensures var w := run[j].w;
            && w in At(INIT, run, j).workers && At(INIT, run, j).workers[w].queue != []
            && var c := At(INIT, run, j).workers[w].queue[0];
               exists i: nat, k :: i < j && run[i].Scan? && run[i].w == w
                                   && k in At(INIT, run, i).rows && k.pda == c.pda
                                   && At(INIT, run, i).rows[k].creator == c.creator
                                   && At(INIT, run, i).rows[k].status == PendingSignatures
                                   && At(INIT, run, i).rows[k].expiresAt < run[i].now
  {
    AtNext(INIT, run, j);
    var w := run[j].w;
    QueuedWasDue(INIT, run, j, w, At(INIT, run, j).workers[w].queue[0]);
    var i :| 0 <= i < j && ScannedDue(INIT, run, i, w, At(INIT, run, j).workers[w].queue[0]);
  }

  // ---------------------------------------------------------------- the condition is exact

  predicate NoInserts(run: seq<Step>) {
    forall i :: 0 <= i < |run| ==> !run[i].Insert?
  }

  /** What the clock shows after a step. */
  function Tick(step: Step, now: int): int {
    match step
    case Scan(_, t, _) => t
    case Insert(_, _, t) => t
    case Sign(_, t) => t
    case _ => now
  }

  /** The clock does not go back. */
  predicate ClockForward(run: seq<Step>, now: int)
    decreases |run|
  {
    run == [] || (now <= Tick(run[0], now) && ClockForward(run[1..], Tick(run[0], now)))
  }

  /** Nothing the workers and the listener can do from here, short of inserting parties, breaks the lock. */
  ghost predicate Secure(s: State, now: int) {
    forall later :: Legal(s, later) && NoInserts(later) && ClockForward(later, now) ==> Exclusive(Exec(s, later))
  }

  ghost predicate SecureThroughout(s: State, run: seq<Step>, now: int)
    requires Legal(s, run)
    decreases |run|
  {
    Secure(s, now) && (run == [] || SecureThroughout(Apply(s, run[0]), run[1..], Tick(run[0], now)))
  }

  lemma {:induction false} NoInsertsSpare(s: State, run: seq<Step>)
    requires Legal(s, run) && NoInserts(run)
    ensures SparesBusyThroughout(s, run) && TimelyInserts(s, run)
    decreases |run|
  {
    if run != [] {
      assert !run[0].Insert? && forall i :: 0 <= i < |run[1..]| ==> run[1..][i] == run[i + 1];
      NoInsertsSpare(Apply(s, run[0]), run[1..]);
    }
  }

  lemma InvIsSecure(s: State, now: int)
    requires Inv(s)
    ensures Secure(s, now)
  {
    forall later | Legal(s, later) && NoInserts(later) && ClockForward(later, now) ensures Exclusive(Exec(s, later)) {
      NoInsertsSpare(s, later);
      InvRun(s, later);
    }
  }

  lemma {:induction false} NewWorker(taken: set<nat>) returns (w: nat)
    ensures forall v :: v in taken ==> v < w
    decreases |taken|
  {
    if taken == {} {
      w := 0;
    } else {
      var v :| v in taken;
      w := NewWorker(taken - {v});
      w := if w <= v then v + 1 else w;
      assert forall u :: u in taken ==> u == v || u in taken - {v};
    }
  }

  /** A query may answer in any order, so with any of its candidates first. */
  lemma {:induction false} Ordered(found: set<Candidate>) returns (order: seq<Candidate>)
    ensures NoDuplicates(order) && (set c | c in order) == found
    decreases |found|
  {
    if found == {} {
      order := [];
    } else {
      var c :| c in found;
      var rest := Ordered(found - {c});
      ConsSet(c, rest);
      order := [c] + rest;
    }
  }

  lemma ConsSet(c: Candidate, rest: seq<Candidate>)
    ensures (set d | d in [c] + rest) == {c} + (set d | d in rest)
    ensures c !in (set d | d in rest) && NoDuplicates(rest) ==> NoDuplicates([c] + rest)
  {
    var all, some := set d | d in [c] + rest, set d | d in rest;
    forall d ensures d in all <==> d == c || d in some {
      assert d in [c] + rest <==> d == c || d in rest;
    }
    assert all == {c} + some;
  }

  lemma FirstInOrder(found: set<Candidate>, c: Candidate) returns (order: seq<Candidate>)
    requires c in found
    ensures NoDuplicates(order) && (set d | d in order) == found && order != [] && order[0] == c
  {
    var rest := Ordered(found - {c});
    ConsSet(c, rest);
    order := [c] + rest;
  }

  /** A pending row of a busy agreement lets one more worker, once that row is due, win the lock. */
  lemma PendingRowIsFatal(s: State, k: Key, now: int) returns (run: seq<Step>)
    requires k in s.rows && s.rows[k].status.PendingSignatures? && Busy(s, k.pda)
    ensures Legal(s, run) && NoInserts(run) && ClockForward(run, now) && !Exclusive(Exec(s, run))
  {
    var w := NewWorker(s.workers.Keys);
    assert w !in s.workers;
    var t := 1 + if now < s.rows[k].expiresAt then s.rows[k].expiresAt else now;
    var c := Candidate(k.pda, s.rows[k].creator);
    assert c in Due(s.rows, t);
    var found := FirstInOrder(Due(s.rows, t), c);
    var s1 := Apply(s, Spawn(w));
    var s2 := Apply(s1, Scan(w, t, found));
    assert Enabled(s2, LockNext(w, Done));
    var s3 := Apply(s2, LockNext(w, Done));
    assert s3.workers[w].Holds(k.pda) by {
      assert k in s2.rows && s2.rows[k].status in {PendingSignatures};
    }
    SecondHolder(s, s3, w, k.pda);
    Prepend(s2, LockNext(w, Done), []);
    Prepend(s1, Scan(w, t, found), [LockNext(w, Done)] + []);
    run := [Scan(w, t, found)] + ([LockNext(w, Done)] + []);
    Prepend(s, Spawn(w), run);
    run := [Spawn(w)] + run;
    assert run[1..][1..] == [LockNext(w, Done)] && run[1..][1..][1..] == [];
    assert ClockForward(run[1..][1..], t) && ClockForward(run[1..], now);
  }

  lemma SecondHolder(s: State, after: State, w: nat, pda: string)
    requires Busy(s, pda) && w !in s.workers && w in after.workers && after.workers[w].Holds(pda)
    requires after.submitted == s.submitted
    requires forall v :: v in s.workers ==> v in after.workers && after.workers[v] == s.workers[v]
    ensures !Exclusive(after)
  {
    if pda !in s.submitted {
      var v :| v in s.workers && s.workers[v].Holds(pda);
      assert after.workers[v].Holds(pda) && v != w;
    }
  }

  lemma LateRowIsInsecure(s: State, step: Step, now: int)
    requires Enabled(s, step) && !SparesBusy(s, step)
    ensures !Secure(Apply(s, step), now)
  {
    var after := Apply(s, step);
    assert Busy(after, step.k.pda);
    var run := PendingRowIsFatal(after, step.k, now);
  }

  /** The lock excludes at every moment of a run, and in all that can still follow without insertions, exactly when
      no step of the run adds a row to an agreement that is held or has been submitted. */
  lemma {:induction false} SecureIffSparesBusy(s: State, run: seq<Step>, now: int)
    requires Inv(s) && Legal(s, run) && ClockForward(run, now)
    ensures SecureThroughout(s, run, now) <==> SparesBusyThroughout(s, run)
    decreases |run|
  {
    InvIsSecure(s, now);
    if run != [] {
      var next, t := Apply(s, run[0]), Tick(run[0], now);
      if SparesBusy(s, run[0]) {
        InvStep(s, run[0]);
        SecureIffSparesBusy(next, run[1..], t);
      } else {
        LateRowIsInsecure(s, run[0], t);
        assert !SecureThroughout(next, run[1..], t);
      }
    }
  }

  lemma ExclusionIff(run: seq<Step>, start: int)
    requires Legal(INIT, run) && ClockForward(run, start)
    ensures SecureThroughout(INIT, run, start) <==> SparesBusyThroughout(INIT, run)
  {
    SecureIffSparesBusy(INIT, run, start);
  }

  /** Two workers that have both found the agreement due, the first holding its lock. */
  function FirstHolds(p: Key): State {
    State(map[p := Row("c", Expiring, SIGNING_WINDOW_SECONDS, None)],
          map[0 := Worker([], Holding(p.pda)), 1 := Worker([Candidate(p.pda, "c")], Between)], multiset{})
  }

  const DUE := SIGNING_WINDOW_SECONDS + 1

  function BothFind(p: Key): seq<Step> {
    [Spawn(0), Spawn(1), Insert(p, "c", 0)]
    + [Scan(0, DUE, [Candidate(p.pda, "c")]), Scan(1, DUE, [Candidate(p.pda, "c")])]
  }

  function FirstLock(p: Key): seq<Step> {
    BothFind(p) + [LockNext(0, Done)]
  }

  function Found(p: Key): State {
    State(map[p := Row("c", PendingSignatures, SIGNING_WINDOW_SECONDS, None)],
          map[0 := Worker([Candidate(p.pda, "c")], Between), 1 := Worker([Candidate(p.pda, "c")], Between)], multiset{})
  }

  lemma ScanBoth(p: Key, s3: State, tail: seq<Step>)
    requires s3 == Found(p).(workers := map[0 := Worker([], Between), 1 := Worker([], Between)])
    requires Legal(Found(p), tail)
    ensures var run := [Scan(0, DUE, [Candidate(p.pda, "c")])] + ([Scan(1, DUE, [Candidate(p.pda, "c")])] + tail);
            && Legal(s3, run) && Exec(s3, run) == Exec(Found(p), tail)
            && (!SparesBusyThroughout(Found(p), tail) ==> !SparesBusyThroughout(s3, run))
  {
    var c := Candidate(p.pda, "c");
    var s4 := s3.(workers := map[0 := Worker([c], Between), 1 := Worker([], Between)]);
    assert IsScan(s3.rows, DUE, [c]) by {
      assert p in s3.rows;
    }
    assert Apply(s3, Scan(0, DUE, [c])).workers == s4.workers;
    assert Apply(s4, Scan(1, DUE, [c])).workers == Found(p).workers;
    Prepend(s4, Scan(1, DUE, [c]), tail);
    Prepend(s3, Scan(0, DUE, [c]), [Scan(1, DUE, [c])] + tail);
  }

  lemma ReachFound(p: Key, tail: seq<Step>)
    requires Legal(Found(p), tail)
    ensures Legal(INIT, BothFind(p) + tail) && Exec(INIT, BothFind(p) + tail) == Exec(Found(p), tail)
    ensures !SparesBusyThroughout(Found(p), tail) ==> !SparesBusyThroughout(INIT, BothFind(p) + tail)
  {
    var c := Candidate(p.pda, "c");
    var s1 := State(map[], map[0 := Worker([], Between)], multiset{});
    var s2 := State(map[], map[0 := Worker([], Between), 1 := Worker([], Between)], multiset{});
    var s3 := s2.(rows := Found(p).rows);
    assert Apply(INIT, Spawn(0)).workers == s1.workers;
    assert Apply(s1, Spawn(1)).workers == s2.workers;
    assert Apply(s2, Insert(p, "c", 0)).rows == s3.rows;
    ScanBoth(p, s3, tail);
    var run := [Scan(0, DUE, [c])] + ([Scan(1, DUE, [c])] + tail);
    Prepend(s2, Insert(p, "c", 0), run);
    run := [Insert(p, "c", 0)] + run;
    Prepend(s1, Spawn(1), run);
    run := [Spawn(1)] + run;
    Prepend(INIT, Spawn(0), run);
    assert BothFind(p) + tail == [Spawn(0)] + run;
  }

  lemma ReachFirstHolds(p: Key, tail: seq<Step>)
    requires Legal(FirstHolds(p), tail)
    ensures Legal(INIT, FirstLock(p) + tail) && Exec(INIT, FirstLock(p) + tail) == Exec(FirstHolds(p), tail)
    ensures !SparesBusyThroughout(FirstHolds(p), tail) ==> !SparesBusyThroughout(INIT, FirstLock(p) + tail)
  {
    LockFirst(p);
    Prepend(Found(p), LockNext(0, Done), tail);
    ReachFound(p, [LockNext(0, Done)] + tail);
    assert FirstLock(p) + tail == BothFind(p) + ([LockNext(0, Done)] + tail);
  }

  lemma LockFirst(p: Key)
    ensures Enabled(Found(p), LockNext(0, Done)) && Apply(Found(p), LockNext(0, Done)) == FirstHolds(p)
  {
    var s := Found(p);
    assert p in s.rows && s.rows[p].status in {PendingSignatures};
    assert [Candidate(p.pda, "c")][1..] == [];
    assert Apply(s, LockNext(0, Done)).rows == FirstHolds(p).rows;
    assert Apply(s, LockNext(0, Done)).workers == FirstHolds(p).workers;
  }

  lemma SecondHoldsToo(p: Key, q: Key)
    requires p != q && p.pda == q.pda
    ensures var run := [Insert(q, "c", DUE), LockNext(1, Done)];
            && Legal(FirstHolds(p), run) && !SparesBusyThroughout(FirstHolds(p), run)
            && !MutualExclusion(Exec(FirstHolds(p), run))
  {
    var s := FirstHolds(p);
    assert s.workers[0].Holds(p.pda);
    var s1 := Apply(s, Insert(q, "c", DUE));
    var s2 := Apply(s1, LockNext(1, Done));
    assert s2.workers[0].Holds(p.pda) && s2.workers[1].Holds(p.pda) by {
      assert q in s1.rows && s1.rows[q].status in {PendingSignatures};
    }
    Prepend(s1, LockNext(1, Done), []);
    Prepend(s, Insert(q, "c", DUE), [LockNext(1, Done)] + []);
    assert [Insert(q, "c", DUE)] + ([LockNext(1, Done)] + []) == [Insert(q, "c", DUE), LockNext(1, Done)];
  }

  /** One instant is enough: two workers find an agreement due, the first locks it, a replayed creation adds a
      party, and the second worker's attempt, already queued, finds that row pending. */
  lemma LateInsertBreaksExclusion() returns (run: seq<Step>)
    ensures Legal(INIT, run) && ClockForward(run, 0)
    ensures |run| == 8 && forall i :: 3 <= i < 8 ==> Tick(run[i], DUE) == DUE
    ensures run[5] == LockNext(0, Done) && run[6].Insert? && run[7] == LockNext(1, Done)
    ensures !SparesBusyThroughout(INIT, run) && !MutualExclusion(Exec(INIT, run))
  {
    var p, q := Key("A", "p"), Key("A", "q");
    assert p.party[0] != q.party[0];
    var tail := [Insert(q, "c", DUE), LockNext(1, Done)];
    SecondHoldsToo(p, q);
    ReachFirstHolds(p, tail);
    run := FirstLock(p) + tail;
    assert run == [Spawn(0), Spawn(1), Insert(p, "c", 0), Scan(0, DUE, [Candidate(p.pda, "c")]),
                   Scan(1, DUE, [Candidate(p.pda, "c")]), LockNext(0, Done)] + tail;
    TwoInstants(run);
  }

  lemma TwoInstants(run: seq<Step>)
    requires |run| >= 3 && run[0].Spawn? && run[1].Spawn? && run[2].Insert? && run[2].now == 0
    requires forall i :: 3 <= i < |run| ==> Tick(run[i], DUE) == DUE
    requires |run| > 3 ==> run[3].Scan?
    ensures ClockForward(run, 0)
  {
    var later := run[3..];
    if later != [] {
      SameInstant(later[1..]);
      assert Tick(later[0], 0) == DUE;
    }
    assert run[2..][1..] == later && run[1..][1..] == run[2..];
    assert ClockForward(later, 0);
    assert ClockForward(run[2..], 0);
    assert ClockForward(run[1..], 0);
  }

  lemma {:induction false} SameInstant(run: seq<Step>)
    requires forall i :: 0 <= i < |run| ==> Tick(run[i], DUE) == DUE
    ensures ClockForward(run, DUE)
  {
    if run != [] {
      assert forall i :: 0 <= i < |run[1..]| ==> run[1..][i] == run[i + 1];
      SameInstant(run[1..]);
    }
  }
}

/** The worker's cycle and the listener's handlers as they run, statement after statement. */
module ExpiryWorker {
  import opened Common
  import opened AgreementTable
  import P = ExpiryProtocol

  /** What the database and the chain answer while one candidate is handled. */
  datatype Answers = Answers(lock: Reply, submitted: bool, unlock: Reply)

  datatype Ledger = Ledger(rows: Table, submitted: multiset<string>)

  /** One candidate: lock, submit if the lock was won, give the lock back if the submission failed. */
  function Visit(l: Ledger, pda: string, a: Answers): Ledger {
    var locked := if a.lock.TookEffect() then LockRows(l.rows, pda) else l.rows;
    if !(a.lock.Done? && Matches(l.rows, pda, {PendingSignatures})) then l.(rows := locked)
    else if a.submitted then Ledger(locked, l.submitted + multiset{pda})
    else Ledger(if a.unlock.TookEffect() then UnlockRows(locked, pda) else locked, l.submitted)
  }

  function Cycle(l: Ledger, found: seq<Candidate>, env: Candidate -> Answers): Ledger
    decreases |found|
  {
    if found == [] then l else Cycle(Visit(l, found[0].pda, env(found[0])), found[1..], env)
  }

  lemma {:induction false} CycleSnoc(l: Ledger, found: seq<Candidate>, c: Candidate, env: Candidate -> Answers)
    ensures Cycle(l, found + [c], env) == Visit(Cycle(l, found, env), c.pda, env(c))
    decreases |found|
  {
    if found == [] {
      assert (found + [c])[1..] == [];
    } else {
      assert (found + [c])[1..] == found[1..] + [c];
      CycleSnoc(Visit(l, found[0].pda, env(found[0])), found[1..], c, env);
    }
  }

  lemma VisitedIff(rows: Table, now: int, visited: seq<Candidate>)
    requires IsScan(rows, now, visited)
    ensures forall pda, creator ::
              Candidate(pda, creator) in visited <==>
              exists k :: k in rows && k.pda == pda && rows[k].creator == creator
                          && rows[k].status == PendingSignatures && rows[k].expiresAt < now
  {
    var found := set d | d in visited;
    assert forall c :: c in visited <==> c in found;
    forall pda, creator
      ensures Candidate(pda, creator) in visited <==>
              exists k :: k in rows && k.pda == pda && rows[k].creator == creator
                          && rows[k].status == PendingSignatures && rows[k].expiresAt < now
    {
      DueIff(rows, now, Candidate(pda, creator));
    }
  }

  lemma SparedUnlessDue(rows: Table, after: Table, now: int, visited: seq<Candidate>)
    requires IsScan(rows, now, visited) && after.Keys == rows.Keys
    requires forall k :: k in rows && (forall c :: c in visited ==> c.pda != k.pda) ==> after[k] == rows[k]
    ensures forall k :: k in after ==>
              || after[k] == rows[k]
              || exists j :: j in rows && j.pda == k.pda
                             && rows[j].status == PendingSignatures && rows[j].expiresAt < now
  {
    forall k | k in after && after[k] != rows[k]
      ensures exists j :: j in rows && j.pda == k.pda
                          && rows[j].status == PendingSignatures && rows[j].expiresAt < now
    {
      var c :| c in visited && c.pda == k.pda;
      VisitedIff(rows, now, visited);
      assert Candidate(c.pda, c.creator) in visited;
    }
  }

  /** The lock is won when the answered UPDATE finds a pending row; a submission that succeeds is counted then and
      only then; and the agreement ends being expired, unless the lock was given back. */
  lemma VisitMeans(l: Ledger, pda: string, a: Answers)
    ensures var v := Visit(l, pda, a);
            var won := a.lock.Done? && exists k :: k in l.rows && k.pda == pda && l.rows[k].status == PendingSignatures;
            && v.submitted == l.submitted + (if won && a.submitted then multiset{pda} else multiset{})
            && v.rows.Keys == l.rows.Keys
            && forall k :: k in l.rows ==>
                 v.rows[k] ==
                 if k.pda != pda || a.lock.Failed? then l.rows[k]
                 else if won && !a.submitted && !a.unlock.Failed? then
                   l.rows[k].(status := if l.rows[k].status == Expiring then PendingSignatures else l.rows[k].status)
                 else
                   l.rows[k].(status := if l.rows[k].status == PendingSignatures then Expiring else l.rows[k].status)
  {}

  /** A cycle leaves the agreements it does not visit alone. */
  lemma {:induction false} CycleSpares(l: Ledger, found: seq<Candidate>, env: Candidate -> Answers)
    ensures Cycle(l, found, env).rows.Keys == l.rows.Keys
    ensures forall k :: k in l.rows && (forall c :: c in found ==> c.pda != k.pda) ==>
              Cycle(l, found, env).rows[k] == l.rows[k]
    decreases |found|
  {
    if found != [] {
      VisitMeans(l, found[0].pda, env(found[0]));
      CycleSpares(Visit(l, found[0].pda, env(found[0])), found[1..], env);
      assert found[0] in found && forall c :: c in found[1..] ==> c in found;
    }
  }

  class AgreementParties {
    var rows: Table
    var submitted: multiset<string>

    constructor ()
      ensures rows == map[] && submitted == multiset{}
    {
      rows, submitted := map[], multiset{};
    }

    ghost function View(): Ledger
      reads this
    {
      Ledger(rows, submitted)
    }

    /** True exactly when the UPDATE changed a row. */
    method LockAgreementForExpiry(pda: string) returns (locked: bool)
      modifies this`rows
      ensures rows == LockRows(old(rows), pda) && rows.Keys == old(rows).Keys
      ensures forall k :: k in rows ==>
                rows[k] == if k.pda == pda && old(rows)[k].status == PendingSignatures
                           then old(rows)[k].(status := Expiring) else old(rows)[k]
      ensures locked <==> exists k :: k in old(rows) && k.pda == pda && rows[k] != old(rows)[k]
    {
      locked := Matches(rows, pda, {PendingSignatures});
      rows := LockRows(rows, pda);
    }

    method UnlockAgreementFromExpiry(pda: string)
      modifies this`rows
      ensures rows == UnlockRows(old(rows), pda) && rows.Keys == old(rows).Keys
      ensures forall k :: k in rows ==>
                rows[k] == if k.pda == pda && old(rows)[k].status == Expiring
                           then old(rows)[k].(status := PendingSignatures) else old(rows)[k]
    {
      rows := UnlockRows(rows, pda);
    }

    method HandleCandidate(pda: string, a: Answers)
      modifies this
      ensures View() == Visit(old(View()), pda, a)
    {
      if a.lock.TookEffect() {
        var locked := LockAgreementForExpiry(pda);
        if a.lock.Done? && locked {
          if a.submitted {
            submitted := submitted + multiset{pda};
          } else if a.unlock.TookEffect() {
            UnlockAgreementFromExpiry(pda);
          }
        }
      }
    }

    /** One cycle of the worker, with no other writer in between; visited is the order the query answered in. Exactly
        the agreements with a pending row past its deadline are visited, and no other row is touched. */
    method ExpireDueAgreements(now: int, env: Candidate -> Answers) returns (visited: seq<Candidate>)
      modifies this
      ensures IsScan(old(rows), now, visited) && NoDuplicates(visited)
      ensures forall pda, creator ::
                Candidate(pda, creator) in visited <==>
                exists k :: k in old(rows) && k.pda == pda && old(rows)[k].creator == creator
                            && old(rows)[k].status == PendingSignatures && old(rows)[k].expiresAt < now
      ensures rows.Keys == old(rows).Keys
      ensures forall k :: k in rows ==>
                || rows[k] == old(rows)[k]
                || exists j :: j in old(rows) && j.pda == k.pda
                               && old(rows)[j].status == PendingSignatures && old(rows)[j].expiresAt < now
      ensures View() == Cycle(old(View()), visited, env)
    {
      var todo := Due(rows, now);
      visited := [];
      while todo != {}
        invariant todo <= Due(old(rows), now)
        invariant NoDuplicates(visited) && (set c | c in visited) == Due(old(rows), now) - todo
        invariant View() == Cycle(old(View()), visited, env)
        decreases todo
      {
        var c :| c in todo;
        HandleCandidate(c.pda, env(c));
        CycleSnoc(old(View()), visited, c, env);
        assert (set d | d in visited + [c]) == (set d | d in visited) + {c};
        visited, todo := visited + [c], todo - {c};
      }
      VisitedIff(old(rows), now, visited);
      CycleSpares(old(View()), visited, env);
      SparedUnlessDue(old(rows), rows, now, visited);
    }

    /** The listener inserts the parties of a CreateAgreement event one statement at a time. */
    method HandleCreateAgreement(pda: string, creator: string, parties: seq<string>, now: int)
      modifies this`rows
      ensures rows == InsertRows(old(rows), pda, parties, creator, now)
      ensures forall k :: k in rows <==> k in old(rows) || (k.pda == pda && k.party in parties)
      ensures forall k :: k in rows ==>
                rows[k] == if k in old(rows) then old(rows)[k] else Row(creator, PendingSignatures, now + 2592000, None)
    {
      InsertRowsEffect(rows, pda, parties, creator, now);
      for i := 0 to |parties|
        invariant InsertRows(rows, pda, parties[i..], creator, now) == InsertRows(old(rows), pda, parties, creator, now)
      {
        rows := InsertRow(rows, Key(pda, parties[i]), creator, now);
        assert parties[i..][1..] == parties[i + 1..];
      }
    }

    /** The signature is recorded for a known party; complete says whether it was the last one missing. */
    method HandleSignAgreement(pda: string, signer: string, now: int) returns (found: bool, complete: bool)
      modifies this`rows
      ensures rows == SignRow(old(rows), Key(pda, signer), now) && rows.Keys == old(rows).Keys
      ensures found <==> Key(pda, signer) in old(rows)
      ensures forall k :: k in rows ==>
                && rows[k].creator == old(rows)[k].creator && rows[k].status == old(rows)[k].status
                && rows[k].expiresAt == old(rows)[k].expiresAt
                && rows[k].signedAt == if k == Key(pda, signer) then Some(now) else old(rows)[k].signedAt
      ensures complete <==>
                && found
                && forall k :: k in old(rows) && k.pda == pda && k.party != signer ==> old(rows)[k].signedAt != None
    {
      found, complete := Key(pda, signer) in rows, false;
      if found {
        rows := SignRow(rows, Key(pda, signer), now);
        complete := forall k | k in rows :: k.pda == pda ==> rows[k].signedAt.Some?;
      }
    }

    method HandleCancellation(pda: string, to: PartyStatus)
      requires to == Cancelled || to == Expired
      modifies this`rows
      ensures rows == CloseRows(old(rows), pda, to) && rows.Keys == old(rows).Keys
      ensures forall k :: k in rows ==>
                rows[k] == if k.pda == pda then old(rows)[k].(status := to) else old(rows)[k]
    {
      rows := CloseRows(rows, pda, to);
    }
  }

  /** A signature and a closing event are one step each. */
  lemma EventsAreRuns(s: P.State, pda: string, signer: string, now: int, to: PartyStatus)
    requires to == Cancelled || to == Expired
    ensures var sign, close := [P.Sign(Key(pda, signer), now)], [P.Close(pda, to)];
            && P.Legal(s, sign) && P.Exec(s, sign) == s.(rows := SignRow(s.rows, Key(pda, signer), now))
            && P.Legal(s, close) && P.Exec(s, close) == s.(rows := CloseRows(s.rows, pda, to))
  {
    P.Prepend(s, P.Sign(Key(pda, signer), now), []);
    P.Prepend(s, P.Close(pda, to), []);
    assert P.Legal(P.Apply(s, P.Sign(Key(pda, signer), now)), []) && P.Legal(P.Apply(s, P.Close(pda, to)), []);
  }

  /** The insertions of one CreateAgreement event, with nothing in between, are a run of the protocol. */
  lemma {:induction false} CreationIsARun(s: P.State, pda: string, parties: seq<string>, creator: string, now: int)
    returns (run: seq<P.Step>)
    ensures P.Legal(s, run) && P.Exec(s, run) == s.(rows := InsertRows(s.rows, pda, parties, creator, now))
    ensures |run| == |parties| && forall i :: 0 <= i < |run| ==> run[i] == P.Insert(Key(pda, parties[i]), creator, now)
    decreases |parties|
  {
    if parties == [] {
      run := [];
    } else {
      var step := P.Insert(Key(pda, parties[0]), creator, now);
      run := CreationIsARun(P.Apply(s, step), pda, parties[1..], creator, now);
      P.Prepend(s, step, run);
      run := [step] + run;
    }
  }

  function AfterVisit(s: P.State, w: nat, a: Answers): P.State
    requires w in s.workers && s.workers[w].queue != []
  {
    var l := Visit(Ledger(s.rows, s.submitted), s.workers[w].queue[0].pda, a);
    P.State(l.rows, s.workers[w := P.Worker(s.workers[w].queue[1..], P.Between)], l.submitted)
  }

  /** One candidate handled, and then whatever follows. */
  lemma VisitIsARun(s: P.State, w: nat, a: Answers, tail: seq<P.Step>) returns (run: seq<P.Step>)
    requires w in s.workers && s.workers[w].phase.Between? && s.workers[w].queue != []
    requires P.Legal(AfterVisit(s, w, a), tail) && P.NoInserts(tail)
    ensures P.Legal(s, run) && P.NoInserts(run) && P.Exec(s, run) == P.Exec(AfterVisit(s, w, a), tail)
  {
    var s1 := P.Apply(s, P.LockNext(w, a.lock));
    run := tail;
    if s1.workers[w].phase.Holding? {
      var s2 := P.Apply(s1, P.Submit(w, a.submitted));
      if a.submitted {
        assert s2 == AfterVisit(s, w, a);
      } else {
        assert P.Apply(s2, P.Unlock(w, a.unlock)) == AfterVisit(s, w, a);
        P.Prepend(s2, P.Unlock(w, a.unlock), run);
        run := [P.Unlock(w, a.unlock)] + run;
      }
      P.Prepend(s1, P.Submit(w, a.submitted), run);
      run := [P.Submit(w, a.submitted)] + run;
    } else {
      assert s1 == AfterVisit(s, w, a);
    }
    P.Prepend(s, P.LockNext(w, a.lock), run);
    run := [P.LockNext(w, a.lock)] + run;
  }

  /** Each uninterrupted cycle is a run of the protocol by that worker alone, so what holds of all interleavings
      holds of the worker's own code. */
  lemma {:induction false} CycleIsARun(s: P.State, w: nat, env: Candidate -> Answers) returns (run: seq<P.Step>)
    requires w in s.workers && s.workers[w].phase.Between?
    ensures P.Legal(s, run)
    ensures var l := Cycle(Ledger(s.rows, s.submitted), s.workers[w].queue, env);
            P.Exec(s, run) == P.State(l.rows, s.workers[w := P.Worker([], P.Between)], l.submitted)
    ensures P.NoInserts(run)
    decreases |s.workers[w].queue|
  {
    var queue := s.workers[w].queue;
    if queue == [] {
      run := [];
      assert s.workers == s.workers[w := P.Worker([], P.Between)];
    } else {
      var a := env(queue[0]);
      run := CycleIsARun(AfterVisit(s, w, a), w, env);
      run := VisitIsARun(s, w, a, run);
    }
  }
}

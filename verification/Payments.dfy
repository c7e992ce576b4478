/** The table `agreement_payments`: its statements and its sequential handlers. */
module PaymentTable {
  import opened Common
  import opened Fees

  datatype Status = Pending | Confirmed | Expired | RefundPending | Refunded

  /** The moves a payment is meant to make. */
  predicate Edge(a: Status, b: Status) {
    match a
    case Pending => b.Confirmed? || b.Expired?
    case Confirmed => b.RefundPending?
    case Expired => b.RefundPending?
    case RefundPending => b.Refunded?
    case Refunded => false
  }

  predicate IsPath(h: seq<Status>) {
    && h != [] && h[0] == Pending
    && forall i :: 0 < i < |h| ==> Edge(h[i - 1], h[i])
  }

  /** A row, with two history variables: every value ever written to the status column, and the number of
      refund transfers that have succeeded for the row. A row is named by its position in the table. */
  datatype Payment = Payment(
    status: Status, createdAt: int, reference: Option<string>, draft: nat, pda: Option<string>,
    refundAmount: Option<i64>, written: seq<Status>, transfers: nat)
  {
    function Write(to: Status): Payment {
      this.(status := to, written := written + [to])
    }

    /** The worker reads NULL as 0 and casts the signed column to u64. */
    function TransferUnits(): u64 {
      match refundAmount
      case None => 0
      case Some(a) => WrapU64(a)
    }
  }

  type Table = seq<Payment>

  const PAYMENT_WINDOW_SECONDS := 900
  const RECONCILE_WINDOW_SECONDS := 3600
  const REFUND_BATCH := 10

  /** The INSERT of initiate_payment; token_reference_pubkey is UNIQUE. */
  predicate CanInsert(t: Table, p: Payment) {
    && p.status.Pending? && p.written == [Pending] && p.transfers == 0 && p.pda.None?
    && p.reference.Some? && forall i :: 0 <= i < |t| ==> t[i].reference != p.reference
  }

  /** UPDATE ... SET status = to WHERE id = i, without a guard on the status. */
  function WriteById(t: Table, i: nat, to: Status): Table {
    if i < |t| then t[i := t[i].Write(to)] else t
  }

  /** A successful refund transfer for row i, and what it takes from the treasury. */
  function CountTransfer(t: Table, i: nat): Table {
    if i < |t| then t[i := t[i].(transfers := t[i].transfers + 1)] else t
  }

  function UnitsOf(t: Table, i: nat): u64 {
    if i < |t| then t[i].TransferUnits() else 0
  }

  function ConfirmRows(t: Table, reference: string): Table {
    seq(|t|, i requires 0 <= i < |t| =>
      if t[i].reference == Some(reference) && t[i].status.Pending? then t[i].Write(Confirmed) else t[i])
  }

  function ExpireRows(t: Table, now: int): Table {
    seq(|t|, i requires 0 <= i < |t| =>
      if t[i].status.Pending? && t[i].createdAt < now - PAYMENT_WINDOW_SECONDS then t[i].Write(Expired) else t[i])
  }

  /** submit_draft records the agreement on the confirmed payments of its draft. */
  function AttachRows(t: Table, draft: nat, pda: string): Table {
    seq(|t|, i requires 0 <= i < |t| =>
      if t[i].draft == draft && t[i].status.Confirmed? then t[i].(pda := Some(pda)) else t[i])
  }

  /** UPDATE ... SET status = 'refunded' WHERE id = i AND status = 'refund_pending'. */
  function MarkRefunded(t: Table, i: nat): Table {
    if i < |t| && t[i].status.RefundPending? then WriteById(t, i, Refunded) else t
  }

  predicate Has(t: Table, i: nat, status: Status) {
    i < |t| && t[i].status == status
  }

  predicate IsLate(t: Table, now: int, i: nat) {
    i < |t| && t[i].status.Expired? && t[i].createdAt > now - RECONCILE_WINDOW_SECONDS && t[i].reference.Some?
  }

  predicate IsPaidFor(t: Table, pda: string, i: nat) {
    i < |t| && t[i].pda == Some(pda) && t[i].status.Confirmed?
  }

  predicate IsBatch(t: Table, batch: seq<nat>) {
    && |batch| <= REFUND_BATCH
    && forall i :: i in batch ==> Has(t, i, RefundPending) && t[i].pda.Some?
  }

  /** What the table says the treasury has returned. */
  function RefundedSum(t: Table): nat {
    if t == [] then 0
    else (if t[0].status.Refunded? then t[0].TransferUnits() else 0) + RefundedSum(t[1..])
  }

  lemma {:induction false} RefundedSumUpdate(t: Table, i: nat, p: Payment)
    requires i < |t|
    ensures RefundedSum(t[i := p])
         == RefundedSum(t) - (if t[i].status.Refunded? then t[i].TransferUnits() else 0)
                           + (if p.status.Refunded? then p.TransferUnits() else 0)
  {
    if i == 0 {
      assert t[0 := p][1..] == t[1..];
    } else {
      assert t[i := p][1..] == t[1..][i - 1 := p];
      RefundedSumUpdate(t[1..], i - 1, p);
    }
  }

  /** Rows that agree on the amount and on being refunded add up to the same. */
  lemma {:induction false} RefundedSumSame(t: Table, u: Table)
    requires |t| <= |u|
    requires forall i :: 0 <= i < |t| ==> t[i].TransferUnits() == u[i].TransferUnits()
    requires forall i :: 0 <= i < |t| ==> (t[i].status.Refunded? <==> u[i].status.Refunded?)
    requires forall i :: |t| <= i < |u| ==> !u[i].status.Refunded?
    ensures RefundedSum(t) == RefundedSum(u)
  {
    if u != [] {
      if t != [] {
        RefundedSumSame(t[1..], u[1..]);
      } else {
        RefundedSumSame(t, u[1..]);
      }
    }
  }
}

/** Keepers, listeners, refund workers and request handlers over one table, one statement or transfer a step.
    The actors are given by a configuration, so that "exactly one of each" is a hypothesis, not a definition. */
module PaymentProtocol {
  import opened Common
  import opened Fees
  import opened PaymentTable

  datatype Config = Config(keepers: set<nat>, listeners: set<nat>, refunders: set<nat>)

  /** A refund worker between its statements: what is left of its batch, and the payment whose transfer has
      just succeeded and has yet to be marked. */
  datatype Refunder = Refunder(batch: seq<nat>, marking: Option<nat>)

  datatype State = State(
    t: Table, keeper: map<nat, seq<nat>>, listener: map<nat, Option<nat>>, refunder: map<nat, Refunder>, outflow: nat)

  datatype Step =
    | Initiate(p: Payment)
    | Confirm(reference: string)
    | Attach(draft: nat, pda: string)
    | ExpireTimedOut(k: nat, now: int)
    | KeeperScan(k: nat, now: int, late: seq<nat>)
    | KeeperVisit(k: nat, exists_: bool, reply: Reply)
    | ListenerRead(l: nat, pda: string, found: Option<nat>)
    | ListenerWrite(l: nat, reply: Reply)
    | RefundScan(r: nat, batch: seq<nat>)
    | Transfer(r: nat, ok: bool)
    | Mark(r: nat, reply: Reply)

  function Init(c: Config): State {
    State([], map k | k in c.keepers :: [], map l | l in c.listeners :: None,
          map r | r in c.refunders :: Refunder([], None), 0)
  }

  ghost predicate Enabled(s: State, step: Step) {
    match step
    case Initiate(p) => CanInsert(s.t, p)
    case Confirm(_) => true
    case Attach(_, _) => true
    case ExpireTimedOut(k, _) => k in s.keeper && s.keeper[k] == []
    case KeeperScan(k, now, late) =>
      && k in s.keeper && s.keeper[k] == [] && NoDuplicates(late)
      && forall i: nat :: i in late <==> IsLate(s.t, now, i)
    case KeeperVisit(k, _, _) => k in s.keeper && s.keeper[k] != []
    case ListenerRead(l, pda, found) =>
      && l in s.listener && s.listener[l].None?
      && (match found
          case Some(i) => IsPaidFor(s.t, pda, i)
          case None => forall i: nat :: !IsPaidFor(s.t, pda, i))
    case ListenerWrite(l, _) => l in s.listener && s.listener[l].Some?
    case RefundScan(r, batch) => r in s.refunder && s.refunder[r] == Refunder([], None) && IsBatch(s.t, batch)
    case Transfer(r, _) => r in s.refunder && s.refunder[r].batch != [] && s.refunder[r].marking.None?
    case Mark(r, _) => r in s.refunder && s.refunder[r].marking.Some?
  }

  ghost function Apply(s: State, step: Step): State
    requires Enabled(s, step)
  {
    match step
    case Initiate(p) => s.(t := s.t + [p])
    case Confirm(reference) => s.(t := ConfirmRows(s.t, reference))
    case Attach(draft, pda) => s.(t := AttachRows(s.t, draft, pda))
    case ExpireTimedOut(_, now) => s.(t := ExpireRows(s.t, now))
    case KeeperScan(k, _, late) => s.(keeper := s.keeper[k := late])
    case KeeperVisit(k, exists_, reply) =>
      s.(t := if exists_ && reply.TookEffect() then WriteById(s.t, s.keeper[k][0], RefundPending) else s.t,
         keeper := s.keeper[k := s.keeper[k][1..]])
    case ListenerRead(l, _, found) => s.(listener := s.listener[l := found])
    case ListenerWrite(l, reply) =>
      s.(t := if reply.TookEffect() then WriteById(s.t, s.listener[l].value, RefundPending) else s.t,
         listener := s.listener[l := None])
    case RefundScan(r, batch) => s.(refunder := s.refunder[r := Refunder(batch, None)])
    case Transfer(r, ok) =>
      var i := s.refunder[r].batch[0];
      var rest := s.refunder[r].batch[1..];
      if ok then
        s.(t := CountTransfer(s.t, i),
           refunder := s.refunder[r := Refunder(rest, Some(i))],
           outflow := s.outflow + UnitsOf(s.t, i))
      else s.(refunder := s.refunder[r := Refunder(rest, None)])
    case Mark(r, reply) =>
      s.(t := if reply.TookEffect() then MarkRefunded(s.t, s.refunder[r].marking.value) else s.t,
         refunder := s.refunder[r := s.refunder[r].(marking := None)])
  }

  ghost predicate Legal(s: State, run: seq<Step>)
    decreases |run|
  {
    run == [] || (Enabled(s, run[0]) && Legal(Apply(s, run[0]), run[1..]))
  }

  ghost function Exec(s: State, run: seq<Step>): State
    requires Legal(s, run)
    decreases |run|
  {
    if run == [] then s else Exec(Apply(s, run[0]), run[1..])
  }

  // ---------------------------------------------------------------- the status column

  /** Every row has only ever made legal moves, and its status is the last one. */
  ghost predicate Orderly(s: State) {
    forall i :: 0 <= i < |s.t| ==>
      IsPath(s.t[i].written) && s.t[i].written[|s.t[i].written| - 1] == s.t[i].status
  }

  /** What each unguarded writer relies on: the status it read is still there. */
  ghost predicate ReadsStand(s: State) {
    && (forall k :: k in s.keeper ==>
          NoDuplicates(s.keeper[k]) && forall i :: i in s.keeper[k] ==> Has(s.t, i, Expired))
    && (forall l :: l in s.listener && s.listener[l].Some? ==> Has(s.t, s.listener[l].value, Confirmed))
  }


  predicate AtMostOne(a: set<nat>) {
    forall x, y :: x in a && y in a ==> x == y
  }

  ghost predicate Inv(s: State) {
    ReadsStand(s) && Orderly(s) && AtMostOne(s.keeper.Keys) && AtMostOne(s.listener.Keys)
  }

  lemma WriteKeepsPath(p: Payment, to: Status)
    requires IsPath(p.written) && p.written[|p.written| - 1] == p.status && Edge(p.status, to)
    ensures IsPath(p.Write(to).written) && p.Write(to).written[|p.Write(to).written| - 1] == to
  {}

  /** How one row can change in one step. */
  ghost predicate RowMove(p: Payment, q: Payment) {
    && q.reference == p.reference && q.refundAmount == p.refundAmount
    && ((q.written == p.written && q.status == p.status) ||
        (Edge(p.status, q.status) && q.written == p.written + [q.status]))
  }

  ghost predicate AllMove(t: Table, u: Table) {
    |t| <= |u| && forall i :: 0 <= i < |t| ==> RowMove(t[i], u[i])
  }

  lemma WriteMoves(t: Table, i: nat, to: Status)
    requires i < |t| ==> Edge(t[i].status, to)
    ensures AllMove(t, WriteById(t, i, to))
  {}

  lemma ManyMove(t: Table, reference: string, draft: nat, pda: string, now: int)
    ensures AllMove(t, ConfirmRows(t, reference)) && AllMove(t, AttachRows(t, draft, pda))
    ensures AllMove(t, ExpireRows(t, now))
  {}

  lemma TableMoves(s: State, step: Step)
    requires Inv(s) && Enabled(s, step)
    ensures AllMove(s.t, Apply(s, step).t)
  {
    match step
    case Confirm(reference) => ManyMove(s.t, reference, 0, "", 0);
    case Attach(draft, pda) => ManyMove(s.t, "", draft, pda, 0);
    case ExpireTimedOut(_, now) => ManyMove(s.t, "", 0, "", now);
    case KeeperVisit(k, _, _) =>
      assert Has(s.t, s.keeper[k][0], Expired);
      WriteMoves(s.t, s.keeper[k][0], RefundPending);
    case ListenerWrite(l, _) => WriteMoves(s.t, s.listener[l].value, RefundPending);
    case _ =>
  }

  /** In one step each row stays or makes one legal move, which is recorded. */
  lemma RowsMove(s: State, step: Step)
    requires Inv(s) && Enabled(s, step)
    ensures AllMove(s.t, Apply(s, step).t)
    ensures |s.t| <= |Apply(s, step).t|
    ensures forall i :: 0 <= i < |s.t| ==>
              var p, q := s.t[i], Apply(s, step).t[i];
              && q.reference == p.reference && q.refundAmount == p.refundAmount
              && q.written == (if q.status == p.status then p.written else p.written + [q.status])
              && (q.status == p.status || Edge(p.status, q.status))
  {
    TableMoves(s, step);
    var t := Apply(s, step).t;
    assert forall i :: 0 <= i < |s.t| ==> RowMove(s.t[i], t[i]);
  }

  lemma OrderlyStep(s: State, step: Step)
    requires Inv(s) && Enabled(s, step)
    ensures Orderly(Apply(s, step))
  {
    RowsMove(s, step);
    var t := Apply(s, step).t;
    forall i | 0 <= i < |t|
      ensures IsPath(t[i].written) && t[i].written[|t[i].written| - 1] == t[i].status
    {
      if i < |s.t| && Edge(s.t[i].status, t[i].status) && t[i].written == s.t[i].written + [t[i].status] {
        WriteKeepsPath(s.t[i], t[i].status);
      }
    }
  }

  /** The only keeper owns the edge out of Expired, the only listener the edge out of Confirmed. */
  lemma OnlyOwnersMove(s: State, step: Step, i: nat)
    requires Inv(s) && Enabled(s, step)
    ensures var t := Apply(s, step).t;
            && (Has(s.t, i, Expired) && !(step.KeeperVisit? && s.keeper[step.k][0] == i) ==> Has(t, i, Expired))
            && (Has(s.t, i, Confirmed) && !(step.ListenerWrite? && s.listener[step.l].value == i) ==>
                  Has(t, i, Confirmed))
  {
    if step.KeeperVisit? {
      assert Has(s.t, s.keeper[step.k][0], Expired);
    }
  }

  lemma ReadsStandStep(s: State, step: Step)
    requires Inv(s) && Enabled(s, step)
    ensures ReadsStand(Apply(s, step))
  {
    var after := Apply(s, step);
    forall k, i | k in after.keeper && i in after.keeper[k] ensures Has(after.t, i, Expired) {
      OnlyOwnersMove(s, step, i);
    }
    forall l | l in after.listener && after.listener[l].Some?
      ensures Has(after.t, after.listener[l].value, Confirmed)
    {
      OnlyOwnersMove(s, step, after.listener[l].value);
    }
  }

  lemma InvStep(s: State, step: Step)
    requires Inv(s) && Enabled(s, step)
    ensures Inv(Apply(s, step))
  {
    OrderlyStep(s, step);
    ReadsStandStep(s, step);
    var after := Apply(s, step);
    assert after.keeper.Keys == s.keeper.Keys && after.listener.Keys == s.listener.Keys;
  }

  lemma {:induction false} InvRun(s: State, run: seq<Step>)
    requires Inv(s) && Legal(s, run)
    ensures Inv(Exec(s, run))
    decreases |run|
  {
    if run != [] {
      InvStep(s, run[0]);
      InvRun(Apply(s, run[0]), run[1..]);
    }
  }

  /** Whenever an unguarded update is about to run, the row still has the status its worker read. */
  lemma WritersFindWhatTheyRead(c: Config, run: seq<Step>, step: Step)
    requires AtMostOne(c.keepers) && AtMostOne(c.listeners)
    requires Legal(Init(c), run) && Enabled(Exec(Init(c), run), step)
    ensures var s := Exec(Init(c), run);
            && (step.KeeperVisit? ==> Has(s.t, s.keeper[step.k][0], Expired))
            && (step.ListenerWrite? ==> Has(s.t, s.listener[step.l].value, Confirmed))
  {
    InvRun(Init(c), run);
    var s := Exec(Init(c), run);
    if step.KeeperVisit? {
      assert s.keeper[step.k][0] in s.keeper[step.k];
    }
  }

  // ---------------------------------------------------------------- what moves a payment

  ghost predicate UniqueReferences(t: Table) {
    && (forall i :: 0 <= i < |t| ==> t[i].reference != None)
    && (forall i, j :: 0 <= i < j < |t| ==> t[i].reference != t[j].reference)
  }

  lemma {:induction false} UniqueRun(s: State, run: seq<Step>)
    requires Inv(s) && UniqueReferences(s.t) && Legal(s, run)
    ensures UniqueReferences(Exec(s, run).t)
    decreases |run|
  {
    if run != [] {
      RowsMove(s, run[0]);
      NewRowsAreInserted(s, run[0]);
      InvStep(s, run[0]);
      UniqueRun(Apply(s, run[0]), run[1..]);
    }
  }

  lemma NewRowsAreInserted(s: State, step: Step)
    requires Enabled(s, step)
    ensures if step.Initiate? then Apply(s, step).t == s.t + [step.p] else |Apply(s, step).t| == |s.t|
  {}

  /** A payment is confirmed exactly by its own reference, expires exactly after its window, is put up for refund by
      the listener from Confirmed and by the keeper from Expired, and is refunded exactly by a mark that takes effect;
      and only the submission of its own draft names its agreement. */
  lemma StepCauses(s: State, step: Step, i: nat)
    requires Inv(s) && Enabled(s, step) && i < |s.t|
    ensures i < |Apply(s, step).t|
    ensures var p, q := s.t[i], Apply(s, step).t[i];
            match p.status
            case Pending =>
              && (q.status == Confirmed <==> step.Confirm? && p.reference == Some(step.reference))
              && (q.status == Expired <==> step.ExpireTimedOut? && p.createdAt < step.now - 900)
            case Confirmed =>
              q.status == RefundPending <==>
              step.ListenerWrite? && s.listener[step.l] == Some(i) && step.reply != Failed
            case Expired =>
              q.status == RefundPending <==>
              step.KeeperVisit? && s.keeper[step.k][0] == i && step.exists_ && step.reply != Failed
            case RefundPending =>
              q.status == Refunded <==> step.Mark? && s.refunder[step.r].marking == Some(i) && step.reply != Failed
            case Refunded => q.status == Refunded
    ensures var p, q := s.t[i], Apply(s, step).t[i];
            && q.createdAt == p.createdAt && q.reference == p.reference && q.draft == p.draft
            && q.refundAmount == p.refundAmount
            && q.written == (if q.status == p.status then p.written else p.written + [q.status])
            && q.pda == (if step.Attach? && p.draft == step.draft && p.status == Confirmed then Some(step.pda)
                         else p.pda)
            && q.transfers == p.transfers +
                              if step.Transfer? && step.ok && s.refunder[step.r].batch[0] == i then 1 else 0
  {
    RowsMove(s, step);
    if step.KeeperVisit? {
      assert Has(s.t, s.keeper[step.k][0], Expired);
    }
  }

  lemma MovesHaveCauses(c: Config, run: seq<Step>, step: Step, i: nat)
    requires AtMostOne(c.keepers) && AtMostOne(c.listeners) && Legal(Init(c), run)
    requires Enabled(Exec(Init(c), run), step) && i < |Exec(Init(c), run).t|
    ensures i < |Apply(Exec(Init(c), run), step).t|
    ensures var s := Exec(Init(c), run);
            var p, q := s.t[i], Apply(s, step).t[i];
            match p.status
            case Pending =>
              && (q.status == Confirmed <==> step.Confirm? && p.reference == Some(step.reference))
              && (q.status == Expired <==> step.ExpireTimedOut? && p.createdAt < step.now - 900)
            case Confirmed =>
              q.status == RefundPending <==>
              step.ListenerWrite? && s.listener[step.l] == Some(i) && step.reply != Failed
            case Expired =>
              q.status == RefundPending <==>
              step.KeeperVisit? && s.keeper[step.k][0] == i && step.exists_ && step.reply != Failed
            case RefundPending =>
              q.status == Refunded <==> step.Mark? && s.refunder[step.r].marking == Some(i) && step.reply != Failed
            case Refunded => q.status == Refunded
  {
    InvRun(Init(c), run);
    StepCauses(Exec(Init(c), run), step, i);
  }

  // ---------------------------------------------------------------- what each worker acts on

  /** The state before step i of a run. */
  ghost function At(s: State, run: seq<Step>, i: nat): State
    requires Legal(s, run) && i <= |run|
    decreases i
  {
    if i == 0 then s else At(Apply(s, run[0]), run[1..], i - 1)
  }

  lemma {:induction false} AtNext(s: State, run: seq<Step>, i: nat)
    requires Legal(s, run) && i < |run|
    ensures Enabled(At(s, run, i), run[i]) && At(s, run, i + 1) == Apply(At(s, run, i), run[i])
    decreases i
  {
    if i > 0 {
      assert run[1..][i - 1] == run[i];
      AtNext(Apply(s, run[0]), run[1..], i - 1);
    }
  }

  ghost predicate FoundLate(s: State, run: seq<Step>, i: nat, k: nat, p: nat)
    requires Legal(s, run) && i < |run|
  {
    run[i].KeeperScan? && run[i].k == k && IsLate(At(s, run, i).t, run[i].now, p)
  }

  lemma {:induction false} QueuedWasLate(s: State, run: seq<Step>, j: nat, k: nat, p: nat)
    requires Legal(s, run) && j <= |run| && (k in s.keeper ==> s.keeper[k] == [])
    requires k in At(s, run, j).keeper && p in At(s, run, j).keeper[k]
    ensures exists i :: 0 <= i < j && FoundLate(s, run, i, k, p)
    decreases j
  {
    if j > 0 {
      var before, step := At(s, run, j - 1), run[j - 1];
      AtNext(s, run, j - 1);
      if step.KeeperScan? && step.k == k {
        assert FoundLate(s, run, j - 1, k, p);
      } else {
        assert k in before.keeper && p in before.keeper[k];
        QueuedWasLate(s, run, j - 1, k, p);
      }
    }
  }

  ghost predicate FoundPaid(s: State, run: seq<Step>, i: nat, l: nat, p: nat)
    requires Legal(s, run) && i < |run|
  {
    run[i].ListenerRead? && run[i].l == l && IsPaidFor(At(s, run, i).t, run[i].pda, p)
  }

  lemma {:induction false} HeldWasPaid(s: State, run: seq<Step>, j: nat, l: nat, p: nat)
    requires Legal(s, run) && j <= |run| && (l in s.listener ==> s.listener[l] == None)
    requires l in At(s, run, j).listener && At(s, run, j).listener[l] == Some(p)
    ensures exists i :: 0 <= i < j && FoundPaid(s, run, i, l, p)
    decreases j
  {
    if j > 0 {
      AtNext(s, run, j - 1);
      if run[j - 1].ListenerRead? && run[j - 1].l == l {
        assert FoundPaid(s, run, j - 1, l, p);
      } else {
        HeldWasPaid(s, run, j - 1, l, p);
      }
    }
  }

  ghost predicate FoundPending(s: State, run: seq<Step>, i: nat, r: nat, p: nat)
    requires Legal(s, run) && i < |run|
  {
    run[i].RefundScan? && run[i].r == r && p in run[i].batch && IsBatch(At(s, run, i).t, run[i].batch)
  }

  lemma {:induction false} BatchWasPending(s: State, run: seq<Step>, j: nat, r: nat, p: nat)
    requires Legal(s, run) && j <= |run| && (r in s.refunder ==> s.refunder[r].batch == [])
    requires r in At(s, run, j).refunder && p in At(s, run, j).refunder[r].batch
    ensures exists i :: 0 <= i < j && FoundPending(s, run, i, r, p)
    decreases j
  {
    if j > 0 {
      var before, step := At(s, run, j - 1), run[j - 1];
      AtNext(s, run, j - 1);
      if step.RefundScan? && step.r == r {
        assert FoundPending(s, run, j - 1, r, p);
      } else {
        assert r in before.refunder && p in before.refunder[r].batch;
        BatchWasPending(s, run, j - 1, r, p);
      }
    }
  }

  /** In every run of any number of workers, what a worker is about to act on was found by its own query: by the
      keeper an expired payment of the last hour, by the listener a confirmed payment of the agreement of its event,
      and by the refund worker, among at most ten, a payment with an agreement and its refund pending. */
  lemma ActsOnWhatItFound(c: Config, run: seq<Step>, j: nat)
    requires Legal(Init(c), run) && j < |run|
    ensures var s, step := At(Init(c), run, j), run[j];
            match step
            case KeeperVisit(k, _, _) =>
              && k in s.keeper && s.keeper[k] != []
              && var p := s.keeper[k][0];
                 exists i: nat :: i < j && run[i].KeeperScan? && run[i].k == k
                   && var t := At(Init(c), run, i).t;
                      p < |t| && t[p].status == Expired && t[p].createdAt > run[i].now - 3600 && t[p].reference.Some?
            case ListenerWrite(l, _) =>
              && l in s.listener && s.listener[l].Some?
              && var p := s.listener[l].value;
                 exists i: nat :: i < j && run[i].ListenerRead? && run[i].l == l
                   && var t := At(Init(c), run, i).t;
                      p < |t| && t[p].status == Confirmed && t[p].pda == Some(run[i].pda)
            case Transfer(r, _) =>
              && r in s.refunder && s.refunder[r].batch != []
              && var p := s.refunder[r].batch[0];
                 exists i: nat :: i < j && run[i].RefundScan? && run[i].r == r && |run[i].batch| <= 10
                   && var t := At(Init(c), run, i).t;
                      p < |t| && t[p].status == RefundPending && t[p].pda.Some?
            case _ => true
  {
    AtNext(Init(c), run, j);
    var s := At(Init(c), run, j);
    match run[j]
    case KeeperVisit(k, _, _) =>
      QueuedWasLate(Init(c), run, j, k, s.keeper[k][0]);
      var i :| 0 <= i < j && FoundLate(Init(c), run, i, k, s.keeper[k][0]);
    case ListenerWrite(l, _) =>
      HeldWasPaid(Init(c), run, j, l, s.listener[l].value);
      var i :| 0 <= i < j && FoundPaid(Init(c), run, i, l, s.listener[l].value);
    case Transfer(r, _) =>
      BatchWasPending(Init(c), run, j, r, s.refunder[r].batch[0]);
      var i :| 0 <= i < j && FoundPending(Init(c), run, i, r, s.refunder[r].batch[0]);
    case _ =>
  }

  // ---------------------------------------------------------------- one confirmation

  /** One confirmation changes at most one payment, in every reachable state. */
  lemma ConfirmsAtMostOne(c: Config, run: seq<Step>, reference: string, i: nat, j: nat)
    requires AtMostOne(c.keepers) && AtMostOne(c.listeners) && Legal(Init(c), run)
    requires var s := Exec(Init(c), run);
             var t := Apply(s, Confirm(reference)).t;
             i < |s.t| && j < |s.t| && |t| == |s.t| && t[i] != s.t[i] && t[j] != s.t[j]
    ensures i == j
  {
    UniqueRun(Init(c), run);
    var s := Exec(Init(c), run);
    assert s.t[i].reference == Some(reference) && s.t[j].reference == Some(reference);
  }

  /** The legal histories written out. */
  lemma PathsAre(h: seq<Status>)
    ensures IsPath(h) <==>
            || h == [Pending] || h == [Pending, Confirmed] || h == [Pending, Expired]
            || h == [Pending, Confirmed, RefundPending] || h == [Pending, Expired, RefundPending]
            || h == [Pending, Confirmed, RefundPending, Refunded] || h == [Pending, Expired, RefundPending, Refunded]
  {
    if IsPath(h) {
      assert |h| > 1 ==> Edge(h[0], h[1]);
      assert |h| > 2 ==> Edge(h[1], h[2]);
      assert |h| > 3 ==> Edge(h[2], h[3]);
      assert |h| > 4 ==> Edge(h[3], h[4]);
    }
  }

  /** With one keeper and one listener every payment goes through one of seven histories, and its status is the last
      entry. */
  lemma SevenHistories(c: Config, run: seq<Step>, i: nat)
    requires AtMostOne(c.keepers) && AtMostOne(c.listeners) && Legal(Init(c), run) && i < |Exec(Init(c), run).t|
    ensures var p := Exec(Init(c), run).t[i];
            && p.written != [] && p.status == p.written[|p.written| - 1]
            && p.written in [[Pending], [Pending, Confirmed], [Pending, Expired],
                             [Pending, Confirmed, RefundPending], [Pending, Expired, RefundPending],
                             [Pending, Confirmed, RefundPending, Refunded],
                             [Pending, Expired, RefundPending, Refunded]]
  {
    InvRun(Init(c), run);
    PathsAre(Exec(Init(c), run).t[i].written);
  }

  ghost predicate AlwaysOrderly(c: Config) {
    forall run :: Legal(Init(c), run) ==> Orderly(Exec(Init(c), run))
  }

  lemma Prepend(s: State, step: Step, rest: seq<Step>)
    requires Enabled(s, step) && Legal(Apply(s, step), rest)
    ensures Legal(s, [step] + rest) && Exec(s, [step] + rest) == Exec(Apply(s, step), rest)
  {
    assert ([step] + rest)[1..] == rest;
  }

  const SAMPLE := Payment(Pending, 0, Some("ref"), 0, None, None, [Pending], 0)

  /** Two keepers that read the same expired payment both write it. */
  lemma KeepersRaceFromExpired(s: State, a: nat, b: nat) returns (run: seq<Step>)
    requires a in s.keeper && b in s.keeper && a != b && s.keeper[a] == s.keeper[b] == []
    requires |s.t| == 1 && s.t[0].status.Expired? && s.t[0].createdAt == 0 && s.t[0].reference.Some?
    ensures Legal(s, run)
    ensures Exec(s, run).t == [s.t[0].Write(RefundPending).Write(RefundPending)]
  {
    var s1 := Apply(s, KeeperScan(a, 1000, [0]));
    var s2 := Apply(s1, KeeperScan(b, 1000, [0]));
    var s3 := Apply(s2, KeeperVisit(a, true, Done));
    var s4 := Apply(s3, KeeperVisit(b, true, Done));
    Prepend(s3, KeeperVisit(b, true, Done), []);
    run := [KeeperVisit(b, true, Done)] + [];
    Prepend(s2, KeeperVisit(a, true, Done), run);
    run := [KeeperVisit(a, true, Done)] + run;
    Prepend(s1, KeeperScan(b, 1000, [0]), run);
    run := [KeeperScan(b, 1000, [0])] + run;
    Prepend(s, KeeperScan(a, 1000, [0]), run);
    run := [KeeperScan(a, 1000, [0])] + run;
  }

  lemma TwoKeepersRace(c: Config, a: nat, b: nat) returns (run: seq<Step>)
    requires a in c.keepers && b in c.keepers && a != b
    ensures Legal(Init(c), run) && !Orderly(Exec(Init(c), run))
  {
    var s0 := Init(c);
    var s1 := Apply(s0, Initiate(SAMPLE));
    var s2 := Apply(s1, ExpireTimedOut(a, 1000));
    run := KeepersRaceFromExpired(s2, a, b);
    Prepend(s1, ExpireTimedOut(a, 1000), run);
    run := [ExpireTimedOut(a, 1000)] + run;
    Prepend(s0, Initiate(SAMPLE), run);
    run := [Initiate(SAMPLE)] + run;
    DoubleWriteIsDisorder(Exec(s0, run), SAMPLE.Write(Expired));
  }

  lemma DoubleWriteIsDisorder(end: State, p: Payment)
    requires end.t == [p.Write(RefundPending).Write(RefundPending)]
    ensures !Orderly(end)
  {
    var h := end.t[0].written;
    assert h[|h| - 2] == h[|h| - 1] == RefundPending;
    assert !Edge(h[|h| - 2], h[|h| - 1]);
    assert !IsPath(h);
  }

  /** Two listeners that read the same confirmed payment both write it. */
  lemma ListenersRaceFromConfirmed(s: State, a: nat, b: nat) returns (run: seq<Step>)
    requires a in s.listener && b in s.listener && a != b && s.listener[a] == s.listener[b] == None
    requires |s.t| == 1 && s.t[0].status.Confirmed? && s.t[0].pda == Some("A")
    ensures Legal(s, run)
    ensures Exec(s, run).t == [s.t[0].Write(RefundPending).Write(RefundPending)]
  {
    var s1 := Apply(s, ListenerRead(a, "A", Some(0)));
    var s2 := Apply(s1, ListenerRead(b, "A", Some(0)));
    var s3 := Apply(s2, ListenerWrite(a, Done));
    var s4 := Apply(s3, ListenerWrite(b, Done));
    Prepend(s3, ListenerWrite(b, Done), []);
    run := [ListenerWrite(b, Done)] + [];
    Prepend(s2, ListenerWrite(a, Done), run);
    run := [ListenerWrite(a, Done)] + run;
    Prepend(s1, ListenerRead(b, "A", Some(0)), run);
    run := [ListenerRead(b, "A", Some(0))] + run;
    Prepend(s, ListenerRead(a, "A", Some(0)), run);
    run := [ListenerRead(a, "A", Some(0))] + run;
  }

  lemma TwoListenersRace(c: Config, a: nat, b: nat) returns (run: seq<Step>)
    requires a in c.listeners && b in c.listeners && a != b
    ensures Legal(Init(c), run) && !Orderly(Exec(Init(c), run))
  {
    var s0 := Init(c);
    var s1 := Apply(s0, Initiate(SAMPLE));
    var s2 := Apply(s1, Confirm("ref"));
    var s3 := Apply(s2, Attach(0, "A"));
    run := ListenersRaceFromConfirmed(s3, a, b);
    Prepend(s2, Attach(0, "A"), run);
    run := [Attach(0, "A")] + run;
    Prepend(s1, Confirm("ref"), run);
    run := [Confirm("ref")] + run;
    Prepend(s0, Initiate(SAMPLE), run);
    run := [Initiate(SAMPLE)] + run;
    DoubleWriteIsDisorder(Exec(s0, run), SAMPLE.Write(Confirmed).(pda := Some("A")));
  }

  /** The unguarded updates are safe in every interleaving exactly in the deployments that start at most one
      keeper and at most one listener; refund workers and handlers may be any number. */
  lemma OrderlyIffSingletons(c: Config)
    ensures AlwaysOrderly(c) <==> AtMostOne(c.keepers) && AtMostOne(c.listeners)
  {
    if AtMostOne(c.keepers) && AtMostOne(c.listeners) {
      forall run | Legal(Init(c), run) ensures Orderly(Exec(Init(c), run)) {
        InvRun(Init(c), run);
      }
    } else if !AtMostOne(c.keepers) {
      var a, b :| a in c.keepers && b in c.keepers && a != b;
      var run := TwoKeepersRace(c, a, b);
    } else {
      var a, b :| a in c.listeners && b in c.listeners && a != b;
      var run := TwoListenersRace(c, a, b);
    }
  }
}

/** What the treasury pays against what the table records as refunded. */
module Treasury {
  import opened Common
  import opened Fees
  import opened PaymentTable
  import opened P = PaymentProtocol

  /** A legal history reaches Refunded at most once, as its last entry. */
  lemma RefundedIsTerminal(h: seq<Status>)
    requires IsPath(h)
    ensures forall i :: 0 <= i < |h| - 1 ==> h[i] != Refunded
  {
    forall i | 0 <= i < |h| - 1 ensures h[i] != Refunded {
      var j := i + 1;
      assert Edge(h[j - 1], h[j]);
    }
  }

  /** The amount sent is the recorded one exactly when that is not negative. */
  lemma TransferUnitsIff(p: Payment)
    requires p.refundAmount.Some?
    ensures p.TransferUnits() == p.refundAmount.value <==> p.refundAmount.value >= 0
  {}

  // ---------------------------------------------------------------- a refund follows a transfer

  predicate Transferred(t: Table, i: nat) {
    i < |t| && t[i].transfers >= 1
  }

  ghost predicate PaidBeforeRefunded(s: State) {
    && (forall i :: Has(s.t, i, Refunded) ==> Transferred(s.t, i))
    && (forall r :: r in s.refunder ==> (forall i :: i in s.refunder[r].batch ==> i < |s.t|))
    && (forall r :: r in s.refunder && s.refunder[r].marking.Some? ==> Transferred(s.t, s.refunder[r].marking.value))
  }

  lemma TransferredStays(s: State, step: Step, i: nat)
    requires Inv(s) && Enabled(s, step)
    ensures Transferred(s.t, i) ==> Transferred(Apply(s, step).t, i)
    ensures Has(Apply(s, step).t, i, Refunded) ==>
            Has(s.t, i, Refunded) || (step.Mark? && s.refunder[step.r].marking == Some(i))
  {}

  lemma PaidBeforeRefundedStep(s: State, step: Step)
    requires Inv(s) && PaidBeforeRefunded(s) && Enabled(s, step)
    ensures PaidBeforeRefunded(Apply(s, step))
  {
    var after := Apply(s, step);
    if step.Transfer? {
      assert s.refunder[step.r].batch[0] in s.refunder[step.r].batch;
    }
    forall i | Has(after.t, i, Refunded) ensures Transferred(after.t, i) {
      TransferredStays(s, step, i);
    }
    forall r, i | r in after.refunder && i in after.refunder[r].batch ensures i < |after.t| {
      if step.RefundScan? && r == step.r {
        assert Has(s.t, i, RefundPending);
      } else {
        assert i in s.refunder[r].batch;
      }
    }
    forall r | r in after.refunder && after.refunder[r].marking.Some?
      ensures Transferred(after.t, after.refunder[r].marking.value)
    {
      if r in s.refunder && after.refunder[r].marking == s.refunder[r].marking {
        TransferredStays(s, step, after.refunder[r].marking.value);
      }
    }
  }

  lemma {:induction false} PaidBeforeRefundedRun(s: State, run: seq<Step>)
    requires Inv(s) && PaidBeforeRefunded(s) && Legal(s, run)
    ensures PaidBeforeRefunded(Exec(s, run))
    decreases |run|
  {
    if run != [] {
      InvStep(s, run[0]);
      PaidBeforeRefundedStep(s, run[0]);
      PaidBeforeRefundedRun(Apply(s, run[0]), run[1..]);
    }
  }

  /** With one keeper and one listener and any number of refund workers, a payment is refunded only after a
      transfer for it has succeeded, and becomes refunded once. */
  lemma RefundedOnceAfterTransfer(c: Config, run: seq<Step>, i: nat)
    requires AtMostOne(c.keepers) && AtMostOne(c.listeners) && Legal(Init(c), run)
    requires var end := Exec(Init(c), run); i < |end.t| && end.t[i].status.Refunded?
    ensures var p := Exec(Init(c), run).t[i];
            p.transfers >= 1 && forall j :: 0 <= j < |p.written| - 1 ==> p.written[j] != Refunded
  {
    InvRun(Init(c), run);
    PaidBeforeRefundedRun(Init(c), run);
    RefundedIsTerminal(Exec(Init(c), run).t[i].written);
    assert Has(Exec(Init(c), run).t, i, Refunded);
  }

  // ---------------------------------------------------------------- conservation over runs

  function InTransit(s: State, r: nat): nat
    requires r in s.refunder
  {
    match s.refunder[r].marking
    case None => 0
    case Some(i) => UnitsOf(s.t, i)
  }

  /** The only refund worker owns the edge out of RefundPending. */
  lemma OnlyMarkingRefunds(s: State, step: Step, i: nat)
    requires Inv(s) && Enabled(s, step) && i < |s.t| && !step.Mark?
    ensures var t := Apply(s, step).t;
            && i < |t| && (t[i].status.Refunded? <==> s.t[i].status.Refunded?)
            && (s.t[i].status.RefundPending? ==> t[i].status.RefundPending?)
            && t[i].refundAmount == s.t[i].refundAmount
            && (!step.Transfer? ==> t[i].transfers == s.t[i].transfers)
  {
    if step.KeeperVisit? {
      assert Has(s.t, s.keeper[step.k][0], Expired);
    }
  }

  lemma QuietTable(s: State, step: Step)
    requires Inv(s) && Enabled(s, step) && !step.Mark? && !step.Transfer?
    ensures var t := Apply(s, step).t;
            && |s.t| <= |t| && RefundedSum(t) == RefundedSum(s.t)
            && (forall i :: 0 <= i < |s.t| ==>
                  t[i].TransferUnits() == s.t[i].TransferUnits() && t[i].transfers == s.t[i].transfers)
            && (forall i :: 0 <= i < |s.t| ==> (t[i].status.Refunded? <==> s.t[i].status.Refunded?))
            && (forall i :: |s.t| <= i < |t| ==> t[i].status.Pending? && t[i].transfers == 0)
            && (forall i :: Has(s.t, i, RefundPending) ==> Has(t, i, RefundPending))
  {
    var t := Apply(s, step).t;
    forall i | 0 <= i < |s.t|
      ensures i < |t| && (t[i].status.Refunded? <==> s.t[i].status.Refunded?)
      ensures s.t[i].status.RefundPending? ==> t[i].status.RefundPending?
      ensures t[i].TransferUnits() == s.t[i].TransferUnits() && t[i].transfers == s.t[i].transfers
    {
      OnlyMarkingRefunds(s, step, i);
    }
    RefundedSumSame(s.t, t);
  }

  lemma CountedTransfer(t: Table, i: nat)
    requires i < |t|
    ensures RefundedSum(CountTransfer(t, i)) == RefundedSum(t)
    ensures forall j :: UnitsOf(CountTransfer(t, i), j) == UnitsOf(t, j)
    ensures forall j, st :: Has(t, j, st) ==> Has(CountTransfer(t, i), j, st)
  {
    RefundedSumUpdate(t, i, t[i].(transfers := t[i].transfers + 1));
  }

  lemma MarkedRow(t: Table, i: nat)
    requires Has(t, i, RefundPending)
    ensures var u := MarkRefunded(t, i);
            && |u| == |t| && u[i].status.Refunded? && u[i].transfers == t[i].transfers
            && (forall j :: 0 <= j < |t| && j != i ==> u[j] == t[j])
            && RefundedSum(u) == RefundedSum(t) + UnitsOf(t, i)
  {
    RefundedSumUpdate(t, i, t[i].Write(Refunded));
  }

  // ---------------------------------------------------------------- the account of any run

  /** The mark of a transfer that was made records it. */
  predicate Records(s: State, step: Step)
    requires step.Mark? && step.r in s.refunder && s.refunder[step.r].marking.Some?
  {
    step.reply.TookEffect() && Has(s.t, s.refunder[step.r].marking.value, RefundPending)
  }

  /** What the step sends for good without recording it. */
  function Lapse(s: State, step: Step): nat {
    if step.Mark? && step.r in s.refunder && s.refunder[step.r].marking.Some? && !Records(s, step)
    then UnitsOf(s.t, s.refunder[step.r].marking.value) else 0
  }

  ghost function Lapses(s: State, run: seq<Step>): nat
    requires Legal(s, run)
    decreases |run|
  {
    if run == [] then 0 else Lapse(s, run[0]) + Lapses(Apply(s, run[0]), run[1..])
  }

  /** Every mark of a positive amount takes effect on a row that is still pending. */
  ghost predicate EveryMarkRecords(s: State, run: seq<Step>)
    requires Legal(s, run)
    decreases |run|
  {
    run == [] ||
    ((run[0].Mark? && UnitsOf(s.t, s.refunder[run[0].r].marking.value) > 0 ==> Records(s, run[0]))
     && EveryMarkRecords(Apply(s, run[0]), run[1..]))
  }

  /** r is the only refund worker, and what it works on is in the table. */
  ghost predicate Tracked(s: State, r: nat) {
    && s.refunder.Keys == {r}
    && (forall i :: i in s.refunder[r].batch ==> i < |s.t|)
    && (s.refunder[r].marking.Some? ==> s.refunder[r].marking.value < |s.t|)
  }

  lemma AccountTransfer(s: State, step: Step, r: nat)
    requires Tracked(s, r) && Enabled(s, step) && step.Transfer?
    ensures var after := Apply(s, step);
            Tracked(after, r) && RefundedSum(after.t) == RefundedSum(s.t)
            && after.outflow + InTransit(s, r) == s.outflow + InTransit(after, r)
  {
    var batch := s.refunder[r].batch;
    assert batch[0] in batch;
    CountedTransfer(s.t, batch[0]);
    assert forall j :: j in batch[1..] ==> j in batch;
  }

  lemma AccountMark(s: State, step: Step, r: nat)
    requires Tracked(s, r) && Enabled(s, step) && step.Mark?
    ensures var after := Apply(s, step);
            Tracked(after, r) && after.outflow == s.outflow && InTransit(after, r) == 0
            && RefundedSum(after.t) + Lapse(s, step) == RefundedSum(s.t) + InTransit(s, r)
  {
    var i := s.refunder[r].marking.value;
    if Records(s, step) {
      MarkedRow(s.t, i);
    } else {
      assert Apply(s, step).t == s.t;
    }
  }

  lemma AccountStep(s: State, step: Step, r: nat)
    requires Inv(s) && Tracked(s, r) && Enabled(s, step)
    ensures var after := Apply(s, step);
            && Tracked(after, r)
            && after.outflow + RefundedSum(s.t) + InTransit(s, r)
               == s.outflow + RefundedSum(after.t) + InTransit(after, r) + Lapse(s, step)
  {
    if step.Transfer? {
      AccountTransfer(s, step, r);
    } else if step.Mark? {
      AccountMark(s, step, r);
    } else {
      QuietTable(s, step);
      var after := Apply(s, step);
      assert after.outflow == s.outflow && after.refunder.Keys == s.refunder.Keys;
      assert after.refunder[r].marking == s.refunder[r].marking;
    }
  }

  lemma {:induction false} AccountRun(s: State, run: seq<Step>, r: nat)
    requires Inv(s) && Tracked(s, r) && Legal(s, run)
    ensures var end := Exec(s, run);
            && Tracked(end, r)
            && end.outflow + RefundedSum(s.t) + InTransit(s, r)
               == s.outflow + RefundedSum(end.t) + InTransit(end, r) + Lapses(s, run)
    decreases |run|
  {
    if run != [] {
      AccountStep(s, run[0], r);
      InvStep(s, run[0]);
      AccountRun(Apply(s, run[0]), run[1..], r);
    }
  }

  lemma {:induction false} NoLapseIff(s: State, run: seq<Step>)
    requires Legal(s, run)
    ensures Lapses(s, run) == 0 <==> EveryMarkRecords(s, run)
    decreases |run|
  {
    if run != [] {
      NoLapseIff(Apply(s, run[0]), run[1..]);
    }
  }

  /** With one keeper, one listener and one refund worker, in every interleaving and for all answers: the treasury
      has paid the sum over the refunded payments, the one transfer still to be marked, and what its marks failed to
      record; and that last part is nothing exactly when every mark of a positive amount takes effect on a row that
      is still pending. */
  lemma OutflowAccount(c: Config, r: nat, run: seq<Step>)
    requires AtMostOne(c.keepers) && AtMostOne(c.listeners) && c.refunders == {r} && Legal(Init(c), run)
    ensures var end := Exec(Init(c), run);
            && r in end.refunder
            && end.outflow == RefundedSum(end.t) + InTransit(end, r) + Lapses(Init(c), run)
            && (end.outflow == RefundedSum(end.t) + InTransit(end, r) <==> EveryMarkRecords(Init(c), run))
  {
    AccountRun(Init(c), run, r);
    NoLapseIff(Init(c), run);
  }

  // ---------------------------------------------------------------- an environment in which every mark records

  /** The refund worker's environment in which the books balance: its query lists a payment once, and its
      marking statement always takes effect, even if its answer is lost. */
  predicate Prudent(step: Step) {
    && (step.RefundScan? ==> NoDuplicates(step.batch))
    && (step.Mark? ==> step.reply.TookEffect())
  }

  predicate AllPrudent(run: seq<Step>) {
    forall i :: 0 <= i < |run| ==> Prudent(run[i])
  }

  ghost predicate Balanced(s: State, r: nat) {
    && s.refunder.Keys == {r}
    && NoDuplicates(s.refunder[r].batch)
    && (forall i :: i in s.refunder[r].batch ==> Has(s.t, i, RefundPending))
    && (s.refunder[r].marking.Some? ==>
          Has(s.t, s.refunder[r].marking.value, RefundPending) && s.refunder[r].marking.value !in s.refunder[r].batch)
    && (forall i :: 0 <= i < |s.t| ==>
          s.t[i].transfers == if s.t[i].status.Refunded? || s.refunder[r].marking == Some(i) then 1 else 0)
  }

  lemma BalancedQuiet(s: State, step: Step, r: nat)
    requires Inv(s) && Balanced(s, r) && Enabled(s, step) && Prudent(step)
    requires !step.Mark? && !step.Transfer?
    ensures Balanced(Apply(s, step), r)
  {
    assert Apply(s, step).refunder.Keys == s.refunder.Keys;
    QuietTable(s, step);
  }

  lemma BalancedTransfer(s: State, step: Step, r: nat)
    requires Inv(s) && Balanced(s, r) && Enabled(s, step) && step.Transfer?
    ensures Balanced(Apply(s, step), r)
  {
    var batch := s.refunder[r].batch;
    var i := batch[0];
    assert i in batch && Has(s.t, i, RefundPending);
    var after := Apply(s, step);
    assert forall j :: j in after.refunder[r].batch ==> j in batch;
    if step.ok {
      CountedTransfer(s.t, i);
      assert i !in batch[1..];
    } else {
      assert after.t == s.t;
    }
  }

  lemma BalancedMark(s: State, step: Step, r: nat)
    requires Inv(s) && Balanced(s, r) && Enabled(s, step) && step.Mark? && step.reply.TookEffect()
    ensures Balanced(Apply(s, step), r) && Records(s, step)
  {
    var i := s.refunder[r].marking.value;
    MarkedRow(s.t, i);
    assert Apply(s, step).t == MarkRefunded(s.t, i);
  }

  lemma {:induction false} BalancedRun(s: State, run: seq<Step>, r: nat)
    requires Inv(s) && Balanced(s, r) && Legal(s, run) && AllPrudent(run)
    ensures Balanced(Exec(s, run), r) && EveryMarkRecords(s, run)
    decreases |run|
  {
    if run != [] {
      InvStep(s, run[0]);
      if run[0].Mark? {
        BalancedMark(s, run[0], r);
      } else if run[0].Transfer? {
        BalancedTransfer(s, run[0], r);
      } else {
        BalancedQuiet(s, run[0], r);
      }
      BalancedRun(Apply(s, run[0]), run[1..], r);
    }
  }

  /** With duplicate-free batches and marks that take effect the books balance, and each refunded payment has been
      transferred exactly once. */
  lemma OutflowConserved(c: Config, r: nat, run: seq<Step>)
    requires AtMostOne(c.keepers) && AtMostOne(c.listeners) && c.refunders == {r}
    requires Legal(Init(c), run) && AllPrudent(run)
    ensures var end := Exec(Init(c), run);
            && r in end.refunder && end.outflow == RefundedSum(end.t) + InTransit(end, r)
            && forall i :: 0 <= i < |end.t| && end.t[i].status.Refunded? ==> end.t[i].transfers == 1
  {
    BalancedRun(Init(c), run, r);
    OutflowAccount(c, r, run);
  }

  predicate AmountUnset(step: Step) {
    step.Initiate? ==> step.p.refundAmount.None?
  }

  /** The INSERT of the payment handler leaves refund_amount NULL and no statement writes it afterwards, so the
      transfers made for such rows, however many succeed, move nothing. */
  lemma {:induction false} UnsetAmountsMoveNothing(s: State, run: seq<Step>)
    requires Legal(s, run) && forall i :: 0 <= i < |run| ==> AmountUnset(run[i])
    requires forall i :: 0 <= i < |s.t| ==> s.t[i].refundAmount.None?
    ensures Exec(s, run).outflow == s.outflow
    decreases |run|
  {
    if run != [] {
      var next := Apply(s, run[0]);
      assert forall i :: 0 <= i < |next.t| ==> next.t[i].refundAmount.None?;
      UnsetAmountsMoveNothing(next, run[1..]);
    }
  }

  // ---------------------------------------------------------------- one batch

  /** The answers of the chain and of the marking statement for one entry of a batch. */
  datatype Answer = Answer(sent: bool, mark: Reply)
  datatype Books = Books(t: Table, outflow: nat)

  function TableAfter(t: Table, i: nat, a: Answer): Table {
    if !a.sent then t
    else if a.mark.TookEffect() then MarkRefunded(CountTransfer(t, i), i)
    else CountTransfer(t, i)
  }

  function RefundOne(b: Books, i: nat, a: Answer): Books {
    Books(TableAfter(b.t, i, a), b.outflow + if a.sent then UnitsOf(b.t, i) else 0)
  }

  function RefundBatch(b: Books, batch: seq<nat>, answers: seq<Answer>): Books
    requires |batch| == |answers|
    decreases |batch|
  {
    if batch == [] then b
    else RefundBatch(RefundOne(b, batch[0], answers[0]), batch[1..], answers[1..])
  }

  /** What a batch sends without recording it: the row is not pending when its turn comes, or its mark fails. */
  function Unrecorded(t: Table, batch: seq<nat>, answers: seq<Answer>): nat
    requires |batch| == |answers|
    decreases |batch|
  {
    if batch == [] then 0
    else
      var (i, a) := (batch[0], answers[0]);
      (if a.sent && !(Has(t, i, RefundPending) && a.mark.TookEffect()) then UnitsOf(t, i) else 0)
      + Unrecorded(TableAfter(t, i, a), batch[1..], answers[1..])
  }

  lemma RefundOneSum(t: Table, i: nat, a: Answer)
    requires i < |t|
    ensures RefundedSum(TableAfter(t, i, a))
         == RefundedSum(t) + if a.sent && a.mark.TookEffect() && Has(t, i, RefundPending) then UnitsOf(t, i) else 0
  {
    var p := t[i].(transfers := t[i].transfers + 1);
    RefundedSumUpdate(t, i, p);
    if p.status.RefundPending? {
      RefundedSumUpdate(t[i := p], i, p.Write(Refunded));
    }
  }

  /** Whatever the chain and the database answer: what a batch pays is what it records as refunded plus what it
      sends without recording. */
  lemma {:induction false} BatchAccount(b: Books, batch: seq<nat>, answers: seq<Answer>)
    requires |batch| == |answers| && forall i :: i in batch ==> i < |b.t|
    ensures var e := RefundBatch(b, batch, answers);
            e.outflow + RefundedSum(b.t) == b.outflow + RefundedSum(e.t) + Unrecorded(b.t, batch, answers)
    decreases |batch|
  {
    if batch != [] {
      assert batch[0] in batch;
      RefundOneSum(b.t, batch[0], answers[0]);
      assert forall i :: i in batch[1..] ==> i in batch;
      BatchAccount(RefundOne(b, batch[0], answers[0]), batch[1..], answers[1..]);
    }
  }

  predicate Recorded(a: Answer) {
    a.sent && a.mark.TookEffect()
  }

  /** An entry leaves nothing unrecorded if it sends nothing, or if its own mark records it and none before has. */
  predicate EntrySettles(t: Table, batch: seq<nat>, answers: seq<Answer>, j: nat)
    requires |batch| == |answers| && j < |batch|
  {
    || !answers[j].sent || UnitsOf(t, batch[j]) == 0
    || (Has(t, batch[j], RefundPending) && Recorded(answers[j])
        && forall k :: 0 <= k < j && batch[k] == batch[j] ==> !Recorded(answers[k]))
  }

  lemma EntryShift(t: Table, batch: seq<nat>, answers: seq<Answer>, j: nat)
    requires |batch| == |answers| && 0 < j < |batch|
    ensures EntrySettles(t, batch, answers, j)
            <==> EntrySettles(TableAfter(t, batch[0], answers[0]), batch[1..], answers[1..], j - 1)
  {
    var t1 := TableAfter(t, batch[0], answers[0]);
    var rest, restAnswers := batch[1..], answers[1..];
    assert rest[j - 1] == batch[j] && restAnswers[j - 1] == answers[j];
    assert UnitsOf(t1, batch[j]) == UnitsOf(t, batch[j]);
    assert forall k :: 0 <= k < j - 1 ==> rest[k] == batch[k + 1] && restAnswers[k] == answers[k + 1];
    if forall k :: 0 <= k < j - 1 && rest[k] == rest[j - 1] ==> !Recorded(restAnswers[k]) {
      forall k | 0 < k < j && batch[k] == batch[j] ensures !Recorded(answers[k]) {
        assert rest[k - 1] == batch[k] && restAnswers[k - 1] == answers[k];
      }
    }
  }

  lemma {:induction false} UnrecordedZeroIff(t: Table, batch: seq<nat>, answers: seq<Answer>)
    requires |batch| == |answers|
    ensures Unrecorded(t, batch, answers) == 0 <==> forall j :: 0 <= j < |batch| ==> EntrySettles(t, batch, answers, j)
    decreases |batch|
  {
    if batch != [] {
      var t1 := TableAfter(t, batch[0], answers[0]);
      var rest, restAnswers := batch[1..], answers[1..];
      UnrecordedZeroIff(t1, rest, restAnswers);
      if forall j :: 0 <= j < |batch| ==> EntrySettles(t, batch, answers, j) {
        forall j | 0 <= j < |rest| ensures EntrySettles(t1, rest, restAnswers, j) {
          EntryShift(t, batch, answers, j + 1);
          assert EntrySettles(t, batch, answers, j + 1);
        }
        assert EntrySettles(t, batch, answers, 0);
      } else if EntrySettles(t, batch, answers, 0) {
        var j :| 0 <= j < |batch| && !EntrySettles(t, batch, answers, j);
        EntryShift(t, batch, answers, j);
        assert !EntrySettles(t1, rest, restAnswers, j - 1);
      }
    }
  }

  /** Whatever the answers, the treasury pays what the table then records as refunded exactly when every transfer of a
      positive amount that succeeds is also marked, and no payment is sent again after it has been marked. */
  lemma BatchConservesIff(b: Books, batch: seq<nat>, answers: seq<Answer>)
    requires IsBatch(b.t, batch) && |batch| == |answers|
    ensures var e := RefundBatch(b, batch, answers);
            e.outflow - b.outflow == RefundedSum(e.t) - RefundedSum(b.t)
            <==> forall j :: 0 <= j < |batch| && answers[j].sent && UnitsOf(b.t, batch[j]) > 0 ==>
                   && answers[j].mark.TookEffect()
                   && forall k :: 0 <= k < j && batch[k] == batch[j] ==> !Recorded(answers[k])
  {
    BatchAccount(b, batch, answers);
    UnrecordedZeroIff(b.t, batch, answers);
    forall j | 0 <= j < |batch|
      ensures EntrySettles(b.t, batch, answers, j) <==>
              (answers[j].sent && UnitsOf(b.t, batch[j]) > 0 ==>
                 && answers[j].mark.TookEffect()
                 && forall k :: 0 <= k < j && batch[k] == batch[j] ==> !Recorded(answers[k]))
    {
      assert batch[j] in batch;
    }
  }

  function AllWell(n: nat): seq<Answer> {
    seq(n, _ => Answer(true, Done))
  }

  /** The query joins one row per party of the agreement, so a payment is listed once per party. */
  function PerParty(i: nat, parties: nat): seq<nat> {
    seq(parties, _ => i)
  }

  lemma {:induction false} RepeatedTransfers(b: Books, i: nat, n: nat)
    requires i < |b.t| && (b.t[i].status.RefundPending? || b.t[i].status.Refunded?)
    ensures var t := RefundBatch(b, PerParty(i, n), AllWell(n)).t;
            && |t| == |b.t| && t[i].transfers == b.t[i].transfers + n
            && (n > 0 || b.t[i].status.Refunded? ==> t[i].status.Refunded?)
            && RefundedSum(t) == RefundedSum(b.t) +
                 if n > 0 && b.t[i].status.RefundPending? then UnitsOf(b.t, i) else 0
    decreases n
  {
    if n > 0 {
      assert PerParty(i, n)[1..] == PerParty(i, n - 1) && AllWell(n)[1..] == AllWell(n - 1);
      RefundOneSum(b.t, i, Answer(true, Done));
      RepeatedTransfers(RefundOne(b, i, Answer(true, Done)), i, n - 1);
    }
  }

  /** A pending refund of an agreement with n parties, alone in the queue, is paid out n times before the
      worker looks at the table again, and is recorded once. */
  lemma LoneRefundPaidPerParty(b: Books, i: nat, n: nat)
    requires Has(b.t, i, RefundPending) && b.t[i].pda.Some? && 1 <= n <= REFUND_BATCH
    ensures IsBatch(b.t, PerParty(i, n))
    ensures var e := RefundBatch(b, PerParty(i, n), AllWell(n));
            && e.outflow - b.outflow == n * UnitsOf(b.t, i)
            && RefundedSum(e.t) - RefundedSum(b.t) == UnitsOf(b.t, i)
            && i < |e.t| && e.t[i].status.Refunded? && e.t[i].transfers == b.t[i].transfers + n
  {
    RepeatedTransfers(b, i, n);
    BatchAccount(b, PerParty(i, n), AllWell(n));
    UnrecordedRepeats(b.t, i, n);
    Peel(n, UnitsOf(b.t, i));
  }

  lemma Peel(n: int, u: nat)
    ensures n * u == (n - 1) * u + u
  {}

  lemma {:induction false} UnrecordedRepeats(t: Table, i: nat, n: nat)
    requires i < |t| && (t[i].status.RefundPending? || t[i].status.Refunded?)
    ensures Unrecorded(t, PerParty(i, n), AllWell(n)) ==
            (if n > 0 && t[i].status.RefundPending? then n - 1 else n) * UnitsOf(t, i)
    decreases n
  {
    if n > 0 {
      assert PerParty(i, n)[1..] == PerParty(i, n - 1) && AllWell(n)[1..] == AllWell(n - 1);
      Peel(n, UnitsOf(t, i));
      UnrecordedRepeats(TableAfter(t, i, Answer(true, Done)), i, n - 1);
    }
  }

  function AfterEntry(s: State, r: nat, a: Answer): State
    requires r in s.refunder && s.refunder[r].batch != []
  {
    var e := RefundOne(Books(s.t, s.outflow), s.refunder[r].batch[0], a);
    s.(t := e.t, outflow := e.outflow, refunder := s.refunder[r := Refunder(s.refunder[r].batch[1..], None)])
  }

  /** One entry of a batch, and then whatever follows. */
  lemma EntryIsARun(s: State, r: nat, a: Answer, tail: seq<Step>) returns (run: seq<Step>)
    requires r in s.refunder && s.refunder[r].marking.None? && s.refunder[r].batch != []
    requires Legal(AfterEntry(s, r, a), tail)
    ensures Legal(s, run) && Exec(s, run) == Exec(AfterEntry(s, r, a), tail)
  {
    var s1 := Apply(s, Transfer(r, a.sent));
    run := tail;
    if a.sent {
      assert Apply(s1, Mark(r, a.mark)) == AfterEntry(s, r, a);
      P.Prepend(s1, Mark(r, a.mark), run);
      run := [Mark(r, a.mark)] + run;
    } else {
      assert s1 == AfterEntry(s, r, a);
    }
    P.Prepend(s, Transfer(r, a.sent), run);
    run := [Transfer(r, a.sent)] + run;
  }

  /** What is left of a batch, worked through undisturbed. */
  lemma {:induction false} RestOfBatchIsARun(s: State, r: nat, answers: seq<Answer>) returns (run: seq<Step>)
    requires r in s.refunder && s.refunder[r].marking.None? && |answers| == |s.refunder[r].batch|
    ensures Legal(s, run)
    ensures var e := RefundBatch(Books(s.t, s.outflow), s.refunder[r].batch, answers);
            Exec(s, run) == s.(t := e.t, outflow := e.outflow, refunder := s.refunder[r := Refunder([], None)])
    decreases |answers|
  {
    if answers == [] {
      run := [];
      assert s.refunder == s.refunder[r := Refunder([], None)];
    } else {
      run := RestOfBatchIsARun(AfterEntry(s, r, answers[0]), r, answers[1..]);
      run := EntryIsARun(s, r, answers[0], run);
    }
  }

  /** A batch that the worker reads and works through undisturbed is a run of the protocol. */
  lemma BatchIsARun(s: State, r: nat, batch: seq<nat>, answers: seq<Answer>) returns (run: seq<Step>)
    requires r in s.refunder && s.refunder[r] == Refunder([], None) && |batch| <= 10 && |answers| == |batch|
    requires forall i :: i in batch ==> i < |s.t| && s.t[i].status == RefundPending && s.t[i].pda != None
    ensures Legal(s, run)
    ensures var e := RefundBatch(Books(s.t, s.outflow), batch, answers);
            Exec(s, run) == s.(t := e.t, outflow := e.outflow)
  {
    var read := RefundScan(r, batch);
    run := RestOfBatchIsARun(Apply(s, read), r, answers);
    Prepend(s, read, run);
    run := [read] + run;
    assert s.refunder[r := Refunder(batch, None)][r := Refunder([], None)] == s.refunder;
  }
}

/** The handlers and worker loops as they run over the table. */
module PaymentWorkers {
  import opened Common
  import opened PaymentTable
  import opened P = PaymentProtocol
  import opened Treasury

  /** What the chain and the database answer about one late payment. */
  datatype LateAnswer = LateAnswer(exists_: bool, reply: Reply)

  function Reconcile(t: Table, late: seq<nat>, env: nat -> LateAnswer): Table
    decreases |late|
  {
    if late == [] then t
    else
      var a := env(late[0]);
      Reconcile(if a.exists_ && a.reply.TookEffect() then WriteById(t, late[0], RefundPending) else t, late[1..], env)
  }

  /** The loop marks exactly the listed payments that the chain confirms and whose statement takes effect. */
  lemma {:induction false} ReconcileEffect(t: Table, late: seq<nat>, env: nat -> LateAnswer)
    requires NoDuplicates(late)
    ensures |Reconcile(t, late, env)| == |t|
    ensures forall i :: 0 <= i < |t| ==>
              Reconcile(t, late, env)[i] ==
              if i in late && env(i).exists_ && env(i).reply.TookEffect() then t[i].Write(RefundPending) else t[i]
    decreases |late|
  {
    if late != [] {
      var a := env(late[0]);
      var next := if a.exists_ && a.reply.TookEffect() then WriteById(t, late[0], RefundPending) else t;
      ReconcileEffect(next, late[1..], env);
      assert forall i :: i in late <==> i == late[0] || i in late[1..];
      assert late[0] !in late[1..];
    }
  }

  lemma {:induction false} VisitsAreARun(s: State, k: nat, env: nat -> LateAnswer) returns (run: seq<Step>)
    requires k in s.keeper
    ensures P.Legal(s, run)
    ensures P.Exec(s, run) == s.(t := Reconcile(s.t, s.keeper[k], env), keeper := s.keeper[k := []])
    decreases |s.keeper[k]|
  {
    if s.keeper[k] == [] {
      run := [];
      assert s.keeper == s.keeper[k := []];
    } else {
      var a := env(s.keeper[k][0]);
      var step := KeeperVisit(k, a.exists_, a.reply);
      run := VisitsAreARun(P.Apply(s, step), k, env);
      P.Prepend(s, step, run);
      run := [step] + run;
    }
  }

  /** The keeper's scan and its loop, undisturbed, are a run of the protocol. */
  lemma ReconcileIsARun(s: State, k: nat, now: int, late: seq<nat>, env: nat -> LateAnswer) returns (run: seq<Step>)
    requires k in s.keeper && s.keeper[k] == [] && NoDuplicates(late)
    requires forall i: nat :: i in late <==>
               && i < |s.t| && s.t[i].status == Expired && s.t[i].createdAt > now - 3600 && s.t[i].reference.Some?
    ensures P.Legal(s, run) && P.Exec(s, run) == s.(t := Reconcile(s.t, late, env))
  {
    var step := KeeperScan(k, now, late);
    run := VisitsAreARun(P.Apply(s, step), k, env);
    P.Prepend(s, step, run);
    run := [step] + run;
    assert s.keeper[k := late][k := []] == s.keeper;
  }

  /** The listener's read and write, undisturbed, are a run of the protocol. */
  lemma RefundMarkIsARun(s: State, l: nat, pda: string, found: Option<nat>, reply: Reply) returns (run: seq<Step>)
    requires l in s.listener && s.listener[l].None?
    requires match found
             case Some(i) => i < |s.t| && s.t[i].pda == Some(pda) && s.t[i].status == Confirmed
             case None => forall i :: 0 <= i < |s.t| ==> !(s.t[i].pda == Some(pda) && s.t[i].status == Confirmed)
    ensures P.Legal(s, run)
    ensures P.Exec(s, run)
         == s.(t := if found.Some? && reply.TookEffect() then WriteById(s.t, found.value, RefundPending) else s.t)
  {
    var read := ListenerRead(l, pda, found);
    run := [];
    if found.Some? {
      P.Prepend(P.Apply(s, read), ListenerWrite(l, reply), run);
      run := [ListenerWrite(l, reply)] + run;
    }
    P.Prepend(s, read, run);
    run := [read] + run;
    assert s.listener[l := found][l := None] == s.listener;
  }

  class PaymentStore {
    var t: Table
    var outflow: nat

    constructor ()
      ensures t == [] && outflow == 0
    {
      t, outflow := [], 0;
    }

    /** True exactly when a pending payment carried the reference; at most one does. */
    method ConfirmPaymentAtomic(reference: string) returns (confirmed: bool)
      modifies this`t
      ensures t == ConfirmRows(old(t), reference) && |t| == |old(t)|
      ensures forall i :: 0 <= i < |t| ==>
                t[i] == if old(t)[i].reference == Some(reference) && old(t)[i].status == Pending
                        then old(t)[i].Write(Confirmed) else old(t)[i]
      ensures confirmed <==>
                exists i :: 0 <= i < |old(t)| && old(t)[i].reference == Some(reference) && old(t)[i].status == Pending
      ensures confirmed <==> t != old(t)
    {
      confirmed := exists i :: 0 <= i < |t| && t[i].reference == Some(reference) && t[i].status.Pending?;
      if confirmed {
        ghost var i :| 0 <= i < |t| && t[i].reference == Some(reference) && t[i].status.Pending?;
        ghost var before := t;
        t := ConfirmRows(t, reference);
        assert t[i] != before[i];
      } else {
        assert ConfirmRows(t, reference) == t;
      }
    }

    /** The last statement of submit_draft. */
    method AttachAgreement(draft: nat, pda: string)
      modifies this`t
      ensures t == AttachRows(old(t), draft, pda) && |t| == |old(t)|
      ensures forall i :: 0 <= i < |t| ==>
                t[i] == if old(t)[i].draft == draft && old(t)[i].status == Confirmed
                        then old(t)[i].(pda := Some(pda)) else old(t)[i]
    {
      t := AttachRows(t, draft, pda);
    }

    method ExpireTimedOutPayments(now: int)
      modifies this`t
      ensures t == ExpireRows(old(t), now) && |t| == |old(t)| && P.AllMove(old(t), t)
      ensures forall i :: 0 <= i < |t| ==>
                t[i] == if old(t)[i].status == Pending && old(t)[i].createdAt < now - 900
                        then old(t)[i].Write(Expired) else old(t)[i]
    {
      P.ManyMove(t, "", 0, "", now);
      t := ExpireRows(t, now);
    }

    /** late is the answer of the keeper's query. */
    method ReconcileLatePayments(now: int, late: seq<nat>, env: nat -> LateAnswer)
      requires NoDuplicates(late) && forall i: nat :: i in late <==> IsLate(t, now, i)
      modifies this`t
      ensures t == Reconcile(old(t), late, env) && |t| == |old(t)|
      ensures forall i :: 0 <= i < |t| ==>
                t[i] ==
                if old(t)[i].status == Expired && old(t)[i].createdAt > now - 3600 && old(t)[i].reference != None
                   && env(i).exists_ && env(i).reply != Failed
                then old(t)[i].Write(RefundPending) else old(t)[i]
    {
      ReconcileEffect(t, late, env);
      for j := 0 to |late|
        invariant Reconcile(t, late[j..], env) == Reconcile(old(t), late, env)
      {
        var a := env(late[j]);
        if a.exists_ && a.reply.TookEffect() {
          t := WriteById(t, late[j], RefundPending);
        }
        assert late[j..][1..] == late[j + 1..];
      }
    }

    /** Marks one confirmed payment of the agreement, if there is one. */
    method InitiateRefundIfEligible(pda: string, reply: Reply) returns (found: Option<nat>)
      modifies this`t
      ensures match found
              case Some(i) =>
                && i < |old(t)| && old(t)[i].pda == Some(pda) && old(t)[i].status == Confirmed
                && t == if reply != Failed then old(t)[i := old(t)[i].Write(RefundPending)] else old(t)
              case None =>
                && t == old(t)
                && forall i :: 0 <= i < |t| ==> !(t[i].pda == Some(pda) && t[i].status == Confirmed)
    {
      found := None;
      for i := 0 to |t|
        invariant found.None? && t == old(t)
        invariant forall j :: 0 <= j < i ==> !(t[j].pda == Some(pda) && t[j].status == Confirmed)
      {
        if IsPaidFor(t, pda, i) {
          found := Some(i);
          if reply.TookEffect() {
            t := WriteById(t, i, RefundPending);
          }
          return;
        }
      }
    }

    /** The worker's loop over one answer of its query. */
    method ProcessPendingRefunds(batch: seq<nat>, answers: seq<Answer>)
      requires |answers| == |batch|
      modifies this
      ensures Books(t, outflow) == RefundBatch(old(Books(t, outflow)), batch, answers)
    {
      for j := 0 to |batch|
        invariant RefundBatch(Books(t, outflow), batch[j..], answers[j..])
               == RefundBatch(old(Books(t, outflow)), batch, answers)
      {
        var i, a := batch[j], answers[j];
        if a.sent {
          outflow := outflow + UnitsOf(t, i);
          t := CountTransfer(t, i);
          if a.mark.TookEffect() {
            t := MarkRefunded(t, i);
          }
        }
        assert batch[j..][1..] == batch[j + 1..] && answers[j..][1..] == answers[j + 1..];
      }
    }
  }
}

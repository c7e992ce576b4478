/** What both the handlers and the keeper know of an invitation. */
module Invitations {
  datatype InviteStatus = Pending | Accepted | Expired
}

/** Drafts with their party slots, the invitations to fill them, and the operations on both taken one at a
    time: the behaviour that concurrent request handling has to agree with. */
module DraftTable {
  import opened Common
  import opened Invitations

  datatype Slot = Slot(pubkey: Option<string>, inviteId: Option<nat>)
  datatype DraftStatus = AwaitingPartyWallets | ReadyToSubmit | Discarded

  /** origin is a history variable: the slots the draft was created with. */
  datatype Draft = Draft(slots: seq<Slot>, status: DraftStatus, origin: seq<Slot>)
  datatype Invite = Invite(draft: nat, status: InviteStatus, expiresAt: int)

  /** Two history variables: the pubkey each committed acceptance recorded, and the draft for which each
      invitation id was generated. A token is unique to its invitation, so requests name the invitation itself. */
  datatype Db = Db(
    drafts: map<nat, Draft>, invites: map<nat, Invite>, accepted: map<nat, string>, issued: map<nat, nat>)

  const EMPTY := Db(map[], map[], map[], map[])

  predicate IsPendingInvitation(i: Invite, now: int) {
    i.status.Pending? && !(i.expiresAt < now)
  }

  /** Position of the first slot that carries the invitation, or the number of slots. */
  function SlotOf(slots: seq<Slot>, id: nat): (i: nat)
    ensures i <= |slots|
    ensures i < |slots| ==> slots[i].inviteId == Some(id)
    ensures forall j :: 0 <= j < i ==> slots[j].inviteId != Some(id)
  {
    if slots == [] || slots[0].inviteId == Some(id) then 0 else 1 + SlotOf(slots[1..], id)
  }

  function Resolve(slots: seq<Slot>, id: nat, pubkey: string): Option<seq<Slot>> {
    var i := SlotOf(slots, id);
    if i < |slots| then Some(slots[i := Slot(Some(pubkey), None)]) else None
  }

  predicate AllResolved(slots: seq<Slot>) {
    forall i :: 0 <= i < |slots| ==> slots[i].pubkey.Some?
  }

  /** Each slot has exactly one of a pubkey and an invitation, and no invitation stands in two slots. */
  predicate WellFormed(slots: seq<Slot>) {
    && (forall i :: 0 <= i < |slots| ==> (slots[i].pubkey.Some? <==> slots[i].inviteId.None?))
    && (forall i, j :: 0 <= i < j < |slots| && slots[i].inviteId.Some? ==> slots[i].inviteId != slots[j].inviteId)
  }

  predicate Carries(slots: seq<Slot>, id: nat) {
    exists i :: 0 <= i < |slots| && slots[i].inviteId == Some(id)
  }

  function Ids(slots: seq<Slot>): set<nat> {
    set s | s in slots && s.inviteId.Some? :: s.inviteId.value
  }

  function Unresolved(slots: seq<Slot>): nat {
    if slots == [] then 0 else (if slots[0].pubkey.None? then 1 else 0) + Unresolved(slots[1..])
  }

  datatype Op =
    | CreateDraft(d: nat, slots: seq<Slot>)
    | InsertInvite(id: nat, d: nat, expiresAt: int)
    | Accept(id: nat, pubkey: string, now: int)
    | Discard(d: nat)
    | ExpireInvite(id: nat, now: int)
    | Reinvite(old_: nat, id: nat, expiresAt: int)

  /** Generated ids are new; the creating handler inserts each invitation of its draft once, at any later time
      or, if it fails half-way, never. */
  predicate Possible(db: Db, op: Op) {
    match op
    case CreateDraft(d, slots) => d !in db.drafts && WellFormed(slots) && Ids(slots) !! db.issued.Keys
    case InsertInvite(id, d, _) => d in db.drafts && Carries(db.drafts[d].origin, id) && id !in db.invites
    case Reinvite(_, id, _) => id !in db.issued
    case _ => true
  }

  /** accept_invite; None stands for the NotFound answer, which changes nothing. */
  function TryAccept(db: Db, id: nat, pubkey: string, now: int): Option<Db> {
    if id !in db.invites || !IsPendingInvitation(db.invites[id], now) then None
    else
      var d := db.invites[id].draft;
      if d !in db.drafts then None
      else
        match Resolve(db.drafts[d].slots, id, pubkey)
        case None => None
        case Some(slots) => Some(Record(db, id, d, slots, pubkey))
  }

  /** The two UPDATE statements of accept_invite. */
  function Record(db: Db, id: nat, d: nat, slots: seq<Slot>, pubkey: string): Db
    requires id in db.invites && d in db.drafts
  {
    var draft := db.drafts[d];
    db.(invites := db.invites[id := db.invites[id].(status := Accepted)],
        drafts := db.drafts[d := draft.(slots := slots,
                                        status := if AllResolved(slots) then ReadyToSubmit else draft.status)],
        accepted := db.accepted[id := pubkey])
  }

  function Perform(db: Db, op: Op): Db {
    match op
    case CreateDraft(d, slots) =>
      db.(drafts := db.drafts[d := Draft(slots, AwaitingPartyWallets, slots)],
          issued := db.issued + map id | id in Ids(slots) :: d)
    case InsertInvite(id, d, expiresAt) => db.(invites := db.invites[id := Invite(d, Pending, expiresAt)])
    case Accept(id, pubkey, now) => (match TryAccept(db, id, pubkey, now) case None => db case Some(after) => after)
    case Discard(d) => if d in db.drafts then db.(drafts := db.drafts[d := db.drafts[d].(status := Discarded)]) else db
    case ExpireInvite(id, now) =>
      if id in db.invites && db.invites[id].status.Pending? && db.invites[id].expiresAt < now then
        db.(invites := db.invites[id := db.invites[id].(status := Expired)])
      else db
    case Reinvite(old_, id, expiresAt) =>
      if old_ in db.invites && db.invites[old_].status.Expired? then
        db.(invites := db.invites[id := Invite(db.invites[old_].draft, Pending, expiresAt)],
            issued := db.issued[id := db.invites[old_].draft])
      else db
  }

  ghost predicate Legal(db: Db, ops: seq<Op>)
    decreases |ops|
  {
    ops == [] || (Possible(db, ops[0]) && Legal(Perform(db, ops[0]), ops[1..]))
  }

  ghost function Exec(db: Db, ops: seq<Op>): Db
    decreases |ops|
  {
    if ops == [] then db else Exec(Perform(db, ops[0]), ops[1..])
  }

  // ---------------------------------------------------------------- what every state satisfies

  /** The slots a draft must have now: those of its creation, with the accepted invitations filled in. */
  function Fill(origin: seq<Slot>, accepted: map<nat, string>): seq<Slot> {
    seq(|origin|, i requires 0 <= i < |origin| =>
      if origin[i].inviteId.Some? && origin[i].inviteId.value in accepted
      then Slot(Some(accepted[origin[i].inviteId.value]), None) else origin[i])
  }

  ghost predicate DraftInv(draft: Draft, d: nat, accepted: map<nat, string>, issued: map<nat, nat>) {
    && WellFormed(draft.origin)
    && draft.slots == Fill(draft.origin, accepted)
    && (forall id :: Carries(draft.origin, id) ==> id in issued && issued[id] == d)
    && (draft.status.ReadyToSubmit? ==> AllResolved(draft.slots) && !AllResolved(draft.origin))
    && (AllResolved(draft.slots) && !AllResolved(draft.origin) ==> !draft.status.AwaitingPartyWallets?)
  }

  ghost predicate InviteInv(db: Db, id: nat)
    requires id in db.invites
  {
    var i := db.invites[id];
    && i.draft in db.drafts
    && id in db.issued && db.issued[id] == i.draft
    && (i.status.Accepted? <==> id in db.accepted)
    && (i.status.Accepted? ==> Carries(db.drafts[i.draft].origin, id))
  }

  ghost predicate Inv(db: Db) {
    && (forall d :: d in db.drafts ==> DraftInv(db.drafts[d], d, db.accepted, db.issued))
    && (forall id :: id in db.invites ==> InviteInv(db, id))
    && db.accepted.Keys <= db.invites.Keys <= db.issued.Keys
  }

  lemma {:induction false} UnresolvedSnoc(slots: seq<Slot>, last: Slot)
    ensures Unresolved(slots + [last]) == Unresolved(slots) + if last.pubkey.None? then 1 else 0
  {
    if slots == [] {
      assert (slots + [last])[1..] == [];
    } else {
      assert (slots + [last])[1..] == slots[1..] + [last];
      UnresolvedSnoc(slots[1..], last);
    }
  }

  /** Unresolved is the number of slots without a pubkey; none is left exactly when all are filled. */
  lemma {:induction false} UnresolvedCounts(slots: seq<Slot>)
    ensures Unresolved(slots) == |set i: nat | i < |slots| && slots[i].pubkey == None|
    ensures AllResolved(slots) <==> Unresolved(slots) == 0
  {
    var open := set i: nat | i < |slots| && slots[i].pubkey == None;
    if slots == [] {
      assert open == {};
    } else {
      var n := |slots| - 1;
      var init := slots[..n];
      assert slots == init + [slots[n]];
      UnresolvedSnoc(init, slots[n]);
      UnresolvedCounts(init);
      var rest := set i: nat | i < |init| && init[i].pubkey == None;
      assert open == if slots[n].pubkey == None then rest + {n} else rest;
      assert forall i :: 0 <= i < n ==> init[i] == slots[i];
    }
  }

  lemma IdsAreCarried(slots: seq<Slot>, id: nat)
    ensures id in Ids(slots) <==> Carries(slots, id)
  {
    if Carries(slots, id) {
      var i :| 0 <= i < |slots| && slots[i].inviteId == Some(id);
      assert slots[i] in slots;
    }
  }

  /** Filling in one more acceptance is what resolving the slot does, and only an invitation the draft was
      created with resolves at all. */
  lemma ResolveIsFill(origin: seq<Slot>, accepted: map<nat, string>, id: nat, pubkey: string)
    requires WellFormed(origin) && id !in accepted
    ensures Resolve(Fill(origin, accepted), id, pubkey)
         == if Carries(origin, id) then Some(Fill(origin, accepted[id := pubkey])) else None
  {
    var slots := Fill(origin, accepted);
    var i := SlotOf(slots, id);
    if i < |slots| {
      assert origin[i].inviteId == Some(id);
      assert slots[i := Slot(Some(pubkey), None)] == Fill(origin, accepted[id := pubkey]);
    } else {
      forall j | 0 <= j < |origin| ensures origin[j].inviteId != Some(id) {
        assert slots[j].inviteId != Some(id);
      }
    }
  }

  /** An acceptance of another draft's invitation leaves a draft's slots alone. */
  lemma FillOther(origin: seq<Slot>, accepted: map<nat, string>, id: nat, pubkey: string)
    requires !Carries(origin, id)
    ensures Fill(origin, accepted[id := pubkey]) == Fill(origin, accepted)
  {}

  lemma AcceptedDraft(draft: Draft, d: nat, accepted: map<nat, string>, issued: map<nat, nat>, id: nat, pubkey: string)
    requires DraftInv(draft, d, accepted, issued) && id !in accepted
    requires Resolve(draft.slots, id, pubkey).Some?
    ensures Carries(draft.origin, id)
    ensures var slots := Resolve(draft.slots, id, pubkey).value;
            DraftInv(draft.(slots := slots, status := if AllResolved(slots) then ReadyToSubmit else draft.status),
                     d, accepted[id := pubkey], issued)
  {
    ResolveIsFill(draft.origin, accepted, id, pubkey);
    var i :| 0 <= i < |draft.origin| && draft.origin[i].inviteId == Some(id);
    assert draft.origin[i].pubkey.None? && draft.slots[i] == draft.origin[i];
  }

  lemma AcceptKeepsDrafts(db: Db, id: nat, pubkey: string, d: nat, slots: seq<Slot>)
    requires Inv(db) && id in db.invites && id !in db.accepted && d in db.drafts && db.invites[id].draft == d
    requires Resolve(db.drafts[d].slots, id, pubkey) == Some(slots)
    ensures Carries(db.drafts[d].origin, id)
    ensures var after := Record(db, id, d, slots, pubkey);
            forall e :: e in after.drafts ==> DraftInv(after.drafts[e], e, after.accepted, after.issued)
  {
    var after := Record(db, id, d, slots, pubkey);
    assert InviteInv(db, id);
    AcceptedDraft(db.drafts[d], d, db.accepted, db.issued, id, pubkey);
    forall e | e in after.drafts ensures DraftInv(after.drafts[e], e, after.accepted, after.issued) {
      assert DraftInv(db.drafts[e], e, db.accepted, db.issued);
      if e != d {
        FillOther(db.drafts[e].origin, db.accepted, id, pubkey);
      }
    }
  }

  lemma AcceptKeepsInv(db: Db, id: nat, pubkey: string, now: int)
    requires Inv(db) && TryAccept(db, id, pubkey, now).Some?
    ensures Inv(TryAccept(db, id, pubkey, now).value)
  {
    assert InviteInv(db, id);
    var d := db.invites[id].draft;
    var slots := Resolve(db.drafts[d].slots, id, pubkey).value;
    AcceptKeepsDrafts(db, id, pubkey, d, slots);
    var after := Record(db, id, d, slots, pubkey);
    forall j | j in after.invites ensures InviteInv(after, j) {
      assert InviteInv(db, j);
    }
  }

  lemma CreateKeepsInv(db: Db, d: nat, slots: seq<Slot>)
    requires Inv(db) && Possible(db, CreateDraft(d, slots))
    ensures Inv(Perform(db, CreateDraft(d, slots)))
  {
    var after := Perform(db, CreateDraft(d, slots));
    forall id | Carries(slots, id) ensures id in after.issued && after.issued[id] == d && id !in db.issued {
      IdsAreCarried(slots, id);
    }
    assert Fill(slots, db.accepted) == slots by {
      forall i | 0 <= i < |slots| && slots[i].inviteId.Some? ensures slots[i].inviteId.value !in db.accepted {
        assert Carries(slots, slots[i].inviteId.value);
      }
    }
    forall e | e in after.drafts ensures DraftInv(after.drafts[e], e, after.accepted, after.issued) {
      if e != d {
        assert DraftInv(db.drafts[e], e, db.accepted, db.issued);
      }
    }
    forall j | j in after.invites ensures InviteInv(after, j) {
      assert InviteInv(db, j);
    }
  }

  /** An invitation row the table has not had before. */
  lemma NewInviteKeepsInv(db: Db, after: Db, id: nat, expiresAt: int)
    requires Inv(db) && id !in db.invites && id in after.invites
    requires var d := after.invites[id].draft;
             && after == db.(invites := db.invites[id := Invite(d, Pending, expiresAt)], issued := db.issued[id := d])
             && d in db.drafts && (id in db.issued ==> db.issued[id] == d)
    ensures Inv(after)
  {
    forall e | e in after.drafts ensures DraftInv(after.drafts[e], e, after.accepted, after.issued) {
      assert DraftInv(db.drafts[e], e, db.accepted, db.issued);
    }
    forall j | j in after.invites ensures InviteInv(after, j) {
      if j != id {
        assert InviteInv(db, j);
      }
    }
  }

  lemma InsertKeepsInv(db: Db, op: Op)
    requires Inv(db) && Possible(db, op) && (op.InsertInvite? || op.Reinvite?)
    ensures Inv(Perform(db, op))
  {
    var after := Perform(db, op);
    if op.InsertInvite? {
      assert DraftInv(db.drafts[op.d], op.d, db.accepted, db.issued);
      assert db.issued == db.issued[op.id := op.d];
      NewInviteKeepsInv(db, after, op.id, op.expiresAt);
    } else if op.old_ in db.invites && db.invites[op.old_].status.Expired? {
      assert InviteInv(db, op.old_);
      NewInviteKeepsInv(db, after, op.id, op.expiresAt);
    }
  }

  /** A change to one draft that keeps its creation record disturbs nothing else. */
  lemma OneDraftKeepsInv(db: Db, d: nat, draft: Draft)
    requires Inv(db) && d in db.drafts && draft.origin == db.drafts[d].origin
    requires DraftInv(draft, d, db.accepted, db.issued)
    ensures Inv(db.(drafts := db.drafts[d := draft]))
  {
    var after := db.(drafts := db.drafts[d := draft]);
    forall e | e in after.drafts ensures DraftInv(after.drafts[e], e, after.accepted, after.issued) {
      if e != d {
        assert DraftInv(db.drafts[e], e, db.accepted, db.issued);
      }
    }
    forall j | j in after.invites ensures InviteInv(after, j) {
      assert InviteInv(db, j);
    }
  }

  lemma DiscardKeepsInv(db: Db, d: nat)
    requires Inv(db)
    ensures Inv(Perform(db, Discard(d)))
  {
    if d in db.drafts {
      assert DraftInv(db.drafts[d], d, db.accepted, db.issued);
      OneDraftKeepsInv(db, d, db.drafts[d].(status := Discarded));
    }
  }

  lemma ExpireKeepsInv(db: Db, id: nat, now: int)
    requires Inv(db)
    ensures Inv(Perform(db, ExpireInvite(id, now)))
  {
    var after := Perform(db, ExpireInvite(id, now));
    forall e | e in after.drafts ensures DraftInv(after.drafts[e], e, after.accepted, after.issued) {
      assert DraftInv(db.drafts[e], e, db.accepted, db.issued);
    }
    forall j | j in after.invites ensures InviteInv(after, j) {
      assert InviteInv(db, j);
    }
  }

  lemma InvPerform(db: Db, op: Op)
    requires Inv(db) && Possible(db, op)
    ensures Inv(Perform(db, op))
  {
    match op
    case CreateDraft(d, slots) => CreateKeepsInv(db, d, slots);
    case InsertInvite(_, _, _) => InsertKeepsInv(db, op);
    case Reinvite(_, _, _) => InsertKeepsInv(db, op);
    case Accept(id, pubkey, now) =>
      if TryAccept(db, id, pubkey, now).Some? {
        AcceptKeepsInv(db, id, pubkey, now);
      }
    case Discard(d) => DiscardKeepsInv(db, d);
    case ExpireInvite(id, now) => ExpireKeepsInv(db, id, now);
  }

  lemma {:induction false} InvExec(db: Db, ops: seq<Op>)
    requires Inv(db) && Legal(db, ops)
    ensures Inv(Exec(db, ops))
    decreases |ops|
  {
    if ops != [] {
      InvPerform(db, ops[0]);
      InvExec(Perform(db, ops[0]), ops[1..]);
    }
  }

  // ---------------------------------------------------------------- what follows for a draft

  function AcceptedOf(db: Db, d: nat): set<nat> {
    set id | id in db.invites && db.invites[id].draft == d && db.invites[id].status.Accepted?
  }

  function AcceptedIds(origin: seq<Slot>, accepted: map<nat, string>): set<nat> {
    set id | id in Ids(origin) && id in accepted
  }

  lemma AcceptedIdsCons(origin: seq<Slot>, accepted: map<nat, string>)
    requires WellFormed(origin) && origin != []
    ensures var rest := AcceptedIds(origin[1..], accepted);
            match origin[0].inviteId
            case None => AcceptedIds(origin, accepted) == rest
            case Some(h) => h !in rest && AcceptedIds(origin, accepted) == if h in accepted then rest + {h} else rest
  {
    var tail := origin[1..];
    forall id ensures id in Ids(origin) <==> id in Ids(tail) || origin[0].inviteId == Some(id) {
      IdsAreCarried(origin, id);
      IdsAreCarried(tail, id);
      assert Carries(tail, id) ==> Carries(origin, id);
      if Carries(origin, id) && origin[0].inviteId != Some(id) {
        var i :| 0 <= i < |origin| && origin[i].inviteId == Some(id);
        assert tail[i - 1].inviteId == Some(id);
      }
    }
    if origin[0].inviteId.Some? {
      var h := origin[0].inviteId.value;
      IdsAreCarried(tail, h);
    }
  }

  lemma {:induction false} FillCount(origin: seq<Slot>, accepted: map<nat, string>)
    requires WellFormed(origin)
    ensures |AcceptedIds(origin, accepted)| + Unresolved(Fill(origin, accepted)) == Unresolved(origin)
  {
    if origin == [] {
      assert AcceptedIds(origin, accepted) == {};
    } else {
      FillCount(origin[1..], accepted);
      assert Fill(origin, accepted)[1..] == Fill(origin[1..], accepted);
      AcceptedIdsCons(origin, accepted);
    }
  }

  lemma AcceptedAreOriginal(db: Db, d: nat)
    requires Inv(db) && d in db.drafts
    ensures AcceptedOf(db, d) == AcceptedIds(db.drafts[d].origin, db.accepted)
  {
    assert DraftInv(db.drafts[d], d, db.accepted, db.issued);
    forall id ensures id in AcceptedOf(db, d) <==> id in AcceptedIds(db.drafts[d].origin, db.accepted) {
      IdsAreCarried(db.drafts[d].origin, id);
      if id in db.invites {
        assert InviteInv(db, id);
      }
    }
  }

  lemma OpenSlotsNameOpenInvites(db: Db, d: nat, id: nat)
    requires Inv(db) && d in db.drafts && Carries(db.drafts[d].slots, id)
    ensures Carries(db.drafts[d].origin, id) && id in db.issued && id !in db.accepted
    ensures id in db.invites ==> db.invites[id].draft == d && !db.invites[id].status.Accepted?
  {
    var draft := db.drafts[d];
    assert DraftInv(db.drafts[d], d, db.accepted, db.issued);
    var i :| 0 <= i < |draft.slots| && draft.slots[i].inviteId == Some(id);
    assert draft.origin[i].inviteId == Some(id);
    if id in db.invites {
      assert InviteInv(db, id);
    }
  }

  lemma FillKeepsForm(origin: seq<Slot>, accepted: map<nat, string>)
    requires WellFormed(origin)
    ensures WellFormed(Fill(origin, accepted))
  {}

  /** What the creator can rely on about any draft after any history: its slots are those of its creation with
      the committed acceptances filled in and nothing else changed, they stay well-formed, open slots name
      invitations of this draft that are not accepted, acceptances plus open slots add up to the slots open at
      creation, and a draft ready to submit has every slot filled. */
  lemma DraftHistory(ops: seq<Op>, d: nat)
    requires Legal(EMPTY, ops) && d in Exec(EMPTY, ops).drafts
    ensures var db := Exec(EMPTY, ops); var draft := db.drafts[d];
            && |draft.slots| == |draft.origin|
            && (forall k :: 0 <= k < |draft.slots| ==>
                  match draft.origin[k].inviteId
                  case Some(id) =>
                    draft.slots[k] == if id in db.accepted then Slot(Some(db.accepted[id]), None) else draft.origin[k]
                  case None => draft.slots[k] == draft.origin[k])
            && WellFormed(draft.slots)
            && (forall id :: Carries(draft.slots, id) && id in db.invites ==>
                  db.invites[id].draft == d && !db.invites[id].status.Accepted?)
            && |AcceptedOf(db, d)| + Unresolved(draft.slots) == Unresolved(draft.origin)
            && (draft.status.ReadyToSubmit? ==> Unresolved(draft.slots) == 0)
  {
    InvExec(EMPTY, ops);
    var db := Exec(EMPTY, ops);
    var draft := db.drafts[d];
    assert DraftInv(db.drafts[d], d, db.accepted, db.issued);
    FillCount(draft.origin, db.accepted);
    FillKeepsForm(draft.origin, db.accepted);
    UnresolvedCounts(draft.slots);
    AcceptedAreOriginal(db, d);
    forall id | Carries(draft.slots, id) && id in db.invites
      ensures db.invites[id].draft == d && !db.invites[id].status.Accepted?
    {
      OpenSlotsNameOpenInvites(db, d, id);
    }
  }

  /** A draft that has never been discarded is ready exactly when all its slots are filled and some slot was
      open when it was created. */
  lemma ReadyIff(ops: seq<Op>, d: nat)
    requires Legal(EMPTY, ops) && d in Exec(EMPTY, ops).drafts
    requires !Exec(EMPTY, ops).drafts[d].status.Discarded?
    ensures var draft := Exec(EMPTY, ops).drafts[d];
            draft.status.ReadyToSubmit? <==> Unresolved(draft.slots) == 0 && Unresolved(draft.origin) > 0
  {
    InvExec(EMPTY, ops);
    var db := Exec(EMPTY, ops);
    assert DraftInv(db.drafts[d], d, db.accepted, db.issued);
    UnresolvedCounts(db.drafts[d].slots);
    UnresolvedCounts(db.drafts[d].origin);
  }

  /** So the draft that create_agreement stores for a paid agreement whose parties are all known, which has no
      open slot, never becomes ready to submit. */
  lemma FilledAtCreationNeverReady(ops: seq<Op>, d: nat)
    requires Legal(EMPTY, ops) && d in Exec(EMPTY, ops).drafts
    requires Unresolved(Exec(EMPTY, ops).drafts[d].origin) == 0
    ensures !Exec(EMPTY, ops).drafts[d].status.ReadyToSubmit?
  {
    InvExec(EMPTY, ops);
    var db := Exec(EMPTY, ops);
    assert DraftInv(db.drafts[d], d, db.accepted, db.issued);
    UnresolvedCounts(db.drafts[d].origin);
  }

  /** Acceptance does not look at the draft's status, so discarding is not final: the same acceptances succeed as
      before, with the same slots, and the one that fills the last slot makes the discarded draft ready. */
  lemma DiscardStopsNoAcceptance(db: Db, d: nat, id: nat, pubkey: string, now: int)
    requires d in db.drafts
    ensures var plain, discarded := TryAccept(db, id, pubkey, now), TryAccept(Perform(db, Discard(d)), id, pubkey, now);
            match plain
            case None => discarded.None?
            case Some(p) =>
              && discarded.Some? && d in p.drafts && d in discarded.value.drafts
              && discarded.value.drafts[d].slots == p.drafts[d].slots
              && (db.invites[id].draft == d && AllResolved(p.drafts[d].slots) ==>
                    discarded.value.drafts[d].status.ReadyToSubmit?)
  {
    var after := Perform(db, Discard(d));
    assert after.invites == db.invites && after.drafts[d].slots == db.drafts[d].slots;
  }

  ghost predicate DiscardedThroughout(db: Db, ops: seq<Op>, d: nat)
    decreases |ops|
  {
    && d in db.drafts && db.drafts[d].status.Discarded?
    && (ops == [] || DiscardedThroughout(Perform(db, ops[0]), ops[1..], d))
  }

  /** The operation accepts the last open invitation of the draft. */
  predicate Completes(db: Db, op: Op, d: nat) {
    && op.Accept? && op.id in db.invites && db.invites[op.id].draft == d && d in db.drafts
    && TryAccept(db, op.id, op.pubkey, op.now).Some?
    && AllResolved(Resolve(db.drafts[d].slots, op.id, op.pubkey).value)
  }

  ghost predicate NeverCompleted(db: Db, ops: seq<Op>, d: nat)
    decreases |ops|
  {
    ops == [] || (!Completes(db, ops[0], d) && NeverCompleted(Perform(db, ops[0]), ops[1..], d))
  }

  lemma DiscardedStepIff(db: Db, op: Op, d: nat)
    requires d in db.drafts && db.drafts[d].status.Discarded? && Possible(db, op)
    ensures var after := Perform(db, op);
            && d in after.drafts
            && (after.drafts[d].status.Discarded? <==> !Completes(db, op, d))
            && (Completes(db, op, d) ==> after.drafts[d].status.ReadyToSubmit?)
  {}

  /** A discarded draft stays discarded through a history exactly when nobody accepts its last open invitation. */
  lemma {:induction false} DiscardedIffNeverCompleted(db: Db, ops: seq<Op>, d: nat)
    requires d in db.drafts && db.drafts[d].status.Discarded? && Legal(db, ops)
    ensures DiscardedThroughout(db, ops, d) <==> NeverCompleted(db, ops, d)
    decreases |ops|
  {
    if ops != [] {
      var next := Perform(db, ops[0]);
      DiscardedStepIff(db, ops[0], d);
      if next.drafts[d].status.Discarded? {
        DiscardedIffNeverCompleted(next, ops[1..], d);
      } else {
        assert !DiscardedThroughout(next, ops[1..], d);
      }
    }
  }

  const OPEN: seq<Slot> := [Slot(None, Some(7))]

  /** A stored draft with one open slot, its invitation pending, and then discarded. */
  function Waiting(status: DraftStatus): Db {
    Db(map[1 := Draft(OPEN, status, OPEN)], map[7 := Invite(1, Pending, 100)], map[], map[7 := 1])
  }

  lemma ReachWaiting()
    ensures Legal(EMPTY, [CreateDraft(1, OPEN), InsertInvite(7, 1, 100)])
    ensures Exec(EMPTY, [CreateDraft(1, OPEN), InsertInvite(7, 1, 100)]) == Waiting(AwaitingPartyWallets)
  {
    var create, insert := CreateDraft(1, OPEN), InsertInvite(7, 1, 100);
    var d1 := Perform(EMPTY, create);
    assert OPEN[0].inviteId == Some(7) && Carries(OPEN, 7);
    assert Ids(OPEN) == {7};
    assert d1.issued == map[7 := 1];
    OneOp(EMPTY, create);
    OneOp(d1, insert);
    assert Perform(d1, insert).invites == Waiting(AwaitingPartyWallets).invites;
    ExecAppend(EMPTY, [create], [insert]);
    assert [create] + [insert] == [create, insert];
  }

  lemma AcceptWaiting(pubkey: string)
    ensures Possible(Waiting(Discarded), Accept(7, pubkey, 50))
    ensures Perform(Waiting(Discarded), Accept(7, pubkey, 50)).drafts
         == map[1 := Draft([Slot(Some(pubkey), None)], ReadyToSubmit, OPEN)]
  {
    assert SlotOf(OPEN, 7) == 0;
    assert OPEN[0 := Slot(Some(pubkey), None)] == [Slot(Some(pubkey), None)];
    assert Resolve(OPEN, 7, pubkey) == Some([Slot(Some(pubkey), None)]);
    assert TryAccept(Waiting(Discarded), 7, pubkey, 50).Some?;
  }

  /** A history in which a draft is discarded and then becomes ready to submit. */
  lemma DiscardedBecomesReady(pubkey: string) returns (ops: seq<Op>)
    ensures Legal(EMPTY, ops) && |ops| == 4 && ops[2] == Discard(1)
    ensures 1 in Exec(EMPTY, ops).drafts && Exec(EMPTY, ops).drafts[1].status.ReadyToSubmit?
  {
    var sent, rest := [CreateDraft(1, OPEN), InsertInvite(7, 1, 100)], [Discard(1), Accept(7, pubkey, 50)];
    var d2, d3 := Waiting(AwaitingPartyWallets), Waiting(Discarded);
    ReachWaiting();
    assert Perform(d2, Discard(1)).drafts == d3.drafts;
    AcceptWaiting(pubkey);
    OneOp(d2, Discard(1));
    OneOp(d3, Accept(7, pubkey, 50));
    ExecAppend(d2, [Discard(1)], [Accept(7, pubkey, 50)]);
    assert [Discard(1)] + [Accept(7, pubkey, 50)] == rest;
    ExecAppend(EMPTY, sent, rest);
    ops := sent + rest;
  }

  lemma AcceptIff(db: Db, id: nat, pubkey: string, now: int)
    requires Inv(db)
    ensures TryAccept(db, id, pubkey, now).Some? <==>
              && id in db.invites && IsPendingInvitation(db.invites[id], now)
              && db.invites[id].draft in db.drafts && Carries(db.drafts[db.invites[id].draft].origin, id)
  {
    if id in db.invites {
      assert InviteInv(db, id);
      var d := db.invites[id].draft;
      assert DraftInv(db.drafts[d], d, db.accepted, db.issued);
      if db.invites[id].status.Pending? {
        ResolveIsFill(db.drafts[d].origin, db.accepted, id, pubkey);
      }
    }
  }

  /** An acceptance succeeds exactly for a pending, unexpired invitation that the draft was created with. */
  lemma AcceptSucceedsIff(ops: seq<Op>, id: nat, pubkey: string, now: int)
    requires Legal(EMPTY, ops)
    ensures var db := Exec(EMPTY, ops);
            TryAccept(db, id, pubkey, now).Some? <==>
              && id in db.invites && db.invites[id].status == Pending && now <= db.invites[id].expiresAt
              && db.invites[id].draft in db.drafts
              && var origin := db.drafts[db.invites[id].draft].origin;
                 exists i :: 0 <= i < |origin| && origin[i].inviteId == Some(id)
  {
    InvExec(EMPTY, ops);
    AcceptIff(Exec(EMPTY, ops), id, pubkey, now);
  }

  // ---------------------------------------------------------------- who was accepted

  /** A recorded acceptance was asked for, with the recorded key. */
  lemma {:induction false} AcceptedWasAsked(db: Db, ops: seq<Op>, id: nat) returns (now: int)
    requires Legal(db, ops) && id in Exec(db, ops).accepted
    ensures (id in db.accepted && db.accepted[id] == Exec(db, ops).accepted[id]) ||
            Accept(id, Exec(db, ops).accepted[id], now) in ops
    decreases |ops|
  {
    now := 0;
    if ops != [] {
      var next := Perform(db, ops[0]);
      now := AcceptedWasAsked(next, ops[1..], id);
      if Accept(id, Exec(db, ops).accepted[id], now) !in ops[1..] && next.accepted != db.accepted {
        assert ops[0].Accept?;
        if ops[0].id == id {
          now := ops[0].now;
        }
      }
    }
  }

  lemma OthersKeepAccepted(db: Db, op: Op)
    requires !op.Accept?
    ensures Perform(db, op).accepted == db.accepted
  {}

  lemma AcceptedStaysStep(db: Db, op: Op, id: nat)
    requires Inv(db) && id in db.accepted
    ensures id in Perform(db, op).accepted && Perform(db, op).accepted[id] == db.accepted[id]
  {
    assert InviteInv(db, id);
    if !op.Accept? {
      OthersKeepAccepted(db, op);
    }
  }

  /** A recorded acceptance is never replaced. */
  lemma {:induction false} AcceptedStays(db: Db, ops: seq<Op>, id: nat)
    requires Inv(db) && Legal(db, ops) && id in db.accepted
    ensures id in Exec(db, ops).accepted && Exec(db, ops).accepted[id] == db.accepted[id]
    decreases |ops|
  {
    if ops != [] {
      AcceptedStaysStep(db, ops[0], id);
      InvPerform(db, ops[0]);
      AcceptedStays(Perform(db, ops[0]), ops[1..], id);
    }
  }

  /** The id has been generated, but not for a slot of any draft. */
  ghost predicate InNoDraft(db: Db, id: nat) {
    id in db.issued && forall d :: d in db.drafts ==> !Carries(db.drafts[d].origin, id)
  }

  lemma InNoDraftStep(db: Db, op: Op, id: nat)
    requires InNoDraft(db, id) && Possible(db, op)
    ensures InNoDraft(Perform(db, op), id)
  {
    if op.CreateDraft? {
      IdsAreCarried(op.slots, id);
    }
  }

  lemma {:induction false} InNoDraftExec(db: Db, ops: seq<Op>, id: nat)
    requires InNoDraft(db, id) && Legal(db, ops)
    ensures InNoDraft(Exec(db, ops), id)
    decreases |ops|
  {
    if ops != [] {
      InNoDraftStep(db, ops[0], id);
      InNoDraftExec(Perform(db, ops[0]), ops[1..], id);
    }
  }

  /** An invitation sent again by reinvite_draft can never be accepted, whatever happens before and after. */
  lemma ResentNeverAccepted(before: seq<Op>, old_: nat, id: nat, expiresAt: int,
                            later: seq<Op>, pubkey: string, now: int)
    requires Legal(EMPTY, before)
    requires var db := Exec(EMPTY, before); old_ in db.invites && db.invites[old_].status.Expired?
    requires Possible(Exec(EMPTY, before), Reinvite(old_, id, expiresAt))
    requires Legal(Perform(Exec(EMPTY, before), Reinvite(old_, id, expiresAt)), later)
    ensures var sent := Perform(Exec(EMPTY, before), Reinvite(old_, id, expiresAt));
            id in sent.invites && TryAccept(Exec(sent, later), id, pubkey, now).None?
  {
    var db := Exec(EMPTY, before);
    var sent := Perform(db, Reinvite(old_, id, expiresAt));
    InvExec(EMPTY, before);
    InvPerform(db, Reinvite(old_, id, expiresAt));
    forall d | d in sent.drafts ensures !Carries(sent.drafts[d].origin, id) {
      assert DraftInv(db.drafts[d], d, db.accepted, db.issued);
    }
    InNoDraftExec(sent, later, id);
    InvExec(sent, later);
    AcceptIff(Exec(sent, later), id, pubkey, now);
  }

  // ---------------------------------------------------------------- scans and loops as histories

  lemma {:induction false} ExecAppend(db: Db, a: seq<Op>, b: seq<Op>)
    requires Legal(db, a) && Legal(Exec(db, a), b)
    ensures Legal(db, a + b) && Exec(db, a + b) == Exec(Exec(db, a), b)
    decreases |a|
  {
    if a == [] {
      assert a + b == b;
    } else {
      assert (a + b)[1..] == a[1..] + b;
      ExecAppend(Perform(db, a[0]), a[1..], b);
    }
  }

  lemma OneOp(db: Db, op: Op)
    requires Possible(db, op)
    ensures Legal(db, [op]) && Exec(db, [op]) == Perform(db, op)
  {
    assert [op][1..] == [];
  }

  /** The keeper's scan, on the rows in todo. */
  function ExpireRows(invites: map<nat, Invite>, now: int, todo: set<nat>): map<nat, Invite> {
    map id | id in invites ::
      if id in todo && invites[id].status.Pending? && invites[id].expiresAt < now
      then invites[id].(status := Expired) else invites[id]
  }

  lemma ExpireOneMore(db: Db, now: int, id: nat, todo: set<nat>)
    requires id in todo
    ensures var next := Perform(db, ExpireInvite(id, now));
            next == db.(invites := next.invites) &&
            ExpireRows(next.invites, now, todo - {id}) == ExpireRows(db.invites, now, todo)
  {}

  /** The keeper's one statement is a history of single expiries. */
  lemma {:induction false} ExpiryIsAHistory(db: Db, now: int, todo: set<nat>) returns (ops: seq<Op>)
    ensures Legal(db, ops) && Exec(db, ops) == db.(invites := ExpireRows(db.invites, now, todo))
    ensures forall op :: op in ops ==> op.ExpireInvite?
    decreases |todo|
  {
    if todo == {} {
      ops := [];
      assert db.invites == ExpireRows(db.invites, now, todo);
    } else {
      var id :| id in todo;
      var first := ExpireInvite(id, now);
      var next := Perform(db, first);
      OneOp(db, first);
      var rest := ExpiryIsAHistory(next, now, todo - {id});
      ExpireOneMore(db, now, id, todo);
      ExecAppend(db, [first], rest);
      ops := [first] + rest;
    }
  }
}

/** accept_invite as concurrent transactions that lock the invitation row, then the draft row, and publish
    their two writes at commit. */
module AcceptProtocol {
  import opened Common
  import opened DraftTable

  datatype Pc =
    | WantInvite
    | WantDraft(draft: nat)
    | Resolved(draft: nat, slots: seq<Slot>)
    | InviteWritten(draft: nat, slots: seq<Slot>)
    | BothWritten(draft: nat, slots: seq<Slot>)
  {
    predicate HasDraft() {
      Resolved? || InviteWritten? || BothWritten?
    }

    /** Rank in the lock order. */
    function Rank(): nat {
      if WantInvite? then 0 else if WantDraft? then 1 else 2
    }
  }

  datatype Txn = Txn(id: nat, pubkey: string, now: int, pc: Pc)
  datatype State = State(db: Db, inviteLock: map<nat, nat>, draftLock: map<nat, nat>, txns: map<nat, Txn>)

  datatype Step =
    | Begin(t: nat, id: nat, pubkey: string, now: int)
    | LockInvite(t: nat)
    | LockDraft(t: nat)
    | WriteInvite(t: nat)
    | WriteDraft(t: nat)
    | Commit(t: nat)
    | Abort(t: nat)
    | Other(op: Op)

  const INIT := State(EMPTY, map[], map[], map[])

  /** A statement that updates a locked row waits for the lock. */
  ghost predicate Enabled(s: State, step: Step) {
    match step
    case Begin(t, _, _, _) => t !in s.txns
    case LockInvite(t) =>
      t in s.txns && s.txns[t].pc.WantInvite? && s.txns[t].id !in s.inviteLock
    case LockDraft(t) => t in s.txns && s.txns[t].pc.WantDraft? && s.txns[t].pc.draft !in s.draftLock
    case WriteInvite(t) => t in s.txns && s.txns[t].pc.Resolved?
    case WriteDraft(t) => t in s.txns && s.txns[t].pc.InviteWritten?
    case Commit(t) =>
      && t in s.txns && s.txns[t].pc.BothWritten?
      && s.txns[t].id in s.db.invites && s.txns[t].pc.draft in s.db.drafts
    case Abort(t) => t in s.txns
    case Other(op) =>
      && Possible(s.db, op) && !op.Accept?
      && (op.Discard? ==> op.d !in s.draftLock)
      && (op.ExpireInvite? ==> op.id !in s.inviteLock)
  }

  /** The end of a transaction releases what it locked. */
  function Release(s: State, t: nat): State {
    s.(inviteLock := map i | i in s.inviteLock && s.inviteLock[i] != t :: s.inviteLock[i],
       draftLock := map d | d in s.draftLock && s.draftLock[d] != t :: s.draftLock[d],
       txns := s.txns - {t})
  }

  function Goto(s: State, t: nat, pc: Pc): State
    requires t in s.txns
  {
    s.(txns := s.txns[t := s.txns[t].(pc := pc)])
  }

  ghost function Apply(s: State, step: Step): State
    requires Enabled(s, step)
  {
    match step
    case Begin(t, id, pubkey, now) => s.(txns := s.txns[t := Txn(id, pubkey, now, WantInvite)])
    case LockInvite(t) =>
      var me := s.txns[t];
      if me.id !in s.db.invites || !IsPendingInvitation(s.db.invites[me.id], me.now) then Release(s, t)
      else Goto(s.(inviteLock := s.inviteLock[me.id := t]), t, WantDraft(s.db.invites[me.id].draft))
    case LockDraft(t) =>
      var me := s.txns[t];
      if me.pc.draft !in s.db.drafts then Release(s, t)
      else
        (match Resolve(s.db.drafts[me.pc.draft].slots, me.id, me.pubkey)
         case None => Release(s, t)
         case Some(slots) =>
           Goto(s.(draftLock := s.draftLock[me.pc.draft := t]), t, Resolved(me.pc.draft, slots)))
    case WriteInvite(t) => Goto(s, t, InviteWritten(s.txns[t].pc.draft, s.txns[t].pc.slots))
    case WriteDraft(t) => Goto(s, t, BothWritten(s.txns[t].pc.draft, s.txns[t].pc.slots))
    case Commit(t) =>
      var me := s.txns[t];
      Release(s.(db := Record(s.db, me.id, me.pc.draft, me.pc.slots, me.pubkey)), t)
    case Abort(t) => Release(s, t)
    case Other(op) => s.(db := Perform(s.db, op))
  }

  // ---------------------------------------------------------------- locks

  /** The locks are held by exactly the transactions that are past them. */
  ghost predicate LocksMatch(s: State) {
    && (forall i :: i in s.inviteLock ==> InviteLockOwned(s, i))
    && (forall d :: d in s.draftLock ==> DraftLockOwned(s, d))
    && (forall t :: t in s.txns ==> HasItsLocks(s, t))
  }

  predicate InviteLockOwned(s: State, i: nat)
    requires i in s.inviteLock
  {
    var t := s.inviteLock[i];
    t in s.txns && s.txns[t].id == i && !s.txns[t].pc.WantInvite?
  }

  predicate DraftLockOwned(s: State, d: nat)
    requires d in s.draftLock
  {
    var t := s.draftLock[d];
    t in s.txns && s.txns[t].pc.HasDraft() && s.txns[t].pc.draft == d
  }

  predicate HasItsLocks(s: State, t: nat)
    requires t in s.txns
  {
    var me := s.txns[t];
    && (!me.pc.WantInvite? ==> me.id in s.inviteLock && s.inviteLock[me.id] == t)
    && (me.pc.HasDraft() ==> me.pc.draft in s.draftLock && s.draftLock[me.pc.draft] == t)
  }

  /** What a transaction has read is still so: the acceptance it has prepared is the one the table calls for. */
  ghost predicate ReadsStand(s: State, me: Txn) {
    && (!me.pc.WantInvite? ==>
          && me.id in s.db.invites && IsPendingInvitation(s.db.invites[me.id], me.now)
          && s.db.invites[me.id].draft == me.pc.draft)
    && (me.pc.HasDraft() ==>
          && me.pc.draft in s.db.drafts
          && Resolve(s.db.drafts[me.pc.draft].slots, me.id, me.pubkey) == Some(me.pc.slots))
  }

  ghost predicate LockInv(s: State) {
    Inv(s.db) && LocksMatch(s) && forall t :: t in s.txns ==> ReadsStand(s, s.txns[t])
  }

  lemma LockedInviteSpared(s: State, op: Op, id: nat)
    requires Inv(s.db) && Enabled(s, Other(op)) && id in s.db.invites && id in s.inviteLock
    ensures var after := Perform(s.db, op); id in after.invites && after.invites[id] == s.db.invites[id]
  {
    assert InviteInv(s.db, id);
  }

  lemma LockedDraftSpared(s: State, op: Op, d: nat)
    requires Enabled(s, Other(op)) && d in s.db.drafts && d in s.draftLock
    ensures var after := Perform(s.db, op); d in after.drafts && after.drafts[d] == s.db.drafts[d]
  {}

  /** No statement of another handler changes a row that a transaction has locked. */
  lemma OthersSpareLocked(s: State, op: Op, me: Txn)
    requires Inv(s.db) && ReadsStand(s, me) && Enabled(s, Other(op))
    requires !me.pc.WantInvite? ==> me.id in s.inviteLock
    requires me.pc.HasDraft() ==> me.pc.draft in s.draftLock
    ensures ReadsStand(Apply(s, Other(op)), me)
  {
    if !me.pc.WantInvite? {
      LockedInviteSpared(s, op, me.id);
    }
    if me.pc.HasDraft() {
      LockedDraftSpared(s, op, me.pc.draft);
    }
  }

  lemma RecordSparesOthers(db: Db, id: nat, d: nat, slots: seq<Slot>, pubkey: string)
    requires id in db.invites && d in db.drafts
    ensures var after := Record(db, id, d, slots, pubkey);
            && (forall i :: i in db.invites && i != id ==> i in after.invites && after.invites[i] == db.invites[i])
            && (forall e :: e in db.drafts && e != d ==> e in after.drafts && after.drafts[e] == db.drafts[e])
  {}

  lemma CommitSparesOthers(s: State, t: nat, u: nat)
    requires LocksMatch(s) && Enabled(s, Commit(t)) && u in s.txns && u != t && ReadsStand(s, s.txns[u])
    ensures ReadsStand(Apply(s, Commit(t)), s.txns[u])
  {
    var mine, theirs := s.txns[t], s.txns[u];
    assert HasItsLocks(s, u) && HasItsLocks(s, t);
    assert !theirs.pc.WantInvite? ==> theirs.id != mine.id;
    assert theirs.pc.HasDraft() ==> theirs.pc.draft != mine.pc.draft;
    RecordSparesOthers(s.db, mine.id, mine.pc.draft, mine.pc.slots, mine.pubkey);
  }

  /** What a step does to the tables, as an operation of the serial description. */
  ghost function Serial(s: State, step: Step): seq<Op>
    requires Enabled(s, step)
  {
    match step
    case Commit(t) => [Accept(s.txns[t].id, s.txns[t].pubkey, s.txns[t].now)]
    case Other(op) => [op]
    case _ => []
  }

  /** A commit publishes exactly what accept_invite, run at that moment with nothing else going on, would. */
  lemma CommitIsAccept(s: State, t: nat)
    requires Enabled(s, Commit(t)) && ReadsStand(s, s.txns[t])
    ensures var me := s.txns[t];
            TryAccept(s.db, me.id, me.pubkey, me.now) == Some(Apply(s, Commit(t)).db)
  {}

  lemma ReleaseKeepsLocks(s: State, t: nat)
    requires LocksMatch(s)
    ensures LocksMatch(Release(s, t))
  {
    var after := Release(s, t);
    forall i | i in after.inviteLock ensures InviteLockOwned(after, i) {
      assert InviteLockOwned(s, i);
    }
    forall d | d in after.draftLock ensures DraftLockOwned(after, d) {
      assert DraftLockOwned(s, d);
    }
    forall u | u in after.txns ensures HasItsLocks(after, u) {
      assert HasItsLocks(s, u);
    }
  }

  /** A transaction moves on; locked says whether this step took the lock it was waiting for. */
  lemma AdvanceKeepsLocks(s: State, step: Step, t: nat)
    requires LocksMatch(s) && Enabled(s, step) && t in Apply(s, step).txns
    requires step in {Step.LockInvite(t), Step.LockDraft(t), Step.WriteInvite(t), Step.WriteDraft(t)}
    ensures LocksMatch(Apply(s, step))
  {
    var after := Apply(s, step);
    assert HasItsLocks(s, t);
    forall i | i in after.inviteLock ensures InviteLockOwned(after, i) {
      if i in s.inviteLock {
        assert InviteLockOwned(s, i);
      }
    }
    forall d | d in after.draftLock ensures DraftLockOwned(after, d) {
      if d in s.draftLock {
        assert DraftLockOwned(s, d);
      }
    }
    forall u | u in after.txns ensures HasItsLocks(after, u) {
      assert HasItsLocks(s, u);
    }
  }

  lemma BeginKeepsLocks(s: State, step: Step)
    requires LocksMatch(s) && Enabled(s, step) && step.Begin?
    ensures LocksMatch(Apply(s, step))
  {
    var after := Apply(s, step);
    forall i | i in after.inviteLock ensures InviteLockOwned(after, i) {
      assert InviteLockOwned(s, i);
    }
    forall d | d in after.draftLock ensures DraftLockOwned(after, d) {
      assert DraftLockOwned(s, d);
    }
    forall u | u in after.txns ensures HasItsLocks(after, u) {
      if u in s.txns {
        assert HasItsLocks(s, u);
      }
    }
  }

  lemma DbOnlyKeepsLocks(s: State, after: State)
    requires LocksMatch(s) && after == s.(db := after.db)
    ensures LocksMatch(after)
  {
    forall i | i in after.inviteLock ensures InviteLockOwned(after, i) {
      assert InviteLockOwned(s, i);
    }
    forall d | d in after.draftLock ensures DraftLockOwned(after, d) {
      assert DraftLockOwned(s, d);
    }
    forall u | u in after.txns ensures HasItsLocks(after, u) {
      assert HasItsLocks(s, u);
    }
  }

  lemma LocksMatchStep(s: State, step: Step)
    requires LocksMatch(s) && Enabled(s, step)
    ensures LocksMatch(Apply(s, step))
  {
    match step
    case Begin(_, _, _, _) => BeginKeepsLocks(s, step);
    case Other(_) => DbOnlyKeepsLocks(s, Apply(s, step));
    case Abort(t) => ReleaseKeepsLocks(s, t);
    case Commit(t) =>
      var me := s.txns[t];
      var written := s.(db := Record(s.db, me.id, me.pc.draft, me.pc.slots, me.pubkey));
      DbOnlyKeepsLocks(s, written);
      ReleaseKeepsLocks(written, t);
    case LockInvite(t) => LockingKeepsLocks(s, step, t);
    case LockDraft(t) => LockingKeepsLocks(s, step, t);
    case WriteInvite(t) => AdvanceKeepsLocks(s, step, t);
    case WriteDraft(t) => AdvanceKeepsLocks(s, step, t);
  }

  lemma LockingKeepsLocks(s: State, step: Step, t: nat)
    requires LocksMatch(s) && Enabled(s, step) && (step == Step.LockInvite(t) || step == Step.LockDraft(t))
    ensures LocksMatch(Apply(s, step))
  {
    if t in Apply(s, step).txns {
      AdvanceKeepsLocks(s, step, t);
    } else {
      ReleaseKeepsLocks(s, t);
    }
  }

  lemma OwnStepReads(s: State, step: Step, u: nat)
    requires u in s.txns && ReadsStand(s, s.txns[u]) && Enabled(s, step) && u in Apply(s, step).txns
    requires step in {Step.LockInvite(u), Step.LockDraft(u), Step.WriteInvite(u), Step.WriteDraft(u)}
    ensures ReadsStand(Apply(s, step), Apply(s, step).txns[u])
  {}

  lemma QuietStep(s: State, step: Step, u: nat)
    requires u in s.txns && Enabled(s, step) && u in Apply(s, step).txns && !step.Commit? && !step.Other?
    requires step !in {Step.LockInvite(u), Step.LockDraft(u), Step.WriteInvite(u), Step.WriteDraft(u)}
    ensures Apply(s, step).db == s.db && Apply(s, step).txns[u] == s.txns[u]
  {}

  /** What the transactions have read survives every step of another and every step of their own. */
  lemma ReadsStandStep(s: State, step: Step, u: nat)
    requires LockInv(s) && Enabled(s, step) && u in Apply(s, step).txns
    ensures ReadsStand(Apply(s, step), Apply(s, step).txns[u])
  {
    if u in s.txns {
      assert ReadsStand(s, s.txns[u]) && HasItsLocks(s, u);
      if step.Commit? {
        CommitSparesOthers(s, step.t, u);
      } else if step.Other? {
        OthersSpareLocked(s, step.op, s.txns[u]);
      } else if step in {Step.LockInvite(u), Step.LockDraft(u), Step.WriteInvite(u), Step.WriteDraft(u)} {
        OwnStepReads(s, step, u);
      } else {
        QuietStep(s, step, u);
      }
    }
  }

  lemma DbStep(s: State, step: Step)
    requires LockInv(s) && Enabled(s, step)
    ensures Legal(s.db, Serial(s, step)) && Apply(s, step).db == Exec(s.db, Serial(s, step))
  {
    match step
    case Commit(t) =>
      CommitIsAccept(s, t);
      OneOp(s.db, Accept(s.txns[t].id, s.txns[t].pubkey, s.txns[t].now));
    case Other(op) => OneOp(s.db, op);
    case _ => assert Apply(s, step).db == s.db;
  }

  lemma StepRefines(s: State, step: Step)
    requires LockInv(s) && Enabled(s, step)
    ensures LockInv(Apply(s, step))
    ensures Legal(s.db, Serial(s, step)) && Apply(s, step).db == Exec(s.db, Serial(s, step))
  {
    LocksMatchStep(s, step);
    DbStep(s, step);
    InvExec(s.db, Serial(s, step));
    forall u | u in Apply(s, step).txns ensures ReadsStand(Apply(s, step), Apply(s, step).txns[u]) {
      ReadsStandStep(s, step, u);
    }
  }

  ghost predicate LegalRun(s: State, run: seq<Step>)
    decreases |run|
  {
    run == [] || (Enabled(s, run[0]) && LegalRun(Apply(s, run[0]), run[1..]))
  }

  ghost function ExecRun(s: State, run: seq<Step>): State
    requires LegalRun(s, run)
    decreases |run|
  {
    if run == [] then s else ExecRun(Apply(s, run[0]), run[1..])
  }

  /** What a caller asks of accept_invite. */
  datatype Request = Request(id: nat, pubkey: string, now: int)

  /** The serial operations a run stands for, read off its steps alone: a commit stands for the acceptance its
      transaction was begun with. open holds the requests begun so far, by transaction. */
  function History(run: seq<Step>, open: map<nat, Request>): seq<Op> {
    if run == [] then []
    else
      match run[0]
      case Begin(t, id, pubkey, now) => History(run[1..], open[t := Request(id, pubkey, now)])
      case Commit(t) =>
        (if t in open then [Accept(open[t].id, open[t].pubkey, open[t].now)] else []) + History(run[1..], open)
      case Other(op) => [op] + History(run[1..], open)
      case _ => History(run[1..], open)
  }

  /** The open transactions carry the requests they were begun with. */
  predicate Carrying(s: State, open: map<nat, Request>) {
    forall t :: t in s.txns ==> t in open && open[t] == Request(s.txns[t].id, s.txns[t].pubkey, s.txns[t].now)
  }

  function Reopen(step: Step, open: map<nat, Request>): map<nat, Request> {
    if step.Begin? then open[step.t := Request(step.id, step.pubkey, step.now)] else open
  }

  lemma CarryingStep(s: State, step: Step, open: map<nat, Request>)
    requires Enabled(s, step) && Carrying(s, open)
    ensures Carrying(Apply(s, step), Reopen(step, open))
  {}

  lemma HistoryStep(s: State, run: seq<Step>, open: map<nat, Request>)
    requires run != [] && Enabled(s, run[0]) && Carrying(s, open)
    ensures History(run, open) == Serial(s, run[0]) + History(run[1..], Reopen(run[0], open))
  {}

  /** Whatever the interleaving of lock, read, write, commit and abort steps, the tables go through the history
      of whole acceptances and single statements that the run stands for: no update is lost, none is half done,
      and each is made with the key and the time its caller came with. */
  lemma {:induction false} ConcurrentRefinesSerial(s: State, run: seq<Step>, open: map<nat, Request>)
    requires LockInv(s) && LegalRun(s, run) && Carrying(s, open)
    ensures var ops := History(run, open); Legal(s.db, ops) && Exec(s.db, ops) == ExecRun(s, run).db
    ensures LockInv(ExecRun(s, run))
    decreases |run|
  {
    if run != [] {
      var next, begun := Apply(s, run[0]), Reopen(run[0], open);
      StepRefines(s, run[0]);
      CarryingStep(s, run[0], open);
      HistoryStep(s, run, open);
      ConcurrentRefinesSerial(next, run[1..], begun);
      ExecAppend(s.db, Serial(s, run[0]), History(run[1..], begun));
    }
  }

  /** Every committed acceptance is found in the slot that carried its invitation, every other slot is as it
      was created, and the counts agree, after any concurrent run. */
  lemma ConcurrentDraftHistory(run: seq<Step>, d: nat)
    requires LegalRun(INIT, run) && d in ExecRun(INIT, run).db.drafts
    ensures var db := ExecRun(INIT, run).db; var draft := db.drafts[d];
            && |draft.slots| == |draft.origin|
            && (forall k :: 0 <= k < |draft.slots| ==>
                  match draft.origin[k].inviteId
                  case Some(id) =>
                    draft.slots[k] == if id in db.accepted then Slot(Some(db.accepted[id]), None) else draft.origin[k]
                  case None => draft.slots[k] == draft.origin[k])
            && |AcceptedOf(db, d)| + Unresolved(draft.slots) == Unresolved(draft.origin)
            && (draft.status.ReadyToSubmit? ==> Unresolved(draft.slots) == 0)
  {
    ConcurrentRefinesSerial(INIT, run, map[]);
    DraftHistory(History(run, map[]), d);
  }

  // ---------------------------------------------------------------- what is committed is what was asked for

  /** Step j commits the transaction that step i began. */
  predicate Commits(run: seq<Step>, i: nat, j: nat) {
    && i < j < |run| && run[i].Begin? && run[j] == Commit(run[i].t)
    && forall k :: i < k < j && run[k].Begin? ==> run[k].t != run[i].t
  }

  /** An acceptance in the history is the commit of a transaction begun in the run with the same request, or of
      one that was open before. */
  lemma {:induction false} HistoryAccepts(run: seq<Step>, open: map<nat, Request>, op: Op) returns (i: int, j: nat)
    requires op.Accept? && op in History(run, open) && Other(op) !in run
    ensures j < |run| && run[j].Commit? && i < j
    ensures i >= 0 ==> Commits(run, i, j) && run[i] == Begin(run[j].t, op.id, op.pubkey, op.now)
    ensures i < 0 ==>
              && run[j].t in open && open[run[j].t] == Request(op.id, op.pubkey, op.now)
              && forall k :: 0 <= k < j && run[k].Begin? ==> run[k].t != run[j].t
    decreases |run|
  {
    if run[0].Commit? && run[0].t in open && open[run[0].t] == Request(op.id, op.pubkey, op.now) {
      i, j := -1, 0;
    } else {
      assert op in History(run[1..], Reopen(run[0], open));
      i, j := HistoryAccepts(run[1..], Reopen(run[0], open), op);
      assert forall k :: 0 < k < |run| ==> run[k] == run[1..][k - 1];
      i, j := if i < 0 && run[0].Begin? && run[0].t == run[j + 1].t then 0
              else if i < 0 then i else i + 1, j + 1;
    }
  }

  lemma {:induction false} OthersAreNoAcceptances(s: State, run: seq<Step>, op: Op)
    requires LegalRun(s, run) && op.Accept?
    ensures Other(op) !in run
    decreases |run|
  {
    if run != [] {
      OthersAreNoAcceptances(Apply(s, run[0]), run[1..], op);
    }
  }

  /** The request of an open transaction is on record once it commits. */
  lemma {:induction false} OpenRequestIsKept(s: State, run: seq<Step>, open: map<nat, Request>, j: nat)
    requires LockInv(s) && LegalRun(s, run) && Carrying(s, open) && j < |run| && run[j].Commit?
    requires run[j].t in open && forall k :: 0 <= k < j && run[k].Begin? ==> run[k].t != run[j].t
    ensures var me, accepted := open[run[j].t], ExecRun(s, run).db.accepted;
            me.id in accepted && accepted[me.id] == me.pubkey
    decreases |run|
  {
    var next, begun := Apply(s, run[0]), Reopen(run[0], open);
    StepRefines(s, run[0]);
    CarryingStep(s, run[0], open);
    if j == 0 {
      ConcurrentRefinesSerial(next, run[1..], begun);
      AcceptedStays(next.db, History(run[1..], begun), open[run[0].t].id);
    } else {
      OpenRequestIsKept(next, run[1..], begun, j - 1);
    }
  }

  lemma {:induction false} CommitIsKept(s: State, run: seq<Step>, open: map<nat, Request>, i: nat, j: nat)
    requires LockInv(s) && LegalRun(s, run) && Carrying(s, open) && Commits(run, i, j)
    ensures var accepted := ExecRun(s, run).db.accepted;
            run[i].id in accepted && accepted[run[i].id] == run[i].pubkey
    decreases |run|
  {
    var next, begun := Apply(s, run[0]), Reopen(run[0], open);
    StepRefines(s, run[0]);
    CarryingStep(s, run[0], open);
    if i == 0 {
      OpenRequestIsKept(next, run[1..], begun, j - 1);
    } else {
      CommitIsKept(next, run[1..], begun, i - 1, j - 1);
    }
  }

  /** The key on record for an invitation is exactly the one its caller came with in the transaction that
      committed: no other key gets in, and none that was committed is lost or replaced. */
  lemma AcceptedIffCommitted(run: seq<Step>, id: nat, pubkey: string)
    requires LegalRun(INIT, run)
    ensures var accepted := ExecRun(INIT, run).db.accepted;
            (id in accepted && accepted[id] == pubkey) <==>
            exists i: nat, j: nat :: Commits(run, i, j) && run[i].id == id && run[i].pubkey == pubkey
  {
    var accepted := ExecRun(INIT, run).db.accepted;
    if id in accepted && accepted[id] == pubkey {
      ConcurrentRefinesSerial(INIT, run, map[]);
      var now := AcceptedWasAsked(EMPTY, History(run, map[]), id);
      OthersAreNoAcceptances(INIT, run, Accept(id, pubkey, now));
      var i, j := HistoryAccepts(run, map[], Accept(id, pubkey, now));
      assert Commits(run, i, j);
    }
    if i: nat, j: nat :| Commits(run, i, j) && run[i].id == id && run[i].pubkey == pubkey {
      CommitIsKept(INIT, run, map[], i, j);
    }
  }

  /** A request that finds its invitation open and nobody else at the two rows goes through. */
  lemma AcceptGoesThrough(s: State, t: nat, id: nat, pubkey: string, now: int)
    requires t !in s.txns && id !in s.inviteLock && TryAccept(s.db, id, pubkey, now).Some?
    requires s.db.invites[id].draft !in s.draftLock
    ensures var run := [Begin(t, id, pubkey, now), LockInvite(t), LockDraft(t),
                        WriteInvite(t), WriteDraft(t), Commit(t)];
            LegalRun(s, run) && Some(ExecRun(s, run).db) == TryAccept(s.db, id, pubkey, now)
  {
    var s1 := Apply(s, Begin(t, id, pubkey, now));
    var s2 := Apply(s1, LockInvite(t));
    var s3 := Apply(s2, LockDraft(t));
    var s4 := Apply(s3, WriteInvite(t));
    var s5 := Apply(s4, WriteDraft(t));
    assert LegalRun(Apply(s5, Commit(t)), []);
    RunCons(s5, Commit(t), []);
    RunCons(s4, WriteDraft(t), [Commit(t)]);
    RunCons(s3, WriteInvite(t), [WriteDraft(t), Commit(t)]);
    RunCons(s2, LockDraft(t), [WriteInvite(t), WriteDraft(t), Commit(t)]);
    RunCons(s1, LockInvite(t), [LockDraft(t), WriteInvite(t), WriteDraft(t), Commit(t)]);
    RunCons(s, Begin(t, id, pubkey, now), [LockInvite(t), LockDraft(t), WriteInvite(t), WriteDraft(t), Commit(t)]);
  }

  lemma RunCons(s: State, step: Step, rest: seq<Step>)
    requires Enabled(s, step) && LegalRun(Apply(s, step), rest)
    ensures LegalRun(s, [step] + rest) && ExecRun(s, [step] + rest) == ExecRun(Apply(s, step), rest)
  {
    assert ([step] + rest)[1..] == rest;
  }

  // ---------------------------------------------------------------- no deadlock

  /** t needs a lock that u holds. */
  ghost predicate WaitsFor(s: State, t: nat, u: nat) {
    && t in s.txns
    && ((s.txns[t].pc.WantInvite? && s.txns[t].id in s.inviteLock && s.inviteLock[s.txns[t].id] == u) ||
        (s.txns[t].pc.WantDraft? && s.txns[t].pc.draft in s.draftLock && s.draftLock[s.txns[t].pc.draft] == u))
  }

  /** Whoever is waited for is further along the lock order, so waiting has no cycle. */
  lemma WaitingClimbs(s: State, t: nat, u: nat)
    requires LocksMatch(s) && WaitsFor(s, t, u)
    ensures u in s.txns && s.txns[t].pc.Rank() < s.txns[u].pc.Rank()
  {
    if s.txns[t].pc.WantInvite? {
      assert InviteLockOwned(s, s.txns[t].id);
    } else {
      assert DraftLockOwned(s, s.txns[t].pc.draft);
    }
  }

  /** The statement a transaction issues next. */
  function NextStep(t: nat, pc: Pc): Step {
    match pc
    case WantInvite => LockInvite(t)
    case WantDraft(_) => LockDraft(t)
    case Resolved(_, _) => WriteInvite(t)
    case InviteWritten(_, _) => WriteDraft(t)
    case BothWritten(_, _) => Commit(t)
  }

  lemma BlockedOnlyByWaiting(s: State, t: nat)
    requires t in s.txns && ReadsStand(s, s.txns[t])
    ensures Enabled(s, NextStep(t, s.txns[t].pc)) || exists u :: WaitsFor(s, t, u)
  {
    var me := s.txns[t];
    if me.pc.WantInvite? && me.id in s.inviteLock {
      assert WaitsFor(s, t, s.inviteLock[me.id]);
    } else if me.pc.WantDraft? && me.pc.draft in s.draftLock {
      assert WaitsFor(s, t, s.draftLock[me.pc.draft]);
    }
  }

  /** From any open transaction, following the waits leads to one that can take its next step. */
  lemma {:induction false} SomeoneCanProceed(s: State, t: nat) returns (u: nat)
    requires LockInv(s) && t in s.txns
    ensures u in s.txns && Enabled(s, NextStep(u, s.txns[u].pc))
    decreases 2 - s.txns[t].pc.Rank()
  {
    assert ReadsStand(s, s.txns[t]);
    BlockedOnlyByWaiting(s, t);
    if Enabled(s, NextStep(t, s.txns[t].pc)) {
      u := t;
    } else {
      var v :| WaitsFor(s, t, v);
      WaitingClimbs(s, t, v);
      u := SomeoneCanProceed(s, v);
    }
  }

  /** No reachable state is deadlocked. */
  lemma NoDeadlock(run: seq<Step>)
    requires LegalRun(INIT, run)
    ensures var s := ExecRun(INIT, run);
            s.txns.Keys != {} ==> exists u :: u in s.txns && Enabled(s, NextStep(u, s.txns[u].pc))
  {
    ConcurrentRefinesSerial(INIT, run, map[]);
    var s := ExecRun(INIT, run);
    if s.txns.Keys != {} {
      var t :| t in s.txns;
      var u := SomeoneCanProceed(s, t);
    }
  }
}

/** The handlers as they run, one request at a time. */
module DraftHandlers {
  import opened Common
  import opened Invitations
  import opened DraftTable

  /** Rewrites the slot in place; NotFound leaves the slots alone. */
  method ResolvePartySlotPubkey(slots: array<Slot>, id: nat, pubkey: string) returns (found: bool)
    modifies slots
    ensures match Resolve(old(slots[..]), id, pubkey)
            case Some(filled) => found && slots[..] == filled
            case None => !found && slots[..] == old(slots[..])
    ensures found <==> exists i :: 0 <= i < slots.Length && old(slots[i].inviteId) == Some(id)
    ensures found ==> exists i ::
              && 0 <= i < slots.Length && old(slots[i].inviteId) == Some(id)
              && (forall j :: 0 <= j < i ==> old(slots[j].inviteId) != Some(id))
              && slots[..] == old(slots[..])[i := Slot(Some(pubkey), None)]
  {
    for i := 0 to slots.Length
      invariant slots[..] == old(slots[..])
      invariant forall j :: 0 <= j < i ==> slots[j].inviteId != Some(id)
    {
      if slots[i].inviteId == Some(id) {
        assert SlotOf(slots[..], id) == i;
        slots[i] := Slot(Some(pubkey), None);
        return true;
      }
    }
    found := false;
  }

  datatype PartyInput = Pubkey(pubkey: string) | Email(email: string)
  datatype InvitationRow = InvitationRow(id: nat, email: string)

  /** The construction loop of create_agreement. lookup is what the contact query answers, ids are the
      generated identifiers, one of which is used for each party that has to be invited. */
  method BuildSlots(parties: seq<PartyInput>, lookup: map<string, string>, ids: seq<nat>)
    returns (slots: seq<Slot>, rows: seq<InvitationRow>, allResolved: bool)
    requires |ids| == |parties| && NoDuplicates(ids)
    ensures |slots| == |parties|
    ensures forall i :: 0 <= i < |parties| ==>
              match parties[i]
              case Pubkey(k) => slots[i] == Slot(Some(k), None)
              case Email(e) => slots[i] == if e in lookup then Slot(Some(lookup[e]), None) else Slot(None, Some(ids[i]))
    ensures WellFormed(slots)
    ensures allResolved <==> rows == []
    ensures NoDuplicates(rows) && |rows| == Unresolved(slots)
    ensures forall id, e :: InvitationRow(id, e) in rows <==>
              exists i :: 0 <= i < |parties| && parties[i] == Email(e) && ids[i] == id
                          && slots[i] == Slot(None, Some(id))
  {
    slots, rows, allResolved := [], [], true;
    for i := 0 to |parties|
      invariant |slots| == i
      invariant forall j :: 0 <= j < i ==>
                  match parties[j]
                  case Pubkey(k) => slots[j] == Slot(Some(k), None)
                  case Email(e) =>
                    slots[j] == if e in lookup then Slot(Some(lookup[e]), None) else Slot(None, Some(ids[j]))
      invariant allResolved <==> rows == []
      invariant NoDuplicates(rows) && |rows| == Unresolved(slots)
      invariant forall r :: r in rows <==>
                  exists j :: 0 <= j < i && parties[j] == Email(r.email) && ids[j] == r.id
                              && slots[j] == Slot(None, Some(r.id))
    {
      ghost var before := slots;
      match parties[i] {
        case Pubkey(k) =>
          slots := slots + [Slot(Some(k), None)];
        case Email(e) =>
          if e in lookup {
            slots := slots + [Slot(Some(lookup[e]), None)];
          } else {
            allResolved := false;
            slots := slots + [Slot(None, Some(ids[i]))];
            assert InvitationRow(ids[i], e) !in rows;
            rows := rows + [InvitationRow(ids[i], e)];
          }
      }
      UnresolvedSnoc(before, slots[i]);
      assert forall j :: 0 <= j < i ==> slots[j] == before[j];
    }
  }

  /** What the insertion loop adds to the invitations. */
  ghost predicate RowsStored(before: map<nat, Invite>, after: map<nat, Invite>,
                             d: nat, rows: seq<InvitationRow>, expiresAt: int)
  {
    && after.Keys == before.Keys + (set r | r in rows :: r.id)
    && forall id :: id in after ==>
         if exists r :: r in rows && r.id == id then after[id] == Invite(d, Pending, expiresAt)
         else id in before && after[id] == before[id]
  }

  predicate DistinctIds(rows: seq<InvitationRow>) {
    forall i, j :: 0 <= i < j < |rows| ==> rows[i].id != rows[j].id
  }

  lemma {:induction false} InsertsAreAHistory(db: Db, d: nat, rows: seq<InvitationRow>, expiresAt: int)
    returns (ops: seq<Op>)
    requires d in db.drafts && DistinctIds(rows)
    requires forall r :: r in rows ==> Carries(db.drafts[d].origin, r.id) && r.id !in db.invites
    ensures Legal(db, ops) && Exec(db, ops) == db.(invites := Exec(db, ops).invites)
    ensures RowsStored(db.invites, Exec(db, ops).invites, d, rows, expiresAt)
    decreases |rows|
  {
    if rows == [] {
      ops := [];
    } else {
      var first := InsertInvite(rows[0].id, d, expiresAt);
      assert rows[0] in rows;
      OneOp(db, first);
      var next := Perform(db, first);
      forall r | r in rows[1..] ensures Carries(next.drafts[d].origin, r.id) && r.id !in next.invites {
        assert r in rows;
      }
      var rest := InsertsAreAHistory(next, d, rows[1..], expiresAt);
      ExecAppend(db, [first], rest);
      ops := [first] + rest;
      ConsStored(db.invites, next.invites, Exec(next, rest).invites, d, rows, expiresAt);
    }
  }

  lemma ConsStored(before: map<nat, Invite>, mid: map<nat, Invite>, after: map<nat, Invite>,
                   d: nat, rows: seq<InvitationRow>, expiresAt: int)
    requires rows != [] && mid == before[rows[0].id := Invite(d, Pending, expiresAt)]
    requires RowsStored(mid, after, d, rows[1..], expiresAt)
    ensures RowsStored(before, after, d, rows, expiresAt)
  {
    assert forall r :: r in rows <==> r == rows[0] || r in rows[1..];
  }

  /** Storing a draft with its invitations is a history of the serial description, so all that holds of histories
      holds of the creating handler. */
  lemma StoreIsAHistory(db: Db, d: nat, slots: seq<Slot>, rows: seq<InvitationRow>, expiresAt: int)
    returns (ops: seq<Op>)
    requires Possible(db, CreateDraft(d, slots))
    requires forall i, j :: 0 <= i < j < |rows| ==> rows[i].id != rows[j].id
    requires forall r :: r in rows ==> Carries(slots, r.id) && r.id !in db.invites
    ensures Legal(db, ops)
    ensures var e := Exec(db, ops);
            && e.drafts == db.drafts[d := Draft(slots, AwaitingPartyWallets, slots)]
            && RowsStored(db.invites, e.invites, d, rows, expiresAt)
            && e.accepted == db.accepted && e.issued == db.issued + map id | id in Ids(slots) :: d
  {
    var create := CreateDraft(d, slots);
    OneOp(db, create);
    var rest := InsertsAreAHistory(Perform(db, create), d, rows, expiresAt);
    ExecAppend(db, [create], rest);
    ops := [create] + rest;
  }

  class DraftStore {
    var drafts: map<nat, Draft>
    var invites: map<nat, Invite>
    ghost var accepted: map<nat, string>
    ghost var issued: map<nat, nat>

    constructor ()
      ensures View() == EMPTY
    {
      drafts, invites, accepted, issued := map[], map[], map[], map[];
    }

    ghost function View(): Db
      reads this
    {
      Db(drafts, invites, accepted, issued)
    }

    method AcceptInvite(id: nat, pubkey: string, now: int) returns (ok: bool)
      modifies this
      ensures match TryAccept(old(View()), id, pubkey, now)
              case Some(after) => ok && View() == after
              case None => !ok && View() == old(View())
      ensures ok <==>
                && id in old(invites) && old(invites)[id].status == Pending && now <= old(invites)[id].expiresAt
                && old(invites)[id].draft in old(drafts)
                && var slots := old(drafts)[old(invites)[id].draft].slots;
                   exists i :: 0 <= i < |slots| && slots[i].inviteId == Some(id)
      ensures ok ==>
                var d := old(invites)[id].draft;
                var was, slots := old(drafts)[d], drafts[d].slots;
                && (exists i :: 0 <= i < |was.slots| && was.slots[i].inviteId == Some(id)
                                && slots == was.slots[i := Slot(Some(pubkey), None)])
                && drafts == old(drafts)[d := Draft(slots, drafts[d].status, was.origin)]
                && drafts[d].status == (if Unresolved(slots) == 0 then ReadyToSubmit else was.status)
                && invites == old(invites)[id := old(invites)[id].(status := Accepted)]
                && accepted == old(accepted)[id := pubkey]
    {
      if id !in invites || !IsPendingInvitation(invites[id], now) {
        return false;
      }
      var d := invites[id].draft;
      if d !in drafts {
        return false;
      }
      var draft := drafts[d];
      var slots := new Slot[|draft.slots|](i requires 0 <= i < |draft.slots| => draft.slots[i]);
      assert slots[..] == draft.slots;
      var found := ResolvePartySlotPubkey(slots, id, pubkey);
      if !found {
        return false;
      }
      invites := invites[id := invites[id].(status := Accepted)];
      UnresolvedCounts(slots[..]);
      if AllResolved(slots[..]) {
        drafts := drafts[d := draft.(slots := slots[..], status := ReadyToSubmit)];
      } else {
        drafts := drafts[d := draft.(slots := slots[..])];
      }
      accepted := accepted[id := pubkey];
      ok := true;
    }

    /** The keeper's scan: every pending invitation whose time has passed expires. */
    method ExpireStaleInvitations(now: int)
      modifies this`invites
      ensures invites == ExpireRows(old(invites), now, old(invites).Keys)
      ensures invites.Keys == old(invites).Keys
      ensures forall id :: id in invites ==>
                && invites[id].draft == old(invites)[id].draft && invites[id].expiresAt == old(invites)[id].expiresAt
                && invites[id].status == if old(invites)[id].status == Pending && old(invites)[id].expiresAt < now
                                         then Expired else old(invites)[id].status
      ensures forall id :: id in invites ==> !(invites[id].status.Pending? && invites[id].expiresAt < now)
      ensures forall id, later :: id in invites && later >= now ==>
                (IsPendingInvitation(invites[id], later) <==> IsPendingInvitation(old(invites)[id], later))
    {
      invites := map id | id in invites ::
        if invites[id].status.Pending? && invites[id].expiresAt < now
        then invites[id].(status := Expired) else invites[id];
    }

    /** Only the draft's creator discards it; of the draft itself only the status changes. */
    method DeleteDraft(d: nat, byCreator: bool) returns (ok: bool)
      modifies this`drafts
      ensures ok <==> d in old(drafts) && byCreator
      ensures ok ==> drafts == old(drafts)[d := Draft(old(drafts)[d].slots, Discarded, old(drafts)[d].origin)]
      ensures View() == if ok then Perform(old(View()), Discard(d)) else old(View())
    {
      ok := d in drafts && byCreator;
      if ok {
        drafts := drafts[d := drafts[d].(status := Discarded)];
      }
    }

    /** Sends an expired invitation of the draft again, under a new id; the slot keeps the old one. */
    method ReinviteDraft(d: nat, old_: nat, id: nat, expiresAt: int, byCreator: bool) returns (ok: bool)
      requires id !in issued
      modifies this`invites, this`issued
      ensures ok <==>
                && d in drafts && byCreator && old_ in old(invites)
                && old(invites)[old_].draft == d && old(invites)[old_].status == Expired
      ensures ok ==> invites == old(invites)[id := Invite(d, Pending, expiresAt)] && issued == old(issued)[id := d]
      ensures !ok ==> View() == old(View())
      ensures d in drafts && byCreator && (old_ in old(invites) ==> old(invites)[old_].draft == d) ==>
                View() == Perform(old(View()), Reinvite(old_, id, expiresAt))
    {
      ok := d in drafts && byCreator && old_ in invites && invites[old_].draft == d && invites[old_].status.Expired?;
      if ok {
        invites := invites[id := Invite(d, Pending, expiresAt)];
        issued := issued[id := d];
      }
    }

    /** Everything create_agreement stores when it does not submit at once. */
    method StoreDraft(d: nat, slots: seq<Slot>, rows: seq<InvitationRow>, expiresAt: int)
      requires d !in drafts
      modifies this
      ensures drafts == old(drafts)[d := Draft(slots, AwaitingPartyWallets, slots)]
      ensures RowsStored(old(invites), invites, d, rows, expiresAt)
      ensures invites.Keys == old(invites).Keys + set r | r in rows :: r.id
      ensures forall id :: id in invites ==>
                if exists r :: r in rows && r.id == id
                then invites[id].draft == d && invites[id].status == Pending && invites[id].expiresAt == expiresAt
                else id in old(invites) && invites[id] == old(invites)[id]
      ensures accepted == old(accepted) && issued == old(issued) + map id | id in Ids(slots) :: d
    {
      drafts := drafts[d := Draft(slots, AwaitingPartyWallets, slots)];
      issued := issued + map id | id in Ids(slots) :: d;
      for i := 0 to |rows|
        invariant drafts == old(drafts)[d := Draft(slots, AwaitingPartyWallets, slots)]
        invariant invites.Keys == old(invites).Keys + set r | r in rows[..i] :: r.id
        invariant forall id :: id in invites ==>
                    if exists r :: r in rows[..i] && r.id == id then invites[id] == Invite(d, Pending, expiresAt)
                    else id in old(invites) && invites[id] == old(invites)[id]
        invariant accepted == old(accepted) && issued == old(issued) + map id | id in Ids(slots) :: d
      {
        invites := invites[rows[i].id := Invite(d, Pending, expiresAt)];
        assert rows[..i + 1] == rows[..i] + [rows[i]];
        assert forall r :: r in rows[..i + 1] <==> r in rows[..i] || r == rows[i];
      }
      assert rows[..|rows|] == rows;
    }
  }
}

/**
 The inbox of durable dispatch: it admits each logical dispatch once and recognises redeliveries.
 Every delivery is one serialised transaction.
 */
module DispatchInbox {
  import opened Wrappers
  import opened DispatchContracts

  // ---- The inbox ----

  datatype Store = Store(outboxes: seq<Outbox>, inbox: seq<Admission>)

  datatype Outcome = Admitted | Duplicated

  function FindOutbox(rows: seq<Outbox>, id: string): Option<Outbox> {
    if rows == [] then None
    else if rows[0].body.id == id then Some(rows[0]) else FindOutbox(rows[1..], id)
  }

  function FindAdmission(rows: seq<Admission>, dispatchId: string): Option<Admission> {
    if rows == [] then None
    else if rows[0].body.dispatchId == dispatchId then Some(rows[0]) else FindAdmission(rows[1..], dispatchId)
  }

  predicate Insertable(inbox: seq<Admission>, a: Admission) {
    forall b | b in inbox ::
      && b.body.id != a.body.id && b.body.dispatchId != a.body.dispatchId && b.body.outboxId != a.body.outboxId
      && b.body.outboxDigest != a.body.outboxDigest && b.digest != a.digest
  }

  /** One transaction of the inbox service. */
  function Admit(d: Digest, st: Store, e: Envelope, revision: string): Result<(Store, Outcome, Admission)> {
    var found := FindOutbox(st.outboxes, e.body.entry.body.id);
    if found.None? then Err("OUTBOX_NOT_FOUND") else
    var o := found.value;
    if !EnvelopeBinds(d, e, o) then Err("OUTBOX_BINDING_MISMATCH") else
    var existing := FindAdmission(st.inbox, e.body.dispatchId);
    if existing.Some? then
      match ClassifyRedelivery(d, existing.value, e, o)
      case Duplicate => Ok((st, Duplicated, existing.value))
      case ContentConflict => Err("DISPATCH_CONTENT_CONFLICT")
      case Refused(_) => Err("INBOX_ROW_INVALID")
    else
      var a := MakeAdmission(d, e, o, revision);
      if !Insertable(st.inbox, a) then Err("INBOX_PERSISTENCE_CONFLICT")
      else Ok((st.(inbox := st.inbox + [a]), Admitted, a))
  }

  predicate Enqueueable(outboxes: seq<Outbox>, o: Outbox) {
    forall p | p in outboxes ::
      p.body.id != o.body.id && p.digest != o.digest && p.body.subject.executionId != o.body.subject.executionId
  }

  function Enqueue(d: Digest, st: Store, body: OutboxBody): Store {
    var o := MakeOutbox(d, body);
    if Enqueueable(st.outboxes, o) then st.(outboxes := st.outboxes + [o]) else st
  }

  datatype Action = Put(body: OutboxBody) | Deliver(envelope: Envelope, revision: string)

  function Next(d: Digest, st: Store, a: Action): Store {
    match a
    case Put(body) => Enqueue(d, st, body)
    case Deliver(e, revision) =>
      var r := Admit(d, st, e, revision);
      if r.Ok? then r.value.0 else st
  }

  function Run(d: Digest, actions: seq<Action>): Store {
    if actions == [] then Store([], [])
    else Next(d, Run(d, actions[..|actions| - 1]), actions[|actions| - 1])
  }

  // ---- What every reachable store satisfies ----

  ghost predicate EntriesAreSound(d: Digest, outboxes: seq<Outbox>) {
    && (forall o | o in outboxes :: ValidOutbox(d, o))
    && (forall o, p | o in outboxes && p in outboxes && o.body.id == p.body.id :: o == p)
  }

  /** The admission was made from this stored entry and a valid envelope of it. */
  ghost predicate MadeFrom(d: Digest, a: Admission, o: Outbox, revision: string) {
    a == MakeAdmission(d, MakeEnvelope(d, o, revision), o, a.body.revision)
  }

  ghost predicate Sound(d: Digest, st: Store) {
    && EntriesAreSound(d, st.outboxes)
    && (forall a | a in st.inbox :: exists o, revision :: o in st.outboxes && MadeFrom(d, a, o, revision))
    && (forall i, j | 0 <= i < j < |st.inbox| :: st.inbox[i].body.dispatchId != st.inbox[j].body.dispatchId)
  }

  ghost predicate MadeWithin(d: Digest, texts: set<Claims>, outboxes: seq<Outbox>, a: Admission) {
    exists o, revision ::
      o in outboxes && MadeFrom(d, a, o, revision) && EnvelopeClaims(MakeEnvelope(d, o, revision).body) in texts
  }

  /** All that was digested for the rows is among these texts. */
  ghost predicate Within(d: Digest, texts: set<Claims>, st: Store) {
    && (forall o | o in st.outboxes :: EntryTexts(o) <= texts)
    && (forall a | a in st.inbox :: AdmissionTexts(a) <= texts && MadeWithin(d, texts, st.outboxes, a))
  }

  /** What a delivery digests. */
  function DeliveryTexts(d: Digest, e: Envelope, revision: string): set<Claims> {
    {EnvelopeClaims(e.body)} + AdmissionTexts(MakeAdmission(d, e, e.body.entry, revision))
  }

  lemma {:induction false} FindOutboxFinds(rows: seq<Outbox>, id: string)
    ensures FindOutbox(rows, id).Some? ==> FindOutbox(rows, id).value in rows && FindOutbox(rows, id).value.body.id == id
    ensures FindOutbox(rows, id).None? <==> forall o | o in rows :: o.body.id != id
  {
    if rows != [] {
      FindOutboxFinds(rows[1..], id);
      assert rows == [rows[0]] + rows[1..];
    }
  }

  lemma {:induction false} FindAdmissionFinds(rows: seq<Admission>, id: string)
    ensures FindAdmission(rows, id).Some? ==> FindAdmission(rows, id).value in rows && FindAdmission(rows, id).value.body.dispatchId == id
    ensures FindAdmission(rows, id).None? <==> forall a | a in rows :: a.body.dispatchId != id
  {
    if rows != [] {
      FindAdmissionFinds(rows[1..], id);
      assert rows == [rows[0]] + rows[1..];
    }
  }

  // ---- Deliveries on any tables ----

  ghost predicate KeysDiffer(st: Store) {
    && (forall o, p | o in st.outboxes && p in st.outboxes && o.body.id == p.body.id :: o == p)
    && (forall a, b | a in st.inbox && b in st.inbox && a.body.dispatchId == b.body.dispatchId :: a == b)
  }

  /** The envelope carries a stored entry under the dispatch identity of that entry. */
  ghost predicate Carries(d: Digest, st: Store, e: Envelope) {
    && e.body.entry in st.outboxes
    && e.body.dispatchId == d(DispatchIdentity(e.body.entry.body.id, e.body.entry.digest))
  }

  /** The admission is of this very envelope. */
  ghost predicate AdmissionOf(a: Admission, e: Envelope) {
    var o := e.body.entry;
    && a.body.dispatchId == e.body.dispatchId && a.body.envelopeDigest == e.digest
    && a.body.outboxId == o.body.id && a.body.outboxDigest == o.digest
    && a.body.place == Place(o.body.subject.executionId, o.body.subject.workspaceId, o.body.subject.environment,
                             o.body.binding.capsuleDigest, o.body.binding.runnerClass)
  }

  /** No admission stored uses an identity or a digest of the new one. */
  ghost predicate Fits(inbox: seq<Admission>, a: Admission) {
    forall b | b in inbox ::
      && b.body.id != a.body.id && b.body.dispatchId != a.body.dispatchId && b.body.outboxId != a.body.outboxId
      && b.body.outboxDigest != a.body.outboxDigest && b.digest != a.digest
  }

  /**
   Exactly what a delivery does, on any tables with distinct keys: it is admitted when it carries a stored
   entry and its admission fits, a duplicate when it carries a stored entry and the admission stored for
   its dispatch is of this very envelope, and refused otherwise.
   */
  lemma DeliveryIsExact(d: Digest, st: Store, e: Envelope, revision: string)
    requires KeysDiffer(st)
    ensures var r, a := Admit(d, st, e, revision), MakeAdmission(d, e, e.body.entry, revision);
      && (r.Ok? && r.value.1 == Admitted <==> Carries(d, st, e) && Fits(st.inbox, a))
      && (r.Ok? && r.value.1 == Admitted ==> r.value.0 == Store(st.outboxes, st.inbox + [a]) && r.value.2 == a)
      && (r.Ok? && r.value.1 == Duplicated <==> Carries(d, st, e) && exists b :: b in st.inbox && AdmissionOf(b, e))
      && (r.Ok? && r.value.1 == Duplicated ==> r.value.0 == st && r.value.2 in st.inbox && AdmissionOf(r.value.2, e))
  {
    FindOutboxFinds(st.outboxes, e.body.entry.body.id);
    FindAdmissionFinds(st.inbox, e.body.dispatchId);
  }

  lemma MadeAdmissionTells(d: Digest, e: Envelope, revision: string)
    ensures var a := MakeAdmission(d, e, e.body.entry, revision);
      && AdmissionOf(a, e) && a.body.revision == revision && a.digest == d(AdmissionClaims(a.body))
      && a.body.id == d(AdmissionIdentity(e.body.dispatchId, e.digest, e.body.entry.digest))
  {
  }

  /** With distinct identities, the first admission of a dispatch never runs into a constraint. */
  lemma FirstAdmissionFits(d: Digest, texts: set<Claims>, st: Store, e: Envelope, o: Outbox, revision: string)
    requires CollisionFree(d, texts) && Within(d, texts, st) && DeliveryTexts(d, e, revision) <= texts
    requires Sound(d, st) && o in st.outboxes && EnvelopeBinds(d, e, o)
    requires forall a | a in st.inbox :: a.body.dispatchId != e.body.dispatchId
    ensures Insertable(st.inbox, MakeAdmission(d, e, o, revision))
  {
    var a := MakeAdmission(d, e, o, revision);
    forall b | b in st.inbox ensures
      && b.body.id != a.body.id && b.body.dispatchId != a.body.dispatchId && b.body.outboxId != a.body.outboxId
      && b.body.outboxDigest != a.body.outboxDigest && b.digest != a.digest
    {
      var p, r :| p in st.outboxes && MadeFrom(d, b, p, r);
      AdmissionsDiffer(d, texts, st, e, o, a, b, p, r);
    }
  }

  lemma AdmissionsDiffer(d: Digest, texts: set<Claims>, st: Store, e: Envelope, o: Outbox, a: Admission, b: Admission, p: Outbox, r: string)
    requires CollisionFree(d, texts) && EntryTexts(o) + EntryTexts(p) + AdmissionTexts(a) + AdmissionTexts(b) <= texts
    requires EntriesAreSound(d, st.outboxes) && o in st.outboxes && p in st.outboxes
    requires EnvelopeBinds(d, e, o) && a == MakeAdmission(d, e, o, a.body.revision) && MadeFrom(d, b, p, r)
    requires b.body.dispatchId != a.body.dispatchId
    ensures b.body.id != a.body.id && b.body.outboxId != a.body.outboxId
    ensures b.body.outboxDigest != a.body.outboxDigest && b.digest != a.digest
  {
    assert o != p;
    assert NoCollision(d, OutboxClaims(o.body), OutboxClaims(p.body));
    assert NoCollision(d, AdmissionClaims(a.body), AdmissionClaims(b.body));
    assert NoCollision(d, AdmissionIdentity(a.body.dispatchId, a.body.envelopeDigest, a.body.outboxDigest),
                       AdmissionIdentity(b.body.dispatchId, b.body.envelopeDigest, b.body.outboxDigest));
  }

  /**
   Exactly what a delivery of a valid envelope does: refused when no stored entry is bound by it,
   admitted when its dispatch is new, and otherwise a duplicate or a conflict by its revision.
   */
  lemma AdmitIsExact(d: Digest, texts: set<Claims>, st: Store, e: Envelope, revision: string)
    requires CollisionFree(d, texts) && Within(d, texts, st) && DeliveryTexts(d, e, revision) <= texts
    requires Sound(d, st) && ValidEnvelope(d, e)
    ensures var r := Admit(d, st, e, revision);
      if e.body.entry !in st.outboxes then r.Err?
      else if forall a | a in st.inbox :: a.body.dispatchId != e.body.dispatchId then
        && r.Ok? && r.value.1 == Admitted
        && r.value.2 == MakeAdmission(d, e, e.body.entry, revision) && r.value.0.inbox == st.inbox + [r.value.2]
      else if exists a :: a in st.inbox && a.body.envelopeDigest == e.digest then
        r.Ok? && r.value.1 == Duplicated && r.value.0 == st && r.value.2.body.envelopeDigest == e.digest
      else r == Err("DISPATCH_CONTENT_CONFLICT")
  {
    var o := e.body.entry;
    FindOutboxFinds(st.outboxes, o.body.id);
    FindAdmissionFinds(st.inbox, e.body.dispatchId);
    if o in st.outboxes {
      assert FindOutbox(st.outboxes, o.body.id) == Some(o);
      var existing := FindAdmission(st.inbox, e.body.dispatchId);
      if existing.None? {
        FirstAdmissionFits(d, texts, st, e, o, revision);
      } else {
        RedeliveredEntry(d, texts, st, e, existing.value);
        RedeliveredAdmission(d, texts, st, e, existing.value);
      }
    }
  }

  /** A stored admission of this dispatch was made from the same entry. */
  lemma RedeliveredEntry(d: Digest, texts: set<Claims>, st: Store, e: Envelope, a: Admission)
    requires CollisionFree(d, texts) && Within(d, texts, st) && Sound(d, st) && ValidEnvelope(d, e) && e.body.entry in st.outboxes
    requires a in st.inbox && a.body.dispatchId == e.body.dispatchId
    ensures ClassifyRedelivery(d, a, e, e.body.entry) ==
      if a.body.envelopeDigest == e.digest then Duplicate else ContentConflict
  {
    var o, r :| o in st.outboxes && MadeFrom(d, a, o, r);
    MadeEnvelopeBinds(d, o, r);
    SameDispatchSameEntry(d, MakeEnvelope(d, o, r), o, e, e.body.entry);
  }

  /** An envelope digest determines the dispatch, and a dispatch has one admission. */
  lemma RedeliveredAdmission(d: Digest, texts: set<Claims>, st: Store, e: Envelope, a: Admission)
    requires CollisionFree(d, texts) && Within(d, texts, st) && EnvelopeClaims(e.body) in texts
    requires Sound(d, st) && ValidEnvelope(d, e)
    requires a in st.inbox && a.body.dispatchId == e.body.dispatchId
    ensures forall b | b in st.inbox && b.body.envelopeDigest == e.digest :: b.body.dispatchId == e.body.dispatchId
    ensures forall b | b in st.inbox && b.body.dispatchId == e.body.dispatchId :: b == a
  {
    forall b | b in st.inbox && b.body.envelopeDigest == e.digest ensures b.body.dispatchId == e.body.dispatchId {
      assert MadeWithin(d, texts, st.outboxes, b);
      var p, q :| p in st.outboxes && MadeFrom(d, b, p, q) && EnvelopeClaims(MakeEnvelope(d, p, q).body) in texts;
      assert NoCollision(d, EnvelopeClaims(MakeEnvelope(d, p, q).body), EnvelopeClaims(e.body));
    }
  }

  lemma NextKeepsSound(d: Digest, st: Store, a: Action)
    requires Sound(d, st) && (a.Deliver? ==> ValidEnvelope(d, a.envelope))
    ensures Sound(d, Next(d, st, a))
  {
    var st' := Next(d, st, a);
    match a
    case Put(body) =>
      forall b | b in st'.inbox ensures exists o, revision :: o in st'.outboxes && MadeFrom(d, b, o, revision) {
        var o, revision :| o in st.outboxes && MadeFrom(d, b, o, revision);
        assert o in st'.outboxes;
      }
    case Deliver(e, revision) =>
      if st' != st {
        AdmittedKeepsSound(d, st, e, revision, st');
      }
  }

  lemma AdmittedKeepsSound(d: Digest, st: Store, e: Envelope, revision: string, st': Store)
    requires Sound(d, st) && ValidEnvelope(d, e)
    requires Admit(d, st, e, revision).Ok? && Admit(d, st, e, revision).value.0 == st' != st
    ensures Sound(d, st')
  {
    FindOutboxFinds(st.outboxes, e.body.entry.body.id);
    FindAdmissionFinds(st.inbox, e.body.dispatchId);
    var o, a := e.body.entry, MakeAdmission(d, e, e.body.entry, revision);
    assert MadeFrom(d, a, o, e.body.revision);
    assert st'.inbox == st.inbox + [a];
  }

  /** Only envelopes that pass their own checks are delivered. */
  ghost predicate ValidActions(d: Digest, actions: seq<Action>) {
    forall a | a in actions && a.Deliver? :: ValidEnvelope(d, a.envelope)
  }

  /** The constraints of the two tables: no two rows share an identity, a digest, or an execution. */
  ghost predicate TablesAreKept(st: Store) {
    && (forall i, j | 0 <= i < j < |st.outboxes| ::
          && st.outboxes[i].body.id != st.outboxes[j].body.id && st.outboxes[i].digest != st.outboxes[j].digest
          && st.outboxes[i].body.subject.executionId != st.outboxes[j].body.subject.executionId)
    && (forall i, j | 0 <= i < j < |st.inbox| ::
          && st.inbox[i].body.id != st.inbox[j].body.id && st.inbox[i].body.dispatchId != st.inbox[j].body.dispatchId
          && st.inbox[i].body.outboxId != st.inbox[j].body.outboxId && st.inbox[i].body.outboxDigest != st.inbox[j].body.outboxDigest
          && st.inbox[i].digest != st.inbox[j].digest)
  }

  lemma KeptKeysDiffer(st: Store)
    requires TablesAreKept(st)
    ensures KeysDiffer(st)
  {
  }

  /** What an entry put into the outbox does. */
  lemma EnqueueIsExact(d: Digest, st: Store, body: OutboxBody)
    ensures var o := Outbox(body, d(OutboxClaims(body)));
      Enqueue(d, st, body) ==
        if forall p | p in st.outboxes :: p.body.id != body.id && p.digest != o.digest && p.body.subject.executionId != body.subject.executionId
        then Store(st.outboxes + [o], st.inbox) else st
  {
  }

  lemma DeliveryKeepsTables(d: Digest, st: Store, e: Envelope, revision: string)
    requires TablesAreKept(st)
    ensures Admit(d, st, e, revision).Ok? ==> TablesAreKept(Admit(d, st, e, revision).value.0)
  {
    KeptKeysDiffer(st);
    DeliveryIsExact(d, st, e, revision);
  }

  lemma EnqueueKeepsTables(d: Digest, st: Store, body: OutboxBody)
    requires TablesAreKept(st)
    ensures TablesAreKept(Enqueue(d, st, body))
  {
    EnqueueIsExact(d, st, body);
  }

  /** The constraints hold after every run, whatever is delivered and whatever the digests. */
  lemma {:induction false} RunKeepsTables(d: Digest, actions: seq<Action>)
    ensures TablesAreKept(Run(d, actions))
  {
    if actions != [] {
      var st, a := Run(d, actions[..|actions| - 1]), actions[|actions| - 1];
      RunKeepsTables(d, actions[..|actions| - 1]);
      match a
      case Put(body) => EnqueueKeepsTables(d, st, body);
      case Deliver(e, revision) => DeliveryKeepsTables(d, st, e, revision);
    }
  }

  lemma CallsTakeEffect(d: Digest, actions: seq<Action>, a: Action)
    ensures a.Put? ==> Run(d, actions + [a]) == Enqueue(d, Run(d, actions), a.body)
    ensures a.Deliver? ==>
      var r := Admit(d, Run(d, actions), a.envelope, a.revision);
      Run(d, actions + [a]) == if r.Ok? then r.value.0 else Run(d, actions)
  {
    assert (actions + [a])[..|actions|] == actions;
  }

  lemma {:induction false} RunIsSound(d: Digest, actions: seq<Action>)
    requires ValidActions(d, actions)
    ensures Sound(d, Run(d, actions))
  {
    if actions != [] {
      RunIsSound(d, actions[..|actions| - 1]);
      NextKeepsSound(d, Run(d, actions[..|actions| - 1]), actions[|actions| - 1]);
    }
  }

  function ActionTexts(d: Digest, a: Action): set<Claims> {
    match a
    case Put(body) => EntryTexts(MakeOutbox(d, body))
    case Deliver(e, revision) => DeliveryTexts(d, e, revision)
  }

  /** All that a run digests. */
  function TextsOf(d: Digest, actions: seq<Action>): set<Claims> { set a, c | a in actions && c in ActionTexts(d, a) :: c }

  lemma NextIsWithin(d: Digest, texts: set<Claims>, st: Store, a: Action)
    requires Within(d, texts, st) && ActionTexts(d, a) <= texts && (a.Deliver? ==> ValidEnvelope(d, a.envelope))
    ensures Within(d, texts, Next(d, st, a))
  {
    var st' := Next(d, st, a);
    forall b | b in st.inbox ensures MadeWithin(d, texts, st'.outboxes, b) {
      assert MadeWithin(d, texts, st.outboxes, b);
      var o, revision :| o in st.outboxes && MadeFrom(d, b, o, revision) && EnvelopeClaims(MakeEnvelope(d, o, revision).body) in texts;
      assert o in st'.outboxes;
    }
    if a.Deliver? && st' != st {
      AdmittedIsWithin(d, texts, st, a.envelope, a.revision, st');
    }
  }

  lemma AdmittedIsWithin(d: Digest, texts: set<Claims>, st: Store, e: Envelope, revision: string, st': Store)
    requires ValidEnvelope(d, e) && Admit(d, st, e, revision).Ok? && Admit(d, st, e, revision).value.0 == st' != st
    requires EnvelopeClaims(e.body) in texts
    ensures st'.outboxes == st.outboxes && st'.inbox == st.inbox + [MakeAdmission(d, e, e.body.entry, revision)]
    ensures MadeWithin(d, texts, st'.outboxes, MakeAdmission(d, e, e.body.entry, revision))
  {
    FindOutboxFinds(st.outboxes, e.body.entry.body.id);
    EnvelopeIsDetermined(d, e, e.body.entry);
    assert MadeFrom(d, MakeAdmission(d, e, e.body.entry, revision), e.body.entry, e.body.revision);
  }

  lemma {:induction false} RunIsWithin(d: Digest, texts: set<Claims>, actions: seq<Action>)
    requires ValidActions(d, actions) && TextsOf(d, actions) <= texts
    ensures Within(d, texts, Run(d, actions))
  {
    if actions != [] {
      var init, last := actions[..|actions| - 1], actions[|actions| - 1];
      assert TextsOf(d, init) <= TextsOf(d, actions) && ActionTexts(d, last) <= TextsOf(d, actions);
      RunIsWithin(d, texts, init);
      NextIsWithin(d, texts, Run(d, init), last);
    }
  }

  lemma {:induction false} AdmissionsStay(d: Digest, actions: seq<Action>, more: seq<Action>, a: Admission)
    requires a in Run(d, actions).inbox
    ensures a in Run(d, actions + more).inbox
  {
    if more == [] {
      assert actions + more == actions;
    } else {
      var n := |actions + more| - 1;
      assert (actions + more)[..n] == actions + more[..|more| - 1];
      AdmissionsStay(d, actions, more[..|more| - 1], a);
    }
  }

  /**
   Over every run, once a dispatch has been admitted no later delivery of it is admitted again: the
   same envelope is answered with the admission made then, and any other with a conflict.
   */
  lemma AdmittedOnce(d: Digest, actions: seq<Action>, e: Envelope, revision: string, more: seq<Action>, e': Envelope, revision': string)
    requires CollisionFree(d, TextsOf(d, actions + [Deliver(e, revision)] + more) + DeliveryTexts(d, e', revision'))
    requires ValidActions(d, actions + [Deliver(e, revision)] + more) && ValidEnvelope(d, e')
    requires var r := Admit(d, Run(d, actions), e, revision); r.Ok? && r.value.1 == Admitted
    requires e'.body.dispatchId == e.body.dispatchId && e'.body.entry in Run(d, actions + [Deliver(e, revision)] + more).outboxes
    ensures var r := Admit(d, Run(d, actions), e, revision);
      var again := Admit(d, Run(d, actions + [Deliver(e, revision)] + more), e', revision');
      if e' == e then again.Ok? && again.value.1 == Duplicated && again.value.2 == r.value.2
      else again == Err("DISPATCH_CONTENT_CONFLICT")
  {
    var first := actions + [Deliver(e, revision)];
    assert first[..|first| - 1] == actions;
    var a := Admit(d, Run(d, actions), e, revision).value.2;
    assert a in Run(d, first).inbox && a.body.envelopeDigest == e.digest && a.body.dispatchId == e.body.dispatchId;
    AdmissionsStay(d, first, more, a);
    RunIsSound(d, first + more);
    assert Deliver(e, revision) in first + more;
    var texts := TextsOf(d, first + more) + DeliveryTexts(d, e', revision');
    RunIsWithin(d, texts, first + more);
    assert EnvelopeClaims(e.body) in ActionTexts(d, Deliver(e, revision));
    DeliveredAgain(d, texts, Run(d, first + more), e, a, e', revision');
  }

  lemma DeliveredAgain(d: Digest, texts: set<Claims>, st: Store, e: Envelope, a: Admission, e': Envelope, revision: string)
    requires CollisionFree(d, texts) && Within(d, texts, st) && EnvelopeClaims(e.body) in texts && EnvelopeClaims(e'.body) in texts
    requires Sound(d, st) && ValidEnvelope(d, e) && ValidEnvelope(d, e')
    requires a in st.inbox && a.body.envelopeDigest == e.digest && a.body.dispatchId == e.body.dispatchId == e'.body.dispatchId
    requires e'.body.entry in st.outboxes
    ensures var again := Admit(d, st, e', revision);
      if e' == e then again.Ok? && again.value.1 == Duplicated && again.value.2 == a
      else again == Err("DISPATCH_CONTENT_CONFLICT")
  {
    FindOutboxFinds(st.outboxes, e'.body.entry.body.id);
    FindAdmissionFinds(st.inbox, e'.body.dispatchId);
    RedeliveredEntry(d, texts, st, e', a);
    RedeliveredAdmission(d, texts, st, e', a);
    assert NoCollision(d, EnvelopeClaims(e'.body), EnvelopeClaims(e.body));
    assert FindOutbox(st.outboxes, e'.body.entry.body.id) == Some(e'.body.entry);
    assert FindAdmission(st.inbox, e'.body.dispatchId) == Some(a);
  }

  // ---- The service ----

  class DurableDispatchInboxService {
    const digest: Digest
    const revision: string
    var store: Store

    constructor (digest: Digest, revision: string)
      ensures this.digest == digest && this.revision == revision && store == Store([], []) && Sound(digest, store)
    {
      this.digest := digest;
      this.revision := revision;
      store := Store([], []);
    }

    /** The first exact dispatch is admitted, an exact redelivery is answered with its admission. */
    method AdmitEnvelope(e: Envelope) returns (r: Result<(Outcome, Admission)>)
      requires Sound(digest, store) && ValidEnvelope(digest, e)
      modifies this
      ensures r.Ok? <==> Admit(digest, old(store), e, revision).Ok?
      ensures r.Ok? ==> (store, r.value.0, r.value.1) == Admit(digest, old(store), e, revision).value
      ensures r.Err? ==> store == old(store)
      ensures Sound(digest, store)
    {
      NextKeepsSound(digest, store, Deliver(e, revision));
      var found := FindOutbox(store.outboxes, e.body.entry.body.id);
      if found.None? { return Err("OUTBOX_NOT_FOUND"); }
      var o := found.value;
      if !EnvelopeBinds(digest, e, o) { return Err("OUTBOX_BINDING_MISMATCH"); }
      var existing := FindAdmission(store.inbox, e.body.dispatchId);
      if existing.Some? {
        match ClassifyRedelivery(digest, existing.value, e, o)
        case Duplicate => return Ok((Duplicated, existing.value));
        case ContentConflict => return Err("DISPATCH_CONTENT_CONFLICT");
        case Refused(_) => return Err("INBOX_ROW_INVALID");
      }
      var a := MakeAdmission(digest, e, o, revision);
      if !Insertable(store.inbox, a) { return Err("INBOX_PERSISTENCE_CONFLICT"); }
      store := store.(inbox := store.inbox + [a]);
      return Ok((Admitted, a));
    }
  }
}

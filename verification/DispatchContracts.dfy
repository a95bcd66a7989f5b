/**
 The content-addressed values of durable dispatch: outbox entries, the envelopes that carry them,
 admissions and leases. Identities and digests are computed by one function on tagged claims, as
 canonical JSON with its type field is.
 */
module DispatchContracts {

  // ---- Values ----

  /** What an execution is about; snapshot, grant and outbox entry carry the same subject. */
  datatype Subject = Subject(
    executionId: string, requestId: string, actorId: string, workspaceId: string, environment: string,
    capability: string, capabilityIdentity: string, targetKind: string, targetDigest: string,
    payloadDigest: string, snapshotDigest: string)

  datatype Policy = Policy(version: string, identity: string, approvalSetDigest: string)

  /** How it will be executed. */
  datatype Binding = Binding(bindingDigest: string, capsuleDigest: string, runnerClass: string, enforcementClass: string)

  /** The identity of a grant. */
  datatype Ticket = Ticket(jti: string, grantId: string, grantDigest: string)

  datatype OutboxBody = OutboxBody(
    id: string, consumptionId: string, consumptionDigest: string, ticket: Ticket, subject: Subject,
    binding: Binding, createdAt: int, revision: string)

  datatype Outbox = Outbox(body: OutboxBody, digest: string)

  /** An envelope repeats every field of its outbox entry, the entry's digest included. */
  datatype EnvelopeBody = EnvelopeBody(dispatchId: string, entry: Outbox, revision: string)

  datatype Envelope = Envelope(body: EnvelopeBody, digest: string)

  /** The facts that admissions and leases repeat. */
  datatype Place = Place(executionId: string, workspaceId: string, environment: string, capsuleDigest: string, runnerClass: string)

  datatype AdmissionBody = AdmissionBody(
    id: string, dispatchId: string, envelopeDigest: string, outboxId: string, outboxDigest: string,
    place: Place, revision: string)

  datatype Admission = Admission(body: AdmissionBody, digest: string)

  datatype LeaseBody = LeaseBody(
    id: string, dispatchId: string, admissionId: string, admissionDigest: string, place: Place,
    epoch: int, acquiredAt: int, expiresAt: int, clockDigest: string, revision: string)

  datatype Lease = Lease(body: LeaseBody, digest: string)

  /** What is digested: every kind has its own type field. */
  datatype Claims =
    | OutboxClaims(outbox: OutboxBody)
    | DispatchIdentity(outboxId: string, outboxDigest: string)
    | EnvelopeClaims(envelope: EnvelopeBody)
    | AdmissionIdentity(dispatchId: string, envelopeDigest: string, entryDigest: string)
    | AdmissionClaims(admission: AdmissionBody)
    | LeaseIdentity(admissionId: string, epoch: int)
    | LeaseClaims(lease: LeaseBody)

  type Digest = Claims -> string

  ghost predicate NoCollision(d: Digest, a: Claims, b: Claims) { d(a) == d(b) ==> a == b }

  /** Among these claims each has its own digest. */
  ghost predicate CollisionFree(d: Digest, texts: set<Claims>) { forall a, b | a in texts && b in texts :: NoCollision(d, a, b) }

  /** What was digested to make a value. */
  function EntryTexts(o: Outbox): set<Claims> { {OutboxClaims(o.body), DispatchIdentity(o.body.id, o.digest)} }

  function AdmissionTexts(a: Admission): set<Claims> {
    {AdmissionIdentity(a.body.dispatchId, a.body.envelopeDigest, a.body.outboxDigest), AdmissionClaims(a.body)}
  }

  function LeaseTexts(l: Lease): set<Claims> { {LeaseIdentity(l.body.admissionId, l.body.epoch), LeaseClaims(l.body)} }

  // ---- Construction and the checks made on every value ----

  function MakeOutbox(d: Digest, body: OutboxBody): Outbox { Outbox(body, d(OutboxClaims(body))) }

  predicate ValidOutbox(d: Digest, o: Outbox) { o.digest == d(OutboxClaims(o.body)) }

  function DispatchId(d: Digest, o: Outbox): string { d(DispatchIdentity(o.body.id, o.digest)) }

  function MakeEnvelope(d: Digest, o: Outbox, revision: string): Envelope {
    var body := EnvelopeBody(DispatchId(d, o), o, revision);
    Envelope(body, d(EnvelopeClaims(body)))
  }

  predicate ValidEnvelope(d: Digest, e: Envelope) {
    e.body.dispatchId == DispatchId(d, e.body.entry) && e.digest == d(EnvelopeClaims(e.body))
  }

  /** The envelope projects exactly this entry. */
  predicate EnvelopeBinds(d: Digest, e: Envelope, o: Outbox) {
    e.body.dispatchId == DispatchId(d, o) && e.body.entry == o
  }

  function PlaceOf(o: Outbox): Place {
    Place(o.body.subject.executionId, o.body.subject.workspaceId, o.body.subject.environment,
          o.body.binding.capsuleDigest, o.body.binding.runnerClass)
  }

  function MakeAdmission(d: Digest, e: Envelope, o: Outbox, revision: string): Admission {
    var body := AdmissionBody(d(AdmissionIdentity(e.body.dispatchId, e.digest, o.digest)), e.body.dispatchId, e.digest,
                              o.body.id, o.digest, PlaceOf(o), revision);
    Admission(body, d(AdmissionClaims(body)))
  }

  predicate ValidAdmission(d: Digest, a: Admission) {
    && a.body.id == d(AdmissionIdentity(a.body.dispatchId, a.body.envelopeDigest, a.body.outboxDigest))
    && a.digest == d(AdmissionClaims(a.body))
  }

  predicate AdmissionBinds(d: Digest, a: Admission, e: Envelope, o: Outbox) {
    && EnvelopeBinds(d, e, o)
    && a.body.dispatchId == e.body.dispatchId && a.body.envelopeDigest == e.digest
    && a.body.outboxId == o.body.id && a.body.outboxDigest == o.digest && a.body.place == PlaceOf(o)
  }

  datatype Redelivery = Duplicate | ContentConflict | Refused(reason: string)

  /** How a delivery is classified against an admission already made. */
  function ClassifyRedelivery(d: Digest, a: Admission, e: Envelope, o: Outbox): Redelivery {
    if !EnvelopeBinds(d, e, o) then Refused("dispatch envelope does not bind the supplied outbox entry")
    else if e.body.dispatchId != a.body.dispatchId then Refused("redelivery dispatch_id does not match admitted dispatch")
    else if AdmissionBinds(d, a, e, o) then Duplicate
    else ContentConflict
  }

  // ---- What the identities determine ----

  /** Made envelopes are valid and bind their entry. */
  lemma MadeEnvelopeBinds(d: Digest, o: Outbox, revision: string)
    ensures ValidEnvelope(d, MakeEnvelope(d, o, revision)) && EnvelopeBinds(d, MakeEnvelope(d, o, revision), o)
  {
  }

  /** A valid envelope is determined by the entry it binds and its revision. */
  lemma EnvelopeIsDetermined(d: Digest, e: Envelope, o: Outbox)
    requires ValidEnvelope(d, e) && EnvelopeBinds(d, e, o)
    ensures e == MakeEnvelope(d, o, e.body.revision)
  {
  }

  /** One dispatch identity stands for one outbox entry, with all its fields. */
  lemma SameDispatchSameEntry(d: Digest, e: Envelope, o: Outbox, e': Envelope, o': Outbox)
    requires CollisionFree(d, EntryTexts(o) + EntryTexts(o')) && ValidOutbox(d, o) && ValidOutbox(d, o')
    requires EnvelopeBinds(d, e, o) && EnvelopeBinds(d, e', o') && e.body.dispatchId == e'.body.dispatchId
    ensures o == o'
  {
    assert NoCollision(d, DispatchIdentity(o.body.id, o.digest), DispatchIdentity(o'.body.id, o'.digest));
    assert NoCollision(d, OutboxClaims(o.body), OutboxClaims(o'.body));
  }

  /**
   A redelivery of an admitted dispatch is a duplicate exactly when the envelope has the same
   revision, and a content conflict otherwise; it is never refused for another reason.
   */
  lemma RedeliveryIsExact(d: Digest, e: Envelope, o: Outbox, revision: string, e': Envelope, o': Outbox)
    requires CollisionFree(d, EntryTexts(o) + EntryTexts(o')) && NoCollision(d, EnvelopeClaims(e'.body), EnvelopeClaims(e.body))
    requires ValidOutbox(d, o) && ValidOutbox(d, o')
    requires ValidEnvelope(d, e) && ValidEnvelope(d, e') && EnvelopeBinds(d, e, o) && EnvelopeBinds(d, e', o')
    requires e'.body.dispatchId == e.body.dispatchId
    ensures ClassifyRedelivery(d, MakeAdmission(d, e, o, revision), e', o') ==
      if e'.body.revision == e.body.revision then Duplicate else ContentConflict
    ensures e'.body.revision == e.body.revision <==> e' == e
  {
    SameDispatchSameEntry(d, e, o, e', o');
    EnvelopeIsDetermined(d, e, o);
    EnvelopeIsDetermined(d, e', o');
  }
}

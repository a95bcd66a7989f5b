/**
 The tables behind a governed operation, from the authorization snapshot to the execution lease, and
 the services that write them, beside the authority that can be revoked or stopped at any moment.
 Rows are never changed or removed, except that the epoch state of an execution moves on. A stored
 row is the value it was written from.
 */
module OperationLineage {
  import opened Wrappers
  import opened DispatchContracts
  import opened DispatchInbox
  import opened ExecutionLeases
  import Auth = Snapshots

  /** The digest functions of the authority, of the dispatch and of what is between them. */
  datatype Hashes = Hashes(authority: Auth.Digests, dispatch: Digest, lineage: LineageClaims -> string)

  /** A grant; its ticket carries its digest, and `rest` stands for claims that no other rule reads. */
  datatype Grant = Grant(
    ticket: Ticket, subject: Subject, policy: Policy, binding: Binding, issuedAt: int, expiresAt: int, epoch: nat, rest: string)

  /** A runner's confirmation that it matches a grant. */
  datatype Conformance = Conformance(
    digest: string, grantDigest: string, binding: Binding, capabilityIdentity: string, targetKind: string, rest: string)

  datatype GrantRow = GrantRow(grant: Grant, conformance: Conformance, clock: Clock)

  datatype Consumption = Consumption(
    id: string, ticket: Ticket, executionId: string, snapshotDigest: string, capsuleDigest: string, runnerClass: string,
    conformanceDigest: string, clockDigest: string, liveEpoch: nat, consumedAt: int, revision: string, digest: string)

  datatype ConsumptionRow = ConsumptionRow(consumption: Consumption, conformance: Conformance, clock: Clock)

  /** What is digested between the snapshot and the dispatch, each value without its own digest. */
  datatype LineageClaims =
    | GrantClaims(grant: Grant)
    | ConformanceClaims(conformance: Conformance)
    | ConsumptionClaims(consumption: Consumption)

  function BareGrant(g: Grant): Grant { g.(ticket := g.ticket.(grantDigest := "")) }

  /** What the constructors enforce. */
  predicate ValidGrant(h: Hashes, g: Grant) { g.ticket.grantDigest == h.lineage(GrantClaims(BareGrant(g))) }

  predicate ValidConformance(h: Hashes, k: Conformance) { k.digest == h.lineage(ConformanceClaims(k.(digest := ""))) }

  predicate ValidConsumption(h: Hashes, c: Consumption) { c.digest == h.lineage(ConsumptionClaims(c.(digest := ""))) }

  predicate ValidGrantRow(h: Hashes, r: GrantRow) { ValidGrant(h, r.grant) && ValidConformance(h, r.conformance) }

  predicate ValidConsumptionRow(h: Hashes, c: ConsumptionRow) {
    ValidConsumption(h, c.consumption) && ValidConformance(h, c.conformance)
  }

  datatype World = World(
    authority: Auth.System, grants: seq<GrantRow>, consumptions: seq<ConsumptionRow>, store: Store, leases: Leases)

  const EMPTY := World(Auth.System(Auth.EMPTY, map[], []), [], [], Store([], []), Leases([], map[]))

  /** The revocation epoch that applies to a subject now. */
  function EpochOf(w: World, s: Subject): nat {
    Auth.Epoch(w.authority.state, Auth.Scope(s.workspaceId, s.environment, s.capabilityIdentity))
  }

  // ---- What the rows must say about one another ----

  predicate Conforms(k: Conformance, g: Grant) {
    && k.grantDigest == g.ticket.grantDigest && k.binding == g.binding
    && k.capabilityIdentity == g.subject.capabilityIdentity && k.targetKind == g.subject.targetKind
  }

  predicate ClockWithin(c: Clock, g: Grant) {
    c.environment == g.subject.environment && g.issuedAt <= c.observedAt < g.expiresAt
  }

  predicate GrantRowOk(r: GrantRow) { Conforms(r.conformance, r.grant) && ClockWithin(r.clock, r.grant) }

  predicate GrantFollows(n: Auth.Snapshot, g: Grant) { g.subject == n.subject && g.policy == n.policy }

  predicate WitnessesOk(g: Grant, c: ConsumptionRow) {
    && Conforms(c.conformance, g) && c.conformance.digest == c.consumption.conformanceDigest
    && ClockWithin(c.clock, g) && c.clock.digest == c.consumption.clockDigest && c.clock.observedAt == c.consumption.consumedAt
  }

  predicate ConsumptionFollows(g: Grant, c: Consumption) {
    && c.ticket == g.ticket && c.executionId == g.subject.executionId && c.snapshotDigest == g.subject.snapshotDigest
    && c.capsuleDigest == g.binding.capsuleDigest && c.runnerClass == g.binding.runnerClass && c.liveEpoch == g.epoch
  }

  predicate OutboxFollows(g: Grant, c: Consumption, o: OutboxBody) {
    && o.consumptionId == c.id && o.consumptionDigest == c.digest && o.createdAt == c.consumedAt
    && o.ticket == g.ticket && o.subject == g.subject && o.binding == g.binding
  }

  // ---- The services, each call one transaction ----

  /** Generated identities and observed facts that go into a stored grant. */
  datatype GrantTerms = GrantTerms(
    jti: string, grantId: string, binding: Binding, rest: string, conformance: string, clock: Clock, permitted: bool)

  datatype ConsumeTerms = ConsumeTerms(
    consumptionId: string, revision: string, outboxId: string, conformance: string, clock: Clock,
    permitted: bool, outboxRevision: string)

  /** The authority of the grant is live: in time, not stopped, still permitted and not revoked since. */
  predicate IsLive(w: World, g: Grant, clock: Clock, permitted: bool) {
    ClockWithin(clock, g) && !w.authority.state.stopped && permitted && EpochOf(w, g.subject) == g.epoch
  }

  function MakeGrant(h: Hashes, i: Auth.Grant, t: GrantTerms): Grant {
    var g := Grant(Ticket(t.jti, t.grantId, ""), i.snapshot.subject, i.snapshot.policy, t.binding, i.issuedAt, i.expiresAt, i.epoch, t.rest);
    g.(ticket := Ticket(t.jti, t.grantId, h.lineage(GrantClaims(g))))
  }

  function MakeConformance(h: Hashes, g: Grant, rest: string): Conformance {
    var k := Conformance("", g.ticket.grantDigest, g.binding, g.subject.capabilityIdentity, g.subject.targetKind, rest);
    k.(digest := h.lineage(ConformanceClaims(k)))
  }

  function MakeGrantRow(h: Hashes, i: Auth.Grant, t: GrantTerms): GrantRow {
    var g := MakeGrant(h, i, t);
    GrantRow(g, MakeConformance(h, g, t.conformance), t.clock)
  }

  predicate Grantable(grants: seq<GrantRow>, g: Grant) {
    forall r | r in grants ::
      && r.grant.ticket.jti != g.ticket.jti && r.grant.ticket.grantId != g.ticket.grantId
      && r.grant.ticket.grantDigest != g.ticket.grantDigest
      && r.grant.subject.executionId != g.subject.executionId && r.grant.subject.snapshotDigest != g.subject.snapshotDigest
  }

  /** A grant that was issued is stored if its authority is still live. */
  function IssueAndStore(h: Hashes, w: World, i: Auth.Grant, t: GrantTerms): Result<(World, Grant)> {
    var r := MakeGrantRow(h, i, t);
    if i !in w.authority.grants then Err("grant was not issued")
    else if !IsLive(w, r.grant, t.clock, t.permitted) then Err("grant authority is not live")
    else if !Grantable(w.grants, r.grant) then Err("GRANT_STORE_CONFLICT")
    else Ok((w.(grants := w.grants + [r]), r.grant))
  }

  function FindGrant(rows: seq<GrantRow>, jti: string): Option<GrantRow> {
    if rows == [] then None
    else if rows[0].grant.ticket.jti == jti then Some(rows[0]) else FindGrant(rows[1..], jti)
  }

  function MakeConsumption(h: Hashes, g: Grant, t: ConsumeTerms): ConsumptionRow {
    var k := MakeConformance(h, g, t.conformance);
    var c := Consumption(t.consumptionId, g.ticket, g.subject.executionId, g.subject.snapshotDigest, g.binding.capsuleDigest,
                         g.binding.runnerClass, k.digest, t.clock.digest, g.epoch, t.clock.observedAt, t.revision, "");
    ConsumptionRow(c.(digest := h.lineage(ConsumptionClaims(c))), k, t.clock)
  }

  function MakeEntry(h: Hashes, g: Grant, t: ConsumeTerms): Outbox {
    MakeOutbox(h.dispatch, OutboxBody(t.outboxId, t.consumptionId, MakeConsumption(h, g, t).consumption.digest, g.ticket, g.subject,
                                      g.binding, t.clock.observedAt, t.outboxRevision))
  }

  predicate Consumable(rows: seq<ConsumptionRow>, c: Consumption) {
    forall r | r in rows ::
      && r.consumption.id != c.id && r.consumption.ticket.jti != c.ticket.jti && r.consumption.digest != c.digest
      && r.consumption.executionId != c.executionId
  }

  /** The grant is consumed once and its outbox entry written in the same transaction. */
  function ConsumeAndEnqueue(h: Hashes, w: World, jti: string, t: ConsumeTerms): Result<(World, Outbox)> {
    var row := FindGrant(w.grants, jti);
    if exists r | r in w.consumptions :: r.consumption.ticket.jti == jti then Err("GRANT_ALREADY_CONSUMED")
    else if row.None? then Err("GRANT_NOT_FOUND")
    else
      var g := row.value.grant;
      var c, o := MakeConsumption(h, g, t), MakeEntry(h, g, t);
      if !IsLive(w, g, t.clock, t.permitted) then Err("grant authority is not live")
      else if !Consumable(w.consumptions, c.consumption) then Err("GRANT_ALREADY_CONSUMED")
      else if !Enqueueable(w.store.outboxes, o) then Err("OUTBOX_PERSISTENCE_CONFLICT")
      else Ok((w.(consumptions := w.consumptions + [c], store := w.store.(outboxes := w.store.outboxes + [o])), o))
  }

  function AdmitEnvelope(d: Digest, w: World, e: Envelope, revision: string): Result<(World, Admission)> {
    var r := Admit(d, w.store, e, revision);
    if r.Err? then Err(r.reason) else Ok((w.(store := r.value.0), r.value.2))
  }

  function AcquireLease(d: Digest, w: World, admissionId: string, t: Terms): Result<(World, Lease)> {
    var a := FindById(w.store.inbox, admissionId);
    if a.None? then Err("ADMISSION_NOT_FOUND") else
    var r := Acquire(d, w.leases, a.value, t);
    if r.Err? then Err(r.reason) else Ok((w.(leases := r.value.0), r.value.1))
  }

  function CompleteLease(w: World, leaseId: string, completion: string, clock: Clock): Result<World> {
    var r := Complete(w.leases, leaseId, completion, clock);
    if r.Err? then Err(r.reason) else Ok(w.(leases := r.value.0))
  }

  // ---- When the services succeed ----

  /** At this time of this clock the grant is in time, its scope is not revoked, nothing is stopped, and the actor is permitted. */
  ghost predicate Usable(w: World, subject: Subject, issuedAt: int, expiresAt: int, epoch: nat, clock: Clock, permitted: bool) {
    && issuedAt <= clock.observedAt && clock.observedAt < expiresAt && clock.environment == subject.environment
    && !w.authority.state.stopped && permitted
    && Auth.Epoch(w.authority.state, Auth.Scope(subject.workspaceId, subject.environment, subject.capabilityIdentity)) == epoch
  }

  /**
   Exactly when an issued grant is stored: it was issued, it is usable, and no stored grant has its token,
   id, digest, execution or snapshot. The row repeats what was issued.
   */
  lemma IssueIsExact(h: Hashes, w: World, i: Auth.Grant, t: GrantTerms)
    ensures var g := MakeGrant(h, i, t);
      IssueAndStore(h, w, i, t).Ok? <==>
        && i in w.authority.grants && Usable(w, i.snapshot.subject, i.issuedAt, i.expiresAt, i.epoch, t.clock, t.permitted)
        && forall r | r in w.grants ::
             && r.grant.ticket.jti != t.jti && r.grant.ticket.grantId != t.grantId && r.grant.ticket.grantDigest != g.ticket.grantDigest
             && r.grant.subject.executionId != i.snapshot.subject.executionId
             && r.grant.subject.snapshotDigest != i.snapshot.subject.snapshotDigest
    ensures IssueAndStore(h, w, i, t).Ok? ==>
      var (w', g) := IssueAndStore(h, w, i, t).value;
      && w' == w.(grants := w'.grants) && |w'.grants| == |w.grants| + 1 && w'.grants[..|w.grants|] == w.grants
      && var row := w'.grants[|w.grants|];
      && row.grant == g == Grant(Ticket(t.jti, t.grantId, g.ticket.grantDigest), i.snapshot.subject, i.snapshot.policy, t.binding,
                                 i.issuedAt, i.expiresAt, i.epoch, t.rest)
      && row.conformance == Conformance(row.conformance.digest, g.ticket.grantDigest, t.binding, i.snapshot.subject.capabilityIdentity,
                                        i.snapshot.subject.targetKind, t.conformance)
      && row.clock == t.clock && ValidGrantRow(h, row)
  {
    MadeGrantIsValid(h, i, t);
  }

  /** The row that the token names, and no other. */
  ghost predicate OnlyRowFor(grants: seq<GrantRow>, jti: string, r: GrantRow) {
    r in grants && r.grant.ticket.jti == jti && forall q | q in grants && q.grant.ticket.jti == jti :: q == r
  }

  lemma {:induction false} FindsOnlyRow(grants: seq<GrantRow>, jti: string, r: GrantRow)
    requires OnlyRowFor(grants, jti, r)
    ensures FindGrant(grants, jti) == Some(r)
  {
    if grants[0] != r {
      FindsOnlyRow(grants[1..], jti, r);
    }
  }

  ghost predicate Spendable(h: Hashes, w: World, g: Grant, t: ConsumeTerms) {
    var c, o := MakeConsumption(h, g, t).consumption, MakeEntry(h, g, t);
    && Usable(w, g.subject, g.issuedAt, g.expiresAt, g.epoch, t.clock, t.permitted)
    && (forall r | r in w.consumptions ::
          && r.consumption.ticket.jti != g.ticket.jti && r.consumption.id != t.consumptionId
          && r.consumption.digest != c.digest && r.consumption.executionId != g.subject.executionId)
    && (forall p | p in w.store.outboxes ::
          p.body.id != t.outboxId && p.digest != o.digest && p.body.subject.executionId != g.subject.executionId)
  }

  /**
   Exactly when a stored grant is consumed: it is usable then, it was not consumed before, and the new
   consumption and outbox entry use no identity of a stored one.
   */
  lemma ConsumeIsExact(h: Hashes, w: World, jti: string, t: ConsumeTerms, row: GrantRow)
    requires OnlyRowFor(w.grants, jti, row)
    ensures ConsumeAndEnqueue(h, w, jti, t).Ok? <==> Spendable(h, w, row.grant, t)
    ensures ConsumeAndEnqueue(h, w, jti, t).Ok? ==>
      var (w', o) := ConsumeAndEnqueue(h, w, jti, t).value;
      && w' == w.(consumptions := w.consumptions + [MakeConsumption(h, row.grant, t)], store := Store(w.store.outboxes + [o], w.store.inbox))
      && o == MakeEntry(h, row.grant, t)
  {
    FindsOnlyRow(w.grants, jti, row);
  }

  /** What is written repeats the grant, the time of the consumption and the given identities. */
  lemma MadeRowsTell(h: Hashes, g: Grant, t: ConsumeTerms)
    ensures var row, o := MakeConsumption(h, g, t), MakeEntry(h, g, t).body;
      && row.consumption == Consumption(t.consumptionId, g.ticket, g.subject.executionId, g.subject.snapshotDigest, g.binding.capsuleDigest,
                                        g.binding.runnerClass, row.conformance.digest, t.clock.digest, g.epoch, t.clock.observedAt,
                                        t.revision, row.consumption.digest)
      && row.conformance == Conformance(row.conformance.digest, g.ticket.grantDigest, g.binding, g.subject.capabilityIdentity,
                                        g.subject.targetKind, t.conformance)
      && row.clock == t.clock && ValidConsumptionRow(h, row)
      && o == OutboxBody(t.outboxId, t.consumptionId, row.consumption.digest, g.ticket, g.subject, g.binding, t.clock.observedAt, t.outboxRevision)
  {
    MadeConsumptionIsValid(h, g, t);
  }

  lemma NoGrantNoConsumption(h: Hashes, w: World, jti: string, t: ConsumeTerms)
    requires forall r | r in w.grants :: r.grant.ticket.jti != jti
    ensures ConsumeAndEnqueue(h, w, jti, t).Err?
  {
    FindGrantFinds(w.grants, jti);
  }

  // ---- Runs of all callers ----

  datatype Call =
    | CallAuthority(action: Auth.Action)
    | CallIssue(issued: Auth.Grant, grantTerms: GrantTerms)
    | CallConsume(jti: string, consumeTerms: ConsumeTerms)
    | CallAdmit(envelope: Envelope, revision: string)
    | CallAcquire(admissionId: string, terms: Terms)
    | CallComplete(leaseId: string, completion: string, clock: Clock)

  /** The tables after a call; a refused call changes nothing. */
  function After(h: Hashes, w: World, c: Call): World {
    match c
    case CallAuthority(a) => w.(authority := Auth.Next(h.authority, w.authority, a))
    case CallIssue(i, t) => var r := IssueAndStore(h, w, i, t); if r.Ok? then r.value.0 else w
    case CallConsume(jti, t) => var r := ConsumeAndEnqueue(h, w, jti, t); if r.Ok? then r.value.0 else w
    case CallAdmit(e, revision) => var r := AdmitEnvelope(h.dispatch, w, e, revision); if r.Ok? then r.value.0 else w
    case CallAcquire(id, t) => var r := AcquireLease(h.dispatch, w, id, t); if r.Ok? then r.value.0 else w
    case CallComplete(id, completion, clock) => var r := CompleteLease(w, id, completion, clock); if r.Ok? then r.value else w
  }

  function AfterAll(h: Hashes, w: World, calls: seq<Call>): World {
    if calls == [] then w else After(h, AfterAll(h, w, calls[..|calls| - 1]), calls[|calls| - 1])
  }

  /** Only envelopes that pass their own checks are delivered. */
  predicate ValidCall(h: Hashes, c: Call) { c.CallAdmit? ==> ValidEnvelope(h.dispatch, c.envelope) }

  // ---- Rows stay ----

  /** Every row of `w` is a row of `w'`. */
  ghost predicate Grows(w: World, w': World) {
    && AuthorityGrows(w.authority, w'.authority)
    && w.grants <= w'.grants && w.consumptions <= w'.consumptions
    && w.store.outboxes <= w'.store.outboxes && w.store.inbox <= w'.store.inbox && w.leases.rows <= w'.leases.rows
  }

  ghost predicate AuthorityGrows(y: Auth.System, y': Auth.System) {
    && y.grants <= y'.grants
    && forall k | k in y.state.rows :: k in y'.state.rows && y'.state.rows[k] == y.state.rows[k]
  }

  /** What a call may have done. */
  ghost predicate Did(h: Hashes, w: World, c: Call, w': World) {
    || w' == w
    || match c
       case CallAuthority(a) => w' == w.(authority := Auth.Next(h.authority, w.authority, a))
       case CallIssue(i, t) =>
         && w' == w.(grants := w.grants + [MakeGrantRow(h, i, t)]) && i in w.authority.grants
         && IsLive(w, MakeGrant(h, i, t), t.clock, t.permitted) && Grantable(w.grants, MakeGrant(h, i, t))
       case CallConsume(jti, t) =>
         exists r :: r in w.grants && DidConsume(h, w, r, t, w')
       case CallAdmit(e, revision) =>
         w' == w.(store := w'.store) && Admit(h.dispatch, w.store, e, revision).Ok? && w'.store == Admit(h.dispatch, w.store, e, revision).value.0
       case CallAcquire(id, t) =>
         exists a :: a in w.store.inbox && DidAcquire(h.dispatch, w, a, t, w')
       case CallComplete(id, completion, clock) =>
         && w' == w.(leases := w'.leases) && Complete(w.leases, id, completion, clock).Ok?
         && w'.leases == Complete(w.leases, id, completion, clock).value.0
  }

  ghost predicate DidConsume(h: Hashes, w: World, r: GrantRow, t: ConsumeTerms, w': World) {
    var c, o := MakeConsumption(h, r.grant, t), MakeEntry(h, r.grant, t);
    && w' == w.(consumptions := w.consumptions + [c], store := w.store.(outboxes := w.store.outboxes + [o]))
    && IsLive(w, r.grant, t.clock, t.permitted)
    && Consumable(w.consumptions, c.consumption) && Enqueueable(w.store.outboxes, o)
  }

  ghost predicate DidAcquire(d: Digest, w: World, a: Admission, t: Terms, w': World) {
    && w' == w.(leases := w'.leases) && Acquire(d, w.leases, a, t).Ok? && w'.leases == Acquire(d, w.leases, a, t).value.0
  }

  lemma {:induction false} FindGrantFinds(rows: seq<GrantRow>, jti: string)
    ensures FindGrant(rows, jti).Some? ==> FindGrant(rows, jti).value in rows && FindGrant(rows, jti).value.grant.ticket.jti == jti
  {
    if rows != [] { FindGrantFinds(rows[1..], jti); }
  }

  lemma {:induction false} FindByIdFinds(rows: seq<Admission>, id: string)
    ensures FindById(rows, id).Some? ==> FindById(rows, id).value in rows && FindById(rows, id).value.body.id == id
  {
    if rows != [] { FindByIdFinds(rows[1..], id); }
  }

  lemma ConsumeDid(h: Hashes, w: World, jti: string, t: ConsumeTerms)
    ensures Did(h, w, CallConsume(jti, t), After(h, w, CallConsume(jti, t)))
  {
    FindGrantFinds(w.grants, jti);
    if ConsumeAndEnqueue(h, w, jti, t).Ok? {
      assert DidConsume(h, w, FindGrant(w.grants, jti).value, t, After(h, w, CallConsume(jti, t)));
    }
  }

  lemma AcquireDid(h: Hashes, w: World, id: string, t: Terms)
    ensures Did(h, w, CallAcquire(id, t), After(h, w, CallAcquire(id, t)))
  {
    FindByIdFinds(w.store.inbox, id);
    if AcquireLease(h.dispatch, w, id, t).Ok? {
      assert DidAcquire(h.dispatch, w, FindById(w.store.inbox, id).value, t, After(h, w, CallAcquire(id, t)));
    }
  }

  lemma AfterDid(h: Hashes, w: World, c: Call)
    ensures Did(h, w, c, After(h, w, c))
  {
    match c
    case CallConsume(jti, t) => ConsumeDid(h, w, jti, t);
    case CallAcquire(id, t) => AcquireDid(h, w, id, t);
    case _ =>
  }

  lemma AuthorityActs(h: Hashes, y: Auth.System, a: Auth.Action)
    ensures AuthorityGrows(y, Auth.Next(h.authority, y, a))
  {
    Auth.NextState(h.authority, y, a);
    forall k | k in y.state.rows
      ensures k in Auth.Next(h.authority, y, a).state.rows && Auth.Next(h.authority, y, a).state.rows[k] == y.state.rows[k]
    {
      Auth.RowsStay(h.authority, y, a, k);
    }
  }

  lemma GrantingGrows(h: Hashes, w: World, c: Call)
    requires c.CallIssue? || c.CallConsume?
    ensures Grows(w, After(h, w, c))
  {
  }

  lemma AdmittingGrows(h: Hashes, w: World, e: Envelope, revision: string)
    ensures Grows(w, After(h, w, CallAdmit(e, revision)))
  {
  }

  lemma LeasesGrow(d: Digest, s: Leases, a: Admission, t: Terms, id: string, completion: string, clock: Clock)
    ensures Acquire(d, s, a, t).Ok? ==> s.rows <= Acquire(d, s, a, t).value.0.rows
    ensures Complete(s, id, completion, clock).Ok? ==> Complete(s, id, completion, clock).value.0.rows == s.rows
  {
  }

  lemma AcquiringGrows(h: Hashes, w: World, id: string, t: Terms)
    ensures Grows(w, After(h, w, CallAcquire(id, t)))
  {
    var a := FindById(w.store.inbox, id);
    if a.Some? {
      LeasesGrow(h.dispatch, w.leases, a.value, t, "", "", t.clock);
    }
  }

  lemma CompletingGrows(h: Hashes, w: World, id: string, completion: string, clock: Clock)
    ensures Grows(w, After(h, w, CallComplete(id, completion, clock)))
  {
  }

  lemma AfterGrows(h: Hashes, w: World, c: Call)
    ensures Grows(w, After(h, w, c))
  {
    if c.CallAuthority? {
      AuthorityActs(h, w.authority, c.action);
    } else if c.CallIssue? || c.CallConsume? {
      GrantingGrows(h, w, c);
    } else if c.CallAdmit? {
      AdmittingGrows(h, w, c.envelope, c.revision);
    } else if c.CallAcquire? {
      AcquiringGrows(h, w, c.admissionId, c.terms);
    } else {
      CompletingGrows(h, w, c.leaseId, c.completion, c.clock);
    }
  }

  lemma GrowsIsTransitive(a: World, b: World, c: World)
    requires Grows(a, b) && Grows(b, c)
    ensures Grows(a, c)
  {
  }

  lemma {:induction false} AfterAllGrows(h: Hashes, w: World, calls: seq<Call>)
    ensures Grows(w, AfterAll(h, w, calls))
  {
    if calls != [] {
      var before := AfterAll(h, w, calls[..|calls| - 1]);
      AfterAllGrows(h, w, calls[..|calls| - 1]);
      AfterGrows(h, before, calls[|calls| - 1]);
      GrowsIsTransitive(w, before, AfterAll(h, w, calls));
    }
  }

  // ---- What every reachable world satisfies ----

  /** No two stored snapshots are for one execution. */
  ghost predicate SnapshotsOk(rows: map<string, Auth.Row>) {
    forall k, k' | k in rows && k' in rows && rows[k].snapshot.subject.executionId == rows[k'].snapshot.subject.executionId :: k == k'
  }

  /** The grant follows the stored snapshot and carries the epoch recorded for it. */
  ghost predicate FollowsRow(h: Hashes, s: Auth.State, k: string, g: Grant) {
    && k in s.rows && GrantFollows(s.rows[k].snapshot, g) && Auth.ValidSnapshot(h.authority, s.rows[k].snapshot)
    && Auth.Load(h.authority, s, s.rows[k].snapshot).Ok? && Auth.Load(h.authority, s, s.rows[k].snapshot).value.epoch == g.epoch
  }

  ghost predicate HasSnapshot(h: Hashes, s: Auth.State, g: Grant) { exists k :: FollowsRow(h, s, k, g) }

  ghost predicate GrantsOk(h: Hashes, s: Auth.State, grants: seq<GrantRow>) {
    && (forall r | r in grants :: ValidGrantRow(h, r) && GrantRowOk(r) && HasSnapshot(h, s, r.grant))
    && (forall i, j | 0 <= i < j < |grants| :: grants[i].grant.subject.executionId != grants[j].grant.subject.executionId)
  }

  ghost predicate ConsumptionsOk(h: Hashes, consumptions: seq<ConsumptionRow>) {
    && (forall c | c in consumptions :: ValidConsumptionRow(h, c))
    && (forall i, j | 0 <= i < j < |consumptions| :: consumptions[i].consumption.id != consumptions[j].consumption.id)
  }

  ghost predicate EntryFrom(r: GrantRow, c: ConsumptionRow, o: Outbox) {
    ConsumptionFollows(r.grant, c.consumption) && WitnessesOk(r.grant, c) && OutboxFollows(r.grant, c.consumption, o.body)
  }

  ghost predicate HasSource(grants: seq<GrantRow>, consumptions: seq<ConsumptionRow>, o: Outbox) {
    exists r, c :: r in grants && c in consumptions && EntryFrom(r, c, o)
  }

  ghost predicate EntriesOk(grants: seq<GrantRow>, consumptions: seq<ConsumptionRow>, outboxes: seq<Outbox>) {
    && (forall o | o in outboxes :: HasSource(grants, consumptions, o))
    && (forall i, j | 0 <= i < j < |outboxes| :: outboxes[i].body.subject.executionId != outboxes[j].body.subject.executionId)
  }

  ghost predicate InboxOk(inbox: seq<Admission>) {
    forall i, j | 0 <= i < j < |inbox| :: inbox[i].body.id != inbox[j].body.id
  }

  ghost predicate HasAdmission(inbox: seq<Admission>, l: Lease) { exists a :: a in inbox && LeaseBinds(l, a) }

  ghost predicate HasState(inbox: seq<Admission>, st: EpochState) { exists a :: a in inbox && StateBinds(st, a) }

  ghost predicate LeasesOk(d: Digest, inbox: seq<Admission>, leases: Leases) {
    && ExecutionLeases.Sound(d, leases)
    && (forall r | r in leases.rows :: HasAdmission(inbox, r.lease))
    && (forall id | id in leases.epochs :: HasState(inbox, leases.epochs[id]))
  }

  ghost predicate Consistent(h: Hashes, w: World) {
    && Auth.SoundSystem(h.authority, w.authority) && SnapshotsOk(w.authority.state.rows)
    && GrantsOk(h, w.authority.state, w.grants) && ConsumptionsOk(h, w.consumptions)
    && EntriesOk(w.grants, w.consumptions, w.store.outboxes)
    && DispatchInbox.Sound(h.dispatch, w.store) && InboxOk(w.store.inbox)
    && LeasesOk(h.dispatch, w.store.inbox, w.leases)
  }

  lemma InsertedExecutionIsDistinct(d: Auth.Digests, rows: map<string, Auth.Row>, key: string, row: Auth.Row)
    requires SnapshotsOk(rows) && Auth.Unused(d, rows, row.snapshot)
    ensures SnapshotsOk(rows[key := row])
  {
  }

  lemma AuthorityKeepsSnapshots(h: Hashes, y: Auth.System, a: Auth.Action)
    requires SnapshotsOk(y.state.rows)
    ensures SnapshotsOk(Auth.Next(h.authority, y, a).state.rows)
  {
    Auth.NextState(h.authority, y, a);
    if Auth.Inserts(h.authority, y.state, a) {
      Auth.InsertingEffect(h.authority, y.state, a);
      InsertedExecutionIsDistinct(h.authority, y.state.rows, a.proposal.key, Auth.Effect(h.authority, y.state, a).rows[a.proposal.key]);
    } else {
      Auth.QuietEffect(h.authority, y.state, a, "", Auth.Scope("", "", ""));
    }
  }

  lemma AuthorityKeepsRow(h: Hashes, y: Auth.System, a: Auth.Action, k: string, g: Grant)
    requires Auth.Sound(h.authority, y.state) && FollowsRow(h, y.state, k, g)
    ensures FollowsRow(h, Auth.Next(h.authority, y, a).state, k, g)
  {
    Auth.NextState(h.authority, y, a);
    Auth.RowsStay(h.authority, y, a, k);
    Auth.LoadIsStable(h.authority, y.state, a, y.state.rows[k].snapshot);
  }

  lemma AuthorityKeepsGrants(h: Hashes, y: Auth.System, a: Auth.Action, grants: seq<GrantRow>)
    requires Auth.Sound(h.authority, y.state) && GrantsOk(h, y.state, grants)
    ensures GrantsOk(h, Auth.Next(h.authority, y, a).state, grants)
  {
    forall r | r in grants ensures HasSnapshot(h, Auth.Next(h.authority, y, a).state, r.grant) {
      assert HasSnapshot(h, y.state, r.grant);
      var k :| FollowsRow(h, y.state, k, r.grant);
      AuthorityKeepsRow(h, y, a, k, r.grant);
    }
  }

  /** An issued grant follows a stored snapshot. */
  lemma IssuedFollows(h: Hashes, known: set<Auth.Snapshot>, y: Auth.System, i: Auth.Grant, t: GrantTerms)
    requires Auth.CollisionFree(h.authority, known) && Auth.Knows(known, y) && Auth.SoundSystem(h.authority, y) && i in y.grants
    ensures HasSnapshot(h, y.state, MakeGrant(h, i, t))
  {
    var k := Auth.LoadedIsStored(h.authority, y.state, i.snapshot);
    Auth.SameDigestSameSnapshot(h.authority, known, y.state.rows[k].snapshot, i.snapshot);
    assert FollowsRow(h, y.state, k, MakeGrant(h, i, t));
  }

  lemma MoreGrants(grants: seq<GrantRow>, r: GrantRow, consumptions: seq<ConsumptionRow>, outboxes: seq<Outbox>)
    requires EntriesOk(grants, consumptions, outboxes)
    ensures EntriesOk(grants + [r], consumptions, outboxes)
  {
    forall o | o in outboxes ensures HasSource(grants + [r], consumptions, o) {
      var q, c :| q in grants && c in consumptions && EntryFrom(q, c, o);
      assert q in grants + [r] && c in consumptions && EntryFrom(q, c, o);
    }
  }

  lemma IssueKeeps(h: Hashes, y: Auth.System, grants: seq<GrantRow>, i: Auth.Grant, t: GrantTerms)
    requires GrantsOk(h, y.state, grants) && HasSnapshot(h, y.state, MakeGrant(h, i, t))
    requires ClockWithin(t.clock, MakeGrant(h, i, t)) && Grantable(grants, MakeGrant(h, i, t))
    ensures GrantsOk(h, y.state, grants + [MakeGrantRow(h, i, t)])
  {
    MadeGrantIsValid(h, i, t);
  }

  lemma ConsumeKeepsEntries(h: Hashes, w: World, r: GrantRow, t: ConsumeTerms, w': World)
    requires EntriesOk(w.grants, w.consumptions, w.store.outboxes) && r in w.grants && DidConsume(h, w, r, t, w')
    ensures EntriesOk(w'.grants, w'.consumptions, w'.store.outboxes)
  {
    var c, o := MakeConsumption(h, r.grant, t), MakeEntry(h, r.grant, t);
    assert EntryFrom(r, c, o) && c in w'.consumptions;
    forall p | p in w.store.outboxes ensures HasSource(w.grants, w'.consumptions, p) {
      var q, b :| q in w.grants && b in w.consumptions && EntryFrom(q, b, p);
      assert b in w'.consumptions;
    }
  }

  lemma ConsumeKeepsStore(h: Hashes, w: World, r: GrantRow, t: ConsumeTerms, w': World)
    requires DispatchInbox.Sound(h.dispatch, w.store) && DidConsume(h, w, r, t, w')
    ensures DispatchInbox.Sound(h.dispatch, w'.store) && w'.store.inbox == w.store.inbox
  {
    var o := MakeEntry(h, r.grant, t);
    assert w'.store == Enqueue(h.dispatch, w.store, o.body);
    DispatchInbox.NextKeepsSound(h.dispatch, w.store, Put(o.body));
  }

  lemma MadeConsumptionIsValid(h: Hashes, g: Grant, t: ConsumeTerms)
    ensures ValidConsumptionRow(h, MakeConsumption(h, g, t))
  {
  }

  lemma MadeGrantIsValid(h: Hashes, i: Auth.Grant, t: GrantTerms)
    ensures ValidGrantRow(h, MakeGrantRow(h, i, t))
  {
  }

  lemma ConsumeKeepsConsumptions(h: Hashes, rows: seq<ConsumptionRow>, c: ConsumptionRow)
    requires ConsumptionsOk(h, rows) && Consumable(rows, c.consumption) && ValidConsumptionRow(h, c)
    ensures ConsumptionsOk(h, rows + [c])
  {
  }

  lemma ConsumeKeeps(h: Hashes, w: World, r: GrantRow, t: ConsumeTerms, w': World)
    requires Consistent(h, w) && r in w.grants && DidConsume(h, w, r, t, w')
    ensures Consistent(h, w')
  {
    ConsumeKeepsEntries(h, w, r, t, w');
    ConsumeKeepsStore(h, w, r, t, w');
    MadeConsumptionIsValid(h, r.grant, t);
    ConsumeKeepsConsumptions(h, w.consumptions, MakeConsumption(h, r.grant, t));
  }

  lemma AdmitAppends(d: Digest, st: Store, e: Envelope, revision: string)
    requires Admit(d, st, e, revision).Ok?
    ensures var (st', _, a) := Admit(d, st, e, revision).value;
      && st'.outboxes == st.outboxes && a in st'.inbox
      && (st'.inbox == st.inbox || (st'.inbox == st.inbox + [a] && DispatchInbox.Insertable(st.inbox, a)))
  {
    FindAdmissionFinds(st.inbox, e.body.dispatchId);
  }

  lemma MoreAdmissions(d: Digest, inbox: seq<Admission>, a: Admission, leases: Leases)
    requires LeasesOk(d, inbox, leases)
    ensures LeasesOk(d, inbox + [a], leases)
  {
    forall r | r in leases.rows ensures HasAdmission(inbox + [a], r.lease) {
      var b :| b in inbox && LeaseBinds(r.lease, b);
      assert b in inbox + [a];
    }
    forall id | id in leases.epochs ensures HasState(inbox + [a], leases.epochs[id]) {
      var b :| b in inbox && StateBinds(leases.epochs[id], b);
      assert b in inbox + [a];
    }
  }

  lemma AdmitKeepsStore(d: Digest, st: Store, leases: Leases, e: Envelope, revision: string)
    requires DispatchInbox.Sound(d, st) && InboxOk(st.inbox) && LeasesOk(d, st.inbox, leases)
    requires ValidEnvelope(d, e) && Admit(d, st, e, revision).Ok?
    ensures var st' := Admit(d, st, e, revision).value.0;
      && st'.outboxes == st.outboxes && DispatchInbox.Sound(d, st') && InboxOk(st'.inbox) && LeasesOk(d, st'.inbox, leases)
  {
    AdmitAppends(d, st, e, revision);
    DispatchInbox.NextKeepsSound(d, st, Deliver(e, revision));
    MoreAdmissions(d, st.inbox, Admit(d, st, e, revision).value.2, leases);
  }

  lemma AdmitKeeps(h: Hashes, w: World, e: Envelope, revision: string, w': World)
    requires Consistent(h, w) && ValidEnvelope(h.dispatch, e) && Admit(h.dispatch, w.store, e, revision).Ok?
    requires w' == w.(store := Admit(h.dispatch, w.store, e, revision).value.0)
    ensures Consistent(h, w')
  {
    AdmitKeepsStore(h.dispatch, w.store, w.leases, e, revision);
  }

  lemma AcquireKeeps(d: Digest, w: World, a: Admission, t: Terms, leases: Leases, l: Lease)
    requires LeasesOk(d, w.store.inbox, w.leases) && a in w.store.inbox && Acquire(d, w.leases, a, t) == Ok((leases, l))
    ensures LeasesOk(d, w.store.inbox, leases)
  {
    AcquireMakes(d, w.leases, a, t);
    AcquireKeepsSound(d, w.leases, a, t, leases, l);
    assert LeaseBinds(l, a) && StateBinds(leases.epochs[a.body.id], a);
    assert HasAdmission(w.store.inbox, l) && HasState(w.store.inbox, leases.epochs[a.body.id]);
  }

  lemma CompleteKeeps(d: Digest, w: World, id: string, completion: string, clock: Clock)
    requires LeasesOk(d, w.store.inbox, w.leases) && Complete(w.leases, id, completion, clock).Ok?
    ensures LeasesOk(d, w.store.inbox, Complete(w.leases, id, completion, clock).value.0)
  {
    CompleteKeepsSound(d, w.leases, id, completion, clock);
    var leases := Complete(w.leases, id, completion, clock).value.0;
    forall k | k in leases.epochs ensures HasState(w.store.inbox, leases.epochs[k]) {
      assert HasState(w.store.inbox, w.leases.epochs[k]);
    }
  }

  lemma IssuingKeepsConsistent(h: Hashes, known: set<Auth.Snapshot>, w: World, i: Auth.Grant, t: GrantTerms, w': World)
    requires Auth.CollisionFree(h.authority, known) && Auth.Knows(known, w.authority) && Consistent(h, w) && Did(h, w, CallIssue(i, t), w') && w' != w
    ensures Consistent(h, w')
  {
    IssuedFollows(h, known, w.authority, i, t);
    IssueKeeps(h, w.authority, w.grants, i, t);
    MoreGrants(w.grants, MakeGrantRow(h, i, t), w.consumptions, w.store.outboxes);
  }

  lemma AuthorityKeepsConsistent(h: Hashes, w: World, a: Auth.Action, w': World)
    requires Consistent(h, w) && w' == w.(authority := Auth.Next(h.authority, w.authority, a))
    ensures Consistent(h, w')
  {
    Auth.NextKeepsSound(h.authority, w.authority, a, w'.authority);
    AuthorityKeepsSnapshots(h, w.authority, a);
    AuthorityKeepsGrants(h, w.authority, a, w.grants);
  }

  lemma LeasingKeepsConsistent(h: Hashes, w: World, c: Call, w': World)
    requires Consistent(h, w) && (c.CallAcquire? || c.CallComplete?) && Did(h, w, c, w') && w' != w
    ensures Consistent(h, w')
  {
    match c
    case CallAcquire(_, t) =>
      var a :| a in w.store.inbox && DidAcquire(h.dispatch, w, a, t, w');
      AcquireKeeps(h.dispatch, w, a, t, w'.leases, Acquire(h.dispatch, w.leases, a, t).value.1);
    case CallComplete(id, completion, clock) => CompleteKeeps(h.dispatch, w, id, completion, clock);
  }

  lemma ConsumingKeepsConsistent(h: Hashes, w: World, c: Call, w': World)
    requires Consistent(h, w) && c.CallConsume? && Did(h, w, c, w') && w' != w
    ensures Consistent(h, w')
  {
    var r :| r in w.grants && DidConsume(h, w, r, c.consumeTerms, w');
    ConsumeKeeps(h, w, r, c.consumeTerms, w');
  }

  lemma DidKeepsConsistent(h: Hashes, known: set<Auth.Snapshot>, w: World, c: Call, w': World)
    requires Auth.CollisionFree(h.authority, known) && Auth.Knows(known, w.authority) && Consistent(h, w) && ValidCall(h, c) && Did(h, w, c, w')
    ensures Consistent(h, w')
  {
    if w' != w {
      match c
      case CallAuthority(a) => AuthorityKeepsConsistent(h, w, a, w');
      case CallIssue(i, t) => IssuingKeepsConsistent(h, known, w, i, t, w');
      case CallConsume(_, _) => ConsumingKeepsConsistent(h, w, c, w');
      case CallAdmit(e, revision) => AdmitKeeps(h, w, e, revision, w');
      case _ => LeasingKeepsConsistent(h, w, c, w');
    }
  }

  /** The snapshots that a call speaks of. */
  function Mentioned(c: Call): set<Auth.Snapshot> { if c.CallAuthority? then Auth.Mentioned(c.action) else {} }

  function MentionedIn(calls: seq<Call>): set<Auth.Snapshot> { set c, n | c in calls && n in Mentioned(c) :: n }

  lemma AfterKeepsConsistent(h: Hashes, known: set<Auth.Snapshot>, w: World, c: Call)
    requires Auth.CollisionFree(h.authority, known) && Auth.Knows(known, w.authority) && Mentioned(c) <= known
    requires Consistent(h, w) && ValidCall(h, c)
    ensures Consistent(h, After(h, w, c)) && Auth.Knows(known, After(h, w, c).authority)
  {
    AfterDid(h, w, c);
    DidKeepsConsistent(h, known, w, c, After(h, w, c));
    AfterKnows(h, known, w, c);
  }

  lemma AfterKnows(h: Hashes, known: set<Auth.Snapshot>, w: World, c: Call)
    requires Auth.Knows(known, w.authority) && Mentioned(c) <= known
    ensures Auth.Knows(known, After(h, w, c).authority)
  {
    if c.CallAuthority? {
      Auth.NextKnows(h.authority, known, w.authority, c.action);
    } else {
      OthersLeaveAuthority(h, w, c);
    }
  }

  lemma EmptyIsConsistent(h: Hashes)
    ensures Consistent(h, EMPTY)
  {
  }

  /** Whatever calls are made in whatever order, every row keeps standing behind the rows that follow it. */
  lemma {:induction false} AfterAllKeepsConsistent(h: Hashes, known: set<Auth.Snapshot>, w: World, calls: seq<Call>)
    requires Auth.CollisionFree(h.authority, known) && Auth.Knows(known, w.authority) && MentionedIn(calls) <= known
    requires Consistent(h, w) && forall c | c in calls :: ValidCall(h, c)
    ensures Consistent(h, AfterAll(h, w, calls)) && Auth.Knows(known, AfterAll(h, w, calls).authority)
  {
    if calls != [] {
      var init, last := calls[..|calls| - 1], calls[|calls| - 1];
      assert MentionedIn(init) <= MentionedIn(calls) && Mentioned(last) <= MentionedIn(calls);
      AfterAllKeepsConsistent(h, known, w, init);
      AfterKeepsConsistent(h, known, AfterAll(h, w, init), last);
    }
  }

  // ---- The revocation epoch from end to end ----

  /** The world after the first `k` calls. */
  function At(h: Hashes, calls: seq<Call>, k: nat): World
    requires k <= |calls|
  {
    AfterAll(h, EMPTY, calls[..k])
  }

  lemma AtOneMore(h: Hashes, calls: seq<Call>, k: nat)
    requires k < |calls|
    ensures At(h, calls, k + 1) == After(h, At(h, calls, k), calls[k])
  {
    assert calls[..k + 1][..k] == calls[..k];
  }

  lemma OthersLeaveAuthority(h: Hashes, w: World, c: Call)
    requires !c.CallAuthority?
    ensures After(h, w, c).authority == w.authority
  {
  }

  lemma CallKeepsEpoch(h: Hashes, w: World, c: Call, s: Subject)
    ensures EpochOf(w, s) <= EpochOf(After(h, w, c), s)
  {
    if c.CallAuthority? {
      Auth.NextState(h.authority, w.authority, c.action);
      Auth.EpochsNeverFall(h.authority, w.authority.state, c.action, Auth.Scope(s.workspaceId, s.environment, s.capabilityIdentity));
    } else {
      OthersLeaveAuthority(h, w, c);
    }
  }

  lemma EpochStep(h: Hashes, calls: seq<Call>, k: nat, s: Subject)
    requires k < |calls|
    ensures EpochOf(At(h, calls, k), s) <= EpochOf(At(h, calls, k + 1), s)
  {
    AtOneMore(h, calls, k);
    CallKeepsEpoch(h, At(h, calls, k), calls[k], s);
  }

  ghost function EpochAt(h: Hashes, calls: seq<Call>, k: nat, s: Subject): nat
    requires k <= |calls|
  {
    EpochOf(At(h, calls, k), s)
  }

  lemma EpochRises(h: Hashes, calls: seq<Call>, i: nat, j: nat, s: Subject)
    requires i <= j <= |calls|
    ensures EpochAt(h, calls, i, s) <= EpochAt(h, calls, j, s)
  {
    for k := i to j
      invariant EpochAt(h, calls, i, s) <= EpochAt(h, calls, k, s)
    {
      EpochStep(h, calls, k, s);
    }
  }

  /** An epoch that is the same at two moments was the same at every moment in between. */
  lemma EpochWasConstant(h: Hashes, calls: seq<Call>, i: nat, j: nat, s: Subject)
    requires i <= j <= |calls| && EpochAt(h, calls, i, s) == EpochAt(h, calls, j, s)
    ensures forall k | i <= k <= j :: EpochAt(h, calls, k, s) == EpochAt(h, calls, j, s)
  {
    forall k | i <= k <= j ensures EpochAt(h, calls, k, s) == EpochAt(h, calls, j, s) {
      EpochRises(h, calls, i, k, s);
      EpochRises(h, calls, k, j, s);
    }
  }

  /** The `i`-th call stored this snapshot. */
  ghost predicate StoredAt(h: Hashes, calls: seq<Call>, i: nat, n: Auth.Snapshot)
    requires i < |calls|
  {
    && calls[i].CallAuthority? && Auth.Inserts(h.authority, At(h, calls, i).authority.state, calls[i].action)
    && calls[i].action.proposal.snapshot == n
  }

  /** The `j`-th call consumed this stored grant, whose authority was live, and wrote this outbox entry. */
  ghost predicate ConsumedAt(h: Hashes, calls: seq<Call>, j: nat, o: Outbox, r: GrantRow)
    requires j < |calls|
  {
    && calls[j].CallConsume? && r in At(h, calls, j).grants && calls[j].jti == r.grant.ticket.jti
    && o == MakeEntry(h, r.grant, calls[j].consumeTerms)
    && o !in At(h, calls, j).store.outboxes && o in At(h, calls, j + 1).store.outboxes
    && IsLive(At(h, calls, j), r.grant, calls[j].consumeTerms.clock, calls[j].consumeTerms.permitted)
  }

  /** The snapshot under the key, after `m` calls, with the epoch recorded for it. */
  ghost predicate RecordedAt(h: Hashes, calls: seq<Call>, m: nat, key: string, n: Auth.Snapshot, epoch: nat)
    requires m <= |calls|
  {
    var s := At(h, calls, m).authority.state;
    && key in s.rows && s.rows[key].snapshot == n
    && Auth.Load(h.authority, s, n).Ok? && Auth.Load(h.authority, s, n).value.epoch == epoch
  }

  lemma AlwaysConsistent(h: Hashes, calls: seq<Call>, k: nat)
    requires Auth.CollisionFree(h.authority, MentionedIn(calls)) && (forall c | c in calls :: ValidCall(h, c)) && k <= |calls|
    ensures Consistent(h, At(h, calls, k))
  {
    EmptyIsConsistent(h);
    assert MentionedIn(calls[..k]) <= MentionedIn(calls);
    AfterAllKeepsConsistent(h, MentionedIn(calls), EMPTY, calls[..k]);
  }

  lemma AuthorityIsSound(h: Hashes, calls: seq<Call>, k: nat)
    requires Auth.CollisionFree(h.authority, MentionedIn(calls)) && (forall c | c in calls :: ValidCall(h, c)) && k <= |calls|
    ensures Auth.Sound(h.authority, At(h, calls, k).authority.state)
  {
    AlwaysConsistent(h, calls, k);
  }

  lemma RecordedBefore(h: Hashes, calls: seq<Call>, m: nat, key: string, n: Auth.Snapshot, epoch: nat) returns (before: bool)
    requires m < |calls| && RecordedAt(h, calls, m + 1, key, n, epoch) && Auth.Sound(h.authority, At(h, calls, m).authority.state)
    ensures before ==> RecordedAt(h, calls, m, key, n, epoch)
    ensures !before ==> StoredAt(h, calls, m, n) && epoch == EpochAt(h, calls, m, n.subject)
  {
    var w, c := At(h, calls, m), calls[m];
    AtOneMore(h, calls, m);
    before := key in w.authority.state.rows;
    if before {
      Auth.StoredLoads(h.authority, w.authority.state, key);
      RecordedStays(h, w, c, key);
    } else {
      RowIsNew(h, w, c, key);
    }
  }

  /** The epoch recorded for a stored snapshot is the epoch at the call that stored it. */
  lemma {:induction false} RowWasStored(h: Hashes, calls: seq<Call>, m: nat, key: string, n: Auth.Snapshot, epoch: nat) returns (i: nat)
    requires Auth.CollisionFree(h.authority, MentionedIn(calls)) && forall c | c in calls :: ValidCall(h, c)
    requires m <= |calls| && RecordedAt(h, calls, m, key, n, epoch)
    ensures i < m && StoredAt(h, calls, i, n) && epoch == EpochAt(h, calls, i, n.subject)
    decreases m
  {
    assert At(h, calls, 0) == EMPTY by {
      assert calls[..0] == [];
    }
    AuthorityIsSound(h, calls, m - 1);
    var before := RecordedBefore(h, calls, m - 1, key, n, epoch);
    if before {
      i := RowWasStored(h, calls, m - 1, key, n, epoch);
    } else {
      i := m - 1;
    }
  }

  lemma RecordedStays(h: Hashes, w: World, c: Call, key: string)
    requires Auth.Sound(h.authority, w.authority.state) && key in w.authority.state.rows
    requires Auth.Load(h.authority, w.authority.state, w.authority.state.rows[key].snapshot).Ok?
    ensures var s, s' := w.authority.state, After(h, w, c).authority.state;
      && key in s'.rows && s'.rows[key] == s.rows[key]
      && Auth.Load(h.authority, s', s.rows[key].snapshot) == Auth.Load(h.authority, s, s.rows[key].snapshot)
  {
    if c.CallAuthority? {
      Auth.NextState(h.authority, w.authority, c.action);
      Auth.RowsStay(h.authority, w.authority, c.action, key);
      Auth.LoadIsStable(h.authority, w.authority.state, c.action, w.authority.state.rows[key].snapshot);
    } else {
      OthersLeaveAuthority(h, w, c);
    }
  }

  lemma RowIsNew(h: Hashes, w: World, c: Call, key: string)
    requires Auth.Sound(h.authority, w.authority.state)
    requires key !in w.authority.state.rows && key in After(h, w, c).authority.state.rows
    ensures c.CallAuthority? && Auth.Inserts(h.authority, w.authority.state, c.action)
    ensures var n := After(h, w, c).authority.state.rows[key].snapshot;
      && n == c.action.proposal.snapshot
      && Auth.Load(h.authority, After(h, w, c).authority.state, n).Ok?
      && Auth.Load(h.authority, After(h, w, c).authority.state, n).value.epoch == EpochOf(w, n.subject)
  {
    if !c.CallAuthority? {
      OthersLeaveAuthority(h, w, c);
    }
    Auth.NextState(h.authority, w.authority, c.action);
    Auth.InsertedNow(h.authority, w.authority.state, c.action, key);
  }

  /** Every outbox entry was written by the consumption of a stored grant whose authority was live. */
  lemma {:induction false} EntryWasConsumed(h: Hashes, calls: seq<Call>, m: nat, o: Outbox) returns (j: nat, r: GrantRow)
    requires m <= |calls| && o in At(h, calls, m).store.outboxes
    ensures j < m && ConsumedAt(h, calls, j, o, r)
    decreases m
  {
    assert At(h, calls, 0) == EMPTY by {
      assert calls[..0] == [];
    }
    if o in At(h, calls, m - 1).store.outboxes {
      j, r := EntryWasConsumed(h, calls, m - 1, o);
    } else {
      j := m - 1;
      r := ConsumedThen(h, calls, j, o);
    }
  }

  lemma ConsumedThen(h: Hashes, calls: seq<Call>, j: nat, o: Outbox) returns (r: GrantRow)
    requires j < |calls| && o !in At(h, calls, j).store.outboxes && o in At(h, calls, j + 1).store.outboxes
    ensures ConsumedAt(h, calls, j, o, r)
  {
    AtOneMore(h, calls, j);
    r := EntryIsNew(h, At(h, calls, j), calls[j], o);
  }

  lemma EntryIsNew(h: Hashes, w: World, c: Call, o: Outbox) returns (r: GrantRow)
    requires o !in w.store.outboxes && o in After(h, w, c).store.outboxes
    ensures c.CallConsume? && r in w.grants && c.jti == r.grant.ticket.jti && o == MakeEntry(h, r.grant, c.consumeTerms)
    ensures IsLive(w, r.grant, c.consumeTerms.clock, c.consumeTerms.permitted)
  {
    OnlyConsumptionEnqueues(h, w, c);
    FindGrantFinds(w.grants, c.jti);
    r := FindGrant(w.grants, c.jti).value;
  }

  lemma OnlyConsumptionEnqueues(h: Hashes, w: World, c: Call)
    requires After(h, w, c).store.outboxes != w.store.outboxes
    ensures c.CallConsume? && ConsumeAndEnqueue(h, w, c.jti, c.consumeTerms).Ok?
  {
    if c.CallAdmit? && Admit(h.dispatch, w.store, c.envelope, c.revision).Ok? {
      AdmitAppends(h.dispatch, w.store, c.envelope, c.revision);
    }
  }

  /**
   Every outbox entry implies that its subject was authorized throughout: from the call that stored its
   snapshot to the call that consumed its grant and wrote it, the epoch of its scope was the granted one,
   whatever other callers did in between. The consumption was permitted, within the times of the grant by
   the clock of its environment, and no emergency stop was active.
   */
  lemma EntryImpliesConstantEpoch(h: Hashes, calls: seq<Call>, o: Outbox) returns (i: nat, j: nat, n: Auth.Snapshot, r: GrantRow)
    requires Auth.CollisionFree(h.authority, MentionedIn(calls)) && forall c | c in calls :: ValidCall(h, c)
    requires o in At(h, calls, |calls|).store.outboxes
    ensures i < j < |calls| && StoredAt(h, calls, i, n) && ConsumedAt(h, calls, j, o, r)
    ensures var clock := calls[j].consumeTerms.clock;
      && r.grant.issuedAt <= clock.observedAt && clock.observedAt < r.grant.expiresAt && o.body.createdAt == clock.observedAt
      && clock.environment == o.body.subject.environment && calls[j].consumeTerms.permitted
    ensures GrantFollows(n, r.grant) && n.subject == o.body.subject && !At(h, calls, j).authority.state.stopped
    ensures forall k | i <= k <= j :: EpochAt(h, calls, k, o.body.subject) == r.grant.epoch
  {
    j, r := EntryWasConsumed(h, calls, |calls|, o);
    AlwaysConsistent(h, calls, j);
    var key;
    key, n := GrantedSnapshot(h, At(h, calls, j), r);
    i := RowWasStored(h, calls, j, key, n, r.grant.epoch);
    EpochWasConstant(h, calls, i, j, o.body.subject);
  }

  /** After every run each stored grant was stored within its times, by the clock of its environment. */
  lemma GrantsWereInTime(h: Hashes, calls: seq<Call>, r: GrantRow)
    requires Auth.CollisionFree(h.authority, MentionedIn(calls)) && forall c | c in calls :: ValidCall(h, c)
    requires r in At(h, calls, |calls|).grants
    ensures r.grant.issuedAt <= r.clock.observedAt && r.clock.observedAt < r.grant.expiresAt
    ensures r.clock.environment == r.grant.subject.environment
    ensures var g, k := r.grant, r.conformance;
      && k.grantDigest == g.ticket.grantDigest && k.binding == g.binding
      && k.capabilityIdentity == g.subject.capabilityIdentity && k.targetKind == g.subject.targetKind
  {
    AlwaysConsistent(h, calls, |calls|);
  }

  /** And it follows a stored snapshot, with the epoch recorded for that. */
  lemma GrantsFollowSnapshots(h: Hashes, calls: seq<Call>, r: GrantRow) returns (key: string)
    requires Auth.CollisionFree(h.authority, MentionedIn(calls)) && forall c | c in calls :: ValidCall(h, c)
    requires r in At(h, calls, |calls|).grants
    ensures var s := At(h, calls, |calls|).authority.state;
      && key in s.rows && r.grant.subject == s.rows[key].snapshot.subject && r.grant.policy == s.rows[key].snapshot.policy
      && Auth.Load(h.authority, s, s.rows[key].snapshot).Ok? && Auth.Load(h.authority, s, s.rows[key].snapshot).value.epoch == r.grant.epoch
  {
    AlwaysConsistent(h, calls, |calls|);
    var n;
    key, n := GrantedSnapshot(h, At(h, calls, |calls|), r);
  }

  /**
   After every run each outbox entry has its consumption and its grant, which repeat one another field by
   field, and was consumed within the times of the grant.
   */
  lemma EntriesWereInTime(h: Hashes, calls: seq<Call>, o: Outbox) returns (r: GrantRow, c: ConsumptionRow)
    requires Auth.CollisionFree(h.authority, MentionedIn(calls)) && forall c | c in calls :: ValidCall(h, c)
    requires o in At(h, calls, |calls|).store.outboxes
    ensures r in At(h, calls, |calls|).grants && c in At(h, calls, |calls|).consumptions
    ensures o.body.consumptionId == c.consumption.id && o.body.consumptionDigest == c.consumption.digest && o.body.ticket == r.grant.ticket
    ensures r.grant.issuedAt <= c.consumption.consumedAt && c.consumption.consumedAt < r.grant.expiresAt
    ensures c.clock.observedAt == c.consumption.consumedAt && c.clock.environment == r.grant.subject.environment
    ensures var g, b, k := r.grant, c.consumption, c.conformance;
      && b.ticket == g.ticket && b.executionId == g.subject.executionId && b.snapshotDigest == g.subject.snapshotDigest
      && b.capsuleDigest == g.binding.capsuleDigest && b.runnerClass == g.binding.runnerClass && b.liveEpoch == g.epoch
      && c.clock.digest == b.clockDigest && k.digest == b.conformanceDigest
      && k.grantDigest == g.ticket.grantDigest && k.binding == g.binding
      && k.capabilityIdentity == g.subject.capabilityIdentity && k.targetKind == g.subject.targetKind
      && o.body.createdAt == b.consumedAt && o.body.subject == g.subject && o.body.binding == g.binding
  {
    AlwaysConsistent(h, calls, |calls|);
    r, c := SourceOf(At(h, calls, |calls|), o);
  }

  lemma GrantedSnapshot(h: Hashes, w: World, r: GrantRow) returns (key: string, n: Auth.Snapshot)
    requires GrantsOk(h, w.authority.state, w.grants) && r in w.grants
    ensures key in w.authority.state.rows && w.authority.state.rows[key].snapshot == n && n.subject == r.grant.subject
    ensures GrantFollows(n, r.grant) && Auth.ValidSnapshot(h.authority, n)
    ensures Auth.Load(h.authority, w.authority.state, n).Ok? && Auth.Load(h.authority, w.authority.state, n).value.epoch == r.grant.epoch
  {
    assert HasSnapshot(h, w.authority.state, r.grant);
    key :| FollowsRow(h, w.authority.state, key, r.grant);
    n := w.authority.state.rows[key].snapshot;
  }

  // ---- What the digest of an outbox entry stands for ----

  /** Everything that an outbox entry was made from. */
  datatype Lineage = Lineage(snapshot: Auth.Snapshot, grant: Grant, consumption: Consumption, conformance: Conformance, entry: Outbox)

  ghost predicate HasRows(w: World, l: Lineage) {
    && (exists key :: key in w.authority.state.rows && w.authority.state.rows[key].snapshot == l.snapshot)
    && (exists r :: r in w.grants && r.grant == l.grant)
    && (exists r :: r in w.consumptions && r.consumption == l.consumption && r.conformance == l.conformance)
    && l.entry in w.store.outboxes
  }

  predicate LineageOk(h: Hashes, l: Lineage) {
    && GrantFollows(l.snapshot, l.grant) && ConsumptionFollows(l.grant, l.consumption)
    && OutboxFollows(l.grant, l.consumption, l.entry.body)
    && Conforms(l.conformance, l.grant) && l.conformance.digest == l.consumption.conformanceDigest
    && Auth.ValidSnapshot(h.authority, l.snapshot) && ValidGrant(h, l.grant) && ValidConsumption(h, l.consumption)
    && ValidConformance(h, l.conformance) && ValidOutbox(h.dispatch, l.entry)
  }

  ghost predicate Collide<T(!new)>(digest: T -> string, a: T, b: T) { a != b && digest(a) == digest(b) }

  /** Two values at the same place of the two lineages differ and have the same digest. */
  ghost predicate Collision(h: Hashes, a: Lineage, b: Lineage) {
    || Collide(h.dispatch, OutboxClaims(a.entry.body), OutboxClaims(b.entry.body))
    || Collide(h.lineage, ConsumptionClaims(a.consumption.(digest := "")), ConsumptionClaims(b.consumption.(digest := "")))
    || Collide(h.lineage, ConformanceClaims(a.conformance.(digest := "")), ConformanceClaims(b.conformance.(digest := "")))
    || Collide(h.lineage, GrantClaims(BareGrant(a.grant)), GrantClaims(BareGrant(b.grant)))
    || Collide(h.authority.snapshot, Auth.Bare(a.snapshot), Auth.Bare(b.snapshot))
  }

  lemma ConsistentEntries(h: Hashes, w: World)
    requires Consistent(h, w)
    ensures GrantsOk(h, w.authority.state, w.grants) && ConsumptionsOk(h, w.consumptions)
    ensures EntriesOk(w.grants, w.consumptions, w.store.outboxes) && EntriesAreSound(h.dispatch, w.store.outboxes)
  {
  }

  lemma SourceOf(w: World, o: Outbox) returns (r: GrantRow, q: ConsumptionRow)
    requires EntriesOk(w.grants, w.consumptions, w.store.outboxes) && o in w.store.outboxes
    ensures r in w.grants && q in w.consumptions && EntryFrom(r, q, o)
  {
    assert HasSource(w.grants, w.consumptions, o);
    r, q :| r in w.grants && q in w.consumptions && EntryFrom(r, q, o);
  }

  lemma LineageFrom(h: Hashes, key: string, n: Auth.Snapshot, r: GrantRow, q: ConsumptionRow, o: Outbox, w: World, l: Lineage)
    requires key in w.authority.state.rows && w.authority.state.rows[key].snapshot == n
    requires r in w.grants && q in w.consumptions && o in w.store.outboxes && EntryFrom(r, q, o) && GrantFollows(n, r.grant)
    requires Auth.ValidSnapshot(h.authority, n) && ValidGrantRow(h, r) && ValidConsumptionRow(h, q) && ValidOutbox(h.dispatch, o)
    requires l == Lineage(n, r.grant, q.consumption, q.conformance, o)
    ensures HasRows(w, l) && LineageOk(h, l)
  {
  }

  lemma EntryHasLineage(h: Hashes, w: World, o: Outbox) returns (l: Lineage)
    requires Consistent(h, w) && o in w.store.outboxes
    ensures HasRows(w, l) && LineageOk(h, l) && l.entry == o
  {
    ConsistentEntries(h, w);
    var r, q := SourceOf(w, o);
    var key, n := GrantedSnapshot(h, w, r);
    l := Lineage(n, r.grant, q.consumption, q.conformance, o);
    LineageFrom(h, key, n, r, q, o, w, l);
  }

  /**
   The digest of an outbox entry stands for its whole lineage: two entries with one digest, in any two
   worlds, have the same body, consumption, conformance, grant and snapshot, unless the digests of one
   of these five pairs collide.
   */
  lemma SameDigestSameLineage(h: Hashes, w: World, o: Outbox, w': World, o': Outbox) returns (a: Lineage, b: Lineage)
    requires Consistent(h, w) && o in w.store.outboxes && Consistent(h, w') && o' in w'.store.outboxes && o.digest == o'.digest
    ensures HasRows(w, a) && LineageOk(h, a) && a.entry == o && HasRows(w', b) && LineageOk(h, b) && b.entry == o'
    ensures a == b || Collision(h, a, b)
  {
    a := EntryHasLineage(h, w, o);
    b := EntryHasLineage(h, w', o');
    SameOrCollision(h, a, b);
  }

  lemma SameOrCollision(h: Hashes, a: Lineage, b: Lineage)
    requires LineageOk(h, a) && LineageOk(h, b) && a.entry.digest == b.entry.digest
    ensures a == b || Collision(h, a, b)
  {
    if !Collision(h, a, b) {
      SameConsumption(h, a.consumption, a.conformance, b.consumption, b.conformance);
      SameGrant(h, a.grant, a.snapshot, b.grant, b.snapshot);
    }
  }

  lemma SameConsumption(h: Hashes, c: Consumption, k: Conformance, c': Consumption, k': Conformance)
    requires ValidConsumption(h, c) && ValidConsumption(h, c') && ValidConformance(h, k) && ValidConformance(h, k')
    requires c.digest == c'.digest && k.digest == c.conformanceDigest && k'.digest == c'.conformanceDigest
    requires !Collide(h.lineage, ConsumptionClaims(c.(digest := "")), ConsumptionClaims(c'.(digest := "")))
    requires !Collide(h.lineage, ConformanceClaims(k.(digest := "")), ConformanceClaims(k'.(digest := "")))
    ensures c == c' && k == k'
  {
    assert c == c.(digest := "").(digest := c.digest) && c' == c'.(digest := "").(digest := c'.digest);
    assert k == k.(digest := "").(digest := k.digest) && k' == k'.(digest := "").(digest := k'.digest);
  }

  lemma SameGrant(h: Hashes, g: Grant, n: Auth.Snapshot, g': Grant, n': Auth.Snapshot)
    requires ValidGrant(h, g) && ValidGrant(h, g') && Auth.ValidSnapshot(h.authority, n) && Auth.ValidSnapshot(h.authority, n')
    requires g.ticket.grantDigest == g'.ticket.grantDigest && GrantFollows(n, g) && GrantFollows(n', g')
    requires !Collide(h.lineage, GrantClaims(BareGrant(g)), GrantClaims(BareGrant(g')))
    requires !Collide(h.authority.snapshot, Auth.Bare(n), Auth.Bare(n'))
    ensures g == g' && n == n'
  {
    assert g == BareGrant(g).(ticket := BareGrant(g).ticket.(grantDigest := g.ticket.grantDigest));
    assert g' == BareGrant(g').(ticket := BareGrant(g').ticket.(grantDigest := g'.ticket.grantDigest));
    assert n == Auth.Bare(n).(subject := n.subject) && n' == Auth.Bare(n').(subject := n'.subject);
  }
}

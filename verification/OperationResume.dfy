/**
 Preparing an operation and resuming it. Preparation drives the services in order, with other
 callers at work between its calls. Resumption only reads: it finds the rows of one execution, each
 at its own moment, checks them against one another and rebuilds what the preparation returned.
 */
module OperationResume {
  import opened Wrappers
  import opened DispatchContracts
  import opened DispatchInbox
  import opened ExecutionLeases
  import opened OperationLineage
  import Auth = Snapshots

  /** How a capability ends, from the immutable allowlist keyed by its identity. */
  datatype Profile = Profile(capability: string, terminalProfile: string, digest: string)

  datatype Config = Config(envelopeRevision: string, registry: map<string, Profile>)

  function ResolveProfile(cfg: Config, identity: string, capability: string): Result<Profile> {
    if identity !in cfg.registry then Err("TERMINAL_PROFILE_NOT_ALLOWLISTED")
    else if cfg.registry[identity].capability != capability then Err("TERMINAL_PROFILE_CAPABILITY_MISMATCH")
    else Ok(cfg.registry[identity])
  }

  /** The summary of a prepared execution. */
  datatype Prepared = Prepared(
    terminalProfile: string, profileDigest: string, executionId: string, requestId: string, capability: string,
    capabilityIdentity: string, environment: string, targetDigest: string, snapshotDigest: string, grantDigest: string,
    jti: string, outboxDigest: string, envelopeDigest: string, admissionDigest: string,
    leaseId: string, leaseDigest: string, epoch: int, capsuleDigest: string)

  /** The objects a preparation holds when it returns. */
  datatype Parts = Parts(snapshot: Auth.Snapshot, grant: Grant, outbox: Outbox, envelope: Envelope, admission: Admission, lease: Lease)

  // ---- Preparation ----

  /** The equalities that the preparation checks between the answers of the services. */
  predicate GrantAnswers(n: Auth.Snapshot, g: Grant) {
    && g.subject.snapshotDigest == n.subject.snapshotDigest && g.subject.executionId == n.subject.executionId
    && g.subject.capability == n.subject.capability && g.subject.capabilityIdentity == n.subject.capabilityIdentity
  }

  predicate OutboxAnswers(g: Grant, o: Outbox) {
    && o.body.ticket.grantDigest == g.ticket.grantDigest && o.body.subject.executionId == g.subject.executionId
    && o.body.subject.snapshotDigest == g.subject.snapshotDigest && o.body.subject.capability == g.subject.capability
    && o.body.subject.capabilityIdentity == g.subject.capabilityIdentity && o.body.subject.targetDigest == g.subject.targetDigest
  }

  predicate AdmissionAnswers(e: Envelope, a: Admission) {
    && a.body.dispatchId == e.body.dispatchId && a.body.place.executionId == e.body.entry.body.subject.executionId
    && a.body.place.capsuleDigest == e.body.entry.body.binding.capsuleDigest
  }

  predicate LeaseAnswers(e: Envelope, a: Admission, l: Lease) {
    && l.body.admissionId == a.body.id && l.body.place.executionId == e.body.entry.body.subject.executionId
    && l.body.place.capsuleDigest == e.body.entry.body.binding.capsuleDigest
  }

  /** The preparation takes every field but the lease's from the envelope. */
  function PreparedSummary(f: Profile, p: Parts): Prepared {
    var o := p.envelope.body.entry;
    Prepared(f.terminalProfile, f.digest, o.body.subject.executionId, o.body.subject.requestId, o.body.subject.capability,
             o.body.subject.capabilityIdentity, o.body.subject.environment, o.body.subject.targetDigest,
             o.body.subject.snapshotDigest, o.body.ticket.grantDigest, o.body.ticket.jti, o.digest, p.envelope.digest,
             p.admission.digest, p.lease.body.id, p.lease.digest, p.lease.body.epoch, o.body.binding.capsuleDigest)
  }

  ghost predicate IsStored(w: World, n: Auth.Snapshot) {
    exists k :: k in w.authority.state.rows && w.authority.state.rows[k].snapshot == n
  }

  /** The preparation returned `c` holding these parts, all of which the services had stored in `w`. */
  ghost predicate WasPrepared(d: Digest, cfg: Config, w: World, p: Parts, c: Prepared) {
    && IsStored(w, p.snapshot) && p.outbox in w.store.outboxes && p.admission in w.store.inbox
    && (exists r :: r in w.grants && r.grant == p.grant) && (exists r :: r in w.leases.rows && r.lease == p.lease)
    && p.envelope == MakeEnvelope(d, p.outbox, cfg.envelopeRevision) && p.admission.body.envelopeDigest == p.envelope.digest
    && GrantAnswers(p.snapshot, p.grant) && OutboxAnswers(p.grant, p.outbox)
    && AdmissionAnswers(p.envelope, p.admission) && LeaseAnswers(p.envelope, p.admission, p.lease)
    && var f := ResolveProfile(cfg, p.snapshot.subject.capabilityIdentity, p.snapshot.subject.capability);
    f.Ok? && c == PreparedSummary(f.value, p)
  }

  /** The parts agree from one to the next, in everything that a service could have answered otherwise. */
  ghost predicate Aligned(p: Parts) {
    var n, g, o, a, l := p.snapshot.subject, p.grant, p.outbox.body, p.admission.body, p.lease.body;
    && g.subject.snapshotDigest == n.snapshotDigest && g.subject.executionId == n.executionId
    && g.subject.capability == n.capability && g.subject.capabilityIdentity == n.capabilityIdentity
    && o.ticket.grantDigest == g.ticket.grantDigest && o.subject.executionId == g.subject.executionId
    && o.subject.snapshotDigest == g.subject.snapshotDigest && o.subject.capability == g.subject.capability
    && o.subject.capabilityIdentity == g.subject.capabilityIdentity && o.subject.targetDigest == g.subject.targetDigest
    && p.envelope.body.entry == p.outbox && a.dispatchId == p.envelope.body.dispatchId && a.envelopeDigest == p.envelope.digest
    && a.place.executionId == o.subject.executionId && a.place.capsuleDigest == o.binding.capsuleDigest
    && l.admissionId == a.id && l.place.executionId == o.subject.executionId && l.place.capsuleDigest == o.binding.capsuleDigest
  }

  /** A preparation returns only when its parts agree, and its summary repeats them. */
  lemma PreparedIsAligned(d: Digest, cfg: Config, w: World, p: Parts, c: Prepared)
    requires WasPrepared(d, cfg, w, p, c)
    ensures Aligned(p)
    ensures var o, l := p.outbox, p.lease;
      && c.executionId == o.body.subject.executionId && c.requestId == o.body.subject.requestId && c.capability == o.body.subject.capability
      && c.capabilityIdentity == p.snapshot.subject.capabilityIdentity && c.environment == o.body.subject.environment
      && c.targetDigest == o.body.subject.targetDigest && c.snapshotDigest == p.snapshot.subject.snapshotDigest
      && c.grantDigest == p.grant.ticket.grantDigest && c.jti == o.body.ticket.jti && c.outboxDigest == o.digest
      && c.envelopeDigest == p.envelope.digest && c.admissionDigest == p.admission.digest
      && c.leaseId == l.body.id && c.leaseDigest == l.digest && c.epoch == l.body.epoch && c.capsuleDigest == o.body.binding.capsuleDigest
      && p.snapshot.subject.capabilityIdentity in cfg.registry
      && cfg.registry[p.snapshot.subject.capabilityIdentity] == Profile(p.snapshot.subject.capability, c.terminalProfile, c.profileDigest)
  {
  }

  // ---- Resumption ----

  function Matching<T>(rows: seq<T>, p: T -> bool): seq<T> {
    if rows == [] then []
    else (if p(rows[0]) then [rows[0]] else []) + Matching(rows[1..], p)
  }

  /** The only row of its kind; none when it is missing or ambiguous. */
  function One<T>(rows: seq<T>, p: T -> bool): Option<T> {
    var found := Matching(rows, p);
    if |found| == 1 then Some(found[0]) else None
  }

  function GrantFor(x: string): GrantRow -> bool { (r: GrantRow) => r.grant.subject.executionId == x }
  function OutboxFor(x: string): Outbox -> bool { (o: Outbox) => o.body.subject.executionId == x }
  function ConsumptionFor(id: string): ConsumptionRow -> bool { (r: ConsumptionRow) => r.consumption.id == id }
  function AdmissionFor(x: string): Admission -> bool { (a: Admission) => a.body.place.executionId == x }
  function LeaseFor(id: string): LeaseRow -> bool { (r: LeaseRow) => r.lease.body.id == id }

  function StatesFor(leases: Leases, x: string): set<string> {
    set id | id in leases.epochs && leases.epochs[id].place.executionId == x
  }

  lemma OnlyElement(s: set<string>, a: string, b: string)
    requires |s| == 1 && a in s && b in s
    ensures a == b
  {
    assert |s - {a}| == 0;
    assert s - {a} == {};
  }

  function SnapshotsFor(rows: map<string, Auth.Row>, x: string): set<string> {
    set k | k in rows && rows[k].snapshot.subject.executionId == x
  }

  function OneSnapshot(rows: map<string, Auth.Row>, x: string): Option<Auth.Snapshot> {
    var keys := SnapshotsFor(rows, x);
    if |keys| != 1 then None
    else
      assert forall a, b | a in keys && b in keys :: a == b by {
        forall a, b | a in keys && b in keys ensures a == b { OnlyElement(keys, a, b); }
      }
      assert exists k :: k in keys by { assert keys != {}; }
      var k :| k in keys;
      Some(rows[k].snapshot)
  }

  function OneState(leases: Leases, x: string): Option<EpochState> {
    var ids := StatesFor(leases, x);
    if |ids| != 1 then None
    else
      assert forall a, b | a in ids && b in ids :: a == b by {
        forall a, b | a in ids && b in ids ensures a == b { OnlyElement(ids, a, b); }
      }
      assert exists id :: id in ids by { assert ids != {}; }
      var id :| id in ids;
      Some(leases.epochs[id])
  }

  /** The moments at which the rows are read. */
  datatype Reads = Reads(snapshot: World, grant: World, outbox: World, consumption: World, inbox: World, state: World, lease: World, fence: World)

  datatype Found = Found(
    snapshot: Auth.Snapshot, grant: GrantRow, outbox: Outbox, consumption: ConsumptionRow, admission: Admission,
    state: EpochState, lease: LeaseRow)

  function Gather(r: Reads, x: string): Result<Found> {
    var n := OneSnapshot(r.snapshot.authority.state.rows, x);
    if n.None? then Err("SNAPSHOT_NOT_FOUND") else
    var g := One(r.grant.grants, GrantFor(x));
    if g.None? then Err("GRANT_NOT_FOUND") else
    var o := One(r.outbox.store.outboxes, OutboxFor(x));
    if o.None? then Err("OUTBOX_NOT_FOUND") else
    var c := One(r.consumption.consumptions, ConsumptionFor(o.value.body.consumptionId));
    if c.None? then Err("CONSUMPTION_NOT_FOUND") else
    var a := One(r.inbox.store.inbox, AdmissionFor(x));
    if a.None? then Err("INBOX_NOT_FOUND") else
    var st := OneState(r.state.leases, x);
    if st.None? then Err("EPOCH_STATE_NOT_FOUND") else
    var l := One(r.lease.leases.rows, LeaseFor(st.value.current.leaseId));
    if l.None? then Err("LEASE_NOT_FOUND")
    else Ok(Found(n.value, g.value, o.value, c.value, a.value, st.value, l.value))
  }

  /** Every decoded value passes its own checks. */
  predicate DecodesOk(h: Hashes, f: Found) {
    && Auth.ValidSnapshot(h.authority, f.snapshot) && ValidGrantRow(h, f.grant) && ValidConsumptionRow(h, f.consumption)
    && ValidOutbox(h.dispatch, f.outbox) && ValidAdmission(h.dispatch, f.admission) && ValidLease(h.dispatch, f.lease.lease)
  }

  /** The rows agree from one to the next. */
  predicate ChainOk(f: Found) {
    && GrantFollows(f.snapshot, f.grant.grant)
    && ConsumptionFollows(f.grant.grant, f.consumption.consumption)
    && OutboxFollows(f.grant.grant, f.consumption.consumption, f.outbox.body)
    && f.admission.body.place == PlaceOf(f.outbox) && f.lease.lease.body.place == PlaceOf(f.outbox)
  }

  predicate SupportOk(f: Found) {
    && GrantRowOk(f.grant) && WitnessesOk(f.grant.grant, f.consumption)
    && f.lease.clock == Clock(f.lease.lease.body.place.environment, f.lease.lease.body.acquiredAt, f.lease.lease.body.clockDigest)
  }

  predicate StateOk(f: Found) {
    && f.state.completion.None? && f.state.admissionId == f.admission.body.id && f.state.admissionDigest == f.admission.digest
    && f.state.place == f.lease.lease.body.place && f.state.current == CurrentOf(f.lease.lease)
  }

  /** The resumption takes the fields from the rows themselves. */
  function ResumedSummary(p: Profile, f: Found, e: Envelope): Prepared {
    var g, l := f.grant.grant, f.lease.lease;
    Prepared(p.terminalProfile, p.digest, g.subject.executionId, g.subject.requestId, g.subject.capability,
             g.subject.capabilityIdentity, g.subject.environment, g.subject.targetDigest, g.subject.snapshotDigest,
             g.ticket.grantDigest, g.ticket.jti, f.outbox.digest, e.digest, f.admission.digest,
             l.body.id, l.digest, l.body.epoch, l.body.place.capsuleDigest)
  }

  function Resume(h: Hashes, cfg: Config, r: Reads, actorId: string, x: string, permitted: bool, clock: Clock): Result<Prepared> {
    var found := Gather(r, x);
    if found.Err? then Err(found.reason) else
    var f := found.value;
    var e := MakeEnvelope(h.dispatch, f.outbox, cfg.envelopeRevision);
    var profile := ResolveProfile(cfg, f.grant.grant.subject.capabilityIdentity, f.grant.grant.subject.capability);
    if f.snapshot.subject.actorId != actorId then Err("ACTOR_MISMATCH")
    else if !permitted then Err("LIVE_EXECUTION_PERMISSION_DENIED")
    else if !DecodesOk(h, f) then Err("ROW_INVALID")
    else if !SupportOk(f) then Err("SUPPORTING_WITNESS_MISMATCH")
    else if !ChainOk(f) then Err("BINDING_MISMATCH")
    else if !AdmissionBinds(h.dispatch, f.admission, e, f.outbox) || !LeaseBinds(f.lease.lease, f.admission)
    then Err("DURABLE_CHAIN_BINDING_MISMATCH")
    else if !StateOk(f) then Err("CURRENT_EXECUTION_LEASE_MISMATCH")
    else if profile.Err? then Err("TERMINAL_PROFILE_RESOLUTION_DENIED")
    else if !Fence(r.fence.leases, f.lease.lease, clock) then Err("CURRENT_LEASE_DENIED")
    else Ok(ResumedSummary(profile.value, f, e))
  }

  // ---- The only row of its kind ----

  lemma {:induction false} MatchingIsFilter<T>(rows: seq<T>, p: T -> bool, x: T)
    ensures x in Matching(rows, p) <==> x in rows && p(x)
  {
    if rows != [] {
      MatchingIsFilter(rows[1..], p, x);
      assert rows == [rows[0]] + rows[1..];
    }
  }

  /** A row known to be there is the one that is found. */
  lemma OneIsThat<T>(rows: seq<T>, p: T -> bool, x: T)
    requires x in rows && p(x) && One(rows, p).Some?
    ensures One(rows, p) == Some(x)
  {
    MatchingIsFilter(rows, p, x);
  }

  /** Everything but the lease. */
  predicate SameOperation(a: Prepared, b: Prepared) {
    a.(leaseId := "", leaseDigest := "", epoch := 0) == b.(leaseId := "", leaseDigest := "", epoch := 0)
  }

  ghost predicate AllLater(w: World, r: Reads) {
    && Grows(w, r.snapshot) && Grows(w, r.grant) && Grows(w, r.outbox) && Grows(w, r.consumption)
    && Grows(w, r.inbox) && Grows(w, r.lease)
  }

  lemma GatherFinds(r: Reads, x: string, f: Found)
    requires Gather(r, x) == Ok(f)
    ensures OneSnapshot(r.snapshot.authority.state.rows, x) == Some(f.snapshot) && One(r.grant.grants, GrantFor(x)) == Some(f.grant)
    ensures One(r.outbox.store.outboxes, OutboxFor(x)) == Some(f.outbox)
    ensures One(r.inbox.store.inbox, AdmissionFor(x)) == Some(f.admission)
    ensures OneState(r.state.leases, x) == Some(f.state)
    ensures One(r.lease.leases.rows, LeaseFor(f.state.current.leaseId)) == Some(f.lease)
  {
  }

  /** The rows the resumption finds are the ones the preparation stored. */
  lemma FoundAreStored(w: World, p: Parts, r: Reads, x: string, f: Found)
    requires p.outbox in w.store.outboxes && p.admission in w.store.inbox
    requires (exists g :: g in w.grants && g.grant == p.grant) && (exists l :: l in w.leases.rows && l.lease == p.lease)
    requires p.grant.subject.executionId == x && p.outbox.body.subject.executionId == x && p.admission.body.place.executionId == x
    requires AllLater(w, r) && Gather(r, x) == Ok(f)
    ensures f.grant.grant == p.grant && f.outbox == p.outbox && f.admission == p.admission
    ensures f.state.current.leaseId == p.lease.body.id ==> f.lease.lease == p.lease
  {
    GatherFinds(r, x, f);
    var g :| g in w.grants && g.grant == p.grant;
    OneIsThat(r.grant.grants, GrantFor(x), g);
    OneIsThat(r.outbox.store.outboxes, OutboxFor(x), p.outbox);
    OneIsThat(r.inbox.store.inbox, AdmissionFor(x), p.admission);
    var l :| l in w.leases.rows && l.lease == p.lease;
    if f.state.current.leaseId == p.lease.body.id {
      OneIsThat(r.lease.leases.rows, LeaseFor(f.state.current.leaseId), l);
    }
  }

  /** What a successful resumption has checked. */
  lemma ResumeChecked(h: Hashes, cfg: Config, r: Reads, actorId: string, x: string, permitted: bool, clock: Clock)
    requires Resume(h, cfg, r, actorId, x, permitted, clock).Ok?
    ensures Gather(r, x).Ok?
    ensures var f := Gather(r, x).value;
      var e := MakeEnvelope(h.dispatch, f.outbox, cfg.envelopeRevision);
      var profile := ResolveProfile(cfg, f.grant.grant.subject.capabilityIdentity, f.grant.grant.subject.capability);
      && ChainOk(f) && AdmissionBinds(h.dispatch, f.admission, e, f.outbox) && StateOk(f) && profile.Ok?
      && Resume(h, cfg, r, actorId, x, permitted, clock).value == ResumedSummary(profile.value, f, e)
  {
  }

  /**
   A resumption that succeeds, with each of its reads at any later moment and whatever others did
   since, rebuilds what the preparation returned: every field but the lease's, and those too when
   the preparation's lease is still the current one.
   */
  lemma ResumeRebuildsPrepared(h: Hashes, cfg: Config, w: World, p: Parts, c: Prepared, r: Reads,
                               actorId: string, permitted: bool, clock: Clock)
    requires WasPrepared(h.dispatch, cfg, w, p, c) && AllLater(w, r)
    requires Resume(h, cfg, r, actorId, c.executionId, permitted, clock).Ok?
    ensures var c' := Resume(h, cfg, r, actorId, c.executionId, permitted, clock).value;
      && SameOperation(c', c)
      && (c'.leaseId == c.leaseId ==> c' == c)
  {
    ResumeChecked(h, cfg, r, actorId, c.executionId, permitted, clock);
    FoundAreStored(w, p, r, c.executionId, Gather(r, c.executionId).value);
  }

  // ---- When a resumption succeeds ----

  lemma {:induction false} MatchingNone<T>(rows: seq<T>, p: T -> bool)
    requires forall i | 0 <= i < |rows| :: !p(rows[i])
    ensures Matching(rows, p) == []
  {
    if rows != [] {
      MatchingNone(rows[1..], p);
    }
  }

  lemma {:induction false} OneFrom<T>(rows: seq<T>, p: T -> bool, i: nat)
    requires i < |rows| && p(rows[i]) && forall j | 0 <= j < |rows| && j != i :: !p(rows[j])
    ensures One(rows, p) == Some(rows[i])
  {
    if i == 0 {
      MatchingNone(rows[1..], p);
    } else {
      assert forall j | 0 <= j < |rows[1..]| && j != i - 1 :: !p(rows[1..][j]);
      OneFrom(rows[1..], p, i - 1);
    }
  }

  lemma OnlySnapshot(rows: map<string, Auth.Row>, k: string)
    requires SnapshotsOk(rows) && k in rows
    ensures OneSnapshot(rows, rows[k].snapshot.subject.executionId) == Some(rows[k].snapshot)
  {
    assert SnapshotsFor(rows, rows[k].snapshot.subject.executionId) == {k};
  }

  lemma OnlyGrant(h: Hashes, s: Auth.State, grants: seq<GrantRow>, r: GrantRow)
    requires GrantsOk(h, s, grants) && r in grants
    ensures One(grants, GrantFor(r.grant.subject.executionId)) == Some(r)
  {
    var i :| 0 <= i < |grants| && grants[i] == r;
    OneFrom(grants, GrantFor(r.grant.subject.executionId), i);
  }

  lemma OnlyConsumption(h: Hashes, rows: seq<ConsumptionRow>, c: ConsumptionRow)
    requires ConsumptionsOk(h, rows) && c in rows
    ensures One(rows, ConsumptionFor(c.consumption.id)) == Some(c)
  {
    var i :| 0 <= i < |rows| && rows[i] == c;
    OneFrom(rows, ConsumptionFor(c.consumption.id), i);
  }

  lemma OnlyOutbox(w: World, o: Outbox)
    requires EntriesOk(w.grants, w.consumptions, w.store.outboxes) && o in w.store.outboxes
    ensures One(w.store.outboxes, OutboxFor(o.body.subject.executionId)) == Some(o)
  {
    var i :| 0 <= i < |w.store.outboxes| && w.store.outboxes[i] == o;
    OneFrom(w.store.outboxes, OutboxFor(o.body.subject.executionId), i);
  }

  ghost predicate DispatchOk(d: Digest, w: World) {
    EntriesOk(w.grants, w.consumptions, w.store.outboxes) && DispatchInbox.Sound(d, w.store)
  }

  /** An execution has one outbox entry, and its admission was made from it. */
  lemma AdmissionIsFrom(d: Digest, w: World, o: Outbox, a: Admission)
    requires DispatchOk(d, w) && o in w.store.outboxes && a in w.store.inbox
    requires a.body.place.executionId == o.body.subject.executionId
    ensures exists revision :: MadeFrom(d, a, o, revision)
    ensures a.body.dispatchId == DispatchId(d, o) && ValidAdmission(d, a) && a.body.place == PlaceOf(o)
    ensures a.body.outboxId == o.body.id && a.body.outboxDigest == o.digest && ValidOutbox(d, o)
  {
    var q, revision :| q in w.store.outboxes && MadeFrom(d, a, q, revision);
    assert q.body.subject.executionId == o.body.subject.executionId;
    assert q == o;
  }

  lemma OnlyAdmission(d: Digest, w: World, o: Outbox, a: Admission)
    requires DispatchOk(d, w) && o in w.store.outboxes && a in w.store.inbox
    requires a.body.place.executionId == o.body.subject.executionId
    ensures One(w.store.inbox, AdmissionFor(a.body.place.executionId)) == Some(a)
    ensures forall b | b in w.store.inbox && b.body.place.executionId == a.body.place.executionId :: b == a
  {
    var inbox, x := w.store.inbox, a.body.place.executionId;
    var i :| 0 <= i < |inbox| && inbox[i] == a;
    AdmissionIsFrom(d, w, o, a);
    forall j | 0 <= j < |inbox| && j != i ensures inbox[j].body.place.executionId != x {
      if inbox[j].body.place.executionId == x {
        AdmissionIsFrom(d, w, o, inbox[j]);
      }
    }
    OneFrom(inbox, AdmissionFor(x), i);
  }

  lemma SameIdSameAdmission(inbox: seq<Admission>, a: Admission, b: Admission)
    requires InboxOk(inbox) && a in inbox && b in inbox && a.body.id == b.body.id
    ensures a == b
  {
  }

  lemma BoundState(inbox: seq<Admission>, st: EpochState, a: Admission)
    requires InboxOk(inbox) && HasState(inbox, st) && a in inbox && st.admissionId == a.body.id
    ensures StateBinds(st, a)
  {
    var b :| b in inbox && StateBinds(st, b);
    SameIdSameAdmission(inbox, a, b);
  }

  lemma OnlyState(d: Digest, inbox: seq<Admission>, leases: Leases, a: Admission)
    requires InboxOk(inbox) && LeasesOk(d, inbox, leases) && a in inbox && a.body.id in leases.epochs
    requires forall b | b in inbox && b.body.place.executionId == a.body.place.executionId :: b == a
    ensures OneState(leases, a.body.place.executionId) == Some(leases.epochs[a.body.id])
    ensures StateBinds(leases.epochs[a.body.id], a)
  {
    var x, epochs := a.body.place.executionId, leases.epochs;
    BoundState(inbox, epochs[a.body.id], a);
    forall id | id in StatesFor(leases, x) ensures id == a.body.id {
      assert HasState(inbox, epochs[id]);
      var b :| b in inbox && StateBinds(epochs[id], b);
      assert b == a;
    }
    assert StatesFor(leases, x) == {a.body.id};
  }

  lemma CurrentRow(d: Digest, inbox: seq<Admission>, leases: Leases, a: Admission) returns (l: LeaseRow)
    requires InboxOk(inbox) && LeasesOk(d, inbox, leases) && a in inbox && a.body.id in leases.epochs
    ensures l in leases.rows && RowFits(d, leases, l) && CurrentOf(l.lease) == leases.epochs[a.body.id].current
    ensures LeaseBinds(l.lease, a)
  {
    var st := leases.epochs[a.body.id];
    assert HasRow(leases, a.body.id, st.current.epoch);
    l :| l in leases.rows && l.lease.body.admissionId == a.body.id && l.lease.body.epoch == st.current.epoch;
    assert RowFits(d, leases, l) && HasAdmission(inbox, l.lease);
    var b :| b in inbox && LeaseBinds(l.lease, b);
    SameIdSameAdmission(inbox, a, b);
  }

  lemma OnlyLease(rows: seq<LeaseRow>, l: LeaseRow)
    requires l in rows && LeaseIdsDiffer(rows)
    ensures One(rows, LeaseFor(l.lease.body.id)) == Some(l)
  {
    var i :| 0 <= i < |rows| && rows[i] == l;
    OneFrom(rows, LeaseFor(l.lease.body.id), i);
  }

  /** What the reads find is sound: of each moment, only what is read then matters. */
  ghost predicate SoundReads(h: Hashes, r: Reads) {
    && SnapshotsOk(r.snapshot.authority.state.rows) && GrantsOk(h, r.grant.authority.state, r.grant.grants)
    && EntriesOk(r.outbox.grants, r.outbox.consumptions, r.outbox.store.outboxes) && ConsumptionsOk(h, r.consumption.consumptions)
    && DispatchOk(h.dispatch, r.inbox) && LeaseStateOk(h.dispatch, r.state)
    && LeaseIdsDiffer(r.lease.leases.rows) && StatesAreOwn(r.fence.store.inbox, r.fence.leases)
  }

  ghost predicate LeaseStateOk(d: Digest, w: World) {
    DispatchOk(d, w) && InboxOk(w.store.inbox) && LeasesOk(d, w.store.inbox, w.leases)
  }

  ghost predicate LeaseIdsDiffer(rows: seq<LeaseRow>) {
    forall i, j | 0 <= i < j < |rows| :: rows[i].lease.body.id != rows[j].lease.body.id
  }

  ghost predicate StatesAreOwn(inbox: seq<Admission>, leases: Leases) {
    InboxOk(inbox) && forall id | id in leases.epochs :: HasState(inbox, leases.epochs[id]) && leases.epochs[id].admissionId == id
  }

  /** The reads are all made at or after `w`, those of the lease in order. */
  ghost predicate ReadFrom(h: Hashes, w: World, r: Reads) {
    SoundReads(h, r) && AllLater(w, r) && Grows(w, r.state) && Grows(r.state, r.lease) && Grows(r.lease, r.fence)
  }

  ghost predicate EntryIsSourced(h: Hashes, w: World) {
    GrantsOk(h, w.authority.state, w.grants) && DispatchOk(h.dispatch, w)
  }

  lemma ConsistentParts(h: Hashes, w: World)
    requires Consistent(h, w)
    ensures SnapshotsOk(w.authority.state.rows) && EntryIsSourced(h, w) && ConsumptionsOk(h, w.consumptions)
    ensures LeaseStateOk(h.dispatch, w) && LeaseIdsDiffer(w.leases.rows) && StatesAreOwn(w.store.inbox, w.leases)
  {
  }

  lemma GatherFrom(r: Reads, x: string, f: Found)
    requires OneSnapshot(r.snapshot.authority.state.rows, x) == Some(f.snapshot) && One(r.grant.grants, GrantFor(x)) == Some(f.grant)
    requires One(r.outbox.store.outboxes, OutboxFor(x)) == Some(f.outbox)
    requires One(r.consumption.consumptions, ConsumptionFor(f.outbox.body.consumptionId)) == Some(f.consumption)
    requires One(r.inbox.store.inbox, AdmissionFor(x)) == Some(f.admission)
    requires OneState(r.state.leases, x) == Some(f.state)
    requires One(r.lease.leases.rows, LeaseFor(f.state.current.leaseId)) == Some(f.lease)
    ensures Gather(r, x) == Ok(f)
  {
  }

  /** The rows behind an outbox entry. */
  lemma Sources(h: Hashes, w: World, o: Outbox) returns (k: string, g: GrantRow, c: ConsumptionRow)
    requires GrantsOk(h, w.authority.state, w.grants) && EntriesOk(w.grants, w.consumptions, w.store.outboxes) && o in w.store.outboxes
    ensures k in w.authority.state.rows && GrantFollows(w.authority.state.rows[k].snapshot, g.grant)
    ensures Auth.ValidSnapshot(h.authority, w.authority.state.rows[k].snapshot)
    ensures g in w.grants && c in w.consumptions && ValidGrantRow(h, g) && GrantRowOk(g) && EntryFrom(g, c, o)
  {
    assert HasSource(w.grants, w.consumptions, o);
    g, c :| g in w.grants && c in w.consumptions && EntryFrom(g, c, o);
    assert HasSnapshot(h, w.authority.state, g.grant);
    k :| FollowsRow(h, w.authority.state, k, g.grant);
  }

  /** Each read finds the row that was there at first, and no other. */
  lemma SourcesAreFound(h: Hashes, w: World, r: Reads, o: Outbox, k: string, g: GrantRow, c: ConsumptionRow)
    requires SnapshotsOk(r.snapshot.authority.state.rows) && GrantsOk(h, r.grant.authority.state, r.grant.grants)
    requires ConsumptionsOk(h, r.consumption.consumptions)
    requires EntriesOk(r.outbox.grants, r.outbox.consumptions, r.outbox.store.outboxes) && AllLater(w, r)
    requires o in w.store.outboxes && k in w.authority.state.rows && g in w.grants && c in w.consumptions
    requires GrantFollows(w.authority.state.rows[k].snapshot, g.grant) && EntryFrom(g, c, o)
    ensures var x := o.body.subject.executionId;
      && OneSnapshot(r.snapshot.authority.state.rows, x) == Some(w.authority.state.rows[k].snapshot)
      && One(r.grant.grants, GrantFor(x)) == Some(g)
      && One(r.outbox.store.outboxes, OutboxFor(x)) == Some(o)
      && One(r.consumption.consumptions, ConsumptionFor(o.body.consumptionId)) == Some(c)
  {
    OnlySnapshot(r.snapshot.authority.state.rows, k);
    OnlyGrant(h, r.grant.authority.state, r.grant.grants, g);
    OnlyOutbox(r.outbox, o);
    OnlyConsumption(h, r.consumption.consumptions, c);
  }

  /** The state and lease of an execution, as read one after the other, are the only ones. */
  lemma LeaseIsFound(d: Digest, state: World, later: seq<LeaseRow>, o: Outbox, a: Admission) returns (l: LeaseRow)
    requires LeaseStateOk(d, state)
    requires o in state.store.outboxes && a in state.store.inbox && a.body.id in state.leases.epochs
    requires a.body.place.executionId == o.body.subject.executionId && state.leases.rows <= later
    requires LeaseIdsDiffer(later)
    ensures OneState(state.leases, a.body.place.executionId) == Some(state.leases.epochs[a.body.id])
    ensures StateBinds(state.leases.epochs[a.body.id], a) && l in state.leases.rows
    ensures ValidLease(d, l.lease) && LeaseBinds(l.lease, a) && CurrentOf(l.lease) == state.leases.epochs[a.body.id].current
    ensures l.clock == Clock(l.lease.body.place.environment, l.lease.body.acquiredAt, l.lease.body.clockDigest)
    ensures One(later, LeaseFor(state.leases.epochs[a.body.id].current.leaseId)) == Some(l)
  {
    OnlyAdmission(d, state, o, a);
    l := StateAndLease(d, state.store.inbox, state.leases, a);
    assert l in later;
    OnlyLease(later, l);
  }

  lemma StateAndLease(d: Digest, inbox: seq<Admission>, leases: Leases, a: Admission) returns (l: LeaseRow)
    requires InboxOk(inbox) && LeasesOk(d, inbox, leases) && a in inbox && a.body.id in leases.epochs
    requires forall b | b in inbox && b.body.place.executionId == a.body.place.executionId :: b == a
    ensures OneState(leases, a.body.place.executionId) == Some(leases.epochs[a.body.id])
    ensures StateBinds(leases.epochs[a.body.id], a) && l in leases.rows
    ensures ValidLease(d, l.lease) && LeaseBinds(l.lease, a) && CurrentOf(l.lease) == leases.epochs[a.body.id].current
    ensures l.clock == Clock(l.lease.body.place.environment, l.lease.body.acquiredAt, l.lease.body.clockDigest)
  {
    OnlyState(d, inbox, leases, a);
    l := CurrentRow(d, inbox, leases, a);
  }

  /** The rows of a leased execution are found, each at its moment, and agree with one another. */
  lemma GatherSucceeds(h: Hashes, w: World, r: Reads, o: Outbox, a: Admission) returns (f: Found)
    requires EntryIsSourced(h, w) && ReadFrom(h, w, r) && o in w.store.outboxes && a in w.store.inbox && a.body.id in r.state.leases.epochs
    requires a.body.place.executionId == o.body.subject.executionId
    ensures Gather(r, o.body.subject.executionId) == Ok(f) && DecodesOk(h, f) && SupportOk(f) && ChainOk(f)
    ensures f.outbox == o && f.admission == a && f.state == r.state.leases.epochs[a.body.id] && f.lease in r.state.leases.rows
    ensures CurrentOf(f.lease.lease) == f.state.current && LeaseBinds(f.lease.lease, a)
    ensures StateBinds(f.state, a) && f.snapshot.subject == o.body.subject == f.grant.grant.subject
  {
    var k, g, c := Sources(h, w, o);
    SourcesAreFound(h, w, r, o, k, g, c);
    assert o in r.inbox.store.outboxes && a in r.inbox.store.inbox;
    OnlyAdmission(h.dispatch, r.inbox, o, a);
    assert o in r.state.store.outboxes && a in r.state.store.inbox;
    var l := LeaseIsFound(h.dispatch, r.state, r.lease.leases.rows, o, a);
    f := Found(w.authority.state.rows[k].snapshot, g, o, c, a, r.state.leases.epochs[a.body.id], l);
    GatherFrom(r, o.body.subject.executionId, f);
    AdmissionIsFrom(h.dispatch, w, o, a);
    FoundIsSound(h, f);
  }

  /** The current lease of the admission is open and not expired at this clock. */
  ghost predicate Running(st: EpochState, clock: Clock) {
    && st.completion.None? && clock.environment == st.place.environment
    && st.current.acquiredAt <= clock.observedAt < st.current.expiresAt
  }

  /** When the fence is read, the lease found before is still the current one, and it runs. */
  ghost predicate StillRunning(r: Reads, id: string, clock: Clock) {
    && id in r.state.leases.epochs && id in r.fence.leases.epochs
    && r.fence.leases.epochs[id].current == r.state.leases.epochs[id].current && Running(r.fence.leases.epochs[id], clock)
  }

  /**
   A leased execution can be resumed, each row being read at its own moment, exactly when its actor
   asks, still has the permission, the envelope revision is the one it was dispatched with, its
   capability is still on the allowlist, it was not completed, and the lease found is still the
   current one and runs when the fence is read.
   */
  lemma ResumeIsExact(h: Hashes, cfg: Config, w: World, r: Reads, o: Outbox, a: Admission, actorId: string, permitted: bool, clock: Clock)
    requires EntryIsSourced(h, w) && ReadFrom(h, w, r) && o in w.store.outboxes && a in w.store.inbox && a.body.id in r.state.leases.epochs
    requires a.body.place.executionId == o.body.subject.executionId
    ensures Resume(h, cfg, r, actorId, o.body.subject.executionId, permitted, clock).Ok? <==>
      && actorId == o.body.subject.actorId && permitted
      && a.body.envelopeDigest == MakeEnvelope(h.dispatch, o, cfg.envelopeRevision).digest
      && ResolveProfile(cfg, o.body.subject.capabilityIdentity, o.body.subject.capability).Ok?
      && r.state.leases.epochs[a.body.id].completion.None? && StillRunning(r, a.body.id, clock)
  {
    var f := GatherSucceeds(h, w, r, o, a);
    AdmissionIsFrom(h.dispatch, w, o, a);
    StillThere(w, r, a, f.lease);
    FenceIsRunning(r.fence.store.inbox, r.fence.leases, a, f.lease, clock);
    ResumeOfFound(h, cfg, r, f, actorId, permitted, clock);
  }

  lemma ResumeOfFound(h: Hashes, cfg: Config, r: Reads, f: Found, actorId: string, permitted: bool, clock: Clock)
    requires Gather(r, f.outbox.body.subject.executionId) == Ok(f) && DecodesOk(h, f) && SupportOk(f) && ChainOk(f)
    requires StateBinds(f.state, f.admission) && CurrentOf(f.lease.lease) == f.state.current && LeaseBinds(f.lease.lease, f.admission)
    requires f.admission.body.dispatchId == DispatchId(h.dispatch, f.outbox)
    requires f.admission.body.outboxId == f.outbox.body.id && f.admission.body.outboxDigest == f.outbox.digest
    ensures Resume(h, cfg, r, actorId, f.outbox.body.subject.executionId, permitted, clock).Ok? <==>
      && actorId == f.snapshot.subject.actorId && permitted
      && f.admission.body.envelopeDigest == MakeEnvelope(h.dispatch, f.outbox, cfg.envelopeRevision).digest
      && f.state.completion.None?
      && ResolveProfile(cfg, f.grant.grant.subject.capabilityIdentity, f.grant.grant.subject.capability).Ok?
      && Fence(r.fence.leases, f.lease.lease, clock)
  {
  }

  lemma FoundIsSound(h: Hashes, f: Found)
    requires Auth.ValidSnapshot(h.authority, f.snapshot) && ValidGrantRow(h, f.grant) && ValidConsumptionRow(h, f.consumption)
    requires ValidOutbox(h.dispatch, f.outbox) && ValidAdmission(h.dispatch, f.admission) && ValidLease(h.dispatch, f.lease.lease)
    requires f.lease.clock == Clock(f.lease.lease.body.place.environment, f.lease.lease.body.acquiredAt, f.lease.lease.body.clockDigest)
    requires GrantFollows(f.snapshot, f.grant.grant) && GrantRowOk(f.grant) && EntryFrom(f.grant, f.consumption, f.outbox)
    requires f.admission.body.place == PlaceOf(f.outbox) && LeaseBinds(f.lease.lease, f.admission)
    ensures DecodesOk(h, f) && SupportOk(f) && ChainOk(f)
  {
  }

  /** The fence is passed exactly by the current lease while it runs. */
  lemma FenceIsRunning(inbox: seq<Admission>, leases: Leases, a: Admission, l: LeaseRow, clock: Clock)
    requires StatesAreOwn(inbox, leases)
    requires a in inbox && l in leases.rows && LeaseBinds(l.lease, a)
    ensures Fence(leases, l.lease, clock) <==>
      && a.body.id in leases.epochs && leases.epochs[a.body.id].current == CurrentOf(l.lease)
      && Running(leases.epochs[a.body.id], clock)
  {
    if a.body.id in leases.epochs {
      BoundState(inbox, leases.epochs[a.body.id], a);
    }
  }

  lemma StillThere(w: World, r: Reads, a: Admission, l: LeaseRow)
    requires Grows(w, r.state) && Grows(r.state, r.lease) && Grows(r.lease, r.fence) && a in w.store.inbox && l in r.state.leases.rows
    ensures a in r.fence.store.inbox && l in r.fence.leases.rows
  {
    assert a in r.state.store.inbox && a in r.lease.store.inbox && l in r.lease.leases.rows;
  }

  // ---- Resumption from any tables ----

  /** The row is the only one of its kind in the table. */
  ghost predicate OnlyIn<T(!new)>(rows: seq<T>, p: T -> bool, x: T) {
    exists i :: 0 <= i < |rows| && rows[i] == x && p(x) && forall j | 0 <= j < |rows| && j != i :: !p(rows[j])
  }

  lemma {:induction false} MatchingOne<T(!new)>(rows: seq<T>, p: T -> bool) returns (i: int)
    requires |Matching(rows, p)| == 1
    ensures 0 <= i < |rows| && rows[i] == Matching(rows, p)[0] && p(rows[i]) && forall j | 0 <= j < |rows| && j != i :: !p(rows[j])
  {
    if p(rows[0]) {
      i := 0;
      forall j | 0 <= j < |rows| && j != 0 ensures !p(rows[j]) {
        MatchingIsFilter(rows[1..], p, rows[j]);
        assert rows[j] == rows[1..][j - 1];
      }
    } else {
      var k := MatchingOne(rows[1..], p);
      i := k + 1;
      forall j | 0 <= j < |rows| && j != i ensures !p(rows[j]) {
        assert j > 0 ==> rows[j] == rows[1..][j - 1];
      }
    }
  }

  lemma OneIsOnly<T(!new)>(rows: seq<T>, p: T -> bool, x: T)
    ensures One(rows, p) == Some(x) <==> OnlyIn(rows, p, x)
  {
    if One(rows, p) == Some(x) {
      var i := MatchingOne(rows, p);
    }
    if OnlyIn(rows, p, x) {
      var i :| 0 <= i < |rows| && rows[i] == x && p(x) && forall j | 0 <= j < |rows| && j != i :: !p(rows[j]);
      OneFrom(rows, p, i);
    }
  }

  /** What resumption demands of the grant and its witnesses, field by field. */
  ghost predicate WholeGrant(h: Hashes, n: Auth.Snapshot, r: GrantRow) {
    var g, k := r.grant, r.conformance;
    && n.subject.snapshotDigest == h.authority.snapshot(n.(subject := n.subject.(snapshotDigest := "")))
    && g.ticket.grantDigest == h.lineage(GrantClaims(g.(ticket := g.ticket.(grantDigest := ""))))
    && g.subject == n.subject && g.policy == n.policy
    && k.digest == h.lineage(ConformanceClaims(k.(digest := ""))) && k.grantDigest == g.ticket.grantDigest && k.binding == g.binding
    && k.capabilityIdentity == g.subject.capabilityIdentity && k.targetKind == g.subject.targetKind
    && r.clock.environment == g.subject.environment && g.issuedAt <= r.clock.observedAt && r.clock.observedAt < g.expiresAt
  }

  ghost predicate WholeConsumption(h: Hashes, g: Grant, r: ConsumptionRow) {
    var c, k := r.consumption, r.conformance;
    && c.digest == h.lineage(ConsumptionClaims(c.(digest := ""))) && k.digest == h.lineage(ConformanceClaims(k.(digest := "")))
    && c.ticket == g.ticket && c.executionId == g.subject.executionId && c.snapshotDigest == g.subject.snapshotDigest
    && c.capsuleDigest == g.binding.capsuleDigest && c.runnerClass == g.binding.runnerClass && c.liveEpoch == g.epoch
    && k.digest == c.conformanceDigest && k.grantDigest == g.ticket.grantDigest && k.binding == g.binding
    && k.capabilityIdentity == g.subject.capabilityIdentity && k.targetKind == g.subject.targetKind
    && r.clock.digest == c.clockDigest && r.clock.observedAt == c.consumedAt && r.clock.environment == g.subject.environment
    && g.issuedAt <= r.clock.observedAt && r.clock.observedAt < g.expiresAt
  }

  ghost predicate WholeEntry(h: Hashes, g: Grant, c: Consumption, o: Outbox) {
    && o.digest == h.dispatch(OutboxClaims(o.body)) && o.body.consumptionId == c.id && o.body.consumptionDigest == c.digest
    && o.body.createdAt == c.consumedAt && o.body.ticket == g.ticket && o.body.subject == g.subject && o.body.binding == g.binding
  }

  ghost predicate PlaceIsOf(p: Place, o: Outbox) {
    && p.executionId == o.body.subject.executionId && p.workspaceId == o.body.subject.workspaceId
    && p.environment == o.body.subject.environment && p.capsuleDigest == o.body.binding.capsuleDigest
    && p.runnerClass == o.body.binding.runnerClass
  }

  ghost predicate WholeAdmission(h: Hashes, cfg: Config, o: Outbox, a: Admission) {
    && a.digest == h.dispatch(AdmissionClaims(a.body))
    && a.body.id == h.dispatch(AdmissionIdentity(a.body.dispatchId, a.body.envelopeDigest, a.body.outboxDigest))
    && a.body.dispatchId == h.dispatch(DispatchIdentity(o.body.id, o.digest))
    && a.body.envelopeDigest == h.dispatch(EnvelopeClaims(EnvelopeBody(a.body.dispatchId, o, cfg.envelopeRevision)))
    && a.body.outboxId == o.body.id && a.body.outboxDigest == o.digest && PlaceIsOf(a.body.place, o)
  }

  ghost predicate WholeLease(h: Hashes, o: Outbox, a: Admission, st: EpochState, r: LeaseRow) {
    var l := r.lease;
    && l.digest == h.dispatch(LeaseClaims(l.body)) && l.body.id == h.dispatch(LeaseIdentity(l.body.admissionId, l.body.epoch))
    && l.body.epoch >= 1 && l.body.acquiredAt < l.body.expiresAt && l.body.expiresAt <= l.body.acquiredAt + 3_600_000
    && l.body.dispatchId == a.body.dispatchId && l.body.admissionId == a.body.id && l.body.admissionDigest == a.digest
    && l.body.place == a.body.place && PlaceIsOf(l.body.place, o)
    && r.clock.environment == l.body.place.environment && r.clock.observedAt == l.body.acquiredAt && r.clock.digest == l.body.clockDigest
    && st.completion == None && st.admissionId == a.body.id && st.admissionDigest == a.digest && st.place == l.body.place
    && st.current == Current(l.body.epoch, l.body.id, l.digest, l.body.acquiredAt, l.body.expiresAt)
  }

  /** When the fence is read the lease is still the current one, and it runs. */
  ghost predicate FenceHolds(s: Leases, r: LeaseRow, clock: Clock) {
    var l := r.lease;
    && l.body.admissionId in s.epochs
    && var st := s.epochs[l.body.admissionId];
    && st.completion == None && st.admissionDigest == l.body.admissionDigest && st.place == l.body.place
    && st.current == Current(l.body.epoch, l.body.id, l.digest, l.body.acquiredAt, l.body.expiresAt)
    && (exists q :: q in s.rows && q.lease == l)
    && clock.environment == l.body.place.environment && l.body.acquiredAt <= clock.observedAt && clock.observedAt < l.body.expiresAt
  }

  /**
   Whatever the tables hold, forged or damaged rows included: the rows found for an execution are resumed
   exactly when its actor asks with the permission, every digest is that of its content, every row
   repeats the one before it field by field, the capability is on the allowlist, and the fence holds.
   */
  lemma ResumeIsWhole(h: Hashes, cfg: Config, r: Reads, actorId: string, x: string, permitted: bool, clock: Clock, f: Found)
    requires Gather(r, x) == Ok(f)
    ensures Resume(h, cfg, r, actorId, x, permitted, clock).Ok? <==>
      && f.snapshot.subject.actorId == actorId && permitted
      && WholeGrant(h, f.snapshot, f.grant) && WholeConsumption(h, f.grant.grant, f.consumption)
      && WholeEntry(h, f.grant.grant, f.consumption.consumption, f.outbox) && WholeAdmission(h, cfg, f.outbox, f.admission)
      && WholeLease(h, f.outbox, f.admission, f.state, f.lease)
      && f.grant.grant.subject.capabilityIdentity in cfg.registry
      && cfg.registry[f.grant.grant.subject.capabilityIdentity].capability == f.grant.grant.subject.capability
      && FenceHolds(r.fence.leases, f.lease, clock)
  {
    ResumeDecides(h, cfg, r, actorId, x, permitted, clock, f);
    GrantIsWhole(h, f.snapshot, f.grant);
    ConsumptionIsWhole(h, f.grant.grant, f.consumption);
    EntryIsWhole(h, f.grant.grant, f.consumption.consumption, f.outbox);
    AdmissionIsWhole(h, cfg, f.outbox, f.admission);
    LeaseIsWhole(h, f);
    FenceIsWhole(r.fence.leases, f.lease, clock);
  }

  predicate AllOk(h: Hashes, cfg: Config, f: Found) {
    && DecodesOk(h, f) && SupportOk(f) && ChainOk(f)
    && AdmissionBinds(h.dispatch, f.admission, MakeEnvelope(h.dispatch, f.outbox, cfg.envelopeRevision), f.outbox)
    && LeaseBinds(f.lease.lease, f.admission) && StateOk(f)
  }

  lemma ResumeDecides(h: Hashes, cfg: Config, r: Reads, actorId: string, x: string, permitted: bool, clock: Clock, f: Found)
    requires Gather(r, x) == Ok(f)
    ensures Resume(h, cfg, r, actorId, x, permitted, clock).Ok? <==>
      && f.snapshot.subject.actorId == actorId && permitted && AllOk(h, cfg, f)
      && ResolveProfile(cfg, f.grant.grant.subject.capabilityIdentity, f.grant.grant.subject.capability).Ok?
      && Fence(r.fence.leases, f.lease.lease, clock)
  {
  }

  lemma GrantIsWhole(h: Hashes, n: Auth.Snapshot, r: GrantRow)
    ensures Auth.ValidSnapshot(h.authority, n) && ValidGrantRow(h, r) && GrantRowOk(r) && GrantFollows(n, r.grant) <==> WholeGrant(h, n, r)
  {
  }

  lemma ConsumptionIsWhole(h: Hashes, g: Grant, r: ConsumptionRow)
    ensures ValidConsumptionRow(h, r) && WitnessesOk(g, r) && ConsumptionFollows(g, r.consumption) <==> WholeConsumption(h, g, r)
  {
  }

  lemma EntryIsWhole(h: Hashes, g: Grant, c: Consumption, o: Outbox)
    ensures ValidOutbox(h.dispatch, o) && OutboxFollows(g, c, o.body) <==> WholeEntry(h, g, c, o)
  {
  }

  lemma AdmissionIsWhole(h: Hashes, cfg: Config, o: Outbox, a: Admission)
    ensures ValidAdmission(h.dispatch, a) && AdmissionBinds(h.dispatch, a, MakeEnvelope(h.dispatch, o, cfg.envelopeRevision), o)
      <==> WholeAdmission(h, cfg, o, a)
  {
  }

  lemma LeaseIsWhole(h: Hashes, f: Found)
    ensures var l := f.lease.lease;
      (ValidLease(h.dispatch, l) && LeaseBinds(l, f.admission) && l.body.place == PlaceOf(f.outbox) && StateOk(f)
       && f.lease.clock == Clock(l.body.place.environment, l.body.acquiredAt, l.body.clockDigest))
      <==> WholeLease(h, f.outbox, f.admission, f.state, f.lease)
  {
  }

  lemma FenceIsWhole(s: Leases, r: LeaseRow, clock: Clock)
    ensures Fence(s, r.lease, clock) <==> FenceHolds(s, r, clock)
  {
  }

  /** Exactly which rows are found: for each kind the only one of the execution, and none is ambiguous. */
  lemma GatherIsExact(r: Reads, x: string, f: Found)
    ensures Gather(r, x) == Ok(f) <==>
      && OneSnapshot(r.snapshot.authority.state.rows, x) == Some(f.snapshot)
      && OnlyIn(r.grant.grants, GrantFor(x), f.grant) && OnlyIn(r.outbox.store.outboxes, OutboxFor(x), f.outbox)
      && OnlyIn(r.consumption.consumptions, ConsumptionFor(f.outbox.body.consumptionId), f.consumption)
      && OnlyIn(r.inbox.store.inbox, AdmissionFor(x), f.admission) && OneState(r.state.leases, x) == Some(f.state)
      && OnlyIn(r.lease.leases.rows, LeaseFor(f.state.current.leaseId), f.lease)
  {
    OneIsOnly(r.grant.grants, GrantFor(x), f.grant);
    OneIsOnly(r.outbox.store.outboxes, OutboxFor(x), f.outbox);
    OneIsOnly(r.consumption.consumptions, ConsumptionFor(f.outbox.body.consumptionId), f.consumption);
    OneIsOnly(r.inbox.store.inbox, AdmissionFor(x), f.admission);
    OneIsOnly(r.lease.leases.rows, LeaseFor(f.state.current.leaseId), f.lease);
  }

  // ---- From preparation to resumption ----

  /** The rows of a preparation are still there, and its admission has a state. */
  lemma PreparedState(d: Digest, cfg: Config, w: World, p: Parts, c: Prepared, w': World)
    requires LeasesOk(d, w'.store.inbox, w'.leases) && Grows(w, w') && WasPrepared(d, cfg, w, p, c)
    ensures p.admission.body.id in w'.leases.epochs
    ensures p.admission.body.place.executionId == p.outbox.body.subject.executionId == c.executionId
  {
    var l :| l in w.leases.rows && l.lease == p.lease;
    assert l in w'.leases.rows;
    assert RowFits(d, w'.leases, l);
  }

  lemma PreparedActor(w: World, n: Auth.Snapshot, r: Reads, f: Found, x: string)
    requires SnapshotsOk(r.snapshot.authority.state.rows) && Grows(w, r.snapshot) && IsStored(w, n) && n.subject.executionId == x
    requires Gather(r, x) == Ok(f)
    ensures f.snapshot == n
  {
    var k :| k in w.authority.state.rows && w.authority.state.rows[k].snapshot == n;
    OnlySnapshot(r.snapshot.authority.state.rows, k);
    GatherFinds(r, x, f);
  }

  /** The reads of one resumption at the given moments of the calls made since. */
  function ReadsAt(h: Hashes, w: World, more: seq<Call>, at: seq<nat>): Reads
    requires |at| == 8 && forall i | 0 <= i < 8 :: at[i] <= |more|
  {
    Reads(AfterAll(h, w, more[..at[0]]), AfterAll(h, w, more[..at[1]]), AfterAll(h, w, more[..at[2]]), AfterAll(h, w, more[..at[3]]),
          AfterAll(h, w, more[..at[4]]), AfterAll(h, w, more[..at[5]]), AfterAll(h, w, more[..at[6]]), AfterAll(h, w, more[..at[7]]))
  }

  lemma LaterGrows(h: Hashes, w: World, more: seq<Call>, i: nat, j: nat)
    requires i <= j <= |more|
    ensures Grows(AfterAll(h, w, more[..i]), AfterAll(h, w, more[..j]))
  {
    assert more[..j] == more[..i] + more[i..j];
    AfterAllConcat(h, w, more[..i], more[i..j]);
    AfterAllGrows(h, AfterAll(h, w, more[..i]), more[i..j]);
  }

  lemma ReadIsGood(h: Hashes, known: set<Auth.Snapshot>, w: World, more: seq<Call>, i: nat, w': World)
    requires Auth.CollisionFree(h.authority, known) && Auth.Knows(known, w.authority) && MentionedIn(more) <= known
    requires Consistent(h, w) && (forall k | k in more :: ValidCall(h, k)) && i <= |more|
    requires w' == AfterAll(h, w, more[..i])
    ensures SnapshotsOk(w'.authority.state.rows) && EntryIsSourced(h, w') && ConsumptionsOk(h, w'.consumptions)
    ensures LeaseStateOk(h.dispatch, w') && LeaseIdsDiffer(w'.leases.rows) && StatesAreOwn(w'.store.inbox, w'.leases)
    ensures Grows(w, w')
  {
    assert MentionedIn(more[..i]) <= MentionedIn(more);
    AfterAllKeepsConsistent(h, known, w, more[..i]);
    AfterAllGrows(h, w, more[..i]);
    ConsistentParts(h, w');
  }

  /** How a resumption by the preparation's actor goes. */
  ghost predicate Resumes(h: Hashes, cfg: Config, seen: Reads, p: Parts, c: Prepared, permitted: bool, clock: Clock) {
    var r, id := Resume(h, cfg, seen, p.snapshot.subject.actorId, c.executionId, permitted, clock), p.admission.body.id;
    && id in seen.state.leases.epochs
    && (r.Ok? <==> permitted && seen.state.leases.epochs[id].completion.None? && StillRunning(seen, id, clock))
    && (r.Ok? ==> SameOperation(r.value, c))
    && (r.Ok? && seen.state.leases.epochs[id].current.leaseId == p.lease.body.id ==> r == Ok(c))
  }

  /**
   After a preparation, whatever else has been called since and between the reads, its actor can resume
   the execution exactly while he keeps the permission, the execution is not completed, and the lease
   found is still current and runs when the fence is read. He gets what the preparation returned, but
   for the lease if that has been succeeded.
   */
  lemma PreparedIsResumable(h: Hashes, cfg: Config, calls: seq<Call>, p: Parts, c: Prepared, more: seq<Call>, at: seq<nat>,
                            permitted: bool, clock: Clock)
    requires Auth.CollisionFree(h.authority, MentionedIn(calls) + MentionedIn(more))
    requires (forall k | k in calls :: ValidCall(h, k)) && (forall k | k in more :: ValidCall(h, k))
    requires |at| == 8 && (forall i | 0 <= i < 8 :: at[i] <= |more|) && at[5] <= at[6] <= at[7]
    requires WasPrepared(h.dispatch, cfg, AfterAll(h, EMPTY, calls), p, c)
    ensures Resumes(h, cfg, ReadsAt(h, AfterAll(h, EMPTY, calls), more, at), p, c, permitted, clock)
  {
    var w, known := AfterAll(h, EMPTY, calls), MentionedIn(calls) + MentionedIn(more);
    ReachableIsConsistent(h, known, calls);
    ResumableLater(h, known, cfg, w, p, c, more, at, permitted, clock);
  }

  lemma ReachableIsConsistent(h: Hashes, known: set<Auth.Snapshot>, calls: seq<Call>)
    requires Auth.CollisionFree(h.authority, known) && MentionedIn(calls) <= known && forall k | k in calls :: ValidCall(h, k)
    ensures Consistent(h, AfterAll(h, EMPTY, calls)) && Auth.Knows(known, AfterAll(h, EMPTY, calls).authority)
  {
    EmptyIsConsistent(h);
    AfterAllKeepsConsistent(h, known, EMPTY, calls);
  }

  lemma ResumableLater(h: Hashes, known: set<Auth.Snapshot>, cfg: Config, w: World, p: Parts, c: Prepared, more: seq<Call>, at: seq<nat>,
                       permitted: bool, clock: Clock)
    requires Auth.CollisionFree(h.authority, known) && Auth.Knows(known, w.authority) && MentionedIn(more) <= known
    requires Consistent(h, w) && forall k | k in more :: ValidCall(h, k)
    requires |at| == 8 && (forall i | 0 <= i < 8 :: at[i] <= |more|) && at[5] <= at[6] <= at[7]
    requires WasPrepared(h.dispatch, cfg, w, p, c)
    ensures Resumes(h, cfg, ReadsAt(h, w, more, at), p, c, permitted, clock)
  {
    ConsistentParts(h, w);
    ScheduleIsGood(h, known, w, more, at);
    ResumableThen(h, cfg, w, p, c, ReadsAt(h, w, more, at), permitted, clock);
  }

  lemma ScheduleIsGood(h: Hashes, known: set<Auth.Snapshot>, w: World, more: seq<Call>, at: seq<nat>)
    requires Auth.CollisionFree(h.authority, known) && Auth.Knows(known, w.authority) && MentionedIn(more) <= known
    requires Consistent(h, w) && forall k | k in more :: ValidCall(h, k)
    requires |at| == 8 && (forall i | 0 <= i < 8 :: at[i] <= |more|) && at[5] <= at[6] <= at[7]
    ensures ReadFrom(h, w, ReadsAt(h, w, more, at))
  {
    var r := ReadsAt(h, w, more, at);
    ReadIsGood(h, known, w, more, at[0], r.snapshot);
    ReadIsGood(h, known, w, more, at[1], r.grant);
    ReadIsGood(h, known, w, more, at[2], r.outbox);
    ReadIsGood(h, known, w, more, at[3], r.consumption);
    ReadIsGood(h, known, w, more, at[4], r.inbox);
    ReadIsGood(h, known, w, more, at[5], r.state);
    ReadIsGood(h, known, w, more, at[6], r.lease);
    ReadIsGood(h, known, w, more, at[7], r.fence);
    LaterGrows(h, w, more, at[5], at[6]);
    LaterGrows(h, w, more, at[6], at[7]);
  }

  lemma ResumableThen(h: Hashes, cfg: Config, w: World, p: Parts, c: Prepared, seen: Reads, permitted: bool, clock: Clock)
    requires EntryIsSourced(h, w) && ReadFrom(h, w, seen) && WasPrepared(h.dispatch, cfg, w, p, c)
    ensures Resumes(h, cfg, seen, p, c, permitted, clock)
  {
    PreparedState(h.dispatch, cfg, w, p, c, seen.state);
    var f := GatherSucceeds(h, w, seen, p.outbox, p.admission);
    PreparedActor(w, p.snapshot, seen, f, c.executionId);
    ResumeIsExact(h, cfg, w, seen, p.outbox, p.admission, p.snapshot.subject.actorId, permitted, clock);
    ResumedAgrees(h, cfg, w, p, c, seen, permitted, clock);
  }

  lemma ResumedAgrees(h: Hashes, cfg: Config, w: World, p: Parts, c: Prepared, seen: Reads, permitted: bool, clock: Clock)
    requires WasPrepared(h.dispatch, cfg, w, p, c) && AllLater(w, seen) && p.admission.body.id in seen.state.leases.epochs
    ensures var r := Resume(h, cfg, seen, p.snapshot.subject.actorId, c.executionId, permitted, clock);
      && (r.Ok? ==> SameOperation(r.value, c))
      && (r.Ok? && Gather(seen, c.executionId).Ok? && Gather(seen, c.executionId).value.state.current.leaseId == p.lease.body.id ==> r == Ok(c))
  {
    var actorId := p.snapshot.subject.actorId;
    if Resume(h, cfg, seen, actorId, c.executionId, permitted, clock).Ok? {
      ResumeRebuildsPrepared(h, cfg, w, p, c, seen, actorId, permitted, clock);
      ResumeChecked(h, cfg, seen, actorId, c.executionId, permitted, clock);
    }
  }

  lemma {:induction false} AfterAllConcat(h: Hashes, w: World, trace: seq<Call>, more: seq<Call>)
    ensures AfterAll(h, w, trace + more) == AfterAll(h, AfterAll(h, w, trace), more)
  {
    if more == [] {
      assert trace + more == trace;
    } else {
      var n := |trace + more| - 1;
      assert (trace + more)[..n] == trace + more[..|more| - 1];
      AfterAllConcat(h, w, trace, more[..|more| - 1]);
    }
  }

  // ---- The preparation as it runs ----

  /** An answered delivery is bound to the envelope it answers. */
  lemma AdmitBinds(d: Digest, st: Store, e: Envelope, revision: string)
    requires Admit(d, st, e, revision).Ok?
    ensures AdmissionBinds(d, Admit(d, st, e, revision).value.2, e, e.body.entry)
    ensures Admit(d, st, e, revision).value.2 in Admit(d, st, e, revision).value.0.inbox
  {
    AdmitAppends(d, st, e, revision);
  }

  lemma AcquireAnswers(d: Digest, w: World, admissionId: string, t: Terms)
    requires AcquireLease(d, w, admissionId, t).Ok?
    ensures var (w', l) := AcquireLease(d, w, admissionId, t).value;
      LeaseRow(l, t.clock) in w'.leases.rows && l.body.admissionId == admissionId
  {
    FindByIdFinds(w.store.inbox, admissionId);
    AcquireMakes(d, w.leases, FindById(w.store.inbox, admissionId).value, t);
  }

  /** What the preparation is asked for, and what the authorities and clocks will say. */
  datatype Order = Order(
    actorId: string, requestId: string, requiredProfile: Option<string>, requiredCapability: Option<string>,
    proposal: Auth.Proposal, caller: nat, answers: Auth.Answers, grantTerms: GrantTerms, consumeTerms: ConsumeTerms, leaseTerms: Terms)

  /** None of the calls is a step of this issuer; every issuer has its own number. */
  predicate Foreign(caller: nat, calls: seq<Call>) {
    forall c: Call | c in calls :: c.CallAuthority? ==> !Auth.ActsAs(c.action, caller)
  }

  lemma {:induction false} ForeignKeepsIssuer(h: Hashes, w: World, calls: seq<Call>, caller: nat)
    requires Foreign(caller, calls)
    ensures Auth.SameIssuer(w.authority, AfterAll(h, w, calls).authority, caller)
  {
    if calls != [] {
      var before, last := AfterAll(h, w, calls[..|calls| - 1]), calls[|calls| - 1];
      ForeignKeepsIssuer(h, w, calls[..|calls| - 1], caller);
      if last.CallAuthority? {
        Auth.OthersKeepIssuer(h.authority, before.authority, last.action, caller);
      } else {
        OthersLeaveAuthority(h, before, last);
      }
    }
  }

  /** The issuer of this order, if still at work, has made `made` reads for the snapshot. */
  ghost predicate IssuerAt(y: Auth.System, order: Order, n: Auth.Snapshot, made: nat) {
    order.caller in y.issuers ==>
      var i := y.issuers[order.caller];
      i.snapshot == n && i.answers == order.answers && Auth.ReadsMade(i.stage) == made
  }

  /** The grant is for the snapshot, with the times that the authorities allow. */
  predicate IssuedFor(order: Order, n: Auth.Snapshot, g: Auth.Grant) {
    g.snapshot == n && Auth.Allowed(order.answers) == Ok((g.issuedAt, g.expiresAt))
  }

  /** The next read of this issuer issues the grant. */
  ghost predicate IssuesIn(h: Hashes, w: World, caller: nat, g: Auth.Grant) {
    After(h, w, CallAuthority(Auth.Advance(caller))).authority.grants == w.authority.grants + [g]
  }

  /** After `before` a read of this issuer was the next call of the trace, and it issued the grant. */
  ghost predicate IssuedAfter(h: Hashes, w: World, before: seq<Call>, trace: seq<Call>, caller: nat, g: Auth.Grant) {
    before + [CallAuthority(Auth.Advance(caller))] <= trace && IssuesIn(h, AfterAll(h, w, before), caller, g)
  }

  ghost predicate IssuedBy(h: Hashes, w: World, trace: seq<Call>, caller: nat, g: Auth.Grant) {
    exists before :: IssuedAfter(h, w, before, trace, caller, g)
  }

  lemma IssuedEarlier(h: Hashes, w: World, trace: seq<Call>, more: seq<Call>, caller: nat, g: Auth.Grant)
    requires IssuedBy(h, w, trace, caller, g)
    ensures IssuedBy(h, w, trace + more, caller, g)
  {
    var before :| IssuedAfter(h, w, before, trace, caller, g);
    assert IssuedAfter(h, w, before, trace + more, caller, g);
  }

  lemma IssuedLater(h: Hashes, w: World, first: seq<Call>, start: World, trace: seq<Call>, caller: nat, g: Auth.Grant)
    requires start == AfterAll(h, w, first) && IssuedBy(h, start, trace, caller, g)
    ensures IssuedBy(h, w, first + trace, caller, g)
  {
    var before :| IssuedAfter(h, start, before, trace, caller, g);
    AfterAllConcat(h, w, first, before);
    LongerPrefix(first, before, CallAuthority(Auth.Advance(caller)), trace);
    assert IssuedAfter(h, w, first + before, first + trace, caller, g);
  }

  lemma LongerPrefix(first: seq<Call>, before: seq<Call>, c: Call, trace: seq<Call>)
    requires before + [c] <= trace
    ensures first + before + [c] <= first + trace
  {
    assert first + before + [c] == first + (before + [c]);
    assert (first + trace)[..|first + before| + 1] == first + trace[..|before| + 1];
  }

  lemma IssuedNow(h: Hashes, w: World, before: seq<Call>, caller: nat, g: Auth.Grant)
    requires IssuesIn(h, AfterAll(h, w, before), caller, g)
    ensures IssuedBy(h, w, before + [CallAuthority(Auth.Advance(caller))], caller, g)
  {
    assert IssuedAfter(h, w, before, before + [CallAuthority(Auth.Advance(caller))], caller, g);
  }

  /** The answer is a denial or what the order's own issuer issued for the snapshot during the run. */
  ghost predicate HasOwn(h: Hashes, w: World, trace: seq<Call>, order: Order, n: Auth.Snapshot, r: Result<Auth.Grant>) {
    r.Ok? ==> IssuedFor(order, n, r.value) && IssuedBy(h, w, trace, order.caller, r.value)
  }

  lemma HasOwnLonger(h: Hashes, w: World, trace: seq<Call>, start: World, more: seq<Call>, order: Order, n: Auth.Snapshot,
                     r: Result<Auth.Grant>, issued: Option<Auth.Grant>)
    requires start == AfterAll(h, w, trace) && HasOwn(h, w, trace, order, n, r)
    requires issued.Some? ==> IssuedFor(order, n, issued.value) && IssuedBy(h, start, more, order.caller, issued.value)
    ensures HasOwn(h, w, trace + more, order, n, if issued.Some? then Ok(issued.value) else r)
  {
    if issued.Some? {
      IssuedLater(h, w, trace, start, more, order.caller, issued.value);
    } else if r.Ok? {
      IssuedEarlier(h, w, trace, more, order.caller, r.value);
    }
  }

  /** The grant was made from what the order's own issuer issued for the snapshot during the run. */
  ghost predicate FromOwnIssuer(h: Hashes, w: World, trace: seq<Call>, order: Order, n: Auth.Snapshot, g: Grant) {
    exists i :: IssuedFor(order, n, i) && IssuedBy(h, w, trace, order.caller, i) && g == MakeGrant(h, i, order.grantTerms)
  }

  lemma FromOwnEarlier(h: Hashes, w: World, trace: seq<Call>, more: seq<Call>, order: Order, n: Auth.Snapshot, g: Grant)
    requires FromOwnIssuer(h, w, trace, order, n, g)
    ensures FromOwnIssuer(h, w, trace + more, order, n, g)
  {
    var i :| IssuedFor(order, n, i) && IssuedBy(h, w, trace, order.caller, i) && g == MakeGrant(h, i, order.grantTerms);
    IssuedEarlier(h, w, trace, more, order.caller, i);
  }

  lemma FromOwnLater(h: Hashes, w: World, before: seq<Call>, trace: seq<Call>, order: Order, n: Auth.Snapshot, g: Grant)
    requires FromOwnIssuer(h, AfterAll(h, w, before), trace, order, n, g)
    ensures FromOwnIssuer(h, w, before + trace, order, n, g)
  {
    var i :| IssuedFor(order, n, i) && IssuedBy(h, AfterAll(h, w, before), trace, order.caller, i) && g == MakeGrant(h, i, order.grantTerms);
    IssuedLater(h, w, before, AfterAll(h, w, before), trace, order.caller, i);
  }

  lemma CreatedIsStored(h: Hashes, w: World, p: Auth.Proposal)
    requires Auth.Create(h.authority, w.authority.state, p).Ok?
    ensures IsStored(After(h, w, CallAuthority(Auth.CreateSnapshot(p))), Auth.Create(h.authority, w.authority.state, p).value.1)
  {
    Auth.CreatedIsStored(h.authority, w.authority.state, p);
    Auth.NextState(h.authority, w.authority, Auth.CreateSnapshot(p));
    assert p.key in After(h, w, CallAuthority(Auth.CreateSnapshot(p))).authority.state.rows;
  }

  lemma StillStored(w: World, w': World, n: Auth.Snapshot)
    requires Grows(w, w') && IsStored(w, n)
    ensures IsStored(w', n)
  {
    var k :| k in w.authority.state.rows && w.authority.state.rows[k].snapshot == n;
    assert k in w'.authority.state.rows && w'.authority.state.rows[k].snapshot == n;
  }

  lemma StillGranted(w: World, w': World, g: Grant)
    requires Grows(w, w') && exists r :: r in w.grants && r.grant == g
    ensures exists r :: r in w'.grants && r.grant == g
  {
    var r :| r in w.grants && r.grant == g;
    assert r in w'.grants;
  }

  ghost function Then(h: Hashes, w: World, trace: seq<Call>, more: seq<Call>): (all: seq<Call>)
    ensures all == trace + more
    ensures AfterAll(h, w, all) == AfterAll(h, AfterAll(h, w, trace), more)
    ensures |more| == 1 ==> AfterAll(h, w, all) == After(h, AfterAll(h, w, trace), more[0])
  {
    AfterAllConcat(h, w, trace, more);
    assert |more| == 1 ==> more[..0] == [] && AfterAll(h, AfterAll(h, w, trace), []) == AfterAll(h, w, trace);
    trace + more
  }

  /** The preparation itself delivers valid envelopes only. */
  ghost predicate OnlyValid(h: Hashes, others: seq<seq<Call>>, trace: seq<Call>) {
    (forall i, c | 0 <= i < |others| && c in others[i] :: ValidCall(h, c)) ==> forall c | c in trace :: ValidCall(h, c)
  }

  lemma ValidLonger(h: Hashes, others: seq<seq<Call>>, i: nat, trace: seq<Call>, more: seq<Call>)
    requires i < |others| && OnlyValid(h, others, trace) && OnlyValid(h, [others[i]], more)
    ensures OnlyValid(h, others, trace + more)
  {
    if forall k, c | 0 <= k < |others| && c in others[k] :: ValidCall(h, c) {
      assert forall k, c | 0 <= k < 1 && c in [others[i]][k] :: ValidCall(h, c);
    }
  }

  lemma StillIssued(w: World, w': World, g: Auth.Grant)
    requires Grows(w, w') && g in w.authority.grants
    ensures g in w'.authority.grants
  {
  }

  lemma IssuedIsThere(h: Hashes, w: World, trace: seq<Call>, caller: nat, g: Auth.Grant)
    requires IssuedBy(h, w, trace, caller, g)
    ensures g in AfterAll(h, w, trace).authority.grants
  {
    var before :| IssuedAfter(h, w, before, trace, caller, g);
    var first := Then(h, w, before, [CallAuthority(Auth.Advance(caller))]);
    var all := Then(h, w, first, trace[|first|..]);
    assert all == trace;
    AfterAllGrows(h, AfterAll(h, w, first), trace[|first|..]);
    StillIssued(AfterAll(h, w, first), AfterAll(h, w, all), g);
  }

  class CanonicalOperationPipeline {
    const hashes: Hashes
    const cfg: Config
    const admissionRevision: string
    var world: World

    constructor (hashes: Hashes, cfg: Config, admissionRevision: string)
      ensures this.hashes == hashes && this.cfg == cfg && this.admissionRevision == admissionRevision
      ensures world == EMPTY
    {
      this.hashes := hashes;
      this.cfg := cfg;
      this.admissionRevision := admissionRevision;
      world := EMPTY;
    }

    /** Calls of other callers. */
    method Others(calls: seq<Call>)
      modifies this
      ensures world == AfterAll(hashes, old(world), calls) && Grows(old(world), world)
    {
      AfterAllGrows(hashes, world, calls);
      world := AfterAll(hashes, world, calls);
    }

    method Authorize(order: Order) returns (r: Result<(Auth.Snapshot, Profile)>)
      modifies this
      ensures world == After(hashes, old(world), CallAuthority(Auth.CreateSnapshot(order.proposal)))
      ensures r.Ok? ==> var (n, f) := r.value;
        && IsStored(world, n) && n.subject.requestId == order.requestId && n.subject.actorId == order.actorId
        && ResolveProfile(cfg, n.subject.capabilityIdentity, n.subject.capability) == Ok(f)
        && n.subject.capabilityIdentity in cfg.registry && cfg.registry[n.subject.capabilityIdentity] == f
        && f.capability == n.subject.capability
        && (order.requiredProfile.Some? ==> order.requiredProfile.value == f.terminalProfile)
        && (order.requiredCapability.Some? ==> order.requiredCapability.value == n.subject.capability)
    {
      var created := Auth.Create(hashes.authority, world.authority.state, order.proposal);
      ghost var before := world;
      world := world.(authority := Auth.Next(hashes.authority, world.authority, Auth.CreateSnapshot(order.proposal)));
      if created.Err? { return Err(created.reason); }
      CreatedIsStored(hashes, before, order.proposal);
      var n := created.value.1;
      if n.subject.requestId != order.requestId || n.subject.actorId != order.actorId { return Err("REQUEST_MISMATCH"); }
      var profile := ResolveProfile(cfg, n.subject.capabilityIdentity, n.subject.capability);
      if profile.Err? { return Err(profile.reason); }
      if order.requiredProfile.Some? && order.requiredProfile.value != profile.value.terminalProfile {
        return Err("REQUIRED_TERMINAL_PROFILE_MISMATCH");
      }
      if order.requiredCapability.Some? && order.requiredCapability.value != n.subject.capability {
        return Err("REQUIRED_CAPABILITY_MISMATCH");
      }
      return Ok((n, profile.value));
    }

    /** One read of the issuer, if it is still at work; a grant when this was the read that issues it. */
    method ReadOnce(order: Order, ghost n: Auth.Snapshot, ghost made: nat) returns (r: Option<Auth.Grant>)
      requires IssuerAt(world.authority, order, n, made)
      modifies this
      ensures world == After(hashes, old(world), CallAuthority(Auth.Advance(order.caller)))
      ensures IssuerAt(world.authority, order, n, made + 1)
      ensures r.Some? ==> IssuedFor(order, n, r.value) && IssuesIn(hashes, old(world), order.caller, r.value)
    {
      r := None;
      ghost var before := world.authority;
      if order.caller in world.authority.issuers {
        var move := Auth.Read(hashes.authority, world.authority.state, world.authority.issuers[order.caller]);
        if move.Issues? { r := Some(move.grant); }
        Auth.AdvanceMoves(hashes.authority, before, order.caller, Auth.Next(hashes.authority, before, Auth.Advance(order.caller)));
      }
      world := world.(authority := Auth.Next(hashes.authority, world.authority, Auth.Advance(order.caller)));
    }

    /** Others act, then the issuer reads once. */
    method ReadAmongOthers(order: Order, ghost n: Auth.Snapshot, others: seq<Call>, ghost made: nat)
      returns (r: Option<Auth.Grant>, ghost trace: seq<Call>)
      requires Foreign(order.caller, others) && IssuerAt(world.authority, order, n, made)
      modifies this
      ensures world == AfterAll(hashes, old(world), trace) && OnlyValid(hashes, [others], trace)
      ensures IssuerAt(world.authority, order, n, made + 1)
      ensures r.Some? ==> IssuedFor(order, n, r.value) && IssuedBy(hashes, old(world), trace, order.caller, r.value)
    {
      ghost var start, advance := world, CallAuthority(Auth.Advance(order.caller));
      Others(others);
      ForeignKeepsIssuer(hashes, start, others, order.caller);
      r := ReadOnce(order, n, made);
      trace := Then(hashes, start, others, [advance]);
      assert [others][0] == others;
      if r.Some? {
        IssuedNow(hashes, start, others, order.caller, r.value);
      }
    }

    /** The issuer begins and reads six times, others being at work before each read. It returns its own grant or denies. */
    method ReadAuthority(order: Order, n: Auth.Snapshot, others: seq<seq<Call>>) returns (r: Result<Auth.Grant>, ghost trace: seq<Call>)
      requires |others| == 6 && forall i | 0 <= i < 6 :: Foreign(order.caller, others[i])
      modifies this
      ensures world == AfterAll(hashes, old(world), trace) && OnlyValid(hashes, others, trace)
      ensures r.Ok? ==> order.caller !in world.authority.issuers && r.value in world.authority.grants
      ensures r.Ok? ==> IssuedFor(order, n, r.value) && IssuedBy(hashes, old(world), trace, order.caller, r.value)
    {
      r, trace := Err("GRANT_DENIED"), [];
      if !Auth.ValidSnapshot(hashes.authority, n) { return; }
      ghost var start := world;
      trace := Begin(order, n);
      for i := 0 to 6
        invariant world == AfterAll(hashes, start, trace) && OnlyValid(hashes, others, trace)
        invariant IssuerAt(world.authority, order, n, i) && HasOwn(hashes, start, trace, order, n, r)
      {
        var issued;
        ghost var more;
        ghost var before := world;
        issued, more := ReadAmongOthers(order, n, others[i], i);
        HasOwnLonger(hashes, start, trace, before, more, order, n, r, issued);
        if issued.Some? { r := Ok(issued.value); }
        ValidLonger(hashes, others, i, trace, more);
        trace := Then(hashes, start, trace, more);
      }
      if r.Ok? { IssuedIsThere(hashes, start, trace, order.caller, r.value); }
    }

    method Begin(order: Order, n: Auth.Snapshot) returns (ghost trace: seq<Call>)
      requires Auth.ValidSnapshot(hashes.authority, n)
      modifies this
      ensures world == AfterAll(hashes, old(world), trace) && (forall c | c in trace :: ValidCall(hashes, c))
      ensures IssuerAt(world.authority, order, n, 0)
    {
      ghost var start, begin := world, CallAuthority(Auth.BeginIssue(order.caller, n, order.answers));
      world := world.(authority := Auth.Next(hashes.authority, world.authority, Auth.BeginIssue(order.caller, n, order.answers)));
      assert IssuerAt(world.authority, order, n, 0);
      trace := Then(hashes, start, [], [begin]);
      assert trace == [begin];
    }

    /** The transaction that stores an issued grant if its authority is still live. */
    method StoreIssued(issued: Auth.Grant, terms: GrantTerms) returns (r: Result<Grant>)
      requires issued in world.authority.grants
      modifies this
      ensures world == After(hashes, old(world), CallIssue(issued, terms))
      ensures var g := MakeGrant(hashes, issued, terms);
        var usable := Usable(old(world), issued.snapshot.subject, issued.issuedAt, issued.expiresAt, issued.epoch, terms.clock, terms.permitted);
        && (r.Ok? <==> usable && Grantable(old(world).grants, g))
        && (r.Ok? ==> r.value == g && world == old(world).(grants := old(world).grants + [MakeGrantRow(hashes, issued, terms)]))
        && (r.Err? ==> world == old(world))
    {
      IssueIsExact(hashes, world, issued, terms);
      var stored := IssueAndStore(hashes, world, issued, terms);
      if stored.Err? { return Err(stored.reason); }
      world := stored.value.0;
      return Ok(stored.value.1);
    }

    /** Others act once more after the last read; then the issuer's own grant is stored, if it is still live. */
    method Store(order: Order, n: Auth.Snapshot, issued: Auth.Grant, others: seq<Call>) returns (r: Result<Grant>, ghost trace: seq<Call>)
      requires issued in world.authority.grants && IssuedFor(order, n, issued)
      modifies this
      ensures world == AfterAll(hashes, old(world), trace) && OnlyValid(hashes, [others], trace)
      ensures var w, g := AfterAll(hashes, old(world), others), MakeGrant(hashes, issued, order.grantTerms);
        var t := order.grantTerms;
        var usable := Usable(w, issued.snapshot.subject, issued.issuedAt, issued.expiresAt, issued.epoch, t.clock, t.permitted);
        r.Ok? <==> usable && Grantable(w.grants, g)
      ensures r.Ok? ==> r.value == MakeGrant(hashes, issued, order.grantTerms) && GrantAnswers(n, r.value)
      ensures r.Ok? ==> exists row :: row in world.grants && row.grant == r.value
    {
      ghost var start := world;
      Others(others);
      trace := Then(hashes, start, [], others);
      assert [others][0] == others;
      trace := Then(hashes, start, trace, [CallIssue(issued, order.grantTerms)]);
      r := StoreIssued(issued, order.grantTerms);
      assert r.Ok? ==> MakeGrantRow(hashes, issued, order.grantTerms) in world.grants;
    }

    method Enqueue(jti: string, terms: ConsumeTerms) returns (r: Result<Outbox>)
      modifies this
      ensures world == After(hashes, old(world), CallConsume(jti, terms)) && Grows(old(world), world)
      ensures r.Ok? ==> r.value in world.store.outboxes
      ensures forall row | OnlyRowFor(old(world).grants, jti, row) :: r.Ok? <==> Spendable(hashes, old(world), row.grant, terms)
    {
      AfterGrows(hashes, world, CallConsume(jti, terms));
      forall row | OnlyRowFor(world.grants, jti, row)
        ensures ConsumeAndEnqueue(hashes, world, jti, terms).Ok? <==> Spendable(hashes, world, row.grant, terms)
      {
        ConsumeIsExact(hashes, world, jti, terms, row);
      }
      var consumed := ConsumeAndEnqueue(hashes, world, jti, terms);
      if consumed.Err? { return Err(consumed.reason); }
      world := consumed.value.0;
      return Ok(consumed.value.1);
    }

    method Deliver(e: Envelope) returns (r: Result<Admission>)
      modifies this
      ensures world == After(hashes, old(world), CallAdmit(e, admissionRevision)) && Grows(old(world), world)
      ensures r.Ok? ==> r.value in world.store.inbox && AdmissionBinds(hashes.dispatch, r.value, e, e.body.entry)
    {
      AfterGrows(hashes, world, CallAdmit(e, admissionRevision));
      var admitted := AdmitEnvelope(hashes.dispatch, world, e, admissionRevision);
      if admitted.Err? { return Err(admitted.reason); }
      AdmitBinds(hashes.dispatch, world.store, e, admissionRevision);
      world := admitted.value.0;
      return Ok(admitted.value.1);
    }

    method Acquire(admissionId: string, terms: Terms) returns (r: Result<Lease>)
      modifies this
      ensures world == After(hashes, old(world), CallAcquire(admissionId, terms)) && Grows(old(world), world)
      ensures r.Ok? ==> LeaseRow(r.value, terms.clock) in world.leases.rows && r.value.body.admissionId == admissionId
    {
      AfterGrows(hashes, world, CallAcquire(admissionId, terms));
      var acquired := AcquireLease(hashes.dispatch, world, admissionId, terms);
      if acquired.Err? { return Err(acquired.reason); }
      AcquireAnswers(hashes.dispatch, world, admissionId, terms);
      world := acquired.value.0;
      return Ok(acquired.value.1);
    }

    /** The issuance and the stored grant. */
    method StoreOwn(order: Order, n: Auth.Snapshot, others: seq<seq<Call>>) returns (r: Result<Grant>, ghost trace: seq<Call>)
      requires |others| == 7 && forall i | 0 <= i < 7 :: Foreign(order.caller, others[i])
      modifies this
      ensures world == AfterAll(hashes, old(world), trace) && OnlyValid(hashes, others, trace)
      ensures r.Ok? ==> GrantAnswers(n, r.value) && FromOwnIssuer(hashes, old(world), trace, order, n, r.value)
      ensures r.Ok? ==> exists row :: row in world.grants && row.grant == r.value
    {
      ghost var start := world;
      var issued;
      issued, trace := ReadAuthority(order, n, others[..6]);
      if issued.Err? { return Err(issued.reason), trace; }
      ghost var more;
      r, more := Store(order, n, issued.value, others[6]);
      ValidLonger(hashes, others, 6, trace, more);
      IssuedEarlier(hashes, start, trace, more, order.caller, issued.value);
      trace := Then(hashes, start, trace, more);
    }

    /** The snapshot and its grant. */
    method PrepareGrant(order: Order, others: seq<seq<Call>>)
      returns (r: Result<(Auth.Snapshot, Profile, Grant)>, ghost trace: seq<Call>)
      requires |others| == 7 && forall i | 0 <= i < 7 :: Foreign(order.caller, others[i])
      modifies this
      ensures world == AfterAll(hashes, old(world), trace) && OnlyValid(hashes, others, trace)
      ensures r.Ok? ==> var (n, f, g) := r.value;
        && ResolveProfile(cfg, n.subject.capabilityIdentity, n.subject.capability) == Ok(f)
        && n.subject.requestId == order.requestId && n.subject.actorId == order.actorId
        && IsStored(world, n) && GrantAnswers(n, g) && (exists row :: row in world.grants && row.grant == g)
        && FromOwnIssuer(hashes, old(world), trace, order, n, g)
    {
      ghost var start, create := world, CallAuthority(Auth.CreateSnapshot(order.proposal));
      var authorized := Authorize(order);
      trace := Then(hashes, start, [], [create]);
      if authorized.Err? { return Err(authorized.reason), trace; }
      var (n, profile) := authorized.value;
      ghost var w1 := world;
      var stored;
      ghost var more;
      stored, more := StoreOwn(order, n, others);
      AfterAllGrows(hashes, w1, more);
      if stored.Ok? { FromOwnLater(hashes, start, trace, more, order, n, stored.value); }
      trace := Then(hashes, start, trace, more);
      if stored.Err? { return Err(stored.reason), trace; }
      StillStored(w1, world, n);
      return Ok((n, profile, stored.value)), trace;
    }

    /** The outbox entry, its admission and its lease. */
    method PrepareLease(order: Order, g: Grant, others: seq<seq<Call>>)
      returns (r: Result<(Outbox, Admission, Lease)>, ghost trace: seq<Call>)
      requires |others| == 3
      modifies this
      ensures world == AfterAll(hashes, old(world), trace) && OnlyValid(hashes, others, trace)
      ensures r.Ok? ==> var (o, a, l) := r.value;
        var e := MakeEnvelope(hashes.dispatch, o, cfg.envelopeRevision);
        && o in world.store.outboxes && OutboxAnswers(g, o)
        && a in world.store.inbox && a.body.envelopeDigest == e.digest && AdmissionAnswers(e, a)
        && (exists row :: row in world.leases.rows && row.lease == l) && LeaseAnswers(e, a, l)
    {
      ghost var start := world;
      Others(others[0]);
      trace := Then(hashes, start, [], others[0]);
      var enqueued := Enqueue(g.ticket.jti, order.consumeTerms);
      trace := Then(hashes, start, trace, [CallConsume(g.ticket.jti, order.consumeTerms)]);
      if enqueued.Err? { return Err(enqueued.reason), trace; }
      var o := enqueued.value;
      if !OutboxAnswers(g, o) { return Err("OUTBOX_MISMATCH"), trace; }
      ghost var w1 := world;
      Others(others[1]);
      trace := Then(hashes, start, trace, others[1]);
      ghost var w2 := world;
      var e := MakeEnvelope(hashes.dispatch, o, cfg.envelopeRevision);
      var delivered := Deliver(e);
      trace := Then(hashes, start, trace, [CallAdmit(e, admissionRevision)]);
      if delivered.Err? { return Err(delivered.reason), trace; }
      var a := delivered.value;
      if !AdmissionAnswers(e, a) { return Err("ADMISSION_MISMATCH"), trace; }
      ghost var w3 := world;
      Others(others[2]);
      trace := Then(hashes, start, trace, others[2]);
      ghost var w4 := world;
      var leased := Acquire(a.body.id, order.leaseTerms);
      trace := Then(hashes, start, trace, [CallAcquire(a.body.id, order.leaseTerms)]);
      if leased.Err? { return Err(leased.reason), trace; }
      if !LeaseAnswers(e, a, leased.value) { return Err("LEASE_MISMATCH"), trace; }
      Chain(w1, w2, w3, w4, world, o, a);
      return Ok((o, a, leased.value)), trace;
    }

    /**
     Drives the services in order, others being at work between its calls; refuses on any
     disagreement. `trace` is everything that was called, by the preparation and by others.
     */
    method Prepare(order: Order, others: seq<seq<Call>>) returns (r: Result<(Prepared, Parts)>, ghost trace: seq<Call>)
      requires |others| == 10 && forall i | 0 <= i < 7 :: Foreign(order.caller, others[i])
      modifies this
      ensures world == AfterAll(hashes, old(world), trace) && OnlyValid(hashes, others, trace)
      ensures r.Ok? ==> WasPrepared(hashes.dispatch, cfg, world, r.value.1, r.value.0)
      ensures r.Ok? ==> r.value.1.snapshot.subject.requestId == order.requestId && r.value.1.snapshot.subject.actorId == order.actorId
      ensures r.Ok? ==> FromOwnIssuer(hashes, old(world), trace, order, r.value.1.snapshot, r.value.1.grant)
    {
      ghost var start := world;
      var granted;
      granted, trace := PrepareGrant(order, others[..7]);
      if granted.Err? { return Err(granted.reason), trace; }
      var (n, profile, grant) := granted.value;
      ghost var w1 := world;
      var leased;
      ghost var more;
      leased, more := PrepareLease(order, grant, others[7..]);
      AfterAllGrows(hashes, w1, more);
      FromOwnEarlier(hashes, start, trace, more, order, n, grant);
      trace := Then(hashes, start, trace, more);
      if leased.Err? { return Err(leased.reason), trace; }
      var (o, a, l) := leased.value;
      var parts := Parts(n, grant, o, MakeEnvelope(hashes.dispatch, o, cfg.envelopeRevision), a, l);
      StillStored(w1, world, n);
      StillGranted(w1, world, grant);
      return Ok((PreparedSummary(profile, parts), parts)), trace;
    }
  }

  lemma Chain(w1: World, w2: World, w3: World, w4: World, w5: World, o: Outbox, a: Admission)
    requires Grows(w1, w2) && Grows(w2, w3) && Grows(w3, w4) && Grows(w4, w5) && o in w1.store.outboxes && a in w3.store.inbox
    ensures o in w5.store.outboxes && a in w5.store.inbox
  {
    assert o in w2.store.outboxes && o in w3.store.outboxes && o in w4.store.outboxes && a in w4.store.inbox;
  }
}

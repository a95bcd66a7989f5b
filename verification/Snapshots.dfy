/**
 Authorization snapshots and the grants issued from them. A snapshot is stored once per idempotency
 key, with one audit row that records the revocation epoch it was made under. A grant is issued only
 while the live epoch is still the recorded one; every read of the issuer is a step of its own.
 */
module Snapshots {
  import opened Wrappers
  import opened DispatchContracts
  import AuditLedger

  /** What a revocation applies to. */
  datatype Scope = Scope(workspaceId: string, environment: string, capabilityIdentity: string)

  /**
   An authorization snapshot; its subject carries the snapshot's own digest, and `rest` stands for
   claims that no other rule reads.
   */
  datatype Snapshot = Snapshot(
    id: string, subject: Subject, policy: Policy, reviewDigest: string, sourceRevision: string, rest: string, authorizedAt: int)

  function ScopeOf(n: Snapshot): Scope {
    Scope(n.subject.workspaceId, n.subject.environment, n.subject.capabilityIdentity)
  }

  datatype Row = Row(snapshot: Snapshot, bindingDigest: string)

  datatype Payload = Payload(
    correlationId: string, snapshotDigest: string, witnessSetDigest: string, policyIdentity: string,
    capabilityIdentity: string, epoch: int, sourceRevision: string)

  datatype Event =
    | SnapshotCreated(actorId: string, snapshotId: string, snapshotDigest: string)
    | AuthorityWitness(actorId: string, snapshotId: string, payload: Payload)
    | OtherEvent(text: string)

  type Entry = AuditLedger.Row<Event>

  datatype Request = Request(approved: bool, workspaceId: string, environment: string, reviewDigest: string)

  datatype State = State(
    requests: map<string, Request>, rows: map<string, Row>, log: seq<Entry>, epochs: map<Scope, nat>, stopped: bool)

  /** The digest functions: of a snapshot, of its idempotency claims, and of an audit event in its chain. */
  datatype Digests = Digests(snapshot: Snapshot -> string, claims: Snapshot -> string, chain: (string, Event) -> string) {
    /** Two attempts with the same key may differ in generated ids and in time, and in nothing else. */
    function Binding(n: Snapshot): string {
      claims(n.(id := "", subject := n.subject.(executionId := "", snapshotDigest := ""), authorizedAt := 0))
    }
  }

  /** The claims that the snapshot's own digest covers. */
  function Bare(n: Snapshot): Snapshot { n.(subject := n.subject.(snapshotDigest := "")) }

  /** What the constructor of a snapshot enforces. */
  predicate ValidSnapshot(d: Digests, n: Snapshot) { n.subject.snapshotDigest == d.snapshot(Bare(n)) }

  function Epoch(s: State, scope: Scope): nat { if scope in s.epochs then s.epochs[scope] else 0 }

  // ---- The audit log ----

  function Append(d: Digests, log: seq<Entry>, e: Event): seq<Entry> {
    log + [AuditLedger.Row(e, AuditLedger.Head(log), d.chain(AuditLedger.Head(log), e))]
  }

  /** The authority-witness entries about one snapshot. */
  function Witnesses(log: seq<Entry>, id: string): seq<Entry> {
    if log == [] then []
    else
      var last := log[|log| - 1];
      Witnesses(log[..|log| - 1], id) + if last.event.AuthorityWitness? && last.event.snapshotId == id then [last] else []
  }

  // ---- Creation ----

  /** What the authorities resolved for one call. The epoch is read inside the transaction. */
  datatype Proposal = Proposal(key: string, snapshot: Snapshot, witnessSetDigest: string, correlationId: string)

  predicate Requested(s: State, p: Proposal) {
    p.snapshot.subject.requestId in s.requests && s.requests[p.snapshot.subject.requestId].approved
  }

  predicate RequestBound(s: State, p: Proposal) {
    && Requested(s, p)
    && var r := s.requests[p.snapshot.subject.requestId];
    && r.workspaceId == p.snapshot.subject.workspaceId && r.environment == p.snapshot.subject.environment
    && r.reviewDigest == p.snapshot.reviewDigest
  }

  predicate Unused(d: Digests, rows: map<string, Row>, n: Snapshot) {
    forall k | k in rows ::
      && rows[k].snapshot.id != n.id && rows[k].snapshot.subject.executionId != n.subject.executionId
      && rows[k].snapshot.subject.snapshotDigest != n.subject.snapshotDigest
  }

  function WitnessOf(d: Digests, s: State, p: Proposal): Event {
    var n := p.snapshot;
    AuthorityWitness(n.subject.actorId, n.id,
      Payload(p.correlationId, n.subject.snapshotDigest, p.witnessSetDigest, n.policy.identity, n.subject.capabilityIdentity,
              Epoch(s, ScopeOf(n)), n.sourceRevision))
  }

  function Inserted(d: Digests, s: State, p: Proposal): State {
    var n := p.snapshot;
    var log := Append(d, s.log, SnapshotCreated(n.subject.actorId, n.id, n.subject.snapshotDigest));
    s.(rows := s.rows[p.key := Row(n, d.Binding(n))], log := Append(d, log, WitnessOf(d, s, p)))
  }

  /** One transaction: the stored snapshot of the key, or a new one with its two audit rows. */
  function Create(d: Digests, s: State, p: Proposal): Result<(State, Snapshot)> {
    if !ValidSnapshot(d, p.snapshot) then Err("snapshot_digest does not match authorization snapshot")
    else if !Requested(s, p) then Err("CHANGE_REQUEST_NOT_APPROVED")
    else if s.stopped then Err("EMERGENCY_STOP_ACTIVE")
    else if p.key in s.rows then
      if s.rows[p.key].bindingDigest != d.Binding(p.snapshot)
      then Err("idempotency key is bound to different authorization inputs")
      else Ok((s, s.rows[p.key].snapshot))
    else if !RequestBound(s, p) then Err("change request snapshot bindings mismatch")
    else if !Unused(d, s.rows, p.snapshot) then Err("authorization snapshot immutable identity conflicts")
    else Ok((Inserted(d, s, p), p.snapshot))
  }

  /** All that a second call with the same key must repeat: everything but generated ids, digest and time. */
  ghost predicate SameInputs(a: Snapshot, b: Snapshot) {
    && a.subject.requestId == b.subject.requestId && a.subject.actorId == b.subject.actorId
    && a.subject.workspaceId == b.subject.workspaceId && a.subject.environment == b.subject.environment
    && a.subject.capability == b.subject.capability && a.subject.capabilityIdentity == b.subject.capabilityIdentity
    && a.subject.targetKind == b.subject.targetKind && a.subject.targetDigest == b.subject.targetDigest
    && a.subject.payloadDigest == b.subject.payloadDigest && a.policy == b.policy
    && a.reviewDigest == b.reviewDigest && a.sourceRevision == b.sourceRevision && a.rest == b.rest
  }

  /** The claims that the idempotency digest covers. */
  function Repeated(n: Snapshot): Snapshot {
    n.(id := "", subject := n.subject.(executionId := "", snapshotDigest := ""), authorizedAt := 0)
  }

  lemma SameInputsRepeat(d: Digests, a: Snapshot, b: Snapshot)
    requires d.claims(Repeated(a)) == d.claims(Repeated(b)) ==> Repeated(a) == Repeated(b)
    ensures d.Binding(a) == d.Binding(b) <==> SameInputs(a, b)
  {
    assert SameInputs(a, b) <==> Repeated(a) == Repeated(b);
  }

  /** The change request of the snapshot is stored, approved, and for the same place and content. */
  ghost predicate ApprovedFor(requests: map<string, Request>, n: Snapshot) {
    n.subject.requestId in requests
      && requests[n.subject.requestId] == Request(true, n.subject.workspaceId, n.subject.environment, n.reviewDigest)
  }

  /**
   Exactly when a snapshot is created: its digest is its own, its change request is approved and no stop
   is active; with a new key the request is for the same workspace, environment and content and the
   snapshot's id, execution and digest are unused, with a known key the inputs are bound as before.
   */
  lemma CreateIsExact(d: Digests, s: State, p: Proposal)
    ensures var n := p.snapshot;
      Create(d, s, p).Ok? <==>
        && n.subject.snapshotDigest == d.snapshot(n.(subject := n.subject.(snapshotDigest := ""))) && !s.stopped
        && n.subject.requestId in s.requests && s.requests[n.subject.requestId].approved
        && if p.key in s.rows then s.rows[p.key].bindingDigest == d.claims(Repeated(n))
           else
             && ApprovedFor(s.requests, n)
             && forall k | k in s.rows :: s.rows[k].snapshot.id != n.id && s.rows[k].snapshot.subject.executionId != n.subject.executionId
                  && s.rows[k].snapshot.subject.snapshotDigest != n.subject.snapshotDigest
    ensures Create(d, s, p).Ok? && p.key in s.rows ==> Create(d, s, p).value == (s, s.rows[p.key].snapshot)
    ensures Create(d, s, p).Ok? && p.key !in s.rows ==>
      var s' := Create(d, s, p).value.0;
      && Create(d, s, p).value.1 == p.snapshot && s' == s.(rows := s.rows[p.key := Row(p.snapshot, d.claims(Repeated(p.snapshot)))], log := s'.log)
      && |s'.log| == |s.log| + 2 && s'.log[..|s.log|] == s.log
      && s'.log[|s.log|].event == SnapshotCreated(p.snapshot.subject.actorId, p.snapshot.id, p.snapshot.subject.snapshotDigest)
      && s'.log[|s.log| + 1].event.AuthorityWitness? && s'.log[|s.log| + 1].event.payload.epoch == Epoch(s, ScopeOf(p.snapshot))
      && s'.log[|s.log| + 1].event.payload.witnessSetDigest == p.witnessSetDigest
  {
  }

  /** With a stored key a call succeeds exactly when it repeats the stored inputs. */
  lemma KnownKeyIsExact(d: Digests, s: State, p: Proposal, n: Snapshot)
    requires p.key in s.rows && s.rows[p.key] == Row(n, d.Binding(n))
    requires d.claims(Repeated(n)) == d.claims(Repeated(p.snapshot)) ==> Repeated(n) == Repeated(p.snapshot)
    ensures Create(d, s, p).Ok? <==>
      && ValidSnapshot(d, p.snapshot) && !s.stopped && SameInputs(n, p.snapshot)
      && p.snapshot.subject.requestId in s.requests && s.requests[p.snapshot.subject.requestId].approved
  {
    SameInputsRepeat(d, n, p.snapshot);
    CreateIsExact(d, s, p);
  }

  // ---- The evidence loader ----

  datatype Evidence = Evidence(snapshotId: string, snapshotDigest: string, witnessSetDigest: string, epoch: int, eventHash: string)

  /** The entry speaks about this very snapshot. */
  predicate Binds(n: Snapshot, e: Event) {
    && e.AuthorityWitness? && e.actorId == n.subject.actorId && e.snapshotId == n.id
    && e.payload.snapshotDigest == n.subject.snapshotDigest && e.payload.policyIdentity == n.policy.identity
    && e.payload.capabilityIdentity == n.subject.capabilityIdentity && e.payload.sourceRevision == n.sourceRevision
  }

  function Load(d: Digests, s: State, n: Snapshot): Result<Evidence> {
    var found := Witnesses(s.log, n.id);
    if |found| != 1 then Err("SNAPSHOT_AUTHORITY_EVIDENCE_AMBIGUOUS") else
    var entry := found[0];
    if d.chain(entry.previousHash, entry.event) != entry.eventHash then Err("SNAPSHOT_AUTHORITY_EVENT_HASH_INVALID")
    else if !Binds(n, entry.event) then Err("SNAPSHOT_AUTHORITY_EVIDENCE_BINDING_MISMATCH")
    else if entry.event.payload.epoch < 0 then Err("SNAPSHOT_REVOCATION_EPOCH_INVALID")
    else Ok(Evidence(n.id, n.subject.snapshotDigest, entry.event.payload.witnessSetDigest, entry.event.payload.epoch, entry.eventHash))
  }

  predicate IsWitness(e: Entry, id: string) { e.event.AuthorityWitness? && e.event.snapshotId == id }

  /** The `i`-th entry of the log is the only authority witness about the snapshot. */
  ghost predicate OnlyWitness(log: seq<Entry>, id: string, i: int) {
    0 <= i < |log| && forall j | 0 <= j < |log| :: IsWitness(log[j], id) <==> j == i
  }

  lemma {:induction false} NoWitness(log: seq<Entry>, id: string)
    ensures Witnesses(log, id) == [] <==> forall j | 0 <= j < |log| :: !IsWitness(log[j], id)
  {
    if log != [] {
      var init := log[..|log| - 1];
      NoWitness(init, id);
      assert forall j | 0 <= j < |init| :: init[j] == log[j];
    }
  }

  lemma {:induction false} OneWitness(log: seq<Entry>, id: string) returns (i: int)
    ensures |Witnesses(log, id)| == 1 ==> OnlyWitness(log, id, i) && Witnesses(log, id)[0] == log[i]
    ensures |Witnesses(log, id)| != 1 ==> forall k :: !OnlyWitness(log, id, k)
  {
    i := 0;
    if log != [] {
      var n := |log| - 1;
      var init := log[..n];
      assert forall j | 0 <= j < n :: init[j] == log[j];
      NoWitness(init, id);
      i := OneWitness(init, id);
      if IsWitness(log[n], id) {
        if Witnesses(init, id) == [] {
          i := n;
        } else {
          var j :| 0 <= j < n && IsWitness(init[j], id);
          assert forall k :: !OnlyWitness(log, id, k) by {
            assert IsWitness(log[j], id) && j != n;
          }
        }
      } else if |Witnesses(init, id)| != 1 {
        forall k ensures !OnlyWitness(log, id, k) {
          assert OnlyWitness(log, id, k) ==> OnlyWitness(init, id, k);
        }
      }
    }
  }

  /** The entry is whole, says that this snapshot was made under this authority, and names an epoch. */
  ghost predicate Attests(d: Digests, e: Entry, n: Snapshot) {
    && e.eventHash == d.chain(e.previousHash, e.event)
    && e.event.AuthorityWitness? && e.event.actorId == n.subject.actorId && e.event.snapshotId == n.id
    && var p := e.event.payload;
    && p.snapshotDigest == n.subject.snapshotDigest && p.policyIdentity == n.policy.identity
    && p.capabilityIdentity == n.subject.capabilityIdentity && p.sourceRevision == n.sourceRevision && p.epoch >= 0
  }

  /** On any log, forged or not: evidence is loaded exactly when one entry alone speaks of the snapshot and attests it. */
  lemma LoadIsExact(d: Digests, s: State, n: Snapshot)
    ensures Load(d, s, n).Ok? <==> exists i :: OnlyWitness(s.log, n.id, i) && Attests(d, s.log[i], n)
    ensures Load(d, s, n).Ok? ==> forall i | OnlyWitness(s.log, n.id, i) ::
      var p := s.log[i].event.payload;
      Load(d, s, n).value == Evidence(n.id, n.subject.snapshotDigest, p.witnessSetDigest, p.epoch, s.log[i].eventHash)
  {
    var i := OneWitness(s.log, n.id);
    assert forall j, k | OnlyWitness(s.log, n.id, j) && OnlyWitness(s.log, n.id, k) :: j == k;
  }

  // ---- The validity of a grant ----

  const MAX_GRANT_TTL := 300_000
  const MAX_PRECONDITION_AGE := 30_000

  /** Times in milliseconds; `ttl` is the configured life of a grant. */
  function ResolveValidity(issued: int, checked: int, start: int, end: int, ttl: nat): Result<(int, int)> {
    if issued < checked then Err("ISSUANCE_PRECEDES_PRECONDITION")
    else if issued - checked > MAX_PRECONDITION_AGE then Err("PRECONDITION_WITNESS_STALE")
    else if issued < start || issued >= end then Err("AUTHORITY_NOT_VALID_AT_ISSUANCE")
    else
      var expiry := if issued + ttl <= end then issued + ttl else end;
      if expiry <= issued then Err("AUTHORITY_EXPIRES_BEFORE_GRANT") else Ok((issued, expiry))
  }

  /** What the constructor of a grant demands of its times. */
  predicate GrantTimes(checked: int, issued: int, expires: int) {
    && checked <= issued < expires && expires - issued <= MAX_GRANT_TTL && issued - checked <= MAX_PRECONDITION_AGE
  }

  /** Resolved times are exactly the longest life that the authority, the configuration and the grant allow. */
  lemma ValidityFitsGrant(issued: int, checked: int, start: int, end: int, ttl: nat)
    requires 1_000 <= ttl <= MAX_GRANT_TTL
    ensures var r := ResolveValidity(issued, checked, start, end, ttl);
      && (r.Ok? <==> start <= issued < end && checked <= issued <= checked + MAX_PRECONDITION_AGE)
      && (r.Ok? ==>
            && r.value.0 == issued && issued < r.value.1 && r.value.1 - issued <= 300_000 && r.value.1 <= end
            && forall e | GrantTimes(checked, issued, e) && e <= end && e <= issued + ttl :: e <= r.value.1)
  {
  }

  // ---- Interleaved runs ----

  /** The reads of one issuance, in order; between the two epochs the other authorities are consulted. */
  datatype Stage = CheckStop | LoadEvidence | ReadEpoch | Consult | CheckStopAgain | ReadEpochAgain

  /**
   What the other authorities will answer: whether the child authority is within its parent, whether
   the execution binding matches, when the precondition was checked if it was met, and the times.
   */
  datatype Answers = Answers(narrower: bool, bound: bool, checkedAt: Option<int>, issuedAt: int, validFrom: int, validUntil: int, ttl: nat)

  /** The times of the grant, if the authorities allow one. */
  function Allowed(q: Answers): Result<(int, int)> {
    if !q.bound then Err("EXECUTION_BINDING_DENIED")
    else if q.checkedAt.None? then Err("PRECONDITION_DENIED")
    else ResolveValidity(q.issuedAt, q.checkedAt.value, q.validFrom, q.validUntil, q.ttl)
  }

  datatype Issuer = Issuer(snapshot: Snapshot, answers: Answers, stage: Stage, evidence: Option<Evidence>)

  datatype Grant = Grant(snapshot: Snapshot, epoch: nat, evidence: Evidence, issuedAt: int, expiresAt: int)

  datatype System = System(state: State, issuers: map<nat, Issuer>, grants: seq<Grant>)

  datatype Action =
    | CreateSnapshot(proposal: Proposal)
    | Revoke(scope: Scope, steps: nat)
    | SetStop(stopped: bool)
    | SetRequest(id: string, request: Request)
    | Audit(text: string)
    | BeginIssue(caller: nat, snapshot: Snapshot, answers: Answers)
    | Advance(caller: nat)

  /** One read of an issuer: it goes on, is denied, or issues. */
  datatype Move = Goes(issuer: Issuer) | Denied | Issues(grant: Grant)

  function Read(d: Digests, s: State, i: Issuer): Move {
    match i.stage
    case CheckStop => if !i.answers.narrower || s.stopped then Denied else Goes(i.(stage := LoadEvidence))
    case LoadEvidence =>
      var e := Load(d, s, i.snapshot);
      if e.Ok? then Goes(i.(stage := ReadEpoch, evidence := Some(e.value))) else Denied
    case ReadEpoch =>
      if i.evidence.Some? && Epoch(s, ScopeOf(i.snapshot)) == i.evidence.value.epoch
      then Goes(i.(stage := Consult)) else Denied
    case Consult => if Allowed(i.answers).Ok? then Goes(i.(stage := CheckStopAgain)) else Denied
    case CheckStopAgain => if s.stopped then Denied else Goes(i.(stage := ReadEpochAgain))
    case ReadEpochAgain =>
      var live, times := Epoch(s, ScopeOf(i.snapshot)), Allowed(i.answers);
      if i.evidence.Some? && live == i.evidence.value.epoch && times.Ok?
      then Issues(Grant(i.snapshot, live, i.evidence.value, times.value.0, times.value.1)) else Denied
  }

  /** The tables and the log after an action. */
  function Effect(d: Digests, s: State, a: Action): State {
    match a
    case CreateSnapshot(p) => var r := Create(d, s, p); if r.Ok? then r.value.0 else s
    case Revoke(scope, steps) => s.(epochs := s.epochs[scope := Epoch(s, scope) + steps])
    case SetStop(stopped) => s.(stopped := stopped)
    case SetRequest(id, r) => s.(requests := s.requests[id := r])
    case Audit(text) => s.(log := Append(d, s.log, OtherEvent(text)))
    case _ => s
  }

  function Next(d: Digests, y: System, a: Action): System {
    var s := Effect(d, y.state, a);
    match a
    case BeginIssue(c, n, q) =>
      if ValidSnapshot(d, n) then System(s, y.issuers[c := Issuer(n, q, CheckStop, None)], y.grants) else y
    case Advance(c) =>
      if c !in y.issuers then y else
      (match Read(d, s, y.issuers[c])
       case Goes(i) => System(s, y.issuers[c := i], y.grants)
       case Denied => System(s, y.issuers - {c}, y.grants)
       case Issues(g) => System(s, y.issuers - {c}, y.grants + [g]))
    case _ => y.(state := s)
  }

  const EMPTY := State(map[], map[], [], map[], false)

  function Run(d: Digests, actions: seq<Action>): System {
    if actions == [] then System(EMPTY, map[], [])
    else Next(d, Run(d, actions[..|actions| - 1]), actions[|actions| - 1])
  }

  // ---- What every reachable state satisfies ----

  /** Exactly one witness entry about the stored snapshot, and it is the right one. */
  ghost predicate Witnessed(d: Digests, s: State, row: Row) {
    var found := Witnesses(s.log, row.snapshot.id);
    && |found| == 1 && found[0].eventHash == d.chain(found[0].previousHash, found[0].event)
    && Binds(row.snapshot, found[0].event)
    && 0 <= found[0].event.payload.epoch <= Epoch(s, ScopeOf(row.snapshot))
    && row.bindingDigest == d.Binding(row.snapshot) && ValidSnapshot(d, row.snapshot)
  }

  ghost predicate IsStored(s: State, id: string) { exists k :: k in s.rows && s.rows[k].snapshot.id == id }

  ghost predicate Sound(d: Digests, s: State) {
    && (forall k | k in s.rows :: Witnessed(d, s, s.rows[k]))
    && IdsAreDistinct(s.rows)
    && (forall id :: Witnesses(s.log, id) != [] ==> IsStored(s, id))
  }

  lemma WitnessesOfOneMore(d: Digests, log: seq<Entry>, e: Event, id: string)
    ensures var entry := AuditLedger.Row(e, AuditLedger.Head(log), d.chain(AuditLedger.Head(log), e));
      Witnesses(Append(d, log, e), id) ==
        Witnesses(log, id) + if e.AuthorityWitness? && e.snapshotId == id then [entry] else []
  {
    assert Append(d, log, e)[..|log|] == log;
  }

  /** An insertion adds one witness entry, about the new snapshot only. */
  lemma InsertedWitness(d: Digests, s: State, p: Proposal, id: string)
    ensures var found, before := Witnesses(Inserted(d, s, p).log, id), Witnesses(s.log, id);
      if id == p.snapshot.id then
        && |found| == |before| + 1 && found[|before|].event == WitnessOf(d, s, p)
        && found[|before|].eventHash == d.chain(found[|before|].previousHash, found[|before|].event)
      else found == before
  {
    var n := p.snapshot;
    var created := SnapshotCreated(n.subject.actorId, n.id, n.subject.snapshotDigest);
    WitnessesOfOneMore(d, s.log, created, id);
    WitnessesOfOneMore(d, Append(d, s.log, created), WitnessOf(d, s, p), id);
  }

  lemma InsertedIsWitnessed(d: Digests, s: State, p: Proposal, s': State)
    requires Witnesses(s.log, p.snapshot.id) == [] && s' == Inserted(d, s, p) && ValidSnapshot(d, p.snapshot)
    ensures Witnessed(d, s', s'.rows[p.key])
  {
    InsertedWitness(d, s, p, p.snapshot.id);
  }

  lemma OthersStayWitnessed(d: Digests, s: State, p: Proposal, s': State, row: Row)
    requires Witnessed(d, s, row) && row.snapshot.id != p.snapshot.id && s' == Inserted(d, s, p)
    ensures Witnessed(d, s', row)
  {
    InsertedWitness(d, s, p, row.snapshot.id);
  }

  lemma WitnessesStayStored(d: Digests, s: State, p: Proposal, s': State, id: string)
    requires (Witnesses(s.log, id) != [] ==> IsStored(s, id)) && p.key !in s.rows && s' == Inserted(d, s, p)
    requires Witnesses(s'.log, id) != []
    ensures IsStored(s', id)
  {
    InsertedWitness(d, s, p, id);
    if id != p.snapshot.id {
      var k :| k in s.rows && s.rows[k].snapshot.id == id;
      assert k in s'.rows && s'.rows[k].snapshot.id == id;
    } else {
      assert p.key in s'.rows && s'.rows[p.key].snapshot.id == id;
    }
  }

  ghost predicate IdsAreDistinct(rows: map<string, Row>) {
    forall k, k' | k in rows && k' in rows && rows[k].snapshot.id == rows[k'].snapshot.id :: k == k'
  }

  lemma InsertedIdIsDistinct(d: Digests, rows: map<string, Row>, key: string, row: Row)
    requires IdsAreDistinct(rows) && Unused(d, rows, row.snapshot)
    ensures IdsAreDistinct(rows[key := row])
  {
  }

  lemma InsertKeepsSound(d: Digests, s: State, p: Proposal, s': State)
    requires Sound(d, s) && p.key !in s.rows && Unused(d, s.rows, p.snapshot) && s' == Inserted(d, s, p)
    requires ValidSnapshot(d, p.snapshot)
    ensures Sound(d, s')
  {
    assert !IsStored(s, p.snapshot.id);
    assert Witnesses(s.log, p.snapshot.id) == [];
    forall k | k in s'.rows ensures Witnessed(d, s', s'.rows[k]) {
      if k == p.key {
        InsertedIsWitnessed(d, s, p, s');
      } else {
        assert Witnessed(d, s, s.rows[k]);
        OthersStayWitnessed(d, s, p, s', s.rows[k]);
      }
    }
    forall id | Witnesses(s'.log, id) != [] ensures IsStored(s', id) {
      WitnessesStayStored(d, s, p, s', id);
    }
    InsertedIdIsDistinct(d, s.rows, p.key, s'.rows[p.key]);
  }

  /** Anything but an insertion leaves rows and witness entries alone, and epochs never fall. */
  lemma OtherEffectsKeepSound(d: Digests, s: State, s': State)
    requires Sound(d, s) && s'.rows == s.rows
    requires forall id :: Witnesses(s'.log, id) == Witnesses(s.log, id)
    requires forall scope :: Epoch(s, scope) <= Epoch(s', scope)
    ensures Sound(d, s')
  {
    forall k | k in s'.rows ensures Witnessed(d, s', s'.rows[k]) {
      assert Witnessed(d, s, s.rows[k]);
    }
    forall id | Witnesses(s'.log, id) != [] ensures IsStored(s', id) {
      assert IsStored(s, id);
    }
  }

  /** The action stores a new snapshot. */
  ghost predicate Inserts(d: Digests, s: State, a: Action) {
    && a.CreateSnapshot? && Create(d, s, a.proposal).Ok? && a.proposal.key !in s.rows
  }

  lemma InsertingEffect(d: Digests, s: State, a: Action)
    requires Inserts(d, s, a)
    ensures ApprovedFor(s.requests, a.proposal.snapshot) && !s.stopped
    ensures Effect(d, s, a) == Inserted(d, s, a.proposal) && Unused(d, s.rows, a.proposal.snapshot)
    ensures ValidSnapshot(d, a.proposal.snapshot)
  {
  }

  lemma QuietEffect(d: Digests, s: State, a: Action, id: string, scope: Scope)
    requires !Inserts(d, s, a)
    ensures Effect(d, s, a).rows == s.rows && Witnesses(Effect(d, s, a).log, id) == Witnesses(s.log, id)
    ensures Epoch(s, scope) <= Epoch(Effect(d, s, a), scope)
  {
    if a.Audit? {
      WitnessesOfOneMore(d, s.log, OtherEvent(a.text), id);
    }
  }

  lemma EpochsNeverFall(d: Digests, s: State, a: Action, scope: Scope)
    ensures Epoch(s, scope) <= Epoch(Effect(d, s, a), scope)
  {
  }

  lemma EffectKeepsSound(d: Digests, s: State, a: Action, s': State)
    requires Sound(d, s) && s' == Effect(d, s, a)
    ensures Sound(d, s')
  {
    if Inserts(d, s, a) {
      InsertingEffect(d, s, a);
      InsertKeepsSound(d, s, a.proposal, s');
    } else {
      QuietKeepsSound(d, s, a, s');
    }
  }

  lemma QuietKeepsSound(d: Digests, s: State, a: Action, s': State)
    requires Sound(d, s) && s' == Effect(d, s, a) && !Inserts(d, s, a)
    ensures Sound(d, s')
  {
    QuietEffect(d, s, a, "", Scope("", "", ""));
    forall id ensures Witnesses(s'.log, id) == Witnesses(s.log, id) {
      QuietEffect(d, s, a, id, Scope("", "", ""));
    }
    forall scope ensures Epoch(s, scope) <= Epoch(s', scope) {
      EpochsNeverFall(d, s, a, scope);
    }
    OtherEffectsKeepSound(d, s, s');
  }

  // ---- The loader ----

  /** The loader accepts every stored snapshot. */
  lemma StoredLoads(d: Digests, s: State, k: string)
    requires Sound(d, s) && k in s.rows
    ensures Load(d, s, s.rows[k].snapshot).Ok?
    ensures Load(d, s, s.rows[k].snapshot).value.epoch <= Epoch(s, ScopeOf(s.rows[k].snapshot))
  {
    assert Witnessed(d, s, s.rows[k]);
  }

  lemma SameWitnessesSameLoad(d: Digests, s: State, s': State, n: Snapshot)
    requires Witnesses(s'.log, n.id) == Witnesses(s.log, n.id)
    ensures Load(d, s', n) == Load(d, s, n)
  {
  }

  /** No action adds a witness entry about a snapshot that has one. */
  lemma WitnessesAreStable(d: Digests, s: State, a: Action, id: string)
    requires Sound(d, s) && Witnesses(s.log, id) != []
    ensures Witnesses(Effect(d, s, a).log, id) == Witnesses(s.log, id)
  {
    if Inserts(d, s, a) {
      InsertingEffect(d, s, a);
      assert IsStored(s, id);
      InsertedWitness(d, s, a.proposal, id);
    } else {
      QuietEffect(d, s, a, id, Scope("", "", ""));
    }
  }

  /** What the loader once returned it returns ever after. */
  lemma LoadIsStable(d: Digests, s: State, a: Action, n: Snapshot)
    requires Sound(d, s) && Load(d, s, n).Ok?
    ensures Load(d, Effect(d, s, a), n) == Load(d, s, n)
  {
    WitnessesAreStable(d, s, a, n.id);
    SameWitnessesSameLoad(d, s, Effect(d, s, a), n);
  }

  /** Loaded evidence belongs to a stored snapshot with the same digest. */
  lemma LoadedIsStored(d: Digests, s: State, n: Snapshot) returns (k: string)
    requires Sound(d, s) && Load(d, s, n).Ok?
    ensures k in s.rows && s.rows[k].snapshot.id == n.id && s.rows[k].snapshot.subject.snapshotDigest == n.subject.snapshotDigest && ValidSnapshot(d, s.rows[k].snapshot)
  {
    assert IsStored(s, n.id);
    k :| k in s.rows && s.rows[k].snapshot.id == n.id;
    assert Witnessed(d, s, s.rows[k]);
  }

  // ---- Runs ----

  /** An issuer that has loaded evidence holds what the loader still returns. */
  ghost predicate Holding(d: Digests, s: State, i: Issuer) {
    ValidSnapshot(d, i.snapshot) && (i.evidence.Some? ==> Load(d, s, i.snapshot) == Ok(i.evidence.value))
  }

  /** A grant carries the epoch recorded for its snapshot. */
  ghost predicate Granted(d: Digests, s: State, g: Grant) {
    ValidSnapshot(d, g.snapshot) && Load(d, s, g.snapshot) == Ok(g.evidence) && g.epoch == g.evidence.epoch
  }

  ghost predicate SoundSystem(d: Digests, y: System) {
    && Sound(d, y.state)
    && (forall c | c in y.issuers :: Holding(d, y.state, y.issuers[c]))
    && (forall g | g in y.grants :: Granted(d, y.state, g))
  }

  lemma HoldingIsStable(d: Digests, s: State, a: Action, i: Issuer)
    requires Sound(d, s) && Holding(d, s, i)
    ensures Holding(d, Effect(d, s, a), i)
  {
    if i.evidence.Some? {
      LoadIsStable(d, s, a, i.snapshot);
    }
  }

  lemma ReadKeepsHolding(d: Digests, s: State, i: Issuer)
    requires Holding(d, s, i)
    ensures Read(d, s, i).Goes? ==> Holding(d, s, Read(d, s, i).issuer)
    ensures Read(d, s, i).Issues? ==> Granted(d, s, Read(d, s, i).grant) && Read(d, s, i).grant.snapshot == i.snapshot
    ensures Read(d, s, i).Issues? ==> Read(d, s, i).grant.epoch == Epoch(s, ScopeOf(i.snapshot)) && i.stage == ReadEpochAgain
  {
  }

  /** What an action can do to the issuers and the grants. */
  lemma NextState(d: Digests, y: System, a: Action)
    ensures Next(d, y, a).state == Effect(d, y.state, a)
    ensures forall c | c in Next(d, y, a).issuers ::
      var i := Next(d, y, a).issuers[c];
      || (i.evidence.None? && ValidSnapshot(d, i.snapshot))
      || (c in y.issuers && y.issuers[c] == i)
      || (c in y.issuers && Read(d, y.state, y.issuers[c]) == Goes(i))
    ensures Next(d, y, a).grants == y.grants ||
      (a.Advance? && Effect(d, y.state, a) == y.state && a.caller in y.issuers && Read(d, y.state, y.issuers[a.caller]).Issues?
       && Next(d, y, a).grants == y.grants + [Read(d, y.state, y.issuers[a.caller]).grant])
  {
  }

  lemma GrantedIsStable(d: Digests, s: State, a: Action, g: Grant)
    requires Sound(d, s) && Granted(d, s, g)
    ensures Granted(d, Effect(d, s, a), g)
  {
    LoadIsStable(d, s, a, g.snapshot);
  }

  lemma NextKeepsIssuers(d: Digests, y: System, a: Action, y': System)
    requires SoundSystem(d, y) && y' == Next(d, y, a)
    ensures forall c | c in y'.issuers :: Holding(d, y'.state, y'.issuers[c])
  {
    NextState(d, y, a);
    forall c | c in y'.issuers ensures Holding(d, y'.state, y'.issuers[c]) {
      if c in y.issuers {
        ReadKeepsHolding(d, y.state, y.issuers[c]);
        HoldingIsStable(d, y.state, a, y.issuers[c]);
        if Read(d, y.state, y.issuers[c]) == Goes(y'.issuers[c]) {
          HoldingIsStable(d, y.state, a, y'.issuers[c]);
        }
      }
    }
  }

  lemma NextKeepsGrants(d: Digests, y: System, a: Action, y': System)
    requires SoundSystem(d, y) && y' == Next(d, y, a)
    ensures forall g | g in y'.grants :: Granted(d, y'.state, g)
  {
    NextState(d, y, a);
    forall g | g in y.grants ensures Granted(d, y'.state, g) {
      GrantedIsStable(d, y.state, a, g);
    }
    if y'.grants != y.grants {
      ReadKeepsHolding(d, y.state, y.issuers[a.caller]);
    }
  }

  lemma NextKeepsSound(d: Digests, y: System, a: Action, y': System)
    requires SoundSystem(d, y) && y' == Next(d, y, a)
    ensures SoundSystem(d, y')
  {
    NextState(d, y, a);
    EffectKeepsSound(d, y.state, a, y'.state);
    NextKeepsIssuers(d, y, a, y');
    NextKeepsGrants(d, y, a, y');
  }

  lemma {:induction false} RunIsSound(d: Digests, actions: seq<Action>)
    ensures SoundSystem(d, Run(d, actions))
  {
    if actions != [] {
      RunIsSound(d, actions[..|actions| - 1]);
      NextKeepsSound(d, Run(d, actions[..|actions| - 1]), actions[|actions| - 1], Run(d, actions));
    }
  }

  // ---- One snapshot per key, one witness per snapshot ----

  lemma RowsStay(d: Digests, y: System, a: Action, key: string)
    requires key in y.state.rows
    ensures key in Next(d, y, a).state.rows && Next(d, y, a).state.rows[key] == y.state.rows[key]
  {
    NextState(d, y, a);
    if Inserts(d, y.state, a) {
      InsertingEffect(d, y.state, a);
    } else {
      QuietEffect(d, y.state, a, "", Scope("", "", ""));
    }
  }

  lemma {:induction false} RowsStayForever(d: Digests, actions: seq<Action>, more: seq<Action>, key: string)
    requires key in Run(d, actions).state.rows
    ensures key in Run(d, actions + more).state.rows
    ensures Run(d, actions + more).state.rows[key] == Run(d, actions).state.rows[key]
  {
    if more == [] {
      assert actions + more == actions;
    } else {
      var n := |actions + more| - 1;
      assert (actions + more)[..n] == actions + more[..|more| - 1];
      RowsStayForever(d, actions, more[..|more| - 1], key);
      RowsStay(d, Run(d, (actions + more)[..n]), (actions + more)[n], key);
    }
  }

  /** All successful calls with one key, whenever they are made, return the same snapshot. */
  lemma SameKeySameSnapshot(d: Digests, actions: seq<Action>, p: Proposal, more: seq<Action>, q: Proposal)
    requires p.key == q.key && Create(d, Run(d, actions).state, p).Ok?
    requires Create(d, Run(d, actions + [CreateSnapshot(p)] + more).state, q).Ok?
    ensures Create(d, Run(d, actions + [CreateSnapshot(p)] + more).state, q).value.1 ==
            Create(d, Run(d, actions).state, p).value.1
  {
    var first := actions + [CreateSnapshot(p)];
    assert first[..|first| - 1] == actions;
    CreatedIsStored(d, Run(d, actions).state, p);
    NextState(d, Run(d, actions), CreateSnapshot(p));
    RowsStayForever(d, first, more, p.key);
  }

  lemma CreatedIsStored(d: Digests, s: State, p: Proposal)
    requires Create(d, s, p).Ok?
    ensures var (s', n) := Create(d, s, p).value; p.key in s'.rows && s'.rows[p.key].snapshot == n
  {
  }

  /** In every reachable state each stored snapshot has exactly one witness entry, and the loader accepts it. */
  lemma OneWitnessEach(d: Digests, actions: seq<Action>, key: string)
    requires key in Run(d, actions).state.rows
    ensures var s := Run(d, actions).state;
      && |Witnesses(s.log, s.rows[key].snapshot.id)| == 1
      && Load(d, s, s.rows[key].snapshot).Ok?
      && forall other | other in s.rows && s.rows[other].snapshot.id == s.rows[key].snapshot.id :: other == key
  {
    RunIsSound(d, actions);
    StoredLoads(d, Run(d, actions).state, key);
  }

  /** A stored snapshot was stored by one action of the run, under the epoch that the loader still returns. */
  lemma {:induction false} StoredWasInserted(d: Digests, actions: seq<Action>, key: string) returns (n: nat)
    requires key in Run(d, actions).state.rows
    ensures n < |actions| && WasInserted(d, actions, n, Run(d, actions).state.rows[key].snapshot)
    ensures var s, snapshot := Run(d, actions).state, Run(d, actions).state.rows[key].snapshot;
      && Load(d, s, snapshot).Ok?
      && Load(d, s, snapshot).value.epoch == Epoch(Run(d, actions[..n]).state, ScopeOf(snapshot))
  {
    var last := |actions| - 1;
    var y, a := Run(d, actions[..last]), actions[last];
    RunIsSound(d, actions[..last]);
    NextState(d, y, a);
    if key in y.state.rows {
      n := StoredWasInserted(d, actions[..last], key);
      assert actions[..last][..n] == actions[..n];
      RowsStay(d, y, a, key);
      LoadIsStable(d, y.state, a, y.state.rows[key].snapshot);
    } else {
      n := last;
      InsertedNow(d, y.state, a, key);
    }
  }

  /**
   Every stored snapshot was authorized when it was stored: at that moment its change request was in the
   table, approved, for the snapshot's workspace, environment and content, and no stop was active.
   */
  lemma StoredWasApproved(d: Digests, actions: seq<Action>, key: string) returns (n: nat)
    requires key in Run(d, actions).state.rows
    ensures var snapshot := Run(d, actions).state.rows[key].snapshot;
      && n < |actions| && WasInserted(d, actions, n, snapshot)
      && ApprovedFor(Run(d, actions[..n]).state.requests, snapshot) && !Run(d, actions[..n]).state.stopped
  {
    n := StoredWasInserted(d, actions, key);
    InsertingEffect(d, Run(d, actions[..n]).state, actions[n]);
  }

  ghost predicate WasInserted(d: Digests, actions: seq<Action>, n: nat, snapshot: Snapshot)
    requires n < |actions|
  {
    Inserts(d, Run(d, actions[..n]).state, actions[n]) && actions[n].proposal.snapshot == snapshot
  }

  lemma InsertedNow(d: Digests, s: State, a: Action, key: string)
    requires Sound(d, s) && key !in s.rows && key in Effect(d, s, a).rows
    ensures Inserts(d, s, a) && Effect(d, s, a).rows[key].snapshot == a.proposal.snapshot
    ensures ApprovedFor(s.requests, a.proposal.snapshot) && !s.stopped
    ensures Load(d, Effect(d, s, a), a.proposal.snapshot).Ok?
    ensures Load(d, Effect(d, s, a), a.proposal.snapshot).value.epoch == Epoch(s, ScopeOf(a.proposal.snapshot))
  {
    if !Inserts(d, s, a) {
      QuietEffect(d, s, a, "", Scope("", "", ""));
    }
    InsertingEffect(d, s, a);
    var id := a.proposal.snapshot.id;
    assert !IsStored(s, id);
    assert Witnesses(s.log, id) == [];
    InsertedWitness(d, s, a.proposal, id);
  }

  // ---- The revocation epoch ----

  /** How far the revocations of the run moved this scope. */
  function Moved(actions: seq<Action>, scope: Scope): nat {
    if actions == [] then 0
    else
      Moved(actions[..|actions| - 1], scope) +
      match actions[|actions| - 1] case Revoke(other, steps) => if other == scope then steps else 0 case _ => 0
  }

  /** The epoch of a scope is the sum of its revocations, and nothing else moves it. */
  lemma {:induction false} EpochIsSum(d: Digests, actions: seq<Action>, scope: Scope)
    ensures Epoch(Run(d, actions).state, scope) == Moved(actions, scope)
  {
    if actions != [] {
      EpochIsSum(d, actions[..|actions| - 1], scope);
      NextState(d, Run(d, actions[..|actions| - 1]), actions[|actions| - 1]);
      EpochStep(d, Run(d, actions[..|actions| - 1]).state, actions[|actions| - 1], scope);
    }
  }

  lemma EpochStep(d: Digests, s: State, a: Action, scope: Scope)
    ensures Epoch(Effect(d, s, a), scope) == Epoch(s, scope) + if a.Revoke? && a.scope == scope then a.steps else 0
  {
  }

  /** A revocation after the snapshot was stored bars every later issuance from it. */
  lemma RevocationBars(d: Digests, actions: seq<Action>, key: string, steps: nat, more: seq<Action>)
    requires key in Run(d, actions).state.rows && steps > 0
    ensures var n := Run(d, actions).state.rows[key].snapshot;
      var revoked := actions + [Revoke(ScopeOf(n), steps)];
      NoneLater(Run(d, revoked).grants, Run(d, revoked + more).grants, n)
  {
    var s, n := Run(d, actions).state, Run(d, actions).state.rows[key].snapshot;
    var revoked := actions + [Revoke(ScopeOf(n), steps)];
    RunIsSound(d, actions);
    StoredLoads(d, s, key);
    assert revoked[..|actions|] == actions;
    NextState(d, Run(d, actions), Revoke(ScopeOf(n), steps));
    LoadIsStable(d, s, Revoke(ScopeOf(n), steps), n);
    EpochStep(d, s, Revoke(ScopeOf(n), steps), ScopeOf(n));
    NoGrantAfterRevocation(d, revoked, more, n);
  }

  lemma {:induction false} EpochsRise(d: Digests, actions: seq<Action>, i: nat, j: nat, scope: Scope)
    requires i <= j <= |actions|
    ensures Epoch(Run(d, actions[..i]).state, scope) <= Epoch(Run(d, actions[..j]).state, scope)
    decreases j - i
  {
    if i < j {
      EpochsRise(d, actions, i, j - 1, scope);
      assert actions[..j][..j - 1] == actions[..j - 1];
      NextState(d, Run(d, actions[..j - 1]), actions[j - 1]);
      EpochsNeverFall(d, Run(d, actions[..j - 1]).state, actions[j - 1], scope);
    }
  }

  /** The last action of the run issued a grant. */
  ghost predicate Issued(d: Digests, actions: seq<Action>) {
    actions != [] && |Run(d, actions).grants| > |Run(d, actions[..|actions| - 1]).grants|
  }

  ghost predicate NoCollision(d: Digests, a: Snapshot, b: Snapshot) { d.snapshot(a) == d.snapshot(b) ==> a == b }

  /** Among these snapshots each has its own digest. */
  ghost predicate CollisionFree(d: Digests, known: set<Snapshot>) {
    forall a, b | a in known && b in known :: NoCollision(d, Bare(a), Bare(b))
  }

  /** The snapshots that an action speaks of. */
  function Mentioned(a: Action): set<Snapshot> {
    match a
    case CreateSnapshot(p) => {p.snapshot}
    case BeginIssue(_, n, _) => {n}
    case _ => {}
  }

  function MentionedIn(actions: seq<Action>): set<Snapshot> { set a, n | a in actions && n in Mentioned(a) :: n }

  ghost predicate Knows(known: set<Snapshot>, y: System) {
    && (forall k | k in y.state.rows :: y.state.rows[k].snapshot in known)
    && (forall c | c in y.issuers :: y.issuers[c].snapshot in known)
    && (forall g | g in y.grants :: g.snapshot in known)
  }

  lemma ReadKeepsSnapshot(d: Digests, s: State, i: Issuer)
    ensures Read(d, s, i).Goes? ==> Read(d, s, i).issuer.snapshot == i.snapshot
    ensures Read(d, s, i).Issues? ==> Read(d, s, i).grant.snapshot == i.snapshot
  {
  }

  lemma RowsAreKnown(d: Digests, known: set<Snapshot>, s: State, a: Action)
    requires (forall k | k in s.rows :: s.rows[k].snapshot in known) && Mentioned(a) <= known
    ensures forall k | k in Effect(d, s, a).rows :: Effect(d, s, a).rows[k].snapshot in known
  {
    if Inserts(d, s, a) {
      InsertingEffect(d, s, a);
    } else {
      QuietEffect(d, s, a, "", Scope("", "", ""));
    }
  }

  lemma NextKnows(d: Digests, known: set<Snapshot>, y: System, a: Action)
    requires Knows(known, y) && Mentioned(a) <= known
    ensures Knows(known, Next(d, y, a))
  {
    RowsAreKnown(d, known, y.state, a);
    if a.Advance? && a.caller in y.issuers {
      ReadKeepsSnapshot(d, y.state, y.issuers[a.caller]);
    }
  }

  lemma {:induction false} RunKnows(d: Digests, known: set<Snapshot>, actions: seq<Action>)
    requires MentionedIn(actions) <= known
    ensures Knows(known, Run(d, actions))
  {
    if actions != [] {
      var init, last := actions[..|actions| - 1], actions[|actions| - 1];
      assert MentionedIn(init) <= MentionedIn(actions) && Mentioned(last) <= MentionedIn(actions);
      RunKnows(d, known, init);
      NextKnows(d, known, Run(d, init), last);
    }
  }

  lemma SameDigestSameSnapshot(d: Digests, known: set<Snapshot>, a: Snapshot, b: Snapshot)
    requires CollisionFree(d, known) && a in known && b in known && ValidSnapshot(d, a) && ValidSnapshot(d, b)
    requires a.subject.snapshotDigest == b.subject.snapshotDigest
    ensures a == b
  {
    assert NoCollision(d, Bare(a), Bare(b));
    assert a == Bare(a).(subject := Bare(a).subject.(snapshotDigest := a.subject.snapshotDigest));
    assert b == Bare(b).(subject := Bare(b).subject.(snapshotDigest := b.subject.snapshotDigest));
  }

  /** A grant is issued by an issuer that holds loaded evidence whose epoch is the live one. */
  lemma IssuedFromEvidence(d: Digests, y: System, a: Action)
    requires SoundSystem(d, y) && |Next(d, y, a).grants| > |y.grants|
    ensures var y' := Next(d, y, a);
      var g := y'.grants[|y.grants|];
      && y'.grants == y.grants + [g] && y'.state == y.state
      && Granted(d, y.state, g) && g.epoch == Epoch(y.state, ScopeOf(g.snapshot))
  {
    NextState(d, y, a);
    ReadKeepsHolding(d, y.state, y.issuers[a.caller]);
  }

  /** A granted snapshot was stored by one action of the run, under the granted epoch. */
  lemma GrantedWasInserted(d: Digests, known: set<Snapshot>, actions: seq<Action>, g: Grant) returns (n: nat)
    requires CollisionFree(d, known) && MentionedIn(actions) <= known && g.snapshot in known
    requires Granted(d, Run(d, actions).state, g)
    ensures n < |actions| && WasInserted(d, actions, n, g.snapshot)
    ensures Epoch(Run(d, actions[..n]).state, ScopeOf(g.snapshot)) == g.epoch
  {
    var s := Run(d, actions).state;
    RunIsSound(d, actions);
    var key := LoadedIsStored(d, s, g.snapshot);
    RunKnows(d, known, actions);
    SameDigestSameSnapshot(d, known, s.rows[key].snapshot, g.snapshot);
    n := StoredWasInserted(d, actions, key);
  }

  /** An epoch that is the same at two moments was the same at every moment in between. */
  lemma EpochWasConstant(d: Digests, actions: seq<Action>, n: nat, scope: Scope)
    requires n <= |actions| && Epoch(Run(d, actions[..n]).state, scope) == Epoch(Run(d, actions).state, scope)
    ensures forall i | n <= i <= |actions| :: Epoch(Run(d, actions[..i]).state, scope) == Epoch(Run(d, actions).state, scope)
  {
    assert actions[..|actions|] == actions;
    forall i | n <= i <= |actions| ensures Epoch(Run(d, actions[..i]).state, scope) == Epoch(Run(d, actions).state, scope) {
      EpochsRise(d, actions, n, i, scope);
      EpochsRise(d, actions, i, |actions|, scope);
    }
  }

  /**
   Whenever a grant is issued, the epoch of its scope has been the granted one at every moment from
   the transaction that stored the snapshot to the issuer's last read, whatever happened in between.
   */
  lemma GrantImpliesConstantEpoch(d: Digests, actions: seq<Action>) returns (n: nat)
    requires CollisionFree(d, MentionedIn(actions)) && Issued(d, actions)
    ensures var g := Run(d, actions).grants[|Run(d, actions).grants| - 1];
      && n < |actions| && WasInserted(d, actions, n, g.snapshot)
      && forall i | n <= i <= |actions| :: Epoch(Run(d, actions[..i]).state, ScopeOf(g.snapshot)) == g.epoch
  {
    var init := actions[..|actions| - 1];
    var g := LastGrant(d, actions, init);
    RunKnows(d, MentionedIn(actions), actions);
    n := GrantedWasInserted(d, MentionedIn(actions), init, g);
    SamePast(d, init, actions, n, g.snapshot);
    EpochWasConstant(d, actions, n, ScopeOf(g.snapshot));
  }

  /** What happened early in a run happened early in every longer run. */
  lemma SamePast(d: Digests, init: seq<Action>, actions: seq<Action>, n: nat, snapshot: Snapshot)
    requires init <= actions && n < |init|
    ensures Run(d, init[..n]) == Run(d, actions[..n])
    ensures WasInserted(d, init, n, snapshot) == WasInserted(d, actions, n, snapshot)
  {
    assert init[..n] == actions[..n];
  }

  lemma LastGrant(d: Digests, actions: seq<Action>, init: seq<Action>) returns (g: Grant)
    requires Issued(d, actions) && init == actions[..|actions| - 1]
    ensures g == Run(d, actions).grants[|Run(d, actions).grants| - 1]
    ensures Granted(d, Run(d, init).state, g) && g.epoch == Epoch(Run(d, actions).state, ScopeOf(g.snapshot))
  {
    RunIsSound(d, init);
    IssuedFromEvidence(d, Run(d, init), actions[|actions| - 1]);
    g := Run(d, actions).grants[|Run(d, init).grants|];
  }

  /** The epoch has moved past the one recorded for the snapshot. */
  ghost predicate Revoked(d: Digests, s: State, n: Snapshot) {
    Load(d, s, n).Ok? && Load(d, s, n).value.epoch < Epoch(s, ScopeOf(n))
  }

  /** None of the grants added between the two moments is for this snapshot. */
  ghost predicate NoneLater(before: seq<Grant>, after: seq<Grant>, n: Snapshot) {
    before <= after && forall j | |before| <= j < |after| :: after[j].snapshot != n
  }

  lemma NoneLaterIsTransitive(a: seq<Grant>, b: seq<Grant>, c: seq<Grant>, n: Snapshot)
    requires NoneLater(a, b, n) && NoneLater(b, c, n)
    ensures NoneLater(a, c, n)
  {
  }

  lemma RevokedStays(d: Digests, y: System, a: Action, n: Snapshot)
    requires SoundSystem(d, y) && Revoked(d, y.state, n)
    ensures Revoked(d, Next(d, y, a).state, n)
    ensures NoneLater(y.grants, Next(d, y, a).grants, n)
  {
    NextState(d, y, a);
    LoadIsStable(d, y.state, a, n);
    EpochsNeverFall(d, y.state, a, ScopeOf(n));
    if |Next(d, y, a).grants| > |y.grants| {
      IssuedFromEvidence(d, y, a);
    }
  }

  lemma RevokedStep(d: Digests, actions: seq<Action>, a: Action, n: Snapshot)
    requires Revoked(d, Run(d, actions).state, n)
    ensures Revoked(d, Run(d, actions + [a]).state, n) && NoneLater(Run(d, actions).grants, Run(d, actions + [a]).grants, n)
  {
    RunIsSound(d, actions);
    assert (actions + [a])[..|actions|] == actions;
    RevokedStays(d, Run(d, actions), a, n);
  }

  /**
   Once the epoch has moved past the recorded one, no later issuance from that snapshot succeeds,
   whatever is created, revoked or asked for afterwards, and by whomever.
   */
  lemma {:induction false} NoGrantAfterRevocation(d: Digests, actions: seq<Action>, more: seq<Action>, n: Snapshot)
    requires Revoked(d, Run(d, actions).state, n)
    ensures Revoked(d, Run(d, actions + more).state, n)
    ensures NoneLater(Run(d, actions).grants, Run(d, actions + more).grants, n)
    decreases |more|
  {
    if more == [] {
      assert actions + more == actions;
    } else {
      var first := actions + [more[0]];
      assert first + more[1..] == actions + more;
      RevokedStep(d, actions, more[0], n);
      NoGrantAfterRevocation(d, first, more[1..], n);
      NoneLaterIsTransitive(Run(d, actions).grants, Run(d, first).grants, Run(d, actions + more).grants, n);
    }
  }

  // ---- One issuer among others ----

  predicate SameIssuer(y: System, y': System, c: nat) {
    if c in y.issuers then c in y'.issuers && y'.issuers[c] == y.issuers[c] else c !in y'.issuers
  }

  /** The action is a step of this issuer. */
  predicate ActsAs(a: Action, c: nat) { (a.BeginIssue? || a.Advance?) && a.caller == c }

  lemma OthersKeepIssuer(d: Digests, y: System, a: Action, c: nat)
    requires !ActsAs(a, c)
    ensures SameIssuer(y, Next(d, y, a), c)
  {
  }

  /** How many reads an issuer has made. */
  function ReadsMade(s: Stage): nat {
    match s
    case CheckStop => 0
    case LoadEvidence => 1
    case ReadEpoch => 2
    case Consult => 3
    case CheckStopAgain => 4
    case ReadEpochAgain => 5
  }

  /** Each read leads to the next one, ends in a denial, or issues the grant that was asked for. */
  lemma AdvanceMoves(d: Digests, y: System, c: nat, y': System)
    requires c in y.issuers && y' == Next(d, y, Advance(c))
    ensures var i, move := y.issuers[c], Read(d, y.state, y.issuers[c]);
      && (c in y'.issuers ==>
            move.Goes? && y'.issuers[c].snapshot == i.snapshot && y'.issuers[c].answers == i.answers
            && ReadsMade(y'.issuers[c].stage) == ReadsMade(i.stage) + 1)
      && (move.Issues? ==>
            y'.grants == y.grants + [move.grant] && move.grant.snapshot == i.snapshot
            && Allowed(i.answers) == Ok((move.grant.issuedAt, move.grant.expiresAt)))
  {
  }

  // ---- When a grant is issued ----

  /** `n` reads of the issuer with nobody else at work. */
  function Reads(d: Digests, s: State, i: Issuer, n: nat): Move
    decreases n
  {
    if n == 0 then Goes(i)
    else
      match Read(d, s, i)
      case Goes(next) => Reads(d, s, next, n - 1)
      case Denied => Denied
      case Issues(g) => Issues(g)
  }

  lemma ReadsOn(d: Digests, s: State, i: Issuer, next: Issuer, n: nat)
    requires n > 0 && Read(d, s, i) == Goes(next)
    ensures Reads(d, s, i, n) == Reads(d, s, next, n - 1)
  {
  }

  /**
   An undisturbed issuance from a stored snapshot succeeds exactly when the other authorities allow it, no
   stop is active and the epoch is still the recorded one; six reads decide it.
   */
  lemma UndisturbedIssue(d: Digests, actions: seq<Action>, key: string, q: Answers, count: nat)
    requires key in Run(d, actions).state.rows && 6 <= count
    ensures var s := Run(d, actions).state;
      var n := s.rows[key].snapshot;
      && Load(d, s, n).Ok?
      && Reads(d, s, Issuer(n, q, CheckStop, None), count) ==
         if q.narrower && Allowed(q).Ok? && !s.stopped && Load(d, s, n).value.epoch == Epoch(s, ScopeOf(n))
         then Issues(Grant(n, Epoch(s, ScopeOf(n)), Load(d, s, n).value, Allowed(q).value.0, Allowed(q).value.1)) else Denied
  {
    var s := Run(d, actions).state;
    RunIsSound(d, actions);
    StoredLoads(d, s, key);
    var n := s.rows[key].snapshot;
    SixReads(d, s, n, q, Load(d, s, n).value, count);
  }

  lemma SixReads(d: Digests, s: State, n: Snapshot, q: Answers, e: Evidence, count: nat)
    requires Load(d, s, n) == Ok(e) && 6 <= count
    ensures Reads(d, s, Issuer(n, q, CheckStop, None), count) ==
      if q.narrower && Allowed(q).Ok? && !s.stopped && e.epoch == Epoch(s, ScopeOf(n))
      then Issues(Grant(n, Epoch(s, ScopeOf(n)), e, Allowed(q).value.0, Allowed(q).value.1)) else Denied
  {
    var rest: nat := count - 6;
    if q.narrower && !s.stopped {
      ReadsOn(d, s, Issuer(n, q, CheckStop, None), Issuer(n, q, LoadEvidence, None), rest + 6);
      ReadsOn(d, s, Issuer(n, q, LoadEvidence, None), Issuer(n, q, ReadEpoch, Some(e)), rest + 5);
      if e.epoch == Epoch(s, ScopeOf(n)) {
        ReadsOn(d, s, Issuer(n, q, ReadEpoch, Some(e)), Issuer(n, q, Consult, Some(e)), rest + 4);
        if Allowed(q).Ok? {
          ReadsOn(d, s, Issuer(n, q, Consult, Some(e)), Issuer(n, q, CheckStopAgain, Some(e)), rest + 3);
          ReadsOn(d, s, Issuer(n, q, CheckStopAgain, Some(e)), Issuer(n, q, ReadEpochAgain, Some(e)), rest + 2);
        }
      }
    }
  }

  // ---- The emergency stop ----

  /** The `m`-th action is the second stop check of caller `c` for snapshot `n`, and no stop was active. */
  ghost predicate PassedStop(d: Digests, actions: seq<Action>, m: nat, c: nat, n: Snapshot)
    requires m < |actions|
  {
    var y := Run(d, actions[..m]);
    && actions[m] == Advance(c) && c in y.issuers && !y.state.stopped
    && y.issuers[c].stage == CheckStopAgain && y.issuers[c].snapshot == n
  }

  lemma StageBefore(d: Digests, y: System, a: Action, c: nat)
    requires c in Next(d, y, a).issuers && Next(d, y, a).issuers[c].stage == ReadEpochAgain
    ensures c in y.issuers && y.issuers[c].snapshot == Next(d, y, a).issuers[c].snapshot
    ensures a == Advance(c) ==> y.issuers[c].stage == CheckStopAgain && !y.state.stopped
    ensures a != Advance(c) ==> y.issuers[c] == Next(d, y, a).issuers[c]
  {
  }

  /** From the `i`-th moment to the `j`-th the issuer `c` did not move. */
  ghost predicate Waits(d: Digests, actions: seq<Action>, i: nat, j: nat, c: nat)
    requires i <= j <= |actions|
  {
    c in Run(d, actions[..j]).issuers &&
    forall k | i <= k <= j :: c in Run(d, actions[..k]).issuers && Run(d, actions[..k]).issuers[c] == Run(d, actions[..j]).issuers[c]
  }

  lemma {:induction false} StopWasChecked(d: Digests, actions: seq<Action>, n: nat, c: nat) returns (m: nat)
    requires n <= |actions| && c in Run(d, actions[..n]).issuers && Run(d, actions[..n]).issuers[c].stage == ReadEpochAgain
    ensures m < n && PassedStop(d, actions, m, c, Run(d, actions[..n]).issuers[c].snapshot) && Waits(d, actions, m + 1, n, c)
    decreases n
  {
    assert n > 0;
    assert actions[..n][..n - 1] == actions[..n - 1];
    StageBefore(d, Run(d, actions[..n - 1]), actions[n - 1], c);
    if actions[n - 1] == Advance(c) {
      m := n - 1;
    } else {
      m := StopWasChecked(d, actions, n - 1, c);
    }
  }

  /** A stop was set between the two moments and is still set. */
  ghost predicate StopStands(actions: seq<Action>, m: nat, n: nat)
    requires n <= |actions|
  {
    exists k :: m <= k < n && actions[k] == SetStop(true) && forall j | k < j < n :: actions[j] != SetStop(false)
  }

  lemma StopStep(d: Digests, y: System, a: Action)
    ensures Next(d, y, a).state.stopped == (if a.SetStop? then a.stopped else y.state.stopped)
  {
    NextState(d, y, a);
  }

  lemma StandsStep(actions: seq<Action>, m: nat, n: nat)
    requires m <= n < |actions|
    ensures StopStands(actions, m, n + 1) <==>
      actions[n] == SetStop(true) || (actions[n] != SetStop(false) && StopStands(actions, m, n))
  {
    if StopStands(actions, m, n) && actions[n] != SetStop(false) {
      var k :| m <= k < n && actions[k] == SetStop(true) && forall j | k < j < n :: actions[j] != SetStop(false);
      assert forall j | k < j < n + 1 :: actions[j] != SetStop(false);
    }
  }

  lemma StoppedMeansStands(d: Digests, actions: seq<Action>, m: nat, n: nat)
    requires m <= n <= |actions| && !Run(d, actions[..m]).state.stopped
    ensures Run(d, actions[..n]).state.stopped <==> StopStands(actions, m, n)
  {
    for k := m to n
      invariant Run(d, actions[..k]).state.stopped <==> StopStands(actions, m, k)
    {
      assert actions[..k + 1] == actions[..k] + [actions[k]];
      RunOneMore(d, actions[..k], actions[k]);
      StopStep(d, Run(d, actions[..k]), actions[k]);
      StandsStep(actions, m, k);
    }
  }

  /**
   Every grant was preceded by its issuer's second stop check, at which no emergency stop was active and
   after which the issuer made no other move. A stop is active at the grant exactly when it was set
   between these two reads and not lifted again.
   */
  lemma GrantSawNoStop(d: Digests, actions: seq<Action>) returns (m: nat)
    requires Issued(d, actions)
    ensures var last := |actions| - 1;
      && m < last && actions[last].Advance? && Waits(d, actions, m + 1, last, actions[last].caller)
      && PassedStop(d, actions, m, actions[last].caller, Run(d, actions).grants[|Run(d, actions).grants| - 1].snapshot)
      && (Run(d, actions).state.stopped <==> StopStands(actions, m + 1, last))
  {
    var last := |actions| - 1;
    NextState(d, Run(d, actions[..last]), actions[last]);
    m := StopWasChecked(d, actions, last, actions[last].caller);
    assert actions[..m + 1][..m] == actions[..m];
    StoppedMeansStands(d, actions, m + 1, last);
  }

  // ---- What every read demands ----

  /** The other authorities allow a grant now. */
  ghost predicate AllowedNow(q: Answers) {
    && q.bound && q.checkedAt.Some? && q.checkedAt.value <= q.issuedAt && q.issuedAt - q.checkedAt.value <= 30_000
    && q.validFrom <= q.issuedAt && q.issuedAt < q.validUntil && q.ttl > 0
  }

  /** What the next read of the issuer demands of this state. */
  ghost predicate Demands(d: Digests, s: State, i: Issuer) {
    var epoch := if ScopeOf(i.snapshot) in s.epochs then s.epochs[ScopeOf(i.snapshot)] else 0;
    match i.stage
    case CheckStop => i.answers.narrower && !s.stopped
    case LoadEvidence => Load(d, s, i.snapshot).Ok?
    case ReadEpoch => i.evidence.Some? && i.evidence.value.epoch == epoch
    case Consult => AllowedNow(i.answers)
    case CheckStopAgain => !s.stopped
    case ReadEpochAgain => i.evidence.Some? && i.evidence.value.epoch == epoch && AllowedNow(i.answers)
  }

  /** A read denies exactly when its demand is not met; the last one issues and the others go on. */
  lemma ReadIsExact(d: Digests, s: State, i: Issuer)
    ensures Read(d, s, i) == Denied <==> !Demands(d, s, i)
    ensures Read(d, s, i).Issues? ==>
      var g := Read(d, s, i).grant;
      i.stage == ReadEpochAgain && g.snapshot == i.snapshot && Some(g.evidence) == i.evidence && g.epoch == g.evidence.epoch
    ensures Read(d, s, i).Goes? ==>
      var next := Read(d, s, i).issuer;
      && next.snapshot == i.snapshot && next.answers == i.answers && ReadsMade(next.stage) == ReadsMade(i.stage) + 1
      && (i.stage == LoadEvidence ==> next.evidence == Some(Load(d, s, i.snapshot).value))
      && (i.stage != LoadEvidence ==> next.evidence == i.evidence)
  {
    assert Allowed(i.answers).Ok? <==> AllowedNow(i.answers);
  }

  /** The `m`-th action is the read number `k` of this issuance, and its demand was met. */
  ghost predicate MadeRead(d: Digests, actions: seq<Action>, m: nat, c: nat, n: Snapshot, q: Answers, k: nat)
    requires m < |actions|
  {
    var y := Run(d, actions[..m]);
    && actions[m] == Advance(c) && c in y.issuers && y.issuers[c].snapshot == n && y.issuers[c].answers == q
    && ReadsMade(y.issuers[c].stage) == k && Demands(d, y.state, y.issuers[c])
  }

  /** The issuer's reads so far, in order. */
  ghost predicate MadeReads(d: Digests, actions: seq<Action>, ms: seq<nat>, upTo: nat, c: nat, n: Snapshot, q: Answers) {
    && (forall k | 0 <= k < |ms| :: ms[k] < upTo && ms[k] < |actions| && MadeRead(d, actions, ms[k], c, n, q, k))
    && (forall j, k | 0 <= j < k < |ms| :: ms[j] < ms[k])
  }

  lemma OneStepBack(d: Digests, y: System, a: Action, c: nat)
    requires c in Next(d, y, a).issuers && ReadsMade(Next(d, y, a).issuers[c].stage) > 0
    ensures c in y.issuers
    ensures var i, i' := y.issuers[c], Next(d, y, a).issuers[c];
      if a == Advance(c) then
        Demands(d, y.state, i) && i.snapshot == i'.snapshot && i.answers == i'.answers && ReadsMade(i'.stage) == ReadsMade(i.stage) + 1
      else i == i'
  {
    if a == Advance(c) && c in y.issuers { ReadIsExact(d, y.state, y.issuers[c]); }
  }

  lemma {:induction false} ReadsWereMade(d: Digests, actions: seq<Action>, upTo: nat, c: nat) returns (ms: seq<nat>)
    requires upTo <= |actions| && c in Run(d, actions[..upTo]).issuers
    ensures var i := Run(d, actions[..upTo]).issuers[c];
      |ms| == ReadsMade(i.stage) && MadeReads(d, actions, ms, upTo, c, i.snapshot, i.answers)
    decreases upTo
  {
    var i := Run(d, actions[..upTo]).issuers[c];
    if ReadsMade(i.stage) == 0 {
      ms := [];
    } else {
      assert actions[..upTo][..upTo - 1] == actions[..upTo - 1];
      OneStepBack(d, Run(d, actions[..upTo - 1]), actions[upTo - 1], c);
      ms := ReadsWereMade(d, actions, upTo - 1, c);
      if actions[upTo - 1] == Advance(c) {
        ms := ms + [upTo - 1];
      }
    }
  }

  /**
   Every grant comes after six reads of its issuer, in order and each with its demand met at its own
   moment: no stop twice, loaded evidence, the recorded epoch twice, and the other authorities' consent.
   */
  lemma GrantMadeSixReads(d: Digests, actions: seq<Action>) returns (ms: seq<nat>, q: Answers)
    requires Issued(d, actions)
    ensures var g := Run(d, actions).grants[|Run(d, actions).grants| - 1];
      && actions[|actions| - 1].Advance? && |ms| == 6
      && MadeReads(d, actions, ms, |actions|, actions[|actions| - 1].caller, g.snapshot, q)
      && Allowed(q) == Ok((g.issuedAt, g.expiresAt))
  {
    var last := |actions| - 1;
    var y, a := Run(d, actions[..last]), actions[last];
    NextState(d, y, a);
    var c := a.caller;
    ReadIsExact(d, y.state, y.issuers[c]);
    AdvanceMoves(d, y, c, Run(d, actions));
    q := y.issuers[c].answers;
    ms := ReadsWereMade(d, actions, last, c);
    ms := ms + [last];
  }

  // ---- A grant under a stop ----

  function StageAfter(made: nat): Stage {
    if made == 0 then CheckStop else if made == 1 then LoadEvidence else if made == 2 then ReadEpoch
    else if made == 3 then Consult else if made == 4 then CheckStopAgain else ReadEpochAgain
  }

  /** An issuer that was not denied in its first `made` reads. */
  function IssuerAfter(n: Snapshot, q: Answers, e: Evidence, made: nat): Issuer {
    Issuer(n, q, StageAfter(made), if made < 2 then None else Some(e))
  }

  lemma ReadGoesOn(d: Digests, s: State, n: Snapshot, q: Answers, e: Evidence, made: nat)
    requires Load(d, s, n) == Ok(e) && e.epoch == Epoch(s, ScopeOf(n)) && q.narrower && Allowed(q).Ok? && made < 6
    requires s.stopped ==> made == 5
    ensures Read(d, s, IssuerAfter(n, q, e, made)) ==
      if made < 5 then Goes(IssuerAfter(n, q, e, made + 1))
      else Issues(Grant(n, Epoch(s, ScopeOf(n)), e, Allowed(q).value.0, Allowed(q).value.1))
  {
    match StageAfter(made)
    case CheckStop =>
    case LoadEvidence =>
    case ReadEpoch =>
    case Consult =>
    case CheckStopAgain =>
    case ReadEpochAgain =>
  }

  lemma RunOneMore(d: Digests, actions: seq<Action>, a: Action)
    ensures Run(d, actions + [a]) == Next(d, Run(d, actions), a)
  {
    assert (actions + [a])[..|actions|] == actions;
  }

  lemma FiveReads(d: Digests, actions: seq<Action>, n: Snapshot, q: Answers, e: Evidence, c: nat) returns (run: seq<Action>)
    requires var s := Run(d, actions).state;
      Load(d, s, n) == Ok(e) && e.epoch == Epoch(s, ScopeOf(n)) && !s.stopped
    requires q.narrower && Allowed(q).Ok? && ValidSnapshot(d, n)
    ensures actions <= run && Run(d, run).state == Run(d, actions).state
    ensures c in Run(d, run).issuers && Run(d, run).issuers[c] == IssuerAfter(n, q, e, 5)
  {
    run := actions + [BeginIssue(c, n, q)];
    RunOneMore(d, actions, BeginIssue(c, n, q));
    for k := 0 to 5
      invariant actions <= run && Run(d, run).state == Run(d, actions).state
      invariant c in Run(d, run).issuers && Run(d, run).issuers[c] == IssuerAfter(n, q, e, k)
    {
      ReadGoesOn(d, Run(d, run).state, n, q, e, k);
      RunOneMore(d, run, Advance(c));
      run := run + [Advance(c)];
    }
  }

  lemma IssuesUnderStop(d: Digests, run: seq<Action>, n: Snapshot, q: Answers, e: Evidence, c: nat, more: seq<Action>)
    requires Load(d, Run(d, run).state, n) == Ok(e) && e.epoch == Epoch(Run(d, run).state, ScopeOf(n)) && q.narrower && Allowed(q).Ok?
    requires c in Run(d, run).issuers && Run(d, run).issuers[c] == IssuerAfter(n, q, e, 5)
    requires more == run + [SetStop(true)] + [Advance(c)]
    ensures Issued(d, more) && Run(d, more).state.stopped && Run(d, more).grants[|Run(d, more).grants| - 1].snapshot == n
  {
    var stop := run + [SetStop(true)];
    RunOneMore(d, run, SetStop(true));
    ReadGoesOn(d, Run(d, stop).state, n, q, e, 5);
    RunOneMore(d, stop, Advance(c));
    assert more[..|more| - 1] == stop;
  }

  /** Every issuance that would succeed undisturbed also succeeds when a stop is set between its last two reads. */
  lemma StopIsMissed(d: Digests, actions: seq<Action>, key: string, q: Answers, c: nat) returns (run: seq<Action>)
    requires var s := Run(d, actions).state;
      && key in s.rows && q.narrower && Allowed(q).Ok? && !s.stopped
      && Load(d, s, s.rows[key].snapshot).Ok? && Load(d, s, s.rows[key].snapshot).value.epoch == Epoch(s, ScopeOf(s.rows[key].snapshot))
    ensures actions <= run && Issued(d, run) && Run(d, run).state.stopped
    ensures Run(d, run).grants[|Run(d, run).grants| - 1].snapshot == Run(d, actions).state.rows[key].snapshot
  {
    var s := Run(d, actions).state;
    var n := s.rows[key].snapshot;
    var e := Load(d, s, n).value;
    StoredIsValid(d, actions, key);
    var reading := FiveReads(d, actions, n, q, e, c);
    run := reading + [SetStop(true)] + [Advance(c)];
    IssuesUnderStop(d, reading, n, q, e, c, run);
  }

  lemma StoredIsValid(d: Digests, actions: seq<Action>, key: string)
    requires key in Run(d, actions).state.rows
    ensures ValidSnapshot(d, Run(d, actions).state.rows[key].snapshot)
  {
    RunIsSound(d, actions);
    assert Witnessed(d, Run(d, actions).state, Run(d, actions).state.rows[key]);
  }

  /** On a new authority an approved snapshot is stored and can be granted. */
  lemma FirstSnapshot(d: Digests, n: Snapshot, actions: seq<Action>)
    requires ValidSnapshot(d, n)
    requires actions == [SetRequest(n.subject.requestId, Request(true, n.subject.workspaceId, n.subject.environment, n.reviewDigest))]
                        + [CreateSnapshot(Proposal("k", n, "", ""))]
    ensures var s := Run(d, actions).state;
      && "k" in s.rows && s.rows["k"].snapshot == n && !s.stopped
      && Load(d, s, n).Ok? && Load(d, s, n).value.epoch == Epoch(s, ScopeOf(n))
  {
    var one := [SetRequest(n.subject.requestId, Request(true, n.subject.workspaceId, n.subject.environment, n.reviewDigest))];
    RunOneMore(d, [], one[0]);
    assert [] + one == one;
    RunOneMore(d, one, CreateSnapshot(Proposal("k", n, "", "")));
    RunIsSound(d, actions);
    StoredLoads(d, Run(d, actions).state, "k");
  }

  /** Such runs exist, whatever the digests. */
  lemma GrantUnderStop(d: Digests) returns (run: seq<Action>)
    ensures Issued(d, run) && Run(d, run).state.stopped
  {
    var bare := Snapshot("s", Subject("x", "r", "a", "w", "e", "c", "i", "t", "", "", ""), Policy("", "", ""), "", "", "", 0);
    var n := bare.(subject := bare.subject.(snapshotDigest := d.snapshot(bare)));
    assert Bare(n) == bare;
    var actions := [SetRequest(n.subject.requestId, Request(true, n.subject.workspaceId, n.subject.environment, n.reviewDigest))]
                   + [CreateSnapshot(Proposal("k", n, "", ""))];
    FirstSnapshot(d, n, actions);
    run := StopIsMissed(d, actions, "k", Answers(true, true, Some(0), 0, 0, 1, 1), 0);
  }

  // ---- The creator ----

  class AuthorizationSnapshotCreator {
    const digests: Digests
    var state: State

    constructor (digests: Digests)
      ensures this.digests == digests && state == EMPTY && Sound(digests, state)
    {
      this.digests := digests;
      state := EMPTY;
    }

    method AppendAudit(e: Event)
      modifies this
      ensures state == old(state).(log := Append(digests, old(state).log, e))
    {
      var previous := if state.log == [] then AuditLedger.GENESIS else state.log[|state.log| - 1].eventHash;
      state := state.(log := state.log + [AuditLedger.Row(e, previous, digests.chain(previous, e))]);
    }

    /** One transaction; a refusal leaves snapshots and audit log as they were. */
    method CreateInTransaction(p: Proposal) returns (r: Result<Snapshot>)
      requires Sound(digests, state)
      modifies this
      ensures r.Ok? <==> Create(digests, old(state), p).Ok?
      ensures r.Ok? ==> (state, r.value) == Create(digests, old(state), p).value
      ensures r.Err? ==> state == old(state)
      ensures r.Ok? ==> p.snapshot.subject.requestId in state.requests && state.requests[p.snapshot.subject.requestId].approved && !state.stopped
      ensures r.Ok? ==> p.key in state.rows && state.rows[p.key].snapshot == r.value
      ensures Sound(digests, state)
    {
      EffectKeepsSound(digests, state, CreateSnapshot(p), Effect(digests, state, CreateSnapshot(p)));
      if !ValidSnapshot(digests, p.snapshot) { return Err("snapshot_digest does not match authorization snapshot"); }
      if !Requested(state, p) { return Err("CHANGE_REQUEST_NOT_APPROVED"); }
      if state.stopped { return Err("EMERGENCY_STOP_ACTIVE"); }
      var n := p.snapshot;
      var digest := n.subject.snapshotDigest;
      var epoch := Epoch(state, ScopeOf(n));
      if p.key in state.rows {
        var existing := state.rows[p.key];
        if existing.bindingDigest != digests.Binding(n) {
          return Err("idempotency key is bound to different authorization inputs");
        }
        return Ok(existing.snapshot);
      }
      if !RequestBound(state, p) { return Err("change request snapshot bindings mismatch"); }
      if !Unused(digests, state.rows, n) { return Err("authorization snapshot immutable identity conflicts"); }
      state := state.(rows := state.rows[p.key := Row(n, digests.Binding(n))]);
      AppendAudit(SnapshotCreated(n.subject.actorId, n.id, digest));
      AppendAudit(AuthorityWitness(n.subject.actorId, n.id, Payload(p.correlationId, digest, p.witnessSetDigest, n.policy.identity,
                                                                    n.subject.capabilityIdentity, epoch, n.sourceRevision)));
      return Ok(n);
    }
  }
}

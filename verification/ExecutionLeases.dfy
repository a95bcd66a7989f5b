/**
 Execution leases: for each admission a row of leases with epochs 1, 2, 3, ..., of which one is
 current. An expired lease can be succeeded; only the current, unexpired one can complete the
 execution. Every operation is one serialised transaction. Time is whole milliseconds.
 */
module ExecutionLeases {
  import opened Wrappers
  import opened DispatchContracts

  datatype Clock = Clock(environment: string, observedAt: int, digest: string)

  datatype LeaseRow = LeaseRow(lease: Lease, clock: Clock)

  /** What the state row repeats of the current lease. */
  datatype Current = Current(epoch: int, leaseId: string, leaseDigest: string, acquiredAt: int, expiresAt: int)

  datatype EpochState = EpochState(
    admissionId: string, admissionDigest: string, place: Place, current: Current, completion: Option<string>)

  datatype Leases = Leases(rows: seq<LeaseRow>, epochs: map<string, EpochState>)

  const MAX_LEASE_SECONDS := 3600

  function CurrentOf(l: Lease): Current {
    Current(l.body.epoch, l.body.id, l.digest, l.body.acquiredAt, l.body.expiresAt)
  }

  function MakeLease(d: Digest, a: Admission, epoch: int, clock: Clock, seconds: int, revision: string): Lease {
    var body := LeaseBody(d(LeaseIdentity(a.body.id, epoch)), a.body.dispatchId, a.body.id, a.digest, a.body.place, epoch,
                          clock.observedAt, clock.observedAt + seconds * 1000, clock.digest, revision);
    Lease(body, d(LeaseClaims(body)))
  }

  predicate ValidLease(d: Digest, l: Lease) {
    && l.body.epoch >= 1 && l.body.acquiredAt < l.body.expiresAt <= l.body.acquiredAt + MAX_LEASE_SECONDS * 1000
    && l.body.id == d(LeaseIdentity(l.body.admissionId, l.body.epoch)) && l.digest == d(LeaseClaims(l.body))
  }

  predicate LeaseBinds(l: Lease, a: Admission) {
    && l.body.dispatchId == a.body.dispatchId && l.body.admissionId == a.body.id
    && l.body.admissionDigest == a.digest && l.body.place == a.body.place
  }

  predicate StateBinds(st: EpochState, a: Admission) {
    st.admissionId == a.body.id && st.admissionDigest == a.digest && st.place == a.body.place
  }

  function FindLease(rows: seq<LeaseRow>, id: string): Option<LeaseRow> {
    if rows == [] then None
    else if rows[0].lease.body.id == id then Some(rows[0]) else FindLease(rows[1..], id)
  }

  // ---- The operations ----

  /** What a caller supplies to one acquisition. */
  datatype Terms = Terms(clock: Clock, seconds: int, revision: string)

  predicate Insertable(rows: seq<LeaseRow>, l: Lease) {
    forall r | r in rows ::
      && r.lease.body.id != l.body.id && r.lease.digest != l.digest
      && (r.lease.body.admissionId, r.lease.body.epoch) != (l.body.admissionId, l.body.epoch)
  }

  /** The epoch of the next lease, or why there is none. */
  function NextEpoch(s: Leases, a: Admission, observedAt: int): Result<int> {
    if a.body.id !in s.epochs then Ok(1) else
    var st := s.epochs[a.body.id];
    if !StateBinds(st, a) then Err("EPOCH_STATE_BINDING_INVALID")
    else if st.completion.Some? then Err("EXECUTION_ALREADY_COMPLETED")
    else
      var previous := FindLease(s.rows, st.current.leaseId);
      if previous.None? then Err("CURRENT_LEASE_NOT_FOUND")
      else if !LeaseBinds(previous.value.lease, a) then Err("LEASE_ADMISSION_BINDING_MISMATCH")
      else if CurrentOf(previous.value.lease) != st.current then Err("EPOCH_STATE_LEASE_BINDING_INVALID")
      else if observedAt < previous.value.lease.body.expiresAt then Err("LEASE_STILL_ACTIVE")
      else Ok(st.current.epoch + 1)
  }

  function Acquire(d: Digest, s: Leases, a: Admission, t: Terms): Result<(Leases, Lease)> {
    var epoch := NextEpoch(s, a, t.clock.observedAt);
    if epoch.Err? then Err(epoch.reason)
    else if t.clock.environment != a.body.place.environment then Err("CLOCK_ENVIRONMENT_MISMATCH")
    else if !(1 <= t.seconds <= MAX_LEASE_SECONDS) then Err("lease_seconds must be between 1 and 3600")
    else
      var l := MakeLease(d, a, epoch.value, t.clock, t.seconds, t.revision);
      if !Insertable(s.rows, l) then Err("LEASE_PERSISTENCE_CONFLICT")
      else Ok((Leases(s.rows + [LeaseRow(l, t.clock)],
                      s.epochs[a.body.id := EpochState(a.body.id, a.digest, a.body.place, CurrentOf(l), None)]), l))
  }

  /** The lease is the current, unexpired one. */
  predicate Fence(s: Leases, l: Lease, clock: Clock) {
    && l.body.admissionId in s.epochs
    && var st := s.epochs[l.body.admissionId];
    && st.completion.None? && st.admissionDigest == l.body.admissionDigest && st.place == l.body.place
    && st.current == CurrentOf(l)
    && (exists r | r in s.rows :: r.lease == l)
    && clock.environment == l.body.place.environment && l.body.acquiredAt <= clock.observedAt < l.body.expiresAt
  }

  datatype Completion = Completed | DuplicateCompletion

  function Complete(s: Leases, leaseId: string, completion: string, clock: Clock): Result<(Leases, Completion)> {
    var row := FindLease(s.rows, leaseId);
    if row.None? then Err("LEASE_NOT_FOUND") else
    var l := row.value.lease;
    if l.body.admissionId !in s.epochs then Err("EPOCH_STATE_NOT_FOUND") else
    var st := s.epochs[l.body.admissionId];
    if st.current.epoch != l.body.epoch then Err("STALE_EXECUTION_EPOCH")
    else if st.current != CurrentOf(l) then Err("CURRENT_LEASE_ID_MISMATCH")
    else if st.completion.Some? then
      if st.completion.value == completion then Ok((s, DuplicateCompletion)) else Err("COMPLETION_DIGEST_CONFLICT")
    else if clock.environment != l.body.place.environment then Err("CLOCK_ENVIRONMENT_MISMATCH")
    else if clock.observedAt < l.body.acquiredAt then Err("CLOCK_BEFORE_LEASE")
    else if clock.observedAt >= l.body.expiresAt then Err("LEASE_EXPIRED")
    else Ok((s.(epochs := s.epochs[l.body.admissionId := st.(completion := Some(completion))]), Completed))
  }

  // ---- What every reachable state satisfies ----

  /** The leases of one admission are numbered up to the current one and follow one another in time. */
  ghost predicate RowFits(d: Digest, s: Leases, r: LeaseRow) {
    && ValidLease(d, r.lease) && r.lease.body.admissionId in s.epochs
    && r.clock == Clock(r.lease.body.place.environment, r.lease.body.acquiredAt, r.lease.body.clockDigest)
    && var st := s.epochs[r.lease.body.admissionId];
    && r.lease.body.epoch <= st.current.epoch
    && (r.lease.body.epoch == st.current.epoch ==> CurrentOf(r.lease) == st.current)
    && (r.lease.body.epoch < st.current.epoch ==> r.lease.body.expiresAt <= st.current.acquiredAt)
    && st.admissionDigest == r.lease.body.admissionDigest && st.place == r.lease.body.place
  }

  ghost predicate InOrder(r: LeaseRow, r': LeaseRow) {
    r.lease.body.admissionId == r'.lease.body.admissionId ==>
      && (r.lease.body.epoch < r'.lease.body.epoch ==> r.lease.body.expiresAt <= r'.lease.body.acquiredAt)
      && (r.lease.body.epoch == r'.lease.body.epoch ==> r == r')
  }

  ghost predicate HasRow(s: Leases, admissionId: string, epoch: int) {
    exists r :: r in s.rows && r.lease.body.admissionId == admissionId && r.lease.body.epoch == epoch
  }

  ghost predicate Sound(d: Digest, s: Leases) {
    && (forall r | r in s.rows :: RowFits(d, s, r))
    && (forall r, r' | r in s.rows && r' in s.rows :: InOrder(r, r'))
    && (forall i, j | 0 <= i < j < |s.rows| :: s.rows[i].lease.body.id != s.rows[j].lease.body.id)
    && (forall id | id in s.epochs :: s.epochs[id].admissionId == id)
    && (forall id, k | id in s.epochs && 1 <= k <= s.epochs[id].current.epoch :: HasRow(s, id, k))
    && (forall id | id in s.epochs :: s.epochs[id].current.epoch >= 1)
  }

  lemma {:induction false} FindLeaseFinds(rows: seq<LeaseRow>, id: string)
    ensures FindLease(rows, id).Some? ==> FindLease(rows, id).value in rows && FindLease(rows, id).value.lease.body.id == id
    ensures FindLease(rows, id).None? <==> forall r | r in rows :: r.lease.body.id != id
  {
    if rows != [] {
      FindLeaseFinds(rows[1..], id);
      assert rows == [rows[0]] + rows[1..];
    }
  }

  /** Before a new lease of the admission, every earlier one has expired. */
  lemma EarlierHaveExpired(d: Digest, s: Leases, a: Admission, observedAt: int, r: LeaseRow)
    requires Sound(d, s) && NextEpoch(s, a, observedAt).Ok? && r in s.rows && r.lease.body.admissionId == a.body.id
    ensures r.lease.body.expiresAt <= observedAt && r.lease.body.epoch < NextEpoch(s, a, observedAt).value
    ensures a.body.id in s.epochs && StateBinds(s.epochs[a.body.id], a)
  {
    assert RowFits(d, s, r);
    var st := s.epochs[a.body.id];
    FindLeaseFinds(s.rows, st.current.leaseId);
    assert RowFits(d, s, FindLease(s.rows, st.current.leaseId).value);
  }

  /** What an acquisition makes of the state. */
  ghost predicate Acquired(s: Leases, a: Admission, l: Lease, clock: Clock, s': Leases) {
    && s'.rows == s.rows + [LeaseRow(l, clock)]
    && s'.epochs == s.epochs[a.body.id := EpochState(a.body.id, a.digest, a.body.place, CurrentOf(l), None)]
  }

  lemma AcquireMakes(d: Digest, s: Leases, a: Admission, t: Terms)
    requires Acquire(d, s, a, t).Ok?
    ensures var (s', l) := Acquire(d, s, a, t).value;
      && NextEpoch(s, a, t.clock.observedAt) == Ok(l.body.epoch)
      && l == MakeLease(d, a, l.body.epoch, t.clock, t.seconds, t.revision)
      && Acquired(s, a, l, t.clock, s') && Insertable(s.rows, l)
      && t.clock.environment == a.body.place.environment && 1 <= t.seconds <= MAX_LEASE_SECONDS
  {
  }

  lemma EpochsArePositive(d: Digest, s: Leases, a: Admission, observedAt: int)
    requires Sound(d, s) && NextEpoch(s, a, observedAt).Ok?
    ensures NextEpoch(s, a, observedAt).value == if a.body.id in s.epochs then s.epochs[a.body.id].current.epoch + 1 else 1
    ensures NextEpoch(s, a, observedAt).value >= 1
  {
  }

  lemma NewRowFits(d: Digest, s: Leases, a: Admission, t: Terms, s': Leases, l: Lease)
    requires Sound(d, s) && Acquire(d, s, a, t) == Ok((s', l))
    ensures RowFits(d, s', LeaseRow(l, t.clock)) && ValidLease(d, l)
  {
    AcquireMakes(d, s, a, t);
    EpochsArePositive(d, s, a, t.clock.observedAt);
  }

  lemma OldRowFits(d: Digest, s: Leases, a: Admission, t: Terms, s': Leases, l: Lease, r: LeaseRow)
    requires Sound(d, s) && Acquire(d, s, a, t) == Ok((s', l)) && r in s.rows
    ensures RowFits(d, s', r) && InOrder(r, LeaseRow(l, t.clock)) && InOrder(LeaseRow(l, t.clock), r)
  {
    AcquireMakes(d, s, a, t);
    assert RowFits(d, s, r);
    if r.lease.body.admissionId == a.body.id {
      EarlierHaveExpired(d, s, a, t.clock.observedAt, r);
      assert l.body.acquiredAt == t.clock.observedAt;
    }
  }

  lemma RowsStayNumbered(d: Digest, s: Leases, a: Admission, t: Terms, s': Leases, l: Lease, id: string, k: int)
    requires Sound(d, s) && Acquire(d, s, a, t) == Ok((s', l)) && id in s'.epochs && 1 <= k <= s'.epochs[id].current.epoch
    ensures HasRow(s', id, k)
  {
    AcquireMakes(d, s, a, t);
    EpochsArePositive(d, s, a, t.clock.observedAt);
    if id == a.body.id && k == l.body.epoch {
      assert LeaseRow(l, t.clock) in s'.rows;
    } else {
      assert HasRow(s, id, k);
      var r :| r in s.rows && r.lease.body.admissionId == id && r.lease.body.epoch == k;
      assert r in s'.rows;
    }
  }

  lemma AcquireKeepsSound(d: Digest, s: Leases, a: Admission, t: Terms, s': Leases, l: Lease)
    requires Sound(d, s) && Acquire(d, s, a, t) == Ok((s', l))
    ensures Sound(d, s')
  {
    AcquireMakes(d, s, a, t);
    NewRowFits(d, s, a, t, s', l);
    EpochsArePositive(d, s, a, t.clock.observedAt);
    forall r | r in s.rows ensures RowFits(d, s', r) && InOrder(r, LeaseRow(l, t.clock)) && InOrder(LeaseRow(l, t.clock), r) {
      OldRowFits(d, s, a, t, s', l, r);
    }
    forall id, k | id in s'.epochs && 1 <= k <= s'.epochs[id].current.epoch ensures HasRow(s', id, k) {
      RowsStayNumbered(d, s, a, t, s', l, id, k);
    }
  }

  lemma CompleteKeepsSound(d: Digest, s: Leases, leaseId: string, completion: string, clock: Clock)
    requires Sound(d, s) && Complete(s, leaseId, completion, clock).Ok?
    ensures Sound(d, Complete(s, leaseId, completion, clock).value.0)
  {
    var s' := Complete(s, leaseId, completion, clock).value.0;
    forall r | r in s'.rows ensures RowFits(d, s', r) {
      assert RowFits(d, s, r);
    }
    forall id, k | id in s'.epochs && 1 <= k <= s'.epochs[id].current.epoch ensures HasRow(s', id, k) {
      assert HasRow(s, id, k);
    }
  }

  // ---- Runs ----

  datatype Action =
    | DoAcquire(admission: Admission, terms: Terms)
    | DoComplete(leaseId: string, completion: string, clock: Clock)

  function Next(d: Digest, s: Leases, a: Action): Leases {
    match a
    case DoAcquire(admission, terms) =>
      var r := Acquire(d, s, admission, terms);
      if r.Ok? then r.value.0 else s
    case DoComplete(leaseId, completion, clock) =>
      var r := Complete(s, leaseId, completion, clock);
      if r.Ok? then r.value.0 else s
  }

  function Run(d: Digest, actions: seq<Action>): Leases {
    if actions == [] then Leases([], map[])
    else Next(d, Run(d, actions[..|actions| - 1]), actions[|actions| - 1])
  }

  lemma NextKeepsSound(d: Digest, s: Leases, a: Action)
    requires Sound(d, s)
    ensures Sound(d, Next(d, s, a))
  {
    match a
    case DoAcquire(admission, terms) =>
      var r := Acquire(d, s, admission, terms);
      if r.Ok? { AcquireKeepsSound(d, s, admission, terms, r.value.0, r.value.1); }
    case DoComplete(leaseId, completion, clock) =>
      if Complete(s, leaseId, completion, clock).Ok? { CompleteKeepsSound(d, s, leaseId, completion, clock); }
  }

  lemma {:induction false} RunIsSound(d: Digest, actions: seq<Action>)
    ensures Sound(d, Run(d, actions))
  {
    if actions != [] {
      RunIsSound(d, actions[..|actions| - 1]);
      NextKeepsSound(d, Run(d, actions[..|actions| - 1]), actions[|actions| - 1]);
    }
  }

  /** At no instant are two leases of one admission valid, whatever the clocks of the callers said. */
  lemma AtMostOneLeaseIsValid(d: Digest, actions: seq<Action>, r: LeaseRow, r': LeaseRow, at: int)
    requires r in Run(d, actions).rows && r' in Run(d, actions).rows
    requires r.lease.body.admissionId == r'.lease.body.admissionId
    requires r.lease.body.acquiredAt <= at < r.lease.body.expiresAt
    requires r'.lease.body.acquiredAt <= at < r'.lease.body.expiresAt
    ensures r == r'
  {
    RunIsSound(d, actions);
    assert InOrder(r, r') && InOrder(r', r);
  }

  /** The epochs of an admission run 1, 2, 3, ... up to the current one, one lease each. */
  lemma EpochsAreNumbered(d: Digest, actions: seq<Action>, id: string, k: int)
    requires id in Run(d, actions).epochs
    ensures var s := Run(d, actions);
      HasRow(s, id, k) <==> 1 <= k <= s.epochs[id].current.epoch
  {
    var s := Run(d, actions);
    RunIsSound(d, actions);
    if r :| r in s.rows && r.lease.body.admissionId == id && r.lease.body.epoch == k {
      assert RowFits(d, s, r);
    }
    assert 1 <= k <= s.epochs[id].current.epoch ==> HasRow(s, id, k);
  }

  // ---- Completion ----

  /** A lease that is not the current one of its admission cannot complete, not even as a duplicate. */
  lemma StaleLeaseCannotComplete(d: Digest, actions: seq<Action>, r: LeaseRow, completion: string, clock: Clock)
    requires r in Run(d, actions).rows && r.lease.body.admissionId in Run(d, actions).epochs
    requires r.lease.body.epoch != Run(d, actions).epochs[r.lease.body.admissionId].current.epoch
    ensures Complete(Run(d, actions), r.lease.body.id, completion, clock) == Err("STALE_EXECUTION_EPOCH")
  {
    RunIsSound(d, actions);
    FindLeaseFinds(Run(d, actions).rows, r.lease.body.id);
  }

  /** A completed execution stays completed with the digest it was completed with, and gets no new lease. */
  lemma {:induction false} CompletionIsFinal(d: Digest, actions: seq<Action>, more: seq<Action>, id: string)
    requires id in Run(d, actions).epochs && Run(d, actions).epochs[id].completion.Some?
    ensures id in Run(d, actions + more).epochs && Run(d, actions + more).epochs[id] == Run(d, actions).epochs[id]
  {
    if more == [] {
      assert actions + more == actions;
    } else {
      var n := |actions + more| - 1;
      assert (actions + more)[..n] == actions + more[..|more| - 1];
      CompletionIsFinal(d, actions, more[..|more| - 1], id);
      CompletedStays(d, Run(d, (actions + more)[..n]), (actions + more)[n], id);
    }
  }

  lemma CompletedStays(d: Digest, s: Leases, a: Action, id: string)
    requires id in s.epochs && s.epochs[id].completion.Some?
    ensures id in Next(d, s, a).epochs && Next(d, s, a).epochs[id] == s.epochs[id]
  {
  }

  ghost predicate IdsDiffer(rows: seq<LeaseRow>) {
    forall i, j | 0 <= i < j < |rows| :: rows[i].lease.body.id != rows[j].lease.body.id
  }

  lemma SameIdSameRow(rows: seq<LeaseRow>, r: LeaseRow, r': LeaseRow)
    requires IdsDiffer(rows) && r in rows && r' in rows && r.lease.body.id == r'.lease.body.id
    ensures r == r'
  {
  }

  lemma FindsRow(rows: seq<LeaseRow>, r: LeaseRow)
    requires IdsDiffer(rows) && r in rows
    ensures FindLease(rows, r.lease.body.id) == Some(r)
  {
    FindLeaseFinds(rows, r.lease.body.id);
    SameIdSameRow(rows, r, FindLease(rows, r.lease.body.id).value);
  }

  /** The row of this lease, and the state of its admission repeats it. */
  ghost predicate IsCurrentRow(s: Leases, r: LeaseRow, leaseId: string) {
    var l := r.lease;
    && r in s.rows && l.body.id == leaseId && l.body.admissionId in s.epochs
    && s.epochs[l.body.admissionId].current == Current(l.body.epoch, l.body.id, l.digest, l.body.acquiredAt, l.body.expiresAt)
  }

  /** In a reachable state the lease that the admission's state names is repeated there. */
  lemma NamedIsCurrent(d: Digest, actions: seq<Action>, r: LeaseRow)
    requires var s := Run(d, actions);
      r in s.rows && r.lease.body.admissionId in s.epochs && s.epochs[r.lease.body.admissionId].current.leaseId == r.lease.body.id
    ensures IsCurrentRow(Run(d, actions), r, r.lease.body.id)
  {
    var s, id := Run(d, actions), r.lease.body.admissionId;
    RunIsSound(d, actions);
    assert HasRow(s, id, s.epochs[id].current.epoch);
    var q :| q in s.rows && q.lease.body.admissionId == id && q.lease.body.epoch == s.epochs[id].current.epoch;
    assert RowFits(d, s, q);
    SameIdSameRow(s.rows, r, q);
  }

  /**
   Exactly when a lease completes its execution, on any tables with distinct lease ids: the state of its
   admission repeats it, nothing is completed yet, and the clock is that of its environment and shows a
   time within the lease. It is a duplicate exactly when the digest is the one stored before.
   */
  lemma CompleteIsExact(s: Leases, leaseId: string, completion: string, clock: Clock)
    requires IdsDiffer(s.rows)
    ensures var r := Complete(s, leaseId, completion, clock);
      && (r.Ok? && r.value.1 == Completed <==>
            exists row :: IsCurrentRow(s, row, leaseId) && s.epochs[row.lease.body.admissionId].completion == None
              && clock.environment == row.lease.body.place.environment
              && row.lease.body.acquiredAt <= clock.observedAt && clock.observedAt < row.lease.body.expiresAt)
      && (r.Ok? && r.value.1 == DuplicateCompletion <==>
            exists row :: IsCurrentRow(s, row, leaseId) && s.epochs[row.lease.body.admissionId].completion == Some(completion))
    ensures var r := Complete(s, leaseId, completion, clock);
      r.Ok? && r.value.1 == DuplicateCompletion ==> r.value.0 == s
    ensures var r := Complete(s, leaseId, completion, clock);
      r.Ok? && r.value.1 == Completed ==> forall row | IsCurrentRow(s, row, leaseId) ::
        var id := row.lease.body.admissionId;
        var st := s.epochs[id];
        r.value.0 == Leases(s.rows, s.epochs[id := EpochState(st.admissionId, st.admissionDigest, st.place, st.current, Some(completion))])
  {
    var found := FindLease(s.rows, leaseId);
    FindLeaseFinds(s.rows, leaseId);
    forall row | IsCurrentRow(s, row, leaseId) ensures found == Some(row) {
      FindsRow(s.rows, row);
    }
  }

  /** The `m`-th action completed the execution of admission `id` under this lease, within it. */
  ghost predicate CompletedAt(d: Digest, actions: seq<Action>, m: nat, id: string, r: LeaseRow)
    requires m < |actions|
  {
    var s, s' := Run(d, actions[..m]), Run(d, actions[..m + 1]);
    && actions[m].DoComplete? && IsCurrentRow(s, r, actions[m].leaseId) && r.lease.body.admissionId == id
    && s.epochs[id].completion == None && id in s'.epochs && s'.epochs[id].completion == Some(actions[m].completion)
    && actions[m].clock.environment == r.lease.body.place.environment
    && r.lease.body.acquiredAt <= actions[m].clock.observedAt && actions[m].clock.observedAt < r.lease.body.expiresAt
  }

  lemma CompletionIsNew(d: Digest, s: Leases, a: Action, id: string) returns (r: LeaseRow)
    requires Sound(d, s) && id in Next(d, s, a).epochs && Next(d, s, a).epochs[id].completion.Some?
    requires id in s.epochs ==> s.epochs[id].completion.None?
    ensures a.DoComplete? && IsCurrentRow(s, r, a.leaseId) && r.lease.body.admissionId == id && s.epochs[id].completion == None
    ensures Next(d, s, a).epochs[id].completion == Some(a.completion) && Next(d, s, a).epochs[id].current == CurrentOf(r.lease)
    ensures a.clock.environment == r.lease.body.place.environment
    ensures r.lease.body.acquiredAt <= a.clock.observedAt && a.clock.observedAt < r.lease.body.expiresAt
  {
    AcquireCompletesNothing(d, s, a, id);
    CompleteIsExact(s, a.leaseId, a.completion, a.clock);
    r :| IsCurrentRow(s, r, a.leaseId) && a.clock.environment == r.lease.body.place.environment
      && r.lease.body.acquiredAt <= a.clock.observedAt && a.clock.observedAt < r.lease.body.expiresAt;
  }

  lemma AcquireCompletesNothing(d: Digest, s: Leases, a: Action, id: string)
    requires id in Next(d, s, a).epochs && Next(d, s, a).epochs[id].completion.Some?
    requires id in s.epochs ==> s.epochs[id].completion.None?
    ensures a.DoComplete?
  {
  }

  /** Every stored completion was made by one call of the run, under the lease current then and within it. */
  lemma {:induction false} CompletionWasInTime(d: Digest, actions: seq<Action>, id: string) returns (m: nat, r: LeaseRow)
    requires id in Run(d, actions).epochs && Run(d, actions).epochs[id].completion.Some?
    ensures m < |actions| && CompletedAt(d, actions, m, id, r)
    ensures Run(d, actions).epochs[id].completion == Some(actions[m].completion) && Run(d, actions).epochs[id].current == CurrentOf(r.lease)
  {
    var last := |actions| - 1;
    var s := Run(d, actions[..last]);
    assert actions[..last + 1] == actions;
    RunIsSound(d, actions[..last]);
    if id in s.epochs && s.epochs[id].completion.Some? {
      m, r := CompletionWasInTime(d, actions[..last], id);
      assert actions[..last][..m] == actions[..m] && actions[..last][..m + 1] == actions[..m + 1];
      CompletedStays(d, s, actions[last], id);
    } else {
      m := last;
      r := CompletionIsNew(d, s, actions[last], id);
    }
  }

  // ---- When a lease can be had ----

  /** All that was digested for the stored leases. */
  function StoredTexts(s: Leases): set<Claims> { set r, c | r in s.rows && c in LeaseTexts(r.lease) :: c }

  /** And what an acquisition digests. */
  function AcquireTexts(d: Digest, s: Leases, a: Admission, t: Terms): set<Claims> {
    var epoch := NextEpoch(s, a, t.clock.observedAt);
    if epoch.Err? then {} else LeaseTexts(MakeLease(d, a, epoch.value, t.clock, t.seconds, t.revision))
  }

  /** With distinct identities no acquisition runs into a constraint of the lease table. */
  lemma NextLeaseFits(d: Digest, s: Leases, a: Admission, t: Terms, epoch: int)
    requires CollisionFree(d, StoredTexts(s) + AcquireTexts(d, s, a, t)) && Sound(d, s) && NextEpoch(s, a, t.clock.observedAt) == Ok(epoch)
    ensures Insertable(s.rows, MakeLease(d, a, epoch, t.clock, t.seconds, t.revision))
  {
    var l := MakeLease(d, a, epoch, t.clock, t.seconds, t.revision);
    forall r | r in s.rows ensures
      && r.lease.body.id != l.body.id && r.lease.digest != l.digest
      && (r.lease.body.admissionId, r.lease.body.epoch) != (l.body.admissionId, l.body.epoch)
    {
      assert RowFits(d, s, r);
      assert LeaseTexts(r.lease) <= StoredTexts(s) && LeaseTexts(l) == AcquireTexts(d, s, a, t);
      assert NoCollision(d, LeaseIdentity(r.lease.body.admissionId, r.lease.body.epoch), LeaseIdentity(a.body.id, epoch));
      assert NoCollision(d, LeaseClaims(r.lease.body), LeaseClaims(l.body));
      if r.lease.body.admissionId == a.body.id {
        EarlierHaveExpired(d, s, a, t.clock.observedAt, r);
      }
    }
  }

  /** The row of the current lease is that of this admission and repeated by its state. */
  ghost predicate HoldsLast(st: EpochState, a: Admission, r: LeaseRow) {
    var l := r.lease.body;
    && l.id == st.current.leaseId && l.dispatchId == a.body.dispatchId && l.admissionId == a.body.id
    && l.admissionDigest == a.digest && l.place == a.body.place
    && st.current == Current(l.epoch, l.id, r.lease.digest, l.acquiredAt, l.expiresAt)
  }

  /** The admission has no lease yet, or its state and current lease are its own, not completed and expired. */
  ghost predicate Leasable(s: Leases, a: Admission, observedAt: int) {
    a.body.id in s.epochs ==>
      var st := s.epochs[a.body.id];
      && st.admissionId == a.body.id && st.admissionDigest == a.digest && st.place == a.body.place && st.completion == None
      && exists r :: r in s.rows && HoldsLast(st, a, r) && r.lease.body.expiresAt <= observedAt
  }

  /** On any tables with distinct lease ids. */
  lemma NextEpochIsExact(s: Leases, a: Admission, observedAt: int)
    requires IdsDiffer(s.rows)
    ensures NextEpoch(s, a, observedAt).Ok? <==> Leasable(s, a, observedAt)
    ensures NextEpoch(s, a, observedAt).Ok? ==>
      NextEpoch(s, a, observedAt).value == if a.body.id in s.epochs then s.epochs[a.body.id].current.epoch + 1 else 1
  {
    if a.body.id in s.epochs {
      var st := s.epochs[a.body.id];
      FindLeaseFinds(s.rows, st.current.leaseId);
      forall r | r in s.rows && HoldsLast(st, a, r) ensures FindLease(s.rows, st.current.leaseId) == Some(r) {
        FindsRow(s.rows, r);
      }
    }
  }

  /**
   A lease is had exactly when the admission is leasable, the clock is that of its environment and
   the length is allowed; the constraints of the lease table never stand in the way. It starts when it
   is had, lasts as long as asked, has the next epoch and becomes the current one.
   */
  lemma AcquireIsExact(d: Digest, s: Leases, a: Admission, t: Terms)
    requires CollisionFree(d, StoredTexts(s) + AcquireTexts(d, s, a, t)) && Sound(d, s)
    ensures Acquire(d, s, a, t).Ok? <==>
      && Leasable(s, a, t.clock.observedAt)
      && t.clock.environment == a.body.place.environment && 1 <= t.seconds <= 3600
    ensures Acquire(d, s, a, t).Ok? ==>
      var (s', l) := Acquire(d, s, a, t).value;
      && l.body == LeaseBody(l.body.id, a.body.dispatchId, a.body.id, a.digest, a.body.place,
                             if a.body.id in s.epochs then s.epochs[a.body.id].current.epoch + 1 else 1,
                             t.clock.observedAt, t.clock.observedAt + t.seconds * 1000, t.clock.digest, t.revision)
      && s'.rows == s.rows + [LeaseRow(l, t.clock)]
      && s'.epochs == s.epochs[a.body.id := EpochState(a.body.id, a.digest, a.body.place,
           Current(l.body.epoch, l.body.id, l.digest, l.body.acquiredAt, l.body.expiresAt), None)]
  {
    NextEpochIsExact(s, a, t.clock.observedAt);
    if NextEpoch(s, a, t.clock.observedAt).Ok? {
      NextLeaseFits(d, s, a, t, NextEpoch(s, a, t.clock.observedAt).value);
    }
  }

  /** No two stored leases share an id, a digest, or an epoch of one admission, and none is longer than allowed. */
  ghost predicate TableIsKept(rows: seq<LeaseRow>) {
    && (forall i, j | 0 <= i < j < |rows| ::
          && rows[i].lease.body.id != rows[j].lease.body.id && rows[i].lease.digest != rows[j].lease.digest
          && (rows[i].lease.body.admissionId != rows[j].lease.body.admissionId || rows[i].lease.body.epoch != rows[j].lease.body.epoch))
    && (forall r | r in rows :: r.lease.body.acquiredAt < r.lease.body.expiresAt && r.lease.body.expiresAt <= r.lease.body.acquiredAt + 3_600_000)
  }

  lemma OneMoreLease(rows: seq<LeaseRow>, r: LeaseRow)
    requires TableIsKept(rows) && Insertable(rows, r.lease)
    requires r.lease.body.acquiredAt < r.lease.body.expiresAt && r.lease.body.expiresAt <= r.lease.body.acquiredAt + 3_600_000
    ensures TableIsKept(rows + [r])
  {
  }

  /** The constraints of the lease table hold after every run, whatever the digests. */
  lemma {:induction false} RunKeepsTable(d: Digest, actions: seq<Action>)
    ensures TableIsKept(Run(d, actions).rows)
  {
    if actions != [] {
      var s, a := Run(d, actions[..|actions| - 1]), actions[|actions| - 1];
      RunKeepsTable(d, actions[..|actions| - 1]);
      if a.DoAcquire? && Acquire(d, s, a.admission, a.terms).Ok? {
        AcquireMakes(d, s, a.admission, a.terms);
        var l := Acquire(d, s, a.admission, a.terms).value.1;
        OneMoreLease(s.rows, LeaseRow(l, a.terms.clock));
      }
    }
  }

  /** An accepted call takes effect in the run, and a refused one has none. */
  lemma CallsTakeEffect(d: Digest, actions: seq<Action>, a: Action)
    ensures a.DoAcquire? ==>
      var r := Acquire(d, Run(d, actions), a.admission, a.terms);
      Run(d, actions + [a]) == if r.Ok? then r.value.0 else Run(d, actions)
    ensures a.DoComplete? ==>
      var r := Complete(Run(d, actions), a.leaseId, a.completion, a.clock);
      Run(d, actions + [a]) == if r.Ok? then r.value.0 else Run(d, actions)
  {
    assert (actions + [a])[..|actions|] == actions;
  }

  function FindById(rows: seq<Admission>, id: string): Option<Admission> {
    if rows == [] then None
    else if rows[0].body.id == id then Some(rows[0]) else FindById(rows[1..], id)
  }

  // ---- The service ----

  class DurableExecutionLeaseService {
    const digest: Digest
    const seconds: int
    const revision: string
    var leases: Leases

    constructor (digest: Digest, seconds: int, revision: string)
      ensures this.digest == digest && this.seconds == seconds && this.revision == revision
      ensures leases == Leases([], map[]) && Sound(digest, leases)
    {
      this.digest := digest;
      this.seconds := seconds;
      this.revision := revision;
      leases := Leases([], map[]);
    }

    /** Looks the admission up in the inbox and leases it, in one transaction. */
    method AcquireLease(inbox: seq<Admission>, admissionId: string, clock: Clock) returns (r: Result<Lease>)
      requires Sound(digest, leases)
      modifies this
      ensures var found := FindById(inbox, admissionId);
        if found.None? then r == Err("ADMISSION_NOT_FOUND") && leases == old(leases)
        else
          var expected := Acquire(digest, old(leases), found.value, Terms(clock, seconds, revision));
          if expected.Ok? then r.Ok? && (leases, r.value) == expected.value else r.Err? && leases == old(leases)
      ensures Sound(digest, leases)
    {
      var found := FindById(inbox, admissionId);
      if found.None? { return Err("ADMISSION_NOT_FOUND"); }
      var a := found.value;
      var chosen := ChooseEpoch(a, clock.observedAt);
      if chosen.Err? { return Err(chosen.reason); }
      if clock.environment != a.body.place.environment { return Err("CLOCK_ENVIRONMENT_MISMATCH"); }
      if !(1 <= seconds <= MAX_LEASE_SECONDS) { return Err("lease_seconds must be between 1 and 3600"); }
      var l := MakeLease(digest, a, chosen.value, clock, seconds, revision);
      if !Insertable(leases.rows, l) { return Err("LEASE_PERSISTENCE_CONFLICT"); }
      ghost var after := Acquire(digest, leases, a, Terms(clock, seconds, revision)).value.0;
      AcquireKeepsSound(digest, leases, a, Terms(clock, seconds, revision), after, l);
      leases := leases.(rows := leases.rows + [LeaseRow(l, clock)]);
      leases := leases.(epochs := leases.epochs[a.body.id := EpochState(a.body.id, a.digest, a.body.place, CurrentOf(l), None)]);
      assert leases == after;
      return Ok(l);
    }

    /** The epoch after the current one, if that lease has expired and the execution is not completed. */
    method ChooseEpoch(a: Admission, observedAt: int) returns (r: Result<int>)
      ensures r == NextEpoch(leases, a, observedAt)
    {
      if a.body.id !in leases.epochs { return Ok(1); }
      var st := leases.epochs[a.body.id];
      if !StateBinds(st, a) { return Err("EPOCH_STATE_BINDING_INVALID"); }
      if st.completion.Some? { return Err("EXECUTION_ALREADY_COMPLETED"); }
      var previous := FindLease(leases.rows, st.current.leaseId);
      if previous.None? { return Err("CURRENT_LEASE_NOT_FOUND"); }
      if !LeaseBinds(previous.value.lease, a) { return Err("LEASE_ADMISSION_BINDING_MISMATCH"); }
      if CurrentOf(previous.value.lease) != st.current { return Err("EPOCH_STATE_LEASE_BINDING_INVALID"); }
      if observedAt < previous.value.lease.body.expiresAt { return Err("LEASE_STILL_ACTIVE"); }
      return Ok(st.current.epoch + 1);
    }
  }
}

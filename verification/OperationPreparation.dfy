/**
 When a preparation succeeds: an order whose identities are unused, whose authorities agree and whose
 clocks are in time is carried through, from the snapshot to its first lease, whatever other callers
 do between its calls, as long as they spare its identities and its authority.
 */
module OperationPreparation {
  import opened Wrappers
  import opened DispatchContracts
  import opened DispatchInbox
  import opened ExecutionLeases
  import opened OperationLineage
  import opened OperationResume
  import Auth = Snapshots

  // ---- What the order will become ----

  /** An order given to the pipeline in world `start`; `others[k]` are the calls of others before its own call `k`. */
  datatype Case = Case(h: Hashes, cfg: Config, start: World, order: Order, revision: string, others: seq<seq<Call>>)

  /** The authorities will agree, and there is a slot for others before each of the twelve calls. */
  predicate Posed(x: Case) { Auth.Allowed(x.order.answers).Ok? && |x.others| == 12 }

  function Proposed(x: Case): Auth.Snapshot { x.order.proposal.snapshot }

  /** The grant that will be stored; it does not depend on the evidence. */
  function GrantOf(x: Case): Grant
    requires Posed(x)
  {
    var n, times, t := Proposed(x), Auth.Allowed(x.order.answers).value, x.order.grantTerms;
    var g := Grant(Ticket(t.jti, t.grantId, ""), n.subject, n.policy, t.binding, times.0, times.1, EpochOf(x.start, n.subject), t.rest);
    g.(ticket := Ticket(t.jti, t.grantId, x.h.lineage(GrantClaims(g))))
  }

  /** What the issuer will return, given the evidence recorded with the snapshot. */
  function IssuedOf(x: Case, e: Auth.Evidence): Auth.Grant
    requires Posed(x)
  {
    var n, times := Proposed(x), Auth.Allowed(x.order.answers).value;
    Auth.Grant(n, EpochOf(x.start, n.subject), e, times.0, times.1)
  }

  function GrantRowOf(x: Case): GrantRow
    requires Posed(x)
  {
    GrantRow(GrantOf(x), MakeConformance(x.h, GrantOf(x), x.order.grantTerms.conformance), x.order.grantTerms.clock)
  }

  function ConsumptionOf(x: Case): ConsumptionRow
    requires Posed(x)
  {
    MakeConsumption(x.h, GrantOf(x), x.order.consumeTerms)
  }

  function EntryOf(x: Case): Outbox
    requires Posed(x)
  {
    MakeEntry(x.h, GrantOf(x), x.order.consumeTerms)
  }

  function EnvelopeOf(x: Case): Envelope
    requires Posed(x)
  {
    MakeEnvelope(x.h.dispatch, EntryOf(x), x.cfg.envelopeRevision)
  }

  function AdmissionOf(x: Case): Admission
    requires Posed(x)
  {
    MakeAdmission(x.h.dispatch, EnvelopeOf(x), EntryOf(x), x.revision)
  }

  function LeaseOf(x: Case): Lease
    requires Posed(x)
  {
    MakeLease(x.h.dispatch, AdmissionOf(x), 1, x.order.leaseTerms.clock, x.order.leaseTerms.seconds, x.order.leaseTerms.revision)
  }

  function PartsOf(x: Case): Parts
    requires Posed(x)
  {
    Parts(Proposed(x), GrantOf(x), EntryOf(x), EnvelopeOf(x), AdmissionOf(x), LeaseOf(x))
  }

  /** All that will be digested for the order from its entry on. */
  function TextsOf(x: Case): set<Claims>
    requires Posed(x)
  {
    EntryTexts(EntryOf(x)) + DeliveryTexts(x.h.dispatch, EnvelopeOf(x), x.revision) + LeaseTexts(LeaseOf(x))
  }

  // ---- A good order ----

  /** The snapshot can be created now, as a new one. */
  ghost predicate Creatable(x: Case) {
    var s, p := x.start.authority.state, x.order.proposal;
    && Auth.ValidSnapshot(x.h.authority, p.snapshot) && Auth.RequestBound(s, p) && !s.stopped
    && p.key !in s.rows && Auth.Unused(x.h.authority, s.rows, p.snapshot)
  }

  /** The authorities agree and the clocks of the later calls are in time. */
  ghost predicate Agreed(x: Case)
    requires Posed(x)
  {
    var o, g := x.order, GrantOf(x);
    && o.answers.narrower
    && ClockWithin(o.grantTerms.clock, g) && o.grantTerms.permitted
    && ClockWithin(o.consumeTerms.clock, g) && o.consumeTerms.permitted
    && o.leaseTerms.clock.environment == g.subject.environment && 1 <= o.leaseTerms.seconds <= MAX_LEASE_SECONDS
  }

  /** No stored row uses an identity of the order. */
  ghost predicate Unclaimed(x: Case, w: World)
    requires Posed(x)
  {
    && Grantable(w.grants, GrantOf(x)) && Consumable(w.consumptions, ConsumptionOf(x).consumption)
    && Enqueueable(w.store.outboxes, EntryOf(x))
  }

  ghost predicate GoodOrder(x: Case)
    requires Posed(x)
  {
    Creatable(x) && Agreed(x) && Unclaimed(x, x.start)
  }

  // ---- The calls of the order and those of others ----

  function OwnCall(x: Case, e: Auth.Evidence, k: nat): Call
    requires Posed(x)
  {
    if k == 0 then CallAuthority(Auth.CreateSnapshot(x.order.proposal))
    else if k == 1 then CallAuthority(Auth.BeginIssue(x.order.caller, Proposed(x), x.order.answers))
    else if k <= 7 then CallAuthority(Auth.Advance(x.order.caller))
    else if k == 8 then CallIssue(IssuedOf(x, e), x.order.grantTerms)
    else if k == 9 then CallConsume(x.order.grantTerms.jti, x.order.consumeTerms)
    else if k == 10 then CallAdmit(EnvelopeOf(x), x.revision)
    else CallAcquire(AdmissionOf(x).body.id, x.order.leaseTerms)
  }

  /** The world after `k` own calls, and then after the next calls of others. */
  function Before(x: Case, e: Auth.Evidence, k: nat): World
    requires Posed(x) && k <= 12
    decreases k, |x.others|, 0
  {
    if k == 0 then x.start else After(x.h, At(x, e, k - 1), OwnCall(x, e, k - 1))
  }

  function At(x: Case, e: Auth.Evidence, k: nat): World
    requires Posed(x) && k < 12
    decreases k, |x.others|, 1
  {
    AfterAll(x.h, Before(x, e, k), x.others[k])
  }

  /** What happened in between left the authority alone and claimed no identity of the order. */
  ghost predicate Spares(x: Case, w: World, w': World)
    requires Posed(x)
  {
    && EpochOf(w', Proposed(x).subject) == EpochOf(w, Proposed(x).subject)
    && (w'.authority.state.stopped ==> w.authority.state.stopped)
    && Auth.SameIssuer(w.authority, w'.authority, x.order.caller)
    && (forall r | r in w'.grants :: r in w.grants || Grantable([r], GrantOf(x)))
    && (forall r | r in w'.consumptions :: r in w.consumptions || Consumable([r], ConsumptionOf(x).consumption))
    && (forall p | p in w'.store.outboxes :: p in w.store.outboxes || Enqueueable([p], EntryOf(x)))
    && (forall a | a in w'.store.inbox :: a in w.store.inbox || a.body.dispatchId != EnvelopeOf(x).body.dispatchId)
    && (AdmissionOf(x).body.id in w'.leases.epochs ==> AdmissionOf(x).body.id in w.leases.epochs)
  }

  /** The slot before the creation is empty: the order is good when it is placed. */
  ghost predicate Spared(x: Case, e: Auth.Evidence)
    requires Posed(x)
  {
    x.others[0] == [] && forall k | 0 < k < 12 :: Spares(x, Before(x, e, k), At(x, e, k))
  }

  // ---- The snapshot and its evidence ----

  /** The snapshot is stored, and its authority is as recorded. */
  ghost predicate Ready(x: Case, e: Auth.Evidence, w: World) {
    var s, n := w.authority.state, Proposed(x);
    && Auth.SoundSystem(x.h.authority, w.authority) && IsStored(w, n) && !s.stopped
    && Auth.Load(x.h.authority, s, n) == Ok(e) && e.epoch == EpochOf(w, n.subject) == EpochOf(x.start, n.subject)
  }

  /** The evidence recorded with the snapshot when that is created. */
  function Recorded(x: Case): Result<Auth.Evidence> {
    Auth.Load(x.h.authority, After(x.h, x.start, CallAuthority(Auth.CreateSnapshot(x.order.proposal))).authority.state, Proposed(x))
  }

  lemma Creates(x: Case, w: World) returns (e: Auth.Evidence)
    requires Auth.SoundSystem(x.h.authority, x.start.authority) && Creatable(x)
    requires w == After(x.h, x.start, CallAuthority(Auth.CreateSnapshot(x.order.proposal)))
    ensures Recorded(x) == Ok(e) && Ready(x, e, w) && w == x.start.(authority := w.authority)
  {
    var s, a := x.start.authority.state, Auth.CreateSnapshot(x.order.proposal);
    assert Auth.Inserts(x.h.authority, s, a);
    Auth.InsertingEffect(x.h.authority, s, a);
    Auth.InsertedNow(x.h.authority, s, a, x.order.proposal.key);
    Auth.NextKeepsSound(x.h.authority, x.start.authority, a, w.authority);
    assert x.order.proposal.key in w.authority.state.rows;
    e := Auth.Load(x.h.authority, w.authority.state, Proposed(x)).value;
  }

  lemma {:induction false} LoadStays(h: Hashes, w: World, calls: seq<Call>, n: Auth.Snapshot)
    requires Auth.SoundSystem(h.authority, w.authority) && Auth.Load(h.authority, w.authority.state, n).Ok?
    ensures var y := AfterAll(h, w, calls).authority;
      Auth.SoundSystem(h.authority, y) && Auth.Load(h.authority, y.state, n) == Auth.Load(h.authority, w.authority.state, n)
  {
    if calls != [] {
      var v, c := AfterAll(h, w, calls[..|calls| - 1]), calls[|calls| - 1];
      LoadStays(h, w, calls[..|calls| - 1], n);
      if c.CallAuthority? {
        Auth.NextState(h.authority, v.authority, c.action);
        Auth.LoadIsStable(h.authority, v.authority.state, c.action, n);
        Auth.NextKeepsSound(h.authority, v.authority, c.action, After(h, v, c).authority);
      } else {
        OthersLeaveAuthority(h, v, c);
      }
    }
  }

  lemma OthersKeepReady(x: Case, e: Auth.Evidence, w: World, calls: seq<Call>, w': World)
    requires Posed(x) && Ready(x, e, w) && w' == AfterAll(x.h, w, calls) && Spares(x, w, w')
    ensures Ready(x, e, w')
  {
    LoadStays(x.h, w, calls, Proposed(x));
    AfterAllGrows(x.h, w, calls);
    StillStored(w, w', Proposed(x));
  }

  lemma OthersKeepUnclaimed(x: Case, w: World, w': World)
    requires Posed(x) && Spares(x, w, w')
    ensures Grantable(w.grants, GrantOf(x)) ==> Grantable(w'.grants, GrantOf(x))
    ensures Consumable(w.consumptions, ConsumptionOf(x).consumption) ==> Consumable(w'.consumptions, ConsumptionOf(x).consumption)
    ensures Enqueueable(w.store.outboxes, EntryOf(x)) ==> Enqueueable(w'.store.outboxes, EntryOf(x))
  {
    assert forall r | r in w'.grants :: r in w.grants || r in [r];
  }

  // ---- The issuer ----

  /** The order is under way: its snapshot is ready and its other identities are still free. */
  ghost predicate UnderWay(x: Case, e: Auth.Evidence, w: World)
    requires Posed(x)
  {
    Ready(x, e, w) && Unclaimed(x, w)
  }

  lemma OthersKeepUnderWay(x: Case, e: Auth.Evidence, k: nat)
    requires Posed(x) && Spared(x, e) && 0 < k < 12 && UnderWay(x, e, Before(x, e, k))
    ensures UnderWay(x, e, At(x, e, k)) && Auth.SameIssuer(Before(x, e, k).authority, At(x, e, k).authority, x.order.caller)
  {
    OthersKeepReady(x, e, Before(x, e, k), x.others[k], At(x, e, k));
    OthersKeepUnclaimed(x, Before(x, e, k), At(x, e, k));
  }

  lemma IssuerKeepsUnderWay(x: Case, e: Auth.Evidence, w: World, a: Auth.Action, w': World)
    requires Posed(x) && UnderWay(x, e, w) && (a.BeginIssue? || a.Advance?) && w' == After(x.h, w, CallAuthority(a))
    ensures UnderWay(x, e, w') && w'.authority.state == w.authority.state
  {
    Auth.NextState(x.h.authority, w.authority, a);
    Auth.NextKeepsSound(x.h.authority, w.authority, a, w'.authority);
  }

  function IssuerAfter(x: Case, e: Auth.Evidence, made: nat): Auth.Issuer {
    Auth.IssuerAfter(Proposed(x), x.order.answers, e, made)
  }

  /** The issuer has made `made` reads, or has issued. */
  ghost predicate Reading(x: Case, e: Auth.Evidence, w: World, made: nat)
    requires Posed(x)
  {
    && UnderWay(x, e, w)
    && (made < 6 ==> x.order.caller in w.authority.issuers && w.authority.issuers[x.order.caller] == IssuerAfter(x, e, made))
    && (made == 6 ==> IssuedOf(x, e) in w.authority.grants)
  }

  lemma ReadsOnce(x: Case, e: Auth.Evidence, w: World, made: nat, w': World)
    requires Posed(x) && x.order.answers.narrower && made < 6 && Reading(x, e, w, made)
    requires w' == After(x.h, w, CallAuthority(Auth.Advance(x.order.caller)))
    ensures Reading(x, e, w', made + 1)
  {
    Auth.ReadGoesOn(x.h.authority, w.authority.state, Proposed(x), x.order.answers, e, made);
    IssuerKeepsUnderWay(x, e, w, Auth.Advance(x.order.caller), w');
  }

  lemma Begins(x: Case, e: Auth.Evidence, w: World, w': World)
    requires Posed(x) && UnderWay(x, e, w) && Auth.ValidSnapshot(x.h.authority, Proposed(x))
    requires w' == After(x.h, w, CallAuthority(Auth.BeginIssue(x.order.caller, Proposed(x), x.order.answers)))
    ensures Reading(x, e, w', 0)
  {
    IssuerKeepsUnderWay(x, e, w, Auth.BeginIssue(x.order.caller, Proposed(x), x.order.answers), w');
  }

  lemma ReadsAmongOthers(x: Case, e: Auth.Evidence, k: nat)
    requires Posed(x) && x.order.answers.narrower && Spared(x, e) && 2 <= k <= 7 && Reading(x, e, Before(x, e, k), k - 2)
    ensures Reading(x, e, Before(x, e, k + 1), k - 1)
  {
    OthersKeepUnderWay(x, e, k);
    ReadsOnce(x, e, At(x, e, k), k - 2, Before(x, e, k + 1));
  }

  /** After the six reads, with others in between, the grant has been issued. */
  lemma Issues(x: Case, e: Auth.Evidence)
    requires Posed(x) && x.order.answers.narrower && Auth.ValidSnapshot(x.h.authority, Proposed(x))
    requires Spared(x, e) && UnderWay(x, e, Before(x, e, 1))
    ensures Reading(x, e, Before(x, e, 8), 6)
  {
    OthersKeepUnderWay(x, e, 1);
    Begins(x, e, At(x, e, 1), Before(x, e, 2));
    for k := 2 to 8
      invariant Reading(x, e, Before(x, e, k), k - 2)
    {
      ReadsAmongOthers(x, e, k);
    }
  }

  // ---- The grant and its consumption ----

  /** The grant is stored, alone under its identity, and not yet consumed. */
  ghost predicate Held(x: Case, e: Auth.Evidence, w: World)
    requires Posed(x)
  {
    && Ready(x, e, w) && GrantRowOf(x) in w.grants
    && (forall r | r in w.grants && r.grant.ticket.jti == GrantOf(x).ticket.jti :: r == GrantRowOf(x))
    && Consumable(w.consumptions, ConsumptionOf(x).consumption) && Enqueueable(w.store.outboxes, EntryOf(x))
  }

  lemma SameAuthoritySameReady(x: Case, e: Auth.Evidence, w: World, w': World)
    requires Ready(x, e, w) && w'.authority == w.authority
    ensures Ready(x, e, w')
  {
  }

  lemma Stores(x: Case, e: Auth.Evidence, w: World, w': World)
    requires Posed(x) && Agreed(x) && UnderWay(x, e, w) && IssuedOf(x, e) in w.authority.grants
    requires w' == After(x.h, w, CallIssue(IssuedOf(x, e), x.order.grantTerms))
    ensures Held(x, e, w')
  {
    assert MakeGrant(x.h, IssuedOf(x, e), x.order.grantTerms) == GrantOf(x);
    assert MakeGrantRow(x.h, IssuedOf(x, e), x.order.grantTerms) == GrantRowOf(x);
    assert w' == w.(grants := w.grants + [GrantRowOf(x)]);
    SameAuthoritySameReady(x, e, w, w');
  }

  lemma OthersKeepHeld(x: Case, e: Auth.Evidence, k: nat)
    requires Posed(x) && Spared(x, e) && 0 < k < 12 && Held(x, e, Before(x, e, k))
    ensures Held(x, e, At(x, e, k))
  {
    var w, w' := Before(x, e, k), At(x, e, k);
    OthersKeepReady(x, e, w, x.others[k], w');
    OthersKeepUnclaimed(x, w, w');
    AfterAllGrows(x.h, w, x.others[k]);
    forall r | r in w'.grants && r.grant.ticket.jti == GrantOf(x).ticket.jti ensures r == GrantRowOf(x) {
      assert r in w.grants || r in [r];
    }
  }

  lemma {:induction false} FindsGrant(rows: seq<GrantRow>, r: GrantRow)
    requires r in rows && forall q | q in rows && q.grant.ticket.jti == r.grant.ticket.jti :: q == r
    ensures FindGrant(rows, r.grant.ticket.jti) == Some(r)
  {
    if rows[0] != r {
      FindsGrant(rows[1..], r);
    }
  }

  lemma Consumes(x: Case, e: Auth.Evidence, w: World, w': World)
    requires Posed(x) && Agreed(x) && Held(x, e, w) && w' == After(x.h, w, CallConsume(x.order.grantTerms.jti, x.order.consumeTerms))
    ensures w' == w.(consumptions := w.consumptions + [ConsumptionOf(x)], store := Store(w.store.outboxes + [EntryOf(x)], w.store.inbox))
  {
    FindsGrant(w.grants, GrantRowOf(x));
  }

  // ---- The admission and the lease ----

  /** What others call is sound, and the snapshots spoken of have their own digests. */
  ghost predicate Sane(x: Case, known: set<Auth.Snapshot>) {
    && Consistent(x.h, x.start) && Auth.CollisionFree(x.h.authority, known) && Auth.Knows(known, x.start.authority) && Proposed(x) in known
    && forall calls | calls in x.others :: MentionedIn(calls) <= known && forall c | c in calls :: ValidCall(x.h, c)
  }

  lemma OwnCallIsSound(x: Case, e: Auth.Evidence, k: nat)
    requires Posed(x)
    ensures ValidCall(x.h, OwnCall(x, e, k)) && Mentioned(OwnCall(x, e, k)) <= {Proposed(x)}
  {
    MadeEnvelopeBinds(x.h.dispatch, EntryOf(x), x.cfg.envelopeRevision);
  }

  ghost predicate Told(x: Case, known: set<Auth.Snapshot>, w: World) { Consistent(x.h, w) && Auth.Knows(known, w.authority) }

  lemma OthersKeepConsistent(x: Case, known: set<Auth.Snapshot>, w: World, k: nat)
    requires Posed(x) && Sane(x, known) && k < 12 && Told(x, known, w)
    ensures Told(x, known, AfterAll(x.h, w, x.others[k]))
  {
    assert x.others[k] in x.others;
    AfterAllKeepsConsistent(x.h, known, w, x.others[k]);
  }

  lemma OwnKeepsConsistent(x: Case, e: Auth.Evidence, known: set<Auth.Snapshot>, w: World, k: nat)
    requires Posed(x) && Sane(x, known) && Told(x, known, w)
    ensures Told(x, known, After(x.h, w, OwnCall(x, e, k)))
  {
    OwnCallIsSound(x, e, k);
    AfterKeepsConsistent(x.h, known, w, OwnCall(x, e, k));
  }

  lemma IsConsistent(x: Case, e: Auth.Evidence, known: set<Auth.Snapshot>, k: nat)
    requires Posed(x) && Sane(x, known) && k < 12
    ensures Told(x, known, At(x, e, k))
  {
    for m := 0 to k
      invariant Told(x, known, Before(x, e, m))
    {
      OthersKeepConsistent(x, known, Before(x, e, m), m);
      OwnKeepsConsistent(x, e, known, At(x, e, m), m);
    }
    OthersKeepConsistent(x, known, Before(x, e, k), k);
  }

  /** A new entry has a new dispatch identity. */
  lemma NewDispatch(d: Digest, texts: set<Claims>, st: Store, entry: Outbox)
    requires CollisionFree(d, texts) && EntryTexts(entry) <= texts && forall p | p in st.outboxes :: EntryTexts(p) <= texts
    requires DispatchInbox.Sound(d, st) && Enqueueable(st.outboxes, entry)
    ensures forall a | a in st.inbox :: a.body.dispatchId != DispatchId(d, entry)
  {
    forall a | a in st.inbox ensures a.body.dispatchId != DispatchId(d, entry) {
      var p, revision :| p in st.outboxes && MadeFrom(d, a, p, revision);
      assert NoCollision(d, DispatchIdentity(p.body.id, p.digest), DispatchIdentity(entry.body.id, entry.digest));
    }
  }

  /** The entry waits for its delivery. */
  ghost predicate Waiting(x: Case, w: World)
    requires Posed(x)
  {
    EntryOf(x) in w.store.outboxes && forall a | a in w.store.inbox :: a.body.dispatchId != EnvelopeOf(x).body.dispatchId
  }

  lemma AdmitsNew(d: Digest, texts: set<Claims>, st: Store, e: Envelope, revision: string, a: Admission)
    requires CollisionFree(d, texts) && Within(d, texts, st) && DeliveryTexts(d, e, revision) <= texts
    requires DispatchInbox.Sound(d, st) && ValidEnvelope(d, e) && e.body.entry in st.outboxes
    requires (forall b | b in st.inbox :: b.body.dispatchId != e.body.dispatchId) && a == MakeAdmission(d, e, e.body.entry, revision)
    ensures Admit(d, st, e, revision).Ok? && Admit(d, st, e, revision).value.0 == Store(st.outboxes, st.inbox + [a])
    ensures DispatchInbox.Insertable(st.inbox, a)
  {
    AdmitIsExact(d, texts, st, e, revision);
    AdmitAppends(d, st, e, revision);
    assert |st.inbox + [a]| != |st.inbox|;
  }

  lemma Admits(x: Case, texts: set<Claims>, w: World, w': World)
    requires Posed(x) && CollisionFree(x.h.dispatch, texts) && TextsOf(x) <= texts && Within(x.h.dispatch, texts, w.store)
    requires DispatchInbox.Sound(x.h.dispatch, w.store) && LeasesOk(x.h.dispatch, w.store.inbox, w.leases) && Waiting(x, w)
    requires w' == After(x.h, w, CallAdmit(EnvelopeOf(x), x.revision))
    ensures AdmissionOf(x) in w'.store.inbox && AdmissionOf(x).body.id !in w'.leases.epochs
  {
    MadeEnvelopeBinds(x.h.dispatch, EntryOf(x), x.cfg.envelopeRevision);
    AdmitsNew(x.h.dispatch, texts, w.store, EnvelopeOf(x), x.revision, AdmissionOf(x));
    NotLeasedYet(x.h.dispatch, w.store.inbox, AdmissionOf(x), w.leases);
  }

  lemma NotLeasedYet(d: Digest, inbox: seq<Admission>, a: Admission, leases: Leases)
    requires LeasesOk(d, inbox, leases) && DispatchInbox.Insertable(inbox, a)
    ensures a.body.id !in leases.epochs
  {
    forall id | id in leases.epochs ensures id != a.body.id {
      var b :| b in inbox && StateBinds(leases.epochs[id], b);
    }
  }

  lemma {:induction false} FindsAdmission(rows: seq<Admission>, a: Admission)
    requires a in rows && InboxOk(rows)
    ensures FindById(rows, a.body.id) == Some(a)
  {
    if rows[0] != a {
      FindsAdmission(rows[1..], a);
    }
  }

  /** The first lease is the current one and open. */
  ghost predicate FirstLeased(x: Case, w: World)
    requires Posed(x)
  {
    var id := AdmissionOf(x).body.id;
    && LeaseRow(LeaseOf(x), x.order.leaseTerms.clock) in w.leases.rows
    && id in w.leases.epochs && w.leases.epochs[id].current == CurrentOf(LeaseOf(x)) && w.leases.epochs[id].completion.None?
  }

  lemma Acquires(x: Case, texts: set<Claims>, w: World, w': World)
    requires Posed(x) && Agreed(x) && CollisionFree(x.h.dispatch, texts) && TextsOf(x) <= texts && StoredTexts(w.leases) <= texts
    requires InboxOk(w.store.inbox) && ExecutionLeases.Sound(x.h.dispatch, w.leases)
    requires AdmissionOf(x) in w.store.inbox && AdmissionOf(x).body.id !in w.leases.epochs
    requires w' == After(x.h, w, CallAcquire(AdmissionOf(x).body.id, x.order.leaseTerms))
    ensures FirstLeased(x, w')
  {
    FindsAdmission(w.store.inbox, AdmissionOf(x));
    AcquireIsExact(x.h.dispatch, w.leases, AdmissionOf(x), x.order.leaseTerms);
  }

  // ---- From the order to the lease ----

  lemma SlotGrows(x: Case, e: Auth.Evidence, k: nat)
    requires Posed(x) && k < 12
    ensures Grows(Before(x, e, k), At(x, e, k)) && Grows(At(x, e, k), Before(x, e, k + 1)) && Grows(Before(x, e, k), Before(x, e, k + 1))
  {
    AfterAllGrows(x.h, Before(x, e, k), x.others[k]);
    AfterGrows(x.h, At(x, e, k), OwnCall(x, e, k));
    GrowsIsTransitive(Before(x, e, k), At(x, e, k), Before(x, e, k + 1));
  }

  lemma GrowsFrom(x: Case, e: Auth.Evidence, j: nat)
    requires Posed(x) && j < 12
    ensures Grows(Before(x, e, j + 1), Before(x, e, 12))
  {
    var w := Before(x, e, j + 1);
    for k := j + 1 to 12
      invariant Grows(w, Before(x, e, k))
    {
      SlotGrows(x, e, k);
      GrowsIsTransitive(w, Before(x, e, k), Before(x, e, k + 1));
    }
  }

  /** The digests made for the rows and for the order are distinct. */
  ghost predicate Distinct(x: Case, e: Auth.Evidence, texts: set<Claims>)
    requires Posed(x)
  {
    && CollisionFree(x.h.dispatch, texts) && TextsOf(x) <= texts
    && Within(x.h.dispatch, texts, At(x, e, 10).store) && StoredTexts(At(x, e, 11).leases) <= texts
  }

  lemma Places(x: Case, e: Auth.Evidence)
    requires Posed(x) && Auth.SoundSystem(x.h.authority, x.start.authority) && GoodOrder(x) && Recorded(x) == Ok(e) && Spared(x, e)
    ensures UnderWay(x, e, Before(x, e, 1))
  {
    assert At(x, e, 0) == x.start;
    var found := Creates(x, Before(x, e, 1));
  }

  lemma GrantIsHeld(x: Case, e: Auth.Evidence)
    requires Posed(x) && Auth.SoundSystem(x.h.authority, x.start.authority) && GoodOrder(x) && Recorded(x) == Ok(e) && Spared(x, e)
    ensures Held(x, e, At(x, e, 9))
  {
    Places(x, e);
    Issues(x, e);
    OthersKeepUnderWay(x, e, 8);
    SlotGrows(x, e, 8);
    Stores(x, e, At(x, e, 8), Before(x, e, 9));
    OthersKeepHeld(x, e, 9);
  }

  lemma StoreParts(x: Case, known: set<Auth.Snapshot>, w: World)
    requires Told(x, known, w)
    ensures DispatchInbox.Sound(x.h.dispatch, w.store) && InboxOk(w.store.inbox) && LeasesOk(x.h.dispatch, w.store.inbox, w.leases)
    ensures Auth.SoundSystem(x.h.authority, w.authority)
  {
  }

  lemma NewlyWaits(x: Case, texts: set<Claims>, st: Store, w: World, w': World)
    requires Posed(x) && CollisionFree(x.h.dispatch, texts) && TextsOf(x) <= texts && DispatchInbox.Sound(x.h.dispatch, st)
    requires Enqueueable(st.outboxes, EntryOf(x)) && w.store == Store(st.outboxes + [EntryOf(x)], st.inbox)
    requires Spares(x, w, w') && w.store.outboxes <= w'.store.outboxes && Within(x.h.dispatch, texts, w'.store)
    ensures Waiting(x, w')
  {
    forall p | p in st.outboxes ensures EntryTexts(p) <= texts {
      assert p in w.store.outboxes && p in w'.store.outboxes;
    }
    NewDispatch(x.h.dispatch, texts, st, EntryOf(x));
    assert EntryOf(x) in w.store.outboxes;
  }

  lemma EntryWaits(x: Case, e: Auth.Evidence, texts: set<Claims>)
    requires Posed(x) && Agreed(x) && Spared(x, e) && Held(x, e, At(x, e, 9)) && Distinct(x, e, texts)
    requires DispatchInbox.Sound(x.h.dispatch, At(x, e, 9).store)
    ensures Waiting(x, At(x, e, 10))
  {
    Consumes(x, e, At(x, e, 9), Before(x, e, 10));
    SlotGrows(x, e, 10);
    NewlyWaits(x, texts, At(x, e, 9).store, Before(x, e, 10), At(x, e, 10));
  }

  lemma AdmissionWaits(x: Case, e: Auth.Evidence, texts: set<Claims>)
    requires Posed(x) && Spared(x, e) && Waiting(x, At(x, e, 10)) && Distinct(x, e, texts)
    requires DispatchInbox.Sound(x.h.dispatch, At(x, e, 10).store)
    requires LeasesOk(x.h.dispatch, At(x, e, 10).store.inbox, At(x, e, 10).leases)
    ensures AdmissionOf(x) in Before(x, e, 11).store.inbox
    ensures AdmissionOf(x) in At(x, e, 11).store.inbox && AdmissionOf(x).body.id !in At(x, e, 11).leases.epochs
  {
    Admits(x, texts, At(x, e, 10), Before(x, e, 11));
    SlotGrows(x, e, 11);
  }

  /** What the order has become. */
  ghost predicate Done(x: Case, f: Profile, w: World)
    requires Posed(x)
  {
    var p, id := PartsOf(x), AdmissionOf(x).body.id;
    && WasPrepared(x.h.dispatch, x.cfg, w, p, PreparedSummary(f, p))
    && id in w.leases.epochs && w.leases.epochs[id].current == CurrentOf(p.lease) && w.leases.epochs[id].completion.None?
    && p.lease.body.epoch == 1
  }

  lemma IsDone(x: Case, f: Profile, w: World)
    requires Posed(x) && ResolveProfile(x.cfg, Proposed(x).subject.capabilityIdentity, Proposed(x).subject.capability) == Ok(f)
    requires IsStored(w, Proposed(x)) && GrantRowOf(x) in w.grants && EntryOf(x) in w.store.outboxes && AdmissionOf(x) in w.store.inbox
    requires FirstLeased(x, w)
    ensures Done(x, f, w)
  {
    assert GrantRowOf(x).grant == GrantOf(x) && LeaseRow(LeaseOf(x), x.order.leaseTerms.clock).lease == LeaseOf(x);
  }

  lemma PartsStay(x: Case, e: Auth.Evidence)
    requires Posed(x) && Held(x, e, At(x, e, 9)) && EntryOf(x) in At(x, e, 10).store.outboxes
    requires AdmissionOf(x) in Before(x, e, 11).store.inbox
    ensures var w := Before(x, e, 12);
      IsStored(w, Proposed(x)) && GrantRowOf(x) in w.grants && EntryOf(x) in w.store.outboxes && AdmissionOf(x) in w.store.inbox
  {
    SlotGrows(x, e, 9);
    SlotGrows(x, e, 10);
    GrowsFrom(x, e, 9);
    GrowsFrom(x, e, 10);
    GrowsIsTransitive(At(x, e, 9), Before(x, e, 10), Before(x, e, 12));
    GrowsIsTransitive(At(x, e, 10), Before(x, e, 11), Before(x, e, 12));
    StillStored(At(x, e, 9), Before(x, e, 12), Proposed(x));
  }

  lemma InboxSoundAt(x: Case, e: Auth.Evidence, known: set<Auth.Snapshot>, k: nat)
    requires Posed(x) && Sane(x, known) && k < 12
    ensures var w := At(x, e, k); DispatchInbox.Sound(x.h.dispatch, w.store) && LeasesOk(x.h.dispatch, w.store.inbox, w.leases)
  {
    IsConsistent(x, e, known, k);
    StoreParts(x, known, At(x, e, k));
  }

  lemma LeasesSoundAt(x: Case, e: Auth.Evidence, known: set<Auth.Snapshot>, k: nat)
    requires Posed(x) && Sane(x, known) && k < 12
    ensures InboxOk(At(x, e, k).store.inbox) && ExecutionLeases.Sound(x.h.dispatch, At(x, e, k).leases)
  {
    IsConsistent(x, e, known, k);
    StoreParts(x, known, At(x, e, k));
  }

  lemma IsAdmitted(x: Case, e: Auth.Evidence, known: set<Auth.Snapshot>, texts: set<Claims>)
    requires Posed(x) && Sane(x, known) && Agreed(x) && Held(x, e, At(x, e, 9)) && Spared(x, e) && Distinct(x, e, texts)
    ensures EntryOf(x) in At(x, e, 10).store.outboxes && AdmissionOf(x) in Before(x, e, 11).store.inbox
    ensures AdmissionOf(x) in At(x, e, 11).store.inbox && AdmissionOf(x).body.id !in At(x, e, 11).leases.epochs
  {
    InboxSoundAt(x, e, known, 9);
    EntryWaits(x, e, texts);
    InboxSoundAt(x, e, known, 10);
    AdmissionWaits(x, e, texts);
  }

  lemma IsLeased(x: Case, e: Auth.Evidence, known: set<Auth.Snapshot>, texts: set<Claims>)
    requires Posed(x) && Sane(x, known) && Agreed(x) && Distinct(x, e, texts)
    requires AdmissionOf(x) in At(x, e, 11).store.inbox && AdmissionOf(x).body.id !in At(x, e, 11).leases.epochs
    ensures FirstLeased(x, Before(x, e, 12))
  {
    LeasesSoundAt(x, e, known, 11);
    Acquires(x, texts, At(x, e, 11), Before(x, e, 12));
  }

  lemma StartIsSound(x: Case, known: set<Auth.Snapshot>)
    requires Sane(x, known)
    ensures Auth.SoundSystem(x.h.authority, x.start.authority)
  {
  }

  /**
   In every consistent world, a good order is prepared by its twelve calls, with any calls of others
   between them that spare it: every part is stored and its first lease is the current one.
   */
  lemma GoodOrderIsPrepared(x: Case, e: Auth.Evidence, known: set<Auth.Snapshot>, texts: set<Claims>, f: Profile)
    requires Posed(x) && Sane(x, known) && GoodOrder(x) && Recorded(x) == Ok(e) && Spared(x, e) && Distinct(x, e, texts)
    requires ResolveProfile(x.cfg, Proposed(x).subject.capabilityIdentity, Proposed(x).subject.capability) == Ok(f)
    ensures Done(x, f, Before(x, e, 12))
  {
    StartIsSound(x, known);
    GrantIsHeld(x, e);
    IsAdmitted(x, e, known, texts);
    IsLeased(x, e, known, texts);
    PartsStay(x, e);
    IsDone(x, f, Before(x, e, 12));
  }
}

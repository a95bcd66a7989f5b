/**
 Publication of review evidence: a JSON document and a sidecar with its digest, published by
 reserving the identity, writing temporary files, linking them to their final names without
 overwriting, and cleaning up. Any number of writers share one identity; every system call of every
 writer is a step of its own, may fail, and may be the writer's last.
 */
module EvidencePublication {

  datatype Kind = Json | Seal

  /** The paths that writers of one identity touch. Temporary names are never shared. */
  datatype Path = Target | Sidecar | Reservation | Temporary(writer: nat, kind: Kind)

  type Bytes = string

  type Directory = map<Path, Bytes>

  /** What the writers publish: each writer's serialised payload, under one file name. */
  datatype Job = Job(sha: Bytes -> string, name: string, payload: nat -> Bytes) {
    /** The text of the sidecar for the given document. */
    function SealOf(document: Bytes): Bytes { sha(document) + "  " + name + "\n" }

    function Contents(w: nat, k: Kind): Bytes {
      if k == Json then payload(w) else SealOf(payload(w))
    }
  }

  // ---- File operations, each atomic in the file system ----

  predicate Has(d: Directory, p: Path) { p in d }

  /** Exclusive creation and hard links: refused when the name exists. */
  function AddNew(d: Directory, p: Path, b: Bytes): Directory {
    if Has(d, p) then d else d[p := b]
  }

  /** Removal of a name that may be missing. */
  function Unlink(d: Directory, p: Path): Directory { d - {p} }

  /** Nothing reserved and nothing published under this identity. */
  predicate Free(d: Directory) {
    !Has(d, Reservation) && !Has(d, Target) && !Has(d, Sidecar)
  }

  // ---- One writer ----

  /** The next system call of a writer. */
  datatype Pc =
    | Reserve | CloseReservation | CheckTarget | CheckSidecar
    | Create(kind: Kind) | Fill(kind: Kind)
    | LinkSidecar | DropSidecar | LinkTarget | DropTarget
    | Discard(kind: Kind)
    | CleanJson | CleanSeal | Release
    | Finished | Crashed

  /**
   A writer: its next call, the variables `json_temporary`, `sidecar_temporary` and
   `reservation_owned`, whether it is returning normally, and what it did so far: it made the
   reservation that is still there, it linked a final file, it failed to remove something.
   */
  datatype Writer = Writer(
    pc: Pc, jsonTemporary: bool, sealTemporary: bool, owned: bool, success: bool,
    reserved: bool, sealed: bool, published: bool, leaked: bool)

  const IDLE := Writer(Reserve, false, false, false, false, false, false, false, false)

  /** A call succeeds or finds that a name exists; in the second case the clean-up begins. */
  function Step(j: Job, d: Directory, w: nat, me: Writer): (Directory, Writer) {
    match me.pc
    case Reserve =>
      if Has(d, Reservation) then (d, me.(pc := CleanJson))
      else (AddNew(d, Reservation, ""), me.(pc := CloseReservation, reserved := true))
    case CloseReservation => (d, me.(pc := CheckTarget, owned := true))
    case CheckTarget => (d, me.(pc := if Has(d, Target) then CleanJson else CheckSidecar))
    case CheckSidecar => (d, me.(pc := if Has(d, Sidecar) then CleanJson else Create(Json)))
    case Create(k) => (AddNew(d, Temporary(w, k), ""), me.(pc := Fill(k)))
    case Fill(k) =>
      (d[Temporary(w, k) := j.Contents(w, k)],
       if k == Json then me.(pc := Create(Seal), jsonTemporary := true)
       else me.(pc := LinkSidecar, sealTemporary := true))
    case LinkSidecar =>
      if Has(d, Sidecar) || !Has(d, Temporary(w, Seal)) then (d, me.(pc := CleanJson))
      else (AddNew(d, Sidecar, d[Temporary(w, Seal)]), me.(pc := DropSidecar, sealed := true))
    case DropSidecar => (Unlink(d, Temporary(w, Seal)), me.(pc := LinkTarget, sealTemporary := false))
    case LinkTarget =>
      if Has(d, Target) || !Has(d, Temporary(w, Json)) then (d, me.(pc := CleanJson))
      else (AddNew(d, Target, d[Temporary(w, Json)]), me.(pc := DropTarget, published := true))
    case DropTarget =>
      (Unlink(d, Temporary(w, Json)), me.(pc := CleanJson, jsonTemporary := false, success := true))
    case Discard(k) => (Unlink(d, Temporary(w, k)), me.(pc := CleanJson))
    case CleanJson =>
      (if me.jsonTemporary then Unlink(d, Temporary(w, Json)) else d, me.(pc := CleanSeal, jsonTemporary := false))
    case CleanSeal =>
      (if me.sealTemporary then Unlink(d, Temporary(w, Seal)) else d, me.(pc := Release, sealTemporary := false))
    case Release =>
      if me.owned then (Unlink(d, Reservation), me.(pc := Finished, owned := false, reserved := false))
      else (d, me.(pc := Finished))
    case Finished => (d, me)
    case Crashed => (d, me)
  }

  /**
   In any directory whatsoever, no call of a writer changes what a final name or the reservation holds;
   it may only remove its reservation, and only in its last call.
   */
  lemma StepNeverClobbers(j: Job, d: Directory, w: nat, me: Writer)
    ensures var d' := Step(j, d, w, me).0;
      && (Target in d ==> Target in d' && d'[Target] == d[Target]) && (Sidecar in d ==> Sidecar in d' && d'[Sidecar] == d[Sidecar])
      && (Reservation in d ==> (Reservation in d' && d'[Reservation] == d[Reservation]) || (me.pc == Release && me.owned))
      && (forall v, k | v != w :: Temporary(v, k) in d <==> Temporary(v, k) in d')
    ensures me.pc == LinkSidecar && Sidecar in d ==> Step(j, d, w, me) == (d, me.(pc := CleanJson))
    ensures me.pc == LinkTarget && Target in d ==> Step(j, d, w, me) == (d, me.(pc := CleanJson))
  {
  }

  /** The call raises an error: the clean-up begins, or, inside the clean-up, the rest of it is skipped. */
  function Failed(me: Writer): Writer {
    match me.pc
    case CloseReservation => me.(pc := CleanJson, leaked := true)
    case Fill(k) => me.(pc := Discard(k))
    case Discard(_) => me.(pc := CleanJson, leaked := true)
    case CleanJson => me.(pc := Finished, leaked := true, success := false)
    case CleanSeal => me.(pc := Finished, leaked := true, success := false)
    case Release => me.(pc := Finished, leaked := true, success := false)
    case Finished => me
    case Crashed => me
    case _ => me.(pc := CleanJson)
  }

  // ---- Runs ----

  datatype Action =
    | Proceed(writer: nat)
    | Fail(writer: nat)
    | Crash(writer: nat)
    | WritePart(writer: nat, bytes: Bytes)

  datatype System = System(files: Directory, writers: map<nat, Writer>) {
    function Of(w: nat): Writer { if w in writers then writers[w] else IDLE }
  }

  function Next(j: Job, y: System, a: Action): System {
    var w := a.writer;
    var me := y.Of(w);
    match a
    case Proceed(_) =>
      var (files, me') := Step(j, y.files, w, me);
      System(files, y.writers[w := me'])
    case Fail(_) => y.(writers := y.writers[w := Failed(me)])
    case Crash(_) =>
      if me.pc == Finished then y else y.(writers := y.writers[w := me.(pc := Crashed, leaked := true)])
    case WritePart(_, bytes) =>
      if me.pc.Fill? then System(y.files[Temporary(w, me.pc.kind) := bytes], y.writers[w := me]) else y
  }

  function Run(j: Job, initial: Directory, actions: seq<Action>): System {
    if actions == [] then System(initial, map[])
    else Next(j, Run(j, initial, actions[..|actions| - 1]), actions[|actions| - 1])
  }

  /** A failed write leaves its bytes in the temporary file; a failed or last call leaves the directory alone. */
  lemma FaultsTakeEffect(j: Job, y: System, w: nat, bytes: Bytes)
    ensures y.Of(w).pc.Fill? ==> Next(j, y, WritePart(w, bytes)).files == y.files[Temporary(w, y.Of(w).pc.kind) := bytes]
    ensures !y.Of(w).pc.Fill? ==> Next(j, y, WritePart(w, bytes)).files == y.files
    ensures Next(j, y, Fail(w)).files == y.files && Next(j, y, Crash(w)).files == y.files
    ensures y.Of(w).pc != Finished ==> Next(j, y, Crash(w)).Of(w).pc == Crashed
  {
  }

  /** At first the directory may hold anything but the temporary files yet to be named. */
  ghost predicate Unnamed(initial: Directory) {
    forall p | Has(initial, p) :: !p.Temporary?
  }

  // ---- What holds for each writer ----

  /** Between its own checks and links; the numbers follow the order of the calls. */
  function Rank(pc: Pc): nat {
    match pc
    case Reserve => 0
    case CloseReservation => 1
    case CheckTarget => 2
    case CheckSidecar => 3
    case Create(k) => if k == Json then 4 else 6
    case Fill(k) => if k == Json then 5 else 7
    case LinkSidecar => 8
    case DropSidecar => 9
    case LinkTarget => 10
    case DropTarget => 11
    case Discard(_) => 12
    case CleanJson => 13
    case CleanSeal => 14
    case Release => 15
    case Finished => 16
    case Crashed => 17
  }

  /** The name existed at first and was left alone, or it holds what this run put there. */
  predicate Holds(d: Directory, p: Path, b: Bytes) { Has(d, p) && d[p] == b }

  ghost predicate Reserving(initial: Directory, d: Directory, me: Writer) {
    && (me.owned ==> me.reserved)
    && (me.reserved ==> Has(d, Reservation) && !Has(initial, Reservation))
    && (1 <= Rank(me.pc) <= 11 ==> me.reserved)
    && (2 <= Rank(me.pc) <= 11 ==> me.owned)
    && (Rank(me.pc) == 0 ==> me == IDLE)
    && (me.reserved && !me.owned ==> me.pc == CloseReservation || me.leaked)
    && (me.pc == Finished && me.reserved ==> me.leaked)
    && (me.pc.Discard? ==> me.owned)
  }

  ghost predicate Finals(j: Job, initial: Directory, d: Directory, w: nat, me: Writer) {
    && (me.sealed ==> Free(initial) && Holds(d, Sidecar, j.Contents(w, Seal)))
    && (me.published ==> me.sealed && Holds(d, Target, j.Contents(w, Json)))
    && (me.success ==> me.published)
    && (9 <= Rank(me.pc) <= 11 ==> me.sealed)
    && (me.pc == DropTarget ==> me.published)
    && (3 <= Rank(me.pc) <= 10 ==> !Has(d, Target))
    && (4 <= Rank(me.pc) <= 8 ==> !Has(d, Sidecar))
    && (me.pc.Discard? ==> !me.sealed)
    && (Rank(me.pc) <= 8 ==> !me.sealed)
    && (me.success ==> 13 <= Rank(me.pc))
  }

  ghost predicate Temporaries(j: Job, d: Directory, w: nat, me: Writer) {
    && (6 <= Rank(me.pc) <= 10 ==> Holds(d, Temporary(w, Json), j.Contents(w, Json)))
    && (me.pc == LinkSidecar ==> Holds(d, Temporary(w, Seal), j.Contents(w, Seal)))
    && (6 <= Rank(me.pc) <= 11 ==> me.jsonTemporary)
    && (8 <= Rank(me.pc) <= 9 ==> me.sealTemporary)
    && (Rank(me.pc) <= 4 ==> !Has(d, Temporary(w, Json)))
    && (Rank(me.pc) <= 6 ==> !Has(d, Temporary(w, Seal)))
    && (me.pc.Fill? ==> Has(d, Temporary(w, me.pc.kind)))
    && (Has(d, Temporary(w, Json)) && !me.leaked ==>
          me.jsonTemporary || me.pc == Fill(Json) || me.pc == Discard(Json))
    && (Has(d, Temporary(w, Seal)) && !me.leaked ==>
          me.sealTemporary || me.pc == Fill(Seal) || me.pc == Discard(Seal))
    && (14 <= Rank(me.pc) <= 16 && !me.leaked ==> !me.jsonTemporary)
    && (15 <= Rank(me.pc) <= 16 && !me.leaked ==> !me.sealTemporary)
  }

  ghost predicate Sound(j: Job, initial: Directory, d: Directory, w: nat, me: Writer) {
    && Reserving(initial, d, me)
    && Finals(j, initial, d, w, me)
    && Temporaries(j, d, w, me)
  }

  /** What a step of `w` may do to the directory. */
  ghost predicate Touches(j: Job, d: Directory, d': Directory, w: nat, me: Writer, me': Writer) {
    && (forall v, k | v != w :: SameAt(d, d', Temporary(v, k)))
    && (SameAt(d, d', Reservation) || (!Has(d, Reservation) && me'.reserved) || (me.reserved && !me'.reserved))
    && (SameAt(d, d', Sidecar) || (!Has(d, Sidecar) && me.reserved && me'.sealed))
    && (SameAt(d, d', Target) || (!Has(d, Target) && me.reserved && me'.published))
    && (me.sealed ==> me'.sealed) && (me.published ==> me'.published)
    && (me'.sealed && !me.sealed ==> !Has(d, Sidecar))
    && (me'.reserved && !me.reserved ==> !Has(d, Reservation))
    && (!me'.reserved && me.reserved ==> !Has(d', Reservation))
  }

  ghost predicate SameAt(d: Directory, d': Directory, p: Path) {
    Has(d, p) == Has(d', p) && (Has(d, p) ==> d[p] == d'[p])
  }

  ghost predicate Keeps(initial: Directory, d: Directory) {
    forall p | Has(initial, p) :: Has(d, p)
  }

  lemma ReservingIsSound(j: Job, initial: Directory, d: Directory, w: nat, me: Writer)
    requires Sound(j, initial, d, w, me) && Keeps(initial, d) && 0 <= Rank(me.pc) <= 1
    ensures var (d', me') := Step(j, d, w, me); Sound(j, initial, d', w, me') && Touches(j, d, d', w, me, me')
  {
  }

  lemma CheckingIsSound(j: Job, initial: Directory, d: Directory, w: nat, me: Writer)
    requires Sound(j, initial, d, w, me) && Keeps(initial, d) && 2 <= Rank(me.pc) <= 3
    ensures var (d', me') := Step(j, d, w, me); Sound(j, initial, d', w, me') && Touches(j, d, d', w, me, me')
  {
  }

  lemma WritingJsonIsSound(j: Job, initial: Directory, d: Directory, w: nat, me: Writer)
    requires Sound(j, initial, d, w, me) && Keeps(initial, d) && 4 <= Rank(me.pc) <= 5
    ensures var (d', me') := Step(j, d, w, me); Sound(j, initial, d', w, me') && Touches(j, d, d', w, me, me')
  {
  }

  lemma WritingSealIsSound(j: Job, initial: Directory, d: Directory, w: nat, me: Writer)
    requires Sound(j, initial, d, w, me) && Keeps(initial, d) && 6 <= Rank(me.pc) <= 7
    ensures var (d', me') := Step(j, d, w, me); Sound(j, initial, d', w, me') && Touches(j, d, d', w, me, me')
  {
  }

  lemma LinkingSidecarIsSound(j: Job, initial: Directory, d: Directory, w: nat, me: Writer)
    requires Sound(j, initial, d, w, me) && Keeps(initial, d) && 8 <= Rank(me.pc) <= 9
    ensures var (d', me') := Step(j, d, w, me); Sound(j, initial, d', w, me') && Touches(j, d, d', w, me, me')
  {
  }

  lemma LinkingTargetIsSound(j: Job, initial: Directory, d: Directory, w: nat, me: Writer)
    requires Sound(j, initial, d, w, me) && Keeps(initial, d) && 10 <= Rank(me.pc) <= 11
    ensures var (d', me') := Step(j, d, w, me); Sound(j, initial, d', w, me') && Touches(j, d, d', w, me, me')
  {
  }

  lemma DiscardingIsSound(j: Job, initial: Directory, d: Directory, w: nat, me: Writer)
    requires Sound(j, initial, d, w, me) && 12 <= Rank(me.pc) <= 13
    ensures var (d', me') := Step(j, d, w, me); Sound(j, initial, d', w, me') && Touches(j, d, d', w, me, me')
  {
  }

  lemma ClearingSealIsSound(j: Job, initial: Directory, d: Directory, w: nat, me: Writer)
    requires Sound(j, initial, d, w, me) && me.pc == CleanSeal
    ensures var (d', me') := Step(j, d, w, me); Sound(j, initial, d', w, me') && Touches(j, d, d', w, me, me')
  {
  }

  lemma ReleasingIsSound(j: Job, initial: Directory, d: Directory, w: nat, me: Writer)
    requires Sound(j, initial, d, w, me) && Keeps(initial, d) && 15 <= Rank(me.pc)
    ensures var (d', me') := Step(j, d, w, me); Sound(j, initial, d', w, me') && Touches(j, d, d', w, me, me')
  {
  }

  lemma StepIsSound(j: Job, initial: Directory, d: Directory, w: nat, me: Writer)
    requires Sound(j, initial, d, w, me) && Keeps(initial, d)
    ensures var (d', me') := Step(j, d, w, me); Sound(j, initial, d', w, me') && Touches(j, d, d', w, me, me')
  {
    var rank := Rank(me.pc);
    if rank <= 1 {
      ReservingIsSound(j, initial, d, w, me);
    } else if rank <= 3 {
      CheckingIsSound(j, initial, d, w, me);
    } else if rank <= 5 {
      WritingJsonIsSound(j, initial, d, w, me);
    } else if rank <= 7 {
      WritingSealIsSound(j, initial, d, w, me);
    } else if rank <= 9 {
      LinkingSidecarIsSound(j, initial, d, w, me);
    } else if rank <= 11 {
      LinkingTargetIsSound(j, initial, d, w, me);
    } else if rank <= 13 {
      DiscardingIsSound(j, initial, d, w, me);
    } else if rank <= 14 {
      ClearingSealIsSound(j, initial, d, w, me);
    } else {
      ReleasingIsSound(j, initial, d, w, me);
    }
  }

  lemma FailedCheckIsSound(j: Job, initial: Directory, d: Directory, w: nat, me: Writer)
    requires Sound(j, initial, d, w, me) && 0 <= Rank(me.pc) <= 3
    ensures Sound(j, initial, d, w, Failed(me)) && Touches(j, d, d, w, me, Failed(me))
  {
  }

  lemma FailedWriteIsSound(j: Job, initial: Directory, d: Directory, w: nat, me: Writer)
    requires Sound(j, initial, d, w, me) && 4 <= Rank(me.pc) <= 7
    ensures Sound(j, initial, d, w, Failed(me)) && Touches(j, d, d, w, me, Failed(me))
  {
  }

  lemma FailedLinkIsSound(j: Job, initial: Directory, d: Directory, w: nat, me: Writer)
    requires Sound(j, initial, d, w, me) && 8 <= Rank(me.pc) <= 12
    ensures Sound(j, initial, d, w, Failed(me)) && Touches(j, d, d, w, me, Failed(me))
  {
  }

  /** Giving up inside the clean-up: the rest of it is skipped. */
  lemma GivingUpIsSound(j: Job, initial: Directory, d: Directory, w: nat, me: Writer, me': Writer)
    requires Sound(j, initial, d, w, me) && 13 <= Rank(me.pc) <= 15
    requires me' == me.(pc := Finished, leaked := true, success := false)
    ensures Sound(j, initial, d, w, me') && Touches(j, d, d, w, me, me')
  {
    assert Reserving(initial, d, me');
    assert Finals(j, initial, d, w, me');
    assert Temporaries(j, d, w, me');
  }

  lemma StandingStillTouchesNothing(j: Job, d: Directory, w: nat, me: Writer)
    ensures Touches(j, d, d, w, me, me)
  {
  }

  lemma FailedIsSound(j: Job, initial: Directory, d: Directory, w: nat, me: Writer)
    requires Sound(j, initial, d, w, me)
    ensures Sound(j, initial, d, w, Failed(me)) && Touches(j, d, d, w, me, Failed(me))
  {
    var rank := Rank(me.pc);
    if rank <= 3 {
      FailedCheckIsSound(j, initial, d, w, me);
    } else if rank <= 7 {
      FailedWriteIsSound(j, initial, d, w, me);
    } else if rank <= 12 {
      FailedLinkIsSound(j, initial, d, w, me);
    } else if rank <= 15 {
      GivingUpIsSound(j, initial, d, w, me, Failed(me));
    } else {
      StandingStillTouchesNothing(j, d, w, me);
    }
  }

  lemma CrashedIsSound(j: Job, initial: Directory, d: Directory, w: nat, me: Writer)
    requires Sound(j, initial, d, w, me) && me.pc != Finished
    ensures var me' := me.(pc := Crashed, leaked := true);
      Sound(j, initial, d, w, me') && Touches(j, d, d, w, me, me')
  {
  }

  lemma PartIsSound(j: Job, initial: Directory, d: Directory, w: nat, me: Writer, bytes: Bytes)
    requires Sound(j, initial, d, w, me) && me.pc.Fill?
    ensures var d' := d[Temporary(w, me.pc.kind) := bytes];
            Sound(j, initial, d', w, me) && Touches(j, d, d', w, me, me)
  {
  }

  // ---- What holds for all writers together ----

  /** Only one writer holds the reservation, and only one links the sidecar. */
  ghost predicate Apart(me: Writer, other: Writer) {
    !(me.reserved && other.reserved) && !(me.sealed && other.sealed)
  }

  /** The directory differs from the initial one by what the writers account for. */
  ghost predicate Accounted(initial: Directory, y: System) {
    && (forall p | Has(initial, p) :: SameAt(initial, y.files, p))
    && (Has(y.files, Reservation) && !Has(initial, Reservation) ==> exists w: nat :: y.Of(w).reserved)
    && (Has(y.files, Sidecar) && !Has(initial, Sidecar) ==> exists w: nat :: y.Of(w).sealed)
    && (Has(y.files, Target) && !Has(initial, Target) ==> exists w: nat :: y.Of(w).published)
  }

  ghost predicate Invariant(j: Job, initial: Directory, y: System) {
    && (forall w: nat :: Sound(j, initial, y.files, w, y.Of(w)))
    && (forall v: nat, w: nat | v != w :: Apart(y.Of(v), y.Of(w)))
    && Accounted(initial, y)
  }

  /** A step of `w` leaves another writer's facts standing. */
  lemma OthersStaySound(j: Job, initial: Directory, d: Directory, d': Directory, w: nat, me: Writer, me': Writer,
                        v: nat, other: Writer)
    requires v != w && Sound(j, initial, d, v, other) && Sound(j, initial, d, w, me)
    requires Touches(j, d, d', w, me, me') && Apart(me, other)
    ensures Sound(j, initial, d', v, other) && Apart(me', other)
  {
    assert SameAt(d, d', Temporary(v, Json)) && SameAt(d, d', Temporary(v, Seal));
  }

  lemma OneStep(j: Job, initial: Directory, y: System, w: nat, d': Directory, me': Writer)
    requires Invariant(j, initial, y)
    requires Sound(j, initial, d', w, me') && Touches(j, y.files, d', w, y.Of(w), me')
    requires Unnamed(initial)
    ensures Invariant(j, initial, System(d', y.writers[w := me']))
  {
    var y' := System(d', y.writers[w := me']);
    forall v: nat ensures Sound(j, initial, d', v, y'.Of(v)) && (v != w ==> Apart(me', y'.Of(v))) {
      if v != w {
        assert Apart(y.Of(w), y.Of(v));
        assert Sound(j, initial, y.files, w, y.Of(w)) && Sound(j, initial, y.files, v, y.Of(v));
        OthersStaySound(j, initial, y.files, d', w, y.Of(w), me', v, y.Of(v));
      }
    }
    assert forall v: nat | v != w :: y'.Of(v) == y.Of(v);
    assert forall v: nat, u: nat | v != u && v != w && u != w :: Apart(y.Of(v), y.Of(u));
    StillAccounted(j, initial, y, w, y');
  }

  lemma StillAccounted(j: Job, initial: Directory, y: System, w: nat, y': System)
    requires Accounted(initial, y) && Sound(j, initial, y.files, w, y.Of(w))
    requires Touches(j, y.files, y'.files, w, y.Of(w), y'.Of(w))
    requires forall v: nat | v != w :: y'.Of(v) == y.Of(v)
    requires Unnamed(initial)
    ensures Accounted(initial, y')
  {
    forall p | Has(initial, p) ensures SameAt(initial, y'.files, p) {
      assert SameAt(initial, y.files, p);
    }
    assert y'.Of(w).sealed || !y.Of(w).sealed;
  }

  lemma {:induction false} RunKeepsInvariant(j: Job, initial: Directory, actions: seq<Action>)
    requires Unnamed(initial)
    ensures Invariant(j, initial, Run(j, initial, actions))
  {
    if actions != [] {
      var y, a := Run(j, initial, actions[..|actions| - 1]), actions[|actions| - 1];
      RunKeepsInvariant(j, initial, actions[..|actions| - 1]);
      NextKeepsInvariant(j, initial, y, a);
    }
  }

  lemma NextKeepsInvariant(j: Job, initial: Directory, y: System, a: Action)
    requires Unnamed(initial) && Invariant(j, initial, y)
    ensures Invariant(j, initial, Next(j, y, a))
  {
    var w, me := a.writer, y.Of(a.writer);
    assert Sound(j, initial, y.files, w, me);
    match a
    case Proceed(_) =>
      StepIsSound(j, initial, y.files, w, me);
      var (d', me') := Step(j, y.files, w, me);
      OneStep(j, initial, y, w, d', me');
    case Fail(_) =>
      FailedIsSound(j, initial, y.files, w, me);
      OneStep(j, initial, y, w, y.files, Failed(me));
    case Crash(_) =>
      if me.pc != Finished {
        CrashedIsSound(j, initial, y.files, w, me);
        OneStep(j, initial, y, w, y.files, me.(pc := Crashed, leaked := true));
      }
    case WritePart(_, bytes) =>
      if me.pc.Fill? {
        var d' := y.files[Temporary(w, me.pc.kind) := bytes];
        PartIsSound(j, initial, y.files, w, me, bytes);
        OneStep(j, initial, y, w, d', me);
      }
  }

  // ---- What every run keeps ----

  ghost predicate FinalsStay(d: Directory, d': Directory) {
    && (Has(d, Target) ==> Holds(d', Target, d[Target]))
    && (Has(d, Sidecar) ==> Holds(d', Sidecar, d[Sidecar]))
  }

  /** No step replaces or removes a final file, whoever made it. */
  lemma {:induction false} NoFinalIsOverwritten(j: Job, initial: Directory, actions: seq<Action>, more: seq<Action>)
    ensures FinalsStay(Run(j, initial, actions).files, Run(j, initial, actions + more).files)
  {
    if more == [] {
      assert actions + more == actions;
    } else {
      var all, n := actions + more, |actions + more| - 1;
      assert all[..n] == actions + more[..|more| - 1];
      NoFinalIsOverwritten(j, initial, actions, more[..|more| - 1]);
      NextKeepsFinals(j, Run(j, initial, all[..n]), all[n]);
    }
  }

  lemma NextKeepsFinals(j: Job, y: System, a: Action)
    ensures FinalsStay(y.files, Next(j, y, a).files)
  {
  }

  /** A document that appeared during the run has a sidecar with the digest of exactly its bytes. */
  lemma VisibleDocumentIsSealed(j: Job, initial: Directory, actions: seq<Action>)
    requires Unnamed(initial)
    ensures var d := Run(j, initial, actions).files;
      Has(d, Target) && !Has(initial, Target) ==> Holds(d, Sidecar, j.SealOf(d[Target]))
  {
    var y := Run(j, initial, actions);
    RunKeepsInvariant(j, initial, actions);
    if Has(y.files, Target) && !Has(initial, Target) {
      var w: nat :| y.Of(w).published;
      assert Sound(j, initial, y.files, w, y.Of(w));
    }
  }

  /** One writer at most publishes, and only under an identity that was free at first. */
  lemma AtMostOnePublishes(j: Job, initial: Directory, actions: seq<Action>, v: nat, w: nat)
    requires Unnamed(initial)
    ensures var y := Run(j, initial, actions);
      && (y.Of(v).published && y.Of(w).published ==> v == w)
      && (y.Of(w).published ==> Free(initial))
      && (y.Of(v).reserved && y.Of(w).reserved ==> v == w)
  {
    var y := Run(j, initial, actions);
    RunKeepsInvariant(j, initial, actions);
    assert Sound(j, initial, y.files, v, y.Of(v)) && Sound(j, initial, y.files, w, y.Of(w));
    assert v != w ==> Apart(y.Of(v), y.Of(w));
  }

  /** The reservation already keeps the names free: no link of a reserved writer finds its name taken. */
  lemma LinksNeverCollide(j: Job, initial: Directory, actions: seq<Action>, w: nat)
    requires Unnamed(initial)
    ensures var y := Run(j, initial, actions);
      && (y.Of(w).pc == LinkSidecar ==> Next(j, y, Proceed(w)).Of(w).pc == DropSidecar)
      && (y.Of(w).pc == LinkTarget ==> Next(j, y, Proceed(w)).Of(w).pc == DropTarget)
  {
    var y := Run(j, initial, actions);
    RunKeepsInvariant(j, initial, actions);
    assert Sound(j, initial, y.files, w, y.Of(w));
  }

  /** A writer that returned normally has published both of its files, for the rest of the run. */
  lemma SuccessLasts(j: Job, initial: Directory, actions: seq<Action>, more: seq<Action>, w: nat)
    requires Unnamed(initial) && Run(j, initial, actions).Of(w).success
    ensures var d := Run(j, initial, actions + more).files;
      && Holds(d, Target, j.payload(w))
      && Holds(d, Sidecar, j.SealOf(j.payload(w)))
  {
    var y := Run(j, initial, actions);
    RunKeepsInvariant(j, initial, actions);
    assert Sound(j, initial, y.files, w, y.Of(w));
    NoFinalIsOverwritten(j, initial, actions, more);
  }

  /** Every writer that started has finished and removed what it had to remove. */
  ghost predicate Quiet(y: System) {
    forall w: nat :: (y.Of(w).pc == Reserve || y.Of(w).pc == Finished) && !y.Of(w).leaked
  }

  /** The directory once writer `w` has published its sidecar, and perhaps its document. */
  function Outcome(j: Job, initial: Directory, w: nat, published: bool): Directory {
    var d := initial[Sidecar := j.SealOf(j.payload(w))];
    if published then d[Target := j.payload(w)] else d
  }

  lemma QuietWriterHasNoTemporary(j: Job, initial: Directory, y: System, w: nat, k: Kind)
    requires Sound(j, initial, y.files, w, y.Of(w)) && Quiet(y)
    ensures !Has(y.files, Temporary(w, k))
  {
  }

  lemma SameEverywhere(d: Directory, d': Directory)
    requires forall p :: SameAt(d, d', p)
    ensures d == d'
  {
    forall p | p in d ensures p in d' && d[p] == d'[p] {
      assert SameAt(d, d', p);
    }
    forall p | p in d' ensures p in d {
      assert SameAt(d, d', p);
    }
  }

  lemma QuietHasNoResidue(j: Job, initial: Directory, y: System, p: Path)
    requires Invariant(j, initial, y) && Quiet(y)
    ensures Has(y.files, p) ==> Has(initial, p) || p == Target || p == Sidecar
  {
    forall w: nat, k ensures !y.Of(w).reserved && !Has(y.files, Temporary(w, k)) {
      assert Sound(j, initial, y.files, w, y.Of(w));
      QuietWriterHasNoTemporary(j, initial, y, w, k);
    }
    var k: Kind := Json;
    assert forall w: nat :: !Has(y.files, Temporary(w, k)) && !y.Of(w).reserved;
    assert Accounted(initial, y);
  }

  /**
   When all is quiet, the directory is the initial one, or the initial one with one writer's sidecar,
   or the initial one with that writer's sidecar and document.
   */
  lemma QuietOutcome(j: Job, initial: Directory, actions: seq<Action>)
    requires Unnamed(initial) && Quiet(Run(j, initial, actions))
    ensures var y := Run(j, initial, actions);
      || y.files == initial
      || exists w: nat :: y.Of(w).sealed && y.files == Outcome(j, initial, w, y.Of(w).published)
  {
    var y := Run(j, initial, actions);
    RunKeepsInvariant(j, initial, actions);
    if w: nat :| y.Of(w).sealed {
      assert Sound(j, initial, y.files, w, y.Of(w));
      forall v: nat | y.Of(v).published ensures v == w {
        assert Sound(j, initial, y.files, v, y.Of(v));
        assert v != w ==> Apart(y.Of(v), y.Of(w));
      }
      forall p ensures SameAt(y.files, Outcome(j, initial, w, y.Of(w).published), p) {
        QuietHasNoResidue(j, initial, y, p);
        assert Has(initial, p) ==> SameAt(initial, y.files, p);
      }
      SameEverywhere(y.files, Outcome(j, initial, w, y.Of(w).published));
    } else {
      forall v: nat ensures !y.Of(v).published {
        assert Sound(j, initial, y.files, v, y.Of(v));
      }
      forall p ensures SameAt(y.files, initial, p) {
        QuietHasNoResidue(j, initial, y, p);
        assert Has(initial, p) ==> SameAt(initial, y.files, p);
      }
      SameEverywhere(y.files, initial);
    }
  }

  // ---- One writer alone ----

  /** The two final names with what was linked. */
  function Linked(j: Job, d: Directory, w: nat, sealed: bool, published: bool): Directory {
    if sealed then Outcome(j, d, w, published) else d
  }

  ghost predicate AllBy(actions: seq<Action>, w: nat) { forall a | a in actions :: a.writer == w }

  lemma {:induction false} OthersStayIdle(j: Job, initial: Directory, actions: seq<Action>, w: nat, v: nat)
    requires AllBy(actions, w) && v != w
    ensures Run(j, initial, actions).Of(v) == IDLE
  {
    if actions != [] {
      var init := actions[..|actions| - 1];
      assert actions[|actions| - 1] in actions;
      OthersStayIdle(j, initial, init, w, v);
      OthersUntouched(j, Run(j, initial, init), actions[|actions| - 1], v);
    }
  }

  lemma OthersUntouched(j: Job, y: System, a: Action, v: nat)
    requires v != a.writer
    ensures Next(j, y, a).Of(v) == y.Of(v)
  {
  }

  /**
   Whatever calls failed, a lone writer that has finished and removed what it had to remove leaves the
   directory as it was, or with its sidecar, or with both of its files; it succeeds only in the last case.
   */
  lemma AloneOutcome(j: Job, initial: Directory, actions: seq<Action>, w: nat)
    requires Unnamed(initial) && AllBy(actions, w)
    ensures var y := Run(j, initial, actions);
      && (y.Of(w).pc == Finished && !y.Of(w).leaked ==> y.files == Linked(j, initial, w, y.Of(w).sealed, y.Of(w).published))
      && (y.Of(w).success ==> y.Of(w).published && Free(initial))
  {
    var y := Run(j, initial, actions);
    RunKeepsInvariant(j, initial, actions);
    assert Sound(j, initial, y.files, w, y.Of(w));
    forall v: nat | v != w ensures y.Of(v) == IDLE {
      OthersStayIdle(j, initial, actions, w, v);
    }
    if y.Of(w).pc == Finished && !y.Of(w).leaked {
      QuietOutcome(j, initial, actions);
      OneOutcome(j, initial, y, w);
    }
  }

  lemma OneOutcome(j: Job, d: Directory, y: System, w: nat)
    requires Finals(j, d, y.files, w, y.Of(w)) && forall v: nat | v != w :: y.Of(v) == IDLE
    requires y.files == d || exists v: nat :: y.Of(v).sealed && y.files == Outcome(j, d, v, y.Of(v).published)
    ensures y.files == Linked(j, d, w, y.Of(w).sealed, y.Of(w).published)
  {
  }

  /** `n` calls of writer `w`, none of which fails, with nobody else at work. */
  function Alone(j: Job, d: Directory, w: nat, me: Writer, n: nat): (Directory, Writer)
    decreases n
  {
    if n == 0 then (d, me)
    else
      var (d', me') := Step(j, d, w, me);
      Alone(j, d', w, me', n - 1)
  }

  lemma AloneReserves(j: Job, d: Directory, w: nat, n: nat)
    requires Free(d)
    ensures Alone(j, d, w, IDLE, n + 4) ==
      Alone(j, d[Reservation := ""], w, IDLE.(pc := Create(Json), owned := true, reserved := true), n)
  {
    var d1 := d[Reservation := ""];
    var m1 := IDLE.(pc := CloseReservation, reserved := true);
    assert Alone(j, d, w, IDLE, n + 4) == Alone(j, d1, w, m1, n + 3);
    var m2 := m1.(pc := CheckTarget, owned := true);
    assert Alone(j, d1, w, m1, n + 3) == Alone(j, d1, w, m2, n + 2);
    assert Alone(j, d1, w, m2, n + 2) == Alone(j, d1, w, m2.(pc := CheckSidecar), n + 1);
  }

  lemma AloneWrites(j: Job, d: Directory, w: nat, me: Writer, k: Kind, n: nat)
    requires !Has(d, Temporary(w, k)) && me.pc == Create(k)
    ensures Alone(j, d, w, me, n + 2) == Alone(j, d[Temporary(w, k) := j.Contents(w, k)], w,
      if k == Json then me.(pc := Create(Seal), jsonTemporary := true) else me.(pc := LinkSidecar, sealTemporary := true), n)
  {
    var d1 := d[Temporary(w, k) := ""];
    assert Alone(j, d, w, me, n + 2) == Alone(j, d1, w, me.(pc := Fill(k)), n + 1);
    assert d1[Temporary(w, k) := j.Contents(w, k)] == d[Temporary(w, k) := j.Contents(w, k)];
  }

  lemma AloneSeals(j: Job, d: Directory, w: nat, me: Writer, b: Bytes, n: nat)
    requires me.pc == LinkSidecar && !Has(d, Sidecar) && Holds(d, Temporary(w, Seal), b)
    ensures Alone(j, d, w, me, n + 2) ==
      Alone(j, d[Sidecar := b] - {Temporary(w, Seal)}, w, me.(pc := LinkTarget, sealTemporary := false, sealed := true), n)
  {
    assert Alone(j, d, w, me, n + 2) == Alone(j, d[Sidecar := b], w, me.(pc := DropSidecar, sealed := true), n + 1);
  }

  lemma AlonePublishes(j: Job, d: Directory, w: nat, me: Writer, b: Bytes, n: nat)
    requires me.pc == LinkTarget && !Has(d, Target) && Holds(d, Temporary(w, Json), b)
    ensures Alone(j, d, w, me, n + 2) ==
      Alone(j, d[Target := b] - {Temporary(w, Json)}, w,
            me.(pc := CleanJson, jsonTemporary := false, published := true, success := true), n)
  {
    assert Alone(j, d, w, me, n + 2) == Alone(j, d[Target := b], w, me.(pc := DropTarget, published := true), n + 1);
  }

  lemma AloneReleases(j: Job, d: Directory, w: nat, me: Writer, n: nat)
    requires me.pc == CleanJson && !me.jsonTemporary && !me.sealTemporary && me.owned
    ensures Alone(j, d, w, me, n + 3) == Alone(j, d - {Reservation}, w, me.(pc := Finished, owned := false, reserved := false), n)
  {
    var m1, m2 := me.(pc := CleanSeal), me.(pc := Release);
    assert Alone(j, d, w, me, n + 3) == Alone(j, d, w, m1, n + 2);
    assert Alone(j, d, w, m1, n + 2) == Alone(j, d, w, m2, n + 1);
  }

  /** The directory with the reservation and both temporary files. */
  function Prepared(d: Directory, w: nat, json: Bytes, seal: Bytes): Directory {
    d[Reservation := ""][Temporary(w, Json) := json][Temporary(w, Seal) := seal]
  }

  /** The directory once both files have their final names and the reservation is gone. */
  function Swept(d: Directory, w: nat, json: Bytes, seal: Bytes): Directory {
    (d[Sidecar := seal] - {Temporary(w, Seal)})[Target := json] - {Temporary(w, Json)} - {Reservation}
  }

  lemma SweptIsOutcome(j: Job, d: Directory, w: nat)
    requires Free(d) && !Has(d, Temporary(w, Json)) && !Has(d, Temporary(w, Seal))
    ensures var json, seal := j.Contents(w, Json), j.Contents(w, Seal);
      Swept(Prepared(d, w, json, seal), w, json, seal) == Outcome(j, d, w, true)
  {
    var json, seal := j.Contents(w, Json), j.Contents(w, Seal);
    SameEverywhere(Swept(Prepared(d, w, json, seal), w, json, seal), Outcome(j, d, w, true));
  }

  lemma AlonePrepares(j: Job, d: Directory, w: nat, n: nat, me: Writer)
    requires Free(d) && !Has(d, Temporary(w, Json)) && !Has(d, Temporary(w, Seal))
    requires me == IDLE.(pc := LinkSidecar, owned := true, reserved := true, jsonTemporary := true, sealTemporary := true)
    ensures var d' := Prepared(d, w, j.Contents(w, Json), j.Contents(w, Seal));
      && Alone(j, d, w, IDLE, n + 8) == Alone(j, d', w, me, n)
      && !Has(d', Sidecar) && !Has(d', Target)
      && Holds(d', Temporary(w, Json), j.Contents(w, Json)) && Holds(d', Temporary(w, Seal), j.Contents(w, Seal))
  {
    var m1, d1 := IDLE.(pc := Create(Json), owned := true, reserved := true), d[Reservation := ""];
    AloneReserves(j, d, w, n + 4);
    AloneWrites(j, d1, w, m1, Json, n + 2);
    AloneWrites(j, d1[Temporary(w, Json) := j.Contents(w, Json)], w, m1.(pc := Create(Seal), jsonTemporary := true), Seal, n);
  }

  lemma AloneLinks(j: Job, d: Directory, w: nat, me: Writer, n: nat, json: Bytes, seal: Bytes)
    requires me.pc == LinkSidecar && !Has(d, Sidecar) && !Has(d, Target)
    requires Holds(d, Temporary(w, Json), json) && Holds(d, Temporary(w, Seal), seal)
    ensures Alone(j, d, w, me, n + 4) ==
      Alone(j, (d[Sidecar := seal] - {Temporary(w, Seal)})[Target := json] - {Temporary(w, Json)}, w,
            me.(pc := CleanJson, sealTemporary := false, sealed := true, jsonTemporary := false, published := true, success := true), n)
  {
    AloneSeals(j, d, w, me, seal, n + 2);
    AlonePublishes(j, d[Sidecar := seal] - {Temporary(w, Seal)}, w,
                   me.(pc := LinkTarget, sealTemporary := false, sealed := true), json, n);
  }

  lemma AloneFinishes(j: Job, d: Directory, w: nat, me: Writer, n: nat, json: Bytes, seal: Bytes)
    requires me.pc == LinkSidecar && me.owned && !Has(d, Sidecar) && !Has(d, Target)
    requires Holds(d, Temporary(w, Json), json) && Holds(d, Temporary(w, Seal), seal)
    ensures var me' := me.(pc := Finished, owned := false, reserved := false, sealTemporary := false, sealed := true,
                           jsonTemporary := false, published := true, success := true);
      Alone(j, d, w, me, n + 7) == Alone(j, Swept(d, w, json, seal), w, me', n)
  {
    AloneLinks(j, d, w, me, n + 3, json, seal);
    AloneReleases(j, (d[Sidecar := seal] - {Temporary(w, Seal)})[Target := json] - {Temporary(w, Json)}, w,
      me.(pc := CleanJson, sealTemporary := false, sealed := true, jsonTemporary := false, published := true, success := true), n);
  }

  lemma {:induction false} AloneRests(j: Job, d: Directory, w: nat, me: Writer, n: nat)
    requires me.pc == Finished
    ensures Alone(j, d, w, me, n) == (d, me)
  {
    if n > 0 { AloneRests(j, d, w, me, n - 1); }
  }

  /** An undisturbed writer of a free identity has published both files, and left nothing else, after fifteen calls. */
  lemma AloneSucceeds(j: Job, d: Directory, w: nat, calls: nat)
    requires Free(d) && !Has(d, Temporary(w, Json)) && !Has(d, Temporary(w, Seal)) && 15 <= calls
    ensures Alone(j, d, w, IDLE, calls).0 == Outcome(j, d, w, true)
    ensures Alone(j, d, w, IDLE, calls).1.pc == Finished && Alone(j, d, w, IDLE, calls).1.success
  {
    var json, seal, rest := j.Contents(w, Json), j.Contents(w, Seal), calls - 15;
    var me := IDLE.(pc := LinkSidecar, owned := true, reserved := true, jsonTemporary := true, sealTemporary := true);
    AlonePrepares(j, d, w, rest + 7, me);
    AloneFinishes(j, Prepared(d, w, json, seal), w, me, rest, json, seal);
    SweptIsOutcome(j, d, w);
    AloneRests(j, Swept(Prepared(d, w, json, seal), w, json, seal), w,
               me.(pc := Finished, owned := false, reserved := false, sealTemporary := false, sealed := true,
                   jsonTemporary := false, published := true, success := true), rest);
  }

  /** `n` calls of one writer, none of which fails. */
  function Calls(w: nat, n: nat): seq<Action> { if n == 0 then [] else Calls(w, n - 1) + [Proceed(w)] }

  lemma {:induction false} LastCall(j: Job, d: Directory, w: nat, me: Writer, n: nat, before: (Directory, Writer))
    requires n > 0 && before == Alone(j, d, w, me, n - 1)
    ensures Alone(j, d, w, me, n) == Step(j, before.0, w, before.1)
    decreases n
  {
    if n > 1 {
      var (d1, me1) := Step(j, d, w, me);
      LastCall(j, d1, w, me1, n - 1, before);
    }
  }

  ghost predicate Matches(y: System, w: nat, a: (Directory, Writer)) { y.files == a.0 && y.Of(w) == a.1 }

  lemma {:induction false} AloneIsRun(j: Job, d: Directory, w: nat, me: Writer, n: nat)
    requires me == System(d, map[]).Of(w)
    ensures Matches(Run(j, d, Calls(w, n)), w, Alone(j, d, w, me, n))
    decreases n
  {
    if n > 0 {
      AloneIsRun(j, d, w, me, n - 1);
      OneMoreAlone(j, d, w, me, n, Run(j, d, Calls(w, n - 1)), Run(j, d, Calls(w, n)), Alone(j, d, w, me, n - 1));
    }
  }

  lemma OneMoreAlone(j: Job, d: Directory, w: nat, me: Writer, n: nat, y: System, y': System, before: (Directory, Writer))
    requires n > 0 && before == Alone(j, d, w, me, n - 1) && Matches(y, w, before)
    requires y == Run(j, d, Calls(w, n - 1)) && y' == Run(j, d, Calls(w, n))
    ensures Matches(y', w, Alone(j, d, w, me, n))
  {
    LastCall(j, d, w, me, n, before);
    OneMoreCall(j, d, w, n);
    ProceedSteps(j, y, w, before);
  }

  lemma OneMoreCall(j: Job, d: Directory, w: nat, n: nat)
    requires n > 0
    ensures Run(j, d, Calls(w, n)) == Next(j, Run(j, d, Calls(w, n - 1)), Proceed(w))
  {
    assert Calls(w, n)[..|Calls(w, n)| - 1] == Calls(w, n - 1);
  }

  lemma ProceedSteps(j: Job, y: System, w: nat, before: (Directory, Writer))
    requires Matches(y, w, before)
    ensures Matches(Next(j, y, Proceed(w)), w, Step(j, before.0, w, before.1))
  {
  }

  /** So a run of the step machine does publish: after fifteen or more calls of one writer both files are there, and nothing else. */
  lemma RunPublishes(j: Job, d: Directory, w: nat, calls: nat)
    requires Free(d) && !Has(d, Temporary(w, Json)) && !Has(d, Temporary(w, Seal)) && 15 <= calls
    ensures var y := Run(j, d, Calls(w, calls));
      && y.files == d[Sidecar := j.SealOf(j.payload(w))][Target := j.payload(w)] && y.Of(w).pc == Finished && y.Of(w).success
  {
    AloneIsRun(j, d, w, IDLE, calls);
    AloneSucceeds(j, d, w, calls);
  }

  // ---- The call as it runs ----

  /** What a call reports: whether it returned normally, what it linked, and whether a removal failed. */
  datatype Report = Report(ok: bool, sealed: bool, published: bool, leaked: bool)

  predicate IsTemporary(p: Path, w: nat) { p.Temporary? && p.writer == w }

  lemma TwoTemporaries(p: Path, w: nat)
    requires IsTemporary(p, w)
    ensures p == Temporary(w, Json) || p == Temporary(w, Seal)
  {
    match p.kind
    case Json =>
    case Seal =>
  }

  /** A path that the call of `w` uses only while it lasts. */
  predicate IsScratch(p: Path, w: nat) { p == Reservation || IsTemporary(p, w) }

  /** Apart from scratch paths the directory is as expected. */
  ghost predicate AsLinked(d: Directory, expected: Directory, w: nat) {
    forall p | !IsScratch(p, w) :: SameAt(d, expected, p)
  }

  lemma OnlyOneDiffers(d: Directory, d': Directory, p: Path)
    requires d' - {p} == d - {p}
    ensures forall q | q != p :: SameAt(d, d', q)
  {
    forall q | q != p ensures SameAt(d, d', q) {
      assert q in d - {p} <==> q in d' - {p};
      assert q in d ==> (d - {p})[q] == (d' - {p})[q];
    }
  }

  /** The directory as a caller without competitors uses it; any system call may raise. */
  class EvidenceDirectory {
    const raises: nat -> bool
    const partial: nat -> Bytes
    var files: Directory
    var calls: nat

    /** `raises` tells which system calls fail, `partial` what a failed write has written. */
    constructor (files: Directory, raises: nat -> bool, partial: nat -> Bytes)
      ensures this.files == files && this.raises == raises && this.partial == partial && calls == 0
    {
      this.files := files;
      this.raises := raises;
      this.partial := partial;
      calls := 0;
    }

    /** No call made since the given one raised. */
    ghost predicate Smooth(since: nat)
      reads this
    {
      forall i | since <= i < calls :: !raises(i)
    }

    /** The next system call goes through. */
    method Passes() returns (ok: bool)
      modifies this`calls
      ensures calls == old(calls) + 1 && ok == !raises(old(calls))
    {
      ok := !raises(calls);
      calls := calls + 1;
    }

    /** Exclusive creation of the reservation, and the closing of its descriptor. */
    method ReserveIdentity() returns (owned: bool, leaked: bool)
      modifies this`files, this`calls
      ensures calls >= old(calls)
      ensures !(owned && leaked) && (owned || leaked ==> !old(Has(files, Reservation)))
      ensures files == if owned || leaked then old(files)[Reservation := ""] else old(files)
      ensures Smooth(old(calls)) ==> !leaked && owned == !old(Has(files, Reservation))
    {
      leaked := false;
      owned := Passes();
      if owned && Reservation !in files {
        files := files[Reservation := ""];
        owned := Passes();
        leaked := !owned;
      } else {
        owned := false;
      }
    }

    /** Creates and fills a temporary file; when filling fails it is removed again, if possible. */
    method WriteTemporary(p: Path, contents: Bytes) returns (ok: bool, leaked: bool)
      requires !Has(files, p)
      modifies this`files, this`calls
      ensures calls >= old(calls) && !(ok && leaked)
      ensures ok ==> files == old(files)[p := contents]
      ensures !ok && !leaked ==> files == old(files)
      ensures leaked ==> Has(files, p) && files - {p} == old(files)
      ensures Smooth(old(calls)) ==> ok
    {
      leaked := false;
      ok := Passes();
      if ok {
        files := files[p := ""];
        ok := Passes();
        if ok {
          files := files[p := contents];
        } else {
          files := files[p := partial(calls)];
          assert files - {p} == old(files);
          var removed := Passes();
          leaked := !removed;
          if removed {
            files := files - {p};
          }
        }
      }
    }

    /** Links the temporary file to its final name unless that exists, then removes the temporary name. */
    method PublishNoClobber(temporary: Path, target: Path) returns (linked: bool, dropped: bool)
      requires temporary in files && temporary != target
      modifies this`files, this`calls
      ensures calls >= old(calls) && (dropped ==> linked)
      ensures linked ==> !old(Has(files, target))
      ensures files == if !linked then old(files)
                       else if dropped then old(files)[target := old(files[temporary])] - {temporary}
                       else old(files)[target := old(files[temporary])]
      ensures Smooth(old(calls)) ==> (dropped <==> !old(Has(files, target)))
    {
      linked := Passes();
      dropped := false;
      if linked && target !in files {
        files := files[target := files[temporary]];
        dropped := Passes();
        if dropped { files := files - {temporary}; }
      } else {
        linked := false;
      }
    }

    method Remove(p: Path, needed: bool) returns (ok: bool)
      modifies this`files, this`calls
      ensures calls >= old(calls)
      ensures files == if ok && needed then old(files) - {p} else old(files)
      ensures !needed ==> ok
      ensures Smooth(old(calls)) ==> ok
    {
      ok := true;
      if needed {
        ok := Passes();
        if ok { files := files - {p}; }
      }
    }

    /** The clean-up; a removal that raises skips the rest. */
    method CleanUp(w: nat, json: bool, seal: bool, owned: bool) returns (ok: bool)
      modifies this`files, this`calls
      ensures calls >= old(calls)
      ensures forall p | !IsScratch(p, w) :: SameAt(old(files), files, p)
      ensures forall p | !Has(old(files), p) :: !Has(files, p)
      ensures ok && json ==> !Has(files, Temporary(w, Json))
      ensures ok && seal ==> !Has(files, Temporary(w, Seal))
      ensures ok ==> if owned then !Has(files, Reservation) else SameAt(old(files), files, Reservation)
      ensures Smooth(old(calls)) ==> ok
    {
      ok := Remove(Temporary(w, Json), json);
      if ok {
        ok := Remove(Temporary(w, Seal), seal);
        if ok {
          ok := Remove(Reservation, owned);
        }
      }
    }
  
    /** Both temporary files; the flags say what is there and whether a removal failed. */
    method WriteBoth(j: Job, w: nat) returns (ok: bool, json: bool, leaked: bool)
      requires !Has(files, Temporary(w, Json)) && !Has(files, Temporary(w, Seal))
      modifies this`files, this`calls
      ensures calls >= old(calls)
      ensures ok ==> files == old(files)[Temporary(w, Json) := j.payload(w)][Temporary(w, Seal) := j.SealOf(j.payload(w))]
      ensures forall p | !IsTemporary(p, w) :: SameAt(old(files), files, p)
      ensures !ok ==> (Has(files, Temporary(w, Json)) ==> json || leaked) && (Has(files, Temporary(w, Seal)) ==> leaked)
      ensures ok ==> json && !leaked
      ensures Smooth(old(calls)) ==> ok
    {
      ok, leaked := WriteTemporary(Temporary(w, Json), j.payload(w));
      json := ok;
      OnlyOneDiffers(old(files), files, Temporary(w, Json));
      if ok {
        ghost var written := files;
        ok, leaked := WriteTemporary(Temporary(w, Seal), j.SealOf(j.payload(w)));
        OnlyOneDiffers(written, files, Temporary(w, Seal));
        forall p | !IsTemporary(p, w) ensures SameAt(old(files), files, p) {
          assert SameAt(old(files), written, p) && SameAt(written, files, p);
        }
      }
    }

    /** Both links, of the sidecar first. */
    method LinkBoth(j: Job, w: nat) returns (r: Report, json: bool, seal: bool)
      requires Holds(files, Temporary(w, Json), j.payload(w)) && Holds(files, Temporary(w, Seal), j.SealOf(j.payload(w)))
      requires !Has(files, Target) && !Has(files, Sidecar)
      modifies this`files, this`calls
      ensures calls >= old(calls) && !r.leaked
      ensures (r.published ==> r.sealed) && (r.ok ==> r.published)
      ensures forall p | !IsTemporary(p, w) :: SameAt(files, Linked(j, old(files), w, r.sealed, r.published), p)
      ensures (Has(files, Temporary(w, Json)) ==> json) && (Has(files, Temporary(w, Seal)) ==> seal)
      ensures Smooth(old(calls)) ==> r.ok
    {
      json := true;
      var linked, dropped := PublishNoClobber(Temporary(w, Seal), Sidecar);
      seal := !dropped;
      r := Report(false, linked, false, false);
      if dropped {
        linked, dropped := PublishNoClobber(Temporary(w, Json), Target);
        json := !dropped;
        r := Report(dropped, true, linked, false);
      }
    }

    /** The two look-ups of final names. */
    method LooksFree() returns (free: bool)
      modifies this`calls
      ensures calls >= old(calls)
      ensures free ==> !Has(files, Target) && !Has(files, Sidecar)
      ensures Smooth(old(calls)) ==> (free <==> !Has(files, Target) && !Has(files, Sidecar))
    {
      free := Passes();
      if free && Target !in files {
        free := Passes();
        free := free && Sidecar !in files;
      } else {
        free := false;
      }
    }

    /** Everything between the reservation and the clean-up. */
    method Attempt(j: Job, w: nat) returns (r: Report, json: bool, seal: bool)
      requires !Has(files, Temporary(w, Json)) && !Has(files, Temporary(w, Seal))
      modifies this`files, this`calls
      ensures calls >= old(calls)
      ensures (r.published ==> r.sealed) && (r.ok ==> r.published && !r.leaked)
      ensures r.sealed ==> !old(Has(files, Target)) && !old(Has(files, Sidecar))
      ensures forall p | !IsTemporary(p, w) :: SameAt(files, Linked(j, old(files), w, r.sealed, r.published), p)
      ensures (Has(files, Temporary(w, Json)) ==> json || r.leaked) && (Has(files, Temporary(w, Seal)) ==> seal || r.leaked)
      ensures Smooth(old(calls)) ==> !r.leaked && (r.ok <==> !old(Has(files, Target)) && !old(Has(files, Sidecar)))
    {
      r, json, seal := Report(false, false, false, false), false, false;
      var free := LooksFree();
      if free {
        var wrote, leaked;
        wrote, json, leaked := WriteBoth(j, w);
        r := r.(leaked := leaked);
        if wrote {
          ghost var written := files;
          r, json, seal := LinkBoth(j, w);
          forall p | !IsTemporary(p, w)
            ensures SameAt(files, Linked(j, old(files), w, r.sealed, r.published), p)
          {
            assert SameAt(old(files), written, p);
          }
        }
      }
    }

    /**
     Whatever calls raise: no final file is touched, the document appears only beside its sidecar, and
     unless a removal failed nothing else is left. Without failures it succeeds exactly on a free identity.
     */
    method WriteEvidence(j: Job, w: nat) returns (r: Report)
      requires !Has(files, Temporary(w, Json)) && !Has(files, Temporary(w, Seal))
      modifies this`files, this`calls
      ensures (r.published ==> r.sealed) && (r.sealed ==> old(Free(files))) && (r.ok ==> r.published && !r.leaked)
      ensures AsLinked(files, Linked(j, old(files), w, r.sealed, r.published), w)
      ensures !r.leaked ==> files == Linked(j, old(files), w, r.sealed, r.published)
      ensures Smooth(old(calls)) ==> !r.leaked && r.ok == old(Free(files))
    {
      r := Report(false, false, false, false);
      var json, seal := false, false;
      var owned, lost := ReserveIdentity();
      ghost var reserved := files;
      if owned {
        r, json, seal := Attempt(j, w);
      }
      ghost var linked := files;
      var cleaned := CleanUp(w, json, seal, owned);
      var tidy := cleaned && !lost && !r.leaked;
      forall p | !IsScratch(p, w) ensures SameAt(files, Linked(j, old(files), w, r.sealed, r.published), p) {
        assert SameAt(linked, files, p) && SameAt(old(files), reserved, p);
      }
      if tidy {
        assert !Has(files, Temporary(w, Json)) && !Has(files, Temporary(w, Seal));
        assert SameAt(old(files), files, Reservation);
        forall p ensures SameAt(files, Linked(j, old(files), w, r.sealed, r.published), p) {
          if IsTemporary(p, w) { TwoTemporaries(p, w); }
        }
        SameEverywhere(files, Linked(j, old(files), w, r.sealed, r.published));
      }
      r := r.(ok := r.ok && cleaned, leaked := !tidy);
    }
  }
}

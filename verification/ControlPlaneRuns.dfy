/**
 Runs of the control plane in which the checks, reads and commits of many callers interleave, and
 the registry service that performs each operation in one transaction.
 */
module ControlPlaneRuns {
  import opened Wrappers
  import opened CanonicalJson
  import opened ProjectRegistry
  import opened ControlPlane

  // ---- What one commit keeps ----

  /** From `s` to `s'` the value under `key` stays or its version grows by one. */
  ghost predicate Advances(sha: string -> string, s: State, s': State, key: Key) {
    || Stored(s', key) == Stored(s, key)
    || Version(sha, s', key) == Version(sha, s, key) + 1
  }

  lemma {:induction false} ReplayStaysInProject(projectId: string, events: seq<Event>)
    requires Replay(projectId, events).Ok?
    ensures Replay(projectId, events).value.projectId == projectId
    ensures Replay(projectId, events).value.revision >= 0
  {
    if events != [] {
      ReplayStaysInProject(projectId, events[..|events| - 1]);
    }
  }

  /** A transition on top of the replay of `events` is stored as the replay of one more event. */
  lemma NextTextIsReplay(sha: string -> string, id: string, raw: Option<string>, events: seq<Event>, e: Event)
    requires TextIsReplay(sha, id, raw, events) && ValidEvent(sha, e) && e.transition.Some?
    requires Apply(PointerOf(sha, id, raw).value, e).Ok?
    ensures var next := Some(PointerText(Apply(PointerOf(sha, id, raw).value, e).value));
      && TextIsReplay(sha, id, next, events + [e])
      && VersionOf(sha, SharedState(id), next) == VersionOf(sha, SharedState(id), raw) + 1
  {
    var current := PointerOf(sha, id, raw).value;
    ReplayOneMore(id, events, e);
    ReplayStaysInProject(id, events);
    ApplyKeepsValid(sha, current, e);
    PointerRoundTrip(sha, Apply(current, e).value);
  }

  lemma CommittedPointer(sha: string -> string, s: State, e: Event, raw: Option<string>)
    requires PointerIsReplay(sha, s, e.project.projectId) && ValidEvent(sha, e)
    requires CommitEvent(sha, s, e, raw).Ok?
    ensures var s', key := CommitEvent(sha, s, e, raw).value.0, SharedState(e.project.projectId);
      && PointerIsReplay(sha, s', e.project.projectId)
      && Advances(sha, s, s', key)
      && (Stored(s', key) != Stored(s, key) ==> Stored(s, key) == raw)
  {
    var id := e.project.projectId;
    var events := EventsOf(s.log, id);
    OneMoreEntry(s.log, EventAppended(e), id, SharedState(id));
    if e.transition.Some? {
      NextTextIsReplay(sha, id, raw, events, e);
    } else {
      ReplayOneMore(id, events, e);
      ReplayStaysInProject(id, events);
    }
  }

  /**
   A caller that read the latest text is refused exactly when the event does not fit the replay of the
   log, and is given the replay of one more event: the stored text never stands in the way.
   */
  lemma CommitIsReplayStep(sha: string -> string, fold: string -> string, s: State, e: Event)
    requires Consistent(sha, fold, s)
    ensures var id := e.project.projectId;
      var committed := CommitEvent(sha, s, e, Stored(s, SharedState(id)));
      var replayed := Replay(id, EventsOf(s.log, id) + [e]);
      && (committed.Ok? <==> replayed.Ok?)
      && (committed.Ok? ==> committed.value.1 == replayed.value)
  {
    var id := e.project.projectId;
    assert PointerIsReplay(sha, s, id);
    ReplayOneMore(id, EventsOf(s.log, id), e);
  }

  /**
   Read off the log alone: the transitions of each project form a chain from genesis, the stored pointer
   shows the last of them, and an event whose caller read that pointer is refused exactly when it
   carries a transition that does not extend the chain.
   */
  lemma LogTells(sha: string -> string, fold: string -> string, s: State, e: Event)
    requires Consistent(sha, fold, s) && ValidEvent(sha, e)
    ensures var id := e.project.projectId;
      var raw, ts := Stored(s, SharedState(id)), TransitionsOf(s.log, id);
      && Chained(ts) && PointerOf(sha, id, raw).Some? && ShowsLast(PointerOf(sha, id, raw).value, id, ts)
      && (CommitEvent(sha, s, e, raw).Ok? <==> e.transition.None? || e.transition.value.previousStateHash == LastHash(ts))
  {
    assert PointerIsReplay(sha, s, e.project.projectId);
    LogTellsPointer(sha, s, e);
    CommitFits(sha, s, e, PointerOf(sha, e.project.projectId, Stored(s, SharedState(e.project.projectId))).value);
  }

  lemma LogTellsPointer(sha: string -> string, s: State, e: Event)
    requires PointerIsReplay(sha, s, e.project.projectId)
    ensures var id := e.project.projectId;
      var raw, ts := Stored(s, SharedState(id)), TransitionsOf(s.log, id);
      Chained(ts) && PointerOf(sha, id, raw).Some? && ShowsLast(PointerOf(sha, id, raw).value, id, ts)
  {
    ReplayShowsLast(s.log, e.project.projectId);
  }

  lemma CommitFits(sha: string -> string, s: State, e: Event, p: Pointer)
    requires PointerOf(sha, e.project.projectId, Stored(s, SharedState(e.project.projectId))) == Some(p) && p.projectId == e.project.projectId
    ensures CommitEvent(sha, s, e, Stored(s, SharedState(e.project.projectId))).Ok? <==>
      e.transition.None? || e.transition.value.previousStateHash == p.stateHash
  {
  }

  /** `s'` is `s` with one more log entry and at most the value under `key` changed. */
  ghost predicate OneWrite(s: State, s': State, key: Key, entry: Entry) {
    && s'.projects == s.projects && s'.log == s.log + [entry]
    && forall other: Key | other != key :: Stored(s', other) == Stored(s, other)
  }

  lemma WriteKeepsConsistent(sha: string -> string, fold: string -> string, s: State, s': State, key: Key, entry: Entry)
    requires Consistent(sha, fold, s) && OneWrite(s, s', key, entry)
    requires !entry.ProjectRegistered?
    requires entry.EventAppended? ==>
      key == SharedState(entry.event.project.projectId) && PointerIsReplay(sha, s', key.projectId)
    requires entry.GenerationRecorded? ==>
      key == entry.key && !key.SharedState? && GenerationsAreCounted(sha, s', key)
    ensures Consistent(sha, fold, s')
  {
    forall projectId: string ensures PointerIsReplay(sha, s', projectId) {
      OneMoreEntry(s.log, entry, projectId, key);
      assert PointerIsReplay(sha, s, projectId);
    }
    forall other: Key | !other.SharedState? ensures GenerationsAreCounted(sha, s', other) {
      OneMoreEntry(s.log, entry, "", other);
      assert GenerationsAreCounted(sha, s, other);
      assert other in s'.flags <==> Stored(s', other).Some?;
    }
  }

  lemma CommitEventWrites(sha: string -> string, s: State, e: Event, raw: Option<string>)
    requires CommitEvent(sha, s, e, raw).Ok?
    ensures OneWrite(s, CommitEvent(sha, s, e, raw).value.0, SharedState(e.project.projectId), EventAppended(e))
  {
  }

  lemma CommitEventKeepsConsistent(sha: string -> string, fold: string -> string, s: State, e: Event, raw: Option<string>, s': State)
    requires Consistent(sha, fold, s) && ValidEvent(sha, e)
    requires CommitEvent(sha, s, e, raw).Ok? && CommitEvent(sha, s, e, raw).value.0 == s'
    ensures Consistent(sha, fold, s')
    ensures var key := SharedState(e.project.projectId);
            OneWrite(s, s', key, EventAppended(e)) && Advances(sha, s, s', key)
  {
    assert PointerIsReplay(sha, s, e.project.projectId);
    CommittedPointer(sha, s, e, raw);
    CommitEventWrites(sha, s, e, raw);
    WriteKeepsConsistent(sha, fold, s, s', SharedState(e.project.projectId), EventAppended(e));
  }

  lemma CommittedGeneration(sha: string -> string, s: State, key: Key, generation: int, record: Json, raw: Option<string>)
    requires !key.SharedState? && GenerationsAreCounted(sha, s, key) && ValidRecord(generation, record)
    requires CommitGeneration(s, key, generation, record, raw).Ok?
    ensures var s' := CommitGeneration(s, key, generation, record, raw).value;
      && GenerationsAreCounted(sha, s', key)
      && Advances(sha, s, s', key)
      && Stored(s, key) == raw
  {
    var s' := CommitGeneration(s, key, generation, record, raw).value;
    GenerationSwaps(s, key, generation, record, raw, s');
    OneMoreEntry(s.log, GenerationRecorded(key, generation, record), "", key);
    RecordTellsGeneration(sha, key, generation, record);
    assert UpTo(generation) == UpTo(generation - 1) + [generation];
  }

  lemma GenerationSwaps(s: State, key: Key, generation: int, record: Json, raw: Option<string>, s': State)
    requires CommitGeneration(s, key, generation, record, raw) == Ok(s')
    ensures Stored(s, key) == raw && Stored(s', key) == Some(Print(record)) && s'.log == s.log + [GenerationRecorded(key, generation, record)]
    ensures if raw.None? then generation == 1 else GenerationOf(raw.value) == Some(generation - 1)
  {
  }

  lemma RecordTellsGeneration(sha: string -> string, key: Key, generation: int, record: Json)
    requires !key.SharedState? && ValidRecord(generation, record) && generation >= 1
    ensures VersionOf(sha, key, Some(Print(record))) == generation
  {
    DecodeInvertsPrint(record, Print(record));
  }

  lemma CommitGenerationWrites(s: State, key: Key, generation: int, record: Json, raw: Option<string>)
    requires CommitGeneration(s, key, generation, record, raw).Ok?
    ensures OneWrite(s, CommitGeneration(s, key, generation, record, raw).value, key, GenerationRecorded(key, generation, record))
  {
  }

  lemma CommitGenerationKeepsConsistent(sha: string -> string, fold: string -> string, s: State, key: Key,
                                        generation: int, record: Json, raw: Option<string>, s': State)
    requires Consistent(sha, fold, s) && !key.SharedState? && ValidRecord(generation, record)
    requires CommitGeneration(s, key, generation, record, raw) == Ok(s')
    ensures Consistent(sha, fold, s')
    ensures OneWrite(s, s', key, GenerationRecorded(key, generation, record)) && Advances(sha, s, s', key)
  {
    assert GenerationsAreCounted(sha, s, key);
    CommittedGeneration(sha, s, key, generation, record, raw);
    CommitGenerationWrites(s, key, generation, record, raw);
    WriteKeepsConsistent(sha, fold, s, s', key, GenerationRecorded(key, generation, record));
  }

  lemma RegisterKeepsConsistent(sha: string -> string, fold: string -> string, s: State, p: ProjectDescriptor)
    requires Consistent(sha, fold, s) && Register(fold, s, p).Ok?
    ensures Consistent(sha, fold, Register(fold, s, p).value)
  {
    var s' := Register(fold, s, p).value;
    forall projectId: string ensures PointerIsReplay(sha, s', projectId) {
      OneMoreEntry(s.log, ProjectRegistered(p), projectId, SharedState(projectId));
      assert PointerIsReplay(sha, s, projectId);
    }
    forall key: Key | !key.SharedState? ensures GenerationsAreCounted(sha, s', key) {
      OneMoreEntry(s.log, ProjectRegistered(p), "", key);
      assert GenerationsAreCounted(sha, s, key);
    }
  }

  // ---- Interleaved runs ----

  /** How far a caller's operation has come. */
  datatype Pending =
    | Checked(event: Event)
    | EventRead(event: Event, raw: Option<string>)
    | GenerationRead(key: Key, generation: int, record: Json, raw: Option<string>)

  datatype System = System(state: State, pending: map<nat, Pending>)

  datatype Action =
    | RegisterProject(project: ProjectDescriptor)
    | Check(caller: nat, event: Event)
    | Read(caller: nat)
    | ReadGeneration(caller: nat, key: Key, generation: int, record: Json)
    | Commit(caller: nat)

  predicate ValidAction(sha: string -> string, a: Action) {
    match a
    case RegisterProject(p) => ValidProject(p)
    case Check(_, e) => ValidEvent(sha, e)
    case ReadGeneration(_, key, generation, record) => !key.SharedState? && ValidRecord(generation, record)
    case _ => true
  }

  /** The state after a commit; a refused commit changes nothing. */
  function Committed(sha: string -> string, s: State, p: Pending): State {
    match p
    case Checked(_) => s
    case EventRead(e, raw) =>
      var r := CommitEvent(sha, s, e, raw);
      if r.Ok? then r.value.0 else s
    case GenerationRead(key, generation, record, raw) =>
      var r := CommitGeneration(s, key, generation, record, raw);
      if r.Ok? then r.value else s
  }

  /** One step of the run. A refused step leaves the tables and the log as they were. */
  function Next(sha: string -> string, fold: string -> string, y: System, a: Action): System {
    match a
    case RegisterProject(p) =>
      var r := Register(fold, y.state, p);
      if r.Ok? then y.(state := r.value) else y
    case Check(c, e) =>
      if Resolve(y.state.projects, e.project.projectId) == Some(e.project)
      then y.(pending := y.pending[c := Checked(e)]) else y.(pending := y.pending - {c})
    case Read(c) =>
      if c in y.pending && !y.pending[c].GenerationRead? then
        var e := y.pending[c].event;
        y.(pending := y.pending[c := EventRead(e, Stored(y.state, SharedState(e.project.projectId)))])
      else y.(pending := y.pending - {c})
    case ReadGeneration(c, key, generation, record) =>
      y.(pending := y.pending[c := GenerationRead(key, generation, record, Stored(y.state, key))])
    case Commit(c) =>
      if c !in y.pending then y else System(Committed(sha, y.state, y.pending[c]), y.pending - {c})
  }

  function Run(sha: string -> string, fold: string -> string, actions: seq<Action>): System {
    if actions == [] then System(EMPTY, map[])
    else Next(sha, fold, Run(sha, fold, actions[..|actions| - 1]), actions[|actions| - 1])
  }

  /** The operations under way are well-formed and their projects are still registered as they were checked. */
  ghost predicate PendingIsSound(sha: string -> string, y: System) {
    forall c | c in y.pending ::
      && SoundPending(sha, y.pending[c])
      && (!y.pending[c].GenerationRead? ==>
            var project := y.pending[c].event.project;
            Resolve(y.state.projects, project.projectId) == Some(project))
  }

  ghost predicate Sound(sha: string -> string, fold: string -> string, y: System) {
    Consistent(sha, fold, y.state) && PendingIsSound(sha, y)
  }

  ghost predicate SoundPending(sha: string -> string, p: Pending) {
    match p
    case GenerationRead(key, generation, record, _) => !key.SharedState? && ValidRecord(generation, record)
    case _ => ValidEvent(sha, p.event)
  }

  /** The key a commit of `p` may write, and the text it must still find there. */
  ghost predicate Holds(p: Pending, s: State, key: Key) {
    match p
    case Checked(_) => false
    case EventRead(e, raw) => key == SharedState(e.project.projectId) && Stored(s, key) == raw
    case GenerationRead(k, _, _, raw) => key == k && Stored(s, key) == raw
  }

  /** A commit keeps the state consistent and changes at most the value its caller read, if still stored. */
  lemma CommitIsSound(sha: string -> string, fold: string -> string, s: State, p: Pending)
    requires Consistent(sha, fold, s) && SoundPending(sha, p)
    ensures Consistent(sha, fold, Committed(sha, s, p))
    ensures Committed(sha, s, p).projects == s.projects
    ensures forall key :: Advances(sha, s, Committed(sha, s, p), key)
    ensures forall key :: Stored(Committed(sha, s, p), key) == Stored(s, key) || Holds(p, s, key)
  {
    match p
    case Checked(_) =>
    case EventRead(e, raw) =>
      if CommitEvent(sha, s, e, raw).Ok? {
        assert PointerIsReplay(sha, s, e.project.projectId);
        CommittedPointer(sha, s, e, raw);
        CommitEventKeepsConsistent(sha, fold, s, e, raw, Committed(sha, s, p));
      }
    case GenerationRead(key, generation, record, raw) =>
      if CommitGeneration(s, key, generation, record, raw).Ok? {
        assert GenerationsAreCounted(sha, s, key);
        CommittedGeneration(sha, s, key, generation, record, raw);
        CommitGenerationKeepsConsistent(sha, fold, s, key, generation, record, raw, Committed(sha, s, p));
      }
  }

  lemma NextIsSound(sha: string -> string, fold: string -> string, y: System, a: Action)
    requires Sound(sha, fold, y) && ValidAction(sha, a)
    ensures Sound(sha, fold, Next(sha, fold, y, a))
    ensures forall key :: Advances(sha, y.state, Next(sha, fold, y, a).state, key)
  {
    match a
    case RegisterProject(p) =>
      if Register(fold, y.state, p).Ok? {
        RegisterKeepsConsistent(sha, fold, y.state, p);
        forall c | c in y.pending && !y.pending[c].GenerationRead? {
          ResolutionIsStable(fold, y.state.projects, p, y.pending[c].event.project.projectId);
        }
      }
    case Commit(c) =>
      if c in y.pending {
        CommitIsSound(sha, fold, y.state, y.pending[c]);
      }
    case _ =>
  }

  lemma {:induction false} RunIsSound(sha: string -> string, fold: string -> string, actions: seq<Action>)
    requires forall a | a in actions :: ValidAction(sha, a)
    ensures Sound(sha, fold, Run(sha, fold, actions))
  {
    if actions == [] {
      EmptyIsConsistent(sha, fold);
    } else {
      RunIsSound(sha, fold, actions[..|actions| - 1]);
      NextIsSound(sha, fold, Run(sha, fold, actions[..|actions| - 1]), actions[|actions| - 1]);
    }
  }

  // ---- What every run guarantees ----

  /**
   In every reachable state, refused commits included, the stored pointer of each project is the
   replay of that project's logged events and its revision counts the events with a transition.
   */
  lemma StoredPointerIsReplay(sha: string -> string, fold: string -> string, actions: seq<Action>, projectId: string)
    requires forall a | a in actions :: ValidAction(sha, a)
    ensures var s := Run(sha, fold, actions).state;
      var pointer := PointerOf(sha, projectId, Stored(s, SharedState(projectId)));
      && pointer.Some?
      && Replay(projectId, EventsOf(s.log, projectId)) == Ok(pointer.value)
      && pointer.value.revision == Transitions(EventsOf(s.log, projectId))
  {
    RunIsSound(sha, fold, actions);
    var s := Run(sha, fold, actions).state;
    assert PointerIsReplay(sha, s, projectId);
    ReplayCountsTransitions(projectId, EventsOf(s.log, projectId));
  }

  /**
   After every run of interleaved callers the logged transitions of a project form a chain: the first
   starts from the genesis hash and each later one from the hash its predecessor ended in. The stored
   pointer shows state, hash, event, correlation and time of the last one.
   */
  lemma TransitionsFormChain(sha: string -> string, fold: string -> string, actions: seq<Action>, projectId: string)
    requires forall a | a in actions :: ValidAction(sha, a)
    ensures var s := Run(sha, fold, actions).state;
      var ts, pointer := TransitionsOf(s.log, projectId), PointerOf(sha, projectId, Stored(s, SharedState(projectId)));
      Chained(ts) && pointer.Some? && ShowsLast(pointer.value, projectId, ts)
  {
    RunIsSound(sha, fold, actions);
    assert PointerIsReplay(sha, Run(sha, fold, actions).state, projectId);
    ReplayShowsLast(Run(sha, fold, actions).state.log, projectId);
  }

  /** The generations logged for a connector or server are 1, 2, 3 and so on, up to the stored one. */
  lemma GenerationsRunUpward(sha: string -> string, fold: string -> string, actions: seq<Action>, key: Key)
    requires forall a | a in actions :: ValidAction(sha, a)
    requires !key.SharedState?
    ensures var s := Run(sha, fold, actions).state;
      && Version(sha, s, key) >= 0
      && GenerationsOf(s.log, key) == UpTo(Version(sha, s, key))
      && (key in s.flags <==> Version(sha, s, key) > 0)
  {
    RunIsSound(sha, fold, actions);
    assert GenerationsAreCounted(sha, Run(sha, fold, actions).state, key);
  }

  ghost function StoredAfter(sha: string -> string, fold: string -> string, actions: seq<Action>, n: nat, key: Key): Option<string>
    requires n <= |actions|
  {
    Stored(Run(sha, fold, actions[..n]).state, key)
  }

  lemma {:induction false} VersionsGrow(sha: string -> string, fold: string -> string, actions: seq<Action>, i: nat, j: nat, key: Key)
    requires forall a | a in actions :: ValidAction(sha, a)
    requires i <= j <= |actions|
    ensures var a, b := StoredAfter(sha, fold, actions, i, key), StoredAfter(sha, fold, actions, j, key);
      VersionOf(sha, key, a) <= VersionOf(sha, key, b) && (VersionOf(sha, key, a) == VersionOf(sha, key, b) ==> a == b)
    decreases j
  {
    if i < j {
      VersionsGrow(sha, fold, actions, i, j - 1, key);
      RunIsSound(sha, fold, actions[..j - 1]);
      NextIsSound(sha, fold, Run(sha, fold, actions[..j - 1]), actions[j - 1]);
      assert actions[..j][..j - 1] == actions[..j - 1];
      assert Advances(sha, Run(sha, fold, actions[..j - 1]).state, Run(sha, fold, actions[..j]).state, key);
    }
  }

  /** A stored text never comes back once it was replaced, even when the state it describes does. */
  lemma NoTextRecurs(sha: string -> string, fold: string -> string, actions: seq<Action>, i: nat, m: nat, j: nat, key: Key)
    requires forall a | a in actions :: ValidAction(sha, a)
    requires i <= m <= j <= |actions|
    requires StoredAfter(sha, fold, actions, i, key) == StoredAfter(sha, fold, actions, j, key)
    ensures StoredAfter(sha, fold, actions, m, key) == StoredAfter(sha, fold, actions, i, key)
  {
    VersionsGrow(sha, fold, actions, i, m, key);
    VersionsGrow(sha, fold, actions, m, j, key);
  }

  predicate ActsFor(a: Action, c: nat) { !a.RegisterProject? && a.caller == c }

  lemma OthersWait(sha: string -> string, fold: string -> string, y: System, a: Action, c: nat)
    requires !ActsFor(a, c)
    ensures var p := Next(sha, fold, y, a).pending; (c in p <==> c in y.pending) && (c in p ==> p[c] == y.pending[c])
  {
  }

  lemma {:induction false} PendingWaits(sha: string -> string, fold: string -> string, actions: seq<Action>, i: nat, n: nat, c: nat)
    requires i <= n <= |actions| && forall m | i <= m < n :: !ActsFor(actions[m], c)
    ensures var a, b := Run(sha, fold, actions[..i]).pending, Run(sha, fold, actions[..n]).pending;
      (c in a <==> c in b) && (c in a ==> a[c] == b[c])
    decreases n
  {
    if i < n {
      PendingWaits(sha, fold, actions, i, n - 1, c);
      OthersWait(sha, fold, Run(sha, fold, actions[..n - 1]), actions[n - 1], c);
      assert actions[..n][..n - 1] == actions[..n - 1];
    }
  }

  /**
   No update is lost: when a caller read at step `i` and its commit at step `n` changes a value, that
   value was the one it read at every moment in between, whatever the other callers did.
   */
  lemma CommitSawTheLatest(sha: string -> string, fold: string -> string, actions: seq<Action>, i: nat, n: nat, key: Key, m: nat)
    requires forall a | a in actions :: ValidAction(sha, a)
    requires i < n < |actions| && (actions[i].Read? || actions[i].ReadGeneration?)
    requires actions[n] == Commit(actions[i].caller)
    requires forall k | i < k < n :: actions[k].RegisterProject? || actions[k].caller != actions[i].caller
    requires StoredAfter(sha, fold, actions, n + 1, key) != StoredAfter(sha, fold, actions, n, key)
    requires i <= m <= n
    ensures StoredAfter(sha, fold, actions, m, key) == StoredAfter(sha, fold, actions, n, key)
  {
    UnfoldRun(sha, fold, actions, i);
    UnfoldRun(sha, fold, actions, n);
    PendingWaits(sha, fold, actions, i + 1, n, actions[i].caller);
    RunIsSound(sha, fold, actions[..n]);
    ReadThenCommit(sha, fold, Run(sha, fold, actions[..i]), actions[i], Run(sha, fold, actions[..n]), key);
    NoTextRecurs(sha, fold, actions, i, m, n, key);
  }

  lemma UnfoldRun(sha: string -> string, fold: string -> string, actions: seq<Action>, k: nat)
    requires k < |actions|
    ensures Run(sha, fold, actions[..k + 1]) == Next(sha, fold, Run(sha, fold, actions[..k]), actions[k])
  {
    assert actions[..k + 1][..k] == actions[..k];
  }

  lemma ReadThenCommit(sha: string -> string, fold: string -> string, x: System, a: Action, y: System, key: Key)
    requires (a.Read? || a.ReadGeneration?) && Sound(sha, fold, y)
    requires var p := Next(sha, fold, x, a).pending;
      (a.caller in p <==> a.caller in y.pending) && (a.caller in p ==> p[a.caller] == y.pending[a.caller])
    requires Stored(Next(sha, fold, y, Commit(a.caller)).state, key) != Stored(y.state, key)
    ensures Stored(x.state, key) == Stored(y.state, key)
  {
    ReadNotes(sha, fold, x, a);
    CommitSwaps(sha, fold, y, a.caller, key);
  }

  lemma CommitSwaps(sha: string -> string, fold: string -> string, y: System, c: nat, key: Key)
    requires Sound(sha, fold, y)
    requires Stored(Next(sha, fold, y, Commit(c)).state, key) != Stored(y.state, key)
    ensures c in y.pending && Holds(y.pending[c], y.state, key)
  {
    CommitIsSound(sha, fold, y.state, y.pending[c]);
  }

  /** What a read leaves pending names the text stored at that moment. */
  lemma ReadNotes(sha: string -> string, fold: string -> string, y: System, a: Action)
    requires a.Read? || a.ReadGeneration?
    ensures var p := Next(sha, fold, y, a).pending;
      a.caller in p ==> match p[a.caller]
        case Checked(_) => false
        case EventRead(e, raw) => raw == Stored(y.state, SharedState(e.project.projectId))
        case GenerationRead(k, _, _, raw) => raw == Stored(y.state, k)
  {
  }

  lemma CommitKeepsProjects(sha: string -> string, s: State, p: Pending)
    ensures Committed(sha, s, p).projects == s.projects
  {
  }

  lemma NextKeepsIdentities(sha: string -> string, fold: string -> string, y: System, a: Action, identity: string)
    requires Compatible(fold, y.state.projects)
    ensures var ps, ps' := y.state.projects, Next(sha, fold, y, a).state.projects;
      && Compatible(fold, ps')
      && (Resolve(ps, identity).Some? ==> Resolve(ps', identity) == Resolve(ps, identity))
  {
    match a
    case RegisterProject(p) =>
      if Register(fold, y.state, p).Ok? {
        ResolutionIsStable(fold, y.state.projects, p, identity);
      }
    case Commit(c) =>
      if c in y.pending {
        CommitKeepsProjects(sha, y.state, y.pending[c]);
      }
    case _ =>
  }

  lemma {:induction false} RowsStayCompatible(sha: string -> string, fold: string -> string, actions: seq<Action>)
    ensures Compatible(fold, Run(sha, fold, actions).state.projects)
  {
    if actions != [] {
      var init := actions[..|actions| - 1];
      RowsStayCompatible(sha, fold, init);
      NextKeepsIdentities(sha, fold, Run(sha, fold, init), actions[|actions| - 1], "");
    }
  }

  /** What `identity` resolves to after the given actions. */
  ghost function Resolved(sha: string -> string, fold: string -> string, actions: seq<Action>, identity: string): Option<ProjectDescriptor> {
    Resolve(Run(sha, fold, actions).state.projects, identity)
  }

  lemma ResolvedStays(sha: string -> string, fold: string -> string, actions: seq<Action>, a: Action, identity: string)
    requires Resolved(sha, fold, actions, identity).Some?
    ensures Resolved(sha, fold, actions + [a], identity) == Resolved(sha, fold, actions, identity)
  {
    RowsStayCompatible(sha, fold, actions);
    assert (actions + [a])[..|actions|] == actions;
    NextKeepsIdentities(sha, fold, Run(sha, fold, actions), a, identity);
  }

  /** An identity that once resolves keeps its project for the rest of the run. */
  lemma {:induction false} IdentitiesAreForever(sha: string -> string, fold: string -> string, actions: seq<Action>, more: seq<Action>, identity: string)
    requires Resolved(sha, fold, actions, identity).Some?
    ensures Resolved(sha, fold, actions + more, identity) == Resolved(sha, fold, actions, identity)
    decreases |more|
  {
    if more == [] {
      assert actions + more == actions;
    } else {
      ResolvedStays(sha, fold, actions, more[0], identity);
      IdentitiesAreForever(sha, fold, actions + [more[0]], more[1..], identity);
      assert actions + [more[0]] + more[1..] == actions + more;
    }
  }

  // ---- Progress ----

  lemma OneMoreAction(sha: string -> string, fold: string -> string, actions: seq<Action>, a: Action)
    ensures Run(sha, fold, actions + [a]) == Next(sha, fold, Run(sha, fold, actions), a)
  {
    assert (actions + [a])[..|actions|] == actions;
  }

  /** A registration takes effect exactly when the projects stay compatible. */
  lemma RegistrationTakesEffect(sha: string -> string, fold: string -> string, actions: seq<Action>, p: ProjectDescriptor)
    ensures var s, s' := Run(sha, fold, actions).state, Run(sha, fold, actions + [RegisterProject(p)]).state;
      s' == if Compatible(fold, s.projects + [p]) then State(s.projects + [p], s.flags, s.log + [ProjectRegistered(p)]) else s
  {
    OneMoreAction(sha, fold, actions, RegisterProject(p));
  }

  /**
   A caller that checks, reads and commits with nobody in between has its event logged, and the pointer
   moved on, exactly when its project is registered as described and the transition extends the chain.
   */
  lemma UndisturbedCommit(sha: string -> string, fold: string -> string, actions: seq<Action>, c: nat, e: Event)
    requires (forall a | a in actions :: ValidAction(sha, a)) && ValidEvent(sha, e)
    ensures var s, s' := Run(sha, fold, actions).state, Run(sha, fold, actions + [Check(c, e)] + [Read(c)] + [Commit(c)]).state;
      var id := e.project.projectId;
      var fits := e.transition.None? || e.transition.value.previousStateHash == LastHash(TransitionsOf(s.log, id));
      if Resolve(s.projects, id) == Some(e.project) && fits then
        && s'.log == s.log + [EventAppended(e)] && s'.projects == s.projects
        && PointerOf(sha, id, Stored(s', SharedState(id))).Some?
        && ShowsLast(PointerOf(sha, id, Stored(s', SharedState(id))).value, id, TransitionsOf(s'.log, id))
      else s' == s
  {
    var one := actions + [Check(c, e)];
    var two := one + [Read(c)];
    OneMoreAction(sha, fold, actions, Check(c, e));
    OneMoreAction(sha, fold, one, Read(c));
    OneMoreAction(sha, fold, two, Commit(c));
    RunIsSound(sha, fold, actions);
    ThreeSteps(sha, fold, Run(sha, fold, actions), c, e);
    CommitTells(sha, fold, Run(sha, fold, actions).state, e);
  }

  lemma ThreeSteps(sha: string -> string, fold: string -> string, y: System, c: nat, e: Event)
    ensures var r := CommitEvent(sha, y.state, e, Stored(y.state, SharedState(e.project.projectId)));
      Next(sha, fold, Next(sha, fold, Next(sha, fold, y, Check(c, e)), Read(c)), Commit(c)).state ==
        if Resolve(y.state.projects, e.project.projectId) == Some(e.project) && r.Ok? then r.value.0 else y.state
  {
    var checked := Next(sha, fold, y, Check(c, e));
    var seen := Next(sha, fold, checked, Read(c));
    if Resolve(y.state.projects, e.project.projectId) == Some(e.project) {
      assert seen.pending[c] == EventRead(e, Stored(y.state, SharedState(e.project.projectId))) && seen.state == y.state;
    } else {
      assert c !in checked.pending && c !in seen.pending;
    }
  }

  /** What the commit of a caller that read the stored pointer does, off the log. */
  lemma CommitTells(sha: string -> string, fold: string -> string, s: State, e: Event)
    requires Consistent(sha, fold, s) && ValidEvent(sha, e)
    ensures var id, r := e.project.projectId, CommitEvent(sha, s, e, Stored(s, SharedState(e.project.projectId)));
      var fits := e.transition.None? || e.transition.value.previousStateHash == LastHash(TransitionsOf(s.log, id));
      && (r.Ok? <==> fits)
      && (r.Ok? ==>
            var s' := r.value.0;
            && s'.log == s.log + [EventAppended(e)] && s'.projects == s.projects
            && PointerOf(sha, id, Stored(s', SharedState(id))).Some?
            && ShowsLast(PointerOf(sha, id, Stored(s', SharedState(id))).value, id, TransitionsOf(s'.log, id)))
  {
    LogTells(sha, fold, s, e);
    if CommitEvent(sha, s, e, Stored(s, SharedState(e.project.projectId))).Ok? {
      CommittedIsStored(sha, fold, s, e);
      CommittedTells(sha, fold, s, e);
    }
  }

  lemma CommittedTells(sha: string -> string, fold: string -> string, s: State, e: Event)
    requires Consistent(sha, fold, s) && ValidEvent(sha, e)
    requires CommitEvent(sha, s, e, Stored(s, SharedState(e.project.projectId))).Ok?
    ensures var s', id := CommitEvent(sha, s, e, Stored(s, SharedState(e.project.projectId))).value.0, e.project.projectId;
      PointerOf(sha, id, Stored(s', SharedState(id))).Some?
      && ShowsLast(PointerOf(sha, id, Stored(s', SharedState(id))).value, id, TransitionsOf(s'.log, id))
  {
    var raw := Stored(s, SharedState(e.project.projectId));
    var s' := CommitEvent(sha, s, e, raw).value.0;
    CommitEventKeepsConsistent(sha, fold, s, e, raw, s');
    LogTells(sha, fold, s', e);
  }

  // ---- The service ----

  lemma CommittedIsStored(sha: string -> string, fold: string -> string, s: State, e: Event)
    requires Consistent(sha, fold, s) && ValidEvent(sha, e)
    requires CommitEvent(sha, s, e, Stored(s, SharedState(e.project.projectId))).Ok?
    ensures var (s', p) := CommitEvent(sha, s, e, Stored(s, SharedState(e.project.projectId))).value;
      PointerOf(sha, e.project.projectId, Stored(s', SharedState(e.project.projectId))) == Some(p)
      && s'.log == s.log + [EventAppended(e)] && s'.projects == s.projects
  {
    var id := e.project.projectId;
    assert PointerIsReplay(sha, s, id);
    ReplayStaysInProject(id, EventsOf(s.log, id));
    if e.transition.Some? {
      var current := PointerOf(sha, id, Stored(s, SharedState(id))).value;
      ApplyKeepsValid(sha, current, e);
      PointerRoundTrip(sha, Apply(current, e).value);
    }
  }

  /** Every operation is one transaction: it reads, checks and writes, or changes nothing. */
  class DurableControlPlaneRegistry {
    var projects: seq<ProjectDescriptor>
    var flags: map<Key, string>
    var log: seq<Entry>
    const sha: string -> string
    const fold: string -> string

    ghost function Content(): State
      reads this
    {
      State(projects, flags, log)
    }

    ghost predicate Valid()
      reads this
    {
      Consistent(sha, fold, Content()) && forall p | p in projects :: ValidProject(p)
    }

    constructor (sha: string -> string, fold: string -> string)
      ensures Valid() && Content() == EMPTY && this.sha == sha && this.fold == fold
    {
      this.sha, this.fold := sha, fold;
      projects, flags, log := [], map[], [];
      new;
      EmptyIsConsistent(sha, fold);
    }

    method RegisterProject(p: ProjectDescriptor) returns (ok: bool)
      requires Valid() && ValidProject(p)
      modifies this
      ensures Valid()
      ensures ok <==> Compatible(fold, old(projects) + [p])
      ensures Content() == if ok then Register(fold, old(Content()), p).value else old(Content())
    {
      var rebuilt := Build(fold, projects + [p]);
      ok := rebuilt.Some?;
      if ok {
        RegisterKeepsConsistent(sha, fold, Content(), p);
        projects := projects + [p];
        log := log + [ProjectRegistered(p)];
      }
    }

    method IsRegistered(p: ProjectDescriptor) returns (ok: bool)
      requires Valid()
      ensures ok <==> Resolve(projects, p.projectId) == Some(p)
    {
      var registry := Build(fold, projects);
      var resolved := registry.value.byIdentity;
      ok := p.projectId in resolved && resolved[p.projectId] == p;
    }

    /** The transaction of `AppendAndReconcile`. */
    method Reconcile(e: Event) returns (r: Result<Pointer>)
      requires Valid() && ValidEvent(sha, e)
      modifies this
      ensures Valid()
      ensures var committed := CommitEvent(sha, old(Content()), e, old(Stored(Content(), SharedState(e.project.projectId))));
        if committed.Ok? then (Content(), r) == (committed.value.0, Ok(committed.value.1))
        else Content() == old(Content()) && r == Err(committed.reason)
    {
      var key := SharedState(e.project.projectId);
      var raw := if key in flags then Some(flags[key]) else None;
      var current := if raw.Some? then DecodePointer(sha, raw.value) else Some(GenesisPointer(e.project.projectId));
      if current.None? {
        return Err("stored shared-state pointer is invalid");
      }
      var next := Apply(current.value, e);
      if next.Err? {
        return next;
      }
      ghost var before := Content();
      CommitEventKeepsConsistent(sha, fold, before, e, raw, CommitEvent(sha, before, e, raw).value.0);
      log := log + [EventAppended(e)];
      if next.value != current.value {
        flags := flags[key := PointerText(next.value)];
      }
      return next;
    }

    method AppendAndReconcile(e: Event) returns (r: Result<Pointer>)
      requires Valid() && ValidEvent(sha, e)
      modifies this
      ensures Valid()
      ensures var committed := CommitEvent(sha, old(Content()), e, old(Stored(Content(), SharedState(e.project.projectId))));
        if Resolve(old(projects), e.project.projectId) == Some(e.project) && committed.Ok? then
          (Content(), r) == (committed.value.0, Ok(committed.value.1))
        else
          Content() == old(Content()) && r.Err?
      ensures var id := e.project.projectId;
        var fits := e.transition.None? || e.transition.value.previousStateHash == LastHash(TransitionsOf(old(log), id));
        && (r.Ok? <==> Resolve(old(projects), id) == Some(e.project) && fits)
        && (r.Ok? ==> log == old(log) + [EventAppended(e)] && projects == old(projects) && ShowsLast(r.value, id, TransitionsOf(log, id)))
        && (r.Ok? ==> PointerOf(sha, id, Stored(Content(), SharedState(id))) == Some(r.value))
    {
      ghost var before := Content();
      LogTells(sha, fold, before, e);
      var registered := IsRegistered(e.project);
      if !registered {
        return Err("event project does not match registered project descriptor");
      }
      r := Reconcile(e);
      LogTells(sha, fold, Content(), e);
      if r.Ok? { CommittedIsStored(sha, fold, before, e); }
    }

    method RecordGeneration(key: Key, generation: int, record: Json) returns (ok: bool)
      requires Valid() && !key.SharedState? && ValidRecord(generation, record)
      modifies this
      ensures Valid()
      ensures var committed := CommitGeneration(old(Content()), key, generation, record, old(Stored(Content(), key)));
        ok == committed.Ok? && Content() == if ok then committed.value else old(Content())
      ensures ok <==> generation == Version(sha, old(Content()), key) + 1
    {
      assert GenerationsAreCounted(sha, Content(), key);
      ghost var before := Content();
      if key in flags {
        var current := GenerationOf(flags[key]);
        if current.None? || generation != current.value + 1 {
          return false;
        }
      } else if generation != 1 {
        return false;
      }
      ghost var raw := Stored(before, key);
      CommitGenerationKeepsConsistent(sha, fold, before, key, generation, record, raw, CommitGeneration(before, key, generation, record, raw).value);
      flags := flags[key := Print(record)];
      log := log + [GenerationRecorded(key, generation, record)];
      return true;
    }
  }
}

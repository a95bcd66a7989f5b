/**
 The event-sourced control plane. Events go to the audit log, and each project's shared-state
 pointer is kept as canonical text that is replaced by compare-and-swap. Connector and MCP records
 advance by generations in the same way.

 A commit is modelled with the text its caller read earlier, so that reads and commits of different
 callers may interleave; the database's own transaction is the case where nothing comes between.
 */
module ControlPlane {
  import opened Wrappers
  import opened CanonicalJson
  import opened ProjectRegistry

  const GENESIS_STATE_HASH := "GENESIS"
  const SHARED_STATE_SCHEMA := "voodoo.shared-state-pointer.v1"

  datatype StateTransition = StateTransition(previousStateHash: string, nextState: Json, nextStateHash: string)

  datatype Event = Event(
    eventId: string, eventType: string, occurredAt: string, actorId: string, correlationId: string,
    project: ProjectDescriptor, payload: Json, transition: Option<StateTransition>)

  datatype Pointer = Pointer(
    projectId: string, revision: int, stateHash: string, state: Json,
    lastEventId: Option<string>, lastCorrelationId: Option<string>,
    updatedAt: Option<string>)

  predicate IsObject(j: Json) { j.Obj? && Sorted(j) }

  predicate ValidTransition(sha: string -> string, t: StateTransition) {
    IsObject(t.nextState) && t.nextStateHash == sha(Print(t.nextState)) && t.nextStateHash != GENESIS_STATE_HASH
  }

  predicate ValidEvent(sha: string -> string, e: Event) {
    && StartsWith(e.eventId, "evt_")
    && StartsWith(e.correlationId, "corr_")
    && e.occurredAt != ""
    && ValidProject(e.project)
    && (e.transition.Some? ==> ValidTransition(sha, e.transition.value))
  }

  predicate Prefixed(text: Option<string>, prefix: string) {
    text.Some? && StartsWith(text.value, prefix)
  }

  /** What the pointer's own constructor enforces. */
  predicate ValidPointer(sha: string -> string, p: Pointer) {
    && p.projectId != ""
    && p.revision >= 0
    && IsObject(p.state)
    && (p.revision == 0 ==>
          && p.stateHash == GENESIS_STATE_HASH && p.state == Obj([])
          && p.lastEventId.None? && p.lastCorrelationId.None? && p.updatedAt.None?)
    && (p.revision > 0 ==>
          && p.stateHash != GENESIS_STATE_HASH && p.stateHash == sha(Print(p.state))
          && Prefixed(p.lastEventId, "evt_") && Prefixed(p.lastCorrelationId, "corr_")
          && p.updatedAt.Some? && p.updatedAt.value != "")
  }

  function GenesisPointer(projectId: string): Pointer {
    Pointer(projectId, 0, GENESIS_STATE_HASH, Obj([]), None, None, None)
  }

  /** Projects one event onto the pointer of its project. */
  function Apply(p: Pointer, e: Event): Result<Pointer> {
    if e.project.projectId != p.projectId then Err("event project does not match current shared-state project")
    else if e.transition.None? then Ok(p)
    else if e.transition.value.previousStateHash != p.stateHash then
      Err("state transition does not extend the current state hash")
    else
      Ok(Pointer(p.projectId, p.revision + 1, e.transition.value.nextStateHash, e.transition.value.nextState,
                 Some(e.eventId), Some(e.correlationId), Some(e.occurredAt)))
  }

  // ---- The stored text of a pointer ----

  function Nullable(text: Option<string>): Json {
    if text.None? then Null else Str(text.value)
  }

  function PointerJson(p: Pointer): Json {
    Obj([Member("last_correlation_id", Nullable(p.lastCorrelationId)),
         Member("last_event_id", Nullable(p.lastEventId)),
         Member("project_id", Str(p.projectId)),
         Member("revision", Num(p.revision)),
         Member("schema", Str(SHARED_STATE_SCHEMA)),
         Member("state", p.state),
         Member("state_hash", Str(p.stateHash)),
         Member("updated_at", Nullable(p.updatedAt))])
  }

  function PointerText(p: Pointer): string { Print(PointerJson(p)) }

  function Field(members: seq<Member>, key: string): Option<Json> {
    if members == [] then None
    else if members[0].key == key then Some(members[0].value)
    else Field(members[1..], key)
  }

  predicate NullOrText(j: Option<Json>) { j.None? || j.value.Null? || j.value.Str? }

  function Text(j: Option<Json>): Option<string>
    requires NullOrText(j)
  {
    if j.Some? && j.value.Str? then Some(j.value.s) else None
  }

  /** Reads a pointer back from its stored text; nothing for text that is not a valid pointer. */
  function DecodePointer(sha: string -> string, raw: string): Option<Pointer> {
    var j := Decode(raw);
    if j.None? || !j.value.Obj? then None else
    var ms := j.value.members;
    var id, revision, hash := Field(ms, "project_id"), Field(ms, "revision"), Field(ms, "state_hash");
    var state := Field(ms, "state");
    var event, correlation := Field(ms, "last_event_id"), Field(ms, "last_correlation_id");
    var updated := Field(ms, "updated_at");
    if Field(ms, "schema") != Some(Str(SHARED_STATE_SCHEMA)) then None
    else if !(id.Some? && id.value.Str?) || !(revision.Some? && revision.value.Num?) then None
    else if !(hash.Some? && hash.value.Str?) || !(state.Some? && state.value.Obj?) then None
    else if !NullOrText(event) || !NullOrText(correlation) || !NullOrText(updated) then None
    else
      var p := Pointer(id.value.s, revision.value.n, hash.value.s, state.value, Text(event), Text(correlation), Text(updated));
      if ValidPointer(sha, p) then Some(p) else None
  }

  lemma PointerKeysIncrease()
    ensures Less("last_correlation_id", "last_event_id") && Less("last_event_id", "project_id")
    ensures Less("project_id", "revision") && Less("revision", "schema") && Less("schema", "state")
    ensures Less("state", "state_hash") && Less("state_hash", "updated_at")
  {
    assert SmallerAt("last_correlation_id", "last_event_id", 5);
    assert SmallerAt("last_event_id", "project_id", 0);
    assert SmallerAt("project_id", "revision", 0);
    assert SmallerAt("revision", "schema", 0);
    assert SmallerAt("schema", "state", 1);
    assert SmallerAt("state", "state_hash", 5);
    assert SmallerAt("state_hash", "updated_at", 0);
  }

  lemma EightSorted(a: Member, b: Member, c: Member, d: Member, e: Member, f: Member, g: Member, h: Member)
    requires Less(a.key, b.key) && Less(b.key, c.key) && Less(c.key, d.key) && Less(d.key, e.key)
    requires Less(e.key, f.key) && Less(f.key, g.key) && Less(g.key, h.key)
    requires Sorted(a.value) && Sorted(b.value) && Sorted(c.value) && Sorted(d.value)
    requires Sorted(e.value) && Sorted(f.value) && Sorted(g.value) && Sorted(h.value)
    ensures Sorted(Obj([a, b, c, d, e, f, g, h]))
  {
  }

  lemma PointerJsonIsSorted(p: Pointer)
    requires Sorted(p.state)
    ensures Sorted(PointerJson(p))
  {
    PointerKeysIncrease();
    EightSorted(Member("last_correlation_id", Nullable(p.lastCorrelationId)),
                Member("last_event_id", Nullable(p.lastEventId)),
                Member("project_id", Str(p.projectId)),
                Member("revision", Num(p.revision)),
                Member("schema", Str(SHARED_STATE_SCHEMA)),
                Member("state", p.state),
                Member("state_hash", Str(p.stateHash)),
                Member("updated_at", Nullable(p.updatedAt)));
  }

  lemma SortedKeysIncrease(members: seq<Member>, i: nat, j: nat)
    requires Sorted(Obj(members)) && i < j < |members|
    ensures Less(members[i].key, members[j].key)
  {
    if i < j - 1 {
      SortedKeysIncrease(members, i, j - 1);
      LessIsTransitive(members[i].key, members[j - 1].key, members[j].key);
    }
  }

  /** In an object with sorted members every member is found under its key. */
  lemma SortedFields(members: seq<Member>, i: nat)
    requires Sorted(Obj(members)) && i < |members|
    ensures Field(members, members[i].key) == Some(members[i].value)
  {
    forall j | 0 <= j < i ensures members[j].key != members[i].key {
      SortedKeysIncrease(members, j, i);
      LessIsIrreflexive(members[i].key);
    }
    FieldAt(members, i);
  }

  lemma {:induction false} FieldAt(members: seq<Member>, i: nat)
    requires i < |members| && forall j | 0 <= j < i :: members[j].key != members[i].key
    ensures Field(members, members[i].key) == Some(members[i].value)
  {
    if i > 0 {
      assert members[0].key != members[i].key;
      FieldAt(members[1..], i - 1);
    }
  }

  /** The members of a stored pointer are found under their names. */
  lemma PointerFields(p: Pointer, ms: seq<Member>)
    requires Sorted(PointerJson(p)) && ms == PointerJson(p).members
    ensures Field(ms, "last_correlation_id") == Some(Nullable(p.lastCorrelationId))
    ensures Field(ms, "last_event_id") == Some(Nullable(p.lastEventId))
    ensures Field(ms, "project_id") == Some(Str(p.projectId)) && Field(ms, "revision") == Some(Num(p.revision))
    ensures Field(ms, "schema") == Some(Str(SHARED_STATE_SCHEMA)) && Field(ms, "state") == Some(p.state)
    ensures Field(ms, "state_hash") == Some(Str(p.stateHash)) && Field(ms, "updated_at") == Some(Nullable(p.updatedAt))
  {
    SortedFields(ms, 0);
    SortedFields(ms, 1);
    SortedFields(ms, 2);
    SortedFields(ms, 3);
    SortedFields(ms, 4);
    SortedFields(ms, 5);
    SortedFields(ms, 6);
    SortedFields(ms, 7);
  }

  /** A valid pointer survives being stored, so its stored text is never rejected. */
  lemma PointerRoundTrip(sha: string -> string, p: Pointer)
    requires ValidPointer(sha, p)
    ensures DecodePointer(sha, PointerText(p)) == Some(p)
  {
    PointerJsonIsSorted(p);
    DecodeInvertsPrint(PointerJson(p), PointerText(p));
    PointerFields(p, PointerJson(p).members);
  }

  /** The texts behind a pointer's optional fields. */
  ghost predicate Says(j: Option<Json>, text: Option<string>) {
    if text.Some? then j == Some(Str(text.value)) else j.None? || j.value == Null || !j.value.Str?
  }

  /** Whatever text is stored, a pointer read from it is whole: canonical, of this schema, and its hash is that of its state. */
  lemma DecodedIsWhole(sha: string -> string, raw: string, p: Pointer)
    requires DecodePointer(sha, raw) == Some(p)
    ensures var j := Decode(raw);
      && j.Some? && j.value.Obj? && raw == Print(j.value)
      && var ms := j.value.members;
      && Field(ms, "schema") == Some(Str("voodoo.shared-state-pointer.v1")) && Field(ms, "project_id") == Some(Str(p.projectId))
      && Field(ms, "revision") == Some(Num(p.revision)) && Field(ms, "state_hash") == Some(Str(p.stateHash))
      && Field(ms, "state") == Some(p.state) && Says(Field(ms, "last_event_id"), p.lastEventId)
      && Says(Field(ms, "last_correlation_id"), p.lastCorrelationId) && Says(Field(ms, "updated_at"), p.updatedAt)
    ensures p.projectId != "" && p.revision >= 0 && p.state.Obj? && Sorted(p.state)
    ensures if p.revision == 0 then
        p.stateHash == "GENESIS" && p.state == Obj([]) && p.lastEventId == None && p.lastCorrelationId == None && p.updatedAt == None
      else
        && p.stateHash != "GENESIS" && p.stateHash == sha(Print(p.state)) && p.updatedAt.Some? && p.updatedAt.value != ""
        && p.lastEventId.Some? && StartsWith(p.lastEventId.value, "evt_")
        && p.lastCorrelationId.Some? && StartsWith(p.lastCorrelationId.value, "corr_")
  {
    DecodeInvertsPrint(Decode(raw).value, raw);
  }

  // ---- Tables and commits ----

  datatype Key = SharedState(projectId: string) | Connector(connectorId: string) | McpServer(serverId: string)

  datatype Entry =
    | ProjectRegistered(project: ProjectDescriptor)
    | EventAppended(event: Event)
    | GenerationRecorded(key: Key, generation: int, record: Json)

  /** The registry's rows and the audit log. */
  datatype State = State(projects: seq<ProjectDescriptor>, flags: map<Key, string>, log: seq<Entry>)

  const EMPTY := State([], map[], [])

  function Stored(s: State, key: Key): Option<string> {
    if key in s.flags then Some(s.flags[key]) else None
  }

  function Register(fold: string -> string, s: State, p: ProjectDescriptor): Result<State> {
    if Compatible(fold, s.projects + [p]) then
      Ok(s.(projects := s.projects + [p], log := s.log + [ProjectRegistered(p)]))
    else Err("duplicate project identity or repository")
  }

  /** Swaps the value under `key` if it still is what was read. */
  function Swap(s: State, key: Key, raw: Option<string>, next: string): Result<State> {
    if Stored(s, key) == raw then Ok(s.(flags := s.flags[key := next])) else Err("compare-and-swap failed")
  }

  function PointerOf(sha: string -> string, projectId: string, raw: Option<string>): Option<Pointer> {
    if raw.None? then Some(GenesisPointer(projectId)) else DecodePointer(sha, raw.value)
  }

  /** Appends an event and moves the pointer on from the text `raw` that its caller read. */
  function CommitEvent(sha: string -> string, s: State, e: Event, raw: Option<string>): Result<(State, Pointer)> {
    var current := PointerOf(sha, e.project.projectId, raw);
    if current.None? then Err("stored shared-state pointer is invalid") else
    var next := Apply(current.value, e);
    if next.Err? then Err(next.reason) else
    var logged := s.(log := s.log + [EventAppended(e)]);
    if next.value == current.value then Ok((logged, current.value)) else
    var swapped := Swap(logged, SharedState(e.project.projectId), raw, PointerText(next.value));
    if swapped.Err? then Err(swapped.reason) else Ok((swapped.value, next.value))
  }

  function GenerationOf(raw: string): Option<int> {
    var j := Decode(raw);
    if j.None? || !j.value.Obj? then None else
    match Field(j.value.members, "generation")
    case Some(Num(n)) => if n >= 1 then Some(n) else None
    case _ => None
  }

  /** The record's own generation is the one being recorded. */
  predicate ValidRecord(generation: int, record: Json) {
    IsObject(record) && Field(record.members, "generation") == Some(Num(generation))
  }

  /** The generation of a stored record is the positive number that it names. */
  lemma GenerationIsExact(raw: string, n: int)
    ensures GenerationOf(raw) == Some(n) <==>
      var j := Decode(raw);
      n >= 1 && j.Some? && j.value.Obj? && Field(j.value.members, "generation") == Some(Num(n))
  {
  }

  function CommitGeneration(s: State, key: Key, generation: int, record: Json, raw: Option<string>): Result<State> {
    var current := if raw.None? then Some(0) else GenerationOf(raw.value);
    if current.None? then Err("stored registry generation is invalid")
    else if generation != current.value + 1 then Err("registry generation must advance by exactly one")
    else
      var swapped := Swap(s, key, raw, Print(record));
      if swapped.Err? then swapped
      else Ok(swapped.value.(log := s.log + [GenerationRecorded(key, generation, record)]))
  }

  // ---- What the log says ----

  function EventsOf(log: seq<Entry>, projectId: string): seq<Event> {
    if log == [] then []
    else
      var earlier, last := EventsOf(log[..|log| - 1], projectId), log[|log| - 1];
      if last.EventAppended? && last.event.project.projectId == projectId then earlier + [last.event] else earlier
  }

  function GenerationsOf(log: seq<Entry>, key: Key): seq<int> {
    if log == [] then []
    else
      var earlier, last := GenerationsOf(log[..|log| - 1], key), log[|log| - 1];
      if last.GenerationRecorded? && last.key == key then earlier + [last.generation] else earlier
  }

  /** The left fold of `Apply` from the genesis pointer. */
  function Replay(projectId: string, events: seq<Event>): Result<Pointer> {
    if events == [] then Ok(GenesisPointer(projectId))
    else
      var earlier := Replay(projectId, events[..|events| - 1]);
      if earlier.Err? then earlier else Apply(earlier.value, events[|events| - 1])
  }

  function Transitions(events: seq<Event>): nat {
    if events == [] then 0
    else Transitions(events[..|events| - 1]) + (if events[|events| - 1].transition.Some? then 1 else 0)
  }

  lemma {:induction false} ReplayCountsTransitions(projectId: string, events: seq<Event>)
    requires Replay(projectId, events).Ok?
    ensures Replay(projectId, events).value.revision == Transitions(events)
  {
    if events != [] {
      ReplayCountsTransitions(projectId, events[..|events| - 1]);
    }
  }

  /** The logged events of a project that carry a transition. */
  function TransitionsOf(log: seq<Entry>, projectId: string): seq<Event> {
    if log == [] then []
    else
      TransitionsOf(log[..|log| - 1], projectId) +
      match log[|log| - 1]
      case EventAppended(e) => if e.project.projectId == projectId && e.transition.Some? then [e] else []
      case _ => []
  }

  /** The hash that the next transition must name as its predecessor. */
  function LastHash(ts: seq<Event>): string {
    if ts == [] || ts[|ts| - 1].transition.None? then GENESIS_STATE_HASH else ts[|ts| - 1].transition.value.nextStateHash
  }

  /** Each transition starts from the state that the one before it ended in, the first from genesis. */
  ghost predicate Chained(ts: seq<Event>) {
    forall i | 0 <= i < |ts| :: ts[i].transition.Some? && ts[i].transition.value.previousStateHash == LastHash(ts[..i])
  }

  /** The pointer shows the state, hash, event, correlation and time of the last transition, and their number. */
  ghost predicate ShowsLast(p: Pointer, projectId: string, ts: seq<Event>) {
    && p.projectId == projectId && p.revision == |ts| && p.stateHash == LastHash(ts)
    && if ts == [] then p.state == Obj([]) && p.lastEventId == None && p.lastCorrelationId == None && p.updatedAt == None
       else
         var last := ts[|ts| - 1];
         && last.transition.Some? && p.state == last.transition.value.nextState && p.lastEventId == Some(last.eventId)
         && p.lastCorrelationId == Some(last.correlationId) && p.updatedAt == Some(last.occurredAt)
  }

  lemma OneMoreTransition(log: seq<Entry>, entry: Entry, projectId: string)
    ensures TransitionsOf(log + [entry], projectId) ==
      if entry.EventAppended? && entry.event.project.projectId == projectId && entry.event.transition.Some?
      then TransitionsOf(log, projectId) + [entry.event] else TransitionsOf(log, projectId)
  {
    assert (log + [entry])[..|log|] == log;
  }

  lemma OneMoreChained(ts: seq<Event>, e: Event)
    requires Chained(ts) && e.transition.Some? && e.transition.value.previousStateHash == LastHash(ts)
    ensures Chained(ts + [e])
  {
    forall i | 0 <= i < |ts + [e]| ensures (ts + [e])[i].transition.Some? && (ts + [e])[i].transition.value.previousStateHash == LastHash((ts + [e])[..i]) {
      assert (ts + [e])[..i] == ts[..i];
      assert i == |ts| ==> ts[..i] == ts;
    }
  }

  /** The fold of the events is what the chain of logged transitions shows. */
  lemma {:induction false} ReplayShowsLast(log: seq<Entry>, projectId: string)
    requires Replay(projectId, EventsOf(log, projectId)).Ok?
    ensures Chained(TransitionsOf(log, projectId))
    ensures ShowsLast(Replay(projectId, EventsOf(log, projectId)).value, projectId, TransitionsOf(log, projectId))
  {
    if log != [] {
      var init, entry := log[..|log| - 1], log[|log| - 1];
      assert log == init + [entry];
      OneMoreEntry(init, entry, projectId, SharedState(projectId));
      OneMoreTransition(init, entry, projectId);
      if entry.EventAppended? && entry.event.project.projectId == projectId {
        ReplayOneMore(projectId, EventsOf(init, projectId), entry.event);
        ReplayShowsLast(init, projectId);
        if entry.event.transition.Some? {
          OneMoreChained(TransitionsOf(init, projectId), entry.event);
        }
      } else {
        ReplayShowsLast(init, projectId);
      }
    }
  }

  function UpTo(n: nat): seq<int> { seq(n, i => i + 1) }

  /** How far a stored value has advanced: its revision or generation, zero when absent. */
  ghost function VersionOf(sha: string -> string, key: Key, raw: Option<string>): int {
    if raw.None? then 0
    else if key.SharedState? then
      match DecodePointer(sha, raw.value) case Some(p) => p.revision case None => -1
    else
      match GenerationOf(raw.value) case Some(n) => n case None => -1
  }

  ghost function Version(sha: string -> string, s: State, key: Key): int { VersionOf(sha, key, Stored(s, key)) }

  /** A pointer's text is valid, no longer at genesis when present, and the replay of `events`. */
  ghost predicate TextIsReplay(sha: string -> string, projectId: string, raw: Option<string>, events: seq<Event>) {
    && PointerOf(sha, projectId, raw).Some?
    && Replay(projectId, events) == Ok(PointerOf(sha, projectId, raw).value)
    && (raw.Some? ==> PointerOf(sha, projectId, raw).value.revision >= 1)
  }

  ghost predicate PointerIsReplay(sha: string -> string, s: State, projectId: string) {
    TextIsReplay(sha, projectId, Stored(s, SharedState(projectId)), EventsOf(s.log, projectId))
  }

  ghost predicate GenerationsAreCounted(sha: string -> string, s: State, key: Key) {
    && Version(sha, s, key) >= 0
    && (key in s.flags ==> Version(sha, s, key) >= 1)
    && GenerationsOf(s.log, key) == UpTo(Version(sha, s, key))
  }

  ghost predicate Consistent(sha: string -> string, fold: string -> string, s: State) {
    && Compatible(fold, s.projects)
    && (forall projectId: string :: PointerIsReplay(sha, s, projectId))
    && (forall key: Key | !key.SharedState? :: GenerationsAreCounted(sha, s, key))
  }

  lemma EmptyIsConsistent(sha: string -> string, fold: string -> string)
    ensures Consistent(sha, fold, EMPTY)
  {
  }

  lemma ApplyKeepsValid(sha: string -> string, p: Pointer, e: Event)
    requires ValidEvent(sha, e) && Apply(p, e).Ok? && e.transition.Some? && p.revision >= 0
    ensures ValidPointer(sha, Apply(p, e).value) && Apply(p, e).value.revision == p.revision + 1
  {
  }

  lemma OneMoreEntry(log: seq<Entry>, entry: Entry, projectId: string, key: Key)
    ensures EventsOf(log + [entry], projectId)
            == if entry.EventAppended? && entry.event.project.projectId == projectId
               then EventsOf(log, projectId) + [entry.event] else EventsOf(log, projectId)
    ensures GenerationsOf(log + [entry], key)
            == if entry.GenerationRecorded? && entry.key == key
               then GenerationsOf(log, key) + [entry.generation] else GenerationsOf(log, key)
  {
    assert (log + [entry])[..|log|] == log;
  }

  lemma ReplayOneMore(projectId: string, events: seq<Event>, e: Event)
    ensures Replay(projectId, events + [e])
            == if Replay(projectId, events).Err? then Replay(projectId, events) else Apply(Replay(projectId, events).value, e)
  {
    assert (events + [e])[..|events|] == events;
  }
}

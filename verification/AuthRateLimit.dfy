/**
 The authentication rate limiter: failure windows, lockouts and the clean-up of old rows.

 A row counts failures inside one window. The failure that reaches the maximum starts a lockout;
 while it lasts, further failures are refused without being recorded. Time is whole seconds.
 */
module AuthRateLimit {

  datatype Config = Config(maxFailures: nat, sourceMaxFailures: nat, window: nat, lockout: nat)

  predicate ValidConfig(c: Config) {
    && 2 <= c.maxFailures <= 20
    && c.maxFailures <= c.sourceMaxFailures <= 200
    && 10 <= c.window <= 3_600
    && 10 <= c.lockout <= 86_400
  }

  datatype Scope = LoginAccount | LoginSource | BootstrapSource

  /** A table key: the scope and the keyed hash of the normalised user name or source. */
  datatype Key = Key(scope: Scope, hash: string)

  datatype Row = Row(count: int, windowStart: int, blockedUntil: int, updatedAt: int)

  type Table = map<Key, Row>

  /** Who is being limited. A login is limited by account and by source, a bootstrap by source. */
  datatype Subject = Login(account: string, source: string) | Bootstrap(from: string)

  datatype Entry = Entry(key: Key, maximum: nat)

  function Maximum(c: Config, s: Scope): nat {
    if s == LoginSource then c.sourceMaxFailures else c.maxFailures
  }

  function Keys(s: Subject): seq<Key> {
    match s
    case Login(account, source) => [Key(LoginAccount, account), Key(LoginSource, source)]
    case Bootstrap(from) => [Key(BootstrapSource, from)]
  }

  /** The keys a call reads or writes, each with the failures it allows. */
  function Entries(c: Config, s: Subject): (es: seq<Entry>)
    ensures |es| == |Keys(s)|
    ensures forall i | 0 <= i < |es| :: es[i] == Entry(Keys(s)[i], Maximum(c, Keys(s)[i].scope))
    ensures forall i, j | 0 <= i < j < |es| :: es[i].key != es[j].key
  {
    match s
    case Login(account, source) =>
      [Entry(Key(LoginAccount, account), c.maxFailures),
       Entry(Key(LoginSource, source), c.sourceMaxFailures)]
    case Bootstrap(from) => [Entry(Key(BootstrapSource, from), c.maxFailures)]
  }

  function Max(a: int, b: int): int { if a < b then b else a }

  function Min(a: int, b: int): int { if a < b then a else b }

  // ---- What one call does to one row ----

  predicate Blocked(r: Row, now: int) { r.blockedUntil > now }

  /** The lockout or the window of this row is over, so the next failure starts afresh. */
  predicate Expired(c: Config, r: Row, now: int) {
    !Blocked(r, now) && (r.blockedUntil > 0 || now - r.windowStart >= c.window)
  }

  function Wait(rows: Table, k: Key, now: int): nat {
    if k in rows && Blocked(rows[k], now) then rows[k].blockedUntil - now else 0
  }

  function Retention(c: Config): nat { Max(c.window, c.lockout) * 2 }

  function Collected(c: Config, rows: Table, now: int): Table {
    map k | k in rows && rows[k].updatedAt >= now - Retention(c) :: rows[k]
  }

  /** The row stored for `k` after a failure that was not refused. */
  function Recorded(c: Config, rows: Table, k: Key, now: int): Row {
    var restart := k !in rows || Expired(c, rows[k], now);
    var count := if restart then 1 else rows[k].count + 1;
    Row(count,
        if restart then now else rows[k].windowStart,
        if count >= Maximum(c, k.scope) then now + c.lockout else 0,
        now)
  }

  predicate Refused(rows: Table, k: Key, now: int) { k in rows && Blocked(rows[k], now) }

  // ---- Calls on the whole table ----

  datatype Call = Enforce(who: Subject, now: int) | Failure(who: Subject, now: int) | Clear(who: Subject)

  function AfterEnforce(c: Config, rows: Table, ks: seq<Key>, now: int): Table {
    map k | k in rows && !(k in ks && Expired(c, rows[k], now)) :: rows[k]
  }

  function AfterFailure(c: Config, rows: Table, ks: seq<Key>, now: int): Table {
    map k | k in rows.Keys + (set j | j in ks) ::
      if k in ks && !Refused(rows, k, now) then Recorded(c, rows, k, now) else rows[k]
  }

  function LongestWait(rows: Table, ks: seq<Key>, now: int): nat {
    if ks == [] then 0
    else Max(LongestWait(rows, ks[..|ks| - 1], now), Wait(rows, ks[|ks| - 1], now))
  }

  /** One call: the new table and the seconds the caller is told to wait, zero when it is allowed. */
  function Step(c: Config, gc: bool, rows: Table, call: Call): (Table, nat) {
    match call
    case Enforce(who, now) => (AfterEnforce(c, rows, Keys(who), now), LongestWait(rows, Keys(who), now))
    case Failure(who, now) =>
      var kept := if gc then Collected(c, rows, now) else rows;
      var next := AfterFailure(c, kept, Keys(who), now);
      (next, LongestWait(next, Keys(who), now))
    case Clear(who) => (rows - (set k | k in Keys(who)), 0)
  }

  function Final(c: Config, gc: bool, calls: seq<Call>): Table {
    if calls == [] then map[]
    else Step(c, gc, Final(c, gc, calls[..|calls| - 1]), calls[|calls| - 1]).0
  }

  /** What each call of a run told its caller. */
  function Answers(c: Config, gc: bool, calls: seq<Call>): seq<nat> {
    if calls == [] then []
    else
      var earlier := calls[..|calls| - 1];
      Answers(c, gc, earlier) + [Step(c, gc, Final(c, gc, earlier), calls[|calls| - 1]).1]
  }

  function Latest(calls: seq<Call>): int {
    if calls == [] then 0
    else if calls[|calls| - 1].Clear? then Latest(calls[..|calls| - 1])
    else calls[|calls| - 1].now
  }

  /** The clock starts at or after zero and never goes back between calls that read it. */
  predicate Clocked(calls: seq<Call>) {
    calls == [] ||
    (var last := calls[|calls| - 1];
     Clocked(calls[..|calls| - 1]) && (last.Clear? || Latest(calls[..|calls| - 1]) <= last.now))
  }

  // ---- Every stored row ----

  predicate GoodRow(c: Config, k: Key, r: Row, now: int) {
    && 1 <= r.count <= Maximum(c, k.scope)
    && (r.blockedUntil != 0 <==> r.count == Maximum(c, k.scope))
    && (r.blockedUntil != 0 ==> r.blockedUntil == r.updatedAt + c.lockout)
    && 0 <= r.windowStart <= r.updatedAt <= now
  }

  predicate GoodTable(c: Config, rows: Table, now: int) {
    forall k | k in rows :: GoodRow(c, k, rows[k], now)
  }

  lemma StepKeepsRowsGood(c: Config, gc: bool, rows: Table, call: Call, before: int, now: int)
    requires ValidConfig(c) && GoodTable(c, rows, before) && 0 <= before <= now
    requires call.Clear? || call.now == now
    ensures GoodTable(c, Step(c, gc, rows, call).0, now)
  {
  }

  /** In every reachable table a row counts from one to its maximum and is locked exactly at the maximum. */
  lemma {:induction false} StoredRowsAreGood(c: Config, gc: bool, calls: seq<Call>)
    requires ValidConfig(c) && Clocked(calls)
    ensures 0 <= Latest(calls)
    ensures GoodTable(c, Final(c, gc, calls), Latest(calls))
  {
    if calls != [] {
      var earlier := calls[..|calls| - 1];
      StoredRowsAreGood(c, gc, earlier);
      StepKeepsRowsGood(c, gc, Final(c, gc, earlier), calls[|calls| - 1], Latest(earlier), Latest(calls));
    }
  }

  // ---- Clean-up is unobservable ----

  /** `kept` is `full` without some rows that are over by `now`. */
  predicate LacksOnlyExpired(c: Config, kept: Table, full: Table, now: int) {
    && (forall k | k in kept :: k in full && kept[k] == full[k])
    && (forall k | k in full && k !in kept :: Expired(c, full[k], now))
  }

  lemma CollectedLacksOnlyExpired(c: Config, kept: Table, full: Table, now: int)
    requires ValidConfig(c) && GoodTable(c, full, now)
    requires LacksOnlyExpired(c, kept, full, now)
    ensures LacksOnlyExpired(c, Collected(c, kept, now), full, now)
  {
  }

  lemma SameWaits(rows: Table, rows': Table, ks: seq<Key>, now: int)
    requires forall k | k in ks :: Wait(rows, k, now) == Wait(rows', k, now)
    ensures LongestWait(rows, ks, now) == LongestWait(rows', ks, now)
  {
  }

  lemma FailureAgrees(c: Config, kept: Table, full: Table, ks: seq<Key>, now: int)
    requires ValidConfig(c) && LacksOnlyExpired(c, kept, full, now)
    ensures LacksOnlyExpired(c, AfterFailure(c, kept, ks, now), AfterFailure(c, full, ks, now), now)
    ensures LongestWait(AfterFailure(c, kept, ks, now), ks, now) == LongestWait(AfterFailure(c, full, ks, now), ks, now)
  {
    forall k | k in ks ensures Refused(kept, k, now) == Refused(full, k, now) {
    }
    SameWaits(AfterFailure(c, kept, ks, now), AfterFailure(c, full, ks, now), ks, now);
  }

  lemma StepAgrees(c: Config, kept: Table, full: Table, call: Call, now: int)
    requires ValidConfig(c) && GoodTable(c, full, now) && LacksOnlyExpired(c, kept, full, now)
    requires call.Clear? || call.now == now
    ensures Step(c, true, kept, call).1 == Step(c, false, full, call).1
    ensures LacksOnlyExpired(c, Step(c, true, kept, call).0, Step(c, false, full, call).0, now)
  {
    match call
    case Failure(who, _) =>
      CollectedLacksOnlyExpired(c, kept, full, now);
      FailureAgrees(c, Collected(c, kept, now), full, Keys(who), now);
    case Enforce(who, _) =>
      SameWaits(kept, full, Keys(who), now);
    case Clear(_) =>
  }

  lemma {:induction false} CollectionSimulates(c: Config, calls: seq<Call>)
    requires ValidConfig(c) && Clocked(calls)
    ensures LacksOnlyExpired(c, Final(c, true, calls), Final(c, false, calls), Latest(calls))
    ensures Answers(c, true, calls) == Answers(c, false, calls)
  {
    if calls != [] {
      var earlier := calls[..|calls| - 1];
      CollectionSimulates(c, earlier);
      StoredRowsAreGood(c, false, earlier);
      StepAgrees(c, Final(c, true, earlier), Final(c, false, earlier), calls[|calls| - 1], Latest(calls));
    }
  }

  lemma {:induction false} AnswersAre(c: Config, gc: bool, calls: seq<Call>, i: nat)
    requires i < |calls|
    ensures |Answers(c, gc, calls)| == |calls| && Answers(c, gc, calls)[i] == Step(c, gc, Final(c, gc, calls[..i]), calls[i]).1
  {
    var n := |calls| - 1;
    if n > 0 {
      AnswersAre(c, gc, calls[..n], if i < n then i else 0);
    }
    if i < n {
      assert calls[..n][..i] == calls[..i];
    }
  }

  /** Deleting old rows never changes an answer: every call of every run gets the same allow, deny and retry-after. */
  lemma CleanUpIsUnobservable(c: Config, calls: seq<Call>)
    requires ValidConfig(c) && Clocked(calls)
    ensures Answers(c, true, calls) == Answers(c, false, calls)
    ensures forall i | 0 <= i < |calls| ::
      Step(c, true, Final(c, true, calls[..i]), calls[i]).1 == Step(c, false, Final(c, false, calls[..i]), calls[i]).1
  {
    CollectionSimulates(c, calls);
    forall i | 0 <= i < |calls|
      ensures Step(c, true, Final(c, true, calls[..i]), calls[i]).1 == Step(c, false, Final(c, false, calls[..i]), calls[i]).1
    {
      AnswersAre(c, true, calls, i);
      AnswersAre(c, false, calls, i);
    }
  }

  // ---- What a limiter that remembers every failure would answer ----

  /** The key counts the failures of this subject. */
  predicate Limits(k: Key, who: Subject) {
    match who
    case Login(account, source) => k == Key(LoginAccount, account) || k == Key(LoginSource, source)
    case Bootstrap(from) => k == Key(BootstrapSource, from)
  }

  lemma KeysLimit(k: Key, who: Subject)
    ensures k in Keys(who) <==> Limits(k, who)
  {
  }

  /** The place of the last failure in its window; the window ends with the `m`-th failure, or by time. */
  function Place(c: Config, m: nat, ts: seq<int>): (place: nat)
    ensures place <= |ts| && (ts != [] ==> 1 <= place)
  {
    if ts == [] then 0
    else
      var init, t := ts[..|ts| - 1], ts[|ts| - 1];
      var place := Place(c, m, init);
      if init == [] || place == m || t - init[|init| - place] >= c.window then 1 else place + 1
  }

  /** The seconds left of the lockout that these failures have earned. */
  function Remaining(c: Config, m: nat, ts: seq<int>, now: int): nat {
    if ts != [] && Place(c, m, ts) == m && now < ts[|ts| - 1] + c.lockout then ts[|ts| - 1] + c.lockout - now else 0
  }

  /** The times of failures after one more call: a failure under lockout is not counted, a clear forgets. */
  function Extended(c: Config, k: Key, ts: seq<int>, call: Call): seq<int> {
    match call
    case Enforce(_, _) => ts
    case Failure(who, now) => if Limits(k, who) && Remaining(c, Maximum(c, k.scope), ts, now) == 0 then ts + [now] else ts
    case Clear(who) => if Limits(k, who) then [] else ts
  }

  /** The times of the failures counted for `k` since it was last cleared. */
  function History(c: Config, k: Key, calls: seq<Call>): seq<int> {
    if calls == [] then [] else Extended(c, k, History(c, k, calls[..|calls| - 1]), calls[|calls| - 1])
  }

  function Places(c: Config, m: nat, ts: seq<int>): (places: seq<int>)
    ensures |places| == |ts| && (ts != [] ==> places[|ts| - 1] == Place(c, m, ts))
  {
    if ts == [] then [] else Places(c, m, ts[..|ts| - 1]) + [Place(c, m, ts)]
  }

  /** By `now` the window or lockout that failure `n` belongs to has ended. */
  ghost predicate Over(c: Config, m: nat, ts: seq<int>, cs: seq<int>, n: int, now: int)
    requires 0 <= n < |ts| == |cs| && 1 <= cs[n] <= n + 1
  {
    if cs[n] == m then now >= ts[n] + c.lockout else now - ts[n + 1 - cs[n]] >= c.window
  }

  /** Failure `n` continues the window of the failure before it, or restarts after that window ended. */
  ghost predicate Linked(c: Config, m: nat, ts: seq<int>, cs: seq<int>, n: int)
    requires 0 < n < |ts| == |cs| && 1 <= cs[n - 1] <= n
  {
    && ts[n - 1] <= ts[n]
    && (|| (cs[n - 1] < m && cs[n] == cs[n - 1] + 1)
        || (cs[n] == 1 && Over(c, m, ts, cs, n - 1, ts[n])))
  }

  /** Recorded failure times with the count each gave its row. */
  ghost predicate Windows(c: Config, m: nat, ts: seq<int>, cs: seq<int>) {
    && |ts| == |cs|
    && (forall n | 0 <= n < |ts| :: 1 <= cs[n] <= m && cs[n] <= n + 1)
    && (forall n | 0 < n < |ts| :: Linked(c, m, ts, cs, n))
  }

  /** The stored row says what the failures say, and a missing row means that their last window is over. */
  ghost predicate RowTells(c: Config, k: Key, rows: Table, ts: seq<int>, now: int) {
    var m, n := Maximum(c, k.scope), |ts| - 1;
    var cs := Places(c, m, ts);
    && Windows(c, m, ts, cs)
    && (n >= 0 ==> ts[n] <= now)
    && if k in rows then
      && n >= 0
      && rows[k] == Row(cs[n], ts[n + 1 - cs[n]], if cs[n] == m then ts[n] + c.lockout else 0, ts[n])
    else
      n >= 0 ==> Over(c, m, ts, cs, n, now)
  }

  lemma SortedBetween(c: Config, m: nat, ts: seq<int>, cs: seq<int>, i: nat, j: nat)
    requires Windows(c, m, ts, cs) && i <= j < |ts|
    ensures ts[i] <= ts[j]
    decreases j - i
  {
    if i < j {
      SortedBetween(c, m, ts, cs, i, j - 1);
      assert Linked(c, m, ts, cs, j);
    }
  }

  lemma ExtendWindows(c: Config, m: nat, ts: seq<int>, cs: seq<int>, t: int, count: int)
    requires Windows(c, m, ts, cs) && 1 <= m
    requires |ts| > 0 ==> ts[|ts| - 1] <= t
    requires
      || (|ts| > 0 && cs[|ts| - 1] < m && count == cs[|ts| - 1] + 1)
      || (count == 1 && (|ts| > 0 ==> Over(c, m, ts, cs, |ts| - 1, t)))
    ensures Windows(c, m, ts + [t], cs + [count])
  {
    var ts', cs' := ts + [t], cs + [count];
    forall n | 0 < n < |ts'| ensures Linked(c, m, ts', cs', n) {
      assert cs'[n - 1] == cs[n - 1] && ts'[n - 1] == ts[n - 1] && ts'[n - cs[n - 1]] == ts[n - cs[n - 1]];
      if n < |ts| {
        assert Linked(c, m, ts, cs, n);
      }
    }
  }

  lemma CollectionStillTells(c: Config, k: Key, rows: Table, ts: seq<int>, before: int, now: int)
    requires ValidConfig(c) && before <= now && RowTells(c, k, rows, ts, before)
    ensures RowTells(c, k, rows, ts, now) && RowTells(c, k, Collected(c, rows, now), ts, now)
  {
    if k in rows {
      var m := Maximum(c, k.scope);
      var cs := Places(c, m, ts);
      SortedBetween(c, m, ts, cs, |ts| - cs[|ts| - 1], |ts| - 1);
    }
  }

  /** The row is locked exactly while the failures say so, and as long. */
  lemma LockTells(c: Config, k: Key, rows: Table, ts: seq<int>, now: int)
    requires ValidConfig(c) && RowTells(c, k, rows, ts, now) && 0 <= now && (k in rows ==> GoodRow(c, k, rows[k], now))
    ensures Wait(rows, k, now) == Remaining(c, Maximum(c, k.scope), ts, now)
    ensures Refused(rows, k, now) <==> Remaining(c, Maximum(c, k.scope), ts, now) > 0
  {
  }

  lemma OneMorePlace(c: Config, m: nat, ts: seq<int>, t: int)
    ensures Places(c, m, ts + [t]) == Places(c, m, ts) + [Place(c, m, ts + [t])]
  {
    assert (ts + [t])[..|ts|] == ts;
  }

  lemma FailureStillTells(c: Config, k: Key, rows: Table, ts: seq<int>, ks: seq<Key>, now: int)
    requires ValidConfig(c) && 0 <= now && RowTells(c, k, rows, ts, now) && k in ks && !Refused(rows, k, now)
    requires k in rows ==> GoodRow(c, k, rows[k], now)
    ensures RowTells(c, k, AfterFailure(c, rows, ks, now), ts + [now], now)
  {
    var m, ts' := Maximum(c, k.scope), ts + [now];
    LockTells(c, k, rows, ts, now);
    OneMorePlace(c, m, ts, now);
    assert ts'[..|ts|] == ts;
    ExtendWindows(c, m, ts, Places(c, m, ts), now, Place(c, m, ts'));
  }

  lemma SameRowTells(c: Config, k: Key, rows: Table, rows': Table, ts: seq<int>, now: int)
    requires RowTells(c, k, rows, ts, now) && (k in rows' <==> k in rows) && (k in rows ==> rows'[k] == rows[k])
    ensures RowTells(c, k, rows', ts, now)
  {
  }

  lemma EnforceStillTells(c: Config, k: Key, rows: Table, ts: seq<int>, ks: seq<Key>, now: int)
    requires RowTells(c, k, rows, ts, now) && (k in rows ==> GoodRow(c, k, rows[k], now))
    ensures RowTells(c, k, AfterEnforce(c, rows, ks, now), ts, now)
  {
  }

  lemma CallStillTells(c: Config, gc: bool, k: Key, rows: Table, ts: seq<int>, call: Call, before: int, now: int)
    requires ValidConfig(c) && GoodTable(c, rows, before) && RowTells(c, k, rows, ts, before)
    requires 0 <= before <= now && (call.Clear? || call.now == now)
    ensures RowTells(c, k, Step(c, gc, rows, call).0, Extended(c, k, ts, call), now)
  {
    CollectionStillTells(c, k, rows, ts, before, now);
    match call
    case Enforce(who, _) => EnforceStillTells(c, k, rows, ts, Keys(who), now);
    case Failure(who, _) => OneFailureTells(c, k, if gc then Collected(c, rows, now) else rows, ts, who, now);
    case Clear(who) =>
      KeysLimit(k, who);
      if !Limits(k, who) { SameRowTells(c, k, rows, Step(c, gc, rows, call).0, ts, now); }
  }

  lemma OneFailureTells(c: Config, k: Key, kept: Table, ts: seq<int>, who: Subject, now: int)
    requires ValidConfig(c) && 0 <= now && RowTells(c, k, kept, ts, now) && (k in kept ==> GoodRow(c, k, kept[k], now))
    ensures RowTells(c, k, AfterFailure(c, kept, Keys(who), now), Extended(c, k, ts, Call.Failure(who, now)), now)
  {
    KeysLimit(k, who);
    LockTells(c, k, kept, ts, now);
    if Limits(k, who) && !Refused(kept, k, now) {
      FailureStillTells(c, k, kept, ts, Keys(who), now);
    } else {
      SameRowTells(c, k, kept, AfterFailure(c, kept, Keys(who), now), ts, now);
    }
  }

  lemma {:induction false} RowsTellHistory(c: Config, gc: bool, k: Key, calls: seq<Call>)
    requires ValidConfig(c) && Clocked(calls)
    ensures RowTells(c, k, Final(c, gc, calls), History(c, k, calls), Latest(calls))
  {
    if calls != [] {
      var earlier := calls[..|calls| - 1];
      RowsTellHistory(c, gc, k, earlier);
      StoredRowsAreGood(c, gc, earlier);
      StoredRowsAreGood(c, gc, calls);
      CallStillTells(c, gc, k, Final(c, gc, earlier), History(c, k, earlier), calls[|calls| - 1], Latest(earlier), Latest(calls));
    }
  }

  /** The longest of the waits that the rows of the subject's keys ask for. */
  ghost predicate IsLongestWait(rows: Table, who: Subject, now: int, wait: nat) {
    && (forall k | Limits(k, who) && k in rows && rows[k].blockedUntil > now :: rows[k].blockedUntil - now <= wait)
    && (wait > 0 ==> exists k :: Limits(k, who) && k in rows && rows[k].blockedUntil > now && wait == rows[k].blockedUntil - now)
  }

  lemma {:induction false} WaitsAreBounded(rows: Table, ks: seq<Key>, now: int)
    ensures forall k | k in ks :: Wait(rows, k, now) <= LongestWait(rows, ks, now)
    ensures LongestWait(rows, ks, now) > 0 ==> exists k :: k in ks && Wait(rows, k, now) == LongestWait(rows, ks, now)
  {
    if ks != [] {
      var init := ks[..|ks| - 1];
      WaitsAreBounded(rows, init, now);
      assert ks == init + [ks[|ks| - 1]];
    }
  }

  lemma AnswerIsLongestWait(rows: Table, who: Subject, now: int)
    ensures IsLongestWait(rows, who, now, LongestWait(rows, Keys(who), now))
  {
    var wait := LongestWait(rows, Keys(who), now);
    WaitsAreBounded(rows, Keys(who), now);
    forall k ensures k in Keys(who) <==> Limits(k, who) {
      KeysLimit(k, who);
    }
    if wait > 0 {
      var k :| k in Keys(who) && Wait(rows, k, now) == wait;
      assert Limits(k, who) && k in rows;
    }
  }

  /** The answer is the longest lockout that the failures counted so far have earned for one of the subject's keys. */
  ghost predicate AnswersHistory(c: Config, calls: seq<Call>, who: Subject, now: int, wait: nat) {
    && (forall k | Limits(k, who) :: Remaining(c, Maximum(c, k.scope), History(c, k, calls), now) <= wait)
    && (exists k :: Limits(k, who) && wait == Remaining(c, Maximum(c, k.scope), History(c, k, calls), now))
  }

  lemma LongestTellsHistory(c: Config, gc: bool, calls: seq<Call>, who: Subject, now: int)
    requires ValidConfig(c) && Clocked(calls) && Latest(calls) <= now
    ensures AnswersHistory(c, calls, who, now, LongestWait(Final(c, gc, calls), Keys(who), now))
  {
    var rows, wait := Final(c, gc, calls), LongestWait(Final(c, gc, calls), Keys(who), now);
    StoredRowsAreGood(c, gc, calls);
    forall k ensures Wait(rows, k, now) == Remaining(c, Maximum(c, k.scope), History(c, k, calls), now) && (k in Keys(who) <==> Limits(k, who)) {
      RowsTellHistory(c, gc, k, calls);
      CollectionStillTells(c, k, rows, History(c, k, calls), Latest(calls), now);
      LockTells(c, k, rows, History(c, k, calls), now);
      KeysLimit(k, who);
    }
    WaitsAreBounded(rows, Keys(who), now);
    assert Keys(who)[0] in Keys(who);
  }

  /**
   The table, its clean-up included, answers as a limiter that remembers every failure: after any calls,
   an attempt is told to wait exactly as long as the counted failures demand, and a failure as long as
   they demand with this failure among them.
   */
  lemma AnswersFollowHistory(c: Config, gc: bool, calls: seq<Call>, who: Subject, now: int)
    requires ValidConfig(c) && Clocked(calls) && Latest(calls) <= now
    ensures AnswersHistory(c, calls, who, now, Step(c, gc, Final(c, gc, calls), Call.Enforce(who, now)).1)
    ensures AnswersHistory(c, calls + [Call.Failure(who, now)], who, now, Step(c, gc, Final(c, gc, calls), Call.Failure(who, now)).1)
  {
    LongestTellsHistory(c, gc, calls, who, now);
    var more := calls + [Call.Failure(who, now)];
    assert more[..|calls|] == calls;
    LongestTellsHistory(c, gc, more, who, now);
  }

  /** `k` is not cleared, and no call comes after `now`. */
  ghost predicate Meanwhile(k: Key, calls: seq<Call>, now: int) {
    forall a | a in calls :: if a.Clear? then !Limits(k, a.who) else a.now <= now
  }

  lemma {:induction false} LockedHistoryStays(c: Config, k: Key, calls: seq<Call>, more: seq<Call>, now: int)
    requires Remaining(c, Maximum(c, k.scope), History(c, k, calls), now) > 0 && Meanwhile(k, more, now)
    ensures History(c, k, calls + more) == History(c, k, calls)
  {
    if more == [] {
      assert calls + more == calls;
    } else {
      var n := |calls + more| - 1;
      assert (calls + more)[..n] == calls + more[..|more| - 1];
      LockedHistoryStays(c, k, calls, more[..|more| - 1], now);
    }
  }

  /**
   When the failures of `k` have reached the maximum, the last of them at `t`, every attempt of a subject
   it limits is refused until the lockout is over, whatever is called meanwhile but a clear of `k`.
   */
  lemma LockoutIsServed(c: Config, gc: bool, k: Key, calls: seq<Call>, t: int, more: seq<Call>, who: Subject, now: int)
    requires ValidConfig(c) && Clocked(calls + more) && Latest(calls + more) <= now
    requires var ts := History(c, k, calls); ts != [] && ts[|ts| - 1] == t && Place(c, Maximum(c, k.scope), ts) == Maximum(c, k.scope)
    requires Limits(k, who) && now < t + c.lockout && Meanwhile(k, more, now)
    ensures Step(c, gc, Final(c, gc, calls + more), Call.Enforce(who, now)).1 >= t + c.lockout - now
  {
    LockedHistoryStays(c, k, calls, more, now);
    AnswersFollowHistory(c, gc, calls + more, who, now);
  }

  // ---- The rate bound ----

  /** From failure `i`, the next window starts at `s`, and by then the window of `i` is over. */
  lemma NextWindow(c: Config, m: nat, ts: seq<int>, cs: seq<int>, i: nat) returns (s: nat)
    requires Windows(c, m, ts, cs) && i < |ts| && i + m - cs[i] + 1 < |ts|
    ensures i < s < |ts| && cs[s] == 1 && s - 1 - i == cs[s - 1] - cs[i] && cs[s - 1] <= m
    ensures Over(c, m, ts, cs, s - 1, ts[s])
    decreases |ts| - i
  {
    assert Linked(c, m, ts, cs, i + 1);
    if cs[i + 1] == 1 && Over(c, m, ts, cs, i, ts[i + 1]) {
      s := i + 1;
    } else {
      s := NextWindow(c, m, ts, cs, i + 1);
    }
  }

  /** Any 2m - 1 recorded failures in a row span at least the shorter of window and lockout. */
  lemma FailuresAreSpread(c: Config, m: nat, ts: seq<int>, cs: seq<int>, i: nat)
    requires Windows(c, m, ts, cs) && 2 <= m && i + 2 * m - 2 < |ts|
    ensures ts[i + 2 * m - 2] - ts[i] >= Min(c.window, c.lockout)
  {
    var s := NextWindow(c, m, ts, cs, i);
    if cs[s - 1] == m {
      SortedBetween(c, m, ts, cs, i, s - 1);
      SortedBetween(c, m, ts, cs, s, i + 2 * m - 2);
    } else if cs[i] == 1 {
      SortedBetween(c, m, ts, cs, s, i + 2 * m - 2);
    } else {
      var s' := NextWindow(c, m, ts, cs, s);
      SortedBetween(c, m, ts, cs, i, s);
      SortedBetween(c, m, ts, cs, s, s' - 1);
      SortedBetween(c, m, ts, cs, s', i + 2 * m - 2);
    }
  }

  /** How many of `ts` lie in the half-open interval from `lo` to `hi`. */
  function CountIn(ts: seq<int>, lo: int, hi: int): nat {
    if ts == [] then 0
    else CountIn(ts[..|ts| - 1], lo, hi) + (if lo <= ts[|ts| - 1] < hi then 1 else 0)
  }

  /** The places of the elements in the interval. */
  ghost function PlacesIn(ts: seq<int>, lo: int, hi: int): set<int> { set i | 0 <= i < |ts| && lo <= ts[i] && ts[i] < hi }

  lemma {:induction false} CountIsExact(ts: seq<int>, lo: int, hi: int)
    ensures CountIn(ts, lo, hi) == |PlacesIn(ts, lo, hi)|
  {
    if ts == [] {
      assert PlacesIn(ts, lo, hi) == {};
    } else {
      var n := |ts| - 1;
      CountIsExact(ts[..n], lo, hi);
      assert n !in PlacesIn(ts[..n], lo, hi);
      assert PlacesIn(ts, lo, hi) == PlacesIn(ts[..n], lo, hi) + if lo <= ts[n] < hi then {n} else {};
    }
  }

  ghost predicate Sorted(ts: seq<int>) {
    forall i, j | 0 <= i < j < |ts| :: ts[i] <= ts[j]
  }

  lemma CountedAreASuffix(ts: seq<int>, lo: int, hi: int, j: nat)
    requires Sorted(ts) && ts != [] && ts[|ts| - 1] < hi
    requires |ts| - CountIn(ts, lo, hi) <= j < |ts|
    ensures lo <= ts[j]
  {
    var init := ts[..|ts| - 1];
    if lo > ts[|ts| - 1] {
      CountedBelow(init, lo, hi);
    } else if j < |init| {
      CountedAreASuffix(init, lo, hi, j);
    }
  }

  lemma CountedBelow(ts: seq<int>, lo: int, hi: int)
    requires forall i | 0 <= i < |ts| :: ts[i] < lo
    ensures CountIn(ts, lo, hi) == 0
  {
  }

  /** If more than `n` elements are counted then some `n + 1` neighbours all lie in the interval. */
  lemma {:induction false} CrowdedRun(ts: seq<int>, lo: int, hi: int, n: nat) returns (i: nat)
    requires Sorted(ts) && CountIn(ts, lo, hi) > n
    ensures i + n < |ts| && lo <= ts[i] && ts[i + n] < hi
  {
    var last := |ts| - 1;
    if lo <= ts[last] < hi {
      CountAtMostLength(ts, lo, hi);
      i := last - n;
      CountedAreASuffix(ts, lo, hi, i);
    } else {
      i := CrowdedRun(ts[..last], lo, hi, n);
    }
  }

  lemma CountAtMostLength(ts: seq<int>, lo: int, hi: int)
    ensures CountIn(ts, lo, hi) <= |ts|
  {
  }

  lemma CountIsBounded(c: Config, m: nat, ts: seq<int>, cs: seq<int>, t: int)
    requires Windows(c, m, ts, cs) && 2 <= m
    ensures CountIn(ts, t, t + Min(c.window, c.lockout)) <= 2 * m - 2
  {
    var d := Min(c.window, c.lockout);
    forall i, j | 0 <= i < j < |ts| ensures ts[i] <= ts[j] {
      SortedBetween(c, m, ts, cs, i, j);
    }
    if CountIn(ts, t, t + d) > 2 * m - 2 {
      var i := CrowdedRun(ts, t, t + d, 2 * m - 2);
      FailuresAreSpread(c, m, ts, cs, i);
    }
  }

  /**
   Since the last clear of a key, any half-open interval as long as the shorter of window and lockout
   holds at most 2 * maximum - 2 counted failures.
   */
  lemma FailuresAreBounded(c: Config, k: Key, calls: seq<Call>, t: int)
    requires ValidConfig(c) && Clocked(calls)
    ensures |PlacesIn(History(c, k, calls), t, t + Min(c.window, c.lockout))| <= 2 * Maximum(c, k.scope) - 2
  {
    var m, ts := Maximum(c, k.scope), History(c, k, calls);
    RowsTellHistory(c, true, k, calls);
    CountIsBounded(c, m, ts, Places(c, m, ts), t);
    CountIsExact(ts, t, t + Min(c.window, c.lockout));
  }

  // ---- The service ----

  lemma OneMoreFailure(c: Config, kept: Table, ks: seq<Key>, k: Key, now: int)
    requires k !in ks
    ensures var rows := AfterFailure(c, kept, ks, now);
            && (k in rows <==> k in kept) && (k in rows ==> rows[k] == kept[k])
            && AfterFailure(c, kept, ks + [k], now)
               == if Refused(rows, k, now) then rows else rows[k := Recorded(c, rows, k, now)]
  {
    var rows, rows' := AfterFailure(c, kept, ks, now), AfterFailure(c, kept, ks + [k], now);
    var expected := if Refused(rows, k, now) then rows else rows[k := Recorded(c, rows, k, now)];
    assert rows'.Keys == expected.Keys;
    forall j | j in rows' ensures rows'[j] == expected[j] {
    }
  }

  lemma OneMoreWait(rows: Table, rows': Table, ks: seq<Key>, k: Key, now: int)
    requires k !in ks && forall j | j in ks :: (j in rows' <==> j in rows) && (j in rows ==> rows'[j] == rows[j])
    ensures LongestWait(rows', ks + [k], now) == Max(LongestWait(rows, ks, now), Wait(rows', k, now))
  {
    SameWaits(rows, rows', ks, now);
    assert (ks + [k])[..|ks|] == ks;
  }

  lemma OneMoreRecorded(c: Config, kept: Table, rows: Table, rows': Table, ks: seq<Key>, k: Key, now: int)
    requires k !in ks && rows == AfterFailure(c, kept, ks, now)
    requires rows' == if Refused(rows, k, now) then rows else rows[k := Recorded(c, rows, k, now)]
    ensures rows' == AfterFailure(c, kept, ks + [k], now)
    ensures LongestWait(rows', ks + [k], now) == Max(LongestWait(rows, ks, now), Wait(rows', k, now))
  {
    OneMoreFailure(c, kept, ks, k, now);
    OneMoreWait(rows, rows', ks, k, now);
  }

  class AuthenticationRateLimitService {
    var rows: Table
    const config: Config

    constructor (config: Config)
      requires ValidConfig(config)
      ensures this.config == config && rows == map[]
    {
      this.config := config;
      rows := map[];
    }

    method EnforceOne(k: Key, now: int) returns (wait: nat)
      modifies this
      ensures rows == AfterEnforce(config, old(rows), [k], now) && wait == Wait(old(rows), k, now)
    {
      wait := 0;
      if k in rows {
        var row := rows[k];
        if row.blockedUntil > now {
          wait := row.blockedUntil - now;
        } else {
          var windowExpired := now - row.windowStart >= config.window;
          if row.blockedUntil > 0 || windowExpired {
            rows := rows - {k};
          }
        }
      }
    }

    /** Returns the seconds to wait, zero when the attempt is allowed. */
    method Enforce(who: Subject, now: int) returns (retryAfter: nat)
      modifies this
      ensures (rows, retryAfter) == Step(config, true, old(rows), Call.Enforce(who, now))
      ensures IsLongestWait(old(rows), who, now, retryAfter)
    {
      AnswerIsLongestWait(rows, who, now);
      retryAfter := 0;
      var entries := Entries(config, who);
      ghost var ks := Keys(who);
      for i := 0 to |entries|
        invariant rows == AfterEnforce(config, old(rows), ks[..i], now)
        invariant retryAfter == LongestWait(old(rows), ks[..i], now)
      {
        assert ks[..i + 1] == ks[..i] + [ks[i]];
        var wait := EnforceOne(entries[i].key, now);
        retryAfter := Max(retryAfter, wait);
      }
      assert ks[..|ks|] == ks;
    }

    method RecordOne(k: Key, maximum: nat, now: int) returns (wait: nat)
      requires maximum == Maximum(config, k.scope)
      modifies this
      ensures rows == if Refused(old(rows), k, now) then old(rows) else old(rows)[k := Recorded(config, old(rows), k, now)]
      ensures wait == Wait(rows, k, now)
    {
      if k in rows && rows[k].blockedUntil > now {
        return rows[k].blockedUntil - now;
      }
      var count, start := 1, now;
      if !(k !in rows || rows[k].blockedUntil > 0 || now - rows[k].windowStart >= config.window) {
        count, start := rows[k].count + 1, rows[k].windowStart;
      }
      var blockedUntil := if count >= maximum then now + config.lockout else 0;
      rows := rows[k := Row(count, start, blockedUntil, now)];
      wait := if blockedUntil > now then blockedUntil - now else 0;
    }

    /** Returns the seconds to wait after this failure, zero when the subject is not locked out. */
    method RecordFailure(who: Subject, now: int) returns (retryAfter: nat)
      modifies this
      ensures (rows, retryAfter) == Step(config, true, old(rows), Call.Failure(who, now))
      ensures IsLongestWait(rows, who, now, retryAfter)
    {
      retryAfter := RecordAll(who, now);
      AnswerIsLongestWait(rows, who, now);
    }

    method RecordAll(who: Subject, now: int) returns (retryAfter: nat)
      modifies this
      ensures (rows, retryAfter) == Step(config, true, old(rows), Call.Failure(who, now))
      ensures retryAfter == LongestWait(rows, Keys(who), now)
    {
      retryAfter := 0;
      var retention := Max(config.window, config.lockout) * 2;
      rows := map k | k in rows && !(rows[k].updatedAt < now - retention) :: rows[k];
      ghost var kept := Collected(config, old(rows), now);
      var entries := Entries(config, who);
      ghost var ks := Keys(who);
      for i := 0 to |entries|
        invariant rows == AfterFailure(config, kept, ks[..i], now)
        invariant retryAfter == LongestWait(rows, ks[..i], now)
      {
        assert ks[..i + 1] == ks[..i] + [ks[i]];
        ghost var before := rows;
        var wait := RecordOne(entries[i].key, entries[i].maximum, now);
        OneMoreRecorded(config, kept, before, rows, ks[..i], ks[i], now);
        retryAfter := Max(retryAfter, wait);
      }
      assert ks[..|ks|] == ks;
    }

    method Reset(who: Subject)
      modifies this
      ensures (rows, 0) == Step(config, true, old(rows), Call.Clear(who))
    {
      var entries := Entries(config, who);
      ghost var ks := Keys(who);
      for i := 0 to |entries|
        invariant rows == old(rows) - (set k | k in ks[..i])
      {
        assert ks[..i + 1] == ks[..i] + [entries[i].key];
        rows := rows - {entries[i].key};
      }
      assert ks[..|ks|] == ks;
    }
  }
}

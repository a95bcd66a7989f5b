/**
 The product audit log: an append-only list of events, each row hashed together with the hash of
 the row before it. `sha` is the digest function applied to text; nothing is assumed about it
 except the shape of its results, and a clash between two logs is turned into a digest collision.
 */
module AuditLedger {
  import opened CanonicalJson

  const GENESIS := "GENESIS"

  datatype Event = Event(
    id: string, actorId: string, action: string, targetType: string, targetId: string,
    payload: Json, createdAt: string)

  /** One row of a log of events of any kind. */
  datatype Row<E> = Row(event: E, previousHash: string, eventHash: string)

  datatype Verdict = Valid(count: nat, head: string) | Broken(sequence: nat, eventId: string)

  /** Digests are 64 lowercase hexadecimal characters. */
  ghost predicate DigestShaped(sha: string -> string) {
    forall text :: |sha(text)| == 64 && forall c | c in sha(text) :: '0' <= c <= '9' || 'a' <= c <= 'f'
  }

  function EventJson(e: Event): Json {
    Obj([Member("action", Str(e.action)), Member("actor_id", Str(e.actorId)),
         Member("created_at", Str(e.createdAt)), Member("id", Str(e.id)), Member("payload", e.payload),
         Member("target_id", Str(e.targetId)), Member("target_type", Str(e.targetType))])
  }

  function ChainText(previousHash: string, e: Event): string {
    previousHash + "\n" + Print(EventJson(e))
  }

  function ChainedHash(sha: string -> string, previousHash: string, e: Event): string {
    sha(ChainText(previousHash, e))
  }

  function Head<E>(rows: seq<Row<E>>): string {
    if rows == [] then GENESIS else rows[|rows| - 1].eventHash
  }

  function Events(rows: seq<Row<Event>>): (es: seq<Event>)
    ensures |es| == |rows| && forall i | 0 <= i < |rows| :: es[i] == rows[i].event
  {
    seq(|rows|, i requires 0 <= i < |rows| => rows[i].event)
  }

  /** The row at `i` extends the rows before it. */
  predicate Extends(sha: string -> string, rows: seq<Row<Event>>, i: nat)
    requires i < |rows|
  {
    && rows[i].previousHash == Head(rows[..i])
    && rows[i].eventHash == ChainedHash(sha, Head(rows[..i]), rows[i].event)
  }

  predicate Chained(sha: string -> string, rows: seq<Row<Event>>) {
    forall i | 0 <= i < |rows| :: Extends(sha, rows, i)
  }

  function Appended(sha: string -> string, rows: seq<Row<Event>>, e: Event): seq<Row<Event>> {
    rows + [Row(e, Head(rows), ChainedHash(sha, Head(rows), e))]
  }

  /** The log left by a run of appends. */
  function Written(sha: string -> string, events: seq<Event>): seq<Row<Event>> {
    if events == [] then []
    else Appended(sha, Written(sha, events[..|events| - 1]), events[|events| - 1])
  }

  lemma PrefixChained(sha: string -> string, rows: seq<Row<Event>>, n: nat)
    requires n <= |rows|
    ensures Chained(sha, rows) ==> Chained(sha, rows[..n])
  {
    if Chained(sha, rows) {
      forall i | 0 <= i < n ensures Extends(sha, rows[..n], i) {
        assert Extends(sha, rows, i) && rows[..n][..i] == rows[..i];
      }
    }
  }

  lemma AppendKeepsChain(sha: string -> string, rows: seq<Row<Event>>, e: Event)
    requires Chained(sha, rows)
    ensures Chained(sha, Appended(sha, rows, e))
  {
    var rows' := Appended(sha, rows, e);
    forall i | 0 <= i < |rows'| ensures Extends(sha, rows', i) {
      assert rows'[..i] == rows[..i];
      assert i < |rows| ==> Extends(sha, rows, i);
      assert rows[..|rows|] == rows;
    }
  }

  /** Every run of appends leaves a chained log that holds exactly the appended events, in order. */
  lemma {:induction false} WrittenIsChained(sha: string -> string, events: seq<Event>)
    ensures Chained(sha, Written(sha, events))
    ensures Events(Written(sha, events)) == events
  {
    if events != [] {
      var earlier := events[..|events| - 1];
      WrittenIsChained(sha, earlier);
      AppendKeepsChain(sha, Written(sha, earlier), events[|events| - 1]);
    }
  }

  lemma SplitAtNewline(p: string, q: string, x: string, y: string)
    requires '\n' !in p && '\n' !in q && p + "\n" + x == q + "\n" + y
    ensures p == q && x == y
  {
    var s := p + "\n" + x;
    assert s[|p|] == '\n' && s[|q|] == '\n';
    assert forall i | 0 <= i < |p| :: s[i] == p[i] != '\n';
    assert forall i | 0 <= i < |q| :: s[i] == q[i] != '\n';
    assert p == s[..|p|] && x == s[|p| + 1..];
    assert q == s[..|q|] && y == s[|q| + 1..];
  }

  lemma ChainTextIsInjective(p: string, e: Event, q: string, f: Event)
    requires '\n' !in p && '\n' !in q && ChainText(p, e) == ChainText(q, f)
    ensures p == q && e == f
  {
    SplitAtNewline(p, q, Print(EventJson(e)), Print(EventJson(f)));
    PrintIsInjective(EventJson(e), EventJson(f));
    var a, b := EventJson(e).members, EventJson(f).members;
    assert forall i | 0 <= i < 7 :: a[i].value == b[i].value;
  }

  lemma HeadHasNoNewline(sha: string -> string, rows: seq<Row<Event>>)
    requires DigestShaped(sha) && Chained(sha, rows)
    ensures '\n' !in Head(rows) && (rows != [] ==> Head(rows) != GENESIS)
  {
    if rows != [] {
      assert Extends(sha, rows, |rows| - 1);
      assert |Head(rows)| == 64 && |GENESIS| == 7;
    }
  }

  /** The text whose digest is the hash of the row at `i`. */
  function TextAt(rows: seq<Row<Event>>, i: nat): string
    requires i < |rows|
  {
    ChainText(Head(rows[..i]), rows[i].event)
  }

  /**
   Two logs that verify with the same head but hold different events, whatever their lengths, contain
   two rows, one in each, whose different texts have the same digest.
   */
  lemma {:induction false} SameHeadOrCollision(sha: string -> string, a: seq<Row<Event>>, b: seq<Row<Event>>) returns (m: nat, n: nat)
    requires DigestShaped(sha) && Chained(sha, a) && Chained(sha, b)
    requires Head(a) == Head(b) && Events(a) != Events(b)
    ensures m < |a| && n < |b| && TextAt(a, m) != TextAt(b, n) && sha(TextAt(a, m)) == sha(TextAt(b, n))
  {
    HeadHasNoNewline(sha, a);
    HeadHasNoNewline(sha, b);
    assert a != [] && b != [];
    m, n := |a| - 1, |b| - 1;
    assert Extends(sha, a, m) && Extends(sha, b, n);
    if TextAt(a, m) == TextAt(b, n) {
      var a', b' := a[..m], b[..n];
      SameLastText(sha, a, b, a', b');
      m, n := SameHeadOrCollision(sha, a', b');
      assert a'[..m] == a[..m] && b'[..n] == b[..n];
    }
  }

  /** Logs whose last rows have one text agree on the last event and on the head before it. */
  lemma SameLastText(sha: string -> string, a: seq<Row<Event>>, b: seq<Row<Event>>, a': seq<Row<Event>>, b': seq<Row<Event>>)
    requires DigestShaped(sha) && Chained(sha, a) && Chained(sha, b) && a != [] && b != []
    requires a' == a[..|a| - 1] && b' == b[..|b| - 1] && TextAt(a, |a| - 1) == TextAt(b, |b| - 1)
    ensures Chained(sha, a') && Chained(sha, b') && Head(a') == Head(b')
    ensures Events(a) != Events(b) ==> Events(a') != Events(b')
  {
    var m, n := |a| - 1, |b| - 1;
    PrefixChained(sha, a, m);
    PrefixChained(sha, b, n);
    HeadHasNoNewline(sha, a');
    HeadHasNoNewline(sha, b');
    ChainTextIsInjective(Head(a'), a[m].event, Head(b'), b[n].event);
    assert Events(a) == Events(a') + [a[m].event];
    assert Events(b) == Events(b') + [b[n].event];
  }

  /** No row of one log and row of the other have different texts with one digest. */
  ghost predicate NoCollision(sha: string -> string, a: seq<Row<Event>>, b: seq<Row<Event>>) {
    forall m, n | 0 <= m < |a| && 0 <= n < |b| && sha(TextAt(a, m)) == sha(TextAt(b, n)) :: TextAt(a, m) == TextAt(b, n)
  }

  /** The events of a log that verifies determine its rows. */
  lemma {:induction false} EventsDetermineRows(sha: string -> string, a: seq<Row<Event>>, b: seq<Row<Event>>)
    requires Chained(sha, a) && Chained(sha, b) && Events(a) == Events(b)
    ensures a == b
  {
    assert |Events(a)| == |a| && |Events(b)| == |b|;
    if a != [] {
      var n := |a| - 1;
      PrefixChained(sha, a, n);
      PrefixChained(sha, b, n);
      assert Events(a[..n]) == Events(a)[..n] && Events(b[..n]) == Events(b)[..n];
      EventsDetermineRows(sha, a[..n], b[..n]);
      assert Extends(sha, a, n) && Extends(sha, b, n);
      assert Events(a)[n] == a[n].event && Events(b)[n] == b[n].event;
      assert a == a[..n] + [a[n]] && b == b[..n] + [b[n]];
    }
  }

  /** Two logs that verify with the same head, and do not collide with each other, are the same log. */
  lemma SameHeadSameLog(sha: string -> string, a: seq<Row<Event>>, b: seq<Row<Event>>)
    requires DigestShaped(sha) && Chained(sha, a) && Chained(sha, b) && NoCollision(sha, a, b)
    requires Head(a) == Head(b)
    ensures Events(a) == Events(b) && a == b
  {
    if Events(a) != Events(b) {
      var m, n := SameHeadOrCollision(sha, a, b);
    }
    EventsDetermineRows(sha, a, b);
  }

  class Ledger {
    var rows: seq<Row<Event>>
    const sha: string -> string

    constructor (sha: string -> string)
      ensures this.sha == sha && rows == []
    {
      this.sha := sha;
      rows := [];
    }

    method Append(id: string, actorId: string, action: string, targetType: string, targetId: string,
                  payload: Json, now: string) returns (row: Row<Event>)
      modifies this
      ensures rows == Appended(sha, old(rows), Event(id, actorId, action, targetType, targetId, payload, now))
      ensures old(Chained(sha, rows)) ==> Chained(sha, rows)
      ensures row == rows[|rows| - 1]
    {
      var previousHash := if rows == [] then GENESIS else rows[|rows| - 1].eventHash;
      var event := Event(id, actorId, action, targetType, targetId, payload, now);
      row := Row(event, previousHash, ChainedHash(sha, previousHash, event));
      ghost var before := rows;
      rows := rows + [row];
      if Chained(sha, before) {
        AppendKeepsChain(sha, before, event);
      }
    }

    /** Accepts exactly the chained logs, with their length and head, and names the first bad row of others. */
    method Verify() returns (v: Verdict)
      ensures v.Valid? <==> Chained(sha, rows)
      ensures v.Valid? ==> v.count == |rows| && v.head == Head(rows)
      ensures v.Broken? ==> v.sequence < |rows| && v.eventId == rows[v.sequence].event.id
      ensures v.Broken? ==> Chained(sha, rows[..v.sequence]) && !Extends(sha, rows, v.sequence)
    {
      var previousHash := GENESIS;
      for i := 0 to |rows|
        invariant previousHash == Head(rows[..i])
        invariant forall j | 0 <= j < i :: Extends(sha, rows, j)
      {
        var row := rows[i];
        var expected := ChainedHash(sha, previousHash, row.event);
        if row.previousHash != previousHash || row.eventHash != expected {
          forall j | 0 <= j < i ensures Extends(sha, rows[..i], j) {
            assert rows[..i][..j] == rows[..j] && Extends(sha, rows, j);
          }
          assert !Extends(sha, rows, i);
          return Broken(i, row.event.id);
        }
        previousHash := row.eventHash;
      }
      assert rows[..|rows|] == rows;
      return Valid(|rows|, previousHash);
    }
  }
}

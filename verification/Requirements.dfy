/**
 The requirement manifests: files of pinned packages that include one another, the lock file that
 must cover them, and the recursive reader that refuses escapes, cycles and conflicting pins.

 A file is a sequence of lines already told apart; an include names the file it resolves to.
 */
module Requirements {
  import opened Wrappers
  import opened SortedStrings

  type Path = string

  type Pins = map<string, string>

  datatype Line =
    | Blank
    | Include(path: Path)
    | EmptyInclude
    | Pin(key: string, version: string)
    | Unsupported

  /** The files below the repository root, and which resolved paths are inside it. */
  datatype Tree = Tree(files: map<Path, seq<Line>>, confined: Path -> bool)

  // ---- The reader ----

  /** No key has one version here and another there. */
  predicate Agree(a: Pins, b: Pins) {
    forall k | k in a && k in b :: a[k] == b[k]
  }

  function Merge(pins: Pins, more: Pins): Result<Pins> {
    if Agree(pins, more) then Ok(pins + more) else Err("conflicting pin")
  }

  /** The pins of the file at `p` and of all it includes; `active` are the files being read. */
  function ParseFile(t: Tree, p: Path, active: set<Path>): Result<Pins>
    decreases t.files.Keys - active, 0, 0
  {
    if !t.confined(p) then Err("requirements include escapes repository root")
    else if p in active then Err("requirements include cycle")
    else if p !in t.files then Err("unreadable")
    else
      assert t.files.Keys - (active + {p}) < t.files.Keys - active by {
        assert p in t.files.Keys - active;
      }
      ParseLines(t, t.files[p], active + {p}, map[])
  }

  function ParseLines(t: Tree, lines: seq<Line>, active: set<Path>, pins: Pins): Result<Pins>
    decreases t.files.Keys - active, |lines|, 0
  {
    if lines == [] then Ok(pins)
    else
      var one := ParseLine(t, lines[0], active);
      if one.Err? then one else
      var merged := Merge(pins, one.value);
      if merged.Err? then merged else ParseLines(t, lines[1..], active, merged.value)
  }

  /** What one line adds. */
  function ParseLine(t: Tree, line: Line, active: set<Path>): Result<Pins>
    decreases t.files.Keys - active, 0, 1
  {
    match line
    case Blank => Ok(map[])
    case Include(c) => ParseFile(t, c, active)
    case EmptyInclude => Err("empty requirements include")
    case Pin(k, v) => Ok(map[k := v])
    case Unsupported => Err("unsupported requirement syntax")
  }

  // ---- The include graph ----

  /** The walk follows include lines. */
  ghost predicate Walk(t: Tree, w: seq<Path>) {
    && w != []
    && forall i | 0 < i < |w| :: Includes(t, w[i - 1], w[i])
  }

  ghost predicate Includes(t: Tree, p: Path, c: Path) { p in t.files && Include(c) in t.files[p] }

  ghost predicate Distinct(w: seq<Path>) {
    forall i, j | 0 <= i < j < |w| :: w[i] != w[j]
  }

  function Last(w: seq<Path>): Path requires w != [] { w[|w| - 1] }

  /** The file is inside the root, readable and made of supported lines. */
  predicate Readable(t: Tree, p: Path) {
    && t.confined(p) && p in t.files
    && EmptyInclude !in t.files[p] && Unsupported !in t.files[p]
  }

  /** Every walk from `p` ends in a readable file, outside `active`, and never comes back to a file. */
  ghost predicate Sane(t: Tree, p: Path, active: set<Path>) {
    forall w | Walk(t, w) && w[0] == p :: Readable(t, Last(w)) && Last(w) !in active && Distinct(w)
  }

  /** A file reachable from `p` pins `key` to `version`. */
  ghost predicate Pinned(t: Tree, p: Path, key: string, version: string) {
    exists w :: Walk(t, w) && w[0] == p && PinsAt(t, Last(w), key, version)
  }

  ghost predicate PinsAt(t: Tree, p: Path, key: string, version: string) {
    p in t.files && Pin(key, version) in t.files[p]
  }

  ghost predicate Unambiguous(t: Tree, p: Path) {
    forall k, v, v' | Pinned(t, p, k, v) && Pinned(t, p, k, v') :: v == v'
  }

  ghost predicate Maps(pins: Pins, k: string, v: string) { k in pins && pins[k] == v }

  // ---- Reading the lines of one file ----

  /** A line, read with `active`, contributes the pin. */
  ghost predicate Adds(t: Tree, line: Line, active: set<Path>, k: string, v: string) {
    ParseLine(t, line, active).Ok? && Maps(ParseLine(t, line, active).value, k, v)
  }

  ghost predicate Given(t: Tree, lines: seq<Line>, active: set<Path>, pins: Pins, k: string, v: string) {
    Maps(pins, k, v) || exists line | line in lines :: Adds(t, line, active, k, v)
  }

  ghost predicate NoConflict(t: Tree, lines: seq<Line>, active: set<Path>, pins: Pins) {
    forall k, v, v' | Given(t, lines, active, pins, k, v) && Given(t, lines, active, pins, k, v') :: v == v'
  }

  ghost predicate AllParse(t: Tree, lines: seq<Line>, active: set<Path>) {
    forall line | line in lines :: ParseLine(t, line, active).Ok?
  }

  lemma GivenStep(t: Tree, lines: seq<Line>, active: set<Path>, pins: Pins, more: Pins, k: string, v: string)
    requires lines != [] && ParseLine(t, lines[0], active) == Ok(more) && Agree(pins, more)
    ensures Given(t, lines, active, pins, k, v) <==> Given(t, lines[1..], active, pins + more, k, v)
  {
    assert lines == [lines[0]] + lines[1..];
    assert Adds(t, lines[0], active, k, v) <==> Maps(more, k, v);
    assert Maps(pins + more, k, v) <==> Maps(pins, k, v) || Maps(more, k, v);
  }

  /** Lines are read exactly when each can be read and no two pins conflict, and give all their pins. */
  lemma {:induction false} LinesParse(t: Tree, lines: seq<Line>, active: set<Path>, pins: Pins)
    ensures var r := ParseLines(t, lines, active, pins);
      && (r.Ok? <==> AllParse(t, lines, active) && NoConflict(t, lines, active, pins))
      && (r.Ok? ==> forall k, v :: Maps(r.value, k, v) <==> Given(t, lines, active, pins, k, v))
    decreases |lines|
  {
    if lines != [] {
      assert lines == [lines[0]] + lines[1..];
      var one := ParseLine(t, lines[0], active);
      if one.Ok? {
        if Agree(pins, one.value) {
          LinesParse(t, lines[1..], active, pins + one.value);
          forall k, v ensures Given(t, lines, active, pins, k, v) <==> Given(t, lines[1..], active, pins + one.value, k, v) {
            GivenStep(t, lines, active, pins, one.value, k, v);
          }
        } else {
          var k :| k in pins && k in one.value && pins[k] != one.value[k];
          assert Given(t, lines, active, pins, k, pins[k]);
          assert Adds(t, lines[0], active, k, one.value[k]);
          assert Given(t, lines, active, pins, k, one.value[k]);
        }
      }
    }
  }

  // ---- Walks ----

  lemma WalkIsOneStepMore(t: Tree, p: Path, w: seq<Path>)
    requires w != []
    ensures Walk(t, [p] + w) <==> Includes(t, p, w[0]) && Walk(t, w)
  {
    var all := [p] + w;
    if Walk(t, all) {
      assert Includes(t, all[0], all[1]);
      forall i | 0 < i < |w| ensures Includes(t, w[i - 1], w[i]) {
        assert Includes(t, all[i], all[i + 1]) by {
          assert 0 < i + 1 < |all|;
          assert Includes(t, all[i + 1 - 1], all[i + 1]);
        }
      }
    }
    if Includes(t, p, w[0]) && Walk(t, w) {
      forall i | 0 < i < |all| ensures Includes(t, all[i - 1], all[i]) {
        if i > 1 { assert Includes(t, w[i - 1 - 1], w[i - 1]); }
      }
    }
  }

  /** All walks from `p` are fine when `p` is readable and all walks from the files it includes are. */
  lemma SaneStep(t: Tree, p: Path, active: set<Path>)
    requires Readable(t, p) && p !in active
    ensures Sane(t, p, active) <==> forall c | Includes(t, p, c) :: Sane(t, c, active + {p})
  {
    if Sane(t, p, active) {
      forall c, w | Includes(t, p, c) && Walk(t, w) && w[0] == c
        ensures Readable(t, Last(w)) && Last(w) !in active + {p} && Distinct(w)
      {
        WalkIsOneStepMore(t, p, w);
        SuffixIsDistinct(p, w);
      }
    }
    if forall c | Includes(t, p, c) :: Sane(t, c, active + {p}) {
      forall w | Walk(t, w) && w[0] == p ensures Readable(t, Last(w)) && Last(w) !in active && Distinct(w) {
        if |w| > 1 {
          TailIsFine(t, p, active, w);
        }
      }
    }
  }

  lemma SuffixIsDistinct(p: Path, w: seq<Path>)
    ensures Distinct([p] + w) <==> p !in w && Distinct(w)
  {
    var all := [p] + w;
    assert forall i | 0 <= i < |w| :: all[i + 1] == w[i];
    if Distinct(all) {
      forall i | 0 <= i < |w| ensures w[i] != p {
        assert all[0] != all[i + 1];
      }
      forall i, j | 0 <= i < j < |w| ensures w[i] != w[j] {
        assert all[i + 1] != all[j + 1];
      }
    }
  }

  lemma TailIsFine(t: Tree, p: Path, active: set<Path>, w: seq<Path>)
    requires Walk(t, w) && w[0] == p && |w| > 1
    requires forall c | Includes(t, p, c) :: Sane(t, c, active + {p})
    ensures Readable(t, Last(w)) && Last(w) !in active && Distinct(w)
  {
    var rest := w[1..];
    assert w == [p] + rest;
    WalkIsOneStepMore(t, p, rest);
    assert Sane(t, rest[0], active + {p});
    forall i | 0 <= i < |rest| ensures rest[i] != p {
      PrefixIsWalk(t, rest, i + 1);
      assert Last(rest[..i + 1]) == rest[i];
    }
    SuffixIsDistinct(p, rest);
  }

  lemma PrefixIsWalk(t: Tree, w: seq<Path>, n: nat)
    requires Walk(t, w) && 0 < n <= |w|
    ensures Walk(t, w[..n]) && w[..n][0] == w[0]
  {
    forall i | 0 < i < n ensures Includes(t, w[..n][i - 1], w[..n][i]) {
      assert Includes(t, w[i - 1], w[i]);
    }
  }

  /** A pin reachable from `p` is in `p` itself or reachable from a file it includes. */
  lemma PinnedStep(t: Tree, p: Path, k: string, v: string)
    ensures Pinned(t, p, k, v) <==>
      PinsAt(t, p, k, v) || exists c | Includes(t, p, c) :: Pinned(t, c, k, v)
  {
    if Pinned(t, p, k, v) {
      var w :| Walk(t, w) && w[0] == p && PinsAt(t, Last(w), k, v);
      if |w| > 1 {
        assert w == [p] + w[1..];
        WalkIsOneStepMore(t, p, w[1..]);
        assert Last(w[1..]) == Last(w);
        assert Pinned(t, w[1], k, v);
      }
    }
    if PinsAt(t, p, k, v) {
      assert Walk(t, [p]) && Last([p]) == p;
    }
    if c :| Includes(t, p, c) && Pinned(t, c, k, v) {
      var w :| Walk(t, w) && w[0] == c && PinsAt(t, Last(w), k, v);
      WalkIsOneStepMore(t, p, w);
      assert Last([p] + w) == Last(w);
    }
  }

  lemma UnambiguousBelow(t: Tree, p: Path, c: Path)
    requires Includes(t, p, c) && Unambiguous(t, p)
    ensures Unambiguous(t, c)
  {
    forall k, v, v' | Pinned(t, c, k, v) && Pinned(t, c, k, v') ensures v == v' {
      PinnedStep(t, p, k, v);
      PinnedStep(t, p, k, v');
    }
  }

  // ---- The reader meets the graph ----

  /** Reading from `p` succeeds exactly when the part of the graph below `p` is sane and unambiguous. */
  ghost predicate Meets(t: Tree, p: Path, active: set<Path>) {
    var r := ParseFile(t, p, active);
    && (r.Ok? <==> Sane(t, p, active) && Unambiguous(t, p))
    && (r.Ok? ==> forall k, v :: Maps(r.value, k, v) <==> Pinned(t, p, k, v))
  }

  lemma {:induction false} ReaderMeetsGraph(t: Tree, p: Path, active: set<Path>)
    ensures Meets(t, p, active)
    decreases t.files.Keys - active
  {
    if !Readable(t, p) || p in active {
      assert Walk(t, [p]) && Last([p]) == p;
      assert !Sane(t, p, active);
      UnreadableIsRefused(t, p, active);
    } else {
      var inside := active + {p};
      assert p in t.files.Keys - active;
      forall c ensures Meets(t, c, inside) {
        ReaderMeetsGraph(t, c, inside);
      }
      LinesParse(t, t.files[p], inside, map[]);
      SaneStep(t, p, active);
      ChildrenParse(t, p, inside);
      forall c | Includes(t, p, c) && Unambiguous(t, p) ensures Unambiguous(t, c) {
        UnambiguousBelow(t, p, c);
      }
      if AllParse(t, t.files[p], inside) {
        forall k, v ensures Given(t, t.files[p], inside, map[], k, v) <==> Pinned(t, p, k, v) {
          GivenIsPinned(t, p, inside, k, v);
        }
      }
    }
  }

  lemma UnreadableIsRefused(t: Tree, p: Path, active: set<Path>)
    requires !Readable(t, p) || p in active
    ensures ParseFile(t, p, active).Err?
  {
    if p in t.files && p !in active && t.confined(p) {
      LinesParse(t, t.files[p], active + {p}, map[]);
      assert ParseLine(t, EmptyInclude, active + {p}).Err? && ParseLine(t, Unsupported, active + {p}).Err?;
    }
  }

  lemma ChildrenParse(t: Tree, p: Path, inside: set<Path>)
    requires Readable(t, p) && forall c :: Meets(t, c, inside)
    ensures AllParse(t, t.files[p], inside) <==>
      forall c | Includes(t, p, c) :: Sane(t, c, inside) && Unambiguous(t, c)
  {
    forall c ensures ParseLine(t, Include(c), inside).Ok? <==> Sane(t, c, inside) && Unambiguous(t, c) {
      assert Meets(t, c, inside);
    }
  }

  lemma GivenIsPinned(t: Tree, p: Path, inside: set<Path>, k: string, v: string)
    requires Readable(t, p) && AllParse(t, t.files[p], inside) && forall c :: Meets(t, c, inside)
    ensures Given(t, t.files[p], inside, map[], k, v) <==> Pinned(t, p, k, v)
  {
    PinnedStep(t, p, k, v);
    forall c | Includes(t, p, c) ensures Adds(t, Include(c), inside, k, v) <==> Pinned(t, c, k, v) {
      assert Meets(t, c, inside);
    }
    assert Adds(t, Pin(k, v), inside, k, v);
  }

  /**
   The reader succeeds exactly when every file reachable from `p` is inside the root, readable and
   well formed, no include walk comes back to a file, and no two reachable pins conflict; it then
   returns the union of all reachable pins. A file may be included twice along different walks.
   */
  lemma ParseIsExact(t: Tree, p: Path)
    ensures ParseFile(t, p, {}).Ok? <==>
      && (forall w | Walk(t, w) && w[0] == p :: Readable(t, Last(w)) && Distinct(w))
      && (forall k, v, v' | Pinned(t, p, k, v) && Pinned(t, p, k, v') :: v == v')
    ensures ParseFile(t, p, {}).Ok? ==>
      forall k, v :: Maps(ParseFile(t, p, {}).value, k, v) <==> Pinned(t, p, k, v)
  {
    ReaderMeetsGraph(t, p, {});
  }

  // ---- The lock file and the verdict ----

  /** A lock line is indented, a comment or free text, or it starts with a pin, whose extras may have an empty item. */
  datatype LockLine = Skipped | LockPin(key: string, version: string) | Malformed

  ghost predicate LockGives(lines: seq<LockLine>, k: string, v: string) { LockPin(k, v) in lines }

  /** The pins of a lock file: all are well formed, and a key may be repeated with the same version only. */
  method ParseLock(confined: bool, text: Option<seq<LockLine>>) returns (r: Result<Pins>)
    ensures r.Ok? <==>
      && confined && text.Some? && Malformed !in text.value
      && forall k, v, v' | LockGives(text.value, k, v) && LockGives(text.value, k, v') :: v == v'
    ensures r.Ok? ==> forall k, v :: Maps(r.value, k, v) <==> LockGives(text.value, k, v)
  {
    if !confined || text.None? { return Err("unreadable"); }
    var lines := text.value;
    var pins: Pins := map[];
    for n := 0 to |lines|
      invariant Malformed !in lines[..n]
      invariant forall k, v :: Maps(pins, k, v) <==> LockGives(lines[..n], k, v)
    {
      assert lines[..n + 1] == lines[..n] + [lines[n]];
      if lines[n].Malformed? { return Err("requirement extras contain an empty value"); }
      if lines[n].LockPin? {
        var key, version := lines[n].key, lines[n].version;
        if key in pins && pins[key] != version {
          assert Maps(pins, key, pins[key]);
          assert LockGives(lines[..n], key, pins[key]);
          assert LockGives(lines, key, pins[key]) && LockGives(lines, key, version);
          return Err("duplicate lock pin");
        }
        var before := pins;
        pins := pins[key := version];
        forall k, v ensures Maps(pins, k, v) <==> LockGives(lines[..n], k, v) || LockPin(k, v) == lines[n] {
          assert Maps(before, k, v) <==> LockGives(lines[..n], k, v);
        }
      }
    }
    assert lines[..|lines|] == lines;
    return Ok(pins);
  }

  /** A key with the version that the manifest pins and the one that the lock holds. */
  datatype Mismatch = Mismatch(key: string, manifestVersion: string, lockVersion: string)

  datatype Report = Report(required: nat, missing: seq<string>, mismatched: seq<Mismatch>, ok: bool)

  function MismatchesAmong(keys: seq<string>, required: Pins, locked: Pins): seq<Mismatch>
    requires forall k | k in keys :: k in required && k in locked
  {
    seq(|keys|, i requires 0 <= i < |keys| => Mismatch(keys[i], required[keys[i]], locked[keys[i]]))
  }

  ghost predicate Covers(locked: Pins, required: Pins) {
    forall k, v | Maps(required, k, v) :: Maps(locked, k, v)
  }

  method ComparePins(required: Pins, locked: Pins) returns (report: Report)
    ensures report.ok <==> Covers(locked, required)
    ensures report.required == |required|
    ensures report.missing == SortedOf(required.Keys - locked.Keys)
    ensures var differing := set k | k in required && k in locked && required[k] != locked[k];
      && |report.mismatched| == |SortedOf(differing)|
      && forall i | 0 <= i < |report.mismatched| ::
           var key := SortedOf(differing)[i];
           key in required && key in locked && report.mismatched[i] == Mismatch(key, required[key], locked[key])
  {
    var missing := Sort(required.Keys - locked.Keys);
    var differing := set k | k in required && k in locked && required[k] != locked[k];
    var keys := Sort(differing);
    var mismatched := MismatchesAmong(keys, required, locked);
    report := Report(|required|, missing, mismatched, missing == [] && mismatched == []);
    forall k | k in required && report.ok ensures Maps(locked, k, required[k]) {
      assert k !in missing && k !in keys;
    }
    if Covers(locked, required) {
      assert forall k | k in required :: Maps(required, k, required[k]);
      assert required.Keys - locked.Keys == {} && differing == {};
    }
  }

  // ---- The reader as it runs ----

  /** The reader keeps the files being read in one set that all nested calls share. */
  class ManifestReader {
    const tree: Tree
    var active: set<Path>

    constructor (tree: Tree)
      ensures this.tree == tree && active == {}
    {
      this.tree := tree;
      active := {};
    }

    /** Returns what the reading of the file and its includes gives, and leaves the set as it was. */
    method ParseManifest(p: Path) returns (r: Result<Pins>)
      modifies this
      ensures r == ParseFile(tree, p, old(active))
      ensures r.Ok? ==> active == old(active)
      decreases tree.files.Keys - active, 0
    {
      if !tree.confined(p) { return Err("requirements include escapes repository root"); }
      if p in active { return Err("requirements include cycle"); }
      if p !in tree.files { return Err("unreadable"); }
      ghost var before := active;
      active := active + {p};
      assert p in tree.files.Keys - before;
      var lines, pins, n := tree.files[p], map[], 0;
      while n < |lines|
        invariant n <= |lines| && active == before + {p}
        invariant ParseLines(tree, lines, active, map[]) == ParseLines(tree, lines[n..], active, pins)
      {
        var one := ParseOne(lines[n], p, before);
        if one.Err? { return one; }
        assert lines[n..][1..] == lines[n + 1..];
        var merged := MergeInto(pins, one.value);
        if merged.Err? { return merged; }
        pins := merged.value;
        n := n + 1;
      }
      active := active - {p};
      assert active == before;
      return Ok(pins);
    }

    method ParseOne(line: Line, p: Path, ghost before: set<Path>) returns (r: Result<Pins>)
      requires active == before + {p} && p in tree.files && p !in before
      modifies this
      ensures r == ParseLine(tree, line, old(active))
      ensures r.Ok? ==> active == old(active)
      decreases tree.files.Keys - active, 1
    {
      match line
      case Blank => return Ok(map[]);
      case Include(c) => r := ParseManifest(c);
      case EmptyInclude => return Err("empty requirements include");
      case Pin(k, v) => return Ok(map[k := v]);
      case Unsupported => return Err("unsupported requirement syntax");
    }

    /** The loop over the pins of an included file, stopping at the first conflict. */
    method MergeInto(pins: Pins, nested: Pins) returns (r: Result<Pins>)
      ensures r == Merge(pins, nested)
    {
      var merged, rest := pins, nested.Keys;
      while rest != {}
        invariant rest <= nested.Keys
        invariant merged == pins + map k | k in nested.Keys - rest :: nested[k]
        invariant forall k | k in pins && k in nested.Keys - rest :: pins[k] == nested[k]
        decreases rest
      {
        var key :| key in rest;
        if key in merged && merged[key] != nested[key] {
          return Err("conflicting pin");
        }
        merged := merged[key := nested[key]];
        rest := rest - {key};
      }
      assert merged == pins + nested;
      return Ok(merged);
    }
  }

  /** The verdict on a manifest and its lock: ok exactly when every reachable pin is locked at its version. */
  method CheckPair(t: Tree, manifest: Path, lockConfined: bool, lock: Option<seq<LockLine>>)
    returns (r: Result<Report>)
    ensures r.Ok? <==>
      && ParseFile(t, manifest, {}).Ok?
      && lockConfined && lock.Some? && Malformed !in lock.value
      && forall k, v, v' | LockGives(lock.value, k, v) && LockGives(lock.value, k, v') :: v == v'
    ensures r.Ok? ==>
      (r.value.ok <==> forall k, v | Pinned(t, manifest, k, v) :: LockGives(lock.value, k, v))
  {
    var reader := new ManifestReader(t);
    var required := reader.ParseManifest(manifest);
    if required.Err? { return Err(required.reason); }
    var locked := ParseLock(lockConfined, lock);
    if locked.Err? { return Err(locked.reason); }
    var report := ComparePins(required.value, locked.value);
    ParseIsExact(t, manifest);
    return Ok(report);
  }
}

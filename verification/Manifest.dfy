/**
 SHA256SUMS manifests: one line per file, a digest, two spaces and a relative path, sorted by path.
 A manifest that parses names clean paths only, and a manifest printed for clean paths parses back
 to the same entries.
 */
module Manifest {
  import opened Wrappers
  import opened CanonicalJson

  datatype Entry = Entry(digest: string, path: string)

  predicate IsDigest(s: string) {
    |s| == 64 && forall c | c in s :: '0' <= c <= '9' || 'a' <= c <= 'f'
  }

  // ---- Lines ----

  /** The characters at which text is split into lines. */
  predicate IsLineBreak(c: char) {
    var n := c as int;
    10 <= n <= 13 || 28 <= n <= 30 || n == 0x85 || n == 0x2028 || n == 0x2029
  }

  predicate OneLine(s: string) { forall c | c in s :: !IsLineBreak(c) }

  function LineLength(text: string): (n: nat)
    ensures n <= |text| && OneLine(text[..n]) && (n < |text| ==> IsLineBreak(text[n]))
  {
    if text == [] || IsLineBreak(text[0]) then 0 else 1 + LineLength(text[1..])
  }

  /** The lines of `text`; a carriage return and the line feed after it break once. */
  function SplitLines(text: string): (lines: seq<string>)
    ensures forall line | line in lines :: OneLine(line)
    decreases |text|
  {
    if text == [] then []
    else
      var n := LineLength(text);
      var after := if n + 1 < |text| && text[n] == '\r' && text[n + 1] == '\n' then n + 2 else n + 1;
      [text[..n]] + (if after < |text| then SplitLines(text[after..]) else [])
  }

  lemma {:induction false} LineLengthIs(line: string, rest: string)
    requires OneLine(line)
    ensures LineLength(line + "\n" + rest) == |line|
  {
    var text := line + "\n" + rest;
    if line != [] {
      assert text[0] == line[0] && line[0] in line;
      assert text[1..] == line[1..] + "\n" + rest;
      LineLengthIs(line[1..], rest);
    }
  }

  lemma SplitFirstLine(line: string, rest: string)
    requires OneLine(line)
    ensures SplitLines(line + "\n" + rest) == [line] + SplitLines(rest)
  {
    var text := line + "\n" + rest;
    LineLengthIs(line, rest);
    assert text[..|line|] == line && text[|line|] == '\n' && text[|line| + 1..] == rest;
  }

  /** Text is split at the line boundaries that `splitlines` of Python knows. */
  lemma LineBreaksAre(c: char)
    ensures IsLineBreak(c) <==>
      c in {'\n', '\r', 11 as char, 12 as char, 28 as char, 29 as char, 30 as char, 0x85 as char, 0x2028 as char, 0x2029 as char}
  {
  }

  lemma {:induction false} LineLengthAt(line: string, c: char, rest: string)
    requires OneLine(line) && IsLineBreak(c)
    ensures LineLength(line + [c] + rest) == |line|
  {
    var text := line + [c] + rest;
    if line != [] {
      assert text[0] == line[0] && line[0] in line;
      assert text[1..] == line[1..] + [c] + rest;
      LineLengthAt(line[1..], c, rest);
    }
  }

  /** A line ends at the first boundary; a carriage return takes the line feed after it along. */
  lemma SplitAtBreak(line: string, c: char, rest: string)
    requires OneLine(line) && IsLineBreak(c)
    ensures SplitLines(line + [c] + rest) ==
      [line] + SplitLines(if c == '\r' && rest != "" && rest[0] == '\n' then rest[1..] else rest)
  {
    var text, n := line + [c] + rest, |line|;
    LineLengthAt(line, c, rest);
    assert text[..n] == line && text[n] == c && text[n + 1..] == rest;
    assert rest != "" ==> text[n + 1] == rest[0] && text[n + 2..] == rest[1..];
  }

  lemma {:induction false} NoBreakLength(line: string)
    requires OneLine(line)
    ensures LineLength(line) == |line|
  {
    if line != [] {
      assert line[0] in line;
      NoBreakLength(line[1..]);
    }
  }

  /** The last line needs no boundary. */
  lemma SplitLastLine(line: string)
    requires OneLine(line) && line != ""
    ensures SplitLines(line) == [line]
  {
    NoBreakLength(line);
    assert line[..|line|] == line;
  }

  // ---- Paths ----

  function Split(s: string): (parts: seq<string>)
    ensures parts != [] && forall p | p in parts :: '/' !in p
  {
    if s == [] then [""]
    else if s[0] == '/' then [""] + Split(s[1..])
    else
      var rest := Split(s[1..]);
      [[s[0]] + rest[0]] + rest[1..]
  }

  function Join(parts: seq<string>): string
    requires parts != []
  {
    if |parts| == 1 then parts[0] else parts[0] + "/" + Join(parts[1..])
  }

  /** A path component that is neither empty nor a step to this or the parent directory. */
  predicate IsName(part: string) { part != "" && part != "." && part != ".." && '/' !in part }

  predicate IsSafe(c: char) { !IsLineBreak(c) && c as int != 0 && c != '\\' }

  /** A relative path in normal form that fits on one line. */
  predicate Clean(path: string) {
    (forall part | part in Split(path) :: IsName(part)) && forall c | c in path :: IsSafe(c)
  }

  /** The components of a path, without empty ones and single dots. */
  function Named(parts: seq<string>): (r: seq<string>)
    ensures forall p | p in r :: p in parts && p != "" && p != "."
  {
    if parts == [] then []
    else (if parts[0] == "" || parts[0] == "." then [] else [parts[0]]) + Named(parts[1..])
  }

  /** The normal form of a relative path; nothing for empty, absolute and escaping paths. */
  function Normalize(raw: string): Option<string> {
    if raw == [] || '\\' in raw || (exists c | c in raw :: c as int == 0) || raw[0] == '/' then None
    else
      var parts := Named(Split(raw));
      if parts == [] || ".." in parts then None else Some(Join(parts))
  }

  lemma {:induction false} NamesAreKept(parts: seq<string>)
    requires forall p | p in parts :: IsName(p)
    ensures Named(parts) == parts
  {
    if parts != [] {
      assert parts[0] in parts;
      NamesAreKept(parts[1..]);
      assert [parts[0]] + parts[1..] == parts;
    }
  }

  lemma {:induction false} JoinOfSplit(s: string)
    ensures Join(Split(s)) == s
  {
    if s != [] {
      JoinOfSplit(s[1..]);
      var rest := Split(s[1..]);
      if s[0] == '/' {
        assert Split(s)[1..] == rest;
      } else if |rest| > 1 {
        assert Split(s)[1..] == rest[1..];
      }
    }
  }

  lemma {:induction false} SplitOfPart(part: string, rest: string)
    requires '/' !in part
    ensures Split(part + "/" + rest) == [part] + Split(rest)
    ensures Split(part) == [part]
  {
    var s := part + "/" + rest;
    if part != [] {
      assert s[0] == part[0] && part[0] in part;
      assert s[1..] == part[1..] + "/" + rest;
      SplitOfPart(part[1..], rest);
      assert [part[0]] + part[1..] == part;
    } else {
      assert s[1..] == rest;
    }
  }

  lemma {:induction false} SplitOfJoin(parts: seq<string>)
    requires parts != [] && forall p | p in parts :: '/' !in p
    ensures Split(Join(parts)) == parts
  {
    SplitOfPart(parts[0], if |parts| == 1 then "" else Join(parts[1..]));
    if |parts| > 1 {
      SplitOfJoin(parts[1..]);
      assert [parts[0]] + parts[1..] == parts;
    } else {
      assert [parts[0]] == parts;
    }
  }

  lemma {:induction false} JoinIsMadeOfParts(parts: seq<string>, c: char)
    requires parts != [] && c in Join(parts)
    ensures c == '/' || exists p | p in parts :: c in p
  {
    if |parts| > 1 {
      if c in parts[0] {
        assert parts[0] in parts;
      } else if c != '/' {
        JoinIsMadeOfParts(parts[1..], c);
      }
    } else {
      assert parts[0] in parts;
    }
  }

  lemma {:induction false} SplitIsPartOf(s: string, p: string, c: char)
    requires p in Split(s) && c in p
    ensures c in s
  {
    if s != [] {
      var rest := Split(s[1..]);
      if p in rest {
        SplitIsPartOf(s[1..], p, c);
      } else if s[0] != '/' {
        assert p == [s[0]] + rest[0];
        if c in rest[0] {
          SplitIsPartOf(s[1..], rest[0], c);
        }
      }
    }
  }

  lemma CleanIsNormal(path: string)
    requires Clean(path)
    ensures Normalize(path) == Some(path)
  {
    JoinOfSplit(path);
    var parts := Split(path);
    NamesAreKept(parts);
    FirstPart(path);
    assert parts[0] in parts;
  }

  lemma FirstPart(s: string)
    ensures Split(s)[0] == "" <==> s == [] || s[0] == '/'
  {
  }

  lemma NormalIsClean(raw: string)
    requires OneLine(raw) && Normalize(raw).Some?
    ensures Clean(Normalize(raw).value)
  {
    var parts := Named(Split(raw));
    var path := Join(parts);
    SplitOfJoin(parts);
    forall c | c in path ensures IsSafe(c) {
      JoinIsMadeOfParts(parts, c);
      if c != '/' {
        var p :| p in parts && c in p;
        SplitIsPartOf(raw, p, c);
      }
    }
  }

  /** A path below a clean path is itself clean, and so is the part below the directory. */
  lemma {:induction false} CleanBelow(base: string, rel: string)
    requires forall part | part in Split(base) :: IsName(part)
    requires forall c | c in base :: IsSafe(c)
    ensures Clean(base + "/" + rel) <==> Clean(rel)
    decreases |Split(base)|
  {
    SplitBelow(Split(base), rel);
    JoinOfSplit(base);
    var path := base + "/" + rel;
    assert Split(path) == Split(base) + Split(rel);
    assert Clean(rel) ==> forall part | part in Split(path) :: IsName(part);
    assert (forall part | part in Split(path) :: IsName(part)) ==> forall part | part in Split(rel) :: IsName(part) by {
      assert forall part | part in Split(rel) :: part in Split(path);
    }
    assert forall c | c in rel :: c in path;
  }

  lemma JoinBelow(parts: seq<string>, rel: string)
    requires |parts| > 1
    ensures Join(parts) + "/" + rel == parts[0] + "/" + (Join(parts[1..]) + "/" + rel)
  {
    var head, tail := parts[0], Join(parts[1..]);
    assert (head + "/" + tail) + "/" + rel == head + "/" + (tail + "/" + rel);
  }

  lemma SplitFirst(head: string, tail: string, rest: seq<string>, whole: string)
    requires '/' !in head && Split(tail) == rest && whole == head + "/" + tail
    ensures Split(whole) == [head] + rest
  {
    SplitOfPart(head, tail);
  }

  lemma {:induction false} SplitBelow(parts: seq<string>, rel: string)
    requires parts != [] && forall p | p in parts :: '/' !in p
    ensures Split(Join(parts) + "/" + rel) == parts + Split(rel)
  {
    if |parts| == 1 {
      SplitOfPart(parts[0], rel);
      assert [parts[0]] == parts;
    } else {
      JoinBelow(parts, rel);
      SplitBelow(parts[1..], rel);
      SplitFirst(parts[0], Join(parts[1..]) + "/" + rel, parts[1..] + Split(rel), Join(parts) + "/" + rel);
      assert [parts[0]] + (parts[1..] + Split(rel)) == parts + Split(rel);
    }
  }

  // ---- Entries ----

  function ParseLine(line: string): Result<Entry> {
    if |line| <= 66 || !IsDigest(line[..64]) || line[64..66] != "  " then Err("manifest_line_invalid")
    else
      match Normalize(line[66..])
      case None => Err("unsafe_relative_path")
      case Some(path) => Ok(Entry(line[..64], path))
  }

  const HEX := "0123456789abcdef"

  /** The raw path is relative, POSIX, does not climb, and names something. */
  ghost predicate SafePath(raw: string) {
    && raw != "" && raw[0] != '/' && (forall c | c in raw :: c != '\\' && c as int != 0) && ".." !in Split(raw)
    && exists part :: part in Split(raw) && part != "" && part != "."
  }

  lemma {:induction false} NamedAre(parts: seq<string>, p: string)
    ensures p in Named(parts) <==> p in parts && p != "" && p != "."
  {
    if parts != [] {
      NamedAre(parts[1..], p);
      assert parts == [parts[0]] + parts[1..];
    }
  }

  lemma NormalizeIsExact(raw: string)
    ensures Normalize(raw).Some? <==> SafePath(raw)
    ensures Normalize(raw).Some? ==>
      forall part :: part in Split(Normalize(raw).value) <==> part in Split(raw) && part != "" && part != "."
  {
    var named := Named(Split(raw));
    forall p ensures p in named <==> p in Split(raw) && p != "" && p != "." {
      NamedAre(Split(raw), p);
    }
    if SafePath(raw) {
      var part :| part in Split(raw) && part != "" && part != ".";
      assert part in named;
    }
    if named != [] {
      assert named[0] in named;
      SplitOfJoin(named);
    }
  }

  /** A line is read exactly when it is a lower-case digest, two spaces and a safe path. */
  lemma LineIsExact(line: string)
    ensures ParseLine(line).Ok? <==>
      && |line| > 66 && (forall i | 0 <= i < 64 :: line[i] in HEX) && line[64] == ' ' && line[65] == ' ' && SafePath(line[66..])
    ensures ParseLine(line).Ok? ==>
      ParseLine(line).value.digest == line[..64] && Some(ParseLine(line).value.path) == Normalize(line[66..])
  {
    forall c ensures c in HEX <==> '0' <= c <= '9' || 'a' <= c <= 'f' {
      HexDigits(c);
    }
    if |line| > 66 {
      NormalizeIsExact(line[66..]);
      assert line[64..66] == [line[64]] + [line[65]];
      assert forall i | 0 <= i < 64 :: line[i] in line[..64];
    }
  }

  lemma HexDigits(c: char)
    ensures c in HEX <==> '0' <= c <= '9' || 'a' <= c <= 'f'
  {
    if '0' <= c <= '9' {
      assert HEX[c as int - '0' as int] == c;
    } else if 'a' <= c <= 'f' {
      assert HEX[c as int - 'a' as int + 10] == c;
    }
  }

  function ParseEntries(lines: seq<string>): (r: Result<seq<Entry>>)
    ensures r.Ok? ==> |r.value| == |lines|
  {
    if lines == [] then Ok([])
    else
      var earlier := ParseEntries(lines[..|lines| - 1]);
      if earlier.Err? then earlier else
      var last := ParseLine(lines[|lines| - 1]);
      if last.Err? then Err(last.reason)
      else if exists e | e in earlier.value :: e.path == last.value.path then Err("manifest_duplicate_path")
      else Ok(earlier.value + [last.value])
  }

  predicate SortedPaths(es: seq<Entry>) {
    forall i | 0 < i < |es| :: Less(es[i - 1].path, es[i].path)
  }

  function ParseText(text: string): Result<seq<Entry>> {
    var es := ParseEntries(SplitLines(text));
    if es.Err? then es
    else if es.value == [] then Err("manifest_empty")
    else if !SortedPaths(es.value) then Err("manifest_not_sorted")
    else es
  }

  /** The entries are those of the lines, in their order. */
  ghost predicate EntriesAre(lines: seq<string>, es: seq<Entry>) {
    |es| == |lines| && forall i | 0 <= i < |lines| :: ParseLine(lines[i]) == Ok(es[i])
  }

  ghost predicate PathsDiffer(es: seq<Entry>) { forall i, j | 0 <= i < j < |es| :: es[i].path != es[j].path }

  lemma {:induction false} EntriesAreExact(lines: seq<string>, es: seq<Entry>)
    ensures ParseEntries(lines) == Ok(es) <==> EntriesAre(lines, es) && PathsDiffer(es)
  {
    if lines != [] {
      var n := |lines| - 1;
      var init := lines[..n];
      if |es| == n + 1 {
        EntriesAreExact(init, es[..n]);
        assert es == es[..n] + [es[n]];
      }
      if ParseEntries(init).Ok? {
        EntriesAreExact(init, ParseEntries(init).value);
      }
    }
  }

  /**
   A manifest is accepted exactly when it has a line, every line can be read, and the paths increase;
   its entries are those of its lines.
   */
  lemma ParseTextIsExact(text: string, es: seq<Entry>)
    ensures ParseText(text) == Ok(es) <==>
      && es != [] && EntriesAre(SplitLines(text), es) && PathsDiffer(es)
      && forall i | 0 < i < |es| :: Less(es[i - 1].path, es[i].path)
  {
    EntriesAreExact(SplitLines(text), es);
    if ParseEntries(SplitLines(text)).Ok? {
      EntriesAreExact(SplitLines(text), ParseEntries(SplitLines(text)).value);
    }
  }

  function LineOf(e: Entry): string { e.digest + "  " + e.path }

  /** The text written for `es`: the lines joined by line feeds, with one at the end. */
  function ManifestText(es: seq<Entry>): string {
    if es == [] then "" else LineOf(es[0]) + "\n" + ManifestText(es[1..])
  }

  predicate CleanEntry(e: Entry) { IsDigest(e.digest) && Clean(e.path) }

  ghost predicate CleanEntries(es: seq<Entry>) {
    es != [] && SortedPaths(es) && forall e | e in es :: CleanEntry(e)
  }

  lemma CleanLine(e: Entry)
    requires CleanEntry(e)
    ensures OneLine(LineOf(e)) && ParseLine(LineOf(e)) == Ok(e)
  {
    var line := LineOf(e);
    CleanIsNormal(e.path);
    assert line[..64] == e.digest && line[64..66] == "  " && line[66..] == e.path;
  }

  function LinesOf(es: seq<Entry>): (lines: seq<string>)
    ensures |lines| == |es| && forall i | 0 <= i < |es| :: lines[i] == LineOf(es[i])
  {
    if es == [] then [] else [LineOf(es[0])] + LinesOf(es[1..])
  }

  lemma {:induction false} SplitManifest(es: seq<Entry>)
    requires forall e | e in es :: CleanEntry(e)
    ensures SplitLines(ManifestText(es)) == LinesOf(es)
  {
    if es != [] {
      CleanLine(es[0]);
      SplitFirstLine(LineOf(es[0]), ManifestText(es[1..]));
      SplitManifest(es[1..]);
    }
  }

  lemma PathsIncrease(es: seq<Entry>, i: nat, j: nat)
    requires SortedPaths(es) && i < j < |es|
    ensures Less(es[i].path, es[j].path) && es[i].path != es[j].path
  {
    if i < j - 1 {
      PathsIncrease(es, i, j - 1);
      LessIsTransitive(es[i].path, es[j - 1].path, es[j].path);
    }
    LessIsIrreflexive(es[j].path);
  }

  lemma LastPathIsNew(es: seq<Entry>)
    requires es != [] && SortedPaths(es)
    ensures forall e | e in es[..|es| - 1] :: e.path != es[|es| - 1].path
  {
    var n := |es| - 1;
    forall e | e in es[..n] ensures e.path != es[n].path {
      var i :| 0 <= i < n && es[i] == e;
      PathsIncrease(es, i, n);
    }
  }

  lemma ParseOneMore(lines: seq<string>, es: seq<Entry>, line: string, e: Entry)
    requires ParseEntries(lines) == Ok(es) && ParseLine(line) == Ok(e) && forall x | x in es :: x.path != e.path
    ensures ParseEntries(lines + [line]) == Ok(es + [e])
  {
    assert (lines + [line])[..|lines|] == lines;
  }

  lemma {:induction false} ParseLines(es: seq<Entry>)
    requires SortedPaths(es) && forall e | e in es :: CleanEntry(e)
    ensures ParseEntries(LinesOf(es)) == Ok(es)
  {
    if es != [] {
      var n := |es| - 1;
      var init, last := es[..n], es[n];
      assert es == init + [last] && last in es;
      assert LinesOf(es) == LinesOf(init) + [LineOf(last)];
      LastPathIsNew(es);
      CleanLine(last);
      ParseLines(init);
      ParseOneMore(LinesOf(init), init, LineOf(last), last);
    }
  }

  /** A manifest printed for clean, sorted entries parses back to exactly those entries. */
  lemma PrintThenParse(es: seq<Entry>)
    requires CleanEntries(es)
    ensures ParseText(ManifestText(es)) == Ok(es)
  {
    SplitManifest(es);
    ParseLines(es);
  }

  lemma {:induction false} ParsedLinesAreClean(lines: seq<string>)
    requires (forall line | line in lines :: OneLine(line)) && ParseEntries(lines).Ok?
    ensures forall e | e in ParseEntries(lines).value :: CleanEntry(e)
  {
    if lines != [] {
      var n := |lines| - 1;
      ParsedLinesAreClean(lines[..n]);
      assert lines[n] in lines;
      NormalIsClean(lines[n][66..]);
    }
  }

  /** Whatever text a manifest has, if it parses then its entries are clean and sorted. */
  lemma ParsedIsClean(text: string)
    requires ParseText(text).Ok?
    ensures CleanEntries(ParseText(text).value)
  {
    ParsedLinesAreClean(SplitLines(text));
  }

  /** The parsing loop of the verifier. */
  method ParseManifest(text: string) returns (r: Result<seq<Entry>>)
    ensures r == ParseText(text)
    ensures r.Ok? ==> CleanEntries(r.value)
  {
    var lines := SplitLines(text);
    var entries: seq<Entry> := [];
    var seen: set<string> := {};
    for n := 0 to |lines|
      invariant ParseEntries(lines[..n]) == Ok(entries)
      invariant seen == set e | e in entries :: e.path
    {
      ParseNext(lines, n, entries);
      var parsed := ParseLine(lines[n]);
      if parsed.Err? {
        FailureSticks(lines, n + 1);
        return Err(parsed.reason);
      }
      if parsed.value.path in seen {
        FailureSticks(lines, n + 1);
        return Err("manifest_duplicate_path");
      }
      seen := seen + {parsed.value.path};
      entries := entries + [parsed.value];
    }
    assert lines[..|lines|] == lines;
    if entries == [] {
      return Err("manifest_empty");
    }
    if !SortedPaths(entries) {
      return Err("manifest_not_sorted");
    }
    ParsedIsClean(text);
    return Ok(entries);
  }

  lemma ParseNext(lines: seq<string>, n: nat, entries: seq<Entry>)
    requires n < |lines| && ParseEntries(lines[..n]) == Ok(entries)
    ensures var one := ParseLine(lines[n]);
      ParseEntries(lines[..n + 1]) ==
        if one.Err? then Err(one.reason)
        else if one.value.path in (set e | e in entries :: e.path) then Err("manifest_duplicate_path")
        else Ok(entries + [one.value])
  {
    assert lines[..n + 1][..n] == lines[..n];
  }

  lemma {:induction false} FailureSticks(lines: seq<string>, n: nat)
    requires n <= |lines| && ParseEntries(lines[..n]).Err?
    ensures ParseEntries(lines) == ParseEntries(lines[..n])
    decreases |lines| - n
  {
    if n < |lines| {
      assert lines[..n + 1][..n] == lines[..n];
      FailureSticks(lines, n + 1);
    } else {
      assert lines[..n] == lines;
    }
  }
}

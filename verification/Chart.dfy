/** Which embedded chart archive is used: the newest by semantic-version precedence. */
module Chart {
  import opened Text
  import opened Json

  // ---- precedence, section 11 of Semantic Versioning 2.0.0 ----

  datatype Identifier = Numeric(n: nat) | Alpha(s: string)

  /** Build metadata has no part in precedence. */
  datatype Version = Version(major: nat, minor: nat, patch: nat, pre: seq<Identifier>)

  function CompareNat(a: nat, b: nat): int { if a < b then -1 else if a > b then 1 else 0 }

  function CompareIdentifier(a: Identifier, b: Identifier): int {
    match (a, b)
    case (Numeric(m), Numeric(n)) => CompareNat(m, n)
    case (Numeric(_), Alpha(_)) => -1
    case (Alpha(_), Numeric(_)) => 1
    case (Alpha(s), Alpha(t)) => if s == t then 0 else if LexLeq(s, t) then -1 else 1
  }

  /** Identifier by identifier; when one list runs out first, it is the lower one. */
  function CompareLists(a: seq<Identifier>, b: seq<Identifier>): int {
    if a == [] && b == [] then 0
    else if a == [] then -1
    else if b == [] then 1
    else if CompareIdentifier(a[0], b[0]) != 0 then CompareIdentifier(a[0], b[0])
    else CompareLists(a[1..], b[1..])
  }

  /** A version without pre-release part ranks above all its pre-releases. */
  function ComparePre(a: seq<Identifier>, b: seq<Identifier>): int {
    if a == b then 0 else if a == [] then 1 else if b == [] then -1 else CompareLists(a, b)
  }

  function Compare(a: Version, b: Version): int {
    if a.major != b.major then CompareNat(a.major, b.major)
    else if a.minor != b.minor then CompareNat(a.minor, b.minor)
    else if a.patch != b.patch then CompareNat(a.patch, b.patch)
    else ComparePre(a.pre, b.pre)
  }

  lemma IdentifierOrder(a: Identifier, b: Identifier, c: Identifier)
    ensures CompareIdentifier(a, b) == -CompareIdentifier(b, a)
    ensures CompareIdentifier(a, b) == 0 <==> a == b
    ensures CompareIdentifier(a, b) <= 0 && CompareIdentifier(b, c) <= 0 ==> CompareIdentifier(a, c) <= 0
  {
    if a.Alpha? && b.Alpha? {
      LexTotal(a.s, b.s);
      if LexLeq(a.s, b.s) && LexLeq(b.s, a.s) { LexAntisymmetric(a.s, b.s); }
      if c.Alpha? && LexLeq(a.s, b.s) && LexLeq(b.s, c.s) { LexTransitive(a.s, b.s, c.s); }
    }
  }

  lemma {:induction false} ListOrder(a: seq<Identifier>, b: seq<Identifier>, c: seq<Identifier>)
    ensures CompareLists(a, b) == -CompareLists(b, a)
    ensures CompareLists(a, b) == 0 <==> a == b
    ensures CompareLists(a, b) <= 0 && CompareLists(b, c) <= 0 ==> CompareLists(a, c) <= 0
  {
    if a != [] && b != [] {
      IdentifierOrder(a[0], b[0], if c != [] then c[0] else a[0]);
      if c != [] {
        IdentifierOrder(b[0], c[0], a[0]);
        IdentifierOrder(c[0], a[0], b[0]);
      }
      ListOrder(a[1..], b[1..], if c != [] then c[1..] else []);
      assert a == [a[0]] + a[1..] && b == [b[0]] + b[1..];
    }
  }

  /** Precedence is a total order on versions: antisymmetric up to sign, total, transitive. */
  lemma PrecedenceIsTotalOrder(a: Version, b: Version, c: Version)
    ensures Compare(a, b) == -Compare(b, a)
    ensures Compare(a, b) == 0 <==> a == b
    ensures Compare(a, b) <= 0 && Compare(b, c) <= 0 ==> Compare(a, c) <= 0
  {
    ListOrder(a.pre, b.pre, c.pre);
    ListOrder(a.pre, c.pre, b.pre);
    ListOrder(b.pre, c.pre, a.pre);
  }

  // ---- what the comparison means ----

  /** Alphabetical order: the first difference decides, and a proper prefix is lower. */
  ghost predicate LowerText(s: string, t: string) {
    exists k :: 0 <= k <= |s| && k <= |t| && s[..k] == t[..k]
                && ((k == |s| < |t|) || (k < |s| && k < |t| && s[k] < t[k]))
  }

  /** Numbers by value, below texts in alphabetical order. */
  ghost predicate LowerIdentifier(a: Identifier, b: Identifier) {
    match a
    case Numeric(m) => b.Alpha? || m < b.n
    case Alpha(s) => b.Alpha? && LowerText(s, b.s)
  }

  /** The first differing identifier decides, and a proper prefix is lower. */
  ghost predicate LowerList(a: seq<Identifier>, b: seq<Identifier>) {
    exists k :: 0 <= k <= |a| && k <= |b| && a[..k] == b[..k]
                && ((k == |a| < |b|) || (k < |a| && k < |b| && LowerIdentifier(a[k], b[k])))
  }

  /** Precedence as the standard puts it: numbers first, then a release above its pre-releases. */
  ghost predicate Lower(a: Version, b: Version) {
    || a.major < b.major
    || (a.major == b.major && a.minor < b.minor)
    || (a.major == b.major && a.minor == b.minor && a.patch < b.patch)
    || (a.major == b.major && a.minor == b.minor && a.patch == b.patch
        && a.pre != [] && (b.pre == [] || LowerList(a.pre, b.pre)))
  }

  lemma {:induction false} LexMeans(s: string, t: string)
    ensures s != t && LexLeq(s, t) <==> LowerText(s, t)
  {
    if s == [] || t == [] {
      if s == [] && t != [] { assert s[..0] == t[..0]; }
    } else if s[0] != t[0] {
      assert s[..0] == t[..0];
      forall k | 0 < k <= |s| && k <= |t| ensures s[..k] != t[..k] {
        assert s[..k][0] == s[0] && t[..k][0] == t[0];
      }
    } else {
      LexMeans(s[1..], t[1..]);
      assert s == [s[0]] + s[1..] && t == [t[0]] + t[1..];
      if LowerText(s[1..], t[1..]) {
        var k :| 0 <= k <= |s[1..]| && k <= |t[1..]| && s[1..][..k] == t[1..][..k]
                 && ((k == |s[1..]| < |t[1..]|) || (k < |s[1..]| && k < |t[1..]| && s[1..][k] < t[1..][k]));
        assert s[..k + 1] == [s[0]] + s[1..][..k] && t[..k + 1] == [t[0]] + t[1..][..k];
      }
      if LowerText(s, t) {
        var k :| 0 <= k <= |s| && k <= |t| && s[..k] == t[..k]
                 && ((k == |s| < |t|) || (k < |s| && k < |t| && s[k] < t[k]));
        assert k > 0;
        assert s[1..][..k - 1] == s[..k][1..] && t[1..][..k - 1] == t[..k][1..];
        assert k < |s| ==> s[1..][k - 1] == s[k];
        assert k < |t| ==> t[1..][k - 1] == t[k];
      }
    }
  }

  lemma IdentifierMeans(a: Identifier, b: Identifier)
    ensures CompareIdentifier(a, b) < 0 <==> LowerIdentifier(a, b)
  {
    hide LowerText;
    if a.Alpha? && b.Alpha? { LexMeans(a.s, b.s); }
  }

  lemma {:induction false} ListMeans(a: seq<Identifier>, b: seq<Identifier>)
    ensures CompareLists(a, b) < 0 <==> LowerList(a, b)
  {
    hide LowerIdentifier;
    if a == [] || b == [] {
      if a == [] && b != [] { assert a[..0] == b[..0]; }
    } else {
      IdentifierMeans(a[0], b[0]);
      IdentifierOrder(a[0], b[0], a[0]);
      if a[0] != b[0] {
        FirstDecides(a, b);
      } else {
        ListMeans(a[1..], b[1..]);
        TailDecides(a, b);
      }
    }
  }

  lemma FirstDecides(a: seq<Identifier>, b: seq<Identifier>)
    requires a != [] && b != [] && a[0] != b[0]
    ensures LowerList(a, b) <==> LowerIdentifier(a[0], b[0])
  {
    assert a[..0] == b[..0];
    forall k | 0 < k <= |a| && k <= |b| ensures a[..k] != b[..k] {
      assert a[..k][0] == a[0] && b[..k][0] == b[0];
    }
  }

  lemma TailDecides(a: seq<Identifier>, b: seq<Identifier>)
    requires a != [] && b != [] && a[0] == b[0]
    ensures LowerList(a, b) <==> LowerList(a[1..], b[1..])
  {
    hide LowerIdentifier;
    var s, t := a[1..], b[1..];
    if LowerList(s, t) {
      var k :| 0 <= k <= |s| && k <= |t| && s[..k] == t[..k]
               && ((k == |s| < |t|) || (k < |s| && k < |t| && LowerIdentifier(s[k], t[k])));
      assert a[..k + 1] == [a[0]] + s[..k] && b[..k + 1] == [b[0]] + t[..k];
      assert k < |s| ==> a[k + 1] == s[k];
      assert k < |t| ==> b[k + 1] == t[k];
    }
    if LowerList(a, b) {
      var k :| 0 <= k <= |a| && k <= |b| && a[..k] == b[..k]
               && ((k == |a| < |b|) || (k < |a| && k < |b| && LowerIdentifier(a[k], b[k])));
      if k == 0 {
        IdentifierMeans(a[0], b[0]);
        IdentifierOrder(a[0], b[0], a[0]);
        assert false;
      } else {
        assert s[..k - 1] == a[..k][1..] && t[..k - 1] == b[..k][1..];
        assert k < |a| ==> s[k - 1] == a[k];
        assert k < |b| ==> t[k - 1] == b[k];
      }
    }
  }

  /** The comparison used is the standard's precedence, for all versions. */
  lemma CompareMeansPrecedence(a: Version, b: Version)
    ensures Compare(a, b) < 0 <==> Lower(a, b)
    ensures Compare(a, b) > 0 <==> Lower(b, a)
  {
    hide LowerList;
    ListMeans(a.pre, b.pre);
    ListMeans(b.pre, a.pre);
    ListOrder(a.pre, b.pre, a.pre);
  }

  /** The worked chain of section 11.4 of the standard, and the release above its pre-releases. */
  lemma PrecedenceExamples()
    ensures var v := (pre: seq<Identifier>) => Version(1, 0, 0, pre);
            && Compare(v([Alpha("alpha")]), v([Alpha("alpha"), Numeric(1)])) < 0
            && Compare(v([Alpha("alpha"), Numeric(1)]), v([Alpha("alpha"), Alpha("beta")])) < 0
            && Compare(v([Alpha("alpha"), Alpha("beta")]), v([Alpha("beta")])) < 0
            && Compare(v([Alpha("beta")]), v([Alpha("beta"), Numeric(2)])) < 0
            && Compare(v([Alpha("beta"), Numeric(2)]), v([Alpha("beta"), Numeric(11)])) < 0
            && Compare(v([Alpha("beta"), Numeric(11)]), v([Alpha("rc"), Numeric(1)])) < 0
            && Compare(v([Alpha("rc"), Numeric(1)]), v([])) < 0
  {
    var a, b, r: Identifier := Alpha("alpha"), Alpha("beta"), Alpha("rc");
    assert [a, Numeric(1)][1..] == [Numeric(1)] && [a, b][1..] == [b] && [a][1..] == [];
    assert [b, Numeric(2)][1..] == [Numeric(2)] && [b, Numeric(11)][1..] == [Numeric(11)] && [b][1..] == [];
  }

  // ---- choosing the file ----

  datatype DirEntry = DirEntry(name: string, isDir: bool)

  datatype Candidate = Candidate(name: string, version: Version)

  const CHART_PREFIX := "gpu-operator-"
  const CHART_SUFFIX := ".tgz"

  predicate HasSuffix(s: string, suffix: string) {
    |s| >= |suffix| && s[|s| - |suffix|..] == suffix
  }

  function VersionFromFilename(name: string): string {
    var n := if CHART_PREFIX <= name then name[|CHART_PREFIX|..] else name;
    if HasSuffix(n, CHART_SUFFIX) then n[..|n| - |CHART_SUFFIX|] else n
  }

  lemma VersionReadsBack(version: string)
    ensures VersionFromFilename("gpu-operator-" + version + ".tgz") == version
    ensures !("gpu-operator-" <= version + ".tgz") ==> VersionFromFilename(version + ".tgz") == version
  {
    var name := CHART_PREFIX + version + CHART_SUFFIX;
    assert name[..|CHART_PREFIX|] == CHART_PREFIX;
    assert name[|CHART_PREFIX|..] == version + CHART_SUFFIX;
    assert (version + CHART_SUFFIX)[|version|..] == CHART_SUFFIX;
  }

  /** The semantic-version parser is a parameter; None is its error. */
  type Parser = string -> Option<Version>

  function CandidateOf(e: DirEntry, parse: Parser): seq<Candidate> {
    if e.isDir || !HasSuffix(e.name, CHART_SUFFIX) then []
    else match parse(VersionFromFilename(e.name))
      case None => []
      case Some(v) => [Candidate(e.name, v)]
  }

  function Candidates(entries: seq<DirEntry>, parse: Parser): seq<Candidate> {
    if entries == [] then []
    else Candidates(entries[..|entries| - 1], parse) + CandidateOf(entries[|entries| - 1], parse)
  }

  predicate Newer(a: Candidate, b: Candidate) { Compare(a.version, b.version) > 0 }

  /** One step of the sort: the new element moves left past all older ones. */
  function InsertNewest(sorted: seq<Candidate>, x: Candidate): (r: seq<Candidate>)
    ensures |r| == |sorted| + 1
  {
    if sorted == [] || !Newer(x, sorted[|sorted| - 1]) then sorted + [x]
    else InsertNewest(sorted[..|sorted| - 1], x) + [sorted[|sorted| - 1]]
  }

  function NewestFirst(cs: seq<Candidate>): (r: seq<Candidate>)
    ensures |r| == |cs|
  {
    if cs == [] then [] else InsertNewest(NewestFirst(cs[..|cs| - 1]), cs[|cs| - 1])
  }

  /** The sort's inner loop: element i moves left into the sorted part before it. */
  method MoveLeft(a: array<Candidate>, i: nat)
    requires i < a.Length
    modifies a
    ensures a[..i + 1] == InsertNewest(old(a[..i]), old(a[i]))
    ensures a[i + 1..] == old(a[i + 1..])
  {
    hide Compare;
    ghost var sorted, x, rest := a[..i], a[i], a[i + 1..];
    var j := i;
    assert sorted[..i] == sorted;
    while j > 0 && Newer(a[j], a[j - 1])
      invariant 0 <= j <= i && a[j] == x
      invariant forall k | 0 <= k < j :: a[k] == sorted[k]
      invariant forall k | j < k <= i :: a[k] == sorted[k - 1]
      invariant a[i + 1..] == rest
      invariant InsertNewest(sorted, x) == InsertNewest(sorted[..j], x) + sorted[j..]
    {
      InsertStep(sorted, j, x);
      a[j], a[j - 1] := a[j - 1], a[j];
      j := j - 1;
    }
    assert InsertNewest(sorted[..j], x) == sorted[..j] + [x];
    assert a[..i + 1] == sorted[..j] + [x] + sorted[j..];
  }

  lemma InsertStep(sorted: seq<Candidate>, j: nat, x: Candidate)
    requires 0 < j <= |sorted| && Newer(x, sorted[j - 1])
    ensures InsertNewest(sorted[..j], x) + sorted[j..] == InsertNewest(sorted[..j - 1], x) + sorted[j - 1..]
  {
    assert sorted[..j][..j - 1] == sorted[..j - 1];
    assert sorted[j - 1..] == [sorted[j - 1]] + sorted[j..];
  }

  /** sort.Slice on the candidates, in place; up to a dozen elements it is this insertion sort. */
  method SortNewestFirst(a: array<Candidate>)
    modifies a
    ensures a[..] == NewestFirst(old(a[..]))
  {
    hide InsertNewest;
    ghost var before := a[..];
    for i := 0 to a.Length
      invariant a[..i] == NewestFirst(before[..i])
      invariant a[i..] == before[i..]
    {
      assert before[..i + 1][..i] == before[..i] && a[i] == a[i..][0] == before[i];
      assert a[i + 1..] == a[i..][1..] == before[i + 1..];
      MoveLeft(a, i);
    }
    assert a[..a.Length] == a[..] && before[..a.Length] == before;
  }

  /** latestChartFilename; None is the error of an empty selection. */
  function LatestChart(entries: seq<DirEntry>, parse: Parser): Option<string> {
    var sorted := NewestFirst(Candidates(entries, parse));
    if sorted == [] then None else Some(sorted[0].name)
  }

  method LatestChartFilename(entries: seq<DirEntry>, parse: Parser) returns (r: Option<string>)
    ensures r == LatestChart(entries, parse)
  {
    var charts: seq<Candidate> := [];
    for i := 0 to |entries|
      invariant charts == Candidates(entries[..i], parse)
    {
      assert entries[..i + 1][..i] == entries[..i];
      var e := entries[i];
      if e.isDir || !HasSuffix(e.name, CHART_SUFFIX) { continue; }
      var sv := parse(VersionFromFilename(e.name));
      if sv.None? { continue; }
      charts := charts + [Candidate(e.name, sv.value)];
    }
    assert entries[..|entries|] == entries;
    if |charts| == 0 { return None; }
    var a := new Candidate[|charts|](i requires 0 <= i < |charts| => charts[i]);
    assert a[..] == charts;
    SortNewestFirst(a);
    return Some(a[0].name);
  }

  lemma {:induction false} InsertNewestHead(sorted: seq<Candidate>, x: Candidate)
    requires forall c | c in sorted :: Compare(sorted[0].version, c.version) >= 0
    ensures var r := InsertNewest(sorted, x);
            && (forall c :: c in r <==> c in sorted || c == x)
            && (forall c | c in r :: Compare(r[0].version, c.version) >= 0)
    decreases |sorted|
  {
    forall c: Candidate ensures Compare(c.version, c.version) == 0 {
      PrecedenceIsTotalOrder(c.version, c.version, c.version);
    }
    if sorted != [] {
      var last, init := sorted[|sorted| - 1], sorted[..|sorted| - 1];
      assert sorted == init + [last];
      PrecedenceIsTotalOrder(x.version, last.version, sorted[0].version);
      PrecedenceIsTotalOrder(x.version, sorted[0].version, last.version);
      if Newer(x, last) {
        InsertNewestHead(init, x);
        var r := InsertNewest(init, x);
        assert r[0] in r && x in r;
        PrecedenceIsTotalOrder(r[0].version, x.version, last.version);
        PrecedenceIsTotalOrder(last.version, x.version, r[0].version);
        PrecedenceIsTotalOrder(r[0].version, last.version, x.version);
      } else {
        assert last in sorted;
        PrecedenceIsTotalOrder(last.version, sorted[0].version, x.version);
      }
    }
  }

  lemma {:induction false} NewestFirstHead(cs: seq<Candidate>)
    ensures var r := NewestFirst(cs);
            && (forall c :: c in r <==> c in cs)
            && (forall c | c in r :: Compare(r[0].version, c.version) >= 0)
  {
    hide Compare, InsertNewest;
    if cs != [] {
      NewestFirstHead(cs[..|cs| - 1]);
      InsertNewestHead(NewestFirst(cs[..|cs| - 1]), cs[|cs| - 1]);
      assert cs == cs[..|cs| - 1] + [cs[|cs| - 1]];
    }
  }

  /** A plain file of the directory whose name ends in .tgz and holds a version that parses. */
  ghost predicate IsCandidate(entries: seq<DirEntry>, parse: Parser, c: Candidate) {
    DirEntry(c.name, false) in entries && |c.name| >= 4 && c.name[|c.name| - 4..] == ".tgz"
    && parse(VersionFromFilename(c.name)) == Some(c.version)
  }

  lemma {:induction false} CandidatesAreParsableArchives(entries: seq<DirEntry>, parse: Parser)
    ensures forall c :: c in Candidates(entries, parse) <==> IsCandidate(entries, parse, c)
  {
    if entries != [] {
      var init, e := entries[..|entries| - 1], entries[|entries| - 1];
      CandidatesAreParsableArchives(init, parse);
      assert entries == init + [e];
      forall c: Candidate
        ensures c in Candidates(entries, parse) <==> IsCandidate(entries, parse, c)
      {
        assert c in CandidateOf(e, parse) <==> IsCandidate([e], parse, c);
      }
    }
  }

  /**
   * The chosen file is a parsable archive of maximal precedence; there is none only if the
   * directory holds no parsable archive. The order of the directory decides nothing but ties.
   */
  lemma LatestChartIsMaximal(entries: seq<DirEntry>, parse: Parser)
    ensures LatestChart(entries, parse).None? <==> !exists c :: IsCandidate(entries, parse, c)
    ensures LatestChart(entries, parse).Some? ==>
              exists v :: IsCandidate(entries, parse, Candidate(LatestChart(entries, parse).value, v))
                && forall c | IsCandidate(entries, parse, c) :: !Lower(v, c.version)
  {
    hide Lower;
    forall a, b ensures Compare(a, b) < 0 <==> Lower(a, b) { CompareMeansPrecedence(a, b); }
    var cs := Candidates(entries, parse);
    CandidatesAreParsableArchives(entries, parse);
    NewestFirstHead(cs);
    var sorted := NewestFirst(cs);
    if sorted != [] {
      assert sorted[0] in sorted;
      assert sorted[0] == Candidate(sorted[0].name, sorted[0].version);
    } else {
      assert forall c :: c !in cs;
    }
  }

  lemma LatestVersionIgnoresOrder(a: seq<DirEntry>, b: seq<DirEntry>, parse: Parser)
    requires forall e :: e in a <==> e in b
    requires LatestChart(a, parse).Some? && LatestChart(b, parse).Some?
    ensures parse(VersionFromFilename(LatestChart(a, parse).value)) ==
            parse(VersionFromFilename(LatestChart(b, parse).value))
  {
    LatestChartIsMaximal(a, parse);
    LatestChartIsMaximal(b, parse);
    var v :| IsCandidate(a, parse, Candidate(LatestChart(a, parse).value, v))
             && forall c | IsCandidate(a, parse, c) :: !Lower(v, c.version);
    var w :| IsCandidate(b, parse, Candidate(LatestChart(b, parse).value, w))
             && forall c | IsCandidate(b, parse, c) :: !Lower(w, c.version);
    assert forall c :: IsCandidate(a, parse, c) <==> IsCandidate(b, parse, c);
    PrecedenceIsTotalOrder(v, w, v);
    CompareMeansPrecedence(v, w);
  }

  // ---- the two callers ----

  /** The embedded directory and the contents of its files. */
  datatype Embedded<Bytes> = Embedded(entries: seq<DirEntry>, files: map<string, Bytes>)

  /** GPUOperatorChart. */
  function ChartBytes<Bytes>(fs: Embedded<Bytes>, parse: Parser): Option<Bytes> {
    match LatestChart(fs.entries, parse)
    case None => None
    case Some(name) => if name in fs.files then Some(fs.files[name]) else None
  }

  /** GPUOperatorChartVersion. */
  function ChartVersion<Bytes>(fs: Embedded<Bytes>, parse: Parser): Option<string> {
    match LatestChart(fs.entries, parse)
    case None => None
    case Some(name) => Some(VersionFromFilename(name))
  }

  /** Bytes and version come from one file, whose version parses and is maximal; the version is never empty. */
  lemma CallersAgree<Bytes>(fs: Embedded<Bytes>, parse: Parser)
    requires forall e | e in fs.entries && !e.isDir :: e.name in fs.files
    requires parse("").None?
    ensures ChartBytes(fs, parse).None? <==> ChartVersion(fs, parse).None?
    ensures ChartVersion(fs, parse).Some? ==> ChartVersion(fs, parse).value != ""
    ensures ChartVersion(fs, parse).Some? ==>
              exists name :: DirEntry(name, false) in fs.entries
                && ChartBytes(fs, parse) == Some(fs.files[name])
                && ChartVersion(fs, parse) == Some(VersionFromFilename(name))
                && parse(VersionFromFilename(name)).Some?
                && forall c | IsCandidate(fs.entries, parse, c) ::
                     !Lower(parse(VersionFromFilename(name)).value, c.version)
  {
    LatestChartIsMaximal(fs.entries, parse);
    if LatestChart(fs.entries, parse).Some? {
      var name := LatestChart(fs.entries, parse).value;
      assert DirEntry(name, false) in fs.entries;
    }
  }
}

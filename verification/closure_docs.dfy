/**
  The Closure-specific indexer: how each anchor of a documentation page is
  classified and named, which document path it gets, and what the index holds
  after a whole run.

  A page is taken as the parser would hand it over: the anchors found under
  `div.fn-constructor` (their first child text and `href`) and the `name`
  attributes of the anchors under `.entry.public`.
 */
module ClosureDocs {
  import opened Wrappers
  import opened Text
  import opened Patterns
  import opened DocSet

  /* ---------------------------------------------------------------------- */
  /* Classifying public anchors                                              */
  /* ---------------------------------------------------------------------- */

  /** The name and type an anchor is indexed under. */
  datatype Classified = Classified(name: string, kind: Kind)

  /**
    First match wins: the method pattern, then the constant pattern, and
    Function otherwise. A method is renamed to group 1, a dot, and group 2;
    every other anchor keeps its name.
   */
  function Classify(anchor: string): (r: Classified)
    ensures r.kind != Class
  {
    match SearchMethod(anchor)
    case Some(m) => Classified(m.group1 + "." + m.group2, Method)
    case None =>
      if MatchesConst(anchor) then Classified(anchor, Const) else Classified(anchor, Function)
  }

  /** The classification in terms of the two patterns, stated without reference to the scans. */
  lemma ClassifyByPatterns(anchor: string)
    ensures var r := Classify(anchor);
      && (r.kind == Method <==> MethodPatternMatches(anchor))
      && (r.kind == Const <==> !MethodPatternMatches(anchor) && ConstPatternMatches(anchor))
      && (r.kind == Function <==> !MethodPatternMatches(anchor) && !ConstPatternMatches(anchor))
      && (r.kind != Method ==> r.name == anchor)
      && (r.kind == Method ==>
            exists e, j :: MethodGroups(anchor, e, j) && r.name == anchor[..e] + "." + anchor[e + |Prototype|..j])
  {
  }

  /** A method match takes precedence: the constant pattern is never consulted. */
  lemma MethodBeatsConst(anchor: string)
    requires MethodPatternMatches(anchor) && ConstPatternMatches(anchor)
    ensures Classify(anchor).kind == Method
  {
    ClassifyByPatterns(anchor);
  }

  /** In `g1.prototype.g2` with `g2` a word, the split after `g1` is the rightmost one. */
  lemma RightmostSplitBeforeWord(g1: string, g2: string)
    requires |g1| > 0 && IsWordChar(g1[|g1| - 1])
    requires |g2| > 0 && forall k :: 0 <= k < |g2| ==> IsWordChar(g2[k])
    ensures IsMethodSplit(g1 + Prototype + g2, |g1|)
    ensures forall e :: IsMethodSplit(g1 + Prototype + g2, e) ==> e <= |g1|
    ensures IsMaximalWordRun(g1 + Prototype + g2, |g1| + |Prototype|, |g1 + Prototype + g2|)
  {
    var s := g1 + Prototype + g2;
    var n := |g1| + |Prototype|;
    assert s[|g1|..n] == Prototype;
    assert forall k :: n <= k < |s| ==> s[k] == g2[k - n];
    // a later split would need a dot ten characters on, inside g2
    forall e | IsMethodSplit(s, e)
      ensures e <= |g1|
    {
      assert s[e + 10] == s[e..e + |Prototype|][10] == '.';
    }
  }

  /**
    For `g1.prototype.g2`, with `g1` ending in a word character and `g2` a word,
    the entry is a Method named `g1.g2`: the `.prototype` segment is dropped,
    whatever `g1` itself contains.
   */
  lemma MethodDropsPrototype(g1: string, g2: string)
    requires |g1| > 0 && IsWordChar(g1[|g1| - 1])
    requires |g2| > 0 && forall k :: 0 <= k < |g2| ==> IsWordChar(g2[k])
    ensures Classify(g1 + Prototype + g2) == Classified(g1 + "." + g2, Method)
  {
    var s := g1 + Prototype + g2;
    var n := |g1| + |Prototype|;
    RightmostSplitBeforeWord(g1, g2);
    ClassifyByPatterns(s);
    var r := Classify(s);
    var e, j :| MethodGroups(s, e, j) && r.name == s[..e] + "." + s[e + |Prototype|..j];
    assert s[..|g1|] == g1;
    assert s[n..|s|] == g2;
  }

  /** With no method match, `prefix.SUFFIX` with `SUFFIX` in `[A-Z_]+` is a Const under its own name. */
  lemma ConstSuffixIsConst(prefix: string, suffix: string)
    requires |suffix| > 0 && forall k :: 0 <= k < |suffix| ==> IsConstChar(suffix[k])
    requires !MethodPatternMatches(prefix + "." + suffix)
    ensures Classify(prefix + "." + suffix) == Classified(prefix + "." + suffix, Const)
  {
    var s := prefix + "." + suffix;
    assert forall k :: |prefix| < k < |s| ==> s[k] == suffix[k - |prefix| - 1];
    assert IsConstSplit(s, |prefix|);
    ClassifyByPatterns(s);
  }

  /**
    `ns.sub.prototype.go` is the Method `ns.sub.go`. The name is passed in as
    its two groups, so the proof is an instance of `MethodDropsPrototype`.
   */
  lemma ExampleMethod(g1: string, g2: string)
    requires g1 == "ns.sub" && g2 == "go"
    ensures Classify(g1 + Prototype + g2) == Classified("ns.sub.go", Method)
  {
    assert IsWordChar(g1[|g1| - 1]);
    assert forall k :: 0 <= k < |g2| ==> IsWordChar(g2[k]);
    MethodDropsPrototype(g1, g2);
  }

  /** `ns.MAX_SIZE` is the Const `ns.MAX_SIZE`. */
  lemma ExampleConst()
    ensures Classify("ns.MAX_SIZE") == Classified("ns.MAX_SIZE", Const)
  {
    var s := "ns.MAX_SIZE";
    assert forall e :: !IsMethodSplit(s, e);
    assert s == "ns" + "." + "MAX_SIZE";
    ConstSuffixIsConst("ns", "MAX_SIZE");
  }

  /** `ns.helper` matches neither pattern and is the Function `ns.helper`. */
  lemma ExampleFunction()
    ensures Classify("ns.helper") == Classified("ns.helper", Function)
  {
  }

  /**
    An upper-case prototype member such as `a.prototype.MAX` matches both
    patterns, and is indexed as the Method `a.MAX`.
   */
  lemma UpperCaseMemberIsMethod(g1: string, g2: string)
    requires |g1| > 0 && IsWordChar(g1[|g1| - 1])
    requires |g2| > 0 && forall k :: 0 <= k < |g2| ==> IsConstChar(g2[k])
    ensures MethodPatternMatches(g1 + Prototype + g2) && ConstPatternMatches(g1 + Prototype + g2)
    ensures Classify(g1 + Prototype + g2) == Classified(g1 + "." + g2, Method)
  {
    var s := g1 + Prototype + g2;
    var n := |g1| + |Prototype|;
    assert forall k :: n <= k < |s| ==> s[k] == g2[k - n];
    assert s[|g1|..n] == Prototype;
    assert s[n - 1] == '.';
    assert IsMethodSplit(s, |g1|);
    assert IsConstSplit(s, n - 1);
    MethodDropsPrototype(g1, g2);
  }

  /* ---------------------------------------------------------------------- */
  /* Document paths                                                          */
  /* ---------------------------------------------------------------------- */

  /** `ClosureDocs.__init__` replaces the store's path format with an `api/` prefix. */
  function ClosureConfig(useOnlineDocs: bool): (c: Config)
    ensures forall p :: StoredPath(c, p) == DocPathPrefix(useOnlineDocs) + "api/" + p
  {
    NewConfig(useOnlineDocs).(format := ApiPrefix)
  }

  /** The in-page location of an anchor: `file_name#anchor`. */
  function AnchorPath(fileName: string, anchor: string): string
  {
    fileName + "#" + anchor
  }

  /** How a viewer reads a location back: the file part up to the first `#`, and the fragment after it. */
  function SplitFragment(p: string): (r: (string, string))
    ensures '#' !in r.0
    ensures '#' in p ==> p == r.0 + "#" + r.1
    ensures '#' !in p ==> r == (p, "")
  {
    if |p| == 0 then ("", "")
    else if p[0] == '#' then ("", p[1..])
    else
      var (f, a) := SplitFragment(p[1..]);
      assert p == [p[0]] + p[1..];
      ([p[0]] + f, a)
  }

  /** A file name without `#` and its anchor are recovered from the location built from them. */
  lemma {:induction false} AnchorPathRoundTrip(fileName: string, anchor: string)
    requires '#' !in fileName
    ensures SplitFragment(AnchorPath(fileName, anchor)) == (fileName, anchor)
  {
    if |fileName| == 0 {
      assert AnchorPath(fileName, anchor) == "#" + anchor;
    } else {
      assert AnchorPath(fileName, anchor)[1..] == AnchorPath(fileName[1..], anchor);
      AnchorPathRoundTrip(fileName[1..], anchor);
      assert fileName == [fileName[0]] + fileName[1..];
    }
  }

  /* ---------------------------------------------------------------------- */
  /* Pages and the run                                                       */
  /* ---------------------------------------------------------------------- */

  /** An anchor under `div.fn-constructor`: its first child text and its `href`. */
  datatype ClassAnchor = ClassAnchor(text: string, href: string)

  /** What the parser finds on one documentation page. */
  datatype Page = Page(constructorAnchors: seq<ClassAnchor>, publicAnchors: seq<string>)

  /** One result of the directory glob. */
  datatype PathEntry = File(fileName: string, page: Page) | Directory(dirName: string)

  /** `find_classes`: one Class per constructor anchor, named by its stripped text, located by its `href`. */
  function FindClasses(page: Page): (calls: seq<AddCall>)
    ensures |calls| == |page.constructorAnchors|
    ensures forall k :: 0 <= k < |calls| ==>
      && calls[k].kind == Class
      && calls[k].docPath == page.constructorAnchors[k].href
      && IsStripOf(page.constructorAnchors[k].text, calls[k].name)
  {
    var a := page.constructorAnchors;
    seq(|a|, k requires 0 <= k < |a| => AddCall(Strip(a[k].text), a[k].href, Class))
  }

  /** `find_functions`: each public anchor, classified, located at `file_name#anchor`. */
  function FindFunctions(fileName: string, page: Page): (calls: seq<AddCall>)
    ensures |calls| == |page.publicAnchors|
    ensures forall k :: 0 <= k < |calls| ==>
      && calls[k].kind != Class
      && calls[k].docPath == AnchorPath(fileName, page.publicAnchors[k])
      && Classified(calls[k].name, calls[k].kind) == Classify(page.publicAnchors[k])
  {
    var a := page.publicAnchors;
    seq(|a|, k requires 0 <= k < |a| =>
      var c := Classify(a[k]); AddCall(c.name, AnchorPath(fileName, a[k]), c.kind))
  }

  /** `parse_soup`: the class scan, then the function scan, over the same page. */
  function ParseSoup(fileName: string, page: Page): (calls: seq<AddCall>)
    ensures |calls| == |page.constructorAnchors| + |page.publicAnchors|
  {
    FindClasses(page) + FindFunctions(fileName, page)
  }

  /** The calls one glob result produces: a file is parsed, a directory is skipped. */
  function EntryCalls(p: PathEntry): (calls: seq<AddCall>)
    ensures p.Directory? ==> calls == []
  {
    match p
    case File(f, page) => ParseSoup(f, page)
    case Directory(_) => []
  }

  /** `parse`: every glob result in order. */
  function ParseAll(paths: seq<PathEntry>): (calls: seq<AddCall>)
    ensures (forall i :: 0 <= i < |paths| ==> paths[i].Directory?) ==> calls == []
    decreases |paths|
  {
    if |paths| == 0 then [] else EntryCalls(paths[0]) + ParseAll(paths[1..])
  }

  /** The store after `with DocSet() as docset: ClosureDocs(docset).parse()`, and the error that escaped, if any. */
  datatype RunResult = RunResult(store: Store, error: Option<StoreError>)

  function Run(useOnlineDocs: bool, prior: Store, paths: seq<PathEntry>): (r: RunResult)
    ensures r.error.None?
    ensures !r.store.connected && r.store.table.Some? && Valid(r.store)
  {
    var cfg := ClosureConfig(useOnlineDocs);
    var out := AddAll(cfg, Enter(prior), ParseAll(paths));
    RunResult(Exit(out.store), out.error)
  }

  /* ---------------------------------------------------------------------- */
  /* What the index holds after a run                                        */
  /* ---------------------------------------------------------------------- */

  /** Row `e` is recorded for a page: for one of its constructor anchors, or for one of its public anchors. */
  ghost predicate PageEmits(cfg: Config, fileName: string, page: Page, e: Entry)
  {
    || (exists k :: 0 <= k < |page.constructorAnchors|
          && e == Entry(Strip(page.constructorAnchors[k].text), Class, StoredPath(cfg, page.constructorAnchors[k].href)))
    || (exists k :: 0 <= k < |page.publicAnchors|
          && e == Entry(Classify(page.publicAnchors[k]).name, Classify(page.publicAnchors[k]).kind,
                        StoredPath(cfg, AnchorPath(fileName, page.publicAnchors[k]))))
  }

  /** Row `e` is recorded for some file among `paths`. */
  ghost predicate RunEmits(cfg: Config, paths: seq<PathEntry>, e: Entry)
  {
    exists i :: 0 <= i < |paths| && paths[i].File? && PageEmits(cfg, paths[i].fileName, paths[i].page, e)
  }

  lemma RequestedAppend(cfg: Config, a: seq<AddCall>, b: seq<AddCall>, e: Entry)
    ensures Requested(cfg, a + b, e) <==> Requested(cfg, a, e) || Requested(cfg, b, e)
  {
    if Requested(cfg, a + b, e) {
      var k :| 0 <= k < |a + b| && EntryOf(cfg, (a + b)[k]) == e;
      if k >= |a| {
        assert b[k - |a|] == (a + b)[k];
      }
    }
    if Requested(cfg, a, e) {
      var k :| 0 <= k < |a| && EntryOf(cfg, a[k]) == e;
      assert (a + b)[k] == a[k];
    }
    if Requested(cfg, b, e) {
      var k :| 0 <= k < |b| && EntryOf(cfg, b[k]) == e;
      assert (a + b)[|a| + k] == b[k];
    }
  }

  /** The calls for one page ask for exactly the rows the page emits. */
  lemma ParseSoupRequests(cfg: Config, fileName: string, page: Page, e: Entry)
    ensures Requested(cfg, ParseSoup(fileName, page), e) <==> PageEmits(cfg, fileName, page, e)
  {
    var cs := FindClasses(page);
    var fs := FindFunctions(fileName, page);
    RequestedAppend(cfg, cs, fs, e);
    if Requested(cfg, cs, e) {
      var k :| 0 <= k < |cs| && EntryOf(cfg, cs[k]) == e;
      StripUnique(page.constructorAnchors[k].text, cs[k].name, Strip(page.constructorAnchors[k].text));
    }
    if Requested(cfg, fs, e) {
      var k :| 0 <= k < |fs| && EntryOf(cfg, fs[k]) == e;
    }
    if exists k :: 0 <= k < |page.constructorAnchors|
          && e == Entry(Strip(page.constructorAnchors[k].text), Class, StoredPath(cfg, page.constructorAnchors[k].href)) {
      var k :| 0 <= k < |page.constructorAnchors|
          && e == Entry(Strip(page.constructorAnchors[k].text), Class, StoredPath(cfg, page.constructorAnchors[k].href));
      StripUnique(page.constructorAnchors[k].text, cs[k].name, Strip(page.constructorAnchors[k].text));
      assert EntryOf(cfg, cs[k]) == e;
    }
    if exists k :: 0 <= k < |page.publicAnchors|
          && e == Entry(Classify(page.publicAnchors[k]).name, Classify(page.publicAnchors[k]).kind,
                        StoredPath(cfg, AnchorPath(fileName, page.publicAnchors[k]))) {
      var k :| 0 <= k < |page.publicAnchors|
          && e == Entry(Classify(page.publicAnchors[k]).name, Classify(page.publicAnchors[k]).kind,
                        StoredPath(cfg, AnchorPath(fileName, page.publicAnchors[k])));
      assert EntryOf(cfg, fs[k]) == e;
    }
  }

  /** The calls of one glob result ask for exactly the rows its page emits, and none for a directory. */
  lemma EntryCallsRequests(cfg: Config, p: PathEntry, e: Entry)
    ensures Requested(cfg, EntryCalls(p), e) <==> p.File? && PageEmits(cfg, p.fileName, p.page, e)
  {
    if p.File? {
      ParseSoupRequests(cfg, p.fileName, p.page, e);
    }
  }

  lemma RunEmitsCons(cfg: Config, paths: seq<PathEntry>, e: Entry)
    requires |paths| > 0
    ensures RunEmits(cfg, paths, e) <==>
      (paths[0].File? && PageEmits(cfg, paths[0].fileName, paths[0].page, e)) || RunEmits(cfg, paths[1..], e)
  {
    if RunEmits(cfg, paths, e) {
      var i :| 0 <= i < |paths| && paths[i].File? && PageEmits(cfg, paths[i].fileName, paths[i].page, e);
      if i > 0 {
        assert paths[1..][i - 1] == paths[i];
      }
    }
    if RunEmits(cfg, paths[1..], e) {
      var i :| 0 <= i < |paths[1..]| && paths[1..][i].File? && PageEmits(cfg, paths[1..][i].fileName, paths[1..][i].page, e);
      assert paths[i + 1] == paths[1..][i];
    }
  }

  /** The calls of a whole parse ask for exactly the rows some file emits. */
  lemma {:induction false} ParseAllRequests(cfg: Config, paths: seq<PathEntry>, e: Entry)
    ensures Requested(cfg, ParseAll(paths), e) <==> RunEmits(cfg, paths, e)
    decreases |paths|
  {
    if |paths| > 0 {
      RequestedAppend(cfg, EntryCalls(paths[0]), ParseAll(paths[1..]), e);
      EntryCallsRequests(cfg, paths[0], e);
      ParseAllRequests(cfg, paths[1..], e);
      RunEmitsCons(cfg, paths, e);
    }
  }

  /**
    After a run no error escapes, the connection is closed, the table holds
    no duplicate row, and it holds exactly the rows emitted for the files
    among `paths`, whatever the database file held before.
   */
  lemma RunBuildsIndex(useOnlineDocs: bool, prior: Store, paths: seq<PathEntry>)
    ensures var r := Run(useOnlineDocs, prior, paths);
      && r.error.None?
      && !r.store.connected
      && r.store.table.Some?
      && NoDuplicates(r.store.table.value)
      && forall e :: e in Contents(r.store) <==> RunEmits(ClosureConfig(useOnlineDocs), paths, e)
  {
    var cfg := ClosureConfig(useOnlineDocs);
    forall e
      ensures Requested(cfg, ParseAll(paths), e) <==> RunEmits(cfg, paths, e)
    {
      ParseAllRequests(cfg, paths, e);
    }
  }

  /** A run clears the store first, so what the file held before makes no difference. */
  lemma RunIgnoresPrior(useOnlineDocs: bool, a: Store, b: Store, paths: seq<PathEntry>)
    ensures Run(useOnlineDocs, a, paths) == Run(useOnlineDocs, b, paths)
  {
    ClearForgetsPrior(a, b);
  }

  /** Running twice over the same tree leaves the same store as running once. */
  lemma RunIdempotent(useOnlineDocs: bool, prior: Store, paths: seq<PathEntry>)
    ensures var once := Run(useOnlineDocs, prior, paths);
      Run(useOnlineDocs, once.store, paths) == once
  {
    RunIgnoresPrior(useOnlineDocs, prior, Run(useOnlineDocs, prior, paths).store, paths);
  }

  /** Glob order does not matter: two listings with the same entries build the same set of rows. */
  lemma RunIgnoresOrder(useOnlineDocs: bool, prior: Store, p1: seq<PathEntry>, p2: seq<PathEntry>)
    requires forall x :: x in p1 <==> x in p2
    ensures Contents(Run(useOnlineDocs, prior, p1).store) == Contents(Run(useOnlineDocs, prior, p2).store)
  {
    var cfg := ClosureConfig(useOnlineDocs);
    RunBuildsIndex(useOnlineDocs, prior, p1);
    RunBuildsIndex(useOnlineDocs, prior, p2);
    forall e
      ensures RunEmits(cfg, p1, e) <==> RunEmits(cfg, p2, e)
    {
      if RunEmits(cfg, p1, e) {
        var i :| 0 <= i < |p1| && p1[i].File? && PageEmits(cfg, p1[i].fileName, p1[i].page, e);
        assert p1[i] in p2;
      }
      if RunEmits(cfg, p2, e) {
        var i :| 0 <= i < |p2| && p2[i].File? && PageEmits(cfg, p2[i].fileName, p2[i].page, e);
        assert p2[i] in p1;
      }
    }
  }

  lemma {:induction false} ParseAllAppend(a: seq<PathEntry>, b: seq<PathEntry>)
    ensures ParseAll(a + b) == ParseAll(a) + ParseAll(b)
    decreases |a|
  {
    if |a| > 0 {
      assert (a + b)[1..] == a[1..] + b;
      ParseAllAppend(a[1..], b);
    } else {
      assert a + b == b;
    }
  }

  lemma RunDependsOnlyOnCalls(useOnlineDocs: bool, prior: Store, p1: seq<PathEntry>, p2: seq<PathEntry>)
    requires ParseAll(p1) == ParseAll(p2)
    ensures Run(useOnlineDocs, prior, p1) == Run(useOnlineDocs, prior, p2)
  {
  }

  lemma ParseAllSkipsDirectory(pre: seq<PathEntry>, post: seq<PathEntry>, d: string)
    ensures ParseAll(pre + [Directory(d)] + post) == ParseAll(pre + post)
  {
    ParseAllAppend(pre + [Directory(d)], post);
    ParseAllAppend(pre, [Directory(d)]);
    ParseAllAppend(pre, post);
    assert ParseAll([Directory(d)]) == EntryCalls(Directory(d)) + ParseAll([]);
    assert ParseAll(pre) + [] == ParseAll(pre);
  }

  /** A directory among the glob results adds no row and raises nothing. */
  lemma DirectorySkipped(useOnlineDocs: bool, prior: Store, paths: seq<PathEntry>, i: nat, d: string)
    requires i <= |paths|
    ensures Run(useOnlineDocs, prior, paths[..i] + [Directory(d)] + paths[i..]) == Run(useOnlineDocs, prior, paths)
  {
    var pre, post := paths[..i], paths[i..];
    assert pre + post == paths;
    ParseAllSkipsDirectory(pre, post, d);
    RunDependsOnlyOnCalls(useOnlineDocs, prior, pre + [Directory(d)] + post, paths);
  }

  /**
    The two scans of a page do not interfere: a Class row comes from a
    constructor anchor and from nothing else, and every other row from a
    public anchor.
   */
  lemma ClassRowsFromConstructors(cfg: Config, fileName: string, page: Page, e: Entry)
    ensures PageEmits(cfg, fileName, page, e) ==>
      (e.kind == Class <==>
        exists k :: 0 <= k < |page.constructorAnchors|
          && e == Entry(Strip(page.constructorAnchors[k].text), Class, StoredPath(cfg, page.constructorAnchors[k].href)))
  {
  }
}

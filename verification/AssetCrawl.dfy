/**
 The hosted replay verifier's asset crawl: a bounded worklist that fetches every
 asset the page reaches, each once, and nothing else.
 */
module AssetCrawl {
  import opened Option

  const MAX_ASSET_COUNT: nat := 16
  const MAX_ASSET_BYTES: nat := 262_144
  const MAX_TOTAL_BYTES: nat := 524_288
  const CONFIG := "/replay-config.js"
  const ASSETS := "/assets/"

  type Path = string

  // ---- Paths

  predicate NameChar(c: char) {
    'a' <= c <= 'z' || 'A' <= c <= 'Z' || '0' <= c <= '9' || c == '.' || c == '_' || c == '-'
  }

  predicate EndsWith(s: string, suffix: string) {
    |suffix| < |s| && s[|s| - |suffix|..] == suffix
  }

  predicate AssetName(s: string) {
    (forall i :: 0 <= i < |s| ==> NameChar(s[i])) && (EndsWith(s, ".css") || EndsWith(s, ".js"))
  }

  predicate StaticAsset(p: Path) {
    ASSETS <= p && AssetName(p[|ASSETS|..])
  }

  function SafeStaticPath(p: Path): Option<Path> {
    if p == CONFIG || StaticAsset(p) then Some(p) else None
  }

  /** What the import pattern finds in a body: an asset path, or a name beside the importer. */
  predicate Reference(r: string) {
    StaticAsset(r) || ("./" <= r && AssetName(r[2..]))
  }

  function StaticImportPath(owner: Path, reference: string): Option<Path> {
    SafeStaticPath(if "./" <= reference && ASSETS <= owner then ASSETS + reference[2..] else reference)
  }

  /** Resolving a reference found in an asset never fails and never leads to the configuration. */
  lemma ImportsResolve(owner: Path, reference: string)
    requires StaticAsset(owner) && Reference(reference)
    ensures StaticImportPath(owner, reference).Some?
    ensures StaticAsset(StaticImportPath(owner, reference).value)
    ensures StaticImportPath(owner, reference).value != CONFIG
  {
    if "./" <= reference {
      assert reference[0] == '.';
      var p := ASSETS + reference[2..];
      assert p[|ASSETS|..] == reference[2..];
      AssetIsNotConfig(p);
    } else {
      AssetIsNotConfig(reference);
    }
  }

  /** A name beside the importer is that name among the assets. */
  lemma RelativeImport(owner: Path, name: string)
    requires StaticAsset(owner) && AssetName(name)
    ensures StaticImportPath(owner, "./" + name) == Some("/assets/" + name)
  {
    assert ("./" + name)[2..] == name;
    assert ("/assets/" + name)[|ASSETS|..] == name;
  }

  /** An asset path is itself, whoever imports it. */
  lemma AbsoluteImport(owner: Path, reference: string)
    requires StaticAsset(owner) && StaticAsset(reference)
    ensures StaticImportPath(owner, reference) == Some(reference)
  {
    assert reference[0] == '/';
  }

  lemma AssetIsNotConfig(p: Path)
    requires StaticAsset(p)
    ensures p != CONFIG
  {
    assert p[1] == ASSETS[1] == 'a' && CONFIG[1] == 'r';
  }

  // ---- The site

  /** A fetched asset: its size and the references its body holds, in order. */
  datatype Asset = Asset(bytes: nat, references: seq<string>)

  /** A path gives an asset when its response and body pass the checks of a single asset. */
  type Site = Path -> Option<Asset>

  ghost predicate SiteValid(site: Site) {
    forall p :: site(p).Some? ==>
      && 0 < site(p).value.bytes <= 262_144
      && forall i :: 0 <= i < |site(p).value.references| ==> Reference(site(p).value.references[i])
  }

  ghost predicate Imports(site: Site, p: Path, q: Path) {
    && site(p).Some?
    && exists i :: 0 <= i < |site(p).value.references|
                   && StaticImportPath(p, site(p).value.references[i]) == Some(q)
  }

  /** A walk along imports from one of the page's assets. */
  ghost predicate Walk(site: Site, start: set<Path>, w: seq<Path>) {
    && w != [] && w[0] in start
    && forall i :: 0 < i < |w| ==> Imports(site, w[i - 1], w[i])
  }

  ghost predicate Reachable(site: Site, start: set<Path>, p: Path) {
    exists w :: Walk(site, start, w) && w[|w| - 1] == p
  }

  ghost function Bytes(site: Site, paths: set<Path>): nat
    requires forall p :: p in paths ==> site(p).Some?
  {
    if paths == {} then 0
    else
      var p :| p in paths;
      site(p).value.bytes + Bytes(site, paths - {p})
  }

  lemma {:induction false} BytesAdd(site: Site, paths: set<Path>, q: Path)
    requires (forall p :: p in paths ==> site(p).Some?) && site(q).Some? && q !in paths
    ensures Bytes(site, paths + {q}) == Bytes(site, paths) + site(q).value.bytes
    decreases paths
  {
    var more := paths + {q};
    var p :| p in more && Bytes(site, more) == site(p).value.bytes + Bytes(site, more - {p});
    if p == q {
      assert more - {p} == paths;
    } else {
      assert more - {p} == (paths - {p}) + {q};
      BytesAdd(site, paths - {p}, q);
      BytesAdd(site, paths - {p}, p);
      assert (paths - {p}) + {p} == paths;
    }
  }

  lemma {:induction false} BytesMonotone(site: Site, some: set<Path>, all: set<Path>)
    requires some <= all && forall p :: p in all ==> site(p).Some?
    ensures Bytes(site, some) <= Bytes(site, all)
    decreases all - some
  {
    if all - some == {} {
      assert some == all;
    } else {
      var q :| q in all - some;
      BytesAdd(site, some, q);
      BytesMonotone(site, some + {q}, all);
    }
  }

  // ---- What a successful crawl is

  /** `reached` is everything the page reaches, all of it served, within both limits. */
  ghost predicate Crawled(site: Site, start: set<Path>, reached: set<Path>) {
    && (forall p :: p in reached <==> Reachable(site, start, p))
    && (forall p :: p in reached ==> site(p).Some?)
    && |reached| <= 16
    && Bytes(site, reached) <= 524_288
  }

  lemma StartReachable(site: Site, start: set<Path>, p: Path)
    requires p in start
    ensures Reachable(site, start, p)
  {
    assert Walk(site, start, [p]) && [p][|[p]| - 1] == p;
  }

  lemma ImportReachable(site: Site, start: set<Path>, p: Path, q: Path)
    requires Reachable(site, start, p) && Imports(site, p, q)
    ensures Reachable(site, start, q)
  {
    var w :| Walk(site, start, w) && w[|w| - 1] == p;
    var longer := w + [q];
    assert Walk(site, start, longer) && longer[|longer| - 1] == q;
  }

  /** A set that holds the start and every import of its members holds all that is reachable. */
  lemma {:induction false} ClosedHoldsWalk(site: Site, start: set<Path>, closed: set<Path>, w: seq<Path>)
    requires start <= closed && forall p, q :: p in closed && Imports(site, p, q) ==> q in closed
    requires Walk(site, start, w)
    ensures w[|w| - 1] in closed
    decreases |w|
  {
    if |w| > 1 {
      var before := w[..|w| - 1];
      assert Walk(site, start, before);
      ClosedHoldsWalk(site, start, closed, before);
      assert Imports(site, w[|w| - 2], w[|w| - 1]);
    }
  }

  lemma ClosedHoldsReachable(site: Site, start: set<Path>, closed: set<Path>)
    requires start <= closed && forall p, q :: p in closed && Imports(site, p, q) ==> q in closed
    ensures forall p :: Reachable(site, start, p) ==> p in closed
  {
    forall p | Reachable(site, start, p)
      ensures p in closed
    {
      var w :| Walk(site, start, w) && w[|w| - 1] == p;
      ClosedHoldsWalk(site, start, closed, w);
    }
  }

  function Named(paths: seq<Path>): set<Path> {
    set p | p in paths
  }

  // ---- The worklist

  /** The crawl's state: what was fetched is reachable, and what it leads to is fetched or waiting. */
  ghost predicate Progress(
    site: Site, start: set<Path>, pending: seq<Path>, observed: set<Path>, fetched: seq<Path>, total: nat)
  {
    && (forall p :: p in pending || p in observed ==> Reachable(site, start, p) && StaticAsset(p))
    && (forall p :: p in observed ==> site(p).Some?)
    && (forall p :: p in start ==> p in observed || p in pending)
    && (forall p, q :: p in observed && Imports(site, p, q) ==> q in observed || q in pending)
    && (forall i, j :: 0 <= i < j < |fetched| ==> fetched[i] != fetched[j])
    && (forall p :: p in observed <==> p in fetched)
    && |observed| <= MAX_ASSET_COUNT
    && total == Bytes(site, observed) <= MAX_TOTAL_BYTES
  }

  lemma HeadAndRest(pending: seq<Path>)
    requires pending != []
    ensures forall p :: p in pending <==> p == pending[0] || p in pending[1..]
  {
    assert pending == [pending[0]] + pending[1..];
  }

  /** A path already fetched is dropped. */
  lemma DropSeen(
    site: Site, start: set<Path>, pending: seq<Path>, observed: set<Path>, fetched: seq<Path>, total: nat)
    requires Progress(site, start, pending, observed, fetched, total) && pending != [] && pending[0] in observed
    ensures Progress(site, start, pending[1..], observed, fetched, total)
  {
    HeadAndRest(pending);
  }

  /** A reachable path beyond either limit, or not served, rules out success. */
  lemma TooMuch(site: Site, start: set<Path>, observed: set<Path>, p: Path)
    requires forall q :: q in observed ==> Reachable(site, start, q) && site(q).Some?
    requires Reachable(site, start, p) && p !in observed
    requires || |observed| >= MAX_ASSET_COUNT || site(p) == None
             || Bytes(site, observed) + site(p).value.bytes > MAX_TOTAL_BYTES
    ensures forall reached :: !Crawled(site, start, reached)
  {
    forall reached
      ensures !Crawled(site, start, reached)
    {
      if Crawled(site, start, reached) {
        assert observed + {p} <= reached;
        SubsetSize(observed + {p}, reached);
        BytesAdd(site, observed, p);
        BytesMonotone(site, observed + {p}, reached);
      }
    }
  }

  lemma {:induction false} SubsetSize(some: set<Path>, all: set<Path>)
    requires some <= all
    ensures |some| <= |all|
  {
    assert all == some + (all - some);
  }

  /** The paths an asset imports that are not fetched yet, in the order found. */
  ghost predicate NewImports(site: Site, p: Path, observed: set<Path>, found: seq<Path>, n: nat)
    requires site(p).Some? && n <= |site(p).value.references|
  {
    && (forall q :: q in found ==> Imports(site, p, q) && StaticAsset(q))
    && forall i :: 0 <= i < n ==>
         var q := StaticImportPath(p, site(p).value.references[i]);
         q.Some? && (q.value in observed || q.value in found)
  }

  lemma OneImport(site: Site, p: Path, observed: set<Path>, found: seq<Path>, n: nat, q: Path)
    requires site(p).Some? && n < |site(p).value.references| && NewImports(site, p, observed, found, n)
    requires StaticImportPath(p, site(p).value.references[n]) == Some(q) && StaticAsset(q)
    ensures NewImports(site, p, observed, if q in observed then found else found + [q], n + 1)
  {
    assert Imports(site, p, q);
  }

  /** Resolve an asset's references; those that lead to something new are to be fetched. */
  method NestedPaths(site: Site, p: Path, observed: set<Path>) returns (found: Option<seq<Path>>)
    requires SiteValid(site) && StaticAsset(p) && site(p).Some?
    ensures found.Some?
    ensures NewImports(site, p, observed, found.value, |site(p).value.references|)
  {
    var references := site(p).value.references;
    var paths: seq<Path> := [];
    for n := 0 to |references|
      invariant NewImports(site, p, observed, paths, n)
    {
      ImportsResolve(p, references[n]);
      var nested := StaticImportPath(p, references[n]);
      if nested == None {
        return None;
      }
      OneImport(site, p, observed, paths, n, nested.value);
      if nested.value != CONFIG && nested.value !in observed {
        paths := paths + [nested.value];
      }
    }
    return Some(paths);
  }

  /** Fetching a new path keeps the state. */
  lemma Fetched(
    site: Site, start: set<Path>, pending: seq<Path>, observed: set<Path>, fetched: seq<Path>, total: nat,
    found: seq<Path>)
    requires Progress(site, start, pending, observed, fetched, total) && pending != []
    requires var p := pending[0];
             && p !in observed && site(p).Some?
             && NewImports(site, p, observed + {p}, found, |site(p).value.references|)
             && |observed| < MAX_ASSET_COUNT && total + site(p).value.bytes <= MAX_TOTAL_BYTES
    ensures var p := pending[0];
            Progress(
              site, start, pending[1..] + found, observed + {p}, fetched + [p], total + site(p).value.bytes)
  {
    var p := pending[0];
    HeadAndRest(pending);
    BytesAdd(site, observed, p);
    FetchedReachable(site, start, pending, observed, fetched, total, found);
    FetchedClosed(site, start, pending, observed, fetched, total, found);
  }

  lemma FetchedReachable(
    site: Site, start: set<Path>, pending: seq<Path>, observed: set<Path>, fetched: seq<Path>, total: nat,
    found: seq<Path>)
    requires Progress(site, start, pending, observed, fetched, total) && pending != []
    requires forall q :: q in found ==> Imports(site, pending[0], q) && StaticAsset(q)
    ensures forall q :: q in pending[1..] + found || q in observed + {pending[0]} ==>
              Reachable(site, start, q) && StaticAsset(q)
  {
    HeadAndRest(pending);
    forall q | q in found
      ensures Reachable(site, start, q)
    {
      ImportReachable(site, start, pending[0], q);
    }
  }

  lemma FetchedClosed(
    site: Site, start: set<Path>, pending: seq<Path>, observed: set<Path>, fetched: seq<Path>, total: nat,
    found: seq<Path>)
    requires Progress(site, start, pending, observed, fetched, total) && pending != []
    requires var p := pending[0];
             site(p).Some? && NewImports(site, p, observed + {p}, found, |site(p).value.references|)
    ensures forall r, q :: r in observed + {pending[0]} && Imports(site, r, q) ==>
              q in observed + {pending[0]} || q in pending[1..] + found
  {
    var p := pending[0];
    HeadAndRest(pending);
    forall r, q | r in observed + {p} && Imports(site, r, q)
      ensures q in observed + {p} || q in pending[1..] + found
    {
      if r == p {
        var i :| 0 <= i < |site(p).value.references| && StaticImportPath(p, site(p).value.references[i]) == Some(q);
      }
    }
  }

  /** With nothing waiting, what was fetched is exactly what is reachable. */
  lemma Finished(site: Site, start: set<Path>, observed: set<Path>, fetched: seq<Path>, total: nat)
    requires Progress(site, start, [], observed, fetched, total)
    ensures Crawled(site, start, observed)
  {
    ClosedHoldsReachable(site, start, observed);
  }

  /**
   Crawl from the page's assets. It succeeds exactly when everything reachable is
   served and within the limits, and then it has fetched exactly that, each path
   once, whatever order the imports stand in.
   */
  method Crawl(site: Site, page: seq<Path>)
    returns (observed: Option<set<Path>>, total: nat, ghost fetched: seq<Path>)
    requires SiteValid(site) && forall p :: p in page ==> StaticAsset(p)
    ensures observed.Some? <==> exists reached :: Crawled(site, Named(page), reached)
    ensures observed.Some? ==>
              && Crawled(site, Named(page), observed.value)
              && total == Bytes(site, observed.value) <= MAX_TOTAL_BYTES
              && (forall p :: p in observed.value <==> p in fetched)
    ensures forall i, j :: 0 <= i < j < |fetched| ==> fetched[i] != fetched[j]
  {
    ghost var start := Named(page);
    var pending := page;
    var seen: set<Path> := {};
    total := 0;
    fetched := [];
    forall p | p in pending
      ensures Reachable(site, start, p)
    {
      StartReachable(site, start, p);
    }
    while pending != []
      invariant Progress(site, start, pending, seen, fetched, total)
      decreases MAX_ASSET_COUNT - |seen|, |pending|
    {
      var p := pending[0];
      if p in seen {
        DropSeen(site, start, pending, seen, fetched, total);
        pending := pending[1..];
        continue;
      }
      if |seen| >= MAX_ASSET_COUNT || site(p) == None || total + site(p).value.bytes > MAX_TOTAL_BYTES {
        TooMuch(site, start, seen, p);
        return None, total, fetched;
      }
      var found := NestedPaths(site, p, seen + {p});
      Fetched(site, start, pending, seen, fetched, total, found.value);
      total := total + site(p).value.bytes;
      seen := seen + {p};
      fetched := fetched + [p];
      pending := pending[1..] + found.value;
    }
    Finished(site, start, seen, fetched, total);
    return Some(seen), total, fetched;
  }

  // ---- The page

  /** What a page may name: the configuration once, at least one other script, nothing twice. */
  predicate PageAccepted(paths: seq<Path>) {
    && (forall i :: 0 <= i < |paths| ==> SafeStaticPath(paths[i]).Some?)
    && CONFIG in paths
    && (exists i :: 0 <= i < |paths| && EndsWith(paths[i], ".js") && paths[i] != CONFIG)
    && (forall i, j :: 0 <= i < j < |paths| ==> paths[i] != paths[j])
    && |paths| <= MAX_ASSET_COUNT
  }

  function WithoutConfig(paths: seq<Path>): (r: seq<Path>)
    ensures forall p :: p in r <==> p in paths && p != CONFIG
  {
    if paths == [] then []
    else
      var before, last := paths[..|paths| - 1], paths[|paths| - 1];
      assert paths == before + [last];
      WithoutConfig(before) + if last == CONFIG then [] else [last]
  }

  /** From a page's paths to the number of assets the report counts. */
  method VerifyAssets(site: Site, paths: seq<Path>) returns (count: Option<nat>)
    requires SiteValid(site)
    ensures var start := Named(paths) - {"/replay-config.js"};
            && (count.Some? <==> PageAccepted(paths) && exists reached :: Crawled(site, start, reached))
            && (count.Some? ==> exists reached :: Crawled(site, start, reached) && count.value == |reached|)
  {
    if !PageAccepted(paths) {
      return None;
    }
    var page := WithoutConfig(paths);
    assert Named(page) == Named(paths) - {CONFIG};
    var observed, total, fetched := Crawl(site, page);
    return if observed == None then None else Some(|observed.value|);
  }

  // ---- A site that must be crawled through a relative import

  const A := "/assets/a.js"
  const B := "/assets/b.js"

  function SmallSite(served: bool): Site {
    p => if p == A then Some(Asset(10, ["./b.js"])) else if p == B && served then Some(Asset(20, [])) else None
  }

  lemma SmallPaths()
    ensures AssetName("a.js") && AssetName("b.js") && StaticAsset(A) && StaticAsset(B) && A != B
    ensures StaticImportPath(A, "./b.js") == Some(B) && Reference("./b.js")
  {
    assert A[|ASSETS|..] == "a.js" && B[|ASSETS|..] == "b.js";
    assert "a.js"[1..] == ".js" && "b.js"[1..] == ".js";
    assert ("./" + "b.js")[2..] == "b.js" && "./b.js" == "./" + "b.js";
    RelativeImport(A, "b.js");
    assert B == "/assets/" + "b.js";
    assert A[8] == 'a' && B[8] == 'b';
  }

  lemma SmallImports(served: bool, p: Path, q: Path)
    ensures Imports(SmallSite(served), p, q) <==> p == A && q == B
  {
    SmallPaths();
    hide StaticImportPath;
    if p == A {
      assert SmallSite(served)(p).value.references[0] == "./b.js";
    }
  }

  lemma SmallReached(served: bool, p: Path)
    ensures Reachable(SmallSite(served), {A}, p) <==> p == A || p == B
  {
    hide Imports;
    var site := SmallSite(served);
    forall x, y
      ensures Imports(site, x, y) <==> x == A && y == B
    {
      SmallImports(served, x, y);
    }
    hide SmallSite;
    StartReachable(site, {A}, A);
    ImportReachable(site, {A}, A, B);
    ClosedHoldsReachable(site, {A}, {A, B});
  }

  lemma SmallBytes()
    ensures forall p :: p in {A, B} ==> SmallSite(true)(p).Some?
    ensures Bytes(SmallSite(true), {A, B}) == 30 && |{A, B}| == 2
  {
    SmallPaths();
    hide AssetName, StaticAsset, StaticImportPath;
    assert Bytes(SmallSite(true), {}) == 0;
    BytesAdd(SmallSite(true), {}, A);
    BytesAdd(SmallSite(true), {A}, B);
    assert {} + {A} == {A} && {A} + {B} == {A, B};
  }

  lemma SmallCrawled(served: bool, reached: set<Path>)
    ensures Crawled(SmallSite(served), {A}, reached) <==> served && reached == {A, B}
  {
    SmallBytes();
    assert !served ==> SmallSite(served)(B) == None by {
      SmallPaths();
    }
    hide Bytes, Reachable, SmallSite;
    forall p
      ensures Reachable(SmallSite(served), {A}, p) <==> p in {A, B}
    {
      SmallReached(served, p);
    }
    if Crawled(SmallSite(served), {A}, reached) {
      assert B in {A, B} && B in reached && reached == {A, B};
    }
  }

  lemma SmallPage(served: bool)
    ensures SiteValid(SmallSite(served)) && PageAccepted(["/replay-config.js", A])
    ensures Named(["/replay-config.js", A]) - {"/replay-config.js"} == {A}
  {
    SmallPaths();
    AssetIsNotConfig(A);
    var page: seq<Path> := ["/replay-config.js", A];
    assert page[0] == CONFIG && page[1] == A;
    assert A[9..] == ".js";
    assert "/replay-config.js" in page && A in page;
  }

  /** The page names one asset, whose import beside it is fetched too, or found missing. */
  method CrawlRelative() returns (count: Option<nat>, missing: Option<nat>)
    ensures count == Some(2) && missing == None
  {
    SmallPage(true);
    SmallPage(false);
    SmallPaths();
    SmallCrawled(true, {A, B});
    assert |{A, B}| == 2;
    hide SmallSite, PageAccepted, Named, Crawled;
    count := VerifyAssets(SmallSite(true), ["/replay-config.js", A]);
    missing := VerifyAssets(SmallSite(false), ["/replay-config.js", A]);
    forall reached
      ensures !Crawled(SmallSite(false), {A}, reached)
      ensures Crawled(SmallSite(true), {A}, reached) ==> |reached| == 2
    {
      SmallCrawled(false, reached);
      SmallCrawled(true, reached);
    }
  }

  /** The report does not depend on which success is meant: there is only one. */
  lemma CrawledUnique(site: Site, start: set<Path>, a: set<Path>, b: set<Path>)
    requires Crawled(site, start, a) && Crawled(site, start, b)
    ensures a == b
  {
  }
}

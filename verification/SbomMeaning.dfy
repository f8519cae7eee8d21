/** What a release bundle is when its document has been accepted. */
module SbomMeaning {
  import opened Sorting
  import opened Text
  import opened Sbom
  import opened SbomCheck
  import opened SbomAgree

  // ---------- Ids ----------

  lemma {:induction false} FoundMeaning(packages: seq<Package>, id: string)
    ensures Found(packages, id).Some? <==> exists p :: p in packages && p.id == id
    ensures Found(packages, id).Some? ==> Found(packages, id).value in packages && Found(packages, id).value.id == id
  {
    if packages != [] {
      var n := |packages| - 1;
      FoundMeaning(packages[..n], id);
      assert packages == packages[..n] + [packages[n]];
    }
  }

  lemma {:induction false} DistinctMeaning(packages: seq<Package>, i: nat, j: nat)
    requires IdsDistinct(packages) && i < j < |packages|
    ensures packages[i].id != packages[j].id
  {
    var n := |packages| - 1;
    if j < n {
      DistinctMeaning(packages[..n], i, j);
    } else {
      FoundMeaning(packages[..n], packages[j].id);
      assert packages[..n][i] == packages[i];
    }
  }

  lemma {:induction false} HasFileIdMeaning(files: seq<File>, id: string)
    ensures HasFileId(files, id) <==> exists f :: f in files && f.id == id
  {
    if files != [] {
      var n := |files| - 1;
      HasFileIdMeaning(files[..n], id);
      assert files == files[..n] + [files[n]];
    }
  }

  lemma {:induction false} DistinctFilesMeaning(packages: seq<Package>, files: seq<File>, i: nat, j: nat)
    requires FilesDistinct(packages, files) && i < j < |files|
    ensures files[i].id != files[j].id && files[i].Path() != files[j].Path()
  {
    var n := |files| - 1;
    if j < n {
      DistinctFilesMeaning(packages, files[..n], i, j);
    } else {
      HasFileIdMeaning(files[..n], files[j].id);
      FoundFileMeaning(files[..n], files[j].Path());
      assert files[..n][i] == files[i];
    }
  }

  lemma {:induction false} FileIsNoPackage(packages: seq<Package>, files: seq<File>, i: nat, p: Package)
    requires FilesDistinct(packages, files) && i < |files| && p in packages
    ensures files[i].id != p.id
  {
    var n := |files| - 1;
    if i < n {
      FileIsNoPackage(packages, files[..n], i, p);
    } else {
      FoundMeaning(packages, files[i].id);
    }
  }

  lemma {:induction false} DepsAreFound(doc: Document, deps: seq<Module>, lic: map<string, string>, id: string)
    requires DepsRecorded(doc, deps, lic) && id in DepIds(deps)
    ensures Found(doc.packages, id).Some?
  {
    var n := |deps| - 1;
    if id != PackageId(deps[n].path) { DepsAreFound(doc, deps[..n], lic, id); }
  }

  lemma PackageIdsDiffer(packages: seq<Package>)
    requires IdsDistinct(packages)
    ensures forall i, j :: 0 <= i < j < |packages| ==> packages[i].id != packages[j].id
  {
    forall i, j | 0 <= i < j < |packages| ensures packages[i].id != packages[j].id { DistinctMeaning(packages, i, j); }
  }

  lemma FileIdsDiffer(packages: seq<Package>, files: seq<File>)
    requires FilesDistinct(packages, files)
    ensures forall i, j :: 0 <= i < j < |files| ==> files[i].id != files[j].id && files[i].Path() != files[j].Path()
    ensures forall p, f :: p in packages && f in files ==> p.id != f.id
  {
    forall i, j | 0 <= i < j < |files| ensures files[i].id != files[j].id && files[i].Path() != files[j].Path() {
      DistinctFilesMeaning(packages, files, i, j);
    }
    forall p, f | p in packages && f in files ensures p.id != f.id {
      var i :| 0 <= i < |files| && files[i] == f;
      FileIsNoPackage(packages, files, i, p);
    }
  }

  lemma PackageIdsAre(doc: Document, b: Build, lic: map<string, string>, id: string)
    requires AllAllowed(doc.packages, Allowed(b)) && DepsRecorded(doc, b.deps, lic)
    requires forall fixed :: fixed in FIXED ==> Found(doc.packages, fixed).Some?
    ensures (exists p :: p in doc.packages && p.id == id) <==> id in FIXED + DepIds(b.deps)
  {
    FoundMeaning(doc.packages, id);
    if id in DepIds(b.deps) { DepsAreFound(doc, b.deps, lic, id); }
  }

  lemma FixedAreFound(packages: seq<Package>)
    requires Found(packages, ID_BUNDLE).Some? && Found(packages, ID_MAIN).Some?
    requires Found(packages, ID_GO).Some? && Found(packages, ID_STDLIB).Some?
    ensures forall fixed :: fixed in FIXED ==> Found(packages, fixed).Some?
  {
  }

  lemma RecordedPackages(doc: Document, b: Build, lic: map<string, string>)
    requires IdsDistinct(doc.packages) && AllAllowed(doc.packages, Allowed(b)) && DepsRecorded(doc, b.deps, lic)
    requires Found(doc.packages, ID_BUNDLE).Some? && Found(doc.packages, ID_MAIN).Some?
    requires Found(doc.packages, ID_GO).Some? && Found(doc.packages, ID_STDLIB).Some?
    ensures forall i, j :: 0 <= i < j < |doc.packages| ==> doc.packages[i].id != doc.packages[j].id
    ensures forall id :: (exists p :: p in doc.packages && p.id == id) <==> id in FIXED + DepIds(b.deps)
  {
    PackageIdsDiffer(doc.packages);
    FixedAreFound(doc.packages);
    forall id ensures (exists p :: p in doc.packages && p.id == id) <==> id in FIXED + DepIds(b.deps) {
      PackageIdsAre(doc, b, lic, id);
    }
  }

  /** The packages of an accepted document are the four fixed ones and one per module, each id used once. */
  lemma AcceptedPackages(doc: Document, hash: string -> string, s: Spec, entries: seq<Entry>, b: Build,
                         lic: map<string, string>, goHash: string)
    requires Accepts(doc, hash, s, entries, b, lic, goHash)
    ensures forall i, j :: 0 <= i < j < |doc.packages| ==> doc.packages[i].id != doc.packages[j].id
    ensures forall id :: (exists p :: p in doc.packages && p.id == id) <==> id in FIXED + DepIds(b.deps)
  {
    RecordedPackages(doc, b, lic);
  }

  // ---------- Files ----------

  function Paths(files: seq<File>): set<string> {
    if files == [] then {} else Paths(files[..|files| - 1]) + {files[|files| - 1].Path()}
  }

  lemma {:induction false} PathsMeaning(packages: seq<Package>, files: seq<File>, path: string)
    ensures path in Paths(files) <==> FoundFile(files, path).Some?
    ensures FilesDistinct(packages, files) ==> |Paths(files)| == |files|
  {
    if files != [] {
      var n := |files| - 1;
      PathsMeaning(packages, files[..n], path);
      PathsMeaning(packages, files[..n], files[n].Path());
    }
  }

  lemma {:induction false} NamesCount(entries: seq<Entry>)
    requires NamesDistinct(entries)
    ensures |Names(entries)| == |Described(entries)|
  {
    if entries != [] { NamesCount(entries[..|entries| - 1]); }
  }

  lemma {:induction false} NamesMeaning(entries: seq<Entry>, name: string)
    ensures name in Names(entries) <==> exists e :: e in Described(entries) && e.name == name
  {
    if entries != [] {
      var n := |entries| - 1;
      NamesMeaning(entries[..n], name);
      assert entries == entries[..n] + [entries[n]];
      assert forall e :: e in Described(entries) <==>
                           e in Described(entries[..n]) || (e == entries[n] && e.name != SBOM_NAME);
    }
  }

  lemma {:induction false} EntryIsRecorded(doc: Document, entries: seq<Entry>, own: string, expr: string, e: Entry)
    requires EntriesRecorded(doc, entries, own, expr) && e in Described(entries)
    ensures EntryRecorded(doc.relations, FoundFile(doc.files, e.name), e, own, expr)
  {
    var n := |entries| - 1;
    if e in Described(entries[..n]) { EntryIsRecorded(doc, entries[..n], own, expr, e); }
  }

  /**
   * The files of an accepted document are those of the bundle, one to one: as many, each of the bundle's with
   * a file of its name, both hashes and the licence it must have that the bundle package contains, and each of
   * the document's in the bundle.
   */
  lemma AcceptedFiles(doc: Document, hash: string -> string, s: Spec, entries: seq<Entry>, b: Build, lic: map<string, string>, goHash: string)
    requires Accepts(doc, hash, s, entries, b, lic, goHash)
    ensures |doc.files| == |Described(entries)|
    ensures forall i, j :: 0 <= i < j < |doc.files| ==>
              doc.files[i].id != doc.files[j].id && doc.files[i].Path() != doc.files[j].Path()
    ensures forall p, f :: p in doc.packages && f in doc.files ==> p.id != f.id
    ensures forall e :: e in Described(entries) ==>
              exists f :: && f in doc.files && f.Path() == e.name && FileOk(f, e, s.license, LicenseExpr(s.license, lic))
                          && Linked(doc.relations, CONTAINS, ID_BUNDLE + "|" + f.id)
    ensures forall f :: f in doc.files ==> exists e :: e in Described(entries) && e.name == f.Path()
  {
    FileIdsDiffer(doc.packages, doc.files);
    forall e | e in Described(entries)
      ensures exists f :: && f in doc.files && f.Path() == e.name && FileOk(f, e, s.license, LicenseExpr(s.license, lic))
                          && Linked(doc.relations, CONTAINS, ID_BUNDLE + "|" + f.id)
    {
      EntryIsRecorded(doc, entries, s.license, LicenseExpr(s.license, lic), e);
      FoundFileMeaning(doc.files, e.name);
    }
    forall f | f in doc.files ensures exists e :: e in Described(entries) && e.name == f.Path() {
      NamesMeaning(entries, f.Path());
    }
    NamesCount(entries);
    PathsAreNames(doc, entries, s.license, LicenseExpr(s.license, lic));
    PathsMeaning(doc.packages, doc.files, "");
  }

  lemma PathsAreNames(doc: Document, entries: seq<Entry>, own: string, expr: string)
    requires EntriesRecorded(doc, entries, own, expr) && NoStrays(doc.files, entries)
    ensures Paths(doc.files) == Names(entries)
  {
    forall path ensures path in Paths(doc.files) <==> path in Names(entries) {
      PathsMeaning([], doc.files, path);
      FoundFileMeaning(doc.files, path);
      NamesMeaning(entries, path);
      if e :| e in Described(entries) && e.name == path { EntryIsRecorded(doc, entries, own, expr, e); }
    }
  }

  // ---------- Modules ----------

  lemma {:induction false} CleanedHasNoBar(name: string)
    ensures '|' !in Cleaned(name)
  {
    if name != "" { CleanedHasNoBar(name[..|name| - 1]); }
  }

  lemma PackageIdHasNoBar(name: string)
    ensures '|' !in PackageId(name)
  {
    CleanedHasNoBar(name);
    assert '|' !in "SPDXRef-Package-";
  }

  lemma {:induction false} DepIsRecorded(doc: Document, deps: seq<Module>, lic: map<string, string>, d: Module)
    requires DepsRecorded(doc, deps, lic) && d in deps
    ensures DepRecorded(doc, d, lic)
  {
    var n := |deps| - 1;
    if d != deps[n] {
      assert deps == deps[..n] + [deps[n]];
      DepIsRecorded(doc, deps[..n], lic, d);
    }
  }

  /**
   * Each module linked into the program is in an accepted document under its path and version, with the
   * licence of the notices, its go.sum hash and a note of what it replaces exactly if it replaces something,
   * and the main package is linked to it.
   */
  lemma AcceptedModule(doc: Document, hash: string -> string, s: Spec, entries: seq<Entry>, b: Build, lic: map<string, string>,
                       goHash: string, d: Module) returns (p: Package)
    requires Accepts(doc, hash, s, entries, b, lic, goHash) && d in b.deps
    ensures p in doc.packages && p.id == PackageId(d.path) && p.name == d.path && p.version == d.version
    ensures p.concluded == LicenseOf(lic, d.Key()) && SumIn(p.comment) == d.sum
    ensures if d.orig != "" then Contains(p.comment, ReplacedNote(d)) else !Contains(p.comment, REPLACED)
    ensures Relation(ID_MAIN, STATIC_LINK, p.id) in doc.relations
  {
    DepIsRecorded(doc, b.deps, lic, d);
    FoundMeaning(doc.packages, PackageId(d.path));
    p := Found(doc.packages, PackageId(d.path)).value;
    PackageIdHasNoBar(d.path);
    assert '|' !in ID_MAIN;
    LinkedEnds(doc.relations, STATIC_LINK, ID_MAIN, p.id);
  }

  // ---------- The verification code ----------

  lemma {:induction false} SumsConcat(a: seq<Entry>, b: seq<Entry>)
    ensures Sums(a + b) == Sums(a) + Sums(b)
  {
    if b == [] {
      assert a + b == a;
    } else {
      var n := |b| - 1;
      assert (a + b)[..|a + b| - 1] == a + b[..n] && (a + b)[|a + b| - 1] == b[n];
      SumsConcat(a, b[..n]);
    }
  }

  lemma MiddleOut<T>(x: seq<T>, y: seq<T>, z: seq<T>)
    ensures multiset(x + y + z) == multiset(x + z) + multiset(y)
  {
  }

  lemma Cancel<T>(p: multiset<T>, q: multiset<T>, r: multiset<T>)
    requires p + r == q + r
    ensures p == q
  {
    assert p == (p + r) - r && q == (q + r) - r;
  }

  lemma RemoveOne<T>(a: seq<T>, b: seq<T>, k: nat)
    requires a != [] && multiset(a) == multiset(b) && k < |b| && b[k] == a[|a| - 1]
    ensures multiset(a[..|a| - 1]) == multiset(b[..k] + b[k + 1..])
  {
    var n := |a| - 1;
    SplitAt(a, n);
    SplitAt(b, k);
    MiddleOut(a[..n], [a[n]], a[n + 1..]);
    MiddleOut(b[..k], [b[k]], b[k + 1..]);
    Cancel(multiset(a[..n] + a[n + 1..]), multiset(b[..k] + b[k + 1..]), multiset([b[k]]));
    assert a[..n] + a[n + 1..] == a[..n];
  }

  lemma SumsMiddle(b: seq<Entry>, k: nat)
    requires k < |b|
    ensures multiset(Sums(b)) == multiset(Sums(b[..k] + b[k + 1..])) + multiset(Sums([b[k]]))
  {
    SumsConcat(b[..k], [b[k]]);
    SumsConcat(b[..k] + [b[k]], b[k + 1..]);
    SumsConcat(b[..k], b[k + 1..]);
    MiddleOut(Sums(b[..k]), Sums([b[k]]), Sums(b[k + 1..]));
    SplitAt(b, k);
  }

  lemma SplitAt<T>(b: seq<T>, k: nat)
    requires k < |b|
    ensures b == b[..k] + [b[k]] + b[k + 1..]
  {
  }

  lemma {:induction false} PermutedSums(a: seq<Entry>, b: seq<Entry>)
    requires multiset(a) == multiset(b)
    ensures multiset(Sums(a)) == multiset(Sums(b))
    decreases |a|
  {
    if a == [] {
      assert |b| == |multiset(b)| == 0;
    } else {
      var n := |a| - 1;
      assert a[n] in multiset(b);
      var k :| 0 <= k < |b| && b[k] == a[n];
      RemoveOne(a, b, k);
      PermutedSums(a[..n], b[..k] + b[k + 1..]);
      SumsMiddle(a, n);
      SumsMiddle(b, k);
      assert a[..n] + a[n + 1..] == a[..n];
    }
  }

  /** The verification code depends on no order, of the directory or of the archive. */
  lemma CodeIgnoresOrder(hash: string -> string, a: seq<Entry>, b: seq<Entry>)
    requires multiset(a) == multiset(b)
    ensures VerificationCode(hash, a) == VerificationCode(hash, b)
  {
    PermutedSums(a, b);
    TextsAreOrdered();
    SortIgnoresOrder(Sums(a), Sums(b), TextLeq);
  }

  // ---------- The licence ----------

  /** The licence concluded for the program names its own licence first, then every other once, in order. */
  lemma LicenseMeaning(own: string, lic: map<string, string>) returns (rest: seq<string>)
    ensures LicenseExpr(own, lic) == Join([own] + rest, " AND ")
    ensures forall id :: id in rest <==> id != own && (id == GO_LICENSE || id in lic.Values)
    ensures forall i, j :: 0 <= i < j < |rest| ==> rest[i] != rest[j] && TextLeq(rest[i], rest[j])
  {
    rest := InOrder({GO_LICENSE} + lic.Values - {own});
  }
}

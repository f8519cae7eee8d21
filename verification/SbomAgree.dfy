/** The document the tool composes is one it accepts, and what it takes for a document to be accepted. */
module SbomAgree {
  import opened Basics
  import opened Text
  import opened Sbom
  import opened SbomCheck

  // ---------- The condition ----------

  /** No two modules have the same package id, and none has a fixed one. */
  predicate DepsApart(deps: seq<Module>) {
    deps == [] ||
    var n := |deps| - 1;
    DepsApart(deps[..n]) && PackageId(deps[n].path) !in FIXED + DepIds(deps[..n])
  }

  function FileIds(entries: seq<Entry>): set<string> {
    if entries == [] then {} else
    var n := |entries| - 1;
    FileIds(entries[..n]) + if entries[n].name == SBOM_NAME then {} else {FileId(entries[n].name)}
  }

  /** No two files to describe have the same file id. */
  predicate FilesApart(entries: seq<Entry>) {
    entries == [] ||
    var n := |entries| - 1;
    FilesApart(entries[..n]) && (entries[n].name == SBOM_NAME || FileId(entries[n].name) !in FileIds(entries[..n]))
  }

  /** The go.sum hash can be read back from the comment, and does not look like a note of replacement. */
  predicate SumReadable(d: Module) {
    !Contains(d.sum, STOP) && (d.orig == "" ==> !Contains(d.sum, REPLACED))
  }

  predicate SumsReadable(deps: seq<Module>) {
    deps == [] || (SumsReadable(deps[..|deps| - 1]) && SumReadable(deps[|deps| - 1]))
  }

  /** What spec.check demands of the commit. */
  predicate CommitOk(s: Spec) { |s.commit| == 40 && Hex(s.commit) }

  // ---------- Comments ----------

  lemma SumReadBack(sum: string, orig: string, note: string)
    ensures SumIn(GO_SUM + sum + if orig == "" then "" else STOP + note) == sum <==> !Contains(sum, STOP)
    ensures HasPrefix(GO_SUM + sum + if orig == "" then "" else STOP + note, GO_SUM)
  {
    var tail := if orig == "" then "" else STOP + note;
    PrefixOfConcat(GO_SUM, sum + tail);
    assert GO_SUM + sum + tail == GO_SUM + (sum + tail);
    var got := sum + tail;
    if Contains(sum, STOP) {
      IndexExtends(sum, tail, STOP);
      assert |got[..Index(got, STOP).value]| < |sum|;
    } else if orig != "" {
      FirstStop(sum, note);
      assert sum + (STOP + note) == sum + STOP + note;
      assert got[..|sum|] == sum;
    } else {
      assert got == sum;
    }
  }

  lemma NoteFound(d: Module)
    requires d.orig != ""
    ensures Contains(DepComment(d), ReplacedNote(d))
  {
    var head := GO_SUM + d.sum + STOP;
    assert DepComment(d) == head + ReplacedNote(d) + "";
    ContainsMiddle(head, ReplacedNote(d), "");
  }

  lemma NoNoteAdded(d: Module)
    requires d.orig == ""
    ensures Contains(DepComment(d), REPLACED) <==> Contains(d.sum, REPLACED)
  {
    assert DepComment(d) == GO_SUM + d.sum;
    IndexSkips(GO_SUM, d.sum, REPLACED);
  }

  /** The package composed for a module passes exactly when its hash can be read back. */
  lemma DepPackagePasses(d: Module, lic: map<string, string>)
    ensures DepOk(DepPackage(d, lic), d, lic) <==> SumReadable(d)
  {
    SumReadBack(d.sum, d.orig, ReplacedNote(d));
    if d.orig != "" { NoteFound(d); } else { NoNoteAdded(d); }
  }

  lemma RevisionReadBack(commit: string, rest: string)
    requires |commit| == 40 && Hex(commit)
    ensures RevisionOf(REVISION + commit + STOP + rest) == commit
  {
    var comment := REVISION + commit + STOP + rest;
    assert comment == REVISION + (commit + STOP + rest);
    PrefixOfConcat(REVISION, commit + STOP + rest);
    var after := commit + STOP + rest;
    assert after[..40] == commit && after[40..] == STOP + rest;
    PrefixOfConcat(STOP, rest);
  }

  lemma MainPackagePasses(s: Spec, b: Build)
    requires CommitOk(s)
    ensures MainOk(Some(MainPackage(s, b)), s, b)
  {
    var tail := if b.mainVer == "" then "" else ". buildinfo가 말하는 주 모듈의 판 " + b.mainVer;
    var comment := MainComment(s, b);
    assert comment == REVISION + s.commit + STOP + (MAIN_PACKAGE + s.pkgPath + tail);
    RevisionReadBack(s.commit, MAIN_PACKAGE + s.pkgPath + tail);
    assert comment == (REVISION + s.commit) + (STOP + MAIN_PACKAGE + s.pkgPath) + tail;
    ContainsMiddle(REVISION + s.commit, STOP + MAIN_PACKAGE + s.pkgPath, tail);
  }

  lemma StdlibPackagePasses(b: Build, goHash: string)
    ensures RuntimeOk(Some(StdlibPackage(b, goHash)), b, goHash)
  {
    var head := "Go 도구 사슬 " + b.goVersion + "의 런타임과 표준 라이브러리. ";
    var tail := ". 원문은 " + NOTICES_NAME + "에 있다";
    assert GoComment(b.goVersion, goHash) == head + (HASH_MARK + goHash) + tail;
    ContainsMiddle(head, HASH_MARK + goHash, tail);
  }

  lemma RevisionStands(comment: string, commit: string)
    requires |commit| == 40 && RevisionOf(comment) == commit
    ensures comment == REVISION + commit || HasPrefix(comment, REVISION + commit + STOP)
  {
    var rest := TrimPrefix(comment, REVISION);
    PrefixAndRest(comment, REVISION);
    if |rest| == 40 {
      assert rest == commit;
    } else {
      PrefixAndRest(rest[40..], STOP);
      var more := TrimPrefix(rest[40..], STOP);
      assert rest == commit + (STOP + more);
      assert comment == (REVISION + commit + STOP) + more;
      PrefixOfConcat(REVISION + commit + STOP, more);
    }
  }

  /** revisionOf answers a commit exactly for a comment that begins with it and goes on in no other way. */
  lemma RevisionMeaning(comment: string, commit: string)
    requires |commit| == 40 && Hex(commit)
    ensures RevisionOf(comment) == commit <==>
            comment == REVISION + commit || HasPrefix(comment, REVISION + commit + STOP)
  {
    if RevisionOf(comment) == commit { RevisionStands(comment, commit); }
    if comment == REVISION + commit {
      PrefixOfConcat(REVISION, commit);
      assert commit[..40] == commit;
    }
    if HasPrefix(comment, REVISION + commit + STOP) {
      PrefixAndRest(comment, REVISION + commit + STOP);
      RevisionReadBack(commit, TrimPrefix(comment, REVISION + commit + STOP));
    }
  }

  // ---------- Packages ----------

  lemma FoundSnoc(packages: seq<Package>, p: Package, id: string)
    ensures Found(packages + [p], id) ==
            if Found(packages, id).Some? then Found(packages, id) else if p.id == id then Some(p) else None
    ensures IdsDistinct(packages + [p]) <==> IdsDistinct(packages) && Found(packages, p.id).None?
  {
    assert (packages + [p])[..|packages|] == packages;
  }

  /** Four packages with different ids, each found by its own. */
  lemma FoundAmongFour(a: Package, b: Package, c: Package, d: Package, id: string)
    requires a.id != b.id && a.id != c.id && a.id != d.id && b.id != c.id && b.id != d.id && c.id != d.id
    ensures IdsDistinct([a, b, c, d])
    ensures Found([a, b, c, d], id) ==
            if id == a.id then Some(a) else if id == b.id then Some(b)
            else if id == c.id then Some(c) else if id == d.id then Some(d) else None
  {
    assert [] + [a] == [a] && [a] + [b] == [a, b] && [a, b] + [c] == [a, b, c] && [a, b, c] + [d] == [a, b, c, d];
    FoundSnoc([], a, id);
    FoundSnoc([a], b, id);
    FoundSnoc([a, b], c, id);
    FoundSnoc([a, b, c], d, id);
    FoundSnoc([], a, b.id);
    FoundSnoc([], a, c.id);
    FoundSnoc([a], b, c.id);
    FoundSnoc([], a, d.id);
    FoundSnoc([a], b, d.id);
    FoundSnoc([a, b], c, d.id);
  }

  lemma FixedIdsDiffer()
    ensures ID_BUNDLE != ID_MAIN && ID_BUNDLE != ID_GO && ID_BUNDLE != ID_STDLIB
    ensures ID_MAIN != ID_GO && ID_MAIN != ID_STDLIB && ID_GO != ID_STDLIB
  {
    assert |ID_BUNDLE| == 22 && |ID_MAIN| == 20 && |ID_GO| == 18 && |ID_STDLIB| == 25;
  }

  /** fixed holds one package for each of the four fixed ids. */
  predicate IsFixed(fixed: seq<Package>) {
    |fixed| == 4 && fixed[0].id == ID_BUNDLE && fixed[1].id == ID_MAIN && fixed[2].id == ID_GO && fixed[3].id == ID_STDLIB
  }

  lemma FoundFixed(fixed: seq<Package>, id: string)
    requires IsFixed(fixed)
    ensures IdsDistinct(fixed)
    ensures Found(fixed, id).Some? <==> id in FIXED
    ensures Found(fixed, ID_BUNDLE) == Some(fixed[0]) && Found(fixed, ID_MAIN) == Some(fixed[1])
    ensures Found(fixed, ID_GO) == Some(fixed[2]) && Found(fixed, ID_STDLIB) == Some(fixed[3])
  {
    FixedIdsDiffer();
    assert fixed == [fixed[0], fixed[1], fixed[2], fixed[3]];
    FoundAmongFour(fixed[0], fixed[1], fixed[2], fixed[3], id);
    FoundAmongFour(fixed[0], fixed[1], fixed[2], fixed[3], ID_BUNDLE);
    FoundAmongFour(fixed[0], fixed[1], fixed[2], fixed[3], ID_MAIN);
    FoundAmongFour(fixed[0], fixed[1], fixed[2], fixed[3], ID_GO);
    FoundAmongFour(fixed[0], fixed[1], fixed[2], fixed[3], ID_STDLIB);
  }

  lemma PackagesSnoc(fixed: seq<Package>, deps: seq<Module>, lic: map<string, string>)
    requires deps != []
    ensures fixed + DepPackages(deps, lic) == (fixed + DepPackages(deps[..|deps| - 1], lic)) + [DepPackage(deps[|deps| - 1], lic)]
  {
  }

  /** Every id of the composed packages is an allowed one and the other way round; a fixed one is found as itself. */
  lemma {:induction false} FoundComposed(fixed: seq<Package>, deps: seq<Module>, lic: map<string, string>, id: string)
    requires IsFixed(fixed)
    ensures Found(fixed + DepPackages(deps, lic), id).Some? <==> id in FIXED + DepIds(deps)
    ensures id in FIXED ==> Found(fixed + DepPackages(deps, lic), id) == Found(fixed, id)
    ensures IdsDistinct(fixed + DepPackages(deps, lic)) <==> DepsApart(deps)
  {
    FoundFixed(fixed, id);
    if deps == [] {
      assert fixed + [] == fixed;
    } else {
      var n := |deps| - 1;
      PackagesSnoc(fixed, deps, lic);
      FoundComposed(fixed, deps[..n], lic, id);
      FoundComposed(fixed, deps[..n], lic, PackageId(deps[n].path));
      FoundSnoc(fixed + DepPackages(deps[..n], lic), DepPackage(deps[n], lic), id);
    }
  }

  lemma FoundStep(fixed: seq<Package>, deps: seq<Module>, lic: map<string, string>, id: string)
    requires deps != []
    ensures var n, before := |deps| - 1, Found(fixed + DepPackages(deps[..|deps| - 1], lic), id);
            Found(fixed + DepPackages(deps, lic), id) ==
            if before.Some? then before
            else if DepPackage(deps[n], lic).id == id then Some(DepPackage(deps[n], lic)) else None
  {
    PackagesSnoc(fixed, deps, lic);
    FoundSnoc(fixed + DepPackages(deps[..|deps| - 1], lic), DepPackage(deps[|deps| - 1], lic), id);
  }

  /** With ids apart, a module's package is found as composed. */
  lemma {:induction false} FoundDep(fixed: seq<Package>, deps: seq<Module>, lic: map<string, string>, d: Module, id: string)
    requires IsFixed(fixed) && DepsApart(deps) && d in deps && id == DepPackage(d, lic).id
    ensures Found(fixed + DepPackages(deps, lic), id) == Some(DepPackage(d, lic))
  {
    var n := |deps| - 1;
    FoundStep(fixed, deps, lic, id);
    if d == deps[n] {
      FoundComposed(fixed, deps[..n], lic, id);
    } else {
      SplitLast(deps);
      FoundDep(fixed, deps[..n], lic, d, id);
    }
  }

  lemma SplitLast<T>(s: seq<T>)
    requires s != []
    ensures s == s[..|s| - 1] + [s[|s| - 1]]
  {
  }

  lemma {:induction false} DepPackageIds(deps: seq<Module>, lic: map<string, string>, p: Package)
    requires p in DepPackages(deps, lic)
    ensures p.id in DepIds(deps)
  {
    var n := |deps| - 1;
    if p != DepPackage(deps[n], lic) { DepPackageIds(deps[..n], lic, p); }
  }

  lemma ComposedAllowed(fixed: seq<Package>, b: Build, lic: map<string, string>)
    requires IsFixed(fixed)
    ensures AllAllowed(fixed + DepPackages(b.deps, lic), Allowed(b))
  {
    forall p | p in fixed + DepPackages(b.deps, lic) ensures p.id in Allowed(b) {
      if p in fixed {
        assert p == fixed[0] || p == fixed[1] || p == fixed[2] || p == fixed[3];
      } else {
        DepPackageIds(b.deps, lic, p);
      }
    }
  }

  // ---------- Relations ----------

  lemma {:induction false} LinkedConcat(a: seq<Relation>, b: seq<Relation>, kind: string, pair: string)
    ensures Linked(a + b, kind, pair) <==> Linked(a, kind, pair) || Linked(b, kind, pair)
  {
    if b == [] {
      assert a + b == a;
    } else {
      var n := |b| - 1;
      assert (a + b)[..|a + b| - 1] == a + b[..n] && (a + b)[|a + b| - 1] == b[n];
      LinkedConcat(a, b[..n], kind, pair);
    }
  }

  lemma {:induction false} LinkedMeaning(relations: seq<Relation>, kind: string, pair: string)
    ensures Linked(relations, kind, pair) <==> exists r :: r in relations && r.kind == kind && r.from + "|" + r.to == pair
  {
    if relations != [] {
      var n := |relations| - 1;
      LinkedMeaning(relations[..n], kind, pair);
      assert relations == relations[..n] + [relations[n]];
    }
  }

  /** For ends without a bar, being linked is what it says: some relation goes from one to the other. */
  lemma LinkedEnds(relations: seq<Relation>, kind: string, from: string, to: string)
    requires '|' !in from && '|' !in to
    ensures Linked(relations, kind, from + "|" + to) <==> Relation(from, kind, to) in relations
  {
    LinkedMeaning(relations, kind, from + "|" + to);
    if r :| r in relations && r.kind == kind && r.from + "|" + r.to == from + "|" + to {
      JoinIsInjective(r.from, r.to, from, to, '|');
      assert r == Relation(from, kind, to);
    }
  }

  lemma LinkedPart(before: seq<Relation>, part: seq<Relation>, after: seq<Relation>, kind: string, pair: string)
    requires Linked(part, kind, pair)
    ensures Linked(before + part + after, kind, pair)
  {
    LinkedConcat(before + part, after, kind, pair);
    LinkedConcat(before, part, kind, pair);
  }

  // ---------- Files ----------

  lemma FilesSnoc(entries: seq<Entry>, own: string, expr: string)
    requires entries != []
    ensures var n := |entries| - 1;
            && FilesFor(entries[..n], own, expr) + [] == FilesFor(entries[..n], own, expr)
            && FilesFor(entries, own, expr) ==
                 FilesFor(entries[..n], own, expr) + if entries[n].name == SBOM_NAME then [] else [FileFor(entries[n], own, expr)]
  {
  }

  lemma FoundFileSnoc(files: seq<File>, f: File, path: string)
    ensures FoundFile(files + [f], path) ==
            if FoundFile(files, path).Some? then FoundFile(files, path) else if f.Path() == path then Some(f) else None
  {
    assert (files + [f])[..|files|] == files;
  }

  lemma HasFileIdSnoc(files: seq<File>, f: File, id: string)
    ensures HasFileId(files + [f], id) <==> f.id == id || HasFileId(files, id)
  {
    assert (files + [f])[..|files|] == files;
  }

  lemma FilesDistinctSnoc(packages: seq<Package>, files: seq<File>, f: File)
    ensures FilesDistinct(packages, files + [f]) <==>
              && FilesDistinct(packages, files) && FoundFile(files, f.Path()).None?
              && !HasFileId(files, f.id) && Found(packages, f.id).None?
  {
    assert (files + [f])[..|files|] == files;
  }

  lemma PathOf(e: Entry, own: string, expr: string)
    ensures FileFor(e, own, expr).Path() == e.name
  {
    PrefixOfConcat("./", e.name);
  }

  /** The composed files have the paths and the ids of the entries to describe. */
  lemma {:induction false} FoundComposedFile(entries: seq<Entry>, own: string, expr: string, text: string)
    ensures FoundFile(FilesFor(entries, own, expr), text).Some? <==> text in Names(entries)
    ensures HasFileId(FilesFor(entries, own, expr), text) <==> text in FileIds(entries)
  {
    if entries != [] {
      var n := |entries| - 1;
      FoundComposedFile(entries[..n], own, expr, text);
      FilesSnoc(entries, own, expr);
      if entries[n].name != SBOM_NAME {
        PathOf(entries[n], own, expr);
        FoundFileSnoc(FilesFor(entries[..n], own, expr), FileFor(entries[n], own, expr), text);
        HasFileIdSnoc(FilesFor(entries[..n], own, expr), FileFor(entries[n], own, expr), text);
      }
    }
  }

  /** A file id is never a package id. */
  lemma FileIdIsNoPackageId(fixed: seq<Package>, deps: seq<Module>, lic: map<string, string>, name: string)
    requires IsFixed(fixed)
    ensures Found(fixed + DepPackages(deps, lic), FileId(name)).None?
  {
    FoundComposed(fixed, deps, lic, FileId(name));
    FileIdStart(name);
    NoPackageId(deps, FileId(name));
  }

  lemma FileIdStart(name: string)
    ensures |FileId(name)| > 8 && FileId(name)[8] == 'F'
  {
  }

  lemma {:induction false} NoPackageId(deps: seq<Module>, id: string)
    requires |id| > 8 && id[8] == 'F'
    ensures id !in FIXED + DepIds(deps)
  {
    assert ID_BUNDLE[8] == 'P' && ID_MAIN[8] == 'P' && ID_GO[8] == 'P' && ID_STDLIB[8] == 'P';
    if deps != [] {
      NoPackageId(deps[..|deps| - 1], id);
      assert PackageId(deps[|deps| - 1].path)[8] == 'P';
    }
  }

  /** Different file ids come from different names. */
  lemma {:induction false} IdOfName(entries: seq<Entry>, name: string)
    requires name in Names(entries)
    ensures FileId(name) in FileIds(entries)
  {
    var n := |entries| - 1;
    if !(entries[n].name == name && name != SBOM_NAME) { IdOfName(entries[..n], name); }
  }

  lemma {:induction false} FilesApartNames(entries: seq<Entry>)
    requires FilesApart(entries)
    ensures NamesDistinct(entries)
  {
    if entries != [] {
      var n := |entries| - 1;
      FilesApartNames(entries[..n]);
      if entries[n].name in Names(entries[..n]) { IdOfName(entries[..n], entries[n].name); }
    }
  }

  lemma {:induction false} ComposedFilesDistinct(fixed: seq<Package>, deps: seq<Module>, lic: map<string, string>,
                                                 entries: seq<Entry>, own: string, expr: string)
    requires IsFixed(fixed)
    ensures FilesDistinct(fixed + DepPackages(deps, lic), FilesFor(entries, own, expr)) <==> FilesApart(entries)
  {
    if entries != [] {
      var n := |entries| - 1;
      ComposedFilesDistinct(fixed, deps, lic, entries[..n], own, expr);
      FilesSnoc(entries, own, expr);
      if entries[n].name != SBOM_NAME {
        var files, f := FilesFor(entries[..n], own, expr), FileFor(entries[n], own, expr);
        PathOf(entries[n], own, expr);
        FilesDistinctSnoc(fixed + DepPackages(deps, lic), files, f);
        FileIdIsNoPackageId(fixed, deps, lic, entries[n].name);
        FoundComposedFile(entries[..n], own, expr, entries[n].name);
        FoundComposedFile(entries[..n], own, expr, f.id);
        if entries[n].name in Names(entries[..n]) { IdOfName(entries[..n], entries[n].name); }
      }
    }
  }

  lemma ContainsSnoc(files: seq<File>, f: File, pair: string)
    ensures Linked(ContainsRelations(files + [f]), CONTAINS, pair) <==>
            Linked(ContainsRelations(files), CONTAINS, pair) || pair == ID_BUNDLE + "|" + f.id
  {
    assert (files + [f])[..|files|] == files;
    var before := ContainsRelations(files);
    assert (before + [Relation(ID_BUNDLE, CONTAINS, f.id)])[..|before|] == before;
  }

  lemma SumsOfComposed(e: Entry, own: string, expr: string)
    ensures FileOk(FileFor(e, own, expr), e, own, expr)
  {
    var sums := FileFor(e, own, expr).checksums;
    assert sums[..1] == [("SHA1", e.sha1)];
    assert "SHA1" != "SHA256";
  }

  /** Each entry is described by its own file, which the bundle contains. */
  lemma {:induction false} ComposedEntry(entries: seq<Entry>, own: string, expr: string, i: nat)
    requires NamesDistinct(entries) && i < |entries| && entries[i].name != SBOM_NAME
    ensures FoundFile(FilesFor(entries, own, expr), entries[i].name) == Some(FileFor(entries[i], own, expr))
    ensures Linked(ContainsRelations(FilesFor(entries, own, expr)), CONTAINS, ID_BUNDLE + "|" + FileId(entries[i].name))
  {
    var n := |entries| - 1;
    FilesSnoc(entries, own, expr);
    if i < n { ComposedEntry(entries[..n], own, expr, i); }
    if entries[n].name != SBOM_NAME {
      var files, f := FilesFor(entries[..n], own, expr), FileFor(entries[n], own, expr);
      PathOf(entries[n], own, expr);
      FoundComposedFile(entries[..n], own, expr, entries[i].name);
      FoundFileSnoc(files, f, entries[i].name);
      ContainsSnoc(files, f, ID_BUNDLE + "|" + FileId(entries[i].name));
    }
  }

  // ---------- The composed document ----------

  lemma {:induction false} LinkOf(deps: seq<Module>, i: nat)
    requires i < |deps|
    ensures Linked(LinkRelations(deps), STATIC_LINK, ID_MAIN + "|" + PackageId(deps[i].path))
  {
    var n := |deps| - 1;
    var before := LinkRelations(deps[..n]);
    assert LinkRelations(deps)[..|before|] == before;
    if i < n { LinkOf(deps[..n], i); }
  }

  /** doc was composed of these. */
  ghost predicate ComposedOf(doc: Document, hash: string -> string, s: Spec, entries: seq<Entry>, b: Build, lic: map<string, string>,
                             goHash: string, fixed: seq<Package>, expr: string) {
    && doc == Composed(hash, s, entries, b, lic, goHash) && expr == LicenseExpr(s.license, lic)
    && fixed == FixedPackages(hash, s, entries, b, expr, goHash) && IsFixed(fixed)
    && doc.packages == fixed + DepPackages(b.deps, lic) && doc.files == FilesFor(entries, s.license, expr)
    && doc.relations == Relations(s, doc.files, b.deps)
  }

  lemma ComposedParts(hash: string -> string, s: Spec, entries: seq<Entry>, b: Build, lic: map<string, string>, goHash: string)
    returns (doc: Document, fixed: seq<Package>, expr: string)
    ensures ComposedOf(doc, hash, s, entries, b, lic, goHash, fixed, expr)
  {
    doc := Composed(hash, s, entries, b, lic, goHash);
    expr := LicenseExpr(s.license, lic);
    fixed := FixedPackages(hash, s, entries, b, expr, goHash);
  }

  lemma FixedRelationsLink(s: Spec)
    ensures FixedLinks(FixedRelations(s), s)
  {
    var bin := FileId(s.Binary());
    var three := FixedRelations(s);
    assert three[..2][..1] == three[..1] && three[..3] == three;
    assert Linked(three[..1], GENERATED_FROM, bin + "|" + ID_MAIN);
    LinkedConcat(three[..1], three[1..], GENERATED_FROM, bin + "|" + ID_MAIN);
    assert three[..1] + three[1..] == three;
    assert Linked(three[..2], BUILD_TOOL_OF, ID_GO + "|" + bin);
    LinkedConcat(three[..2], three[2..], BUILD_TOOL_OF, ID_GO + "|" + bin);
    assert three[..2] + three[2..] == three;
    assert Linked(three, STATIC_LINK, ID_MAIN + "|" + ID_STDLIB);
  }

  lemma RelationsLink(s: Spec, files: seq<File>, deps: seq<Module>)
    ensures FixedLinks(Relations(s, files, deps), s)
    ensures forall i :: 0 <= i < |deps| ==>
              Linked(Relations(s, files, deps), STATIC_LINK, ID_MAIN + "|" + PackageId(deps[i].path))
  {
    var before := [Relation(ID_DOCUMENT, "DESCRIBES", ID_BUNDLE)] + ContainsRelations(files);
    var three, links := FixedRelations(s), LinkRelations(deps);
    var bin := FileId(s.Binary());
    FixedRelationsLink(s);
    LinkedPart(before, three, links, GENERATED_FROM, bin + "|" + ID_MAIN);
    LinkedPart(before, three, links, BUILD_TOOL_OF, ID_GO + "|" + bin);
    LinkedPart(before, three, links, STATIC_LINK, ID_MAIN + "|" + ID_STDLIB);
    forall i | 0 <= i < |deps|
      ensures Linked(Relations(s, files, deps), STATIC_LINK, ID_MAIN + "|" + PackageId(deps[i].path))
    {
      LinkOf(deps, i);
      LinkedConcat(before + three, links, STATIC_LINK, ID_MAIN + "|" + PackageId(deps[i].path));
    }
  }

  lemma RelationsContain(s: Spec, files: seq<File>, deps: seq<Module>, pair: string)
    requires Linked(ContainsRelations(files), CONTAINS, pair)
    ensures Linked(Relations(s, files, deps), CONTAINS, pair)
  {
    var head := [Relation(ID_DOCUMENT, "DESCRIBES", ID_BUNDLE)];
    LinkedConcat(head, ContainsRelations(files), CONTAINS, pair);
    LinkedConcat(head + ContainsRelations(files), FixedRelations(s), CONTAINS, pair);
    LinkedConcat(head + ContainsRelations(files) + FixedRelations(s), LinkRelations(deps), CONTAINS, pair);
  }

  /** With ids apart, a module of the composed document passes exactly when its hash can be read back. */
  lemma ComposedDep(doc: Document, fixed: seq<Package>, deps: seq<Module>, lic: map<string, string>, i: nat)
    requires IsFixed(fixed) && doc.packages == fixed + DepPackages(deps, lic) && DepsApart(deps) && i < |deps|
    requires Linked(doc.relations, STATIC_LINK, ID_MAIN + "|" + PackageId(deps[i].path))
    ensures DepRecorded(doc, deps[i], lic) <==> SumReadable(deps[i])
  {
    FoundDep(fixed, deps, lic, deps[i], PackageId(deps[i].path));
    DepPackagePasses(deps[i], lic);
  }

  lemma {:induction false} ComposedDeps(doc: Document, deps: seq<Module>, lic: map<string, string>)
    requires forall i :: 0 <= i < |deps| ==> (DepRecorded(doc, deps[i], lic) <==> SumReadable(deps[i]))
    ensures DepsRecorded(doc, deps, lic) <==> SumsReadable(deps)
  {
    hide DepRecorded, SumReadable;
    if deps != [] {
      var n := |deps| - 1;
      assert forall i :: 0 <= i < n ==> deps[..n][i] == deps[i];
      ComposedDeps(doc, deps[..n], lic);
    }
  }

  lemma {:induction false} ComposedEntries(doc: Document, entries: seq<Entry>, own: string, expr: string)
    requires forall i :: 0 <= i < |entries| && entries[i].name != SBOM_NAME ==>
               EntryRecorded(doc.relations, FoundFile(doc.files, entries[i].name), entries[i], own, expr)
    ensures EntriesRecorded(doc, entries, own, expr)
  {
    if entries != [] {
      var n := |entries| - 1;
      assert forall i :: 0 <= i < n ==> entries[..n][i] == entries[i];
      ComposedEntries(doc, entries[..n], own, expr);
    }
  }

  lemma ComposedNoStrays(entries: seq<Entry>, own: string, expr: string)
    ensures NoStrays(FilesFor(entries, own, expr), entries)
  {
    forall f | f in FilesFor(entries, own, expr) ensures f.Path() in Names(entries) {
      FoundFileMeaning(FilesFor(entries, own, expr), f.Path());
      FoundComposedFile(entries, own, expr, f.Path());
    }
  }

  lemma ComposedFiles(hash: string -> string, s: Spec, entries: seq<Entry>, b: Build, lic: map<string, string>, goHash: string)
    requires FilesApart(entries)
    ensures var doc := Composed(hash, s, entries, b, lic, goHash);
            && NamesDistinct(entries) && NoStrays(doc.files, entries)
            && EntriesRecorded(doc, entries, s.license, LicenseExpr(s.license, lic))
  {
    var doc, fixed, expr := ComposedParts(hash, s, entries, b, lic, goHash);
    FilesApartNames(entries);
    ComposedNoStrays(entries, s.license, expr);
    forall i | 0 <= i < |entries| && entries[i].name != SBOM_NAME
      ensures EntryRecorded(doc.relations, FoundFile(doc.files, entries[i].name), entries[i], s.license, expr)
    {
      ComposedEntry(entries, s.license, expr, i);
      SumsOfComposed(entries[i], s.license, expr);
      RelationsContain(s, doc.files, b.deps, ID_BUNDLE + "|" + FileId(entries[i].name));
    }
    ComposedEntries(doc, entries, s.license, expr);
  }

  lemma ComposedFixed(hash: string -> string, s: Spec, entries: seq<Entry>, b: Build, lic: map<string, string>, goHash: string)
    requires CommitOk(s)
    ensures var doc, expr := Composed(hash, s, entries, b, lic, goHash), LicenseExpr(s.license, lic);
            && HeadOk(doc, s)
            && BundleOk(Found(doc.packages, ID_BUNDLE), hash, s, entries, expr) && MainOk(Found(doc.packages, ID_MAIN), s, b)
            && ToolOk(Found(doc.packages, ID_GO), b) && RuntimeOk(Found(doc.packages, ID_STDLIB), b, goHash)
  {
    var doc, fixed, expr := ComposedParts(hash, s, entries, b, lic, goHash);
    FoundFixed(fixed, ID_BUNDLE);
    FoundComposed(fixed, b.deps, lic, ID_BUNDLE);
    FoundComposed(fixed, b.deps, lic, ID_MAIN);
    FoundComposed(fixed, b.deps, lic, ID_GO);
    FoundComposed(fixed, b.deps, lic, ID_STDLIB);
    MainPackagePasses(s, b);
    StdlibPackagePasses(b, goHash);
  }

  /**
   * The check accepts the document composed from the same bundle and program exactly when no two modules
   * share a package id with each other or with a fixed one, no two files share a file id, and every go.sum
   * hash can be read back from its comment.
   */
  lemma OwnDocumentAccepted(hash: string -> string, s: Spec, entries: seq<Entry>, b: Build, lic: map<string, string>, goHash: string)
    requires CommitOk(s)
    ensures Accepts(Composed(hash, s, entries, b, lic, goHash), hash, s, entries, b, lic, goHash) <==>
            DepsApart(b.deps) && FilesApart(entries) && SumsReadable(b.deps)
  {
    var doc, fixed, expr := ComposedParts(hash, s, entries, b, lic, goHash);
    ComposedFixed(hash, s, entries, b, lic, goHash);
    FoundComposed(fixed, b.deps, lic, ID_BUNDLE);
    ComposedAllowed(fixed, b, lic);
    RelationsLink(s, doc.files, b.deps);
    ComposedFilesDistinct(fixed, b.deps, lic, entries, s.license, expr);
    if FilesApart(entries) { ComposedFiles(hash, s, entries, b, lic, goHash); }
    if DepsApart(b.deps) {
      forall i | 0 <= i < |b.deps| ensures DepRecorded(doc, b.deps[i], lic) <==> SumReadable(b.deps[i]) {
        ComposedDep(doc, fixed, b.deps, lic, i);
      }
      ComposedDeps(doc, b.deps, lic);
    }
  }
}

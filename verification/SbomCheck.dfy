/** checkDoc and matchNotices of tools/sbom/main.go. */
module SbomCheck {
  import opened Basics
  import opened Text
  import opened Sbom

  datatype Note =
    | Head | SameId(id: string) | Stray(id: string) | BundleWrong | MainWrong | ToolWrong | RuntimeWrong
    | DepWrong(path: string) | NotLinked(kind: string)
    | SameFile(path: string) | FileMissing(path: string) | FileWrong(path: string) | FileStray(path: string)
    | NotInTable(key: string) | NoSection(key: string) | NotInProgram(key: string)

  // ---------- What an accepted document is ----------

  /** The first package with that id. */
  function Found(packages: seq<Package>, id: string): Option<Package> {
    if packages == [] then None else
    var before, last := Found(packages[..|packages| - 1], id), packages[|packages| - 1];
    if before.Some? then before else if last.id == id then Some(last) else None
  }

  predicate IdsDistinct(packages: seq<Package>) {
    packages == [] ||
    var n := |packages| - 1;
    IdsDistinct(packages[..n]) && Found(packages[..n], packages[n].id).None?
  }

  function DepIds(deps: seq<Module>): set<string> {
    if deps == [] then {} else DepIds(deps[..|deps| - 1]) + {PackageId(deps[|deps| - 1].path)}
  }

  /** The package ids a document may use. */
  function Allowed(b: Build): set<string> { FIXED + DepIds(b.deps) }

  predicate AllAllowed(packages: seq<Package>, allowed: set<string>) {
    forall p :: p in packages ==> p.id in allowed
  }

  /** The check looks relations up by their two ends put together. */
  predicate Linked(relations: seq<Relation>, kind: string, pair: string) {
    relations != [] &&
    var n := |relations| - 1;
    (relations[n].kind == kind && relations[n].from + "|" + relations[n].to == pair) || Linked(relations[..n], kind, pair)
  }

  predicate HeadOk(doc: Document, s: Spec) {
    && doc.spdxVersion == "SPDX-2.3" && doc.dataLicense == "CC0-1.0"
    && doc.name == s.Bundle() + "-" + s.version && doc.describes == [ID_BUNDLE]
  }

  predicate BundleOk(p: Option<Package>, hash: string -> string, s: Spec, entries: seq<Entry>, expr: string) {
    && p.Some? && p.value.filesAnalyzed
    && p.value.code == Some(Code(VerificationCode(hash, entries), ["./" + SBOM_NAME]))
    && p.value.name == s.Bundle() && p.value.version == s.version
    && p.value.declared == s.license && p.value.concluded == expr
  }

  predicate MainOk(p: Option<Package>, s: Spec, b: Build) {
    && p.Some? && p.value.name == b.mainPath && p.value.version == "v" + s.version
    && p.value.purls == [Purl(b.mainPath, "v" + s.version)]
    && p.value.concluded == s.license && p.value.declared == s.license
    && RevisionOf(p.value.comment) == s.commit && Contains(p.value.comment, STOP + MAIN_PACKAGE + s.pkgPath)
  }

  predicate ToolOk(p: Option<Package>, b: Build) {
    p.Some? && p.value.version == GoVersion(b) && p.value.concluded == GO_LICENSE
  }

  predicate RuntimeOk(p: Option<Package>, b: Build, goHash: string) {
    ToolOk(p, b) && Contains(p.value.comment, HASH_MARK + goHash)
  }

  predicate DepOk(p: Package, d: Module, lic: map<string, string>) {
    && p.name == d.path && p.version == d.version && p.concluded == LicenseOf(lic, d.Key())
    && HasPrefix(p.comment, GO_SUM) && SumIn(p.comment) == d.sum
    && (if d.orig != "" then Contains(p.comment, ReplacedNote(d)) else !Contains(p.comment, REPLACED))
  }

  predicate DepRecorded(doc: Document, d: Module, lic: map<string, string>) {
    var p := Found(doc.packages, PackageId(d.path));
    p.Some? && DepOk(p.value, d, lic) && Linked(doc.relations, STATIC_LINK, ID_MAIN + "|" + PackageId(d.path))
  }

  predicate DepsRecorded(doc: Document, deps: seq<Module>, lic: map<string, string>) {
    deps == [] ||
    var n := |deps| - 1;
    DepsRecorded(doc, deps[..n], lic) && DepRecorded(doc, deps[n], lic)
  }

  predicate FixedLinks(relations: seq<Relation>, s: Spec) {
    && Linked(relations, STATIC_LINK, ID_MAIN + "|" + ID_STDLIB)
    && Linked(relations, BUILD_TOOL_OF, ID_GO + "|" + FileId(s.Binary()))
    && Linked(relations, GENERATED_FROM, FileId(s.Binary()) + "|" + ID_MAIN)
  }

  function FoundFile(files: seq<File>, path: string): Option<File> {
    if files == [] then None else
    var before, last := FoundFile(files[..|files| - 1], path), files[|files| - 1];
    if before.Some? then before else if last.Path() == path then Some(last) else None
  }

  predicate HasFileId(files: seq<File>, id: string) {
    files != [] && (files[|files| - 1].id == id || HasFileId(files[..|files| - 1], id))
  }

  /** No path and no id occurs twice, and no id is a package's. */
  predicate FilesDistinct(packages: seq<Package>, files: seq<File>) {
    files == [] ||
    var n := |files| - 1;
    && FilesDistinct(packages, files[..n]) && FoundFile(files[..n], files[n].Path()).None?
    && !HasFileId(files[..n], files[n].id) && Found(packages, files[n].id).None?
  }

  function SumOf(checksums: seq<(string, string)>, algorithm: string): string {
    if checksums == [] then "" else
    var n := |checksums| - 1;
    if checksums[n].0 == algorithm then checksums[n].1 else SumOf(checksums[..n], algorithm)
  }

  predicate FileOk(f: File, e: Entry, own: string, expr: string) {
    && SumOf(f.checksums, "SHA1") == e.sha1 && SumOf(f.checksums, "SHA256") == e.sha256
    && f.concluded == FileLicense(e.name, own, expr)
  }

  predicate EntryRecorded(relations: seq<Relation>, f: Option<File>, e: Entry, own: string, expr: string) {
    f.Some? && FileOk(f.value, e, own, expr) && Linked(relations, CONTAINS, ID_BUNDLE + "|" + f.value.id)
  }

  /** The names of the files to describe. */
  function Names(entries: seq<Entry>): set<string> {
    if entries == [] then {} else
    var n := |entries| - 1;
    Names(entries[..n]) + if entries[n].name == SBOM_NAME then {} else {entries[n].name}
  }

  predicate NamesDistinct(entries: seq<Entry>) {
    entries == [] ||
    var n := |entries| - 1;
    NamesDistinct(entries[..n]) && (entries[n].name == SBOM_NAME || entries[n].name !in Names(entries[..n]))
  }

  predicate EntriesRecorded(doc: Document, entries: seq<Entry>, own: string, expr: string) {
    entries == [] ||
    var n := |entries| - 1;
    && EntriesRecorded(doc, entries[..n], own, expr)
    && (entries[n].name == SBOM_NAME || EntryRecorded(doc.relations, FoundFile(doc.files, entries[n].name), entries[n], own, expr))
  }

  predicate NoStrays(files: seq<File>, entries: seq<Entry>) {
    forall f :: f in files ==> f.Path() in Names(entries)
  }

  ghost predicate Accepts(doc: Document, hash: string -> string, s: Spec, entries: seq<Entry>, b: Build, lic: map<string, string>, goHash: string) {
    var expr := LicenseExpr(s.license, lic);
    && HeadOk(doc, s)
    && IdsDistinct(doc.packages) && AllAllowed(doc.packages, Allowed(b))
    && BundleOk(Found(doc.packages, ID_BUNDLE), hash, s, entries, expr) && MainOk(Found(doc.packages, ID_MAIN), s, b)
    && ToolOk(Found(doc.packages, ID_GO), b) && RuntimeOk(Found(doc.packages, ID_STDLIB), b, goHash)
    && DepsRecorded(doc, b.deps, lic) && FixedLinks(doc.relations, s)
    && FilesDistinct(doc.packages, doc.files)
    && NamesDistinct(entries) && EntriesRecorded(doc, entries, s.license, expr) && NoStrays(doc.files, entries)
  }

  // ---------- The code ----------

  /** pk holds the first package of each allowed id. */
  ghost predicate Indexes(pk: map<string, Package>, packages: seq<Package>, allowed: set<string>) {
    forall id :: id in allowed ==>
      (id in pk <==> Found(packages, id).Some?) && (id in pk ==> Found(packages, id) == Some(pk[id]))
  }

  method IndexPackages(packages: seq<Package>, allowed: set<string>)
    returns (bad: seq<Note>, ids: set<string>, pk: map<string, Package>)
    ensures bad == [] <==> IdsDistinct(packages) && AllAllowed(packages, allowed)
    ensures forall id :: id in ids <==> Found(packages, id).Some?
    ensures Indexes(pk, packages, allowed)
  {
    bad, ids, pk := [], {}, map[];
    for i := 0 to |packages|
      invariant bad == [] <==> IdsDistinct(packages[..i]) && AllAllowed(packages[..i], allowed)
      invariant forall id :: id in ids <==> Found(packages[..i], id).Some?
      invariant Indexes(pk, packages[..i], allowed)
    {
      var p := packages[i];
      assert packages[..i + 1][..i] == packages[..i];
      assert forall q :: q in packages[..i + 1] <==> q in packages[..i] || q == p;
      if p.id in ids {
        bad := bad + [SameId(p.id)];
        continue;
      }
      ids := ids + {p.id};
      if p.id !in allowed {
        bad := bad + [Stray(p.id)];
        continue;
      }
      pk := pk[p.id := p];
    }
    assert packages[..|packages|] == packages;
  }

  function Lookup<T>(m: map<string, T>, id: string): Option<T> { if id in m then Some(m[id]) else None }

  method IndexRelations(relations: seq<Relation>) returns (rels: map<string, set<string>>)
    ensures forall kind, pair :: Linked(relations, kind, pair) <==> kind in rels && pair in rels[kind]
  {
    rels := map[];
    for i := 0 to |relations|
      invariant forall kind, pair :: Linked(relations[..i], kind, pair) <==> kind in rels && pair in rels[kind]
    {
      var r := relations[i];
      assert relations[..i + 1][..i] == relations[..i];
      if r.kind !in rels { rels := rels[r.kind := {}]; }
      rels := rels[r.kind := rels[r.kind] + {r.from + "|" + r.to}];
    }
    assert relations[..|relations|] == relations;
  }

  /** rels answers what Linked asks. */
  ghost predicate Answers(rels: map<string, set<string>>, relations: seq<Relation>) {
    forall kind, pair :: Linked(relations, kind, pair) <==> kind in rels && pair in rels[kind]
  }

  predicate Has(rels: map<string, set<string>>, kind: string, pair: string) { kind in rels && pair in rels[kind] }

  method CheckDep(doc: Document, d: Module, lic: map<string, string>, pk: map<string, Package>,
                  rels: map<string, set<string>>, ghost allowed: set<string>)
    returns (bad: seq<Note>)
    requires Indexes(pk, doc.packages, allowed) && Answers(rels, doc.relations) && PackageId(d.path) in allowed
    ensures bad == [] <==> DepRecorded(doc, d, lic)
  {
    var id := PackageId(d.path);
    if id !in pk { return [DepWrong(d.path)]; }
    bad := if DepOk(pk[id], d, lic) then [] else [DepWrong(d.path)];
    if !Has(rels, STATIC_LINK, ID_MAIN + "|" + id) { bad := bad + [NotLinked(STATIC_LINK)]; }
  }

  /** The loop over the modules of the program. */
  method CheckDeps(doc: Document, deps: seq<Module>, lic: map<string, string>, pk: map<string, Package>,
                   rels: map<string, set<string>>, ghost allowed: set<string>)
    returns (bad: seq<Note>)
    requires Indexes(pk, doc.packages, allowed) && Answers(rels, doc.relations) && DepIds(deps) <= allowed
    ensures bad == [] <==> DepsRecorded(doc, deps, lic)
  {
    bad := [];
    for i := 0 to |deps|
      invariant bad == [] <==> DepsRecorded(doc, deps[..i], lic)
    {
      hide DepRecorded;
      assert deps[..i + 1][..i] == deps[..i];
      DepIdListed(deps, i);
      var more := CheckDep(doc, deps[i], lic, pk, rels, allowed);
      bad := bad + more;
    }
    assert deps[..|deps|] == deps;
  }

  lemma {:induction false} DepIdListed(deps: seq<Module>, i: nat)
    requires i < |deps|
    ensures PackageId(deps[i].path) in DepIds(deps)
  {
    if i < |deps| - 1 {
      assert deps[..|deps| - 1][i] == deps[i];
      DepIdListed(deps[..|deps| - 1], i);
    }
  }

  /** fl holds the file of each path. */
  ghost predicate IndexesFiles(fl: map<string, File>, files: seq<File>) {
    forall path :: FoundFile(files, path) == Lookup(fl, path)
  }

  /** The loop over the files of the document; ids already holds the ids of its packages. */
  method IndexFiles(packages: seq<Package>, files: seq<File>, ids: set<string>)
    returns (bad: seq<Note>, fl: map<string, File>)
    requires forall id :: id in ids <==> Found(packages, id).Some?
    ensures bad == [] <==> FilesDistinct(packages, files)
    ensures bad == [] ==> IndexesFiles(fl, files)
  {
    bad, fl := [], map[];
    var seen := ids;
    for i := 0 to |files|
      invariant bad == [] <==> FilesDistinct(packages, files[..i])
      invariant bad == [] ==> IndexesFiles(fl, files[..i])
      invariant bad == [] ==> forall id :: id in seen <==> Found(packages, id).Some? || HasFileId(files[..i], id)
    {
      var f := files[i];
      assert files[..i + 1][..i] == files[..i];
      assert bad == [] ==> FoundFile(files[..i], f.Path()) == Lookup(fl, f.Path());
      if f.Path() in fl {
        bad := bad + [SameFile(f.Path())];
        continue;
      }
      if f.id in seen {
        bad := bad + [SameId(f.id)];
        continue;
      }
      seen := seen + {f.id};
      fl := fl[f.Path() := f];
    }
    assert files[..|files|] == files;
  }

  predicate AllMatch(fl: map<string, File>, relations: seq<Relation>, entries: seq<Entry>, own: string, expr: string) {
    entries == [] ||
    var n := |entries| - 1;
    && AllMatch(fl, relations, entries[..n], own, expr)
    && (entries[n].name == SBOM_NAME || EntryRecorded(relations, Lookup(fl, entries[n].name), entries[n], own, expr))
  }

  /** fl without the files of these entries. */
  ghost predicate LeftOf(rest: map<string, File>, fl: map<string, File>, names: set<string>) {
    && (forall path :: path in rest <==> path in fl && path !in names)
    && (forall path :: path in rest ==> rest[path] == fl[path])
  }

  /** The loop over the bundle: each entry takes its file out of the table, and what is left over is a stray. */
  method MatchFiles(fl: map<string, File>, relations: seq<Relation>, rels: map<string, set<string>>,
                    entries: seq<Entry>, own: string, expr: string)
    returns (bad: seq<Note>)
    requires Answers(rels, relations)
    ensures bad == [] <==>
              && NamesDistinct(entries) && AllMatch(fl, relations, entries, own, expr)
              && (forall path :: path in fl ==> path in Names(entries))
  {
    bad := [];
    var rest := fl;
    for i := 0 to |entries|
      invariant bad == [] <==> NamesDistinct(entries[..i]) && AllMatch(fl, relations, entries[..i], own, expr)
      invariant bad == [] ==> LeftOf(rest, fl, Names(entries[..i]))
    {
      var e := entries[i];
      assert entries[..i + 1][..i] == entries[..i];
      if e.name == SBOM_NAME { continue; }
      if e.name !in rest {
        bad := bad + [FileMissing(e.name)];
        continue;
      }
      var f := rest[e.name];
      if !FileOk(f, e, own, expr) || !Has(rels, CONTAINS, ID_BUNDLE + "|" + f.id) { bad := bad + [FileWrong(e.name)]; }
      rest := rest - {e.name};
    }
    assert entries[..|entries|] == entries;
    ghost var matched := bad == [];
    var order := RangeOver(rest.Keys);
    for i := 0 to |order|
      invariant bad == [] <==> matched && i == 0
    {
      bad := bad + [FileStray(order[i])];
    }
    assert |order| > 0 ==> order[0] in rest;
    assert forall path :: path in rest ==> path in order;
  }

  lemma {:induction false} MatchIsRecorded(doc: Document, fl: map<string, File>, entries: seq<Entry>, own: string, expr: string)
    requires IndexesFiles(fl, doc.files)
    ensures AllMatch(fl, doc.relations, entries, own, expr) <==> EntriesRecorded(doc, entries, own, expr)
  {
    if entries != [] {
      MatchIsRecorded(doc, fl, entries[..|entries| - 1], own, expr);
      assert FoundFile(doc.files, entries[|entries| - 1].name) == Lookup(fl, entries[|entries| - 1].name);
    }
  }

  lemma {:induction false} FoundFileMeaning(files: seq<File>, path: string)
    ensures FoundFile(files, path).Some? <==> exists f :: f in files && f.Path() == path
    ensures FoundFile(files, path).Some? ==> FoundFile(files, path).value in files && FoundFile(files, path).value.Path() == path
  {
    if files != [] {
      var n := |files| - 1;
      FoundFileMeaning(files[..n], path);
      assert files == files[..n] + [files[n]];
    }
  }

  lemma StraysAreLeftOver(fl: map<string, File>, files: seq<File>, entries: seq<Entry>)
    requires IndexesFiles(fl, files)
    ensures NoStrays(files, entries) <==> forall path :: path in fl ==> path in Names(entries)
  {
    if NoStrays(files, entries) {
      forall path | path in fl ensures path in Names(entries) {
        assert FoundFile(files, path) == Lookup(fl, path);
        FoundFileMeaning(files, path);
      }
    }
    if forall path :: path in fl ==> path in Names(entries) {
      forall f | f in files ensures f.Path() in Names(entries) {
        FoundFileMeaning(files, f.Path());
        assert FoundFile(files, f.Path()) == Lookup(fl, f.Path());
      }
    }
  }

  method CheckFixed(doc: Document, hash: string -> string, s: Spec, entries: seq<Entry>, b: Build, expr: string, goHash: string,
                    pk: map<string, Package>, ghost allowed: set<string>)
    returns (bad: seq<Note>)
    requires Indexes(pk, doc.packages, allowed) && FIXED <= allowed
    ensures bad == [] <==>
              && HeadOk(doc, s)
              && BundleOk(Found(doc.packages, ID_BUNDLE), hash, s, entries, expr) && MainOk(Found(doc.packages, ID_MAIN), s, b)
              && ToolOk(Found(doc.packages, ID_GO), b) && RuntimeOk(Found(doc.packages, ID_STDLIB), b, goHash)
  {
    bad := if HeadOk(doc, s) then [] else [Head];
    assert {ID_BUNDLE, ID_MAIN, ID_GO, ID_STDLIB} <= allowed;
    if !BundleOk(Lookup(pk, ID_BUNDLE), hash, s, entries, expr) { bad := bad + [BundleWrong]; }
    if !MainOk(Lookup(pk, ID_MAIN), s, b) { bad := bad + [MainWrong]; }
    if !ToolOk(Lookup(pk, ID_GO), b) { bad := bad + [ToolWrong]; }
    if !RuntimeOk(Lookup(pk, ID_STDLIB), b, goHash) { bad := bad + [RuntimeWrong]; }
  }

  method CheckLinks(doc: Document, s: Spec, rels: map<string, set<string>>) returns (bad: seq<Note>)
    requires Answers(rels, doc.relations)
    ensures bad == [] <==> FixedLinks(doc.relations, s)
  {
    var bin := FileId(s.Binary());
    bad := if Has(rels, STATIC_LINK, ID_MAIN + "|" + ID_STDLIB) then [] else [NotLinked(STATIC_LINK)];
    if !Has(rels, BUILD_TOOL_OF, ID_GO + "|" + bin) { bad := bad + [NotLinked(BUILD_TOOL_OF)]; }
    if !Has(rels, GENERATED_FROM, bin + "|" + ID_MAIN) { bad := bad + [NotLinked(GENERATED_FROM)]; }
  }

  method CheckFiles(doc: Document, ids: set<string>, rels: map<string, set<string>>, entries: seq<Entry>, own: string, expr: string)
    returns (bad: seq<Note>)
    requires Answers(rels, doc.relations) && forall id :: id in ids <==> Found(doc.packages, id).Some?
    ensures bad == [] <==>
              && FilesDistinct(doc.packages, doc.files)
              && NamesDistinct(entries) && EntriesRecorded(doc, entries, own, expr) && NoStrays(doc.files, entries)
  {
    var clash, fl := IndexFiles(doc.packages, doc.files, ids);
    var wrong := MatchFiles(fl, doc.relations, rels, entries, own, expr);
    if clash == [] {
      MatchIsRecorded(doc, fl, entries, own, expr);
      StraysAreLeftOver(fl, doc.files, entries);
    }
    bad := clash + wrong;
  }

  /** checkDoc finds nothing wrong exactly when the document is an accepted one. */
  method CheckDoc(doc: Document, hash: string -> string, s: Spec, entries: seq<Entry>, b: Build, lic: map<string, string>, goHash: string)
    returns (bad: seq<Note>)
    ensures bad == [] <==> Accepts(doc, hash, s, entries, b, lic, goHash)
  {
    var expr := ComputeLicense(s.license, lic);
    var ids, pk;
    bad, ids, pk := IndexPackages(doc.packages, Allowed(b));
    var heads := CheckFixed(doc, hash, s, entries, b, expr, goHash, pk, Allowed(b));
    var rels := IndexRelations(doc.relations);
    var deps := CheckDeps(doc, b.deps, lic, pk, rels, Allowed(b));
    var links := CheckLinks(doc, s, rels);
    var files := CheckFiles(doc, ids, rels, entries, s.license, expr);
    bad := bad + heads + deps + links + files;
  }

  // ---------- matchNotices ----------

  /** The module is in the table and has its section. */
  predicate Listed(n: Notices, d: Module) { d.Key() in n.table && n.HasSection(d) }

  /** Every module is in the table and has its section, and every row of the table is a module. */
  predicate Covers(n: Notices, deps: seq<Module>) {
    && (forall d :: d in deps ==> Listed(n, d))
    && (forall key :: key in n.table ==> exists d :: d in deps && d.Key() == key)
  }

  function KeysOf(deps: seq<Module>): set<string> {
    if deps == [] then {} else KeysOf(deps[..|deps| - 1]) + {deps[|deps| - 1].Key()}
  }

  /** Every module is in the table and has its section. */
  predicate AllListed(n: Notices, deps: seq<Module>) {
    deps == [] || (AllListed(n, deps[..|deps| - 1]) && Listed(n, deps[|deps| - 1]))
  }

  lemma LastOrBefore<T(!new)>(s: seq<T>)
    requires s != []
    ensures forall x :: x in s <==> x in s[..|s| - 1] || x == s[|s| - 1]
  {
    assert s == s[..|s| - 1] + [s[|s| - 1]];
  }

  lemma {:induction false} KeysOfMeaning(deps: seq<Module>, key: string)
    ensures key in KeysOf(deps) <==> exists d :: d in deps && d.Key() == key
  {
    hide Module.Key;
    if deps != [] {
      var k := |deps| - 1;
      KeysOfMeaning(deps[..k], key);
      assert deps == deps[..k] + [deps[k]];
    }
  }

  lemma {:induction false} AllListedMeaning(n: Notices, deps: seq<Module>)
    ensures AllListed(n, deps) <==> forall d :: d in deps ==> Listed(n, d)
  {
    hide Listed;
    if deps != [] {
      var k := |deps| - 1;
      AllListedMeaning(n, deps[..k]);
      LastOrBefore(deps);
    }
  }

  /** The loop of matchNotices over the modules. */
  method LookUpModules(deps: seq<Module>, n: Notices) returns (bad: seq<Note>, seen: set<string>, lic: map<string, string>)
    ensures bad == [] <==> AllListed(n, deps)
    ensures seen == KeysOf(deps) * n.table.Keys && lic == map key | key in seen :: n.table[key]
  {
    hide Notices.HasSection, Module.Key;
    bad, seen, lic := [], {}, map[];
    for i := 0 to |deps|
      invariant bad == [] <==> AllListed(n, deps[..i])
      invariant seen == KeysOf(deps[..i]) * n.table.Keys && lic == map key | key in seen :: n.table[key]
    {
      assert deps[..i + 1][..i] == deps[..i];
      var key := deps[i].Key();
      if key !in n.table {
        bad := bad + [NotInTable(key)];
        continue;
      }
      if !n.HasSection(deps[i]) { bad := bad + [NoSection(key)]; }
      seen := seen + {key};
      lic := lic[key := n.table[key]];
    }
    assert deps[..|deps|] == deps;
  }

  /** The loop of matchNotices over the table. */
  method LookUpRows(n: Notices, seen: set<string>) returns (bad: seq<Note>)
    ensures bad == [] <==> n.table.Keys <= seen
  {
    bad := [];
    var order := RangeOver(n.table.Keys);
    for i := 0 to |order|
      invariant bad == [] <==> forall j :: 0 <= j < i ==> order[j] in seen
    {
      if order[i] !in seen { bad := bad + [NotInProgram(order[i])]; }
    }
  }

  lemma CoversMeaning(n: Notices, deps: seq<Module>)
    ensures Covers(n, deps) <==>
              && (forall d :: d in deps ==> d.path + "@" + d.version in n.table && "## " + d.path + " " + d.version in n.lines)
              && (forall key :: key in n.table ==> exists d :: d in deps && d.path + "@" + d.version == key)
  {
  }

  lemma CoversByLoops(deps: seq<Module>, n: Notices, seen: set<string>)
    requires seen == KeysOf(deps) * n.table.Keys
    ensures AllListed(n, deps) && n.table.Keys <= seen <==> Covers(n, deps)
  {
    hide Notices.HasSection, Module.Key;
    forall key ensures key in KeysOf(deps) <==> exists d :: d in deps && d.Key() == key { KeysOfMeaning(deps, key); }
    AllListedMeaning(n, deps);
  }

  /** matchNotices, with the licence of each module by its key. */
  method MatchNotices(deps: seq<Module>, n: Notices) returns (bad: seq<Note>, lic: map<string, string>)
    ensures bad == [] <==>
              && (forall d :: d in deps ==> d.path + "@" + d.version in n.table && "## " + d.path + " " + d.version in n.lines)
              && (forall key :: key in n.table ==> exists d :: d in deps && d.path + "@" + d.version == key)
    ensures bad == [] ==> lic == n.table
  {
    hide AllListed, Covers, KeysOf, Module.Key;
    var unlisted, seen, found := LookUpModules(deps, n);
    var unused := LookUpRows(n, seen);
    bad, lic := unlisted + unused, found;
    CoversByLoops(deps, n, seen);
    CoversMeaning(n, deps);
  }
}

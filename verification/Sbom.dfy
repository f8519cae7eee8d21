/** tools/sbom/main.go: the document that describes a release bundle, and the check a released one must pass. */
module Sbom {
  import opened Basics
  import opened Sorting
  import opened Text

  // ---------- What goes in ----------

  /** The options, with program and module paths filled in. */
  datatype Spec = Spec(
    program: string, arch: string, version: string, commit: string, repo: string, license: string, pkgPath: string)
  {
    function Bundle(): string { program + "-linux-" + arch }

    function Binary(): string { "bin/" + program }
  }

  datatype Entry = Entry(name: string, sha1: string, sha256: string)

  /** A module linked into the program; orig is the one it replaces, or empty. */
  datatype Module = Module(path: string, version: string, sum: string, orig: string) {
    function Key(): string { path + "@" + version }
  }

  datatype Build = Build(goVersion: string, mainPath: string, mainVer: string, deps: seq<Module>)

  /** The third-party notices: the table, and the trimmed lines of the text. */
  datatype Notices = Notices(table: map<string, string>, lines: seq<string>) {
    predicate HasSection(m: Module) { "## " + m.path + " " + m.version in lines }
  }

  // ---------- The document, as far as the check looks at it ----------

  datatype Code = Code(value: string, excluded: seq<string>)

  datatype Package = Package(
    id: string, name: string, version: string, filesAnalyzed: bool, code: Option<Code>,
    concluded: string, declared: string, purls: seq<string>, comment: string)

  datatype File = File(name: string, id: string, checksums: seq<(string, string)>, concluded: string) {
    function Path(): string { TrimPrefix(name, "./") }
  }

  datatype Relation = Relation(from: string, kind: string, to: string)

  datatype Document = Document(
    spdxVersion: string, dataLicense: string, name: string,
    packages: seq<Package>, files: seq<File>, relations: seq<Relation>, describes: seq<string>)

  const SBOM_NAME := "sbom.spdx.json"
  const NOTICES_NAME := "THIRD-PARTY-NOTICES.md"
  const GO_LICENSE := "BSD-3-Clause"
  const NO_ASSERTION := "NOASSERTION"

  const ID_DOCUMENT := "SPDXRef-DOCUMENT"
  const ID_BUNDLE := "SPDXRef-Package-bundle"
  const ID_MAIN := "SPDXRef-Package-main"
  const ID_GO := "SPDXRef-Package-go"
  const ID_STDLIB := "SPDXRef-Package-go-stdlib"

  const FIXED := {ID_BUNDLE, ID_MAIN, ID_GO, ID_STDLIB}

  const GENERATED_FROM := "GENERATED_FROM"
  const BUILD_TOOL_OF := "BUILD_TOOL_OF"
  const STATIC_LINK := "STATIC_LINK"
  const CONTAINS := "CONTAINS"

  // ---------- Texts ----------

  function Clean(c: char): char {
    if 'a' <= c <= 'z' || 'A' <= c <= 'Z' || '0' <= c <= '9' || c == '.' || c == '-' then c else '-'
  }

  function Cleaned(name: string): (r: string)
    ensures |r| == |name|
  {
    if name == "" then "" else Cleaned(name[..|name| - 1]) + [Clean(name[|name| - 1])]
  }

  function PackageId(name: string): string { "SPDXRef-Package-" + Cleaned(name) }

  function FileId(name: string): string { "SPDXRef-File-" + Cleaned(name) }

  function LastSlash(path: string): Option<nat> {
    if path == "" then None
    else if path[|path| - 1] == '/' then Some(|path| - 1)
    else LastSlash(path[..|path| - 1])
  }

  /** purlGo: the last element of the path is the name, the rest the namespace. */
  function Purl(path: string, version: string): string {
    match LastSlash(path)
    case None => "pkg:golang/" + path + "@" + version
    case Some(i) => if i < |path| then "pkg:golang/" + path[..i] + "/" + path[i + 1..] + "@" + version else ""
  }

  lemma {:induction false} LastSlashIsSlash(path: string)
    ensures LastSlash(path).Some? ==> LastSlash(path).value < |path| && path[LastSlash(path).value] == '/'
  {
    if path != "" && path[|path| - 1] != '/' { LastSlashIsSlash(path[..|path| - 1]); }
  }

  /** Taking the path apart and joining it again leaves it as it is. */
  lemma PurlMeaning(path: string, version: string)
    ensures Purl(path, version) == "pkg:golang/" + path + "@" + version
  {
    LastSlashIsSlash(path);
    var cut := LastSlash(path);
    if cut.Some? {
      assert path == path[..cut.value] + "/" + path[cut.value + 1..];
      assert "pkg:golang/" + path[..cut.value] + "/" + path[cut.value + 1..] == "pkg:golang/" + path;
    }
  }

  function Join(texts: seq<string>, sep: string): string {
    if texts == [] then "" else if |texts| == 1 then texts[0]
    else Join(texts[..|texts| - 1], sep) + sep + texts[|texts| - 1]
  }

  /** licenseExpr: this repository's licence, then the others in order, each once. */
  ghost function LicenseExpr(own: string, lic: map<string, string>): string {
    Join([own] + InOrder({GO_LICENSE} + lic.Values - {own}), " AND ")
  }

  function LicenseOf(lic: map<string, string>, key: string): string { if key in lic then lic[key] else "" }

  /** fileLicense. */
  function FileLicense(name: string, own: string, expr: string): string {
    if HasPrefix(name, "bin/") then expr
    else if name == "LICENSE" || name == NOTICES_NAME then NO_ASSERTION
    else own
  }

  const REPLACED := "바꿔 넣었다"

  /** replacedNote. */
  function ReplacedNote(d: Module): string { d.orig + " 을 이것으로 " + REPLACED }

  const GO_SUM := "go.sum "

  function DepComment(d: Module): string {
    GO_SUM + d.sum + if d.orig == "" then "" else STOP + ReplacedNote(d)
  }

  const REVISION := "vcs.revision "
  const MAIN_PACKAGE := "주 패키지 "

  function MainComment(s: Spec, b: Build): string {
    REVISION + s.commit + STOP + MAIN_PACKAGE + s.pkgPath +
    if b.mainVer == "" then "" else ". buildinfo가 말하는 주 모듈의 판 " + b.mainVer
  }

  predicate Hex(s: string) { forall c :: c in s ==> '0' <= c <= '9' || 'a' <= c <= 'f' }

  /** revisionOf: forty hexadecimal digits after the marker, followed by a full stop and a blank or by nothing. */
  function RevisionOf(comment: string): string {
    var rest := TrimPrefix(comment, REVISION);
    if HasPrefix(comment, REVISION) && |rest| >= 40 && Hex(rest[..40]) && (|rest| == 40 || HasPrefix(rest[40..], STOP))
    then rest[..40] else ""
  }

  const HASH_MARK := "LICENSE sha256 "

  /** goComment. */
  function GoComment(goVersion: string, hash: string): string {
    "Go 도구 사슬 " + goVersion + "의 런타임과 표준 라이브러리. " + HASH_MARK + hash + ". 원문은 " + NOTICES_NAME + "에 있다"
  }

  /** go.sum, as checkDoc reads it back from a comment. */
  function SumIn(comment: string): string {
    var got := TrimPrefix(comment, GO_SUM);
    match Index(got, STOP) case None => got case Some(i) => got[..i]
  }

  // ---------- compose ----------

  /** The files a document describes: all but the document itself. */
  function Described(entries: seq<Entry>): (r: seq<Entry>)
    ensures forall e :: e in r <==> e in entries && e.name != SBOM_NAME
  {
    if entries == [] then [] else
    var n := |entries| - 1;
    Described(entries[..n]) + if entries[n].name == SBOM_NAME then [] else [entries[n]]
  }

  function Sums(entries: seq<Entry>): seq<string> {
    if entries == [] then [] else
    var n := |entries| - 1;
    Sums(entries[..n]) + if entries[n].name == SBOM_NAME then [] else [entries[n].sha1]
  }

  function Concat(texts: seq<string>): string {
    if texts == [] then "" else Concat(texts[..|texts| - 1]) + texts[|texts| - 1]
  }

  /** The package verification code of section 7.9 of SPDX 2.3. */
  function VerificationCode(hash: string -> string, entries: seq<Entry>): string {
    hash(Concat(Sort(Sums(entries), TextLeq)))
  }

  function FileFor(e: Entry, own: string, expr: string): File {
    File("./" + e.name, FileId(e.name), [("SHA1", e.sha1), ("SHA256", e.sha256)], FileLicense(e.name, own, expr))
  }

  function FilesFor(entries: seq<Entry>, own: string, expr: string): seq<File> {
    if entries == [] then [] else
    var n := |entries| - 1;
    FilesFor(entries[..n], own, expr) + if entries[n].name == SBOM_NAME then [] else [FileFor(entries[n], own, expr)]
  }

  function BundlePackage(hash: string -> string, s: Spec, entries: seq<Entry>, expr: string): Package {
    Package(ID_BUNDLE, s.Bundle(), s.version, true, Some(Code(VerificationCode(hash, entries), ["./" + SBOM_NAME])),
            expr, s.license, [], "")
  }

  function MainPackage(s: Spec, b: Build): Package {
    Package(ID_MAIN, b.mainPath, "v" + s.version, false, None, s.license, s.license,
            [Purl(b.mainPath, "v" + s.version)], MainComment(s, b))
  }

  function GoVersion(b: Build): string { TrimPrefix(b.goVersion, "go") }

  function GoPackage(b: Build): Package {
    Package(ID_GO, "go", GoVersion(b), false, None, GO_LICENSE, GO_LICENSE, [],
            "실행 파일을 만든 Go 도구 사슬 " + b.goVersion + ". 실행 파일에 들어가지 않는다")
  }

  function StdlibPackage(b: Build, goHash: string): Package {
    Package(ID_STDLIB, "stdlib", GoVersion(b), false, None, GO_LICENSE, GO_LICENSE,
            [Purl("stdlib", GoVersion(b))], GoComment(b.goVersion, goHash))
  }

  function DepPackage(d: Module, lic: map<string, string>): Package {
    Package(PackageId(d.path), d.path, d.version, false, None, LicenseOf(lic, d.Key()), NO_ASSERTION,
            [Purl(d.path, d.version)], DepComment(d))
  }

  function DepPackages(deps: seq<Module>, lic: map<string, string>): seq<Package> {
    if deps == [] then [] else
    DepPackages(deps[..|deps| - 1], lic) + [DepPackage(deps[|deps| - 1], lic)]
  }

  function FixedPackages(hash: string -> string, s: Spec, entries: seq<Entry>, b: Build, expr: string, goHash: string): seq<Package> {
    [BundlePackage(hash, s, entries, expr), MainPackage(s, b), GoPackage(b), StdlibPackage(b, goHash)]
  }

  function ContainsRelations(files: seq<File>): seq<Relation> {
    if files == [] then [] else
    ContainsRelations(files[..|files| - 1]) + [Relation(ID_BUNDLE, CONTAINS, files[|files| - 1].id)]
  }

  function LinkRelations(deps: seq<Module>): seq<Relation> {
    if deps == [] then [] else
    LinkRelations(deps[..|deps| - 1]) + [Relation(ID_MAIN, STATIC_LINK, PackageId(deps[|deps| - 1].path))]
  }

  function FixedRelations(s: Spec): seq<Relation> {
    var bin := FileId(s.Binary());
    [Relation(bin, GENERATED_FROM, ID_MAIN), Relation(ID_GO, BUILD_TOOL_OF, bin), Relation(ID_MAIN, STATIC_LINK, ID_STDLIB)]
  }

  function Relations(s: Spec, files: seq<File>, deps: seq<Module>): seq<Relation> {
    [Relation(ID_DOCUMENT, "DESCRIBES", ID_BUNDLE)] + ContainsRelations(files) + FixedRelations(s) + LinkRelations(deps)
  }

  ghost function Composed(hash: string -> string, s: Spec, entries: seq<Entry>, b: Build, lic: map<string, string>, goHash: string): Document {
    var expr := LicenseExpr(s.license, lic);
    var files := FilesFor(entries, s.license, expr);
    Document(
      "SPDX-2.3", "CC0-1.0", s.Bundle() + "-" + s.version,
      FixedPackages(hash, s, entries, b, expr, goHash) + DepPackages(b.deps, lic),
      files,
      Relations(s, files, b.deps),
      [ID_BUNDLE])
  }

  // ---------- The code ----------

  /** verificationCodeOf. */
  method ComputeCode(hash: string -> string, entries: seq<Entry>) returns (code: string)
    ensures code == VerificationCode(hash, entries)
  {
    var sums := [];
    for i := 0 to |entries|
      invariant sums == Sums(entries[..i])
    {
      assert entries[..i + 1][..i] == entries[..i];
      if entries[i].name != SBOM_NAME { sums := sums + [entries[i].sha1]; }
    }
    assert entries[..|entries|] == entries;
    code := hash(Concat(Sort(sums, TextLeq)));
  }

  /** licenseExpr: a set of licences, the own one taken out and put first. */
  method ComputeLicense(own: string, lic: map<string, string>) returns (expr: string)
    ensures expr == LicenseExpr(own, lic)
  {
    var ids := {GO_LICENSE};
    var order := RangeOver(lic.Keys);
    for i := 0 to |order|
      invariant forall id :: id in ids <==> id == GO_LICENSE || exists j :: 0 <= j < i && lic[order[j]] == id
    {
      ids := ids + {lic[order[i]]};
    }
    forall id ensures id in ids <==> id in {GO_LICENSE} + lic.Values {
      if id in lic.Values {
        var key :| key in lic && lic[key] == id;
        assert key in order;
      }
    }
    assert ids == {GO_LICENSE} + lic.Values;
    ids := ids - {own};
    var rest := RangeOver(ids);
    SortedInOrder(rest, ids);
    expr := Join([own] + Sort(rest, TextLeq), " AND ");
  }

  method DescribeFiles(entries: seq<Entry>, own: string, expr: string) returns (files: seq<File>, relations: seq<Relation>)
    ensures files == FilesFor(entries, own, expr) && relations == ContainsRelations(files)
  {
    files, relations := [], [];
    for i := 0 to |entries|
      invariant files == FilesFor(entries[..i], own, expr) && relations == ContainsRelations(files)
    {
      assert entries[..i + 1][..i] == entries[..i];
      if entries[i].name == SBOM_NAME { continue; }
      var f := FileFor(entries[i], own, expr);
      assert (files + [f])[..|files|] == files;
      files := files + [f];
      relations := relations + [Relation(ID_BUNDLE, CONTAINS, f.id)];
    }
    assert entries[..|entries|] == entries;
  }

  method DescribeModules(deps: seq<Module>, lic: map<string, string>) returns (packages: seq<Package>, relations: seq<Relation>)
    ensures packages == DepPackages(deps, lic) && relations == LinkRelations(deps)
  {
    packages, relations := [], [];
    for i := 0 to |deps|
      invariant packages == DepPackages(deps[..i], lic) && relations == LinkRelations(deps[..i])
    {
      assert deps[..i + 1][..i] == deps[..i];
      packages := packages + [DepPackage(deps[i], lic)];
      relations := relations + [Relation(ID_MAIN, STATIC_LINK, PackageId(deps[i].path))];
    }
    assert deps[..|deps|] == deps;
  }

  /** compose. */
  method Compose(hash: string -> string, s: Spec, entries: seq<Entry>, b: Build, lic: map<string, string>, goHash: string)
    returns (doc: Document)
    ensures doc == Composed(hash, s, entries, b, lic, goHash)
  {
    var expr := ComputeLicense(s.license, lic);
    var code := ComputeCode(hash, entries);
    var files, contains := DescribeFiles(entries, s.license, expr);
    var bundle := Package(ID_BUNDLE, s.Bundle(), s.version, true, Some(Code(code, ["./" + SBOM_NAME])), expr, s.license, [], "");
    var packages, links := DescribeModules(b.deps, lic);
    doc := Document(
      "SPDX-2.3", "CC0-1.0", s.Bundle() + "-" + s.version,
      [bundle, MainPackage(s, b), GoPackage(b), StdlibPackage(b, goHash)] + packages,
      files,
      [Relation(ID_DOCUMENT, "DESCRIBES", ID_BUNDLE)] + contains + FixedRelations(s) + links,
      [ID_BUNDLE]);
  }
}

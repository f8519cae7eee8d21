/**
 * What an accepted document says, with its ids, texts and relations written out. Of the functions of the tool only
 * the verification code and the licence expression are named here, and CodeMeaning and LicenseMeaning say what they are.
 */
module SbomReading {
  import opened Basics
  import opened Sorting
  import opened Text
  import opened Sbom
  import opened SbomCheck
  import opened SbomAgree
  import opened SbomMeaning

  // ---------- Texts ----------

  ghost predicate Occurs(sub: string, s: string) { exists before, after :: s == before + sub + after }

  lemma {:induction false} IndexSplits(s: string, sub: string)
    ensures var i := Index(s, sub); i.Some? ==> s == s[..i.value] + sub + s[i.value + |sub|..]
  {
    if HasPrefix(s, sub) {
      PrefixAndRest(s, sub);
    } else if s != "" {
      IndexSplits(s[1..], sub);
      var i := Index(s[1..], sub);
      if i.Some? { Later(s, sub, i.value); }
    }
  }

  lemma Later(s: string, sub: string, i: nat)
    requires s != "" && i + |sub| < |s| && s[1..] == s[1..][..i] + sub + s[1..][i + |sub|..]
    ensures s == s[..i + 1] + sub + s[i + 1 + |sub|..]
  {
    var t := s[1..];
    assert s[..i + 1] == [s[0]] + t[..i] && t[i + |sub|..] == s[i + 1 + |sub|..];
    assert s == [s[0]] + (t[..i] + sub + t[i + |sub|..]);
  }

  /** strings.Contains says whether a text occurs in another. */
  lemma ContainsMeaning(s: string, sub: string)
    ensures Contains(s, sub) <==> Occurs(sub, s)
  {
    IndexSplits(s, sub);
    if before, after :| s == before + sub + after { ContainsMiddle(before, sub, after); }
  }

  /** The go.sum hash in a comment is what stands between the marker and the first full stop and blank, if any. */
  ghost predicate SumRead(comment: string, sum: string) {
    && !Occurs(". ", sum)
    && (comment == "go.sum " + sum || "go.sum " + sum + ". " <= comment)
  }

  lemma NoStopBefore(s: string, i: nat)
    requires Index(s, STOP) == Some(i)
    ensures !Contains(s[..i], STOP)
  {
    assert s == s[..i] + s[i..];
    if Contains(s[..i], STOP) { IndexExtends(s[..i], s[i..], STOP); }
  }

  lemma StartOf(a: string, b: string, c: string, d: string)
    ensures a + (b + c + d) == a + b + c + d && a + b + c <= a + (b + c + d)
  {
    assert a + (b + c + d) == (a + b + c) + d;
  }

  lemma SumStands(comment: string, sum: string)
    requires HasPrefix(comment, GO_SUM) && SumIn(comment) == sum
    ensures SumRead(comment, sum)
  {
    var got := TrimPrefix(comment, GO_SUM);
    ContainsMeaning(sum, STOP);
    PrefixAndRest(comment, GO_SUM);
    IndexSplits(got, STOP);
    if Index(got, STOP).Some? {
      NoStopBefore(got, Index(got, STOP).value);
      StartOf(GO_SUM, sum, STOP, got[|sum| + 2..]);
    }
  }

  lemma SumFound(comment: string, sum: string)
    requires SumRead(comment, sum)
    ensures HasPrefix(comment, GO_SUM) && SumIn(comment) == sum
  {
    ContainsMeaning(sum, STOP);
    if comment == "go.sum " + sum {
      PrefixOfConcat(GO_SUM, sum);
    } else {
      var rest := comment[|GO_SUM + sum + STOP|..];
      assert comment == GO_SUM + sum + STOP + rest;
      StartOf(GO_SUM, sum, STOP, rest);
      PrefixOfConcat(GO_SUM, sum + STOP + rest);
      FirstStop(sum, rest);
      assert (sum + STOP + rest)[..|sum|] == sum;
    }
  }

  lemma SumReadMeaning(comment: string, sum: string)
    ensures HasPrefix(comment, GO_SUM) && SumIn(comment) == sum <==> SumRead(comment, sum)
  {
    hide *;
    if HasPrefix(comment, GO_SUM) && SumIn(comment) == sum { SumStands(comment, sum); }
    if SumRead(comment, sum) { SumFound(comment, sum); }
  }

  /** Forty hexadecimal digits after the marker, and then nothing or a full stop and a blank. */
  predicate Commits(comment: string, commit: string) {
    && |commit| == 40 && (forall c :: c in commit ==> '0' <= c <= '9' || 'a' <= c <= 'f')
    && (comment == "vcs.revision " + commit || "vcs.revision " + commit + ". " <= comment)
  }

  /** The commit read from a comment is the one it begins with, and the empty text if it begins with none. */
  ghost predicate CommitRead(comment: string, commit: string) {
    if commit == "" then forall some :: !Commits(comment, some) else Commits(comment, commit)
  }

  lemma CommitsMeaning(comment: string, commit: string)
    requires |commit| == 40 && Hex(commit)
    ensures RevisionOf(comment) == commit <==> Commits(comment, commit)
  {
    RevisionMeaning(comment, commit);
  }

  lemma CommitReadMeaning(comment: string, commit: string)
    ensures RevisionOf(comment) == commit <==> CommitRead(comment, commit)
  {
    var got := RevisionOf(comment);
    assert got == "" || (|got| == 40 && Hex(got));
    if got != "" { CommitsMeaning(comment, got); }
    forall some | Commits(comment, some) ensures got == some { CommitsMeaning(comment, some); }
  }

  // ---------- Ids ----------

  predicate InId(c: char) { 'a' <= c <= 'z' || 'A' <= c <= 'Z' || '0' <= c <= '9' || c == '.' || c == '-' }

  /** An SPDX id: the start, and the name with a hyphen for every character an id may not have. */
  predicate IdOf(id: string, start: string, name: string) {
    && start <= id && |id| == |start| + |name|
    && forall i :: 0 <= i < |name| ==> id[|start| + i] == if InId(name[i]) then name[i] else '-'
  }

  lemma {:induction false} CleanedAt(name: string, i: nat)
    requires i < |name|
    ensures Cleaned(name)[i] == if InId(name[i]) then name[i] else '-'
  {
    if i < |name| - 1 { CleanedAt(name[..|name| - 1], i); }
  }

  lemma IdMeaning(id: string, start: string, name: string)
    ensures id == start + Cleaned(name) <==> IdOf(id, start, name)
  {
    forall i | 0 <= i < |name| ensures Cleaned(name)[i] == if InId(name[i]) then name[i] else '-' { CleanedAt(name, i); }
    if IdOf(id, start, name) {
      assert id == start + id[|start|..];
      assert forall i :: 0 <= i < |name| ==> id[|start|..][i] == id[|start| + i];
      assert id[|start|..] == Cleaned(name);
    }
    if id == start + Cleaned(name) {
      assert forall i :: 0 <= i < |name| ==> id[|start| + i] == Cleaned(name)[i];
    }
  }

  /** What spdxID makes of a path or a file name. */
  lemma IdsMeaning(id: string, name: string)
    ensures id == PackageId(name) <==> IdOf(id, "SPDXRef-Package-", name)
    ensures id == FileId(name) <==> IdOf(id, "SPDXRef-File-", name)
  {
    IdMeaning(id, "SPDXRef-Package-", name);
    IdMeaning(id, "SPDXRef-File-", name);
  }

  // ---------- Files ----------

  /** The name of a file in the document is its path in the bundle, or that with "./" before it. */
  predicate Named(text: string, path: string) { text == "./" + path || (text == path && !("./" <= path)) }

  lemma NamedMeaning(f: File, path: string)
    ensures f.Path() == path <==> Named(f.name, path)
  {
    if HasPrefix(f.name, "./") { PrefixAndRest(f.name, "./"); }
    PrefixOfConcat("./", path);
  }

  /** The last checksum of that algorithm; the empty text if there is none. */
  ghost predicate LastSum(checksums: seq<(string, string)>, algorithm: string, value: string) {
    || (value == "" && forall c :: c in checksums ==> c.0 != algorithm)
    || exists k :: && 0 <= k < |checksums| && checksums[k] == (algorithm, value)
                   && forall l :: k < l < |checksums| ==> checksums[l].0 != algorithm
  }

  lemma {:induction false} SumOfMeaning(checksums: seq<(string, string)>, algorithm: string)
    ensures LastSum(checksums, algorithm, SumOf(checksums, algorithm))
  {
    if checksums != [] {
      var n := |checksums| - 1;
      SumOfMeaning(checksums[..n], algorithm);
      assert checksums == checksums[..n] + [checksums[n]];
      assert checksums[n] == (checksums[n].0, checksums[n].1);
    }
  }

  lemma LastSumOnce(checksums: seq<(string, string)>, algorithm: string, value: string)
    ensures SumOf(checksums, algorithm) == value <==> LastSum(checksums, algorithm, value)
  {
    SumOfMeaning(checksums, algorithm);
  }

  /**
   * The program is under the whole expression, nothing is concluded for the two files that hold other
   * people's texts, and every other file is under this repository's licence.
   */
  predicate Licensed(name: string, concluded: string, own: string, expr: string) {
    if "bin/" <= name then concluded == expr
    else if name == "LICENSE" || name == "THIRD-PARTY-NOTICES.md" then concluded == "NOASSERTION"
    else concluded == own
  }

  ghost predicate Describes(f: File, e: Entry, own: string, expr: string) {
    && Named(f.name, e.name)
    && LastSum(f.checksums, "SHA1", e.sha1) && LastSum(f.checksums, "SHA256", e.sha256)
    && Licensed(e.name, f.concluded, own, expr)
  }

  /** What the check asks of the file of an entry. */
  lemma FileMeaning(f: File, e: Entry, own: string, expr: string)
    ensures f.Path() == e.name && FileOk(f, e, own, expr) <==> Describes(f, e, own, expr)
  {
    NamedMeaning(f, e.name);
    LastSumOnce(f.checksums, "SHA1", e.sha1);
    LastSumOnce(f.checksums, "SHA256", e.sha256);
  }

  // ---------- The verification code and the licence ----------

  /** How sort.Strings compares: one text begins the other, or at the first place where they differ it has the less. */
  ghost predicate InTextOrder(a: string, b: string) {
    a <= b || exists k :: 0 <= k < |a| && k < |b| && a[..k] == b[..k] && a[k] < b[k]
  }

  lemma {:induction false} TextOrderMeaning(a: string, b: string)
    requires TextLeq(a, b)
    ensures InTextOrder(a, b)
  {
    if a != "" && a[0] == b[0] {
      TextOrderMeaning(a[1..], b[1..]);
      assert a == [a[0]] + a[1..] && b == [b[0]] + b[1..];
      if k :| 0 <= k < |a| - 1 && k < |b| - 1 && a[1..][..k] == b[1..][..k] && a[1..][k] < b[1..][k] {
        assert a[..k + 1] == [a[0]] + a[1..][..k] && b[..k + 1] == [b[0]] + b[1..][..k];
        assert a[k + 1] < b[k + 1];
      }
    }
  }

  predicate Stands(piece: string, text: string, from: nat, to: nat) { from <= to <= |text| && text[from..to] == piece }

  /** joined is these texts one after the other, each from one cut to the next, with sep before all but the first. */
  predicate Joins(joined: string, texts: seq<string>, sep: string, cuts: seq<nat>) {
    && |cuts| == |texts| + 1 && cuts[0] == 0 && cuts[|texts|] == |joined|
    && forall i :: 0 <= i < |texts| ==> Stands((if i == 0 then "" else sep) + texts[i], joined, cuts[i], cuts[i + 1])
  }

  lemma JoinsSnoc(joined: string, texts: seq<string>, sep: string, cuts: seq<nat>, last: string)
    requires Joins(joined, texts, sep, cuts)
    ensures var piece := (if texts == [] then "" else sep) + last;
            Joins(joined + piece, texts + [last], sep, cuts + [|joined + piece|])
  {
    var piece := (if texts == [] then "" else sep) + last;
    var more := cuts + [|joined + piece|];
    forall i | 0 <= i < |texts| + 1
      ensures Stands((if i == 0 then "" else sep) + (texts + [last])[i], joined + piece, more[i], more[i + 1])
    {
      if i < |texts| {
        assert more[i] == cuts[i] && more[i + 1] == cuts[i + 1];
        assert Stands((if i == 0 then "" else sep) + texts[i], joined, cuts[i], cuts[i + 1]);
        assert (joined + piece)[cuts[i]..cuts[i + 1]] == joined[cuts[i]..cuts[i + 1]];
      }
    }
  }

  lemma {:induction false} ConcatMeaning(texts: seq<string>) returns (cuts: seq<nat>)
    ensures Joins(Concat(texts), texts, "", cuts)
  {
    if texts == [] {
      cuts := [0];
    } else {
      var n := |texts| - 1;
      var before := ConcatMeaning(texts[..n]);
      JoinsSnoc(Concat(texts[..n]), texts[..n], "", before, texts[n]);
      cuts := before + [|Concat(texts)|];
      assert texts == texts[..n] + [texts[n]];
      assert (if texts[..n] == [] then "" else "") + texts[n] == texts[n];
    }
  }

  lemma JoinStep(texts: seq<string>, sep: string)
    requires texts != []
    ensures var n := |texts| - 1;
            Join(texts, sep) == Join(texts[..n], sep) + ((if texts[..n] == [] then "" else sep) + texts[n])
  {
    var n := |texts| - 1;
    if n == 0 {
      assert Join(texts[..n], sep) == "";
    } else {
      assert Join(texts[..n], sep) + sep + texts[n] == Join(texts[..n], sep) + (sep + texts[n]);
    }
  }

  lemma {:induction false} JoinMeaning(texts: seq<string>, sep: string) returns (cuts: seq<nat>)
    ensures Joins(Join(texts, sep), texts, sep, cuts)
  {
    if texts == [] {
      cuts := [0];
    } else {
      var n := |texts| - 1;
      hide Join, Joins;
      var before := JoinMeaning(texts[..n], sep);
      JoinsSnoc(Join(texts[..n], sep), texts[..n], sep, before, texts[n]);
      JoinStep(texts, sep);
      cuts := before + [|Join(texts, sep)|];
      assert texts == texts[..n] + [texts[n]];
    }
  }

  lemma {:induction false} KeptSums(entries: seq<Entry>) returns (kept: seq<nat>)
    ensures forall k :: k in kept <==> 0 <= k < |entries| && entries[k].name != "sbom.spdx.json"
    ensures forall i, j :: 0 <= i < j < |kept| ==> kept[i] < kept[j]
    ensures |Sums(entries)| == |kept|
    ensures forall i :: 0 <= i < |kept| ==> kept[i] < |entries| && Sums(entries)[i] == entries[kept[i]].sha1
  {
    kept := [];
    if entries != [] {
      var n: nat := |entries| - 1;
      var before := KeptSums(entries[..n]);
      forall k | k in before ensures k < n && entries[..n][k] == entries[k] {}
      kept := before + if entries[n].name == "sbom.spdx.json" then [] else [n];
    }
  }

  /**
   * The verification code of section 7.9 of SPDX 2.3: the SHA-1 values of all files but the document itself,
   * in ascending order and joined without anything between them, are hashed.
   */
  lemma CodeMeaning(hash: string -> string, entries: seq<Entry>)
    returns (kept: seq<nat>, column: seq<string>, sums: seq<string>, cuts: seq<nat>, joined: string)
    ensures forall k :: k in kept <==> 0 <= k < |entries| && entries[k].name != "sbom.spdx.json"
    ensures forall i, j :: 0 <= i < j < |kept| ==> kept[i] < kept[j]
    ensures |column| == |kept|
    ensures forall i :: 0 <= i < |kept| ==> kept[i] < |entries| && column[i] == entries[kept[i]].sha1
    ensures multiset(sums) == multiset(column)
    ensures forall i, j :: 0 <= i < j < |sums| ==> InTextOrder(sums[i], sums[j])
    ensures Joins(joined, sums, "", cuts) && VerificationCode(hash, entries) == hash(joined)
  {
    kept := KeptSums(entries);
    column := Sums(entries);
    sums := Sort(column, TextLeq);
    TextsAreOrdered();
    SortMeaning(column, TextLeq);
    forall i, j | 0 <= i < j < |sums| ensures InTextOrder(sums[i], sums[j]) { TextOrderMeaning(sums[i], sums[j]); }
    joined := Concat(sums);
    cuts := ConcatMeaning(sums);
  }

  /** The licence concluded for the program: its own first, then every other once and in order, with " AND " between. */
  lemma ExpressionMeaning(own: string, lic: map<string, string>) returns (texts: seq<string>, cuts: seq<nat>)
    ensures texts != [] && texts[0] == own
    ensures forall id :: id in texts <==> id == own || id == "BSD-3-Clause" || exists key :: key in lic && lic[key] == id
    ensures forall i, j :: 0 <= i < j < |texts| ==> texts[i] != texts[j] && (i > 0 ==> InTextOrder(texts[i], texts[j]))
    ensures Joins(LicenseExpr(own, lic), texts, " AND ", cuts)
  {
    hide Joins, InTextOrder, LicenseExpr;
    var rest := LicenseMeaning(own, lic);
    texts := [own] + rest;
    forall id ensures id in texts <==> id == own || id == "BSD-3-Clause" || exists key :: key in lic && lic[key] == id {
      assert id in texts <==> id == own || id in rest;
    }
    forall i, j | 0 <= i < j < |texts| ensures texts[i] != texts[j] && (i > 0 ==> InTextOrder(texts[i], texts[j])) {
      assert texts[j] == rest[j - 1] && rest[j - 1] in rest;
      if i > 0 {
        assert texts[i] == rest[i - 1];
        TextOrderMeaning(texts[i], texts[j]);
      }
    }
    cuts := JoinMeaning(texts, " AND ");
  }

  // ---------- Packages ----------

  predicate BundleRight(p: Package, hash: string -> string, s: Spec, entries: seq<Entry>, expr: string) {
    && p.id == "SPDXRef-Package-bundle" && p.filesAnalyzed
    && p.code == Some(Code(VerificationCode(hash, entries), ["./sbom.spdx.json"]))
    && p.name == s.program + "-linux-" + s.arch && p.version == s.version
    && p.declared == s.license && p.concluded == expr
  }

  ghost predicate MainRight(p: Package, s: Spec, b: Build) {
    && p.id == "SPDXRef-Package-main" && p.name == b.mainPath && p.version == "v" + s.version
    && p.purls == ["pkg:golang/" + b.mainPath + "@" + ("v" + s.version)]
    && p.concluded == s.license && p.declared == s.license
    && CommitRead(p.comment, s.commit) && Occurs(". 주 패키지 " + s.pkgPath, p.comment)
  }

  /** A package of the Go release that built the program. */
  predicate GoRight(p: Package, id: string, b: Build) {
    && p.id == id && p.concluded == "BSD-3-Clause"
    && (b.goVersion == "go" + p.version || (b.goVersion == p.version && !("go" <= b.goVersion)))
  }

  ghost predicate ModuleRight(p: Package, d: Module, lic: map<string, string>) {
    && IdOf(p.id, "SPDXRef-Package-", d.path) && p.name == d.path && p.version == d.version
    && p.concluded == (if d.path + "@" + d.version in lic then lic[d.path + "@" + d.version] else "")
    && SumRead(p.comment, d.sum)
    && (if d.orig != "" then Occurs(d.orig + " 을 이것으로 바꿔 넣었다", p.comment) else !Occurs("바꿔 넣었다", p.comment))
  }

  lemma BundleMeaning(p: Package, hash: string -> string, s: Spec, entries: seq<Entry>, expr: string)
    ensures p.id == ID_BUNDLE && BundleOk(Some(p), hash, s, entries, expr) <==> BundleRight(p, hash, s, entries, expr)
  {
    assert "./" + SBOM_NAME == "./sbom.spdx.json";
  }

  lemma MainMeaning(p: Package, s: Spec, b: Build)
    ensures p.id == ID_MAIN && MainOk(Some(p), s, b) <==> MainRight(p, s, b)
  {
    PurlMeaning(b.mainPath, "v" + s.version);
    CommitReadMeaning(p.comment, s.commit);
    assert STOP + MAIN_PACKAGE + s.pkgPath == ". 주 패키지 " + s.pkgPath;
    ContainsMeaning(p.comment, ". 주 패키지 " + s.pkgPath);
  }

  lemma GoMeaning(p: Package, id: string, b: Build)
    ensures p.id == id && ToolOk(Some(p), b) <==> GoRight(p, id, b)
  {
    if HasPrefix(b.goVersion, "go") { PrefixAndRest(b.goVersion, "go"); }
    PrefixOfConcat("go", p.version);
  }

  lemma ModuleMeaning(p: Package, d: Module, lic: map<string, string>)
    ensures p.id == PackageId(d.path) && DepOk(p, d, lic) <==> ModuleRight(p, d, lic)
  {
    IdsMeaning(p.id, d.path);
    SumReadMeaning(p.comment, d.sum);
    assert ReplacedNote(d) == d.orig + " 을 이것으로 바꿔 넣었다";
    ContainsMeaning(p.comment, ReplacedNote(d));
    ContainsMeaning(p.comment, "바꿔 넣었다");
  }

  // ---------- Lists ----------

  ghost predicate Pairs<T(!new)>(s: seq<T>, r: (T, T) -> bool) { forall i, j :: 0 <= i < j < |s| ==> r(s[i], s[j]) }

  /** A list one longer: the last element stands in the relation to every one before it too. */
  lemma PairsSnoc<T(!new)>(s: seq<T>, r: (T, T) -> bool)
    requires s != []
    ensures var n := |s| - 1;
            Pairs(s, r) <==> Pairs(s[..n], r) && forall i :: 0 <= i < n ==> r(s[i], s[n])
  {
    var n := |s| - 1;
    if Pairs(s[..n], r) && forall i :: 0 <= i < n ==> r(s[i], s[n]) {
      forall i, j | 0 <= i < j < |s| ensures r(s[i], s[j]) {
        if j < n { assert r(s[..n][i], s[..n][j]); }
      }
    }
    if Pairs(s, r) {
      forall i, j | 0 <= i < j < n ensures r(s[..n][i], s[..n][j]) { assert r(s[i], s[j]); }
    }
  }

  // ---------- The document ----------

  predicate HeadRight(doc: Document, s: Spec) {
    && doc.spdxVersion == "SPDX-2.3" && doc.dataLicense == "CC0-1.0"
    && doc.name == s.program + "-linux-" + s.arch + "-" + s.version && doc.describes == ["SPDXRef-Package-bundle"]
  }

  /** No id occurs twice, and each is one of the four fixed ones or made of the path of a module. */
  predicate PackageIdsRight(packages: seq<Package>, deps: seq<Module>) {
    && (forall i, j :: 0 <= i < j < |packages| ==> packages[i].id != packages[j].id)
    && forall p :: p in packages ==>
         || p.id == "SPDXRef-Package-bundle" || p.id == "SPDXRef-Package-main"
         || p.id == "SPDXRef-Package-go" || p.id == "SPDXRef-Package-go-stdlib"
         || exists d :: d in deps && IdOf(p.id, "SPDXRef-Package-", d.path)
  }

  ghost predicate FixedRight(packages: seq<Package>, hash: string -> string, s: Spec, entries: seq<Entry>, b: Build,
                             expr: string, goHash: string) {
    && (exists p :: p in packages && BundleRight(p, hash, s, entries, expr))
    && (exists p :: p in packages && MainRight(p, s, b))
    && (exists p :: p in packages && GoRight(p, "SPDXRef-Package-go", b))
    && (exists p :: p in packages && GoRight(p, "SPDXRef-Package-go-stdlib", b) && Occurs("LICENSE sha256 " + goHash, p.comment))
  }

  ghost predicate HasModule(doc: Document, d: Module, lic: map<string, string>) {
    exists p :: && p in doc.packages && ModuleRight(p, d, lic)
                && Relation("SPDXRef-Package-main", "STATIC_LINK", p.id) in doc.relations
  }

  ghost predicate LinksRight(relations: seq<Relation>, s: Spec) {
    && Relation("SPDXRef-Package-main", "STATIC_LINK", "SPDXRef-Package-go-stdlib") in relations
    && exists bin :: && IdOf(bin, "SPDXRef-File-", "bin/" + s.program)
                     && Relation("SPDXRef-Package-go", "BUILD_TOOL_OF", bin) in relations
                     && Relation(bin, "GENERATED_FROM", "SPDXRef-Package-main") in relations
  }

  /** No two files have the same id or stand for the same path, and no id is a package's. */
  ghost predicate FileIdsRight(packages: seq<Package>, files: seq<File>) {
    && (forall i, j :: 0 <= i < j < |files| ==> files[i].id != files[j].id)
    && (forall i, j, path :: 0 <= i < j < |files| && Named(files[i].name, path) ==> !Named(files[j].name, path))
    && (forall p, f :: p in packages && f in files ==> p.id != f.id)
  }

  /** The check compares relations by their two ends with a bar between; the id of a file may hold one. */
  ghost predicate HasFile(relations: seq<Relation>, id: string) {
    exists r :: r in relations && r.kind == "CONTAINS" && r.from + "|" + r.to == "SPDXRef-Package-bundle" + "|" + id
  }

  predicate NamesDiffer(entries: seq<Entry>) {
    forall i, j :: 0 <= i < j < |entries| && entries[i].name == entries[j].name ==> entries[i].name == "sbom.spdx.json"
  }

  /** The files of the bundle but the document have different names, and the document has exactly them, each as it is. */
  ghost predicate FilesRight(doc: Document, entries: seq<Entry>, own: string, expr: string) {
    && NamesDiffer(entries)
    && (forall e :: e in entries && e.name != "sbom.spdx.json" ==>
          exists f :: f in doc.files && Describes(f, e, own, expr) && HasFile(doc.relations, f.id))
    && (forall f :: f in doc.files ==> exists e :: e in entries && e.name != "sbom.spdx.json" && Named(f.name, e.name))
  }

  ghost predicate Right(doc: Document, hash: string -> string, s: Spec, entries: seq<Entry>, b: Build,
                        lic: map<string, string>, goHash: string) {
    var expr := LicenseExpr(s.license, lic);
    && HeadRight(doc, s)
    && PackageIdsRight(doc.packages, b.deps) && FixedRight(doc.packages, hash, s, entries, b, expr, goHash)
    && (forall d :: d in b.deps ==> HasModule(doc, d, lic)) && LinksRight(doc.relations, s)
    && FileIdsRight(doc.packages, doc.files) && FilesRight(doc, entries, s.license, expr)
  }

  lemma {:induction false} DifferentIds(packages: seq<Package>)
    requires forall i, j :: 0 <= i < j < |packages| ==> packages[i].id != packages[j].id
    ensures IdsDistinct(packages)
  {
    if packages != [] {
      var n := |packages| - 1;
      DifferentIds(packages[..n]);
      FoundMeaning(packages[..n], packages[n].id);
      forall p | p in packages[..n] ensures p.id != packages[n].id { var i :| 0 <= i < n && packages[i] == p; }
    }
  }

  lemma {:induction false} DepIdsMeaning(deps: seq<Module>, id: string)
    ensures id in DepIds(deps) <==> exists d :: d in deps && IdOf(id, "SPDXRef-Package-", d.path)
  {
    hide IdOf;
    if deps != [] {
      var n := |deps| - 1;
      DepIdsMeaning(deps[..n], id);
      IdsMeaning(id, deps[n].path);
      LastOrBefore(deps);
    }
  }

  lemma PackageIdsMeaning(packages: seq<Package>, b: Build)
    ensures IdsDistinct(packages) && AllAllowed(packages, Allowed(b)) <==> PackageIdsRight(packages, b.deps)
  {
    hide IdOf;
    if IdsDistinct(packages) { PackageIdsDiffer(packages); }
    if forall i, j :: 0 <= i < j < |packages| ==> packages[i].id != packages[j].id { DifferentIds(packages); }
    forall p | p in packages
      ensures p.id in Allowed(b) <==>
                || p.id == "SPDXRef-Package-bundle" || p.id == "SPDXRef-Package-main"
                || p.id == "SPDXRef-Package-go" || p.id == "SPDXRef-Package-go-stdlib"
                || exists d :: d in b.deps && IdOf(p.id, "SPDXRef-Package-", d.path)
    {
      DepIdsMeaning(b.deps, p.id);
    }
  }

  /** With ids that differ, the package found is the only one. */
  lemma FoundOnly(packages: seq<Package>, id: string, p: Package)
    requires forall i, j :: 0 <= i < j < |packages| ==> packages[i].id != packages[j].id
    ensures Found(packages, id) == Some(p) <==> p in packages && p.id == id
  {
    FoundMeaning(packages, id);
    if p in packages && p.id == id {
      var q := Found(packages, id).value;
      var i, j :| 0 <= i < |packages| && 0 <= j < |packages| && packages[i] == p && packages[j] == q;
      assert i == j;
    }
  }

  lemma BundleFound(packages: seq<Package>, hash: string -> string, s: Spec, entries: seq<Entry>, expr: string)
    requires forall i, j :: 0 <= i < j < |packages| ==> packages[i].id != packages[j].id
    ensures (exists p :: p in packages && BundleRight(p, hash, s, entries, expr)) <==>
            BundleOk(Found(packages, ID_BUNDLE), hash, s, entries, expr)
  {
    if p :| p in packages && BundleRight(p, hash, s, entries, expr) {
      BundleMeaning(p, hash, s, entries, expr);
      FoundOnly(packages, ID_BUNDLE, p);
    }
    if BundleOk(Found(packages, ID_BUNDLE), hash, s, entries, expr) {
      FoundMeaning(packages, ID_BUNDLE);
      BundleMeaning(Found(packages, ID_BUNDLE).value, hash, s, entries, expr);
    }
  }

  lemma MainFound(packages: seq<Package>, s: Spec, b: Build)
    requires forall i, j :: 0 <= i < j < |packages| ==> packages[i].id != packages[j].id
    ensures (exists p :: p in packages && MainRight(p, s, b)) <==> MainOk(Found(packages, ID_MAIN), s, b)
  {
    if p :| p in packages && MainRight(p, s, b) {
      MainMeaning(p, s, b);
      FoundOnly(packages, ID_MAIN, p);
    }
    if MainOk(Found(packages, ID_MAIN), s, b) {
      FoundMeaning(packages, ID_MAIN);
      MainMeaning(Found(packages, ID_MAIN).value, s, b);
    }
  }

  lemma ToolFound(packages: seq<Package>, b: Build)
    requires forall i, j :: 0 <= i < j < |packages| ==> packages[i].id != packages[j].id
    ensures (exists p :: p in packages && GoRight(p, "SPDXRef-Package-go", b)) <==> ToolOk(Found(packages, ID_GO), b)
  {
    if p :| p in packages && GoRight(p, "SPDXRef-Package-go", b) {
      GoMeaning(p, ID_GO, b);
      FoundOnly(packages, ID_GO, p);
    }
    if ToolOk(Found(packages, ID_GO), b) {
      FoundMeaning(packages, ID_GO);
      GoMeaning(Found(packages, ID_GO).value, ID_GO, b);
    }
  }

  lemma RuntimeFound(packages: seq<Package>, b: Build, goHash: string)
    requires forall i, j :: 0 <= i < j < |packages| ==> packages[i].id != packages[j].id
    ensures (exists p :: && p in packages && GoRight(p, "SPDXRef-Package-go-stdlib", b)
                         && Occurs("LICENSE sha256 " + goHash, p.comment))
            <==> RuntimeOk(Found(packages, ID_STDLIB), b, goHash)
  {
    if p :| && p in packages && GoRight(p, "SPDXRef-Package-go-stdlib", b)
            && Occurs("LICENSE sha256 " + goHash, p.comment) {
      GoMeaning(p, ID_STDLIB, b);
      ContainsMeaning(p.comment, HASH_MARK + goHash);
      FoundOnly(packages, ID_STDLIB, p);
    }
    if RuntimeOk(Found(packages, ID_STDLIB), b, goHash) {
      FoundMeaning(packages, ID_STDLIB);
      var p := Found(packages, ID_STDLIB).value;
      GoMeaning(p, ID_STDLIB, b);
      ContainsMeaning(p.comment, HASH_MARK + goHash);
    }
  }

  lemma ModuleLink(relations: seq<Relation>, id: string, path: string)
    requires id == PackageId(path)
    ensures Linked(relations, STATIC_LINK, ID_MAIN + "|" + id) <==>
            Relation("SPDXRef-Package-main", "STATIC_LINK", id) in relations
  {
    PackageIdHasNoBar(path);
    assert '|' !in ID_MAIN;
    LinkedEnds(relations, STATIC_LINK, ID_MAIN, id);
  }

  lemma ModuleRecorded(doc: Document, d: Module, lic: map<string, string>)
    requires forall i, j :: 0 <= i < j < |doc.packages| ==> doc.packages[i].id != doc.packages[j].id
    ensures DepRecorded(doc, d, lic) <==> HasModule(doc, d, lic)
  {
    hide DepOk, ModuleRight, Found, Linked, PackageId;
    var id := PackageId(d.path);
    ModuleLink(doc.relations, id, d.path);
    forall p | p in doc.packages ensures p.id == id && DepOk(p, d, lic) <==> ModuleRight(p, d, lic) { ModuleMeaning(p, d, lic); }
    forall p ensures Found(doc.packages, id) == Some(p) <==> p in doc.packages && p.id == id { FoundOnly(doc.packages, id, p); }
  }

  lemma {:induction false} ModulesMeaning(doc: Document, deps: seq<Module>, lic: map<string, string>)
    requires forall i, j :: 0 <= i < j < |doc.packages| ==> doc.packages[i].id != doc.packages[j].id
    ensures DepsRecorded(doc, deps, lic) <==> forall d :: d in deps ==> HasModule(doc, d, lic)
  {
    if deps != [] {
      hide DepRecorded, HasModule;
      var n := |deps| - 1;
      ModulesMeaning(doc, deps[..n], lic);
      ModuleRecorded(doc, deps[n], lic);
      LastOrBefore(deps);
    }
  }

  lemma {:induction false} FileIdHasNoBar(name: string)
    ensures '|' !in FileId(name)
  {
    CleanedHasNoBar(name);
    assert '|' !in "SPDXRef-File-";
  }

  lemma LinksMeaning(relations: seq<Relation>, s: Spec)
    ensures FixedLinks(relations, s) <==> LinksRight(relations, s)
  {
    hide IdOf, Linked, FileId;
    var bin := FileId(s.Binary());
    forall id ensures id == bin <==> IdOf(id, "SPDXRef-File-", "bin/" + s.program) { IdsMeaning(id, "bin/" + s.program); }
    FileIdHasNoBar(s.Binary());
    assert '|' !in ID_MAIN && '|' !in ID_GO && '|' !in ID_STDLIB;
    LinkedEnds(relations, STATIC_LINK, ID_MAIN, ID_STDLIB);
    LinkedEnds(relations, BUILD_TOOL_OF, ID_GO, bin);
    LinkedEnds(relations, GENERATED_FROM, bin, ID_MAIN);
  }

  lemma {:induction false} DifferentFiles(packages: seq<Package>, files: seq<File>)
    requires forall i, j :: 0 <= i < j < |files| ==> files[i].id != files[j].id && files[i].Path() != files[j].Path()
    requires forall p, f :: p in packages && f in files ==> p.id != f.id
    ensures FilesDistinct(packages, files)
  {
    if files != [] {
      hide File.Path;
      var n := |files| - 1;
      LastOrBefore(files);
      DifferentFiles(packages, files[..n]);
      FoundFileMeaning(files[..n], files[n].Path());
      HasFileIdMeaning(files[..n], files[n].id);
      FoundMeaning(packages, files[n].id);
      forall f | f in files[..n] ensures f.Path() != files[n].Path() && f.id != files[n].id {
        var i :| 0 <= i < n && files[i] == f;
      }
    }
  }

  lemma FileIdsMeaning(packages: seq<Package>, files: seq<File>)
    ensures FilesDistinct(packages, files) <==> FileIdsRight(packages, files)
  {
    hide File.Path, Named, FilesDistinct;
    forall f: File, path ensures f.Path() == path <==> Named(f.name, path) { NamedMeaning(f, path); }
    if FilesDistinct(packages, files) { FileIdsDiffer(packages, files); }
    if FileIdsRight(packages, files) {
      forall i, j | 0 <= i < j < |files| ensures files[i].Path() != files[j].Path() {
        assert Named(files[i].name, files[i].Path());
      }
      DifferentFiles(packages, files);
    }
  }

  // ---------- Acceptance ----------

  lemma DifferentNamesStep(entries: seq<Entry>)
    requires entries != []
    ensures var n := |entries| - 1;
            NamesDiffer(entries) <==>
            NamesDiffer(entries[..n]) && (entries[n].name == "sbom.spdx.json" || entries[n].name !in Names(entries[..n]))
  {
    var n := |entries| - 1;
    var apart := (d: Entry, e: Entry) => d.name == e.name ==> d.name == "sbom.spdx.json";
    PairsSnoc(entries, apart);
    NameAmong(entries[..n], entries[n].name);
  }

  lemma {:induction false} NameAmong(entries: seq<Entry>, name: string)
    ensures name in Names(entries) <==> name != "sbom.spdx.json" && exists i :: 0 <= i < |entries| && entries[i].name == name
  {
    if entries != [] { NameAmong(entries[..|entries| - 1], name); }
  }

  lemma {:induction false} DifferentNames(entries: seq<Entry>)
    ensures NamesDistinct(entries) <==> NamesDiffer(entries)
  {
    if entries != [] {
      hide NamesDiffer, Names;
      DifferentNames(entries[..|entries| - 1]);
      DifferentNamesStep(entries);
    } else {
      assert NamesDiffer([]);
    }
  }

  lemma {:induction false} EntriesMeaning(doc: Document, entries: seq<Entry>, own: string, expr: string)
    ensures EntriesRecorded(doc, entries, own, expr) <==>
            forall e :: e in entries && e.name != "sbom.spdx.json" ==>
              EntryRecorded(doc.relations, FoundFile(doc.files, e.name), e, own, expr)
  {
    if entries != [] {
      hide EntryRecorded;
      var n := |entries| - 1;
      EntriesMeaning(doc, entries[..n], own, expr);
      assert entries == entries[..n] + [entries[n]];
    }
  }

  lemma FoundFileOnly(files: seq<File>, path: string, f: File)
    requires forall i, j :: 0 <= i < j < |files| ==> files[i].Path() != files[j].Path()
    ensures FoundFile(files, path) == Some(f) <==> f in files && f.Path() == path
  {
    hide File.Path;
    FoundFileMeaning(files, path);
    if f in files && f.Path() == path {
      var g := FoundFile(files, path).value;
      var i, j :| 0 <= i < |files| && 0 <= j < |files| && files[i] == f && files[j] == g;
      assert i == j;
    }
  }

  lemma EntryMeaning(doc: Document, e: Entry, own: string, expr: string)
    requires forall i, j :: 0 <= i < j < |doc.files| ==> doc.files[i].Path() != doc.files[j].Path()
    ensures EntryRecorded(doc.relations, FoundFile(doc.files, e.name), e, own, expr) <==>
            exists f :: f in doc.files && Describes(f, e, own, expr) && HasFile(doc.relations, f.id)
  {
    hide File.Path, FileOk, Describes;
    var found := FoundFile(doc.files, e.name);
    FoundFileMeaning(doc.files, e.name);
    if f :| f in doc.files && Describes(f, e, own, expr) && HasFile(doc.relations, f.id) {
      FileMeaning(f, e, own, expr);
      FoundFileOnly(doc.files, e.name, f);
      LinkedMeaning(doc.relations, CONTAINS, ID_BUNDLE + "|" + f.id);
    }
    if EntryRecorded(doc.relations, found, e, own, expr) {
      FileMeaning(found.value, e, own, expr);
      LinkedMeaning(doc.relations, CONTAINS, ID_BUNDLE + "|" + found.value.id);
    }
  }

  lemma StraysMeaning(files: seq<File>, entries: seq<Entry>)
    ensures NoStrays(files, entries) <==>
            forall f :: f in files ==> exists e :: e in entries && e.name != "sbom.spdx.json" && Named(f.name, e.name)
  {
    hide File.Path, Named;
    forall f | f in files
      ensures f.Path() in Names(entries) <==>
              exists e :: e in entries && e.name != "sbom.spdx.json" && Named(f.name, e.name)
    {
      NamesMeaning(entries, f.Path());
      forall e | e in entries ensures f.Path() == e.name <==> Named(f.name, e.name) { NamedMeaning(f, e.name); }
    }
  }

  lemma FilesMeaning(doc: Document, entries: seq<Entry>, own: string, expr: string)
    requires forall i, j :: 0 <= i < j < |doc.files| ==> doc.files[i].Path() != doc.files[j].Path()
    ensures FilesRight(doc, entries, own, expr) <==>
            NamesDistinct(entries) && EntriesRecorded(doc, entries, own, expr) && NoStrays(doc.files, entries)
  {
    hide File.Path, EntryRecorded, Describes, HasFile, Named;
    DifferentNames(entries);
    EntriesMeaning(doc, entries, own, expr);
    forall e | e in entries
      ensures EntryRecorded(doc.relations, FoundFile(doc.files, e.name), e, own, expr) <==>
              exists f :: f in doc.files && Describes(f, e, own, expr) && HasFile(doc.relations, f.id)
    {
      EntryMeaning(doc, e, own, expr);
    }
    StraysMeaning(doc.files, entries);
  }

  /** The parts of acceptance that rest on no package id being used twice. */
  lemma PackagesMeaning(doc: Document, hash: string -> string, s: Spec, entries: seq<Entry>, b: Build,
                        lic: map<string, string>, goHash: string, expr: string)
    requires IdsDistinct(doc.packages)
    ensures FixedRight(doc.packages, hash, s, entries, b, expr, goHash) <==>
              && BundleOk(Found(doc.packages, ID_BUNDLE), hash, s, entries, expr) && MainOk(Found(doc.packages, ID_MAIN), s, b)
              && ToolOk(Found(doc.packages, ID_GO), b) && RuntimeOk(Found(doc.packages, ID_STDLIB), b, goHash)
    ensures DepsRecorded(doc, b.deps, lic) <==> forall d :: d in b.deps ==> HasModule(doc, d, lic)
  {
    hide BundleOk, BundleRight, MainOk, MainRight, ToolOk, RuntimeOk, GoRight, Occurs, HasModule, Found, DepsRecorded;
    PackageIdsDiffer(doc.packages);
    BundleFound(doc.packages, hash, s, entries, expr);
    MainFound(doc.packages, s, b);
    ToolFound(doc.packages, b);
    RuntimeFound(doc.packages, b, goHash);
    ModulesMeaning(doc, b.deps, lic);
  }

  /** The parts that rest on no path and no file id being used twice. */
  lemma ContentsMeaning(doc: Document, entries: seq<Entry>, own: string, expr: string)
    ensures FileIdsRight(doc.packages, doc.files) && FilesRight(doc, entries, own, expr) <==>
              && FilesDistinct(doc.packages, doc.files)
              && NamesDistinct(entries) && EntriesRecorded(doc, entries, own, expr) && NoStrays(doc.files, entries)
  {
    hide FileIdsRight, FilesRight, FilesDistinct, NamesDistinct, EntriesRecorded, NoStrays, File.Path;
    FileIdsMeaning(doc.packages, doc.files);
    if FilesDistinct(doc.packages, doc.files) {
      FileIdsDiffer(doc.packages, doc.files);
      FilesMeaning(doc, entries, own, expr);
    }
  }

  /** The check accepts a document exactly when it says what is right. */
  lemma AcceptedMeaning(doc: Document, hash: string -> string, s: Spec, entries: seq<Entry>, b: Build,
                        lic: map<string, string>, goHash: string)
    ensures Accepts(doc, hash, s, entries, b, lic, goHash) <==> Right(doc, hash, s, entries, b, lic, goHash)
  {
    hide BundleOk, MainOk, ToolOk, RuntimeOk, FixedRight, HasModule, DepsRecorded, FixedLinks, LinksRight, IdsDistinct, Found;
    hide FileIdsRight, FilesRight, PackageIdsRight, AllAllowed, FilesDistinct, NamesDistinct, EntriesRecorded, NoStrays;
    var expr := LicenseExpr(s.license, lic);
    PackageIdsMeaning(doc.packages, b);
    if IdsDistinct(doc.packages) { PackagesMeaning(doc, hash, s, entries, b, lic, goHash, expr); }
    LinksMeaning(doc.relations, s);
    ContentsMeaning(doc, entries, s.license, expr);
  }

  // ---------- The document of the tool itself ----------

  /** The same id is made of both names. */
  ghost predicate SameId(start: string, a: string, b: string) { exists id :: IdOf(id, start, a) && IdOf(id, start, b) }

  lemma SamePackageId(a: string, b: string)
    ensures PackageId(a) == PackageId(b) <==> SameId("SPDXRef-Package-", a, b)
  {
    hide IdOf, PackageId, FileId;
    forall id, name ensures id == PackageId(name) <==> IdOf(id, "SPDXRef-Package-", name) { IdsMeaning(id, name); }
    assert IdOf(PackageId(a), "SPDXRef-Package-", a);
  }

  lemma SameFileId(a: string, b: string)
    ensures FileId(a) == FileId(b) <==> SameId("SPDXRef-File-", a, b)
  {
    hide IdOf, PackageId, FileId;
    forall id, name ensures id == FileId(name) <==> IdOf(id, "SPDXRef-File-", name) { IdsMeaning(id, name); }
    assert IdOf(FileId(a), "SPDXRef-File-", a);
  }

  ghost predicate NotFixed(path: string) {
    && !SameId("SPDXRef-Package-", path, "bundle") && !SameId("SPDXRef-Package-", path, "main")
    && !SameId("SPDXRef-Package-", path, "go") && !SameId("SPDXRef-Package-", path, "go-stdlib")
  }

  ghost predicate ModulesDiffer(deps: seq<Module>) {
    && (forall i, j :: 0 <= i < j < |deps| ==> !SameId("SPDXRef-Package-", deps[i].path, deps[j].path))
    && (forall d :: d in deps ==> NotFixed(d.path))
  }

  ghost predicate FileNamesDiffer(entries: seq<Entry>) {
    forall i, j :: && 0 <= i < j < |entries|
                   && entries[i].name != "sbom.spdx.json" && entries[j].name != "sbom.spdx.json" ==>
      !SameId("SPDXRef-File-", entries[i].name, entries[j].name)
  }

  ghost predicate SumsRead(deps: seq<Module>) {
    forall d :: d in deps ==> !Occurs(". ", d.sum) && (d.orig == "" ==> !Occurs("바꿔 넣었다", d.sum))
  }

  lemma FixedPackageIds()
    ensures ID_BUNDLE == PackageId("bundle") && ID_MAIN == PackageId("main")
    ensures ID_GO == PackageId("go") && ID_STDLIB == PackageId("go-stdlib")
  {
    IdsMeaning(ID_BUNDLE, "bundle");
    IdsMeaning(ID_MAIN, "main");
    IdsMeaning(ID_GO, "go");
    IdsMeaning(ID_STDLIB, "go-stdlib");
  }

  lemma FixedApart(path: string)
    ensures PackageId(path) in FIXED <==> !NotFixed(path)
  {
    hide PackageId, SameId;
    FixedPackageIds();
    SamePackageId(path, "bundle");
    SamePackageId(path, "main");
    SamePackageId(path, "go");
    SamePackageId(path, "go-stdlib");
  }

  lemma {:induction false} DepIdAmong(deps: seq<Module>, id: string)
    ensures id in DepIds(deps) <==> exists i :: 0 <= i < |deps| && PackageId(deps[i].path) == id
  {
    if deps != [] {
      hide PackageId;
      DepIdAmong(deps[..|deps| - 1], id);
    }
  }

  lemma ModulesStep(deps: seq<Module>)
    requires deps != []
    ensures var n := |deps| - 1;
            ModulesDiffer(deps) <==>
            ModulesDiffer(deps[..n]) && PackageId(deps[n].path) !in FIXED + DepIds(deps[..n])
  {
    hide PackageId, SameId;
    var n := |deps| - 1;
    var apart := (d: Module, e: Module) => !SameId("SPDXRef-Package-", d.path, e.path);
    PairsSnoc(deps, apart);
    DepIdAmong(deps[..n], PackageId(deps[n].path));
    forall i | 0 <= i < n
      ensures PackageId(deps[i].path) == PackageId(deps[n].path) <==> SameId("SPDXRef-Package-", deps[i].path, deps[n].path)
    {
      SamePackageId(deps[i].path, deps[n].path);
    }
    FixedApart(deps[n].path);
    assert ModulesDiffer(deps) <==> Pairs(deps, apart) && forall d :: d in deps ==> NotFixed(d.path);
    assert ModulesDiffer(deps[..n]) <==> Pairs(deps[..n], apart) && forall d :: d in deps[..n] ==> NotFixed(d.path);
    LastOrBefore(deps);
  }

  lemma {:induction false} ModulesApart(deps: seq<Module>)
    ensures DepsApart(deps) <==> ModulesDiffer(deps)
  {
    if deps != [] {
      hide ModulesDiffer, PackageId;
      ModulesApart(deps[..|deps| - 1]);
      ModulesStep(deps);
    }
  }

  lemma {:induction false} FileIdAmong(entries: seq<Entry>, id: string)
    ensures id in FileIds(entries) <==>
            exists i :: 0 <= i < |entries| && entries[i].name != "sbom.spdx.json" && FileId(entries[i].name) == id
  {
    if entries != [] {
      hide FileId;
      FileIdAmong(entries[..|entries| - 1], id);
    }
  }

  lemma FileNamesStep(entries: seq<Entry>)
    requires entries != []
    ensures var n := |entries| - 1;
            FileNamesDiffer(entries) <==>
            && FileNamesDiffer(entries[..n])
            && (entries[n].name == SBOM_NAME || FileId(entries[n].name) !in FileIds(entries[..n]))
  {
    hide FileId, SameId;
    var n := |entries| - 1;
    var apart := (d: Entry, e: Entry) =>
      d.name != "sbom.spdx.json" && e.name != "sbom.spdx.json" ==> !SameId("SPDXRef-File-", d.name, e.name);
    PairsSnoc(entries, apart);
    assert FileNamesDiffer(entries) <==> Pairs(entries, apart);
    assert FileNamesDiffer(entries[..n]) <==> Pairs(entries[..n], apart);
    FileIdAmong(entries[..n], FileId(entries[n].name));
    forall i | 0 <= i < n
      ensures FileId(entries[i].name) == FileId(entries[n].name) <==> SameId("SPDXRef-File-", entries[i].name, entries[n].name)
    {
      SameFileId(entries[i].name, entries[n].name);
    }
  }

  lemma {:induction false} FileNamesApart(entries: seq<Entry>)
    ensures FilesApart(entries) <==> FileNamesDiffer(entries)
  {
    if entries != [] {
      hide FileNamesDiffer, FileId;
      FileNamesApart(entries[..|entries| - 1]);
      FileNamesStep(entries);
    }
  }

  lemma {:induction false} SumsAreRead(deps: seq<Module>)
    ensures SumsReadable(deps) <==> SumsRead(deps)
  {
    if deps != [] {
      hide Occurs;
      var n := |deps| - 1;
      SumsAreRead(deps[..n]);
      ContainsMeaning(deps[n].sum, STOP);
      ContainsMeaning(deps[n].sum, REPLACED);
      LastOrBefore(deps);
    }
  }

  /** The document composed from a bundle and a program is right for them exactly under these conditions. */
  lemma OwnDocumentRight(hash: string -> string, s: Spec, entries: seq<Entry>, b: Build, lic: map<string, string>, goHash: string)
    requires |s.commit| == 40 && forall c :: c in s.commit ==> '0' <= c <= '9' || 'a' <= c <= 'f'
    ensures Right(Composed(hash, s, entries, b, lic, goHash), hash, s, entries, b, lic, goHash) <==>
            ModulesDiffer(b.deps) && FileNamesDiffer(entries) && SumsRead(b.deps)
  {
    hide Composed, Accepts, Right, DepsApart, ModulesDiffer, FilesApart, FileNamesDiffer, SumsReadable, SumsRead;
    AcceptedMeaning(Composed(hash, s, entries, b, lic, goHash), hash, s, entries, b, lic, goHash);
    OwnDocumentAccepted(hash, s, entries, b, lic, goHash);
    ModulesApart(b.deps);
    FileNamesApart(entries);
    SumsAreRead(b.deps);
  }
}

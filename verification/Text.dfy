/** The functions of Go's strings package the SBOM tool is built on, and what holds of them. */
module Text {
  import opened Basics

  predicate HasPrefix(s: string, p: string) { |p| <= |s| && s[..|p|] == p }

  function TrimPrefix(s: string, p: string): string { if HasPrefix(s, p) then s[|p|..] else s }

  /** A text and its prefix agree where the prefix reaches. */
  lemma PrefixStart(s: string, p: string)
    ensures HasPrefix(s, p) && p != "" ==> s[0] == p[0]
    ensures HasPrefix(s, p) && |p| > 1 ==> s[1] == p[1]
  {
    var q := if |p| <= |s| then s[..|p|] else "";
    assert q != "" ==> s[0] == q[0];
    assert |q| > 1 ==> s[1] == q[1];
  }

  /** strings.Index: where sub first occurs. */
  function Index(s: string, sub: string): (r: Option<nat>)
    ensures r.Some? ==> r.value + |sub| <= |s|
  {
    if HasPrefix(s, sub) then Some(0)
    else if s == "" then None
    else match Index(s[1..], sub) case None => None case Some(i) => Some(i + 1)
  }

  predicate Contains(s: string, sub: string) { Index(s, sub).Some? }

  lemma PrefixOfConcat(p: string, s: string)
    ensures HasPrefix(p + s, p) && TrimPrefix(p + s, p) == s
  {
    assert (p + s)[..|p|] == p && (p + s)[|p|..] == s;
  }

  lemma PrefixAndRest(s: string, p: string)
    requires HasPrefix(s, p)
    ensures s == p + TrimPrefix(s, p)
  {
  }

  /** Text that occurs is found. */
  lemma {:induction false} ContainsMiddle(a: string, sub: string, b: string)
    ensures Contains(a + sub + b, sub)
  {
    var s := a + sub + b;
    if a == "" {
      assert s[..|sub|] == sub;
    } else if !HasPrefix(s, sub) {
      assert s[1..] == a[1..] + sub + b;
      ContainsMiddle(a[1..], sub, b);
    }
  }

  /** Text that cannot contain the first character of sub can be skipped when looking for sub. */
  lemma {:induction false} IndexSkips(a: string, s: string, sub: string)
    requires sub != "" && sub[0] !in a
    ensures Index(a + s, sub) == match Index(s, sub) case None => None case Some(i) => Some(|a| + i)
  {
    if a == "" {
      assert a + s == s;
    } else {
      assert (a + s)[0] == a[0] && (a + s)[1..] == a[1..] + s;
      PrefixStart(a + s, sub);
      IndexSkips(a[1..], s, sub);
    }
  }

  /** What occurs in a text first occurs at the same place in a longer text. */
  lemma {:induction false} IndexExtends(s: string, more: string, sub: string)
    requires Index(s, sub).Some?
    ensures Index(s + more, sub) == Index(s, sub)
  {
    if HasPrefix(s, sub) {
      assert (s + more)[..|sub|] == s[..|sub|];
    } else {
      assert (s + more)[1..] == s[1..] + more;
      IndexExtends(s[1..], more, sub);
      assert |sub| <= |s| ==> (s + more)[..|sub|] == s[..|sub|];
    }
  }

  const STOP := ". "

  /** A full stop and a blank put after a text without them are the first ones. */
  lemma {:induction false} FirstStop(a: string, rest: string)
    requires !Contains(a, STOP)
    ensures Index(a + STOP + rest, STOP) == Some(|a|)
  {
    var s := a + STOP + rest;
    if a == "" {
      assert s[..2] == STOP;
    } else {
      assert s[1..] == a[1..] + STOP + rest;
      FirstStop(a[1..], rest);
      PrefixStart(s, STOP);
      assert s[1] == if |a| > 1 then a[1] else '.';
      assert |a| > 1 ==> a[..2] == s[..2];
    }
  }

  /** Two texts joined at a character neither part contains can be told apart again. */
  lemma JoinIsInjective(a: string, b: string, c: string, d: string, sep: char)
    requires sep !in c && sep !in d && a + [sep] + b == c + [sep] + d
    ensures a == c && b == d
  {
    var s, t := a + [sep] + b, c + [sep] + d;
    assert s[|a|] == sep && t[|c|] == sep;
    assert s[..|a|] == a && t[..|c|] == c && s[|a| + 1..] == b && t[|c| + 1..] == d;
  }
}

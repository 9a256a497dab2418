/** Reading and replacing the pinned module revision in a Terraform file (bin/consumer_manifest.py,
    `MODULE_SOURCE`, `terraform_revision`, `replaced_terraform_revision`). */
module RevisionLens {
  import opened Optional

  datatype Result<+T> = Ok(value: T) | Refused

  const SHA_LENGTH := 40

  /** The two literal runs of the pattern: `keyword \s* = \s* url sha "`. */
  datatype Pattern = Pattern(keyword: string, url: string)

  /** `MODULE_SOURCE`. The address is written in pieces so that each `s` in it stands alone. */
  const MODULE_SOURCE := Pattern("s" + KEYWORD_REST, URL0 + "s" + URL1 + "s" + URL2 + "s" + URL3)
  const KEYWORD_REST := "ource"
  const URL0 := "\"git::http"
  const URL1 := ":" + "//github.com/" + "rknightion/" + "grafana-cloud-" + "org-in"
  const URL2 := "ight"
  const URL3 := "." + "git//" + "terraform?" + "ref="

  /** What keeps matches apart: the keyword starts with "so" and "so" occurs nowhere else in a match. */
  ghost predicate Separable(p: Pattern) {
    && |p.keyword| >= 2 && p.keyword[0] == 's' && p.keyword[1] == 'o'
    && |p.url| > 0 && !IsSpace(p.url[0])
    && (forall k :: 0 < k < |p.keyword| ==> p.keyword[k] != 's')
    && (forall k :: 0 <= k < |p.url| && p.url[k] == 's' ==> k + 1 < |p.url| && p.url[k + 1] != 'o')
  }

  lemma ModuleSourceIsSeparable()
    ensures Separable(MODULE_SOURCE)
  {
    UrlPieces();
    LoneLetters(URL0, URL1, URL2, URL3);
    KeywordStart(KEYWORD_REST);
    assert URL0[0] == '"';
    assert MODULE_SOURCE.url[0] == URL0[0];
  }

  lemma UrlPieces()
    ensures 's' !in URL0 && 's' !in URL1 && 's' !in URL2 && 's' !in URL3
    ensures URL1[0] == ':' && URL2[0] == 'i' && URL3[0] == '.'
    ensures 's' !in KEYWORD_REST && KEYWORD_REST[0] == 'o'
  {
    assert 's' !in "//github.com/" && 's' !in "rknightion/" && 's' !in "grafana-cloud-" && 's' !in "org-in";
    assert 's' !in "git//" && 's' !in "terraform?" && 's' !in "ref=";
  }

  lemma KeywordStart(rest: string)
    requires 's' !in rest && rest != "" && rest[0] == 'o'
    ensures var keyword := "s" + rest;
            |keyword| >= 2 && keyword[0] == 's' && keyword[1] == 'o'
            && forall k :: 0 < k < |keyword| ==> keyword[k] != 's'
  {
    var keyword := "s" + rest;
    assert forall k :: 0 < k < |keyword| ==> keyword[k] == rest[k - 1];
  }

  lemma LoneLetters(u0: string, u1: string, u2: string, u3: string)
    requires 's' !in u0 && 's' !in u1 && 's' !in u2 && 's' !in u3
    requires u1 != [] && u2 != [] && u3 != [] && u1[0] != 'o' && u2[0] != 'o' && u3[0] != 'o'
    ensures var url := u0 + "s" + u1 + "s" + u2 + "s" + u3;
            forall k :: 0 <= k < |url| && url[k] == 's' ==> k + 1 < |url| && url[k + 1] != 'o'
  {
    var url := u0 + "s" + u1 + "s" + u2 + "s" + u3;
    var a := |u0|;
    var b := a + 1 + |u1|;
    var c := b + 1 + |u2|;
    assert url[a + 1] == u1[0] && url[b + 1] == u2[0] && url[c + 1] == u3[0];
    assert forall k :: 0 <= k < |u0| ==> url[k] == u0[k];
    assert forall k :: 0 <= k < |u1| ==> url[a + 1 + k] == u1[k];
    assert forall k :: 0 <= k < |u2| ==> url[b + 1 + k] == u2[k];
    assert forall k :: 0 <= k < |u3| ==> url[c + 1 + k] == u3[k];
    assert forall k :: 0 <= k < |url| && k != a && k != b && k != c ==>
      url[k] == if k < a then u0[k] else if k < b then u1[k - a - 1]
                else if k < c then u2[k - b - 1] else u3[k - c - 1];
  }

  /** The characters `\s` matches in a text pattern. */
  predicate IsSpace(c: char) {
    || '\t' <= c <= '\r' || '\U{1c}' <= c <= ' ' || c == '\U{85}' || c == '\U{a0}' || c == '\U{1680}'
    || '\U{2000}' <= c <= '\U{200a}' || c == '\U{2028}' || c == '\U{2029}' || c == '\U{202f}'
    || c == '\U{205f}' || c == '\U{3000}'
  }

  /** The same characters by their code points. */
  lemma SpacesByCode(c: char)
    ensures IsSpace(c) <==>
              c as int in {9, 10, 11, 12, 13, 28, 29, 30, 31, 32, 133, 160, 5760, 8192, 8193, 8194, 8195, 8196, 8197,
                           8198, 8199, 8200, 8201, 8202, 8232, 8233, 8239, 8287, 12288}
  {
  }

  predicate IsHex(c: char) {
    '0' <= c <= '9' || 'a' <= c <= 'f'
  }

  predicate AllSpace(s: string) {
    forall i :: 0 <= i < |s| ==> IsSpace(s[i])
  }

  /** A full lowercase commit SHA. */
  predicate IsSha(s: string) {
    |s| == SHA_LENGTH && forall i :: 0 <= i < |s| ==> IsHex(s[i])
  }

  /** The language of the pattern: t is one module source pinned at sha. */
  ghost predicate IsSource(p: Pattern, t: string, gap1: string, gap2: string, sha: string) {
    AllSpace(gap1) && AllSpace(gap2) && IsSha(sha)
    && t == p.keyword + gap1 + "=" + gap2 + p.url + sha + "\""
  }

  ghost predicate IsPinned(p: Pattern, t: string, sha: string) {
    exists gap1, gap2 :: IsSource(p, t, gap1, gap2, sha)
  }

  lemma PinnedFrom(p: Pattern, t: string, gap1: string, gap2: string, sha: string)
    requires AllSpace(gap1) && AllSpace(gap2) && IsSha(sha)
    requires t == p.keyword + gap1 + "=" + gap2 + p.url + sha + "\""
    ensures IsPinned(p, t, sha)
  {
    assert IsSource(p, t, gap1, gap2, sha);
  }

  lemma CutOnce(text: string, a: nat, b: nat, c: nat)
    requires a <= b <= c <= |text|
    ensures text[a..c] == text[a..b] + text[b..c]
  {
  }

  lemma Cut(text: string, a: nat, b: nat, c: nat, d: nat, e: nat, f: nat, g: nat, h: nat)
    requires a <= b <= c <= d <= e <= f <= g <= h <= |text|
    ensures text[a..h]
         == text[a..b] + text[b..c] + text[c..d] + text[d..e] + text[e..f] + text[f..g] + text[g..h]
  {
    CutOnce(text, a, b, c);
    CutOnce(text, a, c, d);
    CutOnce(text, a, d, e);
    CutOnce(text, a, e, f);
    CutOnce(text, a, f, g);
    CutOnce(text, a, g, h);
  }

  lemma Slice(text: string, i: nat, end: nat, x: nat, y: nat)
    requires i <= end <= |text| && x <= y <= end - i
    ensures text[i + x..i + y] == text[i..end][x..y]
  {
    var t := text[i..end];
    assert forall k :: 0 <= k < y - x ==> t[x..y][k] == t[x + k] == text[i + x + k];
  }

  lemma Join(t: string, a: string, b: string, c: string, d: string, e: string, f: string, g: string)
    requires t == a + b + c + d + e + f + g
    ensures var (n1, n2, n3) := (|a|, |a + b|, |a + b + c|);
            t[..n1] == a && t[n1..n2] == b && t[n2..n3] == c
    ensures var (n3, n4, n5, n6) := (|a + b + c|, |a + b + c + d|, |a + b + c + d + e|, |a + b + c + d + e + f|);
            t[n3..n4] == d && t[n4..n5] == e && t[n5..n6] == f && t[n6..] == g
  {
  }

  // Matching at one position

  /** A match: the pattern covers [start, end) and its second group starts at rev. */
  datatype Span = Span(start: nat, rev: nat, end: nat)

  predicate At(text: string, i: nat, literal: string) {
    i + |literal| <= |text| && text[i..i + |literal|] == literal
  }

  /** Where the run of white space from i ends. */
  function AfterSpace(text: string, i: nat): (j: nat)
    requires i <= |text|
    ensures i <= j <= |text| && AllSpace(text[i..j]) && (j < |text| ==> !IsSpace(text[j]))
    decreases |text| - i
  {
    if i < |text| && IsSpace(text[i]) then
      var j := AfterSpace(text, i + 1);
      assert text[i..j] == [text[i]] + text[i + 1..j];
      j
    else i
  }

  /** The rest of a match whose url starts here. */
  function MatchUrl(p: Pattern, text: string, i: nat, url: nat): Option<Span> {
    var rev := url + |p.url|;
    if At(text, url, p.url) && rev + SHA_LENGTH < |text| && IsSha(text[rev..rev + SHA_LENGTH])
       && text[rev + SHA_LENGTH] == '"'
    then Some(Span(i, rev, rev + SHA_LENGTH + 1))
    else None
  }

  /** The rest of a match whose equals sign stands here. */
  function MatchEquals(p: Pattern, text: string, i: nat, eq: nat): Option<Span> {
    if !At(text, eq, "=") then None else MatchUrl(p, text, i, AfterSpace(text, eq + 1))
  }

  /** The pattern matched at one position. */
  function MatchAt(p: Pattern, text: string, i: nat): Option<Span> {
    if !At(text, i, p.keyword) then None else MatchEquals(p, text, i, AfterSpace(text, i + |p.keyword|))
  }

  lemma {:induction false} AfterSpaceUnique(text: string, i: nat, j: nat)
    requires i <= j <= |text| && AllSpace(text[i..j]) && (j < |text| ==> !IsSpace(text[j]))
    ensures AfterSpace(text, i) == j
    decreases j - i
  {
    if i < j {
      assert IsSpace(text[i..j][0]);
      assert text[i + 1..j] == text[i..j][1..];
      AfterSpaceUnique(text, i + 1, j);
    }
  }

  /** A match covers a word of the pattern's language. */
  lemma MatchIsSource(p: Pattern, text: string, i: nat)
    requires MatchAt(p, text, i).Some?
    ensures var m := MatchAt(p, text, i).value;
            && m.start == i && i + |p.keyword| + 1 + |p.url| <= m.rev && m.end == m.rev + SHA_LENGTH + 1 <= |text|
            && IsPinned(p, text[i..m.end], text[m.rev..m.rev + SHA_LENGTH])
  {
    var eq, url := MatchFields(p, text, i);
    FieldsPinned(p, text, i, eq, url, MatchAt(p, text, i).value.rev);
  }

  /** Where the fields of a match stand. */
  lemma MatchFields(p: Pattern, text: string, i: nat) returns (eq: nat, url: nat)
    requires MatchAt(p, text, i).Some?
    ensures var m := MatchAt(p, text, i).value;
            && m == Span(i, m.rev, m.rev + SHA_LENGTH + 1) && m.end <= |text|
            && i + |p.keyword| <= eq < url && url + |p.url| == m.rev
            && text[i..i + |p.keyword|] == p.keyword && AllSpace(text[i + |p.keyword|..eq])
            && text[eq..eq + 1] == "=" && AllSpace(text[eq + 1..url]) && text[url..m.rev] == p.url
            && IsSha(text[m.rev..m.rev + SHA_LENGTH]) && text[m.rev + SHA_LENGTH] == '"'
  {
    eq := AfterSpace(text, i + |p.keyword|);
    url := AfterSpace(text, eq + 1);
  }

  lemma FieldsPinned(p: Pattern, text: string, i: nat, eq: nat, url: nat, rev: nat)
    requires i + |p.keyword| <= eq < url && url + |p.url| == rev && rev + SHA_LENGTH < |text|
    requires text[i..i + |p.keyword|] == p.keyword && AllSpace(text[i + |p.keyword|..eq])
    requires text[eq..eq + 1] == "=" && AllSpace(text[eq + 1..url]) && text[url..rev] == p.url
    requires IsSha(text[rev..rev + SHA_LENGTH]) && text[rev + SHA_LENGTH] == '"'
    ensures IsPinned(p, text[i..rev + SHA_LENGTH + 1], text[rev..rev + SHA_LENGTH])
  {
    assert text[rev + SHA_LENGTH..rev + SHA_LENGTH + 1] == "\"";
    Cut(text, i, i + |p.keyword|, eq, eq + 1, url, rev, rev + SHA_LENGTH, rev + SHA_LENGTH + 1);
    PinnedFrom(p, text[i..rev + SHA_LENGTH + 1], text[i + |p.keyword|..eq], text[eq + 1..url],
               text[rev..rev + SHA_LENGTH]);
  }

  /** Every word of the language is matched where it stands, and its extent is unique. */
  lemma SourceIsMatch(p: Pattern, text: string, i: nat, end: nat, gap1: string, gap2: string, sha: string)
    requires |p.url| > 0 && !IsSpace(p.url[0])
    requires i <= end <= |text| && IsSource(p, text[i..end], gap1, gap2, sha)
    ensures MatchAt(p, text, i) == Some(Span(i, end - SHA_LENGTH - 1, end))
  {
    var eq := |p.keyword| + |gap1|;
    var url := eq + 1 + |gap2|;
    FieldsOf(text, i, end, p.keyword, gap1, gap2, p.url, sha);
    FieldsMatch(p, text, i, i + eq, i + url, i + url + |p.url|);
  }

  lemma FieldsOf(text: string, i: nat, end: nat, a: string, gap1: string, gap2: string, url: string, sha: string)
    requires i <= end <= |text| && text[i..end] == a + gap1 + "=" + gap2 + url + sha + "\""
    ensures end == i + |a| + |gap1| + 1 + |gap2| + |url| + |sha| + 1
    ensures text[i..i + |a|] == a && text[i + |a|..i + |a| + |gap1|] == gap1
    ensures var eq := i + |a| + |gap1|;
            text[eq..eq + 1] == "=" && text[eq + 1..eq + 1 + |gap2|] == gap2
            && text[eq + 1 + |gap2|..eq + 1 + |gap2| + |url|] == url
    ensures var rev := i + |a| + |gap1| + 1 + |gap2| + |url|;
            text[rev..rev + |sha|] == sha && text[rev + |sha|..rev + |sha| + 1] == "\""
  {
    var n1, n2 := |a|, |a| + |gap1|;
    var n3, n4 := n2 + 1, n2 + 1 + |gap2|;
    var n5, n6 := n4 + |url|, n4 + |url| + |sha|;
    Join(text[i..end], a, gap1, "=", gap2, url, sha, "\"");
    Slice(text, i, end, 0, n1);
    Slice(text, i, end, n1, n2);
    Slice(text, i, end, n2, n3);
    Slice(text, i, end, n3, n4);
    Slice(text, i, end, n4, n5);
    Slice(text, i, end, n5, n6);
    Slice(text, i, end, n6, n6 + 1);
  }

  lemma FieldsMatch(p: Pattern, text: string, i: nat, eq: nat, url: nat, rev: nat)
    requires |p.url| > 0 && !IsSpace(p.url[0])
    requires i + |p.keyword| <= eq < url && url + |p.url| == rev && rev + SHA_LENGTH < |text|
    requires text[i..i + |p.keyword|] == p.keyword && AllSpace(text[i + |p.keyword|..eq])
    requires text[eq..eq + 1] == "=" && AllSpace(text[eq + 1..url]) && text[url..rev] == p.url
    requires IsSha(text[rev..rev + SHA_LENGTH]) && text[rev + SHA_LENGTH..rev + SHA_LENGTH + 1] == "\""
    ensures MatchAt(p, text, i) == Some(Span(i, rev, rev + SHA_LENGTH + 1))
  {
    assert AfterSpace(text, i + |p.keyword|) == eq && AfterSpace(text, eq + 1) == url by {
      SpacesEnd(p, text, i + |p.keyword|, eq, url, rev);
    }
    assert At(text, i, p.keyword) && At(text, eq, "=") && At(text, url, p.url);
    assert text[rev + SHA_LENGTH] == '"' by {
      First(text, rev + SHA_LENGTH, '"');
    }
    AtFields(p, text, i, eq, url, rev);
  }

  lemma First(text: string, i: nat, c: char)
    requires i < |text| && text[i..i + 1] == [c]
    ensures text[i] == c
  {
    assert text[i..i + 1][0] == text[i];
  }

  lemma SpacesEnd(p: Pattern, text: string, a: nat, eq: nat, url: nat, rev: nat)
    requires |p.url| > 0 && !IsSpace(p.url[0])
    requires a <= eq < url < rev <= |text| && AllSpace(text[a..eq])
    requires text[eq..eq + 1] == "=" && AllSpace(text[eq + 1..url]) && text[url..rev] == p.url
    ensures AfterSpace(text, a) == eq && AfterSpace(text, eq + 1) == url
  {
    First(text, eq, '=');
    assert text[url] == text[url..rev][0];
    AfterSpaceUnique(text, a, eq);
    AfterSpaceUnique(text, eq + 1, url);
  }

  lemma AtFields(p: Pattern, text: string, i: nat, eq: nat, url: nat, rev: nat)
    requires i + |p.keyword| <= eq < url && url + |p.url| == rev && rev + SHA_LENGTH < |text|
    requires At(text, i, p.keyword) && At(text, eq, "=") && At(text, url, p.url)
    requires AfterSpace(text, i + |p.keyword|) == eq && AfterSpace(text, eq + 1) == url
    requires IsSha(text[rev..rev + SHA_LENGTH]) && text[rev + SHA_LENGTH] == '"'
    ensures MatchAt(p, text, i) == Some(Span(i, rev, rev + SHA_LENGTH + 1))
  {
    assert MatchUrl(p, text, i, url) == Some(Span(i, rev, rev + SHA_LENGTH + 1));
    assert MatchEquals(p, text, i, eq) == MatchUrl(p, text, i, url);
  }

  // Matches never overlap

  /** No match starts inside another: the keyword does not occur in the rest of a match. */
  lemma NoOverlap(p: Pattern, text: string, i: nat, j: nat)
    requires Separable(p)
    requires MatchAt(p, text, i).Some? && MatchAt(p, text, j).Some? && i < j
    ensures MatchAt(p, text, i).value.end <= j
  {
    var m := MatchAt(p, text, i).value;
    MatchIsSource(p, text, i);
    StartsWithKeyword(p, text, j);
    if j < m.end {
      NoKeywordInside(p, text, i, m.end, text[m.rev..m.rev + SHA_LENGTH], j);
    }
  }

  lemma NoKeywordInside(p: Pattern, text: string, i: nat, end: nat, sha: string, j: nat)
    requires Separable(p) && i < j < end <= |text| && IsPinned(p, text[i..end], sha)
    ensures text[j] == 's' ==> j + 1 < end && text[j + 1] != 'o'
  {
    var t := text[i..end];
    assert t[j - i] == text[j];
    KeywordInside(p, t, sha, j - i);
    if j + 1 < end {
      assert t[j + 1 - i] == text[j + 1];
    }
  }

  lemma StartsWithKeyword(p: Pattern, text: string, j: nat)
    requires Separable(p) && MatchAt(p, text, j).Some?
    ensures j + 1 < |text| && text[j] == 's' && text[j + 1] == 'o'
  {
    assert text[j] == text[j..j + |p.keyword|][0];
    assert text[j + 1] == text[j..j + |p.keyword|][1];
  }

  lemma KeywordInside(p: Pattern, t: string, sha: string, k: nat)
    requires Separable(p) && IsPinned(p, t, sha) && 0 < k < |t|
    ensures t[k] == 's' ==> k + 1 < |t| && t[k + 1] != 'o'
  {
    var gap1, gap2 :| IsSource(p, t, gap1, gap2, sha);
    KeywordOnlyAtStart(p, t, gap1, gap2, sha, k);
  }

  lemma KeywordOnlyAtStart(p: Pattern, t: string, gap1: string, gap2: string, sha: string, k: nat)
    requires Separable(p) && IsSource(p, t, gap1, gap2, sha) && 0 < k < |t|
    ensures t[k] == 's' ==> k + 1 < |t| && t[k + 1] != 'o'
  {
    var a := |p.keyword|;
    var eq := a + |gap1|;
    var url := eq + 1 + |gap2|;
    var rev := url + |p.url|;
    if k < a {
      assert t[k] == p.keyword[k];
    } else if k < eq {
      assert t[k] == gap1[k - a];
    } else if k == eq {
      assert t[k] == '=';
    } else if k < url {
      assert t[k] == gap2[k - eq - 1];
    } else if k < rev {
      assert t[k] == p.url[k - url];
      if t[k] == 's' {
        assert k + 1 < rev;
        assert t[k + 1] == p.url[k + 1 - url];
      }
    } else if k < rev + SHA_LENGTH {
      assert t[k] == sha[k - rev];
    }
  }

  // Scanning a whole text

  /** `MODULE_SOURCE.finditer(text, i)`: the leftmost match, then on from its end. */
  function FindAll(p: Pattern, text: string, i: nat): (found: seq<Span>)
    requires i <= |text|
    ensures forall m :: m in found ==> m.start >= i && MatchAt(p, text, m.start) == Some(m)
    decreases |text| - i
  {
    if i == |text| then []
    else
      match MatchAt(p, text, i)
      case Some(m) =>
        MatchIsSource(p, text, i);
        [m] + FindAll(p, text, m.end)
      case None => FindAll(p, text, i + 1)
  }

  /** `MODULE_SOURCE.subn(r"\g<1>{revision}\g<3>", text)` from position i: the new text and the count. */
  function SubN(p: Pattern, text: string, i: nat, revision: string): (r: (string, nat))
    requires i <= |text|
    decreases |text| - i
  {
    if i == |text| then ("", 0)
    else
      match MatchAt(p, text, i)
      case Some(m) =>
        MatchIsSource(p, text, i);
        var (rest, count) := SubN(p, text, m.end, revision);
        (text[i..m.rev] + revision + text[m.rev + SHA_LENGTH..m.end] + rest, count + 1)
      case None =>
        var (rest, count) := SubN(p, text, i + 1, revision);
        ([text[i]] + rest, count)
  }

  /** The scan finds every match, because none starts inside another. */
  lemma {:induction false} FindAllComplete(p: Pattern, text: string, i: nat, j: nat)
    requires Separable(p) && i <= j < |text| && MatchAt(p, text, j).Some?
    ensures MatchAt(p, text, j).value in FindAll(p, text, i)
    decreases j - i
  {
    if i < j {
      match MatchAt(p, text, i)
      case Some(m) =>
        MatchIsSource(p, text, i);
        NoOverlap(p, text, i, j);
        FindAllComplete(p, text, m.end, j);
      case None =>
        FindAllComplete(p, text, i + 1, j);
    }
  }

  /** Where the revision of the match at i stands. */
  ghost predicate InRevision(p: Pattern, text: string, i: nat, k: nat) {
    MatchAt(p, text, i).Some? && MatchAt(p, text, i).value.rev <= k < MatchAt(p, text, i).value.rev + SHA_LENGTH
  }

  /** text2 differs from text only in the revisions of text's matches, where it carries other SHAs. */
  ghost predicate Repins(p: Pattern, text: string, text2: string) {
    && |text2| == |text|
    && (forall i {:trigger MatchAt(p, text, i)} :: 0 <= i < |text| && MatchAt(p, text, i).Some? ==>
          var m := MatchAt(p, text, i).value;
          m.rev + SHA_LENGTH <= |text| && IsSha(text2[m.rev..m.rev + SHA_LENGTH]))
    && (forall k :: 0 <= k < |text| && text2[k] != text[k] ==> exists i :: 0 <= i < |text| && InRevision(p, text, i, k))
  }

  lemma AgreesOutsideRevision(p: Pattern, text: string, text2: string, i: nat)
    requires |p.url| > 0 && !IsSpace(p.url[0])
    requires MatchAt(p, text, i).Some?
    requires var m := MatchAt(p, text, i).value;
             m.end <= |text2| && text2[i..m.rev] == text[i..m.rev]
             && IsSha(text2[m.rev..m.rev + SHA_LENGTH]) && text2[m.rev + SHA_LENGTH] == '"'
    ensures MatchAt(p, text2, i) == MatchAt(p, text, i)
  {
    var m := MatchAt(p, text, i).value;
    var eq, url := MatchFields(p, text, i);
    SameFields(p, text, text2, i, eq, url, m.rev);
    FieldsMatch(p, text2, i, eq, url, m.rev);
  }

  lemma SameFields(p: Pattern, text: string, text2: string, i: nat, eq: nat, url: nat, rev: nat)
    requires i + |p.keyword| <= eq < url <= rev <= |text| && rev <= |text2| && text2[i..rev] == text[i..rev]
    ensures text2[i..i + |p.keyword|] == text[i..i + |p.keyword|]
    ensures text2[i + |p.keyword|..eq] == text[i + |p.keyword|..eq]
    ensures text2[eq..eq + 1] == text[eq..eq + 1] && text2[eq + 1..url] == text[eq + 1..url]
    ensures text2[url..rev] == text[url..rev]
  {
    SameSlice(text, text2, i, rev, i, i + |p.keyword|);
    SameSlice(text, text2, i, rev, i + |p.keyword|, eq);
    SameSlice(text, text2, i, rev, eq, eq + 1);
    SameSlice(text, text2, i, rev, eq + 1, url);
    SameSlice(text, text2, i, rev, url, rev);
  }

  lemma SameSlice(text: string, text2: string, from: nat, to: nat, x: nat, y: nat)
    requires from <= x <= y <= to <= |text| && to <= |text2| && text2[from..to] == text[from..to]
    ensures text2[x..y] == text[x..y]
  {
    Slice(text, from, to, x - from, y - from);
    Slice(text2, from, to, x - from, y - from);
  }

  lemma MatchSurvives(p: Pattern, text: string, text2: string, i: nat)
    requires Separable(p) && Repins(p, text, text2) && i < |text| && MatchAt(p, text, i).Some?
    ensures MatchAt(p, text2, i) == MatchAt(p, text, i)
  {
    MatchIsSource(p, text, i);
    var m := MatchAt(p, text, i).value;
    forall k | i <= k < m.end && !(m.rev <= k < m.rev + SHA_LENGTH) ensures text2[k] == text[k] {
      if text2[k] != text[k] {
        var j :| 0 <= j < |text| && InRevision(p, text, j, k);
        MatchIsSource(p, text, j);
        if i < j {
          NoOverlap(p, text, i, j);
        } else if j < i {
          NoOverlap(p, text, j, i);
        }
        assert false;
      }
    }
    assert text2[i..m.rev] == text[i..m.rev];
    assert text2[m.rev + SHA_LENGTH] == text[m.rev + SHA_LENGTH] == '"';
    AgreesOutsideRevision(p, text, text2, i);
  }

  lemma ChangedIsRevision(p: Pattern, text: string, text2: string, k: nat) returns (i: nat)
    requires Separable(p) && Repins(p, text, text2) && k < |text| && text2[k] != text[k]
    ensures i < |text| && InRevision(p, text2, i, k) && IsHex(text[k])
  {
    i :| 0 <= i < |text| && InRevision(p, text, i, k);
    MatchSurvives(p, text, text2, i);
    RevisionIsHex(p, text, i, k);
  }

  lemma RevisionIsHex(p: Pattern, text: string, i: nat, k: nat)
    requires InRevision(p, text, i, k)
    ensures k < |text| && IsHex(text[k])
  {
    MatchIsSource(p, text, i);
    var m := MatchAt(p, text, i).value;
    assert IsHex(text[m.rev..m.rev + SHA_LENGTH][k - m.rev]);
  }

  lemma UnchangedOrHex(p: Pattern, text: string, text2: string, k: nat)
    requires Separable(p) && Repins(p, text, text2) && k < |text| && IsHex(text2[k])
    ensures IsHex(text[k])
  {
    if text2[k] != text[k] {
      var _ := ChangedIsRevision(p, text, text2, k);
    }
  }

  lemma RevisionStaysHex(p: Pattern, text: string, text2: string, i: nat)
    requires Separable(p) && Repins(p, text, text2) && MatchAt(p, text2, i).Some?
    ensures var m := MatchAt(p, text2, i).value;
            m.rev + SHA_LENGTH <= |text| && IsSha(text[m.rev..m.rev + SHA_LENGTH])
  {
    MatchIsSource(p, text2, i);
    var m := MatchAt(p, text2, i).value;
    forall k | m.rev <= k < m.rev + SHA_LENGTH ensures IsHex(text[k]) {
      RevisionIsHex(p, text2, i, k);
      UnchangedOrHex(p, text, text2, k);
    }
  }

  lemma RepinsSymmetric(p: Pattern, text: string, text2: string)
    requires Separable(p) && Repins(p, text, text2)
    ensures Repins(p, text2, text)
  {
    forall k | 0 <= k < |text| && text2[k] != text[k]
      ensures exists i :: 0 <= i < |text2| && InRevision(p, text2, i, k)
    {
      var i := ChangedIsRevision(p, text, text2, k);
    }
    forall i | 0 <= i < |text2| && MatchAt(p, text2, i).Some?
      ensures var m := MatchAt(p, text2, i).value;
              m.rev + SHA_LENGTH <= |text2| && IsSha(text[m.rev..m.rev + SHA_LENGTH])
    {
      RevisionStaysHex(p, text, text2, i);
    }
  }

  /** Changing revisions inside matches creates no match, destroys none and moves none. */
  lemma RepinsKeepsMatches(p: Pattern, text: string, text2: string, i: nat)
    requires Separable(p) && Repins(p, text, text2) && i < |text|
    ensures MatchAt(p, text2, i) == MatchAt(p, text, i)
  {
    RepinsSymmetric(p, text, text2);
    if MatchAt(p, text, i).Some? {
      MatchSurvives(p, text, text2, i);
    } else if MatchAt(p, text2, i).Some? {
      MatchSurvives(p, text2, text, i);
    }
  }

  lemma {:induction false} RepinsKeepsScan(p: Pattern, text: string, text2: string, i: nat)
    requires Separable(p) && Repins(p, text, text2) && i <= |text|
    ensures FindAll(p, text2, i) == FindAll(p, text, i)
    decreases |text| - i
  {
    if i < |text| {
      RepinsKeepsMatches(p, text, text2, i);
      match MatchAt(p, text, i)
      case Some(m) =>
        MatchIsSource(p, text, i);
        RepinsKeepsScan(p, text, text2, m.end);
      case None =>
        RepinsKeepsScan(p, text, text2, i + 1);
    }
  }

  // What the substitution does

  function Put(text: string, m: Span, revision: string): string
    requires m.rev + SHA_LENGTH <= |text|
  {
    text[..m.rev] + revision + text[m.rev + SHA_LENGTH..]
  }

  lemma {:induction false} SubNCounts(p: Pattern, text: string, i: nat, revision: string)
    requires i <= |text|
    ensures SubN(p, text, i, revision).1 == |FindAll(p, text, i)|
    ensures FindAll(p, text, i) == [] ==> SubN(p, text, i, revision).0 == text[i..]
    decreases |text| - i
  {
    if i < |text| {
      match MatchAt(p, text, i)
      case Some(m) =>
        MatchIsSource(p, text, i);
        SubNCounts(p, text, m.end, revision);
      case None =>
        SubNCounts(p, text, i + 1, revision);
    }
  }

  lemma {:induction false} SubNPutsOnce(p: Pattern, text: string, i: nat, revision: string, m: Span)
    requires i <= |text| && FindAll(p, text, i) == [m]
    ensures m.rev + SHA_LENGTH <= |text|
    ensures text[..i] + SubN(p, text, i, revision).0 == Put(text, m, revision)
    decreases |text| - i
  {
    if MatchAt(p, text, i).Some? {
      SubNAtMatch(p, text, i, revision, m);
    } else {
      SubNPutsOnce(p, text, i + 1, revision, m);
      Shift(text, i, SubN(p, text, i + 1, revision).0);
    }
  }

  lemma SubNAtMatch(p: Pattern, text: string, i: nat, revision: string, m: Span)
    requires i <= |text| && FindAll(p, text, i) == [m] && MatchAt(p, text, i).Some?
    ensures m.rev + SHA_LENGTH <= |text|
    ensures text[..i] + SubN(p, text, i, revision).0 == Put(text, m, revision)
  {
    MatchIsSource(p, text, i);
    assert MatchAt(p, text, i).value == m && FindAll(p, text, m.end) == [];
    SubNCounts(p, text, m.end, revision);
    Reassemble(text, i, m, revision);
  }

  lemma Shift(text: string, i: nat, rest: string)
    requires i < |text|
    ensures text[..i] + ([text[i]] + rest) == text[..i + 1] + rest
  {
  }

  lemma Reassemble(text: string, i: nat, m: Span, revision: string)
    requires i <= m.rev && m.rev + SHA_LENGTH <= m.end <= |text|
    ensures text[..i] + (text[i..m.rev] + revision + text[m.rev + SHA_LENGTH..m.end] + text[m.end..])
         == Put(text, m, revision)
  {
    assert text[..i] + text[i..m.rev] == text[..m.rev];
    assert text[m.rev + SHA_LENGTH..m.end] + text[m.end..] == text[m.rev + SHA_LENGTH..];
  }

  lemma PutRepins(p: Pattern, text: string, m: Span, revision: string)
    requires Separable(p) && IsSha(revision) && FindAll(p, text, 0) == [m]
    ensures m.end <= |text| && Repins(p, text, Put(text, m, revision))
  {
    assert m in FindAll(p, text, 0);
    MatchIsSource(p, text, m.start);
    forall i | 0 <= i < |text| && MatchAt(p, text, i).Some? ensures MatchAt(p, text, i).value == m {
      FindAllComplete(p, text, 0, i);
    }
    PutRepinsOnly(p, text, m, revision);
  }

  lemma PutRepinsOnly(p: Pattern, text: string, m: Span, revision: string)
    requires IsSha(revision) && m.rev + SHA_LENGTH <= |text| && m.start < |text|
    requires MatchAt(p, text, m.start) == Some(m)
    requires forall i :: 0 <= i < |text| && MatchAt(p, text, i).Some? ==> MatchAt(p, text, i).value == m
    ensures Repins(p, text, Put(text, m, revision))
  {
    ReadPut(text, m, revision);
    var out := Put(text, m, revision);
    forall k | 0 <= k < |text| && out[k] != text[k]
      ensures exists i :: 0 <= i < |text| && InRevision(p, text, i, k)
    {
      assert InRevision(p, text, m.start, k);
    }
  }

  // The two operations on a Terraform file

  /** `terraform_revision`: the pinned revision, refused unless there is exactly one module source. */
  function RevisionOf(p: Pattern, text: string): Result<string> {
    var found := FindAll(p, text, 0);
    if |found| != 1 then Refused
    else
      var m := found[0];
      assert m in found;
      MatchIsSource(p, text, m.start);
      Ok(text[m.rev..m.rev + SHA_LENGTH])
  }

  /** `replaced_terraform_revision`: the text with its one module source pinned at another revision. */
  function ReplacedIn(p: Pattern, text: string, revision: string): Result<string> {
    var (updated, count) := SubN(p, text, 0, revision);
    if count != 1 then Refused else Ok(updated)
  }

  function Revision(text: string): Result<string> {
    RevisionOf(MODULE_SOURCE, text)
  }

  function Replaced(text: string, revision: string): Result<string> {
    ReplacedIn(MODULE_SOURCE, text, revision)
  }

  lemma OnlyMatch(p: Pattern, text: string) returns (m: Span)
    requires RevisionOf(p, text).Ok?
    ensures FindAll(p, text, 0) == [m] && m.end <= |text| && m.rev + SHA_LENGTH < m.end
    ensures RevisionOf(p, text) == Ok(text[m.rev..m.rev + SHA_LENGTH])
    ensures IsSha(RevisionOf(p, text).value)
  {
    m := FindAll(p, text, 0)[0];
    OnlyMatchAt(p, text, FindAll(p, text, 0), m);
  }

  lemma OnlyMatchAt(p: Pattern, text: string, found: seq<Span>, m: Span)
    requires |found| == 1 && found[0] == m && MatchAt(p, text, m.start) == Some(m)
    ensures found == [m] && m.end <= |text| && m.rev + SHA_LENGTH < m.end && IsSha(text[m.rev..m.rev + SHA_LENGTH])
  {
    MatchIsSource(p, text, m.start);
  }

  lemma ReplacedIsPut(p: Pattern, text: string, m: Span, revision: string)
    requires Separable(p) && IsSha(revision) && FindAll(p, text, 0) == [m] && m.end <= |text|
    requires m.rev + SHA_LENGTH < m.end
    ensures ReplacedIn(p, text, revision) == Ok(Put(text, m, revision))
    ensures FindAll(p, Put(text, m, revision), 0) == [m]
  {
    FindsSame(p, text, m, revision);
    SubNCounts(p, text, 0, revision);
    SubNPutsOnce(p, text, 0, revision, m);
    var out := SubN(p, text, 0, revision).0;
    assert text[..0] + out == out;
  }

  lemma FindsSame(p: Pattern, text: string, m: Span, revision: string)
    requires Separable(p) && IsSha(revision) && FindAll(p, text, 0) == [m] && m.rev + SHA_LENGTH <= |text|
    ensures FindAll(p, Put(text, m, revision), 0) == [m]
  {
    PutRepins(p, text, m, revision);
    RepinsKeepsScan(p, text, Put(text, m, revision), 0);
  }

  lemma ReadPut(text: string, m: Span, revision: string)
    requires m.rev + SHA_LENGTH <= |text| && |revision| == SHA_LENGTH
    ensures Put(text, m, revision)[m.rev..m.rev + SHA_LENGTH] == revision
    ensures |Put(text, m, revision)| == |text|
  {
  }

  lemma PutCurrent(text: string, m: Span)
    requires m.rev + SHA_LENGTH <= |text|
    ensures Put(text, m, text[m.rev..m.rev + SHA_LENGTH]) == text
  {
  }

  lemma PutTwice(text: string, m: Span, first: string, second: string)
    requires m.rev + SHA_LENGTH <= |text| && |first| == SHA_LENGTH
    ensures |Put(text, m, first)| == |text| && Put(Put(text, m, first), m, second) == Put(text, m, second)
  {
  }

  /** Both operations refuse exactly the same texts. */
  lemma RefusalsAgree(p: Pattern, text: string, revision: string)
    ensures ReplacedIn(p, text, revision).Ok? <==> RevisionOf(p, text).Ok?
  {
    SubNCounts(p, text, 0, revision);
  }

  /** Reading after replacing gives the new revision. */
  lemma ReadAfterReplace(p: Pattern, text: string, revision: string)
    requires Separable(p) && IsSha(revision) && RevisionOf(p, text).Ok?
    ensures ReplacedIn(p, text, revision).Ok?
    ensures RevisionOf(p, ReplacedIn(p, text, revision).value) == Ok(revision)
  {
    var m := OnlyMatch(p, text);
    ReplacedIsPut(p, text, m, revision);
    ReadPut(text, m, revision);
  }

  /** Replacing with the current revision changes nothing. */
  lemma ReplaceWithCurrent(p: Pattern, text: string)
    requires Separable(p) && RevisionOf(p, text).Ok?
    ensures ReplacedIn(p, text, RevisionOf(p, text).value) == Ok(text)
  {
    var m := OnlyMatch(p, text);
    var current := text[m.rev..m.rev + SHA_LENGTH];
    ReplacedIsPut(p, text, m, current);
    PutCurrent(text, m);
  }

  /** Of two replacements the last one counts. */
  lemma ReplaceTwice(p: Pattern, text: string, first: string, second: string)
    requires Separable(p) && IsSha(first) && IsSha(second) && RevisionOf(p, text).Ok?
    ensures ReplacedIn(p, text, first).Ok?
    ensures ReplacedIn(p, ReplacedIn(p, text, first).value, second) == ReplacedIn(p, text, second)
  {
    var m := OnlyMatch(p, text);
    PutTwice(text, m, first, second);
    ReplacedIsPut(p, text, m, first);
    ReplacedIsPut(p, text, m, second);
    ReplacedIsPut(p, Put(text, m, first), m, second);
  }

  /** Only the forty characters of the revision change, in the text as it was read. */
  lemma ReplaceFrame(p: Pattern, text: string, revision: string) returns (at: nat)
    requires Separable(p) && IsSha(revision) && RevisionOf(p, text).Ok?
    ensures at + SHA_LENGTH <= |text| && RevisionOf(p, text) == Ok(text[at..at + SHA_LENGTH])
    ensures ReplacedIn(p, text, revision) == Ok(text[..at] + revision + text[at + SHA_LENGTH..])
  {
    var m := OnlyMatch(p, text);
    ReplacedIsPut(p, text, m, revision);
    at := m.rev;
  }

  /** The lens laws for the repository's own pattern. */
  lemma PinLens(text: string, revision: string, other: string)
    requires IsSha(revision) && IsSha(other) && Revision(text).Ok?
    ensures Replaced(text, revision).Ok? && Revision(Replaced(text, revision).value) == Ok(revision)
    ensures Replaced(text, Revision(text).value) == Ok(text)
    ensures Replaced(Replaced(text, revision).value, other) == Replaced(text, other)
  {
    ModuleSourceIsSeparable();
    ReadAfterReplace(MODULE_SOURCE, text, revision);
    ReplaceWithCurrent(MODULE_SOURCE, text);
    ReplaceTwice(MODULE_SOURCE, text, revision, other);
  }

  // What reading means

  ghost predicate Increasing(found: seq<Span>) {
    forall a, b :: 0 <= a < b < |found| ==> found[a].start < found[b].start
  }

  lemma ConsIncreasing(m: Span, rest: seq<Span>)
    requires Increasing(rest) && forall r :: r in rest ==> m.start < r.start
    ensures Increasing([m] + rest)
  {
    assert forall b :: 0 <= b < |rest| ==> rest[b] in rest;
  }

  lemma {:induction false} FindAllIncreasing(p: Pattern, text: string, i: nat)
    requires i <= |text|
    ensures Increasing(FindAll(p, text, i))
    decreases |text| - i
  {
    if i < |text| {
      match MatchAt(p, text, i)
      case Some(m) =>
        MatchIsSource(p, text, i);
        FindAllIncreasing(p, text, m.end);
        ConsIncreasing(m, FindAll(p, text, m.end));
      case None =>
        FindAllIncreasing(p, text, i + 1);
    }
  }

  lemma OneStart(found: seq<Span>, i: nat, m: Span)
    requires Increasing(found) && m in found && forall r :: r in found ==> r.start == i
    ensures |found| == 1 && found[0] == m
  {
    assert forall b :: 0 <= b < |found| ==> found[b] in found;
    assert |found| > 1 ==> found[0].start < found[1].start;
  }

  /** A module source pinned at sha stands at i. */
  ghost predicate PinnedAt(p: Pattern, text: string, i: nat, sha: string) {
    exists end :: i <= end <= |text| && IsPinned(p, text[i..end], sha)
  }

  lemma PinnedIsMatch(p: Pattern, text: string, i: nat, sha: string)
    requires |p.url| > 0 && !IsSpace(p.url[0]) && PinnedAt(p, text, i, sha)
    ensures i < |text| && MatchAt(p, text, i).Some?
    ensures var m := MatchAt(p, text, i).value; m.rev + SHA_LENGTH <= |text| && text[m.rev..m.rev + SHA_LENGTH] == sha
  {
    var end :| i <= end <= |text| && IsPinned(p, text[i..end], sha);
    var gap1, gap2 :| IsSource(p, text[i..end], gap1, gap2, sha);
    SourceIsMatch(p, text, i, end, gap1, gap2, sha);
    RevisionOfSource(p, text, i, end, gap1, gap2, sha);
  }

  lemma RevisionOfSource(p: Pattern, text: string, i: nat, end: nat, gap1: string, gap2: string, sha: string)
    requires i <= end <= |text| && IsSource(p, text[i..end], gap1, gap2, sha)
    ensures i + SHA_LENGTH + 1 <= end && text[end - SHA_LENGTH - 1..end - 1] == sha
  {
    FieldsOf(text, i, end, p.keyword, gap1, gap2, p.url, sha);
  }

  lemma MatchIsPinned(p: Pattern, text: string, i: nat)
    requires MatchAt(p, text, i).Some?
    ensures var m := MatchAt(p, text, i).value;
            m.rev + SHA_LENGTH <= |text| && PinnedAt(p, text, i, text[m.rev..m.rev + SHA_LENGTH])
  {
    MatchIsSource(p, text, i);
  }

  ghost predicate OnlyPin(p: Pattern, text: string, i: nat, sha: string) {
    PinnedAt(p, text, i, sha) && forall j: nat, other :: PinnedAt(p, text, j, other) ==> j == i
  }

  lemma ReadIsOnlyPin(p: Pattern, text: string) returns (i: nat)
    requires Separable(p) && RevisionOf(p, text).Ok?
    ensures OnlyPin(p, text, i, RevisionOf(p, text).value)
  {
    var m := OnlyMatch(p, text);
    assert m in FindAll(p, text, 0);
    i := m.start;
    MatchIsPinned(p, text, i);
    forall j: nat, other | PinnedAt(p, text, j, other) ensures j == i {
      FoundAt(p, text, j, other);
    }
  }

  lemma SingleIsRead(p: Pattern, text: string, m: Span)
    requires |FindAll(p, text, 0)| == 1 && FindAll(p, text, 0)[0] == m
    ensures m.rev + SHA_LENGTH <= |text| && RevisionOf(p, text) == Ok(text[m.rev..m.rev + SHA_LENGTH])
  {
    assert m in FindAll(p, text, 0);
    MatchIsSource(p, text, m.start);
  }

  lemma OnlyPinIsRead(p: Pattern, text: string, i: nat, sha: string)
    requires Separable(p) && OnlyPin(p, text, i, sha)
    ensures RevisionOf(p, text) == Ok(sha)
  {
    FoundAt(p, text, i, sha);
    var found := FindAll(p, text, 0);
    var m :| m in found && m.start == i;
    forall r | r in found ensures r.start == i {
      MatchIsPinned(p, text, r.start);
    }
    FindAllIncreasing(p, text, 0);
    OneStart(found, i, m);
    SingleIsRead(p, text, m);
    PinnedIsMatch(p, text, i, sha);
  }

  /** Reading gives a revision exactly when one module source stands in the text, at one place, and is pinned there. */
  lemma ReadMeans(p: Pattern, text: string, sha: string)
    requires Separable(p)
    ensures RevisionOf(p, text) == Ok(sha) <==> exists i :: OnlyPin(p, text, i, sha)
  {
    if RevisionOf(p, text) == Ok(sha) {
      var i := ReadIsOnlyPin(p, text);
    }
    if i: nat :| OnlyPin(p, text, i, sha) {
      OnlyPinIsRead(p, text, i, sha);
    }
  }

  lemma FoundAt(p: Pattern, text: string, j: nat, sha: string)
    requires Separable(p) && PinnedAt(p, text, j, sha)
    ensures exists m :: m in FindAll(p, text, 0) && m.start == j
  {
    PinnedIsMatch(p, text, j, sha);
    MatchIsSource(p, text, j);
    FindAllComplete(p, text, 0, j);
  }

  /** The repository's own pattern, read off: its two literals, forty lowercase hexadecimal digits, and ASCII white
      space in the gaps. */
  lemma ModuleSourceText(sha: string, c: char)
    ensures MODULE_SOURCE.keyword == "source"
    ensures MODULE_SOURCE.url == "\"git::http" + "s" + "://github.com/" + "rknightion/" + "grafana-cloud-" + "org-in"
                                 + "s" + "ight" + "s" + ".git" + "//terraform?ref="
    ensures IsSha(sha) <==> |sha| == 40 && forall i :: 0 <= i < |sha| ==> sha[i] in "0123456789abcdef"
    ensures c < '\U{80}' ==> (IsSpace(c) <==> c in {' ', '\t', '\n', '\U{b}', '\U{c}', '\r',
                                                    '\U{1c}', '\U{1d}', '\U{1e}', '\U{1f}'})
  {
    assert "s" + "ource" == "source";
    assert ":" + "//github.com/" == "://github.com/";
    assert "." + "git//" + "terraform?" + "ref=" == ".git" + "//terraform?ref=";
    HexDigits(sha);
  }

  lemma HexDigits(sha: string)
    ensures forall i :: 0 <= i < |sha| ==> (IsHex(sha[i]) <==> sha[i] in "0123456789abcdef")
  {
    forall i | 0 <= i < |sha| ensures IsHex(sha[i]) <==> sha[i] in "0123456789abcdef" {
      HexDigit(sha[i]);
    }
  }

  lemma HexDigit(c: char)
    ensures IsHex(c) <==> c in "0123456789abcdef"
  {
    var digits := "0123456789abcdef";
    assert digits[0] == '0' && digits[1] == '1' && digits[2] == '2' && digits[3] == '3' && digits[4] == '4';
    assert digits[5] == '5' && digits[6] == '6' && digits[7] == '7' && digits[8] == '8' && digits[9] == '9';
    assert digits[10] == 'a' && digits[11] == 'b' && digits[12] == 'c' && digits[13] == 'd' && digits[14] == 'e';
    assert digits[15] == 'f';
  }
}

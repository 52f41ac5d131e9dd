/** slugifyFileNamePart: a meeting title as part of a download's file name. */
module Slug {
  const FALLBACK := "bien_ban"

  predicate IsWordChar(c: char) {
    'a' <= c <= 'z' || 'A' <= c <= 'Z' || '0' <= c <= '9'
  }

  /** `.replace(/[\u0300-\u036f]/g, '').replace(/đ/g, 'd').replace(/Đ/g, 'D')`. */
  function NoDiacritics(s: string): string {
    if s == "" then ""
    else if '\U{0300}' <= s[0] <= '\U{036F}' then NoDiacritics(s[1..])
    else [if s[0] == '\U{0111}' then 'd' else if s[0] == '\U{0110}' then 'D' else s[0]] + NoDiacritics(s[1..])
  }

  /** `.replace(/[^a-zA-Z0-9]+/g, '_')`: each run of other characters becomes one underscore. */
  function Collapse(s: string): (r: string)
    ensures r == "" <==> s == ""
    ensures s != "" ==> r[0] == if IsWordChar(s[0]) then s[0] else '_'
  {
    if s == "" then ""
    else if IsWordChar(s[0]) then [s[0]] + Collapse(s[1..])
    else if |s| > 1 && !IsWordChar(s[1]) then Collapse(s[1..])
    else "_" + Collapse(s[1..])
  }

  function TrimStart(s: string): string {
    if s != "" && s[0] == '_' then TrimStart(s[1..]) else s
  }

  function TrimEnd(s: string): string {
    if s != "" && s[|s| - 1] == '_' then TrimEnd(s[..|s| - 1]) else s
  }

  /** The part before the fallback and the cut; trimming is `.replace(/^_+|_+$/g, '')`. */
  function Core(s: string): string {
    TrimEnd(TrimStart(Collapse(s)))
  }

  /** How much of `n` characters `slice(0, end)` keeps; a negative end counts from the back. */
  function CutLength(n: nat, end: int): (k: nat)
    ensures k <= n
  {
    if end >= n then n else if end >= 0 then end else if n + end >= 0 then n + end else 0
  }

  function SliceTo(s: string, end: int): string {
    s[..CutLength(|s|, end)]
  }

  function Slugify(input: string, maxLength: int := 80): string {
    var slug := Core(NoDiacritics(input));
    SliceTo(if slug != "" then slug else FALLBACK, maxLength)
  }

  // ---- The words of a title, read independently of the rewriting ----

  /** The maximal runs of letters and digits, in order. */
  function Words(s: string): (ws: seq<string>)
    ensures s != "" && IsWordChar(s[0]) ==> ws != [] && ws[0] != ""
  {
    if s == "" then []
    else if !IsWordChar(s[0]) then Words(s[1..])
    else
      var rest := Words(s[1..]);
      if |s| > 1 && IsWordChar(s[1]) then [[s[0]] + rest[0]] + rest[1..] else [[s[0]]] + rest
  }

  function Join(ws: seq<string>): string {
    if ws == [] then "" else if |ws| == 1 then ws[0] else ws[0] + "_" + Join(ws[1..])
  }

  /** Words separated by single underscores, without one at the start. */
  predicate Separated(t: string) {
    && (forall i :: 0 <= i < |t| ==> IsWordChar(t[i]) || t[i] == '_')
    && (forall i :: 0 <= i < |t| - 1 ==> !(t[i] == '_' && t[i + 1] == '_'))
    && (t != "" ==> t[0] != '_')
  }

  predicate Clean(t: string) {
    Separated(t) && (t != "" ==> t[|t| - 1] != '_')
  }

  lemma {:induction false} CollapseShape(s: string)
    ensures forall i :: 0 <= i < |Collapse(s)| ==> IsWordChar(Collapse(s)[i]) || Collapse(s)[i] == '_'
    ensures forall i :: 0 <= i < |Collapse(s)| - 1 ==> !(Collapse(s)[i] == '_' && Collapse(s)[i + 1] == '_')
  {
    if s != "" {
      CollapseShape(s[1..]);
    }
  }

  lemma {:induction false} TrimStartShape(t: string) returns (k: nat)
    ensures k <= |t| && TrimStart(t) == t[k..]
    ensures TrimStart(t) != "" ==> TrimStart(t)[0] != '_'
  {
    if t != "" && t[0] == '_' {
      k := TrimStartShape(t[1..]);
      assert t[1..][k..] == t[k + 1..];
      k := k + 1;
    } else {
      k := 0;
    }
  }

  lemma {:induction false} TrimStartKeepsWords(t: string)
    ensures Words(TrimStart(t)) == Words(t)
  {
    if t != "" && t[0] == '_' {
      TrimStartKeepsWords(t[1..]);
    }
  }

  lemma {:induction false} TrailingSeparatorIsNoWord(t: string)
    ensures Words(t + "_") == Words(t)
  {
    if t == "" {
      assert t + "_" == "_";
    } else {
      TrailingSeparatorIsNoWord(t[1..]);
      assert (t + "_")[1..] == t[1..] + "_";
    }
  }

  lemma {:induction false} TrimEndShape(t: string) returns (k: nat)
    ensures k <= |t| && TrimEnd(t) == t[..k]
    ensures TrimEnd(t) != "" ==> TrimEnd(t)[|TrimEnd(t)| - 1] != '_'
  {
    k := |t|;
    if t != "" && t[|t| - 1] == '_' {
      var shorter := t[..|t| - 1];
      k := TrimEndShape(shorter);
      assert shorter[..k] == t[..k];
    }
  }

  lemma {:induction false} TrimEndKeepsWords(t: string)
    ensures Words(TrimEnd(t)) == Words(t)
  {
    if t != "" && t[|t| - 1] == '_' {
      var shorter := t[..|t| - 1];
      TrimEndKeepsWords(shorter);
      TrailingSeparatorIsNoWord(shorter);
      assert t == shorter + "_";
    }
  }

  lemma {:induction false} CollapseKeepsWords(s: string)
    ensures Words(Collapse(s)) == Words(s)
  {
    if s != "" {
      CollapseKeepsWords(s[1..]);
      if IsWordChar(s[0]) {
        assert Collapse(s)[1..] == Collapse(s[1..]);
      } else if |s| == 1 || IsWordChar(s[1]) {
        assert Collapse(s)[1..] == Collapse(s[1..]);
      }
    }
  }

  lemma CoreShape(s: string)
    ensures Clean(Core(s)) && Words(Core(s)) == Words(s)
  {
    CollapseShape(s);
    CollapseKeepsWords(s);
    var trimmed := TrimStart(Collapse(s));
    var i := TrimStartShape(Collapse(s));
    TrimStartKeepsWords(Collapse(s));
    var j := TrimEndShape(trimmed);
    TrimEndKeepsWords(trimmed);
  }

  lemma {:induction false} CleanIsJoin(t: string)
    requires Clean(t)
    ensures Join(Words(t)) == t
  {
    if |t| > 1 {
      if IsWordChar(t[1]) {
        CleanIsJoin(t[1..]);
        JoinExtendsFirst(t[0], Words(t[1..]));
      } else {
        assert Words(t[1..]) == Words(t[2..]) by { assert t[1..][1..] == t[2..]; }
        CleanIsJoin(t[2..]);
        assert Words(t) == [[t[0]]] + Words(t[2..]);
        assert t == [t[0]] + "_" + t[2..];
      }
    }
  }

  lemma JoinExtendsFirst(c: char, ws: seq<string>)
    requires ws != []
    ensures Join([[c] + ws[0]] + ws[1..]) == [c] + Join(ws)
  {
    if |ws| > 1 {
      assert ([[c] + ws[0]] + ws[1..])[1..] == ws[1..];
    }
  }

  /** Before the fallback and the cut, a slug is exactly the title's words joined by single
      underscores, so two titles share a slug if and only if they have the same words. */
  lemma CoreJoinsWords(a: string, b: string)
    ensures Core(a) == Join(Words(a))
    ensures Core(a) == Core(b) <==> Words(a) == Words(b)
  {
    CoreShape(a);
    CoreShape(b);
    CleanIsJoin(Core(a));
    CleanIsJoin(Core(b));
  }

  // ---- The whole function ----

  function Uncut(input: string): string {
    var slug := Core(NoDiacritics(input));
    if slug != "" then slug else FALLBACK
  }

  lemma UncutIsClean(input: string)
    ensures Clean(Uncut(input)) && Uncut(input) != ""
    ensures Slugify(input, |Uncut(input)|) == Uncut(input)
  {
    CoreShape(NoDiacritics(input));
  }

  /** A slug is usable as part of a file name: letters, digits and single underscores, not
      starting with one, cut to the limit and not empty unless the cut leaves nothing; it ends in
      an underscore exactly when the cut falls right after one. */
  lemma SlugIsSafe(input: string, maxLength: int)
    ensures var r, k := Slugify(input, maxLength), CutLength(|Uncut(input)|, maxLength);
      && Separated(r) && r <= Uncut(input) && |r| == k
      && (forall i :: 0 <= i < |r| ==>
            'a' <= r[i] <= 'z' || 'A' <= r[i] <= 'Z' || '0' <= r[i] <= '9' || (r[i] == '_' && i > 0 && r[i - 1] != '_'))
      && (maxLength >= 0 ==> |r| <= maxLength)
      && (maxLength >= 1 ==> r != "")
      && ((r != "" && r[|r| - 1] == '_') <==> 0 < k < |Uncut(input)| && Uncut(input)[k - 1] == '_')
  {
    UncutIsClean(input);
  }

  lemma {:induction false} PlainTextIsKept(t: string)
    requires forall i :: 0 <= i < |t| ==> IsWordChar(t[i]) || t[i] == '_'
    ensures NoDiacritics(t) == t
  {
    if t != "" {
      PlainTextIsKept(t[1..]);
      assert t == [t[0]] + t[1..];
    }
  }

  lemma {:induction false} CollapsedIsKept(t: string)
    requires forall i :: 0 <= i < |t| ==> IsWordChar(t[i]) || t[i] == '_'
    requires forall i :: 0 <= i < |t| - 1 ==> !(t[i] == '_' && t[i + 1] == '_')
    ensures Collapse(t) == t
  {
    if t != "" {
      CollapsedIsKept(t[1..]);
      assert t == [t[0]] + t[1..];
    }
  }

  lemma CoreOfSeparated(t: string)
    requires Separated(t)
    ensures Core(NoDiacritics(t)) == if t != "" && t[|t| - 1] == '_' then t[..|t| - 1] else t
  {
    PlainTextIsKept(t);
    CollapsedIsKept(t);
    assert TrimStart(t) == t;
    TrimEndOnce(t);
  }

  lemma TrimEndOnce(t: string)
    requires |t| >= 2 ==> !(t[|t| - 2] == '_' && t[|t| - 1] == '_')
    requires t != "_"
    ensures TrimEnd(t) == if t != "" && t[|t| - 1] == '_' then t[..|t| - 1] else t
  {}

  /** Slugging a slug drops the underscore at its end, if there is one, and cuts it again. */
  lemma SlugOfSlug(input: string, maxLength: int)
    ensures var once := Slugify(input, maxLength);
      var core := if once != "" && once[|once| - 1] == '_' then once[..|once| - 1] else once;
      && (once != "" ==> core != "" && core[|core| - 1] != '_')
      && Slugify(once, maxLength) == SliceTo(if once != "" then core else FALLBACK, maxLength)
  {
    var once := Slugify(input, maxLength);
    SlugIsSafe(input, maxLength);
    CoreOfSeparated(once);
    if once != "" && once[|once| - 1] == '_' {
      assert once[0] != '_';
      assert once[|once| - 2] != '_';
    }
  }

  /** With a limit of at least 0, slugging a slug changes it if and only if it ends in an
      underscore, and then only drops that; slugging twice is always final. A negative limit cuts
      the slug of a slug again: nothing is settled until nothing is left, of the fallback either. */
  lemma SlugSettles(input: string, maxLength: int)
    ensures var once := Slugify(input, maxLength);
      var twice := Slugify(once, maxLength);
      if maxLength >= 0 then
        && (twice == once <==> once == "" || once[|once| - 1] != '_')
        && (twice != once ==> once == twice + "_")
        && Slugify(twice, maxLength) == twice
      else
        twice == once <==> once == "" && maxLength <= -|FALLBACK|
  {
    var once := Slugify(input, maxLength);
    SlugIsSafe(input, maxLength);
    SlugOfSlug(input, maxLength);
    SlugIsSafe(once, maxLength);
    SlugOfSlug(once, maxLength);
  }

  /** Titles with the same words get the same file name, whatever separates the words. */
  lemma SlugDependsOnWords(a: string, b: string, maxLength: int)
    requires Words(NoDiacritics(a)) == Words(NoDiacritics(b))
    ensures Slugify(a, maxLength) == Slugify(b, maxLength)
  {
    CoreJoinsWords(NoDiacritics(a), NoDiacritics(b));
  }

  // ---- What a title's slug is, spelt out ----

  predicate IsAccent(c: char) {
    '\U{0300}' <= c <= '\U{036F}'
  }

  lemma {:induction false} NoDiacriticsAppend(a: string, b: string)
    ensures NoDiacritics(a + b) == NoDiacritics(a) + NoDiacritics(b)
  {
    if a == "" {
      assert a + b == b;
    } else {
      NoDiacriticsAppend(a[1..], b);
      assert (a + b)[1..] == a[1..] + b;
    }
  }

  /** Combining marks never change a slug, and the stroked letters count as d and D. */
  lemma AccentsNeverMatter(pre: string, accent: char, post: string, maxLength: int)
    requires IsAccent(accent)
    ensures Slugify(pre + [accent] + post, maxLength) == Slugify(pre + post, maxLength)
    ensures Slugify(pre + "\U{0111}" + post, maxLength) == Slugify(pre + "d" + post, maxLength)
    ensures Slugify(pre + "\U{0110}" + post, maxLength) == Slugify(pre + "D" + post, maxLength)
  {
    NoDiacriticsOfOne(pre, [accent], post);
    NoDiacriticsOfOne(pre, "", post);
    assert pre + "" + post == pre + post;
    NoDiacriticsOfOne(pre, "\U{0111}", post);
    NoDiacriticsOfOne(pre, "d", post);
    NoDiacriticsOfOne(pre, "\U{0110}", post);
    NoDiacriticsOfOne(pre, "D", post);
  }

  lemma NoDiacriticsOfOne(pre: string, mid: string, post: string)
    requires |mid| <= 1
    ensures NoDiacritics(pre + mid + post) == NoDiacritics(pre) + NoDiacritics(mid) + NoDiacritics(post)
    ensures |mid| == 1 && IsAccent(mid[0]) ==> NoDiacritics(mid) == NoDiacritics("")
    ensures mid == "\U{0111}" || mid == "d" ==> NoDiacritics(mid) == "d"
    ensures mid == "\U{0110}" || mid == "D" ==> NoDiacritics(mid) == "D"
  {
    NoDiacriticsAppend(pre + mid, post);
    NoDiacriticsAppend(pre, mid);
    if mid != "" {
      assert mid[1..] == "" && mid == [mid[0]];
    }
  }

  predicate IsPlain(c: char) {
    'a' <= c <= 'z' || 'A' <= c <= 'Z' || '0' <= c <= '9'
  }

  predicate PlainWord(w: string) {
    w != "" && forall i :: 0 <= i < |w| ==> IsPlain(w[i])
  }

  /** Nothing but characters that a slug has no place for. */
  predicate Gap(s: string) {
    forall i :: 0 <= i < |s| ==>
      !IsPlain(s[i]) && !IsAccent(s[i]) && s[i] != '\U{0111}' && s[i] != '\U{0110}'
  }

  /** Words, each followed by its gap; only the last gap may be empty. */
  predicate IsTitle(parts: seq<(string, string)>) {
    forall i :: 0 <= i < |parts| ==>
      PlainWord(parts[i].0) && Gap(parts[i].1) && (i < |parts| - 1 ==> parts[i].1 != "")
  }

  function Title(parts: seq<(string, string)>): string {
    if parts == [] then "" else parts[0].0 + parts[0].1 + Title(parts[1..])
  }

  function TitleWords(parts: seq<(string, string)>): seq<string> {
    seq(|parts|, i requires 0 <= i < |parts| => parts[i].0)
  }

  lemma {:induction false} GapHasNoWords(gap: string, rest: string)
    requires Gap(gap)
    ensures Words(gap + rest) == Words(rest)
  {
    if gap == "" {
      assert gap + rest == rest;
    } else {
      GapHasNoWords(gap[1..], rest);
      assert (gap + rest)[1..] == gap[1..] + rest;
    }
  }

  lemma {:induction false} WordThenGap(w: string, rest: string)
    requires PlainWord(w) && (rest != "" ==> !IsPlain(rest[0]))
    ensures Words(w + rest) == [w] + Words(rest)
  {
    var s := w + rest;
    if |w| == 1 {
      assert s[1..] == rest && w == [w[0]];
    } else {
      WordThenGap(w[1..], rest);
      assert s[1..] == w[1..] + rest;
      assert w == [w[0]] + w[1..];
    }
  }

  lemma {:induction false} WordsOfTitle(parts: seq<(string, string)>)
    requires IsTitle(parts)
    ensures Words(Title(parts)) == TitleWords(parts)
  {
    if parts != [] {
      var rest := parts[1..];
      forall i | 0 <= i < |rest| ensures rest[i] == parts[i + 1] {}
      WordsOfTitle(rest);
      var gap := parts[0].1;
      GapHasNoWords(gap, Title(rest));
      WordThenGap(parts[0].0, gap + Title(rest));
      assert parts[0].0 + gap + Title(rest) == parts[0].0 + (gap + Title(rest));
      assert TitleWords(parts) == [parts[0].0] + TitleWords(rest);
    }
  }

  lemma {:induction false} PlainAndGapsAreKept(s: string)
    requires forall i :: 0 <= i < |s| ==> !IsAccent(s[i]) && s[i] != '\U{0111}' && s[i] != '\U{0110}'
    ensures NoDiacritics(s) == s
  {
    if s != "" {
      PlainAndGapsAreKept(s[1..]);
      assert s == [s[0]] + s[1..];
    }
  }

  lemma {:induction false} TitleIsKept(parts: seq<(string, string)>)
    requires IsTitle(parts)
    ensures NoDiacritics(Title(parts)) == Title(parts)
  {
    if parts != [] {
      var rest := parts[1..];
      forall i | 0 <= i < |rest| ensures rest[i] == parts[i + 1] {}
      TitleIsKept(rest);
      PlainAndGapsAreKept(parts[0].0);
      PlainAndGapsAreKept(parts[0].1);
      NoDiacriticsAppend(parts[0].0 + parts[0].1, Title(rest));
      NoDiacriticsAppend(parts[0].0, parts[0].1);
    }
  }

  /** Any words with any gaps before, between and after them: the slug is the words with single
      underscores between them, cut to the limit; without words it is "bien_ban", cut likewise. */
  lemma SlugOfTitle(gap: string, parts: seq<(string, string)>, maxLength: int)
    requires Gap(gap) && IsTitle(parts)
    ensures Slugify(gap + Title(parts), maxLength)
         == SliceTo(if parts == [] then "bien_ban" else Join(TitleWords(parts)), maxLength)
  {
    PlainAndGapsAreKept(gap);
    TitleIsKept(parts);
    NoDiacriticsAppend(gap, Title(parts));
    GapHasNoWords(gap, Title(parts));
    WordsOfTitle(parts);
    CoreJoinsWords(gap + Title(parts), "");
    if parts != [] {
      assert TitleWords(parts)[0] == parts[0].0;
    }
  }

  /** Two words and the default limit: at most 80 characters of the two with one underscore. */
  lemma SlugOfTwoWords(a: string, gap: string, b: string)
    requires PlainWord(a) && Gap(gap) && gap != "" && PlainWord(b)
    ensures Slugify(a + gap + b) == if |a| + 1 + |b| <= 80 then a + "_" + b else (a + "_" + b)[..80]
  {
    var parts := [(a, gap), (b, "")];
    assert parts[1..] == [(b, "")] && [(b, "")][1..] == [];
    assert b + "" + "" == b && Title([(b, "")]) == b;
    assert Title(parts) == a + gap + b && "" + (a + gap + b) == a + gap + b;
    assert TitleWords(parts) == [a, b] && [a, b][1..] == [b];
    SlugOfTitle("", parts, 80);
  }
}

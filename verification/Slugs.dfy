/**
 * Organization slugs: src/controllers/googleAuthController.ts (sign-up), src/utils/slug.ts and its copy in
 * src/controllers/agencyController.ts (workspaces). Names are taken after toLowerCase.
 */
module Slugs {
  predicate Alnum(c: char) { 'a' <= c <= 'z' || '0' <= c <= '9' }

  /** The twenty-six lower-case letters and the ten digits. */
  lemma {:induction false} AlnumIs(c: char)
    ensures Alnum(c) <==> c in "abcdefghijklmnopqrstuvwxyz0123456789"
  {
    var all := "abcdefghijklmnopqrstuvwxyz0123456789";
    forall i | 0 <= i < 26 ensures all[i] == ('a' as int + i) as char {}
    forall i | 26 <= i < 36 ensures all[i] == ('0' as int + i - 26) as char {}
    if 'a' <= c <= 'z' { assert all[c as int - 'a' as int] == c; }
    if '0' <= c <= '9' { assert all[26 + (c as int - '0' as int)] == c; }
  }

  // ---- what a slug is ----------------------------------------------------------------

  /** The length of the alphanumeric run that s starts with. */
  function RunLength(s: string): (n: nat)
    ensures n <= |s| && (forall i :: 0 <= i < n ==> Alnum(s[i])) && (n < |s| ==> !Alnum(s[n]))
    ensures s != [] && Alnum(s[0]) ==> n > 0
  {
    if s == [] || !Alnum(s[0]) then 0 else 1 + RunLength(s[1..])
  }

  /** The maximal alphanumeric runs of a name, in order. */
  function Words(s: string): seq<string>
    decreases |s|
  {
    if s == [] then []
    else if !Alnum(s[0]) then Words(s[1..])
    else [s[..RunLength(s)]] + Words(s[RunLength(s)..])
  }

  function Join(words: seq<string>): string {
    if words == [] then ""
    else if |words| == 1 then words[0]
    else words[0] + "-" + Join(words[1..])
  }

  // ---- the two slugifiers --------------------------------------------------------------

  /** replace(/[^a-z0-9]/g, '-') */
  function DashEach(s: string): string { seq(|s|, i requires 0 <= i < |s| => if Alnum(s[i]) then s[i] else '-') }

  function SkipDashes(s: string): (r: string)
    ensures |r| <= |s|
  {
    if s != [] && s[0] == '-' then SkipDashes(s[1..]) else s
  }

  /** replace(/-+/g, '-') */
  function Collapse(s: string): string
    decreases |s|
  {
    if s == [] then [] else if s[0] == '-' then "-" + Collapse(SkipDashes(s[1..])) else [s[0]] + Collapse(s[1..])
  }

  /** replace(/^-|-$/g, ''): one dash at either end. */
  function TrimOne(s: string): string {
    var t := if s != [] && s[0] == '-' then s[1..] else s;
    if t != [] && t[|t| - 1] == '-' then t[..|t| - 1] else t
  }

  function GoogleBase(name: string): string { TrimOne(Collapse(DashEach(name))) }

  function SkipOthers(s: string): (r: string)
    ensures |r| <= |s| && (r != [] ==> Alnum(r[0])) && Words(r) == Words(s)
    ensures s != [] && !Alnum(s[0]) ==> |r| < |s|
  {
    if s != [] && !Alnum(s[0]) then SkipOthers(s[1..]) else s
  }

  /** replace(/[^a-z0-9]+/g, '-') */
  function DashRuns(s: string): string
    decreases |s|
  {
    if s == [] then [] else if Alnum(s[0]) then [s[0]] + DashRuns(s[1..]) else "-" + DashRuns(SkipOthers(s[1..]))
  }

  function DropLast(s: string): string
    decreases |s|
  {
    if s != [] && s[|s| - 1] == '-' then DropLast(s[..|s| - 1]) else s
  }

  /** replace(/^-+|-+$/g, '') */
  function TrimAll(s: string): string { DropLast(SkipDashes(s)) }

  const MAX_SLUG := 60

  /** The workspace slug before slice(0, 60). */
  function Full(name: string): string { TrimAll(DashRuns(name)) }

  function WorkspaceBase(name: string): string {
    var s := Full(name);
    var t := if |s| > MAX_SLUG then s[..MAX_SLUG] else s;
    if t == [] then "workspace" else t
  }

  // ---- both are the words joined by dashes -------------------------------------------------

  lemma {:induction false} DashRunsOfRun(s: string, n: nat)
    requires n <= |s| && forall i :: 0 <= i < n ==> Alnum(s[i])
    ensures DashRuns(s) == s[..n] + DashRuns(s[n..])
    decreases n
  {
    if n == 0 {
      assert s[0..] == s;
    } else {
      DashRunsOfRun(s[1..], n - 1);
      assert s[1..][n - 1..] == s[n..];
      assert s[..n] == [s[0]] + s[1..][..n - 1];
    }
  }

  predicate EndsInOther(s: string) { s != [] && !Alnum(s[|s| - 1]) }

  lemma {:induction false} SkipOthersEnd(s: string)
    ensures SkipOthers(s) != [] ==> (EndsInOther(SkipOthers(s)) <==> EndsInOther(s))
    ensures SkipOthers(s) == [] ==> s == [] || EndsInOther(s)
  {
    if s != [] && !Alnum(s[0]) { SkipOthersEnd(s[1..]); }
  }

  function Dash(b: bool): string { if b then "-" else "" }

  /** From its first alphanumeric on, a dashed name is its words, and a dash if it ends in something else. */
  lemma {:induction false} DashRunsShape(s: string)
    requires s != [] && Alnum(s[0])
    ensures Words(s) != [] && DashRuns(s) == Join(Words(s)) + Dash(EndsInOther(s))
    decreases |s|
  {
    var n := RunLength(s);
    var w, rest := s[..n], s[n..];
    DashRunsOfRun(s, n);
    if rest == [] {
      assert Words(s) == [w] + Words(rest);
    } else {
      var next := SkipOthers(rest[1..]);
      SkipOthersEnd(rest[1..]);
      DashRest(rest, next);
      assert EndsInOther(rest) <==> EndsInOther(s);
      if next != [] {
        DashRunsShape(next);
        ShapeMore(w, Words(next), DashRuns(next), EndsInOther(next));
      }
    }
  }

  lemma {:induction false} DashRest(rest: string, next: string)
    requires rest != [] && !Alnum(rest[0]) && next == SkipOthers(rest[1..])
    ensures DashRuns(rest) == "-" + DashRuns(next) && Words(rest) == Words(next)
  {
  }

  lemma {:induction false} ShapeMore(w: string, words: seq<string>, d: string, e: bool)
    requires words != [] && d == Join(words) + Dash(e)
    ensures w + ("-" + d) == Join([w] + words) + Dash(e)
  {
    assert ([w] + words)[1..] == words;
    assert w + ("-" + d) == (w + "-" + Join(words)) + Dash(e);
  }

  /** The join of some words starts and ends alphanumerically, or is empty. */
  lemma {:induction false} JoinEnds(s: string)
    ensures var j := Join(Words(s)); j != [] ==> Alnum(j[0]) && Alnum(j[|j| - 1])
    ensures Words(s) == [] <==> Join(Words(s)) == []
    decreases |s|
  {
    if s != [] {
      if Alnum(s[0]) { JoinEnds(s[RunLength(s)..]); } else { JoinEnds(s[1..]); }
    }
  }

  lemma {:induction false} DashRunsAny(s: string) returns (a: bool, b: bool)
    ensures DashRuns(s) == Dash(a) + (Join(Words(s)) + Dash(b)) && (Words(s) == [] ==> !(a && b))
  {
    a, b := false, false;
    if s != [] {
      if Alnum(s[0]) {
        DashRunsShape(s);
        b := EndsInOther(s);
      } else {
        var t := SkipOthers(s[1..]);
        a := true;
        if t != [] {
          DashRunsShape(t);
          b := EndsInOther(t);
        }
      }
    }
  }

  lemma {:induction false} SkipSame(s: string)
    ensures SkipDashes(DashEach(s)) == DashEach(SkipOthers(s))
  {
    if s != [] {
      assert DashEach(s)[1..] == DashEach(s[1..]);
      if !Alnum(s[0]) { SkipSame(s[1..]); }
    }
  }

  lemma {:induction false} CollapseEach(s: string)
    ensures Collapse(DashEach(s)) == DashRuns(s)
    decreases |s|
  {
    if s != [] {
      assert DashEach(s)[1..] == DashEach(s[1..]);
      if Alnum(s[0]) {
        CollapseEach(s[1..]);
      } else {
        SkipSame(s[1..]);
        CollapseEach(SkipOthers(s[1..]));
      }
    }
  }

  lemma {:induction false} Trims(j: string, a: bool, b: bool)
    requires j != [] ==> Alnum(j[0]) && Alnum(j[|j| - 1])
    requires j == [] ==> !(a && b)
    ensures TrimOne(Dash(a) + (j + Dash(b))) == j && TrimAll(Dash(a) + (j + Dash(b))) == j
  {
    var t := Dash(a) + (j + Dash(b));
    if j == [] {
      assert t == Dash(a || b);
    } else {
      var u := j + Dash(b);
      assert a ==> t[1..] == u;
      assert !a ==> t == u;
      assert b ==> u[..|u| - 1] == j;
      assert SkipDashes(t) == u;
      assert DropLast(j) == j;
    }
  }

  /** Before truncation the two slugifiers agree, and both give exactly the alphanumeric runs joined by dashes. */
  lemma {:induction false} SlugifiersAgree(name: string)
    ensures GoogleBase(name) == Full(name) == Join(Words(name))
  {
    JoinEnds(name);
    var a, b := DashRunsAny(name);
    CollapseEach(name);
    Trims(Join(Words(name)), a, b);
  }

  lemma {:induction false} RunLengthIs(s: string, n: nat)
    requires n <= |s| && (forall i :: 0 <= i < n ==> Alnum(s[i])) && (n < |s| ==> !Alnum(s[n]))
    ensures RunLength(s) == n
  {
    if n > 0 { RunLengthIs(s[1..], n - 1); }
  }

  lemma {:induction false} WordsOfRun(w: string, rest: string)
    requires w != [] && (forall i :: 0 <= i < |w| ==> Alnum(w[i])) && (rest != [] ==> !Alnum(rest[0]))
    ensures Words(w + rest) == [w] + Words(rest)
  {
    var s := w + rest;
    RunLengthIs(s, |w|);
    assert s[..|w|] == w && s[|w|..] == rest;
  }

  lemma {:induction false} WordsAreRuns(s: string)
    ensures forall w :: w in Words(s) ==> w != [] && forall i :: 0 <= i < |w| ==> Alnum(w[i])
    decreases |s|
  {
    if s != [] {
      if Alnum(s[0]) { WordsAreRuns(s[RunLength(s)..]); } else { WordsAreRuns(s[1..]); }
    }
  }

  lemma {:induction false} WordsOfMore(w: string, words: seq<string>)
    requires w != [] && (forall i :: 0 <= i < |w| ==> Alnum(w[i])) && words != []
    ensures Words(Join([w] + words)) == [w] + Words(Join(words))
  {
    var rest := "-" + Join(words);
    WordsOfRun(w, rest);
    assert rest[1..] == Join(words);
    assert ([w] + words)[1..] == words;
    assert w + rest == w + "-" + Join(words);
  }

  lemma {:induction false} WordsOfJoin(words: seq<string>)
    requires forall w :: w in words ==> w != [] && forall i :: 0 <= i < |w| ==> Alnum(w[i])
    ensures Words(Join(words)) == words
  {
    if |words| == 1 {
      assert words[0] in words;
      WordsOfRun(words[0], "");
      assert words[0] + "" == words[0];
      assert words == [words[0]] + [];
    } else if |words| > 1 {
      assert words[0] in words && forall w :: w in words[1..] ==> w in words;
      WordsOfJoin(words[1..]);
      WordsOfMore(words[0], words[1..]);
      assert words == [words[0]] + words[1..];
    }
  }

  /** Slugging a slug changes nothing. */
  lemma {:induction false} Idempotent(name: string)
    ensures Words(Full(name)) == Words(name)
    ensures Full(Full(name)) == Full(name) && GoogleBase(GoogleBase(name)) == GoogleBase(name)
  {
    SlugifiersAgree(name);
    WordsAreRuns(name);
    WordsOfJoin(Words(name));
    SlugifiersAgree(Full(name));
  }

  /** Lower-case alphanumerics and dashes, no dash at either end, no two in a row. */
  predicate IsSlug(s: string) {
    && (forall i :: 0 <= i < |s| ==> Alnum(s[i]) || s[i] == '-')
    && (forall i :: 0 <= i < |s| - 1 ==> s[i] != '-' || s[i + 1] != '-')
    && (s != [] ==> s[0] != '-' && s[|s| - 1] != '-')
  }

  lemma {:induction false} DashRunsSame(s: string)
    requires forall i :: 0 <= i < |s| ==> Alnum(s[i]) || s[i] == '-'
    requires forall i :: 0 <= i < |s| - 1 ==> s[i] != '-' || s[i + 1] != '-'
    ensures DashRuns(s) == s
    decreases |s|
  {
    if s != [] {
      DashRunsSame(s[1..]);
      assert s == [s[0]] + s[1..];
      if |s| > 1 && s[0] == '-' { assert Alnum(s[1]) by { assert s[0] != '-' || s[0 + 1] != '-'; } }
    }
  }

  lemma {:induction false} JoinIsSlug(words: seq<string>)
    requires forall w :: w in words ==> w != [] && forall i :: 0 <= i < |w| ==> Alnum(w[i])
    ensures IsSlug(Join(words)) && (words != [] ==> Join(words) != [])
  {
    if words != [] {
      assert words[0] in words && forall w :: w in words[1..] ==> w in words;
      JoinIsSlug(words[1..]);
      var w, j, r := words[0], Join(words), Join(words[1..]);
      if |words| > 1 {
        forall i | 0 <= i < |j| ensures j[i] == if i < |w| then w[i] else if i == |w| then '-' else r[i - |w| - 1] {
        }
      }
    }
  }

  /** The slugifier's fixed points are exactly the well-formed slugs, and it always returns one. */
  lemma {:induction false} FixedIff(s: string)
    ensures IsSlug(Full(s)) && (Full(s) == s <==> IsSlug(s))
  {
    SlugifiersAgree(s);
    WordsAreRuns(s);
    JoinIsSlug(Words(s));
    if IsSlug(s) {
      DashRunsSame(s);
      assert TrimAll(s) == s;
    }
  }

  /** Slicing after trimming can leave a dash at the end: exactly when the slug is longer and is cut just after one. */
  lemma {:induction false} CutIsSlugIff(name: string)
    requires Full(name) != []
    ensures |WorkspaceBase(name)| <= 60
    ensures IsSlug(WorkspaceBase(name)) <==> |Full(name)| <= 60 || Full(name)[59] != '-'
  {
    FixedIff(name);
  }

  /** Fifty-nine letters, a dash and one more letter: the base ends in the dash. */
  lemma {:induction false} CutSlugFails()
    ensures var name := seq(59, _ => 'a') + "-b"; Full(name) == name && !IsSlug(WorkspaceBase(name))
  {
    var name := seq(59, _ => 'a') + "-b";
    assert IsSlug(name);
    FixedIff(name);
    CutIsSlugIff(name);
  }

  // ---- a free slug ------------------------------------------------------------------------

  function Digit(d: nat): char
    requires d < 10
  {
    "0123456789"[d]
  }

  function Decimal(n: nat): string { if n < 10 then [Digit(n)] else Decimal(n / 10) + [Digit(n % 10)] }

  lemma {:induction false} DecimalInjective(m: nat, n: nat)
    requires Decimal(m) == Decimal(n)
    ensures m == n
    decreases m
  {
    var a, b := Decimal(m), Decimal(n);
    assert a[|a| - 1] == b[|b| - 1];
    if m >= 10 && n >= 10 {
      assert a[..|a| - 1] == Decimal(m / 10) && b[..|b| - 1] == Decimal(n / 10);
      DecimalInjective(m / 10, n / 10);
    } else {
      DecimalLength(m);
      DecimalLength(n);
    }
  }

  lemma {:induction false} DecimalLength(n: nat)
    ensures |Decimal(n)| == 1 <==> n < 10
    ensures |Decimal(n)| > 0
  {
    if n >= 10 { DecimalLength(n / 10); }
  }

  /** The k-th name the search tries: the base, then the base with a counter from first on. */
  function Candidate(base: string, first: nat, k: nat): string {
    if k == 0 then base else base + "-" + Decimal(first + k - 1)
  }

  lemma {:induction false} CandidatesDiffer(base: string, first: nat, i: nat, j: nat)
    requires Candidate(base, first, i) == Candidate(base, first, j)
    ensures i == j
  {
    var a, b := Candidate(base, first, i), Candidate(base, first, j);
    if i != 0 && j != 0 {
      assert a[|base| + 1..] == Decimal(first + i - 1) && b[|base| + 1..] == Decimal(first + j - 1);
      DecimalInjective(first + i - 1, first + j - 1);
    }
  }

  function Tried(base: string, first: nat, k: nat): set<string> { set i | 0 <= i < k :: Candidate(base, first, i) }

  lemma {:induction false} TriedCount(base: string, first: nat, k: nat, taken: set<string>)
    requires forall i :: 0 <= i < k ==> Candidate(base, first, i) in taken
    ensures |Tried(base, first, k)| == k && k <= |taken|
    decreases k
  {
    hide Candidate;
    if k == 0 {
      assert Tried(base, first, k) == {};
    } else {
      TriedCount(base, first, k - 1, taken);
      TriedGrows(base, first, k - 1);
    }
    Fits(Tried(base, first, k), taken);
  }

  lemma {:induction false} TriedGrows(base: string, first: nat, k: nat)
    ensures Candidate(base, first, k) !in Tried(base, first, k)
    ensures Tried(base, first, k + 1) == Tried(base, first, k) + {Candidate(base, first, k)}
  {
    hide Candidate;
    forall i: nat | i < k ensures Candidate(base, first, i) != Candidate(base, first, k) {
      if Candidate(base, first, i) == Candidate(base, first, k) { CandidatesDiffer(base, first, i, k); }
    }
  }

  lemma {:induction false} Fits(a: set<string>, b: set<string>)
    requires a <= b
    ensures |a| <= |b|
    decreases |a|
  {
    if a != {} {
      var x :| x in a;
      Fits(a - {x}, b - {x});
    }
  }

  /** The first candidate that is free. */
  predicate FirstFree(base: string, first: nat, k: nat, taken: set<string>) {
    Candidate(base, first, k) !in taken && forall i :: 0 <= i < k ==> Candidate(base, first, i) in taken
  }

  /** Sign-up: the unbounded search ends, within one try more than there are slugs, at the first free candidate. */
  method SignupSlug(orgName: string, taken: set<string>) returns (slug: string)
    ensures slug !in taken
    ensures exists k :: 0 <= k <= |taken| && slug == Candidate(GoogleBase(orgName), 1, k) &&
                        FirstFree(GoogleBase(orgName), 1, k, taken)
  {
    var base := GoogleBase(orgName);
    slug := base;
    var counter := 1;
    ghost var k := 0;
    while slug in taken
      invariant counter == k + 1 && slug == Candidate(base, 1, k)
      invariant forall i :: 0 <= i < k ==> Candidate(base, 1, i) in taken
      decreases |taken| - k
    {
      TriedCount(base, 1, k + 1, taken);
      slug := base + "-" + Decimal(counter);
      counter := counter + 1;
      k := k + 1;
    }
    TriedCount(base, 1, k, taken);
    assert FirstFree(base, 1, k, taken);
  }

  const TRIES := 50

  /**
   * Workspaces: the first free of fifty candidates; otherwise the base with a time stamp, which nobody has checked.
   * The result is taken exactly when all fifty and the stamped name are.
   */
  method UniqueSlug(name: string, stamp: string, taken: set<string>) returns (slug: string)
    ensures slug in taken <==>
            (forall i :: 0 <= i < 50 ==> Candidate(WorkspaceBase(name), 2, i) in taken) &&
            WorkspaceBase(name) + "-" + stamp in taken
    ensures |taken| < 50 ==> exists k :: 0 <= k < 50 && FirstFree(WorkspaceBase(name), 2, k, taken) &&
                                            slug == Candidate(WorkspaceBase(name), 2, k)
  {
    var base := WorkspaceBase(name);
    for i := 0 to TRIES
      invariant forall j :: 0 <= j < i ==> Candidate(base, 2, j) in taken
    {
      var candidate := if i == 0 then base else base + "-" + Decimal(i + 1);
      assert candidate == Candidate(base, 2, i);
      if candidate !in taken {
        assert FirstFree(base, 2, i, taken);
        return candidate;
      }
    }
    TriedCount(base, 2, TRIES, taken);
    slug := base + "-" + stamp;
  }

  // ---- an edited slug ---------------------------------------------------------------------

  /** replace(/[^a-z0-9-]+/g, '-'): dashes already there are kept one by one. */
  function SkipInvalid(s: string): (r: string)
    ensures |r| <= |s|
    ensures r != [] ==> Alnum(r[0]) || r[0] == '-'
  {
    if s != [] && !Alnum(s[0]) && s[0] != '-' then SkipInvalid(s[1..]) else s
  }

  function DashInvalid(s: string): string
    decreases |s|
  {
    if s == [] then []
    else if Alnum(s[0]) || s[0] == '-' then [s[0]] + DashInvalid(s[1..])
    else "-" + DashInvalid(SkipInvalid(s[1..]))
  }

  function EditedSlug(s: string): string { TrimAll(DashInvalid(s)) }

  lemma {:induction false} DashInvalidRuns(s: string)
    ensures DashRuns(DashInvalid(s)) == DashRuns(s)
    ensures forall i :: 0 <= i < |DashInvalid(s)| ==> Alnum(DashInvalid(s)[i]) || DashInvalid(s)[i] == '-'
    decreases |s|
  {
    if s != [] {
      if Alnum(s[0]) || s[0] == '-' {
        DashInvalidRuns(s[1..]);
        assert DashInvalid(s)[1..] == DashInvalid(s[1..]);
        if s[0] == '-' { SkipOthersRuns(DashInvalid(s[1..]), s[1..]); }
      } else {
        var t := SkipInvalid(s[1..]);
        DashInvalidRuns(t);
        assert DashInvalid(s)[1..] == DashInvalid(t);
        SkipOthersRuns(DashInvalid(t), t);
        SkipInvalidOthers(s[1..]);
      }
    }
  }

  lemma {:induction false} SkipInvalidOthers(s: string)
    ensures SkipOthers(SkipInvalid(s)) == SkipOthers(s)
  {
    if s != [] && !Alnum(s[0]) && s[0] != '-' { SkipInvalidOthers(s[1..]); }
  }

  lemma {:induction false} SkipOthersRuns(a: string, b: string)
    requires DashRuns(a) == DashRuns(b)
    ensures DashRuns(SkipOthers(a)) == DashRuns(SkipOthers(b))
  {
    DashRunsSkip(a);
    DashRunsSkip(b);
    var x, y := DashRuns(SkipOthers(a)), DashRuns(SkipOthers(b));
    var p, q := a != [] && !Alnum(a[0]), b != [] && !Alnum(b[0]);
    assert p <==> DashRuns(a) != [] && DashRuns(a)[0] == '-';
    assert q <==> DashRuns(b) != [] && DashRuns(b)[0] == '-';
    assert x == DashRuns(a)[|Dash(p)|..] && y == DashRuns(b)[|Dash(q)|..];
  }

  lemma {:induction false} DashRunsSkip(a: string)
    ensures DashRuns(a) == Dash(a != [] && !Alnum(a[0])) + DashRuns(SkipOthers(a))
    ensures DashRuns(SkipOthers(a)) != [] ==> DashRuns(SkipOthers(a))[0] != '-'
  {
  }

  lemma {:induction false} DashRunsTrim(t: string)
    ensures Words(TrimAll(t)) == Words(t)
  {
    WordsSkip(t);
    WordsDrop(SkipDashes(t));
  }

  lemma {:induction false} WordsSkip(t: string)
    ensures Words(SkipDashes(t)) == Words(t)
  {
    if t != [] && t[0] == '-' { WordsSkip(t[1..]); }
  }

  lemma {:induction false} WordsDrop(t: string)
    ensures Words(DropLast(t)) == Words(t)
    decreases |t|
  {
    if t != [] && t[|t| - 1] == '-' {
      WordsDrop(t[..|t| - 1]);
      assert t == t[..|t| - 1] + "-";
      WordsThenDash(t[..|t| - 1]);
    }
  }

  lemma {:induction false} WordsThenDash(t: string)
    ensures Words(t + "-") == Words(t)
    decreases |t|
  {
    var u := t + "-";
    if t == [] {
      assert u[1..] == [];
    } else if !Alnum(t[0]) {
      assert u[1..] == t[1..] + "-";
      WordsThenDash(t[1..]);
    } else {
      var n := RunLength(t);
      RunLengthIs(u, n);
      assert u[..n] == t[..n] && u[n..] == t[n..] + "-";
      WordsThenDash(t[n..]);
    }
  }

  /** The separators between one word and the next. */
  function Gaps(s: string): seq<string>
    decreases |s|
  {
    if s == [] then []
    else if !Alnum(s[0]) then Gaps(s[1..])
    else
      var rest := s[RunLength(s)..];
      var next := SkipOthers(rest);
      if next == [] then [] else [rest[..|rest| - |next|]] + Gaps(next)
  }

  /** One typed dash, or something typed that holds no dash. */
  predicate OneDash(gap: string) { gap == "-" || '-' !in gap }

  predicate CleanGaps(s: string) { forall u :: u in Gaps(s) ==> OneDash(u) }

  predicate NoDoubleDash(s: string) { forall i :: 0 <= i < |s| - 1 ==> s[i] != '-' || s[i + 1] != '-' }

  lemma {:induction false} SkipOthersIs(s: string)
    ensures var r := SkipOthers(s); s[|s| - |r|..] == r && forall i :: 0 <= i < |s| - |r| ==> !Alnum(s[i])
  {
    if s != [] && !Alnum(s[0]) {
      SkipOthersIs(s[1..]);
      var r := SkipOthers(s);
      assert s[|s| - |r|..] == s[1..][|s| - 1 - |r|..];
      assert forall i :: 0 < i < |s| ==> s[i] == s[1..][i - 1];
    } else {
      assert s[0..] == s;
    }
  }

  /** Separators become dashes, and the text after them is dashed on its own. */
  lemma {:induction false} DashGap(u: string, next: string)
    requires (forall i :: 0 <= i < |u| ==> !Alnum(u[i])) && (next != [] ==> Alnum(next[0]))
    ensures DashInvalid(u + next) == DashInvalid(u) + DashInvalid(next)
    ensures forall c :: c in DashInvalid(u) ==> c == '-'
    ensures u != [] ==> |DashInvalid(u)| > 0
    decreases |u|
  {
    hide DashInvalid, SkipInvalid;
    if u == [] {
      assert u + next == next;
      DashNothing();
    } else if u[0] == '-' {
      DashGap(u[1..], next);
      DashFirst(u, next, u[1..]);
    } else {
      var t := SkipInvalid(u[1..]);
      SkipInvalidSplit(u[1..], next);
      SkipInvalidOther(u[1..]);
      DashGap(t, next);
      DashFirst(u, next, t);
    }
  }

  lemma {:induction false} DashNothing()
    ensures DashInvalid("") == ""
  {
  }

  /** A leading separator becomes one dash. */
  lemma {:induction false} DashFirst(u: string, next: string, t: string)
    requires u != [] && !Alnum(u[0])
    requires if u[0] == '-' then t == u[1..]
             else t == SkipInvalid(u[1..]) && SkipInvalid(u[1..] + next) == t + next
    ensures DashInvalid(u) == ['-'] + DashInvalid(t) && DashInvalid(u + next) == ['-'] + DashInvalid(t + next)
  {
    hide SkipInvalid;
    assert (u + next)[1..] == u[1..] + next && (u + next)[0] == u[0];
  }

  lemma {:induction false} SkipInvalidSplit(u: string, next: string)
    requires next != [] ==> Alnum(next[0])
    ensures SkipInvalid(u + next) == SkipInvalid(u) + next
  {
    if u == [] {
      assert u + next == next;
    } else {
      assert (u + next)[1..] == u[1..] + next;
      if !Alnum(u[0]) && u[0] != '-' { SkipInvalidSplit(u[1..], next); }
    }
  }

  lemma {:induction false} SkipInvalidOther(u: string)
    requires forall i :: 0 <= i < |u| ==> !Alnum(u[i])
    ensures forall i :: 0 <= i < |SkipInvalid(u)| ==> !Alnum(SkipInvalid(u)[i])
    ensures SkipInvalid(u) == [] <==> '-' !in u
  {
    if u != [] && u[0] != '-' {
      SkipInvalidOther(u[1..]);
      assert u == [u[0]] + u[1..];
    }
  }

  /** A separator becomes a single dash exactly when it is one typed dash or holds none. */
  lemma {:induction false} DashGapIff(u: string)
    requires u != [] && forall i :: 0 <= i < |u| ==> !Alnum(u[i])
    ensures |DashInvalid(u)| == 1 <==> OneDash(u)
  {
    if u[0] == '-' {
      DashGap(u[1..], []);
      assert u[1..] + [] == u[1..];
      assert u == ['-'] + u[1..];
    } else {
      var t := SkipInvalid(u[1..]);
      SkipInvalidOther(u[1..]);
      DashGap(t, []);
      assert t + [] == t;
      assert u == [u[0]] + u[1..];
    }
  }

  lemma {:induction false} DashWord(w: string, rest: string)
    requires forall i :: 0 <= i < |w| ==> Alnum(w[i])
    ensures DashInvalid(w + rest) == w + DashInvalid(rest)
  {
    if w == [] {
      assert w + rest == rest;
    } else {
      DashWord(w[1..], rest);
      assert (w + rest)[1..] == w[1..] + rest;
      assert w == [w[0]] + w[1..];
    }
  }

  lemma {:induction false} DropOne(x: string)
    ensures DropLast(x + "-") == DropLast(x)
  {
    assert (x + "-")[..|x|] == x;
  }

  lemma {:induction false} DropDashes(x: string, d: string)
    requires forall c :: c in d ==> c == '-'
    ensures DropLast(x + d) == DropLast(x)
    decreases |d|
  {
    hide DropLast;
    if d == [] {
      assert x + d == x;
    } else {
      var n := |d| - 1;
      assert d[n] in d && forall c :: c in d[..n] ==> c in d;
      DropDashes(x, d[..n]);
      DropOne(x + d[..n]);
      assert x + d == x + d[..n] + "-";
    }
  }

  lemma {:induction false} DropKeeps(x: string, y: string)
    requires DropLast(y) != []
    ensures DropLast(x + y) == x + DropLast(y)
    decreases |y|
  {
    var n := |y| - 1;
    if y[n] == '-' {
      DropKeeps(x, y[..n]);
      assert (x + y)[..|x + y| - 1] == x + y[..n];
    }
  }

  lemma {:induction false} DoubleDashSplit(w: string, d: string, r: string)
    requires w != [] && r != [] && (forall i :: 0 <= i < |w| ==> w[i] != '-') && r[0] != '-'
    requires d != [] && forall c :: c in d ==> c == '-'
    ensures NoDoubleDash(w + (d + r)) <==> |d| == 1 && NoDoubleDash(r)
  {
    hide NoDoubleDash;
    if |d| == 1 {
      OneDashBetween(w, d[0], r);
      assert w + (d + r) == w + [d[0]] + r;
    } else {
      assert d[0] in d && d[1] in d;
      DashesMeet(w + (d + r), |w|);
    }
  }

  lemma {:induction false} DashesMeet(t: string, i: nat)
    requires i + 1 < |t| && t[i] == '-' && t[i + 1] == '-'
    ensures !NoDoubleDash(t)
  {
  }

  lemma {:induction false} OneDashBetween(w: string, c: char, r: string)
    requires r != [] && (forall i :: 0 <= i < |w| ==> w[i] != '-') && r[0] != '-'
    ensures NoDoubleDash(w + [c] + r) <==> NoDoubleDash(r)
  {
    var t, n := w + [c] + r, |w| + 1;
    assert t[n..] == r;
    forall i | 0 <= i < |t| - 1
      ensures (t[i] == '-' && t[i + 1] == '-') <==> i >= n && r[i - n] == '-' && r[i - n + 1] == '-'
    {
      if i < |w| { assert t[i] == w[i]; }
    }
    forall i | n <= i < |t| ensures t[i] == r[i - n] {}
    assert forall i :: 0 <= i < |r| ==> r[i] == t[n..][i];
  }

  /** A text that starts with a word: the word, the separators after it, and the text from the next word on. */
  lemma {:induction false} FirstGap(s: string) returns (w: string, u: string, next: string)
    requires s != [] && Alnum(s[0])
    ensures s == w + (u + next) && w != [] && w[0] == s[0] && |next| < |s|
    ensures (forall i :: 0 <= i < |w| ==> Alnum(w[i])) && (forall i :: 0 <= i < |u| ==> !Alnum(u[i]))
    ensures next == [] ==> Gaps(s) == []
    ensures next != [] ==> u != [] && Alnum(next[0]) && Gaps(s) == [u] + Gaps(next)
  {
    var n := RunLength(s);
    var rest := s[n..];
    w, next := s[..n], SkipOthers(rest);
    u := rest[..|rest| - |next|];
    SkipOthersIs(rest);
    assert s == w + rest && rest == u + next;
  }

  lemma {:induction false} CleanGapsStep(s: string, u: string, next: string)
    requires Gaps(s) == [u] + Gaps(next)
    ensures CleanGaps(s) <==> OneDash(u) && CleanGaps(next)
  {
    hide Gaps, OneDash;
    assert Gaps(s)[0] == u && Gaps(s)[1..] == Gaps(next);
    assert forall v :: v in Gaps(s) <==> v == u || v in Gaps(next);
  }

  /** From its first word on: dashes meet in the edited slug exactly at a gap that is not one dash. */
  lemma {:induction false} EditedFrom(s: string)
    requires s != [] ==> Alnum(s[0])
    ensures NoDoubleDash(DropLast(DashInvalid(s))) <==> CleanGaps(s)
    ensures s != [] ==> DropLast(DashInvalid(s)) != [] && DropLast(DashInvalid(s))[0] == s[0]
    decreases |s|
  {
    if s == [] {
      EditedNothing();
    } else {
      hide *;
      var w, u, next := FirstGap(s);
      if next == [] {
        EditedLast(w, u);
        NoGaps(s);
      } else {
        EditedFrom(next);
        EditedStep(w, u, next);
        CleanGapsStep(s, u, next);
      }
    }
  }

  lemma {:induction false} NoGaps(s: string)
    requires Gaps(s) == []
    ensures CleanGaps(s)
  {
  }

  lemma {:induction false} EditedNothing()
    ensures NoDoubleDash(DropLast(DashInvalid("")))
  {
  }

  lemma {:induction false} EditedLast(w: string, u: string)
    requires w != [] && (forall i :: 0 <= i < |w| ==> Alnum(w[i])) && forall i :: 0 <= i < |u| ==> !Alnum(u[i])
    ensures var e := DropLast(DashInvalid(w + (u + []))); e == w && NoDoubleDash(e)
  {
    DashWord(w, u + []);
    DashGap(u, []);
    assert DashInvalid(u) + [] == DashInvalid(u);
    DropDashes(w, DashInvalid(u));
    DropWord(w);
  }

  lemma {:induction false} EditedStep(w: string, u: string, next: string)
    requires w != [] && (forall i :: 0 <= i < |w| ==> Alnum(w[i]))
    requires u != [] && (forall i :: 0 <= i < |u| ==> !Alnum(u[i]))
    requires next != [] && Alnum(next[0])
    requires var r := DropLast(DashInvalid(next)); r != [] && r[0] == next[0]
    ensures var e := DropLast(DashInvalid(w + (u + next)));
            && e != [] && e[0] == w[0]
            && (NoDoubleDash(e) <==> OneDash(u) && NoDoubleDash(DropLast(DashInvalid(next))))
  {
    hide DashInvalid, NoDoubleDash, OneDash, DropLast;
    DashWord(w, u + next);
    DashGap(u, next);
    var d := DashInvalid(u);
    DropKeeps(d, DashInvalid(next));
    DropKeeps(w, d + DashInvalid(next));
    DashGapIff(u);
    assert forall i :: 0 <= i < |w| ==> w[i] != '-';
    DoubleDashSplit(w, d, DropLast(DashInvalid(next)));
  }

  lemma {:induction false} DropWord(w: string)
    requires w != [] && forall i :: 0 <= i < |w| ==> Alnum(w[i])
    ensures DropLast(w) == w && NoDoubleDash(w)
  {
  }

  lemma {:induction false} EditedStart(s: string)
    ensures SkipDashes(DashInvalid(s)) == DashInvalid(SkipOthers(s)) && Gaps(SkipOthers(s)) == Gaps(s)
  {
    hide *;
    var r := SkipOthers(s);
    SkipOthersIs(s);
    var u := s[..|s| - |r|];
    assert s == u + r;
    DashGap(u, r);
    StartsAsTyped(r);
    assert DashInvalid(s) == DashInvalid(u) + DashInvalid(r);
    SkipAll(DashInvalid(u), DashInvalid(r));
    GapsSkip(s);
  }

  lemma {:induction false} StartsAsTyped(r: string)
    ensures r != [] && Alnum(r[0]) ==> DashInvalid(r) != [] && DashInvalid(r)[0] != '-'
    ensures DashInvalid([]) == []
  {
  }

  lemma {:induction false} SkipAll(d: string, r: string)
    requires (forall c :: c in d ==> c == '-') && (r != [] ==> r[0] != '-')
    ensures SkipDashes(d + r) == r
  {
    if d == [] {
      assert d + r == r;
    } else {
      assert d[0] in d && (d + r)[1..] == d[1..] + r;
      assert forall c :: c in d[1..] ==> c in d;
      SkipAll(d[1..], r);
    }
  }

  lemma {:induction false} GapsSkip(s: string)
    ensures Gaps(SkipOthers(s)) == Gaps(s)
  {
    if s != [] && !Alnum(s[0]) { GapsSkip(s[1..]); }
  }

  /**
   * An edited slug keeps the words but also every dash typed between them: it is a well-formed slug, and then the one
   * the name would have been given, exactly when between any two words stand one dash or characters other than dashes.
   */
  lemma {:induction false} EditedIsSlugIff(s: string)
    ensures Words(EditedSlug(s)) == Words(s)
    ensures IsSlug(EditedSlug(s)) <==> CleanGaps(s)
    ensures EditedSlug(s) == Full(s) <==> CleanGaps(s)
  {
    hide Words, Gaps, DashInvalid, TrimAll, Alnum;
    EditedShape(s);
    EditedStart(s);
    EditedFrom(SkipOthers(s));
    TrimIs(DashInvalid(s));
  }

  lemma {:induction false} TrimIs(d: string)
    ensures TrimAll(d) == DropLast(SkipDashes(d))
  {
  }

  lemma {:induction false} EditedShape(s: string)
    ensures Words(EditedSlug(s)) == Words(s)
    ensures IsSlug(EditedSlug(s)) <==> EditedSlug(s) == Full(s)
    ensures IsSlug(EditedSlug(s)) <==>
            NoDoubleDash(EditedSlug(s))
  {
    var d := DashInvalid(s);
    var e := EditedSlug(s);
    DashInvalidRuns(s);
    WordsOfDashRuns(s);
    WordsOfDashRuns(d);
    DashRunsTrim(d);
    SlugifiersAgree(s);
    SlugifiersAgree(e);
    FixedIff(e);
    FixedIff(s);
    TrimmedEnds(d);
  }

  /** Two typed dashes stay two. */
  lemma {:induction false} EditedSlugFails()
    ensures EditedSlug("a--b") == "a--b" && !IsSlug(EditedSlug("a--b")) && Full("a--b") == "a-b"
  {
    var s := "a--b";
    assert s[1..] == "--b" && "--b"[1..] == "-b" && "-b"[1..] == "b" && "b"[1..] == "";
    assert DashInvalid(s) == s;
    assert EditedSlug(s) == s;
    assert s[1] == '-' && s[2] == '-';
    assert SkipOthers("-b") == "b";
    assert DashRuns("b") == "b" && DashRuns("--b") == "-b";
    assert DashRuns(s) == "a-b";
  }

  lemma {:induction false} WordsOfDashRuns(s: string)
    ensures Words(DashRuns(s)) == Words(s)
  {
    var a, b := DashRunsAny(s);
    JoinEnds(s);
    WordsAreRuns(s);
    WordsOfJoin(Words(s));
    var j := Join(Words(s));
    if b { WordsThenDash(j); }
    assert j + "" == j && Dash(false) + (j + Dash(b)) == j + Dash(b);
    assert ("-" + (j + Dash(b)))[1..] == j + Dash(b);
  }

  lemma {:induction false} TrimmedEnds(d: string)
    requires forall i :: 0 <= i < |d| ==> Alnum(d[i]) || d[i] == '-'
    ensures var e := TrimAll(d);
            && (forall i :: 0 <= i < |e| ==> Alnum(e[i]) || e[i] == '-')
            && (e != [] ==> e[0] != '-' && e[|e| - 1] != '-')
  {
    SkippedChars(d);
    DroppedChars(SkipDashes(d));
    var k, e := SkipDashes(d), TrimAll(d);
    forall i | 0 <= i < |e| ensures Alnum(e[i]) || e[i] == '-' {
      assert e[i] == k[i] && k[i] in k;
    }
  }

  lemma {:induction false} SkippedChars(d: string)
    ensures SkipDashes(d) != [] ==> SkipDashes(d)[0] != '-'
    ensures forall c :: c in SkipDashes(d) ==> c in d
  {
    if d != [] && d[0] == '-' { SkippedChars(d[1..]); }
  }

  lemma {:induction false} DroppedChars(d: string)
    ensures var e := DropLast(d);
            e <= d && (e != [] ==> e[|e| - 1] != '-')
    decreases |d|
  {
    if d != [] && d[|d| - 1] == '-' { DroppedChars(d[..|d| - 1]); }
  }
}

/** The three passes of preserveBlankLines, and why applying them again and again comes to rest. */
module BlankLines {
  import opened Prelude
  import opened HtmlPatterns
  import opened HtmlReading

  // ---- the three passes ---------------------------------------------------

  function FillBlank(s: string): string {
    if s == "" then ""
    else if Blank(s) > 0 then VE + FillBlank(s[Blank(s)..])
    else [s[0]] + FillBlank(s[1..])
  }

  function SplitTrailing(s: string): string {
    if s == "" then ""
    else if Trailing(s) > 0 then Residue(s) + VE + SplitTrailing(s[Trailing(s)..])
    else [s[0]] + SplitTrailing(s[1..])
  }

  function Preserve(s: string): string { FillBlank(SplitTrailing(FillBlank(s))) }

  // ---- no new matches appear where two pieces meet ------------------------------

  predicate NoBlank(s: string) { forall i :: 0 <= i <= |s| ==> Blank(s[i..]) == 0 }
  predicate NoTrailing(s: string) { forall i :: 0 <= i <= |s| ==> Trailing(s[i..]) == 0 }

  /** `w` holds no place where a match starts, `r` being what follows it. */
  predicate QuietFill(w: string, r: string) { forall i :: 0 <= i < |w| ==> Blank(w[i..] + r) == 0 }
  predicate QuietSplit(w: string, r: string) { forall i :: 0 <= i < |w| ==> Trailing(w[i..] + r) == 0 }

  lemma {:induction false} Append(w: string, r: string)
    ensures QuietFill(w, r) && NoBlank(r) ==> NoBlank(w + r)
    ensures QuietSplit(w, r) && NoTrailing(r) ==> NoTrailing(w + r)
    ensures NoBlank(w + r) ==> NoBlank(r)
    ensures NoTrailing(w + r) ==> NoTrailing(r)
  {
    var s := w + r;
    forall i | 0 <= i < |w| ensures s[i..] == w[i..] + r {}
    forall i | 0 <= i <= |r| ensures s[|w| + i..] == r[i..] {}
    forall i | |w| <= i <= |s| ensures s[i..] == r[i - |w|..] {}
  }

  lemma {:induction false} FillStep(c: char, r: string)
    requires Blank([c] + r) == 0
    ensures FillBlank([c] + r) == [c] + FillBlank(r)
  {
    assert ([c] + r)[1..] == r;
  }

  lemma {:induction false} SplitStep(c: char, r: string)
    requires Trailing([c] + r) == 0
    ensures SplitTrailing([c] + r) == [c] + SplitTrailing(r)
  {
    assert ([c] + r)[1..] == r;
  }

  lemma {:induction false} QuietTail(w: string, r: string)
    requires w != ""
    ensures QuietFill(w, r) ==> Blank([w[0]] + (w[1..] + r)) == 0 && QuietFill(w[1..], r)
    ensures QuietSplit(w, r) ==> Trailing([w[0]] + (w[1..] + r)) == 0 && QuietSplit(w[1..], r)
  {
    assert w[0..] + r == [w[0]] + (w[1..] + r);
    forall i | 0 <= i < |w| - 1 ensures w[1..][i..] == w[i + 1..] {}
  }

  /** Characters at which nothing matches are copied. */
  lemma {:induction false} CopyFill(w: string, r: string)
    requires QuietFill(w, r)
    ensures FillBlank(w + r) == w + FillBlank(r)
  {
    hide *;
    if w == "" {
      assert w + r == r;
    } else {
      QuietTail(w, r);
      CopyFill(w[1..], r);
      FillStep(w[0], w[1..] + r);
      assert [w[0]] + (w[1..] + r) == w + r;
    }
  }

  lemma {:induction false} CopySplit(w: string, r: string)
    requires QuietSplit(w, r)
    ensures SplitTrailing(w + r) == w + SplitTrailing(r)
  {
    hide *;
    if w == "" {
      assert w + r == r;
    } else {
      QuietTail(w, r);
      CopySplit(w[1..], r);
      SplitStep(w[0], w[1..] + r);
      assert [w[0]] + (w[1..] + r) == w + r;
    }
  }

  lemma {:induction false} NoBreak(x: string)
    requires '<' !in x
    ensures EndBr(x) == None
  {
    if x != "" { NoBreak(x[1..]); }
  }

  lemma {:induction false} VisibleEmptyTag(s: string)
    requires VE <= s
    ensures OpenStart(s) && OpenTag(s) == 3
  {
    assert s[2..][0] == '>';
    assert Gt(s[2..]) == 0;
  }

  lemma {:induction false} VisibleEmptyBody(b: string)
    requires "&nbsp;</p>" <= b
    ensures FirstTag(b) == 6 && Close(b[6..])
    ensures BlankBody(b, 3) == 0 && PlainBody(b) == None
  {
    forall i | 0 <= i < 6 ensures !TagStart(b[i..]) { assert b[i..][0] == "&nbsp;</p>"[i]; }
    SkipTo(b, 6);
    assert Spaces(b) == 0;
    assert b[0..] == b;
    NoBreak(b[..6]);
  }

  lemma {:induction false} VisibleEmptyPara(s: string)
    requires VE <= s
    ensures OpenStart(s) && ParaAt(s) && ParaLen(s) == |VE| && Blank(s) == 0
  {
    VisibleEmptyTag(s);
    assert s[3..][..10] == VE[3..] == "&nbsp;</p>";
    VisibleEmptyBody(s[3..]);
    assert s[9..] == s[3..][6..];
  }

  /** No empty paragraph starts anywhere in the visible one, whatever follows it. */
  lemma {:induction false} VisibleEmptyQuiet(r: string)
    ensures QuietFill(VE, r)
  {
    hide Blank, ParaAt, ParaLen, OpenStart;
    var s := VE + r;
    VisibleEmptyPara(s);
    forall i | 0 <= i < |VE| ensures Blank(VE[i..] + r) == 0 {
      assert VE[i..] + r == s[i..];
      if i == 0 { assert s[0..] == s; } else { ParaInterior(s, i); }
    }
  }

  /** The first replacement the pass makes, `v` being empty when it makes none. */
  lemma {:induction false} FirstFill(r: string) returns (u: string, v: string)
    ensures r == u + v
    ensures v == "" ==> FillBlank(r) == r
    ensures v != "" ==> Blank(v) > 0 && FillBlank(r) == u + (VE + FillBlank(v[Blank(v)..]))
  {
    if r == "" || Blank(r) > 0 {
      u, v := "", r;
    } else {
      u, v := FirstFill(r[1..]);
      u := [r[0]] + u;
    }
  }

  lemma {:induction false} FirstSplit(r: string) returns (u: string, v: string)
    ensures r == u + v
    ensures v == "" ==> SplitTrailing(r) == r
    ensures v != "" ==> Trailing(v) > 0
    ensures v != "" ==> SplitTrailing(r) == u + (Residue(v) + VE + SplitTrailing(v[Trailing(v)..]))
  {
    hide Trailing, Residue;
    if r == "" || Trailing(r) > 0 {
      u, v := "", r;
    } else {
      u, v := FirstSplit(r[1..]);
      u := [r[0]] + u;
    }
  }

  /** Replacing a tail `v` by `w`, both opening a paragraph tag, gives the head no new match. */
  lemma {:induction false} HeadStays(a: string, v: string, w: string)
    requires a != "" && OpenStart(v) && OpenStart(w)
    ensures (Blank(w) > 0 ==> Blank(v) > 0) && Blank(a + v) == 0 ==> Blank(a + w) == 0
    ensures (Trailing(w) > 0 ==> Trailing(v) > 0) && (Stray(w[1..]) ==> Stray(v[1..])) && Trailing(a + v) == 0 ==>
              Trailing(a + w) == 0
    ensures Trailing(v) > 0 && Blank(a + v) == 0 && Trailing(a + v) == 0 ==> Blank(a + w) == 0
  {
    hide *;
    OpenIsNotEmpty(v);
    OpenIsNotEmpty(w);
    MatchSplit(a, v);
    MatchSplit(a, w);
  }

  lemma {:induction false} OpenIsNotEmpty(v: string)
    requires OpenStart(v)
    ensures |v| >= 2 && v[0] == '<'
  {
  }

  /** Filling what follows a character never makes an empty paragraph start at that character. */
  lemma {:induction false} FillKeepsHead(c: char, r: string)
    ensures Blank([c] + r) == 0 ==> Blank([c] + FillBlank(r)) == 0
  {
    hide *;
    var u, v := FirstFill(r);
    if v != "" {
      BlankOpens(v);
      var w := VE + FillBlank(v[Blank(v)..]);
      VisibleEmptyPara(w);
      HeadStays([c] + u, v, w);
      assert [c] + u + v == [c] + r;
      assert [c] + u + w == [c] + FillBlank(r);
    }
  }

  lemma {:induction false} BlankOpens(v: string)
    ensures Blank(v) > 0 || Trailing(v) > 0 ==> OpenStart(v) && OpenTag(v) > 0
  {
  }

  /** After the pass no empty paragraph is left, also none made by joining pieces. */
  lemma {:induction false} FillLeavesNoBlank(s: string)
    ensures NoBlank(FillBlank(s))
  {
    if s != "" {
      if Blank(s) > 0 {
        var r := s[Blank(s)..];
        FillLeavesNoBlank(r);
        VisibleEmptyQuiet(FillBlank(r));
        Append(VE, FillBlank(r));
      } else {
        assert [s[0]] + s[1..] == s;
        FillLeavesNoBlank(s[1..]);
        FillKeepsHead(s[0], s[1..]);
        var t := FillBlank(s[1..]);
        assert [s[0]][0..] + t == [s[0]] + t;
        Append([s[0]], t);
      }
    }
  }

  lemma {:induction false} FillNothing(s: string)
    requires NoBlank(s)
    ensures FillBlank(s) == s
  {
    if s != "" {
      assert s[0..] == s;
      forall i | 0 <= i <= |s| - 1 ensures s[1..][i..] == s[i + 1..] {}
      FillNothing(s[1..]);
    }
  }

  lemma {:induction false} SplitNothing(s: string)
    requires NoTrailing(s)
    ensures SplitTrailing(s) == s
  {
    if s != "" {
      assert s[0..] == s;
      forall i | 0 <= i <= |s| - 1 ensures s[1..][i..] == s[i + 1..] {}
      SplitNothing(s[1..]);
    }
  }

  // ---- counting breaks -----------------------------------------------------------

  function Breaks(s: string): nat {
    if s == "" then 0 else (if Br(s) > 0 then 1 else 0) + Breaks(s[1..])
  }

  /** How many paragraphs the second pass splits. */
  function Splits(s: string): nat {
    if s == "" then 0
    else if Trailing(s) > 0 then 1 + Splits(s[Trailing(s)..])
    else Splits(s[1..])
  }

  lemma {:induction false} BreaksBeforeTag(x: string, y: string)
    requires y != "" && y[0] == '<'
    ensures Breaks(x + y) == Breaks(x) + Breaks(y)
  {
    if x == "" {
      assert x + y == y;
    } else {
      assert (x + y)[1..] == x[1..] + y;
      BreaksBeforeTag(x[1..], y);
      BrSplit(x, y);
    }
  }

  lemma {:induction false} BreaksAfterTag(x: string, y: string)
    requires x != "" && x[|x| - 1] == '>'
    ensures Breaks(x + y) == Breaks(x) + Breaks(y)
  {
    assert (x + y)[1..] == x[1..] + y;
    if |x| > 1 { BreaksAfterTag(x[1..], y); } else { assert x[1..] == "" && "" + y == y; }
    BrBeforeGt(x, y);
  }

  lemma {:induction false} NoBreaks(x: string)
    requires forall i :: 0 <= i < |x| - 1 && x[i] == '<' ==> x[i + 1] != 'b' && x[i + 1] != 'B'
    ensures Breaks(x) == 0
  {
    if x != "" { NoBreaks(x[1..]); }
  }

  lemma {:induction false} BreaksSuffix(s: string, k: nat)
    requires k <= |s|
    ensures Breaks(s[k..]) <= Breaks(s)
  {
    if k == 0 { assert s[0..] == s; } else { BreaksSuffix(s[1..], k - 1); assert s[1..][k - 1..] == s[k..]; }
  }

  lemma {:induction false} FillKeepsBr(c: char, r: string)
    ensures Br([c] + FillBlank(r)) == Br([c] + r)
  {
    hide FillBlank, Blank, Br;
    var u, v := FirstFill(r);
    if v != "" {
      BlankOpens(v);
      var w := VE + FillBlank(v[Blank(v)..]);
      assert [c] + u + v == [c] + r;
      assert [c] + u + w == [c] + FillBlank(r);
      BrSplit([c] + u, v);
      BrSplit([c] + u, w);
    }
  }

  lemma {:induction false} BreaksStep(c: char, r: string)
    ensures Breaks([c] + r) == (if Br([c] + r) > 0 then 1 else 0) + Breaks(r)
  {
    assert ([c] + r)[1..] == r;
  }

  lemma {:induction false} FillBreaks(s: string)
    ensures Breaks(FillBlank(s)) <= Breaks(s)
  {
    hide Blank, Br, Breaks;
    if s != "" {
      if Blank(s) > 0 {
        var r := s[Blank(s)..];
        FillBreaks(r);
        BreaksSuffix(s, Blank(s));
        BreaksAfterTag(VE, FillBlank(r));
        NoBreaks(VE);
      } else {
        var r := s[1..];
        FillBreaks(r);
        FillKeepsBr(s[0], r);
        assert [s[0]] + r == s;
        BreaksStep(s[0], r);
        BreaksStep(s[0], FillBlank(r));
      }
    } else {
      assert FillBlank(s) == s;
    }
  }

  /** A break followed by spaces counts as one break. */
  lemma {:induction false} OneBreak(y: string)
    requires Br(y) > 0 && Spaces(y[Br(y)..]) == |y| - Br(y)
    ensures y[0] == '<' && Breaks(y) == 1
  {
    BrShape(y);
    var z := y[Br(y)..];
    SpacesAre(z);
    forall i | 1 <= i < |y| ensures y[i] != '<' { if i >= Br(y) { assert y[i] == z[i - Br(y)]; } }
    NoBreaks(y[1..]);
  }

  lemma {:induction false} CloseIs(z: string)
    requires |z| == 4 && Close(z)
    ensures z[0] == '<' && z[3] == '>' && Breaks(z) == 0
  {
    NoBreaks(z);
  }

  lemma {:induction false} PlainPieces(b: string) returns (t: string)
    requires PlainBody(b).Some?
    ensures var m := PlainBody(b).value; b[..m.len] == m.content + t && t != "" && t[0] == '<'
    ensures t[|t| - 1] == '>' && Breaks(t) == 1
  {
    hide PlainBody, Close, Breaks, IsBr, AllSpace;
    var br, sp, z := PlainParts(b);
    BrThenSpaces(br, sp);
    var y := br + sp;
    OneBreak(y);
    CloseIs(z);
    BreaksBeforeTag(y, z);
    t := y + z;
  }

  lemma {:induction false} BrThenSpaces(br: string, sp: string)
    requires IsBr(br) && AllSpace(sp)
    ensures Br(br + sp) == |br| > 0 && Spaces((br + sp)[|br|..]) == |sp|
  {
    hide Br, Spaces;
    BrFound(br, sp);
    assert (br + sp)[|br|..] == sp;
  }

  /** The body the second expression splits: content, then one break with its spaces, then the close. */
  lemma {:induction false} BodyPieces(b: string) returns (t: string)
    requires TrailingBody(b).Some?
    ensures var m := TrailingBody(b).value; b[..m.len] == m.content + t && t != "" && t[0] == '<'
    ensures t[|t| - 1] == '>' && Breaks(t) == 1
  {
    hide PlainBody, Breaks, HasInk, OneLine, FirstTag;
    var p := PlainBody(b);
    if p.Some? && HasInk(p.value.content) {
      t := PlainPieces(b);
    } else {
      var j := FirstTag(b);
      t := PlainPieces(b[j + 1..]);
      var n := PlainBody(b[j + 1..]).value;
      assert b[..j + 1 + n.len] == b[..j + 1] + b[j + 1..][..n.len];
      assert b[..j + 1 + |n.content|] == b[..j + 1] + b[j + 1..][..|n.content|];
      assert n.content == b[j + 1..][..n.len][..|n.content|];
    }
  }

  lemma {:induction false} TrailingPieces(s: string) returns (a: string, c: string, t: string)
    requires Trailing(s) > 0
    ensures IsP(s[1]) && a != "" && a[|a| - 1] == '>'
    ensures s[..Trailing(s)] == "<" + [s[1]] + a + c + t
    ensures Residue(s) == "<p" + a + c + "</p>"
    ensures t != "" && t[0] == '<' && t[|t| - 1] == '>' && Breaks(t) == 1
  {
    hide TrailingBody, OpenTag, Breaks;
    var k := OpenTag(s);
    var b := s[k..];
    OpenTagIs(s);
    a := s[2..k];
    t := BodyPieces(b);
    c := TrailingBody(b).value.content;
    assert s[..Trailing(s)] == s[..k] + b[..TrailingBody(b).value.len];
    assert s[..k] == "<" + [s[1]] + a;
  }

  lemma {:induction false} BreaksOpen(q: char, y: string)
    requires IsP(q)
    ensures Breaks("<" + [q] + y) == Breaks(y)
  {
    assert "<" + [q] + y == ['<'] + ([q] + y);
    BreaksStep('<', [q] + y);
    BreaksStep(q, y);
  }

  /** Splitting one paragraph takes exactly one break away. */
  lemma {:induction false} ResidueBreaks(s: string, x: string)
    requires Trailing(s) > 0
    ensures Breaks(s) == 1 + Breaks(Residue(s)) + Breaks(s[Trailing(s)..])
    ensures Breaks(Residue(s) + VE + x) == Breaks(Residue(s)) + Breaks(x)
  {
    hide Breaks, Trailing, Residue;
    var a, c, t := TrailingPieces(s);
    var r := s[Trailing(s)..];
    var h := "<" + [s[1]] + a + c;
    assert s == h + (t + r);
    BreaksBeforeTag(h, t + r);
    BreaksAfterTag(t, r);
    assert h == "<" + [s[1]] + (a + c);
    BreaksOpen(s[1], a + c);
    assert Residue(s) == ("<" + ['p'] + (a + c)) + "</p>";
    BreaksBeforeTag("<" + ['p'] + (a + c), "</p>");
    BreaksOpen('p', a + c);
    NoBreaks("</p>");
    NoBreaks(VE);
    assert Residue(s) + VE + x == Residue(s) + (VE + x);
    BreaksBeforeTag(Residue(s), VE + x);
    BreaksAfterTag(VE, x);
  }

  lemma {:induction false} ResidueOpens(s: string)
    requires Trailing(s) > 0
    ensures OpenStart(Residue(s)) && OpenTag(Residue(s)) == OpenTag(s)
    ensures Residue(s)[OpenTag(s)..] == TrailingBody(s[OpenTag(s)..]).value.content + "</p>"
  {
    hide TrailingBody, IsWord;
    var k := OpenTag(s);
    OpenTagIs(s);
    var a := s[2..k];
    var c := TrailingBody(s[k..]).value.content;
    var m := Residue(s);
    assert m == "<p" + a + (c + "</p>");
    assert m[2] == a[0] == s[2];
    assert m[2..] == a + (c + "</p>");
    GtSplit(a, c + "</p>");
    GtIs(a);
    assert a[|a| - 1] == '>';
    assert Gt(a) == |a| - 1;
  }

  lemma {:induction false} SplitKeepsBr(c: char, r: string)
    ensures Br([c] + SplitTrailing(r)) == Br([c] + r)
  {
    hide SplitTrailing, Trailing, Residue, Br;
    var u, v := FirstSplit(r);
    if v != "" {
      BlankOpens(v);
      ResidueOpens(v);
      var w := Residue(v) + VE + SplitTrailing(v[Trailing(v)..]);
      assert [c] + u + v == [c] + r;
      assert [c] + u + w == [c] + SplitTrailing(r);
      BrSplit([c] + u, v);
      BrSplit([c] + u, w);
    }
  }

  /** Every paragraph the second pass splits costs one break, and nothing adds one. */
  lemma {:induction false} SplitBreaks(s: string)
    ensures Breaks(SplitTrailing(s)) + Splits(s) == Breaks(s)
  {
    hide Trailing, Residue, Br, Breaks;
    if s != "" {
      if Trailing(s) > 0 {
        var r := s[Trailing(s)..];
        SplitBreaks(r);
        ResidueBreaks(s, SplitTrailing(r));
      } else {
        var r := s[1..];
        SplitBreaks(r);
        SplitKeepsBr(s[0], r);
        assert [s[0]] + r == s;
        BreaksStep(s[0], r);
        BreaksStep(s[0], SplitTrailing(r));
      }
    } else {
      assert SplitTrailing(s) == s;
    }
  }

  lemma {:induction false} NoSplits(s: string)
    requires Splits(s) == 0
    ensures NoTrailing(s)
  {
    hide Trailing;
    if s != "" {
      assert Trailing(s) == 0;
      NoSplits(s[1..]);
      assert [s[0]] + s[1..] == s;
      assert [s[0]][0..] + s[1..] == s;
      Append([s[0]], s[1..]);
    } else {
      assert s[0..] == "" && Trailing("") == 0 by { EmptyMatches(); }
    }
  }

  lemma {:induction false} EmptyMatches()
    ensures Blank("") == 0 && Trailing("") == 0 && Br("") == 0
  {
  }

  /** Where no empty paragraph is left, the transform changes nothing exactly when nothing trails. */
  lemma {:induction false} FixedIff(s: string)
    requires NoBlank(s)
    ensures Preserve(s) == s <==> NoTrailing(s)
    ensures Preserve(s) != s ==> Breaks(Preserve(s)) < Breaks(s)
  {
    hide NoBlank, NoTrailing, Breaks;
    FillNothing(s);
    SplitBreaks(s);
    FillBreaks(SplitTrailing(s));
    if NoTrailing(s) { SplitNothing(s); } else if Splits(s) == 0 { NoSplits(s); }
  }

  function Iterate(n: nat, s: string): string {
    if n == 0 then s else Preserve(Iterate(n - 1, s))
  }

  lemma {:induction false} IterateShrinks(n: nat, s: string)
    requires n > 0
    ensures NoBlank(Iterate(n, s))
    ensures Preserve(Iterate(n, s)) == Iterate(n, s) || Breaks(Iterate(n, s)) + n <= Breaks(s) + 1
  {
    hide NoBlank, NoTrailing, Breaks, FillBlank, SplitTrailing;
    var x := Iterate(n - 1, s);
    FillLeavesNoBlank(SplitTrailing(FillBlank(x)));
    if n == 1 {
      FillBreaks(x);
      SplitBreaks(FillBlank(x));
      FillBreaks(SplitTrailing(FillBlank(x)));
    } else {
      IterateShrinks(n - 1, s);
      FixedIff(x);
    }
  }

  /** For every input, a fixed point after at most one application more than there are breaks. */
  lemma {:induction false} Converges(n: nat, s: string)
    requires n > Breaks(s)
    ensures Preserve(Iterate(n, s)) == Iterate(n, s)
  {
    hide *;
    IterateShrinks(n, s);
    FixedIff(Iterate(n, s));
  }
}

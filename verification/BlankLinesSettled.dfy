/** Exactly which bodies one application of preserveBlankLines settles. */
module BlankLinesSettled {
  import opened HtmlPatterns
  import opened BlankLines
  import opened BlankLinesMended

  /**
   * Every paragraph that the second pass splits is settled and not followed by a stray close: text without a tag that
   * ends in a break and `</p>`.
   */
  predicate AllSettled(s: string) {
    if s == "" then true
    else if Trailing(s) > 0 then
      Settled(Content(s)) && !Stray(s[Trailing(s)..]) && AllSettled(s[Trailing(s)..])
    else AllSettled(s[1..])
  }

  /** Filling a string in front of a paragraph that is not empty. */
  lemma {:induction false} FillSplit(u: string, v: string)
    requires OpenStart(v) && Blank(v) == 0
    ensures FillBlank(u + v) == FillBlank(u) + FillBlank(v)
    decreases |u|
  {
    hide Blank, OpenStart, Dangling, Trailing;
    if u == "" {
      assert u + v == v && FillBlank("") == "";
    } else {
      MatchSplit(u, v);
      assert (u + v)[1..] == u[1..] + v && (u + v)[Blank(u)..] == u[Blank(u)..] + v;
      if Blank(u) > 0 { FillSplit(u[Blank(u)..], v); } else { FillSplit(u[1..], v); }
    }
  }

  /** What the second and third pass make of a string without empty paragraphs, in one scan. */
  function Finish(s: string): string {
    if s == "" then ""
    else if Trailing(s) > 0 then FillBlank(Residue(s)) + (VE + Finish(s[Trailing(s)..]))
    else [s[0]] + Finish(s[1..])
  }

  /** Splitting what follows a character never makes an empty paragraph start at that character. */
  lemma {:induction false} SplitKeepsHead(c: char, r: string)
    requires Blank([c] + r) == 0 && Trailing([c] + r) == 0
    ensures Blank([c] + SplitTrailing(r)) == 0
  {
    hide *;
    var u, v := FirstSplit(r);
    if v != "" {
      BlankOpens(v);
      ResidueOpens(v);
      ResidueIsLong(v);
      var y := VE + SplitTrailing(v[Trailing(v)..]);
      var w := Residue(v) + VE + SplitTrailing(v[Trailing(v)..]);
      assert w == Residue(v) + y && Residue(v) + "" == Residue(v);
      OpenPrefix(Residue(v), "", y);
      HeadStays([c] + u, v, w);
      assert [c] + u + v == [c] + r;
      assert [c] + u + w == [c] + SplitTrailing(r);
    }
  }

  lemma {:induction false} QuietHead(s: string)
    requires s != ""
    ensures NoBlank(s) ==> Blank(s) == 0 && NoBlank(s[1..])
    ensures NoTrailing(s) ==> Trailing(s) == 0 && NoTrailing(s[1..])
  {
    hide Blank, Trailing;
    assert s[0..] == s;
    assert [s[0]] + s[1..] == s;
    Append([s[0]], s[1..]);
  }

  lemma {:induction false} DropKeepsNoBlank(s: string, k: nat)
    requires k <= |s| && NoBlank(s)
    ensures NoBlank(s[k..])
  {
    hide Blank;
    assert s[..k] + s[k..] == s;
    Append(s[..k], s[k..]);
  }

  lemma {:induction false} FinishIs(s: string)
    requires NoBlank(s)
    ensures FillBlank(SplitTrailing(s)) == Finish(s)
  {
    hide Blank, Trailing, Residue, NoBlank, FillBlank, OpenStart;
    if s == "" {
      assert SplitTrailing(s) == s && FillBlank(s) == s by { FillNothing(s); }
    } else if Trailing(s) > 0 {
      var r := s[Trailing(s)..];
      DropKeepsNoBlank(s, Trailing(s));
      FinishIs(r);
      var x := SplitTrailing(r);
      VisibleEmptyPara(VE + x);
      FillSplit(Residue(s), VE + x);
      VisibleEmptyQuiet(x);
      CopyFill(VE, x);
      assert Residue(s) + VE + x == Residue(s) + (VE + x);
    } else {
      var r := s[1..];
      QuietHead(s);
      FinishIs(r);
      assert [s[0]] + r == s;
      SplitKeepsHead(s[0], r);
      FillStep(s[0], SplitTrailing(r));
    }
  }

  lemma {:induction false} MendedOpens(s: string, x: string)
    requires Trailing(s) > 0 && Blank(s) == 0
    ensures OpenStart(FillBlank(Residue(s)) + x)
  {
    hide FirstTag, Residue, Emptied, FillBlank, OpenTag, OpenStart, Content;
    var m, n := Residue(s), OpenTag(s) + FirstTag(Content(s));
    Mended(s);
    ResidueOpens(s);
    BlankOpens(s);
    OpenVE();
    if Emptied(Content(s)) {
      if FirstTag(Content(s)) < |Content(s)| {
        ResidueIsLong(s);
        assert m[..n] + VE + x == m[..n] + (VE + x);
        assert m == m[..n] + m[n..];
        OpenPrefix(m[..n], m[n..], VE + x);
      } else {
        assert VE + "" == VE;
        OpenPrefix(VE, "", x);
      }
    } else {
      assert m + "" == m;
      ResidueIsLong(s);
      OpenPrefix(m, "", x);
    }
  }

  lemma {:induction false} OpenPrefix(h: string, y: string, x: string)
    requires |h| >= 3 && OpenStart(h + y)
    ensures OpenStart(h + x)
  {
  }

  lemma {:induction false} FirstFinish(r: string) returns (u: string, v: string)
    requires NoBlank(r)
    ensures r == u + v && Finish(r) == u + Finish(v)
    ensures v != "" ==> Trailing(v) > 0 && Blank(v) == 0
  {
    hide Blank, Trailing, Residue, FillBlank, NoBlank;
    if r == "" {
      u, v := "", "";
    } else if Trailing(r) > 0 {
      QuietHead(r);
      u, v := "", r;
      assert "" + Finish(r) == Finish(r);
    } else {
      QuietHead(r);
      u, v := FirstFinish(r[1..]);
      assert r == [r[0]] + r[1..] && Finish(r) == [r[0]] + Finish(r[1..]);
      u := [r[0]] + u;
    }
  }

  lemma {:induction false} FinishOf(v: string)
    requires v != "" && Trailing(v) > 0 && Blank(v) == 0
    ensures var w := Finish(v); OpenStart(w) && OpenStart(v) && (Stray(w[1..]) ==> Stray(v[1..]))
  {
    hide Blank, Trailing, Residue, FillBlank, OpenStart, Stray, PlainBody;
    var p, y := FillBlank(Residue(v)), VE + Finish(v[Trailing(v)..]);
    MendedOpens(v, y);
    BlankOpens(v);
    StrayMended(v);
    VisibleEmptyPara(y);
    PlainBodySplit(p[1..], y);
    assert (p + y)[1..] == p[1..] + y;
    StrayIs(p[1..] + y);
    StrayIs(p[1..]);
  }

  lemma {:induction false} FinishKeepsHead(c: char, r: string)
    requires Trailing([c] + r) == 0 && NoBlank(r)
    ensures Trailing([c] + Finish(r)) == 0
  {
    hide Blank, Trailing, Residue, Finish, Stray, OpenStart;
    var u, v := FirstFinish(r);
    if v == "" {
      assert Finish("") == "" by { FinishNothing(); }
      assert Finish(r) == r;
    } else {
      FinishOf(v);
      HeadStays([c] + u, v, Finish(v));
      assert [c] + u + v == [c] + r;
      assert [c] + u + Finish(v) == [c] + Finish(r);
    }
  }

  lemma {:induction false} FinishNothing()
    ensures Finish("") == ""
  {
  }

  /** The passes neither make a stray close at the head of a text nor remove one. */
  lemma {:induction false} FinishKeepsStray(r: string)
    requires NoBlank(r)
    ensures Stray(Finish(r)) <==> Stray(r)
  {
    hide Blank, Trailing, Finish, OpenStart, PlainBody;
    var u, v := FirstFinish(r);
    if v == "" {
      FinishNothing();
      assert Finish(r) == r;
    } else {
      FinishOf(v);
      PlainBodySplit(u, v);
      PlainBodySplit(u, Finish(v));
      StrayIs(u + v);
      StrayIs(u + Finish(v));
    }
  }

  /** A split paragraph in the result: it and what follows stay as they are exactly when it was settled. */
  lemma {:induction false} ResidueSettles(s: string, x: string)
    requires Trailing(s) > 0 && Blank(s) == 0
    ensures NoTrailing(FillBlank(Residue(s)) + (VE + x)) <==> Settled(Content(s)) && !Stray(x) && NoTrailing(x)
  {
    hide Blank, Trailing, Residue, Settled, Content, NoTrailing, FillBlank, Stray;
    var p := FillBlank(Residue(s));
    MendedQuietIff(s);
    VisibleEmptyIff(x);
    if NoTrailing(VE + x) { QuietBeforeVE(p, x); } else { Append(p, VE + x); }
  }

  lemma {:induction false} OneQuiet(c: char, r: string)
    requires Trailing([c] + r) == 0
    ensures NoTrailing([c] + r) <==> NoTrailing(r)
  {
    hide Trailing;
    assert [c][0..] + r == [c] + r;
    Append([c], r);
  }

  lemma {:induction false} FinishIff(s: string)
    requires NoBlank(s)
    ensures NoTrailing(Finish(s)) <==> AllSettled(s)
  {
    hide Blank, Trailing, Residue, Settled, Content, NoTrailing, NoBlank, Stray, FillBlank;
    if s == "" {
      assert NoTrailing("") by { NoSplits(""); }
    } else if Trailing(s) > 0 {
      var r := s[Trailing(s)..];
      QuietHead(s);
      DropKeepsNoBlank(s, Trailing(s));
      FinishIff(r);
      FinishKeepsStray(r);
      ResidueSettles(s, Finish(r));
    } else {
      var r := s[1..];
      QuietHead(s);
      FinishIff(r);
      assert [s[0]] + r == s;
      FinishKeepsHead(s[0], r);
      OneQuiet(s[0], Finish(r));
    }
  }

  /**
   * A second application changes nothing exactly when, in the text that the first pass leaves, every paragraph the
   * second pass splits is settled and not followed by a stray close.
   */
  lemma {:induction false} IdempotentIff(s: string)
    ensures Preserve(Preserve(s)) == Preserve(s) <==> AllSettled(FillBlank(s))
  {
    hide FillBlank, SplitTrailing, AllSettled, NoBlank, NoTrailing, Finish;
    var t := FillBlank(s);
    FillLeavesNoBlank(s);
    FillLeavesNoBlank(SplitTrailing(t));
    FinishIs(t);
    FixedIff(Preserve(s));
    FinishIff(t);
  }
}

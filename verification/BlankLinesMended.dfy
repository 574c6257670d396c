/** What the third pass makes of a split paragraph, and when no match is left in it or starts before it. */
module BlankLinesMended {
  import opened HtmlPatterns
  import opened HtmlReading
  import opened BlankLines
  import opened BlankLinesContent

  /** The third pass makes what is left of a split paragraph, or its part from an inner tag on, an empty paragraph. */
  predicate Emptied(c: string) {
    var j := FirstTag(c);
    if j == |c| then BlankBody(c + "</p>", 3) > 0 else Blank(c[j..] + "</p>") > 0
  }

  /** What is left ends in no further break, or is empty enough for the third pass. */
  predicate Settled(c: string) { EndBr(c).None? || Emptied(c) }

  // ---- the third pass over what is left ----------------------------------------------------

  /** An inner tag can start an empty paragraph only on its own. */
  lemma {:induction false} TaggedHeadIsNotBlank(s: string)
    requires Trailing(s) > 0 && Blank(s) == 0 && FirstTag(Content(s)) < |Content(s)|
    ensures BlankBody(Content(s) + "</p>", 3) == 0
  {
    hide FirstTag, OpenTag, BlankBody, TrailingBody, PlainBody, Close, OneTag, OneLine, HasInk;
    var c, b := Content(s), s[OpenTag(s)..];
    var t := c + "</p>";
    ContentTags(b);
    if BlankBody(t, 3) > 0 {
      BlankBodyShape(t, 3);
      var j := FirstTag(c);
      assert t[j..] == c[j..] + "</p>";
      CloseAngle(c[j..], "</p>");
      CloseIsLong(c[j..]);
      BlankBodyShort(c, "</p>", 3);
      BlankBodyLonger(c, b[|c|..], 3);
    }
  }

  lemma {:induction false} CloseIsLong(t: string)
    requires Close(t)
    ensures |t| >= 4
  {
  }

  /** The tail of the content from its inner tag on: its body has no tag but the close. */
  lemma {:induction false} TailBody(c: string, q: nat)
    requires var j := FirstTag(c); OneTag(c, j) && q == OpenTag(c[j..] + "</p>") > 0
    ensures var z := c[FirstTag(c)..] + "</p>";
            var d := if q <= |z| - 4 then z[q..|z| - 4] else "";
            z[q..] == "" || (z[q..] == d + "</p>" && FirstTag(d + "</p>") == |d| && FirstTag(d) == |d| &&
                             FirstTag(c) + q + |d| == |c| && d == c[FirstTag(c) + q..])
  {
    hide FirstTag, OpenTag, TagStart;
    var j := FirstTag(c);
    var z := c[j..] + "</p>";
    OpenTagIs(z);
    if q <= |z| - 4 {
      var d := z[q..|z| - 4];
      var t := (c + "</p>")[j + 1..];
      assert t[q - 1..] == z[q..] == d + "</p>";
      FirstTagShift(t, q - 1);
      FirstTagAngle(d, "</p>");
      assert d == c[j + q..];
    } else {
      assert z[q - 1] == '>';
      assert forall i :: |z| - 4 <= i < |z| ==> z[i] == "</p>"[i - (|z| - 4)];
      assert q == |z|;
    }
  }

  lemma {:induction false} TailIsBlank(c: string)
    requires OneTag(c, FirstTag(c)) && Blank(c[FirstTag(c)..] + "</p>") > 0
    ensures Blank(c[FirstTag(c)..] + "</p>") == |c| - FirstTag(c) + 4
    ensures FillBlank(c[FirstTag(c)..] + "</p>") == VE
  {
    hide FirstTag, OpenTag, OneTag, BlankBody;
    var z := c[FirstTag(c)..] + "</p>";
    var q := OpenTag(z);
    TailBody(c, q);
    BlankBodyShape(z[q..], 3);
    EmptyMatches();
    assert z[|z|..] == "" && FillBlank("") == "" && VE + "" == VE;
  }

  /** What the third pass makes of what is left: the visible empty paragraph, alone or behind the head, or no change. */
  lemma {:induction false} Mended(s: string)
    requires Trailing(s) > 0 && Blank(s) == 0
    ensures var c, m := Content(s), Residue(s);
            var n := OpenTag(s) + FirstTag(c);
            && (Emptied(c) && FirstTag(c) == |c| ==> FillBlank(m) == VE)
            && (Emptied(c) && FirstTag(c) < |c| ==> n <= |m| && FillBlank(m) == m[..n] + VE && OpenStart(m[n..]))
            && (!Emptied(c) ==> FillBlank(m) == m)
  {
    hide FirstTag, Residue, TrailingBody, Content, OneTag, Emptied, Blank, BlankBody, OpenStart;
    var c, m, k := Content(s), Residue(s), OpenTag(s);
    var j := FirstTag(c);
    MendedParts(s);
    ResidueOpens(s);
    assert m[0..] == m;
    if Emptied(c) && j == |c| {
      assert m[|m|..] == "" && FillBlank("") == "" && VE + "" == VE;
    } else {
      var z := m[k + j..];
      if Emptied(c) {
        var u := m[..k + j];
        forall i | 0 <= i < |u| ensures Blank(u[i..] + z) == 0 { assert u[i..] + z == m[i..]; }
        CopyFill(u, z);
        assert m == u + z;
      } else {
        assert m[|m|..] == "";
        EmptyMatches();
        FillNothing(m);
      }
    }
  }

  /** Where empty paragraphs start in what is left. */
  lemma {:induction false} MendedParts(s: string)
    requires Trailing(s) > 0 && Blank(s) == 0
    ensures var c, m, k := Content(s), Residue(s), OpenTag(s);
            var j := FirstTag(c);
            && k + j <= |m| && m != ""
            && (Emptied(c) && j == |c| ==> Blank(m) == |m|)
            && (j < |c| || !Emptied(c) ==> forall i :: 0 <= i < |m| && i != k + j ==> Blank(m[i..]) == 0)
            && (!Emptied(c) && k + j < |m| ==> Blank(m[k + j..]) == 0)
            && (Emptied(c) && j < |c| ==> FillBlank(m[k + j..]) == VE && OpenStart(m[k + j..]))
  {
    hide FirstTag, OpenTag, Residue, Content, Trailing, TrailingBody, PlainBody, OneTag, BlankBody, FillBlank, Close,
      OpenStart;
    var c, m, k := Content(s), Residue(s), OpenTag(s);
    var j, t := FirstTag(c), c + "</p>";
    ContentIs(s);
    ContentTags(s[k..]);
    ResidueOpens(s);
    ResidueIsLong(s);
    assert m[k..] == t && |m| == k + |c| + 4;
    assert m[k + j..] == t[j..] == c[j..] + "</p>";
    forall i | 0 <= i < |m| && i != k + j ensures Blank(m[i..]) > 0 ==> BlankBody(t, 3) > 0 {
      if OpenTag(m[i..]) > 0 {
        InnerStart(s, i);
        assert m[i..][k - i..] == t;
      }
    }
    if j == |c| {
      if BlankBody(t, 3) > 0 { BlankBodyShape(t, 3); }
      assert m[k + j..] == "</p>";
      CloseIsNotOpen();
    } else {
      TaggedHeadIsNotBlank(s);
      if Emptied(c) {
        TailIsBlank(c);
        BlankOpens(m[k + j..]);
      }
    }
  }

  lemma {:induction false} CloseIsNotOpen()
    ensures Blank("</p>") == 0 && !OpenStart("</p>")
  {
  }

  // ---- when it is quiet ------------------------------------------------------------------

  lemma {:induction false} StrayVE(x: string)
    ensures !Stray("p>&nbsp;</p>" + x)
  {
    hide FirstTag, Close;
    var h := "p>&nbsp;";
    var b := h + ("</p>" + x);
    assert "p>&nbsp;</p>" + x == b;
    forall i | 0 <= i < 8 ensures !TagStart(b[i..]) { assert b[i..][0] == h[i]; }
    SkipTo(b, 8);
    assert b[8..] == "</p>" + x;
    assert TagStart(b[8..]) && FirstTag(b[8..]) == 0 by { TagFirst(b[8..]); }
    assert b[..8] == h;
    NoBreak(h);
  }

  lemma {:induction false} TagFirst(b: string)
    requires TagStart(b)
    ensures FirstTag(b) == 0
  {
  }

  /** The visible empty paragraph is matched exactly when a stray close follows it. */
  lemma {:induction false} VisibleEmptyIff(x: string)
    ensures NoTrailing(VE + x) <==> !Stray(x) && NoTrailing(x)
  {
    hide FirstTag, OpenTag, TrailingBody, Stray, NoTrailing;
    var s := VE + x;
    VisibleEmptyTag(s);
    VisibleEmptyMatch(x);
    assert s[3..] == "&nbsp;</p>" + x;
    forall i | 0 < i < |VE| ensures Trailing(VE[i..] + x) == 0 {
      assert VE[i..] + x == s[i..];
      NoInnerTag(s, i);
    }
    assert VE[0..] + x == s && s[0..] == s;
    Append(VE, x);
    if Trailing(s) > 0 { NotQuiet(s); }
  }

  lemma {:induction false} NoInnerTag(s: string, i: nat)
    requires VE <= s && 0 < i < |VE|
    ensures OpenTag(s[i..]) == 0
  {
    assert s[i..][0] == VE[i];
    if i + 1 < |VE| { assert s[i..][1] == VE[i + 1]; }
  }

  lemma {:induction false} VisibleEmptyMatch(x: string)
    ensures TrailingBody("&nbsp;</p>" + x).Some? <==> Stray(x)
  {
    hide FirstTag, PlainBody;
    var b := "&nbsp;</p>" + x;
    VisibleEmptyBody(b);
    assert b[7..] == "/p>" + x;
    assert b[..6] == "&nbsp;";
    PlainText("/p>", x);
    assert OneLine(b[..6]);
    StrayIs(b[7..]);
    StrayIs(x);
  }

  lemma {:induction false} NotQuiet(s: string)
    requires Trailing(s) > 0
    ensures !NoTrailing(s)
  {
    assert s[0..] == s;
  }

  /** In front of the visible empty paragraph a string stays as quiet as it is. */
  lemma {:induction false} QuietBeforeVE(w: string, x: string)
    requires NoTrailing(VE + x)
    ensures NoTrailing(w + (VE + x)) <==> NoTrailing(w)
  {
    hide Trailing, OpenStart, Dangling, Waits, Stray, Blank;
    var y := VE + x;
    VisibleEmptyPara(y);
    assert y[1..] == "p>&nbsp;</p>" + x;
    StrayVE(x);
    assert Trailing(y) == 0 by { assert y[0..] == y; }
    forall i | 0 <= i < |w| ensures Trailing(w[i..] + y) > 0 <==> Trailing(w[i..]) > 0 {
      MatchSplit(w[i..], y);
    }
    EmptyMatches();
    assert w[|w|..] == "";
    if NoTrailing(w) { Append(w, y); }
    if NoTrailing(w + y) {
      forall i | 0 <= i < |w| ensures Trailing(w[i..]) == 0 { assert (w + y)[i..] == w[i..] + y; }
    }
  }

  /** What is left, and not mended, is quiet exactly when its own body does not match. */
  lemma {:induction false} ResidueQuietIff(s: string)
    requires Trailing(s) > 0
    ensures NoTrailing(Residue(s)) <==> TrailingBody(Content(s) + "</p>").None?
  {
    hide FirstTag, OpenTag, Residue, Content, TrailingBody, PlainBody, OneTag, OneLine, HasInk, EndBr;
    var c, m, k := Content(s), Residue(s), OpenTag(s);
    var j, t := FirstTag(c), c + "</p>";
    ContentIs(s);
    ContentTags(s[k..]);
    LeftMatchesIff(s[k..]);
    ResidueOpens(s);
    assert m[0..] == m;
    forall i | 0 <= i < |m| ensures Trailing(m[i..]) > 0 ==> TrailingBody(t).Some? {
      if OpenTag(m[i..]) > 0 {
        InnerStart(s, i);
        if i < k {
          assert m[i..][k - i..] == t;
        } else {
          assert m[i..] == t[j..] == c[j..] + "</p>";
          if Trailing(m[i..]) > 0 { TailMatches(c); }
        }
      }
    }
    EmptyMatches();
    assert m[|m|..] == "";
  }

  lemma {:induction false} ContentIs(s: string)
    requires Trailing(s) > 0
    ensures TrailingBody(s[OpenTag(s)..]).Some? && Content(s) == TrailingBody(s[OpenTag(s)..]).value.content
  {
  }

  lemma {:induction false} TailMatches(c: string)
    requires OneTag(c, FirstTag(c)) && OneLine(c) && Trailing(c[FirstTag(c)..] + "</p>") > 0
    ensures EndBr(c).Some?
  {
    hide FirstTag, OpenTag, OneTag, OneLine, EndBr, HasInk, Close;
    var z := c[FirstTag(c)..] + "</p>";
    var q := OpenTag(z);
    TailBody(c, q);
    if z[q..] == "" {
      NoPlainBody("") by { EmptyTag(); }
    } else {
      var n := FirstTag(c) + q;
      var d := c[n..];
      OneLineFrom(c, n);
      PlainAtEnd(d);
      CloseTag();
      assert (d + "</p>")[|d| + 1..] == "/p>";
      assert EndBr(d).Some?;
      EndBrLater(c[..n], d);
      assert c == c[..n] + d;
    }
  }

  lemma {:induction false} EmptyTag()
    ensures FirstTag("") == 0 && TrailingBody("").None?
  {
  }

  lemma {:induction false} OneLineFrom(c: string, n: nat)
    requires n <= |c| && OneLine(c)
    ensures OneLine(c[n..])
  {
  }

  /** What is left of a split paragraph, after the third pass, is quiet exactly when it was settled. */
  lemma {:induction false} MendedQuietIff(s: string)
    requires Trailing(s) > 0 && Blank(s) == 0
    ensures NoTrailing(FillBlank(Residue(s))) <==> Settled(Content(s))
  {
    hide FirstTag, Residue, Content, TrailingBody, Emptied, NoTrailing, EndBr, HasInk, OneLine, BlankBody, Blank, OneTag;
    var c, m, k := Content(s), Residue(s), OpenTag(s);
    var j := FirstTag(c);
    Mended(s);
    NoTrailingVE();
    if Emptied(c) {
      if j < |c| {
        HeadQuiet(s);
        assert VE + "" == VE;
        QuietBeforeVE(m[..k + j], "");
      }
    } else {
      ResidueQuietIff(s);
      ContentIs(s);
      LeftMatchesIff(s[k..]);
      if j == |c| && EndBr(c).Some? && !HasInk(c[..EndBr(c).value]) {
        LoneBreak(c);
        EmptiedIs(c);
      }
    }
  }

  lemma {:induction false} EmptiedIs(c: string)
    requires FirstTag(c) == |c| && BlankBody(c + "</p>", 3) > 0
    ensures Emptied(c)
  {
  }

  lemma {:induction false} NoTrailingVE()
    ensures NoTrailing(VE)
  {
    hide Trailing;
    VisibleEmptyIff("");
    assert VE + "" == VE;
    assert FirstTag("") == 0 && !Stray("");
    EmptyMatches();
    assert ""[0..] == "";
  }

  /** The head of a split paragraph up to its inner tag. */
  lemma {:induction false} HeadQuiet(s: string)
    requires Trailing(s) > 0 && FirstTag(Content(s)) < |Content(s)| && OpenTag(s) + FirstTag(Content(s)) <= |Residue(s)|
    requires OpenStart(Residue(s)[OpenTag(s) + FirstTag(Content(s))..])
    ensures NoTrailing(Residue(s)[..OpenTag(s) + FirstTag(Content(s))])
  {
    hide FirstTag, Residue, Content, Trailing, OpenTag;
    var n := OpenTag(s) + FirstTag(Content(s));
    var u := Residue(s)[..n];
    forall i | 0 <= i <= |u| ensures Trailing(u[i..]) == 0 {
      if i < |u| { HeadStart(s, i); } else { EmptyMatches(); }
    }
  }

  lemma {:induction false} HeadStart(s: string, i: nat)
    requires Trailing(s) > 0 && FirstTag(Content(s)) < |Content(s)| && i < OpenTag(s) + FirstTag(Content(s)) <= |Residue(s)|
    requires OpenStart(Residue(s)[OpenTag(s) + FirstTag(Content(s))..])
    ensures Trailing(Residue(s)[..OpenTag(s) + FirstTag(Content(s))][i..]) == 0
  {
    hide FirstTag, Residue, Content, TrailingBody, OneTag, OpenStart, OpenTag;
    var c, m, k := Content(s), Residue(s), OpenTag(s);
    var n := k + FirstTag(c);
    var u, z := m[..n], m[n..];
    ResidueOpens(s);
    ContentIs(s);
    assert u[i..] + z == m[i..];
    if OpenTag(u[i..]) > 0 {
      TagNotDangling(u[i..]);
      OpenTagSplit(u[i..], z);
      InnerStart(s, i);
      assert m[k..] == c + "</p>";
      assert u[i..][k - i..] == c[..FirstTag(c)];
      HeadText(c);
    }
  }

  lemma {:induction false} TagNotDangling(u: string)
    requires OpenTag(u) > 0
    ensures !Dangling(u)
  {
  }

  lemma {:induction false} HeadText(c: string)
    ensures TrailingBody(c[..FirstTag(c)]).None?
  {
    hide TagStart;
    var j := FirstTag(c);
    var x := c[..j];
    TextHasNoTag(c);
    NoPlainBody(x);
  }

  lemma {:induction false} TextHasNoTag(c: string)
    ensures FirstTag(c[..FirstTag(c)]) == FirstTag(c)
  {
    hide TagStart;
    var j := FirstTag(c);
    InkAtTag(c);
    if j < |c| {
      FirstTagAngle(c[..j], c[j..]);
      assert c == c[..j] + c[j..];
      TagFirst(c[j..]);
    } else {
      assert c[..j] == c;
    }
  }

  // ---- what stands before it ---------------------------------------------------------------

  /** If a match could step over what the passes make of a split paragraph, it could step over the paragraph. */
  lemma {:induction false} StrayMended(s: string)
    requires Trailing(s) > 0 && Blank(s) == 0
    ensures FillBlank(Residue(s)) != "" && (Stray(FillBlank(Residue(s))[1..]) ==> Stray(s[1..]))
  {
    hide FirstTag, Residue, Content, Emptied, Stray, OpenStart, OpenTag, PlainBody, Blank, Trailing, FillBlank;
    var m, n := Residue(s), OpenTag(s) + FirstTag(Content(s));
    Mended(s);
    StrayVE("");
    assert VE[1..] == "p>&nbsp;</p>" + "";
    ResidueIsLong(s);
    StrayResidue(s);
    if Emptied(Content(s)) && FirstTag(Content(s)) < |Content(s)| {
      var u, z := m[..n][1..], m[n..];
      assert m[1..] == u + z;
      assert (m[..n] + VE)[1..] == u + VE;
      OpenVE();
      PlainBodySplit(u, z);
      PlainBodySplit(u, VE);
      StrayIs(u + z);
      StrayIs(u + VE);
    }
  }

  lemma {:induction false} OpenVE()
    ensures OpenStart(VE)
  {
  }

  lemma {:induction false} ResidueIsLong(s: string)
    requires Trailing(s) > 0
    ensures |Residue(s)| >= 3 && OpenTag(s) >= 3
  {
  }

  lemma {:induction false} StrayResidue(s: string)
    requires Trailing(s) > 0
    ensures Residue(s) != "" && (Stray(Residue(s)[1..]) ==> Stray(s[1..]))
  {
    hide FirstTag, TrailingBody, PlainBody, HasInk, OneLine, Stray;
    var k := OpenTag(s);
    var a, c, b := s[2..k], Content(s), s[k..];
    OpenTagIs(s);
    ContentIs(s);
    ContentTags(b);
    var y := b[|c|..];
    assert Residue(s)[1..] == "p" + (a + c + "</p>");
    PNotAngle(s[1]);
    PlainStep('p', a + c + "</p>");
    assert s[1..] == [s[1]] + (a + c + y);
    PlainStep(s[1], a + c + y);
    StrayOverTag(s, a, c, y);
  }

  lemma {:induction false} PNotAngle(q: char)
    requires IsP(q)
    ensures q != '<' && !IsLineEnd(q)
  {
  }

  lemma {:induction false} StrayOverTag(s: string, a: string, c: string, y: string)
    requires Trailing(s) > 0 && a == s[2..OpenTag(s)] && c == Content(s) && s[OpenTag(s)..] == c + y
    requires y != "" && y[0] == '<'
    ensures Stray(a + c + "</p>") ==> Stray(a + c + y)
  {
    hide FirstTag, TrailingBody, PlainBody, HasInk, OneLine, Content, OneTag;
    var x := a + c;
    if FirstTag(x) < |x| {
      PlainBeforeAngle(x, "</p>", y);
      StrayIs(x + "</p>");
      StrayIs(x + y);
    } else if Stray(x + "</p>") {
      FirstTagShift(x, |a|);
      assert x[|a|..] == c;
      ContentIs(s);
      ContentTags(c + y);
      StrayAtClose(x);
      OpenTagIs(s);
      AttributesOneLine(a, c);
      PlainElsewhere(x, c, y);
    }
  }

  lemma {:induction false} StrayAtClose(x: string)
    requires FirstTag(x) == |x| && Stray(x + "</p>")
    ensures EndBr(x).Some? && OneLine(x[..EndBr(x).value])
  {
    hide TagStart, EndBr, OneLine;
    var t := x + "</p>";
    FirstTagAngle(x, "</p>");
    CloseTag();
    assert t[..|x|] == x;
    if EndBr(x).Some? { assert t[..EndBr(x).value] == x[..EndBr(x).value]; }
  }

  /** A break at the end of attributes and content with ink lies in the content. */
  lemma {:induction false} AttributesOneLine(a: string, c: string)
    requires a != "" && a[|a| - 1] == '>' && (forall i :: 0 <= i < |a| - 1 ==> a[i] != '>')
    requires HasInk(c) && OneLine(c) && EndBr(a + c).Some? && OneLine((a + c)[..EndBr(a + c).value])
    ensures OneLine(a + c)
  {
    hide Br, EndBr, IsSpace, IsLineEnd;
    var x := a + c;
    var i := EndBr(x).value;
    EndBrIs(x);
    var y := x[i..];
    BrShape(y);
    var m := Br(y);
    if i < |a| {
      assert y[|a| - 1 - i] == x[|a| - 1] == '>';
      assert y[m - 1] == x[i + m - 1] == '>';
      assert i + m == |a|;
      assert y[m..] == c;
      SpacesAre(c);
    } else {
      assert forall k :: 0 <= k < |a| ==> x[..i][k] == a[k];
    }
  }

  /** The plain match of `c + y` at its break, with another text in front. */
  lemma {:induction false} PlainElsewhere(x: string, c: string, y: string)
    requires FirstTag(x) == |x| && OneLine(x) && y != "" && y[0] == '<'
    requires PlainBody(c + y).Some? && PlainBody(c + y).value.content == c
    ensures Stray(x + y)
  {
    hide FirstTag, PlainBody, OneLine, NoTags, Close, Br, IsBr, AllSpace;
    var br, sp, z := PlainParts(c + y);
    var n := PlainBody(c + y).value.len;
    var t := br + sp + z;
    assert (c + y)[..n] == c + t;
    var r := (c + y)[n..];
    assert c + y == (c + t) + r;
    assert y == t + r by { assert (c + y)[|c|..] == y && ((c + t) + r)[|c|..] == t + r; }
    ClosePrefix(z, r);
    FirstTagAngle(x, y);
    FirstTagQuiet(x + y, |x|);
    assert y == br + sp + (z + r);
    PlainFound(x, br, sp, z + r);
    StrayIs(x + y);
  }
}

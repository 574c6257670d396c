/** Inputs on which a second run of preserveBlankLines changes the text. */
module BlankLinesExamples {
  import opened Prelude
  import opened HtmlPatterns
  import opened HtmlReading
  import opened BlankLines
  import opened BlankLinesContent
  import opened BlankLinesMended
  import opened BlankLinesSettled

  /** The only opening tag is the plain one at the head, and it is followed by ink. */
  predicate Single(s: string) {
    && |s| > 3 && s[0] == '<' && s[1] == 'p' && s[2] == '>' && s[3] != '<' && !IsSpace(s[3])
    && forall i :: 0 < i < |s| - 1 && s[i] == '<' ==> !IsP(s[i + 1])
  }

  lemma {:induction false} SingleHead(s: string)
    requires Single(s)
    ensures OpenTag(s) == 3 && FillBlank(s) == s
  {
    hide BlankBody;
    var t := s[3..];
    assert Gt(s[2..]) == 0;
    assert BlankBody(t, 3) == 0 by { NoBlankBody(t); }
    assert s[0..] == s;
    forall i | 0 < i <= |s| ensures Blank(s[i..]) == 0 {
      if i + 1 < |s| { assert s[i..][0] == s[i] && s[i..][1] == s[i + 1]; }
    }
    FillNothing(s);
  }

  lemma {:induction false} NoBlankBody(t: string)
    requires t != "" && t[0] != '<' && !IsSpace(t[0])
    ensures BlankBody(t, 3) == 0
  {
    assert Spaces(t) == 0 && t[0..] == t;
    assert Br(t) == 0;
  }

  lemma {:induction false} SecondRun(s: string)
    requires Single(s) && Trailing(s) > 0 && (!Settled(Content(s)) || Stray(s[Trailing(s)..]))
    ensures Preserve(Preserve(s)) != Preserve(s)
  {
    hide Trailing, Settled, Stray, Content, Preserve, FillBlank, Single;
    SingleHead(s);
    SingleIsNotEmpty(s);
    IdempotentIff(s);
  }

  lemma {:induction false} SingleIsNotEmpty(s: string)
    requires Single(s)
    ensures s != ""
  {
  }

  lemma {:induction false} BrTag()
    ensures IsBr("<br>") && AllSpace("") && Close("</p>")
  {
    assert "<br>"[3..] == ">" && Spaces(">") == 0;
  }

  lemma {:induction false} TextNoTags(c: string, y: string)
    requires forall i :: 0 <= i < |c| && (c + y)[i] == '<' ==> i + 1 < |c + y| && (c + y)[i + 1] == 'b'
    ensures NoTags(c + y, |c|)
  {
    forall i | 0 <= i < |c| ensures !TagStart((c + y)[i..]) {
      assert (c + y)[i..][0] == (c + y)[i];
      if i + 1 < |c + y| { assert (c + y)[i..][1] == (c + y)[i + 1]; }
    }
  }

  /** A text, one break and a close, then anything. */
  lemma {:induction false} PlainBreak(c: string, r: string)
    requires OneLine(c) && forall i :: 0 <= i < |c| && c[i] == '<' ==> i + 1 < |c| && c[i + 1] == 'b'
    ensures PlainBody(c + "<br></p>" + r) == Some(Body(|c| + 8, c))
  {
    hide PlainBody, NoTags, OneLine, IsBr, AllSpace, Close;
    BrTag();
    ClosePrefix("</p>", r);
    var y := "<br>" + "" + ("</p>" + r);
    TextNoTags(c, y);
    PlainFound(c, "<br>", "", "</p>" + r);
    assert c + "<br></p>" + r == c + y;
  }

  /** Text that starts with ink. */
  predicate Text(x: string) { x != "" && !IsSpace(x[0]) && '<' !in x && OneLine(x) }

  lemma {:induction false} SingleText(x: string, r: string)
    requires Text(x) && forall i :: 0 <= i < |r| - 1 && r[i] == '<' ==> !IsP(r[i + 1])
    ensures Single("<p>" + (x + r)) && ("<p>" + (x + r))[3..] == x + r
  {
    var s := "<p>" + (x + r);
    assert s[3] == x[0];
    assert forall i :: 3 <= i < 3 + |x| ==> s[i] == x[i - 3] && x[i - 3] in x;
    assert forall i :: 3 + |x| <= i < |s| ==> s[i] == r[i - 3 - |x|];
  }

  lemma {:induction false} EndBrAfter(x: string)
    ensures EndBr(x + "<br>") == Some(|x|)
  {
    BrTag();
    EndBrFound(x, "<br>", "");
    assert x + ("<br>" + "") == x + "<br>";
  }

  lemma {:induction false} PlainMatch(s: string, c: string, r: string)
    requires Single(s) && s[3..] == c + "<br></p>" + r && HasInk(c) && OneLine(c)
    requires forall i :: 0 <= i < |c| && c[i] == '<' ==> i + 1 < |c| && c[i + 1] == 'b'
    ensures Trailing(s) == |c| + 11 && Content(s) == c && s[Trailing(s)..] == r
  {
    hide PlainBody, FillBlank, OpenTag;
    SingleHead(s);
    PlainBreak(c, r);
    assert s[Trailing(s)..] == s[3..][|c| + 8..];
  }

  /** Two breaks at the end of a paragraph. */
  lemma {:induction false} TwoBreaksChange(x: string)
    requires Text(x)
    ensures var s := "<p>" + (x + "<br><br></p>"); Preserve(Preserve(s)) != Preserve(s)
  {
    hide Preserve, Trailing, Content, EndBr, Emptied, Stray, Single;
    var s, c := "<p>" + (x + "<br><br></p>"), x + "<br>";
    SingleText(x, "<br><br></p>");
    assert s[3..] == c + "<br></p>" + "";
    assert c[0] == x[0] && HasInk(c);
    PlainMatch(s, c, "");
    EndBrAfter(x);
    NoTagInBreak(x);
    TextIsNotEmptied(x, "<br>");
    SecondRun(s);
  }

  lemma {:induction false} TextIsNotEmptied(x: string, r: string)
    requires Text(x) && (FirstTag(x + r) < |x + r| ==> Close(r))
    ensures !Emptied(x + r)
  {
    hide BlankBody, Br, IsSpace;
    var c := x + r;
    assert c[0] == x[0];
    if FirstTag(c) == |c| {
      NoBlankBody(c + "</p>");
    } else {
      forall i | 0 <= i < |x| ensures !TagStart(c[i..]) { assert c[i..][0] == x[i]; }
      SkipTo(c, |x|);
      assert c[|x|..] == r;
      assert TagStart(r);
      assert c[FirstTag(c)..] == r;
    }
  }

  lemma {:induction false} NoTagInBreak(x: string)
    requires Text(x)
    ensures FirstTag(x + "<br>") == |x| + 4
  {
    var c := x + "<br>";
    forall i | 0 <= i < |c| ensures !TagStart(c[i..]) {
      assert c[i..][0] == c[i] && (i == |x| ==> c[i..][1] == 'b');
      if i < |x| { assert c[i] == x[i]; }
    }
    SkipTo(c, |c|);
    assert c[|c|..] == "";
  }

  /** A close inside, which `\S` steps over, and two breaks before the next close. */
  lemma {:induction false} StepOverChange(x: string, y: string)
    requires Text(x) && '<' !in y && OneLine(y)
    ensures var s := "<p>" + (x + ("</p>" + y + "<br><br></p>")); Preserve(Preserve(s)) != Preserve(s)
  {
    hide Preserve, Trailing, Content, EndBr, Emptied, Stray, Single, Br;
    var r := "</p>" + y + "<br><br></p>";
    var s, c := "<p>" + (x + r), x + ("</p>" + y + "<br>");
    NoOpening(y);
    SingleText(x, r);
    StepOverMatch(x, y, s);
    EndBrAfter(x + ("</p>" + y));
    assert x + ("</p>" + y) + "<br>" == c;
    assert Close("</p>" + y + "<br>");
    TextIsNotEmptied(x, "</p>" + y + "<br>");
    SecondRun(s);
  }

  lemma {:induction false} NoOpening(y: string)
    requires '<' !in y
    ensures var r := "</p>" + y + "<br><br></p>"; forall i :: 0 <= i < |r| - 1 && r[i] == '<' ==> !IsP(r[i + 1])
    ensures var r := "<br></p>" + y + "<br></p>"; forall i :: 0 <= i < |r| - 1 && r[i] == '<' ==> !IsP(r[i + 1])
  {
  }

  lemma {:induction false} OneLineAround(y: string)
    requires OneLine(y)
    ensures OneLine("/p>" + y + "<br>")
  {
    var d := "/p>" + y + "<br>";
    assert forall i :: 3 <= i < 3 + |y| ==> d[i] == y[i - 3];
    assert d[0] == '/' && d[1] == 'p' && d[2] == '>';
    assert forall i :: 3 + |y| <= i < |d| ==> d[i] == "<br>"[i - 3 - |y|];
  }

  lemma {:induction false} StepOverMatch(x: string, y: string, s: string)
    requires Text(x) && '<' !in y && OneLine(y) && Single(s) && s[3..] == x + ("</p>" + y + "<br><br></p>")
    ensures Trailing(s) > 0 && Content(s) == x + ("</p>" + y + "<br>")
  {
    hide FillBlank, OpenTag, TrailingBody;
    SingleHead(s);
    StepOverBody(x, y);
  }

  lemma {:induction false} StepOverBody(x: string, y: string)
    requires Text(x) && '<' !in y && OneLine(y)
    ensures var m := TrailingBody(x + ("</p>" + y + "<br><br></p>"));
            m.Some? && m.value.content == x + ("</p>" + y + "<br>")
  {
    hide OneLine, PlainBody, EndBr, FirstTag;
    var b := x + ("</p>" + y + "<br><br></p>");
    StepOverTag(x, y);
    var d := "/p>" + y + "<br>";
    OneLineAround(y);
    PlainBreak(d, "");
    assert b[..|x|] == x && b[|x| + 1..] == d + "<br></p>" + "";
    assert b[..|x| + 1 + |d|] == x + ("</p>" + y + "<br>");
  }

  lemma {:induction false} StepOverTag(x: string, y: string)
    requires Text(x)
    ensures var b := x + ("</p>" + y + "<br><br></p>"); FirstTag(b) == |x| && PlainBody(b) == None
  {
    hide OneLine;
    var b := x + ("</p>" + y + "<br><br></p>");
    forall i | 0 <= i < |x| ensures !TagStart(b[i..]) { assert b[i..][0] == x[i]; }
    SkipTo(b, |x|);
    assert b[|x|..] == "</p>" + y + "<br><br></p>";
    TagFirst(b[|x|..]);
    NoBreak(x);
    assert b[..|x|] == x;
  }

  /** A stray close after a split paragraph: the visible empty paragraph put between them is matched next. */
  lemma {:induction false} StrayCloseChange(x: string, y: string)
    requires Text(x) && '<' !in y && OneLine(y)
    ensures var s := "<p>" + (x + ("<br></p>" + y + "<br></p>")); Preserve(Preserve(s)) != Preserve(s)
  {
    hide Preserve, Trailing, Content, PlainBody, Settled, Single;
    var r := "<br></p>" + y + "<br></p>";
    var s := "<p>" + (x + r);
    NoOpening(y);
    SingleText(x, r);
    var z := y + "<br></p>";
    assert s[3..] == x + "<br></p>" + z;
    PlainMatch(s, x, z);
    PlainBreak(y, "");
    assert y + "<br></p>" + "" == z;
    SecondRun(s);
  }

  /** The header's claim that a second run changes nothing is false, in three ways. */
  lemma {:induction false} SecondRunChanges()
    ensures Preserve(Preserve("<p>x<br><br></p>")) != Preserve("<p>x<br><br></p>")
    ensures Preserve(Preserve("<p>a</p>b<br><br></p>")) != Preserve("<p>a</p>b<br><br></p>")
    ensures Preserve(Preserve("<p>x<br></p>b<br></p>")) != Preserve("<p>x<br></p>b<br></p>")
  {
    hide Preserve;
    assert "<p>" + ("x" + "<br><br></p>") == "<p>x<br><br></p>";
    assert "<p>" + ("a" + ("</p>" + "b" + "<br><br></p>")) == "<p>a</p>b<br><br></p>";
    assert "<p>" + ("x" + ("<br></p>" + "b" + "<br></p>")) == "<p>x<br></p>b<br></p>";
    TwoBreaksChange("x");
    StepOverChange("a", "b");
    StrayCloseChange("x", "b");
  }
}

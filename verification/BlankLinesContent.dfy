/** The content of a match of the second expression, and what the pass leaves of it. */
module BlankLinesContent {
  import opened Prelude
  import opened HtmlPatterns
  import opened HtmlReading
  import opened BlankLines

  // ---- the content of a match ----------------------------------------------------------

  lemma {:induction false} SameTags(c: string, x: string, y: string)
    requires x != "" && y != "" && x[0] == '<' && y[0] == '<'
    requires NoTags(c + x, |c|)
    ensures NoTags(c + y, |c|)
  {
    forall i | 0 <= i < |c| ensures !TagStart((c + y)[i..]) {
      assert (c + x)[i..] == c[i..] + x && (c + y)[i..] == c[i..] + y;
    }
  }

  lemma {:induction false} FirstTagShift(b: string, i: nat)
    requires i <= FirstTag(b)
    ensures FirstTag(b[i..]) == FirstTag(b) - i
  {
    if i == 0 {
      assert b[0..] == b;
    } else {
      FirstTagShift(b[1..], i - 1);
      assert b[1..][i - 1..] == b[i..];
    }
  }

  lemma {:induction false} PlainContent(b: string)
    requires PlainBody(b).Some?
    ensures var c := PlainBody(b).value.content;
            && FirstTag(c) == |c| && FirstTag(c + "</p>") == |c| && OneLine(c)
            && |c| < |b| && b == c + b[|c|..] && b[|c|] == '<'
  {
    hide FirstTag, Close, Br, AllSpace, OneLine, PlainBody;
    var c := PlainBody(b).value.content;
    var br, sp, z := PlainParts(b);
    assert br[0] == '<' by { BrShape(br); }
    assert b[..PlainBody(b).value.len][|c|] == b[|c|];
    assert b == c + b[|c|..];
    SameTags(c, b[|c|..], "</p>");
    SkipTo(c + "</p>", |c|);
    assert (c + "</p>")[|c|..] == "</p>";
    CloseTag();
    FirstTagAngle(c, "</p>");
  }

  lemma {:induction false} CloseTag()
    ensures FirstTag("</p>") == 0 && Close("</p>") && FirstTag("/p>") == 3 && PlainBody("/p>") == None
  {
    assert TagStart("</p>");
    assert !TagStart("/p>") && !TagStart("p>") && !TagStart(">");
    assert "/p>"[1..] == "p>" && "p>"[1..] == ">" && ">"[1..] == "";
  }

  /** A body whose `\S` is the tag's `<`, by its parts: text up to the tag, the rest of its content, what follows. */
  lemma {:induction false} StepContent(b: string) returns (x: string, d: string, y: string)
    requires TrailingBody(b).Some?
    requires !(PlainBody(b).Some? && HasInk(PlainBody(b).value.content))
    ensures TrailingBody(b).value.content == x + ("<" + d) && b == x + ("<" + (d + y)) && y != "" && y[0] == '<'
    ensures |x| == FirstTag(b) && TagStart("<" + (d + y)) && FirstTag(d) == |d| && FirstTag(d + "</p>") == |d|
    ensures OneLine(x) && OneLine(d)
  {
    hide Close, Br, PlainBody, FirstTag, HasInk, OneLine, TagStart;
    var j := FirstTag(b);
    var t := b[j + 1..];
    PlainContent(t);
    d := PlainBody(t).value.content;
    x, y := b[..j], t[|d|..];
    InkAtTag(b);
    assert b[j..] == "<" + t && t == d + y;
    assert b[..j + 1 + |d|] == x + ("<" + d);
    assert b == x + b[j..];
  }

  predicate OneTag(c: string, j: nat) {
    j < |c| && FirstTag((c + "</p>")[j + 1..]) == |c| - (j + 1) && TagStart(c[j..] + "</p>")
  }

  /** The content holds at most one tag start, and what follows it is `<`. */
  lemma {:induction false} ContentTags(b: string)
    requires TrailingBody(b).Some?
    ensures var c := TrailingBody(b).value.content;
            var j := FirstTag(c);
            && OneLine(c) && HasInk(c) && FirstTag(c + "</p>") == j
            && |c| < |b| && b == c + b[|c|..] && b[|c|] == '<'
            && (j == |c| ==> PlainBody(b) == TrailingBody(b))
            && (j < |c| ==> OneTag(c, j) && !(PlainBody(b).Some? && HasInk(PlainBody(b).value.content)))
  {
    hide Close, Br, PlainBody, FirstTag, HasInk, OneLine, OneTag;
    var c := TrailingBody(b).value.content;
    var p := PlainBody(b);
    if p.Some? && HasInk(p.value.content) {
      PlainContent(b);
    } else {
      var x, d, y := StepContent(b);
      StepOver(x, d);
      assert b == c + y && b[|c|..] == y;
      FirstTagAngle(c, y);
      FirstTagAngle(c, "</p>");
      OneTagIs(x, d, y);
    }
  }

  lemma {:induction false} OneTagIs(x: string, d: string, y: string)
    requires TagStart("<" + (d + y)) && y != "" && y[0] == '<' && FirstTag(d + "</p>") == |d|
    ensures OneTag(x + ("<" + d), |x|)
  {
    hide FirstTag, TagStart;
    var c := x + ("<" + d);
    assert (c + "</p>")[|x| + 1..] == d + "</p>";
    assert c[|x|..] == "<" + d;
    assert "<" + (d + y) == ("<" + d) + y;
    TagHead("<" + d, y, "</p>");
  }

  lemma {:induction false} StepOver(x: string, d: string)
    requires OneLine(x) && OneLine(d)
    ensures OneLine(x + ("<" + d)) && HasInk(x + ("<" + d))
  {
    NotSpace();
    assert (x + ("<" + d))[|x|] == '<';
  }

  lemma {:induction false} TagHead(u: string, p: string, q: string)
    requires u != "" && p != "" && p[0] == '<' && q != "" && q[0] == '<'
    ensures TagStart(u + p) == TagStart(u + q)
  {
  }

  lemma {:induction false} EndBrLater(x: string, y: string)
    requires EndBr(y).Some?
    ensures EndBr(x + y) == Some(|x| + EndBr(y).value)
  {
    hide Br, IsBr, AllSpace;
    EndBrIs(y);
    var i := EndBr(y).value;
    var t := y[i..];
    var br, sp := t[..Br(t)], t[Br(t)..];
    BrAlone(t);
    SpacesAll(sp);
    EndBrFound(x + y[..i], br, sp);
    assert x + y == (x + y[..i]) + (br + sp);
  }

  lemma {:induction false} SpacesAll(sp: string)
    ensures AllSpace(sp) <==> Spaces(sp) == |sp|
  {
  }

  lemma {:induction false} EndBrSuffix(c: string, k: nat)
    requires EndBr(c).Some? && k <= EndBr(c).value
    ensures EndBr(c[k..]).Some?
  {
    if k == 0 {
      assert c[0..] == c;
    } else {
      EndBrSuffix(c[1..], k - 1);
      assert c[1..][k - 1..] == c[k..];
    }
  }

  /** A break at the end lies behind every tag start. */
  lemma {:induction false} EndBrPastTag(c: string, j: nat)
    requires j < |c| && TagStart(c[j..] + "</p>")
    ensures EndBr(c).Some? <==> EndBr(c[j + 1..]).Some?
  {
    hide Br, IsSpace;
    if EndBr(c[j + 1..]).Some? {
      EndBrLater(c[..j + 1], c[j + 1..]);
      assert c == c[..j + 1] + c[j + 1..];
    }
    if EndBr(c).Some? {
      var i := EndBr(c).value;
      EndBrIs(c);
      var y := c[i..];
      BrShape(y);
      assert c[j] == '<' by { assert (c[j..] + "</p>")[0] == c[j]; }
      TagIsNoBr(c, j);
      if i <= j && j - i >= Br(y) { NotInSpaces(y, Br(y), j - i); }
      EndBrSuffix(c, j + 1);
    }
  }

  lemma {:induction false} NotInSpaces(y: string, m: nat, i: nat)
    requires m <= |y| && Spaces(y[m..]) == |y| - m && m <= i < |y|
    ensures y[i] != '<'
  {
    SpacesAre(y[m..]);
    NotSpace();
    assert y[m..][i - m] == y[i];
  }

  lemma {:induction false} TagIsNoBr(c: string, j: nat)
    requires j < |c| && TagStart(c[j..] + "</p>")
    ensures Br(c[j..]) == 0
  {
    var t := c[j..];
    assert |t| >= 3 ==> (t + "</p>")[1] == t[1];
  }

  // ---- what is left of a split paragraph ---------------------------------------------------

  lemma {:induction false} SpacesExact(x: string, k: nat)
    requires k <= |x| && (forall i :: 0 <= i < k ==> IsSpace(x[i]))
    requires k < |x| ==> !IsSpace(x[k])
    ensures Spaces(x) == k
  {
    if k > 0 { SpacesExact(x[1..], k - 1); }
  }

  lemma {:induction false} CloseEndsBlank(w: string, n: nat)
    requires Close(w[Spaces(w)..])
    ensures BlankBody(w, n) > 0
  {
  }

  lemma {:induction false} BreakThenClose(y: string)
    requires Br(y) > 0 && Spaces(y[Br(y)..]) == |y| - Br(y)
    ensures Br(y + "</p>") == Br(y) && BlankBody((y + "</p>")[Br(y)..], 2) > 0
  {
    hide IsSpace, Br, Spaces, BlankBody;
    EmptyMatches();
    BrSplit(y, "</p>");
    var z := y[Br(y)..];
    assert (y + "</p>")[Br(y)..] == z + "</p>";
    NotSpace();
    SpacesSplit(z, "</p>");
    assert (z + "</p>")[|z|..] == "</p>";
    CloseEndsBlank(z + "</p>", 2);
  }

  /** Only spaces, one break and spaces: an empty paragraph. */
  lemma {:induction false} LoneBreak(c: string)
    requires EndBr(c).Some? && !HasInk(c[..EndBr(c).value])
    ensures BlankBody(c + "</p>", 3) > 0
  {
    hide IsSpace, EndBr, Br;
    EndBrIs(c);
    var i := EndBr(c).value;
    var y := c[i..];
    BrShape(y);
    var x := c + "</p>";
    forall k | 0 <= k < i ensures IsSpace(x[k]) { assert x[k] == c[..i][k]; }
    assert x[i] == y[0] == '<';
    NotSpace();
    SpacesExact(x, i);
    assert x[i..] == y + "</p>";
    BreakThenClose(y);
  }

  /** When the second expression matches what is left of a match. */
  lemma {:induction false} LeftMatchesIff(b: string)
    requires TrailingBody(b).Some?
    ensures var c := TrailingBody(b).value.content;
            TrailingBody(c + "</p>").Some? <==>
            EndBr(c).Some? && (FirstTag(c) == |c| ==> HasInk(c[..EndBr(c).value]))
  {
    hide Br, PlainBody, HasInk, OneLine, TagStart, Close, EndBr, FirstTag;
    var c := TrailingBody(b).value.content;
    var t := c + "</p>";
    var j := FirstTag(c);
    ContentTags(b);
    CloseTag();
    assert t[|c|..] == "</p>" && t[..|c|] == c;
    if j == |c| {
      PlainAtEnd(c);
      assert t[j + 1..] == "/p>";
    } else {
      PlainBeforeAngle(c, "</p>", b[|c|..]);
      var d := c[j + 1..];
      assert t[j + 1..] == d + "</p>";
      assert FirstTag(d + "</p>") == |d|;
      FirstTagAngle(d, "</p>");
      OneLineSuffix(c, j);
      PlainAtEnd(d);
      EndBrPastTag(c, j);
      assert t[..j] == c[..j];
    }
  }

  lemma {:induction false} OneLineSuffix(c: string, j: nat)
    requires j < |c| && OneLine(c)
    ensures OneLine(c[j + 1..]) && OneLine(c[..j])
  {
  }

  /** A text without tags before a close. */
  lemma {:induction false} PlainAtEnd(c: string)
    requires FirstTag(c) == |c| && OneLine(c)
    ensures PlainBody(c + "</p>") == if EndBr(c).None? then None else Some(Body(|c| + 4, c[..EndBr(c).value]))
  {
    hide Br, TagStart, EndBr;
    var t := c + "</p>";
    FirstTagAngle(c, "</p>");
    CloseTag();
    assert t[|c|..] == "</p>" && t[..|c|] == c;
    if EndBr(c).Some? {
      var i := EndBr(c).value;
      assert t[..i] == c[..i] && OneLine(c[..i]);
    }
  }

  /** Where an opening tag starts inside what is left: in its own attributes, or at the content's one tag. */
  lemma {:induction false} InnerStart(s: string, i: nat)
    requires Trailing(s) > 0 && i < |Residue(s)| && OpenTag(Residue(s)[i..]) > 0
    ensures var c, k := Content(s), OpenTag(s);
            (i < k && OpenTag(Residue(s)[i..]) == k - i) || (FirstTag(c) < |c| && i == k + FirstTag(c))
  {
    hide FirstTag, Residue, TrailingBody;
    var m, c, k := Residue(s), Content(s), OpenTag(s);
    ResidueOpens(s);
    if i == 0 {
      assert m[0..] == m;
    } else if i < k {
      AttributeInterior(m, i);
    } else {
      ContentTags(s[k..]);
      assert m[i..] == (c + "</p>")[i - k..];
      InnerTag(c, i - k);
    }
  }

  lemma {:induction false} InnerTag(c: string, i: nat)
    requires var j := FirstTag(c);
             FirstTag(c + "</p>") == j && (j < |c| ==> FirstTag((c + "</p>")[j + 1..]) == |c| - (j + 1))
    requires i < |c| + 4 && OpenStart((c + "</p>")[i..])
    ensures i == FirstTag(c) < |c|
  {
    hide FirstTag;
    var t, j := c + "</p>", FirstTag(c);
    forall x | 0 <= x < j ensures !TagStart(t[x..]) { FirstTagIs(t, x); }
    forall x | j < x < |c| ensures !TagStart(t[x..]) {
      FirstTagIs(t[j + 1..], x - (j + 1));
      assert t[j + 1..][x - (j + 1)..] == t[x..];
    }
    forall x | |c| <= x < |t| ensures !OpenStart(t[x..]) {
      assert t[x..] == "</p>"[x - |c|..];
    }
  }

  lemma {:induction false} SpacesPrefix(x: string, y: string)
    requires Spaces(x + y) < |x| || Spaces(x) < |x|
    ensures Spaces(x + y) == Spaces(x)
  {
    if x != "" && IsSpace(x[0]) {
      assert (x + y)[1..] == x[1..] + y;
      SpacesPrefix(x[1..], y);
    }
  }

  lemma {:induction false} BrPrefix(x: string, y: string)
    requires 0 < Br(x + y) <= |x| || Br(x) > 0
    ensures Br(x + y) == Br(x)
  {
    var s := if Br(x) > 0 then x else x + y;
    BrShape(s);
    var h := s[..Br(s)];
    assert h == x[..Br(s)];
    assert h + s[Br(s)..] == s;
    BrBeforeGt(h, s[Br(s)..]);
    assert h + x[Br(s)..] == x;
    BrBeforeGt(h, x[Br(s)..]);
    assert h + (x + y)[Br(s)..] == x + y;
    BrBeforeGt(h, (x + y)[Br(s)..]);
  }

  lemma {:induction false} BlankBodyLong(s: string, n: nat)
    requires BlankBody(s, n) > 0
    ensures BlankBody(s, n) >= Spaces(s) + 4
    ensures !Close(s[Spaces(s)..]) ==>
              var t := s[Spaces(s)..];
              n > 0 && Br(t) > 0 && BlankBody(t[Br(t)..], n - 1) >= 4 &&
              BlankBody(s, n) == Spaces(s) + Br(t) + BlankBody(t[Br(t)..], n - 1)
  {
    BlankBodyQuiet(s, n);
    var t := s[Spaces(s)..];
    if !Close(t) { BlankBodyQuiet(t[Br(t)..], n - 1); }
  }

  /** Whether a body is empty up to its close does not depend on what comes later. */
  lemma {:induction false} BlankBodyShort(x: string, y: string, n: nat)
    requires 0 < BlankBody(x + y, n) <= |x|
    ensures BlankBody(x, n) > 0
    decreases n
  {
    hide Br, Spaces, Close;
    var s := x + y;
    BlankBodyLong(s, n);
    SpacesPrefix(x, y);
    var t := x[Spaces(x)..];
    assert s[Spaces(x)..] == t + y;
    if Close(t + y) {
      ClosePrefix(t, y);
    } else {
      var m := Br(t + y);
      BrPrefix(t, y);
      assert (t + y)[m..] == t[m..] + y;
      BlankBodyShort(t[m..], y, n - 1);
      BlankBodyOf(x, n);
    }
  }

  lemma {:induction false} BlankBodyOf(x: string, n: nat)
    requires n > 0 && var t := x[Spaces(x)..]; Br(t) > 0 && BlankBody(t[Br(t)..], n - 1) > 0
    ensures BlankBody(x, n) > 0
  {
  }

  lemma {:induction false} BlankBodyLonger(x: string, y: string, n: nat)
    requires BlankBody(x, n) > 0
    ensures BlankBody(x + y, n) > 0
    decreases n
  {
    hide Br, Spaces, Close;
    var s := x + y;
    BlankBodyLong(x, n);
    SpacesPrefix(x, y);
    var t := x[Spaces(x)..];
    assert s[Spaces(x)..] == t + y;
    if Close(t) {
      ClosePrefix(t, y);
      CloseEndsBlank(s, n);
    } else {
      var m := Br(t);
      BrPrefix(t, y);
      assert (t + y)[m..] == t[m..] + y;
      BlankBodyLonger(t[m..], y, n - 1);
      BlankBodyOf(s, n);
    }
  }

  lemma {:induction false} ClosePrefix(t: string, y: string)
    ensures Close(t) ==> Close(t + y)
    ensures |t| >= 4 ==> Close(t + y) == Close(t)
  {
  }
}

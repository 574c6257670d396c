/** The expressions read as ways to take a string apart: what the functions of HtmlPatterns accept, both ways. */
module HtmlReading {
  import opened Prelude
  import opened HtmlPatterns

  // ---- the atoms, spelled out ----------------------------------------------------------

  /** `\s`, the white space and line terminators of section 12 of ECMA-262. */
  lemma {:induction false} SpaceIs(c: char)
    ensures IsSpace(c) <==>
            c in ['\t', '\n', '\U{0B}', '\U{0C}', '\r', ' ', '\U{A0}', '\U{1680}', '\U{2000}', '\U{2001}', '\U{2002}',
                  '\U{2003}', '\U{2004}', '\U{2005}', '\U{2006}', '\U{2007}', '\U{2008}', '\U{2009}', '\U{200A}',
                  '\U{2028}', '\U{2029}', '\U{202F}', '\U{205F}', '\U{3000}', '\U{FEFF}']
    ensures IsLineEnd(c) <==> c in ['\n', '\r', '\U{2028}', '\U{2029}']
  {
  }

  /** `\w` */
  lemma {:induction false} WordIs(c: char)
    ensures IsWord(c) <==>
            c in "abcdefghijklmnopqrstuvwxyz" || c in "ABCDEFGHIJKLMNOPQRSTUVWXYZ" || c in "0123456789" || c == '_'
  {
    LowerIs(c);
    UpperIs(c);
    DigitIs(c);
  }

  lemma {:induction false} LowerIs(c: char)
    ensures c in "abcdefghijklmnopqrstuvwxyz" <==> 'a' <= c <= 'z'
  {
    var all := "abcdefghijklmnopqrstuvwxyz";
    forall i | 0 <= i < 26 ensures all[i] == ('a' as int + i) as char {}
    if 'a' <= c <= 'z' { assert all[c as int - 'a' as int] == c; }
  }

  lemma {:induction false} UpperIs(c: char)
    ensures c in "ABCDEFGHIJKLMNOPQRSTUVWXYZ" <==> 'A' <= c <= 'Z'
  {
    var all := "ABCDEFGHIJKLMNOPQRSTUVWXYZ";
    forall i | 0 <= i < 26 ensures all[i] == ('A' as int + i) as char {}
    if 'A' <= c <= 'Z' { assert all[c as int - 'A' as int] == c; }
  }

  lemma {:induction false} DigitIs(c: char)
    ensures c in "0123456789" <==> '0' <= c <= '9'
  {
  }

  /** `<p\b`, `<\/?p\b` and `<\/p>`, in either case. */
  lemma {:induction false} TagsAre(s: string)
    ensures OpenStart(s) <==> ("<p" <= s || "<P" <= s) && (|s| > 2 ==> !IsWord(s[2]))
    ensures TagStart(s) <==> OpenStart(s) || (("</p" <= s || "</P" <= s) && (|s| > 3 ==> !IsWord(s[3])))
    ensures Close(s) <==> "</p>" <= s || "</P>" <= s
  {
  }

  lemma {:induction false} AllSpaceIff(s: string)
    ensures AllSpace(s) <==> forall i :: 0 <= i < |s| ==> IsSpace(s[i])
  {
    hide IsSpace;
    SpacesAre(s);
  }

  /** The text `<br\s*\/?>`, in either case, by its letters, spaces and slash. */
  predicate BreakText(b: char, r: char, sp: string, slash: bool, s: string) {
    && (b == 'b' || b == 'B') && (r == 'r' || r == 'R') && AllSpace(sp)
    && s == "<" + [b] + [r] + sp + (if slash then "/>" else ">")
  }

  lemma {:induction false} BreakIff(s: string)
    ensures IsBr(s) <==> exists b, r, sp, slash :: BreakText(b, r, sp, slash, s)
  {
    hide IsBr, BreakText;
    forall b, r, sp, slash | BreakText(b, r, sp, slash, s) ensures IsBr(s) { BreakFound(b, r, sp, slash, s); }
    if IsBr(s) { var b, r, sp, slash := BreakParts(s); }
  }

  lemma {:induction false} BreakFound(b: char, r: char, sp: string, slash: bool, s: string)
    requires BreakText(b, r, sp, slash, s)
    ensures IsBr(s)
  {
    hide IsSpace, Spaces;
    NotSpaceSigns();
    var tail := if slash then "/>" else ">";
    assert s[3..] == sp + tail;
    SpacesSplit(sp, tail);
    assert s[3 + |sp|..] == tail && s[3 + |sp|] == tail[0];
  }

  lemma {:induction false} BreakParts(s: string) returns (b: char, r: char, sp: string, slash: bool)
    requires IsBr(s)
    ensures BreakText(b, r, sp, slash, s)
  {
    hide IsSpace, Spaces;
    var k := 3 + Spaces(s[3..]);
    SpacesHead(s[3..]);
    b, r, sp, slash := s[1], s[2], s[3..k], s[k] == '/';
    assert sp == s[3..][..Spaces(s[3..])];
    assert s[k..] == if slash then "/>" else ">";
    assert s == "<" + [b] + [r] + sp + s[k..];
  }

  lemma {:induction false} NotSpaceSigns()
    ensures !IsSpace('/') && !IsSpace('>')
  {
  }

  /** The text of `\b[^>]*>`: what follows the letter of an opening tag. */
  lemma {:induction false} TagRestIff(a: string)
    ensures IsTagRest(a) <==>
            a != "" && !IsWord(a[0]) && a[|a| - 1] == '>' && forall i :: 0 <= i < |a| - 1 ==> a[i] != '>'
  {
    hide IsWord;
    GtIs(a);
  }

  /** The text of `\b[^>]*>` */
  predicate IsTagRest(a: string) { a != "" && !IsWord(a[0]) && Gt(a) == |a| - 1 }

  lemma {:induction false} TagFound(q: char, a: string, b: string)
    requires IsP(q) && IsTagRest(a)
    ensures var s := "<" + [q] + a + b; OpenTag(s) == 2 + |a| && s[OpenTag(s)..] == b
  {
    var s := "<" + [q] + a + b;
    assert s[2..] == a + b;
    GtSplit(a, b);
  }

  lemma {:induction false} TagShape(s: string) returns (q: char, a: string)
    requires OpenTag(s) > 0
    ensures IsP(q) && IsTagRest(a) && s[..OpenTag(s)] == "<" + [q] + a
  {
    hide OpenTag;
    var k := OpenTag(s);
    OpenTagIs(s);
    q, a := s[1], s[2..k];
    GtIs(a);
    assert a[0] == s[2] && a[|a| - 1] == '>';
    assert Gt(a) == |a| - 1;
    assert s[..k] == "<" + [q] + a;
  }

  // ---- the first and third expression -----------------------------------------------

  /** The text `\s*(?:<br\s*\/?>\s*)*` given by its spaces and breaks. */
  function BreakRun(sp: string, brs: seq<(string, string)>): string
    decreases |brs|
  {
    if brs == [] then sp else sp + (brs[0].0 + BreakRun(brs[0].1, brs[1..]))
  }

  predicate Breaking(brs: seq<(string, string)>) { forall p :: p in brs ==> IsBr(p.0) && AllSpace(p.1) }

  lemma {:induction false} BlankBodyFound(sp: string, brs: seq<(string, string)>, z: string, n: nat)
    requires AllSpace(sp) && Breaking(brs) && Close(z) && |brs| <= n
    ensures BlankBody(BreakRun(sp, brs) + z, n) == |BreakRun(sp, brs)| + 4
    decreases |brs|
  {
    hide Br, Spaces, IsSpace;
    var s := BreakRun(sp, brs) + z;
    NotSpace();
    if brs == [] {
      SpacesThen(sp, z);
    } else {
      var br, r := brs[0].0, BreakRun(brs[0].1, brs[1..]) + z;
      assert brs[0] in brs;
      assert s == sp + (br + r);
      BrFound(br, r);
      BrShape(br + r);
      SpacesThen(sp, br + r);
      BlankBodyFound(brs[0].1, brs[1..], z, n - 1);
      BrNotClose(br + r);
    }
  }

  /** However the first expression could match at the head, the model matches there, and as much. */
  lemma {:induction false} BlankFound(q: char, a: string, sp: string, brs: seq<(string, string)>, z: string)
    requires IsP(q) && IsTagRest(a) && AllSpace(sp) && Breaking(brs) && Close(z) && |brs| <= 3
    ensures Blank("<" + [q] + a + (BreakRun(sp, brs) + z)) == 2 + |a| + |BreakRun(sp, brs)| + 4
  {
    hide AllSpace, Breaking, OpenTag, BlankBody, BreakRun;
    TagFound(q, a, BreakRun(sp, brs) + z);
    BlankBodyFound(sp, brs, z, 3);
  }

  lemma {:induction false} SpacesHead(s: string)
    ensures AllSpace(s[..Spaces(s)])
  {
    if s != "" && IsSpace(s[0]) {
      SpacesHead(s[1..]);
      assert s[..Spaces(s)][1..] == s[1..][..Spaces(s[1..])];
    }
  }

  lemma {:induction false} BrAlone(y: string)
    requires Br(y) > 0
    ensures IsBr(y[..Br(y)])
  {
    hide Br;
    BrShape(y);
    var br := y[..Br(y)];
    assert br + y[Br(y)..] == y;
    BrBeforeGt(br, y[Br(y)..]);
  }

  lemma {:induction false} BlankBodyRead(b: string, n: nat) returns (sp: string, brs: seq<(string, string)>, z: string)
    requires BlankBody(b, n) > 0
    ensures AllSpace(sp) && Breaking(brs) && |brs| <= n && Close(z) && |z| == 4
    ensures b[..BlankBody(b, n)] == BreakRun(sp, brs) + z
    decreases n
  {
    hide Br, Spaces, IsBr, AllSpace;
    var t := b[Spaces(b)..];
    sp, brs := b[..Spaces(b)], [];
    SpacesHead(b);
    if Close(t) {
      z := t[..4];
      assert b[..BlankBody(b, n)] == sp + z;
    } else {
      var m := Br(t);
      var sp', brs';
      sp', brs', z := BlankBodyRead(t[m..], n - 1);
      brs := [(t[..m], sp')] + brs';
      BrAlone(t);
      assert brs[1..] == brs';
      assert b[..BlankBody(b, n)] == sp + (t[..m] + t[m..][..BlankBody(t[m..], n - 1)]);
    }
  }

  /** And where the model matches, the first expression does: the parts are there. */
  lemma {:induction false} BlankShape(s: string)
    returns (q: char, a: string, sp: string, brs: seq<(string, string)>, z: string)
    requires Blank(s) > 0
    ensures IsP(q) && IsTagRest(a) && AllSpace(sp) && Breaking(brs) && |brs| <= 3 && Close(z) && |z| == 4
    ensures s[..Blank(s)] == "<" + [q] + a + (BreakRun(sp, brs) + z)
  {
    hide OpenTag, BlankBody, BreakRun, Close;
    var k := OpenTag(s);
    q, a := TagShape(s);
    sp, brs, z := BlankBodyRead(s[k..], 3);
    assert s[..Blank(s)] == s[..k] + s[k..][..BlankBody(s[k..], 3)];
  }

  // ---- the second expression ---------------------------------------------------------

  /** `n` characters of `b` are content without a tag start up to `e`, a break, spaces and the close. */
  predicate PlainWay(b: string, e: nat, n: nat) {
    && e + 4 < n <= |b| && NoTags(b, e) && OneLine(b[..e])
    && Br(b[e..]) > 0 && e + Br(b[e..]) <= n - 4 && AllSpace(b[e + Br(b[e..])..n - 4]) && Close(b[n - 4..])
  }

  /**
   * After the opening tag: the lookahead guards the characters before `\S` and after it, but not `\S` itself, at `a`;
   * the break is at `e` and the match is `n` long.
   */
  predicate Way(b: string, a: nat, e: nat, n: nat) {
    && a < e && a < n && a < |b| && NoTags(b, a) && OneLine(b[..a]) && !IsSpace(b[a])
    && PlainWay(b[a + 1..], e - (a + 1), n - (a + 1))
  }

  lemma {:induction false} FirstTagFound(c: string, br: string, sp: string, z: string)
    requires IsBr(br) && AllSpace(sp) && Close(z) && NoTags(c + (br + sp + z), |c|)
    ensures FirstTag(c + (br + sp + z)) == |c| + |br| + |sp|
  {
    hide Br, Spaces, IsSpace;
    var y := sp + z;
    var x := br + y;
    NotSpace();
    SpacesThen(sp, z);
    BrFound(br, y);
    BrShape(x);
    assert NoTags(y, |sp|) by { SpacesAre(y); TagsAreNotSpaces(y); }
    NoTagsAppend(x, |br|, |sp|);
    var b := c + x;
    assert br + sp + z == x && b[|c|..] == x;
    NoTagsAppend(b, |c|, |br| + |sp|);
    SkipTo(b, |c| + |br| + |sp|);
    assert b[|c| + |br| + |sp|..] == z;
    assert TagStart(z);
  }

  lemma {:induction false} PlainFound(c: string, br: string, sp: string, z: string)
    requires IsBr(br) && AllSpace(sp) && Close(z) && NoTags(c + (br + sp + z), |c|) && OneLine(c)
    ensures PlainBody(c + (br + sp + z)) == Some(Body(|c| + |br| + |sp| + 4, c))
  {
    hide IsBr, AllSpace, FirstTag, EndBr, NoTags, OneLine, Close;
    var b := c + (br + sp + z);
    FirstTagFound(c, br, sp, z);
    EndBrFound(c, br, sp);
    var j := |c| + |br| + |sp|;
    assert b[..j] == c + (br + sp) && b[j..] == z && b[..|c|] == c;
  }

  /** The parts of a plain match. */
  lemma {:induction false} PlainParts(b: string) returns (br: string, sp: string, z: string)
    requires PlainBody(b).Some?
    ensures var m := PlainBody(b).value;
            && b[..m.len] == m.content + (br + sp + z) && IsBr(br) && AllSpace(sp) && Close(z) && |z| == 4
            && OneLine(m.content) && m.content == b[..|m.content|] && NoTags(b, |m.content|)
            && Br(b[|m.content|..]) == |br| && Close(b[m.len - 4..])
  {
    hide FirstTag, EndBr, Close, OneLine, Br;
    var j := FirstTag(b);
    var x := b[..j];
    EndBrIs(x);
    var i := EndBr(x).value;
    var y := x[i..];
    br, sp, z := y[..Br(y)], y[Br(y)..], b[j..j + 4];
    BrAlone(y);
    forall k | 0 <= k < i ensures !TagStart(b[k..]) { FirstTagIs(b, k); }
    assert b[j..][..4] == z;
    CloseHead(b[j..]);
    assert b[..j + 4] == b[..i] + (br + sp + z);
    assert b[i..] == br + (sp + b[j..]);
    BrFound(br, sp + b[j..]);
  }

  lemma {:induction false} CloseHead(t: string)
    requires |t| >= 4
    ensures Close(t[..4]) == Close(t)
  {
  }

  /** The plain body is the only plain way. */
  lemma {:induction false} PlainIff(b: string, e: nat, n: nat)
    requires e <= |b|
    ensures PlainWay(b, e, n) <==> PlainBody(b) == Some(Body(n, b[..e]))
  {
    hide PlainBody, Br, Close, NoTags, OneLine;
    if PlainWay(b, e, n) {
      var t := b[e..];
      var br, sp, z := t[..Br(t)], b[e + Br(t)..n - 4], b[n - 4..];
      BrAlone(t);
      assert b == b[..e] + (br + sp + z);
      PlainFound(b[..e], br, sp, z);
    }
    if PlainBody(b) == Some(Body(n, b[..e])) {
      var br, sp, z := PlainParts(b);
      assert b[..n] == b[..e] + (br + sp + z);
      assert b[e + |br|..n - 4] == sp by { assert b[..n][e + |br|..n - 4] == sp; }
    }
  }

  lemma {:induction false} FirstInk(c: string) returns (a: nat)
    requires HasInk(c)
    ensures a < |c| && !IsSpace(c[a]) && forall i :: 0 <= i < a ==> IsSpace(c[i])
  {
    if IsSpace(c[0]) {
      assert HasInk(c[1..]) by { var i :| 0 <= i < |c| && !IsSpace(c[i]); assert c[1..][i - 1] == c[i]; }
      a := FirstInk(c[1..]);
      a := a + 1;
      assert forall i :: 0 < i < |c| ==> c[i] == c[1..][i - 1];
    } else {
      a := 0;
    }
  }

  /** A plain body continues behind each of its content's characters. */
  lemma {:induction false} PlainTail(b: string, e: nat, n: nat, a: nat)
    requires a < e <= |b|
    ensures PlainWay(b, e, n) <==>
            NoTags(b, a + 1) && OneLine(b[..a + 1]) && a + 1 <= n && PlainWay(b[a + 1..], e - (a + 1), n - (a + 1))
  {
    hide Br, Close, AllSpace, TagStart, IsLineEnd;
    var t := b[a + 1..];
    assert e + 4 < n <= |b| ==> t[e - (a + 1)..] == b[e..] && t[n - 4 - (a + 1)..] == b[n - 4..];
    if e <= |b| {
      assert forall i :: 0 <= i <= |t| ==> t[i..] == b[a + 1 + i..];
      assert forall i :: a + 1 <= i < e ==> b[i..] == t[i - (a + 1)..];
      assert t[..e - (a + 1)] == b[a + 1..e];
      assert b[..e] == b[..a + 1] + b[a + 1..e];
    }
    var m := Br(b[e..]);
    if e + m <= n - 4 && n <= |b| {
      assert t[e - (a + 1) + m..n - (a + 1) - 4] == b[e + m..n - 4];
    }
  }

  /** What the model finds is a way the expression can match. */
  lemma {:induction false} TrailingShape(b: string) returns (a: nat)
    requires TrailingBody(b).Some?
    ensures var m := TrailingBody(b).value; Way(b, a, |m.content|, m.len) && m.content == b[..|m.content|]
    ensures var p := PlainBody(b);
            if p.Some? && HasInk(p.value.content)
            then TrailingBody(b) == p && a < |p.value.content| && forall i :: 0 <= i < a ==> IsSpace(b[i])
            else a == FirstTag(b)
  {
    hide PlainBody, FirstTag, Way, HasInk, IsSpace;
    var p := PlainBody(b);
    if p.Some? && HasInk(p.value.content) { a := InkShape(b); } else { a := StepOverShape(b); }
  }

  lemma {:induction false} InkShape(b: string) returns (a: nat)
    requires PlainBody(b).Some? && HasInk(PlainBody(b).value.content)
    ensures var m := PlainBody(b).value;
            && Way(b, a, |m.content|, m.len) && m.content == b[..|m.content|]
            && a < |m.content| && forall i :: 0 <= i < a ==> IsSpace(b[i])
  {
    hide PlainBody, FirstTag, PlainWay, NoTags, HasInk, IsSpace;
    var c, n := PlainBody(b).value.content, PlainBody(b).value.len;
    var br, sp, z := PlainParts(b);
    a := FirstInk(c);
    PlainIff(b, |c|, n);
    PlainTail(b, |c|, n, a);
    LessTags(b, a);
    assert b[..a] == b[..a + 1][..a];
    assert c[a] == b[a];
  }

  lemma {:induction false} SteppedOver(b: string)
    requires TrailingBody(b).Some? && !(PlainBody(b).Some? && HasInk(PlainBody(b).value.content))
    ensures var a := FirstTag(b);
            a < |b| && OneLine(b[..a]) && PlainBody(b[a + 1..]).Some? &&
            var n := PlainBody(b[a + 1..]).value;
            TrailingBody(b) == Some(Body(a + 1 + n.len, b[..a + 1 + |n.content|]))
  {
  }

  lemma {:induction false} StepOverShape(b: string) returns (a: nat)
    requires TrailingBody(b).Some? && !(PlainBody(b).Some? && HasInk(PlainBody(b).value.content))
    ensures var m := TrailingBody(b).value; Way(b, a, |m.content|, m.len) && m.content == b[..|m.content|]
    ensures a == FirstTag(b)
  {
    hide *;
    SteppedOver(b);
    a := FirstTag(b);
    var t := b[a + 1..];
    var n := PlainBody(t).value;
    PlainShape(t);
    FirstTagQuiet(b, a);
    InkAtTag(b);
    WayFrom(b, a, |n.content|, n.len);
  }

  lemma {:induction false} PlainShape(t: string)
    requires PlainBody(t).Some?
    ensures var n := PlainBody(t).value; |n.content| <= |t| && PlainWay(t, |n.content|, n.len)
  {
    hide PlainBody, PlainWay, NoTags, OneLine;
    var br, sp, z := PlainParts(t);
    PlainIff(t, |PlainBody(t).value.content|, PlainBody(t).value.len);
  }

  lemma {:induction false} WayFrom(b: string, a: nat, e: nat, n: nat)
    requires a < |b| && NoTags(b, a) && OneLine(b[..a]) && !IsSpace(b[a]) && PlainWay(b[a + 1..], e, n)
    ensures Way(b, a, a + 1 + e, a + 1 + n)
  {
    hide PlainWay, NoTags, OneLine, IsSpace;
  }

  /** The replacement keeps the attributes and the content, lowers the tag's letter and drops the break and its spaces. */
  lemma {:induction false} ReplacementIs(s: string) returns (q: char, a: string)
    requires Trailing(s) > 0
    ensures IsP(q) && IsTagRest(a) && s[..OpenTag(s)] == "<" + [q] + a
    ensures Residue(s) == "<p" + a + Content(s) + "</p>"
    ensures var k := OpenTag(s) + |Content(s)|; k < |s| && Content(s) == s[OpenTag(s)..k] && Br(s[k..]) > 0
  {
    hide OpenTag, TrailingBody, Br, IsTagRest;
    q, a := TagShape(s);
    OpenTagIs(s);
    assert s[2..OpenTag(s)] == a;
    var b := s[OpenTag(s)..];
    var at := TrailingShape(b);
    var e := |Content(s)|;
    assert b[at + 1..][e - (at + 1)..] == b[e..] == s[OpenTag(s) + e..];
  }

  lemma {:induction false} LessTags(b: string, a: nat)
    requires a < |b| && NoTags(b, a + 1)
    ensures NoTags(b, a)
  {
  }

  lemma {:induction false} FirstTagQuiet(b: string, k: nat)
    requires k <= FirstTag(b)
    ensures NoTags(b, k)
  {
    forall i | 0 <= i < k ensures !TagStart(b[i..]) { FirstTagIs(b, i); }
  }

  lemma {:induction false} InkAtTag(b: string)
    ensures FirstTag(b) < |b| ==> TagStart(b[FirstTag(b)..]) && b[FirstTag(b)] == '<' && !IsSpace(b[FirstTag(b)])
  {
    if b != "" && !TagStart(b) {
      InkAtTag(b[1..]);
      assert b[1..][FirstTag(b[1..])..] == b[FirstTag(b)..];
    } else {
      assert b[0..] == b;
    }
  }

  /**
   * However the second expression could match, the model matches, in the way the lazy quantifiers try first: `\S` as
   * early as possible, and from there only one way is left.
   */
  lemma {:induction false} TrailingFound(b: string, a: nat, e: nat, n: nat)
    requires Way(b, a, e, n)
    ensures TrailingBody(b).Some?
    ensures var m := TrailingBody(b).value;
            exists a0: nat :: Way(b, a0, |m.content|, m.len) && (a0 < a || (a0 == a && |m.content| == e && m.len == n))
  {
    hide PlainBody, FirstTag, PlainWay, NoTags, HasInk, IsSpace, OneLine;
    var t := b[a + 1..];
    PlainInside(t, e - (a + 1), n - (a + 1));
    PlainIff(t, e - (a + 1), n - (a + 1));
    if TagStart(b[a..]) {
      TagAt(b, a);
      var p := PlainBody(b);
      assert TrailingBody(b).Some?;
      var a0 := TrailingShape(b);
      if p.Some? && HasInk(p.value.content) {
        EarlierInk(b, a0, a);
        var br, sp, z := PlainParts(b);
        NotAtTag(b, |p.value.content|, a);
      }
    } else {
      PlainHere(b, a, e, n);
      var a0 := TrailingShape(b);
      EarlierInk(b, a0, a);
      if a0 == a {
        var m := TrailingBody(b).value;
        PlainIff(t, |m.content| - (a + 1), m.len - (a + 1));
      }
    }
  }

  lemma {:induction false} TagAt(b: string, a: nat)
    requires a < |b| && NoTags(b, a) && TagStart(b[a..])
    ensures FirstTag(b) == a
  {
    SkipTo(b, a);
    assert b[a..] != "";
  }

  lemma {:induction false} NotAtTag(b: string, k: nat, a: nat)
    requires k <= |b| && NoTags(b, k) && a < |b| && TagStart(b[a..])
    ensures k <= a
  {
  }

  lemma {:induction false} EarlierInk(b: string, a0: nat, a: nat)
    requires a0 < |b| && a < |b| && (forall i :: 0 <= i < a0 ==> IsSpace(b[i])) && !IsSpace(b[a])
    ensures a0 <= a
  {
  }

  lemma {:induction false} PlainHere(b: string, a: nat, e: nat, n: nat)
    requires Way(b, a, e, n) && !TagStart(b[a..])
    ensures PlainBody(b) == Some(Body(n, b[..e])) && HasInk(b[..e]) && TrailingBody(b) == PlainBody(b)
  {
    hide PlainBody, PlainWay;
    PlainInside(b[a + 1..], e - (a + 1), n - (a + 1));
    PlainTail(b, e, n, a);
    forall i | 0 <= i < a + 1 ensures !TagStart(b[i..]) {}
    assert b[..a + 1] == b[..a] + [b[a]];
    assert !IsLineEnd(b[a]);
    PlainIff(b, e, n);
    assert b[..e][a] == b[a];
  }

  lemma {:induction false} PlainInside(b: string, e: nat, n: nat)
    requires PlainWay(b, e, n)
    ensures e < n <= |b|
  {
  }
}

/** The regular expressions of scripts/migrate_preserve_blank_lines.ts, character by character. */
module HtmlPatterns {
  import opened Prelude

  // ---- character classes -------------------------------------------------

  predicate IsLineEnd(c: char) {
    c == '\n' || c == '\r' || c == '\U{2028}' || c == '\U{2029}'
  }

  predicate IsSpace(c: char) {
    || IsLineEnd(c) || c == ' ' || c == '\t' || c == '\U{0B}' || c == '\U{0C}' || c == '\U{A0}'
    || c == '\U{1680}' || '\U{2000}' <= c <= '\U{200A}' || c == '\U{202F}' || c == '\U{205F}'
    || c == '\U{3000}' || c == '\U{FEFF}'
  }

  predicate IsWord(c: char) {
    'a' <= c <= 'z' || 'A' <= c <= 'Z' || '0' <= c <= '9' || c == '_'
  }

  predicate IsP(c: char) { c == 'p' || c == 'P' }

  // ---- what the expressions accept at the head of a string ----------------

  predicate Boundary(s: string, k: nat) { k >= |s| || !IsWord(s[k]) }

  /** `<p\b` */
  predicate OpenStart(s: string) { |s| >= 2 && s[0] == '<' && IsP(s[1]) && Boundary(s, 2) }

  /** `<\/?p\b`, what the tempered dot refuses to step onto */
  predicate TagStart(s: string) {
    OpenStart(s) || (|s| >= 3 && s[0] == '<' && s[1] == '/' && IsP(s[2]) && Boundary(s, 3))
  }

  predicate Close(s: string) { |s| >= 4 && s[0] == '<' && s[1] == '/' && IsP(s[2]) && s[3] == '>' }

  function Gt(s: string): (k: nat)
    ensures k <= |s|
  {
    if s == "" || s[0] == '>' then 0 else 1 + Gt(s[1..])
  }

  function Spaces(s: string): (k: nat)
    ensures k <= |s|
  {
    if s != "" && IsSpace(s[0]) then 1 + Spaces(s[1..]) else 0
  }

  /** Length of `<p\b[^>]*>` at the head, 0 when there is none. */
  function OpenTag(s: string): (k: nat)
    ensures k <= |s|
    ensures k > 0 ==> k >= 3
  {
    if OpenStart(s) && Gt(s[2..]) < |s| - 2 then Gt(s[2..]) + 3 else 0
  }

  /** Length of `<br\s*\/?>` at the head, 0 when there is none. */
  function Br(s: string): (k: nat)
    ensures k <= |s|
  {
    if |s| >= 3 && s[0] == '<' && (s[1] == 'b' || s[1] == 'B') && (s[2] == 'r' || s[2] == 'R') then
      var k := 3 + Spaces(s[3..]);
      var e := if k < |s| && s[k] == '/' then k + 1 else k;
      if e < |s| && s[e] == '>' then e + 1 else 0
    else 0
  }

  /** Length of `\s*(?:<br\s*\/?>\s*){0,n}<\/p>` at the head, 0 when there is none. */
  function BlankBody(s: string, n: nat): (k: nat)
    ensures k <= |s|
    decreases n
  {
    var sp := Spaces(s);
    var t := s[sp..];
    if Close(t) then sp + 4
    else if n > 0 && Br(t) > 0 && BlankBody(t[Br(t)..], n - 1) > 0 then
      sp + Br(t) + BlankBody(t[Br(t)..], n - 1)
    else 0
  }

  /** The first and third expression: an empty paragraph, or one of at most three breaks. */
  function Blank(s: string): (k: nat)
    ensures k <= |s|
  {
    var k := OpenTag(s);
    if k > 0 && BlankBody(s[k..], 3) > 0 then k + BlankBody(s[k..], 3) else 0
  }

  /** Where the first `<p` or `</p` tag starts, or the length. */
  function FirstTag(s: string): (k: nat)
    ensures k <= |s|
  {
    if s == "" || TagStart(s) then 0 else 1 + FirstTag(s[1..])
  }

  /** Where the break sits that `<br\s*\/?>(\s*)$` would match. */
  function EndBr(s: string): (r: Option<nat>)
    ensures r.Some? ==> r.value < |s|
  {
    if s == "" then None
    else if Br(s) > 0 && Spaces(s[Br(s)..]) == |s| - Br(s) then Some(0)
    else match EndBr(s[1..]) case None => None case Some(i) => Some(i + 1)
  }

  predicate HasInk(s: string) { exists i :: 0 <= i < |s| && !IsSpace(s[i]) }
  predicate OneLine(s: string) { forall i :: 0 <= i < |s| ==> !IsLineEnd(s[i]) }

  predicate AllSpace(s: string) { Spaces(s) == |s| }
  predicate IsBr(s: string) { s != "" && Br(s) == |s| }

  datatype Body = Body(len: nat, content: string)

  /** `((?:(?!<\/?p\b).)*?)<br\s*\/?>(\s*)<\/p>` at the head: content without a tag start, a break, spaces, the close. */
  function PlainBody(b: string): (r: Option<Body>)
    ensures r.Some? ==> 4 <= r.value.len <= |b| && |r.value.content| < r.value.len
  {
    var j := FirstTag(b);
    if !Close(b[j..]) then None else
    match EndBr(b[..j])
    case None => None
    case Some(i) => if OneLine(b[..i]) then Some(Body(j + 4, b[..i])) else None
  }

  /** A stray close: what a match can end with after the one tag start it may step over. */
  predicate Stray(b: string) { PlainBody(b).Some? }

  /**
   * What follows the opening tag in the second expression. Its `\S` is under no lookahead, so it may be the `<` of one
   * tag inside the content; the lazy quantifiers prefer a match without one.
   */
  function TrailingBody(b: string): (r: Option<Body>)
    ensures r.Some? ==> 0 < r.value.len <= |b|
  {
    var m := PlainBody(b);
    var j := FirstTag(b);
    if m.Some? && HasInk(m.value.content) then m
    else if j == |b| || !OneLine(b[..j]) then None
    else match PlainBody(b[j + 1..])
      case None => None
      case Some(n) => Some(Body(j + 1 + n.len, b[..j + 1 + |n.content|]))
  }

  /** The second expression: its length at the head, 0 when there is no match. */
  function Trailing(s: string): (k: nat)
    ensures k <= |s|
  {
    var k := OpenTag(s);
    if k > 0 && TrailingBody(s[k..]).Some? then k + TrailingBody(s[k..]).value.len else 0
  }

  const VE: string := "<p>&nbsp;</p>"

  /** `<p$1>$2</p>` */
  function Residue(s: string): string
    requires Trailing(s) > 0
  {
    "<p" + s[2..OpenTag(s)] + TrailingBody(s[OpenTag(s)..]).value.content + "</p>"
  }

  function Content(s: string): string
    requires Trailing(s) > 0
  {
    TrailingBody(s[OpenTag(s)..]).value.content
  }

  // ---- splitting a string where an opening tag starts -----------------------

  lemma {:induction false} SpacesSplit(u: string, v: string)
    requires v == "" || !IsSpace(v[0])
    ensures Spaces(u + v) == Spaces(u)
  {
    if u == "" { assert u + v == v; } else { assert (u + v)[1..] == u[1..] + v; SpacesSplit(u[1..], v); }
  }

  lemma {:induction false} GtSplit(u: string, v: string)
    ensures Gt(u) < |u| ==> Gt(u + v) == Gt(u)
    ensures Gt(u) == |u| ==> Gt(u + v) == |u| + Gt(v)
  {
    if u == "" { assert u + v == v; } else { assert (u + v)[1..] == u[1..] + v; GtSplit(u[1..], v); }
  }

  lemma {:induction false} BrSplit(u: string, v: string)
    requires u != "" && v != "" && v[0] == '<'
    ensures Br(u + v) == Br(u)
  {
    if |u| >= 3 { assert (u + v)[3..] == u[3..] + v; SpacesSplit(u[3..], v); }
  }

  lemma {:induction false} CloseSplit(u: string, v: string)
    requires OpenStart(v)
    ensures Close(u + v) == Close(u)
  {
  }

  lemma {:induction false} OpenIsNoBreak(v: string)
    requires OpenStart(v)
    ensures Br(v) == 0 && !IsSpace(v[0])
  {
  }

  lemma {:induction false} BlankBodySplit(u: string, v: string, n: nat)
    requires OpenStart(v)
    ensures BlankBody(u + v, n) == BlankBody(u, n)
    decreases n
  {
    hide Spaces, Close, Br, IsSpace;
    OpenIsNoBreak(v);
    SpacesSplit(u, v);
    var sp := Spaces(u);
    var t := u[sp..];
    assert (u + v)[sp..] == t + v;
    CloseSplit(t, v);
    if t == "" {
      assert t + v == v;
    } else {
      BrSplit(t, v);
      if n > 0 && Br(t) > 0 {
        assert (t + v)[Br(t)..] == t[Br(t)..] + v;
        BlankBodySplit(t[Br(t)..], v, n - 1);
      }
    }
  }

  /** The opening tag at the head of `u` is still waiting for its `>`. */
  predicate Dangling(u: string) { OpenStart(u) && Gt(u[2..]) == |u| - 2 }

  lemma {:induction false} OpenTagSplit(u: string, v: string)
    requires u != "" && OpenStart(v)
    ensures OpenStart(u + v) == OpenStart(u)
    ensures !Dangling(u) ==> OpenTag(u + v) == OpenTag(u)
    ensures Dangling(u) ==> OpenTag(u + v) == if OpenTag(v) > 0 then |u| + OpenTag(v) else 0
  {
    if |u| >= 2 {
      assert (u + v)[2..] == u[2..] + v;
      GtSplit(u[2..], v);
      assert v == v[..2] + v[2..];
      GtSplit(v[..2], v[2..]);
      assert Gt(v[..2]) == 2 by { assert v[..2][1..][1..] == ""; }
    }
  }

  /** A `<` after a string neither completes nor breaks a tag start in it. */
  lemma {:induction false} FirstTagAngle(u: string, p: string)
    requires p != "" && p[0] == '<'
    ensures FirstTag(u + p) == if FirstTag(u) < |u| then FirstTag(u) else |u| + FirstTag(p)
  {
    if u == "" {
      assert u + p == p;
    } else {
      assert (u + p)[1..] == u[1..] + p;
      FirstTagAngle(u[1..], p);
      assert TagStart(u + p) == TagStart(u);
    }
  }

  lemma {:induction false} CloseAngle(u: string, p: string)
    requires u != "" && p != "" && p[0] == '<'
    ensures Close(u + p) == Close(u)
  {
  }

  lemma {:induction false} FirstTagSplit(u: string, v: string)
    requires OpenStart(v)
    ensures FirstTag(u + v) == FirstTag(u)
  {
    FirstTagAngle(u, v);
    assert FirstTag(v) == 0;
  }

  lemma {:induction false} PlainBodySplit(u: string, v: string)
    requires OpenStart(v)
    ensures PlainBody(u + v) == PlainBody(u)
  {
    FirstTagSplit(u, v);
    var j := FirstTag(u);
    assert (u + v)[j..] == u[j..] + v;
    CloseSplit(u[j..], v);
    var w := u[..j];
    assert (u + v)[..j] == w;
    if EndBr(w).Some? { assert w[..EndBr(w).value] == u[..EndBr(w).value] == (u + v)[..EndBr(w).value]; }
  }

  /** Two continuations that start with `<` make no difference to a string that already holds a tag start. */
  lemma {:induction false} PlainBeforeAngle(u: string, p: string, q: string)
    requires p != "" && p[0] == '<' && q != "" && q[0] == '<' && FirstTag(u) < |u|
    ensures PlainBody(u + p) == PlainBody(u + q)
  {
    hide FirstTag, EndBr, Close, OneLine;
    FirstTagAngle(u, p);
    FirstTagAngle(u, q);
    var j := FirstTag(u);
    assert (u + p)[j..] == u[j..] + p && (u + q)[j..] == u[j..] + q;
    CloseAngle(u[j..], p);
    CloseAngle(u[j..], q);
    assert (u + p)[..j] == u[..j] == (u + q)[..j];
    if EndBr(u[..j]).Some? {
      var i := EndBr(u[..j]).value;
      assert (u + p)[..i] == u[..i] == (u + q)[..i];
    }
  }

  /** A character that is no `<` and no line end in front changes nothing. */
  lemma {:induction false} PlainStep(c: char, x: string)
    requires c != '<' && !IsLineEnd(c)
    ensures Stray([c] + x) <==> Stray(x)
  {
    hide Br, IsLineEnd;
    var s := [c] + x;
    assert s[1..] == x;
    var j := FirstTag(x);
    assert FirstTag(s) == 1 + j;
    assert s[j + 1..] == x[j..];
    var w := s[..j + 1];
    assert w[1..] == x[..j];
    assert Br(w) == 0 by { NotBr(w); }
    if EndBr(x[..j]).Some? {
      var i := EndBr(x[..j]).value;
      assert s[..i + 1] == [c] + x[..i];
    }
  }

  lemma {:induction false} NotBr(s: string)
    requires s == "" || s[0] != '<'
    ensures Br(s) == 0
  {
  }

  lemma {:induction false} PlainText(h: string, x: string)
    requires '<' !in h && OneLine(h)
    ensures Stray(h + x) <==> Stray(x)
  {
    if h == "" {
      assert h + x == x;
    } else {
      PlainText(h[1..], x);
      PlainStep(h[0], h[1..] + x);
      assert [h[0]] + (h[1..] + x) == h + x;
    }
  }

  /** The head is an opening tag after which no tag starts and no line ends. */
  predicate Waits(u: string) {
    OpenTag(u) > 0 && var b := u[OpenTag(u)..]; FirstTag(b) == |b| && OneLine(b)
  }

  /** Before an opening tag: a match ends before it, or steps over it to a stray close. */
  lemma {:induction false} TrailingBodySplit(u: string, v: string)
    requires OpenStart(v)
    ensures TrailingBody(u + v).Some? <==>
            TrailingBody(u).Some? || (FirstTag(u) == |u| && OneLine(u) && Stray(v[1..]))
  {
    hide PlainBody, HasInk, Stray, FirstTag, OneLine;
    FirstTagSplit(u, v);
    PlainBodySplit(u, v);
    var j := FirstTag(u);
    if j < |u| {
      assert (u + v)[j + 1..] == u[j + 1..] + v;
      PlainBodySplit(u[j + 1..], v);
      assert (u + v)[..j] == u[..j];
    } else {
      assert (u + v)[j + 1..] == v[1..];
      assert (u + v)[..j] == u == u[..j];
      NoPlainBody(u);
      StrayIs(v[1..]);
    }
  }

  lemma {:induction false} StrayIs(b: string)
    ensures Stray(b) <==> PlainBody(b).Some?
  {
  }

  lemma {:induction false} NoPlainBody(u: string)
    requires FirstTag(u) == |u|
    ensures PlainBody(u) == None
  {
  }

  /** Where an opening tag starts, a match ends before it, steps over it, or began with a tag left open. */
  lemma {:induction false} MatchSplit(u: string, v: string)
    requires u != "" && OpenStart(v)
    ensures !Dangling(u) ==> Blank(u + v) == Blank(u)
    ensures !Dangling(u) ==> (Trailing(u + v) > 0 <==> Trailing(u) > 0 || (Waits(u) && Stray(v[1..])))
    ensures Dangling(u) ==> Blank(u + v) == if Blank(v) > 0 then |u| + Blank(v) else 0
    ensures Dangling(u) ==> Trailing(u + v) == if Trailing(v) > 0 then |u| + Trailing(v) else 0
    ensures Dangling(u) ==> Blank(u) == 0 && Trailing(u) == 0
  {
    hide TrailingBody, BlankBody, Stray, OneLine;
    OpenTagSplit(u, v);
    if Dangling(u) {
      if OpenTag(v) > 0 { assert (u + v)[|u| + OpenTag(v)..] == v[OpenTag(v)..]; }
    } else {
      var k := OpenTag(u);
      assert (u + v)[k..] == u[k..] + v;
      BlankBodySplit(u[k..], v, 3);
      TrailingBodySplit(u[k..], v);
    }
  }

  // ---- one paragraph ---------------------------------------------------------

  /** An opening tag whose next paragraph tag closes it. */
  predicate ParaAt(s: string) {
    OpenTag(s) > 0 && Close(s[OpenTag(s) + FirstTag(s[OpenTag(s)..])..])
  }

  function ParaLen(s: string): nat
    requires ParaAt(s)
  {
    OpenTag(s) + FirstTag(s[OpenTag(s)..]) + 4
  }

  predicate NoTags(b: string, k: nat)
    requires k <= |b|
  {
    forall i :: 0 <= i < k ==> !TagStart(b[i..])
  }

  lemma {:induction false} NoTagsAppend(b: string, k: nat, m: nat)
    requires k + m <= |b| && NoTags(b, k) && NoTags(b[k..], m)
    ensures NoTags(b, k + m)
  {
    forall i | 0 <= i < k + m ensures !TagStart(b[i..]) {
      if k <= i { assert b[i..] == b[k..][i - k..]; }
    }
  }

  lemma {:induction false} SkipTo(b: string, k: nat)
    requires k <= |b| && NoTags(b, k)
    ensures FirstTag(b) == k + FirstTag(b[k..])
  {
    if k > 0 {
      assert b[0..] == b;
      forall i | 0 <= i < k - 1 ensures !TagStart(b[1..][i..]) { assert b[1..][i..] == b[i + 1..]; }
      SkipTo(b[1..], k - 1);
      assert b[1..][k - 1..] == b[k..];
    }
  }

  lemma {:induction false} SpacesAre(s: string)
    ensures forall i :: 0 <= i < Spaces(s) ==> IsSpace(s[i])
    ensures Spaces(s) < |s| ==> !IsSpace(s[Spaces(s)])
  {
    if s != "" && IsSpace(s[0]) { SpacesAre(s[1..]); }
  }

  /** Past its first character a break holds no tag start. */
  lemma {:induction false} BrShape(s: string)
    requires Br(s) > 0
    ensures Br(s) >= 4 && s[0] == '<' && s[Br(s) - 1] == '>'
    ensures forall i :: 1 <= i < Br(s) ==> s[i] != '<'
    ensures forall i :: 0 <= i < Br(s) - 1 ==> s[i] != '>'
    ensures NoTags(s, Br(s))
  {
    SpacesAre(s[3..]);
    var k := 3 + Spaces(s[3..]);
    forall i | 3 <= i < k ensures IsSpace(s[i]) { assert s[i] == s[3..][i - 3]; }
  }

  lemma {:induction false} SpacesQuiet(b: string)
    ensures NoTags(b, Spaces(b))
  {
    SpacesAre(b);
  }

  lemma {:induction false} BlankBodyQuiet(b: string, n: nat)
    requires BlankBody(b, n) > 0
    ensures BlankBody(b, n) >= 4 && Close(b[BlankBody(b, n) - 4..])
    ensures NoTags(b, BlankBody(b, n) - 4)
    decreases n
  {
    hide Br, Close, Spaces, NoTags;
    var sp := Spaces(b);
    var t := b[sp..];
    SpacesQuiet(b);
    if !Close(t) {
      var m := Br(t);
      BrShape(t);
      var r := t[m..];
      BlankBodyQuiet(r, n - 1);
      var e := BlankBody(r, n - 1) - 4;
      NoTagsAppend(t, m, e);
      NoTagsAppend(b, sp, m + e);
      assert b[sp + m + e..] == t[m + e..] == r[e..];
    }
  }

  lemma {:induction false} BlankBodyShape(b: string, n: nat)
    requires BlankBody(b, n) > 0
    ensures FirstTag(b) == BlankBody(b, n) - 4 && Close(b[FirstTag(b)..])
  {
    BlankBodyQuiet(b, n);
    SkipTo(b, BlankBody(b, n) - 4);
  }

  lemma {:induction false} GtShift(s: string, i: nat)
    requires i <= Gt(s)
    ensures Gt(s[i..]) == Gt(s) - i
  {
    if i == 0 { assert s[0..] == s; } else { GtShift(s[1..], i - 1); assert s[1..][i - 1..] == s[i..]; }
  }

  lemma {:induction false} GtIs(s: string)
    ensures Gt(s) < |s| ==> s[Gt(s)] == '>'
    ensures forall i :: 0 <= i < Gt(s) ==> s[i] != '>'
  {
    if s != "" && s[0] != '>' { GtIs(s[1..]); }
  }

  lemma {:induction false} FirstTagIs(b: string, i: nat)
    requires i < FirstTag(b)
    ensures !TagStart(b[i..])
  {
    if i == 0 { assert b[0..] == b; } else { FirstTagIs(b[1..], i - 1); assert b[1..][i - 1..] == b[i..]; }
  }

  lemma {:induction false} BodyInterior(b: string, i: nat)
    requires Close(b[FirstTag(b)..]) && i < FirstTag(b) + 4
    ensures !OpenStart(b[i..])
  {
    var j := FirstTag(b);
    if i < j {
      FirstTagIs(b, i);
    } else {
      var c := b[j..];
      assert b[i..] == c[i - j..];
      assert c[0] == '<' && c[1] == '/' && IsP(c[2]) && c[3] == '>';
    }
  }

  lemma {:induction false} AttributeInterior(s: string, i: nat)
    requires 0 < i < OpenTag(s) && OpenStart(s[i..])
    ensures OpenTag(s[i..]) == OpenTag(s) - i
  {
    var k := OpenTag(s);
    var a := s[2..];
    GtIs(a);
    var t := s[i..];
    assert t[0] == s[i] && t[1] == s[i + 1];
    assert s[k - 1] == a[k - 3] == '>';
    assert i <= k - 3;
    GtShift(a, i);
    assert a[i..] == t[2..];
  }

  /** Inside a paragraph only its own attributes can look like an opening tag. */
  lemma {:induction false} OpenInterior(s: string, i: nat)
    requires ParaAt(s) && 0 < i < ParaLen(s) && OpenTag(s[i..]) > 0
    ensures i < OpenTag(s) && OpenTag(s[i..]) == OpenTag(s) - i
  {
    var k := OpenTag(s);
    if i < k {
      AttributeInterior(s, i);
    } else {
      var b := s[k..];
      assert s[k + FirstTag(b)..] == b[FirstTag(b)..];
      assert b[i - k..] == s[i..];
      BodyInterior(b, i - k);
      assert false;
    }
  }

  /** An opening tag inside a paragraph shares the paragraph's body, so it matches only if the paragraph does. */
  lemma {:induction false} ParaInterior(s: string, i: nat)
    requires ParaAt(s) && 0 < i < ParaLen(s)
    ensures Blank(s[i..]) > 0 ==> Blank(s) > 0
  {
    if OpenTag(s[i..]) > 0 {
      OpenInterior(s, i);
      assert s[i..][OpenTag(s[i..])..] == s[OpenTag(s)..];
    }
  }

  lemma {:induction false} NotSpace()
    ensures !IsSpace('<')
  {
  }

  lemma {:induction false} SpacesStop(x: string, y: string)
    requires Spaces(x) < |x|
    ensures Spaces(x + y) == Spaces(x)
  {
    if IsSpace(x[0]) { assert (x + y)[1..] == x[1..] + y; SpacesStop(x[1..], y); }
  }

  lemma {:induction false} BrBeforeGt(x: string, y: string)
    requires x != "" && x[|x| - 1] == '>'
    ensures Br(x + y) == Br(x)
  {
    if |x| > 3 {
      assert (x + y)[3..] == x[3..] + y;
      SpacesAre(x[3..]);
      SpacesStop(x[3..], y);
    }
  }

  lemma {:induction false} EndBrIs(x: string)
    requires EndBr(x).Some?
    ensures var y := x[EndBr(x).value..]; Br(y) > 0 && Spaces(y[Br(y)..]) == |y| - Br(y)
  {
    if Br(x) > 0 && Spaces(x[Br(x)..]) == |x| - Br(x) {
      assert x[0..] == x;
    } else {
      EndBrIs(x[1..]);
      assert x[1..][EndBr(x[1..]).value..] == x[EndBr(x).value..];
    }
  }

  lemma {:induction false} OpenTagIs(s: string)
    requires OpenTag(s) > 0
    ensures 3 <= OpenTag(s) <= |s| && s[0] == '<' && IsP(s[1]) && s[OpenTag(s) - 1] == '>'
    ensures forall i :: 2 <= i < OpenTag(s) - 1 ==> s[i] != '>'
    ensures !IsWord(s[2])
  {
    var a := s[2..];
    GtIs(a);
    assert s[OpenTag(s) - 1] == a[OpenTag(s) - 3];
    forall i | 2 <= i < OpenTag(s) - 1 ensures s[i] != '>' { assert s[i] == a[i - 2]; }
  }

  lemma {:induction false} BrFound(br: string, x: string)
    requires IsBr(br)
    ensures Br(br + x) == |br| && (br + x)[|br|..] == x
  {
    BrShape(br);
    BrBeforeGt(br, x);
  }

  lemma {:induction false} SpacesThen(sp: string, x: string)
    requires AllSpace(sp) && (x == "" || !IsSpace(x[0]))
    ensures Spaces(sp + x) == |sp| && (sp + x)[|sp|..] == x
  {
    SpacesSplit(sp, x);
  }

  lemma {:induction false} TagsAreNotSpaces(y: string)
    ensures forall i :: 0 <= i < |y| && IsSpace(y[i]) ==> !TagStart(y[i..])
  {
  }

  lemma {:induction false} BrNotClose(t: string)
    requires Br(t) > 0
    ensures !Close(t)
  {
  }

  /** Before a later break with only spaces behind it, no earlier break is followed by spaces alone. */
  lemma {:induction false} EndBrFound(c: string, br: string, sp: string)
    requires IsBr(br) && AllSpace(sp)
    ensures EndBr(c + (br + sp)) == Some(|c|)
  {
    hide Br, Spaces, IsSpace;
    var y := br + sp;
    BrFound(br, sp);
    BrShape(y);
    if c == "" {
      assert c + y == y;
    } else {
      var x := c + y;
      assert x[1..] == c[1..] + y;
      EndBrFound(c[1..], br, sp);
      BrSplit(c, y);
      if Br(x) > 0 {
        var z := x[Br(x)..];
        assert z[|c| - Br(x)] == '<';
        SpacesAre(z);
        NotSpace();
      }
    }
  }
}

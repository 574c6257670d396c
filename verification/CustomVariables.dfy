/** src/controllers/campaignController2.ts, collectCustomVariables: the template variables of a submitted lead. */
module CustomVariables {
  const MAX_KEYS: nat := 50
  const MAX_LENGTH: nat := 20000

  const STANDARD: set<string> := {
    "email", "first_name", "last_name", "full_name", "company", "website", "title", "phone", "linkedin_url",
    "company_linkedin_url", "persona", "source", "status", "lead_score", "custom_variables", "notes"
  }

  /** The lower-case names that every object inherits: `in` finds the first, assignment loses the second. */
  const INHERITED: set<string> := {"constructor", "__proto__"}
  const PROTO := "__proto__"

  /** A property value by its text: nothing, a scalar, or an object or function. */
  datatype Value = Missing | Scalar(text: string) | Compound(text: string)

  /** A property whose name has been trimmed and lower-cased. */
  datatype Entry = Entry(key: string, value: Value)

  function Cut(text: string): (r: string)
    ensures |r| <= MAX_LENGTH && r <= text && (|text| <= MAX_LENGTH ==> r == text)
  {
    if |text| > MAX_LENGTH then text[..MAX_LENGTH] else text
  }

  predicate Nestable(e: Entry) { !e.value.Missing? && e.key != PROTO }

  predicate Eligible(e: Entry) { e.value.Scalar? && e.key !in STANDARD && !(e.key != [] && e.key[0] == '_') }

  function NestStep(out: map<string, string>, e: Entry): map<string, string> {
    if !Nestable(e) || |out| >= MAX_KEYS then out else out[e.key := Cut(e.value.text)]
  }

  function FlatStep(out: map<string, string>, e: Entry): map<string, string> {
    if !Eligible(e) || |out| >= MAX_KEYS || e.key in out || e.key in INHERITED then out
    else out[e.key := Cut(e.value.text)]
  }

  function Nest(nested: seq<Entry>): map<string, string>
    decreases |nested|
  {
    if nested == [] then map[] else NestStep(Nest(nested[..|nested| - 1]), nested[|nested| - 1])
  }

  function Collect(nested: seq<Entry>, flat: seq<Entry>): map<string, string>
    decreases |flat|
  {
    if flat == [] then Nest(nested) else FlatStep(Collect(nested, flat[..|flat| - 1]), flat[|flat| - 1])
  }

  method CollectCustomVariables(nested: seq<Entry>, flat: seq<Entry>) returns (out: map<string, string>)
    ensures out == Collect(nested, flat)
  {
    hide Cut;
    out := map[];
    var i := 0;
    while i < |nested|
      invariant i <= |nested| && out == Nest(nested[..i])
    {
      var e := nested[i];
      assert nested[..i + 1][..i] == nested[..i];
      if !e.value.Missing? {
        if |out| >= MAX_KEYS {
          FullStays(nested, i);
          break;
        }
        if e.key != PROTO { out := out[e.key := Cut(e.value.text)]; }
      }
      i := i + 1;
    }
    assert nested[..|nested|] == nested;
    i := 0;
    while i < |flat|
      invariant i <= |flat| && out == Collect(nested, flat[..i])
    {
      var e := flat[i];
      assert flat[..i + 1][..i] == flat[..i];
      if Eligible(e) {
        if |out| >= MAX_KEYS {
          FullStaysFlat(nested, flat, i);
          break;
        }
        if e.key !in out && e.key !in INHERITED { out := out[e.key := Cut(e.value.text)]; }
      }
      i := i + 1;
    }
    assert flat[..|flat|] == flat;
  }

  lemma {:induction false} FullStays(nested: seq<Entry>, i: nat)
    requires i <= |nested| && |Nest(nested[..i])| >= MAX_KEYS
    ensures Nest(nested) == Nest(nested[..i])
    decreases |nested|
  {
    if i < |nested| {
      var n := |nested| - 1;
      assert nested[..n][..i] == nested[..i];
      FullStays(nested[..n], i);
    } else {
      assert nested[..i] == nested;
    }
  }

  lemma {:induction false} FullStaysFlat(nested: seq<Entry>, flat: seq<Entry>, i: nat)
    requires i <= |flat| && |Collect(nested, flat[..i])| >= MAX_KEYS
    ensures Collect(nested, flat) == Collect(nested, flat[..i])
    decreases |flat|
  {
    if i < |flat| {
      var n := |flat| - 1;
      assert flat[..n][..i] == flat[..i];
      FullStaysFlat(nested, flat[..n], i);
    } else {
      assert flat[..i] == flat;
    }
  }

  // ---- what is collected -----------------------------------------------------------------

  function NestedKeys(nested: seq<Entry>): set<string> { set e | e in nested && Nestable(e) :: e.key }

  function FlatKeys(flat: seq<Entry>): set<string> { set e | e in flat && Eligible(e) :: e.key }

  /** Everything that could be kept: a flat column named `constructor` never is. */
  function Keepable(nested: seq<Entry>, flat: seq<Entry>): set<string> {
    NestedKeys(nested) + (FlatKeys(flat) - INHERITED)
  }

  lemma {:induction false} NoNestedKeys()
    ensures NestedKeys([]) == {}
  {
  }

  lemma {:induction false} NestedKeysGrow(nested: seq<Entry>)
    requires nested != []
    ensures var e := nested[|nested| - 1];
            NestedKeys(nested) == NestedKeys(nested[..|nested| - 1]) + if Nestable(e) then {e.key} else {}
  {
    assert nested == nested[..|nested| - 1] + [nested[|nested| - 1]];
  }

  lemma {:induction false} NestAll(nested: seq<Entry>)
    ensures |Nest(nested)| <= MAX_KEYS && Nest(nested).Keys <= NestedKeys(nested)
    ensures Nest(nested).Keys == NestedKeys(nested) || |Nest(nested)| == MAX_KEYS
    decreases |nested|
  {
    hide NestedKeys, Cut, Nestable;
    if nested == [] {
      NoNestedKeys();
    } else {
      var n := |nested| - 1;
      NestAll(nested[..n]);
      NestedKeysGrow(nested);
    }
  }

  lemma {:induction false} CollectAll(nested: seq<Entry>, flat: seq<Entry>)
    ensures |Collect(nested, flat)| <= MAX_KEYS && Collect(nested, flat).Keys <= Keepable(nested, flat)
    ensures Collect(nested, flat).Keys == Keepable(nested, flat) || |Collect(nested, flat)| == MAX_KEYS
    decreases |flat|
  {
    hide Eligible, FlatStep, Nest, Keepable;
    if flat == [] {
      NestAll(nested);
      NothingFlat(nested);
    } else {
      var n := |flat| - 1;
      CollectAll(nested, flat[..n]);
      KeepableGrows(nested, flat);
      FlatStepAll(Collect(nested, flat[..n]), flat[n], Keepable(nested, flat[..n]));
    }
  }

  lemma {:induction false} NothingFlat(nested: seq<Entry>)
    ensures Keepable(nested, []) == NestedKeys(nested)
  {
    assert FlatKeys([]) == {};
  }

  lemma {:induction false} KeepableGrows(nested: seq<Entry>, flat: seq<Entry>)
    requires flat != []
    ensures var e := flat[|flat| - 1];
            Keepable(nested, flat) ==
            Keepable(nested, flat[..|flat| - 1]) + if Eligible(e) && e.key !in INHERITED then {e.key} else {}
  {
    hide Eligible, NestedKeys;
    var rest, e := flat[..|flat| - 1], flat[|flat| - 1];
    assert flat == rest + [e];
    assert FlatKeys(flat) == FlatKeys(rest) + if Eligible(e) then {e.key} else {};
  }

  lemma {:induction false} FlatStepAll(out: map<string, string>, e: Entry, all: set<string>)
    requires |out| <= MAX_KEYS && out.Keys <= all && (out.Keys == all || |out| == MAX_KEYS)
    ensures var next := FlatStep(out, e);
            var more := all + if Eligible(e) && e.key !in INHERITED then {e.key} else {};
            |next| <= MAX_KEYS && next.Keys <= more && (next.Keys == more || |next| == MAX_KEYS)
  {
    hide Eligible, Cut;
  }

  lemma {:induction false} SubsetSize(a: set<string>, b: set<string>)
    requires a <= b
    ensures |a| <= |b| && (|a| == |b| ==> a == b)
  {
    assert b == a + (b - a);
  }

  lemma {:induction false} ValuesAreCut(nested: seq<Entry>, flat: seq<Entry>)
    ensures forall k :: k in Collect(nested, flat) ==> |Collect(nested, flat)[k]| <= MAX_LENGTH
    decreases |nested| + |flat|
  {
    if flat != [] {
      ValuesAreCut(nested, flat[..|flat| - 1]);
    } else if nested != [] {
      ValuesAreCut(nested[..|nested| - 1], flat);
      assert Collect(nested[..|nested| - 1], flat) == Nest(nested[..|nested| - 1]);
      assert Collect(nested, flat) == Nest(nested);
    }
  }

  /** What is worth keeping: a nested value that is there, or a scalar column whose name the application does not use. */
  lemma {:induction false} KeepableIff(nested: seq<Entry>, flat: seq<Entry>, k: string)
    ensures k in Keepable(nested, flat) <==>
            || (k != "__proto__" && exists e :: e in nested && e.key == k && !e.value.Missing?)
            || (&& (k == "" || k[0] != '_') && k != "constructor"
                && k !in ["email", "first_name", "last_name", "full_name", "company", "website", "title", "phone",
                          "linkedin_url", "company_linkedin_url", "persona", "source", "status", "lead_score",
                          "custom_variables", "notes"]
                && exists e :: e in flat && e.key == k && e.value.Scalar?)
  {
    if e :| e in nested && e.key == k && !e.value.Missing? && k != "__proto__" { assert Nestable(e); }
    if e :| e in flat && e.key == k && Eligible(e) { assert e.key == k; }
  }

  /** A value is cut at twenty thousand characters, and only there. */
  lemma {:induction false} CutMeans(text: string)
    ensures Cut(text) == if |text| <= 20000 then text else text[..20000]
  {
  }

  /** At most fifty variables, and nothing keepable is lost exactly when there are at most fifty of them. */
  lemma {:induction false} NothingLostIff(nested: seq<Entry>, flat: seq<Entry>)
    ensures |Collect(nested, flat)| <= 50
    ensures Collect(nested, flat).Keys == Keepable(nested, flat) <==> |Keepable(nested, flat)| <= 50
    ensures forall k :: k in Collect(nested, flat) ==> |Collect(nested, flat)[k]| <= 20000
  {
    ValuesAreCut(nested, flat);
    CollectAll(nested, flat);
    SubsetSize(Collect(nested, flat).Keys, Keepable(nested, flat));
    assert |Collect(nested, flat)| == |Collect(nested, flat).Keys|;
  }

  /** A flat column called constructor is dropped even when there is room: it is kept exactly when nested. */
  lemma {:induction false} ConstructorColumnIsLost(nested: seq<Entry>, flat: seq<Entry>)
    requires |Keepable(nested, flat)| <= MAX_KEYS
    ensures "constructor" in Collect(nested, flat) <==> "constructor" in NestedKeys(nested)
  {
    NothingLostIff(nested, flat);
  }

  // ---- which value ---------------------------------------------------------------------------

  /** Nested values win: no flat column ever replaces one. */
  lemma {:induction false} NestedWins(nested: seq<Entry>, flat: seq<Entry>, k: string)
    requires k in Nest(nested)
    ensures k in Collect(nested, flat) && Collect(nested, flat)[k] == Nest(nested)[k]
    decreases |flat|
  {
    if flat != [] { NestedWins(nested, flat[..|flat| - 1], k); }
  }

  predicate FirstEligible(flat: seq<Entry>, i: nat, k: string) {
    && i < |flat| && Eligible(flat[i]) && flat[i].key == k
    && forall j :: 0 <= j < i && Eligible(flat[j]) ==> flat[j].key != k
  }

  /** A variable that is not nested comes from the first eligible flat column of that name: never a standard one or one
   *  that starts with an underscore. */
  lemma {:induction false} FlatIsFirst(nested: seq<Entry>, flat: seq<Entry>, k: string) returns (i: nat)
    requires k in Collect(nested, flat) && k !in Nest(nested)
    ensures FirstEligible(flat, i, k) && Collect(nested, flat)[k] == Cut(flat[i].value.text)
    ensures k !in STANDARD && k !in INHERITED
    decreases |flat|
  {
    var n := |flat| - 1;
    if k in Collect(nested, flat[..n]) {
      i := FlatIsFirst(nested, flat[..n], k);
      assert forall j :: 0 <= j < n ==> flat[..n][j] == flat[j];
    } else {
      i := n;
      forall j | 0 <= j < n && Eligible(flat[j]) ensures flat[j].key != k {
        if flat[j].key == k { SeenOrFull(nested, flat[..n], j); }
      }
    }
  }

  /** An eligible column is taken, already there, or came after the fiftieth. */
  lemma {:induction false} SeenOrFull(nested: seq<Entry>, flat: seq<Entry>, j: nat)
    requires j < |flat| && Eligible(flat[j]) && flat[j].key !in INHERITED
    ensures flat[j].key in Collect(nested, flat) || |Collect(nested, flat)| >= MAX_KEYS
    decreases |flat|
  {
    var n := |flat| - 1;
    if j < n {
      assert flat[..n][j] == flat[j];
      SeenOrFull(nested, flat[..n], j);
    }
  }

  predicate LastNestable(nested: seq<Entry>, i: nat, k: string) {
    && i < |nested| && Nestable(nested[i]) && nested[i].key == k
    && forall j :: i < j < |nested| && Nestable(nested[j]) ==> nested[j].key != k
  }

  /** A nested variable has the value of the last entry of that name, as long as nothing had to be left out. */
  lemma {:induction false} NestedIsLast(nested: seq<Entry>, k: string) returns (i: nat)
    requires |NestedKeys(nested)| < MAX_KEYS && k in NestedKeys(nested)
    ensures k in Nest(nested) && LastNestable(nested, i, k) && Nest(nested)[k] == Cut(nested[i].value.text)
    decreases |nested|
  {
    hide NestedKeys, Cut, Nestable;
    NoNestedKeys();
    var n := |nested| - 1;
    NestedKeysGrow(nested);
    SubsetSize(NestedKeys(nested[..n]), NestedKeys(nested));
    NestAll(nested[..n]);
    SubsetSize(Nest(nested[..n]).Keys, NestedKeys(nested[..n]));
    assert |Nest(nested[..n])| == |Nest(nested[..n]).Keys|;
    if Nestable(nested[n]) && nested[n].key == k {
      i := n;
    } else {
      i := NestedIsLast(nested[..n], k);
      assert forall j :: 0 <= j < n ==> nested[..n][j] == nested[j];
    }
  }
}

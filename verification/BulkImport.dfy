/** src/controllers/contactController.ts, bulkCreateContacts: importing a list of contacts into an organization. */
module BulkImport {
  import opened Prelude

  const MAX_CONTACTS: nat := 5000

  datatype Health = Green | Yellow | Red

  /** The columns a repeated import may overwrite, and those only a creation writes. */
  datatype Lead = Lead(profile: nat, persona: nat, source: nat, health: Health)

  /** One contact by its normalised email; None when that is missing or has no @. */
  datatype Contact = Contact(email: Option<nat>, profile: nat, persona: nat, source: nat)

  /** What the gate and the database answer for one contact. */
  datatype Answer = Answer(health: Health, updates: bool, creates: bool)

  datatype Input = Input(contact: Contact, answer: Answer)

  datatype Result = TooMany | Empty | NoEmails | Done(created: nat, updated: nat, duplicates: nat, rejected: nat)

  // ---- one email at a time ------------------------------------------------------------

  /** What one contact does to the row of its own email: nothing if it is red or its write fails. */
  function Touch(row: Option<Lead>, i: Input): Option<Lead> {
    if i.answer.health == Red then row
    else match row
      case Some(l) => if i.answer.updates then Some(l.(profile := i.contact.profile)) else row
      case None =>
        if i.answer.creates
        then Some(Lead(i.contact.profile, i.contact.persona, i.contact.source, i.answer.health)) else None
  }

  /** The row of one email after the contacts, looking at no other email. */
  function Fold(row: Option<Lead>, inputs: seq<Input>, email: nat): Option<Lead>
    decreases |inputs|
  {
    if inputs == [] then row
    else
      var n := |inputs| - 1;
      var r := Fold(row, inputs[..n], email);
      if inputs[n].contact.email == Some(email) then Touch(r, inputs[n]) else r
  }

  function RowOf(leads: map<nat, Lead>, email: nat): Option<Lead> {
    if email in leads then Some(leads[email]) else None
  }

  /** The contact writes: a new row or an overwritten profile. */
  predicate Creates(row: Option<Lead>, inputs: seq<Input>, email: nat, k: nat) {
    k < |inputs| && inputs[k].contact.email == Some(email) && inputs[k].answer.health != Red &&
    inputs[k].answer.creates && Fold(row, inputs[..k], email).None?
  }

  predicate Updates(row: Option<Lead>, inputs: seq<Input>, email: nat, k: nat) {
    k < |inputs| && inputs[k].contact.email == Some(email) && inputs[k].answer.health != Red &&
    inputs[k].answer.updates && Fold(row, inputs[..k], email).Some?
  }

  predicate Writes(row: Option<Lead>, inputs: seq<Input>, email: nat, k: nat) {
    k < |inputs| && (Creates(row, inputs, email, k) || Updates(row, inputs, email, k))
  }

  lemma {:induction false} Prefixes(row: Option<Lead>, inputs: seq<Input>, email: nat, n: nat, k: nat)
    requires k < n <= |inputs|
    ensures Creates(row, inputs[..n], email, k) == Creates(row, inputs, email, k)
    ensures Updates(row, inputs[..n], email, k) == Updates(row, inputs, email, k)
  {
    assert inputs[..n][..k] == inputs[..k];
  }

  /**
   * A row that the import creates keeps the persona, source and health of the contact that created it, the first
   * accepted one of its email whose insert went through; at most one does.
   */
  lemma {:induction false} CreatorIsKept(inputs: seq<Input>, email: nat)
    requires Fold(None, inputs, email).Some?
    ensures exists k: nat :: Creates(None, inputs, email, k) && KeepsCreation(Fold(None, inputs, email).value, inputs[k])
    ensures forall j: nat, k: nat :: Creates(None, inputs, email, j) && Creates(None, inputs, email, k) ==> j == k
    decreases |inputs|
  {
    var n := |inputs| - 1;
    forall k: nat | k < n
      ensures Creates(None, inputs[..n], email, k) == Creates(None, inputs, email, k)
    {
      Prefixes(None, inputs, email, n, k);
    }
    if Fold(None, inputs[..n], email).Some? {
      CreatorIsKept(inputs[..n], email);
      var k: nat :| Creates(None, inputs[..n], email, k) &&
                    KeepsCreation(Fold(None, inputs[..n], email).value, inputs[..n][k]);
      assert Creates(None, inputs, email, k);
      assert !Creates(None, inputs, email, n);
    } else {
      assert Creates(None, inputs, email, n);
      forall k: nat | k < n ensures !Creates(None, inputs, email, k) {
        if Creates(None, inputs, email, k) { CreatedStays(None, inputs[..n], email, k); }
      }
    }
  }

  predicate KeepsCreation(l: Lead, i: Input) {
    l.persona == i.contact.persona && l.source == i.contact.source && l.health == i.answer.health
  }

  lemma {:induction false} CreatedStays(row: Option<Lead>, inputs: seq<Input>, email: nat, k: nat)
    requires Creates(row, inputs, email, k)
    ensures Fold(row, inputs, email).Some?
    decreases |inputs|
  {
    var n := |inputs| - 1;
    if k < n {
      Prefixes(row, inputs, email, n, k);
      CreatedStays(row, inputs[..n], email, k);
    }
  }

  lemma {:induction false} NoContacts(row: Option<Lead>, email: nat)
    ensures Fold(row, [], email) == row
    ensures forall k: nat :: !Writes(row, [], email, k)
  {
  }

  /** What the last contact adds. */
  lemma {:induction false} LastContact(row: Option<Lead>, inputs: seq<Input>, email: nat)
    requires inputs != []
    ensures var n := |inputs| - 1;
            var was, r := Fold(row, inputs[..n], email), Fold(row, inputs, email);
            && (!Writes(row, inputs, email, n) ==> r == was)
            && (Writes(row, inputs, email, n) ==> r.Some? && r.value.profile == inputs[n].contact.profile)
            && (was.Some? ==> r.Some? && r.value == was.value.(profile := r.value.profile))
  {
  }

  predicate LastWrite(row: Option<Lead>, inputs: seq<Input>, email: nat, k: nat) {
    Writes(row, inputs, email, k) && forall j: nat :: k < j < |inputs| ==> !Writes(row, inputs, email, j)
  }

  /** The contact fields are those of the last contact that wrote; without one the row is as it was. */
  lemma {:induction false} LastWriterWins(row: Option<Lead>, inputs: seq<Input>, email: nat)
    ensures var r := Fold(row, inputs, email);
            && ((forall k: nat :: k < |inputs| ==> !Writes(row, inputs, email, k)) ==> r == row)
            && (forall k: nat :: LastWrite(row, inputs, email, k) ==>
                  r.Some? && r.value.profile == inputs[k].contact.profile)
            && (row.Some? ==> r.Some? && r.value == row.value.(profile := r.value.profile))
    decreases |inputs|
  {
    hide Fold, Creates, Updates;
    if inputs == [] {
      NoContacts(row, email);
    } else {
      var n := |inputs| - 1;
      LastWriterWins(row, inputs[..n], email);
      LastContact(row, inputs, email);
      forall k: nat | k < n
        ensures Writes(row, inputs[..n], email, k) == Writes(row, inputs, email, k)
      {
        Prefixes(row, inputs, email, n, k);
      }
      if !Writes(row, inputs, email, n) {
        forall k: nat | LastWrite(row, inputs, email, k) ensures LastWrite(row, inputs[..n], email, k) {
        }
      }
    }
  }

  /** What the import counts a contact as; the row decides between a creation and an update, also one that fails. */
  datatype Fate = Created | Updated | Rejected

  function FateOf(leads: map<nat, Lead>, inputs: seq<Input>, k: nat): Fate
    requires k < |inputs|
  {
    var i := inputs[k];
    if i.contact.email.None? || i.answer.health == Red then Rejected
    else
      var e := i.contact.email.value;
      if Fold(RowOf(leads, e), inputs[..k], e).Some? then Updated
      else if i.answer.creates then Created
      else Rejected
  }

  function Fates(leads: map<nat, Lead>, inputs: seq<Input>): seq<Fate> {
    seq(|inputs|, k requires 0 <= k < |inputs| => FateOf(leads, inputs, k))
  }

  lemma {:induction false} FatesGrow(leads: map<nat, Lead>, inputs: seq<Input>, n: nat)
    requires n < |inputs|
    ensures Fates(leads, inputs[..n + 1]) == Fates(leads, inputs[..n]) + [FateOf(leads, inputs, n)]
  {
    hide Fold;
    forall k: nat | k < n
      ensures FateOf(leads, inputs[..n + 1], k) == FateOf(leads, inputs, k) == FateOf(leads, inputs[..n], k)
    {
      assert inputs[..n + 1][..k] == inputs[..k] == inputs[..n][..k];
    }
    assert inputs[..n + 1][..n] == inputs[..n];
  }

  lemma {:induction false} NoFates(leads: map<nat, Lead>, inputs: seq<Input>)
    ensures Fates(leads, inputs[..0]) == [] && forall e: nat :: Fold(RowOf(leads, e), inputs[..0], e) == RowOf(leads, e)
  {
  }

  /** One more contact, seen from the table as it then is. */
  lemma {:induction false} NextContact(was: map<nat, Lead>, inputs: seq<Input>, n: nat, now: map<nat, Lead>)
    requires n < |inputs| && forall e: nat :: RowOf(now, e) == Fold(RowOf(was, e), inputs[..n], e)
    ensures var i := inputs[n];
            && (forall e: nat :: Fold(RowOf(was, e), inputs[..n + 1], e) ==
                                 if i.contact.email == Some(e) then Touch(RowOf(now, e), i) else RowOf(now, e))
            && FateOf(was, inputs, n) ==
               if i.contact.email.None? || i.answer.health == Red then Rejected
               else if i.contact.email.value in now then Updated
               else if i.answer.creates then Created
               else Rejected
  {
    assert inputs[..n + 1][..n] == inputs[..n];
    if inputs[n].contact.email.Some? {
      var e := inputs[n].contact.email.value;
      assert RowOf(now, e) == Fold(RowOf(was, e), inputs[..n], e);
    }
  }

  // ---- the import --------------------------------------------------------------------------

  function Emails(inputs: seq<Input>): set<nat> {
    set i | i in inputs && i.contact.email.Some? :: i.contact.email.value
  }

  /** The organization's leads; the key is unique on (organization, email). */
  class Contacts {
    var leads: map<nat, Lead>

    /** prisma.lead.update with its swallowed error. */
    method UpdateLead(email: nat, profile: nat, succeeds: bool)
      modifies this
      ensures leads == if succeeds && email in old(leads)
                       then old(leads)[email := old(leads)[email].(profile := profile)] else old(leads)
    {
      if succeeds && email in leads { leads := leads[email := leads[email].(profile := profile)]; }
    }

    /** prisma.lead.create: it throws when the insert fails. */
    method CreateLead(email: nat, lead: Lead, succeeds: bool) returns (ok: bool)
      requires email !in leads
      modifies this
      ensures ok == succeeds && leads == if ok then old(leads)[email := lead] else old(leads)
    {
      ok := succeeds;
      if ok { leads := leads[email := lead]; }
    }

    method BulkCreateContacts(inputs: seq<Input>) returns (r: Result)
      modifies this
      ensures r == TooMany <==> |inputs| > 5000
      ensures r == Empty <==> inputs == []
      ensures r == NoEmails <==> 0 < |inputs| <= 5000 && Emails(inputs) == {}
      ensures !r.Done? ==> leads == old(leads)
      ensures r.Done? ==> r.created + r.updated + r.rejected == |inputs| && r.duplicates == r.updated
      ensures r.Done? ==> r.created == |leads| - |old(leads)|
      ensures r.Done? ==> var fates := multiset(Fates(old(leads), inputs));
                          r.created == fates[Created] && r.updated == fates[Updated] && r.rejected == fates[Rejected]
      ensures r.Done? ==> forall e: nat :: RowOf(leads, e) == Fold(RowOf(old(leads), e), inputs, e)
    {
      hide Fold, FateOf, Fates;
      if |inputs| == 0 { return Empty; }
      if |inputs| > MAX_CONTACTS { return TooMany; }
      var uniqueEmails := Emails(inputs);
      if uniqueEmails == {} { return NoEmails; }
      var existing := leads.Keys * uniqueEmails;
      NoFates(leads, inputs);
      var created, updated, duplicates, rejected := 0, 0, 0, 0;
      for i := 0 to |inputs|
        invariant created + updated + rejected == i && duplicates == updated
        invariant existing == leads.Keys * uniqueEmails
        invariant created == |leads| - |old(leads)|
        invariant var fates := multiset(Fates(old(leads), inputs[..i]));
                  created == fates[Created] && updated == fates[Updated] && rejected == fates[Rejected]
        invariant forall e: nat :: RowOf(leads, e) == Fold(RowOf(old(leads), e), inputs[..i], e)
      {
        var c, answer := inputs[i].contact, inputs[i].answer;
        ghost var before := leads;
        FatesGrow(old(leads), inputs, i);
        NextContact(old(leads), inputs, i, leads);
        if c.email.None? || answer.health == Red {
          rejected := rejected + 1;
        } else {
          var email := c.email.value;
          assert inputs[i] in inputs;
          if email in existing {
            duplicates := duplicates + 1;
            UpdateLead(email, c.profile, answer.updates);
            updated := updated + 1;
          } else {
            var ok := CreateLead(email, Lead(c.profile, c.persona, c.source, answer.health), answer.creates);
            if ok {
              existing := existing + {email};
              created := created + 1;
            } else {
              rejected := rejected + 1;
            }
          }
        }
        assert forall e: nat :: RowOf(leads, e) == if c.email == Some(e) then Touch(RowOf(before, e), inputs[i])
                                              else RowOf(before, e);
      }
      assert inputs[..|inputs|] == inputs;
      r := Done(created, updated, duplicates, rejected);
    }
  }

  /** Importing the same list again creates nothing when every first insert went through, and changes no persona. */
  lemma {:induction false} SecondImportCreatesNothing(row: Option<Lead>, inputs: seq<Input>, email: nat, again: seq<Input>)
    requires Fold(row, inputs, email).Some?
    ensures var l := Fold(Fold(row, inputs, email), again, email);
            && l.Some? && l.value.persona == Fold(row, inputs, email).value.persona
            && l.value.source == Fold(row, inputs, email).value.source
            && forall k: nat :: !Creates(Fold(row, inputs, email), again, email, k)
  {
    var r := Fold(row, inputs, email);
    LastWriterWins(r, again, email);
    forall k: nat ensures !Creates(r, again, email, k) {
      if k < |again| { LastWriterWins(r, again[..k], email); }
    }
  }
}

/**
 Reconciling one Meta lead form (internal/metaleads/sync.go): page through the form's leads newest first, add the
 ones the webhook missed to the inbox, and stop at the first page that is older than the cutoff.
 */
module Reconcile {
  import opened Prelude

  type Time = int
  type LeadId = nat
  type Cursor = nat

  /** A blank id and a missing or unreadable created_time are None. */
  datatype GraphLead = GraphLead(id: Option<LeadId>, created: Option<Time>)
  datatype Reply = Failed | Page(leads: seq<GraphLead>, next: Option<Cursor>)
  datatype Error = ListFailed | InsertFailed | CursorRepeated
  datatype Event = Event(id: LeadId, created: Time)

  const WEEK := 7 * 24 * 3600

  /** The lookback, but never before the connection began to take leads. */
  function Cutoff(now: Time, lookback: Time, full: bool, ingestAfter: Time): Time {
    var from := now - if full then WEEK else lookback;
    if ingestAfter > from then ingestAfter else from
  }

  /** The later of the two, a week being seven days. */
  lemma {:induction false} CutoffIs(now: Time, lookback: Time, full: bool, ingestAfter: Time)
    ensures var from := if full then now - 7 * 86_400 else now - lookback;
            Cutoff(now, lookback, full, ingestAfter) == if ingestAfter > from then ingestAfter else from
  {
  }

  // ---- the Graph -----------------------------------------------------------------------------

  /**
   A form as the Graph may show it. Every cursor it hands out is one of `cursors`. `listing`, when there is one, is
   the form's leads, served page by page with `before[c]` of them lying before the cursor `c`.
   */
  datatype Form = Form(cursors: set<Cursor>, listing: Option<seq<GraphLead>>, before: map<Option<Cursor>, nat>)

  /** The leads of the form, newest first, all with an id and a time. */
  predicate NewestFirst(all: seq<GraphLead>) {
    && (forall i :: 0 <= i < |all| ==> all[i].id.Some? && all[i].created.Some?)
    && (forall i, j :: 0 <= i < j < |all| ==> all[i].created.value >= all[j].created.value)
  }

  /** The listing is newest first and starts without a cursor. */
  predicate Listed(form: Form) {
    form.listing.Some? && NewestFirst(form.listing.value) && None in form.before && form.before[None] == 0
  }

  predicate PageFits(form: Form, all: seq<GraphLead>, after: Option<Cursor>, leads: seq<GraphLead>,
                     next: Option<Cursor>) {
    after in form.before && form.before[after] <= |all| ==>
      && form.before[after] + |leads| <= |all|
      && leads == all[form.before[after]..form.before[after] + |leads|]
      && (next.None? ==> form.before[after] + |leads| == |all|)
      && (next.Some? ==> next in form.before && form.before[next] == form.before[after] + |leads|)
  }

  /** What a call may answer: anything with a known cursor, and the next page of the listing when there is one. */
  predicate MayAnswer(form: Form, after: Option<Cursor>, reply: Reply) {
    reply.Page? ==>
      && (reply.next.Some? ==> reply.next.value in form.cursors)
      && (form.listing.Some? ==> PageFits(form, form.listing.value, after, reply.leads, reply.next))
  }

  /** One call of the Graph, which may fail and may answer differently each time. */
  method ListLeads(form: Form, after: Option<Cursor>) returns (reply: Reply)
    ensures MayAnswer(form, after, reply)
  {
    reply := *;
    if !MayAnswer(form, after, reply) {
      reply := Failed;
    }
  }

  // ---- what a page adds ----------------------------------------------------------------------

  predicate Due(lead: GraphLead, cutoff: Time) {
    lead.created.Some? && lead.created.value >= cutoff
  }

  predicate Older(lead: GraphLead, cutoff: Time) {
    lead.created.Some? && lead.created.value < cutoff
  }

  function CountDue(leads: seq<GraphLead>, cutoff: Time): nat {
    if leads == [] then 0
    else CountDue(leads[..|leads| - 1], cutoff) + if Due(leads[|leads| - 1], cutoff) then 1 else 0
  }

  function CountOlder(leads: seq<GraphLead>, cutoff: Time): (n: nat)
    ensures n <= |leads|
    ensures n == |leads| <==> forall i :: 0 <= i < |leads| ==> Older(leads[i], cutoff)
  {
    if leads == [] then 0
    else CountOlder(leads[..|leads| - 1], cutoff) + if Older(leads[|leads| - 1], cutoff) then 1 else 0
  }

  lemma {:induction false} CountStep(leads: seq<GraphLead>, i: nat, cutoff: Time)
    requires i < |leads|
    ensures CountDue(leads[..i + 1], cutoff) == CountDue(leads[..i], cutoff) + if Due(leads[i], cutoff) then 1 else 0
    ensures CountOlder(leads[..i + 1], cutoff)
         == CountOlder(leads[..i], cutoff) + if Older(leads[i], cutoff) then 1 else 0
  {
    assert leads[..i + 1][..i] == leads[..i];
  }

  lemma {:induction false} CountDueConcat(a: seq<GraphLead>, b: seq<GraphLead>, cutoff: Time)
    ensures CountDue(a + b, cutoff) == CountDue(a, cutoff) + CountDue(b, cutoff)
  {
    if b == [] {
      assert a + b == a;
    } else {
      assert (a + b)[..|a + b| - 1] == a + b[..|b| - 1];
      CountDueConcat(a, b[..|b| - 1], cutoff);
    }
  }

  lemma {:induction false} NoneDue(leads: seq<GraphLead>, cutoff: Time)
    requires forall i :: 0 <= i < |leads| ==> !Due(leads[i], cutoff)
    ensures CountDue(leads, cutoff) == 0
  {
    if leads != [] {
      NoneDue(leads[..|leads| - 1], cutoff);
    }
  }

  predicate Has(events: seq<Event>, id: LeadId) {
    exists k :: 0 <= k < |events| && events[k].id == id
  }

  /** leadgen_id is unique in the inbox. */
  predicate Unique(events: seq<Event>) {
    forall i, j :: 0 <= i < j < |events| ==> events[i].id != events[j].id
  }

  /** Every row that was there stays, and every new one is at or after the cutoff. */
  predicate OnlyAdds(before: seq<Event>, after: seq<Event>, cutoff: Time) {
    before <= after && forall k :: |before| <= k < |after| ==> after[k].created >= cutoff
  }

  /** The due leads of the list are in the inbox. */
  predicate Offered(events: seq<Event>, leads: seq<GraphLead>, cutoff: Time) {
    forall i :: 0 <= i < |leads| && Due(leads[i], cutoff) && leads[i].id.Some? ==> Has(events, leads[i].id.value)
  }

  lemma {:induction false} HasStays(before: seq<Event>, after: seq<Event>, id: LeadId)
    requires before <= after && Has(before, id)
    ensures Has(after, id)
  {
    var k :| 0 <= k < |before| && before[k].id == id;
    assert after[k].id == id;
  }

  lemma {:induction false} OfferedMore(before: seq<Event>, after: seq<Event>, a: seq<GraphLead>, b: seq<GraphLead>,
                                       cutoff: Time)
    requires before <= after && Offered(before, a, cutoff) && Offered(after, b, cutoff)
    ensures Offered(after, a + b, cutoff)
  {
    forall i | 0 <= i < |a| && Due(a[i], cutoff) && a[i].id.Some? ensures Has(after, a[i].id.value) {
      HasStays(before, after, a[i].id.value);
    }
  }

  /** Newest first, so after a page that is older there is nothing left to offer. */
  lemma {:induction false} NothingAfter(events: seq<Event>, all: seq<GraphLead>, n: nat, cutoff: Time)
    requires NewestFirst(all) && 0 < n <= |all| && Older(all[n - 1], cutoff) && Offered(events, all[..n], cutoff)
    ensures Offered(events, all, cutoff) && CountDue(all, cutoff) == CountDue(all[..n], cutoff)
  {
    forall i | n <= i < |all| ensures !Due(all[i], cutoff) {
      assert all[n - 1].created.value >= all[i].created.value;
    }
    NoneDue(all[n..], cutoff);
    CountDueConcat(all[..n], all[n..], cutoff);
    assert all[..n] + all[n..] == all;
    forall i | 0 <= i < n && Due(all[i], cutoff) ensures Has(events, all[i].id.value) {
      assert all[..n][i] == all[i];
    }
  }

  class Inbox {
    var events: seq<Event>

    /** insert ... on conflict do nothing returning true. */
    method Insert(id: LeadId, created: Time) returns (inserted: bool)
      requires Unique(events)
      modifies this
      ensures Unique(events) && Has(events, id)
      ensures inserted == !Has(old(events), id)
      ensures events == if inserted then old(events) + [Event(id, created)] else old(events)
    {
      inserted := !Has(events, id);
      if inserted {
        events := events + [Event(id, created)];
        assert events[|events| - 1].id == id;
      }
    }

    /** One lead of a page: without a time, too old, without an id, already there, or added. The insert may fail. */
    method Offer(lead: GraphLead, cutoff: Time) returns (older: bool, due: bool, inserted: bool, failed: bool)
      requires Unique(events)
      modifies this
      ensures Unique(events)
      ensures older == Older(lead, cutoff) && due == Due(lead, cutoff) && (inserted ==> due)
      ensures older <==> lead.created.Some? && lead.created.value < cutoff
      ensures due <==> lead.created.Some? && lead.created.value >= cutoff
      ensures inserted <==> due && lead.id.Some? && !failed && !Has(old(events), lead.id.value)
      ensures events == if inserted then old(events) + [Event(lead.id.value, lead.created.value)] else old(events)
      ensures OnlyAdds(old(events), events, cutoff) && |events| == |old(events)| + if inserted then 1 else 0
      ensures !failed ==> Offered(events, [lead], cutoff)
    {
      older, due, inserted, failed := false, false, false, false;
      if lead.created.None? {
        return;
      }
      if lead.created.value < cutoff {
        older := true;
        return;
      }
      due := true;
      if lead.id.None? {
        return;
      }
      failed := *;
      if !failed {
        inserted := Insert(lead.id.value, lead.created.value);
      }
    }

    /** `read` are the leads it came to; the one whose insert fails has been seen already. */
    method IngestPage(leads: seq<GraphLead>, cutoff: Time)
      returns (seen: nat, created: nat, older: nat, failed: bool, ghost read: seq<GraphLead>)
      requires Unique(events)
      modifies this
      ensures Unique(events) && OnlyAdds(old(events), events, cutoff) && |events| == |old(events)| + created
      ensures read <= leads && seen == CountDue(read, cutoff) && created <= seen
      ensures !failed ==> read == leads && older == CountOlder(leads, cutoff) && Offered(events, leads, cutoff)
    {
      seen, created, older, failed := 0, 0, 0, false;
      for i := 0 to |leads|
        invariant Unique(events) && OnlyAdds(old(events), events, cutoff) && |events| == |old(events)| + created
        invariant seen == CountDue(leads[..i], cutoff) && older == CountOlder(leads[..i], cutoff) && created <= seen
        invariant Offered(events, leads[..i], cutoff) && !failed
      {
        CountStep(leads, i, cutoff);
        ghost var was := events;
        var isOlder, isDue, inserted;
        isOlder, isDue, inserted, failed := Offer(leads[i], cutoff);
        if inserted {
          created := created + 1;
        }
        if isDue {
          seen := seen + 1;
        }
        if failed {
          read := leads[..i + 1];
          return;
        }
        if isOlder {
          older := older + 1;
        }
        OfferedMore(was, events, leads[..i], [leads[i]], cutoff);
        assert leads[..i + 1] == leads[..i] + [leads[i]];
      }
      assert leads[..|leads|] == leads;
      read := leads;
    }

    /**
     reconcileForm. It ends because a cursor that comes twice is an error. Whatever happens, it adds nothing older
     than the cutoff, counts what it added, and counts the due leads among those it read; a return without an error
     has offered and counted every lead that is due.
     */
    method ReconcileForm(form: Form, cutoff: Time)
      returns (seen: nat, created: nat, error: Option<Error>, ghost read: seq<GraphLead>)
      requires Unique(events)
      modifies this
      ensures Unique(events) && OnlyAdds(old(events), events, cutoff) && |events| == |old(events)| + created
      ensures seen == CountDue(read, cutoff) && created <= seen
      ensures Listed(form) ==> read <= form.listing.value
      ensures error.None? && Listed(form) ==>
                Offered(events, form.listing.value, cutoff) && seen == CountDue(form.listing.value, cutoff)
    {
      seen, created, error, read := 0, 0, None, [];
      var after: Option<Cursor> := None;
      var seenCursors: set<Cursor> := {};
      while true
        invariant Unique(events) && OnlyAdds(old(events), events, cutoff) && |events| == |old(events)| + created
        invariant seen == CountDue(read, cutoff) && created <= seen
        invariant seenCursors <= form.cursors
        invariant Listed(form) ==> Reached(form, after, events, read, cutoff)
        decreases |form.cursors - seenCursors|
      {
        var reply := ListLeads(form, after);
        if reply.Failed? {
          error := Some(ListFailed);
          return;
        }
        ghost var was, readBefore := events, read;
        var seenHere, createdHere, older, failed;
        ghost var readHere;
        seenHere, createdHere, older, failed, readHere := IngestPage(reply.leads, cutoff);
        CountDueConcat(read, readHere, cutoff);
        seen, created, read := seen + seenHere, created + createdHere, read + readHere;
        if Listed(form) {
          ReadIsPrefix(form, after, was, readBefore, reply.leads, reply.next, readHere, cutoff);
        }
        if failed {
          error := Some(InsertFailed);
          return;
        }
        if Listed(form) {
          PageReached(form, after, was, events, readBefore, reply.leads, reply.next, cutoff);
        }
        if reply.next.None? || (|reply.leads| > 0 && older == |reply.leads|) {
          break;
        }
        if reply.next.value in seenCursors {
          error := Some(CursorRepeated);
          return;
        }
        FewerLeft(form.cursors, seenCursors, reply.next.value);
        seenCursors := seenCursors + {reply.next.value};
        after := reply.next;
      }
    }

    /** reconcilePage: every form of the page from one cutoff, stopping at the first error. */
    method ReconcilePage(forms: seq<Form>, now: Time, lookback: Time, full: bool, ingestAfter: Time)
      returns (seen: nat, created: nat, error: Option<Error>)
      requires Unique(events)
      modifies this
      ensures Unique(events) && |events| == |old(events)| + created && created <= seen
      ensures OnlyAdds(old(events), events, ingestAfter)
      ensures OnlyAdds(old(events), events, now - if full then WEEK else lookback)
      ensures error.None? ==> forall i :: 0 <= i < |forms| && Listed(forms[i]) ==>
                Offered(events, forms[i].listing.value, Cutoff(now, lookback, full, ingestAfter))
      ensures error.None? && AllListed(forms) ==> seen == SumDue(forms, Cutoff(now, lookback, full, ingestAfter))
    {
      seen, created, error := 0, 0, None;
      var cutoff := now - if full then WEEK else lookback;
      if ingestAfter > cutoff {
        cutoff := ingestAfter;
      }
      for i := 0 to |forms|
        invariant Unique(events) && OnlyAdds(old(events), events, cutoff) && |events| == |old(events)| + created
        invariant created <= seen && (AllListed(forms) ==> seen == SumDue(forms[..i], cutoff))
        invariant error.None?
        invariant forall k :: 0 <= k < i && Listed(forms[k]) ==> Offered(events, forms[k].listing.value, cutoff)
      {
        ghost var was := events;
        var seenHere, createdHere;
        ghost var read;
        seenHere, createdHere, error, read := ReconcileForm(forms[i], cutoff);
        seen, created := seen + seenHere, created + createdHere;
        if error.Some? {
          return;
        }
        assert forms[..i + 1][..i] == forms[..i];
        forall k | 0 <= k < i && Listed(forms[k]) ensures Offered(events, forms[k].listing.value, cutoff) {
          OfferedStays(was, events, forms[k].listing.value, cutoff);
        }
      }
      assert forms[..|forms|] == forms;
    }
  }

  predicate AllListed(forms: seq<Form>) {
    forall i :: 0 <= i < |forms| ==> Listed(forms[i])
  }

  /** The due leads of all forms. */
  function SumDue(forms: seq<Form>, cutoff: Time): nat {
    if forms == [] then 0
    else
      var last := forms[|forms| - 1];
      SumDue(forms[..|forms| - 1], cutoff) + if last.listing.Some? then CountDue(last.listing.value, cutoff) else 0
  }

  lemma {:induction false} OfferedStays(before: seq<Event>, after: seq<Event>, leads: seq<GraphLead>, cutoff: Time)
    requires before <= after && Offered(before, leads, cutoff)
    ensures Offered(after, leads, cutoff)
  {
    OfferedMore(before, after, leads, [], cutoff);
    assert leads + [] == leads;
  }

  /** Everything before the cursor has been read and offered. */
  predicate Reached(form: Form, after: Option<Cursor>, events: seq<Event>, read: seq<GraphLead>, cutoff: Time)
    requires Listed(form)
  {
    && after in form.before && form.before[after] <= |form.listing.value|
    && read == form.listing.value[..form.before[after]] && Offered(events, read, cutoff)
  }

  lemma {:induction false} ReadIsPrefix(form: Form, after: Option<Cursor>, was: seq<Event>, read: seq<GraphLead>,
                                        leads: seq<GraphLead>, next: Option<Cursor>, here: seq<GraphLead>, cutoff: Time)
    requires Listed(form) && Reached(form, after, was, read, cutoff) && here <= leads
    requires PageFits(form, form.listing.value, after, leads, next)
    ensures read + here <= form.listing.value
  {
    var all, n := form.listing.value, form.before[after];
    assert all[..n] + here == all[..n + |here|];
  }

  lemma {:induction false} PageReached(form: Form, after: Option<Cursor>, was: seq<Event>, events: seq<Event>,
                                       read: seq<GraphLead>, leads: seq<GraphLead>, next: Option<Cursor>, cutoff: Time)
    requires Listed(form) && Reached(form, after, was, read, cutoff) && was <= events && Offered(events, leads, cutoff)
    requires PageFits(form, form.listing.value, after, leads, next)
    ensures next.Some? ==> Reached(form, next, events, read + leads, cutoff)
    ensures next.None? || (leads != [] && CountOlder(leads, cutoff) == |leads|) ==>
              && Offered(events, form.listing.value, cutoff)
              && CountDue(form.listing.value, cutoff) == CountDue(read + leads, cutoff)
  {
    var all, n := form.listing.value, form.before[after];
    OfferedMore(was, events, read, leads, cutoff);
    assert read + leads == all[..n + |leads|];
    if next.None? {
      assert all[..|all|] == all;
    }
    if leads != [] && CountOlder(leads, cutoff) == |leads| {
      assert all[n + |leads| - 1] == leads[|leads| - 1];
      NothingAfter(events, all, n + |leads|, cutoff);
    }
  }

  lemma {:induction false} FewerLeft(cursors: set<Cursor>, seen: set<Cursor>, c: Cursor)
    requires c in cursors && c !in seen
    ensures |cursors - (seen + {c})| < |cursors - seen|
  {
    assert cursors - seen == (cursors - (seen + {c})) + {c};
  }
}

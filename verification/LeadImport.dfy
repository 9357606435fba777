/**
 The sheet import as a writer of leads (internal/biuroimport/importer.go): beside the requests of the CRM it stores a
 first conversation and comments under fixed ids, sets the call status, and leaves the v2 status as it is. An import
 can be repeated at any time.
 */
module LeadImport {
  import opened Prelude
  import opened LeadModel
  import opened EventCorrection
  import opened LeadState

  const FIRST_CONVERSATION := "Pierwsza rozmowa z klientem \U{2014} import z arkusza Biuro Leads Status"

  datatype Said = Said(stamp: Stamp, text: string)

  /** What may happen to a lead: a request, or an import with or without a first conversation. */
  datatype Change = Ask(event: Event) | Import(conversation: Option<Stamp>, comments: seq<Said>)

  function ConversationEntry(stamp: Stamp): Entry {
    Entry(stamp.at, stamp.id, CallChanged, CallCategory, CallCode(Reached), Some(FIRST_CONVERSATION), None, None, None,
          [])
  }

  function CommentEntry(said: Said): Entry {
    Entry(said.stamp.at, said.stamp.id, CommentAdded, CommentCategory, NoCode, Some(said.text), None, None, None, [])
  }

  /** insert ... on conflict (id) do nothing. */
  function Added(entries: seq<Entry>, e: Entry): seq<Entry> {
    if exists i :: 0 <= i < |entries| && entries[i].id == e.id then entries else entries + [e]
  }

  function AddedComments(entries: seq<Entry>, comments: seq<Said>): seq<Entry> {
    if comments == [] then entries
    else Added(AddedComments(entries, comments[..|comments| - 1]), CommentEntry(comments[|comments| - 1]))
  }

  /** applyLead on a stored lead: the call status is set even when the entries are there already. */
  function Imported(l: Lead, conversation: Option<Stamp>, comments: seq<Said>): Lead {
    var entries := if conversation.None? then l.entries else Added(l.entries, ConversationEntry(conversation.value));
    l.(call := if conversation.None? then l.call else Some(Reached), entries := AddedComments(entries, comments))
  }

  function AfterChange(l: Lead, c: Change): Lead {
    match c
    case Ask(event) => After(l, event)
    case Import(conversation, comments) => Imported(l, conversation, comments)
  }

  function RunAll(l: Lead, changes: seq<Change>): Lead
    decreases |changes|
  {
    if changes == [] then l else RunAll(AfterChange(l, changes[0]), changes[1..])
  }

  // ---- what imports keep ---------------------------------------------------------------------

  lemma {:induction false} AddedKeepsOk(entries: seq<Entry>, e: Entry)
    requires EntriesOk(entries) && UndoesToOpen(e) && ChainOk(e)
    ensures EntriesOk(Added(entries, e))
  {
    EntriesAppend(entries, e);
  }

  lemma {:induction false} CommentsKeepOk(entries: seq<Entry>, comments: seq<Said>)
    requires EntriesOk(entries)
    ensures EntriesOk(AddedComments(entries, comments))
  {
    if comments != [] {
      CommentsKeepOk(entries, comments[..|comments| - 1]);
      AddedKeepsOk(AddedComments(entries, comments[..|comments| - 1]), CommentEntry(comments[|comments| - 1]));
    }
  }

  lemma {:induction false} ChangeKeepsSteady(l: Lead, c: Change)
    requires Steady(l)
    ensures Steady(AfterChange(l, c))
  {
    match c
    case Ask(event) => StepKeeps(l, event);
    case Import(conversation, comments) =>
      if conversation.Some? {
        AddedKeepsOk(l.entries, ConversationEntry(conversation.value));
        CommentsKeepOk(Added(l.entries, ConversationEntry(conversation.value)), comments);
      } else {
        CommentsKeepOk(l.entries, comments);
      }
  }

  /** With imports at any point, closed leads stay quiet, lost stays closed_lost, and entries keep their chains. */
  lemma {:induction false} AllKeepSteady(l: Lead, changes: seq<Change>)
    requires Steady(l)
    ensures Steady(RunAll(l, changes))
    decreases |changes|
  {
    if changes != [] {
      ChangeKeepsSteady(l, changes[0]);
      AllKeepSteady(AfterChange(l, changes[0]), changes[1..]);
    }
  }

  // ---- the mirror of the call status ---------------------------------------------------------

  /** Accepted requests that write the v2 status. */
  predicate WritesV2(l: Lead, e: Event) {
    Accepted(l, e) &&
    match e
    case Do(a, _) => a.CallResult? || a.ClientChange? || a.Reopen? || a.V2Change?
    case Correct(_, _) => AcceptedFollowing(l, e)
    case MarkDuplicate(_, _) => !l.client.ClosedLost?
    case CreateProject(_, _) => true
    case _ => false
  }

  predicate RestoresMirror(l: Lead, c: Change) {
    match c
    case Ask(event) => WritesV2(l, event)
    case Import(conversation, _) => conversation.Some? && l.v2 == Some(V2.Success)
  }

  predicate BreaksMirror(l: Lead, c: Change) {
    && c.Import? && c.conversation.Some?
    && (l.v2 == Some(New) || l.v2 == Some(V2.Later) || l.v2 == Some(V2.NoAnswer))
  }

  lemma {:induction false} RequestMirrorIff(l: Lead, e: Event)
    ensures CallsMirrored(After(l, e)) <==> WritesV2(l, e) || CallsMirrored(l)
  {
    if e.Do? {
      if Guard(l, e.activity).None? {
        ActivityMirrorIff(l, e.activity, e.stamp);
      }
    } else if e.Correct? {
      CorrectionMirrorIff(l, e);
    }
  }

  lemma {:induction false} CorrectionMirrorIff(l: Lead, e: Event)
    requires e.Correct?
    ensures CallsMirrored(After(l, e)) <==> AcceptedFollowing(l, e) || CallsMirrored(l)
  {
  }

  lemma {:induction false} ActivityMirrorIff(l: Lead, a: Activity, stamp: Stamp)
    requires Guard(l, a).None?
    ensures CallsMirrored(AfterActivity(l, a, stamp)) <==> WritesV2(l, Do(a, stamp)) || CallsMirrored(l)
  {
  }

  lemma {:induction false} ChangeMirrorIff(l: Lead, c: Change)
    ensures CallsMirrored(AfterChange(l, c)) <==> RestoresMirror(l, c) || (CallsMirrored(l) && !BreaksMirror(l, c))
  {
    if c.Ask? {
      RequestMirrorIff(l, c.event);
    }
  }

  predicate NeverBreaksMirror(l: Lead, changes: seq<Change>)
    decreases |changes|
  {
    changes != [] ==> !BreaksMirror(l, changes[0]) && NeverBreaksMirror(AfterChange(l, changes[0]), changes[1..])
  }

  /** Some change restores the mirror, and no import after it breaks it. */
  predicate MirrorRestored(l: Lead, changes: seq<Change>)
    decreases |changes|
  {
    && changes != []
    && var next := AfterChange(l, changes[0]);
       || (RestoresMirror(l, changes[0]) && NeverBreaksMirror(next, changes[1..]))
       || MirrorRestored(next, changes[1..])
  }

  lemma {:induction false} RunMirrorIff(l: Lead, changes: seq<Change>)
    ensures CallsMirrored(RunAll(l, changes))
       <==> (CallsMirrored(l) && NeverBreaksMirror(l, changes)) || MirrorRestored(l, changes)
    decreases |changes|
  {
    if changes != [] {
      ChangeMirrorIff(l, changes[0]);
      RunMirrorIff(AfterChange(l, changes[0]), changes[1..]);
    }
  }

  /**
   After any run of requests and imports on a new lead all invariants hold exactly when no import broke the mirror, or
   some change restored it and no import after that broke it again.
   */
  lemma {:induction false} InvAfterImportsIff(changes: seq<Change>)
    ensures Inv(RunAll(NEW_LEAD, changes))
       <==> NeverBreaksMirror(NEW_LEAD, changes) || MirrorRestored(NEW_LEAD, changes)
  {
    AllKeepSteady(NEW_LEAD, changes);
    RunMirrorIff(NEW_LEAD, changes);
  }

  // ---- one import ----------------------------------------------------------------------------

  /** An import with a conversation keeps the mirror exactly when the v2 status is none of new, later and noanswer. */
  lemma {:induction false} ImportKeepsMirrorIff(l: Lead, at: Stamp, comments: seq<Said>)
    requires Good(l)
    ensures Inv(Imported(l, Some(at), comments))
       <==> l.v2 != Some(New) && l.v2 != Some(V2.Later) && l.v2 != Some(V2.NoAnswer)
  {
    ChangeKeepsSteady(l, Import(Some(at), comments));
  }

  /** And it keeps the v2 status in step exactly when the client status decides it or the call was reached already. */
  lemma {:induction false} ImportKeepsFreshIff(l: Lead, at: Stamp, comments: seq<Said>)
    requires Fresh(l)
    ensures Fresh(Imported(l, Some(at), comments)) <==> !l.client.NewLead? || l.call == Some(Reached)
  {
  }

  /** A lead from the sheet that was called back in v2 breaks it when it is imported again. */
  lemma {:induction false} ImportCanBreakMirror(s: Stamp, at: Stamp)
    ensures var l := Run(NEW_LEAD, [Do(V2Change(V2.Later, Some(1), true), s)] + []);
            Inv(l) && l.v2 == Some(V2.Later) && !Inv(Imported(l, Some(at), []))
  {
    var later := Do(V2Change(V2.Later, Some(1), true), s);
    RunSplit(NEW_LEAD, later, []);
    RunKeeps(NEW_LEAD, [later] + []);
  }

  // ---- what an import writes -----------------------------------------------------------------

  predicate HasId(entries: seq<Entry>, id: nat) {
    exists i :: 0 <= i < |entries| && entries[i].id == id
  }

  /** The line of a first conversation: a call that was reached, in the category of calls. */
  predicate IsConversation(e: Entry, at: Stamp) {
    && e.at == at.at && e.id == at.id && e.what == CallChanged && e.category == CallCategory
    && e.code == CallCode(Reached) && e.oldCall == None && e.oldClient == None && e.due == None && e.corrections == []
  }

  predicate IsComment(e: Entry, said: Said) {
    && e.at == said.stamp.at && e.id == said.stamp.id && e.what == CommentAdded && e.category == CommentCategory
    && e.comment == Some(said.text) && e.due == None && e.corrections == []
  }

  /** Nothing is added under an id that is there already. */
  predicate NewIds(entries: seq<Entry>, after: seq<Entry>) {
    forall i, k :: |entries| <= i < |after| && 0 <= k < i ==> after[k].id != after[i].id
  }

  lemma {:induction false} CommentsWrite(entries: seq<Entry>, comments: seq<Said>)
    ensures var after := AddedComments(entries, comments);
            && entries <= after && NewIds(entries, after)
            && (forall k :: 0 <= k < |comments| ==> HasId(after, comments[k].stamp.id))
            && (forall i :: |entries| <= i < |after| ==>
                  exists k :: 0 <= k < |comments| && IsComment(after[i], comments[k]))
  {
    if comments != [] {
      var n := |comments| - 1;
      CommentsWrite(entries, comments[..n]);
      var before, after := AddedComments(entries, comments[..n]), AddedComments(entries, comments);
      AddedHas(before, CommentEntry(comments[n]));
      forall k | 0 <= k < |comments| ensures HasId(after, comments[k].stamp.id) {
        if k < n {
          assert comments[..n][k] == comments[k];
          assert HasId(before, comments[k].stamp.id);
        }
      }
      forall i | |entries| <= i < |after| ensures exists k :: 0 <= k < |comments| && IsComment(after[i], comments[k]) {
        if i < |before| {
          var k :| 0 <= k < n && IsComment(before[i], comments[..n][k]);
          assert IsComment(after[i], comments[k]);
        } else {
          assert IsComment(after[i], comments[n]);
        }
      }
    }
  }

  lemma {:induction false} AddedHas(entries: seq<Entry>, e: Entry)
    ensures entries <= Added(entries, e) && HasId(Added(entries, e), e.id)
    ensures forall id :: HasId(entries, id) ==> HasId(Added(entries, e), id)
  {
    var after := Added(entries, e);
    assert after != entries ==> after[|entries|].id == e.id;
    forall id | HasId(entries, id) ensures HasId(after, id) {
      var i :| 0 <= i < |entries| && entries[i].id == id;
      assert after[i].id == id;
    }
  }

  /** The call status, and the lines that were not there yet: nothing else of the lead changes. */
  lemma {:induction false} ImportWrites(l: Lead, conversation: Option<Stamp>, comments: seq<Said>)
    ensures var after := Imported(l, conversation, comments);
            && after == l.(call := if conversation == None then l.call else Some(Reached), entries := after.entries)
            && l.entries <= after.entries && NewIds(l.entries, after.entries)
            && (forall k :: 0 <= k < |comments| ==> HasId(after.entries, comments[k].stamp.id))
            && (conversation.Some? && !HasId(l.entries, conversation.value.id) ==>
                  |after.entries| > |l.entries| && IsConversation(after.entries[|l.entries|], conversation.value))
            && (forall i :: |l.entries| <= i < |after.entries| ==>
                  || (i == |l.entries| && conversation.Some? && IsConversation(after.entries[i], conversation.value))
                  || exists k :: 0 <= k < |comments| && IsComment(after.entries[i], comments[k]))
  {
    var first := if conversation.None? then l.entries else Added(l.entries, ConversationEntry(conversation.value));
    CommentsWrite(first, comments);
  }
}

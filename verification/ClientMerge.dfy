/**
 Merging duplicate clients (internal/crmapi/clients.go): the newer client stays as a tombstone that points to the
 older one, its leads, projects and tasks move, and a lookup follows the pointers for at most ten redirects. A
 merge locks both client rows first, so it is one step. A new lead is matched to a client without a lock and stored
 later (supabase/migrations/20261023120000_clients.sql), so that is two steps with merges in between.
 */
module ClientMerge {
  import opened Prelude

  type Id = nat
  type Office = nat

  /** `created` and the id give the order of age. */
  datatype Client = Client(office: Office, created: nat, merged: Option<Id>)

  type Table = map<Id, Client>

  /** The client a row points to, and the office of the row. */
  datatype Link = Link(client: Id, office: Office)
  type Links = map<nat, Link>

  /**
   `pending` are leads whose insert has been matched to a client but does not hold its lock on the client row yet.
   Links of tasks to clients come from outside the API, which accepts only links to leads (internal/crmapi/tasks.go).
   */
  datatype Registry = Registry(clients: Table, leads: Links, projects: Links, tasks: Links, pending: Links)

  const EMPTY := Registry(map[], map[], map[], map[], map[])
  const MAX_REDIRECTS := 10

  datatype Lookup = Found(client: Id, redirectedFrom: Option<Id>) | NotFound | Forbidden | TooFar

  /** Created earlier, or at the same time with the smaller id. */
  predicate Older(t: Table, a: Id, b: Id)
    requires a in t && b in t
  {
    t[a].created < t[b].created || (t[a].created == t[b].created && a < b)
  }

  predicate Live(t: Table, c: Id) {
    c in t && t[c].merged.None?
  }

  /** Every tombstone points to a strictly older client of its office. */
  predicate Forest(t: Table) {
    forall c :: c in t && t[c].merged.Some? ==>
      var to := t[c].merged.value;
      to in t && t[to].office == t[c].office && Older(t, to, c)
  }

  /** The client a code leads to, however many merges lie between. */
  function Resolve(t: Table, c: Id): (r: Id)
    requires Forest(t) && c in t
    ensures Live(t, r) && t[r].office == t[c].office && (r == c || Older(t, r, c))
    decreases t[c].created, c
  {
    if t[c].merged.None? then c else Resolve(t, t[c].merged.value)
  }

  function Depth(t: Table, c: Id): nat
    requires Forest(t) && c in t
    decreases t[c].created, c
  {
    if t[c].merged.None? then 0 else 1 + Depth(t, t[c].merged.value)
  }

  // ---- the steps -----------------------------------------------------------------------------

  datatype Error = Invalid | Missing | OtherOffice | AlreadyMerged

  datatype Event =
    | Match(lead: nat, office: Office, client: Id)
    | Insert(lead: nat)
    | Rollback(lead: nat)
    | AddClient(lead: nat, office: Office, id: Id, created: nat)
    | AddProject(project: nat, ofLead: nat)
    | Merge(path: Id, duplicate: Id)

  function Moved(links: Links, from: Id, to: Id): Links {
    map k | k in links :: if links[k].client == from then links[k].(client := to) else links[k]
  }

  function MergeError(t: Table, path: Id, duplicate: Id): Option<Error> {
    if path == duplicate then Some(Invalid)
    else if path !in t || duplicate !in t then Some(Missing)
    else if t[path].office != t[duplicate].office then Some(OtherOffice)
    else if t[path].merged.Some? || t[duplicate].merged.Some? then Some(AlreadyMerged)
    else None
  }

  /** The newer of the two is merged into the older, whichever the request named. */
  function Into(t: Table, older: Id, newer: Id): Table
    requires newer in t
  {
    t[newer := t[newer].(merged := Some(older))]
  }

  function Merged(s: Registry, older: Id, newer: Id): Registry
    requires newer in s.clients
  {
    Registry(Into(s.clients, older, newer), Moved(s.leads, newer, older), Moved(s.projects, newer, older),
             Moved(s.tasks, newer, older), s.pending)
  }

  /**
   The trigger's query finds a live client of the office; the insert then waits for its share lock on that client and
   goes on with whatever the row has become. Without a match the client is inserted together with the lead. A project
   copies the link of its lead, whose row it holds.
   */
  function After(s: Registry, e: Event): Registry {
    match e
    case Match(lead, office, c) =>
      if Live(s.clients, c) && s.clients[c].office == office && lead !in s.leads && lead !in s.pending then
        s.(pending := s.pending[lead := Link(c, office)])
      else s
    case Insert(lead) =>
      if lead in s.pending then s.(leads := s.leads[lead := s.pending[lead]], pending := s.pending - {lead}) else s
    case Rollback(lead) => s.(pending := s.pending - {lead})
    case AddClient(lead, office, id, created) =>
      if id !in s.clients && lead !in s.leads && lead !in s.pending then
        s.(clients := s.clients[id := Client(office, created, None)], leads := s.leads[lead := Link(id, office)])
      else s
    case AddProject(project, lead) =>
      if lead in s.leads && project !in s.projects then s.(projects := s.projects[project := s.leads[lead]]) else s
    case Merge(path, duplicate) =>
      if MergeError(s.clients, path, duplicate).Some? then s
      else if Older(s.clients, path, duplicate) then Merged(s, path, duplicate)
      else Merged(s, duplicate, path)
  }

  function Run(s: Registry, events: seq<Event>): Registry
    decreases |events|
  {
    if events == [] then s else Run(After(s, events[0]), events[1..])
  }

  /** Every link is to a client, live or merged, of the row's own office. */
  predicate LinksKnown(t: Table, links: Links) {
    forall k :: k in links ==> links[k].client in t && t[links[k].client].office == links[k].office
  }

  predicate LinksLive(t: Table, links: Links) {
    forall k :: k in links ==> Live(t, links[k].client)
  }

  predicate Inv(s: Registry) {
    && Forest(s.clients)
    && LinksKnown(s.clients, s.leads) && LinksKnown(s.clients, s.projects)
    && LinksKnown(s.clients, s.tasks) && LinksKnown(s.clients, s.pending)
    && s.leads.Keys !! s.pending.Keys
  }

  /** No stored row points to a tombstone. */
  predicate AllLive(s: Registry) {
    LinksLive(s.clients, s.leads) && LinksLive(s.clients, s.projects) && LinksLive(s.clients, s.tasks)
  }

  // ---- the handlers --------------------------------------------------------------------------

  class Store {
    var clients: Table
    var leads: Links
    var projects: Links
    var tasks: Links

    /** The rows together with the inserts that other transactions have under way. */
    ghost function State(pending: Links): Registry
      reads this
    {
      Registry(clients, leads, projects, tasks, pending)
    }

    constructor ()
      ensures State(map[]) == EMPTY && Inv(EMPTY)
    {
      clients, leads, projects, tasks := map[], map[], map[], map[];
    }

    /** loadReadableClient: one read per redirect. */
    method Load(requested: Id, readable: set<Office>) returns (r: Lookup)
      requires Forest(clients)
      ensures requested !in clients ==> r == NotFound
      ensures requested in clients && clients[requested].office !in readable ==> r == Forbidden
      ensures requested in clients && clients[requested].office in readable ==>
                r == if Depth(clients, requested) > 10 then TooFar
                     else Found(Resolve(clients, requested),
                                if Depth(clients, requested) > 0 then Some(requested) else None)
    {
      var id, hops := requested, 0;
      while true
        invariant 0 <= hops <= MAX_REDIRECTS
        invariant requested !in clients ==> id == requested
        invariant requested in clients ==>
                    && id in clients && clients[id].office == clients[requested].office
                    && Resolve(clients, id) == Resolve(clients, requested)
                    && Depth(clients, requested) == hops + Depth(clients, id)
                    && (id == requested <==> hops == 0) && (id == requested || Older(clients, id, requested))
        decreases MAX_REDIRECTS - hops
      {
        if id !in clients {
          return NotFound;
        }
        if clients[id].office !in readable {
          return Forbidden;
        }
        if clients[id].merged.None? {
          break;
        }
        if hops >= MAX_REDIRECTS {
          return TooFar;
        }
        id, hops := clients[id].merged.value, hops + 1;
      }
      return Found(id, if id != requested then Some(requested) else None);
    }

    /** handleMergeClients: both rows are locked and checked, then everything the newer one had moves. */
    method MergeClients(path: Id, duplicate: Id) returns (error: Option<Error>)
      modifies this
      ensures error == MergeError(old(clients), path, duplicate)
      ensures forall p: Links :: State(p) == After(old(State(p)), Merge(path, duplicate))
    {
      if path == duplicate {
        return Some(Invalid);
      }
      if path !in clients || duplicate !in clients {
        return Some(Missing);
      }
      var first, second := clients[path], clients[duplicate];
      if first.office != second.office {
        return Some(OtherOffice);
      }
      if first.merged.Some? || second.merged.Some? {
        return Some(AlreadyMerged);
      }
      var older, newer := path, duplicate;
      if second.created < first.created || (second.created == first.created && duplicate < path) {
        older, newer := duplicate, path;
      }
      leads := Moved(leads, newer, older);
      projects := Moved(projects, newer, older);
      tasks := Moved(tasks, newer, older);
      clients := clients[newer := clients[newer].(merged := Some(older))];
      return None;
    }
  }

  // ---- one merge -----------------------------------------------------------------------------

  /** What the guard leaves: two different live clients of one office, the first one older. */
  predicate Mergeable(t: Table, older: Id, newer: Id) {
    && Live(t, older) && Live(t, newer) && older != newer
    && t[older].office == t[newer].office && Older(t, older, newer)
  }

  lemma {:induction false} MergeKeepsForest(t: Table, older: Id, newer: Id)
    requires Forest(t) && Mergeable(t, older, newer)
    ensures Forest(Into(t, older, newer))
  {
  }

  /** One merge changes where codes lead exactly by sending the newer client's class to the older one. */
  lemma {:induction false} MergeResolves(t: Table, older: Id, newer: Id, c: Id)
    requires Mergeable(t, older, newer) && Forest(t) && Forest(Into(t, older, newer)) && c in t
    ensures Resolve(Into(t, older, newer), c) == if Resolve(t, c) == newer then older else Resolve(t, c)
    decreases t[c].created, c
  {
    if t[c].merged.Some? {
      MergeResolves(t, older, newer, t[c].merged.value);
    } else if c == newer {
      assert Resolve(Into(t, older, newer), c) == Resolve(Into(t, older, newer), older);
    }
  }

  function Owned(links: Links, c: Id): set<nat> {
    set k | k in links && links[k].client == c
  }

  /** The survivor ends with what both had, the tombstone with nothing, everyone else as before. */
  lemma {:induction false} TotalsAreConserved(links: Links, older: Id, newer: Id)
    requires older != newer
    ensures var after := Moved(links, newer, older);
            && after.Keys == links.Keys
            && |Owned(after, older)| == |Owned(links, older)| + |Owned(links, newer)|
            && Owned(after, newer) == {}
            && forall c: Id :: c != older && c != newer ==> Owned(after, c) == Owned(links, c)
  {
    assert Owned(links, older) !! Owned(links, newer);
    assert Owned(Moved(links, newer, older), older) == Owned(links, older) + Owned(links, newer);
  }

  lemma {:induction false} MergeKeepsLinks(t: Table, links: Links, older: Id, newer: Id)
    requires Mergeable(t, older, newer) && LinksKnown(t, links)
    ensures LinksKnown(Into(t, older, newer), links) && LinksKnown(Into(t, older, newer), Moved(links, newer, older))
    ensures LinksLive(Into(t, older, newer), Moved(links, newer, older)) <==> LinksLive(t, links)
  {
    var after := Moved(links, newer, older);
    forall k | k in links
      ensures k in after && (Live(Into(t, older, newer), after[k].client) <==> Live(t, links[k].client))
    {
    }
    assert after.Keys == links.Keys;
  }

  /** Moving the links changes where none of them leads, and a live one then points there at once. */
  lemma {:induction false} MovedIsResolved(t: Table, links: Links, older: Id, newer: Id, k: nat)
    requires Mergeable(t, older, newer) && Forest(t) && Forest(Into(t, older, newer))
    requires LinksKnown(t, links) && k in links
    ensures var after, to := Into(t, older, newer), Moved(links, newer, older)[k].client;
            && to in after && Resolve(after, to) == Resolve(after, links[k].client)
            && (Live(t, links[k].client) ==> to == Resolve(after, links[k].client))
  {
    MergeResolves(t, older, newer, links[k].client);
    MergeResolves(t, older, newer, Moved(links, newer, older)[k].client);
  }

  // ---- all runs ------------------------------------------------------------------------------

  lemma {:induction false} MergedKeepsInv(s: Registry, older: Id, newer: Id)
    requires Inv(s) && Mergeable(s.clients, older, newer)
    ensures Inv(Merged(s, older, newer))
    ensures AllLive(Merged(s, older, newer)) <==> AllLive(s)
  {
    MergeKeepsForest(s.clients, older, newer);
    MergeKeepsLinks(s.clients, s.leads, older, newer);
    MergeKeepsLinks(s.clients, s.projects, older, newer);
    MergeKeepsLinks(s.clients, s.tasks, older, newer);
    MergeKeepsLinks(s.clients, s.pending, older, newer);
  }

  lemma {:induction false} StepKeepsInv(s: Registry, e: Event)
    requires Inv(s)
    ensures Inv(After(s, e))
  {
    match e
    case Merge(path, duplicate) =>
      if MergeError(s.clients, path, duplicate).None? {
        var first := Older(s.clients, path, duplicate);
        MergedKeepsInv(s, if first then path else duplicate, if first then duplicate else path);
      }
    case _ =>
  }

  /** In every run tombstones point to older clients of their office, and every link is to a client of its office. */
  lemma {:induction false} RunKeepsInv(s: Registry, events: seq<Event>)
    requires Inv(s)
    ensures Inv(Run(s, events))
    decreases |events|
  {
    if events != [] {
      StepKeepsInv(s, events[0]);
      RunKeepsInv(After(s, events[0]), events[1..]);
    }
  }

  /** So the client of a lead, project or task can always be found: its link leads to a live client of its office. */
  lemma {:induction false} LinksResolve(s: Registry, events: seq<Event>, k: nat)
    requires Inv(s)
    ensures var t := Run(s, events);
            && Forest(t.clients)
            && (k in t.leads ==> LeadsHome(t.clients, t.leads[k]))
            && (k in t.projects ==> LeadsHome(t.clients, t.projects[k]))
            && (k in t.tasks ==> LeadsHome(t.clients, t.tasks[k]))
  {
    RunKeepsInv(s, events);
  }

  predicate LeadsHome(t: Table, link: Link)
    requires Forest(t)
  {
    && link.client in t
    && Live(t, Resolve(t, link.client)) && t[Resolve(t, link.client)].office == link.office
  }

  lemma {:induction false} TombstoneStep(s: Registry, e: Event, c: Id)
    requires c in s.clients && s.clients[c].merged.Some?
    ensures c in After(s, e).clients && After(s, e).clients[c] == s.clients[c]
  {
  }

  /** A merge is irreversible: whatever happens later, the tombstone keeps its pointer. */
  lemma {:induction false} TombstonesStay(s: Registry, events: seq<Event>, c: Id)
    requires c in s.clients && s.clients[c].merged.Some?
    ensures c in Run(s, events).clients && Run(s, events).clients[c] == s.clients[c]
    decreases |events|
  {
    if events != [] {
      TombstoneStep(s, events[0], c);
      TombstonesStay(After(s, events[0]), events[1..], c);
    }
  }

  /** Two codes that lead to one client lead to one client forever. */
  lemma {:induction false} MergedStayMerged(s: Registry, events: seq<Event>, a: Id, b: Id)
    requires Inv(s) && a in s.clients && b in s.clients && Resolve(s.clients, a) == Resolve(s.clients, b)
    ensures var t := Run(s, events);
            Inv(t) && a in t.clients && b in t.clients && Resolve(t.clients, a) == Resolve(t.clients, b)
    decreases |events|
  {
    if events != [] {
      var next := After(s, events[0]);
      StepKeepsInv(s, events[0]);
      StepKeepsEqual(s, events[0], a, b);
      MergedStayMerged(next, events[1..], a, b);
    }
  }

  lemma {:induction false} StepKeepsEqual(s: Registry, e: Event, a: Id, b: Id)
    requires Inv(s) && Inv(After(s, e))
    requires a in s.clients && b in s.clients && Resolve(s.clients, a) == Resolve(s.clients, b)
    ensures a in After(s, e).clients && b in After(s, e).clients
    ensures Resolve(After(s, e).clients, a) == Resolve(After(s, e).clients, b)
  {
    match e
    case Merge(path, duplicate) =>
      if MergeError(s.clients, path, duplicate).None? {
        var first := Older(s.clients, path, duplicate);
        var older, newer := if first then path else duplicate, if first then duplicate else path;
        MergeResolves(s.clients, older, newer, a);
        MergeResolves(s.clients, older, newer, b);
      }
    case _ =>
      GrowResolves(s.clients, After(s, e).clients, a);
      GrowResolves(s.clients, After(s, e).clients, b);
  }

  /** Clients that are added later do not change where a code leads. */
  lemma {:induction false} GrowResolves(t: Table, bigger: Table, c: Id)
    requires Forest(t) && Forest(bigger) && c in t
    requires forall x :: x in t ==> x in bigger && bigger[x] == t[x]
    ensures Resolve(bigger, c) == Resolve(t, c)
    decreases t[c].created, c
  {
    if t[c].merged.Some? {
      GrowResolves(t, bigger, t[c].merged.value);
    }
  }

  // ---- links to tombstones -------------------------------------------------------------------

  /** An accepted merge that turns `c` into a tombstone. */
  predicate Buries(s: Registry, e: Event, c: Id) {
    && e.Merge? && MergeError(s.clients, e.path, e.duplicate).None?
    && c == if Older(s.clients, e.path, e.duplicate) then e.duplicate else e.path
  }

  predicate Buried(s: Registry, events: seq<Event>, c: Id)
    decreases |events|
  {
    events != [] && (Buries(s, events[0], c) || Buried(After(s, events[0]), events[1..], c))
  }

  /** A live client is live at the end of a run exactly when no merge on the way was into another one. */
  lemma {:induction false} LiveUntilBuried(s: Registry, events: seq<Event>, c: Id)
    requires Inv(s) && Live(s.clients, c)
    ensures Live(Run(s, events).clients, c) <==> !Buried(s, events, c)
    decreases |events|
  {
    if events != [] {
      var next := After(s, events[0]);
      StepKeepsInv(s, events[0]);
      if Buries(s, events[0], c) {
        TombstonesStay(next, events[1..], c);
      } else {
        LiveUntilBuried(next, events[1..], c);
      }
    }
  }

  /** What ends an insert under way. */
  predicate Ends(e: Event, lead: nat) {
    (e.Insert? || e.Rollback?) && e.lead == lead
  }

  lemma {:induction false} PendingWaits(s: Registry, events: seq<Event>, lead: nat)
    requires lead in s.pending && forall i :: 0 <= i < |events| ==> !Ends(events[i], lead)
    ensures lead in Run(s, events).pending && Run(s, events).pending[lead] == s.pending[lead]
    decreases |events|
  {
    if events != [] {
      assert !Ends(events[0], lead);
      PendingWaits(After(s, events[0]), events[1..], lead);
    }
  }

  /**
   A lead is stored with the client it was matched to, and that client is live exactly when no merge between the match
   and the store buried it.
   */
  lemma {:induction false} StoredLinkIsLiveIff(s: Registry, lead: nat, office: Office, c: Id, between: seq<Event>)
    requires Inv(s) && Live(s.clients, c) && s.clients[c].office == office
    requires lead !in s.leads && lead !in s.pending
    requires forall i :: 0 <= i < |between| ==> !Ends(between[i], lead)
    ensures var matched := After(s, Match(lead, office, c));
            var stored := After(Run(matched, between), Insert(lead));
            && lead in stored.leads && stored.leads[lead] == Link(c, office)
            && (Live(stored.clients, c) <==> !Buried(matched, between, c))
  {
    var matched := After(s, Match(lead, office, c));
    StepKeepsInv(s, Match(lead, office, c));
    PendingWaits(matched, between, lead);
    LiveUntilBuried(matched, between, c);
  }

  /** A lead is stored although its match has become a tombstone. */
  predicate StoresDead(s: Registry, e: Event) {
    e.Insert? && e.lead in s.pending && !Live(s.clients, s.pending[e.lead].client)
  }

  predicate NeverStoresDead(s: Registry, events: seq<Event>)
    decreases |events|
  {
    events != [] ==> !StoresDead(s, events[0]) && NeverStoresDead(After(s, events[0]), events[1..])
  }

  lemma {:induction false} StepKeepsLiveIff(s: Registry, e: Event)
    requires Inv(s) && AllLive(s)
    ensures AllLive(After(s, e)) <==> !StoresDead(s, e)
  {
    match e
    case Merge(path, duplicate) =>
      if MergeError(s.clients, path, duplicate).None? {
        var first := Older(s.clients, path, duplicate);
        MergedKeepsInv(s, if first then path else duplicate, if first then duplicate else path);
      }
    case Insert(lead) =>
      if lead in s.pending {
        assert After(s, e).leads[lead] == s.pending[lead];
      }
    case _ =>
  }

  predicate PointsToTombstone(s: Registry, lead: nat) {
    && lead in s.leads && s.leads[lead].client in s.clients
    && s.clients[s.leads[lead].client].merged.Some?
  }

  lemma {:induction false} DeadLinkStep(s: Registry, e: Event, lead: nat)
    requires PointsToTombstone(s, lead) && lead !in s.pending
    ensures PointsToTombstone(After(s, e), lead) && lead !in After(s, e).pending
    ensures After(s, e).leads[lead] == s.leads[lead]
  {
    TombstoneStep(s, e, s.leads[lead].client);
  }

  /** No merge moves the link of a lead that points to a tombstone: it stays there in every run. */
  lemma {:induction false} DeadLinkStays(s: Registry, events: seq<Event>, lead: nat)
    requires PointsToTombstone(s, lead) && lead !in s.pending
    ensures PointsToTombstone(Run(s, events), lead) && Run(s, events).leads[lead] == s.leads[lead]
    decreases |events|
  {
    if events != [] {
      DeadLinkStep(s, events[0], lead);
      DeadLinkStays(After(s, events[0]), events[1..], lead);
    }
  }

  /**
   No lead, project or task points to a tombstone at the end of a run exactly when no lead was stored on the way with a
   match that a merge had buried.
   */
  lemma {:induction false} AllLiveIff(s: Registry, events: seq<Event>)
    requires Inv(s) && AllLive(s)
    ensures AllLive(Run(s, events)) <==> NeverStoresDead(s, events)
    decreases |events|
  {
    if events != [] {
      var next := After(s, events[0]);
      StepKeepsInv(s, events[0]);
      StepKeepsLiveIff(s, events[0]);
      if StoresDead(s, events[0]) {
        DeadLinkStays(next, events[1..], events[0].lead);
      } else {
        AllLiveIff(next, events[1..]);
      }
    }
  }

  lemma {:induction false} RunSplit(s: Registry, first: Event, others: seq<Event>)
    ensures Run(s, [first] + others) == Run(After(s, first), others)
  {
    assert ([first] + others)[1..] == others;
  }

  const TWO_CLIENTS := After(After(EMPTY, AddClient(0, 7, 0, 0)), AddClient(1, 7, 1, 1))

  /** Of two clients the newer one is matched to a third lead, then merged away, and only then the lead is inserted. */
  lemma {:induction false} MergeBetweenMatchAndInsert()
    ensures TWO_CLIENTS == Run(EMPTY, [AddClient(0, 7, 0, 0)] + ([AddClient(1, 7, 1, 1)] + []))
    ensures var t := Run(TWO_CLIENTS, [Match(2, 7, 1)] + ([Merge(0, 1)] + ([Insert(2)] + [])));
            2 in t.leads && t.leads[2] == Link(1, 7) && 1 in t.clients && t.clients[1].merged == Some(0)
  {
    RunSplit(EMPTY, AddClient(0, 7, 0, 0), [AddClient(1, 7, 1, 1)] + []);
    RunSplit(After(EMPTY, AddClient(0, 7, 0, 0)), AddClient(1, 7, 1, 1), []);
    var matched := After(TWO_CLIENTS, Match(2, 7, 1));
    RunSplit(TWO_CLIENTS, Match(2, 7, 1), [Merge(0, 1)] + ([Insert(2)] + []));
    RunSplit(matched, Merge(0, 1), [Insert(2)] + []);
    RunSplit(After(matched, Merge(0, 1)), Insert(2), []);
  }

  // ---- the ten redirects ---------------------------------------------------------------------

  /** The merges n into n-1, then n-1 into n-2, and so on down to 0. */
  function Chain(n: nat): seq<Event> {
    if n == 0 then [] else [Merge(n - 1, n)] + Chain(n - 1)
  }

  /** Leads of one office that match nobody bring the clients `from` to `n`, who are then merged into a chain. */
  function Program(from: nat, n: nat): seq<Event>
    decreases n + 1 - from
  {
    if from > n then Chain(n) else [AddClient(from, 0, from, from)] + Program(from + 1, n)
  }

  /** The clients below `n`, all live. */
  ghost predicate Lined(s: Registry, n: nat) {
    && (forall c: nat :: c in s.clients <==> c < n)
    && (forall c :: c in s.clients ==> s.clients[c] == Client(0, c, None))
    && (forall k: nat :: k in s.leads ==> k < n) && s.pending == map[]
  }

  /** The state during the chain: clients above `k` point one down, the others are live. */
  ghost predicate Chained(t: Table, n: nat, k: nat) {
    && (forall c: nat :: c in t <==> c <= n)
    && forall c :: c in t ==> t[c] == Client(0, c, if c > k then Some(c - 1) else None)
  }

  lemma {:induction false} ProgramRuns(s: Registry, from: nat, n: nat)
    requires from <= n + 1 && Lined(s, from)
    ensures Chained(Run(s, Program(from, n)).clients, n, 0)
    decreases n + 1 - from
  {
    if from > n {
      ChainRuns(s, n, n);
    } else {
      var add := AddClient(from, 0, from, from);
      assert Program(from, n)[0] == add && Program(from, n)[1..] == Program(from + 1, n);
      ProgramRuns(After(s, add), from + 1, n);
    }
  }

  lemma {:induction false} ChainRuns(s: Registry, n: nat, k: nat)
    requires k <= n && Chained(s.clients, n, k)
    ensures Chained(Run(s, Chain(k)).clients, n, 0)
    decreases k
  {
    if k > 0 {
      assert Chain(k)[0] == Merge(k - 1, k) && Chain(k)[1..] == Chain(k - 1);
      ChainRuns(After(s, Merge(k - 1, k)), n, k - 1);
    }
  }

  lemma {:induction false} ChainDepth(t: Table, n: nat, c: nat)
    requires Chained(t, n, 0) && c <= n && Forest(t)
    ensures Depth(t, c) == c
  {
    if c > 0 {
      ChainDepth(t, n, c - 1);
    }
  }

  /** From the empty registry leads and merges reach any depth, so the limit of ten redirects can be met. */
  lemma {:induction false} AnyDepthIsReachable(n: nat)
    ensures var s := Run(EMPTY, Program(0, n));
            Inv(s) && n in s.clients && Depth(s.clients, n) == n
  {
    ProgramRuns(EMPTY, 0, n);
    RunKeepsInv(EMPTY, Program(0, n));
    ChainDepth(Run(EMPTY, Program(0, n)).clients, n, n);
  }

  // ---- what the steps write ------------------------------------------------------------------

  /** The same rows, those of one client now of another. */
  predicate MovedTo(before: Links, after: Links, from: Id, to: Id) {
    && after.Keys == before.Keys
    && forall k :: k in before ==>
         && after[k].office == before[k].office
         && after[k].client == if before[k].client == from then to else before[k].client
  }

  predicate CanMerge(t: Table, path: Id, duplicate: Id) {
    && path != duplicate && path in t && duplicate in t && t[path].office == t[duplicate].office
    && t[path].merged == None && t[duplicate].merged == None
  }

  /** The client that was created first, or of those created at once the one of the smaller id. */
  function Survivor(t: Table, a: Id, b: Id): Id
    requires a in t && b in t
  {
    if t[a].created < t[b].created then a
    else if t[b].created < t[a].created then b
    else if a < b then a else b
  }

  /** Two live clients of one office are merged into the older, with all its rows; any other merge changes nothing. */
  lemma {:induction false} MergeWrites(s: Registry, path: Id, duplicate: Id)
    ensures var after := After(s, Merge(path, duplicate));
            if !CanMerge(s.clients, path, duplicate) then after == s
            else
              var older := Survivor(s.clients, path, duplicate);
              var newer := if older == path then duplicate else path;
              var tombstone := Client(s.clients[newer].office, s.clients[newer].created, Some(older));
              && after.clients == s.clients[newer := tombstone]
              && MovedTo(s.leads, after.leads, newer, older) && MovedTo(s.projects, after.projects, newer, older)
              && MovedTo(s.tasks, after.tasks, newer, older) && after.pending == s.pending
    ensures MergeError(s.clients, path, duplicate) == None <==> CanMerge(s.clients, path, duplicate)
  {
  }

  /** A lead is added with its client, a project with the client of its lead, a match is noted, and nothing else. */
  lemma {:induction false} AddingWrites(s: Registry, lead: nat, office: Office, id: Id, created: nat, project: nat)
    ensures var isNew := lead !in s.leads && lead !in s.pending;
            && After(s, AddClient(lead, office, id, created))
               == (if isNew && id !in s.clients
                   then s.(clients := s.clients[id := Client(office, created, None)],
                           leads := s.leads[lead := Link(id, office)])
                   else s)
            && After(s, Match(lead, office, id))
               == (if isNew && id in s.clients && s.clients[id] == Client(office, s.clients[id].created, None)
                   then s.(pending := s.pending[lead := Link(id, office)]) else s)
    ensures After(s, AddProject(project, lead))
         == if lead in s.leads && project !in s.projects then s.(projects := s.projects[project := s.leads[lead]])
            else s
  {
  }
}

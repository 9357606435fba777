/**
 Who is notified of a lead, and the rows that say so (internal/notifications/outbox.go).
 */
module Outbox {
  import opened Prelude

  datatype Office = Kyiv | Warsaw | Elsewhere
  datatype Channel = Telegram | Slack
  datatype Destination = Destination(channel: Channel, address: string)

  datatype Config = Config(telegramKyiv: string, additionalKyiv: string, slackWarsaw: string)

  type LeadId = nat

  /** A lead_notifications row; (lead, destination) is its unique key. */
  datatype Note = Note(lead: LeadId, to: Destination)

  /** unicode.IsSpace. */
  predicate Blank(c: char) {
    || c == ' ' || '\t' <= c <= '\r' || c == '\U{0085}' || c == '\U{00A0}' || c == '\U{1680}'
    || '\U{2000}' <= c <= '\U{200A}' || c == '\U{2028}' || c == '\U{2029}' || c == '\U{202F}' || c == '\U{205F}'
    || c == '\U{3000}'
  }

  /** The White_Space property of Unicode, by code points. */
  lemma {:induction false} BlankIs(c: char)
    ensures Blank(c) <==> c as int in {9, 10, 11, 12, 13, 32, 133, 160, 5760, 8232, 8233, 8239, 8287, 12288}
                          || 8192 <= c as int <= 8202
  {
  }

  function TrimLeft(s: string): string {
    if s != "" && Blank(s[0]) then TrimLeft(s[1..]) else s
  }

  function TrimRight(s: string): string {
    if s != "" && Blank(s[|s| - 1]) then TrimRight(s[..|s| - 1]) else s
  }

  function Trim(s: string): string {
    TrimRight(TrimLeft(s))
  }

  /** strings.Split: n separators make n + 1 parts. */
  function Split(s: string, sep: char): (parts: seq<string>)
    ensures |parts| >= 1
  {
    if s == "" then [""]
    else
      var rest := Split(s[1..], sep);
      if s[0] == sep then [""] + rest else [[s[0]] + rest[0]] + rest[1..]
  }

  predicate AllBlank(s: string) {
    forall i :: 0 <= i < |s| ==> Blank(s[i])
  }

  /** Trimming takes away blanks at both ends and leaves none there. */
  lemma {:induction false} TrimIs(s: string) returns (left: string, right: string)
    ensures s == left + Trim(s) + right && AllBlank(left) && AllBlank(right)
    ensures Trim(s) != "" ==> !Blank(Trim(s)[0]) && !Blank(Trim(s)[|Trim(s)| - 1])
  {
    left := LeftIs(s);
    right := RightIs(TrimLeft(s));
  }

  lemma {:induction false} LeftIs(s: string) returns (left: string)
    ensures s == left + TrimLeft(s) && AllBlank(left)
    ensures TrimLeft(s) != "" ==> !Blank(TrimLeft(s)[0])
  {
    if s != "" && Blank(s[0]) {
      var rest := LeftIs(s[1..]);
      left := [s[0]] + rest;
    } else {
      left := "";
    }
  }

  lemma {:induction false} RightIs(s: string) returns (right: string)
    ensures s == TrimRight(s) + right && AllBlank(right)
    ensures TrimRight(s) != "" ==> TrimRight(s)[0] == s[0] && !Blank(TrimRight(s)[|TrimRight(s)| - 1])
  {
    if s != "" && Blank(s[|s| - 1]) {
      var rest := RightIs(s[..|s| - 1]);
      right := rest + [s[|s| - 1]];
    } else {
      right := "";
    }
  }

  function Join(parts: seq<string>, sep: char): string
    requires |parts| > 0
  {
    if |parts| == 1 then parts[0] else parts[0] + [sep] + Join(parts[1..], sep)
  }

  /** Splitting is undone by joining, and no part holds the separator. */
  lemma {:induction false} SplitIs(s: string, sep: char)
    ensures Join(Split(s, sep), sep) == s
    ensures forall i :: 0 <= i < |Split(s, sep)| ==> sep !in Split(s, sep)[i]
  {
    if s != "" {
      SplitIs(s[1..], sep);
      var rest := Split(s[1..], sep);
      if s[0] == sep {
        assert Split(s, sep)[1..] == rest;
      } else {
        assert Split(s, sep)[1..] == rest[1..];
        assert s == [s[0]] + s[1..];
      }
    }
  }

  // ---- chat ids ------------------------------------------------------------------------------

  predicate Distinct<T(==)>(xs: seq<T>) {
    forall i, j :: 0 <= i < j < |xs| ==> xs[i] != xs[j]
  }

  /** Index of the first value that trims to `id`. */
  predicate FirstAt(values: seq<string>, id: string, k: nat) {
    k < |values| && Trim(values[k]) == id && forall i :: 0 <= i < k ==> Trim(values[i]) != id
  }

  /** Exactly the non-empty trimmed values, once each, in order of first appearance. */
  ghost predicate UniqueOf(values: seq<string>, ids: seq<string>) {
    && Distinct(ids)
    && (forall id :: id in ids <==> id != "" && exists k :: 0 <= k < |values| && Trim(values[k]) == id)
    && (forall i, j, a: nat, b: nat ::
          0 <= i < j < |ids| && FirstAt(values, ids[i], a) && FirstAt(values, ids[j], b) ==> a < b)
  }

  /** uniqueChatIDs' loop over the primary id and the split list. */
  method UniqueIds(values: seq<string>) returns (out: seq<string>)
    ensures UniqueOf(values, out)
  {
    var seen: set<string> := {};
    out := [];
    for i := 0 to |values|
      invariant seen == set id | id in out
      invariant UniqueOf(values[..i], out)
    {
      ghost var before := out;
      var value := Trim(values[i]);
      assert values[..i + 1] == values[..i] + [values[i]];
      if value != "" && value !in seen {
        seen := seen + {value};
        out := out + [value];
      }
      UniqueStep(values[..i], values[i], before, out);
    }
    assert values[..|values|] == values;
  }

  lemma {:induction false} UniqueStep(values: seq<string>, next: string, before: seq<string>, out: seq<string>)
    requires UniqueOf(values, before)
    requires out == if Trim(next) != "" && Trim(next) !in before then before + [Trim(next)] else before
    ensures UniqueOf(values + [next], out)
  {
    var more := values + [next];
    forall id ensures id in out <==> id != "" && exists k :: 0 <= k < |more| && Trim(more[k]) == id {
      if id in before {
        var k :| 0 <= k < |values| && Trim(values[k]) == id;
        assert Trim(more[k]) == id;
      } else if id == Trim(next) {
        assert Trim(more[|values|]) == id;
      } else if k :| 0 <= k < |more| && Trim(more[k]) == id {
        assert k < |values| ==> Trim(values[k]) == id;
      }
    }
    forall i, j, a: nat, b: nat | 0 <= i < j < |out| && FirstAt(more, out[i], a) && FirstAt(more, out[j], b)
      ensures a < b
    {
      assert i < |before| && out[i] == before[i] && before[i] in before;
      FirstStays(values, next, out[i], a);
      if j < |before| {
        assert before[j] in before;
        FirstStays(values, next, out[j], b);
      }
    }
  }

  lemma {:induction false} FirstStays(values: seq<string>, next: string, id: string, k: nat)
    requires FirstAt(values + [next], id, k)
    requires exists i :: 0 <= i < |values| && Trim(values[i]) == id
    ensures FirstAt(values, id, k)
  {
    var i :| 0 <= i < |values| && Trim(values[i]) == id;
    assert Trim((values + [next])[i]) == id;
    assert k <= i;
    forall j | 0 <= j < k ensures Trim(values[j]) != id {
      assert (values + [next])[j] == values[j];
    }
  }

  method DeliveryDestinations(config: Config, office: Office) returns (out: seq<Destination>)
    ensures Distinct(out)
    ensures office.Elsewhere? ==> out == []
    ensures office.Warsaw? ==>
              out == if Trim(config.slackWarsaw) == "" then [] else [Destination(Slack, Trim(config.slackWarsaw))]
    ensures office.Kyiv? ==>
              exists ids :: UniqueOf([config.telegramKyiv] + Split(config.additionalKyiv, ','), ids)
                            && out == Telegrams(ids)
  {
    match office {
      case Kyiv =>
        var ids := UniqueIds([config.telegramKyiv] + Split(config.additionalKyiv, ','));
        out := [];
        for i := 0 to |ids|
          invariant out == Telegrams(ids[..i])
        {
          assert ids[..i + 1][..i] == ids[..i];
          out := out + [Destination(Telegram, ids[i])];
        }
        assert ids[..|ids|] == ids;
        TelegramsDistinct(ids);
      case Warsaw =>
        var channelId := Trim(config.slackWarsaw);
        out := if channelId == "" then [] else [Destination(Slack, channelId)];
      case Elsewhere =>
        out := [];
    }
  }

  function Telegrams(ids: seq<string>): seq<Destination> {
    if ids == [] then [] else Telegrams(ids[..|ids| - 1]) + [Destination(Telegram, ids[|ids| - 1])]
  }

  lemma {:induction false} TelegramsDistinct(ids: seq<string>)
    ensures |Telegrams(ids)| == |ids|
    ensures forall i :: 0 <= i < |ids| ==> Telegrams(ids)[i] == Destination(Telegram, ids[i])
    ensures Distinct(ids) ==> Distinct(Telegrams(ids))
  {
    if ids != [] {
      TelegramsDistinct(ids[..|ids| - 1]);
    }
  }

  // ---- the rows ------------------------------------------------------------------------------

  function Enqueued(notes: seq<Note>, lead: LeadId, to: seq<Destination>): seq<Note> {
    if to == [] then notes
    else
      var before := Enqueued(notes, lead, to[..|to| - 1]);
      var note := Note(lead, to[|to| - 1]);
      if note in before then before else before + [note]
  }

  /** Enqueue: one insert per destination, `on conflict do nothing`. */
  method Enqueue(notes: seq<Note>, lead: LeadId, to: seq<Destination>) returns (after: seq<Note>)
    ensures after == Enqueued(notes, lead, to)
  {
    after := notes;
    for i := 0 to |to|
      invariant after == Enqueued(notes, lead, to[..i])
    {
      assert to[..i + 1][..i] == to[..i];
      var note := Note(lead, to[i]);
      if note !in after {
        after := after + [note];
      }
    }
    assert to[..|to|] == to;
  }

  /** Enqueuing adds exactly the missing (lead, destination) rows, each once, and touches no other row. */
  lemma {:induction false} EnqueuedExactly(notes: seq<Note>, lead: LeadId, to: seq<Destination>, note: Note)
    requires multiset(notes)[note] <= 1
    ensures multiset(Enqueued(notes, lead, to))[note]
         == (if note in notes || (note.lead == lead && note.to in to) then 1 else 0)
  {
    if to != [] {
      var init := to[..|to| - 1];
      assert to == init + [to[|to| - 1]];
      EnqueuedExactly(notes, lead, init, note);
      assert note.to in to <==> note.to in init || note.to == to[|to| - 1];
    }
  }
}

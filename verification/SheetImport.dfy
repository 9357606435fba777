/**
 Grouping the rows of the lead sheet into leads (internal/biuroimport/model.go): rows with one normalized phone are
 one lead, other rows are one lead each, and a lead's fields are folded from its rows in order of date.
 */
module SheetImport {
  import opened Prelude

  /** Seconds. */
  type Time = int

  /** A cell: None when it is blank. */
  type Cell = Option<string>

  /** One source sheet is imported, so its id in front of every key is left out. */
  datatype SourceKey = ByLp(lp: string) | ByRow(row: nat)
  datatype Key = Phone(normalized: string) | Source(key: SourceKey)

  datatype SourceRow = SourceRow(sheetRow: nat, lp: Cell, date: Time, manager: Cell, firstConversation: Option<Time>,
                                 measurement: Option<Time>, name: Cell, phone: Cell, normalized: Cell,
                                 email: Cell, city: Cell, information: Cell, infoSlawek: Cell, status: Cell)

  datatype Body = Measured(on: Time) | Text(text: string)
  datatype Comment = Comment(body: Body, at: Time)
  datatype Conversation = Conversation(at: Time, manager: Cell, source: SourceKey)

  datatype Texts = Texts(name: Cell, phone: Cell, normalized: Cell, email: Cell, city: Cell, manager: Cell)
  datatype Lead = Lead(externalId: SourceKey, created: Time, texts: Texts, rows: seq<SourceRow>,
                       conversation: Option<Conversation>, comment: Option<Comment>)

  function SourceKeyOf(r: SourceRow): SourceKey {
    if r.lp.Some? then ByLp(r.lp.value) else ByRow(r.sheetRow)
  }

  function KeyOf(r: SourceRow): Key {
    if r.normalized.Some? then Phone(r.normalized.value) else Source(SourceKeyOf(r))
  }

  // ---- phone numbers -------------------------------------------------------------------------

  /** A normalized number is stored as a plus sign and its digits, any other text as it is. */
  datatype PhoneValue = NoPhone | Raw(text: string) | Normal(digits: string)

  predicate IsDigit(c: char) {
    '0' <= c <= '9'
  }

  function DigitsIn(text: string): (digits: string)
    ensures forall i :: 0 <= i < |digits| ==> IsDigit(digits[i])
  {
    if text == [] then []
    else DigitsIn(text[..|text| - 1]) + if IsDigit(text[|text| - 1]) then [text[|text| - 1]] else []
  }

  /** parsePhone of a trimmed cell: nine digits, or eleven with 48, or thirteen with 0048. */
  function ParsePhone(text: string): PhoneValue {
    var d := DigitsIn(text);
    if text == [] then NoPhone
    else if |d| == 9 then Normal(['4', '8'] + d)
    else if |d| == 11 && d[..2] == ['4', '8'] then Normal(d)
    else if |d| == 13 && d[..4] == ['0', '0', '4', '8'] then Normal(d[2..])
    else Raw(text)
  }

  lemma {:induction false} DigitsStay(digits: string)
    requires forall i :: 0 <= i < |digits| ==> IsDigit(digits[i])
    ensures DigitsIn(['+'] + digits) == digits
  {
    if digits == [] {
      assert ['+'] + digits == ['+'] && ['+'][..0] == [];
    } else {
      var init := digits[..|digits| - 1];
      assert (['+'] + digits)[..|digits|] == ['+'] + init;
      DigitsStay(init);
    }
  }

  /** What is stored reads back as the same number. */
  lemma {:induction false} StoredPhoneIsStable(text: string)
    requires ParsePhone(text).Normal?
    ensures ParsePhone(['+'] + ParsePhone(text).digits) == ParsePhone(text)
  {
    DigitsStay(ParsePhone(text).digits);
  }

  /** Two normalized numbers are equal exactly when their last nine digits are. */
  lemma {:induction false} SameNumber(a: string, b: string)
    requires ParsePhone(a).Normal? && ParsePhone(b).Normal?
    ensures var x, y := DigitsIn(a), DigitsIn(b);
            |x| >= 9 && |y| >= 9 && (ParsePhone(a) == ParsePhone(b) <==> x[|x| - 9..] == y[|y| - 9..])
  {
    NineDigits(a);
    NineDigits(b);
    var p, q := ParsePhone(a).digits, ParsePhone(b).digits;
    assert p[2..] == DigitsIn(a)[|DigitsIn(a)| - 9..];
    assert q[2..] == DigitsIn(b)[|DigitsIn(b)| - 9..];
  }

  lemma {:induction false} NineDigits(text: string)
    requires ParsePhone(text).Normal?
    ensures |DigitsIn(text)| >= 9
    ensures ParsePhone(text).digits == ['4', '8'] + DigitsIn(text)[|DigitsIn(text)| - 9..]
  {
    var d := DigitsIn(text);
    if |d| == 11 {
      assert d == d[..2] + d[2..];
    } else if |d| == 13 {
      assert d[2..] == d[..4][2..] + d[4..];
    }
  }

  // ---- sorting one group ---------------------------------------------------------------------

  /** By date, then by row of the sheet. */
  predicate Less(a: SourceRow, b: SourceRow) {
    if a.date == b.date then a.sheetRow < b.sheetRow else a.date < b.date
  }

  predicate IsSorted(rows: seq<SourceRow>) {
    forall i, j :: 0 <= i < j < |rows| ==> !Less(rows[j], rows[i])
  }

  /** After every row it is not less than, so equal rows keep their order. */
  function Insert(sorted: seq<SourceRow>, r: SourceRow): seq<SourceRow> {
    if sorted == [] || !Less(r, sorted[|sorted| - 1]) then sorted + [r]
    else Insert(sorted[..|sorted| - 1], r) + [sorted[|sorted| - 1]]
  }

  function Sort(rows: seq<SourceRow>): seq<SourceRow> {
    if rows == [] then [] else Insert(Sort(rows[..|rows| - 1]), rows[|rows| - 1])
  }

  lemma {:induction false} InsertAdds(sorted: seq<SourceRow>, r: SourceRow)
    ensures multiset(Insert(sorted, r)) == multiset(sorted) + multiset{r}
  {
    if sorted != [] && Less(r, sorted[|sorted| - 1]) {
      InsertAdds(sorted[..|sorted| - 1], r);
      assert sorted == sorted[..|sorted| - 1] + [sorted[|sorted| - 1]];
    }
  }

  lemma {:induction false} InsertSorts(sorted: seq<SourceRow>, r: SourceRow)
    requires IsSorted(sorted)
    ensures IsSorted(Insert(sorted, r))
  {
    if sorted != [] && Less(r, sorted[|sorted| - 1]) {
      var init, last := sorted[..|sorted| - 1], sorted[|sorted| - 1];
      InsertSorts(init, r);
      InsertAdds(init, r);
      forall x | x in Insert(init, r) ensures !Less(last, x) {
        assert x in multiset(Insert(init, r));
      }
    }
  }

  lemma {:induction false} SortKeepsRows(rows: seq<SourceRow>)
    ensures multiset(Sort(rows)) == multiset(rows) && |Sort(rows)| == |rows|
  {
    if rows != [] {
      SortKeepsRows(rows[..|rows| - 1]);
      InsertAdds(Sort(rows[..|rows| - 1]), rows[|rows| - 1]);
      assert rows == rows[..|rows| - 1] + [rows[|rows| - 1]];
    }
    assert |multiset(Sort(rows))| == |Sort(rows)|;
  }

  lemma {:induction false} SortSorts(rows: seq<SourceRow>)
    ensures IsSorted(Sort(rows))
  {
    if rows != [] {
      SortSorts(rows[..|rows| - 1]);
      InsertSorts(Sort(rows[..|rows| - 1]), rows[|rows| - 1]);
    }
  }

  /** No two different rows come from one row of the sheet. */
  predicate Distinct(rows: seq<SourceRow>) {
    forall a, b :: a in rows && b in rows && a.sheetRow == b.sheetRow ==> a == b
  }

  /** Each row comes after those before it or is the same row. */
  predicate Ordered(rows: seq<SourceRow>) {
    forall i, j :: 0 <= i < j < |rows| ==> Less(rows[i], rows[j]) || rows[i] == rows[j]
  }

  lemma {:induction false} DistinctIsOrdered(rows: seq<SourceRow>)
    requires IsSorted(rows) && Distinct(rows)
    ensures Ordered(rows)
  {
    forall i, j | 0 <= i < j < |rows| ensures Less(rows[i], rows[j]) || rows[i] == rows[j] {
      assert rows[i] in rows && rows[j] in rows;
    }
  }

  /** There is one way to put rows in order, so the result does not depend on how they come in. */
  lemma {:induction false} OrderedIsUnique(a: seq<SourceRow>, b: seq<SourceRow>)
    requires multiset(a) == multiset(b) && |a| == |b| && Ordered(a) && Ordered(b)
    ensures a == b
  {
    if a != [] {
      LastIsGreatest(a, b);
      WithoutLast(a);
      WithoutLast(b);
      OrderedIsUnique(a[..|a| - 1], b[..|b| - 1]);
      forall i | 0 <= i < |a| ensures a[i] == b[i] {
        assert i < |a| - 1 ==> a[..|a| - 1][i] == b[..|b| - 1][i];
      }
    }
  }

  lemma {:induction false} WithoutLast(rows: seq<SourceRow>)
    requires rows != []
    ensures multiset(rows[..|rows| - 1]) == multiset(rows) - multiset{rows[|rows| - 1]}
  {
    assert rows == rows[..|rows| - 1] + [rows[|rows| - 1]];
  }

  lemma {:induction false} LastIsGreatest(a: seq<SourceRow>, b: seq<SourceRow>)
    requires multiset(a) == multiset(b) && Ordered(a) && Ordered(b)
    requires |a| == |b| > 0
    ensures a[|a| - 1] == b[|b| - 1]
  {
    var x, y := a[|a| - 1], b[|b| - 1];
    assert x in multiset(b) && y in multiset(a);
    var i :| 0 <= i < |b| && b[i] == x;
    var j :| 0 <= j < |a| && a[j] == y;
  }

  // ---- one lead from its group ---------------------------------------------------------------

  datatype Field = Name | PhoneText | Normalized | Email | City | Manager

  function TextsOf(r: SourceRow): Texts {
    Texts(r.name, r.phone, r.normalized, r.email, r.city, r.manager)
  }

  function Get(t: Texts, f: Field): Cell {
    match f
    case Name => t.name
    case PhoneText => t.phone
    case Normalized => t.normalized
    case Email => t.email
    case City => t.city
    case Manager => t.manager
  }

  /** The last row's value that is filled. */
  function LastFilled(rows: seq<SourceRow>, f: Field): Cell {
    if rows == [] then None
    else if Get(TextsOf(rows[|rows| - 1]), f).Some? then Get(TextsOf(rows[|rows| - 1]), f)
    else LastFilled(rows[..|rows| - 1], f)
  }

  function LastTexts(rows: seq<SourceRow>): Texts {
    Texts(LastFilled(rows, Name), LastFilled(rows, PhoneText), LastFilled(rows, Normalized),
          LastFilled(rows, Email), LastFilled(rows, City), LastFilled(rows, Manager))
  }

  function Earliest(rows: seq<SourceRow>): Option<Conversation> {
    if rows == [] then None
    else
      var best, r := Earliest(rows[..|rows| - 1]), rows[|rows| - 1];
      if r.firstConversation.Some? && (best.None? || r.firstConversation.value < best.value.at) then
        Some(Conversation(r.firstConversation.value, r.manager, SourceKeyOf(r)))
      else best
  }

  function TextComment(text: Cell, at: Time): seq<Comment> {
    if text.None? then [] else [Comment(Text(text.value), at)]
  }

  /** What a row says besides its status. */
  function OtherComments(r: SourceRow): (cs: seq<Comment>)
    ensures forall c :: c in cs ==> c.at < r.date + 180 || (r.measurement.Some? && c.at == r.measurement.value + 30)
    ensures forall c :: c in cs && c.body.Text? ==> c.at < r.date + 180
    ensures r.measurement.Some? ==> Comment(Measured(r.measurement.value), r.measurement.value + 30) in cs
  {
    (if r.measurement.Some? then [Comment(Measured(r.measurement.value), r.measurement.value + 30)] else [])
    + TextComment(r.information, r.date + 60)
    + TextComment(r.infoSlawek, r.date + 120)
  }

  /** commentEvents: what a row says, at fixed distances from its dates. */
  function CommentsOf(r: SourceRow): seq<Comment> {
    OtherComments(r) + TextComment(r.status, r.date + 180)
  }

  function CommentLists(rows: seq<SourceRow>): seq<seq<Comment>> {
    if rows == [] then [] else CommentLists(rows[..|rows| - 1]) + [CommentsOf(rows[|rows| - 1])]
  }

  function Flat(lists: seq<seq<Comment>>): seq<Comment> {
    if lists == [] then [] else Flat(lists[..|lists| - 1]) + lists[|lists| - 1]
  }

  function Latest(comments: seq<Comment>): Option<Comment> {
    if comments == [] then None
    else
      var best, c := Latest(comments[..|comments| - 1]), comments[|comments| - 1];
      if best.None? || c.at > best.value.at then Some(c) else best
  }

  function LeadOf(group: seq<SourceRow>): Lead
    requires group != []
  {
    Lead(SourceKeyOf(group[0]), group[0].date, LastTexts(group), group, Earliest(group),
         Latest(Flat(CommentLists(group))))
  }

  function Fill(previous: Cell, text: Cell): Cell {
    if text.Some? then text else previous
  }

  method FillTexts(t: Texts, row: SourceRow) returns (filled: Texts)
    ensures forall f: Field :: Get(filled, f) == Fill(Get(t, f), Get(TextsOf(row), f))
  {
    filled := t;
    if row.name.Some? {
      filled := filled.(name := row.name);
    }
    if row.phone.Some? {
      filled := filled.(phone := row.phone);
    }
    if row.normalized.Some? {
      filled := filled.(normalized := row.normalized);
    }
    if row.email.Some? {
      filled := filled.(email := row.email);
    }
    if row.city.Some? {
      filled := filled.(city := row.city);
    }
    if row.manager.Some? {
      filled := filled.(manager := row.manager);
    }
  }

  lemma {:induction false} FillStep(rows: seq<SourceRow>, i: nat, f: Field)
    requires i < |rows|
    ensures LastFilled(rows[..i + 1], f) == Fill(LastFilled(rows[..i], f), Get(TextsOf(rows[i]), f))
  {
    assert rows[..i + 1][..i] == rows[..i];
  }

  lemma {:induction false} SameTexts(a: Texts, b: Texts)
    requires forall f: Field :: Get(a, f) == Get(b, f)
    ensures a == b
  {
    assert Get(a, Name) == Get(b, Name) && Get(a, PhoneText) == Get(b, PhoneText);
    assert Get(a, Normalized) == Get(b, Normalized) && Get(a, Email) == Get(b, Email);
    assert Get(a, City) == Get(b, City) && Get(a, Manager) == Get(b, Manager);
  }

  lemma {:induction false} TextsStep(rows: seq<SourceRow>, i: nat, filled: Texts)
    requires i < |rows|
    requires forall f: Field :: Get(filled, f) == Fill(Get(LastTexts(rows[..i]), f), Get(TextsOf(rows[i]), f))
    ensures filled == LastTexts(rows[..i + 1])
  {
    forall f: Field ensures Get(filled, f) == Get(LastTexts(rows[..i + 1]), f) {
      FillStep(rows, i, f);
    }
    SameTexts(filled, LastTexts(rows[..i + 1]));
  }

  lemma {:induction false} EarliestStep(rows: seq<SourceRow>, i: nat)
    requires i < |rows|
    ensures var best, r := Earliest(rows[..i]), rows[i];
            Earliest(rows[..i + 1])
            == if r.firstConversation.Some? && (best.None? || r.firstConversation.value < best.value.at)
               then Some(Conversation(r.firstConversation.value, r.manager, SourceKeyOf(r)))
               else best
  {
    assert rows[..i + 1][..i] == rows[..i];
  }

  lemma {:induction false} CommentStep(rows: seq<SourceRow>, i: nat)
    requires i < |rows|
    ensures Flat(CommentLists(rows[..i + 1])) == Flat(CommentLists(rows[..i])) + CommentsOf(rows[i])
  {
    assert rows[..i + 1][..i] == rows[..i];
    var lists := CommentLists(rows[..i + 1]);
    assert lists[..|lists| - 1] == CommentLists(rows[..i]);
  }

  method FoldGroup(group: seq<SourceRow>) returns (lead: Lead)
    requires group != []
    ensures lead == LeadOf(group)
  {
    var texts := Texts(None, None, None, None, None, None);
    var conversation: Option<Conversation> := None;
    var comment: Option<Comment> := None;
    for i := 0 to |group|
      invariant texts == LastTexts(group[..i])
      invariant conversation == Earliest(group[..i])
      invariant comment == Latest(Flat(CommentLists(group[..i])))
    {
      var row := group[i];
      var filled := FillTexts(texts, row);
      TextsStep(group, i, filled);
      texts := filled;
      EarliestStep(group, i);
      CommentStep(group, i);
      if row.firstConversation.Some? {
        if conversation.None? || row.firstConversation.value < conversation.value.at {
          conversation := Some(Conversation(row.firstConversation.value, row.manager, SourceKeyOf(row)));
        }
      }
      comment := LaterComment(comment, Flat(CommentLists(group[..i])), CommentsOf(row));
    }
    assert group[..|group|] == group;
    lead := Lead(SourceKeyOf(group[0]), group[0].date, texts, group, conversation, comment);
  }

  method LaterComment(best: Option<Comment>, ghost before: seq<Comment>, comments: seq<Comment>)
    returns (latest: Option<Comment>)
    requires best == Latest(before)
    ensures latest == Latest(before + comments)
  {
    latest := best;
    assert before + comments[..0] == before;
    for i := 0 to |comments|
      invariant latest == Latest(before + comments[..i])
    {
      assert (before + comments[..i + 1])[..|before| + i] == before + comments[..i];
      if latest.None? || comments[i].at > latest.value.at {
        latest := Some(comments[i]);
      }
    }
    assert comments[..|comments|] == comments;
  }

  // ---- grouping ------------------------------------------------------------------------------

  /** The keys in the order they first appear. */
  function Order(rows: seq<SourceRow>): seq<Key> {
    if rows == [] then []
    else
      var order, key := Order(rows[..|rows| - 1]), KeyOf(rows[|rows| - 1]);
      if key in order then order else order + [key]
  }

  function Group(rows: seq<SourceRow>, key: Key): seq<SourceRow> {
    if rows == [] then []
    else Group(rows[..|rows| - 1], key) + if KeyOf(rows[|rows| - 1]) == key then [rows[|rows| - 1]] else []
  }

  lemma {:induction false} OrderIs(rows: seq<SourceRow>)
    ensures forall key :: key in Order(rows) <==> exists i :: 0 <= i < |rows| && KeyOf(rows[i]) == key
    ensures forall i, j :: 0 <= i < j < |Order(rows)| ==> Order(rows)[i] != Order(rows)[j]
  {
    if rows != [] {
      var init := rows[..|rows| - 1];
      OrderIs(init);
      forall i | 0 <= i < |rows| ensures KeyOf(rows[i]) in Order(rows) {
        assert i < |init| ==> init[i] == rows[i];
      }
      assert forall i :: 0 <= i < |init| ==> init[i] == rows[i];
      assert Order(rows) != Order(init) ==> Order(rows) == Order(init) + [KeyOf(rows[|rows| - 1])];
    }
  }

  lemma {:induction false} GroupIs(rows: seq<SourceRow>, key: Key)
    ensures forall r :: multiset(Group(rows, key))[r] == if KeyOf(r) == key then multiset(rows)[r] else 0
  {
    if rows != [] {
      var init := rows[..|rows| - 1];
      GroupIs(init, key);
      assert rows == init + [rows[|rows| - 1]];
    }
  }

  lemma {:induction false} GroupIsNotEmpty(rows: seq<SourceRow>, key: Key)
    requires key in Order(rows)
    ensures Group(rows, key) != [] && Sort(Group(rows, key)) != []
  {
    OrderIs(rows);
    GroupIs(rows, key);
    var i :| 0 <= i < |rows| && KeyOf(rows[i]) == key;
    assert rows[i] in multiset(rows);
    assert rows[i] in multiset(Group(rows, key));
    SortKeepsRows(Group(rows, key));
  }

  function LeadFor(rows: seq<SourceRow>, key: Key): Lead
    requires key in Order(rows)
  {
    GroupIsNotEmpty(rows, key);
    LeadOf(Sort(Group(rows, key)))
  }

  /** How many of the keys gather more than one row. */
  function Repeated(rows: seq<SourceRow>, keys: seq<Key>): nat {
    if keys == [] then 0
    else Repeated(rows, keys[..|keys| - 1]) + if |Group(rows, keys[|keys| - 1])| > 1 then 1 else 0
  }

  method GroupRows(rows: seq<SourceRow>) returns (groups: map<Key, seq<SourceRow>>, order: seq<Key>)
    ensures order == Order(rows)
    ensures forall key :: key in order ==> key in groups && groups[key] == Group(rows, key)
  {
    groups, order := map[], [];
    for i := 0 to |rows|
      invariant order == Order(rows[..i])
      invariant forall key :: key in groups <==> key in order
      invariant forall key :: key in groups ==> groups[key] == Group(rows[..i], key)
      invariant forall key :: key !in groups ==> Group(rows[..i], key) == []
    {
      assert rows[..i + 1][..i] == rows[..i];
      var key := KeyOf(rows[i]);
      if key !in groups {
        order := order + [key];
        groups := groups[key := [rows[i]]];
      } else {
        groups := groups[key := groups[key] + [rows[i]]];
      }
    }
    assert rows[..|rows|] == rows;
  }

  function LeadsFor(rows: seq<SourceRow>, keys: seq<Key>): (leads: seq<Lead>)
    requires forall key :: key in keys ==> key in Order(rows)
    ensures |leads| == |keys|
  {
    if keys == [] then [] else LeadsFor(rows, keys[..|keys| - 1]) + [LeadFor(rows, keys[|keys| - 1])]
  }

  lemma {:induction false} LeadsStep(rows: seq<SourceRow>, keys: seq<Key>, i: nat, lead: Lead)
    requires i < |keys| && forall key :: key in keys ==> key in Order(rows)
    requires lead == LeadFor(rows, keys[i])
    ensures LeadsFor(rows, keys[..i + 1]) == LeadsFor(rows, keys[..i]) + [lead]
    ensures Repeated(rows, keys[..i + 1]) == Repeated(rows, keys[..i]) + if |Group(rows, keys[i])| > 1 then 1 else 0
  {
    assert keys[..i + 1][..i] == keys[..i];
  }

  method MergeRows(rows: seq<SourceRow>) returns (leads: seq<Lead>, duplicates: nat)
    ensures leads == LeadsFor(rows, Order(rows))
    ensures duplicates == Repeated(rows, Order(rows))
  {
    var groups, order := GroupRows(rows);
    leads, duplicates := [], 0;
    for i := 0 to |order|
      invariant leads == LeadsFor(rows, order[..i])
      invariant duplicates == Repeated(rows, order[..i])
    {
      var group := groups[order[i]];
      if |group| > 1 {
        duplicates := duplicates + 1;
      }
      GroupIsNotEmpty(rows, order[i]);
      var lead := FoldGroup(Sort(group));
      LeadsStep(rows, order, i, lead);
      leads := leads + [lead];
    }
    assert order[..|order|] == order;
  }

  // ---- what the leads are --------------------------------------------------------------------

  /** One of the leads that merging the rows gives. */
  predicate IsLead(rows: seq<SourceRow>, lead: Lead) {
    exists key :: key in Order(rows) && lead == LeadFor(rows, key)
  }

  lemma {:induction false} KeyGivesLead(rows: seq<SourceRow>, keys: seq<Key>, key: Key)
    requires key in keys && forall k :: k in keys ==> k in Order(rows)
    ensures LeadFor(rows, key) in LeadsFor(rows, keys)
  {
    var init := keys[..|keys| - 1];
    if key != keys[|keys| - 1] {
      assert keys == init + [keys[|keys| - 1]];
      KeyGivesLead(rows, init, key);
    }
  }

  lemma {:induction false} LeadHasKey(rows: seq<SourceRow>, keys: seq<Key>, lead: Lead)
    requires (forall k :: k in keys ==> k in Order(rows)) && lead in LeadsFor(rows, keys)
    ensures IsLead(rows, lead)
  {
    var init, last := keys[..|keys| - 1], keys[|keys| - 1];
    if lead != LeadFor(rows, last) {
      LeadHasKey(rows, init, lead);
    }
  }

  lemma {:induction false} MergedLeads(rows: seq<SourceRow>, lead: Lead)
    ensures lead in LeadsFor(rows, Order(rows)) <==> IsLead(rows, lead)
  {
    if IsLead(rows, lead) {
      var key :| key in Order(rows) && lead == LeadFor(rows, key);
      KeyGivesLead(rows, Order(rows), key);
    } else if lead in LeadsFor(rows, Order(rows)) {
      LeadHasKey(rows, Order(rows), lead);
    }
  }

  /** Every row is in the lead of its key, as often as it occurs, and in no other. */
  lemma {:induction false} EveryRowInOneLead(rows: seq<SourceRow>, r: SourceRow, key: Key)
    requires r in rows && key in Order(rows)
    ensures KeyOf(r) in Order(rows)
    ensures multiset(LeadFor(rows, key).rows)[r] == if key == KeyOf(r) then multiset(rows)[r] else 0
    ensures r in LeadFor(rows, key).rows <==> key == KeyOf(r)
  {
    OrderIs(rows);
    GroupIs(rows, key);
    SortKeepsRows(Group(rows, key));
    assert r in multiset(rows);
    assert r in LeadFor(rows, key).rows <==> r in multiset(LeadFor(rows, key).rows);
  }

  /** Two rows with one normalized phone are in the same lead; a lead's rows share their key. */
  lemma {:induction false} SamePhoneSameLead(rows: seq<SourceRow>, a: SourceRow, b: SourceRow, key: Key)
    requires a in rows && b in rows && key in Order(rows)
    ensures a.normalized.Some? && a.normalized == b.normalized ==>
              (a in LeadFor(rows, key).rows <==> b in LeadFor(rows, key).rows)
    ensures a in LeadFor(rows, key).rows && b in LeadFor(rows, key).rows ==> KeyOf(a) == KeyOf(b)
  {
    EveryRowInOneLead(rows, a, key);
    EveryRowInOneLead(rows, b, key);
  }

  lemma {:induction false} EarliestIs(rows: seq<SourceRow>)
    ensures Earliest(rows).None? ==> forall i :: 0 <= i < |rows| ==> rows[i].firstConversation.None?
    ensures Earliest(rows).Some? ==>
              exists i :: 0 <= i < |rows| && IsFirst(rows, i, Earliest(rows).value)
  {
    if rows != [] {
      var init := rows[..|rows| - 1];
      EarliestIs(init);
      assert forall k :: 0 <= k < |init| ==> init[k] == rows[k];
      if Earliest(rows).Some? {
        if Earliest(rows) == Earliest(init) && Earliest(init).Some? {
          var i :| 0 <= i < |init| && IsFirst(init, i, Earliest(init).value);
          assert IsFirst(rows, i, Earliest(rows).value);
        } else {
          assert IsFirst(rows, |rows| - 1, Earliest(rows).value);
        }
      }
    }
  }

  /** Row `i` holds the conversation `c`, none is earlier, and no row before it is as early. */
  predicate IsFirst(rows: seq<SourceRow>, i: nat, c: Conversation)
    requires i < |rows|
  {
    && rows[i].firstConversation.Some?
    && c == Conversation(rows[i].firstConversation.value, rows[i].manager, SourceKeyOf(rows[i]))
    && (forall k :: 0 <= k < |rows| && rows[k].firstConversation.Some? ==> c.at <= rows[k].firstConversation.value)
    && (forall k :: 0 <= k < i && rows[k].firstConversation.Some? ==> c.at < rows[k].firstConversation.value)
  }

  lemma {:induction false} LatestIs(comments: seq<Comment>)
    ensures comments == [] <==> Latest(comments).None?
    ensures Latest(comments).Some? ==> Latest(comments).value in comments
    ensures Latest(comments).Some? ==> forall i :: 0 <= i < |comments| ==> comments[i].at <= Latest(comments).value.at
  {
    if comments != [] {
      LatestIs(comments[..|comments| - 1]);
    }
  }

  predicate Listed(lists: seq<seq<Comment>>, c: Comment) {
    exists i :: 0 <= i < |lists| && c in lists[i]
  }

  predicate NoneLater(list: seq<Comment>, at: Time) {
    forall c :: c in list ==> c.at <= at
  }

  /** The comment is in one of the lists and none in them is later; there is none when the lists are empty. */
  predicate IsLastComment(lists: seq<seq<Comment>>, comment: Option<Comment>) {
    match comment
    case None => forall i :: 0 <= i < |lists| ==> lists[i] == []
    case Some(c) => Listed(lists, c) && forall i :: 0 <= i < |lists| ==> NoneLater(lists[i], c.at)
  }

  lemma {:induction false} FlatIs(lists: seq<seq<Comment>>, c: Comment)
    ensures c in Flat(lists) <==> Listed(lists, c)
  {
    if lists != [] {
      var init := lists[..|lists| - 1];
      FlatIs(init, c);
      assert forall i :: 0 <= i < |init| ==> init[i] == lists[i];
    }
  }

  lemma {:induction false} LastCommentIs(lists: seq<seq<Comment>>)
    ensures IsLastComment(lists, Latest(Flat(lists)))
  {
    var all := Flat(lists);
    var latest := Latest(all);
    LatestIs(all);
    forall i | 0 <= i < |lists|
      ensures if latest.None? then lists[i] == [] else NoneLater(lists[i], latest.value.at) {
      if latest.None? {
        if lists[i] != [] {
          ListedInFlat(lists, i, lists[i][0]);
          assert false;
        }
      } else {
        forall c | c in lists[i] ensures c.at <= latest.value.at {
          ListedInFlat(lists, i, c);
        }
      }
    }
    if latest.Some? {
      FlatIs(lists, latest.value);
    }
  }

  lemma {:induction false} ListedInFlat(lists: seq<seq<Comment>>, i: nat, c: Comment)
    requires i < |lists| && c in lists[i]
    ensures exists k :: 0 <= k < |Flat(lists)| && Flat(lists)[k] == c
  {
    assert Listed(lists, c);
    FlatIs(lists, c);
  }

  lemma {:induction false} ListOfEachRow(rows: seq<SourceRow>)
    ensures |CommentLists(rows)| == |rows|
    ensures forall i :: 0 <= i < |rows| ==> CommentLists(rows)[i] == CommentsOf(rows[i])
  {
    if rows != [] {
      var init := rows[..|rows| - 1];
      ListOfEachRow(init);
      assert forall i :: 0 <= i < |init| ==> init[i] == rows[i];
    }
  }

  /** The comment is one of a row's and none of any row is later; there is none when no row has one. */
  predicate IsLastOfRows(rows: seq<SourceRow>, comment: Option<Comment>) {
    match comment
    case None => forall i :: 0 <= i < |rows| ==> CommentsOf(rows[i]) == []
    case Some(c) =>
      && (exists i :: 0 <= i < |rows| && c in CommentsOf(rows[i]))
      && (forall i :: 0 <= i < |rows| ==> NoneLater(CommentsOf(rows[i]), c.at))
  }

  lemma {:induction false} LastOfRows(rows: seq<SourceRow>)
    ensures IsLastOfRows(rows, Latest(Flat(CommentLists(rows))))
  {
    var lists := CommentLists(rows);
    ListOfEachRow(rows);
    LastCommentIs(lists);
    assert forall i :: 0 <= i < |rows| ==> lists[i] == CommentsOf(rows[i]);
  }

  lemma {:induction false} LatestOfAppend(comments: seq<Comment>, c: Comment)
    ensures Latest(comments + [c])
         == if forall i :: 0 <= i < |comments| ==> comments[i].at < c.at then Some(c) else Latest(comments)
  {
    assert (comments + [c])[..|comments|] == comments;
    LatestIs(comments);
  }

  /** The status comment of a row is its last exactly when the measurement, if there is one, does not lie too late. */
  lemma {:induction false} StatusComesLastIff(r: SourceRow)
    requires r.status.Some?
    ensures Latest(CommentsOf(r)) == Some(Comment(Text(r.status.value), r.date + 180))
       <==> r.measurement.None? || r.measurement.value + 30 < r.date + 180
  {
    var others, status := OtherComments(r), Comment(Text(r.status.value), r.date + 180);
    assert CommentsOf(r) == others + [status];
    LatestOfAppend(others, status);
    LatestIs(others);
    assert forall i :: 0 <= i < |others| ==> others[i] in others;
  }

  /** The conversation is the earliest one of the rows; there is none when no row has one. */
  predicate IsFirstConversation(rows: seq<SourceRow>, conversation: Option<Conversation>) {
    match conversation
    case None => forall i :: 0 <= i < |rows| ==> rows[i].firstConversation.None?
    case Some(c) => exists i :: 0 <= i < |rows| && IsFirst(rows, i, c)
  }

  /** A lead is created on the earliest date of its rows, with their first conversation and their last comment. */
  lemma {:induction false} DatesOfALead(rows: seq<SourceRow>, key: Key)
    requires key in Order(rows)
    ensures var lead := LeadFor(rows, key);
            && (exists r :: r in lead.rows && lead.created == r.date && lead.externalId == SourceKeyOf(r))
            && (forall r :: r in lead.rows ==> lead.created <= r.date)
            && IsFirstConversation(lead.rows, lead.conversation)
            && IsLastOfRows(lead.rows, lead.comment)
  {
    GroupIsNotEmpty(rows, key);
    var group := Sort(Group(rows, key));
    SortSorts(Group(rows, key));
    assert group[0] in group;
    EarliestIs(group);
    LastOfRows(group);
  }

  // ---- external ids --------------------------------------------------------------------------

  /** The row is the first of its group: no row of its key is earlier. */
  predicate Starts(rows: seq<SourceRow>, r: SourceRow) {
    r in rows && forall q :: q in rows && KeyOf(q) == KeyOf(r) ==>
      r.date < q.date || (r.date == q.date && r.sheetRow <= q.sheetRow)
  }

  function FirstOf(rows: seq<SourceRow>, key: Key): SourceRow
    requires key in Order(rows)
  {
    GroupIsNotEmpty(rows, key);
    Sort(Group(rows, key))[0]
  }

  lemma {:induction false} FirstStarts(rows: seq<SourceRow>, key: Key)
    requires key in Order(rows)
    ensures KeyOf(FirstOf(rows, key)) == key && Starts(rows, FirstOf(rows, key))
    ensures LeadFor(rows, key).externalId == SourceKeyOf(FirstOf(rows, key))
  {
    GroupIsNotEmpty(rows, key);
    var group := Sort(Group(rows, key));
    var first := group[0];
    SortSorts(Group(rows, key));
    GroupMember(rows, key, first);
    forall q | q in rows && KeyOf(q) == key ensures !Less(q, first) {
      GroupMember(rows, key, q);
      var i :| 0 <= i < |group| && group[i] == q;
    }
  }

  lemma {:induction false} GroupMember(rows: seq<SourceRow>, key: Key, r: SourceRow)
    ensures r in Sort(Group(rows, key)) <==> r in rows && KeyOf(r) == key
  {
    GroupIs(rows, key);
    SortKeepsRows(Group(rows, key));
    assert r in Sort(Group(rows, key)) <==> r in multiset(Sort(Group(rows, key)));
    assert r in rows <==> r in multiset(rows);
  }

  /** Distinct rows have one first row per key. */
  lemma {:induction false} StartIsFirst(rows: seq<SourceRow>, r: SourceRow)
    requires Distinct(rows) && Starts(rows, r)
    ensures KeyOf(r) in Order(rows) && FirstOf(rows, KeyOf(r)) == r
  {
    OrderIs(rows);
    var i :| 0 <= i < |rows| && rows[i] == r;
    assert KeyOf(rows[i]) in Order(rows);
    FirstStarts(rows, KeyOf(r));
    var first := FirstOf(rows, KeyOf(r));
    assert !Less(first, r) && !Less(r, first);
  }

  ghost predicate IdsDistinct(rows: seq<SourceRow>) {
    forall a, b :: a in Order(rows) && b in Order(rows) ==>
      LeadFor(rows, a).externalId == LeadFor(rows, b).externalId ==> a == b
  }

  /**
   Every lead has an external id of its own exactly when no two rows that start groups of different keys carry the same
   source key.
   */
  lemma {:induction false} IdsDistinctIff(rows: seq<SourceRow>)
    requires Distinct(rows)
    ensures IdsDistinct(rows)
       <==> forall q, r :: Starts(rows, q) && Starts(rows, r) ==>
              SourceKeyOf(q) == SourceKeyOf(r) ==> KeyOf(q) == KeyOf(r)
  {
    if IdsDistinct(rows) {
      forall q, r | Starts(rows, q) && Starts(rows, r) && SourceKeyOf(q) == SourceKeyOf(r)
        ensures KeyOf(q) == KeyOf(r)
      {
        StartIsFirst(rows, q);
        StartIsFirst(rows, r);
        FirstStarts(rows, KeyOf(q));
        FirstStarts(rows, KeyOf(r));
      }
    } else {
      var a, b :| a in Order(rows) && b in Order(rows) && a != b
                  && LeadFor(rows, a).externalId == LeadFor(rows, b).externalId;
      FirstStarts(rows, a);
      FirstStarts(rows, b);
    }
  }

  /** Two rows of one number in the first column and of different phones share their lead's external id. */
  lemma {:induction false} IdsCanCollide(a: SourceRow, b: SourceRow)
    requires a.lp.Some? && a.lp == b.lp && a.sheetRow != b.sheetRow
    requires a.normalized.Some? && b.normalized.Some? && a.normalized != b.normalized
    ensures Distinct([a, b]) && !IdsDistinct([a, b])
  {
    var rows := [a, b];
    assert a in rows && b in rows;
    assert Starts(rows, a) && Starts(rows, b) && SourceKeyOf(a) == SourceKeyOf(b);
    IdsDistinctIff(rows);
  }

  // ---- the order of the input ----------------------------------------------------------------

  /** With distinct sheet rows, the leads do not depend on the order the rows are read in. */
  lemma {:induction false} OrderDoesNotMatter(a: seq<SourceRow>, b: seq<SourceRow>, lead: Lead)
    requires multiset(a) == multiset(b) && Distinct(a)
    ensures lead in LeadsFor(a, Order(a)) <==> lead in LeadsFor(b, Order(b))
  {
    MergedLeads(a, lead);
    MergedLeads(b, lead);
    forall key ensures key in Order(a) <==> key in Order(b) {
      SameKeys(a, b, key);
      SameKeys(b, a, key);
    }
    forall key | key in Order(a) ensures LeadFor(a, key) == LeadFor(b, key) {
      SameGroup(a, b, key);
    }
  }

  lemma {:induction false} SameKeys(a: seq<SourceRow>, b: seq<SourceRow>, key: Key)
    requires multiset(a) == multiset(b)
    ensures key in Order(a) ==> key in Order(b)
  {
    OrderIs(a);
    OrderIs(b);
    if key in Order(a) {
      var i :| 0 <= i < |a| && KeyOf(a[i]) == key;
      assert a[i] in multiset(b);
      var j :| 0 <= j < |b| && b[j] == a[i];
    }
  }

  lemma {:induction false} SameGroup(a: seq<SourceRow>, b: seq<SourceRow>, key: Key)
    requires multiset(a) == multiset(b) && Distinct(a)
    ensures Sort(Group(a, key)) == Sort(Group(b, key))
  {
    SameRows(a, b, key);
    GroupIsOrdered(a, a, key);
    GroupIsOrdered(a, b, key);
    OrderedIsUnique(Sort(Group(a, key)), Sort(Group(b, key)));
  }

  lemma {:induction false} SameRows(a: seq<SourceRow>, b: seq<SourceRow>, key: Key)
    requires multiset(a) == multiset(b)
    ensures var x, y := Sort(Group(a, key)), Sort(Group(b, key));
            multiset(x) == multiset(y) && |x| == |y|
  {
    SameGroupRows(a, b, key);
    SortKeepsRows(Group(a, key));
    SortKeepsRows(Group(b, key));
    SameLength(Sort(Group(a, key)), Sort(Group(b, key)));
  }

  lemma {:induction false} SameGroupRows(a: seq<SourceRow>, b: seq<SourceRow>, key: Key)
    requires multiset(a) == multiset(b)
    ensures multiset(Group(a, key)) == multiset(Group(b, key))
  {
    GroupIs(a, key);
    GroupIs(b, key);
  }

  lemma {:induction false} SameLength(a: seq<SourceRow>, b: seq<SourceRow>)
    requires multiset(a) == multiset(b)
    ensures |a| == |b|
  {
    assert |a| == |multiset(a)|;
    assert |b| == |multiset(b)|;
  }

  lemma {:induction false} GroupIsOrdered(all: seq<SourceRow>, rows: seq<SourceRow>, key: Key)
    requires Distinct(all) && multiset(all) == multiset(rows)
    ensures Ordered(Sort(Group(rows, key)))
  {
    var group := Sort(Group(rows, key));
    GroupIs(rows, key);
    SortSorts(Group(rows, key));
    SortKeepsRows(Group(rows, key));
    forall r | r in group ensures r in all {
      assert r in multiset(group);
      assert r in multiset(all);
    }
    DistinctIsOrdered(group);
  }

  // ---- the cells of a lead -------------------------------------------------------------------

  /** The last cell that is not blank, if any is not. */
  predicate IsLastFilled(rows: seq<SourceRow>, of: SourceRow -> Cell, cell: Cell) {
    match cell
    case None => forall i :: 0 <= i < |rows| ==> of(rows[i]) == None
    case Some(_) =>
      exists i :: 0 <= i < |rows| && of(rows[i]) == cell && forall k :: i < k < |rows| ==> of(rows[k]) == None
  }

  lemma {:induction false} LastFilledIs(rows: seq<SourceRow>, f: Field, of: SourceRow -> Cell)
    requires forall r: SourceRow :: of(r) == Get(TextsOf(r), f)
    ensures IsLastFilled(rows, of, LastFilled(rows, f))
  {
    if rows != [] {
      var n := |rows| - 1;
      var init := rows[..n];
      LastFilledIs(init, f, of);
      assert forall i :: 0 <= i < n ==> init[i] == rows[i];
      if of(rows[n]) == None && LastFilled(rows, f).Some? {
        var i :| 0 <= i < n && of(init[i]) == LastFilled(rows, f) && forall k :: i < k < n ==> of(init[k]) == None;
        assert of(rows[i]) == LastFilled(rows, f) && forall k :: i < k <= n ==> of(rows[k]) == None;
      }
    }
  }

  lemma {:induction false} TextsOfGroup(rows: seq<SourceRow>)
    ensures var texts := LastTexts(rows);
            && IsLastFilled(rows, (r: SourceRow) => r.name, texts.name)
            && IsLastFilled(rows, (r: SourceRow) => r.phone, texts.phone)
            && IsLastFilled(rows, (r: SourceRow) => r.normalized, texts.normalized)
            && IsLastFilled(rows, (r: SourceRow) => r.email, texts.email)
            && IsLastFilled(rows, (r: SourceRow) => r.city, texts.city)
            && IsLastFilled(rows, (r: SourceRow) => r.manager, texts.manager)
  {
    LastFilledIs(rows, Name, (r: SourceRow) => r.name);
    LastFilledIs(rows, PhoneText, (r: SourceRow) => r.phone);
    LastFilledIs(rows, Normalized, (r: SourceRow) => r.normalized);
    LastFilledIs(rows, Email, (r: SourceRow) => r.email);
    LastFilledIs(rows, City, (r: SourceRow) => r.city);
    LastFilledIs(rows, Manager, (r: SourceRow) => r.manager);
  }

  /** Name, phone, e-mail, city and manager of a lead are the last ones filled in, in the order of its rows. */
  lemma {:induction false} TextsOfALead(rows: seq<SourceRow>, key: Key)
    requires key in Order(rows)
    ensures var lead := LeadFor(rows, key);
            && IsLastFilled(lead.rows, (r: SourceRow) => r.name, lead.texts.name)
            && IsLastFilled(lead.rows, (r: SourceRow) => r.phone, lead.texts.phone)
            && IsLastFilled(lead.rows, (r: SourceRow) => r.normalized, lead.texts.normalized)
            && IsLastFilled(lead.rows, (r: SourceRow) => r.email, lead.texts.email)
            && IsLastFilled(lead.rows, (r: SourceRow) => r.city, lead.texts.city)
            && IsLastFilled(lead.rows, (r: SourceRow) => r.manager, lead.texts.manager)
            && forall i, j :: 0 <= i < j < |lead.rows| ==> lead.rows[i].date <= lead.rows[j].date
  {
    SortSorts(Group(rows, key));
    TextsOfGroup(LeadFor(rows, key).rows);
  }

  /** Two rows are of one lead when they have one number, or when neither has one and they are one row of the source. */
  lemma {:induction false} SameLeadIff(a: SourceRow, b: SourceRow)
    ensures KeyOf(a) == KeyOf(b)
       <==> if a.normalized.Some? || b.normalized.Some? then a.normalized == b.normalized
            else if a.lp.Some? || b.lp.Some? then a.lp == b.lp else a.sheetRow == b.sheetRow
  {
  }

  /** What a row says: the measurement from its date, the other texts from the date of the row, seconds apart. */
  lemma {:induction false} CommentsAre(r: SourceRow, c: Comment)
    ensures c in CommentsOf(r)
       <==> || (r.measurement.Some? && c == Comment(Measured(r.measurement.value), r.measurement.value + 30))
            || (r.information.Some? && c == Comment(Text(r.information.value), r.date + 60))
            || (r.infoSlawek.Some? && c == Comment(Text(r.infoSlawek.value), r.date + 120))
            || (r.status.Some? && c == Comment(Text(r.status.value), r.date + 180))
  {
  }

  /** Which texts are numbers: nine digits, or those after 48 or 0048. */
  lemma {:induction false} ParsePhoneIs(text: string)
    ensures var d := DigitsIn(text);
            ParsePhone(text).Normal? <==> || |d| == 9 || (|d| == 11 && d[0] == '4' && d[1] == '8')
                                          || (|d| == 13 && d[0] == d[1] == '0' && d[2] == '4' && d[3] == '8')
    ensures !ParsePhone(text).Normal? ==> ParsePhone(text) == if text == "" then NoPhone else Raw(text)
  {
    var d := DigitsIn(text);
    assert |d| == 11 ==> d[..2] == [d[0], d[1]];
    assert |d| == 13 ==> d[..4] == [d[0], d[1], d[2], d[3]];
    assert text == "" ==> d == "";
  }
}

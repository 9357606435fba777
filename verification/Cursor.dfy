/**
 The opaque list cursor (internal/crmapi/leads.go): the creation time and the id of a row as text, joined by a bar,
 in unpadded URL base64 (section 5 of RFC 4648).
 */
module Cursor {
  import opened Prelude

  type Byte = x: int | 0 <= x < 256
  type Bytes = seq<Byte>
  type Time = nat

  const BAR: Byte := 124

  /** The position of a row in the list. */
  datatype Key = Key(created: Time, id: nat)

  // ---- base64 --------------------------------------------------------------------------------

  function CharOf(v: nat): char
    requires v < 64
  {
    if v < 26 then 'A' + v as char
    else if v < 52 then 'a' + (v - 26) as char
    else if v < 62 then '0' + (v - 52) as char
    else if v == 62 then '-'
    else '_'
  }

  function ValueOf(c: char): Option<nat>
    ensures ValueOf(c).Some? ==> ValueOf(c).value < 64
  {
    if 'A' <= c <= 'Z' then Some((c - 'A') as nat)
    else if 'a' <= c <= 'z' then Some((c - 'a') as nat + 26)
    else if '0' <= c <= '9' then Some((c - '0') as nat + 52)
    else if c == '-' then Some(62)
    else if c == '_' then Some(63)
    else None
  }

  /** Three bytes are four characters; one or two bytes at the end are two or three. */
  function Encode64(b: Bytes): string {
    if b == [] then []
    else if |b| == 1 then [CharOf(b[0] / 4), CharOf(b[0] % 4 * 16)]
    else if |b| == 2 then [CharOf(b[0] / 4), CharOf(b[0] % 4 * 16 + b[1] / 16), CharOf(b[1] % 16 * 4)]
    else
      [CharOf(b[0] / 4), CharOf(b[0] % 4 * 16 + b[1] / 16), CharOf(b[1] % 16 * 4 + b[2] / 64), CharOf(b[2] % 64)]
      + Encode64(b[3..])
  }

  /** Line breaks are skipped. */
  function WithoutBreaks(s: string): string {
    if s == [] then []
    else WithoutBreaks(s[..|s| - 1]) + if s[|s| - 1] == '\r' || s[|s| - 1] == '\n' then [] else [s[|s| - 1]]
  }

  function ValuesOf(s: string): (r: Option<seq<nat>>)
    ensures r.Some? ==> |r.value| == |s| && forall i :: 0 <= i < |s| ==> r.value[i] < 64
  {
    if s == [] then Some([])
    else
      var init, v := ValuesOf(s[..|s| - 1]), ValueOf(s[|s| - 1]);
      if init.None? || v.None? then None else Some(init.value + [v.value])
  }

  function Join64(v: seq<nat>): Option<Bytes>
    requires forall i :: 0 <= i < |v| ==> v[i] < 64
  {
    if v == [] then Some([])
    else if |v| == 1 then None
    else if |v| == 2 then Some([v[0] * 4 + v[1] / 16])
    else if |v| == 3 then Some([v[0] * 4 + v[1] / 16, v[1] % 16 * 16 + v[2] / 4])
    else
      var rest := Join64(v[4..]);
      if rest.None? then None
      else Some([v[0] * 4 + v[1] / 16, v[1] % 16 * 16 + v[2] / 4, v[2] % 4 * 64 + v[3]] + rest.value)
  }

  function Decode64(s: string): Option<Bytes> {
    var values := ValuesOf(WithoutBreaks(s));
    if values.None? then None else Join64(values.value)
  }

  lemma {:induction false} ValueOfChar(v: nat)
    requires v < 64
    ensures ValueOf(CharOf(v)) == Some(v) && CharOf(v) != '\r' && CharOf(v) != '\n'
  {
  }

  /** The six-bit values that `Encode64` writes. */
  function Split64(b: Bytes): (v: seq<nat>)
    ensures forall i :: 0 <= i < |v| ==> v[i] < 64
  {
    if b == [] then []
    else if |b| == 1 then [b[0] / 4, b[0] % 4 * 16]
    else if |b| == 2 then [b[0] / 4, b[0] % 4 * 16 + b[1] / 16, b[1] % 16 * 4]
    else [b[0] / 4, b[0] % 4 * 16 + b[1] / 16, b[1] % 16 * 4 + b[2] / 64, b[2] % 64] + Split64(b[3..])
  }

  lemma {:induction false} EncodedIsSplit(b: Bytes)
    ensures |Encode64(b)| == |Split64(b)|
    ensures forall i :: 0 <= i < |Split64(b)| ==> Encode64(b)[i] == CharOf(Split64(b)[i])
  {
    if |b| > 2 {
      EncodedIsSplit(b[3..]);
    }
  }

  lemma {:induction false} JoinUndoesSplit(b: Bytes)
    ensures Join64(Split64(b)) == Some(b)
  {
    var v := Split64(b);
    if |b| == 1 {
      assert b == [b[0]] && v[0] * 4 + v[1] / 16 == b[0];
    } else if |b| == 2 {
      assert b == [b[0], b[1]] && v[0] * 4 + v[1] / 16 == b[0] && v[1] % 16 * 16 + v[2] / 4 == b[1];
    } else if |b| > 2 {
      JoinUndoesSplit(b[3..]);
      assert v[4..] == Split64(b[3..]);
      assert v[0] * 4 + v[1] / 16 == b[0] && v[1] % 16 * 16 + v[2] / 4 == b[1] && v[2] % 4 * 64 + v[3] == b[2];
      assert b == [b[0], b[1], b[2]] + b[3..];
    }
  }

  lemma {:induction false} NoBreakMore(s: string, c: char)
    requires c != '\r' && c != '\n'
    ensures WithoutBreaks(s + [c]) == WithoutBreaks(s) + [c]
  {
    assert (s + [c])[..|s|] == s;
  }

  lemma {:induction false} OneMoreValue(s: string, c: char)
    requires ValuesOf(s).Some? && ValueOf(c).Some?
    ensures ValuesOf(s + [c]) == Some(ValuesOf(s).value + [ValueOf(c).value])
  {
    assert (s + [c])[..|s|] == s;
  }

  lemma {:induction false} NoBreaks(s: string, v: seq<nat>)
    requires |s| == |v| && forall i :: 0 <= i < |v| ==> v[i] < 64 && s[i] == CharOf(v[i])
    ensures WithoutBreaks(s) == s
  {
    if s != [] {
      var n := |s| - 1;
      NoBreaks(s[..n], v[..n]);
      ValueOfChar(v[n]);
      NoBreakMore(s[..n], s[n]);
      assert s == s[..n] + [s[n]];
    }
  }

  lemma {:induction false} ValuesUndoChars(s: string, v: seq<nat>)
    requires |s| == |v| && forall i :: 0 <= i < |v| ==> v[i] < 64 && s[i] == CharOf(v[i])
    ensures ValuesOf(s) == Some(v)
  {
    if s != [] {
      var n := |s| - 1;
      ValuesUndoChars(s[..n], v[..n]);
      ValueOfChar(v[n]);
      OneMoreValue(s[..n], s[n]);
      assert s == s[..n] + [s[n]] && v == v[..n] + [v[n]];
    }
  }

  lemma {:induction false} DecodeUndoesEncode(b: Bytes)
    ensures Decode64(Encode64(b)) == Some(b)
  {
    EncodedIsSplit(b);
    NoBreaks(Encode64(b), Split64(b));
    ValuesUndoChars(Encode64(b), Split64(b));
    JoinUndoesSplit(b);
  }

  // ---- the cursor ----------------------------------------------------------------------------

  /** The text forms of a time (RFC 3339) and of an id, as the standard library writes and reads them. */
  datatype Formats = Formats(time: Time -> Bytes, readTime: Bytes -> Option<Time>,
                             id: nat -> Bytes, readId: Bytes -> Option<nat>)

  /** What is asked of the text forms: they read back, and they have no bar in them. */
  ghost predicate Lawful(f: Formats) {
    && (forall t: Time :: f.readTime(f.time(t)) == Some(t) && BAR !in f.time(t))
    && (forall i: nat :: f.readId(f.id(i)) == Some(i) && BAR !in f.id(i))
  }

  function SplitAtBars(b: Bytes): (parts: seq<Bytes>)
    ensures |parts| > 0
  {
    if b == [] then [[]]
    else
      var parts := SplitAtBars(b[1..]);
      if b[0] == BAR then [[]] + parts else [[b[0]] + parts[0]] + parts[1..]
  }

  function EncodeCursor(f: Formats, k: Key): string {
    Encode64(f.time(k.created) + [BAR] + f.id(k.id))
  }

  function DecodeCursor(f: Formats, raw: string): Option<Key> {
    var bytes := Decode64(raw);
    if bytes.None? then None
    else
      var parts := SplitAtBars(bytes.value);
      if |parts| != 2 then None
      else
        var created, id := f.readTime(parts[0]), f.readId(parts[1]);
        if created.None? || id.None? then None else Some(Key(created.value, id.value))
  }

  lemma {:induction false} NoBars(b: Bytes)
    requires BAR !in b
    ensures SplitAtBars(b) == [b]
  {
    if b != [] {
      NoBars(b[1..]);
      assert [b[0]] + b[1..] == b;
    }
  }

  lemma {:induction false} OneBar(a: Bytes, b: Bytes)
    requires BAR !in a && BAR !in b
    ensures SplitAtBars(a + [BAR] + b) == [a, b]
  {
    var all := a + [BAR] + b;
    if a == [] {
      assert all[1..] == b;
      NoBars(b);
    } else {
      assert all[1..] == a[1..] + [BAR] + b;
      OneBar(a[1..], b);
      assert [a[0]] + a[1..] == a;
    }
  }

  /** A cursor that was handed out is read back as the row it was made for. */
  lemma {:induction false} CursorReadsBack(f: Formats, k: Key)
    requires Lawful(f)
    ensures DecodeCursor(f, EncodeCursor(f, k)) == Some(k)
  {
    var a, b := f.time(k.created), f.id(k.id);
    DecodeUndoesEncode(a + [BAR] + b);
    OneBar(a, b);
  }

  // ---- the encoding of RFC 4648 --------------------------------------------------------------

  /** Table 2 of section 5: the capitals, the small letters and the digits in order, then `-` and `_`. */
  lemma {:induction false} AlphabetIs(v: nat)
    requires v < 63
    ensures CharOf(0) == 'A' && CharOf(25) == 'Z' && CharOf(26) == 'a' && CharOf(51) == 'z'
    ensures CharOf(52) == '0' && CharOf(61) == '9' && CharOf(62) == '-' && CharOf(63) == '_'
    ensures v !in {25, 51, 61, 62} ==> CharOf(v + 1) as int == CharOf(v) as int + 1
  {
  }

  /** The first byte is the highest: six bits a character, with zeros after the last byte. */
  lemma {:induction false} BitsAreInOrder(b: Bytes)
    ensures var v, x := Split64(b), seq(|b|, i requires 0 <= i < |b| => b[i] as int);
            && (|b| == 1 ==> |v| == 2 && v[0] * 64 + v[1] == x[0] * 16)
            && (|b| == 2 ==> |v| == 3 && (v[0] * 64 + v[1]) * 64 + v[2] == (x[0] * 256 + x[1]) * 4)
            && (|b| >= 3 ==>
                  && |v| >= 4 && v[4..] == Split64(b[3..])
                  && ((v[0] * 64 + v[1]) * 64 + v[2]) * 64 + v[3] == (x[0] * 256 + x[1]) * 256 + x[2])
  {
  }

  /** A cursor is the text of the time, a bar, and the text of the id, encoded. */
  lemma {:induction false} CursorIs(f: Formats, k: Key)
    ensures Decode64(EncodeCursor(f, k)) == Some(f.time(k.created) + [124] + f.id(k.id))
  {
    DecodeUndoesEncode(f.time(k.created) + [BAR] + f.id(k.id));
  }
}

/**
 * The tag-length-value fields of a BR Code: printing them and walking over them.
 */
module Tlv {

  import opened Wrappers
  import opened Text

  datatype Field = Field(tag: string, value: string)

  /** A number in at least two decimal digits. */
  function TwoDigits(n: nat): string {
    if n < 10 then "0" + Decimal(n) else Decimal(n)
  }

  function Print(f: Field): string {
    f.tag + TwoDigits(|f.value|) + f.value
  }

  function Concat(fields: seq<Field>): string
    decreases |fields|
  {
    if fields == [] then "" else Print(fields[0]) + Concat(fields[1..])
  }

  /** The two characters of a length field, when they are digits. */
  function ReadLength(s: string): Option<nat>
    requires |s| == 2
  {
    if IsDigit(s[0]) && IsDigit(s[1]) then Some(10 * DigitValue(s[0]) + DigitValue(s[1])) else None
  }

  /** The field a text starts with, if it is well formed and complete. */
  function Head(data: string): (f: Option<Field>)
    ensures f.Some? ==> |f.value.tag| == 2 && 4 + |f.value.value| <= |data|
  {
    if |data| < 4 then None
    else
      match ReadLength(data[2..4])
      case None => None
      case Some(length) =>
        if |data| < 4 + length then None else Some(Field(data[..2], data[4..4 + length]))
  }

  /** The fields of a text, up to the first malformed one. */
  function Fields(data: string): seq<Field>
    decreases |data|
  {
    match Head(data)
    case None => []
    case Some(f) => [f] + Fields(data[4 + |f.value|..])
  }

  /** The field read at a position of a text. */
  function HeadAt(data: string, pos: nat): (f: Option<Field>)
    requires pos + 4 <= |data|
    ensures f.Some? ==> pos + 4 + |f.value.value| <= |data|
  {
    var length := ReadLength(data[pos + 2..pos + 4]);
    if length.None? || |data| < pos + 4 + length.value then None
    else Some(Field(data[pos..pos + 2], data[pos + 4..pos + 4 + length.value]))
  }

  lemma HeadOfSuffix(data: string, pos: nat)
    requires pos + 4 <= |data|
    ensures Head(data[pos..]) == HeadAt(data, pos)
  {
    var rest := data[pos..];
    assert rest[..2] == data[pos..pos + 2] && rest[2..4] == data[pos + 2..pos + 4];
    var length := ReadLength(data[pos + 2..pos + 4]);
    if length.Some? && pos + 4 + length.value <= |data| {
      assert rest[4..4 + length.value] == data[pos + 4..pos + 4 + length.value];
    }
  }

  /** The fields of a text from a position on, as a loop over positions meets them. */
  function FieldsFrom(data: string, pos: nat): seq<Field>
    requires pos <= |data|
    decreases |data| - pos
  {
    if |data| < pos + 4 || HeadAt(data, pos).None? then []
    else
      var f := HeadAt(data, pos).value;
      [f] + FieldsFrom(data, pos + 4 + |f.value|)
  }

  lemma {:induction false} FieldsFromIsFields(data: string, pos: nat)
    requires pos <= |data|
    ensures FieldsFrom(data, pos) == Fields(data[pos..])
    decreases |data| - pos
  {
    if pos + 4 <= |data| {
      HeadOfSuffix(data, pos);
      if HeadAt(data, pos).Some? {
        var n := 4 + |HeadAt(data, pos).value.value|;
        FieldsFromIsFields(data, pos + n);
        assert data[pos..][n..] == data[pos + n..];
      }
    }
  }

  lemma WholeText(data: string)
    ensures FieldsFrom(data, 0) == Fields(data)
  {
    assert data[0..] == data;
    FieldsFromIsFields(data, 0);
  }

  method Walk(data: string) returns (fields: seq<Field>)
    ensures fields == Fields(data)
  {
    WholeText(data);
    fields := [];
    var pos := 0;
    while pos + 4 <= |data|
      invariant pos <= |data|
      invariant fields + FieldsFrom(data, pos) == Fields(data)
    {
      var head := HeadAt(data, pos);
      if head.None? { return; }
      fields := fields + [head.value];
      pos := pos + 4 + |head.value.value|;
    }
  }

  // ---------------------------------------------------------------- round trip

  /** What the format can express: two characters of tag, at most 99 of value. */
  predicate Printable(f: Field) {
    |f.tag| == 2 && |f.value| <= 99
  }

  lemma TwoDigitsRead(n: nat)
    requires n <= 99
    ensures |TwoDigits(n)| == 2 && ReadLength(TwoDigits(n)) == Some(n)
  {
    if n < 10 {
      assert TwoDigits(n) == ['0', DigitChar(n)];
    } else {
      assert Decimal(n) == [DigitChar(n / 10), DigitChar(n % 10)];
    }
  }

  lemma HeadOfPrinted(f: Field, rest: string)
    requires Printable(f)
    ensures Head(Print(f) + rest) == Some(f)
    ensures |Print(f)| == 4 + |f.value| && (Print(f) + rest)[4 + |f.value|..] == rest
  {
    TwoDigitsRead(|f.value|);
    var data := Print(f) + rest;
    assert data[..2] == f.tag;
    assert data[2..4] == TwoDigits(|f.value|);
    assert data[4..4 + |f.value|] == f.value;
  }

  /** The walk gives back exactly the fields that were printed. */
  lemma {:induction false} WalkOfConcat(fields: seq<Field>)
    requires forall f | f in fields :: Printable(f)
    ensures Fields(Concat(fields)) == fields
    decreases |fields|
  {
    if fields != [] {
      HeadOfPrinted(fields[0], Concat(fields[1..]));
      WalkOfConcat(fields[1..]);
    }
  }

  /** What is no field: too short for a tag and a length, a length that is no number, or a value cut off. */
  predicate Broken(s: string) {
    || |s| < 4 || s[2] < '0' || '9' < s[2] || s[3] < '0' || '9' < s[3]
    || |s| - 4 < 10 * (s[2] as int - 48) + (s[3] as int - 48)
  }

  /** The walk stops where the text breaks, and gives every field that was printed ahead of that. */
  lemma {:induction false} WalkStopsWhereBroken(fields: seq<Field>, rest: string)
    requires (forall f | f in fields :: Printable(f)) && Broken(rest)
    ensures Fields(Concat(fields) + rest) == fields
    decreases |fields|
  {
    if fields == [] {
      assert "" + rest == rest;
      BrokenHasNoHead(rest);
    } else {
      assert Concat(fields) + rest == Print(fields[0]) + (Concat(fields[1..]) + rest);
      HeadOfPrinted(fields[0], Concat(fields[1..]) + rest);
      WalkStopsWhereBroken(fields[1..], rest);
    }
  }

  lemma BrokenHasNoHead(s: string)
    requires Broken(s)
    ensures Head(s) == None
  {
  }

  /** A single field comes back alone exactly when its value has at most 99 characters: a longer one
      prints a third length digit, which the walk takes for part of the value. */
  lemma PrintedComesBackExactly(f: Field)
    requires |f.tag| == 2
    ensures Fields(Print(f)) == [f] <==> |f.value| <= 99
  {
    if |f.value| <= 99 {
      assert Concat([f]) == Print(f) + "" == Print(f);
      WalkOfConcat([f]);
    } else if Head(Print(f)).Some? {
      HeadIsShort(Print(f));
      assert Fields(Print(f))[0] == Head(Print(f)).value;
    }
  }

  lemma HeadIsShort(data: string)
    requires Head(data).Some?
    ensures |Head(data).value.value| <= 99
  {
  }

  // ---------------------------------------------------------------- choosing a field

  /** The value of the first field with a tag, as a scan that stops there finds it. */
  function FirstValue(fields: seq<Field>, tag: string): Option<string>
    decreases |fields|
  {
    if fields == [] then None
    else if fields[0].tag == tag then Some(fields[0].value)
    else FirstValue(fields[1..], tag)
  }

  /** A dictionary filled in order: the last field with a tag wins. */
  function LastWins(fields: seq<Field>): map<string, string>
    decreases |fields|
  {
    if fields == [] then map[]
    else
      var f := fields[|fields| - 1];
      LastWins(fields[..|fields| - 1])[f.tag := f.value]
  }

  lemma {:induction false} LastWinsHolds(fields: seq<Field>, tag: string)
    ensures tag in LastWins(fields) <==> exists i | 0 <= i < |fields| :: fields[i].tag == tag
    ensures tag in LastWins(fields) ==> Field(tag, LastWins(fields)[tag]) in fields
    decreases |fields|
  {
    if fields != [] {
      var rest := fields[..|fields| - 1];
      LastWinsHolds(rest, tag);
      assert fields == rest + [fields[|fields| - 1]];
      assert fields[|fields| - 1].tag == tag ==> exists i | 0 <= i < |fields| :: fields[i].tag == tag;
    }
  }

  method FillDictionary(raw: string) returns (m: map<string, string>)
    ensures m == LastWins(Fields(raw))
  {
    var fields := Walk(raw);
    m := map[];
    for i := 0 to |fields|
      invariant m == LastWins(fields[..i])
    {
      assert fields[..i + 1][..i] == fields[..i];
      m := m[fields[i].tag := fields[i].value];
    }
    assert fields[..|fields|] == fields;
  }

  function Get(m: map<string, string>, tag: string): string {
    if tag in m then m[tag] else ""
  }

  predicate DistinctTags(fields: seq<Field>) {
    forall i, j | 0 <= i < j < |fields| :: fields[i].tag != fields[j].tag
  }

  /** With distinct tags the first field and the last are the same one. */
  lemma FirstIsLast(fields: seq<Field>, tag: string)
    requires DistinctTags(fields)
    ensures FirstValue(fields, tag) == if tag in LastWins(fields) then Some(LastWins(fields)[tag]) else None
  {
    FirstValueFound(fields, tag);
    LastWinsHolds(fields, tag);
  }

  lemma {:induction false} FirstValueFound(fields: seq<Field>, tag: string)
    ensures FirstValue(fields, tag).Some? ==> Field(tag, FirstValue(fields, tag).value) in fields
    ensures FirstValue(fields, tag).None? ==> forall i | 0 <= i < |fields| :: fields[i].tag != tag
    decreases |fields|
  {
    if fields != [] && fields[0].tag != tag {
      FirstValueFound(fields[1..], tag);
      assert fields == [fields[0]] + fields[1..];
    }
  }
}

/**
 * The second, independent BR Code parser of the payment router, and where it agrees with the first.
 */
module RouterEmv {

  import opened Wrappers
  import opened Text
  import opened Tlv
  import opened BrCode

  const CRC: string := "63"

  /** The fields ahead of the first CRC field. */
  function BeforeCrc(fields: seq<Field>): seq<Field>
    decreases |fields|
  {
    if fields == [] || fields[0].tag == CRC then []
    else [fields[0]] + BeforeCrc(fields[1..])
  }

  function TopLevel(emv: string): map<string, string> {
    LastWins(BeforeCrc(Fields(emv)))
  }

  lemma FillOneMore(done: seq<Field>, f: Field)
    ensures LastWins(done + [f]) == LastWins(done)[f.tag := f.value]
  {
    assert (done + [f])[..|done|] == done;
  }

  /** The fields the scan has still to take. */
  ghost function Ahead(emv: string, pos: nat): seq<Field>
    requires pos <= |emv|
  {
    BeforeCrc(FieldsFrom(emv, pos))
  }

  lemma AheadOfField(emv: string, pos: nat)
    requires pos + 4 <= |emv| && HeadAt(emv, pos).Some?
    ensures var f := HeadAt(emv, pos).value;
      Ahead(emv, pos) == if f.tag == CRC then [] else [f] + Ahead(emv, pos + 4 + |f.value|)
  {
    var f := HeadAt(emv, pos).value;
    var rest := FieldsFrom(emv, pos + 4 + |f.value|);
    assert FieldsFrom(emv, pos) == [f] + rest;
    assert ([f] + rest)[1..] == rest;
  }

  lemma TakeField(done: seq<Field>, emv: string, pos: nat)
    requires pos + 4 <= |emv| && HeadAt(emv, pos).Some? && emv[pos..pos + 2] != CRC
    ensures var f := HeadAt(emv, pos).value;
      done + Ahead(emv, pos) == (done + [f]) + Ahead(emv, pos + 4 + |f.value|)
  {
    AheadOfField(emv, pos);
  }

  lemma NothingAhead(emv: string, pos: nat)
    requires pos <= |emv| && (|emv| < pos + 4 || emv[pos..pos + 2] == CRC || HeadAt(emv, pos).None?)
    ensures Ahead(emv, pos) == []
  {
  }

  method ParseTopLevel(emv: string) returns (fields: map<string, string>)
    ensures fields == TopLevel(emv)
  {
    WholeText(emv);
    hide HeadAt, FieldsFrom, Fields, BeforeCrc;
    fields := map[];
    var pos := 0;
    ghost var done: seq<Field> := [];
    while pos + 4 <= |emv|
      invariant pos <= |emv|
      invariant fields == LastWins(done)
      invariant done + Ahead(emv, pos) == BeforeCrc(Fields(emv))
    {
      if emv[pos..pos + 2] == CRC { break; }
      var head := HeadAt(emv, pos);
      if head.None? { break; }
      TakeField(done, emv, pos);
      FillOneMore(done, head.value);
      done := done + [head.value];
      fields := fields[head.value.tag := head.value.value];
      pos := pos + 4 + |head.value.value|;
    }
    NothingAhead(emv, pos);
    assert done + [] == done;
  }

  /** The amount: empty counts as absent. */
  function ParseValue(read: string -> Option<real>, emv: string): real {
    var raw := Get(TopLevel(Strip(emv)), "54");
    if raw != "" && read(raw).Some? then read(raw).value else 0.0
  }

  function ParseMerchant(emv: string): string {
    Strip(Get(TopLevel(Strip(emv)), "59"))
  }

  /** The transaction id of field 62, sub-field 05; blank counts as absent. */
  function ExtractTxId(emv: string): Option<string> {
    match FirstValue(Fields(Get(TopLevel(Strip(emv)), "62")), "05")
    case None => None
    case Some(raw) => if Strip(raw) == "" then None else Some(Strip(raw))
  }

  ghost function FirstFrom(raw: string, pos: nat, tag: string): Option<string>
    requires pos <= |raw|
  {
    FirstValue(FieldsFrom(raw, pos), tag)
  }

  lemma FirstOfField(raw: string, pos: nat, tag: string)
    requires pos + 4 <= |raw| && HeadAt(raw, pos).Some?
    ensures var f := HeadAt(raw, pos).value;
      FirstFrom(raw, pos, tag) == if f.tag == tag then Some(f.value) else FirstFrom(raw, pos + 4 + |f.value|, tag)
  {
    var f := HeadAt(raw, pos).value;
    var rest := FieldsFrom(raw, pos + 4 + |f.value|);
    assert FieldsFrom(raw, pos) == [f] + rest;
    assert ([f] + rest)[1..] == rest;
  }

  lemma NoFieldLeft(raw: string, pos: nat, tag: string)
    requires pos <= |raw| && (|raw| < pos + 4 || HeadAt(raw, pos).None?)
    ensures FirstFrom(raw, pos, tag) == None
  {
  }

  method FindTxId(emv: string) returns (txid: Option<string>)
    ensures txid == ExtractTxId(emv)
  {
    var fields := ParseTopLevel(Strip(emv));
    var raw := Get(fields, "62");
    WholeText(raw);
    hide FieldsFrom, Fields, FirstValue, Strip;
    var pos := 0;
    while pos + 4 <= |raw|
      invariant pos <= |raw|
      invariant FirstFrom(raw, pos, "05") == FirstValue(Fields(raw), "05")
    {
      var head := HeadAt(raw, pos);
      if head.None? { break; }
      FirstOfField(raw, pos, "05");
      if head.value.tag == "05" {
        var text := Strip(head.value.value);
        return if text == "" then None else Some(text);
      }
      pos := pos + 4 + |head.value.value|;
    }
    NoFieldLeft(raw, pos, "05");
    return None;
  }

  /** The two digits of a field number. */
  function TagOf(id: nat): string
    requires 10 <= id <= 99
  {
    Decimal(id)
  }

  /** What each of the 26 account numbers, from 26 to 51, gives. */
  function NumberedUrls(fields: map<string, string>): (urls: seq<Option<string>>)
    ensures |urls| == 26 && forall i | 0 <= i < 26 :: urls[i] == BlockUrl(Get(fields, TagOf(26 + i)))
  {
    seq(26, i requires 0 <= i < 26 => BlockUrl(Get(fields, TagOf(26 + i))))
  }

  /** The location in the merchant account with the smallest tag that has one. */
  function ExtractPixUrl(emv: string): Option<string> {
    FirstSome(NumberedUrls(TopLevel(Strip(emv))))
  }

  lemma EmptyAccountHasNoUrl()
    ensures BlockUrl("") == None
  {
    assert Fields("") == [];
    var gui := Upper(Get(LastWins([]), "00"));
    assert gui == "";
  }

  method FindPixUrl(emv: string) returns (url: Option<string>)
    ensures url == ExtractPixUrl(emv)
  {
    var fields := ParseTopLevel(Strip(emv));
    ghost var urls := NumberedUrls(fields);
    EmptyAccountHasNoUrl();
    hide BlockUrl, TagOf, NumberedUrls, FirstSome, LastWins, BeforeCrc, Fields, Strip;
    for id := 26 to 52
      invariant forall j | 0 <= j < id - 26 :: urls[j].None?
    {
      var raw := Get(fields, TagOf(id));
      if raw != "" {
        url := ReadAccount(raw);
        if url.Some? {
          FirstSomeAt(urls, id - 26);
          return;
        }
      }
    }
    FirstSomeNone(urls);
    url := None;
  }
}

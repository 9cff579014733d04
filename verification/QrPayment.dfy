/**
 * From the scanned text to the payment: the internal charge a payload names, and the life of a charge
 * from its generated payload to its one payment.
 */
module QrPayment {

  import opened Wrappers
  import opened Text
  import opened Tlv
  import opened BrCode
  import opened CrcCheck
  import opened BrCodeRoundTrip
  import opened PixModel
  import opened PixHolds
  import opened PixLifecycle
  import opened PixConservation
  import CrcText
  import Fees
  import ParserAgreement
  import RouterEmv

  // ---------------------------------------------------------------- ids in a payload

  predicate IsHexDigit(c: char) {
    IsDigit(c) || 'a' <= c <= 'f' || 'A' <= c <= 'F'
  }

  predicate IsUuid(s: string) {
    && |s| == 36
    && forall i | 0 <= i < 36 :: if i in {8, 13, 18, 23} then s[i] == '-' else IsHexDigit(s[i])
  }

  /** The matches of the UUID pattern, leftmost first and without overlap, from a position on. */
  function UuidsFrom(s: string, pos: nat): seq<string>
    decreases |s| - pos
  {
    if |s| < pos + 36 then []
    else if IsUuid(s[pos..pos + 36]) then [s[pos..pos + 36]] + UuidsFrom(s, pos + 36)
    else UuidsFrom(s, pos + 1)
  }

  const PAY_ID: string := "pay_"

  predicate IsAlphanumeric(c: char) {
    IsLetter(c) || IsDigit(c)
  }

  /** How far a run of letters and digits goes. */
  function AlphanumericEnd(s: string, pos: nat): (end: nat)
    requires pos <= |s|
    ensures pos <= end <= |s|
    decreases |s| - pos
  {
    if pos < |s| && IsAlphanumeric(s[pos]) then AlphanumericEnd(s, pos + 1) else pos
  }

  /** The same for the gateway's payment ids: the prefix and at least one letter or digit. */
  function PayIdsFrom(s: string, pos: nat): seq<string>
    decreases |s| - pos
  {
    if |s| < pos + 5 then []
    else if OccursAt(s, PAY_ID, pos) && IsAlphanumeric(s[pos + 4]) then
      var end := AlphanumericEnd(s, pos + 5);
      [s[pos..end]] + PayIdsFrom(s, end)
    else PayIdsFrom(s, pos + 1)
  }

  function Uuids(payload: string): seq<string> {
    UuidsFrom(payload, 0)
  }

  function PayIds(payload: string): seq<string> {
    PayIdsFrom(payload, 0)
  }

  // ---------------------------------------------------------------- the charge a payload names

  /** The first of some ids that is an unpaid charge. */
  function FirstOpen(s: State, ids: seq<Id>): (charge: Option<Id>)
    ensures charge.Some? ==> charge.value in ids && OpenCharge(s, charge)
    decreases |ids|
  {
    if ids == [] then None
    else if OpenCharge(s, Some(ids[0])) then Some(ids[0])
    else FirstOpen(s, ids[1..])
  }

  /** The first of some ids that is a paid one. */
  function FirstPaid(s: State, ids: seq<Id>): (charge: Option<Id>)
    ensures charge.Some? ==> charge.value in ids && PaidCharge(s, charge)
    decreases |ids|
  {
    if ids == [] then None
    else if PaidCharge(s, Some(ids[0])) then Some(ids[0])
    else FirstPaid(s, ids[1..])
  }

  const GATEWAY_HOST: string := "asaas.com"

  /** A charge stored with the start of this payload as its key. */
  predicate StoredAs(keys: map<Id, string>, t: Id, payload: string) {
    payload != "" && t in keys && keys[t] == FirstChars(payload, 200)
  }

  /** A charge whose stored key contains a UUID. */
  predicate Mentions(keys: map<Id, string>, t: Id, uuid: string) {
    t in keys && Contains(keys[t], uuid)
  }

  ghost predicate AnyStored(s: State, keys: map<Id, string>, payload: string) {
    exists t | t in s.txs :: OpenCharge(s, Some(t)) && StoredAs(keys, t, payload)
  }

  /** Whether some unpaid charge, or some paid one, mentions a UUID. */
  ghost predicate AnyMentions(s: State, keys: map<Id, string>, uuid: string, paid: bool) {
    exists t | t in s.txs :: (if paid then PaidCharge(s, Some(t)) else OpenCharge(s, Some(t))) && Mentions(keys, t, uuid)
  }

  /** The first UUID that such a charge mentions. */
  ghost function FirstMentioned(s: State, keys: map<Id, string>, uuids: seq<string>, paid: bool): Option<string>
    decreases |uuids|
  {
    if uuids == [] then None
    else if AnyMentions(s, keys, uuids[0], paid) then Some(uuids[0])
    else FirstMentioned(s, keys, uuids[1..], paid)
  }

  /** The UUIDs by which stored payloads are searched: those of a payload of the gateway. */
  function Searched(payload: string): seq<string> {
    if Contains(payload, GATEWAY_HOST) then Uuids(payload) else []
  }

  /** What the search for the internal charge of a payload gives, for the keys stored with the rows: an
      unpaid charge by id, then by stored payload, then by the UUIDs in stored payloads, one after the
      other; failing these, a paid one by id or by the UUIDs; failing these, none. */
  ghost predicate Finds(s: State, keys: map<Id, string>, payload: string, charge: Option<Id>) {
    var ids, uuids := Uuids(payload) + PayIds(payload), Searched(payload);
    var unpaid, paid := FirstMentioned(s, keys, uuids, false), FirstMentioned(s, keys, uuids, true);
    if FirstOpen(s, ids).Some? then charge == FirstOpen(s, ids)
    else if AnyStored(s, keys, payload) then OpenCharge(s, charge) && StoredAs(keys, charge.value, payload)
    else if unpaid.Some? then OpenCharge(s, charge) && Mentions(keys, charge.value, unpaid.value)
    else if FirstPaid(s, ids).Some? then charge == FirstPaid(s, ids)
    else if paid.Some? then PaidCharge(s, charge) && Mentions(keys, charge.value, paid.value)
    else charge == None
  }

  // ---------------------------------------------------------------- generated payloads name their charge

  /** Free of the characters that could start another id: a hyphen, an underscore, a small s. */
  predicate Plain(s: string) {
    forall i | 0 <= i < |s| :: s[i] != '-' && IsIdOrPlain(s[i])
  }

  predicate IsIdOrPlain(c: char) {
    c != '_' && c != 's'
  }

  /** Free of underscores and small s. */
  predicate NoOtherId(s: string) {
    forall i | 0 <= i < |s| :: IsIdOrPlain(s[i])
  }

  lemma TwoDigitsArePlain(n: nat)
    ensures Plain(TwoDigits(n))
  {
    DigitsArePlain(TwoDigits(n));
  }

  lemma PlainParts(a: string, b: string)
    requires Plain(a) && Plain(b)
    ensures Plain(a + b)
  {
  }

  lemma DigitsArePlain(s: string)
    requires AllDigits(s)
    ensures Plain(s)
  {
  }

  lemma {:induction false} PlainFields(fields: seq<Field>)
    requires forall i | 0 <= i < |fields| :: Plain(fields[i].tag) && Plain(fields[i].value)
    ensures Plain(Concat(fields))
    decreases |fields|
  {
    if fields != [] {
      var f := fields[0];
      TwoDigitsArePlain(|f.value|);
      PlainFields(fields[1..]);
    }
  }

  lemma BlankIsPlain(s: string)
    requires IsBlank(s)
    ensures Plain(s)
  {
  }

  lemma UuidChars(id: string)
    requires IsUuid(id)
    ensures IsChargeId(id) && NoOtherId(id)
  {
  }

  lemma {:induction false} WithoutHyphensIsPlain(s: string)
    requires NoOtherId(s)
    ensures Plain(WithoutHyphens(s))
    decreases |s|
  {
    if s != [] {
      WithoutHyphensIsPlain(s[1..]);
    }
  }

  lemma TxIdIsPlain(id: string)
    requires IsUuid(id)
    ensures Plain(TxId(id))
  {
    UuidChars(id);
    WithoutHyphensIsPlain(id);
    var t := TxId(id);
    assert t == WithoutHyphens(id)[..|t|];
  }

  lemma CentsArePlain(cents: nat)
    ensures Plain(FormatCents(cents))
  {
    DigitsArePlain(Decimal(cents / 100));
    TwoDigitsArePlain(cents % 100);
  }

  lemma HexDigitIsPlain(c: char)
    requires c in CrcText.HEX_DIGITS
    ensures c != '-' && IsIdOrPlain(c)
  {
  }

  lemma CrcIsPlain(body: string)
    ensures Plain(CrcText.Crc16(body))
  {
    hide CrcText.Register, CrcText.Nibble;
    var s := CrcText.Crc16(body);
    forall i | 0 <= i < |s|
      ensures s[i] != '-' && IsIdOrPlain(s[i])
    {
      HexDigitIsPlain(s[i]);
    }
  }

  lemma ConcatThree(x: seq<Field>, f: Field, y: seq<Field>)
    ensures Concat(x + [f] + y) == Concat(x) + Print(f) + Concat(y)
  {
    hide Concat, Print;
    ConcatAppend(x + [f], y);
    ConcatAppend(x, [f]);
    ConcatOne(f);
  }

  function IdPrefix(id: string): string {
    Print(Field("00", GUI)) + ("01" + TwoDigits(|id|))
  }

  lemma AccountEndsWithId(id: string)
    ensures MerchantAccount(id) == IdPrefix(id) + id
  {
    var gui, key := Field("00", GUI), Field("01", id);
    hide Concat, TwoDigits;
    assert [gui, key] == [gui] + [key];
    ConcatAppend([gui], [key]);
    ConcatOne(gui);
    ConcatOne(key);
  }

  lemma IdPrefixIsPlain(id: string)
    ensures Plain(IdPrefix(id))
  {
    hide Concat, TwoDigits, Plain;
    TwoDigitsArePlain(|id|);
    PlainConstants();
    PlainParts("01", TwoDigits(|id|));
    PlainFields([Field("00", GUI)]);
    ConcatOne(Field("00", GUI));
    PlainParts(Print(Field("00", GUI)), "01" + TwoDigits(|id|));
  }

  lemma PlainConstants()
    ensures Plain("00") && Plain("01") && Plain("11") && Plain("26") && Plain("52") && Plain("53") && Plain("54")
    ensures Plain("58") && Plain("59") && Plain("60") && Plain("62") && Plain("05")
    ensures Plain("0000") && Plain("986") && Plain("BR") && Plain("BioCodeTechPay") && Plain("BRASILIA")
    ensures Plain(GUI) && Plain(CRC_TAG)
  {
  }

  function FieldsAfterAccount(id: string, cents: nat): seq<Field> {
    [Field("52", "0000"), Field("53", "986"), Field("54", FormatCents(cents)), Field("58", "BR"),
     Field("59", "BioCodeTechPay"), Field("60", "BRASILIA"), Field("62", Concat([Field("05", TxId(id))]))]
  }

  lemma FieldsAfterArePlain(id: string, cents: nat)
    requires IsUuid(id)
    ensures Plain(Concat(FieldsAfterAccount(id, cents)))
  {
    CentsArePlain(cents);
    TxIdIsPlain(id);
    PlainConstants();
    hide Concat, FormatCents, TxId, Plain, IsUuid;
    PlainFields([Field("05", TxId(id))]);
    PlainFields(FieldsAfterAccount(id, cents));
  }

  lemma FieldsOfCharge(id: string, cents: nat)
    ensures PayloadFields("11", id, Some(FormatCents(cents)), "BioCodeTechPay")
         == [Field("00", "01"), Field("01", "11")] + [Field("26", MerchantAccount(id))] + FieldsAfterAccount(id, cents)
  {
    hide Concat, FormatCents, TxId, MerchantAccount;
  }

  function Before(id: string): string {
    Concat([Field("00", "01"), Field("01", "11")]) + ("26" + TwoDigits(|MerchantAccount(id)|)) + IdPrefix(id)
  }

  function After(id: string, cents: nat): string {
    Concat(FieldsAfterAccount(id, cents)) + CRC_TAG
    + CrcText.Crc16(Body("11", id, Some(FormatCents(cents)), "BioCodeTechPay"))
  }

  lemma BeforeIsPlain(id: string)
    ensures Plain(Before(id))
  {
    hide Concat, MerchantAccount, IdPrefix, TwoDigits, Plain;
    PlainConstants();
    PlainFields([Field("00", "01"), Field("01", "11")]);
    TwoDigitsArePlain(|MerchantAccount(id)|);
    PlainParts("26", TwoDigits(|MerchantAccount(id)|));
    IdPrefixIsPlain(id);
    PlainParts(Concat([Field("00", "01"), Field("01", "11")]), "26" + TwoDigits(|MerchantAccount(id)|));
    PlainParts(Concat([Field("00", "01"), Field("01", "11")]) + ("26" + TwoDigits(|MerchantAccount(id)|)), IdPrefix(id));
  }

  lemma AfterIsPlain(id: string, cents: nat)
    requires IsUuid(id)
    ensures Plain(After(id, cents))
  {
    hide Concat, FieldsAfterAccount, FormatCents, CrcText.Crc16, Body, Plain, IsUuid;
    PlainConstants();
    FieldsAfterArePlain(id, cents);
    CrcIsPlain(Body("11", id, Some(FormatCents(cents)), "BioCodeTechPay"));
    PlainParts(Concat(FieldsAfterAccount(id, cents)), CRC_TAG);
    PlainParts(Concat(FieldsAfterAccount(id, cents)) + CRC_TAG,
               CrcText.Crc16(Body("11", id, Some(FormatCents(cents)), "BioCodeTechPay")));
  }

  lemma PayloadIsSealedBody(id: string, cents: nat)
    ensures BuildStatic(id, cents)
         == Concat(PayloadFields("11", id, Some(FormatCents(cents)), "BioCodeTechPay")) + CRC_TAG
            + CrcText.Crc16(Body("11", id, Some(FormatCents(cents)), "BioCodeTechPay"))
  {
    hide Concat, PayloadFields, FormatCents, CrcText.Crc16;
  }

  lemma PayloadAroundId(id: string, cents: nat)
    ensures BuildStatic(id, cents) == Before(id) + id + After(id, cents)
  {
    hide Concat, FormatCents, TxId, MerchantAccount, IdPrefix, CrcText.Crc16, PayloadFields, FieldsAfterAccount, Body, BuildStatic;
    FieldsOfCharge(id, cents);
    PayloadIsSealedBody(id, cents);
    ConcatThree([Field("00", "01"), Field("01", "11")], Field("26", MerchantAccount(id)), FieldsAfterAccount(id, cents));
    AccountEndsWithId(id);
    Regroup(Concat([Field("00", "01"), Field("01", "11")]), "26" + TwoDigits(|MerchantAccount(id)|), IdPrefix(id), id,
            Concat(FieldsAfterAccount(id, cents)), CRC_TAG,
            CrcText.Crc16(Body("11", id, Some(FormatCents(cents)), "BioCodeTechPay")));
  }

  lemma Regroup(a: string, b: string, c: string, id: string, d: string, e: string, f: string)
    ensures a + (b + (c + id)) + d + e + f == a + b + c + id + (d + e + f)
  {
  }

  // ---------------------------------------------------------------- scanning

  /** A text with one UUID between plain characters. */
  lemma {:induction false} OneUuid(before: string, id: string, after: string, pos: nat)
    requires Plain(before) && IsUuid(id) && Plain(after) && (pos <= |before| || |before| + 36 <= pos)
    ensures UuidsFrom(before + id + after, pos) == if pos <= |before| then [id] else []
    decreases |before + id + after| - pos
  {
    var s := before + id + after;
    if pos + 36 <= |s| {
      if pos == |before| {
        assert s[pos..pos + 36] == id;
        OneUuid(before, id, after, pos + 36);
      } else {
        assert s[pos..pos + 36][8] == s[pos + 8];
        OneUuid(before, id, after, pos + 1);
      }
    }
  }

  lemma {:induction false} NoPayId(s: string, pos: nat)
    requires NoOtherId(s)
    ensures PayIdsFrom(s, pos) == []
    decreases |s| - pos
  {
    if pos + 5 <= |s| {
      assert s[pos..pos + 4][3] == s[pos + 3];
      NoPayId(s, pos + 1);
    }
  }

  lemma NoHost(s: string)
    requires NoOtherId(s)
    ensures !Contains(s, GATEWAY_HOST)
  {
    forall i | 0 <= i <= |s|
      ensures !OccursAt(s, GATEWAY_HOST, i)
    {
      assert |GATEWAY_HOST| == 9 && GATEWAY_HOST[1] == 's';
      if i + 9 <= |s| { assert s[i..i + 9][1] == s[i + 1]; }
    }
  }

  /** The text of a charge's payload, with any blanks around it. */
  predicate IsPayloadOf(text: string, id: string, cents: nat, u: string, w: string) {
    IsUuid(id) && IsBlank(u) && IsBlank(w) && text == u + BuildStatic(id, cents) + w
  }

  /** The only id in the payload of a charge is that of the charge. */
  lemma PayloadNamesOnlyItsCharge(text: string, id: string, cents: nat, u: string, w: string)
    requires IsPayloadOf(text, id, cents, u, w)
    ensures Uuids(text) == [id] && PayIds(text) == [] && !Contains(text, GATEWAY_HOST)
  {
    TextAroundId(text, id, cents, u, w);
    AroundIsPlain(text, id, cents, u, w);
    hide *;
    UuidBetween(text, u + Before(id), id, After(id, cents) + w);
  }

  lemma TextAroundId(text: string, id: string, cents: nat, u: string, w: string)
    requires IsPayloadOf(text, id, cents, u, w)
    ensures IsUuid(id) && text == (u + Before(id)) + id + (After(id, cents) + w)
  {
    hide BuildStatic, Before, After, IsUuid, IsBlank;
    PayloadAroundId(id, cents);
    RegroupText(u, Before(id), id, After(id, cents), w);
  }

  lemma RegroupText(u: string, a: string, id: string, b: string, w: string)
    ensures u + (a + id + b) + w == (u + a) + id + (b + w)
  {
  }

  lemma AroundIsPlain(text: string, id: string, cents: nat, u: string, w: string)
    requires IsPayloadOf(text, id, cents, u, w)
    ensures Plain(u + Before(id)) && Plain(After(id, cents) + w)
  {
    hide BuildStatic, Before, After, IsUuid, IsBlank, Plain;
    BlankIsPlain(u);
    BlankIsPlain(w);
    BeforeIsPlain(id);
    AfterIsPlain(id, cents);
    PlainParts(u, Before(id));
    PlainParts(After(id, cents), w);
  }

  lemma UuidBetween(text: string, before: string, id: string, after: string)
    requires Plain(before) && Plain(after) && IsUuid(id) && text == before + id + after
    ensures Uuids(text) == [id] && PayIds(text) == [] && !Contains(text, GATEWAY_HOST)
  {
    UuidChars(id);
    hide IsUuid, Contains, UuidsFrom, PayIdsFrom;
    OneUuid(before, id, after, 0);
    NoPayId(text, 0);
    NoHost(text);
  }

  // ---------------------------------------------------------------- the search

  /** The search for the internal charge, route after route. */
  method FindInternalCharge(s: State, keys: map<Id, string>, payload: string) returns (charge: Option<Id>)
    ensures Finds(s, keys, payload, charge)
  {
    hide Uuids, PayIds, OpenCharge, PaidCharge, StoredAs, Mentions, Contains, FirstOpen, FirstPaid, FirstMentioned, AnyMentions;
    var ids, uuids := Uuids(payload) + PayIds(payload), Searched(payload);
    charge := SearchOpen(s, ids);
    if charge.Some? { return; }
    if t :| t in s.txs && OpenCharge(s, Some(t)) && StoredAs(keys, t, payload) { return Some(t); }
    charge := SearchMentioned(s, keys, uuids, false);
    if charge.Some? { return; }
    charge := SearchPaid(s, ids);
    if charge.Some? { return; }
    charge := SearchMentioned(s, keys, uuids, true);
  }

  /** The UUIDs are tried in order; of the charges that mention one, any will do. */
  method SearchMentioned(s: State, keys: map<Id, string>, uuids: seq<string>, paid: bool) returns (charge: Option<Id>)
    ensures var first := FirstMentioned(s, keys, uuids, paid);
      if first.None? then charge == None
      else charge.Some? && Mentions(keys, charge.value, first.value)
           && if paid then PaidCharge(s, charge) else OpenCharge(s, charge)
  {
    hide OpenCharge, PaidCharge, Mentions;
    for k := 0 to |uuids|
      invariant FirstMentioned(s, keys, uuids[k..], paid) == FirstMentioned(s, keys, uuids, paid)
    {
      assert uuids[k..][0] == uuids[k] && uuids[k..][1..] == uuids[k + 1..];
      if t :| t in s.txs && (if paid then PaidCharge(s, Some(t)) else OpenCharge(s, Some(t))) && Mentions(keys, t, uuids[k]) {
        return Some(t);
      }
    }
    return None;
  }

  method SearchOpen(s: State, ids: seq<Id>) returns (charge: Option<Id>)
    ensures charge == FirstOpen(s, ids)
  {
    hide OpenCharge;
    for k := 0 to |ids|
      invariant FirstOpen(s, ids[k..]) == FirstOpen(s, ids)
    {
      assert ids[k..][0] == ids[k] && ids[k..][1..] == ids[k + 1..];
      if OpenCharge(s, Some(ids[k])) { return Some(ids[k]); }
    }
    return None;
  }

  method SearchPaid(s: State, ids: seq<Id>) returns (charge: Option<Id>)
    ensures charge == FirstPaid(s, ids)
  {
    hide PaidCharge;
    for k := 0 to |ids|
      invariant FirstPaid(s, ids[k..]) == FirstPaid(s, ids)
    {
      assert ids[k..][0] == ids[k] && ids[k..][1..] == ids[k + 1..];
      if PaidCharge(s, Some(ids[k])) { return Some(ids[k]); }
    }
    return None;
  }

  // ---------------------------------------------------------------- paying a scanned text

  /** What a client sends in: the scanned text and, optionally, a value and an idempotency header. */
  datatype Scan = Scan(user: Id, header: Option<string>, freshKey: string, text: string, clientValue: Option<int>, txId: Id)

  /** The request a scanned text stands for, for a way of reading decimals and a digest of texts. */
  function RequestOf(scan: Scan, charge: Option<Id>, read: string -> Option<real>, digest: string -> string): QrRequest {
    QrRequest(scan.user, scan.header, scan.freshKey, digest(Strip(scan.text)), charge,
              (RouterEmv.ParseValue(read, scan.text) * 100.0).Floor, scan.clientValue, scan.txId)
  }

  /** What the request holds for a scanned charge payload: the amount the payload was made for, in cents, the
      digest of the payload without the blanks around it, and the client's own data. */
  lemma ScannedRequest(scan: Scan, charge: Option<Id>, digest: string -> string, id: Id, cents: nat, u: string, w: string)
    requires IsPayloadOf(scan.text, id, cents, u, w) && |FormatCents(cents)| <= 99
    ensures var r := RequestOf(scan, charge, ReadDecimal, digest);
      && r.emvValue == cents && r.hash == digest(BuildStatic(id, cents)) && r.charge == charge
      && r.user == scan.user && r.header == scan.header && r.freshKey == scan.freshKey
      && r.clientValue == scan.clientValue && r.txId == scan.txId
  {
    hide *;
    NamedUuid(scan.text, id, cents, u, w);
    StrippedPayload(scan.text, id, cents, u, w);
    ScannedCents(scan.text, id, cents);
    RequestFields(scan, charge, cents, digest);
  }

  lemma ScannedCents(text: string, id: Id, cents: nat)
    requires IsUuid(id) && |FormatCents(cents)| <= 99 && Strip(text) == BuildStatic(id, cents) == Strip(BuildStatic(id, cents))
    ensures (RouterEmv.ParseValue(ReadDecimal, text) * 100.0).Floor == cents
  {
    hide *;
    ScannedValue(text, id, cents);
    CentsOfReal(cents);
  }

  lemma NamedUuid(text: string, id: Id, cents: nat, u: string, w: string)
    requires IsPayloadOf(text, id, cents, u, w)
    ensures IsUuid(id)
  {
  }

  lemma RequestFields(scan: Scan, charge: Option<Id>, cents: int, digest: string -> string)
    requires (RouterEmv.ParseValue(ReadDecimal, scan.text) * 100.0).Floor == cents
    ensures var r := RequestOf(scan, charge, ReadDecimal, digest);
      && r.emvValue == cents && r.hash == digest(Strip(scan.text)) && r.charge == charge
      && r.user == scan.user && r.header == scan.header && r.freshKey == scan.freshKey
      && r.clientValue == scan.clientValue && r.txId == scan.txId
  {
    hide RouterEmv.ParseValue, Strip, ReadDecimal;
  }

  lemma ScannedValue(text: string, id: Id, cents: nat)
    requires IsUuid(id) && |FormatCents(cents)| <= 99 && Strip(text) == BuildStatic(id, cents) == Strip(BuildStatic(id, cents))
    ensures RouterEmv.ParseValue(ReadDecimal, text) == cents as real / 100.0
  {
    UuidChars(id);
    assert |id| == 36;
    hide ReadDecimal, FormatCents, IsUuid, Strip, RouterEmv.TopLevel, ParseAmount, BuildStatic, IsChargeId, Body, CrcText.Crc16, ValidatePixCrc, ParsePixKey, RouterEmv.ExtractTxId, TxId;
    PayloadAgrees(id, cents);
    ChargeComesBack(id, cents);
  }

  lemma CentsOfReal(cents: int)
    ensures ((cents as real / 100.0) * 100.0).Floor == cents
  {
    assert (cents as real / 100.0) * 100.0 == cents as real;
  }

  lemma StrippedPayload(text: string, id: Id, cents: nat, u: string, w: string)
    requires IsPayloadOf(text, id, cents, u, w)
    ensures Strip(text) == BuildStatic(id, cents) == Strip(BuildStatic(id, cents))
  {
    PayloadIsTrimmed("11", id, Some(FormatCents(cents)), "BioCodeTechPay");
    PayloadIsSealedBody(id, cents);
    hide Strip, FormatCents, PayloadFields, Concat, Trimmed, IsBlank, IsUuid, CrcText.Crc16;
    StripAround(u, BuildStatic(id, cents), w);
    StripOfTrimmed(BuildStatic(id, cents));
  }

  lemma PayloadAgrees(id: Id, cents: nat)
    requires |id| <= 77 && |FormatCents(cents)| <= 99
    ensures RouterEmv.ParseValue(ReadDecimal, BuildStatic(id, cents)) == ParseAmount(ReadDecimal, BuildStatic(id, cents))
  {
    hide FormatCents, ParseAmount, RouterEmv.ParseValue, Trimmed, Fields, Payload;
    PayloadIsTrimmed("11", id, Some(FormatCents(cents)), "BioCodeTechPay");
    PayloadIsWellFormed("11", id, Some(FormatCents(cents)), "BioCodeTechPay");
    assert BuildStatic(id, cents) == Payload("11", id, Some(FormatCents(cents)), "BioCodeTechPay");
    ParserAgreement.AmountsAgree(ReadDecimal, BuildStatic(id, cents));
  }

  /** A damaged text is refused ahead of everything else that looks at it. */
  ghost function PayScan(s: State, scan: Scan, charge: Option<Id>, read: string -> Option<real>, digest: string -> string, g: QrAnswer): Outcome {
    if scan.clientValue.Some? && scan.clientValue.value <= 0 then Outcome(s, Refused(InvalidValue))
    else if scan.user !in s.accounts then Outcome(s, Refused(Unauthenticated))
    else if !ValidatePixCrc(scan.text) then Outcome(s, Refused(InvalidPayload))
    else PayQr(s, RequestOf(scan, charge, read, digest), g)
  }

  // ---------------------------------------------------------------- the life of a charge

  /** No other unpaid charge is stored under this text. */
  ghost predicate NotStoredElsewhere(s: State, keys: map<Id, string>, id: Id, text: string) {
    forall t | t in s.txs && OpenCharge(s, Some(t)) && StoredAs(keys, t, text) :: t == id
  }

  lemma FirstOfOne(s: State, id: Id)
    ensures FirstOpen(s, [id]) == if OpenCharge(s, Some(id)) then Some(id) else None
    ensures FirstPaid(s, [id]) == if PaidCharge(s, Some(id)) then Some(id) else None
  {
    assert [id][1..] == [];
  }

  /** The search finds the charge of a payload as long as it is unpaid; once it is paid, exactly when no
      other unpaid charge is stored under the text. */
  lemma SearchFindsItsCharge(s: State, keys: map<Id, string>, text: string, id: Id, cents: nat, u: string, w: string, charge: Option<Id>)
    requires IsPayloadOf(text, id, cents, u, w) && Finds(s, keys, text, charge)
    ensures OpenCharge(s, Some(id)) ==> charge == Some(id)
    ensures PaidCharge(s, Some(id)) ==> (charge == Some(id) <==> NotStoredElsewhere(s, keys, id, text))
    ensures PaidCharge(s, Some(id)) && charge != Some(id) ==> OpenCharge(s, charge)
  {
    PayloadNamesOnlyItsCharge(text, id, cents, u, w);
    FirstOfOne(s, id);
    assert [id] + [] == [id];
    hide IsPayloadOf, Uuids, PayIds, Contains, StoredAs, FirstOpen, FirstPaid;
  }

  /** A scan of a charge's payload that passes every check on the way: its checksum is not 6304, the user
      exists, the client's value is not negative or zero, and it repeats no earlier payment. */
  ghost predicate ScanGoesThrough(s: State, scan: Scan, id: Id, cents: nat, digest: string -> string) {
    && CrcText.Crc16(Body("11", id, Some(FormatCents(cents)), "BioCodeTechPay")) != CRC_TAG
    && scan.user in s.accounts
    && (scan.clientValue.Some? ==> scan.clientValue.value > 0)
    && (scan.header.Some? && scan.header.value != "" ==> !KeyUsed(s, scan.header.value))
    && forall t | t in s.txs :: s.txs[t].owner == scan.user && s.txs[t].payloadHash == Some(digest(Strip(scan.text)))
                                ==> s.txs[t].status != Confirmed && s.txs[t].status != Processing
  }

  lemma CheckOfPayload(text: string, id: string, cents: nat, u: string, w: string)
    requires IsPayloadOf(text, id, cents, u, w)
    ensures ValidatePixCrc(text) <==> CrcText.Crc16(Body("11", id, Some(FormatCents(cents)), "BioCodeTechPay")) != CRC_TAG
  {
    var amount := Some(FormatCents(cents));
    PayloadPassesExactly("11", id, amount, "BioCodeTechPay");
    PayloadIsTrimmed("11", id, amount, "BioCodeTechPay");
    PayloadIsSealedBody(id, cents);
    hide ValidatePixCrc, CrcText.Crc16, FormatCents, PayloadFields, Concat, Trimmed, IsBlank, IsUuid;
    CheckIgnoresBlanks(u, BuildStatic(id, cents), w);
  }

  /** Scanning the payload of an unpaid charge pays that charge: what is taken is the charge's own value,
      whatever amount the payload or the client names, and no gateway is asked. */
  lemma ScanPaysItsCharge(s: State, keys: map<Id, string>, scan: Scan, id: Id, cents: nat, u: string, w: string,
                          charge: Option<Id>, read: string -> Option<real>, digest: string -> string, g: QrAnswer)
    requires IsPayloadOf(scan.text, id, cents, u, w) && Finds(s, keys, scan.text, charge)
    requires OpenCharge(s, Some(id)) && ScanGoesThrough(s, scan, id, cents, digest)
    ensures charge == Some(id)
    ensures PayScan(s, scan, charge, read, digest, g) == PayInternalCharge(s, RequestOf(scan, charge, read, digest), id)
  {
    SearchFindsItsCharge(s, keys, scan.text, id, cents, u, w, charge);
    CheckOfPayload(scan.text, id, cents, u, w);
    hide ValidatePixCrc, Finds, IsPayloadOf, PayInternalCharge, PayExternalQr, CrcText.Crc16, Body, Strip, RouterEmv.ParseValue;
    assert !Duplicate(s, RequestOf(scan, charge, read, digest));
  }

  /** Once a charge is paid, nobody pays it again with its payload: whoever scans it, and after any run,
      its row stays as it is; and unless another unpaid charge is stored under the same text, the scan is
      refused or answered from an earlier row, and changes nothing. */
  lemma PaidChargeIsNotPaidAgain(s: State, events: seq<Event>, keys: map<Id, string>, scan: Scan, id: Id, cents: nat, u: string, w: string,
                                 charge: Option<Id>, read: string -> Option<real>, digest: string -> string, g: QrAnswer)
    requires PaidCharge(s, Some(id)) && IsPayloadOf(scan.text, id, cents, u, w) && Finds(Run(s, events), keys, scan.text, charge)
    ensures var s', o := Run(s, events), PayScan(Run(s, events), scan, charge, read, digest, g);
      && PaidCharge(s', Some(id)) && id in o.state.txs && o.state.txs[id] == s'.txs[id] == s.txs[id]
      && (NotStoredElsewhere(s', keys, id, scan.text) ==> o.state == s' && (o.reply.Replayed? || o.reply.Refused?))
  {
    hide Run, Finds, IsPayloadOf, NotStoredElsewhere, PayScan, Strip, RouterEmv.ParseValue;
    RunEvolves(s, events);
    PaidStaysPaid(s, Run(s, events), id);
    SearchFindsItsCharge(Run(s, events), keys, scan.text, id, cents, u, w, charge);
    ScanEvolves(Run(s, events), scan, charge, read, digest, g);
    PaidStaysPaid(Run(s, events), PayScan(Run(s, events), scan, charge, read, digest, g).state, id);
    ScanOfPaidCharge(Run(s, events), scan, id, read, digest, g);
  }

  lemma ScanEvolves(s: State, scan: Scan, charge: Option<Id>, read: string -> Option<real>, digest: string -> string, g: QrAnswer)
    ensures Evolves(s, PayScan(s, scan, charge, read, digest, g).state)
  {
    hide ValidatePixCrc, PayQr, Strip, RouterEmv.ParseValue;
    PayEvolves(s, RequestOf(scan, charge, read, digest), g);
  }

  lemma PaidStaysPaid(s: State, s': State, id: Id)
    requires PaidCharge(s, Some(id)) && Evolves(s, s')
    ensures PaidCharge(s', Some(id)) && s'.txs[id] == s.txs[id]
  {
    assert RowEvolves(s.txs[id], s'.txs[id]);
  }

  lemma ScanOfPaidCharge(s: State, scan: Scan, id: Id, read: string -> Option<real>, digest: string -> string, g: QrAnswer)
    requires PaidCharge(s, Some(id))
    ensures var o := PayScan(s, scan, Some(id), read, digest, g); o.state == s && (o.reply.Replayed? || o.reply.Refused?)
  {
    hide ValidatePixCrc, PayInternalCharge, PayExternalQr, Duplicate, Strip, RouterEmv.ParseValue;
  }

  /** A charge made here is, after any run, still the same charge, and either unpaid or paid. */
  lemma LocalChargeStays(s: State, user: Id, value: int, correlation: string, id: Id, events: seq<Event>)
    requires CreateCharge(s, user, value, None, correlation, id).reply.Accepted?
    ensures var s' := Run(CreateCharge(s, user, value, None, correlation, id).state, events);
      && (OpenCharge(s', Some(id)) || PaidCharge(s', Some(id)))
      && s'.txs[id].owner == user && s'.txs[id].value == value
  {
    var s1 := CreateCharge(s, user, value, None, correlation, id).state;
    assert s1.txs[id] == LocalChargeRow(user, value, id);
    hide Run, CreateCharge;
    RunEvolves(s1, events);
    assert RowEvolves(s1.txs[id], Run(s1, events).txs[id]);
  }

  /** A run neither loses nor adds accounts, and never changes which one is the matrix account. */
  lemma {:induction false} RunKeepsAccounts(s: State, events: seq<Event>)
    requires RowsOk(s)
    ensures RowsOk(Run(s, events)) && KeepsAccounts(s, Run(s, events))
    decreases |events|
  {
    hide Step, RowsOk;
    if events != [] {
      StepKeepsRows(s, events[0]);
      RunKeepsAccounts(Step(s, events[0]), events[1..]);
    }
  }

  /** What a payment between two accounts moves on each account; the matrix account, who may be a party or
      not, takes the maintenance fee. */
  function Moved(s: State, payer: Id, owner: Id, value: int, a: Id): int {
    (if a == owner then value else 0) - (if a == payer then value + Fees.MAINTENANCE_FEE else 0)
    + if s.matrix == Some(a) then Fees.MAINTENANCE_FEE else 0
  }

  lemma ReceiptBalance(s: State, a: Id, gross: nat)
    requires a in s.accounts
    ensures CreditReceipt(s, a, gross, Some(0)).txs == s.txs
    ensures CreditReceipt(s, a, gross, Some(0)).accounts.Keys == s.accounts.Keys
    ensures forall b | b in s.accounts ::
      CreditReceipt(s, a, gross, Some(0)).accounts[b].balance == s.accounts[b].balance + if b == a then gross else 0
  {
  }

  lemma PayerBalance(s: State, payer: Id, value: int)
    requires payer in s.accounts
    ensures PayerCharged(s, payer, value).txs == s.txs
    ensures PayerCharged(s, payer, value).accounts.Keys == s.accounts.Keys
    ensures forall b | b in s.accounts ::
      PayerCharged(s, payer, value).accounts[b].balance
      == s.accounts[b].balance - (if b == payer then value + Fees.MAINTENANCE_FEE else 0)
         + if s.matrix == Some(b) then Fees.MAINTENANCE_FEE else 0
  {
  }

  /** The payment of another account's charge: when it is accepted, and then what it does. */
  lemma ChargePaymentExactly(s: State, r: QrRequest, charge: Id)
    requires r.user in s.accounts && OpenCharge(s, Some(charge)) && s.txs[charge].value >= 0
    requires s.txs[charge].owner != r.user && s.txs[charge].owner in s.accounts
    ensures var o, owner, value := PayInternalCharge(s, r, charge), s.txs[charge].owner, s.txs[charge].value;
      && (o.reply.Accepted? <==> s.accounts[r.user].balance >= value + Fees.MAINTENANCE_FEE && !Clashes(s, r.txId, QrSentRow(r, value)))
      && (!o.reply.Accepted? ==> o.state == s)
      && (o.reply.Accepted? ==>
            && PaidCharge(o.state, Some(charge)) && o.state.accounts.Keys == s.accounts.Keys
            && forall a | a in s.accounts :: o.state.accounts[a].balance == s.accounts[a].balance + Moved(s, r.user, owner, value, a))
  {
    var owner, value := s.txs[charge].owner, s.txs[charge].value;
    PayerBalance(s, r.user, value);
    ReceiptBalance(SetStatus(PayerCharged(s, r.user, value), charge, Confirmed), owner, value);
    hide CreditReceipt, PayerCharged, SameUniqueColumns;
  }

  /** From the charge to its payment: a charge made for a user and, after any run in which it was not paid,
      scanned by somebody else. The scan is accepted if and only if the payer's balance covers value and
      1.00 and the new row clashes with none; then the charge is paid, the payer is charged exactly that, its
      user gets exactly the value it was made for, and the matrix account, if there is one, the 1.00. */
  lemma ChargeIsPaidByScan(s: State, user: Id, value: nat, correlation: string, id: Id, events: seq<Event>,
                           keys: map<Id, string>, scan: Scan, u: string, w: string,
                           charge: Option<Id>, read: string -> Option<real>, digest: string -> string, g: QrAnswer)
    requires RowsOk(s) && CreateCharge(s, user, value, None, correlation, id).reply.Accepted?
    requires IsPayloadOf(scan.text, id, value, u, w) && scan.user != user
    requires var s' := Run(CreateCharge(s, user, value, None, correlation, id).state, events);
      !PaidCharge(s', Some(id)) && Finds(s', keys, scan.text, charge) && ScanGoesThrough(s', scan, id, value, digest)
    ensures var s' := Run(CreateCharge(s, user, value, None, correlation, id).state, events);
      var o := PayScan(s', scan, charge, read, digest, g);
      && user in s'.accounts && scan.user in s'.accounts
      && (o.reply.Accepted? <==> s'.accounts[scan.user].balance >= value + Fees.MAINTENANCE_FEE
                                 && !Clashes(s', scan.txId, QrSentRow(RequestOf(scan, charge, read, digest), value)))
      && (!o.reply.Accepted? ==> o.state == s')
      && (o.reply.Accepted? ==>
            && PaidCharge(o.state, Some(id)) && o.state.accounts.Keys == s'.accounts.Keys
            && forall a | a in s'.accounts :: o.state.accounts[a].balance == s'.accounts[a].balance + Moved(s', scan.user, user, value, a))
  {
    hide Run, CreateCharge, IsPayloadOf, Finds, ScanGoesThrough, PayScan, PayInternalCharge, Strip, RouterEmv.ParseValue, RowsOk, Moved, Clashes;
    var s1 := CreateCharge(s, user, value, None, correlation, id).state;
    var s' := Run(s1, events);
    CreatedChargeRows(s, user, value, correlation, id);
    RunKeepsAccounts(s1, events);
    LocalChargeStays(s, user, value, correlation, id, events);
    ScanPaysItsCharge(s', keys, scan, id, value, u, w, charge, read, digest, g);
    GoesThroughHasUser(s', scan, id, value, digest);
    ChargePaymentExactly(s', RequestOf(scan, charge, read, digest), id);
  }

  lemma CreatedChargeRows(s: State, user: Id, value: nat, correlation: string, id: Id)
    requires RowsOk(s) && CreateCharge(s, user, value, None, correlation, id).reply.Accepted?
    ensures RowsOk(CreateCharge(s, user, value, None, correlation, id).state)
    ensures user in CreateCharge(s, user, value, None, correlation, id).state.accounts
  {
    StepKeepsRows(s, NewCharge(user, value, None, correlation, id));
    hide RowsOk, Clashes;
  }

  lemma GoesThroughHasUser(s: State, scan: Scan, id: Id, cents: nat, digest: string -> string)
    requires ScanGoesThrough(s, scan, id, cents, digest)
    ensures scan.user in s.accounts
  {
  }
}

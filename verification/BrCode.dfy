/**
 * Building a static BR Code and reading one back: key, amount and payload location.
 */
module BrCode {

  import opened Wrappers
  import opened Text
  import opened Tlv
  import CrcCheck

  // ---------------------------------------------------------------- building

  const GUI: string := "BR.GOV.BCB.PIX"

  function WithoutHyphens(s: string): (r: string)
    ensures |r| <= |s| && '-' !in r
    decreases |s|
  {
    if s == [] then [] else if s[0] == '-' then WithoutHyphens(s[1..]) else [s[0]] + WithoutHyphens(s[1..])
  }

  function FirstChars(s: string, n: nat): (r: string)
    ensures |r| <= n && |r| <= |s| && r == s[..|r|]
  {
    if |s| <= n then s else s[..n]
  }

  /** The transaction id: hyphens dropped, 25 characters at most (section 4.6.4). */
  function TxId(key: string): string {
    FirstChars(WithoutHyphens(key), 25)
  }

  /** Cents as a decimal amount with two places, such as "10.00". */
  function FormatCents(cents: int): string {
    if cents < 0 then "-" + FormatUnsigned(-cents) else FormatUnsigned(cents)
  }

  function FormatUnsigned(cents: nat): string {
    Decimal(cents / 100) + "." + TwoDigits(cents % 100)
  }

  function MerchantAccount(key: string): string {
    Concat([Field("00", GUI), Field("01", key)])
  }

  function AmountFields(amount: Option<string>): seq<Field> {
    match amount
    case None => []
    case Some(text) => [Field("54", text)]
  }

  function PayloadFields(initiation: string, key: string, amount: Option<string>, name: string): seq<Field> {
    [Field("00", "01"), Field("01", initiation), Field("26", MerchantAccount(key)),
     Field("52", "0000"), Field("53", "986")] + AmountFields(amount) +
    [Field("58", "BR"), Field("59", name), Field("60", "BRASILIA"),
     Field("62", Concat([Field("05", TxId(key))]))]
  }

  function Payload(initiation: string, key: string, amount: Option<string>, name: string): string {
    CrcCheck.Seal(Concat(PayloadFields(initiation, key, amount, name)) + CrcCheck.CRC_TAG)
  }

  function BuildStatic(chargeId: string, cents: int): string {
    Payload("11", chargeId, Some(FormatCents(cents)), "BioCodeTechPay")
  }

  function BuildStaticNoAmount(key: string, merchantName: string): string {
    Payload("12", key, None, FirstChars(merchantName, 25))
  }

  // ---------------------------------------------------------------- the key

  predicate IsHostChar(c: char) {
    IsLetter(c) || IsDigit(c) || c == '.' || c == '-'
  }

  /** A domain name: a letter, then host characters, then a dot and two letters or more. */
  predicate IsDomain(host: string) {
    exists dot | 2 <= dot < |host| ::
      && IsLetter(host[0]) && host[dot] == '.'
      && (forall i | 0 < i < dot :: IsHostChar(host[i]))
      && |host| - dot > 2 && (forall i | dot < i < |host| :: IsLetter(host[i]))
  }

  predicate StartsWithDomain(s: string) {
    match Find(s, "/")
    case None => false
    case Some(slash) => IsDomain(s[..slash])
  }

  /** A payload location rather than a key. */
  predicate IsPayloadUrl(value: string) {
    || StartsWith(value, "https://") || StartsWith(value, "http://") || StartsWith(value, "pix://")
    || StartsWithDomain(value)
  }

  function NormaliseUrl(url: string): string {
    var url := Strip(url);
    if StartsWith(url, "pix://") then "https://" + url[6..]
    else if !StartsWith(url, "http") then "https://" + url
    else url
  }

  datatype KeyType = EMAIL | CPF | CNPJ | PHONE | EVP

  datatype PixKey = PixKey(key: string, kind: KeyType)

  /** The pattern of exactly n digits; its end also matches before a final line break. */
  predicate MatchesDigits(s: string, n: nat) {
    || (|s| == n && AllDigits(s))
    || (|s| == n + 1 && AllDigits(s[..n]) && s[n] == '\n')
  }

  function KindOf(key: string): KeyType {
    if '@' in key then EMAIL
    else if MatchesDigits(key, 14) then CNPJ
    else if MatchesDigits(key, 11) then CPF
    else if StartsWith(key, "+") then PHONE
    else EVP
  }

  /** The key in the first merchant account of tag 26 that holds a sub-field 01. */
  function KeyIn(fields: seq<Field>): Option<PixKey>
    decreases |fields|
  {
    if fields == [] then None
    else
      var key := FirstValue(Fields(fields[0].value), "01");
      if fields[0].tag != "26" || key.None? then KeyIn(fields[1..])
      else if IsPayloadUrl(key.value) then None
      else Some(PixKey(key.value, KindOf(key.value)))
  }

  function ParsePixKey(emv: string): Option<PixKey> {
    KeyIn(Fields(emv))
  }

  // ---------------------------------------------------------------- the amount

  /** The text of the amount field: absent is not the same as empty. */
  function AmountText(emv: string): Option<string> {
    FirstValue(Fields(emv), "54")
  }

  /** The amount, for a given way of reading a decimal; zero when absent or unreadable. */
  function ParseAmount(read: string -> Option<real>, emv: string): real {
    match AmountText(emv)
    case None => 0.0
    case Some(text) => if read(text).Some? then read(text).value else 0.0
  }

  /** A plain decimal: an optional minus sign, digits, a point and two digits. */
  function ReadDecimal(s: string): Option<real> {
    if |s| > 0 && s[0] == '-' then
      match ReadUnsigned(s[1..])
      case None => None
      case Some(cents) => Some(-(cents as real / 100.0))
    else
      match ReadUnsigned(s)
      case None => None
      case Some(cents) => Some(cents as real / 100.0)
  }

  function ReadUnsigned(s: string): Option<nat> {
    if |s| >= 4 && s[|s| - 3] == '.' && AllDigits(s[..|s| - 3]) && ReadLength(s[|s| - 2..]).Some?
    then Some(100 * DecimalValue(s[..|s| - 3]) + ReadLength(s[|s| - 2..]).value)
    else None
  }

  // ---------------------------------------------------------------- the payload location

  /** The number of a tag made of two digits. */
  function TagNumber(tag: string): Option<nat> {
    if |tag| == 2 then ReadLength(tag) else None
  }

  predicate IsMerchantTag(tag: string) {
    TagNumber(tag).Some? && 26 <= TagNumber(tag).value <= 51
  }

  /** The payload location among the sub-fields of an account, if it is a PIX account and has one. */
  function UrlOfAccount(sub: map<string, string>): Option<string> {
    var gui := Upper(Get(sub, "00"));
    if !Contains(gui, "BCB.PIX") && !Contains(gui, "BR.GOV.BCB") then None
    else if '/' in Get(sub, "25") then Some(NormaliseUrl(Get(sub, "25")))
    else if IsPayloadUrl(Get(sub, "01")) then Some(NormaliseUrl(Get(sub, "01")))
    else None
  }

  function BlockUrl(raw: string): Option<string> {
    UrlOfAccount(LastWins(Fields(raw)))
  }

  method ReadAccount(raw: string) returns (url: Option<string>)
    ensures url == BlockUrl(raw)
  {
    var sub := FillDictionary(raw);
    url := UrlOfAccount(sub);
  }

  function AccountUrl(f: Field): Option<string> {
    if IsMerchantTag(f.tag) then BlockUrl(f.value) else None
  }

  function Urls(fields: seq<Field>): (urls: seq<Option<string>>)
    ensures |urls| == |fields| && forall i | 0 <= i < |fields| :: urls[i] == AccountUrl(fields[i])
  {
    seq(|fields|, i requires 0 <= i < |fields| => AccountUrl(fields[i]))
  }

  function FirstSome(urls: seq<Option<string>>): Option<string>
    decreases |urls|
  {
    if urls == [] then None
    else if urls[0].Some? then urls[0]
    else FirstSome(urls[1..])
  }

  lemma {:induction false} FirstSomeAt(urls: seq<Option<string>>, i: nat)
    requires i < |urls| && urls[i].Some? && forall j | 0 <= j < i :: urls[j].None?
    ensures FirstSome(urls) == urls[i]
    decreases i
  {
    if i > 0 {
      FirstSomeAt(urls[1..], i - 1);
    }
  }

  lemma {:induction false} FirstSomeNone(urls: seq<Option<string>>)
    requires forall i | 0 <= i < |urls| :: urls[i].None?
    ensures FirstSome(urls) == None
    decreases |urls|
  {
    if urls != [] {
      FirstSomeNone(urls[1..]);
    }
  }

  /** The location in the first merchant account, in the order of the text, that has one. */
  function ParsePayloadUrl(emv: string): Option<string> {
    FirstSome(Urls(Fields(emv)))
  }

  method FindPayloadUrl(emv: string) returns (url: Option<string>)
    ensures url == ParsePayloadUrl(emv)
  {
    var fields := Walk(emv);
    hide BlockUrl;
    ghost var urls := Urls(fields);
    for i := 0 to |fields|
      invariant forall j | 0 <= j < i :: urls[j].None?
    {
      if IsMerchantTag(fields[i].tag) {
        url := ReadAccount(fields[i].value);
        if url.Some? {
          FirstSomeAt(urls, i);
          return;
        }
      }
    }
    FirstSomeNone(urls);
    url := None;
  }
}

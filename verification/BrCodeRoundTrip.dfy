/**
 * A generated payload read back by both parsers: key, amount, transaction id and checksum.
 */
module BrCodeRoundTrip {

  import opened Wrappers
  import opened Text
  import opened Tlv
  import opened BrCode
  import opened CrcCheck
  import CrcText
  import RouterEmv

  // ---------------------------------------------------------------- the fields of a payload

  lemma {:induction false} ConcatAppend(x: seq<Field>, y: seq<Field>)
    ensures Concat(x + y) == Concat(x) + Concat(y)
    decreases |x|
  {
    if x == [] {
      assert x + y == y;
    } else {
      assert (x + y)[1..] == x[1..] + y;
      ConcatAppend(x[1..], y);
    }
  }

  lemma ConcatOne(f: Field)
    ensures Concat([f]) == Print(f)
  {
    assert [f][1..] == [];
  }

  /** The checksum with its tag is one more field. */
  lemma CrcIsAField(fields: seq<Field>, crc: string)
    requires |crc| == 4
    ensures Concat(fields) + CRC_TAG + crc == Concat(fields + [Field("63", crc)])
  {
    assert Print(Field("63", crc)) == CRC_TAG + crc;
    ConcatOne(Field("63", crc));
    ConcatAppend(fields, [Field("63", crc)]);
  }

  lemma PrintLength(f: Field)
    requires Printable(f)
    ensures |Print(f)| == 4 + |f.value|
  {
    TwoDigitsRead(|f.value|);
  }

  lemma AccountLength(key: string)
    requires |key| <= 77
    ensures |MerchantAccount(key)| == 22 + |key|
  {
    var gui, f := Field("00", GUI), Field("01", key);
    PrintLength(gui);
    PrintLength(f);
    assert [gui, f] == [gui] + [f];
    ConcatAppend([gui], [f]);
    ConcatOne(gui);
    ConcatOne(f);
  }

  lemma TxIdTemplateLength(key: string)
    ensures |Concat([Field("05", TxId(key))])| <= 29
  {
    var f := Field("05", TxId(key));
    ConcatOne(f);
    PrintLength(f);
  }

  /** What the printed fields must fit: 99 characters a value, 77 for a key inside its template. */
  predicate Fits(initiation: string, key: string, amount: Option<string>, name: string) {
    |initiation| <= 99 && |key| <= 77 && (amount.Some? ==> |amount.value| <= 99) && |name| <= 99
  }

  lemma PayloadFieldsPrintable(initiation: string, key: string, amount: Option<string>, name: string)
    requires Fits(initiation, key, amount, name)
    ensures forall f | f in PayloadFields(initiation, key, amount, name) :: Printable(f)
  {
    AccountLength(key);
    TxIdTemplateLength(key);
  }

  function Body(initiation: string, key: string, amount: Option<string>, name: string): string {
    Concat(PayloadFields(initiation, key, amount, name)) + CRC_TAG
  }

  function CrcField(initiation: string, key: string, amount: Option<string>, name: string): Field {
    Field("63", CrcText.Crc16(Body(initiation, key, amount, name)))
  }

  lemma FieldsOfPayload(initiation: string, key: string, amount: Option<string>, name: string)
    requires Fits(initiation, key, amount, name)
    ensures Fields(Payload(initiation, key, amount, name))
         == PayloadFields(initiation, key, amount, name) + [CrcField(initiation, key, amount, name)]
  {
    var fields := PayloadFields(initiation, key, amount, name);
    var crc := CrcField(initiation, key, amount, name);
    PayloadFieldsPrintable(initiation, key, amount, name);
    CrcIsAField(fields, crc.value);
    WalkOfConcat(fields + [crc]);
  }

  // ---------------------------------------------------------------- the key

  lemma KeyOfAccount(key: string)
    requires |key| <= 77
    ensures FirstValue(Fields(MerchantAccount(key)), "01") == Some(key)
  {
    var fields := [Field("00", GUI), Field("01", key)];
    WalkOfConcat(fields);
    assert fields[1..] == [Field("01", key)];
  }

  lemma KeyInPast(f: Field, rest: seq<Field>)
    requires f.tag != "26"
    ensures KeyIn([f] + rest) == KeyIn(rest)
  {
    assert ([f] + rest)[1..] == rest;
  }

  lemma KeyInThird(all: seq<Field>, key: string)
    requires |key| <= 77 && |all| >= 3
    requires all[0].tag != "26" && all[1].tag != "26" && all[2] == Field("26", MerchantAccount(key))
    ensures KeyIn(all) == if IsPayloadUrl(key) then None else Some(PixKey(key, KindOf(key)))
  {
    KeyInPast(all[0], all[1..]);
    KeyInPast(all[1], all[2..]);
    assert all == [all[0]] + all[1..] && all[1..] == [all[1]] + all[2..];
    KeyOfAccount(key);
    KeyInOwn(all[2..], key);
  }

  lemma KeyInOwn(fields: seq<Field>, key: string)
    requires fields != [] && fields[0].tag == "26" && FirstValue(Fields(fields[0].value), "01") == Some(key)
    ensures KeyIn(fields) == if IsPayloadUrl(key) then None else Some(PixKey(key, KindOf(key)))
  {
  }

  lemma KeyInPayloadFields(initiation: string, key: string, amount: Option<string>, name: string, rest: seq<Field>)
    requires |key| <= 77
    ensures KeyIn(PayloadFields(initiation, key, amount, name) + rest)
         == if IsPayloadUrl(key) then None else Some(PixKey(key, KindOf(key)))
  {
    var all := PayloadFields(initiation, key, amount, name) + rest;
    assert all[0].tag == "00" && all[1].tag == "01";
    KeyInThird(all, key);
  }

  /** For every key of at most 77 characters the payload gives the key back with its kind, unless the
      key reads as a payload location. */
  lemma KeyComesBack(initiation: string, key: string, amount: Option<string>, name: string)
    requires Fits(initiation, key, amount, name)
    ensures ParsePixKey(Payload(initiation, key, amount, name))
         == if IsPayloadUrl(key) then None else Some(PixKey(key, KindOf(key)))
  {
    FieldsOfPayload(initiation, key, amount, name);
    KeyInPayloadFields(initiation, key, amount, name, [CrcField(initiation, key, amount, name)]);
  }

  // ---------------------------------------------------------------- the tags

  /** The numbers of the tags of a payload, which ascend. */
  function Numbers(amount: Option<string>): seq<int> {
    if amount.Some? then [0, 1, 26, 52, 53, 54, 58, 59, 60, 62, 63] else [0, 1, 26, 52, 53, 58, 59, 60, 62, 63]
  }

  lemma NumbersAscend(amount: Option<string>)
    ensures forall i, j | 0 <= i < j < |Numbers(amount)| :: Numbers(amount)[i] < Numbers(amount)[j]
  {
  }

  ghost predicate HasNumbers(all: seq<Field>, amount: Option<string>) {
    && |all| == |Numbers(amount)|
    && forall i | 0 <= i < |all| :: TagNumber(all[i].tag) == Some(Numbers(amount)[i])
  }

  lemma TagNumbers(initiation: string, key: string, amount: Option<string>, name: string)
    ensures HasNumbers(PayloadFields(initiation, key, amount, name) + [CrcField(initiation, key, amount, name)], amount)
  {
    hide TagNumber, Concat, MerchantAccount, TxId, CrcText.Crc16;
    LiteralTagNumbers();
    var fields := PayloadFields(initiation, key, amount, name);
    var all := fields + [CrcField(initiation, key, amount, name)];
    forall i | 0 <= i < |all|
      ensures TagNumber(all[i].tag) == Some(Numbers(amount)[i])
    {
      if i < 5 {
        FirstNumbers(fields, amount, i);
      } else if i < |fields| {
        LaterNumbers(fields, amount, i);
      }
    }
  }

  lemma FirstNumbers(fields: seq<Field>, amount: Option<string>, i: nat)
    requires i < 5 <= |fields|
    requires fields[0].tag == "00" && fields[1].tag == "01" && fields[2].tag == "26" && fields[3].tag == "52"
          && fields[4].tag == "53"
    ensures TagNumber(fields[i].tag) == Some(Numbers(amount)[i])
  {
    LiteralTagNumbers();
  }

  lemma LaterNumbers(fields: seq<Field>, amount: Option<string>, i: nat)
    requires 5 <= i < |fields| == |Numbers(amount)| - 1
    requires amount.Some? ==> fields[5].tag == "54"
    requires var k := if amount.Some? then 6 else 5;
      fields[k].tag == "58" && fields[k + 1].tag == "59" && fields[k + 2].tag == "60" && fields[k + 3].tag == "62"
    ensures TagNumber(fields[i].tag) == Some(Numbers(amount)[i])
  {
    LiteralTagNumbers();
  }

  lemma LiteralTagNumbers()
    ensures TagNumber("00") == Some(0) && TagNumber("01") == Some(1) && TagNumber("26") == Some(26)
    ensures TagNumber("52") == Some(52) && TagNumber("53") == Some(53) && TagNumber("54") == Some(54)
    ensures TagNumber("58") == Some(58) && TagNumber("59") == Some(59) && TagNumber("60") == Some(60)
    ensures TagNumber("62") == Some(62) && TagNumber("63") == Some(63)
  {
  }

  // ---------------------------------------------------------------- the amount

  lemma ReadsParts(whole: string, places: string)
    requires whole != "" && AllDigits(whole) && |places| == 2 && ReadLength(places).Some?
    ensures ReadUnsigned(whole + "." + places) == Some(100 * DecimalValue(whole) + ReadLength(places).value)
  {
    var s := whole + "." + places;
    assert s[..|s| - 3] == whole && s[|s| - 2..] == places;
  }

  lemma PartsAddUp(n: nat, whole: string, places: string)
    requires whole != "" && AllDigits(whole) && DecimalValue(whole) == n / 100
    requires |places| == 2 && ReadLength(places) == Some(n % 100)
    ensures ReadUnsigned(whole + "." + places) == Some(n)
  {
    hide ReadUnsigned, ReadLength, DecimalValue, AllDigits;
    ReadsParts(whole, places);
  }

  lemma UnsignedReadsBack(n: nat)
    ensures ReadUnsigned(FormatUnsigned(n)) == Some(n)
  {
    TwoDigitsRead(n % 100);
    DecimalRoundTrip(n / 100);
    var whole := Decimal(n / 100);
    PartsAddUp(n, whole, TwoDigits(n % 100));
  }

  lemma ReadNegative(digits: string)
    requires ReadUnsigned(digits).Some?
    ensures ReadDecimal("-" + digits) == Some(-(ReadUnsigned(digits).value as real / 100.0))
  {
    assert ("-" + digits)[1..] == digits;
  }

  lemma ReadPositive(digits: string)
    requires ReadUnsigned(digits).Some?
    ensures ReadDecimal(digits) == Some(ReadUnsigned(digits).value as real / 100.0)
  {
    assert IsDigit(digits[..|digits| - 3][0]);
  }

  lemma AmountReadsBack(cents: int)
    ensures ReadDecimal(FormatCents(cents)) == Some(cents as real / 100.0)
  {
    hide ReadUnsigned, ReadDecimal, FormatUnsigned;
    if cents < 0 {
      UnsignedReadsBack(-cents);
      ReadNegative(FormatUnsigned(-cents));
    } else {
      UnsignedReadsBack(cents);
      ReadPositive(FormatUnsigned(cents));
    }
  }

  /** Where the value with a tag is, when no other field has that tag. */
  lemma {:induction false} FirstValueAt(fields: seq<Field>, i: nat)
    requires i < |fields| && forall j | 0 <= j < i :: fields[j].tag != fields[i].tag
    ensures FirstValue(fields, fields[i].tag) == Some(fields[i].value)
    decreases i
  {
    if i > 0 {
      FirstValueAt(fields[1..], i - 1);
    }
  }

  lemma AmountTextOfPayload(initiation: string, key: string, amount: Option<string>, name: string)
    requires Fits(initiation, key, amount, name)
    ensures AmountText(Payload(initiation, key, amount, name)) == amount
  {
    FieldsOfPayload(initiation, key, amount, name);
    var all := PayloadFields(initiation, key, amount, name) + [CrcField(initiation, key, amount, name)];
    TagNumbers(initiation, key, amount, name);
    AmountAmongNumbers(all, amount);
  }

  lemma AmountAmongNumbers(all: seq<Field>, amount: Option<string>)
    requires HasNumbers(all, amount)
    requires amount.Some? ==> all[5] == Field("54", amount.value)
    ensures FirstValue(all, "54") == amount
  {
    assert TagNumber("54") == Some(54);
    NumbersAscend(amount);
    if amount.Some? {
      FirstValueAt(all, 5);
    } else {
      FirstValueFound(all, "54");
      assert 54 !in Numbers(amount);
    }
  }

  // ---------------------------------------------------------------- trimming and distinct tags

  lemma PayloadIsTrimmed(initiation: string, key: string, amount: Option<string>, name: string)
    ensures Trimmed(Payload(initiation, key, amount, name))
  {
    var s := Payload(initiation, key, amount, name);
    var crc := CrcText.Crc16(Body(initiation, key, amount, name));
    assert s[|s| - 1] == crc[3] && crc[3] in crc;
    HexIsNotSpace(crc[3]);
    StartsWithFirstTag(PayloadFields(initiation, key, amount, name));
    assert s[0] == Concat(PayloadFields(initiation, key, amount, name))[0];
  }

  lemma HexIsNotSpace(c: char)
    requires c in CrcText.HEX_DIGITS
    ensures !IsSpace(c)
  {
  }

  lemma StartsWithFirstTag(fields: seq<Field>)
    requires fields != [] && fields[0].tag != ""
    ensures Concat(fields) != "" && Concat(fields)[0] == fields[0].tag[0]
  {
  }

  /** The conditions under which both parsers read the same things. */
  predicate WellFormed(fields: seq<Field>) {
    && DistinctTags(fields)
    && forall i | 0 <= i < |fields| - 1 :: fields[i].tag != RouterEmv.CRC
  }

  lemma PayloadIsWellFormed(initiation: string, key: string, amount: Option<string>, name: string)
    requires Fits(initiation, key, amount, name)
    ensures WellFormed(Fields(Payload(initiation, key, amount, name)))
  {
    FieldsOfPayload(initiation, key, amount, name);
    TagNumbers(initiation, key, amount, name);
    NumbersWellFormed(Fields(Payload(initiation, key, amount, name)), amount);
  }

  lemma NumbersWellFormed(all: seq<Field>, amount: Option<string>)
    requires HasNumbers(all, amount)
    ensures WellFormed(all)
  {
    NumbersAscend(amount);
    assert TagNumber(RouterEmv.CRC) == Some(63);
    assert Numbers(amount)[|all| - 1] == 63;
  }

  // ---------------------------------------------------------------- the transaction id

  lemma StillDistinct(fields: seq<Field>, i: nat, tag: string)
    requires WellFormed(fields) && i < |fields| && fields[i].tag == tag && tag != RouterEmv.CRC
    ensures Get(LastWins(RouterEmv.BeforeCrc(fields)), tag) == fields[i].value
  {
    hide RouterEmv.BeforeCrc, LastWins, FirstValue, WellFormed, DistinctTags;
    var before := RouterEmv.BeforeCrc(fields);
    DistinctBeforeCrc(fields, i);
    OnlyWithTag(before, i);
    FirstValueAt(before, i);
    FirstIsLast(before, tag);
  }

  lemma DistinctBeforeCrc(fields: seq<Field>, i: nat)
    requires WellFormed(fields) && i < |fields| && fields[i].tag != RouterEmv.CRC
    ensures var before := RouterEmv.BeforeCrc(fields); DistinctTags(before) && i < |before| && before[i] == fields[i]
  {
    BeforeCrcOfWellFormed(fields);
    hide RouterEmv.BeforeCrc;
  }

  lemma OnlyWithTag(fields: seq<Field>, i: nat)
    requires DistinctTags(fields) && i < |fields|
    ensures forall j | 0 <= j < i :: fields[j].tag != fields[i].tag
  {
  }

  lemma {:induction false} BeforeCrcOfWellFormed(fields: seq<Field>)
    requires WellFormed(fields)
    ensures RouterEmv.BeforeCrc(fields)
         == if fields != [] && fields[|fields| - 1].tag == RouterEmv.CRC then fields[..|fields| - 1] else fields
    decreases |fields|
  {
    if |fields| > 1 {
      BeforeCrcOfWellFormed(fields[1..]);
      assert fields == [fields[0]] + fields[1..];
    }
  }

  lemma TemplateOfPayload(initiation: string, key: string, amount: Option<string>, name: string)
    requires Fits(initiation, key, amount, name)
    ensures Get(RouterEmv.TopLevel(Payload(initiation, key, amount, name)), "62") == Concat([Field("05", TxId(key))])
  {
    hide Fields, Payload, LastWins, RouterEmv.BeforeCrc, MerchantAccount, TxId, WellFormed, CrcField;
    var p := Payload(initiation, key, amount, name);
    PayloadIsWellFormed(initiation, key, amount, name);
    FieldsOfPayload(initiation, key, amount, name);
    StillDistinct(Fields(p), if amount.Some? then 9 else 8, "62");
  }

  lemma TxIdOfTemplate(key: string)
    ensures FirstValue(Fields(Concat([Field("05", TxId(key))])), "05") == Some(TxId(key))
  {
    WalkOfConcat([Field("05", TxId(key))]);
  }

  /** The router reads the transaction id back, stripped; a blank one counts as absent. */
  lemma TxIdComesBack(initiation: string, key: string, amount: Option<string>, name: string)
    requires Fits(initiation, key, amount, name)
    ensures RouterEmv.ExtractTxId(Payload(initiation, key, amount, name))
         == if Strip(TxId(key)) == "" then None else Some(Strip(TxId(key)))
  {
    PayloadIsTrimmed(initiation, key, amount, name);
    StripOfTrimmed(Payload(initiation, key, amount, name));
    TemplateOfPayload(initiation, key, amount, name);
    TxIdOfTemplate(key);
  }

  lemma {:induction false} HyphenDropped(a: string, b: string)
    requires '-' !in a
    ensures WithoutHyphens(a + "-" + b) == a + WithoutHyphens(b) && WithoutHyphens(a) == a
    decreases |a|
  {
    if a == [] {
      assert ("" + "-" + b)[1..] == b;
    } else {
      assert (a + "-" + b)[1..] == a[1..] + "-" + b;
      HyphenDropped(a[1..], b);
    }
  }

  /** The transaction id of a text without hyphens: its first 25 characters; and of a UUID: the first 25 of
      its digits. */
  lemma TxIdExactly(key: string, a: string, b: string, c: string, d: string, e: string)
    requires '-' !in key
    requires '-' !in a && '-' !in b && '-' !in c && '-' !in d && '-' !in e && |a + b + c + d + e| == 32
    ensures TxId(key) == if |key| <= 25 then key else key[..25]
    ensures TxId(a + "-" + (b + "-" + (c + "-" + (d + "-" + e)))) == (a + b + c + d + e)[..25]
  {
    hide WithoutHyphens;
    HyphenDropped(key, "");
    HyphenDropped(a, b + "-" + (c + "-" + (d + "-" + e)));
    HyphenDropped(b, c + "-" + (d + "-" + e));
    HyphenDropped(c, d + "-" + e);
    HyphenDropped(d, e);
    HyphenDropped(e, "");
    assert a + (b + (c + (d + e))) == a + b + c + d + e;
  }

  // ---------------------------------------------------------------- the merchant name

  /** The router reads the merchant name back, stripped. */
  lemma MerchantComesBack(initiation: string, key: string, amount: Option<string>, name: string)
    requires Fits(initiation, key, amount, name)
    ensures RouterEmv.ParseMerchant(Payload(initiation, key, amount, name)) == Strip(name)
  {
    NameOfPayload(initiation, key, amount, name);
    PayloadIsTrimmed(initiation, key, amount, name);
    StripOfTrimmed(Payload(initiation, key, amount, name));
    hide Strip, Payload, RouterEmv.TopLevel, Get;
  }

  lemma NameOfPayload(initiation: string, key: string, amount: Option<string>, name: string)
    requires Fits(initiation, key, amount, name)
    ensures Get(RouterEmv.TopLevel(Payload(initiation, key, amount, name)), "59") == name
  {
    hide Fields, Payload, LastWins, RouterEmv.BeforeCrc, MerchantAccount, Concat, TxId, WellFormed, CrcField;
    var p := Payload(initiation, key, amount, name);
    PayloadIsWellFormed(initiation, key, amount, name);
    FieldsOfPayload(initiation, key, amount, name);
    StillDistinct(Fields(p), if amount.Some? then 7 else 6, "59");
  }

  /** A payload without amount reads back: its key, no amount however decimals are read, its merchant
      name cut to 25 characters, its transaction id, and a checksum that passes unless it spells the
      CRC tag. */
  lemma NoAmountComesBack(read: string -> Option<real>, key: string, merchantName: string)
    requires |key| <= 77
    ensures var p, name := BuildStaticNoAmount(key, merchantName), if |merchantName| <= 25 then merchantName else merchantName[..25];
      && ParsePixKey(p) == (if IsPayloadUrl(key) then None else Some(PixKey(key, KindOf(key))))
      && ParseAmount(read, p) == 0.0
      && RouterEmv.ParseMerchant(p) == Strip(name)
      && RouterEmv.ExtractTxId(p) == (if Strip(TxId(key)) == "" then None else Some(Strip(TxId(key))))
      && (ValidatePixCrc(p) <==> CrcText.Crc16(Body("12", key, None, name)) != CRC_TAG)
  {
    hide ParsePixKey, IsPayloadUrl, AmountText, RouterEmv.ParseMerchant, RouterEmv.ExtractTxId, ValidatePixCrc;
    hide Payload, Strip, TxId, CrcText.Crc16, Body;
    var name := FirstChars(merchantName, 25);
    KeyComesBack("12", key, None, name);
    AmountTextOfPayload("12", key, None, name);
    MerchantComesBack("12", key, None, name);
    TxIdComesBack("12", key, None, name);
    PayloadPassesExactly("12", key, None, name);
  }

  // ---------------------------------------------------------------- charge ids

  predicate IsIdChar(c: char) {
    IsDigit(c) || 'a' <= c <= 'f' || 'A' <= c <= 'F' || c == '-'
  }

  /** Hexadecimal digits and hyphens: the shape of a charge id. */
  predicate IsChargeId(s: string) {
    forall i | 0 <= i < |s| :: IsIdChar(s[i])
  }

  lemma StartsWithFirst(s: string, prefix: string)
    requires prefix != ""
    ensures StartsWith(s, prefix) ==> s != "" && s[0] == prefix[0]
  {
    if StartsWith(s, prefix) {
      assert s[0..|prefix|][0] == s[0];
    }
  }

  lemma ChargeIdIsNoUrl(id: string)
    requires IsChargeId(id)
    ensures !IsPayloadUrl(id)
  {
    StartsWithFirst(id, "https://");
    StartsWithFirst(id, "http://");
    StartsWithFirst(id, "pix://");
  }

  /** A charge id as long as a UUID is never taken for a document number, a phone or an e-mail. */
  lemma UuidIsRandomKey(id: string)
    requires IsChargeId(id) && |id| == 36
    ensures KindOf(id) == EVP
  {
    StartsWithFirst(id, "+");
  }

  /** That many digits, and at most a line break after them. */
  predicate DigitsOnly(key: string, n: nat) {
    || (|key| == n && forall i | 0 <= i < n :: '0' <= key[i] <= '9')
    || (|key| == n + 1 && key[n] == '\n' && forall i | 0 <= i < n :: '0' <= key[i] <= '9')
  }

  /** What a key is taken for: anything with an at sign is an address, fourteen digits are a company, eleven a
      person, a plus sign in front a phone, and all else a random key. */
  lemma KindExactly(key: string)
    ensures KindOf(key)
         == if exists i :: 0 <= i < |key| && key[i] == '@' then EMAIL
            else if DigitsOnly(key, 14) then CNPJ
            else if DigitsOnly(key, 11) then CPF
            else if key != "" && key[0] == '+' then PHONE
            else EVP
  {
    StartsWithFirst(key, "+");
    if key != "" && key[0] == '+' { assert key[0..1] == "+"; }
  }

  lemma ConcatOfThree(x: Field, y: Field, z: Field)
    ensures Concat([x, y, z]) == Print(x) + Print(y) + Print(z)
  {
    hide Concat, Print;
    assert [x, y, z] == [x] + [y] + [z];
    ConcatAppend([x] + [y], [z]);
    ConcatAppend([x], [y]);
    ConcatOne(x);
    ConcatOne(y);
    ConcatOne(z);
  }

  lemma ConcatInThirds(x: seq<Field>, y: seq<Field>, z: seq<Field>)
    ensures Concat(x + y + z) == Concat(x) + Concat(y) + Concat(z)
  {
    hide Concat;
    ConcatAppend(x + y, z);
    ConcatAppend(x, y);
  }

  lemma ShortNumbers()
    ensures TwoDigits(2) == "02" && TwoDigits(3) == "03" && TwoDigits(4) == "04" && TwoDigits(8) == "08" && TwoDigits(14) == "14"
  {
    assert Decimal(2) == [DigitChar(2)] && Decimal(3) == [DigitChar(3)] && Decimal(4) == [DigitChar(4)] && Decimal(8) == [DigitChar(8)];
    assert Decimal(14) == Decimal(1) + [DigitChar(4)] && Decimal(1) == [DigitChar(1)];
  }

  lemma PrintedConstants()
    ensures Print(Field("00", "01")) == "000201" && Print(Field("01", "11")) == "010211"
    ensures Print(Field("52", "0000")) == "52040000" && Print(Field("53", "986")) == "5303986"
    ensures Print(Field("58", "BR")) == "5802BR"
  {
    ShortNumbers();
    hide TwoDigits;
  }

  lemma PrintedNames()
    ensures Print(Field("60", "BRASILIA")) == "6008BRASILIA" && Print(Field("59", "BioCodeTechPay")) == "5914BioCodeTechPay"
    ensures Print(Field("00", "BR.GOV.BCB.PIX")) == "0014BR.GOV.BCB.PIX"
  {
    ShortNumbers();
    hide TwoDigits;
  }

  /** The printed merchant account and the printed template of the transaction id. */
  lemma PrintedTemplates(key: string)
    requires |key| <= 77
    ensures Print(Field("26", MerchantAccount(key))) == "26" + TwoDigits(|key| + 22) + ("0014BR.GOV.BCB.PIX" + ("01" + TwoDigits(|key|) + key))
    ensures Print(Field("62", Concat([Field("05", TxId(key))])))
         == "62" + TwoDigits(|TxId(key)| + 4) + ("05" + TwoDigits(|TxId(key)|) + TxId(key))
  {
    PrintedNames();
    AccountLength(key);
    PrintLength(Field("05", TxId(key)));
    hide TwoDigits, TxId, Concat;
    assert [Field("00", GUI), Field("01", key)] == [Field("00", GUI)] + [Field("01", key)];
    ConcatAppend([Field("00", GUI)], [Field("01", key)]);
    ConcatOne(Field("00", GUI));
    ConcatOne(Field("01", key));
    ConcatOne(Field("05", TxId(key)));
  }

  lemma ChargeFieldsInThirds(key: string, cents: int)
    ensures PayloadFields("11", key, Some(FormatCents(cents)), "BioCodeTechPay")
         == [Field("00", "01"), Field("01", "11"), Field("26", MerchantAccount(key))]
            + [Field("52", "0000"), Field("53", "986"), Field("54", FormatCents(cents))]
            + ([Field("58", "BR"), Field("59", "BioCodeTechPay"), Field("60", "BRASILIA")]
               + [Field("62", Concat([Field("05", TxId(key))]))])
  {
    hide Concat, FormatCents, TxId, MerchantAccount;
  }

  /** A generated payload, character by character: every field with its tag and length, and the checksum of all
      that comes before it. */
  function TextAhead(key: string, amount: string, txid: string): string {
    ("000201" + "010211" + ("26" + TwoDigits(|key| + 22) + ("0014BR.GOV.BCB.PIX" + ("01" + TwoDigits(|key|) + key))))
    + ("52040000" + "5303986" + ("54" + TwoDigits(|amount|) + amount))
    + (("5802BR" + "5914BioCodeTechPay" + "6008BRASILIA") + ("62" + TwoDigits(|txid| + 4) + ("05" + TwoDigits(|txid|) + txid)))
    + "6304"
  }

  lemma PayloadText(key: string, cents: int)
    requires |key| <= 77
    ensures var ahead := TextAhead(key, FormatCents(cents), TxId(key));
      BuildStatic(key, cents) == ahead + CrcText.Crc16(ahead)
  {
    hide CrcText.Crc16, FormatCents, TxId, TwoDigits, Concat, MerchantAccount, PayloadFields;
    ChargeFieldsInThirds(key, cents);
    var last := Field("62", Concat([Field("05", TxId(key))]));
    ConcatInThirds([Field("00", "01"), Field("01", "11"), Field("26", MerchantAccount(key))],
                   [Field("52", "0000"), Field("53", "986"), Field("54", FormatCents(cents))],
                   [Field("58", "BR"), Field("59", "BioCodeTechPay"), Field("60", "BRASILIA")] + [last]);
    ConcatAppend([Field("58", "BR"), Field("59", "BioCodeTechPay"), Field("60", "BRASILIA")], [last]);
    ConcatOne(last);
    ConcatOfThree(Field("00", "01"), Field("01", "11"), Field("26", MerchantAccount(key)));
    ConcatOfThree(Field("52", "0000"), Field("53", "986"), Field("54", FormatCents(cents)));
    ConcatOfThree(Field("58", "BR"), Field("59", "BioCodeTechPay"), Field("60", "BRASILIA"));
    PrintedConstants();
    PrintedNames();
    PrintedTemplates(key);
  }

  /** A normalised location starts with http and is not changed by normalising again. */
  lemma NormaliseIsIdempotent(url: string)
    ensures StartsWith(NormaliseUrl(url), "http") && NormaliseUrl(NormaliseUrl(url)) == NormaliseUrl(url)
  {
    var u, n := Strip(url), NormaliseUrl(url);
    StripIsTrimmed(url);
    hide Strip;
    assert StartsWith(n, "http") by {
      if !StartsWith(u, "http") || StartsWith(u, "pix://") { assert n[0..4] == "http"; }
    }
    StartsWithFirst(n, "http");
    StartsWithFirst(n, "pix://");
    LastOfNormalised(u, n);
    StripOfTrimmed(n);
  }

  lemma LastOfNormalised(u: string, n: string)
    requires Trimmed(u)
    requires n == u || n == "https://" + u || (|u| >= 6 && n == "https://" + u[6..])
    requires n != "" && !IsSpace(n[0])
    ensures Trimmed(n)
  {
    var last := n[|n| - 1];
    assert last == '/' || (u != "" && last == u[|u| - 1]);
  }

  lemma {:induction false} HyphensOnly(id: string)
    requires IsChargeId(id)
    ensures IsChargeId(WithoutHyphens(id))
    decreases |id|
  {
    if id != [] {
      HyphensOnly(id[1..]);
    }
  }

  lemma TxIdIsTrimmed(id: string)
    requires IsChargeId(id)
    ensures Trimmed(TxId(id))
  {
    HyphensOnly(id);
    var t := TxId(id);
    assert forall i | 0 <= i < |t| :: t[i] == WithoutHyphens(id)[i];
  }

  /** A charge payload reads back as the charge: the key, the amount in both parsers, the transaction
      id, and a checksum that passes unless it spells the CRC tag. */
  lemma ChargeComesBack(id: string, cents: int)
    requires IsChargeId(id) && |id| <= 77 && |FormatCents(cents)| <= 99
    ensures var p := BuildStatic(id, cents);
      && ParsePixKey(p) == Some(PixKey(id, KindOf(id)))
      && ParseAmount(ReadDecimal, p) == cents as real / 100.0
      && RouterEmv.ExtractTxId(p) == (if TxId(id) == "" then None else Some(TxId(id)))
      && (ValidatePixCrc(p) <==> CrcText.Crc16(Body("11", id, Some(FormatCents(cents)), "BioCodeTechPay")) != CRC_TAG)
  {
    var amount := Some(FormatCents(cents));
    KeyComesBack("11", id, amount, "BioCodeTechPay");
    ChargeIdIsNoUrl(id);
    AmountTextOfPayload("11", id, amount, "BioCodeTechPay");
    AmountReadsBack(cents);
    TxIdComesBack("11", id, amount, "BioCodeTechPay");
    TxIdIsTrimmed(id);
    StripOfTrimmed(TxId(id));
    PayloadPassesExactly("11", id, amount, "BioCodeTechPay");
  }

  lemma PayloadPassesExactly(initiation: string, key: string, amount: Option<string>, name: string)
    ensures ValidatePixCrc(Payload(initiation, key, amount, name))
       <==> CrcText.Crc16(Body(initiation, key, amount, name)) != CRC_TAG
  {
    var body := Body(initiation, key, amount, name);
    hide ValidatePixCrc, CrcText.Crc16, PayloadFields, Concat, Trimmed;
    PayloadIsTrimmed(initiation, key, amount, name);
    assert body[|body| - 4..] == CRC_TAG;
    SealedPassesExactly(body);
  }
}

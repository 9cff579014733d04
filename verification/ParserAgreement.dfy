/**
 * Where the router's parser and the shared one read the same amount and the same payload location.
 */
module ParserAgreement {

  import opened Wrappers
  import opened Text
  import opened Tlv
  import opened BrCode
  import opened RouterEmv
  import opened BrCodeRoundTrip

  // ---------------------------------------------------------------- the amount

  lemma {:induction false} FirstValueBeforeCrc(fields: seq<Field>, tag: string)
    requires WellFormed(fields) && tag != CRC
    ensures FirstValue(BeforeCrc(fields), tag) == FirstValue(fields, tag)
    decreases |fields|
  {
    if |fields| > 1 {
      assert BeforeCrc(fields) == [fields[0]] + BeforeCrc(fields[1..]);
      FirstValueBeforeCrc(fields[1..], tag);
    }
  }

  lemma BeforeCrcIsDistinct(fields: seq<Field>)
    requires WellFormed(fields)
    ensures DistinctTags(BeforeCrc(fields))
  {
    BeforeCrcOfWellFormed(fields);
  }

  lemma AmountTextsAgree(fields: seq<Field>)
    requires WellFormed(fields)
    ensures Get(LastWins(BeforeCrc(fields)), "54") == match FirstValue(fields, "54") case None => "" case Some(text) => text
  {
    FirstValueBeforeCrc(fields, "54");
    BeforeCrcIsDistinct(fields);
    FirstIsLast(BeforeCrc(fields), "54");
  }

  /** On text without surrounding blanks, with no repeated tag and nothing after the CRC, the router
      and the shared parser read the same amount, however a decimal is read. */
  lemma AmountsAgree(read: string -> Option<real>, emv: string)
    requires Trimmed(emv) && WellFormed(Fields(emv)) && read("") == None
    ensures ParseValue(read, emv) == ParseAmount(read, emv)
  {
    StripOfTrimmed(emv);
    AmountTextsAgree(Fields(emv));
    hide Strip, Fields, FirstValue, BeforeCrc, LastWins, Get;
  }

  /** The text the shared parser reads an amount from: the first field 54. */
  function FirstAmount(emv: string): string {
    match AmountText(emv) case None => "" case Some(text) => text
  }

  /** The text the router reads it from: the last one ahead of the CRC, once blanks are stripped. */
  function LastAmount(emv: string): string {
    Get(TopLevel(Strip(emv)), "54")
  }

  /** A way of reading decimals that accepts one text only. */
  function Only(text: string): string -> Option<real> {
    s => if s == text then Some(1.0) else None
  }

  lemma AmountByTexts(read: string -> Option<real>, emv: string)
    requires read("") == None
    ensures ParseAmount(read, emv) == if read(FirstAmount(emv)).Some? then read(FirstAmount(emv)).value else 0.0
    ensures ParseValue(read, emv) == if read(LastAmount(emv)).Some? then read(LastAmount(emv)).value else 0.0
  {
    hide AmountText, TopLevel, Strip, Get;
  }

  /** For every text at all: the two parsers read the same amount under every way of reading decimals
      that rejects the empty text exactly when the first field 54 and the last one ahead of the CRC hold
      the same text. */
  lemma AmountsAgreeExactly(emv: string)
    ensures (forall read: string -> Option<real> | read("") == None :: ParseValue(read, emv) == ParseAmount(read, emv))
       <==> FirstAmount(emv) == LastAmount(emv)
  {
    hide ParseValue, ParseAmount, FirstAmount, LastAmount;
    var first, last := FirstAmount(emv), LastAmount(emv);
    forall read: string -> Option<real> | read("") == None && first == last
      ensures ParseValue(read, emv) == ParseAmount(read, emv)
    {
      AmountByTexts(read, emv);
    }
    if first != last {
      var text := if first != "" then first else last;
      AmountByTexts(Only(text), emv);
      assert Only(text)("") == None;
      assert ParseValue(Only(text), emv) != ParseAmount(Only(text), emv);
    }
  }

  function Amount(cents: int): Field {
    Field("54", FormatCents(cents))
  }

  lemma TwoAmounts(x: int, y: int, emv: string)
    requires |FormatCents(x)| <= 99 && |FormatCents(y)| <= 99 && emv == Concat([Amount(x), Amount(y)])
    ensures Fields(emv) == [Amount(x), Amount(y)]
    ensures AmountText(emv) == Some(FormatCents(x))
    ensures Get(TopLevel(emv), "54") == FormatCents(y)
  {
    var fields := [Amount(x), Amount(y)];
    hide FormatCents;
    WalkOfConcat(fields);
    assert fields[1..] == [Amount(y)];
    assert BeforeCrc(fields) == [Amount(x)] + BeforeCrc([Amount(y)]);
    assert BeforeCrc([Amount(y)]) == [Amount(y)] + BeforeCrc([]);
    assert LastWins(fields)["54"] == FormatCents(y);
  }

  lemma TwoAmountsDiffer(x: nat, y: nat, emv: string)
    requires x < 1000 && y < 1000 && x != y && emv == Concat([Amount(x), Amount(y)])
    ensures Trimmed(emv) && ParseValue(ReadDecimal, emv) != ParseAmount(ReadDecimal, emv)
  {
    hide FormatCents, ReadDecimal, Strip, Concat, TopLevel, AmountText;
    AmountIsShort(x);
    AmountIsShort(y);
    TwoAmounts(x, y, emv);
    AmountReadsBack(x);
    AmountReadsBack(y);
    EndsInDigit([Amount(x), Amount(y)]);
    StripOfTrimmed(emv);
  }

  /** A repeated amount: the shared parser takes the first, the router the last. */
  lemma RepeatedAmountDisagrees()
    ensures exists emv :: Trimmed(emv) && ParseValue(ReadDecimal, emv) != ParseAmount(ReadDecimal, emv)
  {
    TwoAmountsDiffer(100, 200, Concat([Amount(100), Amount(200)]));
  }

  lemma AmountIsShort(cents: nat)
    requires cents < 1000
    ensures |FormatCents(cents)| == 4 && IsDigit(FormatCents(cents)[3])
  {
    TwoDigitsRead(cents % 100);
    assert Decimal(cents / 100) == [DigitChar(cents / 100)];
  }

  lemma EndsInDigit(fields: seq<Field>)
    requires |fields| == 2 && |fields[1].value| == 4 && IsDigit(fields[1].value[3])
    requires |fields[0].tag| == 2 && !IsSpace(fields[0].tag[0])
    ensures Trimmed(Concat(fields))
  {
    assert fields == [fields[0]] + [fields[1]];
    ConcatAppend([fields[0]], [fields[1]]);
    ConcatOne(fields[0]);
    ConcatOne(fields[1]);
    var s := Concat(fields);
    assert s[0] == fields[0].tag[0] && s[|s| - 1] == fields[1].value[3];
  }

  // ---------------------------------------------------------------- the payload location

  /** The number of an account's tag. */
  function Number(fields: seq<Field>, i: nat): nat {
    if i < |fields| && IsMerchantTag(fields[i].tag) then TagNumber(fields[i].tag).value else 0
  }

  /** The location in the account at a position, if it is an account and has one. */
  function Location(fields: seq<Field>, i: nat): Option<string> {
    if i < |fields| then AccountUrl(fields[i]) else None
  }

  predicate Located(fields: seq<Field>, i: nat) {
    Location(fields, i).Some?
  }

  predicate LastOfTag(fields: seq<Field>, i: nat) {
    i < |fields| && forall j | i < j < |fields| :: fields[j].tag != fields[i].tag
  }

  /** A located account that a dictionary keeps: no later field has its tag. */
  predicate Kept(fields: seq<Field>, i: nat) {
    Located(fields, i) && LastOfTag(fields, i)
  }

  /** The first account, in the order of the text, that has a location. */
  predicate FirstLocated(fields: seq<Field>, i: nat) {
    Located(fields, i) && forall j | 0 <= j < i :: !Located(fields, j)
  }

  /** The kept account with the smallest tag number. */
  ghost predicate SmallestKept(fields: seq<Field>, i: nat) {
    Kept(fields, i) && forall j: nat | Kept(fields, j) :: Number(fields, i) <= Number(fields, j)
  }

  ghost predicate AnyLocated(fields: seq<Field>) {
    exists i: nat :: Located(fields, i)
  }

  ghost predicate AnyKept(fields: seq<Field>) {
    exists i: nat :: Kept(fields, i)
  }

  lemma LocatedIsMerchant(fields: seq<Field>, i: nat)
    requires Located(fields, i)
    ensures i < |fields| && IsMerchantTag(fields[i].tag)
    ensures Location(fields, i) == AccountUrl(fields[i]) == BlockUrl(fields[i].value)
  {
  }

  lemma LocatedByUrl(fields: seq<Field>, i: nat)
    requires i < |fields|
    ensures Located(fields, i) <==> Urls(fields)[i].Some?
  {
  }

  lemma FirstExists(fields: seq<Field>, at: nat) returns (i: nat)
    requires Located(fields, at)
    ensures FirstLocated(fields, i)
  {
    hide Located;
    i := 0;
    while !Located(fields, i)
      invariant i <= at && forall j | 0 <= j < i :: !Located(fields, j)
      decreases at - i
    {
      i := i + 1;
    }
  }

  lemma {:induction false} SmallestExists(fields: seq<Field>, at: nat) returns (i: nat)
    requires Kept(fields, at)
    ensures SmallestKept(fields, i)
    decreases Number(fields, at)
  {
    hide Kept, Number;
    if j: nat :| Kept(fields, j) && Number(fields, j) < Number(fields, at) {
      i := SmallestExists(fields, j);
    } else {
      i := at;
    }
  }

  lemma {:induction false} LastExists(fields: seq<Field>, at: nat) returns (i: nat)
    requires at < |fields|
    ensures LastOfTag(fields, i) && fields[i].tag == fields[at].tag
    decreases |fields| - at
  {
    if j :| at < j < |fields| && fields[j].tag == fields[at].tag {
      i := LastExists(fields, j);
    } else {
      i := at;
    }
  }

  lemma {:induction false} LastWinsAt(fields: seq<Field>, i: nat)
    requires LastOfTag(fields, i)
    ensures Get(LastWins(fields), fields[i].tag) == fields[i].value
    decreases |fields|
  {
    var n := |fields| - 1;
    if i < n {
      LastWinsAt(fields[..n], i);
    }
  }

  lemma TagOfNumber(id: nat)
    requires 26 <= id <= 51
    ensures TagNumber(TagOf(id)) == Some(id)
  {
    TwoDigitsRead(id);
  }

  lemma NumberOfTag(tag: string)
    requires IsMerchantTag(tag)
    ensures TagOf(TagNumber(tag).value) == tag
  {
    var n := TagNumber(tag).value;
    assert Decimal(n) == [DigitChar(n / 10), DigitChar(n % 10)];
    SameDigit(tag[0], n / 10);
    SameDigit(tag[1], n % 10);
  }

  lemma SameDigit(c: char, d: nat)
    requires IsDigit(c) && d < 10 && DigitValue(c) == d
    ensures DigitChar(d) == c
  {
  }

  lemma NumberedOfTag(fields: seq<Field>, i: nat)
    requires LastOfTag(fields, i) && IsMerchantTag(fields[i].tag)
    ensures NumberedUrls(LastWins(fields))[TagNumber(fields[i].tag).value - 26] == Location(fields, i)
  {
    NumberOfTag(fields[i].tag);
    LastWinsAt(fields, i);
    hide BlockUrl, TagOf, LastWins;
  }

  lemma NumberedIsKept(fields: seq<Field>, l: nat) returns (i: nat)
    requires 26 <= l <= 51 && NumberedUrls(LastWins(fields))[l - 26].Some?
    ensures Kept(fields, i) && Number(fields, i) == l
  {
    LastWinsHolds(fields, TagOf(l));
    TagOfNumber(l);
    EmptyAccountHasNoUrl();
    hide BlockUrl, TagOf, LastWins;
    var at :| 0 <= at < |fields| && fields[at].tag == TagOf(l);
    i := LastExists(fields, at);
    NumberedOfTag(fields, i);
  }

  lemma KeptIsNumbered(fields: seq<Field>, i: nat)
    requires Kept(fields, i)
    ensures 26 <= Number(fields, i) <= 51
    ensures NumberedUrls(LastWins(fields))[Number(fields, i) - 26] == Location(fields, i) != None
  {
    LocatedIsMerchant(fields, i);
    hide BlockUrl, LastWins, TagNumber;
    NumberedOfTag(fields, i);
  }

  /** The router finds the location of the kept account with the smallest tag. */
  lemma SmallestWins(fields: seq<Field>, j: nat)
    requires SmallestKept(fields, j)
    ensures FirstSome(NumberedUrls(LastWins(fields))) == Location(fields, j) != None
  {
    var numbered := NumberedUrls(LastWins(fields));
    hide NumberedUrls, AccountUrl, LastWins, FirstSome, Number, Kept;
    KeptIsNumbered(fields, j);
    forall l | 0 <= l < Number(fields, j) - 26
      ensures numbered[l].None?
    {
      if numbered[l].Some? {
        var i := NumberedIsKept(fields, l + 26);
      }
    }
    FirstSomeAt(numbered, Number(fields, j) - 26);
  }

  lemma NoneKept(fields: seq<Field>)
    requires !AnyKept(fields)
    ensures FirstSome(NumberedUrls(LastWins(fields))) == None
  {
    var numbered := NumberedUrls(LastWins(fields));
    hide NumberedUrls, LastWins, FirstSome, Kept;
    forall l | 0 <= l < 26
      ensures numbered[l].None?
    {
      if numbered[l].Some? {
        var i := NumberedIsKept(fields, l + 26);
      }
    }
    FirstSomeNone(numbered);
  }

  /** The shared parser finds the location of the first account that has one. */
  lemma FirstWins(fields: seq<Field>, i: nat)
    requires FirstLocated(fields, i)
    ensures FirstSome(Urls(fields)) == Location(fields, i) != None
  {
    LocatedIsMerchant(fields, i);
    hide AccountUrl, FirstSome, Located;
    forall j: nat | j <= i
      ensures Located(fields, j) <==> Urls(fields)[j].Some?
    {
      LocatedByUrl(fields, j);
    }
    FirstSomeAt(Urls(fields), i);
  }

  lemma NoneLocated(fields: seq<Field>)
    requires !AnyLocated(fields)
    ensures FirstSome(Urls(fields)) == None
  {
    hide Located, AccountUrl, FirstSome;
    forall i | 0 <= i < |fields|
      ensures Urls(fields)[i].None?
    {
      LocatedByUrl(fields, i);
    }
    FirstSomeNone(Urls(fields));
  }

  // ---------------------------------------------------------------- agreement on the location

  /** What the router's parser looks at: blanks stripped, and only the fields ahead of the first CRC. */
  function RouterFields(emv: string): seq<Field> {
    BeforeCrc(Fields(Strip(emv)))
  }

  lemma SharedFinds(emv: string, i: nat)
    requires FirstLocated(Fields(emv), i)
    ensures ParsePayloadUrl(emv) == Location(Fields(emv), i) != None
  {
    hide Fields, Urls, FirstSome;
    FirstWins(Fields(emv), i);
  }

  lemma RouterFinds(emv: string, j: nat)
    requires SmallestKept(RouterFields(emv), j)
    ensures ExtractPixUrl(emv) == Location(RouterFields(emv), j) != None
  {
    hide Fields, BeforeCrc, Strip, NumberedUrls, FirstSome, LastWins, Location, Number;
    SmallestWins(RouterFields(emv), j);
  }

  lemma NeitherFinds(emv: string)
    ensures !AnyLocated(Fields(emv)) ==> ParsePayloadUrl(emv) == None
    ensures !AnyKept(RouterFields(emv)) ==> ExtractPixUrl(emv) == None
  {
    hide Fields, BeforeCrc, Strip, Urls, NumberedUrls, FirstSome, LastWins, AnyLocated, AnyKept;
    if !AnyLocated(Fields(emv)) { NoneLocated(Fields(emv)); }
    if !AnyKept(RouterFields(emv)) { NoneKept(RouterFields(emv)); }
  }

  /** For every text at all: both parsers find the same location exactly when neither has an account to
      take it from, or both have and the accounts hold the same one. The shared parser takes the first
      account with a location; the router's takes, of the accounts ahead of the CRC whose tag does not
      come again and that have a location, the one with the smallest tag. */
  lemma UrlsAgreeExactly(emv: string)
    ensures var fields, ahead := Fields(emv), RouterFields(emv);
      ExtractPixUrl(emv) == ParsePayloadUrl(emv) <==>
      && (AnyLocated(fields) <==> AnyKept(ahead))
      && forall i: nat, j: nat | FirstLocated(fields, i) && SmallestKept(ahead, j) ::
           Location(fields, i) == Location(ahead, j)
  {
    var fields, ahead := Fields(emv), RouterFields(emv);
    hide Fields, RouterFields, ExtractPixUrl, ParsePayloadUrl, Location, Located, Kept, FirstLocated, SmallestKept;
    NeitherFinds(emv);
    forall i: nat | FirstLocated(fields, i)
      ensures ParsePayloadUrl(emv) == Location(fields, i) != None
    {
      SharedFinds(emv, i);
    }
    forall j: nat | SmallestKept(ahead, j)
      ensures ExtractPixUrl(emv) == Location(ahead, j) != None
    {
      RouterFinds(emv, j);
    }
    if at: nat :| Located(fields, at) { var i := FirstExists(fields, at); }
    if at: nat :| Kept(ahead, at) { var j := SmallestExists(ahead, at); }
  }

  lemma {:induction false} BeforeCrcIsPrefix(fields: seq<Field>)
    ensures BeforeCrc(fields) <= fields
    decreases |fields|
  {
    if fields != [] && fields[0].tag != CRC {
      BeforeCrcIsPrefix(fields[1..]);
    }
  }

  lemma LocatedAhead(fields: seq<Field>, i: nat)
    requires Kept(BeforeCrc(fields), i)
    ensures Located(fields, i) && i < |BeforeCrc(fields)| <= |fields| && BeforeCrc(fields)[i] == fields[i]
    ensures Location(fields, i) == Location(BeforeCrc(fields), i)
  {
    BeforeCrcIsPrefix(fields);
    hide BeforeCrc, AccountUrl;
  }

  /** No two accounts hold the same location. */
  ghost predicate DistinctLocations(fields: seq<Field>) {
    forall i: nat, j: nat | Located(fields, i) && Located(fields, j) && i != j :: Location(fields, i) != Location(fields, j)
  }

  /** When surrounding blanks make no difference and the locations differ, the parsers agree exactly when
      the first account that has one, in the order of the text, is the one the router takes. */
  lemma DistinctUrlsAgreeExactly(emv: string)
    requires Fields(Strip(emv)) == Fields(emv) && DistinctLocations(Fields(emv))
    ensures var fields := Fields(emv);
      ExtractPixUrl(emv) == ParsePayloadUrl(emv) <==> forall i: nat | FirstLocated(fields, i) :: SmallestKept(BeforeCrc(fields), i)
  {
    var fields, ahead := Fields(emv), BeforeCrc(Fields(emv));
    hide Fields, Strip, BeforeCrc, ExtractPixUrl, ParsePayloadUrl, Location, Kept, SmallestKept, Number, Urls;
    if at: nat :| Located(fields, at) {
      var i := FirstExists(fields, at);
      SharedFinds(emv, i);
      if SmallestKept(ahead, i) {
        RouterTakes(emv, i);
      } else if here: nat :| Kept(ahead, here) {
        var j := SmallestExists(ahead, here);
        RouterTakes(emv, j);
      } else {
        NeitherFinds(emv);
      }
    } else {
      NothingLocated(emv);
    }
  }

  lemma RouterTakes(emv: string, j: nat)
    requires Fields(Strip(emv)) == Fields(emv) && SmallestKept(BeforeCrc(Fields(emv)), j)
    ensures ExtractPixUrl(emv) == Location(Fields(emv), j) && Located(Fields(emv), j)
  {
    hide Fields, Strip, BeforeCrc, ExtractPixUrl, Kept, Number, Location;
    RouterFinds(emv, j);
    LocatedAhead(Fields(emv), j);
  }

  lemma NothingLocated(emv: string)
    requires Fields(Strip(emv)) == Fields(emv) && !AnyLocated(Fields(emv))
    ensures ExtractPixUrl(emv) == ParsePayloadUrl(emv) == None
  {
    hide Fields, Strip, BeforeCrc, ExtractPixUrl, ParsePayloadUrl, Location, Kept, Located;
    NeitherFinds(emv);
    if i: nat :| Kept(RouterFields(emv), i) { LocatedAhead(Fields(emv), i); }
  }

  // ---------------------------------------------------------------- ascending accounts

  ghost predicate AccountsAscend(fields: seq<Field>) {
    forall i, j | 0 <= i < j < |fields| && IsMerchantTag(fields[i].tag) && IsMerchantTag(fields[j].tag) ::
      Number(fields, i) < Number(fields, j)
  }

  lemma CrcIsNoAccount()
    ensures !IsMerchantTag(CRC)
  {
    assert TagNumber(CRC) == Some(63);
  }

  /** On text with distinct tags and nothing after the CRC, the router sees every located account. */
  lemma AllLocatedAreKept(fields: seq<Field>, i: nat)
    requires WellFormed(fields) && Located(fields, i)
    ensures Kept(BeforeCrc(fields), i) && Location(BeforeCrc(fields), i) == Location(fields, i)
    ensures Number(BeforeCrc(fields), i) == Number(fields, i)
  {
    LocatedIsMerchant(fields, i);
    BeforeCrcOfWellFormed(fields);
    CrcIsNoAccount();
    hide BeforeCrc, BlockUrl, TagNumber;
  }

  /** There both parsers agree when the tags of all merchant accounts ascend. */
  lemma UrlsAgree(emv: string)
    requires Trimmed(emv) && WellFormed(Fields(emv)) && AccountsAscend(Fields(emv))
    ensures ExtractPixUrl(emv) == ParsePayloadUrl(emv)
  {
    hide *;
    StripOfTrimmed(emv);
    if at: nat :| Located(Fields(emv), at) {
      AscendingUrlsAgree(emv, at);
    } else {
      NoneIsLocated(Fields(emv));
      NothingLocated(emv);
    }
  }

  lemma NoneIsLocated(fields: seq<Field>)
    requires forall i: nat :: !Located(fields, i)
    ensures !AnyLocated(fields)
  {
    hide Located;
  }

  lemma AscendingUrlsAgree(emv: string, at: nat)
    requires Fields(Strip(emv)) == Fields(emv) && WellFormed(Fields(emv)) && AccountsAscend(Fields(emv))
    requires Located(Fields(emv), at)
    ensures ExtractPixUrl(emv) == ParsePayloadUrl(emv)
  {
    hide *;
    var fields := Fields(emv);
    var i := FirstExists(fields, at);
    FirstIsLocated(fields, i);
    SharedFinds(emv, i);
    AllLocatedAreKept(fields, i);
    var j := SmallestExists(BeforeCrc(fields), i);
    RouterTakes(emv, j);
    AllLocatedAreKept(fields, j);
    SmallestIsLeast(BeforeCrc(fields), j, i);
    if i < j { NumbersAscending(fields, i, j); }
    if j < i { FirstComesFirst(fields, i, j); }
  }

  lemma FirstIsLocated(fields: seq<Field>, i: nat)
    requires FirstLocated(fields, i)
    ensures Located(fields, i)
  {
  }

  lemma FirstComesFirst(fields: seq<Field>, i: nat, j: nat)
    requires FirstLocated(fields, i) && Located(fields, j)
    ensures i <= j
  {
  }

  lemma SmallestIsLeast(fields: seq<Field>, j: nat, i: nat)
    requires SmallestKept(fields, j) && Kept(fields, i)
    ensures Number(fields, j) <= Number(fields, i)
  {
  }

  lemma NumbersAscending(fields: seq<Field>, i: nat, j: nat)
    requires AccountsAscend(fields) && Located(fields, i) && Located(fields, j) && i < j
    ensures Number(fields, i) < Number(fields, j)
  {
    LocatedIsMerchant(fields, i);
    LocatedIsMerchant(fields, j);
    hide AccountUrl, TagNumber, Location;
  }

  // ---------------------------------------------------------------- descending accounts

  function AccountAt(url: string): string {
    Concat([Field("00", GUI), Field("25", url)])
  }

  lemma GuiIsPix()
    ensures Contains(Upper(GUI), "BCB.PIX")
  {
    assert Upper(GUI) == GUI;
    assert GUI[7..14] == "BCB.PIX";
    assert OccursAt(GUI, "BCB.PIX", 7);
  }

  lemma UrlOfAccountAt(url: string)
    requires '/' in url && |url| <= 77
    ensures BlockUrl(AccountAt(url)) == Some(NormaliseUrl(url))
  {
    hide NormaliseUrl, IsPayloadUrl, Fields, Concat, Upper, Contains;
    var gui, f := Field("00", GUI), Field("25", url);
    WalkOfConcat([gui, f]);
    assert [gui, f][..1] == [gui] && [gui][..0] == [];
    assert LastWins([gui]) == map["00" := GUI];
    assert LastWins([gui, f]) == map["00" := GUI]["25" := url];
    GuiIsPix();
  }

  lemma DescendingTags()
    ensures TagNumber("27") == Some(27) && TagNumber("26") == Some(26) && TagNumber(CRC) == Some(63)
  {
  }

  lemma DescendingUrls(first: Field, second: Field)
    requires first.tag == "27" && second.tag == "26"
    requires BlockUrl(first.value).Some? && BlockUrl(second.value).Some?
    ensures WellFormed([first, second])
    ensures FirstSome(Urls([first, second])) == BlockUrl(first.value)
    ensures FirstSome(NumberedUrls(LastWins(BeforeCrc([first, second])))) == BlockUrl(second.value)
  {
    var fields := [first, second];
    DescendingTags();
    hide BlockUrl, LastWins, BeforeCrc, TagNumber, FirstSome, TagOf;
    BeforeCrcOfWellFormed(fields);
    NumberedOfTag(fields, 1);
    FirstSomeAt(Urls(fields), 0);
    FirstSomeAt(NumberedUrls(LastWins(fields)), 0);
  }

  lemma DescendingDiffers(emv: string, first: Field, second: Field)
    requires Trimmed(emv) && Fields(emv) == [first, second] && first.tag == "27" && second.tag == "26"
    requires BlockUrl(first.value).Some? && BlockUrl(second.value).Some?
    requires BlockUrl(first.value) != BlockUrl(second.value)
    ensures WellFormed(Fields(emv)) && ExtractPixUrl(emv) != ParsePayloadUrl(emv)
  {
    hide BlockUrl, Strip, Fields;
    StripOfTrimmed(emv);
    DescendingUrls(first, second);
  }

  lemma AccountsDiffer(x: string, y: string)
    requires |x| == |y| == 3 && Trimmed(x) && Trimmed(y) && '/' in x && '/' in y && x != y
    ensures BlockUrl(AccountAt(x)).Some? && BlockUrl(AccountAt(y)).Some?
    ensures BlockUrl(AccountAt(x)) != BlockUrl(AccountAt(y))
  {
    hide BlockUrl, AccountAt, NormaliseUrl;
    UrlOfAccountAt(x);
    UrlOfAccountAt(y);
    DifferentPaths(x, y);
  }

  /** Two accounts in descending order: the shared parser takes the first, the router the smaller. */
  lemma DescendingAccountsDisagree()
    ensures exists emv :: Trimmed(emv) && WellFormed(Fields(emv)) && ExtractPixUrl(emv) != ParsePayloadUrl(emv)
  {
    hide AccountAt, Fields, Concat, BlockUrl, WellFormed, ExtractPixUrl, ParsePayloadUrl;
    var first, second := Field("27", AccountAt("a/b")), Field("26", AccountAt("c/d"));
    AccountAtLength("a/b");
    AccountAtLength("c/d");
    WalkOfConcat([first, second]);
    TrimmedAccounts(first, second);
    AccountsDiffer("a/b", "c/d");
    DescendingDiffers(Concat([first, second]), first, second);
  }

  lemma RepeatedDiffers(emv: string, first: Field, second: Field)
    requires Trimmed(emv) && Fields(emv) == [first, second] && first.tag == second.tag == "26"
    requires BlockUrl(first.value).Some? && BlockUrl(second.value).None?
    ensures ParsePayloadUrl(emv).Some? && ExtractPixUrl(emv).None?
  {
    hide Fields, Strip, ParsePayloadUrl, ExtractPixUrl, FirstLocated, AnyKept, BlockUrl, BeforeCrc, Trimmed;
    StripOfTrimmed(emv);
    AccountsAhead(first, second);
    OneLocated(first, second);
    SharedFinds(emv, 0);
    NeitherFinds(emv);
  }

  lemma OneLocated(first: Field, second: Field)
    requires first.tag == second.tag == "26" && BlockUrl(first.value).Some? && BlockUrl(second.value).None?
    ensures FirstLocated([first, second], 0) && !AnyKept([first, second])
  {
    DescendingTags();
    hide BlockUrl, TagNumber;
    assert [first, second][0] == first && [first, second][1] == second;
    forall i: nat
      ensures !Kept([first, second], i)
    {
      assert i == 0 ==> [first, second][1].tag == [first, second][i].tag;
    }
  }

  lemma AccountsAhead(first: Field, second: Field)
    requires first.tag == second.tag == "26"
    ensures BeforeCrc([first, second]) == [first, second]
  {
    assert BeforeCrc([second]) == [second] + BeforeCrc([]);
    assert [first, second][1..] == [second];
  }

  lemma ShortAccountHasNoUrl()
    ensures BlockUrl("x") == None
  {
    assert Fields("x") == [];
    EmptyAccountHasNoUrl();
  }

  /** An account that comes twice, the second time without a location: the shared parser finds the first
      one's, the router's none. */
  lemma RepeatedAccountDisagrees()
    ensures exists emv :: Trimmed(emv) && ParsePayloadUrl(emv).Some? && ExtractPixUrl(emv).None?
  {
    hide *;
    var first := Field("26", AccountAt("a/b"));
    AccountAtLength("a/b");
    PathIsTrimmed();
    UrlOfAccountAt("a/b");
    RepeatedText(first);
  }

  lemma PathIsTrimmed()
    ensures Trimmed("a/b") && '/' in "a/b"
  {
    assert "a/b"[1] == '/';
  }

  lemma RepeatedText(first: Field)
    requires first.tag == "26" && |first.value| <= 99 && BlockUrl(first.value).Some?
    ensures exists emv :: Trimmed(emv) && ParsePayloadUrl(emv).Some? && ExtractPixUrl(emv).None?
  {
    hide Fields, Concat, BlockUrl, ExtractPixUrl, ParsePayloadUrl, Trimmed;
    var second := Field("26", "x");
    WalkOfConcat([first, second]);
    EndsInX(first);
    ShortAccountHasNoUrl();
    RepeatedDiffers(Concat([first, second]), first, second);
  }

  lemma EndsInX(first: Field)
    requires first.tag == "26"
    ensures Trimmed(Concat([first, Field("26", "x")]))
  {
    var second := Field("26", "x");
    assert [first, second] == [first] + [second];
    ConcatAppend([first], [second]);
    ConcatOne(first);
    ConcatOne(second);
    var s := Concat([first, second]);
    assert s[0] == '2' && s[|s| - 1] == 'x';
  }

  lemma AccountAtLength(url: string)
    requires |url| == 3
    ensures |AccountAt(url)| == 25
  {
    var gui, f := Field("00", GUI), Field("25", url);
    assert [gui, f] == [gui] + [f];
    ConcatAppend([gui], [f]);
    ConcatOne(gui);
    ConcatOne(f);
    PrintLength(gui);
    PrintLength(f);
  }

  lemma TrimmedAccounts(first: Field, second: Field)
    requires first == Field("27", AccountAt("a/b")) && second == Field("26", AccountAt("c/d"))
    ensures Trimmed(Concat([first, second]))
  {
    assert [first, second] == [first] + [second];
    ConcatAppend([first], [second]);
    ConcatOne(first);
    ConcatOne(second);
    var gui, f := Field("00", GUI), Field("25", "c/d");
    assert [gui, f] == [gui] + [f];
    ConcatAppend([gui], [f]);
    ConcatOne(f);
    var s := Concat([first, second]);
    assert s[0] == '2';
    assert s[|s| - 1] == second.value[|second.value| - 1] == f.value[2] == 'd';
  }

  lemma NormalisedPath(path: string)
    requires Trimmed(path) && |path| == 3
    ensures NormaliseUrl(path) == "https://" + path
  {
    StripOfTrimmed(path);
    hide Strip;
  }

  lemma DifferentPaths(x: string, y: string)
    requires Trimmed(x) && Trimmed(y) && |x| == |y| == 3 && x != y
    ensures NormaliseUrl(x) != NormaliseUrl(y)
  {
    NormalisedPath(x);
    NormalisedPath(y);
    assert ("https://" + x)[8..] == x && ("https://" + y)[8..] == y;
  }
}

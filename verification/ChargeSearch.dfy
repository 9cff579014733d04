/**
 * The search for the charge a payload names, stated without the functions that carry it out: which ids
 * a text contains, and which charge each way of searching gives.
 */
module ChargeSearch {

  import opened Wrappers
  import opened Text
  import opened PixModel
  import opened QrPayment
  import CrcCheck
  import CrcText
  import BrCodeRoundTrip
  import RouterEmv
  import BrCode

  // ---------------------------------------------------------------- ids in a text

  predicate HexChar(c: char) {
    '0' <= c <= '9' || 'a' <= c <= 'f' || 'A' <= c <= 'F'
  }

  predicate Hexadecimal(s: string) {
    forall i | 0 <= i < |s| :: HexChar(s[i])
  }

  predicate AlphanumericChar(c: char) {
    '0' <= c <= '9' || 'a' <= c <= 'z' || 'A' <= c <= 'Z'
  }

  /** A UUID is five groups of 8, 4, 4, 4 and 12 hexadecimal digits, with hyphens between. */
  lemma UuidExactly(s: string)
    ensures IsUuid(s)
       <==> && |s| == 36 && s == s[..8] + "-" + s[9..13] + "-" + s[14..18] + "-" + s[19..23] + "-" + s[24..]
            && Hexadecimal(s[..8]) && Hexadecimal(s[9..13]) && Hexadecimal(s[14..18]) && Hexadecimal(s[19..23]) && Hexadecimal(s[24..])
  {
    if |s| == 36 {
      var joined := s[..8] + "-" + s[9..13] + "-" + s[14..18] + "-" + s[19..23] + "-" + s[24..];
      assert joined[8] == joined[13] == joined[18] == joined[23] == '-';
      assert forall i | 0 <= i < 36 && i !in {8, 13, 18, 23} :: joined[i] == s[i];
      Group(s, 0, 8);
      Group(s, 9, 13);
      Group(s, 14, 18);
      Group(s, 19, 23);
      Group(s, 24, 36);
      assert s[0..8] == s[..8] && s[24..36] == s[24..];
    }
  }

  lemma Group(s: string, lo: nat, hi: nat)
    requires lo <= hi <= |s|
    ensures Hexadecimal(s[lo..hi]) <==> forall i | lo <= i < hi :: HexChar(s[i])
  {
    if Hexadecimal(s[lo..hi]) {
      forall i | lo <= i < hi
        ensures HexChar(s[i])
      {
        assert s[lo..hi][i - lo] == s[i];
      }
    }
  }

  // ---------------------------------------------------------------- reading a text from left to right

  lemma {:induction false} UuidsOfRest(a: string, s: string, pos: nat)
    ensures UuidsFrom(a + s, |a| + pos) == UuidsFrom(s, pos)
    decreases |s| - pos
  {
    hide IsUuid;
    if pos + 36 <= |s| {
      SliceOfRest(a, s, pos, pos + 36);
      UuidsOfRest(a, s, pos + 36);
      UuidsOfRest(a, s, pos + 1);
    }
  }

  predicate UuidAt(s: string, i: nat) {
    i + 36 <= |s| && IsUuid(s[i..i + 36])
  }

  lemma {:induction false} NoUuidBefore(s: string, pos: nat, end: nat)
    requires pos <= end <= |s| && forall i | pos <= i < end :: !UuidAt(s, i)
    ensures UuidsFrom(s, pos) == UuidsFrom(s, end)
    decreases end - pos
  {
    if pos < end {
      assert !UuidAt(s, pos);
      NoUuidBefore(s, pos + 1, end);
    }
  }

  /** The UUIDs of a text: the leftmost one, and then those of what follows it; none, if there is none. */
  lemma UuidsInOrder(before: string, id: string, after: string)
    requires IsUuid(id)
    requires forall i | 0 <= i < |before| :: !UuidAt(before + id + after, i)
    ensures Uuids(before + id + after) == [id] + Uuids(after)
  {
    var s := before + id + after;
    hide IsUuid;
    UuidIsLong(id);
    NoUuidBefore(s, 0, |before|);
    assert s[|before|..|before| + 36] == id;
    assert s == (before + id) + after;
    UuidsOfRest(before + id, after, 0);
  }

  lemma UuidIsLong(id: string)
    requires IsUuid(id)
    ensures |id| == 36
  {
  }

  lemma NoUuids(s: string)
    requires forall i | 0 <= i < |s| :: !UuidAt(s, i)
    ensures Uuids(s) == []
  {
    hide IsUuid;
    NoUuidBefore(s, 0, |s|);
  }

  /** A payment id of the gateway starts here. */
  predicate PayIdAt(s: string, i: nat) {
    i + 5 <= |s| && s[i..i + 4] == "pay_" && AlphanumericChar(s[i + 4])
  }

  lemma PayIdHere(s: string, pos: nat)
    requires PayIdAt(s, pos)
    ensures var end := AlphanumericEnd(s, pos + 5);
      pos + 5 <= end <= |s| && PayIdsFrom(s, pos) == [s[pos..end]] + PayIdsFrom(s, end)
  {
  }

  lemma NoPayIdHere(s: string, pos: nat)
    requires !PayIdAt(s, pos)
    ensures PayIdsFrom(s, pos) == PayIdsFrom(s, pos + 1)
  {
    assert |s| >= pos + 5 ==> (OccursAt(s, PAY_ID, pos) <==> s[pos..pos + 4] == "pay_");
  }

  lemma NoPayIdPast(s: string, pos: nat)
    requires |s| <= pos
    ensures PayIdsFrom(s, pos) == []
  {
  }

  lemma PayIdAtRest(a: string, s: string, pos: nat)
    ensures PayIdAt(a + s, |a| + pos) <==> PayIdAt(s, pos)
  {
    if pos + 5 <= |s| {
      assert (a + s)[|a| + pos..|a| + pos + 4] == s[pos..pos + 4];
    }
  }

  lemma {:induction false} PayIdsOfRest(a: string, s: string, pos: nat)
    ensures PayIdsFrom(a + s, |a| + pos) == PayIdsFrom(s, pos)
    decreases |s| - pos
  {
    hide *;
    if |s| <= pos {
      NoPayIdPast(s, pos);
      NoPayIdPast(a + s, |a| + pos);
    } else {
      PayIdAtRest(a, s, pos);
      if PayIdAt(s, pos) {
        PayIdHere(s, pos);
        PayIdHere(a + s, |a| + pos);
        var end := AlphanumericEnd(s, pos + 5);
        AlphanumericOfRest(a, s, pos + 5);
        SliceOfRest(a, s, pos, end);
        PayIdsOfRest(a, s, end);
      } else {
        NoPayIdHere(s, pos);
        NoPayIdHere(a + s, |a| + pos);
        PayIdsOfRest(a, s, pos + 1);
      }
    }
  }

  lemma SliceOfRest(a: string, s: string, lo: nat, hi: nat)
    requires lo <= hi <= |s|
    ensures (a + s)[|a| + lo..|a| + hi] == s[lo..hi]
  {
  }

  lemma {:induction false} AlphanumericOfRest(a: string, s: string, pos: nat)
    requires pos <= |s|
    ensures AlphanumericEnd(a + s, |a| + pos) == |a| + AlphanumericEnd(s, pos)
    decreases |s| - pos
  {
    if pos < |s| { AlphanumericOfRest(a, s, pos + 1); }
  }

  lemma {:induction false} EndsWhereItStops(s: string, pos: nat, end: nat)
    requires pos <= end <= |s| && forall i | pos <= i < end :: AlphanumericChar(s[i])
    requires end == |s| || !AlphanumericChar(s[end])
    ensures AlphanumericEnd(s, pos) == end
    decreases end - pos
  {
    if pos < end { EndsWhereItStops(s, pos + 1, end); }
  }

  lemma {:induction false} NoPayIdBefore(s: string, pos: nat, end: nat)
    requires pos <= end <= |s| && forall i | pos <= i < end :: !PayIdAt(s, i)
    ensures PayIdsFrom(s, pos) == PayIdsFrom(s, end)
    decreases end - pos
  {
    if pos < end {
      NoPayIdHere(s, pos);
      NoPayIdBefore(s, pos + 1, end);
    }
  }

  /** The gateway's payment ids of a text: the leftmost one, as long as it goes, and then those of what
      follows it; none, if there is none. */
  lemma PayIdsInOrder(before: string, name: string, after: string)
    requires name != "" && (forall i | 0 <= i < |name| :: AlphanumericChar(name[i])) && (after == "" || !AlphanumericChar(after[0]))
    requires forall i | 0 <= i < |before| :: !PayIdAt(before + ("pay_" + name) + after, i)
    ensures PayIds(before + ("pay_" + name) + after) == ["pay_" + name] + PayIds(after)
  {
    hide PayIdsFrom, PayIdAt, AlphanumericEnd;
    var id := "pay_" + name;
    var s, k := before + id + after, |before|;
    NoPayIdBefore(s, 0, k);
    NamedPayId(before, name, after);
    PayIdHere(s, k);
    PayIdsAfter(before, id, after);
  }

  lemma PayIdsAfter(before: string, id: string, after: string)
    ensures (before + id + after)[|before|..|before| + |id|] == id
    ensures PayIdsFrom(before + id + after, |before| + |id|) == PayIds(after)
  {
    hide PayIdsFrom;
    var a := before + id;
    assert before + id + after == a + after && |a| == |before| + |id|;
    PayIdsOfRest(a, after, 0);
    assert a[|before|..] == id;
    SliceOfFirst(a, after, |before|);
  }

  lemma SliceOfFirst(a: string, s: string, lo: nat)
    requires lo <= |a|
    ensures (a + s)[lo..|a|] == a[lo..]
  {
  }

  lemma NamedPayId(before: string, name: string, after: string)
    requires name != "" && (forall i | 0 <= i < |name| :: AlphanumericChar(name[i])) && (after == "" || !AlphanumericChar(after[0]))
    ensures var s, k := before + ("pay_" + name) + after, |before|; PayIdAt(s, k) && AlphanumericEnd(s, k + 5) == k + 4 + |name|
  {
    var s, k := before + ("pay_" + name) + after, |before|;
    assert s[k..k + 4] == "pay_" && s[k + 4] == name[0];
    forall i | k + 5 <= i < k + 4 + |name|
      ensures AlphanumericChar(s[i])
    {
      assert s[i] == name[i - k - 4];
    }
    EndsWhereItStops(s, k + 5, k + 4 + |name|);
  }

  lemma NoPayIds(s: string)
    requires forall i | 0 <= i < |s| :: !PayIdAt(s, i)
    ensures PayIds(s) == []
  {
    NoPayIdBefore(s, 0, |s|);
  }

  // ---------------------------------------------------------------- the ways of searching

  predicate Charge(s: State, t: Id, status: Status) {
    t in s.txs && s.txs[t].kind == Received && s.txs[t].status == status
  }

  /** The ids a text contains, UUIDs first. */
  function Ids(text: string): seq<Id> {
    Uuids(text) + PayIds(text)
  }

  /** The charge is stored with the first 200 characters of the text. */
  predicate HoldsText(keys: map<Id, string>, t: Id, text: string) {
    t in keys && keys[t] == if |text| <= 200 then text else text[..200]
  }

  predicate HoldsUuid(keys: map<Id, string>, t: Id, uuid: string) {
    t in keys && Contains(keys[t], uuid)
  }

  /** No charge of this status is named by an id of the text. */
  predicate NoneById(s: State, text: string, status: Status) {
    forall i | 0 <= i < |Ids(text)| :: !Charge(s, Ids(text)[i], status)
  }

  predicate NoneByText(s: State, keys: map<Id, string>, text: string) {
    text == "" || forall t | t in s.txs && Charge(s, t, Created) :: !HoldsText(keys, t, text)
  }

  /** The text is not the gateway's, or no charge of this status is stored with one of its UUIDs. */
  predicate NoneByUuid(s: State, keys: map<Id, string>, text: string, status: Status) {
    !Contains(text, "asaas.com") || forall i | 0 <= i < |Uuids(text)| :: NoneHolds(s, keys, Uuids(text)[i], status)
  }

  predicate NoneHolds(s: State, keys: map<Id, string>, uuid: string, status: Status) {
    forall t | t in s.txs && Charge(s, t, status) :: !HoldsUuid(keys, t, uuid)
  }

  lemma {:induction false} FirstOpenAt(s: State, ids: seq<Id>, i: nat)
    requires i <= |ids| && (forall j | 0 <= j < i :: !Charge(s, ids[j], Created)) && (i < |ids| ==> Charge(s, ids[i], Created))
    ensures FirstOpen(s, ids) == if i < |ids| then Some(ids[i]) else None
    decreases i
  {
    if i > 0 { FirstOpenAt(s, ids[1..], i - 1); }
  }

  lemma {:induction false} FirstPaidAt(s: State, ids: seq<Id>, i: nat)
    requires i <= |ids| && (forall j | 0 <= j < i :: !Charge(s, ids[j], Confirmed)) && (i < |ids| ==> Charge(s, ids[i], Confirmed))
    ensures FirstPaid(s, ids) == if i < |ids| then Some(ids[i]) else None
    decreases i
  {
    if i > 0 { FirstPaidAt(s, ids[1..], i - 1); }
  }

  lemma MentionsExactly(s: State, keys: map<Id, string>, uuid: string, paid: bool)
    ensures AnyMentions(s, keys, uuid, paid) <==> !NoneHolds(s, keys, uuid, if paid then Confirmed else Created)
  {
    hide Contains;
  }

  lemma {:induction false} FirstMentionedAt(s: State, keys: map<Id, string>, uuids: seq<string>, paid: bool, i: nat)
    requires var status := if paid then Confirmed else Created;
      i <= |uuids| && (forall j | 0 <= j < i :: NoneHolds(s, keys, uuids[j], status)) && (i < |uuids| ==> !NoneHolds(s, keys, uuids[i], status))
    ensures FirstMentioned(s, keys, uuids, paid) == if i < |uuids| then Some(uuids[i]) else None
    decreases i
  {
    if uuids != [] { MentionsExactly(s, keys, uuids[0], paid); }
    hide NoneHolds, AnyMentions;
    if i > 0 { FirstMentionedAt(s, keys, uuids[1..], paid, i - 1); }
  }

  lemma StoredExactly(s: State, keys: map<Id, string>, text: string)
    ensures AnyStored(s, keys, text) <==> !NoneByText(s, keys, text)
    ensures forall t :: StoredAs(keys, t, text) <==> text != "" && HoldsText(keys, t, text)
  {
  }

  lemma NoneMentioned(s: State, keys: map<Id, string>, text: string, paid: bool)
    requires NoneByUuid(s, keys, text, if paid then Confirmed else Created)
    ensures FirstMentioned(s, keys, Searched(text), paid) == None
  {
    hide NoneHolds, Contains, Uuids;
    FirstMentionedAt(s, keys, Searched(text), paid, |Searched(text)|);
  }

  /** First, the first id of the text that is an unpaid charge. */
  lemma FoundById(s: State, keys: map<Id, string>, text: string, i: nat, charge: Option<Id>)
    requires i < |Ids(text)| && Charge(s, Ids(text)[i], Created) && forall j | 0 <= j < i :: !Charge(s, Ids(text)[j], Created)
    ensures Finds(s, keys, text, charge) <==> charge == Some(Ids(text)[i])
  {
    FirstOpenAt(s, Ids(text), i);
    hide FirstOpen, FirstPaid, FirstMentioned, AnyStored, Searched, Uuids, PayIds;
  }

  /** Then, an unpaid charge that is stored with the text. */
  lemma FoundByText(s: State, keys: map<Id, string>, text: string, charge: Option<Id>)
    requires NoneById(s, text, Created) && !NoneByText(s, keys, text)
    ensures Finds(s, keys, text, charge) <==> charge.Some? && Charge(s, charge.value, Created) && HoldsText(keys, charge.value, text)
  {
    FirstOpenAt(s, Ids(text), |Ids(text)|);
    StoredExactly(s, keys, text);
    hide FirstOpen, FirstPaid, FirstMentioned, AnyStored, StoredAs, HoldsText, Searched, Uuids, PayIds;
  }

  /** Then, for a text of the gateway, an unpaid charge stored with the first of its UUIDs that is stored
      with any. */
  lemma FoundByUuid(s: State, keys: map<Id, string>, text: string, i: nat, charge: Option<Id>)
    requires NoneById(s, text, Created) && NoneByText(s, keys, text) && Contains(text, "asaas.com") && i < |Uuids(text)|
    requires !NoneHolds(s, keys, Uuids(text)[i], Created) && forall j | 0 <= j < i :: NoneHolds(s, keys, Uuids(text)[j], Created)
    ensures Finds(s, keys, text, charge)
       <==> charge.Some? && Charge(s, charge.value, Created) && HoldsUuid(keys, charge.value, Uuids(text)[i])
  {
    FirstOpenAt(s, Ids(text), |Ids(text)|);
    StoredExactly(s, keys, text);
    FirstMentionedAt(s, keys, Uuids(text), false, i);
    hide FirstOpen, FirstPaid, FirstMentioned, AnyStored, StoredAs, Contains, NoneHolds, NoneByText, Uuids, PayIds;
  }

  /** Only then, the first id of the text that is a paid charge. */
  lemma PaidFoundById(s: State, keys: map<Id, string>, text: string, i: nat, charge: Option<Id>)
    requires NoneById(s, text, Created) && NoneByText(s, keys, text) && NoneByUuid(s, keys, text, Created) && i < |Ids(text)|
    requires Charge(s, Ids(text)[i], Confirmed) && forall j | 0 <= j < i :: !Charge(s, Ids(text)[j], Confirmed)
    ensures Finds(s, keys, text, charge) <==> charge == Some(Ids(text)[i])
  {
    FirstOpenAt(s, Ids(text), |Ids(text)|);
    FirstPaidAt(s, Ids(text), i);
    StoredExactly(s, keys, text);
    NoneMentioned(s, keys, text, false);
    hide FirstOpen, FirstPaid, FirstMentioned, AnyStored, StoredAs, Searched, NoneByText, NoneByUuid, Uuids, PayIds;
  }

  /** And last, for a text of the gateway, a paid charge stored with one of its UUIDs. */
  lemma PaidFoundByUuid(s: State, keys: map<Id, string>, text: string, i: nat, charge: Option<Id>)
    requires NoneById(s, text, Created) && NoneByText(s, keys, text) && NoneByUuid(s, keys, text, Created) && NoneById(s, text, Confirmed)
    requires Contains(text, "asaas.com") && i < |Uuids(text)|
    requires !NoneHolds(s, keys, Uuids(text)[i], Confirmed) && forall j | 0 <= j < i :: NoneHolds(s, keys, Uuids(text)[j], Confirmed)
    ensures Finds(s, keys, text, charge)
       <==> charge.Some? && Charge(s, charge.value, Confirmed) && HoldsUuid(keys, charge.value, Uuids(text)[i])
  {
    FirstOpenAt(s, Ids(text), |Ids(text)|);
    FirstPaidAt(s, Ids(text), |Ids(text)|);
    StoredExactly(s, keys, text);
    NoneMentioned(s, keys, text, false);
    FirstMentionedAt(s, keys, Uuids(text), true, i);
    hide FirstOpen, FirstPaid, FirstMentioned, AnyStored, StoredAs, Contains, NoneHolds, NoneByText, NoneByUuid, Uuids, PayIds;
  }

  /** Otherwise, none. */
  lemma NothingFound(s: State, keys: map<Id, string>, text: string, charge: Option<Id>)
    requires NoneById(s, text, Created) && NoneByText(s, keys, text) && NoneByUuid(s, keys, text, Created)
    requires NoneById(s, text, Confirmed) && NoneByUuid(s, keys, text, Confirmed)
    ensures Finds(s, keys, text, charge) <==> charge == None
  {
    FirstOpenAt(s, Ids(text), |Ids(text)|);
    FirstPaidAt(s, Ids(text), |Ids(text)|);
    StoredExactly(s, keys, text);
    NoneMentioned(s, keys, text, false);
    NoneMentioned(s, keys, text, true);
    hide FirstOpen, FirstPaid, FirstMentioned, AnyStored, StoredAs, Searched, NoneByText, NoneByUuid, Uuids, PayIds;
  }

  // ---------------------------------------------------------------- scans that go no further

  /** A value that is not positive, or an unknown user, is refused whatever the text. */
  lemma EarlyScanAnswer(s: State, scan: Scan, charge: Option<Id>, read: string -> Option<real>, digest: string -> string, g: QrAnswer)
    requires (scan.clientValue.Some? && scan.clientValue.value <= 0) || scan.user !in s.accounts
    ensures PayScan(s, scan, charge, read, digest, g)
         == Outcome(s, Refused(if scan.clientValue.Some? && scan.clientValue.value <= 0 then InvalidValue else Unauthenticated))
  {
    hide CrcCheck.ValidatePixCrc, PayQr;
  }

  /** A text in which one or two characters ahead of the checksum differ from an accepted payload is
      refused, and nothing is paid. */
  lemma DamagedScanIsRefused(s: State, scan: Scan, u: string, a: string, x: string, y: string, b: string, w: string,
                             charge: Option<Id>, read: string -> Option<real>, digest: string -> string, g: QrAnswer)
    requires (scan.clientValue.Some? ==> scan.clientValue.value > 0) && scan.user in s.accounts
    requires scan.text == u + (a + y + b) + w && CrcCheck.ValidatePixCrc(u + (a + x + b) + w) && Contains(b, CrcCheck.CRC_TAG)
    requires IsBlank(u) && IsBlank(w) && Trimmed(a + x + b) && Trimmed(a + y + b)
    requires x != y && CrcText.EncodedLength(x) == CrcText.EncodedLength(y) <= 2
    ensures PayScan(s, scan, charge, read, digest, g) == Outcome(s, Refused(InvalidPayload))
  {
    hide CrcCheck.ValidatePixCrc, PayQr, IsBlank, Trimmed, Contains;
    CrcCheck.ShortEditIsRejected(u, a, x, y, b, w);
  }

  /** The scan of a payload that does not pass every check changes nothing and pays nothing. */
  lemma StoppedScanIsIdle(s: State, scan: Scan, id: Id, cents: nat, u: string, w: string,
                          charge: Option<Id>, read: string -> Option<real>, digest: string -> string, g: QrAnswer)
    requires IsPayloadOf(scan.text, id, cents, u, w) && !ScanGoesThrough(s, scan, id, cents, digest)
    ensures var o := PayScan(s, scan, charge, read, digest, g);
      && o.state == s
      && (o.reply == Replayed || o.reply == Refused(InvalidValue) || o.reply == Refused(Unauthenticated) || o.reply == Refused(InvalidPayload))
  {
    CheckOfPayload(scan.text, id, cents, u, w);
    if (scan.clientValue.Some? ==> scan.clientValue.value > 0) && scan.user in s.accounts && CrcCheck.ValidatePixCrc(scan.text) {
      StoppedIsDuplicate(s, scan, id, cents, charge, read, digest);
    }
    hide CrcCheck.ValidatePixCrc, Duplicate, RouteQr, ScanGoesThrough, IsPayloadOf, RouterEmv.ParseValue, Strip;
  }

  lemma StoppedIsDuplicate(s: State, scan: Scan, id: Id, cents: nat, charge: Option<Id>, read: string -> Option<real>, digest: string -> string)
    requires !ScanGoesThrough(s, scan, id, cents, digest)
    requires CrcText.Crc16(BrCodeRoundTrip.Body("11", id, Some(BrCode.FormatCents(cents)), "BioCodeTechPay")) != CrcCheck.CRC_TAG
    requires (scan.clientValue.Some? ==> scan.clientValue.value > 0) && scan.user in s.accounts
    ensures Duplicate(s, RequestOf(scan, charge, read, digest))
  {
    hide CrcText.Crc16, BrCodeRoundTrip.Body, BrCode.FormatCents, RouterEmv.ParseValue, Strip;
    if !KeyRepeated(s, scan) {
      var t :| t in s.txs && s.txs[t].owner == scan.user && s.txs[t].payloadHash == Some(digest(Strip(scan.text)))
               && (s.txs[t].status == Confirmed || s.txs[t].status == Processing);
      assert PaidByHash(s.txs[t], RequestOf(scan, charge, read, digest));
    }
  }

  ghost predicate KeyRepeated(s: State, scan: Scan) {
    scan.header.Some? && scan.header.value != "" && KeyUsed(s, scan.header.value)
  }
}

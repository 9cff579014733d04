/**
 * Fee arithmetic. Amounts are integer cents; the 0.80% rate of business accounts is applied in
 * thousandths of a cent so that the half-up rounding of the original decimals is explicit.
 */
module Fees {
  const NETWORK_FEE := 300
  const MAINTENANCE_FEE := 100
  const OUTBOUND_FLOOR := NETWORK_FEE + MAINTENANCE_FEE
  /** 0.80% of one cent, in thousandths of a cent. */
  const BUSINESS_RATE := 8
  /** What the gateway itself charges for one external transfer. */
  const GATEWAY_OUTBOUND_COST := 200

  function RawDigits(document: string): string {
    if document == "" then ""
    else (if '0' <= document[0] <= '9' then [document[0]] else []) + RawDigits(document[1..])
  }

  predicate IsBusiness(document: string) {
    |RawDigits(document)| == 14
  }

  function Max(a: int, b: int): int { if a >= b then a else b }

  /** num/den rounded half up, for non-negative num. */
  function RoundHalfUp(num: int, den: int): int
    requires num >= 0 && den > 0
  {
    (2 * num + den) / (2 * den)
  }

  function OutboundFee(document: string, amount: int): int {
    if IsBusiness(document)
    then RoundHalfUp(Max(BUSINESS_RATE * amount, 1000 * OUTBOUND_FLOOR), 1000)
    else OUTBOUND_FLOOR
  }

  /** Deposits are free for every account. */
  function ReceiveFee(document: string, amount: int): int { 0 }

  function PixFee(document: string, amount: int, isExternal: bool, isReceived: bool): int {
    if !isExternal then 0
    else if isReceived then ReceiveFee(document, amount)
    else OutboundFee(document, amount)
  }

  /** Rounding moves a charge by at most half a cent, and by less than half a cent downwards. */
  lemma BusinessFeeBounds(amount: int)
    ensures var fee := RoundHalfUp(Max(BUSINESS_RATE * amount, 1000 * OUTBOUND_FLOOR), 1000);
            && 1000 * fee - Max(BUSINESS_RATE * amount, 1000 * OUTBOUND_FLOOR) <= 500
            && Max(BUSINESS_RATE * amount, 1000 * OUTBOUND_FLOOR) - 1000 * fee < 500
            && fee >= OUTBOUND_FLOOR
  {
  }

  /** The outbound fee never decreases with the amount and never falls below the floor, so the
      platform always keeps at least its maintenance fee over the network fee; above the floor a
      business fee is within half a cent of 0.80%. */
  lemma OutboundFeeShape(document: string, small: int, large: int)
    requires small <= large
    ensures OUTBOUND_FLOOR <= OutboundFee(document, small) <= OutboundFee(document, large)
    ensures IsBusiness(document) && BUSINESS_RATE * large >= 1000 * OUTBOUND_FLOOR
            ==> -500 < 1000 * OutboundFee(document, large) - BUSINESS_RATE * large <= 500
    ensures OutboundFee(document, large) > OUTBOUND_FLOOR
            <==> IsBusiness(document) && BUSINESS_RATE * large >= 1000 * OUTBOUND_FLOOR + 500
  {
    BusinessFeeBounds(small);
    BusinessFeeBounds(large);
  }

  lemma {:induction false} RawDigitsAppend(x: string, y: string)
    ensures RawDigits(x + y) == RawDigits(x) + RawDigits(y)
    decreases |x|
  {
    if x == "" {
      assert x + y == y;
    } else {
      assert (x + y)[1..] == x[1..] + y;
      RawDigitsAppend(x[1..], y);
    }
  }

  /** Where the digits of a document are, however it is punctuated. */
  function DigitPlaces(document: string): set<int> {
    set i | 0 <= i < |document| && '0' <= document[i] <= '9'
  }

  lemma {:induction false} RawDigitsCount(document: string)
    ensures |RawDigits(document)| == |DigitPlaces(document)|
    decreases |document|
  {
    if document != "" {
      var n := |document| - 1;
      RawDigitsCount(document[..n]);
      assert document == document[..n] + [document[n]];
      RawDigitsAppend(document[..n], [document[n]]);
      assert DigitPlaces(document) == DigitPlaces(document[..n]) + if '0' <= document[n] <= '9' then {n} else {};
    }
  }

  /** What is charged, in cents: 4.00 for an external send of a person, or 0.80% rounded half up but at least
      4.00 for a document of fourteen digits; nothing for receiving or inside the bank. */
  lemma FeesInCents(document: string, amount: int)
    ensures |DigitPlaces(document)| != 14 ==> PixFee(document, amount, true, false) == 400
    ensures |DigitPlaces(document)| == 14 ==>
      PixFee(document, amount, true, false) == if 8 * amount <= 400_000 then 400 else (8 * amount + 500) / 1000
    ensures PixFee(document, amount, true, true) == 0
    ensures PixFee(document, amount, false, true) == 0 && PixFee(document, amount, false, false) == 0
    ensures NETWORK_FEE == 300 && MAINTENANCE_FEE == 100 && GATEWAY_OUTBOUND_COST == 200
  {
    RawDigitsCount(document);
  }

  function Total(amounts: seq<int>): int {
    if amounts == [] then 0 else amounts[0] + Total(amounts[1..])
  }

  function FeesOf(document: string, parts: seq<int>): int {
    if parts == [] then 0 else OutboundFee(document, parts[0]) + FeesOf(document, parts[1..])
  }

  lemma {:induction false} FeesOfParts(document: string, parts: seq<int>)
    requires IsBusiness(document)
    ensures 1000 * FeesOf(document, parts) >= BUSINESS_RATE * Total(parts) - 499 * |parts|
    ensures FeesOf(document, parts) >= OUTBOUND_FLOOR * |parts|
  {
    if parts != [] {
      FeesOfParts(document, parts[1..]);
      BusinessFeeBounds(parts[0]);
    }
  }

  /** Splitting one business transfer into n parts can lower the fee by less than (n+1)/2 cents. */
  lemma {:induction false} SplittingGainsLessThanRounding(document: string, parts: seq<int>)
    requires parts != [] && IsBusiness(document)
    ensures 2 * (OutboundFee(document, Total(parts)) - FeesOf(document, parts)) < |parts| + 1
  {
    FeesOfParts(document, parts);
    BusinessFeeBounds(Total(parts));
  }
}

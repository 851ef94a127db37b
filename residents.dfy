/** Resident reconciliation of the residents page: allotments are split by
    status, each allotment is joined with its booking and its rent-details
    record, and the residents who left owing money are picked out. */
module Residents {
  import opened Wrappers
  import opened Js
  import opened Lists

  /** The fields of a stored document; `m1 + m2` keeps m2's value on a shared
      key, as `{...o1, ...o2}` does. */
  type Record = map<string, Value>

  /** A fetched document: its store id and its fields. */
  datatype Doc = Doc(id: string, data: Record)

  /** The value of a field, or undefined. */
  function Field(r: Record, key: string): Option<Value>
  {
    if key in r then Some(r[key]) else None
  }

  /** The field holds a string, so `.split` can be called on it. */
  predicate HasText(r: Record, key: string)
  {
    key in r && r[key].Str?
  }

  // ---------------------------------------------------------------------------
  // Status partition
  // ---------------------------------------------------------------------------

  /** `item.data.status === status`: strict equality, so only the string
      itself matches. */
  predicate StatusIs(d: Doc, status: string)
  {
    Field(d.data, "status") == Some(Str(status))
  }

  /** `allotmentData.filter((item) => item.data.status === "live")`. */
  function LiveOf(allotments: seq<Doc>): (live: seq<Doc>)
    ensures |live| <= |allotments|
    ensures forall k :: 0 <= k < |live| ==> StatusIs(live[k], "live")
  {
    Filter(d => StatusIs(d, "live"), allotments)
  }

  /** `allotmentData.filter((item) => item.data.status === "left")`. */
  function LeftOf(allotments: seq<Doc>): (left: seq<Doc>)
    ensures |left| <= |allotments|
    ensures forall k :: 0 <= k < |left| ==> StatusIs(left[k], "left")
  {
    Filter(d => StatusIs(d, "left"), allotments)
  }

  /** The live and left lists are order-preserving sublists of the allotments
      holding exactly the documents with status "live" and "left"; no
      document is in both, and a document with any other status (or none) is
      in neither. */
  lemma StatusPartition(allotments: seq<Doc>, d: Doc)
    ensures d in LiveOf(allotments) <==> d in allotments && StatusIs(d, "live")
    ensures d in LeftOf(allotments) <==> d in allotments && StatusIs(d, "left")
    ensures !(d in LiveOf(allotments) && d in LeftOf(allotments))
    ensures !StatusIs(d, "live") && !StatusIs(d, "left") ==>
              d !in LiveOf(allotments) && d !in LeftOf(allotments)
    ensures IsSublist(LiveOf(allotments), allotments)
    ensures IsSublist(LeftOf(allotments), allotments)
  {
    FilterMembers(d => StatusIs(d, "live"), allotments, d);
    FilterMembers(d => StatusIs(d, "left"), allotments, d);
    FilterIsSublist(d => StatusIs(d, "live"), allotments);
    FilterIsSublist(d => StatusIs(d, "left"), allotments);
  }

  /** Live and left together never outnumber the allotments, and account for
      all of them exactly when every status is "live" or "left". */
  lemma PartitionSize(allotments: seq<Doc>)
    ensures |LiveOf(allotments)| + |LeftOf(allotments)| <= |allotments|
    ensures (forall k :: 0 <= k < |allotments| ==>
               StatusIs(allotments[k], "live") || StatusIs(allotments[k], "left")) ==>
            |LiveOf(allotments)| + |LeftOf(allotments)| == |allotments|
  {
    DisjointFiltersLength(d => StatusIs(d, "live"), d => StatusIs(d, "left"), allotments);
  }

  // ---------------------------------------------------------------------------
  // Three-way join
  // ---------------------------------------------------------------------------

  /** Documents whose field `key` is a string, so that splitting it cannot
      throw. */
  predicate AllHaveText(docs: seq<Doc>, key: string)
  {
    forall k :: 0 <= k < |docs| ==> HasText(docs[k].data, key)
  }

  /** `r.data[key].split("-")[1]` for a document whose field is a string. */
  function SecondToken(d: Doc, key: string): Option<string>
    requires HasText(d.data, key)
  {
    Token(d.data[key].s, 1)
  }

  /** `mergingBookingData.find((a) => a.id === token)`: a document id is a
      string, so an undefined token matches no booking. */
  function FindBooking(bookings: seq<Doc>, token: Option<string>): (b: Option<Doc>)
    ensures token.None? ==> b.None?
    ensures b.None? <==> forall k :: 0 <= k < |bookings| ==> Some(bookings[k].id) != token
    ensures b.Some? ==> exists j :: 0 <= j < |bookings| && bookings[j] == b.value &&
                                    Some(b.value.id) == token &&
                                    forall k :: 0 <= k < j ==> Some(bookings[k].id) != token
  {
    Find((a: Doc) => Some(a.id) == token, bookings)
  }

  /** The idNo token of a rent-details document, or undefined when its idNo
      holds no separator. The field is only consulted on documents whose idNo
      is a string (see MergeDocuments). */
  function IdNoToken(r: Doc): Option<string>
  {
    if HasText(r.data, "idNo") then SecondToken(r, "idNo") else None
  }

  /** `mergingRentDetailsData.find((r) => r.data.idNo.split("-")[1] === token)`:
      two undefined tokens are equal under `===`. */
  function FindRentDetails(rents: seq<Doc>, token: Option<string>): (rd: Option<Doc>)
    requires AllHaveText(rents, "idNo")
    ensures rd.None? <==> forall k :: 0 <= k < |rents| ==> SecondToken(rents[k], "idNo") != token
    ensures rd.Some? ==> exists j :: 0 <= j < |rents| && rents[j] == rd.value &&
                                     SecondToken(rd.value, "idNo") == token &&
                                     forall k :: 0 <= k < j ==> SecondToken(rents[k], "idNo") != token
  {
    Find((r: Doc) => IdNoToken(r) == token, rents)
  }

  /** The fields `...doc?.data` spreads: none for an undefined document.
      The language's own spread; its effect is stated by `MergeRecord`. */
  function Spread(d: Option<Doc>): Record
  {
    match d
    case Some(doc) => doc.data
    case None => map[]
  }

  /** `{...booking?.data, ...filter?.data, ...rentDetails?.data}`: every key
      of the three sources appears, and on a collision the rent-details value
      beats the allotment value, which beats the booking value. */
  function MergeRecord(booking: Option<Doc>, allotment: Doc, rent: Option<Doc>): (m: Record)
    ensures forall k :: k in m <==> k in Spread(booking) || k in allotment.data || k in Spread(rent)
    ensures forall k :: k in Spread(rent) ==> m[k] == Spread(rent)[k]
    ensures forall k :: k !in Spread(rent) && k in allotment.data ==> m[k] == allotment.data[k]
    ensures forall k :: k !in Spread(rent) && k !in allotment.data && k in Spread(booking) ==>
              m[k] == Spread(booking)[k]
  {
    Spread(booking) + allotment.data + Spread(rent)
  }

  /** The join token of an allotment: the second piece of its name. */
  function NameToken(a: Doc): Option<string>
    requires HasText(a.data, "name")
  {
    SecondToken(a, "name")
  }

  /** `mergeDocuments(bookings, allotments, rents)`: one merged record per
      allotment, in the allotments' order, each the merge of the allotment
      with the first booking and the first rent-details document whose tokens
      match its name token. */
  function MergeDocuments(bookings: seq<Doc>, allotments: seq<Doc>, rents: seq<Doc>): (r: seq<Record>)
    requires AllHaveText(allotments, "name")
    requires AllHaveText(rents, "idNo")
    ensures |r| == |allotments|
    ensures forall i :: 0 <= i < |r| ==>
              r[i] == MergeRecord(FindBooking(bookings, NameToken(allotments[i])),
                                  allotments[i],
                                  FindRentDetails(rents, NameToken(allotments[i])))
  {
    seq(|allotments|, i requires 0 <= i < |allotments| =>
      var token := NameToken(allotments[i]);
      MergeRecord(FindBooking(bookings, token), allotments[i], FindRentDetails(rents, token)))
  }

  /** An allotment whose name has no separator brings in no booking fields:
      only allotment and rent-details fields can appear in its merged record. */
  lemma NoSeparatorNoBooking(bookings: seq<Doc>, allotments: seq<Doc>, rents: seq<Doc>, i: nat)
    requires AllHaveText(allotments, "name") && AllHaveText(rents, "idNo")
    requires i < |allotments|
    requires Sep !in allotments[i].data["name"].s
    ensures forall k :: k in MergeDocuments(bookings, allotments, rents)[i] ==>
              k in allotments[i].data || k in Spread(FindRentDetails(rents, None))
  {
    assert NameToken(allotments[i]) == None;
  }

  /** The merged record of an allotment keeps each of its own fields unless
      the joined rent-details document has the same key. */
  lemma AllotmentFieldsSurvive(bookings: seq<Doc>, allotments: seq<Doc>, rents: seq<Doc>, i: nat, key: string)
    requires AllHaveText(allotments, "name") && AllHaveText(rents, "idNo")
    requires i < |allotments|
    requires key in allotments[i].data
    requires key !in Spread(FindRentDetails(rents, NameToken(allotments[i])))
    ensures key in MergeDocuments(bookings, allotments, rents)[i]
    ensures MergeDocuments(bookings, allotments, rents)[i][key] == allotments[i].data[key]
  {
  }

  /** An allotment named `p-id` and a rent-details document numbered `q-id`
      are both joined with the booking whose id is `id`: the merged record
      is booking fields, then allotment fields, then rent-details fields.
      With booking "42" holding a deposit of 1000, allotment "B-42" and rent
      details "R-42" holding 200 paid, the record carries both amounts. */
  lemma JoinScenario(id: string, p: string, q: string, allotmentId: string, rentId: string,
                     b: Record, a: Record, r: Record)
    requires Sep !in id && Sep !in p && Sep !in q
    requires "name" in a && a["name"] == Str(p + [Sep] + id)
    requires "idNo" in r && r["idNo"] == Str(q + [Sep] + id)
    ensures MergeDocuments([Doc(id, b)], [Doc(allotmentId, a)], [Doc(rentId, r)]) == [b + a + r]
  {
    var booking := Doc(id, b);
    var allotment := Doc(allotmentId, a);
    var rent := Doc(rentId, r);
    assert Join([p, id]) == p + [Sep] + id;
    assert Join([q, id]) == q + [Sep] + id;
    TokenOfJoin([p, id], 1);
    TokenOfJoin([q, id], 1);
    assert NameToken(allotment) == Some(id);
    assert SecondToken(rent, "idNo") == Some(id);
    assert FindBooking([booking], Some(id)) == Some(booking);
    assert FindRentDetails([rent], Some(id)) == Some(rent);
  }

  // ---------------------------------------------------------------------------
  // Arrears
  // ---------------------------------------------------------------------------

  /** `Number(item[key])`. */
  function Amount(item: Record, key: string): Option<int>
  {
    ToNumber(Field(item, key))
  }

  /** The amount field is NaN under `Number(...)`: missing (undefined), a
      nested object, or text that is not a number. */
  predicate NaNField(item: Record, key: string)
  {
    key !in item || item[key].Obj? || (item[key].Str? && ParseNumber(item[key].s).None?)
  }

  /** deposit + monthlyRent + miscellaneous - (paidAmount + advanceDeposit),
      NaN (None) exactly when one of the five fields is missing, an object,
      or text that does not read as a number. */
  function Receivable(item: Record): (r: Option<int>)
    ensures r.None? <==>
              NaNField(item, "deposit") || NaNField(item, "monthlyRent") ||
              NaNField(item, "miscellaneous") || NaNField(item, "paidAmount") ||
              NaNField(item, "advanceDeposit")
    ensures r.Some? ==>
              r.value == Amount(item, "deposit").value + Amount(item, "monthlyRent").value +
                         Amount(item, "miscellaneous").value -
                         (Amount(item, "paidAmount").value + Amount(item, "advanceDeposit").value)
  {
    var totalAmount := Plus(Plus(Amount(item, "deposit"), Amount(item, "monthlyRent")),
                            Amount(item, "miscellaneous"));
    var amountPaid := Plus(Amount(item, "paidAmount"), Amount(item, "advanceDeposit"));
    Minus(totalAmount, amountPaid)
  }

  /** `receivable > 0`; a comparison with NaN is false, so an owing record
      has all five amount fields. */
  predicate Owes(item: Record): (owes: bool)
    ensures owes ==> "deposit" in item && "monthlyRent" in item && "miscellaneous" in item &&
                     "paidAmount" in item && "advanceDeposit" in item
  {
    var receivable := Receivable(item);
    receivable.Some? && receivable.value > 0
  }

  /** A record owes exactly when all five amounts are numbers and what is owed
      exceeds what is paid; NaN in any amount, or a receivable of exactly 0,
      means it does not. */
  lemma OwesIff(item: Record)
    ensures Owes(item) <==>
              Amount(item, "deposit").Some? && Amount(item, "monthlyRent").Some? &&
              Amount(item, "miscellaneous").Some? && Amount(item, "paidAmount").Some? &&
              Amount(item, "advanceDeposit").Some? &&
              Amount(item, "deposit").value + Amount(item, "monthlyRent").value +
                Amount(item, "miscellaneous").value >
              Amount(item, "paidAmount").value + Amount(item, "advanceDeposit").value
    ensures Receivable(item) == Some(0) ==> !Owes(item)
  {
  }

  /** A missing amount field is undefined, Number(undefined) is NaN, so the
      record is never counted as owing. */
  lemma MissingAmountNeverOwes(item: Record, key: string)
    requires key in {"deposit", "monthlyRent", "miscellaneous", "paidAmount", "advanceDeposit"}
    requires key !in item
    ensures !Owes(item)
  {
  }

  /** `leftDataList.filter(item => receivable > 0)`. */
  function WithoutPaying(records: seq<Record>): (owing: seq<Record>)
    ensures |owing| <= |records|
    ensures forall k :: 0 <= k < |owing| ==> Owes(owing[k])
  {
    Filter(Owes, records)
  }

  /** The owing list is an order-preserving sublist of its input, holding
      exactly the records that owe, unchanged. */
  lemma WithoutPayingSpec(records: seq<Record>, item: Record)
    ensures item in WithoutPaying(records) <==> item in records && Owes(item)
    ensures IsSublist(WithoutPaying(records), records)
    ensures (forall k :: 0 <= k < |records| ==> Owes(records[k])) ==> WithoutPaying(records) == records
  {
    FilterMembers(Owes, records, item);
    FilterIsSublist(Owes, records);
    if forall k :: 0 <= k < |records| ==> Owes(records[k]) {
      FilterKeepsAll(Owes, records);
    }
  }

  /** Owing 1000 + 500 + 0 with 200 + 0 paid leaves 1300 receivable, so the
      record is kept; with 1500 paid it is dropped. */
  lemma ArrearsScenario()
    ensures Owes(map["deposit" := Num(1000), "monthlyRent" := Num(500), "miscellaneous" := Num(0),
                     "paidAmount" := Num(200), "advanceDeposit" := Num(0)])
    ensures !Owes(map["deposit" := Num(1000), "monthlyRent" := Num(500), "miscellaneous" := Num(0),
                      "paidAmount" := Num(1500), "advanceDeposit" := Num(0)])
  {
  }

  // ---------------------------------------------------------------------------
  // Component state
  // ---------------------------------------------------------------------------

  /** The state of the residents page. Each method is one of the page's
      effects; the fetched collections are their inputs. */
  class ResidentsData {
    var liveResidents: seq<Doc>
    var leftResidents: seq<Doc>
    var liveDataList: seq<Record>
    var leftDataList: seq<Record>
    var leftWithoutPaying: seq<Record>

    /** Every list starts empty. */
    constructor ()
      ensures liveResidents == [] && leftResidents == []
      ensures liveDataList == [] && leftDataList == [] && leftWithoutPaying == []
    {
      liveResidents, leftResidents := [], [];
      liveDataList, leftDataList, leftWithoutPaying := [], [], [];
    }

    /** The effect on `allotmentData` that keeps the live residents. */
    method FilterLiveResidents(allotmentData: seq<Doc>)
      modifies this
      ensures liveResidents == LiveOf(allotmentData)
      ensures leftResidents == old(leftResidents)
      ensures liveDataList == old(liveDataList) && leftDataList == old(leftDataList)
      ensures leftWithoutPaying == old(leftWithoutPaying)
    {
      var response := LiveOf(allotmentData);
      liveResidents := response;
    }

    /** The effect on `allotmentData` that keeps the residents who left. */
    method FilterLeftResidents(allotmentData: seq<Doc>)
      modifies this
      ensures leftResidents == LeftOf(allotmentData)
      ensures liveResidents == old(liveResidents)
      ensures liveDataList == old(liveDataList) && leftDataList == old(leftDataList)
      ensures leftWithoutPaying == old(leftWithoutPaying)
    {
      var response := LeftOf(allotmentData);
      leftResidents := response;
    }

    /** The effect that rebuilds `leftDataList`, only when bookings, left
        residents and rent details are all non-empty. */
    method MergeLeftResidents(bookingData: seq<Doc>, rentDetailsData: seq<Doc>)
      requires |bookingData| > 0 && |leftResidents| > 0 && |rentDetailsData| > 0 ==>
                 AllHaveText(leftResidents, "name") && AllHaveText(rentDetailsData, "idNo")
      modifies this
      ensures var recompute := |bookingData| > 0 && |old(leftResidents)| > 0 && |rentDetailsData| > 0;
              leftDataList == if recompute then MergeDocuments(bookingData, old(leftResidents), rentDetailsData)
                              else old(leftDataList)
      ensures liveResidents == old(liveResidents) && leftResidents == old(leftResidents)
      ensures liveDataList == old(liveDataList) && leftWithoutPaying == old(leftWithoutPaying)
    {
      if |bookingData| > 0 && |leftResidents| > 0 && |rentDetailsData| > 0 {
        var merged := MergeDocuments(bookingData, leftResidents, rentDetailsData);
        leftDataList := merged;
      }
    }

    /** The effect that rebuilds `liveDataList`, only when bookings, live
        residents and rent details are all non-empty. */
    method MergeLiveResidents(bookingData: seq<Doc>, rentDetailsData: seq<Doc>)
      requires |bookingData| > 0 && |liveResidents| > 0 && |rentDetailsData| > 0 ==>
                 AllHaveText(liveResidents, "name") && AllHaveText(rentDetailsData, "idNo")
      modifies this
      ensures var recompute := |bookingData| > 0 && |old(liveResidents)| > 0 && |rentDetailsData| > 0;
              liveDataList == if recompute then MergeDocuments(bookingData, old(liveResidents), rentDetailsData)
                              else old(liveDataList)
      ensures liveResidents == old(liveResidents) && leftResidents == old(leftResidents)
      ensures leftDataList == old(leftDataList) && leftWithoutPaying == old(leftWithoutPaying)
    {
      if |bookingData| > 0 && |liveResidents| > 0 && |rentDetailsData| > 0 {
        var merged := MergeDocuments(bookingData, liveResidents, rentDetailsData);
        liveDataList := merged;
      }
    }

    /** The effect on `leftDataList` that keeps the residents who left owing
        money. */
    method DataWithoutPaid()
      modifies this
      ensures leftWithoutPaying == WithoutPaying(old(leftDataList))
      ensures liveResidents == old(liveResidents) && leftResidents == old(leftResidents)
      ensures liveDataList == old(liveDataList) && leftDataList == old(leftDataList)
    {
      var result := WithoutPaying(leftDataList);
      leftWithoutPaying := result;
    }
  }
}

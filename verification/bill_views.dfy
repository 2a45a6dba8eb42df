/**
 * The data shaping behind the bill detail page in `server_py/flatgov/bills/views.py`: bill-id
 * conversion, the sponsor label, committee deduplication, the "identical bill" rule over the
 * similar-bill list, the bill-number lists the related-document lookups use, the merged
 * cosponsor roster across identical bills, and the display order of a bill's cosponsors.
 * Database queries and helpers defined elsewhere in the application are parameters.
 */
module BillViews {
  import opened Wrappers
  import opened PyValues
  import opened PyStrings
  import opened Seqs
  import BillData

  /** The largest fraction by which a score may differ from the bill's own and still count as identical. */
  const SIMILARITY_THRESHOLD: real := 0.1

  /** Reasons that make a similar bill identical by themselves. */
  const IDENTICAL_REASONS: seq<string> := ["identical", "nearly identical", "title match (main)"]

  // ----- bill ids and the sponsor label -----

  /** `billIdToBillNumber(bill_id)`: `''.join(reversed(bill_id.split('-')))`. */
  function BillIdToBillNumber(billId: string): string {
    Concat(Reverse(Split(billId, "-")))
  }

  /** The result drops exactly the hyphens: it is as long as the id without them. */
  lemma BillIdToBillNumberLength(billId: string)
    ensures |BillIdToBillNumber(billId)| == |billId| - Count(billId, '-')
  {
    ConcatLength(Reverse(Split(billId, "-")));
    SumLengthsReverse(Split(billId, "-"));
    SplitSumLengths(billId, '-');
  }

  /** An id without a hyphen is returned unchanged. */
  lemma BillIdToBillNumberNoHyphen(billId: string)
    requires '-' !in billId
    ensures BillIdToBillNumber(billId) == billId
  {
    SplitWithoutSep(billId, '-');
    assert Reverse([billId]) == [billId];
    assert Concat([billId]) == billId + Concat([]);
  }

  /** `type-congress` becomes `congress` followed by `type`. */
  lemma BillIdToBillNumberOfPair(billType: string, congress: string)
    requires '-' !in billType && '-' !in congress
    ensures BillIdToBillNumber(billType + "-" + congress) == congress + billType
  {
    assert billType + "-" + congress == billType + ['-'] + congress;
    SplitAppend(billType, '-', congress);
    SplitWithoutSep(billType, '-');
    SplitWithoutSep(congress, '-');
    assert Split(billType + "-" + congress, "-") == [billType, congress];
    assert Reverse([billType, congress]) == [congress, billType];
    assert [congress, billType][1..] == [billType] && [billType][1..] == [];
    assert Concat([billType]) == billType;
    assert Concat([congress, billType]) == congress + billType;
  }

  /** The documented example: `hr299-116` becomes `116hr299`. */
  lemma BillIdToBillNumberExample()
    ensures BillIdToBillNumber("hr299-116") == "116hr299"
  {
    ExampleIdParts();
    BillIdToBillNumberOfPair("hr299", "116");
  }

  lemma ExampleIdParts()
    ensures '-' !in "hr299" && '-' !in "116"
    ensures "hr299-116" == "hr299" + "-" + "116" && "116" + "hr299" == "116hr299"
  {
  }

  /**
   * The view's conversion and the aggregator's key agree on a two-part id: both put the
   * congress before the bill type and number.
   */
  lemma BillIdConversionsAgree(doc: PyDict, billType: string, congress: string)
    requires '-' !in billType && '-' !in congress
    requires Get(doc, "bill_id") == Str(billType + "-" + congress)
    ensures BillData.GetBillCongressTypeNumber(doc) == Success(Some(BillIdToBillNumber(billType + "-" + congress)))
  {
    assert billType + "-" + congress + "" == billType + "-" + congress;
    BillData.BillCongressTypeNumberOf(doc, billType, congress, "");
    BillIdToBillNumberOfPair(billType, congress);
  }

  /**
   * A state or district as it enters the label: a falsy value (missing, None, empty) gives
   * the empty string; a non-string value cannot be concatenated.
   */
  function LabelPart(v: Value): Result<string> {
    if !Truthy(v) then Success("")
    else if v.Str? then Success(v.s)
    else Failure(TypeError)
  }

  /** `makeSponsorBracket(sponsor, party)`: `[party-StateDistrict]`. */
  function MakeSponsorBracket(sponsor: PyDict, party: string): (r: Result<string>)
    ensures r.Success? <==> LabelPart(GetOr(sponsor, "state", Str(""))).Success?
                            && LabelPart(GetOr(sponsor, "district", Str(""))).Success?
  {
    var state :- LabelPart(GetOr(sponsor, "state", Str("")));
    var district :- LabelPart(GetOr(sponsor, "district", Str("")));
    Success("[" + party + "-" + state + district + "]")
  }

  /**
   * The label can be read back: the party sits between `[` and the first `-` after it, and the
   * state and district follow up to the closing `]`; a missing state and district leave `[party-]`.
   */
  lemma SponsorBracketParts(sponsor: PyDict, party: string)
    requires MakeSponsorBracket(sponsor, party).Success?
    ensures var r := MakeSponsorBracket(sponsor, party).value;
      var state := LabelPart(GetOr(sponsor, "state", Str(""))).value;
      var district := LabelPart(GetOr(sponsor, "district", Str(""))).value;
      && |r| == |party| + |state| + |district| + 3
      && r[0] == '[' && r[1..|party| + 1] == party && r[|party| + 1] == '-'
      && r[|party| + 2..|r| - 1] == state + district && r[|r| - 1] == ']'
    ensures "state" !in sponsor && "district" !in sponsor ==> MakeSponsorBracket(sponsor, party).value == "[" + party + "-]"
  {
  }

  // ----- committees -----

  /** `committeeItem.get('committee', '')`. */
  function CommitteeKey(item: PyDict): Value {
    GetOr(item, "committee", Str(""))
  }

  /** The committees kept from a list: the first item for each non-empty committee, in order. */
  function DedupByCommittee(items: seq<PyDict>): seq<PyDict>
    decreases |items|
  {
    if items == [] then []
    else
      var kept := DedupByCommittee(items[..|items| - 1]);
      var item := items[|items| - 1];
      if !Truthy(CommitteeKey(item)) || CommitteeKey(item) in Map(kept, CommitteeKey) then kept
      else kept + [item]
  }

  /**
   * `get_committees_dict_deduped()`: nothing for a falsy `committees_dict`; otherwise walk the
   * committee items, skipping those with an empty committee or a committee already seen.
   */
  method CommitteesDictDeduped(committeesDict: Value) returns (r: Result<seq<PyDict>>)
    ensures !Truthy(committeesDict) ==> r == Success([])
    ensures Truthy(committeesDict) ==>
      (r.Success? <==> DictItems(committeesDict).Success?)
      && (r.Success? ==> r.value == DedupByCommittee(DictItems(committeesDict).value))
  {
    if !Truthy(committeesDict) {
      return Success([]);
    }
    var items := DictItems(committeesDict);
    if items.Failure? {
      return Failure(items.error);
    }
    var deduped: seq<PyDict> := [];
    var seen: seq<Value> := [];
    for i := 0 to |items.value|
      invariant deduped == DedupByCommittee(items.value[..i])
      invariant seen == Map(deduped, CommitteeKey)
    {
      assert items.value[..i + 1][..i] == items.value[..i];
      var committeeItem := items.value[i];
      var k := CommitteeKey(committeeItem);
      if !Truthy(k) || k in seen {
        continue;
      }
      seen := seen + [k];
      deduped := deduped + [committeeItem];
    }
    assert items.value[..|items.value|] == items.value;
    return Success(deduped);
  }

  /** The kept committees appear in the input in the same order. */
  lemma {:induction false} DedupByCommitteeSubsequence(items: seq<PyDict>)
    ensures IsSubsequence(DedupByCommittee(items), items)
    decreases |items|
  {
    if items != [] {
      var pre, last := items[..|items| - 1], items[|items| - 1];
      DedupByCommitteeSubsequence(pre);
      assert items == pre + [last];
      if DedupByCommittee(items) == DedupByCommittee(pre) {
        SubsequenceExtend(DedupByCommittee(pre), pre, last);
      } else {
        SubsequenceExtendBoth(DedupByCommittee(pre), pre, last);
      }
    }
  }

  /**
   * Every kept item has a non-empty committee, no two share one, and every non-empty committee
   * of the input is kept.
   */
  lemma {:induction false} DedupByCommitteeKeys(items: seq<PyDict>)
    ensures Distinct(Map(DedupByCommittee(items), CommitteeKey))
    ensures forall k :: k in Map(DedupByCommittee(items), CommitteeKey) <==> Truthy(k) && HasCommittee(items, k)
    decreases |items|
  {
    if items != [] {
      var pre, last := items[..|items| - 1], items[|items| - 1];
      DedupByCommitteeKeys(pre);
      var kept := DedupByCommittee(pre);
      if DedupByCommittee(items) != kept {
        assert Map(kept + [last], CommitteeKey) == Map(kept, CommitteeKey) + [CommitteeKey(last)];
      }
      KeysSnoc(items);
    }
  }

  /** Some item of the list has committee `k`. */
  predicate HasCommittee(items: seq<PyDict>, k: Value) {
    exists i :: 0 <= i < |items| && CommitteeKey(items[i]) == k
  }

  /** The committees of a list are those of all but its last item, and the last item's. */
  lemma KeysSnoc(items: seq<PyDict>)
    requires items != []
    ensures forall k :: HasCommittee(items, k) <==>
      HasCommittee(items[..|items| - 1], k) || CommitteeKey(items[|items| - 1]) == k
  {
    var pre := items[..|items| - 1];
    assert forall i :: 0 <= i < |pre| ==> pre[i] == items[i];
    forall k | HasCommittee(items, k) && CommitteeKey(items[|items| - 1]) != k
      ensures HasCommittee(pre, k)
    {
      var i :| 0 <= i < |items| && CommitteeKey(items[i]) == k;
      assert CommitteeKey(pre[i]) == k;
    }
  }

  /** Item `i` has a non-empty committee that no earlier item has. */
  predicate FirstOfCommittee(items: seq<PyDict>, i: nat) {
    && i < |items|
    && Truthy(CommitteeKey(items[i]))
    && forall j :: 0 <= j < i ==> CommitteeKey(items[j]) != CommitteeKey(items[i])
  }

  lemma FirstOfCommitteePrefix(items: seq<PyDict>, i: nat)
    requires i < |items| - 1
    ensures FirstOfCommittee(items, i) <==> FirstOfCommittee(items[..|items| - 1], i)
  {
    var pre := items[..|items| - 1];
    assert forall j :: 0 <= j <= i ==> pre[j] == items[j];
  }

  /** The first item of each non-empty committee is kept. */
  lemma {:induction false} DedupByCommitteeFirst(items: seq<PyDict>, i: nat)
    requires i < |items|
    ensures FirstOfCommittee(items, i) ==> items[i] in DedupByCommittee(items)
    decreases |items|
  {
    var pre := items[..|items| - 1];
    if i < |pre| {
      DedupByCommitteeFirst(pre, i);
      FirstOfCommitteePrefix(items, i);
      assert pre[i] == items[i];
    } else if FirstOfCommittee(items, i) {
      DedupByCommitteeKeys(pre);
      assert forall j :: 0 <= j < |pre| ==> pre[j] == items[j];
    }
  }

  /** Every kept item is the first item of its non-empty committee. */
  lemma {:induction false} DedupByCommitteeKeptFirst(items: seq<PyDict>)
    ensures forall x :: x in DedupByCommittee(items) ==>
      exists i: nat :: FirstOfCommittee(items, i) && items[i] == x
    decreases |items|
  {
    if items != [] {
      var pre, last := items[..|items| - 1], items[|items| - 1];
      DedupByCommitteeKeptFirst(pre);
      var kept := DedupByCommittee(pre);
      forall x | x in DedupByCommittee(items)
        ensures exists i: nat :: FirstOfCommittee(items, i) && items[i] == x
      {
        if x in kept {
          var i: nat :| FirstOfCommittee(pre, i) && pre[i] == x;
          FirstOfCommitteePrefix(items, i);
          assert items[i] == x;
        } else {
          assert x == last && DedupByCommittee(items) == kept + [last];
          DedupByCommitteeKeys(pre);
          forall j | 0 <= j < |pre| ensures CommitteeKey(items[j]) != CommitteeKey(last) {
            assert pre[j] == items[j];
            assert HasCommittee(pre, CommitteeKey(pre[j]));
          }
          assert FirstOfCommittee(items, |pre|);
        }
      }
    }
  }

  /** `{c.get('committee_id'): c.get('committee') for c in deduped}`: a later item wins a shared id. */
  function CommitteesMapOf(deduped: seq<PyDict>): map<Value, Value>
    decreases |deduped|
  {
    if deduped == [] then map[]
    else
      var last := deduped[|deduped| - 1];
      CommitteesMapOf(deduped[..|deduped| - 1])[Get(last, "committee_id") := Get(last, "committee")]
  }

  /** `committee.get('committee_id')`. */
  function CommitteeIdOf(item: PyDict): Value {
    Get(item, "committee_id")
  }

  /** The map's keys are exactly the committee ids of the kept items. */
  lemma {:induction false} CommitteesMapKeys(deduped: seq<PyDict>)
    ensures forall id :: id in CommitteesMapOf(deduped) <==> id in Map(deduped, CommitteeIdOf)
    decreases |deduped|
  {
    if deduped != [] {
      var pre := deduped[..|deduped| - 1];
      CommitteesMapKeys(pre);
      assert Map(deduped, CommitteeIdOf) == Map(pre, CommitteeIdOf) + [CommitteeIdOf(deduped[|deduped| - 1])];
    }
  }

  /** Each id maps to the committee of the last kept item with that id. */
  lemma {:induction false} CommitteesMapValues(deduped: seq<PyDict>, i: nat)
    requires i < |deduped|
    requires forall j :: i < j < |deduped| ==> CommitteeIdOf(deduped[j]) != CommitteeIdOf(deduped[i])
    ensures CommitteeIdOf(deduped[i]) in CommitteesMapOf(deduped)
    ensures CommitteesMapOf(deduped)[CommitteeIdOf(deduped[i])] == Get(deduped[i], "committee")
    decreases |deduped|
  {
    var pre := deduped[..|deduped| - 1];
    if i < |pre| {
      assert forall j :: i < j < |pre| ==> pre[j] == deduped[j];
      CommitteesMapValues(pre, i);
      assert pre[i] == deduped[i];
    }
  }

  /** `get_committees_map()`: the map over the deduplicated committees. */
  function GetCommitteesMap(committeesDict: Value): (r: Result<map<Value, Value>>)
    ensures r.Success? <==> !Truthy(committeesDict) || DictItems(committeesDict).Success?
  {
    if !Truthy(committeesDict) then Success(map[])
    else
      var items :- DictItems(committeesDict);
      Success(CommitteesMapOf(DedupByCommittee(items)))
  }

  /**
   * When the kept committees carry distinct ids, the map sends each kept committee's id to that
   * committee.
   */
  lemma CommitteesMapOfDeduped(items: seq<PyDict>)
    requires Distinct(Map(DedupByCommittee(items), CommitteeIdOf))
    ensures var d := DedupByCommittee(items);
      forall i :: 0 <= i < |d| ==>
        CommitteeIdOf(d[i]) in CommitteesMapOf(d) && CommitteesMapOf(d)[CommitteeIdOf(d[i])] == Get(d[i], "committee")
  {
    var d := DedupByCommittee(items);
    forall i | 0 <= i < |d|
      ensures CommitteeIdOf(d[i]) in CommitteesMapOf(d) && CommitteesMapOf(d)[CommitteeIdOf(d[i])] == Get(d[i], "committee")
    {
      assert forall j :: i < j < |d| ==> Map(d, CommitteeIdOf)[j] != Map(d, CommitteeIdOf)[i];
      CommitteesMapValues(d, i);
    }
  }

  // ----- similar bills and the "identical bill" rule -----

  /** One entry of the bill's similar-bill list: its bill number (absent in some entries), score and reason text. */
  datatype SimilarBill = SimilarBill(number: Option<string>, score: real, reason: string)

  /** `bill.get('bill_congress_type_number', '')`. */
  function NumberOrEmpty(bill: SimilarBill): string {
    bill.number.GetOr("")
  }

  /** `get_billnumbers_similar()`. */
  function BillNumbersSimilar(bills: seq<SimilarBill>): seq<string> {
    Map(bills, NumberOrEmpty)
  }

  /** The first similar bill whose number is `n`, as `next(filter(...))` finds it. */
  function FindNumber(bills: seq<SimilarBill>, n: string): (i: Option<nat>)
    ensures i.Some? ==> i.value < |bills| && bills[i.value].number == Some(n)
                        && forall j :: 0 <= j < i.value ==> bills[j].number != Some(n)
    ensures i.None? ==> forall j :: 0 <= j < |bills| ==> bills[j].number != Some(n)
    decreases |bills|
  {
    if bills == [] then None
    else if bills[0].number == Some(n) then Some(0)
    else
      match FindNumber(bills[1..], n)
      case None => None
      case Some(i) => Some(i + 1)
  }

  /**
   * `get_current_bill_score()`: when the bill's own number is among the similar bills' numbers,
   * the score of the first similar bill carrying it; otherwise 0. The membership test reads a
   * missing number as '' but the search does not.
   */
  function CurrentBillScore(current: string, bills: seq<SimilarBill>): Result<real> {
    if current in BillNumbersSimilar(bills) then
      match FindNumber(bills, current)
      case Some(i) => Success(bills[i].score)
      case None => Failure(StopIteration)
    else Success(0.0)
  }

  /**
   * The score is the first own-number entry's score, or 0 when there is none. It fails only for
   * an empty own number when some entry lacks a number and none carries the empty one.
   */
  lemma CurrentBillScoreSpec(current: string, bills: seq<SimilarBill>)
    ensures FindNumber(bills, current).Some? ==>
      CurrentBillScore(current, bills) == Success(bills[FindNumber(bills, current).value].score)
    ensures FindNumber(bills, current).None? && current != "" ==> CurrentBillScore(current, bills) == Success(0.0)
    ensures CurrentBillScore(current, bills).Failure? <==>
      current == "" && FindNumber(bills, current).None? && exists j :: 0 <= j < |bills| && bills[j].number.None?
  {
    var i := FindNumber(bills, current);
    if i.Some? {
      assert BillNumbersSimilar(bills)[i.value] == current;
    }
    if current in BillNumbersSimilar(bills) {
      var j :| 0 <= j < |bills| && BillNumbersSimilar(bills)[j] == current;
      assert NumberOrEmpty(bills[j]) == current;
    }
    if current == "" && exists j :: 0 <= j < |bills| && bills[j].number.None? {
      var j :| 0 <= j < |bills| && bills[j].number.None?;
      assert BillNumbersSimilar(bills)[j] == "";
    }
  }

  function Abs(x: real): real {
    if x < 0.0 then -x else x
  }

  /** One of the identical-reason phrases is among the bill's cleaned reasons. */
  predicate ReasonMatches(bill: SimilarBill, cleanReasons: seq<string> -> seq<string>) {
    exists x :: x in IDENTICAL_REASONS && x in cleanReasons(Split(bill.reason, ", "))
  }

  /** The bill's score is within SIMILARITY_THRESHOLD of the current score, relative to it. */
  predicate ScoreClose(bill: SimilarBill, current: real) {
    current > 0.0 && Abs(bill.score - current) / current < SIMILARITY_THRESHOLD
  }

  /** A similar bill counts as identical by its reasons or by the closeness of its score. */
  predicate IsIdentical(bill: SimilarBill, current: real, cleanReasons: seq<string> -> seq<string>) {
    ReasonMatches(bill, cleanReasons) || ScoreClose(bill, current)
  }

  /** Closeness in score means lying strictly within 10% of the current score on either side. */
  lemma ScoreCloseBounds(bill: SimilarBill, current: real)
    requires current > 0.0
    ensures ScoreClose(bill, current) <==>
      current - current * SIMILARITY_THRESHOLD < bill.score < current + current * SIMILARITY_THRESHOLD
  {
    DivLess(Abs(bill.score - current), current, SIMILARITY_THRESHOLD);
  }

  lemma DivLess(d: real, c: real, t: real)
    requires c > 0.0
    ensures d / c < t <==> d < t * c
  {
    var q := d / c;
    assert q * c == d;
    if q < t {
      assert q * c < t * c;
    } else {
      assert t * c <= q * c;
    }
  }

  /**
   * The numbers of the identical similar bills, in list order, empty numbers dropped (the two
   * comprehensions of `get_identical_bill_numbers`).
   */
  function IdenticalNumbers(bills: seq<SimilarBill>, current: real, cleanReasons: seq<string> -> seq<string>): seq<string>
    decreases |bills|
  {
    if bills == [] then []
    else
      var last := bills[|bills| - 1];
      IdenticalNumbers(bills[..|bills| - 1], current, cleanReasons)
        + (if IsIdentical(last, current, cleanReasons) && NumberOrEmpty(last) != "" then [NumberOrEmpty(last)] else [])
  }

  /** Some similar bill with number `n` counts as identical. */
  predicate HasIdentical(bills: seq<SimilarBill>, n: string, current: real, cleanReasons: seq<string> -> seq<string>) {
    exists j :: 0 <= j < |bills| && NumberOrEmpty(bills[j]) == n && IsIdentical(bills[j], current, cleanReasons)
  }

  /** A number is selected exactly when it is non-empty and some similar bill with it qualifies. */
  lemma {:induction false} IdenticalNumbersMembers(bills: seq<SimilarBill>, current: real, cleanReasons: seq<string> -> seq<string>)
    ensures forall n :: n in IdenticalNumbers(bills, current, cleanReasons) <==>
      n != "" && HasIdentical(bills, n, current, cleanReasons)
    decreases |bills|
  {
    if bills != [] {
      var pre, last := bills[..|bills| - 1], bills[|bills| - 1];
      IdenticalNumbersMembers(pre, current, cleanReasons);
      forall n ensures HasIdentical(bills, n, current, cleanReasons) <==>
        HasIdentical(pre, n, current, cleanReasons) || (NumberOrEmpty(last) == n && IsIdentical(last, current, cleanReasons))
      {
        if HasIdentical(bills, n, current, cleanReasons) {
          var j :| 0 <= j < |bills| && NumberOrEmpty(bills[j]) == n && IsIdentical(bills[j], current, cleanReasons);
          if j < |pre| { assert pre[j] == bills[j]; }
        }
        if HasIdentical(pre, n, current, cleanReasons) {
          var j :| 0 <= j < |pre| && NumberOrEmpty(pre[j]) == n && IsIdentical(pre[j], current, cleanReasons);
          assert bills[j] == pre[j];
        }
      }
    }
  }

  /** The selected numbers are taken, in order, from the similar bills' numbers. */
  lemma {:induction false} IdenticalNumbersSubsequence(bills: seq<SimilarBill>, current: real, cleanReasons: seq<string> -> seq<string>)
    ensures IsSubsequence(IdenticalNumbers(bills, current, cleanReasons), BillNumbersSimilar(bills))
    decreases |bills|
  {
    if bills != [] {
      var pre, last := bills[..|bills| - 1], bills[|bills| - 1];
      IdenticalNumbersSubsequence(pre, current, cleanReasons);
      assert BillNumbersSimilar(bills) == BillNumbersSimilar(pre) + [NumberOrEmpty(last)];
      assert bills[..|bills| - 1] == pre;
      if IsIdentical(last, current, cleanReasons) && NumberOrEmpty(last) != "" {
        SubsequenceExtendBoth(IdenticalNumbers(pre, current, cleanReasons), BillNumbersSimilar(pre), NumberOrEmpty(last));
      } else {
        var xs, ys := IdenticalNumbers(pre, current, cleanReasons), BillNumbersSimilar(pre);
        SubsequenceExtend(xs, ys, NumberOrEmpty(last));
        assert IdenticalNumbers(bills, current, cleanReasons) == xs;
      }
    }
  }

  /** With a positive current score the bill itself is selected: its distance to itself is 0. */
  lemma CurrentBillQualifies(current: string, bills: seq<SimilarBill>, cleanReasons: seq<string> -> seq<string>)
    requires current != ""
    requires CurrentBillScore(current, bills).Success? && CurrentBillScore(current, bills).value > 0.0
    ensures current in IdenticalNumbers(bills, CurrentBillScore(current, bills).value, cleanReasons)
  {
    var s := CurrentBillScore(current, bills).value;
    CurrentBillScoreSpec(current, bills);
    var i := FindNumber(bills, current).value;
    assert ScoreClose(bills[i], s);
    IdenticalNumbersMembers(bills, s, cleanReasons);
    assert NumberOrEmpty(bills[i]) == current;
  }

  // ----- bill-number lists for related documents -----

  /** `number[3:]`: the bill number without its three-digit congress. */
  function Suffix3(number: string): string {
    SliceFrom(number, 3)
  }

  /**
   * The bill numbers (without congress) that `get_related_statements`, `get_related_committees`
   * and `get_related_cbo` query: the bill's own, then each identical bill's that is not listed yet.
   */
  function RelatedNumbers(slug: string, identical: seq<string>): (r: seq<string>)
    ensures Distinct(r) && r != [] && r[0] == Suffix3(slug)
    ensures forall n :: n in r <==> n == Suffix3(slug) || exists m :: m in identical && Suffix3(m) == n
  {
    var all := [Suffix3(slug)] + Map(identical, Suffix3);
    DedupDistinct(all);
    DedupFirst(all);
    DedupMembers(all);
    ConsMapMembers(Suffix3(slug), identical, Suffix3);
    Dedup(all)
  }

  /**
   * The numbers `get_crs_reports` queries, as written: the check looks for `number[3:]` among
   * full bill numbers, so it never recognises a number that is already there.
   */
  function CrsBillNumbersAsWritten(slug: string, identical: seq<string>): seq<string>
    decreases |identical|
  {
    if identical == [] then [slug]
    else
      var prev := CrsBillNumbersAsWritten(slug, identical[..|identical| - 1]);
      var number := identical[|identical| - 1];
      prev + (if Suffix3(number) !in prev then [number] else [])
  }

  /** The bill's own number, listed again among its identical bills, is queried twice. */
  lemma CrsBillNumbersAsWrittenRepeats()
    ensures CrsBillNumbersAsWritten("116hr1", ["116hr1"]) == ["116hr1", "116hr1"]
    ensures !Distinct(CrsBillNumbersAsWritten("116hr1", ["116hr1"]))
  {
    assert Suffix3("116hr1") == "hr1";
    assert ["116hr1"][..0] == [];
    assert "hr1" != "116hr1";
    var r := CrsBillNumbersAsWritten("116hr1", ["116hr1"]);
    assert r[0] == r[1];
  }

  /** The numbers `get_crs_reports` evidently means to query: the slug, then each new identical number. */
  function CrsBillNumbers(slug: string, identical: seq<string>): (r: seq<string>)
    ensures Distinct(r) && r != [] && r[0] == slug
    ensures forall n :: n in r <==> n == slug || n in identical
  {
    var xs := [slug] + identical;
    DedupDistinct(xs);
    DedupMembers(xs);
    DedupFirst(xs);
    Dedup(xs)
  }

  /** Deduplication keeps the first element first. */
  lemma {:induction false} DedupFirst<T>(xs: seq<T>)
    requires xs != []
    ensures Dedup(xs) != [] && Dedup(xs)[0] == xs[0]
    decreases |xs|
  {
    if |xs| > 1 {
      var pre := xs[..|xs| - 1];
      DedupFirst(pre);
    } else {
      assert xs[..0] == [];
    }
  }

  // ----- cosponsors of the bill and its identical bills -----

  /**
   * The bill numbers whose cosponsors are gathered: the identical bills, preceded by the bill's
   * own number unless it is already among them.
   */
  function SameBillNumbers(current: string, identical: seq<string>): (numbers: seq<string>)
    ensures current in identical ==> numbers == identical
    ensures current !in identical ==> numbers != [] && numbers[0] == current && numbers[1..] == identical
    ensures forall n :: n in numbers <==> n == current || n in identical
    ensures IsSubsequence(identical, numbers)
    ensures |numbers| <= |identical| + 1
  {
    SubsequenceReflexive(identical);
    if current in identical then identical
    else
      PrependSubsequence(current, identical);
      [current] + identical
  }

  lemma {:induction false} PrependSubsequence<T>(x: T, xs: seq<T>)
    ensures IsSubsequence(xs, [x] + xs)
    decreases |xs|
  {
    if xs != [] {
      var pre := xs[..|xs| - 1];
      PrependSubsequence(x, pre);
      assert ([x] + xs)[..|xs|] == [x] + pre;
      SubsequenceExtendBoth(pre, [x] + pre, xs[|xs| - 1]);
      assert pre + [xs[|xs| - 1]] == xs;
    }
  }

  /**
   * `Bill.objects.get(bill_congress_type_number=n).id` for each number, the lookup a parameter;
   * a number without a bill raises DoesNotExist.
   */
  function BillIds(numbers: seq<string>, billIdOf: string -> Option<int>): (r: Result<seq<int>>)
    ensures r.Success? <==> forall i :: 0 <= i < |numbers| ==> billIdOf(numbers[i]).Some?
    ensures r.Failure? ==> r.error == DoesNotExist
    ensures r.Success? ==>
      |r.value| == |numbers| && forall i :: 0 <= i < |numbers| ==> billIdOf(numbers[i]) == Some(r.value[i])
    decreases |numbers|
  {
    if numbers == [] then Success([])
    else
      var ids :- BillIds(numbers[..|numbers| - 1], billIdOf);
      match billIdOf(numbers[|numbers| - 1])
      case None => Failure(DoesNotExist)
      case Some(id) => Success(ids + [id])
  }

  /** `{billid: billnumbers[i] for i, billid in enumerate(billids)}`: a later equal id wins. */
  function BillDictOf(ids: seq<int>, numbers: seq<string>): (d: map<int, string>)
    requires |ids| == |numbers|
    ensures forall id :: id in d <==> id in ids
    decreases |ids|
  {
    if ids == [] then map[]
    else
      var n := |ids| - 1;
      var d := BillDictOf(ids[..n], numbers[..n]);
      assert ids == ids[..n] + [ids[n]];
      d[ids[n] := numbers[n]]
  }

  /** An id maps to the number at its last position. */
  lemma {:induction false} BillDictOfLastWins(ids: seq<int>, numbers: seq<string>, i: nat)
    requires |ids| == |numbers| && i < |ids|
    requires forall j :: i < j < |ids| ==> ids[j] != ids[i]
    ensures BillDictOf(ids, numbers)[ids[i]] == numbers[i]
    decreases |ids|
  {
    var n := |ids| - 1;
    if i < n {
      assert ids[..n][i] == ids[i] && numbers[..n][i] == numbers[i];
      BillDictOfLastWins(ids[..n], numbers[..n], i);
    }
  }

  /** `bill_dict.get(cosponsor.get('bill', ''), '')`: the bill number of a fetched row. */
  function BctnOf(row: PyDict, billDict: map<int, string>): string {
    match GetOr(row, "bill", Str(""))
    case Int(id) => if id in billDict then billDict[id] else ""
    case _ => ""
  }

  function BioguideOf(row: PyDict): Value {
    Get(row, "bioguide_id")
  }

  /** The committee items whose committee is a key of the committees map, in order. */
  function Relevant(items: seq<PyDict>, committeesMap: map<Value, Value>): (rel: seq<PyDict>)
    ensures IsSubsequence(rel, items)
    ensures forall item :: item in rel <==> item in items && Get(item, "committee") in committeesMap
    decreases |items|
  {
    if items == [] then []
    else
      var pre, last := items[..|items| - 1], items[|items| - 1];
      var rel := Relevant(pre, committeesMap);
      if Get(last, "committee") in committeesMap then
        SubsequenceExtendBoth(rel, pre, last);
        rel + [last]
      else
        SubsequenceExtend(rel, pre, last);
        rel
  }

  /** `committees_map.get(item.get('committee'), '')` for each relevant item. */
  function CommitteesNamed(rel: seq<PyDict>, committeesMap: map<Value, Value>): (named: seq<Value>)
    ensures |named| == |rel|
    ensures forall j :: 0 <= j < |rel| && Get(rel[j], "committee") in committeesMap ==>
      named[j] == committeesMap[Get(rel[j], "committee")]
    decreases |rel|
  {
    if rel == [] then []
    else
      var last := rel[|rel| - 1];
      CommitteesNamed(rel[..|rel| - 1], committeesMap)
        + [if Get(last, "committee") in committeesMap then committeesMap[Get(last, "committee")] else Str("")]
  }

  /** `item.get('rank', '')`. */
  function RankOrEmpty(item: PyDict): Value {
    GetOr(item, "rank", Str(""))
  }

  /**
   * A cosponsor as the merge stores it: the first fetched row for its bioguide id, with the
   * three keys the merge adds (`bill_congress_type_numbers`, `committees_named`, `ranks`) held as
   * fields.
   */
  datatype Merged = Merged(row: PyDict, billNumbers: seq<string>, committeesNamed: seq<Value>, ranks: seq<Value>)

  /** The entry made from the first row for a bioguide id; iterating its committees can raise. */
  function StartEntry(row: PyDict, bctn: string, committeesMap: map<Value, Value>): (r: Result<Merged>)
    ensures r.Success? <==> DictItems(GetOr(row, "committees", List([]))).Success?
    ensures r.Failure? ==> r == Failure(DictItems(GetOr(row, "committees", List([]))).error)
    ensures r.Success? ==>
      var rel := Relevant(DictItems(GetOr(row, "committees", List([]))).value, committeesMap);
      && r.value.row == row && r.value.billNumbers == [bctn]
      && |r.value.committeesNamed| == |rel| == |r.value.ranks|
      && forall j :: 0 <= j < |rel| ==>
           Get(rel[j], "committee") in committeesMap
           && r.value.committeesNamed[j] == committeesMap[Get(rel[j], "committee")]
           && r.value.ranks[j] == RankOrEmpty(rel[j])
  {
    var items :- DictItems(GetOr(row, "committees", List([])));
    var rel := Relevant(items, committeesMap);
    assert forall j :: 0 <= j < |rel| ==> rel[j] in rel;
    Success(Merged(row, [bctn], CommitteesNamed(rel, committeesMap), Map(rel, RankOrEmpty)))
  }

  /** The deduplicating dict: its keys in insertion order, and the entry under each key. */
  datatype Roster = Roster(order: seq<Value>, entries: map<Value, Merged>)

  ghost predicate ValidRoster(roster: Roster) {
    Distinct(roster.order) && forall k :: k in roster.entries <==> k in roster.order
  }

  /** One row of the merge: append its bill number to a known id's entry, or start a new entry. */
  function MergeRow(roster: Roster, row: PyDict, billDict: map<int, string>, committeesMap: map<Value, Value>): (r: Result<Roster>)
    requires ValidRoster(roster)
    ensures r.Success? ==> ValidRoster(r.value)
  {
    var bctn, k := BctnOf(row, billDict), BioguideOf(row);
    if k in roster.entries then
      var e := roster.entries[k];
      Success(Roster(roster.order, roster.entries[k := e.(billNumbers := e.billNumbers + [bctn])]))
    else
      var e :- StartEntry(row, bctn, committeesMap);
      assert Distinct(roster.order + [k]) by {
        assert forall i :: 0 <= i < |roster.order| ==> roster.order[i] in roster.order;
      }
      Success(Roster(roster.order + [k], roster.entries[k := e]))
  }

  /** The loop of `get_cosponsors_for_same_bills` over the fetched rows. */
  function MergeRows(rows: seq<PyDict>, billDict: map<int, string>, committeesMap: map<Value, Value>): (r: Result<Roster>)
    ensures r.Success? ==> ValidRoster(r.value)
    decreases |rows|
  {
    if rows == [] then Success(Roster([], map[]))
    else
      var roster :- MergeRows(rows[..|rows| - 1], billDict, committeesMap);
      MergeRow(roster, rows[|rows| - 1], billDict, committeesMap)
  }

  /** `list(cosponsors_deduped.values())`: the entries in key insertion order. */
  function RosterValues(roster: Roster): (values: seq<Merged>)
    requires ValidRoster(roster)
    ensures |values| == |roster.order|
    ensures forall i :: 0 <= i < |values| ==> values[i] == roster.entries[roster.order[i]]
  {
    seq(|roster.order|, i requires 0 <= i < |roster.order| => roster.entries[roster.order[i]])
  }

  /** The merge of a non-empty list of rows is its last row merged into the merge of the others. */
  lemma MergeRowsStep(rows: seq<PyDict>, billDict: map<int, string>, committeesMap: map<Value, Value>)
    requires rows != [] && MergeRows(rows, billDict, committeesMap).Success?
    ensures var pre := MergeRows(rows[..|rows| - 1], billDict, committeesMap);
      && pre.Success?
      && var roster, row := pre.value, rows[|rows| - 1];
         var k, bctn := BioguideOf(row), BctnOf(row, billDict);
         && (k in roster.entries ==>
               MergeRows(rows, billDict, committeesMap).value
               == Roster(roster.order, roster.entries[k := roster.entries[k].(billNumbers := roster.entries[k].billNumbers + [bctn])]))
         && (k !in roster.entries ==>
               && StartEntry(row, bctn, committeesMap).Success?
               && MergeRows(rows, billDict, committeesMap).value
                  == Roster(roster.order + [k], roster.entries[k := StartEntry(row, bctn, committeesMap).value]))
  {
  }

  /** The merge of a non-empty list of rows merges the last row into the merge of the others. */
  lemma MergeRowsLast(rows: seq<PyDict>, billDict: map<int, string>, committeesMap: map<Value, Value>)
    requires rows != [] && MergeRows(rows, billDict, committeesMap).Success?
    ensures MergeRows(rows[..|rows| - 1], billDict, committeesMap).Success?
    ensures MergeRows(rows, billDict, committeesMap)
         == MergeRow(MergeRows(rows[..|rows| - 1], billDict, committeesMap).value, rows[|rows| - 1], billDict, committeesMap)
  {
  }

  /** Merging one more row of a list merges it into the roster of the rows before it. */
  lemma MergeRowsSnoc(rows: seq<PyDict>, i: nat, billDict: map<int, string>, committeesMap: map<Value, Value>)
    requires i < |rows| && MergeRows(rows[..i], billDict, committeesMap).Success?
    ensures MergeRows(rows[..i + 1], billDict, committeesMap)
         == MergeRow(MergeRows(rows[..i], billDict, committeesMap).value, rows[i], billDict, committeesMap)
  {
    assert rows[..i + 1][..i] == rows[..i];
  }

  /** The bill numbers of the rows of one bioguide id, in row order. */
  function BillNumbersOf(rows: seq<PyDict>, k: Value, billDict: map<int, string>): seq<string>
    decreases |rows|
  {
    if rows == [] then []
    else
      var last := rows[|rows| - 1];
      BillNumbersOf(rows[..|rows| - 1], k, billDict) + (if BioguideOf(last) == k then [BctnOf(last, billDict)] else [])
  }

  /** Once a row fails, the whole merge fails with it. */
  lemma {:induction false} MergeRowsPrefixFails(rows: seq<PyDict>, i: nat, billDict: map<int, string>, committeesMap: map<Value, Value>)
    requires i <= |rows| && MergeRows(rows[..i], billDict, committeesMap).Failure?
    ensures MergeRows(rows, billDict, committeesMap) == Failure(MergeRows(rows[..i], billDict, committeesMap).error)
    decreases |rows|
  {
    if i < |rows| {
      var pre := rows[..|rows| - 1];
      assert pre[..i] == rows[..i];
      MergeRowsPrefixFails(pre, i, billDict, committeesMap);
    } else {
      assert rows[..i] == rows;
    }
  }

  /** Merging a row appends its id to the order unless the id is already there. */
  lemma MergeRowOrder(roster: Roster, row: PyDict, billDict: map<int, string>, committeesMap: map<Value, Value>)
    requires ValidRoster(roster) && MergeRow(roster, row, billDict, committeesMap).Success?
    ensures MergeRow(roster, row, billDict, committeesMap).value.order
         == roster.order + (if BioguideOf(row) in roster.order then [] else [BioguideOf(row)])
  {
  }

  /** The entries follow the first occurrences of the bioguide ids: one per distinct id, in order. */
  lemma {:induction false} MergeRowsOrder(rows: seq<PyDict>, billDict: map<int, string>, committeesMap: map<Value, Value>)
    requires MergeRows(rows, billDict, committeesMap).Success?
    ensures MergeRows(rows, billDict, committeesMap).value.order == Dedup(Map(rows, BioguideOf))
    decreases |rows|
  {
    if rows != [] {
      var pre, last := rows[..|rows| - 1], rows[|rows| - 1];
      MergeRowsLast(rows, billDict, committeesMap);
      var roster := MergeRows(pre, billDict, committeesMap).value;
      MergeRowsOrder(pre, billDict, committeesMap);
      MergeRowOrder(roster, last, billDict, committeesMap);
      MapSnoc(rows, BioguideOf);
      DedupStep(Map(pre, BioguideOf), BioguideOf(last), roster.order);
    }
  }

  /** Each entry collects the bill numbers of all the rows of its id, in row order. */
  lemma {:induction false} MergeRowsBillNumbers(rows: seq<PyDict>, billDict: map<int, string>, committeesMap: map<Value, Value>)
    requires MergeRows(rows, billDict, committeesMap).Success?
    ensures forall k :: k in MergeRows(rows, billDict, committeesMap).value.entries ==>
      MergeRows(rows, billDict, committeesMap).value.entries[k].billNumbers == BillNumbersOf(rows, k, billDict)
    decreases |rows|
  {
    if rows != [] {
      var pre := rows[..|rows| - 1];
      MergeRowsStep(rows, billDict, committeesMap);
      MergeRowsBillNumbers(pre, billDict, committeesMap);
      forall k | k !in MergeRows(pre, billDict, committeesMap).value.entries
        ensures BillNumbersOf(pre, k, billDict) == []
      {
        BillNumbersOfAbsent(pre, k, billDict, committeesMap);
      }
    }
  }

  /** An id without an entry has no rows. */
  lemma {:induction false} BillNumbersOfAbsent(rows: seq<PyDict>, k: Value, billDict: map<int, string>, committeesMap: map<Value, Value>)
    requires MergeRows(rows, billDict, committeesMap).Success?
    requires k !in MergeRows(rows, billDict, committeesMap).value.entries
    ensures BillNumbersOf(rows, k, billDict) == []
    decreases |rows|
  {
    if rows != [] {
      MergeRowsStep(rows, billDict, committeesMap);
      BillNumbersOfAbsent(rows[..|rows| - 1], k, billDict, committeesMap);
    }
  }

  /** The number of bill numbers over the entries of `order`. */
  function TotalBillNumbers(order: seq<Value>, entries: map<Value, Merged>): nat
    decreases |order|
  {
    if order == [] then 0
    else
      var k := order[|order| - 1];
      TotalBillNumbers(order[..|order| - 1], entries) + (if k in entries then |entries[k].billNumbers| else 0)
  }

  lemma {:induction false} TotalBillNumbersUpdate(order: seq<Value>, entries: map<Value, Merged>, k: Value, e: Merged)
    requires Distinct(order) && (k in order ==> k in entries)
    ensures k !in order ==> TotalBillNumbers(order, entries[k := e]) == TotalBillNumbers(order, entries)
    ensures k in order ==>
      TotalBillNumbers(order, entries[k := e]) == TotalBillNumbers(order, entries) + |e.billNumbers| - |entries[k].billNumbers|
    decreases |order|
  {
    if order != [] {
      var pre := order[..|order| - 1];
      assert Distinct(pre);
      assert k in pre ==> k in order;
      if order[|order| - 1] == k {
        assert k !in pre;
      }
      TotalBillNumbersUpdate(pre, entries, k, e);
    }
  }

  /** Merging one row adds exactly one bill number. */
  lemma MergeRowTotal(roster: Roster, row: PyDict, billDict: map<int, string>, committeesMap: map<Value, Value>)
    requires ValidRoster(roster) && MergeRow(roster, row, billDict, committeesMap).Success?
    ensures var r := MergeRow(roster, row, billDict, committeesMap).value;
      TotalBillNumbers(r.order, r.entries) == TotalBillNumbers(roster.order, roster.entries) + 1
  {
    var k, bctn := BioguideOf(row), BctnOf(row, billDict);
    if k in roster.entries {
      var e := roster.entries[k];
      TotalBillNumbersUpdate(roster.order, roster.entries, k, e.(billNumbers := e.billNumbers + [bctn]));
    } else {
      var e := StartEntry(row, bctn, committeesMap).value;
      TotalBillNumbersUpdate(roster.order, roster.entries, k, e);
      assert (roster.order + [k])[..|roster.order|] == roster.order;
    }
  }

  /** Every fetched row contributes exactly one bill number to exactly one entry. */
  lemma {:induction false} MergeRowsTotal(rows: seq<PyDict>, billDict: map<int, string>, committeesMap: map<Value, Value>)
    requires MergeRows(rows, billDict, committeesMap).Success?
    ensures var roster := MergeRows(rows, billDict, committeesMap).value;
      TotalBillNumbers(roster.order, roster.entries) == |rows|
    decreases |rows|
  {
    if rows != [] {
      var pre := rows[..|rows| - 1];
      MergeRowsTotal(pre, billDict, committeesMap);
      MergeRowTotal(MergeRows(pre, billDict, committeesMap).value, rows[|rows| - 1], billDict, committeesMap);
    }
  }

  /** The first index holding `x`. */
  function FirstIndexOf<T(==)>(xs: seq<T>, x: T): (i: nat)
    requires x in xs
    ensures i < |xs| && xs[i] == x && forall j :: 0 <= j < i ==> xs[j] != x
    decreases |xs|
  {
    if xs[0] == x then 0 else 1 + FirstIndexOf(xs[1..], x)
  }

  lemma FirstIndexOfAppend<T>(xs: seq<T>, y: T, x: T)
    requires x in xs
    ensures FirstIndexOf(xs + [y], x) == FirstIndexOf(xs, x)
  {
    var i, i' := FirstIndexOf(xs, x), FirstIndexOf(xs + [y], x);
    assert (xs + [y])[i] == x;
  }

  /** The entry `e` is the one the row starts, apart from the bill numbers added later. */
  ghost predicate StartedBy(e: Merged, row: PyDict, billDict: map<int, string>, committeesMap: map<Value, Value>) {
    var start := StartEntry(row, BctnOf(row, billDict), committeesMap);
    start.Success? && e.(billNumbers := [BctnOf(row, billDict)]) == start.value
  }

  /** The ids with an entry are exactly the ids of the rows. */
  lemma MergeRowsKeys(rows: seq<PyDict>, billDict: map<int, string>, committeesMap: map<Value, Value>)
    requires MergeRows(rows, billDict, committeesMap).Success?
    ensures forall k :: k in MergeRows(rows, billDict, committeesMap).value.entries <==> k in Map(rows, BioguideOf)
  {
    MergeRowsOrder(rows, billDict, committeesMap);
    DedupMembers(Map(rows, BioguideOf));
  }

  /**
   * Each entry's row, committee names and ranks come from the first row of its id; later rows
   * of the same id add only their bill number.
   */
  lemma {:induction false} MergeRowsFirstRow(rows: seq<PyDict>, k: Value, billDict: map<int, string>, committeesMap: map<Value, Value>)
    requires MergeRows(rows, billDict, committeesMap).Success?
    requires k in MergeRows(rows, billDict, committeesMap).value.entries
    ensures k in Map(rows, BioguideOf)
    ensures StartedBy(MergeRows(rows, billDict, committeesMap).value.entries[k],
                      rows[FirstIndexOf(Map(rows, BioguideOf), k)], billDict, committeesMap)
    decreases |rows|
  {
    MergeRowsKeys(rows, billDict, committeesMap);
    var pre, row := rows[..|rows| - 1], rows[|rows| - 1];
    MergeRowsLast(rows, billDict, committeesMap);
    var roster := MergeRows(pre, billDict, committeesMap).value;
    MergeRowsKeys(pre, billDict, committeesMap);
    MergeRowEntry(roster, row, k, billDict, committeesMap);
    var keys := Map(pre, BioguideOf);
    MapSnoc(rows, BioguideOf);
    if k in keys {
      MergeRowsFirstRow(pre, k, billDict, committeesMap);
      FirstIndexOfAppend(keys, BioguideOf(row), k);
      assert rows[FirstIndexOf(keys, k)] == pre[FirstIndexOf(keys, k)];
    } else {
      FirstIndexNew(keys, k);
    }
  }

  /** Merging a row leaves an existing entry started as it was, and starts a new one from the row. */
  lemma MergeRowEntry(roster: Roster, row: PyDict, k: Value, billDict: map<int, string>, committeesMap: map<Value, Value>)
    requires ValidRoster(roster) && MergeRow(roster, row, billDict, committeesMap).Success?
    requires k in MergeRow(roster, row, billDict, committeesMap).value.entries
    ensures var e := MergeRow(roster, row, billDict, committeesMap).value.entries[k];
      && (k in roster.entries ==> forall r :: StartedBy(e, r, billDict, committeesMap) == StartedBy(roster.entries[k], r, billDict, committeesMap))
      && (k !in roster.entries ==> k == BioguideOf(row) && StartedBy(e, row, billDict, committeesMap))
  {
  }

  lemma FirstIndexNew<T>(xs: seq<T>, x: T)
    requires x !in xs
    ensures FirstIndexOf(xs + [x], x) == |xs|
  {
  }

  /** Row `i` is the first row of its bioguide id and iterating its committees raises. */
  predicate BadFirstRow(rows: seq<PyDict>, i: nat) {
    && i < |rows|
    && (forall j :: 0 <= j < i ==> BioguideOf(rows[j]) != BioguideOf(rows[i]))
    && DictItems(GetOr(rows[i], "committees", List([]))).Failure?
  }

  lemma BadFirstRowPrefix(rows: seq<PyDict>, i: nat)
    requires i < |rows| - 1
    ensures BadFirstRow(rows, i) <==> BadFirstRow(rows[..|rows| - 1], i)
  {
    var pre := rows[..|rows| - 1];
    assert rows[i] == pre[i];
    assert forall j :: 0 <= j < i ==> rows[j] == pre[j];
  }

  /** After a successful merge of the earlier rows, the last row fails exactly when it is a bad first row. */
  lemma MergeRowsLastFails(rows: seq<PyDict>, billDict: map<int, string>, committeesMap: map<Value, Value>)
    requires rows != [] && MergeRows(rows[..|rows| - 1], billDict, committeesMap).Success?
    ensures MergeRows(rows, billDict, committeesMap).Failure? <==> BadFirstRow(rows, |rows| - 1)
  {
    var pre, row := rows[..|rows| - 1], rows[|rows| - 1];
    MergeRowsKeys(pre, billDict, committeesMap);
    var keys := Map(pre, BioguideOf);
    if BioguideOf(row) in keys {
      var j :| 0 <= j < |keys| && keys[j] == BioguideOf(row);
      assert BioguideOf(rows[j]) == BioguideOf(row);
    } else {
      forall j | 0 <= j < |pre| ensures BioguideOf(rows[j]) != BioguideOf(row) {
        assert keys[j] == BioguideOf(rows[j]);
      }
    }
  }

  /** A bad first row of a non-empty list is a bad first row of its prefix, or its last row. */
  lemma SomeBadFirstRowSnoc(rows: seq<PyDict>, pre: seq<PyDict>)
    requires rows != [] && pre == rows[..|rows| - 1]
    ensures (exists i :: BadFirstRow(rows, i)) <==> (exists i :: BadFirstRow(pre, i)) || BadFirstRow(rows, |rows| - 1)
  {
    if i: nat :| BadFirstRow(rows, i) {
      if i < |pre| {
        BadFirstRowPrefix(rows, i);
        assert BadFirstRow(pre, i);
      }
    }
    if i: nat :| BadFirstRow(pre, i) {
      BadFirstRowPrefix(rows, i);
      assert BadFirstRow(rows, i);
    }
  }

  /** The merge raises exactly when the first row of some id has committees that cannot be iterated. */
  lemma {:induction false} MergeRowsFailure(rows: seq<PyDict>, billDict: map<int, string>, committeesMap: map<Value, Value>)
    ensures MergeRows(rows, billDict, committeesMap).Failure? <==> exists i :: BadFirstRow(rows, i)
    decreases |rows|
  {
    if rows != [] {
      var pre := rows[..|rows| - 1];
      MergeRowsFailure(pre, billDict, committeesMap);
      SomeBadFirstRowSnoc(rows, pre);
      if MergeRows(pre, billDict, committeesMap).Success? {
        MergeRowsLastFails(rows, billDict, committeesMap);
      }
    }
  }

  /**
   * `get_cosponsors_for_same_bills`, with `Bill.objects.get` and the cosponsor query as parameters:
   * the committees map, the bill numbers, their bill ids and the number of each id, then the
   * merge of the fetched rows.
   */
  function SameBillsCosponsors(current: string, identical: seq<string>, committeesDict: Value,
                               billIdOf: string -> Option<int>, fetchRows: seq<int> -> seq<PyDict>): Result<seq<Merged>>
  {
    var committeesMap :- GetCommitteesMap(committeesDict);
    var numbers := SameBillNumbers(current, identical);
    var ids :- BillIds(numbers, billIdOf);
    var roster :- MergeRows(fetchRows(ids), BillDictOf(ids, numbers), committeesMap);
    Success(RosterValues(roster))
  }

  // ----- cosponsor display order -----

  /** `i.get('name')` as a sort key; the sort raises unless the names are strings (see SortByName). */
  function NameOf(d: PyDict): string {
    if Get(d, "name").Str? then Get(d, "name").s else ""
  }

  predicate AllNamesStr(items: seq<PyDict>) {
    forall i :: 0 <= i < |items| ==> Get(items[i], "name").Str?
  }

  lemma StrLessStrictWeak()
    ensures StrictWeakOrder(StrLess)
  {
    forall a, b | StrLess(a, b) ensures !StrLess(b, a) {
      if StrLess(b, a) {
        StrLessTransitive(a, b, a);
        StrLessIrreflexive(a);
      }
    }
    forall a, b, c | !StrLess(a, b) && !StrLess(b, c) ensures !StrLess(a, c) {
      if StrLess(a, c) && a != b {
        StrLessTotal(a, b);
        StrLessTransitive(b, a, c);
      }
    }
  }

  /**
   * `sorted(cosponsors, key=lambda i: i.get('name'))`: iterating and `.get` on each element can
   * raise, and with two or more elements a name that is not a string cannot be compared.
   */
  function SortByName(cosponsorsDict: Value): (r: Result<seq<PyDict>>)
    ensures r.Success? <==>
      DictItems(cosponsorsDict).Success?
      && (|DictItems(cosponsorsDict).value| < 2 || AllNamesStr(DictItems(cosponsorsDict).value))
    ensures r.Failure? && DictItems(cosponsorsDict).Success? ==> r.error == TypeError
    ensures r.Success? ==>
      && SortedBy(r.value, NameOf, StrLess)
      && multiset(r.value) == multiset(DictItems(cosponsorsDict).value)
  {
    var items :- DictItems(cosponsorsDict);
    if |items| >= 2 && !AllNamesStr(items) then Failure(TypeError)
    else
      StrLessStrictWeak();
      SortBySorted(items, NameOf, StrLess);
      SortByPermutation(items, NameOf, StrLess);
      Success(SortBy(items, NameOf, StrLess))
  }

  /** `cosponsor.get('name', '')`. */
  function NameValueOf(d: PyDict): Value {
    GetOr(d, "name", Str(""))
  }

  /** The sponsor record as the view marks it: `sponsor['sponsor'] = True`. */
  function MarkSponsor(sponsor: PyDict): PyDict {
    sponsor["sponsor" := Bool(true)]
  }

  /**
   * The sponsor step: with a non-empty sponsor name, the first cosponsor of that name moves to
   * the front, or the marked sponsor is put there when there is none; an empty name changes
   * nothing.
   */
  function PlaceSponsor(sorted: seq<PyDict>, sponsor: PyDict): seq<PyDict> {
    var marked := MarkSponsor(sponsor);
    var name := NameValueOf(marked);
    if !Truthy(name) then sorted
    else if name in Map(sorted, NameValueOf) then
      MoveToFront(sorted, FirstIndexOf(Map(sorted, NameValueOf), name))
    else [marked] + sorted
  }

  /** `xs.remove(xs[i])` then `xs.insert(0, xs[i])`, for `i` the first index of that element. */
  function MoveToFront<T>(xs: seq<T>, i: nat): (r: seq<T>)
    requires i < |xs|
    ensures |r| == |xs| && r[0] == xs[i] && r[1..] == xs[..i] + xs[i + 1..]
    ensures multiset(r) == multiset(xs)
  {
    assert xs == xs[..i] + [xs[i]] + xs[i + 1..];
    [xs[i]] + xs[..i] + xs[i + 1..]
  }

  /** Some cosponsor carries the sponsor's name. */
  predicate HasSponsorMatch(sorted: seq<PyDict>, sponsor: PyDict) {
    exists i :: 0 <= i < |sorted| && NameValueOf(sorted[i]) == NameValueOf(sponsor)
  }

  /** A matching cosponsor is moved to the front: nothing is added or lost, the others keep their order. */
  lemma PlaceSponsorMoves(sorted: seq<PyDict>, sponsor: PyDict)
    requires Truthy(NameValueOf(sponsor)) && HasSponsorMatch(sorted, sponsor)
    ensures var placed := PlaceSponsor(sorted, sponsor);
      exists i :: 0 <= i < |sorted| && placed[0] == sorted[i]
                  && (forall j :: 0 <= j < i ==> NameValueOf(sorted[j]) != NameValueOf(sponsor))
                  && placed[1..] == sorted[..i] + sorted[i + 1..]
    ensures NameValueOf(PlaceSponsor(sorted, sponsor)[0]) == NameValueOf(sponsor)
    ensures multiset(PlaceSponsor(sorted, sponsor)) == multiset(sorted)
  {
    var name := NameValueOf(sponsor);
    assert NameValueOf(MarkSponsor(sponsor)) == name;
    var names := Map(sorted, NameValueOf);
    var k :| 0 <= k < |sorted| && NameValueOf(sorted[k]) == name;
    assert names[k] == name;
    var i := FirstIndexOf(names, name);
    assert PlaceSponsor(sorted, sponsor) == MoveToFront(sorted, i);
  }

  /**
   * With an empty sponsor name nothing changes; with a name no cosponsor carries, the marked
   * sponsor goes to the front.
   */
  lemma PlaceSponsorInserts(sorted: seq<PyDict>, sponsor: PyDict)
    ensures !Truthy(NameValueOf(sponsor)) ==> PlaceSponsor(sorted, sponsor) == sorted
    ensures Truthy(NameValueOf(sponsor)) && !HasSponsorMatch(sorted, sponsor) ==>
      PlaceSponsor(sorted, sponsor) == [MarkSponsor(sponsor)] + sorted
  {
    var name := NameValueOf(sponsor);
    assert NameValueOf(MarkSponsor(sponsor)) == name;
    if name in Map(sorted, NameValueOf) {
      var k :| 0 <= k < |sorted| && Map(sorted, NameValueOf)[k] == name;
      assert NameValueOf(sorted[k]) == name;
    }
  }

  /** What `Cosponsor.objects.get(bioguide_id=…)` yields for a member: party, official name, committee memberships. */
  datatype Member = Member(party: Value, nameFullOfficial: Value, committees: Value)

  const COMMITTEE_KEYS: set<string> := {"committee_id", "rank", "committee_name"}
  const ENRICH_KEYS: set<string> := {"current", "party", "name_full_official"} + COMMITTEE_KEYS

  /** `c2` differs from `c1` at most under `keys`. */
  ghost predicate SameOutside(c1: PyDict, c2: PyDict, keys: set<string>) {
    forall key :: key !in keys ==> (key in c1 <==> key in c2) && (key in c1 ==> c1[key] == c2[key])
  }

  /** The three committee fields one matching committee dict writes. */
  function WithCommittee(c: PyDict, committeeId: Value, rank: Value, name: Value): PyDict {
    c["committee_id" := committeeId]["rank" := rank]["committee_name" := name]
  }

  /** A later write of the committee fields replaces an earlier one. */
  lemma WithCommitteeTwice(c: PyDict, id1: Value, rank1: Value, name1: Value, id2: Value, rank2: Value, name2: Value)
    ensures WithCommittee(WithCommittee(c, id1, rank1, name1), id2, rank2, name2) == WithCommittee(c, id2, rank2, name2)
  {
  }

  /** The index of the last committee dict carrying `committeeId`, if any. */
  function LastWithId(committeeDicts: seq<PyDict>, committeeId: Value): (i: Option<nat>)
    ensures i.Some? ==>
      && i.value < |committeeDicts| && Get(committeeDicts[i.value], "committee_id") == committeeId
      && forall j :: i.value < j < |committeeDicts| ==> Get(committeeDicts[j], "committee_id") != committeeId
    ensures i.None? ==> forall j :: 0 <= j < |committeeDicts| ==> Get(committeeDicts[j], "committee_id") != committeeId
    decreases |committeeDicts|
  {
    if committeeDicts == [] then None
    else if Get(committeeDicts[|committeeDicts| - 1], "committee_id") == committeeId then Some(|committeeDicts| - 1)
    else
      var pre := committeeDicts[..|committeeDicts| - 1];
      assert forall j :: 0 <= j < |pre| ==> pre[j] == committeeDicts[j];
      LastWithId(pre, committeeId)
  }

  /**
   * The loop over the bill's `committees_dict` for one membership: every entry with the
   * membership's committee id sets the committee id, rank and committee name, so the last such
   * entry decides the name; with no such entry nothing changes.
   */
  function MatchCommittee(c: PyDict, committeeId: Value, rank: Value, committeeDicts: seq<PyDict>): (r: PyDict)
    ensures SameOutside(c, r, COMMITTEE_KEYS)
    ensures LastWithId(committeeDicts, committeeId).None? ==> r == c
    ensures LastWithId(committeeDicts, committeeId).Some? ==>
      r == WithCommittee(c, committeeId, rank, Get(committeeDicts[LastWithId(committeeDicts, committeeId).value], "committee"))
    decreases |committeeDicts|
  {
    if committeeDicts == [] then c
    else
      var pre, last := committeeDicts[..|committeeDicts| - 1], committeeDicts[|committeeDicts| - 1];
      var c' := MatchCommittee(c, committeeId, rank, pre);
      if committeeId == Get(last, "committee_id") then
        if LastWithId(pre, committeeId).Some? then
          WithCommitteeTwice(c, committeeId, rank, Get(pre[LastWithId(pre, committeeId).value], "committee"),
                             committeeId, rank, Get(last, "committee"));
          WithCommittee(c', committeeId, rank, Get(last, "committee"))
        else
          WithCommittee(c', committeeId, rank, Get(last, "committee"))
      else
        assert LastWithId(committeeDicts, committeeId) == LastWithId(pre, committeeId);
        c'
  }

  /**
   * One membership of the member's committees, `committee.get(...)` raising AttributeError when
   * it is not a dict: only the member's own memberships iterate the bill's committees.
   */
  function ApplyMembership(c: PyDict, bioguide: Value, membership: Value, committeesDict: Value): (r: Result<PyDict>)
    ensures r.Success? ==> SameOutside(c, r.value, COMMITTEE_KEYS)
    ensures r.Failure? ==>
      || (!membership.Dict? && r.error == AttributeError)
      || (membership.Dict? && bioguide == Get(membership.fields, "bioguide")
          && DictItems(committeesDict).Failure? && r.error == DictItems(committeesDict).error)
  {
    if !membership.Dict? then Failure(AttributeError)
    else if bioguide == Get(membership.fields, "bioguide") then
      var committeeDicts :- DictItems(committeesDict);
      Success(MatchCommittee(c, Get(membership.fields, "committee"), Get(membership.fields, "rank"), committeeDicts))
    else Success(c)
  }

  /** The loop over the member's committee memberships, in order; the first error stops it. */
  function ApplyMemberships(c: PyDict, bioguide: Value, memberships: seq<Value>, committeesDict: Value): (r: Result<PyDict>)
    ensures r.Success? ==> SameOutside(c, r.value, COMMITTEE_KEYS)
    decreases |memberships|
  {
    if memberships == [] then Success(c)
    else
      var c' :- ApplyMemberships(c, bioguide, memberships[..|memberships| - 1], committeesDict);
      ApplyMembership(c', bioguide, memberships[|memberships| - 1], committeesDict)
  }

  /** Some membership is a dict that belongs to `bioguide`. */
  predicate HasOwnMembership(memberships: seq<Value>, bioguide: Value) {
    exists i :: 0 <= i < |memberships| && memberships[i].Dict? && Get(memberships[i].fields, "bioguide") == bioguide
  }

  /** Membership `m` belongs to `bioguide` and names a committee of the bill. */
  predicate Applies(m: Value, bioguide: Value, committeeDicts: seq<PyDict>) {
    m.Dict? && Get(m.fields, "bioguide") == bioguide && LastWithId(committeeDicts, Get(m.fields, "committee")).Some?
  }

  /** The index of the last membership that applies, if any. */
  function LastApplying(memberships: seq<Value>, bioguide: Value, committeeDicts: seq<PyDict>): (i: Option<nat>)
    ensures i.Some? ==>
      && i.value < |memberships| && Applies(memberships[i.value], bioguide, committeeDicts)
      && forall j :: i.value < j < |memberships| ==> !Applies(memberships[j], bioguide, committeeDicts)
    ensures i.None? ==> forall j :: 0 <= j < |memberships| ==> !Applies(memberships[j], bioguide, committeeDicts)
    decreases |memberships|
  {
    if memberships == [] then None
    else if Applies(memberships[|memberships| - 1], bioguide, committeeDicts) then Some(|memberships| - 1)
    else
      var pre := memberships[..|memberships| - 1];
      assert forall j :: 0 <= j < |pre| ==> pre[j] == memberships[j];
      LastApplying(pre, bioguide, committeeDicts)
  }

  /** What an applying membership writes: its committee id and rank, and the bill's name for that committee. */
  function Applied(c: PyDict, m: Value, committeeDicts: seq<PyDict>): PyDict
    requires m.Dict? && LastWithId(committeeDicts, Get(m.fields, "committee")).Some?
  {
    var id := Get(m.fields, "committee");
    WithCommittee(c, id, Get(m.fields, "rank"), Get(committeeDicts[LastWithId(committeeDicts, id).value], "committee"))
  }

  /**
   * The memberships loop raises exactly when some membership is not a dict, or when one of the
   * member's own memberships makes it iterate committees that do not iterate as dicts.
   */
  lemma {:induction false} ApplyMembershipsOutcome(c: PyDict, bioguide: Value, memberships: seq<Value>, committeesDict: Value)
    ensures ApplyMemberships(c, bioguide, memberships, committeesDict).Success? <==>
      AllDicts(memberships) && (DictItems(committeesDict).Success? || !HasOwnMembership(memberships, bioguide))
    decreases |memberships|
  {
    if memberships != [] {
      var pre, last := memberships[..|memberships| - 1], memberships[|memberships| - 1];
      ApplyMembershipsOutcome(c, bioguide, pre, committeesDict);
      assert forall j :: 0 <= j < |pre| ==> pre[j] == memberships[j];
      assert AllDicts(memberships) <==> AllDicts(pre) && last.Dict?;
      HasOwnMembershipSnoc(memberships, bioguide);
    }
  }

  /** A non-empty list has an own membership exactly when its prefix or its last entry does. */
  lemma HasOwnMembershipSnoc(memberships: seq<Value>, bioguide: Value)
    requires memberships != []
    ensures var last := memberships[|memberships| - 1];
      HasOwnMembership(memberships, bioguide) <==>
        HasOwnMembership(memberships[..|memberships| - 1], bioguide) || (last.Dict? && Get(last.fields, "bioguide") == bioguide)
  {
    var pre, last := memberships[..|memberships| - 1], memberships[|memberships| - 1];
    if HasOwnMembership(memberships, bioguide) && !(last.Dict? && Get(last.fields, "bioguide") == bioguide) {
      var i :| 0 <= i < |memberships| && memberships[i].Dict? && Get(memberships[i].fields, "bioguide") == bioguide;
      assert pre[i] == memberships[i];
    }
    if HasOwnMembership(pre, bioguide) {
      var i :| 0 <= i < |pre| && pre[i].Dict? && Get(pre[i].fields, "bioguide") == bioguide;
      assert memberships[i] == pre[i];
    }
  }

  /** `r` carries the committee fields of the last applying membership, or is `c` when none applies. */
  ghost predicate AppliedLast(c: PyDict, bioguide: Value, memberships: seq<Value>, dicts: seq<PyDict>, r: PyDict) {
    match LastApplying(memberships, bioguide, dicts)
    case None => r == c
    case Some(i) => r == Applied(c, memberships[i], dicts)
  }

  /** One more membership keeps AppliedLast. */
  lemma AppliedLastStep(c: PyDict, c': PyDict, bioguide: Value, memberships: seq<Value>, committeesDict: Value)
    requires memberships != [] && DictItems(committeesDict).Success?
    requires AppliedLast(c, bioguide, memberships[..|memberships| - 1], DictItems(committeesDict).value, c')
    requires ApplyMembership(c', bioguide, memberships[|memberships| - 1], committeesDict).Success?
    ensures AppliedLast(c, bioguide, memberships, DictItems(committeesDict).value,
                        ApplyMembership(c', bioguide, memberships[|memberships| - 1], committeesDict).value)
  {
    if Applies(memberships[|memberships| - 1], bioguide, DictItems(committeesDict).value) {
      AppliedLastStepApplies(c, c', bioguide, memberships, committeesDict);
    } else {
      AppliedLastStepSkips(c, c', bioguide, memberships, committeesDict);
    }
  }

  /** A last membership that applies overwrites whatever an earlier one wrote. */
  lemma AppliedLastStepApplies(c: PyDict, c': PyDict, bioguide: Value, memberships: seq<Value>, committeesDict: Value)
    requires memberships != [] && DictItems(committeesDict).Success?
    requires Applies(memberships[|memberships| - 1], bioguide, DictItems(committeesDict).value)
    requires AppliedLast(c, bioguide, memberships[..|memberships| - 1], DictItems(committeesDict).value, c')
    ensures ApplyMembership(c', bioguide, memberships[|memberships| - 1], committeesDict).Success?
    ensures AppliedLast(c, bioguide, memberships, DictItems(committeesDict).value,
                        ApplyMembership(c', bioguide, memberships[|memberships| - 1], committeesDict).value)
  {
    var pre, last := memberships[..|memberships| - 1], memberships[|memberships| - 1];
    var dicts := DictItems(committeesDict).value;
    var id := Get(last.fields, "committee");
    var name := Get(dicts[LastWithId(dicts, id).value], "committee");
    assert ApplyMembership(c', bioguide, last, committeesDict).value == WithCommittee(c', id, Get(last.fields, "rank"), name);
    assert LastApplying(memberships, bioguide, dicts) == Some(|pre|);
    match LastApplying(pre, bioguide, dicts)
    case None =>
    case Some(i) =>
      var m := pre[i];
      var mid := Get(m.fields, "committee");
      WithCommitteeTwice(c, mid, Get(m.fields, "rank"), Get(dicts[LastWithId(dicts, mid).value], "committee"),
                         id, Get(last.fields, "rank"), name);
  }

  /** A last membership that does not apply leaves the cosponsor as the prefix left it. */
  lemma AppliedLastStepSkips(c: PyDict, c': PyDict, bioguide: Value, memberships: seq<Value>, committeesDict: Value)
    requires memberships != [] && DictItems(committeesDict).Success?
    requires !Applies(memberships[|memberships| - 1], bioguide, DictItems(committeesDict).value)
    requires AppliedLast(c, bioguide, memberships[..|memberships| - 1], DictItems(committeesDict).value, c')
    requires ApplyMembership(c', bioguide, memberships[|memberships| - 1], committeesDict).Success?
    ensures AppliedLast(c, bioguide, memberships, DictItems(committeesDict).value,
                        ApplyMembership(c', bioguide, memberships[|memberships| - 1], committeesDict).value)
  {
    var pre, last := memberships[..|memberships| - 1], memberships[|memberships| - 1];
    var dicts := DictItems(committeesDict).value;
    assert ApplyMembership(c', bioguide, last, committeesDict).value == c';
    assert LastApplying(memberships, bioguide, dicts) == LastApplying(pre, bioguide, dicts);
    match LastApplying(pre, bioguide, dicts)
    case None =>
    case Some(i) => assert pre[i] == memberships[i];
  }

  /**
   * When the loop completes, the last applying membership decides the committee id, the rank
   * and the committee name; when none applies (or the bill's committees were never iterated),
   * the cosponsor is unchanged.
   */
  lemma {:induction false} ApplyMembershipsValues(c: PyDict, bioguide: Value, memberships: seq<Value>, committeesDict: Value)
    requires ApplyMemberships(c, bioguide, memberships, committeesDict).Success?
    ensures DictItems(committeesDict).Failure? ==> ApplyMemberships(c, bioguide, memberships, committeesDict).value == c
    ensures DictItems(committeesDict).Success? ==>
      AppliedLast(c, bioguide, memberships, DictItems(committeesDict).value, ApplyMemberships(c, bioguide, memberships, committeesDict).value)
    decreases |memberships|
  {
    if memberships != [] {
      var pre, last := memberships[..|memberships| - 1], memberships[|memberships| - 1];
      ApplyMembershipsValues(c, bioguide, pre, committeesDict);
      var c' := ApplyMemberships(c, bioguide, pre, committeesDict).value;
      assert ApplyMemberships(c, bioguide, memberships, committeesDict) == ApplyMembership(c', bioguide, last, committeesDict);
      if DictItems(committeesDict).Success? {
        AppliedLastStep(c, c', bioguide, memberships, committeesDict);
      }
    }
  }

  /** `cosponsor.get("bioguide_id", "")`. */
  function BioguideOrEmpty(c: PyDict): Value {
    GetOr(c, "bioguide_id", Str(""))
  }

  /**
   * One pass of the enrichment loop, with `Cosponsor.objects.get` as `lookup`: a cosponsor without
   * a bioguide id is left alone; one the lookup does not find is marked not current; a found
   * one is marked current, given the member's party and official name, then the committee fields.
   */
  function Enrich(c: PyDict, lookup: Value -> Option<Member>, committeesDict: Value): (r: Result<PyDict>)
    ensures r.Success? ==> SameOutside(c, r.value, ENRICH_KEYS)
    ensures !Truthy(BioguideOrEmpty(c)) ==> r == Success(c)
    ensures Truthy(BioguideOrEmpty(c)) && lookup(BioguideOrEmpty(c)).None? ==> r == Success(c["current" := Bool(false)])
    ensures Truthy(BioguideOrEmpty(c)) && lookup(BioguideOrEmpty(c)).Some? && r.Success? ==>
      var m := lookup(BioguideOrEmpty(c)).value;
      && "current" in r.value && r.value["current"] == Bool(true)
      && "party" in r.value && r.value["party"] == m.party
      && "name_full_official" in r.value && r.value["name_full_official"] == m.nameFullOfficial
    ensures r.Failure? ==> Truthy(BioguideOrEmpty(c)) && lookup(BioguideOrEmpty(c)).Some?
  {
    var bioguide := BioguideOrEmpty(c);
    if !Truthy(bioguide) then Success(c)
    else
      match lookup(bioguide)
      case None => Success(c["current" := Bool(false)])
      case Some(m) =>
        var c1 := c["current" := Bool(true)]["party" := m.party]["name_full_official" := m.nameFullOfficial];
        // the memberships are iterated lazily: a list is walked in order, anything else either
        // iterates nothing or raises before the first membership
        if m.committees.List? then ApplyMemberships(c1, bioguide, m.committees.items, committeesDict)
        else if DictItems(m.committees).Failure? then Failure(DictItems(m.committees).error)
        else Success(c1)
  }

  /**
   * The member's memberships are walked in order: an own membership reaches the bill's
   * committees (None here, so TypeError) before a later membership that is not a dict.
   */
  lemma EnrichRaisesInIterationOrder()
    ensures var c := map["bioguide_id" := Str("B1")];
      var m := Member(Null, Null, List([Dict(map["bioguide" := Str("B1"), "committee" := Str("X")]), Int(5)]));
      Enrich(c, (v: Value) => Some(m), Null) == Failure(TypeError)
  {
    var m := Member(Null, Null, List([Dict(map["bioguide" := Str("B1"), "committee" := Str("X")]), Int(5)]));
    var c := map["bioguide_id" := Str("B1")];
    var items := m.committees.items;
    var c1 := c["current" := Bool(true)]["party" := m.party]["name_full_official" := m.nameFullOfficial];
    assert |items| == 2 && items[..1][..0] == [];
    assert ApplyMemberships(c1, Str("B1"), items[..1][..0], Null) == Success(c1);
    assert ApplyMembership(c1, Str("B1"), items[0], Null) == Failure(TypeError);
    assert ApplyMemberships(c1, Str("B1"), items[..1], Null) == Failure(TypeError);
    assert ApplyMemberships(c1, Str("B1"), items, Null) == Failure(TypeError);
  }

  /** The enrichment loop over the whole list. */
  function EnrichAll(cs: seq<PyDict>, lookup: Value -> Option<Member>, committeesDict: Value): (r: Result<seq<PyDict>>)
    ensures r.Success? <==> forall i :: 0 <= i < |cs| ==> Enrich(cs[i], lookup, committeesDict).Success?
    ensures r.Success? ==>
      |r.value| == |cs| && forall i :: 0 <= i < |cs| ==> r.value[i] == Enrich(cs[i], lookup, committeesDict).value
    decreases |cs|
  {
    if cs == [] then Success([])
    else
      var pre := cs[..|cs| - 1];
      var enriched :- EnrichAll(pre, lookup, committeesDict);
      var last :- Enrich(cs[|cs| - 1], lookup, committeesDict);
      Success(enriched + [last])
  }

  /** Once one cosponsor's enrichment raises, the whole loop raises with it. */
  lemma {:induction false} EnrichAllPrefixFails(cs: seq<PyDict>, i: nat, lookup: Value -> Option<Member>, committeesDict: Value)
    requires i <= |cs| && EnrichAll(cs[..i], lookup, committeesDict).Failure?
    ensures EnrichAll(cs, lookup, committeesDict) == Failure(EnrichAll(cs[..i], lookup, committeesDict).error)
    decreases |cs|
  {
    if i < |cs| {
      var pre := cs[..|cs| - 1];
      assert pre[..i] == cs[..i];
      EnrichAllPrefixFails(pre, i, lookup, committeesDict);
    } else {
      assert cs[..i] == cs;
    }
  }

  /**
   * The enrichment loop of `get_cosponsors_dict`: each cosponsor in turn gets its membership
   * fields; an exception from any of them ends the view.
   */
  method EnrichCosponsors(cosponsors: seq<PyDict>, lookup: Value -> Option<Member>, committeesDict: Value)
    returns (r: Result<seq<PyDict>>)
    ensures r == EnrichAll(cosponsors, lookup, committeesDict)
  {
    var enriched: seq<PyDict> := [];
    for i := 0 to |cosponsors|
      invariant EnrichAll(cosponsors[..i], lookup, committeesDict) == Success(enriched)
    {
      assert cosponsors[..i + 1][..i] == cosponsors[..i];
      var cosponsor := Enrich(cosponsors[i], lookup, committeesDict);
      if cosponsor.Failure? {
        EnrichAllPrefixFails(cosponsors, i + 1, lookup, committeesDict);
        return Failure(cosponsor.error);
      }
      enriched := enriched + [cosponsor.value];
    }
    assert cosponsors[..|cosponsors|] == cosponsors;
    return Success(enriched);
  }

  /**
   * The partition loops of `get_cosponsors_dict`: walk the list once, appending each cosponsor
   * to the first list when it satisfies `p` and to the second otherwise.
   */
  method SplitBy(cosponsors: seq<PyDict>, p: PyDict -> bool) returns (yes: seq<PyDict>, no: seq<PyDict>)
    ensures yes == Filter(cosponsors, p) && no == Reject(cosponsors, p)
  {
    yes, no := [], [];
    for i := 0 to |cosponsors|
      invariant yes == Filter(cosponsors[..i], p) && no == Reject(cosponsors[..i], p)
    {
      assert cosponsors[..i + 1][..i] == cosponsors[..i];
      if p(cosponsors[i]) {
        yes := yes + [cosponsors[i]];
      } else {
        no := no + [cosponsors[i]];
      }
    }
    assert cosponsors[..|cosponsors|] == cosponsors;
  }

  /** The two halves of a split hold every cosponsor once, those satisfying `p` in the first. */
  lemma SplitBySpec(cosponsors: seq<PyDict>, p: PyDict -> bool)
    ensures multiset(Filter(cosponsors, p)) + multiset(Reject(cosponsors, p)) == multiset(cosponsors)
    ensures forall x :: x in Filter(cosponsors, p) <==> x in cosponsors && p(x)
    ensures forall x :: x in Reject(cosponsors, p) <==> x in cosponsors && !p(x)
  {
    FilterRejectPermutation(cosponsors, p);
    FilterMembers(cosponsors, p);
    RejectMembers(cosponsors, p);
  }

  /** `cosponsor.get('original_cosponsor')` is truthy. */
  predicate IsOriginal(c: PyDict) {
    Truthy(Get(c, "original_cosponsor"))
  }

  /** `type(cosponsor.get('rank')) == int` (a boolean is not an int here). */
  predicate IsRanked(c: PyDict) {
    Get(c, "rank").Int?
  }

  function RankOf(c: PyDict): int {
    if Get(c, "rank").Int? then Get(c, "rank").i else 0
  }

  predicate IntLess(a: int, b: int) {
    a < b
  }

  /**
   * The final ordering of `get_cosponsors_dict`: the first cosponsor (`cosponsors[:1]`), then the
   * display order of the rest.
   */
  function DisplayOrder(cosponsors: seq<PyDict>): seq<PyDict> {
    if cosponsors == [] then [] else [cosponsors[0]] + DisplayTail(cosponsors[1..])
  }

  /**
   * The cosponsors after the first, split into original ranked (sorted by rank), original
   * unranked, other ranked (sorted by rank) and other unranked.
   */
  function DisplayTail(rest: seq<PyDict>): seq<PyDict> {
    var original, unoriginal := Filter(rest, IsOriginal), Reject(rest, IsOriginal);
    RankedSorted(original) + Unranked(original) + RankedSorted(unoriginal) + Unranked(unoriginal)
  }

  /** The ranked cosponsors of a list, sorted by rank (`sorted(…, key=lambda i: i.get('rank'))`). */
  function RankedSorted(cosponsors: seq<PyDict>): seq<PyDict> {
    SortBy(Filter(cosponsors, IsRanked), RankOf, IntLess)
  }

  /** The unranked cosponsors of a list, in order. */
  function Unranked(cosponsors: seq<PyDict>): seq<PyDict> {
    Reject(cosponsors, IsRanked)
  }

  /** The display group of a cosponsor after the first: 0 original ranked, 1 original unranked, 2 other ranked, 3 other unranked. */
  function GroupOf(c: PyDict): int {
    if IsOriginal(c) then (if IsRanked(c) then 0 else 1) else (if IsRanked(c) then 2 else 3)
  }

  /** The order the display promises: by group, and by rank inside a ranked group. */
  function DisplayKey(c: PyDict): (int, int) {
    (GroupOf(c), if IsRanked(c) then RankOf(c) else 0)
  }

  predicate KeyLess(a: (int, int), b: (int, int)) {
    a.0 < b.0 || (a.0 == b.0 && a.1 < b.1)
  }

  lemma IntLessStrictWeak()
    ensures StrictWeakOrder(IntLess)
  {
  }

  /** Each of the four lists the view builds holds exactly the cosponsors of one group. */
  lemma GroupsMembers(rest: seq<PyDict>)
    ensures forall x :: x in Filter(Filter(rest, IsOriginal), IsRanked) <==> x in rest && GroupOf(x) == 0
    ensures forall x :: x in Reject(Filter(rest, IsOriginal), IsRanked) <==> x in rest && GroupOf(x) == 1
    ensures forall x :: x in Filter(Reject(rest, IsOriginal), IsRanked) <==> x in rest && GroupOf(x) == 2
    ensures forall x :: x in Reject(Reject(rest, IsOriginal), IsRanked) <==> x in rest && GroupOf(x) == 3
  {
    OriginalGroupsMembers(rest);
    OtherGroupsMembers(rest);
  }

  lemma OriginalGroupsMembers(rest: seq<PyDict>)
    ensures forall x :: x in Filter(Filter(rest, IsOriginal), IsRanked) <==> x in rest && GroupOf(x) == 0
    ensures forall x :: x in Reject(Filter(rest, IsOriginal), IsRanked) <==> x in rest && GroupOf(x) == 1
  {
    FilterMembers(rest, IsOriginal);
    SplitGroupMembers(rest, Filter(rest, IsOriginal), true);
  }

  lemma OtherGroupsMembers(rest: seq<PyDict>)
    ensures forall x :: x in Filter(Reject(rest, IsOriginal), IsRanked) <==> x in rest && GroupOf(x) == 2
    ensures forall x :: x in Reject(Reject(rest, IsOriginal), IsRanked) <==> x in rest && GroupOf(x) == 3
  {
    RejectMembers(rest, IsOriginal);
    SplitGroupMembers(rest, Reject(rest, IsOriginal), false);
  }

  /** Splitting the original (or the other) cosponsors by rank gives their two groups. */
  lemma SplitGroupMembers(rest: seq<PyDict>, part: seq<PyDict>, original: bool)
    requires forall x :: x in part <==> x in rest && IsOriginal(x) == original
    ensures forall x :: x in Filter(part, IsRanked) <==> x in rest && GroupOf(x) == (if original then 0 else 2)
    ensures forall x :: x in Reject(part, IsRanked) <==> x in rest && GroupOf(x) == (if original then 1 else 3)
  {
    FilterMembers(part, IsRanked);
    RejectMembers(part, IsRanked);
  }

  /** Selecting the cosponsors of one display key from a group list or from the whole list gives the same. */
  lemma GroupsFilterKey(rest: seq<PyDict>, k: (int, int))
    ensures FilterKey(Filter(Filter(rest, IsOriginal), IsRanked), DisplayKey, k) == if k.0 == 0 then FilterKey(rest, DisplayKey, k) else []
    ensures FilterKey(Reject(Filter(rest, IsOriginal), IsRanked), DisplayKey, k) == if k.0 == 1 then FilterKey(rest, DisplayKey, k) else []
    ensures FilterKey(Filter(Reject(rest, IsOriginal), IsRanked), DisplayKey, k) == if k.0 == 2 then FilterKey(rest, DisplayKey, k) else []
    ensures FilterKey(Reject(Reject(rest, IsOriginal), IsRanked), DisplayKey, k) == if k.0 == 3 then FilterKey(rest, DisplayKey, k) else []
  {
    GroupsMembers(rest);
    var original, other := Filter(rest, IsOriginal), Reject(rest, IsOriginal);
    FilterMembers(rest, IsOriginal);
    RejectMembers(rest, IsOriginal);
    if k.0 == 0 || k.0 == 1 {
      FilterKeyOfFilter(rest, IsOriginal, DisplayKey, k);
    } else {
      FilterKeyOfReject(rest, IsOriginal, DisplayKey, k);
    }
    if k.0 == 0 {
      FilterKeyOfFilter(original, IsRanked, DisplayKey, k);
    } else {
      FilterKeyNone(Filter(original, IsRanked), DisplayKey, k);
    }
    if k.0 == 1 {
      FilterKeyOfReject(original, IsRanked, DisplayKey, k);
    } else {
      FilterKeyNone(Reject(original, IsRanked), DisplayKey, k);
    }
    if k.0 == 2 {
      FilterKeyOfFilter(other, IsRanked, DisplayKey, k);
    } else {
      FilterKeyNone(Filter(other, IsRanked), DisplayKey, k);
    }
    if k.0 == 3 {
      FilterKeyOfReject(other, IsRanked, DisplayKey, k);
    } else {
      FilterKeyNone(Reject(other, IsRanked), DisplayKey, k);
    }
  }

  /** Sorting a ranked group by rank keeps, for each display key, the cosponsors in their order. */
  lemma SortedGroupFilterKey(group: seq<PyDict>, g: int, k: (int, int))
    requires forall x :: x in group ==> GroupOf(x) == g && IsRanked(x)
    ensures FilterKey(SortBy(group, RankOf, IntLess), DisplayKey, k) == FilterKey(group, DisplayKey, k)
  {
    var sorted := SortBy(group, RankOf, IntLess);
    SortByPermutation(group, RankOf, IntLess);
    assert forall x :: x in sorted ==> x in group by {
      forall x | x in sorted ensures x in group {
        assert x in multiset(sorted);
      }
    }
    if k.0 == g {
      FilterKeyRekey(sorted, DisplayKey, k, RankOf, k.1);
      SortByStable(group, RankOf, IntLess, k.1);
      FilterKeyRekey(group, RankOf, k.1, DisplayKey, k);
    } else {
      FilterKeyNone(sorted, DisplayKey, k);
      FilterKeyNone(group, DisplayKey, k);
    }
  }

  /** A ranked group sorted by rank is sorted by display key; an unranked group is, as it stands. */
  lemma GroupSortedByKey(xs: seq<PyDict>, g: int)
    requires forall x :: x in xs ==> GroupOf(x) == g
    requires ((forall x :: x in xs ==> IsRanked(x)) && SortedBy(xs, RankOf, IntLess))
          || (forall x :: x in xs ==> !IsRanked(x))
    ensures SortedBy(xs, DisplayKey, KeyLess)
  {
    forall i, j | 0 <= i < j < |xs| ensures !KeyLess(DisplayKey(xs[j]), DisplayKey(xs[i])) {
      assert xs[i] in xs && xs[j] in xs;
    }
  }

  /** Splitting a list into its sorted ranked and its unranked cosponsors loses and adds nothing. */
  lemma RankedSplitPermutation(cosponsors: seq<PyDict>)
    ensures multiset(RankedSorted(cosponsors)) + multiset(Unranked(cosponsors)) == multiset(cosponsors)
  {
    FilterRejectPermutation(cosponsors, IsRanked);
    SortByPermutation(Filter(cosponsors, IsRanked), RankOf, IntLess);
  }

  lemma RankedSplitMembers(cosponsors: seq<PyDict>)
    ensures forall x :: x in RankedSorted(cosponsors) ==> x in cosponsors && IsRanked(x)
    ensures forall x :: x in Unranked(cosponsors) ==> x in cosponsors && !IsRanked(x)
  {
    SortByPermutation(Filter(cosponsors, IsRanked), RankOf, IntLess);
    FilterMembers(cosponsors, IsRanked);
    RejectMembers(cosponsors, IsRanked);
    forall x | x in RankedSorted(cosponsors) ensures x in Filter(cosponsors, IsRanked) {
      assert x in multiset(RankedSorted(cosponsors));
    }
  }

  /** The four blocks after the first cosponsor hold groups 0, 1, 2 and 3. */
  lemma BlocksMembers(rest: seq<PyDict>)
    ensures forall x :: x in RankedSorted(Filter(rest, IsOriginal)) ==> GroupOf(x) == 0 && IsRanked(x)
    ensures forall x :: x in Unranked(Filter(rest, IsOriginal)) ==> GroupOf(x) == 1 && !IsRanked(x)
    ensures forall x :: x in RankedSorted(Reject(rest, IsOriginal)) ==> GroupOf(x) == 2 && IsRanked(x)
    ensures forall x :: x in Unranked(Reject(rest, IsOriginal)) ==> GroupOf(x) == 3 && !IsRanked(x)
  {
    FilterMembers(rest, IsOriginal);
    RejectMembers(rest, IsOriginal);
    BlockPairMembers(Filter(rest, IsOriginal), true);
    BlockPairMembers(Reject(rest, IsOriginal), false);
  }

  /** The two blocks built from the original (or the other) cosponsors hold their ranked and unranked groups. */
  lemma BlockPairMembers(part: seq<PyDict>, original: bool)
    requires forall x :: x in part ==> IsOriginal(x) == original
    ensures forall x :: x in RankedSorted(part) ==> GroupOf(x) == (if original then 0 else 2) && IsRanked(x)
    ensures forall x :: x in Unranked(part) ==> GroupOf(x) == (if original then 1 else 3) && !IsRanked(x)
  {
    RankedSplitMembers(part);
  }

  /** The cosponsors after the first are ordered by group, and by rank inside the ranked groups. */
  lemma DisplayTailSorted(rest: seq<PyDict>)
    ensures SortedBy(DisplayTail(rest), DisplayKey, KeyLess)
  {
    var original, other := Filter(rest, IsOriginal), Reject(rest, IsOriginal);
    var b0, b1, b2, b3 := RankedSorted(original), Unranked(original), RankedSorted(other), Unranked(other);
    BlocksMembers(rest);
    RankedSortedSorted(original);
    RankedSortedSorted(other);
    GroupSortedByKey(b0, 0);
    GroupSortedByKey(b1, 1);
    GroupSortedByKey(b2, 2);
    GroupSortedByKey(b3, 3);
    GroupsInOrder(b0, b1);
    SortedByAppend(b0, b1, DisplayKey, KeyLess);
    GroupsInOrder(b0 + b1, b2);
    SortedByAppend(b0 + b1, b2, DisplayKey, KeyLess);
    GroupsInOrder(b0 + b1 + b2, b3);
    SortedByAppend(b0 + b1 + b2, b3, DisplayKey, KeyLess);
  }

  lemma RankedSortedSorted(cosponsors: seq<PyDict>)
    ensures SortedBy(RankedSorted(cosponsors), RankOf, IntLess)
  {
    IntLessStrictWeak();
    SortBySorted(Filter(cosponsors, IsRanked), RankOf, IntLess);
  }

  /** Every group of the first list comes before every group of the second. */
  lemma GroupsInOrder(a: seq<PyDict>, b: seq<PyDict>)
    requires forall x, y :: x in a && y in b ==> GroupOf(x) < GroupOf(y)
    ensures forall i, j :: 0 <= i < |a| && 0 <= j < |b| ==> !KeyLess(DisplayKey(b[j]), DisplayKey(a[i]))
  {
    forall i, j | 0 <= i < |a| && 0 <= j < |b| ensures !KeyLess(DisplayKey(b[j]), DisplayKey(a[i])) {
      assert a[i] in a && b[j] in b;
    }
  }

  /** Sorting the original ranked block by rank keeps, for each display key, the cosponsors in their order. */
  lemma Block0FilterKey(rest: seq<PyDict>, k: (int, int))
    ensures FilterKey(RankedSorted(Filter(rest, IsOriginal)), DisplayKey, k)
         == if k.0 == 0 then FilterKey(rest, DisplayKey, k) else []
  {
    GroupsMembers(rest);
    GroupsFilterKey(rest, k);
    SortedGroupFilterKey(Filter(Filter(rest, IsOriginal), IsRanked), 0, k);
  }

  /** Sorting the other ranked block by rank keeps, for each display key, the cosponsors in their order. */
  lemma Block2FilterKey(rest: seq<PyDict>, k: (int, int))
    ensures FilterKey(RankedSorted(Reject(rest, IsOriginal)), DisplayKey, k)
         == if k.0 == 2 then FilterKey(rest, DisplayKey, k) else []
  {
    GroupsMembers(rest);
    GroupsFilterKey(rest, k);
    SortedGroupFilterKey(Filter(Reject(rest, IsOriginal), IsRanked), 2, k);
  }

  /** No cosponsor has a display key outside the four groups. */
  lemma NoSuchGroup(rest: seq<PyDict>, k: (int, int))
    requires !(0 <= k.0 <= 3)
    ensures FilterKey(rest, DisplayKey, k) == []
  {
    FilterKeyNone(rest, DisplayKey, k);
  }

  /** Selecting the cosponsors of one display key from each of the four blocks. */
  lemma BlocksFilterKey(rest: seq<PyDict>, k: (int, int))
    ensures var original, other, f := Filter(rest, IsOriginal), Reject(rest, IsOriginal), FilterKey(rest, DisplayKey, k);
      && FilterKey(RankedSorted(original), DisplayKey, k) == (if k.0 == 0 then f else [])
      && FilterKey(Unranked(original), DisplayKey, k) == (if k.0 == 1 then f else [])
      && FilterKey(RankedSorted(other), DisplayKey, k) == (if k.0 == 2 then f else [])
      && FilterKey(Unranked(other), DisplayKey, k) == (if k.0 == 3 then f else [])
  {
    Block0FilterKey(rest, k);
    Block2FilterKey(rest, k);
    GroupsFilterKey(rest, k);
  }

  /** Cosponsors after the first with equal display keys keep their order: the grouping and the rank sorts are stable. */
  lemma DisplayTailStable(rest: seq<PyDict>, k: (int, int))
    ensures FilterKey(DisplayTail(rest), DisplayKey, k) == FilterKey(rest, DisplayKey, k)
  {
    var original, other := Filter(rest, IsOriginal), Reject(rest, IsOriginal);
    var b0, b1, b2, b3 := RankedSorted(original), Unranked(original), RankedSorted(other), Unranked(other);
    var f := FilterKey(rest, DisplayKey, k);
    assert DisplayTail(rest) == b0 + b1 + b2 + b3;
    BlocksFilterKey(rest, k);
    if 0 <= k.0 <= 3 {
      OneBlockSelects(b0, b1, b2, b3, DisplayKey, k, f, k.0);
    } else {
      NoSuchGroup(rest, k);
      OneBlockSelects(b0, b1, b2, b3, DisplayKey, k, f, 0);
    }
  }

  /** The cosponsors after the first are reordered without losing or adding any. */
  lemma DisplayTailPermutation(rest: seq<PyDict>)
    ensures multiset(DisplayTail(rest)) == multiset(rest)
  {
    var original, other := Filter(rest, IsOriginal), Reject(rest, IsOriginal);
    RankedSplitPermutation(original);
    RankedSplitPermutation(other);
    FilterRejectPermutation(rest, IsOriginal);
    FourWaySplit(RankedSorted(original), Unranked(original), RankedSorted(other), Unranked(other), original, other, rest);
  }

  /**
   * The display keeps the first cosponsor first, reorders the cosponsors without losing or adding
   * any, orders the rest by group and rank, and keeps cosponsors with equal keys in their order.
   */
  lemma DisplayOrderSpec(cosponsors: seq<PyDict>, k: (int, int))
    ensures multiset(DisplayOrder(cosponsors)) == multiset(cosponsors)
    ensures cosponsors != [] ==> DisplayOrder(cosponsors)[0] == cosponsors[0]
    ensures cosponsors != [] ==> SortedBy(DisplayOrder(cosponsors)[1..], DisplayKey, KeyLess)
    ensures cosponsors != [] ==>
      FilterKey(DisplayOrder(cosponsors)[1..], DisplayKey, k) == FilterKey(cosponsors[1..], DisplayKey, k)
  {
    if cosponsors != [] {
      var rest := cosponsors[1..];
      DisplayTailPermutation(rest);
      DisplayTailSorted(rest);
      DisplayTailStable(rest, k);
      ConsParts(cosponsors, DisplayOrder(cosponsors), DisplayTail(rest));
    }
  }

  /** `cosponsors[:1]` followed by the display order of `cosponsors[1:]`. */
  lemma DisplayOrderOfSlices(cosponsors: seq<PyDict>, first: seq<PyDict>, rest: seq<PyDict>, tail: seq<PyDict>)
    requires first == (if cosponsors == [] then [] else cosponsors[..1])
    requires rest == (if cosponsors == [] then [] else cosponsors[1..])
    requires tail == DisplayTail(rest)
    ensures first + tail == DisplayOrder(cosponsors)
  {
    if cosponsors == [] {
      assert DisplayTail([]) == [];
    } else {
      assert first == [cosponsors[0]];
    }
  }

  /**
   * `get_cosponsors_dict()`, with the member lookup as a parameter: sort by name, place the
   * sponsor, enrich every entry, then order for display.
   */
  function DisplayedCosponsors(cosponsorsDict: Value, sponsor: PyDict, committeesDict: Value,
                          lookup: Value -> Option<Member>): Result<seq<PyDict>>
  {
    var sorted :- SortByName(cosponsorsDict);
    var enriched :- EnrichAll(PlaceSponsor(sorted, sponsor), lookup, committeesDict);
    Success(DisplayOrder(enriched))
  }

  // ----- the detail view -----

  /**
   * The bill detail view for one bill. `billNumber` is both the URL slug and the bill's
   * `bill_congress_type_number` (the view looks the bill up by that field); the other constants
   * are the bill's stored fields; `identicalBillNumbers` is the list the view computes and the
   * related-document queries read.
   */
  class BillDetailView {
    const billNumber: string
    const similarBills: seq<SimilarBill>
    const committeesDict: Value
    const cosponsorsDict: Value
    const sponsor: PyDict
    var identicalBillNumbers: seq<string>

    constructor (billNumber: string, similarBills: seq<SimilarBill>, committeesDict: Value,
                 cosponsorsDict: Value, sponsor: PyDict)
      ensures this.billNumber == billNumber && this.similarBills == similarBills
      ensures this.committeesDict == committeesDict && identicalBillNumbers == []
      ensures this.cosponsorsDict == cosponsorsDict && this.sponsor == sponsor
    {
      this.billNumber := billNumber;
      this.similarBills := similarBills;
      this.committeesDict := committeesDict;
      this.cosponsorsDict := cosponsorsDict;
      this.sponsor := sponsor;
      identicalBillNumbers := [];
    }

    /**
     * `get_cosponsors_dict()`, with `Cosponsor.objects.get` as `lookup`: sort by name, place the
     * sponsor, enrich every cosponsor, split the ones after the first into original and other
     * and each of those into ranked and unranked, sort the ranked lists by rank and join.
     */
    method CosponsorsDict(lookup: Value -> Option<Member>) returns (r: Result<seq<PyDict>>)
      ensures r == DisplayedCosponsors(cosponsorsDict, sponsor, committeesDict, lookup)
    {
      var sorted :- SortByName(cosponsorsDict);
      var placed := PlaceSponsor(sorted, sponsor);
      var cosponsors :- EnrichCosponsors(placed, lookup, committeesDict);
      var first, rest := if cosponsors == [] then [] else cosponsors[..1], if cosponsors == [] then [] else cosponsors[1..];
      var original, unoriginal := SplitBy(rest, IsOriginal);
      var originalRanked, originalUnranked := SplitBy(original, IsRanked);
      var unoriginalRanked, unoriginalUnranked := SplitBy(unoriginal, IsRanked);
      originalRanked := SortBy(originalRanked, RankOf, IntLess);
      unoriginalRanked := SortBy(unoriginalRanked, RankOf, IntLess);
      var tail := originalRanked + originalUnranked + unoriginalRanked + unoriginalUnranked;
      assert tail == DisplayTail(rest);
      DisplayOrderOfSlices(cosponsors, first, rest, tail);
      assert DisplayedCosponsors(cosponsorsDict, sponsor, committeesDict, lookup) == Success(DisplayOrder(cosponsors));
      return Success(first + tail);
    }

    /**
     * `get_identical_bill_numbers()`: select the identical similar bills' numbers, store them, and
     * order them with `sort_bills_for_congress` (a parameter here), which sorts the stored list in
     * place. A failing current-score lookup raises before anything is stored.
     */
    method GetIdenticalBillNumbers(cleanReasons: seq<string> -> seq<string>, sortBills: seq<string> -> seq<string>)
      returns (r: Result<seq<string>>)
      modifies this`identicalBillNumbers
      ensures CurrentBillScore(billNumber, similarBills).Failure? ==>
        r == Failure(CurrentBillScore(billNumber, similarBills).error) && identicalBillNumbers == old(identicalBillNumbers)
      ensures CurrentBillScore(billNumber, similarBills).Success? ==>
        var selected := IdenticalNumbers(similarBills, CurrentBillScore(billNumber, similarBills).value, cleanReasons);
        r == Success(sortBills(selected)) && identicalBillNumbers == sortBills(selected)
    {
      var currentBillScore := CurrentBillScore(billNumber, similarBills);
      if currentBillScore.Failure? {
        return Failure(currentBillScore.error);
      }
      var selected := IdenticalNumbers(similarBills, currentBillScore.value, cleanReasons);
      identicalBillNumbers := sortBills(selected);
      return Success(identicalBillNumbers);
    }

    /**
     * The bill numbers `get_related_statements`, `get_related_committees` and `get_related_cbo`
     * query, and the congress they filter on: the slug without its congress, then each identical
     * bill's number without its congress unless already listed; the congress is `slug[:3]`.
     */
    method RelatedBillNumbers() returns (numbers: seq<string>, congress: string)
      ensures numbers == RelatedNumbers(billNumber, identicalBillNumbers)
      ensures congress == SliceTo(billNumber, 3)
    {
      ghost var all := [Suffix3(billNumber)] + Map(identicalBillNumbers, Suffix3);
      numbers := [Suffix3(billNumber)];
      assert all[..1] == [Suffix3(billNumber)];
      assert Dedup(all[..1]) == numbers by { assert all[..1][..0] == []; }
      for i := 0 to |identicalBillNumbers|
        invariant numbers == Dedup(all[..i + 1])
      {
        var number := Suffix3(identicalBillNumbers[i]);
        assert all[..i + 2][..i + 1] == all[..i + 1] && all[i + 1] == number;
        DedupMembers(all[..i + 1]);
        if number !in numbers {
          numbers := numbers + [number];
        }
      }
      assert all[..|identicalBillNumbers| + 1] == all;
      congress := SliceTo(billNumber, 3);
    }

    /**
     * `get_cosponsors_for_same_bills()`: the loop over the fetched rows keeps a dict keyed by
     * bioguide id, appending the row's bill number to a known id's entry and otherwise storing
     * the row with its relevant committees.
     */
    method CosponsorsForSameBills(billIdOf: string -> Option<int>, fetchRows: seq<int> -> seq<PyDict>)
      returns (r: Result<seq<Merged>>)
      ensures r == SameBillsCosponsors(billNumber, identicalBillNumbers, committeesDict, billIdOf, fetchRows)
    {
      var committeesMap :- GetCommitteesMap(committeesDict);
      var numbers := SameBillNumbers(billNumber, identicalBillNumbers);
      var ids :- BillIds(numbers, billIdOf);
      var billDict := BillDictOf(ids, numbers);
      var rows := fetchRows(ids);
      var order: seq<Value> := [];
      var deduped: map<Value, Merged> := map[];
      for i := 0 to |rows|
        invariant MergeRows(rows[..i], billDict, committeesMap) == Success(Roster(order, deduped))
      {
        MergeRowsSnoc(rows, i, billDict, committeesMap);
        var bctn := BctnOf(rows[i], billDict);
        var bioguideId := BioguideOf(rows[i]);
        if bioguideId in deduped {
          deduped := deduped[bioguideId := deduped[bioguideId].(billNumbers := deduped[bioguideId].billNumbers + [bctn])];
        } else {
          var entry := StartEntry(rows[i], bctn, committeesMap);
          if entry.Failure? {
            MergeRowsPrefixFails(rows, i + 1, billDict, committeesMap);
            return Failure(entry.error);
          }
          order := order + [bioguideId];
          deduped := deduped[bioguideId := entry.value];
        }
      }
      assert rows[..|rows|] == rows;
      return Success(RosterValues(Roster(order, deduped)));
    }

    /**
     * The bill numbers `get_crs_reports` queries, with the repeat check corrected to compare whole
     * numbers: the slug, then each identical number not yet listed.
     */
    method CrsReportBillNumbers() returns (numbers: seq<string>)
      ensures numbers == CrsBillNumbers(billNumber, identicalBillNumbers)
    {
      ghost var all := [billNumber] + identicalBillNumbers;
      numbers := [billNumber];
      assert Dedup(all[..1]) == numbers by { assert all[..1][..0] == []; }
      for i := 0 to |identicalBillNumbers|
        invariant numbers == Dedup(all[..i + 1])
      {
        var number := identicalBillNumbers[i];
        assert all[..i + 2][..i + 1] == all[..i + 1] && all[i + 1] == number;
        DedupMembers(all[..i + 1]);
        if number !in numbers {
          numbers := numbers + [number];
        }
      }
      assert all[..|identicalBillNumbers| + 1] == all;
    }
  }
}

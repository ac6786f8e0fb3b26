/**
 * The scanner's publisher: Prowler lists are sent in batches, everything else whole. What reaches the
 * aggregator this way is compared with the findings of the whole reports.
 */
module ScannerPublisher {
  import opened Prelude
  import opened Aggregator

  predicate Splits<T>(source: string, document: Payload<T>) {
    source == "prowler" && document.List?
  }

  /** The batches of a list from one index on; range() yields nothing for a negative step. */
  function Batches<T>(items: seq<T>, index: nat, batch: int): seq<Payload<T>>
    decreases |items| - index
  {
    if batch <= 0 || index >= |items| then []
    else [List(items[index..Min(index + batch, |items|)])] + Batches(items, index + batch, batch)
  }

  function PayloadsOf<T>(documents: seq<Payload<T>>, source: string, batch: int): seq<Payload<T>> {
    if documents == [] then []
    else
      var last := documents[|documents| - 1];
      PayloadsOf(documents[..|documents| - 1], source, batch)
      + if Splits(source, last) then Batches(last.items, 0, batch) else [last]
  }

  /** range() raises for a zero step, which is reached with the first list to split. */
  ghost predicate Raises<T>(documents: seq<Payload<T>>, source: string, batch: int) {
    batch == 0 && exists d :: d in documents && Splits(source, d)
  }

  /** How many documents come before the first list to split; all of them if there is none. */
  function FirstSplit<T>(documents: seq<Payload<T>>, source: string): (n: nat)
    ensures n <= |documents| && (n < |documents| ==> Splits(source, documents[n]))
    ensures forall m :: 0 <= m < n ==> !Splits(source, documents[m])
  {
    if documents == [] || Splits(source, documents[0]) then 0 else 1 + FirstSplit(documents[1..], source)
  }

  method SplitList<T>(items: seq<T>, batch: int) returns (payloads: seq<Payload<T>>)
    requires batch != 0
    ensures payloads == Batches(items, 0, batch)
  {
    payloads := [];
    var index := 0;
    while batch > 0 && index < |items|
      invariant Batches(items, 0, batch) == payloads + Batches(items, index, batch)
      decreases |items| - index
    {
      Regroup(payloads, [List(items[index..Min(index + batch, |items|)])], Batches(items, index + batch, batch));
      payloads := payloads + [List(items[index..Min(index + batch, |items|)])];
      index := index + batch;
    }
  }

  method Payloads<T>(documents: seq<Payload<T>>, source: string, batch: int) returns (payloads: seq<Payload<T>>, raised: bool)
    ensures raised <==> Raises(documents, source, batch)
    ensures payloads == PayloadsOf(if raised then documents[..FirstSplit(documents, source)] else documents, source, batch)
  {
    payloads, raised := [], false;
    for n := 0 to |documents|
      invariant payloads == PayloadsOf(documents[..n], source, batch)
      invariant batch == 0 ==> forall d :: d in documents[..n] ==> !Splits(source, d)
      invariant batch == 0 ==> FirstSplit(documents, source) == n + FirstSplit(documents[n..], source)
    {
      assert documents[..n + 1][..n] == documents[..n];
      assert documents[n..][1..] == documents[n + 1..];
      if Splits(source, documents[n]) {
        if batch == 0 {
          return payloads, true;
        }
        var split := SplitList(documents[n].items, batch);
        payloads := payloads + split;
      } else {
        payloads := payloads + [documents[n]];
      }
    }
    assert documents[..|documents|] == documents;
  }

  // ---------------------------------------------------------------- what is sent

  function Joined<T>(payloads: seq<Payload<T>>): seq<T> {
    if payloads == [] then [] else Items(payloads[0]) + Joined(payloads[1..])
  }

  lemma BatchesFirst<T>(items: seq<T>, index: nat, batch: int)
    requires batch >= 1 && index < |items|
    ensures var next := Min(index + batch, |items|);
            Batches(items, index, batch) == [List(items[index..next])] + Batches(items, next, batch)
    ensures index + batch >= |items| ==> Batches(items, |items|, batch) == []
  {
  }

  /** The batches of a list follow one another, are lists, and all but the last are full. */
  lemma {:induction false} BatchesExactly<T>(items: seq<T>, index: nat, batch: int)
    requires batch >= 1 && index <= |items|
    ensures var batches := Batches(items, index, batch);
            && Joined(batches) == items[index..]
            && (forall k :: 0 <= k < |batches| ==> batches[k].List? && 1 <= |batches[k].items| <= batch)
            && (forall k :: 0 <= k < |batches| - 1 ==> |batches[k].items| == batch)
    decreases |items| - index
  {
    if index < |items| {
      var next := Min(index + batch, |items|);
      BatchesExactly(items, next, batch);
      BatchesFirst(items, index, batch);
      hide Batches;
      SliceInTwo(items, index, next);
    }
  }

  /** Only lists of Prowler are split; every other document is sent as it is, alone. */
  lemma {:induction false} OthersSentWhole<T>(documents: seq<Payload<T>>, source: string, batch: int)
    requires source != "prowler" || forall d :: d in documents ==> d.Single?
    ensures PayloadsOf(documents, source, batch) == documents && !Raises(documents, source, batch)
  {
    hide Batches;
    if documents != [] {
      var n := |documents| - 1;
      assert documents[n] in documents;
      OthersSentWhole(documents[..n], source, batch);
      assert documents[..n] + [documents[n]] == documents;
    }
  }

  // ---------------------------------------------------------------- what arrives

  /** Every finding of the reports, each taken whole and without a cap. */
  function AllChecks(payloads: seq<Payload<Check>>, publishPassed: bool): seq<Finding> {
    if payloads == [] then []
    else AllChecks(payloads[..|payloads| - 1], publishPassed) + CheckFindings(Items(payloads[|payloads| - 1]), publishPassed)
  }

  /** What the aggregator's capped loop returns for the payloads, one after the other. */
  function Delivered(payloads: seq<Payload<Check>>, cap: int, publishPassed: bool): seq<Finding> {
    if payloads == [] then []
    else
      Delivered(payloads[..|payloads| - 1], cap, publishPassed)
      + Upto(CheckFindings(Items(payloads[|payloads| - 1]), publishPassed), Max(cap, 1))
  }

  ghost predicate Lossless(documents: seq<Payload<Check>>, batch: int, cap: int, publishPassed: bool) {
    && !Raises(documents, "prowler", batch)
    && Delivered(PayloadsOf(documents, "prowler", batch), cap, publishPassed) == AllChecks(documents, publishPassed)
  }

  lemma AllChecksSnoc(a: seq<Payload<Check>>, p: Payload<Check>, publishPassed: bool)
    ensures AllChecks(a + [p], publishPassed) == AllChecks(a, publishPassed) + CheckFindings(Items(p), publishPassed)
  {
    hide CheckFindings;
    assert (a + [p])[..|a|] == a;
  }

  lemma {:induction false} AllChecksConcat(a: seq<Payload<Check>>, b: seq<Payload<Check>>, publishPassed: bool)
    ensures AllChecks(a + b, publishPassed) == AllChecks(a, publishPassed) + AllChecks(b, publishPassed)
  {
    if b == [] {
      assert a + b == a;
    } else {
      var before, last := b[..|b| - 1], b[|b| - 1];
      AllChecksConcat(a, before, publishPassed);
      AllChecksSnoc(a + before, last, publishPassed);
      AllChecksSnoc(before, last, publishPassed);
      assert b == before + [last];
      hide *;
      Regroup(a, before, [last]);
      Regroup(AllChecks(a, publishPassed), AllChecks(before, publishPassed), CheckFindings(Items(last), publishPassed));
    }
  }

  lemma AllChecksOne(p: Payload<Check>, publishPassed: bool)
    ensures AllChecks([p], publishPassed) == CheckFindings(Items(p), publishPassed)
  {
    AllChecksSnoc([], p, publishPassed);
    assert [] + [p] == [p];
  }

  lemma SliceInTwo<T>(items: seq<T>, i: nat, j: nat)
    requires i <= j <= |items|
    ensures items[i..j] + items[j..] == items[i..]
  {
  }

  lemma {:induction false} BatchesKeepAll(items: seq<Check>, index: nat, batch: int, publishPassed: bool)
    requires batch >= 1 && index <= |items|
    ensures AllChecks(Batches(items, index, batch), publishPassed) == CheckFindings(items[index..], publishPassed)
    decreases |items| - index
  {
    if index < |items| {
      var next := Min(index + batch, |items|);
      var first, rest := List(items[index..next]), Batches(items, next, batch);
      BatchesKeepAll(items, next, batch, publishPassed);
      AllChecksConcat([first], rest, publishPassed);
      AllChecksOne(first, publishPassed);
      CheckFindingsConcat(items[index..next], items[next..], publishPassed);
      assert Batches(items, index, batch) == [first] + rest;
      hide *;
      SliceInTwo(items, index, next);
    }
  }

  /** Splitting neither drops nor reorders a check. */
  lemma {:induction false} SplittingKeepsAll(documents: seq<Payload<Check>>, source: string, batch: int, publishPassed: bool)
    requires batch >= 1
    ensures AllChecks(PayloadsOf(documents, source, batch), publishPassed) == AllChecks(documents, publishPassed)
  {
    if documents != [] {
      var before, last := documents[..|documents| - 1], documents[|documents| - 1];
      var parts := if Splits(source, last) then Batches(last.items, 0, batch) else [last];
      SplittingKeepsAll(before, source, batch, publishPassed);
      AllChecksConcat(PayloadsOf(before, source, batch), parts, publishPassed);
      if Splits(source, last) {
        BatchesKeepAll(last.items, 0, batch, publishPassed);
        assert last.items[0..] == last.items;
      }
      assert AllChecks(parts, publishPassed) == CheckFindings(Items(last), publishPassed);
    }
  }

  lemma {:induction false} DeliveredNoLonger(payloads: seq<Payload<Check>>, cap: int, publishPassed: bool)
    ensures |Delivered(payloads, cap, publishPassed)| <= |AllChecks(payloads, publishPassed)|
  {
    if payloads != [] {
      DeliveredNoLonger(payloads[..|payloads| - 1], cap, publishPassed);
    }
  }

  /** The cap loses findings exactly when some payload holds more of them than the cap. */
  lemma {:induction false} CapLosesExactly(payloads: seq<Payload<Check>>, cap: int, publishPassed: bool)
    ensures Delivered(payloads, cap, publishPassed) == AllChecks(payloads, publishPassed)
            <==> forall p :: p in payloads ==> |CheckFindings(Items(p), publishPassed)| <= Max(cap, 1)
  {
    if payloads != [] {
      var before, last := payloads[..|payloads| - 1], payloads[|payloads| - 1];
      assert payloads == before + [last];
      CapLosesExactly(before, cap, publishPassed);
      DeliveredNoLonger(before, cap, publishPassed);
      SplitPoint(Delivered(before, cap, publishPassed), AllChecks(before, publishPassed),
                 CheckFindings(Items(last), publishPassed), Max(cap, 1));
    }
  }

  lemma SplitPoint(a: seq<Finding>, b: seq<Finding>, c: seq<Finding>, cap: int)
    requires |a| <= |b| && cap >= 1
    ensures a + Upto(c, cap) == b + c <==> a == b && |c| <= cap
  {
    if a + Upto(c, cap) == b + c {
      assert |a| == |b|;
      assert a == (a + Upto(c, cap))[..|a|] == (b + c)[..|b|] == b;
    }
  }

  lemma {:induction false} FindingsNoMoreThanChecks(checks: seq<Check>, publishPassed: bool)
    ensures |CheckFindings(checks, publishPassed)| <= |checks|
  {
    if checks != [] {
      FindingsNoMoreThanChecks(checks[..|checks| - 1], publishPassed);
    }
  }

  lemma {:induction false} BatchesFit(items: seq<Check>, index: nat, batch: int)
    requires batch >= 1
    ensures forall p :: p in Batches(items, index, batch) ==> |Items(p)| <= batch
    decreases |items| - index
  {
    if index < |items| {
      BatchesFit(items, index + batch, batch);
    }
  }

  lemma {:induction false} PayloadsFit(documents: seq<Payload<Check>>, batch: int)
    requires batch >= 1
    ensures forall p :: p in PayloadsOf(documents, "prowler", batch) ==> |Items(p)| <= batch
  {
    if documents != [] {
      PayloadsFit(documents[..|documents| - 1], batch);
      var last := documents[|documents| - 1];
      if last.List? {
        BatchesFit(last.items, 0, batch);
      }
    }
  }

  // ---------------------------------------------------------------- main result

  const FAILING := Check("FAIL", "", "")

  function Failures(n: nat): (checks: seq<Check>)
    ensures |checks| == n
  {
    if n == 0 then [] else Failures(n - 1) + [FAILING]
  }

  lemma FailingIsPublished(publishPassed: bool)
    ensures Published(FAILING, publishPassed)
  {
    assert Status(FAILING)[0] == 'F';
  }

  lemma {:induction false} AllFailing(n: nat, publishPassed: bool)
    ensures |CheckFindings(Failures(n), publishPassed)| == n
  {
    if n > 0 {
      AllFailing(n - 1, publishPassed);
      CheckFindingsSnoc(Failures(n - 1), FAILING, publishPassed);
      FailingIsPublished(publishPassed);
      hide CheckFinding, Published, CheckFindings;
    }
  }

  lemma PayloadsOfOne<T>(document: Payload<T>, source: string, batch: int)
    ensures PayloadsOf([document], source, batch) == if Splits(source, document) then Batches(document.items, 0, batch) else [document]
  {
    assert [document][..0] == [];
  }

  lemma OneBatch<T>(items: seq<T>)
    requires items != []
    ensures Batches(items, 0, |items|) == [List(items)]
  {
    assert items[0..|items|] == items;
  }

  /** One list of failing checks, a single one or one more than the cap, is enough to lose a finding. */
  lemma BadBatchLoses(batch: int, cap: int, publishPassed: bool)
    requires batch <= 0 || batch > Max(cap, 1)
    ensures !Lossless([List(Failures(if batch <= 0 then 1 else batch))], batch, cap, publishPassed)
  {
    var n := if batch <= 0 then 1 else batch;
    var document := List(Failures(n));
    AllFailing(n, publishPassed);
    AllChecksOne(document, publishPassed);
    PayloadsOfOne(document, "prowler", batch);
    if batch > 0 {
      OneBatch(document.items);
      CapLosesExactly([document], cap, publishPassed);
      hide *;
      assert document in [document];
    } else {
      hide AllChecks, CheckFindings, Failures, PayloadsOf;
      assert document in [document];
    }
  }

  /** Batching and capping together lose no Prowler finding, whatever the reports, exactly for these batch sizes. */
  lemma LosslessExactly(batch: int, cap: int, publishPassed: bool)
    ensures (forall documents :: Lossless(documents, batch, cap, publishPassed)) <==> 1 <= batch <= Max(cap, 1)
  {
    if 1 <= batch <= Max(cap, 1) {
      forall documents
        ensures Lossless(documents, batch, cap, publishPassed)
      {
        var payloads := PayloadsOf(documents, "prowler", batch);
        SplittingKeepsAll(documents, "prowler", batch, publishPassed);
        PayloadsFit(documents, batch);
        forall p | p in payloads
          ensures |CheckFindings(Items(p), publishPassed)| <= Max(cap, 1)
        {
          FindingsNoMoreThanChecks(Items(p), publishPassed);
        }
        CapLosesExactly(payloads, cap, publishPassed);
      }
    } else {
      BadBatchLoses(batch, cap, publishPassed);
    }
  }
}

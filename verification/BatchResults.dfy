/** Joining the results of a batch back to its transfer records, and counting what came of them. */
module BatchResults {
  import opened Common

  datatype Result = Result(
    reference: string, success: bool, status: string, transactionId: string, message: string, fee: string)

  datatype Response = Response(success: bool, reference: string, status: string, transactionId: string, fee: string)

  /** The last result carrying a reference: the one a map filled in order remembers. */
  function LastWith(results: seq<Result>, ref: string): Option<Result>
  {
    if results == [] then None
    else if results[|results| - 1].reference == ref then Some(results[|results| - 1])
    else LastWith(results[..|results| - 1], ref)
  }

  /** What a record's owner is told: a missing result is taken for a success still pending. */
  function Respond(ref: string, found: Option<Result>): Response
  {
    match found
    case Some(r) => Response(r.success, ref, r.status, r.transactionId, r.fee)
    case None => Response(true, ref, "pending", "", "")
  }

  function Joined(refs: seq<string>, results: seq<Result>): (responses: seq<Response>)
  {
    seq(|refs|, i requires 0 <= i < |refs| => Respond(refs[i], LastWith(results, refs[i])))
  }

  datatype RecordState = RecordState(status: string, transactionId: string, fee: string, error: Option<string>)

  /** A stored record after the join: it takes over the result found for it, and keeps an earlier
      error message unless the result brings one. */
  function Settled(before: RecordState, found: Option<Result>): RecordState
  {
    match found
    case Some(r) => RecordState(r.status, r.transactionId, r.fee, if r.success then before.error else Some(r.message))
    case None => before.(status := "pending")
  }

  class TransferRecord {
    const reference: string
    var status: string
    var transactionId: string
    var fee: string
    var processingError: Option<string>

    function State(): RecordState
      reads this
    {
      RecordState(status, transactionId, fee, processingError)
    }

    constructor (reference: string)
      ensures this.reference == reference && State() == RecordState("pending", "", "", None)
    {
      this.reference := reference;
      status, transactionId, fee, processingError := "pending", "", "", None;
    }
  }

  function ReferencesOf(records: seq<TransferRecord>): seq<string>
  {
    seq(|records|, i requires 0 <= i < |records| => records[i].reference)
  }

  /** The lookup table of results, later ones overwriting earlier ones with the same reference. */
  method IndexByReference(results: seq<Result>) returns (table: map<string, Result>)
    ensures forall ref :: ref in table <==> LastWith(results, ref).Some?
    ensures forall ref | ref in table :: LastWith(results, ref) == Some(table[ref])
  {
    table := map[];
    for i := 0 to |results|
      invariant forall ref :: ref in table <==> LastWith(results[..i], ref).Some?
      invariant forall ref | ref in table :: LastWith(results[..i], ref) == Some(table[ref])
    {
      assert results[..i + 1][..i] == results[..i];
      table := table[results[i].reference := results[i]];
    }
    assert results[..|results|] == results;
  }

  /** updateTransferRecordsWithResults: every record takes over its result, and a record without
      one is left pending. */
  method UpdateTransferRecordsWithResults(records: seq<TransferRecord>, results: seq<Result>)
    returns (responses: seq<Response>)
    requires forall i, j | 0 <= i < j < |records| :: records[i] != records[j]
    modifies records
    ensures responses == Joined(ReferencesOf(records), results)
    ensures forall i | 0 <= i < |records| ::
      records[i].State() == Settled(old(records[i].State()), LastWith(results, records[i].reference))
  {
    var table := IndexByReference(results);
    responses := [];
    for i := 0 to |records|
      invariant |responses| == i
      invariant forall k | 0 <= k < i :: responses[k] == Respond(records[k].reference, LastWith(results, records[k].reference))
      invariant forall k | 0 <= k < i ::
        records[k].State() == Settled(old(records[k].State()), LastWith(results, records[k].reference))
      invariant forall k | i <= k < |records| :: records[k].State() == old(records[k].State())
    {
      var record := records[i];
      if record.reference in table {
        var tr := table[record.reference];
        record.status, record.transactionId, record.fee := tr.status, tr.transactionId, tr.fee;
        if !tr.success {
          record.processingError := Some(tr.message);
        }
        responses := responses + [Response(tr.success, record.reference, tr.status, tr.transactionId, tr.fee)];
      } else {
        record.status := "pending";
        responses := responses + [Response(true, record.reference, "pending", "", "")];
      }
    }
  }

  /** What the owner of a record is told and what the record becomes: the fields of the last result under
      its reference, with the message of a failure as its error; and without one, that its transfer
      succeeded and is pending. */
  lemma {:induction false} ToldByTheLast(refs: seq<string>, results: seq<Result>, i: nat, before: RecordState) returns (k: nat)
    requires i < |refs|
    ensures var told, kept := Joined(refs, results)[i], Settled(before, LastWith(results, refs[i]));
            if k < |results|
            then var r := results[k];
                 && r.reference == refs[i] && (forall j | k < j < |results| :: results[j].reference != refs[i])
                 && told == Response(r.success, refs[i], r.status, r.transactionId, r.fee)
                 && kept == RecordState(r.status, r.transactionId, r.fee, if r.success then before.error else Some(r.message))
            else (forall j | 0 <= j < |results| :: results[j].reference != refs[i])
                 && told == Response(true, refs[i], "pending", "", "")
                 && kept == RecordState("pending", before.transactionId, before.fee, before.error)
  {
    var n := |results| - 1;
    if results == [] {
      k := 0;
    } else if results[n].reference == refs[i] {
      k := n;
    } else {
      k := ToldByTheLast(refs, results[..n], i, before);
      assert forall j | 0 <= j < n :: results[..n][j] == results[j];
      if k >= n {
        k := |results|;
      }
    }
  }

  // ---- the order of results ----

  lemma {:induction false} LastWithIsOne(results: seq<Result>, ref: string)
    ensures var found := LastWith(results, ref);
            if found.Some? then found.value in results && found.value.reference == ref
            else forall r | r in results :: r.reference != ref
  {
    if results != [] {
      LastWithIsOne(results[..|results| - 1], ref);
    }
  }

  lemma {:induction false} LastWithConcat(a: seq<Result>, b: seq<Result>, ref: string)
    ensures LastWith(a + b, ref) == if LastWith(b, ref).Some? then LastWith(b, ref) else LastWith(a, ref)
  {
    if b == [] {
      assert a + b == a;
    } else {
      assert (a + b)[..|a + b| - 1] == a + b[..|b| - 1];
      LastWithConcat(a, b[..|b| - 1], ref);
    }
  }

  /** Results with one reference agree. */
  predicate Agree(results: seq<Result>, ref: string)
  {
    forall r, s | r in results && s in results && r.reference == ref && s.reference == ref :: r == s
  }

  /** Two result lists with the same members give a record the same answer when all the results
      carrying its reference agree. */
  lemma SameMembersSameAnswer(a: seq<Result>, b: seq<Result>, ref: string)
    requires forall r :: r in a <==> r in b
    requires Agree(a, ref)
    ensures LastWith(a, ref) == LastWith(b, ref)
  {
    LastWithIsOne(a, ref);
    LastWithIsOne(b, ref);
  }

  /** A rearrangement that puts a chosen result last. */
  lemma MoveLast(a: seq<Result>, r: Result) returns (b: seq<Result>)
    requires r in a
    ensures multiset(b) == multiset(a) && LastWith(b, r.reference) == Some(r)
  {
    var i :| 0 <= i < |a| && a[i] == r;
    b := a[..i] + a[i + 1..] + [r];
    assert a == a[..i] + [r] + a[i + 1..];
  }

  /** The answer for a reference is the same for every order of arrival exactly when the results
      carrying it agree; distinct references are enough, repeated ones are not. */
  lemma OrderMattersUnlessResultsAgree(a: seq<Result>, ref: string)
    ensures Agree(a, ref) <==> forall b: seq<Result> | multiset(b) == multiset(a) :: LastWith(b, ref) == LastWith(a, ref)
  {
    if Agree(a, ref) {
      forall b: seq<Result> | multiset(b) == multiset(a) ensures LastWith(b, ref) == LastWith(a, ref) {
        forall r ensures r in a <==> r in b {
          assert r in multiset(a) <==> r in multiset(b);
        }
        SameMembersSameAnswer(a, b, ref);
      }
    } else {
      var r, s :| r in a && s in a && r.reference == ref && s.reference == ref && r != s;
      var b := MoveLast(a, r);
      var c := MoveLast(a, s);
      assert LastWith(b, ref) != LastWith(c, ref);
    }
  }

  // ---- counting ----

  datatype Verdict = Succeeded | Waiting | Failed

  function VerdictOf(r: Response): Verdict
  {
    if r.success then Succeeded else if r.status == "pending" || r.status == "processing" then Waiting else Failed
  }

  function Tally(responses: seq<Response>, v: Verdict): (n: nat)
    ensures n <= |responses|
  {
    if responses == [] then 0
    else Tally(responses[..|responses| - 1], v) + if VerdictOf(responses[|responses| - 1]) == v then 1 else 0
  }

  /** Every response is counted once, under one verdict. */
  lemma {:induction false} TalliesPartition(responses: seq<Response>)
    ensures Tally(responses, Succeeded) + Tally(responses, Waiting) + Tally(responses, Failed) == |responses|
  {
    if responses != [] {
      TalliesPartition(responses[..|responses| - 1]);
    }
  }

  /** A verdict is unanimous exactly when its tally is the whole batch. */
  lemma {:induction false} TallyIsWholeIff(responses: seq<Response>, v: Verdict)
    ensures Tally(responses, v) == |responses| <==> forall i | 0 <= i < |responses| :: VerdictOf(responses[i]) == v
  {
    if responses != [] {
      var rest := responses[..|responses| - 1];
      TallyIsWholeIff(rest, v);
      assert forall i | 0 <= i < |rest| :: rest[i] == responses[i];
    }
  }

  lemma {:induction false} TallyIsZeroIff(responses: seq<Response>, v: Verdict)
    ensures Tally(responses, v) == 0 <==> forall i | 0 <= i < |responses| :: VerdictOf(responses[i]) != v
  {
    if responses != [] {
      var rest := responses[..|responses| - 1];
      TallyIsZeroIff(rest, v);
      assert forall i | 0 <= i < |rest| :: rest[i] == responses[i];
    }
  }

  method CountOutcomes(responses: seq<Response>) returns (successful: nat, failed: nat, pending: nat)
    ensures successful == Tally(responses, Succeeded)
    ensures failed == Tally(responses, Failed)
    ensures pending == Tally(responses, Waiting)
    ensures successful + failed + pending == |responses|
    ensures successful == |responses| <==> forall r | r in responses :: r.success
    ensures pending == |responses| <==> forall r | r in responses :: !r.success && (r.status == "pending" || r.status == "processing")
    ensures failed == 0 <==> forall r | r in responses :: r.success || r.status == "pending" || r.status == "processing"
  {
    successful, failed, pending := 0, 0, 0;
    for i := 0 to |responses|
      invariant successful == Tally(responses[..i], Succeeded)
      invariant failed == Tally(responses[..i], Failed)
      invariant pending == Tally(responses[..i], Waiting)
    {
      assert responses[..i + 1][..i] == responses[..i];
      var r := responses[i];
      if r.success {
        successful := successful + 1;
      } else if r.status == "pending" || r.status == "processing" {
        pending := pending + 1;
      } else {
        failed := failed + 1;
      }
    }
    assert responses[..|responses|] == responses;
    TalliesPartition(responses);
    TallyIsZeroIff(responses, Failed);
    TallyIsWholeIff(responses, Succeeded);
    TallyIsWholeIff(responses, Waiting);
  }
}

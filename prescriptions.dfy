/** The demo driver: each candidate prescription is appended to a fresh chain
    when the classifier labels it 0 (legitimate) and rejected otherwise. The
    labels are an input here; the classifier itself is not part of this model. */
module Prescriptions {
  import opened Chain

  /** One row of the candidate matrix: [quantity, dosage]. */
  datatype Sample = Sample(quantity: int, dosage: int)

  /** The payload stored on the chain for one accepted candidate. */
  datatype Prescription = Prescription(
    patientId: string,
    medication: string,
    quantity: int,
    dosage: int,
    status: string)

  const Legitimate: string := "legitimate"
  const Flagged: string := "flagged"

  function Digit(d: nat): char
    requires d < 10
  {
    "0123456789"[d]
  }

  /** The decimal digits of n, most significant first. */
  function DecimalString(n: nat): string
    decreases n
  {
    if n < 10 then [Digit(n)] else DecimalString(n / 10) + [Digit(n % 10)]
  }

  function StatusOf(prediction: int): string {
    if prediction == 0 then Legitimate else Flagged
  }

  /** The payload built for the candidate at position i (numbered i+1). */
  function PrescriptionFor(i: nat, s: Sample, prediction: int): Prescription {
    Prescription(
      "patient_" + DecimalString(i + 1),
      "medication_" + DecimalString(i + 1),
      s.quantity,
      s.dosage,
      StatusOf(prediction))
  }

  /** The positions below n whose label is 0, in increasing order. */
  function AcceptedIndices(predictions: seq<int>, n: nat): seq<nat>
    requires n <= |predictions|
    decreases n
  {
    if n == 0 then []
    else AcceptedIndices(predictions, n - 1) + (if predictions[n - 1] == 0 then [n - 1] else [])
  }

  /** A position below n is accepted exactly when its label is 0, and the
      accepted positions keep their input order. */
  lemma {:induction false} AcceptedIndicesSpec(predictions: seq<int>, n: nat)
    requires n <= |predictions|
    ensures forall i :: i in AcceptedIndices(predictions, n) <==> 0 <= i < n && predictions[i] == 0
    ensures forall j, k :: 0 <= j < k < |AcceptedIndices(predictions, n)| ==>
      AcceptedIndices(predictions, n)[j] < AcceptedIndices(predictions, n)[k]
    decreases n
  {
    if n > 0 {
      AcceptedIndicesSpec(predictions, n - 1);
      var prefix := AcceptedIndices(predictions, n - 1);
      forall j | 0 <= j < |prefix|
        ensures prefix[j] < n - 1
      {
        assert prefix[j] in prefix;
      }
    }
  }

  /** As many candidates are accepted as there are 0 labels. */
  lemma {:induction false} AcceptedCount(predictions: seq<int>, n: nat)
    requires n <= |predictions|
    ensures |AcceptedIndices(predictions, n)| == multiset(predictions[..n])[0]
    decreases n
  {
    if n > 0 {
      AcceptedCount(predictions, n - 1);
      assert predictions[..n] == predictions[..n - 1] + [predictions[n - 1]];
    }
  }

  /** The payloads and times appended for the candidates below n. */
  function AcceptedEntries(
    samples: seq<Sample>,
    predictions: seq<int>,
    stamps: seq<Timestamp>,
    n: nat): seq<Entry<Prescription>>
    requires n <= |samples| && n <= |predictions| && n <= |stamps|
    decreases n
  {
    if n == 0 then []
    else
      AcceptedEntries(samples, predictions, stamps, n - 1) +
      (if predictions[n - 1] == 0 then [Entry(PrescriptionFor(n - 1, samples[n - 1], 0), stamps[n - 1])] else [])
  }

  /** Entry k is the payload and the time of the k-th accepted position. */
  lemma {:induction false} AcceptedEntriesAt(
    samples: seq<Sample>,
    predictions: seq<int>,
    stamps: seq<Timestamp>,
    n: nat)
    requires n <= |samples| && n <= |predictions| && n <= |stamps|
    ensures |AcceptedEntries(samples, predictions, stamps, n)| == |AcceptedIndices(predictions, n)|
    ensures forall k :: 0 <= k < |AcceptedIndices(predictions, n)| ==>
      AcceptedIndices(predictions, n)[k] < n &&
      AcceptedEntries(samples, predictions, stamps, n)[k] ==
        var i := AcceptedIndices(predictions, n)[k];
        Entry(PrescriptionFor(i, samples[i], 0), stamps[i])
    decreases n
  {
    if n > 0 {
      AcceptedEntriesAt(samples, predictions, stamps, n - 1);
      AcceptedIndicesSpec(predictions, n - 1);
      var prefix := AcceptedIndices(predictions, n - 1);
      forall j | 0 <= j < |prefix|
        ensures prefix[j] < n - 1
      {
        assert prefix[j] in prefix;
      }
    }
  }

  /** Appends the candidate at position i, stamped with stamps[i], exactly
      when its label predictions[i] is 0, in input order. */
  method AppendLegitimate(
    blockchain: Blockchain<Prescription>,
    samples: seq<Sample>,
    predictions: seq<int>,
    stamps: seq<Timestamp>)
    requires |samples| <= |predictions| && |samples| <= |stamps|
    requires blockchain.chain == []
    modifies blockchain
    ensures blockchain.chain == Build(blockchain.hashing, AcceptedEntries(samples, predictions, stamps, |samples|))
  {
    var i := 0;
    while i < |samples|
      invariant 0 <= i <= |samples|
      invariant blockchain.chain == Build(blockchain.hashing, AcceptedEntries(samples, predictions, stamps, i))
    {
      var prescription := PrescriptionFor(i, samples[i], predictions[i]);
      assert prescription.status == Legitimate <==> predictions[i] == 0 by {
        assert Flagged[0] != Legitimate[0];
      }
      if prescription.status == Legitimate {
        ghost var before := AcceptedEntries(samples, predictions, stamps, i);
        ghost var e := Entry(prescription, stamps[i]);
        assert AcceptedEntries(samples, predictions, stamps, i + 1) == before + [e];
        assert (before + [e])[..|before|] == before;
        assert Build(blockchain.hashing, before + [e]) == Append(blockchain.hashing, blockchain.chain, e.data, e.timestamp);
        blockchain.AddBlock(prescription, stamps[i]);
      } else {
        ghost var before := AcceptedEntries(samples, predictions, stamps, i);
        assert before + [] == before;
        assert AcceptedEntries(samples, predictions, stamps, i + 1) == before;
      }
      i := i + 1;
    }
  }

  /** Builds a fresh chain, appends the legitimate candidates to it and then
      validates it. The chain holds, in input order, exactly the candidates
      labelled 0, and validation succeeds. */
  method RecordPrescriptions(
    h: Hashing<Prescription>,
    samples: seq<Sample>,
    predictions: seq<int>,
    stamps: seq<Timestamp>)
    returns (blockchain: Blockchain<Prescription>, valid: bool)
    requires |samples| <= |predictions| && |samples| <= |stamps|
    ensures fresh(blockchain) && blockchain.hashing == h
    ensures blockchain.chain == Build(h, AcceptedEntries(samples, predictions, stamps, |samples|))
    ensures |blockchain.chain| == multiset(predictions[..|samples|])[0]
    ensures forall k :: 0 <= k < |blockchain.chain| ==>
      k < |AcceptedIndices(predictions, |samples|)| &&
      var i := AcceptedIndices(predictions, |samples|)[k];
      i < |samples| &&
      blockchain.chain[k].data == PrescriptionFor(i, samples[i], 0) &&
      blockchain.chain[k].timestamp == stamps[i]
    ensures Linked(h, blockchain.chain)
    ensures valid
  {
    blockchain := new Blockchain(h);
    AppendLegitimate(blockchain, samples, predictions, stamps);
    ghost var entries := AcceptedEntries(samples, predictions, stamps, |samples|);
    BuildLinked(h, entries);
    AcceptedEntriesAt(samples, predictions, stamps, |samples|);
    AcceptedCount(predictions, |samples|);
    LinkedIsVerified(h, blockchain.chain);
    valid := blockchain.IsValid();
  }
}

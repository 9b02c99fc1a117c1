/** Matching and enrolment of src/recognizer.py: nearest-template
    identification with a threshold, and registration of the dimension-wise
    mean of a burst of sample embeddings. Distances are given, not computed. */
module Recognizer {
  import opened SrcConfig

  type Embedding = seq<real>

  /** One stored entry and its distance to the query embedding, listed in the
      store's iteration order. */
  datatype Scored = Scored(name: string, dist: real)

  const Unknown: string := "Unknown"
  /** The starting value of the running minimum, and the answer for an empty store. */
  const Sentinel: real := 100.0

  /** identify: a linear scan keeping the strictly smallest distance seen,
      starting from Sentinel, followed by the threshold test. */
  method Identify(scored: seq<Scored>) returns (identity: string, minDist: real)
    ensures |scored| == 0 ==> identity == Unknown && minDist == Sentinel
    ensures minDist <= Sentinel
    ensures forall i :: 0 <= i < |scored| ==> minDist <= scored[i].dist
    ensures minDist == Sentinel || exists i :: 0 <= i < |scored| && scored[i].dist == minDist
    ensures minDist > RecognitionThreshold ==> identity == Unknown
    ensures minDist <= RecognitionThreshold ==>
      exists k :: 0 <= k < |scored| && scored[k] == Scored(identity, minDist) &&
        forall j :: 0 <= j < k ==> scored[j].dist > minDist
  {
    minDist := Sentinel;
    identity := Unknown;
    if |scored| == 0 {
      return Unknown, Sentinel;
    }
    ghost var best := 0;
    var i := 0;
    while i < |scored|
      invariant 0 <= i <= |scored|
      invariant minDist <= Sentinel
      invariant forall j :: 0 <= j < i ==> minDist <= scored[j].dist
      invariant minDist == Sentinel ==> identity == Unknown
      invariant minDist < Sentinel ==> (0 <= best < i && scored[best] == Scored(identity, minDist) &&
        forall j :: 0 <= j < best ==> scored[j].dist > minDist)
    {
      var entry := scored[i];
      if entry.dist < minDist {
        minDist := entry.dist;
        identity := entry.name;
        best := i;
      }
      i := i + 1;
    }
    if minDist > RecognitionThreshold {
      return Unknown, minDist;
    }
  }

  /** The matching scenario for a single enrolled user: a query at 0.59 from
      the template is recognised, one at 0.61 is not. */
  method IdentifyAtThreshold() returns (near: string, nearDist: real, far: string, farDist: real)
    ensures near == "Alice" && nearDist == 0.59
    ensures far == Unknown && farDist == 0.61
  {
    var close, distant := [Scored("Alice", 0.59)], [Scored("Alice", 0.61)];
    near, nearDist := Identify(close);
    assert close[0].dist == 0.59;
    far, farDist := Identify(distant);
    assert distant[0].dist == 0.61;
  }

  /** All samples have the same number of dimensions as the first one; this
      is what concatenating them into one tensor needs. */
  predicate SameDimension(samples: seq<Embedding>) {
    forall i :: 0 <= i < |samples| ==> |samples[i]| == |samples[0]|
  }

  /** The sum of dimension `j` over all samples. */
  function SumAt(samples: seq<Embedding>, j: nat): (sum: real)
    requires forall i :: 0 <= i < |samples| ==> j < |samples[i]|
  {
    if samples == [] then 0.0 else SumAt(samples[..|samples| - 1], j) + samples[|samples| - 1][j]
  }

  /** The dimension-wise arithmetic mean of the samples (torch.mean over the
      stacked samples). */
  function Mean(samples: seq<Embedding>): (m: Embedding)
    requires |samples| > 0 && SameDimension(samples)
    ensures |m| == |samples[0]|
  {
    seq(|samples[0]|, j requires 0 <= j < |samples[0]| => SumAt(samples, j) / (|samples| as real))
  }

  /** Summing dimension `j` over n copies of one embedding gives n times its value. */
  lemma {:induction false} SumAtCopies(e: Embedding, n: nat, j: nat)
    requires j < |e|
    ensures SumAt(seq(n, _ => e), j) == n as real * e[j]
  {
    if n > 0 {
      var copies := seq(n, _ => e);
      assert copies[..n - 1] == seq(n - 1, _ => e);
      SumAtCopies(e, n - 1, j);
    }
  }

  /** The mean of N identical samples is that sample. */
  lemma {:induction false} MeanOfIdenticalSamples(e: Embedding, n: nat)
    requires n > 0
    ensures Mean(seq(n, _ => e)) == e
  {
    var copies := seq(n, _ => e);
    forall j | 0 <= j < |e| ensures Mean(copies)[j] == e[j] {
      SumAtCopies(e, n, j);
    }
  }

  /** Bounds on every sample's dimension `j` bound their sum. */
  lemma {:induction false} SumAtBounds(samples: seq<Embedding>, j: nat, lo: real, hi: real)
    requires forall i :: 0 <= i < |samples| ==> j < |samples[i]| && lo <= samples[i][j] <= hi
    ensures |samples| as real * lo <= SumAt(samples, j) <= |samples| as real * hi
  {
    if samples != [] {
      SumAtBounds(samples[..|samples| - 1], j, lo, hi);
    }
  }

  /** The mean lies between the smallest and the largest sample, per dimension. */
  lemma {:induction false} MeanWithinBounds(samples: seq<Embedding>, j: nat, lo: real, hi: real)
    requires |samples| > 0 && SameDimension(samples)
    requires forall i :: 0 <= i < |samples| ==> j < |samples[i]| && lo <= samples[i][j] <= hi
    ensures j < |Mean(samples)| && lo <= Mean(samples)[j] <= hi
  {
    SumAtBounds(samples, j, lo, hi);
    var n := |samples| as real;
    assert Mean(samples)[j] == SumAt(samples, j) / n;
  }

  /** The recogniser's template store (known_embeddings): name to mean embedding. */
  class FaceRecognizer {
    var knownEmbeddings: map<string, Embedding>

    /** A recogniser over the store that load_db produced. */
    constructor (loaded: map<string, Embedding>)
      ensures knownEmbeddings == loaded
    {
      knownEmbeddings := loaded;
    }

    /** register_face: refuse an empty burst, an existing name, or samples the
        concatenation rejects; otherwise store their mean under `name`. */
    method RegisterFace(name: string, samples: seq<Embedding>) returns (ok: bool)
      modifies this
      ensures samples == [] ==> !ok
      ensures name in old(knownEmbeddings) ==> !ok
      ensures ok <==> samples != [] && name !in old(knownEmbeddings) && SameDimension(samples)
      ensures !ok ==> knownEmbeddings == old(knownEmbeddings)
      ensures ok ==> knownEmbeddings == old(knownEmbeddings)[name := Mean(samples)]
      ensures ok ==> forall other :: other != name ==>
        (other in knownEmbeddings <==> other in old(knownEmbeddings)) &&
        (other in knownEmbeddings ==> knownEmbeddings[other] == old(knownEmbeddings)[other])
    {
      if samples == [] {
        return false;
      }
      if name in knownEmbeddings {
        return false;
      }
      if !SameDimension(samples) {
        // torch.cat raises on mismatched shapes; the exception handler returns False.
        return false;
      }
      knownEmbeddings := knownEmbeddings[name := Mean(samples)];
      ok := true;
    }
  }
}

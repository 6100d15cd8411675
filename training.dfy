/**
 * The orchestration of `testNN`: which sample each training iteration uses,
 * when the running error is reported and reset, when a qualitative
 * evaluation runs and which class it predicts.
 *
 * The network itself is an oracle. Its `train` results are the sequence
 * `errors` (entry `i` is what iteration `i` gets back) and its `guess`
 * results are the function `outputs` (the output vector handed back at
 * evaluation step `i`). What the model records is what the orchestrator
 * hands over: the vectors passed to `train`, the sums it reports, and the
 * vectors passed to `guess` with the class read off the answer.
 */
module Training {
  import opened Idx
  import opened Encoders
  import opened ImageParsing
  import opened LabelParsing

  /** The running error is reported and reset every 100 iterations. */
  const ReportInterval: nat := 100
  /** `testNN::batchSize`: an evaluation runs every 1000 iterations. */
  const BatchSize: nat := 1000
  /** Each evaluation during training looks at 10 consecutive samples. */
  const GuessAmount: nat := 10

  /** One call of the network's `train`: the sample and the two vectors passed. */
  datatype TrainCall = TrainCall(sample: nat, features: seq<int>, target: seq<int>)
  /** One call of `evaluateProgress`: its iteration and the running sum at that point. */
  datatype Report = Report(iteration: nat, sumOfErrors: real)
  /** One step of `testGuess`: the sample, the vector passed to `guess`, the predicted class. */
  datatype GuessCall = GuessCall(sample: nat, features: seq<int>, predicted: nat)

  // ---------------------------------------------------------------- argmax

  /**
   * The pair (running maximum, its index) after scanning `outputs` from the
   * left, starting from the maximum 0 at index 0 and moving only on a
   * strictly greater value.
   */
  function ArgmaxScan(outputs: seq<real>): (real, nat)
  {
    if outputs == [] then (0.0, 0)
    else
      var (m, k) := ArgmaxScan(outputs[..|outputs| - 1]);
      if outputs[|outputs| - 1] > m then (outputs[|outputs| - 1], |outputs| - 1) else (m, k)
  }

  /** The class `getGuessOutput` reads off an output vector. */
  function GuessIndex(outputs: seq<real>): nat
  {
    ArgmaxScan(outputs).1
  }

  lemma {:induction false} ArgmaxScanSpec(outputs: seq<real>)
    ensures 0.0 <= ArgmaxScan(outputs).0
    ensures forall j :: 0 <= j < |outputs| ==> outputs[j] <= ArgmaxScan(outputs).0
    ensures ArgmaxScan(outputs).0 == 0.0 ==> ArgmaxScan(outputs).1 == 0
    ensures ArgmaxScan(outputs).0 > 0.0 ==>
      var k := ArgmaxScan(outputs).1;
      k < |outputs| && outputs[k] == ArgmaxScan(outputs).0 &&
      forall j :: 0 <= j < k ==> outputs[j] < outputs[k]
  {
    if outputs != [] {
      var init := outputs[..|outputs| - 1];
      ArgmaxScanSpec(init);
      assert forall j :: 0 <= j < |init| ==> init[j] == outputs[j];
    }
  }

  /**
   * The predicted class is the lowest index holding the largest value, when
   * some value is above 0; when none is (the empty vector included) it is 0.
   * It is always a valid index of a non-empty vector.
   */
  lemma GuessIndexSpec(outputs: seq<real>)
    ensures |outputs| > 0 ==> GuessIndex(outputs) < |outputs|
    ensures (forall j :: 0 <= j < |outputs| ==> outputs[j] <= 0.0) ==> GuessIndex(outputs) == 0
    ensures (exists j :: 0 <= j < |outputs| && outputs[j] > 0.0) ==>
      var k := GuessIndex(outputs);
      k < |outputs| && outputs[k] > 0.0 &&
      (forall j :: 0 <= j < |outputs| ==> outputs[j] <= outputs[k]) &&
      (forall j :: 0 <= j < k ==> outputs[j] < outputs[k])
  {
    ArgmaxScanSpec(outputs);
  }

  /** An int vector read as the doubles the network exchanges. */
  function AsReals(v: seq<int>): seq<real>
  {
    seq(|v|, i requires 0 <= i < |v| => v[i] as real)
  }

  /**
   * Reading a class off a target vector recovers the label it encodes; a
   * label of 10 or more, encoded as ten -1 entries, reads back as class 0.
   */
  lemma GuessOfOneHot(digit: int)
    ensures GuessIndex(AsReals(OneHot(digit))) == if 0 <= digit < ClassCount then digit else 0
  {
    var o := AsReals(OneHot(digit));
    GuessIndexSpec(o);
    if 0 <= digit < ClassCount {
      assert o[digit] > 0.0;
    } else {
      assert forall j :: 0 <= j < |o| ==> o[j] <= 0.0;
    }
  }

  /** `testNN::getGuessOutput`. */
  method GetGuessOutput(outputs: seq<real>) returns (output: nat)
    ensures output == GuessIndex(outputs)
    ensures |outputs| > 0 ==> output < |outputs|
    ensures (forall j :: 0 <= j < |outputs| ==> outputs[j] <= 0.0) ==> output == 0
    ensures (exists j :: 0 <= j < |outputs| && outputs[j] > 0.0) ==>
      outputs[output] > 0.0 &&
      (forall j :: 0 <= j < |outputs| ==> outputs[j] <= outputs[output]) &&
      (forall j :: 0 <= j < output ==> outputs[j] < outputs[output])
  {
    output := 0;
    var max := 0.0;
    for i := 0 to |outputs|
      invariant (max, output) == ArgmaxScan(outputs[..i])
    {
      assert outputs[..i + 1][..i] == outputs[..i];
      if outputs[i] > max {
        max := outputs[i];
        output := i;
      }
    }
    assert outputs[..|outputs|] == outputs;
    GuessIndexSpec(outputs);
  }

  // ------------------------------------------------------ sample cycling

  /** The sample iteration `i` uses: `i % 60000`. */
  function SampleIndex(i: nat): (idx: nat)
    ensures idx < ImageCount
    ensures (i - idx) % ImageCount == 0
  {
    i % ImageCount
  }

  /**
   * Cycling is a bijection on every run of 60000 consecutive iterations:
   * two iterations of one run use the same sample only if they are the same.
   */
  lemma CyclingInjective(start: nat, j1: nat, j2: nat)
    requires j1 < ImageCount && j2 < ImageCount
    ensures SampleIndex(start + j1) == SampleIndex(start + j2) <==> j1 == j2
  {
    var q := start / ImageCount;
    var r := start % ImageCount;
    assert start == q * ImageCount + r;
    if SampleIndex(start + j1) == SampleIndex(start + j2) {
      var a, b := (start + j1) / ImageCount, (start + j2) / ImageCount;
      assert (a - b) * ImageCount == j1 - j2;
    }
  }

  /** ... and every sample is used in such a run, at the offset given here. */
  lemma CyclingReaches(start: nat, sample: nat)
    requires sample < ImageCount
    ensures var j := (sample + ImageCount - start % ImageCount) % ImageCount;
      j < ImageCount && SampleIndex(start + j) == sample
  {
    var r := start % ImageCount;
    var q := start / ImageCount;
    assert start == q * ImageCount + r;
    var j := (sample + ImageCount - r) % ImageCount;
    if sample >= r {
      assert j == sample - r;
      assert start + j == q * ImageCount + sample;
    } else {
      assert j == sample + ImageCount - r;
      assert start + j == (q + 1) * ImageCount + sample;
    }
  }

  // ------------------------------------------------------ training errors

  /** errors[lo] + ... + errors[hi - 1]. */
  function Sum(errors: seq<real>, lo: nat, hi: nat): real
    requires lo <= hi <= |errors|
    decreases hi - lo
  {
    if lo == hi then 0.0 else Sum(errors, lo, hi - 1) + errors[hi - 1]
  }

  /** The last iteration at or before `k` that reset the running sum (0 for none). */
  function LastReset(k: nat): nat
  {
    k - k % ReportInterval
  }

  /**
   * `sumOfErrors` once iterations 1..k are done: the errors of the iterations
   * after the last multiple of 100, and, while no reset has happened yet, the
   * value `s0` the sum had when training started.
   */
  function SumAfter(s0: real, errors: seq<real>, k: nat): real
    requires k == 0 || k < |errors|
  {
    if k == 0 then s0
    else (if k < ReportInterval then s0 else 0.0) + Sum(errors, LastReset(k) + 1, k + 1)
  }

  /** The sum reported at iteration `100 * (m + 1)`: the errors of that window of 100. */
  function WindowTotal(s0: real, errors: seq<real>, m: nat): real
    requires ReportInterval * m + ReportInterval < |errors|
  {
    (if m == 0 then s0 else 0.0) + Sum(errors, ReportInterval * m + 1, ReportInterval * m + ReportInterval + 1)
  }

  /** The reports of iterations 1..k: one at each multiple of 100, in order. */
  function ReportsAfter(s0: real, errors: seq<real>, k: nat): seq<Report>
    requires k == 0 || k < |errors|
  {
    seq(k / ReportInterval, m requires 0 <= m < k / ReportInterval =>
      Report(ReportInterval * (m + 1), WindowTotal(s0, errors, m)))
  }

  /**
   * One more iteration adds its error to the running sum, and when its
   * number is a multiple of 100 the sum returns to 0.
   */
  lemma SumAfterStep(s0: real, errors: seq<real>, k: nat)
    requires k + 1 < |errors|
    ensures SumAfter(s0, errors, k + 1) ==
      if (k + 1) % ReportInterval == 0 then 0.0 else SumAfter(s0, errors, k) + errors[k + 1]
  {
    if (k + 1) % ReportInterval != 0 {
      assert LastReset(k + 1) == LastReset(k);
    }
  }

  /**
   * One more iteration adds a report exactly when its number is a multiple of
   * 100, and the sum reported is the running sum including its error.
   */
  lemma ReportsAfterStep(s0: real, errors: seq<real>, k: nat)
    requires k + 1 < |errors|
    ensures ReportsAfter(s0, errors, k + 1) ==
      if (k + 1) % ReportInterval == 0
      then ReportsAfter(s0, errors, k) + [Report(k + 1, SumAfter(s0, errors, k) + errors[k + 1])]
      else ReportsAfter(s0, errors, k)
  {
    var before, after := ReportsAfter(s0, errors, k), ReportsAfter(s0, errors, k + 1);
    if (k + 1) % ReportInterval == 0 {
      var m := k / ReportInterval;
      assert (k + 1) / ReportInterval == m + 1;
      assert LastReset(k) == ReportInterval * m;
      assert after[m] == Report(k + 1, SumAfter(s0, errors, k) + errors[k + 1]);
      assert after == before + [after[m]];
    } else {
      assert (k + 1) / ReportInterval == k / ReportInterval;
      assert after == before;
    }
  }

  // ------------------------------------------------------ calls to the network

  /** The `train` call of an iteration that uses sample `idx`. */
  function TrainCallOf(saves: seq<Image>, labelBytes: seq<Byte>, idx: nat): TrainCall
    requires idx < |saves| && idx < |labelBytes|
  {
    TrainCall(idx, FeatureVector(saves[idx].bytes), OneHot(labelBytes[idx]))
  }

  /** The `train` calls of iterations 1..k: iteration `i` trains on sample `i % 60000`. */
  function TrainCallsAfter(saves: seq<Image>, labelBytes: seq<Byte>, k: nat): seq<TrainCall>
    requires ImageCount <= |saves|
    requires k == 0 || k < |labelBytes| || ImageCount <= |labelBytes|
  {
    seq(k, t requires 0 <= t < k => TrainCallOf(saves, labelBytes, SampleIndex(t + 1)))
  }

  /** One more iteration appends the call for its own sample. */
  lemma TrainCallsStep(saves: seq<Image>, labelBytes: seq<Byte>, k: nat)
    requires ImageCount <= |saves|
    requires k + 1 < |labelBytes| || ImageCount <= |labelBytes|
    ensures SampleIndex(k + 1) < |labelBytes|
    ensures TrainCallsAfter(saves, labelBytes, k + 1)
         == TrainCallsAfter(saves, labelBytes, k) + [TrainCallOf(saves, labelBytes, SampleIndex(k + 1))]
  {
    var before, after := TrainCallsAfter(saves, labelBytes, k), TrainCallsAfter(saves, labelBytes, k + 1);
    assert after == before + [after[k]];
  }

  /** The `guess` step at evaluation index `i`. */
  function GuessCallOf(saves: seq<Image>, outputs: nat -> seq<real>, i: nat): GuessCall
    requires ImageCount <= |saves|
  {
    GuessCall(SampleIndex(i), FeatureVector(saves[SampleIndex(i)].bytes), GuessIndex(outputs(i)))
  }

  /** The steps of `testGuess(amount, start)`: indices start .. start + amount - 1. */
  function GuessBatch(saves: seq<Image>, outputs: nat -> seq<real>, start: nat, amount: nat): seq<GuessCall>
    requires ImageCount <= |saves|
  {
    seq(amount, t requires 0 <= t < amount => GuessCallOf(saves, outputs, start + t))
  }

  /**
   * The evaluation steps of iterations 1..k: after each multiple `b` of 1000,
   * the ten steps b, b + 1, ..., b + 9.
   */
  function GuessesAfter(saves: seq<Image>, outputs: nat -> seq<real>, k: nat): seq<GuessCall>
    requires ImageCount <= |saves|
  {
    seq(GuessAmount * (k / BatchSize), t requires 0 <= t < GuessAmount * (k / BatchSize) =>
      GuessCallOf(saves, outputs, BatchSize * (t / GuessAmount + 1) + t % GuessAmount))
  }

  /** One more iteration runs an evaluation of ten steps exactly when its number is a multiple of 1000. */
  lemma GuessesAfterStep(saves: seq<Image>, outputs: nat -> seq<real>, k: nat)
    requires ImageCount <= |saves|
    ensures GuessesAfter(saves, outputs, k + 1) ==
      if (k + 1) % BatchSize == 0
      then GuessesAfter(saves, outputs, k) + GuessBatch(saves, outputs, k + 1, GuessAmount)
      else GuessesAfter(saves, outputs, k)
  {
    var before, after := GuessesAfter(saves, outputs, k), GuessesAfter(saves, outputs, k + 1);
    var b := k / BatchSize;
    if (k + 1) % BatchSize == 0 {
      assert (k + 1) / BatchSize == b + 1;
      var batch := GuessBatch(saves, outputs, k + 1, GuessAmount);
      forall t | 0 <= t < GuessAmount
        ensures after[GuessAmount * b + t] == batch[t]
      {
        var u := GuessAmount * b + t;
        assert u / GuessAmount == b && u % GuessAmount == t;
        assert BatchSize * (b + 1) == k + 1;
      }
      assert after == before + batch;
    } else {
      assert (k + 1) / BatchSize == b;
      assert after == before;
    }
  }

  // ------------------------------------------------------ stopping

  /** The first iteration whose sample has no label, when the count is below 60000. */
  function FirstMissing(labelCount: int): nat
  {
    if labelCount < 1 then 1 else labelCount
  }

  /** `trainNN(iterations)` throws: some iteration asks for a label past the count. */
  predicate Halts(iterations: int, labelCount: int)
  {
    labelCount < ImageCount && FirstMissing(labelCount) < iterations
  }

  /** The number of iterations `trainNN(iterations)` completes. */
  function Completed(iterations: int, labelCount: int): nat
  {
    if Halts(iterations, labelCount) then FirstMissing(labelCount) - 1
    else if iterations <= 1 then 0
    else iterations - 1
  }

  /**
   * Up to the stopping point every iteration finds its label, and the
   * iteration right after the completed ones finds none exactly when
   * training halts.
   */
  lemma LabelAvailable(iterations: int, labelCount: int, i: nat)
    requires 1 <= i < iterations && i <= Completed(iterations, labelCount) + 1
    ensures SampleIndex(i) < labelCount <==> i <= Completed(iterations, labelCount)
    ensures i == Completed(iterations, labelCount) + 1 ==> Halts(iterations, labelCount)
  {
    if labelCount < ImageCount && i <= Completed(iterations, labelCount) {
      assert i < ImageCount;
    }
    if i == Completed(iterations, labelCount) + 1 && Halts(iterations, labelCount) {
      assert i == FirstMissing(labelCount) < ImageCount;
    }
  }

  /**
   * One past the highest label index that the iterations `trainNN(iterations)`
   * completes read: none when it completes none, index `k` last when it
   * completes `k < 60000`, and every index below 60000 otherwise.
   */
  function LabelsRead(iterations: int, labelCount: int): nat
  {
    var k := Completed(iterations, labelCount);
    if k == 0 then 0 else if k < ImageCount then k + 1 else ImageCount
  }

  /**
   * `LabelsRead` is exact: every completed iteration reads a label below it,
   * and one of them reads the label just below it.
   */
  lemma LabelsReadExact(iterations: int, labelCount: int)
    ensures forall i :: 1 <= i <= Completed(iterations, labelCount) ==>
      SampleIndex(i) < LabelsRead(iterations, labelCount)
    ensures LabelsRead(iterations, labelCount) == 0 ||
      exists i :: 1 <= i <= Completed(iterations, labelCount) &&
        SampleIndex(i) == LabelsRead(iterations, labelCount) - 1
  {
    var k := Completed(iterations, labelCount);
    if k != 0 {
      var last := if k < ImageCount then k else ImageCount - 1;
      assert SampleIndex(last) == LabelsRead(iterations, labelCount) - 1;
    }
  }

  /**
   * When the labels a run reads fit the buffer, an iteration up to the
   * stopping point that finds its label finds it inside the buffer, and its
   * own number is inside the buffer too unless the buffer holds 60000 labels.
   */
  lemma LabelsCover(iterations: int, labelCount: int, bufferLength: nat, i: nat)
    requires LabelsRead(iterations, labelCount) <= bufferLength
    requires 1 <= i < iterations && i <= Completed(iterations, labelCount) + 1
    ensures SampleIndex(i) < labelCount ==> SampleIndex(i) < bufferLength
    ensures SampleIndex(i) < labelCount ==> i < bufferLength || ImageCount <= bufferLength
  {
    LabelAvailable(iterations, labelCount, i);
    LabelsReadExact(iterations, labelCount);
  }

  /** When the loop of `trainNN` runs out of iterations, it did not halt and completed them all. */
  lemma LoopExit(iterations: int, labelCount: int, i: nat)
    requires 1 <= i <= Completed(iterations, labelCount) + 1 && iterations <= i
    ensures !Halts(iterations, labelCount)
    ensures i - 1 == Completed(iterations, labelCount)
  {
  }

  /**
   * The traces `calls`, `reports`, `guesses` and the running sum `sum` are
   * those of iterations 1..k, counted from the start values `s0`, `calls0`,
   * `reports0`, `guesses0`.
   */
  ghost predicate TracedValues(s0: real, calls0: seq<TrainCall>, reports0: seq<Report>, guesses0: seq<GuessCall>,
                               saves: seq<Image>, labelBytes: seq<Byte>, errors: seq<real>,
                               outputs: nat -> seq<real>, k: nat,
                               calls: seq<TrainCall>, sum: real, reports: seq<Report>, guesses: seq<GuessCall>)
  {
    ImageCount <= |saves| && (k == 0 || k < |errors|) &&
    (k == 0 || k < |labelBytes| || ImageCount <= |labelBytes|) &&
    calls == calls0 + TrainCallsAfter(saves, labelBytes, k) &&
    sum == SumAfter(s0, errors, k) &&
    reports == reports0 + ReportsAfter(s0, errors, k) &&
    guesses == guesses0 + GuessesAfter(saves, outputs, k)
  }

  /** What one iteration of `trainNN` appends carries the traces of iterations 1..k to 1..k + 1. */
  lemma Advance(s0: real, calls0: seq<TrainCall>, reports0: seq<Report>, guesses0: seq<GuessCall>,
                saves: seq<Image>, labelBytes: seq<Byte>, errors: seq<real>,
                outputs: nat -> seq<real>, k: nat,
                calls: seq<TrainCall>, sum: real, reports: seq<Report>, guesses: seq<GuessCall>)
    requires TracedValues(s0, calls0, reports0, guesses0, saves, labelBytes, errors, outputs, k,
                          calls, sum, reports, guesses)
    requires k + 1 < |errors|
    requires SampleIndex(k + 1) < |labelBytes|
    requires k + 1 < |labelBytes| || ImageCount <= |labelBytes|
    ensures TracedValues(s0, calls0, reports0, guesses0, saves, labelBytes, errors, outputs, k + 1,
                         calls + [TrainCallOf(saves, labelBytes, SampleIndex(k + 1))],
                         if (k + 1) % ReportInterval == 0 then 0.0 else sum + errors[k + 1],
                         reports + (if (k + 1) % ReportInterval == 0 then [Report(k + 1, sum + errors[k + 1])] else []),
                         guesses + (if (k + 1) % BatchSize == 0 then GuessBatch(saves, outputs, k + 1, GuessAmount) else []))
  {
    TrainCallsStep(saves, labelBytes, k);
    AppendAssoc(calls0, TrainCallsAfter(saves, labelBytes, k), [TrainCallOf(saves, labelBytes, SampleIndex(k + 1))]);
    SumAfterStep(s0, errors, k);
    ReportsAfterStep(s0, errors, k);
    AppendAssoc(reports0, ReportsAfter(s0, errors, k),
                if (k + 1) % ReportInterval == 0 then [Report(k + 1, sum + errors[k + 1])] else []);
    GuessesAfterStep(saves, outputs, k);
    AppendAssoc(guesses0, GuessesAfter(saves, outputs, k),
                if (k + 1) % BatchSize == 0 then GuessBatch(saves, outputs, k + 1, GuessAmount) else []);
  }

  lemma AppendAssoc<T>(a: seq<T>, b: seq<T>, c: seq<T>)
    ensures (a + b) + c == a + (b + c)
  {
  }

  // ------------------------------------------------------ the orchestrator

  /** `testNN`: the two parsed datasets, the running sum, and what was handed to the network. */
  class Trainer {
    const images: ImageParser
    const labels: LabelParser
    var sumOfErrors: real
    var trainCalls: seq<TrainCall>
    var reports: seq<Report>
    var guesses: seq<GuessCall>

    /** The object after its member parsers were built; `setupNN` is the network's. */
    constructor (images: ImageParser, labels: LabelParser)
      ensures this.images == images && this.labels == labels
      ensures sumOfErrors == 0.0 && trainCalls == [] && reports == [] && guesses == []
    {
      this.images := images;
      this.labels := labels;
      sumOfErrors := 0.0;
      trainCalls, reports, guesses := [], [], [];
    }

    /**
     * `testGuess(amount, startingPoint)`: for each i from startingPoint below
     * startingPoint + amount, encode image `i % 60000`, pass it to `guess`
     * and read the class off the answer `outputs(i)`.
     */
    method TestGuess(amount: int, startingPoint: nat, outputs: nat -> seq<real>)
      requires images.Parsed()
      requires 0 <= startingPoint + amount
      modifies this`guesses
      ensures guesses == old(guesses) + GuessBatch(images.saves, outputs, startingPoint, if amount < 0 then 0 else amount)
    {
      ghost var n: nat := if amount < 0 then 0 else amount;
      var i := startingPoint;
      while i < startingPoint + amount
        invariant startingPoint <= i <= startingPoint + n
        invariant guesses == old(guesses) + GuessBatch(images.saves, outputs, startingPoint, i - startingPoint)
      {
        var image := images.GetImage(SampleIndex(i));
        var temp := GetDataSet(image.value);
        var out := GetGuessOutput(outputs(i));
        ghost var done := GuessBatch(images.saves, outputs, startingPoint, i - startingPoint);
        guesses := guesses + [GuessCall(SampleIndex(i), temp, out)];
        assert GuessBatch(images.saves, outputs, startingPoint, i + 1 - startingPoint)
            == done + [GuessCallOf(images.saves, outputs, i)];
        i := i + 1;
      }
    }

    /**
     * The body of the loop of `trainNN` for iteration `i`: fetch the target
     * (throwing when label `i % 60000` is past the count), train on image
     * `i % 60000`, add the error, report and reset after a multiple of 100,
     * evaluate ten samples after a multiple of 1000.
     */
    method Iteration(i: nat, errors: seq<real>, outputs: nat -> seq<real>) returns (r: Outcome)
      requires images.Parsed()
      requires SampleIndex(i) < labels.numberOfItems ==> SampleIndex(i) < |labels.buffer|
      requires 1 <= i < |errors|
      modifies this
      ensures r.Fail? <==> SampleIndex(i) >= labels.numberOfItems
      ensures r.Fail? ==> r.error == IndexOutOfRange && unchanged(this)
      ensures r.Pass? ==>
        SampleIndex(i) < |labels.buffer| &&
        trainCalls == old(trainCalls) + [TrainCallOf(images.saves, labels.buffer, SampleIndex(i))] &&
        sumOfErrors == (if i % ReportInterval == 0 then 0.0 else old(sumOfErrors) + errors[i]) &&
        reports == old(reports) + (if i % ReportInterval == 0 then [Report(i, old(sumOfErrors) + errors[i])] else []) &&
        guesses == old(guesses) + (if i % BatchSize == 0 then GuessBatch(images.saves, outputs, i, GuessAmount) else [])
    {
      var idx := SampleIndex(i);
      var expected := labels.GetLabelAsVector(idx);
      if expected.Err? {
        return Fail(expected.error);
      }
      var image := images.GetImage(idx);
      var features := GetDataSet(image.value);
      trainCalls := trainCalls + [TrainCall(idx, features, expected.value)];
      sumOfErrors := sumOfErrors + errors[i];
      if i % ReportInterval == 0 {
        reports := reports + [Report(i, sumOfErrors)];
        sumOfErrors := 0.0;
      }
      if i % BatchSize == 0 {
        TestGuess(GuessAmount, i, outputs);
      }
      return Pass;
    }

    /**
     * `trainNN(iterations)`: iterations 1 .. iterations - 1 each train on sample
     * `i % 60000`; the sum is reported and reset after every multiple of 100
     * and an evaluation of ten steps from `i` runs after every multiple of
     * 1000. A missing label throws and ends training at that iteration.
     */
    method TrainNN(iterations: int, errors: seq<real>, outputs: nat -> seq<real>) returns (r: Outcome)
      requires images.Parsed()
      requires LabelsRead(iterations, labels.numberOfItems) <= |labels.buffer|
      requires iterations <= |errors|
      modifies this
      ensures r.Fail? <==> Halts(iterations, labels.numberOfItems)
      ensures r.Fail? ==> r.error == IndexOutOfRange
      ensures var k := Completed(iterations, labels.numberOfItems);
        trainCalls == old(trainCalls) + TrainCallsAfter(images.saves, labels.buffer, k) &&
        sumOfErrors == SumAfter(old(sumOfErrors), errors, k) &&
        reports == old(reports) + ReportsAfter(old(sumOfErrors), errors, k) &&
        guesses == old(guesses) + GuessesAfter(images.saves, outputs, k)
    {
      ghost var s0, calls0, reports0, guesses0 := sumOfErrors, trainCalls, reports, guesses;
      ghost var saves, labelBytes, labelCount := images.saves, labels.buffer, labels.numberOfItems;
      ghost var done := Completed(iterations, labelCount);
      var i := 1;
      while i < iterations
        invariant 1 <= i <= done + 1
        invariant TracedValues(s0, calls0, reports0, guesses0, saves, labelBytes, errors, outputs, i - 1,
                               trainCalls, sumOfErrors, reports, guesses)
      {
        LabelAvailable(iterations, labelCount, i);
        LabelsCover(iterations, labelCount, |labelBytes|, i);
        ghost var calls, sum, reps, gs := trainCalls, sumOfErrors, reports, guesses;
        r := Iteration(i, errors, outputs);
        if r.Fail? {
          return;
        }
        Advance(s0, calls0, reports0, guesses0, saves, labelBytes, errors, outputs, i - 1,
                calls, sum, reps, gs);
        i := i + 1;
      }
      LoopExit(iterations, labelCount, i);
      return Pass;
    }
  }
}

/**
 * The sample encoders of main.cpp: an image record becomes a bipolar feature
 * vector (`MNISTImage::getDataSet`) and a label becomes a bipolar one-hot
 * target (`parseMNISTLabel::getLabelAsVector`). The vectors hold only -1.0
 * and +1.0, which the model writes as the integers -1 and 1.
 */
module Encoders {
  import opened Idx

  /** Pixels below this intensity encode as -1, the others as +1. */
  const PixelThreshold: Byte := 180

  /** The number of classes, and so the length of every target vector. */
  const ClassCount: nat := 10

  /** `MNISTImage`: one image record, its pixels in file order. */
  datatype Image = Image(bytes: seq<Byte>)

  /** The bipolar value of one pixel. */
  function Bipolar(p: Byte): int
  {
    if p < PixelThreshold then -1 else 1
  }

  /** The feature vector of a record: one bipolar value per pixel. */
  function FeatureVector(bytes: seq<Byte>): seq<int>
  {
    seq(|bytes|, k requires 0 <= k < |bytes| => Bipolar(bytes[k]))
  }

  /** The bipolar one-hot vector of a digit: +1 at index `digit`, -1 elsewhere. */
  function OneHot(digit: int): seq<int>
  {
    seq(ClassCount, i => if i == digit then 1 else -1)
  }

  /** The number of entries of `v` equal to `x`. */
  function Occurrences(v: seq<int>, x: int): nat
  {
    if v == [] then 0 else Occurrences(v[..|v| - 1], x) + (if v[|v| - 1] == x then 1 else 0)
  }

  /** A value that never appears is counted zero times, and conversely. */
  lemma {:induction false} OccurrencesZero(v: seq<int>, x: int)
    ensures Occurrences(v, x) == 0 <==> forall i :: 0 <= i < |v| ==> v[i] != x
  {
    if v != [] {
      OccurrencesZero(v[..|v| - 1], x);
      assert forall i :: 0 <= i < |v| - 1 ==> v[..|v| - 1][i] == v[i];
    }
  }

  /** A value found only at index `k` is counted exactly once. */
  lemma {:induction false} OccurrencesOnce(v: seq<int>, x: int, k: nat)
    requires k < |v| && v[k] == x
    requires forall i :: 0 <= i < |v| && i != k ==> v[i] != x
    ensures Occurrences(v, x) == 1
  {
    var init := v[..|v| - 1];
    assert forall i :: 0 <= i < |init| ==> init[i] == v[i];
    if k == |v| - 1 {
      OccurrencesZero(init, x);
    } else {
      OccurrencesOnce(init, x, k);
    }
  }

  /**
   * Thresholding keeps the length and maps each pixel on its own:
   * 179 and below give -1, 180 and above give +1, nothing else occurs.
   */
  lemma FeatureVectorSpec(bytes: seq<Byte>)
    ensures |FeatureVector(bytes)| == |bytes|
    ensures forall k :: 0 <= k < |bytes| ==>
      (FeatureVector(bytes)[k] == -1 <==> bytes[k] < 180) &&
      (FeatureVector(bytes)[k] == 1 <==> bytes[k] >= 180)
  {
  }

  /** Encoding a record row by row gives the encoding of the whole record. */
  lemma FeatureVectorConcat(a: seq<Byte>, b: seq<Byte>)
    ensures FeatureVector(a + b) == FeatureVector(a) + FeatureVector(b)
  {
    assert forall k :: 0 <= k < |a| + |b| ==>
      FeatureVector(a + b)[k] == (FeatureVector(a) + FeatureVector(b))[k];
  }

  /**
   * A label below 10 gives exactly one +1, at the label's index; a label of
   * 10 or more (which main.cpp does not reject) gives no +1 at all.
   */
  lemma OneHotSpec(digit: int)
    ensures |OneHot(digit)| == ClassCount
    ensures forall i :: 0 <= i < ClassCount ==> OneHot(digit)[i] in {-1, 1}
    ensures 0 <= digit < ClassCount ==>
      OneHot(digit)[digit] == 1 && Occurrences(OneHot(digit), 1) == 1
    ensures !(0 <= digit < ClassCount) ==> Occurrences(OneHot(digit), 1) == 0
  {
    if 0 <= digit < ClassCount {
      OccurrencesOnce(OneHot(digit), 1, digit);
    } else {
      OccurrencesZero(OneHot(digit), 1);
    }
  }

  /** Worked cases: a 2x2 record, and the two pixels either side of the threshold. */
  lemma FeatureVectorExamples()
    ensures FeatureVector([10, 200, 50, 250]) == [-1, 1, -1, 1]
    ensures FeatureVector([179, 180]) == [-1, 1]
  {
  }

  /** Worked cases: the target of label 3, and the all -1 target of the out-of-range label 12. */
  lemma OneHotExamples()
    ensures OneHot(3) == [-1, -1, -1, 1, -1, -1, -1, -1, -1, -1]
    ensures OneHot(12) == [-1, -1, -1, -1, -1, -1, -1, -1, -1, -1]
  {
  }

  /**
   * `MNISTImage::getDataSet`: walks the pixels in order and appends the
   * bipolar value of each.
   */
  method GetDataSet(image: Image) returns (temp: seq<int>)
    ensures temp == FeatureVector(image.bytes)
    ensures |temp| == |image.bytes|
    ensures forall k :: 0 <= k < |temp| ==>
      (temp[k] == -1 <==> image.bytes[k] < PixelThreshold) && temp[k] in {-1, 1}
  {
    temp := [];
    for k := 0 to |image.bytes|
      invariant temp == FeatureVector(image.bytes[..k])
    {
      var b := image.bytes[k];
      temp := temp + [if b < PixelThreshold then -1 else 1];
      assert image.bytes[..k + 1] == image.bytes[..k] + [b];
      FeatureVectorConcat(image.bytes[..k], [b]);
    }
    assert image.bytes[..|image.bytes|] == image.bytes;
  }
}

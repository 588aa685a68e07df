/**
 * The per-sample step of active-speaker detection: the volume of a sample is
 * the largest byte of the analyser's frequency data, and a volume above the
 * threshold makes the sampled position the only active one.
 */
module Speaker {
  import opened Optional
  import opened Roster

  /** A `Uint8Array` element. */
  newtype byte = x: int | 0 <= x < 256

  /** A sample must exceed this volume for its participant to count as speaking. */
  const SpeakingThreshold: int := 50

  /**
   * `Math.max(...sample)`. Spreading an empty array gives -Infinity, written
   * here as -1, a value below every byte that compares the same way.
   */
  function Peak(sample: seq<byte>): (r: int)
    ensures forall i :: 0 <= i < |sample| ==> sample[i] as int <= r
    ensures |sample| == 0 ==> r == -1
    ensures |sample| > 0 ==> exists i :: 0 <= i < |sample| && sample[i] as int == r
  {
    if |sample| == 0 then -1
    else
      var rest := Peak(sample[1..]);
      assert forall k :: 1 <= k < |sample| ==> sample[k] == sample[1..][k - 1];
      if sample[0] as int >= rest then sample[0] as int else rest
  }

  /** The volume exceeds the threshold exactly when some byte of the sample does. */
  lemma PeakAboveThresholdIff(sample: seq<byte>)
    ensures Peak(sample) > SpeakingThreshold <==>
            exists i :: 0 <= i < |sample| && sample[i] as int > SpeakingThreshold
  {
  }

  /** `prev.map((p, i) => ({...p, isActive: i === index}))`. */
  function MarkActive(ps: seq<Participant>, index: nat): (r: seq<Participant>)
    ensures SameIds(r, ps)
    ensures forall i :: 0 <= i < |ps| ==> r[i].isActive == (i == index)
    ensures forall i :: 0 <= i < |ps| ==> r[i] == ps[i].(isActive := r[i].isActive)
  {
    seq(|ps|, i requires 0 <= i < |ps| => ps[i].(isActive := i == index))
  }

  /** One sample for the participant at position `index`. */
  function SampleStep(ps: seq<Participant>, index: nat, sample: seq<byte>): (r: seq<Participant>)
    ensures SameIds(r, ps)
    ensures AtMostOneActive(ps) ==> AtMostOneActive(r)
  {
    if Peak(sample) > SpeakingThreshold then MarkActive(ps, index) else ps
  }

  /**
   * A loud sample makes the sampled position the only active participant and
   * leaves every other field of every participant as it was; a quiet one
   * changes nothing.
   */
  lemma SampleStepEffect(ps: seq<Participant>, index: nat, sample: seq<byte>)
    requires index < |ps|
    ensures var r := SampleStep(ps, index, sample);
            if exists i :: 0 <= i < |sample| && sample[i] as int > SpeakingThreshold then
              (forall i :: 0 <= i < |ps| ==> (r[i].isActive <==> i == index)) &&
              (forall i :: 0 <= i < |ps| ==> r[i].(isActive := ps[i].isActive) == ps[i])
            else r == ps
  {
    PeakAboveThresholdIff(sample);
  }

  /** After a loud sample the active speaker that a pinch would pin is the sampled participant. */
  lemma {:induction false} ActiveAfterLoudSample(ps: seq<Participant>, index: nat, sample: seq<byte>)
    requires index < |ps| && Peak(sample) > SpeakingThreshold
    ensures FindActive(SampleStep(ps, index, sample)) == Some(ps[index].(isActive := true))
  {
    var r := SampleStep(ps, index, sample);
    FindActiveUnique(r, index);
  }
}

/** R1 calibration of simtel R0 waveforms: pedestal subtraction, conversion to
    photo-electron units with a global scale and shift, and the choice of one
    gain channel per pixel. Arrays are nested sequences indexed
    `[channel][pixel][sample]`. */
module R1Calibration {

  /** A `(n_channels, n_pixels, n_samples)` array. */
  predicate Shaped3(a: seq<seq<seq<real>>>, nChannels: nat, nPixels: nat, nSamples: nat)
  {
    |a| == nChannels &&
    (forall c :: 0 <= c < nChannels ==> |a[c]| == nPixels) &&
    (forall c, p :: 0 <= c < nChannels && 0 <= p < nPixels ==> |a[c][p]| == nSamples)
  }

  /** A `(n_channels, n_pixels)` array. */
  predicate Shaped2(a: seq<seq<real>>, nChannels: nat, nPixels: nat)
  {
    |a| == nChannels && forall c :: 0 <= c < nChannels ==> |a[c]| == nPixels
  }

  /** What the call documents of its inputs: the waveforms carry their shape,
      and pedestal and conversion factor have one value per channel and pixel. */
  predicate WellShaped(r0: seq<seq<seq<real>>>, nPixels: nat, nSamples: nat,
                       pedestal: seq<seq<real>>, dcToPe: seq<seq<real>>)
  {
    Shaped3(r0, |r0|, nPixels, nSamples) &&
    Shaped2(pedestal, |r0|, nPixels) && Shaped2(dcToPe, |r0|, nPixels)
  }

  /** `(r0 - ped) * (dc_to_pe * calib_scale) + calib_shift` for one sample. */
  function CalibrateSample(r0: real, ped: real, dcToPe: real, scale: real, shift: real): real
  {
    (r0 - ped) * (dcToPe * scale) + shift
  }

  /** The calibrated waveforms of every channel, before gain selection: the
      pedestal and conversion factor of a pixel apply to all its samples. */
  function CalibrateAll(r0: seq<seq<seq<real>>>, nPixels: nat, nSamples: nat,
                        pedestal: seq<seq<real>>, dcToPe: seq<seq<real>>,
                        scale: real, shift: real): (r1: seq<seq<seq<real>>>)
    requires WellShaped(r0, nPixels, nSamples, pedestal, dcToPe)
    ensures Shaped3(r1, |r0|, nPixels, nSamples)
    ensures forall c, p, s :: 0 <= c < |r0| && 0 <= p < nPixels && 0 <= s < nSamples ==>
      r1[c][p][s] == (r0[c][p][s] - pedestal[c][p]) * dcToPe[c][p] * scale + shift
  {
    seq(|r0|, c requires 0 <= c < |r0| =>
      seq(nPixels, p requires 0 <= p < nPixels =>
        seq(nSamples, s requires 0 <= s < nSamples =>
          CalibrateSample(r0[c][p][s], pedestal[c][p], dcToPe[c][p], scale, shift))))
  }

  /** Python indexing: a negative index counts from the end. */
  function ChannelIndex(k: int, nChannels: nat): int
  {
    if k < 0 then k + nChannels else k
  }

  /** A gain selection numpy can apply: one entry per pixel, each a valid
      (possibly negative) channel index. */
  predicate ValidSelection(sel: seq<int>, nChannels: nat, nPixels: nat)
  {
    |sel| == nPixels && forall p :: 0 <= p < nPixels ==> -(nChannels as int) <= sel[p] < nChannels
  }

  datatype R1 = R1(waveforms: seq<seq<real>>, selectedGainChannel: seq<int>)

  datatype CalibError =
    | ShapeMismatch  // the selection does not broadcast against the pixels
    | IndexError     // a selected channel does not exist

  datatype Outcome = Ok(r1: R1) | Fail(error: CalibError)

  /** `apply_simtel_r1_calibration`. With one channel the selector is not
      consulted and channel 0 is taken for every pixel; otherwise each pixel
      takes the calibrated waveform of the channel the selector picks. */
  function ApplySimtelR1Calibration(r0: seq<seq<seq<real>>>, nPixels: nat, nSamples: nat,
                                    pedestal: seq<seq<real>>, dcToPe: seq<seq<real>>,
                                    gainSelector: seq<seq<seq<real>>> -> seq<int>,
                                    calibScale: real, calibShift: real): (r: Outcome)
    requires WellShaped(r0, nPixels, nSamples, pedestal, dcToPe)
    ensures r.Ok? ==>
      |r.r1.waveforms| == nPixels && |r.r1.selectedGainChannel| == nPixels &&
      forall p :: 0 <= p < nPixels ==> |r.r1.waveforms[p]| == nSamples
    ensures |r0| == 1 ==> r.Ok?
    ensures |r0| == 1 && r.Ok? ==>
      (forall p :: 0 <= p < nPixels ==> r.r1.selectedGainChannel[p] == 0) &&
      r.r1.waveforms == CalibrateAll(r0, nPixels, nSamples, pedestal, dcToPe, calibScale, calibShift)[0]
    ensures |r0| != 1 ==> (r.Ok? <==> ValidSelection(gainSelector(r0), |r0|, nPixels))
    ensures |r0| != 1 && r.Ok? ==>
      r.r1.selectedGainChannel == gainSelector(r0) &&
      forall p :: 0 <= p < nPixels ==>
        r.r1.waveforms[p] ==
        CalibrateAll(r0, nPixels, nSamples, pedestal, dcToPe, calibScale, calibShift)[ChannelIndex(gainSelector(r0)[p], |r0|)][p]
  {
    var nChannels := |r0|;
    var calibrated := CalibrateAll(r0, nPixels, nSamples, pedestal, dcToPe, calibScale, calibShift);
    if nChannels == 1 then
      Ok(R1(calibrated[0], seq(nPixels, p => 0)))
    else
      var sel := gainSelector(r0);
      if |sel| != nPixels then Fail(ShapeMismatch)
      else if !ValidSelection(sel, nChannels, nPixels) then Fail(IndexError)
      else
        Ok(R1(seq(nPixels, p requires 0 <= p < nPixels => calibrated[ChannelIndex(sel[p], nChannels)][p]), sel))
  }

  /** With a single channel the result does not depend on the selector. */
  lemma SingleChannelIgnoresSelector(r0: seq<seq<seq<real>>>, nPixels: nat, nSamples: nat,
                                     pedestal: seq<seq<real>>, dcToPe: seq<seq<real>>,
                                     sel1: seq<seq<seq<real>>> -> seq<int>,
                                     sel2: seq<seq<seq<real>>> -> seq<int>,
                                     calibScale: real, calibShift: real)
    requires WellShaped(r0, nPixels, nSamples, pedestal, dcToPe) && |r0| == 1
    ensures ApplySimtelR1Calibration(r0, nPixels, nSamples, pedestal, dcToPe, sel1, calibScale, calibShift)
         == ApplySimtelR1Calibration(r0, nPixels, nSamples, pedestal, dcToPe, sel2, calibScale, calibShift)
  {
  }

  /** With the default scale 1 and shift 0 a sample is just
      `(r0 - pedestal) * dc_to_pe`. */
  lemma DefaultCalibration(r0: seq<seq<seq<real>>>, nPixels: nat, nSamples: nat,
                           pedestal: seq<seq<real>>, dcToPe: seq<seq<real>>,
                           c: nat, p: nat, s: nat)
    requires WellShaped(r0, nPixels, nSamples, pedestal, dcToPe)
    requires c < |r0| && p < nPixels && s < nSamples
    ensures CalibrateAll(r0, nPixels, nSamples, pedestal, dcToPe, 1.0, 0.0)[c][p][s]
         == (r0[c][p][s] - pedestal[c][p]) * dcToPe[c][p]
  {
  }

  /** The calibration is invertible when the combined gain is not zero: the
      raw sample is recovered from the calibrated one. */
  lemma CalibrationInvertible(r0: seq<seq<seq<real>>>, nPixels: nat, nSamples: nat,
                              pedestal: seq<seq<real>>, dcToPe: seq<seq<real>>,
                              scale: real, shift: real, c: nat, p: nat, s: nat)
    requires WellShaped(r0, nPixels, nSamples, pedestal, dcToPe)
    requires c < |r0| && p < nPixels && s < nSamples
    requires dcToPe[c][p] * scale != 0.0
    ensures (CalibrateAll(r0, nPixels, nSamples, pedestal, dcToPe, scale, shift)[c][p][s] - shift)
            / (dcToPe[c][p] * scale) + pedestal[c][p] == r0[c][p][s]
  {
    var g := dcToPe[c][p] * scale;
    var d := r0[c][p][s] - pedestal[c][p];
    assert CalibrateAll(r0, nPixels, nSamples, pedestal, dcToPe, scale, shift)[c][p][s] - shift == d * g;
    assert (d * g) / g == d;
  }

  /** Pedestal and conversion factor are shared by all samples of a pixel:
      two samples of one pixel differ after calibration by the raw difference
      times the pixel's gain. */
  lemma SamplesShareTheirPixelGain(r0: seq<seq<seq<real>>>, nPixels: nat, nSamples: nat,
                                   pedestal: seq<seq<real>>, dcToPe: seq<seq<real>>,
                                   scale: real, shift: real, c: nat, p: nat, s: nat, s': nat)
    requires WellShaped(r0, nPixels, nSamples, pedestal, dcToPe)
    requires c < |r0| && p < nPixels && s < nSamples && s' < nSamples
    ensures CalibrateAll(r0, nPixels, nSamples, pedestal, dcToPe, scale, shift)[c][p][s]
          - CalibrateAll(r0, nPixels, nSamples, pedestal, dcToPe, scale, shift)[c][p][s']
         == (r0[c][p][s] - r0[c][p][s']) * dcToPe[c][p] * scale
  {
    var r1 := CalibrateAll(r0, nPixels, nSamples, pedestal, dcToPe, scale, shift);
    var g := dcToPe[c][p] * scale;
    assert r1[c][p][s] == (r0[c][p][s] - pedestal[c][p]) * g + shift;
    assert r1[c][p][s'] == (r0[c][p][s'] - pedestal[c][p]) * g + shift;
  }

  /** A non-negative selection picks exactly the channel it names. */
  lemma SelectedChannelRow(r0: seq<seq<seq<real>>>, nPixels: nat, nSamples: nat,
                           pedestal: seq<seq<real>>, dcToPe: seq<seq<real>>,
                           gainSelector: seq<seq<seq<real>>> -> seq<int>,
                           calibScale: real, calibShift: real, p: nat)
    requires WellShaped(r0, nPixels, nSamples, pedestal, dcToPe) && |r0| > 1 && p < nPixels
    requires ValidSelection(gainSelector(r0), |r0|, nPixels) && gainSelector(r0)[p] >= 0
    ensures ApplySimtelR1Calibration(r0, nPixels, nSamples, pedestal, dcToPe, gainSelector, calibScale, calibShift).Ok?
    ensures ApplySimtelR1Calibration(r0, nPixels, nSamples, pedestal, dcToPe, gainSelector, calibScale, calibShift).r1.waveforms[p]
         == CalibrateAll(r0, nPixels, nSamples, pedestal, dcToPe, calibScale, calibShift)[gainSelector(r0)[p]][p]
  {
  }
}

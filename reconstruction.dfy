/** One event of the DL2 writer's inner loop: the intensity-weighted energy
    and score estimation over the telescopes that have Hillas moments, and
    the filling of that event's output row. */
module Reconstruction {
  import opened Schema
  import opened Fusion

  type CamId = string
  type TelId = nat

  /** The Hillas moments of one cleaned image, in the units the features use. */
  datatype Moments = Moments(intensity: real, width: real, length: real, skewness: real, kurtosis: real)

  /** One entry of `hillas_dict`, joined with the camera type of that
      telescope and its entry of `impact_dict` (metres). */
  datatype Image = Image(telId: TelId, camId: CamId, moments: Moments, impact: real)

  /** The geometric fit of the event (`reco_result`): direction in degrees,
      core position and height of shower maximum in metres. */
  datatype Shower = Shower(az: real, alt: real, coreX: real, coreY: real, hMax: real)

  /** The simulated truth (`event.mc`): energy in TeV, direction in degrees,
      core position in metres. */
  datatype Truth = Truth(energy: real, az: real, alt: real, coreX: real, coreY: real)

  /** Reconstructing telescopes per class (`n_tels`). */
  datatype TelCounts = TelCounts(lst: int, mst: int, sst: int)

  /** One tuple yielded by the event preparer. `images` is `None` exactly
      when `hillas_dict` is `None`. */
  datatype Event = Event(
    obsId: int,
    eventId: int,
    truth: Truth,
    arrayAz: real,
    arrayAlt: real,
    telsWithData: set<TelId>,
    images: Option<seq<Image>>,
    nTels: TelCounts,
    reco: Shower)

  /** A trained per-camera model: a feature vector to one number. */
  type Model = seq<real> -> real

  /** What this core calls but does not define: the loaded regressors and
      classifiers keyed by camera type, `log10`, and the angular separation
      of two (azimuth, altitude) directions, in degrees. */
  datatype Env = Env(
    regressor: map<CamId, Model>,
    classifier: map<CamId, Model>,
    log10: real -> real,
    angularSeparation: (real, real, real, real) -> real)

  /** Every telescope's camera type has a model in `bank`: the source indexes
      the model dictionary without a fallback. */
  predicate Covered(bank: map<CamId, Model>, imgs: seq<Image>)
  {
    forall i :: 0 <= i < |imgs| ==> imgs[i].camId in bank
  }

  function Intensities(imgs: seq<Image>): (ws: seq<real>)
    ensures |ws| == |imgs|
    ensures forall i :: 0 <= i < |imgs| ==> ws[i] == imgs[i].moments.intensity
  {
    seq(|imgs|, i requires 0 <= i < |imgs| => imgs[i].moments.intensity)
  }

  /** `[log10(intensity), log10(impact), width, length, h_max]`. */
  function EnergyFeatures(env: Env, img: Image, hMax: real): seq<real>
  {
    [env.log10(img.moments.intensity), env.log10(img.impact),
     img.moments.width, img.moments.length, hMax]
  }

  /** `[log10(fused energy), width, length, skewness, kurtosis, h_max]`. */
  function ScoreFeatures(env: Env, img: Image, recoEnergy: real, hMax: real): seq<real>
  {
    [env.log10(recoEnergy), img.moments.width, img.moments.length,
     img.moments.skewness, img.moments.kurtosis, hMax]
  }

  function EnergyEstimates(env: Env, imgs: seq<Image>, hMax: real): (es: seq<real>)
    requires Covered(env.regressor, imgs)
    ensures |es| == |imgs|
    ensures forall i :: 0 <= i < |imgs| ==>
      es[i] == env.regressor[imgs[i].camId](EnergyFeatures(env, imgs[i], hMax))
  {
    seq(|imgs|, i requires 0 <= i < |imgs| => env.regressor[imgs[i].camId](EnergyFeatures(env, imgs[i], hMax)))
  }

  function ScoreEstimates(env: Env, imgs: seq<Image>, recoEnergy: real, hMax: real): (ss: seq<real>)
    requires Covered(env.classifier, imgs)
    ensures |ss| == |imgs|
    ensures forall i :: 0 <= i < |imgs| ==>
      ss[i] == env.classifier[imgs[i].camId](ScoreFeatures(env, imgs[i], recoEnergy, hMax))
  {
    seq(|imgs|, i requires 0 <= i < |imgs| => env.classifier[imgs[i].camId](ScoreFeatures(env, imgs[i], recoEnergy, hMax)))
  }

  /** What the source needs of a telescope set to fuse it: models for every
      camera type, and a non-zero total intensity for the division. */
  predicate Fusable(env: Env, imgs: seq<Image>)
  {
    Covered(env.regressor, imgs) && Covered(env.classifier, imgs) && Sum(Intensities(imgs)) != 0.0
  }

  predicate Reconstructible(env: Env, ev: Event)
  {
    ev.images.Some? ==> Fusable(env, ev.images.value)
  }

  /** The event energy: per-telescope regressor estimates fused with the
      image intensities as weights. */
  function EventEnergy(env: Env, imgs: seq<Image>, hMax: real): real
    requires Fusable(env, imgs)
  {
    Fuse(Intensities(imgs), EnergyEstimates(env, imgs, hMax))
  }

  /** The event score: per-telescope classifier scores, all computed from the
      already fused event energy, fused with the same weights. */
  function EventScore(env: Env, imgs: seq<Image>, hMax: real): real
    requires Fusable(env, imgs)
  {
    Fuse(Intensities(imgs), ScoreEstimates(env, imgs, EventEnergy(env, imgs, hMax), hMax))
  }

  /** The row of an event whose geometry failed: the defaults, `success`
      false, and the identifiers and true energy. */
  function FailureRow(ev: Event): (r: Row)
    ensures !r.success
  {
    DefaultRow.(success := false,
                mcEnergy := Num(ev.truth.energy), eventId := ev.eventId, obsId := ev.obsId)
  }

  /** The row of a reconstructed event. */
  function SuccessRow(env: Env, ev: Event): (r: Row)
    requires ev.images.Some? && Fusable(env, ev.images.value)
    ensures r.success
  {
    var imgs := ev.images.value;
    DefaultRow.(
      nTelsTrig := |ev.telsWithData|,
      nTelsReco := |imgs|,
      nTelsRecoLst := ev.nTels.lst,
      nTelsRecoMst := ev.nTels.mst,
      nTelsRecoSst := ev.nTels.sst,
      recoEnergy := Num(EventEnergy(env, imgs, ev.reco.hMax)),
      recoAlt := Num(ev.reco.alt),
      recoAz := Num(ev.reco.az),
      offset := Num(env.angularSeparation(ev.arrayAz, ev.arrayAlt, ev.reco.az, ev.reco.alt)),
      xi := Num(env.angularSeparation(ev.truth.az, ev.truth.alt, ev.reco.az, ev.reco.alt)),
      hMax := Num(ev.reco.hMax),
      recoCoreX := Num(ev.reco.coreX),
      recoCoreY := Num(ev.reco.coreY),
      mcCoreX := Num(ev.truth.coreX),
      mcCoreY := Num(ev.truth.coreY),
      score := Num(EventScore(env, imgs, ev.reco.hMax)),
      success := true,
      errEstPos := NaN,
      errEstDir := NaN,
      mcEnergy := Num(ev.truth.energy),
      eventId := ev.eventId,
      obsId := ev.obsId)
  }

  /** The row appended for an event. Every row carries the identifiers and
      the true energy; `gammaness` and the error estimates are never set. */
  function RowOf(env: Env, ev: Event): (r: Row)
    requires Reconstructible(env, ev)
    ensures r.success <==> ev.images.Some?
    ensures r.obsId == ev.obsId && r.eventId == ev.eventId && r.mcEnergy == Num(ev.truth.energy)
    ensures r.gammaness == NaN && r.errEstPos == NaN && r.errEstDir == NaN
  {
    if ev.images.Some? then SuccessRow(env, ev) else FailureRow(ev)
  }

  /** A failure row keeps the default of every column other than the
      identifiers, the true energy and `success`. */
  lemma FailureRowKeepsDefaults(env: Env, ev: Event)
    requires ev.images.None?
    ensures RowOf(env, ev).nTelsTrig == 0 && RowOf(env, ev).nTelsReco == 0
    ensures RowOf(env, ev).nTelsRecoLst == 0 && RowOf(env, ev).nTelsRecoMst == 0
    ensures RowOf(env, ev).nTelsRecoSst == 0
    ensures forall k :: 0 <= k < |FloatColumns(RowOf(env, ev))| && k != 0 ==>
      FloatColumns(RowOf(env, ev))[k] == NaN
  {
  }

  /** A success row counts the reconstructing and the triggered telescopes
      and carries both fused estimates. */
  lemma SuccessRowContents(env: Env, ev: Event)
    requires ev.images.Some? && Fusable(env, ev.images.value)
    ensures RowOf(env, ev).nTelsReco == |ev.images.value|
    ensures RowOf(env, ev).nTelsTrig == |ev.telsWithData|
    ensures RowOf(env, ev).recoEnergy == Num(EventEnergy(env, ev.images.value, ev.reco.hMax))
    ensures RowOf(env, ev).score == Num(EventScore(env, ev.images.value, ev.reco.hMax))
    ensures RowOf(env, ev).xi == Num(env.angularSeparation(ev.truth.az, ev.truth.alt, ev.reco.az, ev.reco.alt))
    ensures RowOf(env, ev).offset == Num(env.angularSeparation(ev.arrayAz, ev.arrayAlt, ev.reco.az, ev.reco.alt))
  {
  }

  /** A single reconstructing telescope gives the event its own regressor
      estimate and its own classifier score, the latter computed from that
      same energy. */
  lemma SingleTelescopeEvent(env: Env, img: Image, hMax: real)
    requires Fusable(env, [img])
    ensures EventEnergy(env, [img], hMax) == env.regressor[img.camId](EnergyFeatures(env, img, hMax))
    ensures EventScore(env, [img], hMax) ==
      env.classifier[img.camId](ScoreFeatures(env, img, EventEnergy(env, [img], hMax), hMax))
  {
    var w := img.moments.intensity;
    assert Intensities([img]) == [w];
    assert Sum([w]) == w;
    FuseSingle(w, EnergyEstimates(env, [img], hMax)[0]);
    assert EnergyEstimates(env, [img], hMax) == [EnergyEstimates(env, [img], hMax)[0]];
    var e := EventEnergy(env, [img], hMax);
    FuseSingle(w, ScoreEstimates(env, [img], e, hMax)[0]);
    assert ScoreEstimates(env, [img], e, hMax) == [ScoreEstimates(env, [img], e, hMax)[0]];
  }

  /** The score depends on the regressors only through the fused energy:
      two regressor banks that agree on the event energy give the same score. */
  lemma ScoreSeesOnlyFusedEnergy(env: Env, env': Env, imgs: seq<Image>, hMax: real)
    requires Fusable(env, imgs) && Fusable(env', imgs)
    requires env'.classifier == env.classifier && env'.log10 == env.log10
    requires EventEnergy(env', imgs, hMax) == EventEnergy(env, imgs, hMax)
    ensures EventScore(env', imgs, hMax) == EventScore(env, imgs, hMax)
  {
    var e := EventEnergy(env, imgs, hMax);
    assert forall i :: 0 <= i < |imgs| ==>
      ScoreFeatures(env', imgs[i], e, hMax) == ScoreFeatures(env, imgs[i], e, hMax);
    assert ScoreEstimates(env', imgs, e, hMax) == ScoreEstimates(env, imgs, e, hMax);
  }

  /** With non-negative intensities the fused energy lies between the
      smallest and the largest per-telescope estimate. */
  lemma EventEnergyBounded(env: Env, imgs: seq<Image>, hMax: real)
    requires Fusable(env, imgs) && |imgs| > 0
    requires forall i :: 0 <= i < |imgs| ==> imgs[i].moments.intensity >= 0.0
    requires Sum(Intensities(imgs)) > 0.0
    ensures Min(EnergyEstimates(env, imgs, hMax)) <= EventEnergy(env, imgs, hMax)
    ensures EventEnergy(env, imgs, hMax) <= Max(EnergyEstimates(env, imgs, hMax))
  {
    FuseBetweenMinAndMax(Intensities(imgs), EnergyEstimates(env, imgs, hMax));
  }

  /** The energy loop: fills `energy_tel` and `weight_tel` telescope by
      telescope, then fuses. */
  method EstimateEnergy(env: Env, imgs: seq<Image>, hMax: real) returns (recoEnergy: real)
    requires Fusable(env, imgs)
    ensures recoEnergy == EventEnergy(env, imgs, hMax)
  {
    var n := |imgs|;
    var energyTel := new real[n];
    var weightTel := new real[n];
    for idx := 0 to n
      invariant forall k :: 0 <= k < idx ==>
        energyTel[k] == env.regressor[imgs[k].camId](EnergyFeatures(env, imgs[k], hMax))
      invariant forall k :: 0 <= k < idx ==> weightTel[k] == imgs[k].moments.intensity
    {
      var moments := imgs[idx].moments;
      var model := env.regressor[imgs[idx].camId];
      var featuresImg := [env.log10(moments.intensity), env.log10(imgs[idx].impact),
                          moments.width, moments.length, hMax];
      energyTel[idx] := model(featuresImg);
      weightTel[idx] := moments.intensity;
    }
    assert weightTel[..] == Intensities(imgs);
    assert energyTel[..] == EnergyEstimates(env, imgs, hMax);
    recoEnergy := WeightedSum(weightTel[..], energyTel[..]) / Sum(weightTel[..]);
  }

  /** The score loop: every feature vector starts from the fused energy. */
  method EstimateScore(env: Env, imgs: seq<Image>, recoEnergy: real, hMax: real) returns (score: real)
    requires Fusable(env, imgs)
    ensures score == Fuse(Intensities(imgs), ScoreEstimates(env, imgs, recoEnergy, hMax))
  {
    var n := |imgs|;
    var scoreTel := new real[n];
    var weightTel := new real[n];
    for idx := 0 to n
      invariant forall k :: 0 <= k < idx ==>
        scoreTel[k] == env.classifier[imgs[k].camId](ScoreFeatures(env, imgs[k], recoEnergy, hMax))
      invariant forall k :: 0 <= k < idx ==> weightTel[k] == imgs[k].moments.intensity
    {
      var moments := imgs[idx].moments;
      var model := env.classifier[imgs[idx].camId];
      var featuresImg := [env.log10(recoEnergy), moments.width, moments.length,
                          moments.skewness, moments.kurtosis, hMax];
      scoreTel[idx] := model(featuresImg);
      weightTel[idx] := moments.intensity;
    }
    assert weightTel[..] == Intensities(imgs);
    assert scoreTel[..] == ScoreEstimates(env, imgs, recoEnergy, hMax);
    score := WeightedSum(weightTel[..], scoreTel[..]) / Sum(weightTel[..]);
  }

  /** One pass of the inner loop body up to the append: the row buffer starts
      from the column defaults and its fields are assigned one by one. */
  method ReconstructEvent(env: Env, ev: Event) returns (row: Row)
    requires Reconstructible(env, ev)
    ensures row == RowOf(env, ev)
  {
    var xi := env.angularSeparation(ev.truth.az, ev.truth.alt, ev.reco.az, ev.reco.alt);
    var offset := env.angularSeparation(ev.arrayAz, ev.arrayAlt, ev.reco.az, ev.reco.alt);
    var hMax := ev.reco.hMax;
    row := DefaultRow;
    if ev.images.Some? {
      var imgs := ev.images.value;
      var recoEnergy := EstimateEnergy(env, imgs, hMax);
      var score := EstimateScore(env, imgs, recoEnergy, hMax);
      row := row.(nTelsTrig := |ev.telsWithData|);
      row := row.(nTelsReco := |imgs|);
      row := row.(nTelsRecoLst := ev.nTels.lst);
      row := row.(nTelsRecoMst := ev.nTels.mst);
      row := row.(nTelsRecoSst := ev.nTels.sst);
      row := row.(recoEnergy := Num(recoEnergy));
      row := row.(recoAlt := Num(ev.reco.alt));
      row := row.(recoAz := Num(ev.reco.az));
      row := row.(offset := Num(offset));
      row := row.(xi := Num(xi));
      row := row.(hMax := Num(hMax));
      row := row.(recoCoreX := Num(ev.reco.coreX));
      row := row.(recoCoreY := Num(ev.reco.coreY));
      row := row.(mcCoreX := Num(ev.truth.coreX));
      row := row.(mcCoreY := Num(ev.truth.coreY));
      row := row.(score := Num(score));
      row := row.(success := true);
      row := row.(errEstPos := NaN);
      row := row.(errEstDir := NaN);
    } else {
      row := row.(success := false);
    }
    row := row.(mcEnergy := Num(ev.truth.energy));
    row := row.(eventId := ev.eventId);
    row := row.(obsId := ev.obsId);
  }
}

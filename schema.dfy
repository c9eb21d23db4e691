/** The fixed-schema output row of the DL2 writer (the `RecoEvent` table
    description) and the column defaults every fresh row starts from. */
module Schema {

  datatype Option<T> = None | Some(value: T)

  /** A float column value: a number, or the NaN that the float columns
      default to. Float32 rounding is not modelled: values are reals. */
  datatype Float = NaN | Num(value: real)

  /** One row of the `reco_events` table, in column-position order. */
  datatype Row = Row(
    obsId: int,
    eventId: int,
    nTelsTrig: int,
    nTelsReco: int,
    nTelsRecoLst: int,
    nTelsRecoMst: int,
    nTelsRecoSst: int,
    mcEnergy: Float,
    recoEnergy: Float,
    recoAlt: Float,
    recoAz: Float,
    offset: Float,
    xi: Float,
    errEstPos: Float,
    errEstDir: Float,
    gammaness: Float,
    success: bool,
    score: Float,
    hMax: Float,
    recoCoreX: Float,
    recoCoreY: Float,
    mcCoreX: Float,
    mcCoreY: Float)

  /** The column defaults: identifiers -1, telescope counts 0, every float
      column NaN, `success` false. */
  const DefaultRow: Row := Row(
    -1, -1,
    0, 0, 0, 0, 0,
    NaN, NaN, NaN, NaN, NaN, NaN, NaN, NaN, NaN,
    false,
    NaN, NaN, NaN, NaN, NaN, NaN)

  /** Every float column of a row, in column order. */
  function FloatColumns(r: Row): seq<Float>
  {
    [r.mcEnergy, r.recoEnergy, r.recoAlt, r.recoAz, r.offset, r.xi,
     r.errEstPos, r.errEstDir, r.gammaness, r.score, r.hMax,
     r.recoCoreX, r.recoCoreY, r.mcCoreX, r.mcCoreY]
  }

  /** The defaults as the schema declares them, column class by column class. */
  lemma DefaultRowColumns()
    ensures DefaultRow.obsId == -1 && DefaultRow.eventId == -1
    ensures DefaultRow.nTelsTrig == 0 && DefaultRow.nTelsReco == 0
    ensures DefaultRow.nTelsRecoLst == 0 && DefaultRow.nTelsRecoMst == 0 && DefaultRow.nTelsRecoSst == 0
    ensures forall k :: 0 <= k < |FloatColumns(DefaultRow)| ==> FloatColumns(DefaultRow)[k] == NaN
    ensures !DefaultRow.success
  {
  }
}

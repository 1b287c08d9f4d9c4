/** One pulse descriptor word: a row of the generated table, its
    measurement cells, and the two cell-level edits the corruption passes
    make (data/pdw_generator.py:122-147, 167-177). */
module Pdw {
  import opened Common

  /** The RF cell. The column starts numeric (a value or NaN) and is turned
      into text at the end: a value becomes its numeral and NaN becomes the
      single-space token " ". */
  datatype RfCell =
    | Mhz(mhz: real)
    | NotANumber
    | NumeralText(numeral: real)
    | BlankText

  /** A row, fields in the output column order: Timestamp, Emitter_ID,
      Radar_Function, RF_MHz, PW_us, PRI_us, Amplitude_dB, DOA_deg,
      Location_MGRS. `None` is the NaN marker; the function label is NaN
      when the emitter has no entry in the label table. */
  datatype Row = Row(
    timestamp: int,
    emitterId: int,
    radarFunction: Option<string>,
    rf: RfCell,
    pw: Option<real>,
    pri: Option<real>,
    amplitude: Option<real>,
    doa: Option<real>,
    location: string)

  /** The five measurement columns the corruption pass may blank, in the
      order `cols_to_corrupt` lists them. */
  datatype Column = RfMhz | PwUs | PriUs | AmplitudeDb | DoaDeg

  const AllColumns: set<Column> := {RfMhz, PwUs, PriUs, AmplitudeDb, DoaDeg}

  /** The number a measurement cell holds, whether still numeric or already
      text, or `None` when it holds the missing marker. */
  function Value(row: Row, c: Column): Option<real> {
    match c
    case RfMhz => (
      match row.rf
      case Mhz(v) => Some(v)
      case NumeralText(v) => Some(v)
      case NotANumber => None
      case BlankText => None)
    case PwUs => row.pw
    case PriUs => row.pri
    case AmplitudeDb => row.amplitude
    case DoaDeg => row.doa
  }

  /** Every measurement cell holds a value. */
  predicate Complete(row: Row) {
    forall c :: Value(row, c).Some?
  }

  /** The measurement columns whose cell is missing. */
  function MissingColumns(row: Row): set<Column> {
    set c | c in AllColumns && Value(row, c).None?
  }

  /** The cells that are not measurements. */
  predicate SameIdentity(a: Row, b: Row) {
    && a.timestamp == b.timestamp
    && a.emitterId == b.emitterId
    && a.radarFunction == b.radarFunction
    && a.location == b.location
  }

  /** `pdw_data.at[row_idx, col_name] = np.nan`: exactly the chosen cell
      becomes missing and every other cell keeps its content. */
  function SetMissing(row: Row, c: Column): (r: Row)
    ensures Value(r, c).None?
    ensures forall c' :: c' != c ==> Value(r, c') == Value(row, c')
    ensures SameIdentity(r, row)
    ensures c == RfMhz ==> r.rf == NotANumber
    ensures c != RfMhz ==> r.rf == row.rf
  {
    match c
    case RfMhz => row.(rf := NotANumber)
    case PwUs => row.(pw := None)
    case PriUs => row.(pri := None)
    case AmplitudeDb => row.(amplitude := None)
    case DoaDeg => row.(doa := None)
  }

  /** Blanking one cell of a complete row leaves that column, and only that
      column, missing. */
  lemma SetMissingOnComplete(row: Row, c: Column)
    requires Complete(row)
    ensures MissingColumns(SetMissing(row, c)) == {c}
  {
    var r := SetMissing(row, c);
    forall c' | c' in AllColumns ensures c' in MissingColumns(r) <==> c' == c {
    }
  }

  /** `astype(str)` followed by replacing 'nan' with ' ' on one RF cell: a
      value becomes its numeral, NaN becomes the blank token, and text stays
      text. No number is lost or invented. */
  function RfAsText(row: Row): (r: Row)
    ensures r.rf.NumeralText? || r.rf.BlankText?
    ensures r.rf.BlankText? <==> Value(row, RfMhz).None?
    ensures forall c :: Value(r, c) == Value(row, c)
    ensures r == row.(rf := r.rf)
  {
    match row.rf
    case Mhz(v) => row.(rf := NumeralText(v))
    case NotANumber => row.(rf := BlankText)
    case NumeralText(_) => row
    case BlankText => row
  }
}

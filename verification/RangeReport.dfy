// What the two protocols report for one range sample: protocol/msp.c:45-52 and protocol/dronecan.c:26-37. Ranges are
// in metres as reals; the float32 rounding of the wire format is not modelled.
module RangeReport {
  import opened Common
  import opened Samples
  import TofModel
  import Msp
  import MspParser
  import MspSensors

  datatype ReadingType = Undefined | ValidRange | ReadTooClose | ReadTooFar

  /** dronecan_range_reading_type */
  function ReadingTypeOf(s: RangeStatus): ReadingType {
    match s
    case Valid => ValidRange
    case TooClose => ReadTooClose
    case TooFar => ReadTooFar
    case _ => Undefined
  }

  /** The range field of dronecan_encode_range. */
  function RangeMetres(s: RangeSample): real {
    match s.status
    case Valid => s.distanceMm as real / 1000.0
    case TooClose => TofModel.RANGE_MIN_MM as real / 1000.0
    case TooFar => TofModel.RANGE_MAX_MM as real / 1000.0
    case _ => 0.0
  }

  /** Quality and distance as a receiver reads them from the MSP frame. */
  function MspReport(s: RangeSample): (u8, int32) {
    MspSensors.ReadRange(MspSensors.RangeMessage(s))
  }

  /**
   * What the two reports say together: MSP carries a distance exactly when DroneCAN says VALID; the distances are
   * then the same, within the sensor's limits and of full quality, and otherwise MSP is -1 with quality 0 and
   * DroneCAN the clamp limit or zero.
   */
  predicate Agree(s: RangeSample) {
    var (quality, distance) := MspReport(s);
    && (distance != -1 <==> ReadingTypeOf(s.status) == ValidRange)
    && match ReadingTypeOf(s.status)
       case ValidRange => 80 <= distance <= 3500 && quality == 100 && RangeMetres(s) * 1000.0 == distance as real
       case ReadTooClose => quality == 0 && RangeMetres(s) == 0.08
       case ReadTooFar => quality == 0 && RangeMetres(s) == 3.5
       case Undefined => quality == 0 && RangeMetres(s) == 0.0
  }

  /** Any sample that means what its status says is reported consistently. */
  lemma ClassifiedAgrees(s: RangeSample)
    requires TofModel.Classified(s)
    ensures Agree(s)
  {
    MspSensors.RangeReadBack(s);
  }

  /**
   * In every reachable state of the range sensor, whatever the bus did and at any timing: the reports agree, and the
   * MSP frame sent to an idle parser arrives as that report.
   */
  lemma ReportsAgree(t0: int, inputs: seq<TofModel.Input>, p: MspParser.Parser)
    requires p.Valid() && p.state == MspParser.Idle
    ensures TofModel.Inv(TofModel.Initial(t0))
    ensures var s := TofModel.After(TofModel.Initial(t0), inputs).sample;
            var m := MspSensors.RangeMessage(s);
            && Agree(s)
            && MspParser.Output(p, Msp.Encode(m)) == [m]
            && MspSensors.ReadRange(m) == MspReport(s)
  {
    TofModel.BringUpIsComplete(t0, inputs);
    var s := TofModel.After(TofModel.Initial(t0), inputs).sample;
    ClassifiedAgrees(s);
    hide Agree, TofModel.Classified, TofModel.After;
    MspSensors.RangeArrives(p, s);
  }

  /** Both clamp limits are met only in the limit states: the reading types are what the true distance says. */
  lemma ReadingTypeMeans(s: RangeSample, bus: TofModel.Bus)
    requires TofModel.IsReading(s, bus) && bus.status == 0
    ensures && (ReadingTypeOf(s.status) == ReadTooClose <==> bus.distance < 80)
            && (ReadingTypeOf(s.status) == ReadTooFar <==> bus.distance > 3500)
            && (ReadingTypeOf(s.status) == ValidRange <==> 80 <= bus.distance <= 3500)
  {}
}

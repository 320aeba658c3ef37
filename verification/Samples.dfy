// The sample records shared by drivers and protocols (include/flowcan/types.h).
module Samples {
  import opened Common

  datatype FlowSample = FlowSample(integrationUs: nat, countX: int32, countY: int32, quality: u8, valid: bool)

  datatype RangeStatus = Valid | TooClose | TooFar | Invalid | Fault

  datatype RangeSample = RangeSample(timestampUs: nat, distanceMm: int32, quality: u8, status: RangeStatus)
}

/** The seven sensor classes of the program. */
module Kinds {

  datatype Kind =
    | Load | CpuUsage | CpuMaxTemperature | MemoryUsage
    | NetworkThroughput | DiskThroughput | DiskSpace

  /**
   * The Python class name. `upload` uses it as the measurement name of every
   * record it writes, so records carry the kind and this is its name.
   */
  function ClassName(k: Kind): string {
    match k
    case Load => "LoadSensor"
    case CpuUsage => "CpuUsageSensor"
    case CpuMaxTemperature => "CpuMaxTemperatureSensor"
    case MemoryUsage => "MemoryUsageSensor"
    case NetworkThroughput => "NetworkThroughputSensor"
    case DiskThroughput => "DiskTroughputSensor"
    case DiskSpace => "DiskSpaceSensor"
  }

  /** No two classes share a name, so a record's kind and its measurement name determine each other. */
  lemma ClassNameInjective(k1: Kind, k2: Kind)
    ensures ClassName(k1) == ClassName(k2) <==> k1 == k2
  {
  }
}

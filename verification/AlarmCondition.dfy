/** The alarm conditions that rules are written with. */
module AlarmCondition {
  datatype Condition = High | Low | HighHigh | LowLow | RateOfChange | Deviation | BadQuality
}

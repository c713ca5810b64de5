/** Types shared by the pipelines. */
module Network {

  /** Why the network refused an Interest; all but the first two mean the same here. */
  datatype NackReason = Duplicate | Congestion | OtherReason
}

/** The records the field works on. */
module Dtos {
  import opened Wrappers

  /**
   * The provider kinds the field tells apart. Every other kind of the
   * system's CloudType enumeration is represented by OtherCloud.
   */
  datatype CloudType = Aws | Gcp | Azu | Kubernetes | OtherCloud

  /**
   * One fetched instance type. Only the fields the field reads are kept; a
   * missing `numCores` or `memSizeGB` is None.
   */
  datatype InstanceType = InstanceType(instanceTypeCode: string, numCores: Option<nat>, memSizeGB: Option<nat>)
}

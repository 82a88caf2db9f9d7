/** Activities and resources, reduced to the fields that planning and simulation read. */
module Model {
  import opened Graphs
  import opened Outcomes

  /** How an activity is to be simulated: how long it takes or how much it computes. */
  datatype SimulationSpec = SimulationSpec(duration: real, flops: real, parameterFlops: Option<real>)

  datatype Activity = Activity(
    typeId: Id,
    cpu: real,
    memory: int,
    selector: Id,
    baseRuntime: Option<real>,
    metadataFlops: Option<real>,
    simulation: Option<SimulationSpec>
  )

  datatype Resource = Resource(
    environmentVersion: Id,
    schedulable: bool,
    schedulerTarget: bool,
    cpu: real,
    memory: int,
    speedup: real,
    bootOverhead: real,
    containerOverhead: real,
    pricePerSecond: real,
    flopsPerSecond: Option<real>
  )
}

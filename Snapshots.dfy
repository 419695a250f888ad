/** The two shared-memory records the bridge reads, reduced to the fields it
    uses. Both are owned and written by the simulator; this program only takes
    copies ("snapshots") of them, so they are plain values here. */
module Snapshots {

  /** The flight-dynamics record (BMS `FlightData`). The simulator stores these
      as f32; they are modelled as reals. */
  datatype FlightData = FlightData(
    kias: real,        // indicated airspeed, knots
    zDot: real,        // vertical speed, feet per second
    alpha: real,       // angle of attack
    gearPos: real,     // landing gear position, 0.0 .. 1.0
    speedBrake: real,  // speed-brake deployment, 0.0 .. 1.0
    rpm: real          // engine RPM fraction, used as the thrust value
  )

  /** The session/event record (BMS `IntellivibeData`). */
  datatype IntellivibeData = IntellivibeData(
    onGround: bool,
    gForce: real,
    paused: bool,
    ejecting: bool,
    endFlight: bool,
    exitGame: bool
  )

  /** What opening a shared-memory segment yields: the mapped file, or the
      error returned while the simulator has not created the segment yet. */
  datatype OpenResult<H> = Opened(handle: H) | Unavailable
}

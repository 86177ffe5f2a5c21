/**
 * The fixed configuration shared by the server and the renderer
 * (server.py lines 27-37). The source declares the geometry as integers
 * and the speeds as floats; all of them are modelled as `real`. Integer
 * expressions such as `HEIGHT - PADDLE_H` are exact either way; the field
 * size sent in the `state` message is an integer in the source and a
 * whole-valued `real` here.
 */
module Config {
  const FieldWidth: real := 900.0
  const FieldHeight: real := 600.0
  const PaddleWidth: real := 14.0
  const PaddleHeight: real := 110.0
  const BallSize: real := 14.0
  const EdgePad: real := 30.0
  const PaddleSpeed: real := 480.0
  const BallSpeedStart: real := 360.0
  const BallSpeedInc: real := 28.0
  const MaxBallAngle: real := 0.35

  /** Highest legal top edge of a paddle: `HEIGHT - PADDLE_H`. */
  const PaddleMaxY: real := FieldHeight - PaddleHeight

  /** Floor on the squared horizontal speed after a paddle hit (the `6400.0` literal). */
  const MinVxSquared: real := 6400.0

  /** Largest time step `tick` lets through: `1.0/30.0` seconds. */
  const MaxDt: real := 1.0 / 30.0

  /** Length limit applied to admin broadcast text (`[:200]`). */
  const BroadcastLimit: nat := 200

  /** The shared admin secret (`ADMIN_CODE`); it is no cryptographic protection. */
  const AdminCode: string := "100"
}

/** Simulation-wide constants (`Global`). */
module Global {
  /** `Global::TIMESTEP_NEVER`: the time step of an event that has not happened. */
  const TIMESTEP_NEVER: int := -0x3FFFFFFF
}

/**
 * Pathogenesis states, shared by the clinical models. A state is the set of
 * its flags; each flag is taken as a bit of its own, and NONE is the empty set.
 */
module Pathogenesis {
  datatype Flag =
    | Sick | Malaria | Complicated | IndirectMortality | SecondCase | Recovery | Sequelae
    | DirectDeath | EventInHospital | EventFirstDay | PendingUC

  /** `STATE_MALARIA`: an uncomplicated malaria case. */
  const StateMalaria: set<Flag> := {Sick, Malaria}

  /** `STATE_SEVERE`: a severe malaria case. */
  const StateSevere: set<Flag> := {Sick, Malaria, Complicated}
}

/**
 The single-bit flags that steer the propagators. The source keeps them in one process-wide integer;
 here each bit the propagators use is a field of one shared object.
 */
module Flags {

  class FlagWord {
    var sgp4Initialized: bool
    var sdp4Initialized: bool
    var simple: bool
    var deepSpaceEphem: bool
    var lunarTermsDone: bool
    var doLoop: bool
    var resonance: bool
    var synchronous: bool
    var epochRestart: bool

    ghost predicate AllDown()
      reads this
    {
      && !sgp4Initialized && !sdp4Initialized && !simple && !deepSpaceEphem && !lunarTermsDone
      && !doLoop && !resonance && !synchronous && !epochRestart
    }

    constructor ()
      ensures AllDown()
    {
      sgp4Initialized, sdp4Initialized, simple := false, false, false;
      deepSpaceEphem, lunarTermsDone, doLoop := false, false, false;
      resonance, synchronous, epochRestart := false, false, false;
    }

    /** Clearing with the all-ones mask. */
    method ClearAll()
      modifies this
      ensures AllDown()
    {
      sgp4Initialized, sdp4Initialized, simple := false, false, false;
      deepSpaceEphem, lunarTermsDone, doLoop := false, false, false;
      resonance, synchronous, epochRestart := false, false, false;
    }
  }
}

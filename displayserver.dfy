/**
 * The display-server layer shared by every platform backend
 * (src/detection/displayserver/displayserver.c): refresh-rate normalisation,
 * the guarded append of a display record, and the compute-once connection.
 */
module DisplayServer {
  import opened Integers
  import opened ResultStore

  /** One output as the backends report it: pixel size, refresh rate and the scaled (logical) size. */
  datatype DisplayResult = DisplayResult(
    width: uint32,
    height: uint32,
    refreshRate: uint32,
    scaledWidth: uint32,
    scaledHeight: uint32)

  /** The display-server result; only its list of displays is modelled. */
  class DisplayServerResult {
    const displays: ResultList<DisplayResult>

    constructor ()
      ensures fresh(displays) && displays.items == []
    {
      displays := new ResultList<DisplayResult>();
    }
  }

  // ---------------------------------------------------------------------------
  // Refresh-rate normalisation
  // ---------------------------------------------------------------------------

  /** The largest multiple of five that a 32-bit signed integer can hold. */
  const MaxRefreshRate: int := 0x7fff_fffd

  function Distance(a: int, b: int): nat {
    if a <= b then b - a else a - b
  }

  /** `m` is the multiple of five nearest to `raw` (there is exactly one within distance 2). */
  ghost predicate NearestMultipleOfFive(m: int, raw: int) {
    m % 5 == 0 && Distance(m, raw) <= 2
  }

  /**
   * Canonical refresh rate: 0 for a non-positive (unknown) rate, otherwise the
   * nearest multiple of five, remainders 0 to 2 rounding down and 3 to 4 rounding
   * up, with 145 reported as the common panel rate 144. The arithmetic is done in
   * 32-bit signed integers, so the verifier checks that it never overflows.
   */
  function ParseRefreshRate(refreshRate: int32): (r: uint32)
    ensures refreshRate <= 0 ==> r == 0
    ensures refreshRate > 0 ==> r as int % 5 == 0 || r == 144
    ensures refreshRate > 0 ==>
      Distance(r as int, refreshRate as int) <= 2 || (r == 144 && refreshRate == 147)
    ensures r as int <= MaxRefreshRate
  {
    if refreshRate <= 0 then 0
    else
      var remainder := refreshRate % 5;
      var rounded := if remainder >= 3 then refreshRate + (5 - remainder) else refreshRate - remainder;
      (if rounded == 145 then 144 else rounded) as uint32
  }

  /** For a positive rate the result is the nearest multiple of five, except that 145 becomes 144. */
  lemma ParseIsNearestMultipleOfFive(refreshRate: int32, m: int)
    requires refreshRate > 0 && NearestMultipleOfFive(m, refreshRate as int)
    ensures ParseRefreshRate(refreshRate) as int == if m == 145 then 144 else m
  {
  }

  /** Normalising a normalised rate changes nothing. */
  lemma ParseIdempotent(refreshRate: int32)
    ensures ParseRefreshRate(ParseRefreshRate(refreshRate) as int32) == ParseRefreshRate(refreshRate)
  {
  }

  lemma ParseRefreshRateExamples()
    ensures ParseRefreshRate(-60) == 0 && ParseRefreshRate(0) == 0 && ParseRefreshRate(2) == 0
    ensures ParseRefreshRate(62) == 60 && ParseRefreshRate(63) == 65
    ensures ParseRefreshRate(143) == 144 && ParseRefreshRate(144) == 144
    ensures ParseRefreshRate(147) == 144 && ParseRefreshRate(148) == 150
    ensures ParseRefreshRate(0x7fff_ffff) as int == MaxRefreshRate
  {
  }

  // ---------------------------------------------------------------------------
  // Appending a display
  // ---------------------------------------------------------------------------

  /** Every display in the list has a non-zero width and height. */
  predicate DimensionsKnown(displays: seq<DisplayResult>) {
    forall i :: 0 <= i < |displays| ==> displays[i].width != 0 && displays[i].height != 0
  }

  /**
   * Appends a display with exactly the given values, unless its width or height
   * is zero (a disabled or disconnected output), in which case the list is left
   * alone and false is returned. The refresh rate is stored as given.
   */
  method AppendDisplay(result: DisplayServerResult, width: uint32, height: uint32,
                       refreshRate: uint32, scaledWidth: uint32, scaledHeight: uint32)
    returns (added: bool)
    modifies result.displays
    ensures added <==> width != 0 && height != 0
    ensures result.displays.items ==
      if added then old(result.displays.items) + [DisplayResult(width, height, refreshRate, scaledWidth, scaledHeight)]
      else old(result.displays.items)
    ensures DimensionsKnown(old(result.displays.items)) ==> DimensionsKnown(result.displays.items)
  {
    if width == 0 || height == 0 {
      return false;
    }
    result.displays.Add(DisplayResult(width, height, refreshRate, scaledWidth, scaledHeight));
    return true;
  }

  // ---------------------------------------------------------------------------
  // Compute-once connection
  // ---------------------------------------------------------------------------

  /**
   * The guarded connection to the display server: one result object for the
   * process, filled by the platform backend on the first request only.
   * `implRuns` counts how often the backend has run.
   */
  class DisplayServerDetector {
    var initialized: bool
    const result: DisplayServerResult
    ghost var implRuns: nat

    /** The backend has run once exactly when the result is initialised; before that the result is empty. */
    ghost predicate Valid()
      reads this, result, result.displays
    {
      && implRuns == (if initialized then 1 else 0)
      && (!initialized ==> result.displays.items == [])
    }

    constructor ()
      ensures Valid() && !initialized
      ensures fresh(result) && fresh(result.displays) && result.displays.items == []
    {
      initialized := false;
      result := new DisplayServerResult();
      implRuns := 0;
    }

    /**
     * Returns the one result object. `implDisplays` is what the platform backend
     * would leave in it if it ran now; it runs only on the first call, and every
     * later call returns the same object untouched.
     */
    method Connect(implDisplays: seq<DisplayResult>) returns (r: DisplayServerResult)
      requires Valid()
      modifies this, result.displays
      ensures Valid() && initialized && implRuns == 1
      ensures r == result
      ensures old(initialized) ==> r.displays.items == old(r.displays.items)
      ensures !old(initialized) ==> r.displays.items == implDisplays
    {
      if !initialized {
        initialized := true;
        result.displays.items := implDisplays;
        implRuns := implRuns + 1;
      }
      r := result;
    }
  }

  /** Two requests give the same object, holding what the backend reported on the first one. */
  method ConnectTwice(detector: DisplayServerDetector, first: seq<DisplayResult>, second: seq<DisplayResult>)
    returns (r1: DisplayServerResult, r2: DisplayServerResult)
    requires detector.Valid() && !detector.initialized
    modifies detector, detector.result.displays
    ensures r1 == r2 && r2.displays.items == first
    ensures detector.implRuns == 1
  {
    r1 := detector.Connect(first);
    r2 := detector.Connect(second);
  }
}

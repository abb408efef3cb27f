/**
 * The location step of the report wizard (app/report/location.tsx): a
 * pin, initialised from the draft, moved by map presses or to the user's
 * position, and a precision chosen from fixed options. "Next" writes the
 * raw pin and the precision into the draft.
 *
 * The user's position and whether the map view is mounted are parameters.
 */
module LocationStep {
  import opened Types
  import ReportStore

  const DefaultPrecisionM: int := 500

  /** PRECISION_OPTIONS of lib/rounding.ts, in metres. */
  const PrecisionOptions: seq<int> := [200, 500, 1000, 2000]

  /** The initial pin: the draft's point when both of its coordinates are set. */
  function InitialPin(d: ReportStore.ReportDraft): (pin: Option<Coord>)
    ensures pin.Some? <==> d.lat.Some? && d.lon.Some?
    ensures pin.Some? ==> pin.value == Coord(d.lat.value, d.lon.value)
  {
    if d.lat.Some? && d.lon.Some? then Some(Coord(d.lat.value, d.lon.value)) else None
  }

  /** The initial precision: the draft's precision, `500` when it has none. */
  function InitialPrecision(d: ReportStore.ReportDraft): (p: int)
    ensures d.precisionM.Some? ==> p == d.precisionM.value
    ensures d.precisionM.None? ==> p == DefaultPrecisionM
  {
    if d.precisionM.Some? then d.precisionM.value else DefaultPrecisionM
  }

  datatype StepOutcome = Alerted | Advanced

  class Screen {
    const store: ReportStore.Store
    var pin: Option<Coord>
    var precision: int

    constructor (s: ReportStore.Store)
      ensures store == s
      ensures pin == InitialPin(s.Draft()) && precision == InitialPrecision(s.Draft())
    {
      store := s;
      pin := InitialPin(s.Draft());
      precision := InitialPrecision(s.Draft());
    }

    /** A map press replaces the pin by the pressed point. */
    method OnMapPress(lat: real, lon: real)
      modifies this
      ensures pin == Some(Coord(lat, lon)) && precision == old(precision)
    {
      pin := Some(Coord(lat, lon));
    }

    /** A precision button sets the precision to its option. */
    method SelectPrecision(option: nat)
      requires option < |PrecisionOptions|
      modifies this
      ensures precision == PrecisionOptions[option] && precision in PrecisionOptions
      ensures pin == old(pin)
    {
      precision := PrecisionOptions[option];
    }

    /**
     * centerOnUser: with a known position and a mounted map the pin moves
     * to the position; otherwise an alert is shown and the pin stays.
     */
    method CenterOnUser(userLocation: Option<Coord>, mapReady: bool) returns (alerted: bool)
      modifies this
      ensures alerted <==> !(userLocation.Some? && mapReady)
      ensures pin == if alerted then old(pin) else userLocation
      ensures precision == old(precision)
    {
      if userLocation.Some? && mapReady {
        pin := userLocation;
        alerted := false;
      } else {
        alerted := true;
      }
    }

    /**
     * onNext: without a pin an alert is shown and the draft is unchanged;
     * with one, the raw (unrounded) pin and the chosen precision are
     * written together.
     */
    method OnNext() returns (outcome: StepOutcome)
      modifies store
      ensures pin.None? ==> outcome == Alerted && store.Draft() == old(store.Draft())
      ensures pin.Some? ==> outcome == Advanced
      ensures pin.Some? ==>
        store.Draft() == old(store.Draft()).(lat := Some(pin.value.lat), lon := Some(pin.value.lon),
                                             precisionM := Some(precision))
    {
      if pin.None? {
        return Alerted;
      }
      store.SetLocation(pin.value.lat, pin.value.lon, precision);
      return Advanced;
    }
  }

  /** Opening the step on a draft written by its own "Next" shows the same pin and precision again. */
  lemma ReopenShowsWrittenLocation(d: ReportStore.ReportDraft, pin: Coord, precision: int)
    ensures var written := d.(lat := Some(pin.lat), lon := Some(pin.lon), precisionM := Some(precision));
      InitialPin(written) == Some(pin) && InitialPrecision(written) == precision
  {
  }
}

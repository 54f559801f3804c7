/**
 * The address hook (hooks/useAddress.ts) as an object driven by three events:
 * a render with a coordinate pair, the completion of one of the address
 * lookups it started, and unmounting. React calls the hook's effect on mount and afterwards
 * only when the pair differs from the previous render's. The hook's refs start
 * as (null, null) and, after every run of the effect, hold the pair of that
 * render. So the mount run is the first `OnCoords`, compared against
 * (null, null), and every later React check is the same comparison as the
 * hook's own test of its refs.
 */
module AddressHook {
  import opened Wrappers
  import Geocoding

  const NotAvailable := "N/A"
  const UnknownLocation := "Unknown location"

  /**
   * One run of the effect that called `fetchAddress`: its coordinates, its
   * `isCancelled` flag and whether its promise has settled.
   */
  datatype Lookup = Lookup(lat: real, long: real, cancelled: bool, settled: bool)

  /** `result || "Unknown location"`. */
  function Shown(result: string): (s: string)
    ensures s != ""
    ensures result != "" ==> s == result
    ensures result == "" ==> s == UnknownLocation
  {
    if result == "" then UnknownLocation else result
  }

  /** Geocoder answers are never empty, so they are shown as they are. */
  lemma GeocoderAnswerShownAsIs(lat: real, long: real, service: Geocoding.LocationService)
    ensures Shown(Geocoding.FetchAddress(lat, long, service).text) == Geocoding.FetchAddress(lat, long, service).text
  {
  }

  /** Every lookup flagged cancelled. */
  function CancelAll(lookups: seq<Lookup>): (r: seq<Lookup>)
    ensures |r| == |lookups|
    ensures forall i :: 0 <= i < |r| ==> r[i] == lookups[i].(cancelled := true)
  {
    seq(|lookups|, i requires 0 <= i < |lookups| => lookups[i].(cancelled := true))
  }

  class AddressLookup {
    var prevLat: Option<real>
    var prevLong: Option<real>
    var address: string
    /** Every lookup started so far; a lookup's id is its index. */
    var lookups: seq<Lookup>

    /**
     * Only the newest lookup can be live, it is for the current pair, and
     * the address shown is never empty.
     */
    ghost predicate Valid()
      reads this
    {
      && (forall i :: 0 <= i < |lookups| - 1 ==> lookups[i].cancelled)
      && (|lookups| > 0 && !lookups[|lookups| - 1].cancelled ==>
            prevLat == Some(lookups[|lookups| - 1].lat) && prevLong == Some(lookups[|lookups| - 1].long))
      && address != ""
    }

    /** The live lookup, if any: the one whose result will be shown. */
    function Live(): (id: Option<nat>)
      reads this
      requires Valid()
      ensures id.Some? ==> id.value == |lookups| - 1 && !lookups[id.value].cancelled
      ensures id.None? ==> forall i :: 0 <= i < |lookups| ==> lookups[i].cancelled
    {
      if |lookups| > 0 && !lookups[|lookups| - 1].cancelled then Some(|lookups| - 1) else None
    }

    /** The first render: "N/A", no previous pair, nothing looked up. */
    constructor ()
      ensures Valid()
      ensures address == NotAvailable && prevLat == None && prevLong == None && lookups == []
    {
      address := NotAvailable;
      prevLat, prevLong := None, None;
      lookups := [];
    }

    /**
     * A render with the pair (lat, long). An unchanged pair does nothing.
     * Otherwise the previous effect's cleanup cancels its lookup, the pair is
     * remembered, and either the address becomes "N/A" (a coordinate is
     * missing) or a new lookup starts.
     */
    method OnCoords(lat: Option<real>, long: Option<real>) returns (started: Option<nat>)
      requires Valid()
      modifies this
      ensures Valid()
      ensures lat == old(prevLat) && long == old(prevLong) ==>
                started == None && address == old(address) && lookups == old(lookups) &&
                prevLat == old(prevLat) && prevLong == old(prevLong)
      ensures !(lat == old(prevLat) && long == old(prevLong)) ==>
                prevLat == lat && prevLong == long && |lookups| >= old(|lookups|) &&
                lookups[..old(|lookups|)] == CancelAll(old(lookups))
      ensures !(lat == old(prevLat) && long == old(prevLong)) && (lat.None? || long.None?) ==>
                started == None && address == NotAvailable && |lookups| == old(|lookups|)
      ensures !(lat == old(prevLat) && long == old(prevLong)) && lat.Some? && long.Some? ==>
                address == old(address) &&
                lookups == CancelAll(old(lookups)) + [Lookup(lat.value, long.value, false, false)] &&
                started == Some(old(|lookups|)) && Live() == started
    {
      started := None;
      if lat == prevLat && long == prevLong {
        return;
      }
      // cleanup of the previous run
      if |lookups| > 0 {
        var last := |lookups| - 1;
        lookups := lookups[last := lookups[last].(cancelled := true)];
      }
      assert lookups == CancelAll(old(lookups));
      prevLat, prevLong := lat, long;
      if lat.None? || long.None? {
        address := NotAvailable;
        return;
      }
      started := Some(|lookups|);
      lookups := lookups + [Lookup(lat.value, long.value, false, false)];
    }

    /** The component unmounts: the last effect's cleanup cancels its lookup. */
    method OnUnmount()
      requires Valid()
      modifies this
      ensures Valid()
      ensures lookups == CancelAll(old(lookups)) && Live() == None
      ensures address == old(address) && prevLat == old(prevLat) && prevLong == old(prevLong)
    {
      if |lookups| > 0 {
        var last := |lookups| - 1;
        lookups := lookups[last := lookups[last].(cancelled := true)];
      }
      assert lookups == CancelAll(old(lookups));
    }

    /**
     * Lookup `id` completes with `result`. Only the live lookup changes the
     * address; a cancelled one is ignored.
     */
    method OnResult(id: nat, result: string)
      requires Valid()
      requires id < |lookups| && !lookups[id].settled
      modifies this
      ensures Valid()
      ensures lookups == old(lookups)[id := old(lookups)[id].(settled := true)]
      ensures prevLat == old(prevLat) && prevLong == old(prevLong)
      ensures old(lookups)[id].cancelled ==> address == old(address)
      ensures !old(lookups)[id].cancelled ==> address == Shown(result) && old(Live()) == Some(id)
    {
      if !lookups[id].cancelled {
        address := Shown(result);
      }
      lookups := lookups[id := lookups[id].(settled := true)];
    }
  }

  /** Two quick moves: only the second lookup's answer is shown. */
  method StaleAnswerIgnored()
  {
    var hook := new AddressLookup();
    var none := hook.OnCoords(None, None);
    assert none == None && hook.lookups == [] && hook.address == NotAvailable;
    var first := hook.OnCoords(Some(14.68), Some(120.53));
    var second := hook.OnCoords(Some(14.69), Some(120.53));
    assert first == Some(0) && second == Some(1);
    hook.OnResult(0, "Old Street");
    assert hook.address == NotAvailable;
    hook.OnResult(1, "New Street");
    assert hook.address == "New Street";
  }
}

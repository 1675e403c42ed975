/**
 * FakeSysFs: the in-memory distance source the topology package is tested against.
 * It holds canned distance lines per node id and one sticky error that, while set,
 * is returned for every node.
 */
module Fakesysfs {
  import opened Wrappers
  import opened Errors

  class FakeSysFs {
    /** the canned lines; `None` is Go's nil map, which reads as empty */
    var distances: Option<map<int, string>>
    /** the sticky error; `None` is nil */
    var distancesErr: Option<Error>

    /** The zero value `FakeSysFs{}`: nil map, nil error. */
    constructor ()
      ensures distances == None && distancesErr == None
    {
      distances := None;
      distancesErr := None;
    }

    /** The lines the fake currently holds. */
    function Entries(): map<int, string>
      reads this
    {
      match distances
      case None => map[]
      case Some(m) => m
    }

    /** The pair `(line, error)` that GetDistances hands back for `nodeId` in this state. */
    function Lookup(nodeId: int): (string, Option<Error>)
      reads this
    {
      if distancesErr.Some? then ("", distancesErr)
      else if nodeId !in Entries() then ("", Some(DistanceNotFound))
      else (Entries()[nodeId], None)
    }

    method GetDistances(nodeId: int) returns (line: string, err: Option<Error>)
      ensures (line, err) == Lookup(nodeId)
      ensures distancesErr.Some? ==> line == "" && err == distancesErr
      ensures distancesErr.None? && nodeId !in Entries() ==> line == "" && err == Some(DistanceNotFound)
      ensures distancesErr.None? && nodeId in Entries() ==> line == Entries()[nodeId] && err == None
    {
      if distancesErr.Some? {
        return "", distancesErr;
      }
      var m := if distances.Some? then distances.value else map[];
      if nodeId !in m {
        return "", Some(DistanceNotFound);
      }
      return m[nodeId], None;
    }

    /**
     * Stores `line` for `nodeId` (creating the map on first use) and replaces the
     * sticky error with `err`, so the last call decides it and `None` clears it.
     */
    method SetDistances(nodeId: int, line: string, err: Option<Error>)
      modifies this
      ensures distances == Some(old(Entries())[nodeId := line])
      ensures old(distances) == None ==> Entries() == map[nodeId := line]
      ensures forall n :: n != nodeId ==> (n in Entries() <==> n in old(Entries()))
      ensures forall n :: n != nodeId && n in Entries() ==> Entries()[n] == old(Entries())[n]
      ensures distancesErr == err
      ensures err == None ==> Lookup(nodeId) == (line, None)
      ensures err == old(distancesErr) ==> forall n :: n != nodeId ==> Lookup(n) == old(Lookup(n))
      ensures err.Some? ==> forall n :: Lookup(n) == ("", err)
    {
      if distances.None? {
        distances := Some(map[nodeId := line]);
      } else {
        distances := Some(distances.value[nodeId := line]);
      }
      distancesErr := err;
    }
  }
}

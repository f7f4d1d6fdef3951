/** Finding the sensor among the slaves on the ring. */
module SlaveSearch {
  import opened Machine

  datatype SlaveInfo = SlaveInfo(vendorId: uint32, productCode: uint32, alias: nat, position: nat)

  /** What the driver looks for. */
  datatype SlaveConfig = SlaveConfig(vendorId: uint32, productCode: uint32, alias: nat, position: nat)

  /** The ring as the master reports it; a slave whose information cannot be read is None. */
  type Ring = seq<Option<SlaveInfo>>

  predicate Matches(wanted: SlaveConfig, ring: Ring, i: nat)
    requires i < |ring|
  {
    && ring[i].Some?
    && ring[i].value.vendorId == wanted.vendorId
    && ring[i].value.productCode == wanted.productCode
    && (wanted.alias == 0 || ring[i].value.alias == wanted.alias)
    && (wanted.position == i || wanted.position == ring[i].value.position)
  }

  predicate FirstMatch(wanted: SlaveConfig, ring: Ring, i: nat) {
    i < |ring| && Matches(wanted, ring, i) && forall j :: 0 <= j < i ==> !Matches(wanted, ring, j)
  }

  /** The search pins the configuration to the slave it found. */
  function Pinned(wanted: SlaveConfig, found: SlaveInfo): SlaveConfig {
    wanted.(alias := found.alias, position := found.position)
  }

  ghost predicate NoMatch(wanted: SlaveConfig, ring: Ring) {
    forall i :: 0 <= i < |ring| ==> !Matches(wanted, ring, i)
  }

  /** `config` is `wanted`, pinned to its first match. */
  ghost predicate PinnedToFirst(wanted: SlaveConfig, ring: Ring, config: SlaveConfig) {
    exists i: nat :: FirstMatch(wanted, ring, i) && config == Pinned(wanted, ring[i].value)
  }

  predicate RingPositions(ring: Ring) {
    forall i :: 0 <= i < |ring| && ring[i].Some? ==> ring[i].value.position == i
  }

  method FindSlave(wanted: SlaveConfig, ring: Ring) returns (found: Option<SlaveInfo>)
    ensures found.Some? ==> exists i: nat :: FirstMatch(wanted, ring, i) && ring[i] == found
    ensures found.Some? ==> PinnedToFirst(wanted, ring, Pinned(wanted, found.value))
    ensures found.None? <==> NoMatch(wanted, ring)
  {
    var i := 0;
    while i < |ring|
      invariant 0 <= i <= |ring|
      invariant forall j :: 0 <= j < i ==> !Matches(wanted, ring, j)
    {
      if ring[i].Some? {
        var info := ring[i].value;
        var productMatches := info.vendorId == wanted.vendorId && info.productCode == wanted.productCode;
        var aliasMatches := wanted.alias == 0 || info.alias == wanted.alias;
        var positionMatches := wanted.position == i || wanted.position == info.position;
        if productMatches && aliasMatches && positionMatches {
          assert FirstMatch(wanted, ring, i);
          return ring[i];
        }
      }
      i := i + 1;
    }
    found := None;
  }

  /** The slave at `j` would do for a search for the alias and position of `found`. */
  predicate StandsFor(wanted: SlaveConfig, ring: Ring, j: nat, found: SlaveInfo)
    requires j < |ring|
  {
    && ring[j].Some?
    && ring[j].value.vendorId == wanted.vendorId
    && ring[j].value.productCode == wanted.productCode
    && (found.alias == 0 || ring[j].value.alias == found.alias)
    && (found.position == j || found.position == ring[j].value.position)
  }

  /** Searching again with the pinned configuration. A slave found by the position it reports
      is found again, whatever else is on the ring: narrowing the alias cannot move the
      search. One found by its index alone is found again exactly when no earlier slave of
      the product stands for the alias and position that it reports. */
  lemma PinnedSearchRepeats(wanted: SlaveConfig, ring: Ring, i: nat)
    requires FirstMatch(wanted, ring, i)
    ensures var found := ring[i].value;
            FirstMatch(Pinned(wanted, found), ring, i) <==>
            || wanted.position == found.position
            || forall j :: 0 <= j < i ==> !StandsFor(wanted, ring, j, found)
    ensures RingPositions(ring) ==> FirstMatch(Pinned(wanted, ring[i].value), ring, i)
  {
    var pinned := Pinned(wanted, ring[i].value);
    assert Matches(pinned, ring, i);
    forall j | 0 <= j < i
      ensures Matches(pinned, ring, j) <==> StandsFor(wanted, ring, j, ring[i].value)
      ensures wanted.position == ring[i].value.position ==> !Matches(pinned, ring, j)
    {
      assert !Matches(wanted, ring, j);
    }
  }

  /** Over any number of activations the search only ever moves towards the start of the
      ring, so it settles: `path` is the slaves found one after the other, the last of which
      is found for ever after. */
  lemma {:induction false} SearchSettles(wanted: SlaveConfig, ring: Ring, i: nat) returns (path: seq<nat>)
    requires FirstMatch(wanted, ring, i)
    ensures 0 < |path| <= i + 1 && path[0] == i
    ensures forall k :: 0 <= k < |path| ==> path[k] < |ring| && ring[path[k]].Some?
    ensures forall k :: 0 < k < |path| ==>
              path[k] < path[k - 1] && FirstMatch(Pinned(wanted, ring[path[k - 1]].value), ring, path[k])
    ensures var last := path[|path| - 1]; FirstMatch(Pinned(wanted, ring[last].value), ring, last)
    decreases i
  {
    var pinned := Pinned(wanted, ring[i].value);
    assert Matches(pinned, ring, i);
    if FirstMatch(pinned, ring, i) {
      path := [i];
    } else {
      var j := FirstOf(pinned, ring, i);
      var rest := SearchSettles(pinned, ring, j);
      assert forall f: SlaveInfo :: Pinned(pinned, f) == Pinned(wanted, f);
      path := [i] + rest;
    }
  }

  lemma {:induction false} FirstOf(wanted: SlaveConfig, ring: Ring, i: nat) returns (j: nat)
    requires i < |ring| && Matches(wanted, ring, i)
    ensures j <= i && FirstMatch(wanted, ring, j)
    decreases i
  {
    if k: nat :| k < i && Matches(wanted, ring, k) {
      j := FirstOf(wanted, ring, k);
    } else {
      j := i;
    }
  }

  /** It can move, if a master library may report positions that are not ring indices: here
      the second search finds another slave of the same product. */
  lemma PinnedSearchCanMove()
    ensures var wanted := SlaveConfig(1, 1, 0, 1);
            var ring := [Some(SlaveInfo(1, 1, 0, 7)), Some(SlaveInfo(1, 1, 0, 0))];
            && FirstMatch(wanted, ring, 1)
            && FirstMatch(Pinned(wanted, ring[1].value), ring, 0)
  {
    var wanted := SlaveConfig(1, 1, 0, 1);
    var ring := [Some(SlaveInfo(1, 1, 0, 7)), Some(SlaveInfo(1, 1, 0, 0))];
    assert !Matches(wanted, ring, 0) && Matches(wanted, ring, 1);
  }
}

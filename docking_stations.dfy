/** The docking-station repository: a dictionary from station name to station,
    loaded from a yaml object, searched by AR marker ids, and flattened into a
    message. */
module DockingStationSemantics {
  import opened Common

  /** A station's pose; its coordinates are carried along and never examined. */
  datatype Pose2D = Pose2D(x: real, y: real, theta: real)

  datatype DockingStation = DockingStation(primaryId: int, leftId: int, rightId: int, pose: Pose2D)

  /** One entry of the yaml object, key by key: None stands for a key the
      entry does not have. */
  datatype PoseParameters = PoseParameters(x: Option<real>, y: Option<real>, theta: Option<real>)

  datatype StationParameters = StationParameters(
    primaryId: Option<int>,
    leftId: Option<int>,
    rightId: Option<int>,
    pose: Option<PoseParameters>)

  /** Every key a station needs is present. */
  predicate Complete(p: StationParameters)
  {
    && p.primaryId.Some? && p.leftId.Some? && p.rightId.Some?
    && p.pose.Some? && p.pose.value.x.Some? && p.pose.value.y.Some? && p.pose.value.theta.Some?
  }

  function Station(p: StationParameters): DockingStation
    requires Complete(p)
  {
    DockingStation(p.primaryId.value, p.leftId.value, p.rightId.value,
                   Pose2D(p.pose.value.x.value, p.pose.value.y.value, p.pose.value.theta.value))
  }

  /** The repository a yaml object yields: every complete entry under its own
      name; an entry missing a key is left out. */
  function Loaded(data: map<string, StationParameters>): map<string, DockingStation>
  {
    map name | name in data && Complete(data[name]) :: Station(data[name])
  }

  /** A marker filter is active only when it is truthy: given and non-zero. */
  predicate Truthy(f: Option<int>)
  {
    f.Some? && f.value != 0
  }

  predicate CarriesMarker(s: DockingStation, id: int)
  {
    id == s.primaryId || id == s.leftId || id == s.rightId
  }

  /** The station passes every active filter of a search. */
  predicate Matches(s: DockingStation, primary: Option<int>, left: Option<int>, right: Option<int>, idList: seq<int>)
  {
    && (Truthy(primary) ==> s.primaryId == primary.value)
    && (Truthy(left) ==> s.leftId == left.value)
    && (Truthy(right) ==> s.rightId == right.value)
    && (forall i :: 0 <= i < |idList| ==> CarriesMarker(s, idList[i]))
  }

  /** The stations among `names` that a search returns. */
  function MatchingAmong(stations: map<string, DockingStation>, names: set<string>,
                         primary: Option<int>, left: Option<int>, right: Option<int>, idList: seq<int>)
    : map<string, DockingStation>
  {
    map name | name in names && name in stations && Matches(stations[name], primary, left, right, idList)
      :: stations[name]
  }

  function Matching(stations: map<string, DockingStation>,
                    primary: Option<int>, left: Option<int>, right: Option<int>, idList: seq<int>)
    : map<string, DockingStation>
  {
    MatchingAmong(stations, stations.Keys, primary, left, right, idList)
  }

  class DockingStations {
    var stations: map<string, DockingStation>

    /** Loads the repository from a yaml object, entry by entry; an entry
        missing a key is skipped without touching the others. */
    constructor FromYamlObject(data: map<string, StationParameters>)
      ensures stations == Loaded(data)
    {
      stations := map[];
      new;
      var pending := data.Keys;
      while pending != {}
        invariant pending <= data.Keys
        invariant stations == map name | name in data && name !in pending && Complete(data[name]) :: Station(data[name])
        decreases pending
      {
        var name :| name in pending;
        pending := pending - {name};
        var parameters := data[name];
        if Complete(parameters) {
          stations := stations[name := Station(parameters)];
        }
      }
    }

    /** The stations whose ids pass every truthy filter and which carry every
        id of `idList` in one of their three slots, under their own names. */
    method FindWithArMarkerId(primary: Option<int>, left: Option<int>, right: Option<int>, idList: seq<int>)
      returns (matches: map<string, DockingStation>)
      ensures matches == Matching(stations, primary, left, right, idList)
    {
      matches := map[];
      var pending := stations.Keys;
      while pending != {}
        invariant pending <= stations.Keys
        invariant matches == MatchingAmong(stations, stations.Keys - pending, primary, left, right, idList)
        decreases pending
      {
        var name :| name in pending;
        pending := pending - {name};
        var station := stations[name];
        if Truthy(primary) && station.primaryId != primary.value {
          continue;
        }
        if Truthy(left) && station.leftId != left.value {
          continue;
        }
        if Truthy(right) && station.rightId != right.value {
          continue;
        }
        if |idList| > 0 {
          var stationIds := [station.primaryId, station.leftId, station.rightId];
          var valid := forall i | 0 <= i < |idList| :: idList[i] in stationIds;
          if !valid {
            continue;
          }
        }
        matches := matches[name := station];
      }
      assert stations.Keys - pending == stations.Keys;
    }

    /** The repository's stations as a list, one per entry; `names` records
        which entry each element came from. */
    method ToMsg() returns (msg: seq<DockingStation>, ghost names: seq<string>)
      ensures multiset(names) == multiset(stations.Keys)
      ensures |msg| == |names| == |stations|
      ensures forall i :: 0 <= i < |names| ==> names[i] in stations && msg[i] == stations[names[i]]
      ensures forall s :: s in msg <==> s in stations.Values
    {
      msg, names := [], [];
      var pending := stations.Keys;
      while pending != {}
        invariant pending <= stations.Keys
        invariant multiset(names) + multiset(pending) == multiset(stations.Keys)
        invariant |msg| == |names|
        invariant forall i :: 0 <= i < |names| ==> names[i] in stations && msg[i] == stations[names[i]]
        decreases pending
      {
        var name :| name in pending;
        msg, names := msg + [stations[name]], names + [name];
        assert multiset(pending) == multiset(pending - {name}) + multiset{name};
        pending := pending - {name};
      }
      assert |multiset(names)| == |names|;
      forall s | s in stations.Values
        ensures s in msg
      {
        var name :| name in stations && stations[name] == s;
        assert name in multiset(stations.Keys);
        assert name in multiset(names);
        var i :| 0 <= i < |names| && names[i] == name;
        assert msg[i] == s;
      }
    }
  }

  // -----------------------------------------------------------------------
  // Loading

  /** A complete entry is stored under its own name, as the station it
      describes. */
  lemma LoadedKeepsCompleteEntries(data: map<string, StationParameters>, name: string)
    requires name in data && Complete(data[name])
    ensures name in Loaded(data) && Loaded(data)[name] == Station(data[name])
  {
  }

  /** An entry missing a key is skipped, and skipping it changes no other
      entry. */
  lemma LoadedSkipsIncompleteEntries(data: map<string, StationParameters>, name: string)
    requires name in data && !Complete(data[name])
    ensures name !in Loaded(data)
    ensures Loaded(data) == Loaded(map n | n in data && n != name :: data[n])
  {
  }

  // -----------------------------------------------------------------------
  // Searching

  /** A search returns a sub-map of the repository. */
  lemma MatchingIsSubMap(stations: map<string, DockingStation>,
                         primary: Option<int>, left: Option<int>, right: Option<int>, idList: seq<int>)
    ensures var m := Matching(stations, primary, left, right, idList);
            forall name :: name in m ==> name in stations && m[name] == stations[name]
  {
  }

  /** Every station returned has the requested id in each slot whose filter
      is truthy, and carries every id of the list. */
  lemma MatchingIsSound(stations: map<string, DockingStation>,
                        primary: Option<int>, left: Option<int>, right: Option<int>, idList: seq<int>,
                        name: string)
    requires name in Matching(stations, primary, left, right, idList)
    ensures var s := stations[name];
            && (Truthy(primary) ==> s.primaryId == primary.value)
            && (Truthy(left) ==> s.leftId == left.value)
            && (Truthy(right) ==> s.rightId == right.value)
            && (forall id :: id in idList ==> id in {s.primaryId, s.leftId, s.rightId})
  {
    var s := stations[name];
    forall id | id in idList
      ensures id in {s.primaryId, s.leftId, s.rightId}
    {
      var i :| 0 <= i < |idList| && idList[i] == id;
      assert CarriesMarker(s, idList[i]);
    }
  }

  /** Every station that passes all active filters is returned. */
  lemma MatchingIsComplete(stations: map<string, DockingStation>,
                           primary: Option<int>, left: Option<int>, right: Option<int>, idList: seq<int>,
                           name: string)
    requires name in stations
    requires var s := stations[name];
             && (Truthy(primary) ==> s.primaryId == primary.value)
             && (Truthy(left) ==> s.leftId == left.value)
             && (Truthy(right) ==> s.rightId == right.value)
             && (forall id :: id in idList ==> id in {s.primaryId, s.leftId, s.rightId})
    ensures name in Matching(stations, primary, left, right, idList)
  {
    var s := stations[name];
    forall i | 0 <= i < |idList|
      ensures CarriesMarker(s, idList[i])
    {
      assert idList[i] in idList;
    }
  }

  /** A filter that is None or 0 constrains nothing, in each of the three
      slots: the search without it returns the same stations. */
  lemma FalsyFilterIsIgnored(stations: map<string, DockingStation>,
                             primary: Option<int>, left: Option<int>, right: Option<int>, idList: seq<int>)
    ensures !Truthy(primary) ==>
              Matching(stations, primary, left, right, idList) == Matching(stations, None, left, right, idList)
    ensures !Truthy(left) ==>
              Matching(stations, primary, left, right, idList) == Matching(stations, primary, None, right, idList)
    ensures !Truthy(right) ==>
              Matching(stations, primary, left, right, idList) == Matching(stations, primary, left, None, idList)
    ensures Matching(stations, Some(0), left, right, idList) == Matching(stations, None, left, right, idList)
    ensures Matching(stations, primary, Some(0), right, idList) == Matching(stations, primary, None, right, idList)
    ensures Matching(stations, primary, left, Some(0), idList) == Matching(stations, primary, left, None, idList)
  {
  }

  /** With no filter at all the search returns the whole repository. */
  lemma NoFiltersReturnsEverything(stations: map<string, DockingStation>)
    ensures Matching(stations, None, None, None, []) == stations
  {
  }

  // -----------------------------------------------------------------------
  // Marker id 0

  /** As written, a search for marker id 0 in a slot is no search at all: a
      station whose primary id is 3 is returned for `primary = 0`. */
  lemma ZeroMarkerIdIsNotSearchable()
    ensures var p := Pose2D(1.0, -2.0, -1.57);
            var stations := map["0" := DockingStation(0, 4, 5, p), "1" := DockingStation(3, 6, 7, p)];
            var m := Matching(stations, Some(0), None, None, []);
            "1" in m && m["1"].primaryId != 0
  {
    var p := Pose2D(1.0, -2.0, -1.57);
    var stations := map["0" := DockingStation(0, 4, 5, p), "1" := DockingStation(3, 6, 7, p)];
    assert Matches(stations["1"], Some(0), None, None, []);
  }

  /** The filter semantics the docstring describes: a slot is constrained
      whenever an id is given for it, 0 included. */
  predicate MatchesGiven(s: DockingStation, primary: Option<int>, left: Option<int>, right: Option<int>, idList: seq<int>)
  {
    && (primary.Some? ==> s.primaryId == primary.value)
    && (left.Some? ==> s.leftId == left.value)
    && (right.Some? ==> s.rightId == right.value)
    && (forall i :: 0 <= i < |idList| ==> CarriesMarker(s, idList[i]))
  }

  function IntendedMatching(stations: map<string, DockingStation>,
                            primary: Option<int>, left: Option<int>, right: Option<int>, idList: seq<int>)
    : map<string, DockingStation>
  {
    map name | name in stations && MatchesGiven(stations[name], primary, left, right, idList) :: stations[name]
  }

  /** Under the intended semantics every given id, 0 included, is honoured,
      and the result agrees with the search as written whenever no given id
      is 0. */
  lemma IntendedMatchingHonoursZero(stations: map<string, DockingStation>,
                                    primary: Option<int>, left: Option<int>, right: Option<int>, idList: seq<int>)
    ensures var m := IntendedMatching(stations, primary, left, right, idList);
            forall name :: name in m ==>
              && name in stations && m[name] == stations[name]
              && (primary.Some? ==> m[name].primaryId == primary.value)
              && (left.Some? ==> m[name].leftId == left.value)
              && (right.Some? ==> m[name].rightId == right.value)
    ensures primary != Some(0) && left != Some(0) && right != Some(0) ==>
              IntendedMatching(stations, primary, left, right, idList) == Matching(stations, primary, left, right, idList)
  {
  }
}

/** The application store: the transport mode, the bus route catalog, the
    selected route ids and the stop-layer switch, each overwritten by its own
    setter. */
module AppStore {
  /** `"bus" | "rail"`. */
  datatype Mode = Bus | Rail

  /** A bus route of the catalog. */
  datatype BusRoute = BusRoute(id: string, number: string, name: string)

  /** `BUS_ROUTES`, in catalog order. */
  const BUS_ROUTES: seq<BusRoute> := [
    BusRoute("001", "001", "Malcolm X \U{2014} Maple"),
    BusRoute("003", "003", "Ross"),
    BusRoute("005", "005", "Love Field Shuttle"),
    BusRoute("009", "009", "Jefferson Gaston"),
    BusRoute("013", "013", "Ervay"),
    BusRoute("018", "018", "Samuel"),
    BusRoute("025", "025", "Cockrell Hill North"),
    BusRoute("038", "038", "Ledbetter"),
    BusRoute("041", "041", "Bonnie View"),
    BusRoute("047", "047", "Polk"),
    BusRoute("057", "057", "Westmoreland"),
    BusRoute("105", "105", "Northwest Hwy"),
    BusRoute("203", "203", "Ridgecrest"),
    BusRoute("315", "315", "BUS-315"),
    BusRoute("408", "408", "BUS-408")
  ]

  /** No two catalog routes share an id. */
  lemma BusRouteIdsDistinct()
    ensures forall i, j :: 0 <= i < j < |BUS_ROUTES| ==> BUS_ROUTES[i].id != BUS_ROUTES[j].id
  {
  }

  /** A snapshot of the store's data fields. */
  datatype State = State(mode: Mode, busRoutes: seq<BusRoute>, selectedRoutes: seq<string>, showStops: bool)

  /** The initial state. */
  const Initial: State := State(Bus, BUS_ROUTES, [], true)

  /** The store. Each setter merges one field into the state, so the other
      fields, and the catalog in particular, are never touched. */
  class Store {
    var mode: Mode
    var busRoutes: seq<BusRoute>
    var selectedRoutes: seq<string>
    var showStops: bool

    /** The current data fields. */
    function Snapshot(): (r: State)
      reads this
      ensures r.mode == mode && r.busRoutes == busRoutes
      ensures r.selectedRoutes == selectedRoutes && r.showStops == showStops
    {
      State(mode, busRoutes, selectedRoutes, showStops)
    }

    /** Bus mode, the whole catalog, nothing selected, stops shown. */
    constructor ()
      ensures Snapshot() == Initial
    {
      mode := Bus;
      busRoutes := BUS_ROUTES;
      selectedRoutes := [];
      showStops := true;
    }

    /** `setMode`: only the mode changes; the selection survives. */
    method SetMode(m: Mode)
      modifies this
      ensures Snapshot() == old(Snapshot()).(mode := m)
      ensures Snapshot() == Step(old(Snapshot()), Action.SetMode(m))
    {
      mode := m;
    }

    /** `setSelectedRoutes`: the selection becomes exactly `ids`. */
    method SetSelectedRoutes(ids: seq<string>)
      modifies this
      ensures Snapshot() == old(Snapshot()).(selectedRoutes := ids)
      ensures Snapshot() == Step(old(Snapshot()), Action.SetSelectedRoutes(ids))
    {
      selectedRoutes := ids;
    }

    /** `setShowStops`: only the stop-layer switch changes. */
    method SetShowStops(value: bool)
      modifies this
      ensures Snapshot() == old(Snapshot()).(showStops := value)
      ensures Snapshot() == Step(old(Snapshot()), Action.SetShowStops(value))
    {
      showStops := value;
    }
  }

  /** A call of one of the setters. */
  datatype Action = SetMode(m: Mode) | SetSelectedRoutes(ids: seq<string>) | SetShowStops(value: bool)

  /** The state after one action (the setters' effect on a snapshot). */
  function Step(s: State, a: Action): (r: State)
    ensures r.busRoutes == s.busRoutes
    ensures a.SetMode? ==> r.mode == a.m && r.selectedRoutes == s.selectedRoutes && r.showStops == s.showStops
    ensures a.SetSelectedRoutes? ==> r.selectedRoutes == a.ids && r.mode == s.mode && r.showStops == s.showStops
    ensures a.SetShowStops? ==> r.showStops == a.value && r.mode == s.mode && r.selectedRoutes == s.selectedRoutes
  {
    match a
    case SetMode(m) => s.(mode := m)
    case SetSelectedRoutes(ids) => s.(selectedRoutes := ids)
    case SetShowStops(v) => s.(showStops := v)
  }

  /** The state after a sequence of actions. */
  function Run(s: State, actions: seq<Action>): State
    decreases |actions|
  {
    if actions == [] then s else Run(Step(s, actions[0]), actions[1..])
  }

  /** No sequence of actions changes the catalog. */
  lemma {:induction false} RunKeepsCatalog(s: State, actions: seq<Action>)
    ensures Run(s, actions).busRoutes == s.busRoutes
    decreases |actions|
  {
    if actions != [] {
      RunKeepsCatalog(Step(s, actions[0]), actions[1..]);
    }
  }

  /** The selection after a run is the last one set, or the starting one when
      no action set it. */
  lemma {:induction false} RunSelection(s: State, actions: seq<Action>)
    ensures (forall i :: 0 <= i < |actions| ==> !actions[i].SetSelectedRoutes?) ==>
      Run(s, actions).selectedRoutes == s.selectedRoutes
    ensures |actions| > 0 && actions[|actions| - 1].SetSelectedRoutes? ==>
      Run(s, actions).selectedRoutes == actions[|actions| - 1].ids
    decreases |actions|
  {
    if actions != [] {
      RunSelection(Step(s, actions[0]), actions[1..]);
      if |actions| > 1 {
        assert actions[1..][|actions[1..]| - 1] == actions[|actions| - 1];
      }
    }
  }

  /** The selection after a run is the one set by the last `setSelectedRoutes`
      call, whatever other setters follow it. */
  lemma {:induction false} RunSelectionLast(s: State, actions: seq<Action>, k: int)
    requires 0 <= k < |actions| && actions[k].SetSelectedRoutes?
    requires forall j :: k < j < |actions| ==> !actions[j].SetSelectedRoutes?
    ensures Run(s, actions).selectedRoutes == actions[k].ids
    decreases |actions|
  {
    if k == 0 {
      var rest := actions[1..];
      assert forall j :: 0 <= j < |rest| ==> !rest[j].SetSelectedRoutes? by {
        forall j | 0 <= j < |rest| ensures !rest[j].SetSelectedRoutes? {
          assert rest[j] == actions[j + 1];
        }
      }
      RunSelection(Step(s, actions[0]), rest);
    } else {
      var rest := actions[1..];
      assert rest[k - 1] == actions[k];
      assert forall j :: k - 1 < j < |rest| ==> rest[j] == actions[j + 1];
      RunSelectionLast(Step(s, actions[0]), rest, k - 1);
    }
  }

  /** Selecting routes and then switching mode keeps the selection. */
  lemma ModeSwitchKeepsSelection(s: State, ids: seq<string>, m: Mode)
    ensures Run(s, [SetSelectedRoutes(ids), SetMode(m)]).selectedRoutes == ids
  {
    RunSelectionLast(s, [SetSelectedRoutes(ids), SetMode(m)], 0);
  }
}

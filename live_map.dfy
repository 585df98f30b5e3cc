/** The live network map page: mode tabs, the bus controls (route text and
    the stops checkbox), a visibility flag for each of the five rail lines,
    the panel height the page computes from the window height and then
    discards (the map is drawn at a fixed height), and the choice of map
    overlay. */
module LiveMap {
  import opened Basics
  import opened Toggles
  import AppStore

  /** `RailLineKey`. */
  datatype LineKey = Green | Blue | Red | Orange | Silver

  /** `HEADER_OFFSET`: the height of the app header. */
  const HeaderOffset: int := 160
  /** The floor of the computed panel height. */
  const MinHeight: int := 640

  /** `Math.max(640, vh - HEADER_OFFSET)`: the page computes this value from
      the window height and then discards it; the map is drawn at a fixed
      780 pixels. */
  function PanelAndMapHeight(vh: int): (r: int)
    ensures r >= MinHeight && r >= vh - HeaderOffset
    ensures r == MinHeight || r == vh - HeaderOffset
  {
    Max(MinHeight, vh - HeaderOffset)
  }

  /** A taller window never gives a shorter panel. */
  lemma PanelHeightMonotone(a: int, b: int)
    requires a <= b
    ensures PanelAndMapHeight(a) <= PanelAndMapHeight(b)
  {
  }

  /** A record with the five keys has every key. */
  lemma FiveKeysTotal(v: map<LineKey, bool>)
    requires Green in v && Blue in v && Red in v && Orange in v && Silver in v
    ensures forall k :: k in v
  {
    forall k ensures k in v {
      match k
      case Green =>
      case Blue =>
      case Red =>
      case Orange =>
      case Silver =>
    }
  }

  /** Only `green` is shown at first. */
  function InitialVisible(): (r: map<LineKey, bool>)
    ensures forall k :: k in r
    ensures forall k :: IsOn(r, k) <==> k == Green
  {
    var v := map[Green := true, Blue := false, Red := false, Orange := false, Silver := false];
    FiveKeysTotal(v);
    v
  }

  /** Every key has an entry. */
  predicate Total(v: map<LineKey, bool>)
  {
    forall k :: k in v
  }

  /** A line toggle keeps every key present, and a double toggle restores
      the record. */
  lemma ToggleKeepsTotal(v: map<LineKey, bool>, k: LineKey)
    requires Total(v)
    ensures Total(Flip(v, k))
    ensures Flip(Flip(v, k), k) == v
  {
    FlipTwice(v, k);
  }

  /** The overlay on the map. */
  datatype Overlay = BusLayer(showStops: bool, route: string) | RailLayer(visible: map<LineKey, bool>)

  /** Whether `mode === "bus" && <BusMarkers …/>` renders. */
  predicate ShowsBusMarkers(mode: AppStore.Mode)
  {
    mode == AppStore.Bus
  }

  /** Whether `mode === "rail" && <RailLinesOverlay …/>` renders. */
  predicate ShowsRailLines(mode: AppStore.Mode)
  {
    mode == AppStore.Rail
  }

  /** Exactly one of the two overlays renders in every mode. */
  lemma ExactlyOneOverlay(mode: AppStore.Mode)
    ensures ShowsBusMarkers(mode) != ShowsRailLines(mode)
  {
  }

  /** The overlay that renders: bus markers (with the stop switch and the
      route text) in bus mode, rail lines (with their flags) in rail mode. */
  function OverlayFor(mode: AppStore.Mode, showStops: bool, route: string, visible: map<LineKey, bool>): (r: Overlay)
    ensures r.BusLayer? <==> ShowsBusMarkers(mode)
    ensures r.RailLayer? <==> ShowsRailLines(mode)
    ensures r.BusLayer? ==> r.showStops == showStops && r.route == route
    ensures r.RailLayer? ==> r.visible == visible
  {
    match mode
    case Bus => BusLayer(showStops, route)
    case Rail => RailLayer(visible)
  }

  /** The page state. The window height is an input: the browser's
      `innerHeight`, or 900 where there is no window. */
  class LiveMapPage {
    var mode: AppStore.Mode
    var route: string
    var showStops: bool
    var visible: map<LineKey, bool>
    var vh: int

    /** Every rail line has a flag. */
    predicate Valid()
      reads this
    {
      Total(visible)
    }

    /** Bus mode, no route text, stops shown, only green visible. */
    constructor (innerHeight: int)
      ensures Valid()
      ensures mode == AppStore.Bus && route == "" && showStops
      ensures visible == InitialVisible() && vh == innerHeight
    {
      mode := AppStore.Bus;
      route := "";
      showStops := true;
      visible := InitialVisible();
      vh := innerHeight;
    }

    /** A mode tab: only the mode changes. */
    method SetMode(m: AppStore.Mode)
      modifies this
      ensures mode == m
      ensures route == old(route) && showStops == old(showStops)
      ensures visible == old(visible) && vh == old(vh)
    {
      mode := m;
    }

    /** Typing in the route box. */
    method SetRoute(text: string)
      modifies this
      ensures route == text
      ensures mode == old(mode) && showStops == old(showStops)
      ensures visible == old(visible) && vh == old(vh)
    {
      route := text;
    }

    /** The stops checkbox. */
    method SetShowStops(checked: bool)
      modifies this
      ensures showStops == checked
      ensures mode == old(mode) && route == old(route)
      ensures visible == old(visible) && vh == old(vh)
    {
      showStops := checked;
    }

    /** A rail line button: only that line's flag flips. */
    method ToggleLine(k: LineKey)
      requires Valid()
      modifies this
      ensures Valid()
      ensures visible == Flip(old(visible), k)
      ensures mode == old(mode) && route == old(route)
      ensures showStops == old(showStops) && vh == old(vh)
    {
      ToggleKeepsTotal(visible, k);
      visible := Flip(visible, k);
    }

    /** A window resize. */
    method Resize(innerHeight: int)
      modifies this
      ensures vh == innerHeight
      ensures mode == old(mode) && route == old(route)
      ensures showStops == old(showStops) && visible == old(visible)
    {
      vh := innerHeight;
    }

    /** The (unused) panel height the page computes for the current window. */
    function Height(): (r: int)
      reads this
      ensures r >= MinHeight
    {
      PanelAndMapHeight(vh)
    }

    /** The overlay for the current state. */
    function CurrentOverlay(): (r: Overlay)
      reads this
      ensures r.BusLayer? <==> mode == AppStore.Bus
      ensures r.BusLayer? ==> r.showStops == showStops && r.route == route
      ensures r.RailLayer? ==> r.visible == visible
    {
      OverlayFor(mode, showStops, route, visible)
    }
  }
}

/** The rail lines page: a visibility record with one entry per line, all on
    at first, a toggle per line, the "Showing N of M" count and the lines
    drawn on the map. Mounting the page switches the store to rail mode. */
module RailMap {
  import opened Seqs
  import opened Toggles
  import AppStore

  /** The service state shown under a line's name. */
  datatype LineStatus = Ok | Delay | Issue

  /** A rail line (its map positions are left out). */
  datatype RailLine = RailLine(id: string, name: string, color: string, status: LineStatus)

  /** `railLines`, in display order. */
  const RAIL_LINES: seq<RailLine> := [
    RailLine("green", "Green Line", "#22c55e", Ok),
    RailLine("blue", "Blue Line", "#60a5fa", Ok),
    RailLine("red", "Red Line", "#f87171", Delay),
    RailLine("orange", "Orange Line", "#fb923c", Ok),
    RailLine("silver", "Silver Line", "#cbd5e1", Issue)
  ]

  /** The line ids, in order. */
  function LineIds(lines: seq<RailLine>): (r: seq<string>)
    ensures |r| == |lines| && forall i :: 0 <= i < |lines| ==> r[i] == lines[i].id
  {
    seq(|lines|, i requires 0 <= i < |lines| => lines[i].id)
  }

  /** No two lines share an id. */
  predicate IdsDistinct(lines: seq<RailLine>)
  {
    forall i, j :: 0 <= i < j < |lines| ==> lines[i].id != lines[j].id
  }

  /** The five lines have distinct ids. */
  lemma RailLineIdsDistinct()
    ensures IdsDistinct(RAIL_LINES)
  {
  }

  /** `Object.fromEntries(lines.map(l => [l.id, true]))`: every line id, and
      only those, maps to `true`. */
  function InitialVisible(lines: seq<RailLine>): (r: map<string, bool>)
    ensures forall k :: k in r <==> exists i :: 0 <= i < |lines| && lines[i].id == k
    ensures forall k :: k in r ==> r[k]
  {
    var ids := LineIds(lines);
    map k | k in ids :: true
  }

  /** The lines drawn on the map: in order, those whose flag reads true. */
  function VisibleLines(lines: seq<RailLine>, visible: map<string, bool>): (r: seq<RailLine>)
    ensures forall l :: l in r <==> l in lines && IsOn(visible, l.id)
    ensures forall l :: multiset(r)[l] == if IsOn(visible, l.id) then multiset(lines)[l] else 0
    ensures IsSubsequence(r, lines)
  {
    FilterMembers(lines, (l: RailLine) => IsOn(visible, l.id));
    FilterMultiset(lines, (l: RailLine) => IsOn(visible, l.id));
    FilterIsSubsequence(lines, (l: RailLine) => IsOn(visible, l.id));
    Filter(lines, (l: RailLine) => IsOn(visible, l.id))
  }

  /** `activeCount`: how many lines are visible. */
  function ActiveCount(lines: seq<RailLine>, visible: map<string, bool>): (r: nat)
    ensures r <= |lines|
    ensures r == |VisibleLines(lines, visible)|
  {
    |Filter(lines, (l: RailLine) => IsOn(visible, l.id))|
  }

  /** The count steps through the lines one at a time. */
  lemma {:induction false} ActiveCountUnfold(lines: seq<RailLine>, visible: map<string, bool>)
    requires lines != []
    ensures ActiveCount(lines, visible) ==
      (if IsOn(visible, lines[0].id) then 1 else 0) + ActiveCount(lines[1..], visible)
  {
    assert lines == [lines[0]] + lines[1..];
  }

  /** Two records that read the same on every line id give the same count. */
  lemma {:induction false} ActiveCountAgree(lines: seq<RailLine>, v: map<string, bool>, w: map<string, bool>)
    requires forall i :: 0 <= i < |lines| ==> IsOn(v, lines[i].id) == IsOn(w, lines[i].id)
    ensures ActiveCount(lines, v) == ActiveCount(lines, w)
  {
    if lines != [] {
      ActiveCountUnfold(lines, v);
      ActiveCountUnfold(lines, w);
      ActiveCountAgree(lines[1..], v, w);
    }
  }

  /** With every line on, every line is counted (and drawn). */
  lemma {:induction false} AllOnAllCounted(lines: seq<RailLine>, visible: map<string, bool>)
    requires forall i :: 0 <= i < |lines| ==> IsOn(visible, lines[i].id)
    ensures ActiveCount(lines, visible) == |lines|
    ensures VisibleLines(lines, visible) == lines
  {
    FilterKeepsAll(lines, (l: RailLine) => IsOn(visible, l.id));
  }

  /** At first the page shows every line: "Showing M of M". */
  lemma InitialAllActive(lines: seq<RailLine>)
    ensures ActiveCount(lines, InitialVisible(lines)) == |lines|
    ensures VisibleLines(lines, InitialVisible(lines)) == lines
  {
    var v := InitialVisible(lines);
    forall i | 0 <= i < |lines| ensures IsOn(v, lines[i].id) {
      assert lines[i].id in v;
    }
    AllOnAllCounted(lines, v);
  }

  /** Toggling the first line, whose id no other line has, moves the count
      by exactly one. */
  lemma ToggleFirstMovesCount(lines: seq<RailLine>, visible: map<string, bool>)
    requires lines != []
    requires forall i :: 1 <= i < |lines| ==> lines[i].id != lines[0].id
    ensures ActiveCount(lines, Flip(visible, lines[0].id)) ==
      ActiveCount(lines, visible) + (if IsOn(visible, lines[0].id) then -1 else 1)
  {
    var id := lines[0].id;
    var flipped := Flip(visible, id);
    var rest := lines[1..];
    ActiveCountUnfold(lines, visible);
    ActiveCountUnfold(lines, flipped);
    forall i | 0 <= i < |rest| ensures IsOn(visible, rest[i].id) == IsOn(flipped, rest[i].id) {
      assert rest[i] == lines[i + 1];
      FlipOnlyChangesKey(visible, id, rest[i].id);
    }
    ActiveCountAgree(rest, visible, flipped);
  }

  /** Dropping the first line keeps the ids distinct. */
  lemma IdsDistinctTail(lines: seq<RailLine>)
    requires lines != [] && IdsDistinct(lines)
    ensures IdsDistinct(lines[1..])
  {
    var rest := lines[1..];
    forall i, j | 0 <= i < j < |rest| ensures rest[i].id != rest[j].id {
      assert rest[i] == lines[i + 1] && rest[j] == lines[j + 1];
    }
  }

  /** Toggling one of the lines (ids distinct) moves the count by exactly one:
      down when it was on, up when it was off. */
  lemma {:induction false} ToggleMovesCount(lines: seq<RailLine>, visible: map<string, bool>, k: int)
    requires IdsDistinct(lines) && 0 <= k < |lines|
    ensures ActiveCount(lines, Flip(visible, lines[k].id)) ==
      ActiveCount(lines, visible) + (if IsOn(visible, lines[k].id) then -1 else 1)
  {
    if k == 0 {
      ToggleFirstMovesCount(lines, visible);
    } else {
      var id := lines[k].id;
      var flipped := Flip(visible, id);
      var rest := lines[1..];
      ActiveCountUnfold(lines, visible);
      ActiveCountUnfold(lines, flipped);
      FlipOnlyChangesKey(visible, id, lines[0].id);
      IdsDistinctTail(lines);
      assert rest[k - 1] == lines[k];
      ToggleMovesCount(rest, visible, k - 1);
    }
  }

  /** The caption under a line's name: delays, an issue, or normal service. */
  function StatusCaption(s: LineStatus): (r: string)
    ensures s.Ok? <==> r == "Normal service"
    ensures s.Delay? <==> r == "Delays reported"
    ensures s.Issue? <==> r == "Investigating issue"
  {
    match s
    case Delay => "Delays reported"
    case Issue => "Investigating issue"
    case Ok => "Normal service"
  }

  /** The page: the line list it draws and its visibility record. */
  class RailMapPage {
    const lines: seq<RailLine>
    var visible: map<string, bool>

    /** Every line has an entry in the record, so a double toggle of any
        line restores the record exactly (`FlipTwice`). */
    predicate Valid()
      reads this
    {
      forall i :: 0 <= i < |lines| ==> lines[i].id in visible
    }

    /** Every line starts visible. */
    constructor (lines: seq<RailLine>)
      ensures this.lines == lines && visible == InitialVisible(lines)
      ensures Valid()
    {
      this.lines := lines;
      visible := InitialVisible(lines);
    }

    /** Clicking a line's chip flips that line's flag only. */
    method Toggle(id: string)
      requires Valid()
      modifies this
      ensures Valid()
      ensures visible == Flip(old(visible), id)
    {
      visible := Flip(visible, id);
    }

    /** The mount effect: the store's mode becomes rail; nothing else in the
        store changes. */
    method Mount(store: AppStore.Store)
      modifies store
      ensures store.Snapshot() == old(store.Snapshot()).(mode := AppStore.Rail)
    {
      store.SetMode(AppStore.Rail);
    }

    /** "Showing N of M". */
    function Showing(): (r: (nat, nat))
      reads this
      ensures r.0 == ActiveCount(lines, visible) && r.0 == |VisibleLines(lines, visible)|
      ensures r.0 <= r.1 && r.1 == |lines|
    {
      (ActiveCount(lines, visible), |lines|)
    }
  }
}

/** The single-route combobox: a trimmed search capped at 50 routes for an
    empty query and 100 matches otherwise, the keyboard-driven highlight, and
    the `open`/`query`/`highlight` state updated by its handlers and effects. */
module RouteSelect {
  import opened Basics
  import opened Text
  import opened Seqs
  import opened Catalog

  /** How many routes an empty query lists. */
  const EmptyQueryCap: nat := 50
  /** How many matches a non-empty query lists. */
  const MatchCap: nat := 100

  /** The routes listed for a query. The query is trimmed and lower-cased; when
      nothing is left the first 50 routes are listed, otherwise the first 100
      matches (see `FilteredMatches`). */
  function Filtered(routes: seq<Item>, query: string): (r: seq<Item>)
    ensures Blank(query) ==> r == routes[..Min(EmptyQueryCap, |routes|)]
    ensures |r| <= if Blank(query) then EmptyQueryCap else MatchCap
    ensures IsSubsequence(r, routes)
  {
    var q := Lower(Trim(query));
    BlankIffSearchEmpty(query);
    if q == [] then
      TakeAll(routes, EmptyQueryCap);
      Take(routes, EmptyQueryCap)
    else
      TakeMatchingOrdered(routes, q, MatchCap);
      Take(Matching(routes, q), MatchCap)
  }

  /** For a non-blank query the list is the first 100 routes, in catalog
      order, whose lower-cased id or name contains the trimmed, lower-cased
      query; when there are at most 100 such routes, every one is listed. */
  lemma FilteredMatches(routes: seq<Item>, query: string)
    requires !Blank(query)
    ensures |Filtered(routes, query)| == Min(MatchCap, |Matching(routes, Lower(Trim(query)))|)
    ensures Filtered(routes, query) == Matching(routes, Lower(Trim(query)))[..|Filtered(routes, query)|]
    ensures forall i :: 0 <= i < |Filtered(routes, query)| ==> Matches(Filtered(routes, query)[i], Lower(Trim(query)))
    ensures |Matching(routes, Lower(Trim(query)))| <= MatchCap ==>
      forall x :: x in routes && Matches(x, Lower(Trim(query))) ==> x in Filtered(routes, query)
  {
    BlankIffSearchEmpty(query);
    MatchingSpec(routes, Lower(Trim(query)));
    TakeMatching(routes, Lower(Trim(query)), MatchCap);
  }

  /** The clamp effect that runs whenever the list changes: 0 for an empty
      list, otherwise the highlight lowered to the last index if needed. */
  function Clamp(h: int, n: nat): (r: int)
    ensures n == 0 ==> r == 0
    ensures h >= 0 ==> r >= 0
    ensures n > 0 && h >= 0 ==> 0 <= r < n
    ensures n > 0 && h < n ==> r == h
    ensures n > 0 && h >= n ==> r == n - 1
  {
    if n == 0 then 0 else Min(h, n - 1)
  }

  /** ArrowDown on a non-empty list: one further down, stopping at the last row. */
  function StepDown(h: int, n: nat): (r: int)
    requires n > 0
    ensures 0 <= h < n ==> 0 <= r < n
    ensures h + 1 < n ==> r == h + 1
    ensures h + 1 >= n ==> r == n - 1
  {
    Min(h + 1, n - 1)
  }

  /** ArrowUp: one further up, stopping at the first row. */
  function StepUp(h: int): (r: int)
    ensures r >= 0
    ensures h >= 1 ==> r == h - 1
    ensures h < 1 ==> r == 0
  {
    Max(h - 1, 0)
  }

  /** A highlight `h` names one of `n` rows, or is 0 when there are none. */
  predicate InRange(h: int, n: nat)
  {
    (n == 0 ==> h == 0) && (n > 0 ==> 0 <= h < n)
  }

  /** The keys the input reacts to; every other key is `OtherKey`. */
  datatype Key = ArrowDown | ArrowUp | Enter | Escape | OtherKey

  /** The combobox. `routes` and `value` are the props (the parent answers
      `onChange` by passing the picked route back as `value`); `open`, `query`
      and `highlight` are the component's own state. */
  class Combobox {
    const routes: seq<Item>
    var value: Option<Item>
    var open: bool
    var query: string
    var highlight: int

    constructor (routes: seq<Item>, value: Option<Item>)
      ensures this.routes == routes && this.value == value
      ensures !open && query == "" && highlight == 0
    {
      this.routes := routes;
      this.value := value;
      open := false;
      query := "";
      highlight := 0;
    }

    /** The list for the current query (`filtered`). */
    function Listed(): (r: seq<Item>)
      reads this`query
      ensures IsSubsequence(r, routes)
    {
      Filtered(routes, query)
    }

    /** The highlight names a listed row, or is 0 when the list is empty. */
    predicate HighlightInRange()
      reads this`query, this`highlight
    {
      InRange(highlight, |Listed()|)
    }

    /** The text in the input box: the query while open; when closed, the
        caption of the chosen route, or the query when none is chosen. */
    function Displayed(): (r: string)
      reads this
      ensures open ==> r == query
      ensures !open && value.Some? ==> r == Caption(value.value)
      ensures !open && value.None? ==> r == query
    {
      if open then query else match value case Some(v) => Caption(v) case None => query
    }

    /** Effect on `filtered`: keep the highlight inside the list. */
    method ClampHighlight()
      modifies this`highlight
      ensures highlight == Clamp(old(highlight), |Listed()|)
      ensures old(highlight) >= 0 ==> highlight >= 0 && HighlightInRange()
    {
      highlight := Clamp(highlight, |Listed()|);
    }

    /** What the query is resynced to while closed: the chosen route's
        caption, or empty when there is none. */
    function Resynced(): (r: string)
      reads this`value
      ensures value.Some? ==> r == Caption(value.value)
      ensures value.None? ==> r == ""
    {
      match value case Some(v) => Caption(v) case None => ""
    }

    /** Effect on `[value, open]`: while closed, the query shows the chosen
        route's caption, or is emptied when there is none. */
    method SyncQuery()
      modifies this`query
      ensures open ==> query == old(query)
      ensures !open ==> query == Resynced()
    {
      if !open {
        query := Resynced();
      }
    }

    /** The effects after an event: the clamp, the query resync, and the clamp
        again for the list the resynced query produces. */
    method Settle()
      modifies this`highlight, this`query
      requires highlight >= 0
      ensures highlight == Clamp(Clamp(old(highlight), |old(Listed())|), |Listed()|)
      ensures HighlightInRange()
      ensures open && old(HighlightInRange()) ==> highlight == old(highlight)
      ensures open ==> query == old(query)
      ensures !open ==> query == Resynced()
    {
      ClampHighlight();
      SyncQuery();
      ClampHighlight();
    }

    /** Focusing the input opens the list at the first row. */
    method Focus()
      modifies this`open, this`highlight
      ensures open && highlight == 0
    {
      open := true;
      highlight := 0;
    }

    /** Typing replaces the query, opens the list and highlights the first row. */
    method Type(text: string)
      modifies this`query, this`open, this`highlight
      ensures query == text && open && highlight == 0
      ensures HighlightInRange()
    {
      query := text;
      open := true;
      highlight := 0;
    }

    /** Moving the mouse over row `i` highlights it. */
    method Hover(i: int)
      requires 0 <= i < |Listed()|
      modifies this`highlight
      ensures highlight == i && HighlightInRange()
    {
      highlight := i;
    }

    /** Picking row `i`: when the row exists it is returned (the `onChange`
        call), the query becomes its caption and the list closes; otherwise
        nothing happens. */
    method Commit(i: int) returns (picked: Option<Item>)
      modifies this`query, this`open
      ensures 0 <= i < |old(Listed())| ==>
        picked == Some(old(Listed())[i]) && query == Caption(old(Listed())[i]) && !open
      ensures !(0 <= i < |old(Listed())|) ==>
        picked == None && query == old(query) && open == old(open)
    {
      var list := Listed();
      picked := None;
      if 0 <= i < |list| {
        picked := Some(list[i]);
        query := Caption(list[i]);
        open := false;
      }
    }

    /** The parent re-renders with a new `value`. */
    method SetValue(v: Option<Item>)
      modifies this`value
      ensures value == v
    {
      value := v;
    }

    /** A mouse press outside the control closes the list. */
    method Dismiss()
      modifies this`open
      ensures !open
    {
      open := false;
    }

    /** A key press. While closed, ArrowDown and Enter only open the list and
        every other key is ignored. While open, the arrows move the highlight
        within a non-empty list, Enter picks the highlighted row, and Escape
        closes the list, leaving the query and the highlight alone. */
    method KeyDown(key: Key) returns (picked: Option<Item>)
      modifies this`open, this`highlight, this`query
      ensures !old(open) ==>
        picked == None && query == old(query) && highlight == old(highlight)
        && open == (key.ArrowDown? || key.Enter?)
      ensures old(open) && key.ArrowDown? ==>
        picked == None && query == old(query) && open
        && highlight == (if |old(Listed())| == 0 then old(highlight) else StepDown(old(highlight), |old(Listed())|))
      ensures old(open) && key.ArrowUp? ==>
        picked == None && query == old(query) && open
        && highlight == (if |old(Listed())| == 0 then old(highlight) else StepUp(old(highlight)))
      ensures old(open) && (key.ArrowDown? || key.ArrowUp?) && old(HighlightInRange()) ==> HighlightInRange()
      ensures old(open) && key.Enter? && |old(Listed())| > 0 && old(HighlightInRange()) ==>
        picked == Some(old(Listed())[old(highlight)])
        && query == Caption(old(Listed())[old(highlight)]) && !open
      ensures old(open) && key.Enter? && |old(Listed())| > 0 && !(0 <= old(highlight) < |old(Listed())|) ==>
        picked == None && query == old(query) && open
      ensures old(open) && key.Enter? ==> highlight == old(highlight)
      ensures old(open) && key.Enter? && |old(Listed())| == 0 ==>
        picked == None && query == old(query) && open
      ensures old(open) && key.Escape? ==>
        picked == None && !open && query == old(query) && highlight == old(highlight)
      ensures old(open) && key.OtherKey? ==>
        picked == None && open && query == old(query) && highlight == old(highlight)
    {
      picked := None;
      if !open && (key.ArrowDown? || key.Enter?) {
        open := true;
        return;
      }
      if !open {
        return;
      }
      var n := |Listed()|;
      match key
      case ArrowDown =>
        if n > 0 {
          highlight := StepDown(highlight, n);
        }
      case ArrowUp =>
        if n > 0 {
          highlight := StepUp(highlight);
        }
      case Enter =>
        if n > 0 {
          picked := Commit(highlight);
        }
      case Escape =>
        open := false;
      case OtherKey =>
    }

    /** Picking row `i`, the parent accepting the pick, and the effects: the
        query keeps the caption Commit wrote (the resync writes the same
        string), the list is closed and the highlight is in range. */
    method CommitAndAccept(i: int) returns (picked: Option<Item>)
      requires 0 <= i < |Listed()| && highlight >= 0
      modifies this`query, this`open, this`value, this`highlight
      ensures picked == Some(old(Listed())[i]) && value == picked
      ensures query == Caption(old(Listed())[i]) && !open
      ensures highlight == Clamp(old(highlight), |Listed()|)
      ensures HighlightInRange()
    {
      ghost var item := Listed()[i];
      picked := Commit(i);
      SetValue(picked);
      Settle();
    }
  }
}

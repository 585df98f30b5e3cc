/** The multi-route picker: an untrimmed case-insensitive search over the
    options, the selection operations its buttons hand to `onChange`, the chip
    row, and the `open`/`query` state of the control itself. */
module RouteMultiSelect {
  import opened Basics
  import opened Text
  import opened Seqs
  import opened Catalog

  /** How many chips are shown before the "+N more" marker. */
  const MaxChips: nat := 8

  /** The options listed for a query. A blank query lists every option; any
      other query is lower-cased but NOT trimmed and keeps, in order, the
      options whose lower-cased name or id contains it. */
  function Filtered(options: seq<Item>, query: string): (r: seq<Item>)
    ensures Blank(query) ==> r == options
    ensures !Blank(query) ==> forall x :: x in r <==> x in options && Matches(x, Lower(query))
    ensures forall x :: (multiset(r)[x]
                         == if Blank(query) || Matches(x, Lower(query)) then multiset(options)[x] else 0)
    ensures IsSubsequence(r, options)
  {
    if Blank(query) then
      SubsequenceReflexive(options);
      options
    else
      MatchingSpec(options, Lower(query));
      Matching(options, Lower(query))
  }

  /** The ids of the listed options (`allVisibleIds`). */
  function VisibleIds(options: seq<Item>, query: string): (r: seq<string>)
    ensures |r| == |Filtered(options, query)|
    ensures forall i :: 0 <= i < |r| ==> r[i] == Filtered(options, query)[i].id
    ensures forall x :: x in r <==> exists it :: it in Filtered(options, query) && it.id == x
  {
    Ids(Filtered(options, query))
  }

  /** Clicking an option or a chip: a selected id loses every occurrence and
      the rest keep their order; an unselected id is appended at the end. */
  function Toggle(selected: seq<string>, id: string): (r: seq<string>)
    ensures id in selected ==> id !in r && IsSubsequence(r, selected)
    ensures id in selected ==> forall y :: y != id ==> multiset(r)[y] == multiset(selected)[y]
    ensures id !in selected ==> |r| == |selected| + 1 && r[..|selected|] == selected && r[|selected|] == id
  {
    if id in selected then Without(selected, id) else selected + [id]
  }

  /** Toggling an unselected id twice restores the selection exactly. */
  lemma ToggleTwiceAbsent(selected: seq<string>, id: string)
    requires id !in selected
    ensures Toggle(Toggle(selected, id), id) == selected
  {
    WithoutAppended(selected, id);
  }

  /** Toggling any id twice restores the set of selected ids; a selected id
      comes back once, at the end. */
  lemma ToggleTwiceSameIds(selected: seq<string>, id: string)
    ensures forall x :: x in Toggle(Toggle(selected, id), id) <==> x in selected
    ensures id in selected ==> Toggle(Toggle(selected, id), id) == Without(selected, id) + [id]
  {
    if id in selected {
      assert forall y :: y in Without(selected, id) <==> y in selected && y != id by {
        forall y ensures y in Without(selected, id) <==> y in selected && y != id {
          if y != id {
            assert multiset(Without(selected, id))[y] == multiset(selected)[y];
          }
        }
      }
    } else {
      ToggleTwiceAbsent(selected, id);
    }
  }

  /** "Select all": the selection followed by the listed ids, each id once.
      Only listed ids are added, and a duplicate-free selection stays in
      front, unchanged. */
  function SelectAllVisible(options: seq<Item>, query: string, selected: seq<string>): (r: seq<string>)
    ensures NoDup(r)
    ensures forall x :: x in r <==> x in selected || x in VisibleIds(options, query)
    ensures NoDup(selected) ==> |r| >= |selected| && r[..|selected|] == selected
  {
    var merged := Dedup(selected + VisibleIds(options, query));
    if NoDup(selected) then
      DedupAppend(selected, VisibleIds(options, query));
      merged
    else
      merged
  }

  /** "Select all" keeps the order of first occurrences in the selection
      followed by the listed ids: the added ids come in listing order. */
  lemma SelectAllVisibleOrder(options: seq<Item>, query: string, selected: seq<string>)
    ensures IsSubsequence(SelectAllVisible(options, query, selected), selected + VisibleIds(options, query))
    ensures forall i, j :: 0 <= i < j < |SelectAllVisible(options, query, selected)| ==>
      var all := selected + VisibleIds(options, query);
      var r := SelectAllVisible(options, query, selected);
      r[i] in all && r[j] in all && FirstIndex(all, r[i]) < FirstIndex(all, r[j])
  {
    DedupSpec(selected + VisibleIds(options, query));
  }

  /** "Clear visible": the selected ids that are not listed, in order; ids the
      query hides keep every occurrence. */
  function ClearVisible(options: seq<Item>, query: string, selected: seq<string>): (r: seq<string>)
    ensures forall x :: x in r <==> x in selected && x !in VisibleIds(options, query)
    ensures forall x :: x !in VisibleIds(options, query) ==> multiset(r)[x] == multiset(selected)[x]
    ensures IsSubsequence(r, selected)
  {
    var visible := VisibleIds(options, query);
    FilterMembers(selected, id => id !in visible);
    FilterMultiset(selected, id => id !in visible);
    FilterIsSubsequence(selected, id => id !in visible);
    Filter(selected, id => id !in visible)
  }

  /** "Select all" undone by "Clear visible" for the same listing gives back a
      duplicate-free selection that had none of the listed ids. */
  lemma SelectAllThenClearVisible(options: seq<Item>, query: string, selected: seq<string>)
    requires NoDup(selected)
    requires forall x :: x in selected ==> x !in VisibleIds(options, query)
    ensures ClearVisible(options, query, SelectAllVisible(options, query, selected)) == selected
  {
    var visible := VisibleIds(options, query);
    var merged := SelectAllVisible(options, query, selected);
    var added := merged[|selected|..];
    assert merged == selected + added;
    DedupAppend(selected, visible);
    FilterKeepsFrontDropsTail(selected, added, id => id !in visible);
  }

  /** "Clear": the empty selection, whatever was selected. */
  function ClearAll(selected: seq<string>): (r: seq<string>)
    ensures |r| == 0
  {
    []
  }

  /** The chips: one per selected id among the first eight, in selection order. */
  function Chips(options: seq<Item>, selected: seq<string>): (r: seq<string>)
    ensures |r| == Min(MaxChips, |selected|)
    ensures forall i :: 0 <= i < |r| ==> r[i] == LabelOf(options, selected[i])
  {
    var shown := Take(selected, MaxChips);
    seq(|shown|, i requires 0 <= i < |shown| => LabelOf(options, shown[i]))
  }

  /** The "+N more" marker: present exactly when more than eight ids are
      selected, with N the ids that have no chip. */
  function MoreCount(selected: seq<string>): (r: Option<nat>)
    ensures r.Some? <==> |selected| > MaxChips
    ensures r.Some? ==> r.value > 0 && r.value == |selected| - MaxChips
  {
    if |selected| > MaxChips then Some(|selected| - MaxChips) else None
  }

  /** The control's own state: whether the list is open and the typed query. */
  class Picker {
    var open: bool
    var query: string

    constructor ()
      ensures !open && query == ""
    {
      open := false;
      query := "";
    }

    /** The options listed for the current query. */
    function Listed(options: seq<Item>): (r: seq<Item>)
      reads this
      ensures IsSubsequence(r, options)
    {
      Filtered(options, query)
    }

    /** The list is drawn only while open and enabled: a disabled picker
        never shows it, and an enabled one shows it exactly while open. */
    function PopoverShown(disabled: bool): (r: bool)
      reads this`open
      ensures disabled ==> !r
      ensures !disabled ==> (r <==> open)
    {
      open && !disabled
    }

    /** A click on the input box flips `open` unless the control is disabled. */
    method ClickInput(disabled: bool)
      modifies this
      ensures open == (if disabled then old(open) else !old(open))
      ensures !disabled ==> PopoverShown(disabled) == !old(PopoverShown(disabled))
      ensures query == old(query)
    {
      if !disabled {
        open := !open;
      }
    }

    /** Typing replaces the query and opens the list. */
    method Type(text: string)
      modifies this
      ensures query == text && open
    {
      query := text;
      if !open {
        open := true;
      }
    }

    /** Focusing the input opens the list. */
    method Focus()
      modifies this
      ensures open && query == old(query)
    {
      open := true;
    }

    /** A mouse press outside the control closes the list. */
    method Dismiss()
      modifies this
      ensures !open && query == old(query)
    {
      open := false;
    }
  }
}

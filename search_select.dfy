/** The chip-style route search: a trimmed search capped at 50 results, the
    `add`/`remove` operations on the selected ids, and the `open`/`query`
    state that `add` resets. */
module SearchSelect {
  import opened Basics
  import opened Text
  import opened Seqs
  import opened Catalog

  /** How many options are ever listed. */
  const Cap: nat := 50

  /** The options listed for a query: trimmed and lower-cased; the first 50
      options when nothing is left, otherwise the first 50 matches (see
      `FilteredMatches`). */
  function Filtered(options: seq<Item>, query: string): (r: seq<Item>)
    ensures |r| <= Cap
    ensures Blank(query) ==> r == options[..Min(Cap, |options|)]
    ensures IsSubsequence(r, options)
  {
    var search := Lower(Trim(query));
    BlankIffSearchEmpty(query);
    if search == [] then
      TakeAll(options, Cap);
      Take(options, Cap)
    else
      TakeMatchingOrdered(options, search, Cap);
      Take(Matching(options, search), Cap)
  }

  /** For a non-blank query the list is the first 50 options, in order, whose
      lower-cased name or id contains the trimmed, lower-cased query. */
  lemma FilteredMatches(options: seq<Item>, query: string)
    requires !Blank(query)
    ensures |Filtered(options, query)| == Min(Cap, |Matching(options, Lower(Trim(query)))|)
    ensures Filtered(options, query) == Matching(options, Lower(Trim(query)))[..|Filtered(options, query)|]
    ensures forall i :: 0 <= i < |Filtered(options, query)| ==> Matches(Filtered(options, query)[i], Lower(Trim(query)))
  {
    BlankIffSearchEmpty(query);
    TakeMatching(options, Lower(Trim(query)), Cap);
  }

  /** The "×" on a chip: every occurrence of `id` is dropped, the rest keep
      their order and their multiplicity. */
  function Remove(value: seq<string>, id: string): (r: seq<string>)
    ensures id !in r
    ensures forall y :: y != id ==> multiset(r)[y] == multiset(value)[y]
    ensures IsSubsequence(r, value)
  {
    Without(value, id)
  }

  /** Adding an id that was absent and then removing it restores the value. */
  lemma AddThenRemove(value: seq<string>, id: string)
    requires id !in value
    ensures Remove(Added(value, id), id) == value
  {
    WithoutAppended(value, id);
  }

  /** A chip's text, `found?.id ?? id`: the id of the option found by that
      id, or the id itself. Either way it is the id. */
  function ChipText(options: seq<Item>, id: string): (r: string)
    ensures r == id
  {
    match Find(options, id)
    case Some(found) => found.id
    case None => id
  }

  /** The control's own state: whether the list is open and the typed query. */
  class Picker {
    var open: bool
    var query: string

    constructor ()
      ensures !open && query == ""
    {
      open := false;
      query := "";
    }

    /** Typing replaces the query and opens the list. */
    method Type(text: string)
      modifies this
      ensures query == text && open
    {
      query := text;
      open := true;
    }

    /** Focusing the input opens the list. */
    method Focus()
      modifies this
      ensures open && query == old(query)
    {
      open := true;
    }

    /** A click outside the control closes the list. */
    method Dismiss()
      modifies this
      ensures !open && query == old(query)
    {
      open := false;
    }

    /** Clicking an option: an absent id is appended (the `onChange` call, as
        `Some`); a present one leaves the value alone (`None`, no call). Either
        way the query is cleared and the list closes. No duplicate is ever
        introduced. */
    method Add(value: seq<string>, id: string) returns (changed: Option<seq<string>>)
      modifies this
      ensures id in value ==> changed == None
      ensures id !in value ==> changed == Some(value + [id]) && changed == Some(Added(value, id))
      ensures query == "" && !open
    {
      changed := None;
      if id !in value {
        changed := Some(value + [id]);
      }
      query := "";
      open := false;
    }
  }

  /** The selection after `Add`: the id is appended only when absent, so a
      duplicate-free selection stays duplicate-free and gains the id. */
  function Added(value: seq<string>, id: string): (r: seq<string>)
    ensures id in r
    ensures forall x :: x in r <==> x in value || x == id
    ensures NoDup(value) ==> NoDup(r)
    ensures id in value ==> r == value
    ensures id !in value ==> r == value + [id]
  {
    if id in value then value else value + [id]
  }
}

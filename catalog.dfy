/** The catalog entries the route pickers search: `{id, label}` records in
    display order, the case-insensitive substring test they all apply, and the
    lookups by id. */
module Catalog {
  import opened Basics
  import opened Text
  import opened Seqs

  /** One selectable route or line: the source's `{id, label}` (`label` is a
      Dafny keyword, so the display text is the field `name` here, as
      `RouteCombobox` itself calls it; that component calls the id `code`). */
  datatype Item = Item(id: string, name: string)

  /** `label.toLowerCase().includes(q) || id.toLowerCase().includes(q)`,
      for a query `q` that the caller has already lower-cased. */
  predicate Matches(it: Item, q: string)
  {
    Contains(Lower(it.name), q) || Contains(Lower(it.id), q)
  }

  /** `items.filter(it => Matches(it, q))` (see `MatchingSpec`). */
  function Matching(items: seq<Item>, q: string): (r: seq<Item>)
    ensures |r| <= |items|
  {
    Filter(items, it => Matches(it, q))
  }

  /** The matches are exactly the matching entries, each as often as in the
      catalog, in catalog order. */
  lemma MatchingSpec(items: seq<Item>, q: string)
    ensures forall x :: x in Matching(items, q) <==> x in items && Matches(x, q)
    ensures forall x :: multiset(Matching(items, q))[x] == if Matches(x, q) then multiset(items)[x] else 0
    ensures IsSubsequence(Matching(items, q), items)
  {
    FilterMembers(items, it => Matches(it, q));
    FilterMultiset(items, it => Matches(it, q));
    FilterIsSubsequence(items, it => Matches(it, q));
  }

  /** The first `cap` matches (`filter(...).slice(0, cap)`): as many as there
      are, up to `cap`, each a match, in catalog order. */
  lemma TakeMatching(items: seq<Item>, q: string, cap: nat)
    ensures |Take(Matching(items, q), cap)| == Min(cap, |Matching(items, q)|)
    ensures forall i :: 0 <= i < |Take(Matching(items, q), cap)| ==> Matches(Take(Matching(items, q), cap)[i], q)
    ensures IsSubsequence(Take(Matching(items, q), cap), items)
  {
    var m := Matching(items, q);
    MatchingSpec(items, q);
    SubsequencePrefix(m, items, Min(cap, |m|));
    forall i | 0 <= i < |Take(m, cap)| ensures Matches(Take(m, cap)[i], q) {
      assert Take(m, cap)[i] == m[i];
      assert m[i] in m;
    }
  }

  /** The first `cap` entries, unfiltered, in catalog order. */
  lemma TakeAll(items: seq<Item>, cap: nat)
    ensures IsSubsequence(Take(items, cap), items)
  {
    SubsequenceReflexive(items);
    SubsequencePrefix(items, items, Min(cap, |items|));
  }

  /** The first `cap` matches are in catalog order. */
  lemma TakeMatchingOrdered(items: seq<Item>, q: string, cap: nat)
    ensures IsSubsequence(Take(Matching(items, q), cap), items)
  {
    var m := Matching(items, q);
    MatchingSpec(items, q);
    SubsequencePrefix(m, items, Min(cap, |m|));
  }

  /** An empty query is contained in everything, so it keeps the whole catalog. */
  lemma MatchingEmptyQuery(items: seq<Item>)
    ensures Matching(items, []) == items
  {
    forall i | 0 <= i < |items| ensures Matches(items[i], []) {
      ContainsTrivial(Lower(items[i].name));
    }
    FilterKeepsAll(items, it => Matches(it, []));
  }

  /** `items.find(o => o.id === id)`: the first entry with that id. */
  function Find(items: seq<Item>, id: string): (r: Option<Item>)
    ensures r.None? <==> forall i :: 0 <= i < |items| ==> items[i].id != id
    ensures r.Some? ==> r.value in items && r.value.id == id
    ensures r.Some? ==> exists k :: 0 <= k < |items| && items[k] == r.value
                                    && forall j :: 0 <= j < k ==> items[j].id != id
  {
    if items == [] then None
    else if items[0].id == id then (assert items[0] == items[0]; Some(items[0]))
    else
      var r := Find(items[1..], id);
      if r.Some? then
        var k :| 0 <= k < |items[1..]| && items[1..][k] == r.value
                 && forall j :: 0 <= j < k ==> items[1..][j].id != id;
        assert items[k + 1] == r.value;
        r
      else r
  }

  /** In a catalog whose ids are distinct, looking up an entry's id finds
      that very entry. */
  lemma FindMember(items: seq<Item>, it: Item)
    requires forall i, j :: 0 <= i < j < |items| ==> items[i].id != items[j].id
    requires it in items
    ensures Find(items, it.id) == Some(it)
  {
    var r := Find(items, it.id);
    var k :| 0 <= k < |items| && items[k] == r.value && forall j :: 0 <= j < k ==> items[j].id != it.id;
    var m :| 0 <= m < |items| && items[m] == it;
    if k < m {
      assert items[k].id == items[m].id;
    } else if m < k {
      assert items[m].id == it.id;
    }
  }

  /** `items.find(o => o.id === id)?.label ?? id`: the name of the first
      entry with that id, or the raw id when no entry has it. */
  function LabelOf(items: seq<Item>, id: string): (r: string)
    ensures (forall i :: 0 <= i < |items| ==> items[i].id != id) ==> r == id
    ensures (exists i :: 0 <= i < |items| && items[i].id == id) ==>
      exists k :: 0 <= k < |items| && items[k].id == id && r == items[k].name
                  && forall j :: 0 <= j < k ==> items[j].id != id
  {
    match Find(items, id)
    case Some(found) => found.name
    case None => id
  }

  /** The caption `${id} — ${label}` that the single-select pickers show. */
  function Caption(it: Item): (r: string)
    ensures |r| == |it.id| + 3 + |it.name|
  {
    it.id + " \U{2014} " + it.name
  }

  /** A caption starts with the id and ends with the name, so neither is lost. */
  lemma CaptionParts(it: Item)
    ensures Caption(it)[..|it.id|] == it.id
    ensures Caption(it)[|it.id|..|it.id| + 3] == " \U{2014} "
    ensures Caption(it)[|it.id| + 3..] == it.name
  {
  }

  /** Two items with the same caption and the same id are the same item. */
  lemma CaptionInjective(a: Item, b: Item)
    requires a.id == b.id
    requires Caption(a) == Caption(b)
    ensures a == b
  {
    CaptionParts(a);
    CaptionParts(b);
  }

  /** The ids of a list of entries, in order (`filtered.map(o => o.id)`). */
  function Ids(items: seq<Item>): (r: seq<string>)
    ensures |r| == |items|
    ensures forall i :: 0 <= i < |items| ==> r[i] == items[i].id
    ensures forall x :: x in r <==> exists it :: it in items && it.id == x
  {
    if items == [] then []
    else
      var rest := Ids(items[1..]);
      assert forall it :: it in items[1..] ==> it in items;
      [items[0].id] + rest
  }
}

/** The curated route combobox: its fixed catalog of seventeen Dallas routes,
    the untrimmed search over it, and the caption shown for the chosen code. */
module RouteCombobox {
  import opened Basics
  import opened Text
  import opened Seqs
  import opened Catalog

  /** `ROUTES`, in display order (a route's code is `id`, its name `name`). */
  const ROUTES: seq<Item> := [
    Item("001", "Malcolm X \U{2014} Maple"),
    Item("003", "Ross"),
    Item("005", "Love Field Shuttle"),
    Item("009", "Jefferson Gaston"),
    Item("013", "Ervay"),
    Item("018", "Samuell"),
    Item("020", "Northwest Hwy"),
    Item("022", "Forest Lane"),
    Item("023", "Haskell"),
    Item("025", "Cockrell Hill North"),
    Item("027", "Ridgecrest"),
    Item("028", "Singleton"),
    Item("030", "Lake June"),
    Item("038", "Ledbetter"),
    Item("041", "Bonnie View"),
    Item("047", "Polk"),
    Item("057", "Westmoreland")
  ]

  /** No two routes share a code, so a code names at most one route. */
  lemma CodesDistinct()
    ensures forall i, j :: 0 <= i < j < |ROUTES| ==> ROUTES[i].id != ROUTES[j].id
  {
  }

  /** The routes listed for a query: all of them, in order, for a blank
      query; otherwise, in order, those whose lower-cased code or name
      contains the lower-cased (untrimmed) query. */
  function Filtered(query: string): (r: seq<Item>)
    ensures Blank(query) ==> r == ROUTES
    ensures !Blank(query) ==> forall x :: x in r <==> x in ROUTES && Matches(x, Lower(query))
    ensures !Blank(query) ==> forall x :: multiset(r)[x] ==
                                (if Matches(x, Lower(query)) then multiset(ROUTES)[x] else 0)
    ensures IsSubsequence(r, ROUTES)
  {
    if Blank(query) then
      SubsequenceReflexive(ROUTES);
      ROUTES
    else
      MatchingSpec(ROUTES, Lower(query));
      Matching(ROUTES, Lower(query))
  }

  /** Route 0's name has no digit '0'. */
  lemma NameHasNoZero0()
    ensures '0' !in ROUTES[0].name
  {
  }

  /** Route 1's name has no digit '0'. */
  lemma NameHasNoZero1()
    ensures '0' !in ROUTES[1].name
  {
  }

  /** Route 2's name has no digit '0'. */
  lemma NameHasNoZero2()
    ensures '0' !in ROUTES[2].name
  {
  }

  /** Route 3's name has no digit '0'. */
  lemma NameHasNoZero3()
    ensures '0' !in ROUTES[3].name
  {
  }

  /** Route 4's name has no digit '0'. */
  lemma NameHasNoZero4()
    ensures '0' !in ROUTES[4].name
  {
  }

  /** Route 5's name has no digit '0'. */
  lemma NameHasNoZero5()
    ensures '0' !in ROUTES[5].name
  {
  }

  /** Route 6's name has no digit '0'. */
  lemma NameHasNoZero6()
    ensures '0' !in ROUTES[6].name
  {
  }

  /** Route 7's name has no digit '0'. */
  lemma NameHasNoZero7()
    ensures '0' !in ROUTES[7].name
  {
  }

  /** Route 8's name has no digit '0'. */
  lemma NameHasNoZero8()
    ensures '0' !in ROUTES[8].name
  {
  }

  /** Route 9's name has no digit '0'. */
  lemma NameHasNoZero9()
    ensures '0' !in ROUTES[9].name
  {
  }

  /** Route 10's name has no digit '0'. */
  lemma NameHasNoZero10()
    ensures '0' !in ROUTES[10].name
  {
  }

  /** Route 11's name has no digit '0'. */
  lemma NameHasNoZero11()
    ensures '0' !in ROUTES[11].name
  {
  }

  /** Route 12's name has no digit '0'. */
  lemma NameHasNoZero12()
    ensures '0' !in ROUTES[12].name
  {
  }

  /** Route 13's name has no digit '0'. */
  lemma NameHasNoZero13()
    ensures '0' !in ROUTES[13].name
  {
  }

  /** Route 14's name has no digit '0'. */
  lemma NameHasNoZero14()
    ensures '0' !in ROUTES[14].name
  {
  }

  /** Route 15's name has no digit '0'. */
  lemma NameHasNoZero15()
    ensures '0' !in ROUTES[15].name
  {
  }

  /** Route 16's name has no digit '0'. */
  lemma NameHasNoZero16()
    ensures '0' !in ROUTES[16].name
  {
  }

  /** No route name contains the digit '0'. */
  lemma NamesHaveNoZero()
    ensures forall i :: 0 <= i < |ROUTES| ==> '0' !in ROUTES[i].name
  {
    NameHasNoZero0();
    NameHasNoZero1();
    NameHasNoZero2();
    NameHasNoZero3();
    NameHasNoZero4();
    NameHasNoZero5();
    NameHasNoZero6();
    NameHasNoZero7();
    NameHasNoZero8();
    NameHasNoZero9();
    NameHasNoZero10();
    NameHasNoZero11();
    NameHasNoZero12();
    NameHasNoZero13();
    NameHasNoZero14();
    NameHasNoZero15();
    NameHasNoZero16();
    forall i | 0 <= i < |ROUTES| ensures '0' !in ROUTES[i].name {
      assert i in {0, 1, 2, 3, 4, 5, 6, 7, 8, 9, 10, 11, 12, 13, 14, 15, 16};
    }
  }

  /** Every route code is three decimal digits. */
  lemma CodesAreDigits()
    ensures forall i, k :: 0 <= i < |ROUTES| && 0 <= k < |ROUTES[i].id| ==> '0' <= ROUTES[i].id[k] <= '9'
    ensures forall i :: 0 <= i < |ROUTES| ==> |ROUTES[i].id| == 3
  {
  }

  /** A query as long as an entry's code, whose first character is no letter
      and does not occur in the entry's name, matches the entry exactly when
      it is the entry's code (codes have no capitals). */
  lemma MatchesCodeQuery(it: Item, q: string)
    requires q != [] && !('a' <= q[0] <= 'z') && q[0] !in it.name
    requires |it.id| == |q| && forall k :: 0 <= k < |it.id| ==> !('A' <= it.id[k] <= 'Z')
    ensures Matches(it, q) <==> it.id == q
  {
    LowerKeepsNonLetter(it.name, q[0]);
    if Contains(Lower(it.name), q) {
      ContainsFirstChar(Lower(it.name), q);
    }
    LowerNoCapitals(it.id);
    ContainsSameLength(it.id, q);
  }

  /** The query "0", "0", "5", spelt out character by character. */
  predicate Is005(q: string)
  {
    |q| == 3 && q[0] == '0' && q[1] == '0' && q[2] == '5'
  }

  /** Of all routes only the third, code "005", matches the query "005". */
  lemma OnlyRoute005Matches(q: string)
    requires Is005(q)
    ensures forall j :: 0 <= j < |ROUTES| ==> (Matches(ROUTES[j], q) <==> j == 2)
  {
    assert q == "005";
    NamesHaveNoZero();
    CodesAreDigits();
    CodesDistinct();
    forall j | 0 <= j < |ROUTES| ensures Matches(ROUTES[j], q) <==> j == 2 {
      MatchesCodeQuery(ROUTES[j], q);
    }
  }

  /** The filter over the catalog for the query "005" keeps only route 005. */
  lemma OnlyRoute005Kept(q: string)
    requires Is005(q)
    ensures Filter(ROUTES, it => Matches(it, q)) == [ROUTES[2]]
  {
    OnlyRoute005Matches(q);
    FilterSingle(ROUTES, it => Matches(it, q), 2);
  }

  /** A non-blank query that is already lower-case lists the catalog
      filtered by that very query. */
  lemma FilteredLowerQuery(q: string)
    requires !Blank(q) && Lower(q) == q
    ensures Filtered(q) == Filter(ROUTES, it => Matches(it, q))
  {
  }

  /** "005" is not blank. */
  lemma Is005NotBlank(q: string)
    requires Is005(q)
    ensures !Blank(q)
  {
    assert !IsWhitespace(q[0]);
    NotBlankFirst(q);
  }

  /** "005" has no capitals, so lower-casing leaves it alone. */
  lemma Is005Lower(q: string)
    requires Is005(q)
    ensures Lower(q) == q
  {
    LowerNoCapitals(q);
  }

  /** The query "005" lists route 005 alone. */
  lemma Query005Lists(q: string)
    requires Is005(q)
    ensures Filtered(q) == [ROUTES[2]]
  {
    Is005NotBlank(q);
    Is005Lower(q);
    FilteredLowerQuery(q);
    OnlyRoute005Kept(q);
  }

  /** The third route is the Love Field Shuttle. */
  lemma ThirdRoute()
    ensures ROUTES[2] == Item("005", "Love Field Shuttle")
  {
  }

  /** Typing "005" lists exactly the Love Field Shuttle. */
  lemma Query005(q: string)
    requires Is005(q)
    ensures Filtered(q) == [Item("005", "Love Field Shuttle")]
  {
    Query005Lists(q);
    ThirdRoute();
  }

  /** The input's caption for the chosen code: `code — name` of that route,
      or empty when nothing is chosen or the code is unknown. */
  function Display(value: Option<string>): (r: string)
    ensures value.None? ==> r == ""
    ensures forall i :: 0 <= i < |ROUTES| && value == Some(ROUTES[i].id) ==> r == Caption(ROUTES[i])
    ensures value.Some? && (forall i :: 0 <= i < |ROUTES| ==> ROUTES[i].id != value.value) ==> r == ""
    ensures r == "" <==> value.None? || forall i :: 0 <= i < |ROUTES| ==> ROUTES[i].id != value.value
  {
    match value
    case None => ""
    case Some(code) =>
      CodesDistinct();
      match Find(ROUTES, code)
      case Some(route) => Caption(route)
      case None => ""
  }

  /** Picking listed entry `i` hands its code to `onChange`; the code names a
      catalog route, and the input's caption becomes that route's caption. */
  function Choose(query: string, i: int): (code: string)
    requires 0 <= i < |Filtered(query)|
    ensures code == Filtered(query)[i].id
    ensures Display(Some(code)) == Caption(Filtered(query)[i])
  {
    var listed := Filtered(query);
    var route := listed[i];
    SubsequenceMember(listed, ROUTES, i);
    CodesDistinct();
    FindMember(ROUTES, route);
    route.id
  }

  /** The component's one piece of state, the typed query. */
  class Combobox {
    var query: string

    constructor ()
      ensures query == ""
    {
      query := "";
    }

    /** The routes listed for the current query. */
    function Listed(): (r: seq<Item>)
      reads this`query
      ensures IsSubsequence(r, ROUTES)
    {
      Filtered(query)
    }

    /** Typing replaces the query. */
    method Type(text: string)
      modifies this`query
      ensures query == text
    {
      query := text;
    }

    /** When the option list has finished closing the query is emptied, so
        the next opening lists every route. */
    method AfterLeave()
      modifies this`query
      ensures query == "" && Listed() == ROUTES
    {
      query := "";
      TrimSpec(query);
    }
  }
}

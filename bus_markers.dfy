/** The bus-marker layer's route filter: a bus id such as `BUS-315` is split
    at its dashes, and the bus is kept when its second segment, with leading
    zeros stripped, equals one of the selected route ids stripped the same
    way. */
module BusMarkers {
  import opened Basics
  import opened Seqs

  /** The marker colours follow this status. */
  datatype BusStatus = OnTime | Late | Offline

  /** One demo bus: its id and status (its map position is left out). */
  datatype BusPoint = BusPoint(id: string, status: BusStatus)

  /** `BUS_POINTS`, the demo feed. */
  const BUS_POINTS: seq<BusPoint> := [
    BusPoint("BUS-315", OnTime),
    BusPoint("BUS-203", Late)
  ]

  /** The separator of the segments of a bus id. */
  const Dash: char := '-'

  /** `pieces.join(sep)`. */
  function Join(pieces: seq<string>, sep: char): string
  {
    if pieces == [] then ""
    else if |pieces| == 1 then pieces[0]
    else pieces[0] + [sep] + Join(pieces[1..], sep)
  }

  /** `s.split(sep)` for a one-character separator: one piece per
      separator-free run, so there is one piece more than there are
      separators, and joining the pieces back gives `s`. */
  function Split(s: string, sep: char): (r: seq<string>)
    ensures |r| >= 1
    ensures forall i :: 0 <= i < |r| ==> sep !in r[i]
    decreases |s|
  {
    if s == [] then [""]
    else
      var rest := Split(s[1..], sep);
      if s[0] == sep then [""] + rest
      else [[s[0]] + rest[0]] + rest[1..]
  }

  /** Joining the pieces of a split gives back the string. */
  lemma {:induction false} SplitJoin(s: string, sep: char)
    ensures Join(Split(s, sep), sep) == s
    decreases |s|
  {
    if s != [] {
      var rest := Split(s[1..], sep);
      SplitJoin(s[1..], sep);
      if s[0] == sep {
        assert Split(s, sep) == [""] + rest;
        assert ([""] + rest)[1..] == rest;
      } else {
        var r := Split(s, sep);
        assert r == [[s[0]] + rest[0]] + rest[1..];
        if |rest| > 1 {
          assert r[1..] == rest[1..];
        }
      }
    }
  }

  /** A separator-free piece followed by the separator splits off as the
      first piece. */
  lemma {:induction false} SplitAfterPiece(pre: string, sep: char, rest: string)
    requires sep !in pre
    ensures Split(pre + [sep] + rest, sep) == [pre] + Split(rest, sep)
    decreases |pre|
  {
    var s := pre + [sep] + rest;
    if pre == [] {
      assert s[1..] == rest;
    } else {
      assert s[1..] == pre[1..] + [sep] + rest;
      SplitAfterPiece(pre[1..], sep, rest);
      assert [pre[0]] + pre[1..] == pre;
    }
  }

  /** A string without the separator is a single piece. */
  lemma {:induction false} SplitNoSeparator(s: string, sep: char)
    requires sep !in s
    ensures Split(s, sep) == [s]
    decreases |s|
  {
    if s != [] {
      SplitNoSeparator(s[1..], sep);
      assert [s[0]] + s[1..] == s;
    }
  }

  /** Splitting the join of separator-free pieces gives the pieces back. */
  lemma {:induction false} JoinSplit(pieces: seq<string>, sep: char)
    requires |pieces| >= 1
    requires forall i :: 0 <= i < |pieces| ==> sep !in pieces[i]
    ensures Split(Join(pieces, sep), sep) == pieces
    decreases |pieces|
  {
    if |pieces| == 1 {
      SplitNoSeparator(pieces[0], sep);
    } else {
      JoinSplit(pieces[1..], sep);
      SplitAfterPiece(pieces[0], sep, Join(pieces[1..], sep));
      assert [pieces[0]] + pieces[1..] == pieces;
    }
  }

  /** The piece after the first separator (`const [, maybeId] = id.split("-")`),
      or `None` when there is no separator. */
  function SecondSegment(s: string): (r: Option<string>)
    ensures r.None? <==> Dash !in s
    ensures r.Some? ==> Dash !in r.value
  {
    var parts := Split(s, Dash);
    SplitJoin(s, Dash);
    if |parts| >= 2 then
      assert s == parts[0] + [Dash] + Join(parts[1..], Dash);
      assert s[|parts[0]|] == Dash;
      Some(parts[1])
    else
      None
  }

  /** The segment after the first dash is the run up to the next dash. */
  lemma SecondSegmentOf(pre: string, seg: string, rest: string)
    requires Dash !in pre && Dash !in seg
    ensures SecondSegment(pre + [Dash] + seg) == Some(seg)
    ensures SecondSegment(pre + [Dash] + seg + [Dash] + rest) == Some(seg)
  {
    SplitAfterPiece(pre, Dash, seg);
    SplitNoSeparator(seg, Dash);
    assert pre + [Dash] + seg + [Dash] + rest == pre + [Dash] + (seg + [Dash] + rest);
    SplitAfterPiece(pre, Dash, seg + [Dash] + rest);
    SplitAfterPiece(seg, Dash, rest);
  }

  /** `s.replace(/^0+/, "")`: the longest suffix that does not start with '0';
      everything dropped is '0'. */
  function StripLeadingZeros(s: string): (r: string)
    ensures |r| <= |s|
  {
    if s != [] && s[0] == '0' then StripLeadingZeros(s[1..]) else s
  }

  /** The stripped id is a suffix of the id that does not start with '0', and
      everything dropped is '0'. */
  lemma {:induction false} StripSpec(s: string)
    ensures StripLeadingZeros(s) == s[|s| - |StripLeadingZeros(s)|..]
    ensures StripLeadingZeros(s) == [] || StripLeadingZeros(s)[0] != '0'
    ensures forall k :: 0 <= k < |s| - |StripLeadingZeros(s)| ==> s[k] == '0'
  {
    if s != [] && s[0] == '0' {
      StripSpec(s[1..]);
      assert s[1..][|s| - 1 - |StripLeadingZeros(s)|..] == s[|s| - |StripLeadingZeros(s)|..];
      forall k | 0 <= k < |s| - |StripLeadingZeros(s)| ensures s[k] == '0' {
        if k > 0 {
          assert s[k] == s[1..][k - 1];
        }
      }
    }
  }

  /** `n` zeros. */
  function Zeros(n: nat): (r: string)
    ensures |r| == n && forall k :: 0 <= k < n ==> r[k] == '0'
  {
    if n == 0 then [] else ['0'] + Zeros(n - 1)
  }

  /** One leading zero makes no difference after stripping. */
  lemma StripZeroHead(t: string)
    ensures StripLeadingZeros(['0'] + t) == StripLeadingZeros(t)
  {
    assert (['0'] + t)[1..] == t;
  }

  /** Leading zeros make no difference after stripping. */
  lemma {:induction false} StripPadded(n: nat, s: string)
    ensures StripLeadingZeros(Zeros(n) + s) == StripLeadingZeros(s)
  {
    if n == 0 {
      assert Zeros(n) + s == s;
    } else {
      var z := Zeros(n - 1);
      calc {
        StripLeadingZeros(Zeros(n) + s);
        { assert Zeros(n) + s == ['0'] + (z + s); }
        StripLeadingZeros(['0'] + (z + s));
        { StripZeroHead(z + s); }
        StripLeadingZeros(z + s);
        { StripPadded(n - 1, s); }
        StripLeadingZeros(s);
      }
    }
  }

  /** Stripping twice is stripping once. */
  lemma StripIdempotent(s: string)
    ensures StripLeadingZeros(StripLeadingZeros(s)) == StripLeadingZeros(s)
  {
    StripSpec(s);
  }

  /** `new Set(routeIds.map(id => id.replace(/^0+/, "")))`. */
  function Normalized(routeIds: seq<string>): (r: set<string>)
    ensures forall x :: x in r <==> exists id :: id in routeIds && StripLeadingZeros(id) == x
  {
    set id | id in routeIds :: StripLeadingZeros(id)
  }

  /** The filter's test for one bus, against the normalised route ids: a
      kept bus has a dash in its id and a non-empty second segment that,
      stripped, is one of the normalised ids. */
  function Kept(b: BusPoint, normalized: set<string>): (r: bool)
    ensures r ==> Dash in b.id
    ensures r <==> SecondSegment(b.id).Some? && SecondSegment(b.id).value != []
                   && StripLeadingZeros(SecondSegment(b.id).value) in normalized
  {
    match SecondSegment(b.id)
    case None => false
    case Some(seg) => seg != [] && StripLeadingZeros(seg) in normalized
  }

  /** The buses drawn for the selected routes: all of them when no route is
      selected; otherwise, in order, those whose second id segment is
      non-empty and equals a selected route id, ignoring leading zeros on
      both sides. */
  function Filtered(points: seq<BusPoint>, routeIds: seq<string>): (r: seq<BusPoint>)
    ensures routeIds == [] ==> r == points
    ensures routeIds != [] ==> forall b :: b in r <==>
      b in points && SecondSegment(b.id).Some? && SecondSegment(b.id).value != []
      && exists id :: id in routeIds && StripLeadingZeros(id) == StripLeadingZeros(SecondSegment(b.id).value)
    ensures routeIds != [] ==>
      forall b :: multiset(r)[b] == (if Kept(b, Normalized(routeIds)) then multiset(points)[b] else 0)
    ensures IsSubsequence(r, points)
  {
    if routeIds == [] then
      SubsequenceReflexive(points);
      points
    else
      var normalized := Normalized(routeIds);
      FilterMembers(points, b => Kept(b, normalized));
      FilterMultiset(points, b => Kept(b, normalized));
      FilterIsSubsequence(points, b => Kept(b, normalized));
      Filter(points, b => Kept(b, normalized))
  }

  /** Route selections that normalise to the same set select the same buses. */
  lemma SameNormalizedSameBuses(points: seq<BusPoint>, a: seq<string>, b: seq<string>)
    requires a != [] && b != []
    requires Normalized(a) == Normalized(b)
    ensures Filtered(points, a) == Filtered(points, b)
  {
  }

  /** Every id normalised from the padded list comes from the original. */
  lemma NormalizedPaddedWithin(routeIds: seq<string>, i: int, n: nat)
    requires 0 <= i < |routeIds|
    ensures forall x :: x in Normalized(routeIds[i := Zeros(n) + routeIds[i]]) ==> x in Normalized(routeIds)
  {
    var padded := routeIds[i := Zeros(n) + routeIds[i]];
    forall x | x in Normalized(padded) ensures x in Normalized(routeIds) {
      var id :| id in padded && StripLeadingZeros(id) == x;
      var k :| 0 <= k < |padded| && padded[k] == id;
      var orig := routeIds[k];
      assert orig in routeIds;
      if k == i {
        assert id == Zeros(n) + orig;
        StripPadded(n, orig);
      } else {
        assert id == orig;
      }
    }
  }

  /** Every id normalised from the original list comes from the padded one. */
  lemma NormalizedPaddedCovers(routeIds: seq<string>, i: int, n: nat)
    requires 0 <= i < |routeIds|
    ensures forall x :: x in Normalized(routeIds) ==> x in Normalized(routeIds[i := Zeros(n) + routeIds[i]])
  {
    var padded := routeIds[i := Zeros(n) + routeIds[i]];
    forall x | x in Normalized(routeIds) ensures x in Normalized(padded) {
      var id :| id in routeIds && StripLeadingZeros(id) == x;
      var k :| 0 <= k < |routeIds| && routeIds[k] == id;
      var moved := padded[k];
      assert moved in padded;
      if k == i {
        assert moved == Zeros(n) + id;
        StripPadded(n, id);
      } else {
        assert moved == id;
      }
    }
  }

  /** Padding one route id with leading zeros leaves the normalised set alone. */
  lemma NormalizedPadded(routeIds: seq<string>, i: int, n: nat)
    requires 0 <= i < |routeIds|
    ensures Normalized(routeIds[i := Zeros(n) + routeIds[i]]) == Normalized(routeIds)
  {
    NormalizedPaddedWithin(routeIds, i, n);
    NormalizedPaddedCovers(routeIds, i, n);
  }

  /** Padding a selected route id with leading zeros (`"0315"` for `"315"`)
      selects the same buses. */
  lemma LeadingZeroInsensitive(points: seq<BusPoint>, routeIds: seq<string>, i: int, n: nat)
    requires 0 <= i < |routeIds|
    ensures Filtered(points, routeIds[i := Zeros(n) + routeIds[i]]) == Filtered(points, routeIds)
  {
    NormalizedPadded(routeIds, i, n);
    SameNormalizedSameBuses(points, routeIds[i := Zeros(n) + routeIds[i]], routeIds);
  }

  /** Zeros contain no dash. */
  lemma ZerosNoDash(n: nat)
    ensures Dash !in Zeros(n)
  {
  }

  /** Leading zeros on the bus side make no difference either: `BUS-0315`
      is kept exactly when `BUS-315` is. */
  lemma KeptIgnoresBusPadding(pre: string, seg: string, n: nat, st: BusStatus, normalized: set<string>)
    requires Dash !in pre && Dash !in seg && seg != []
    ensures Kept(BusPoint(pre + [Dash] + (Zeros(n) + seg), st), normalized)
        == Kept(BusPoint(pre + [Dash] + seg, st), normalized)
  {
    ZerosNoDash(n);
    SecondSegmentOf(pre, Zeros(n) + seg, "");
    SecondSegmentOf(pre, seg, "");
    StripPadded(n, seg);
  }

  /** `BUS-315` has second segment "315". */
  lemma DemoSegment315()
    ensures SecondSegment(BUS_POINTS[0].id) == Some("315")
  {
    SecondSegmentOf("BUS", "315", "");
    assert BUS_POINTS[0].id == "BUS" + [Dash] + "315";
  }

  /** `BUS-203` has second segment "203". */
  lemma DemoSegment203()
    ensures SecondSegment(BUS_POINTS[1].id) == Some("203")
  {
    SecondSegmentOf("BUS", "203", "");
    assert BUS_POINTS[1].id == "BUS" + [Dash] + "203";
  }

  /** Route "315", padded with any number of zeros, normalises to {"315"}. */
  lemma NormalizedRoute315(n: nat)
    ensures Normalized([Zeros(n) + "315"]) == {"315"}
  {
    StripPadded(n, "315");
    assert StripLeadingZeros("315") == "315";
  }

  /** When exactly one bus passes the test, only that bus is drawn. */
  lemma FilteredSingle(points: seq<BusPoint>, routeIds: seq<string>, i: int)
    requires routeIds != [] && 0 <= i < |points|
    requires Kept(points[i], Normalized(routeIds))
    requires forall j :: 0 <= j < |points| && j != i ==> !Kept(points[j], Normalized(routeIds))
    ensures Filtered(points, routeIds) == [points[i]]
  {
    var normalized := Normalized(routeIds);
    FilterSingle(points, b => Kept(b, normalized), i);
  }

  /** For route "315", with any padding, `BUS-315` passes the test and
      `BUS-203` does not. */
  lemma DemoKept(n: nat)
    ensures Kept(BUS_POINTS[0], Normalized([Zeros(n) + "315"]))
    ensures !Kept(BUS_POINTS[1], Normalized([Zeros(n) + "315"]))
  {
    NormalizedRoute315(n);
    DemoSegment315();
    DemoSegment203();
    assert StripLeadingZeros("315") == "315";
    assert StripLeadingZeros("203") == "203";
  }

  /** The demo feed for route "315", written with or without leading
      zeros: only `BUS-315` is drawn. */
  lemma DemoFeedRoute315(n: nat)
    ensures Filtered(BUS_POINTS, [Zeros(n) + "315"]) == [BUS_POINTS[0]]
  {
    DemoKept(n);
    FilteredSingle(BUS_POINTS, [Zeros(n) + "315"], 0);
  }

  /** Once a route is selected, a bus whose id has no dash is never drawn. */
  lemma NoDashNeverKept(points: seq<BusPoint>, routeIds: seq<string>, b: BusPoint)
    requires routeIds != [] && Dash !in b.id
    ensures b !in Filtered(points, routeIds)
  {
  }

  /** Once a route is selected, a bus whose id has nothing between its first
      dash and the next (or the end) is never drawn. */
  lemma EmptySegmentNeverKept(points: seq<BusPoint>, routeIds: seq<string>, b: BusPoint,
                              pre: string, rest: string)
    requires routeIds != [] && Dash !in pre
    requires b.id == pre + [Dash] || b.id == pre + [Dash] + [Dash] + rest
    ensures b !in Filtered(points, routeIds)
  {
    SecondSegmentOf(pre, "", rest);
    assert pre + [Dash] + "" == pre + [Dash];
    assert pre + [Dash] + "" + [Dash] + rest == pre + [Dash] + [Dash] + rest;
  }

  /** The marker colour for a status: green, orange or slate. */
  function MarkerColor(s: BusStatus): (r: string)
    ensures |r| == 7 && r[0] == '#'
    ensures s.OnTime? <==> r == "#22c55e"
    ensures s.Late? <==> r == "#f97316"
    ensures s.Offline? <==> r == "#64748b"
  {
    match s
    case OnTime => "#22c55e"
    case Late => "#f97316"
    case Offline => "#64748b"
  }

  /** The three statuses are told apart by colour. */
  lemma MarkerColorsDistinct(s: BusStatus, t: BusStatus)
    requires s != t
    ensures MarkerColor(s) != MarkerColor(t)
  {
  }
}

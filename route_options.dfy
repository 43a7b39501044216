/**
 * The option list of src/components/RouteOptions.tsx: the "from" price, the
 * "stops available" badge, the ascending sort by total price (done in place on
 * the options array), the header read from the first option after the sort,
 * and the single-selection cell with its toggle and its reset on loading.
 */
module RouteOptions {
  import opened Wrappers
  import opened AvailableStops
  import TimeUtils

  /** The fields of a trip option that the component's logic reads. */
  datatype TripOption = TripOption(
    id: int,
    totalPrice: int,
    possibleStops: seq<Stop>,
    distanceKm: int,
    travelTimeMinutes: nat)

  // ---------------------------------------------------------------------------
  // priceFrom

  function Min(a: int, b: int): int {
    if a <= b then a else b
  }

  function Prices(options: seq<TripOption>): (ps: seq<int>)
    ensures |ps| == |options| && forall i :: 0 <= i < |options| ==> ps[i] == options[i].totalPrice
  {
    if options == [] then [] else [options[0].totalPrice] + Prices(options[1..])
  }

  /** `reduce((a, b) => Math.min(a, b))` without an initial value: a left fold over a non-empty list. */
  function ReduceMin(xs: seq<int>): (m: int)
    requires |xs| > 0
    ensures forall i :: 0 <= i < |xs| ==> m <= xs[i]
    ensures exists i :: 0 <= i < |xs| && xs[i] == m
  {
    if |xs| == 1 then xs[0]
    else
      var m := ReduceMin(xs[..|xs| - 1]);
      assert forall i :: 0 <= i < |xs| - 1 ==> xs[..|xs| - 1][i] == xs[i];
      Min(m, xs[|xs| - 1])
  }

  /** `priceFrom`: the least total price, which some option has. */
  function PriceFrom(options: seq<TripOption>): (p: int)
    requires |options| > 0
    ensures forall i :: 0 <= i < |options| ==> p <= options[i].totalPrice
    ensures exists i :: 0 <= i < |options| && options[i].totalPrice == p
  {
    ReduceMin(Prices(options))
  }

  // ---------------------------------------------------------------------------
  // stopsAvailable

  predicate HasStops(o: TripOption) {
    |o.possibleStops| > 0
  }

  /** `options.find(o => o.possibleStops.length > 0)`: the first option with stops, if any. */
  function StopsAvailable(options: seq<TripOption>): (r: Option<TripOption>)
    ensures r.Some? <==> exists i :: 0 <= i < |options| && HasStops(options[i])
    ensures r.Some? ==> exists i :: 0 <= i < |options| && options[i] == r.value && HasStops(options[i])
                                    && forall j :: 0 <= j < i ==> !HasStops(options[j])
  {
    if options == [] then None
    else if HasStops(options[0]) then Some(options[0])
    else
      var r := StopsAvailable(options[1..]);
      assert forall i :: 1 <= i < |options| ==> options[1..][i - 1] == options[i];
      r
  }

  /** The "Stops available" header badge. */
  function ShowStopsBadge(includeStops: bool, options: seq<TripOption>): (show: bool)
    ensures show <==> includeStops && exists i :: 0 <= i < |options| && HasStops(options[i])
  {
    includeStops && StopsAvailable(options).Some?
  }

  // ---------------------------------------------------------------------------
  // sortedOptions: the order a stable sort by `a.pricing.totalPrice - b.pricing.totalPrice` gives

  /** Inserts `x` after every element whose price is not above its own. */
  function Insert(s: seq<TripOption>, x: TripOption): seq<TripOption> {
    if s == [] || s[|s| - 1].totalPrice <= x.totalPrice then s + [x]
    else Insert(s[..|s| - 1], x) + [s[|s| - 1]]
  }

  /** The options ordered by ascending total price, ties kept in their original order. */
  function SortByPrice(s: seq<TripOption>): seq<TripOption> {
    if s == [] then [] else Insert(SortByPrice(s[..|s| - 1]), s[|s| - 1])
  }

  predicate SortedByPrice(s: seq<TripOption>) {
    forall i, j :: 0 <= i < j < |s| ==> s[i].totalPrice <= s[j].totalPrice
  }

  /** The options of price `p`, in order. */
  function WithPrice(s: seq<TripOption>, p: int): seq<TripOption> {
    if s == [] then []
    else WithPrice(s[..|s| - 1], p) + (if s[|s| - 1].totalPrice == p then [s[|s| - 1]] else [])
  }

  lemma {:induction false} InsertPermutes(s: seq<TripOption>, x: TripOption)
    ensures multiset(Insert(s, x)) == multiset(s) + multiset{x}
  {
    if s != [] && s[|s| - 1].totalPrice > x.totalPrice {
      var init, last := s[..|s| - 1], s[|s| - 1];
      InsertPermutes(init, x);
      assert s == init + [last];
    }
  }

  lemma {:induction false} InsertSorted(s: seq<TripOption>, x: TripOption)
    requires SortedByPrice(s)
    ensures SortedByPrice(Insert(s, x))
    ensures multiset(Insert(s, x)) == multiset(s) + multiset{x}
  {
    InsertPermutes(s, x);
    if s != [] && s[|s| - 1].totalPrice > x.totalPrice {
      var init, last := s[..|s| - 1], s[|s| - 1];
      assert SortedByPrice(init);
      InsertSorted(init, x);
      InsertPermutes(init, x);
      var r := Insert(init, x);
      forall k | 0 <= k < |r| ensures r[k].totalPrice <= last.totalPrice {
        assert r[k] in multiset(init) + multiset{x};
        if r[k] != x {
          assert r[k] in init;
        }
      }
      assert Insert(s, x) == r + [last];
    }
  }

  lemma {:induction false} WithPriceAppend(s: seq<TripOption>, x: TripOption, p: int)
    ensures WithPrice(s + [x], p) == WithPrice(s, p) + (if x.totalPrice == p then [x] else [])
  {
    assert (s + [x])[..|s|] == s;
  }

  /** Inserting `x` only passes options of a higher price, so options of one price keep their order. */
  lemma {:induction false} InsertWithPrice(s: seq<TripOption>, x: TripOption, p: int)
    ensures WithPrice(Insert(s, x), p) == WithPrice(s, p) + (if x.totalPrice == p then [x] else [])
  {
    if s == [] || s[|s| - 1].totalPrice <= x.totalPrice {
      WithPriceAppend(s, x, p);
    } else {
      var init, last := s[..|s| - 1], s[|s| - 1];
      assert s == init + [last];
      InsertWithPrice(init, x, p);
      WithPriceAppend(Insert(init, x), last, p);
      if x.totalPrice == p {
        assert last.totalPrice != p;
      }
    }
  }

  /** The sorted list is ascending. */
  lemma {:induction false} SortByPriceOrdered(s: seq<TripOption>)
    ensures SortedByPrice(SortByPrice(s))
  {
    if s != [] {
      SortByPriceOrdered(s[..|s| - 1]);
      InsertSorted(SortByPrice(s[..|s| - 1]), s[|s| - 1]);
    }
  }

  /** The sorted list is a permutation of its input. */
  lemma {:induction false} SortByPricePermutes(s: seq<TripOption>)
    ensures multiset(SortByPrice(s)) == multiset(s)
  {
    if s != [] {
      var init, last := s[..|s| - 1], s[|s| - 1];
      SortByPricePermutes(init);
      InsertPermutes(SortByPrice(init), last);
      assert s == init + [last];
    }
  }

  /** The sort is stable: the options of each price keep their input order. */
  lemma {:induction false} SortByPriceStable(s: seq<TripOption>, p: int)
    ensures WithPrice(SortByPrice(s), p) == WithPrice(s, p)
  {
    if s != [] {
      SortByPriceStable(s[..|s| - 1], p);
      InsertWithPrice(SortByPrice(s[..|s| - 1]), s[|s| - 1], p);
    }
  }

  /** The sorted list is ascending, a permutation of its input, and keeps equal prices in input order. */
  lemma SortByPriceFacts(s: seq<TripOption>)
    ensures SortedByPrice(SortByPrice(s))
    ensures multiset(SortByPrice(s)) == multiset(s)
    ensures |SortByPrice(s)| == |s|
    ensures forall p :: WithPrice(SortByPrice(s), p) == WithPrice(s, p)
  {
    SortByPriceOrdered(s);
    SortByPricePermutes(s);
    assert |multiset(SortByPrice(s))| == |multiset(s)|;
    forall p ensures WithPrice(SortByPrice(s), p) == WithPrice(s, p) {
      SortByPriceStable(s, p);
    }
  }

  /** A list already in ascending order is left as it is. */
  lemma {:induction false} SortByPriceSorted(s: seq<TripOption>)
    requires SortedByPrice(s)
    ensures SortByPrice(s) == s
  {
    if s != [] {
      var init, last := s[..|s| - 1], s[|s| - 1];
      assert SortedByPrice(init) by {
        forall i, j | 0 <= i < j < |init| ensures init[i].totalPrice <= init[j].totalPrice {
          assert init[i] == s[i] && init[j] == s[j];
        }
      }
      SortByPriceSorted(init);
      if init != [] {
        assert init[|init| - 1] == s[|s| - 2];
      }
      assert Insert(init, last) == init + [last];
      assert s == init + [last];
    }
  }

  /** After the sort, the first option is a cheapest one: its price is `priceFrom`. */
  lemma CheapestFirst(s: seq<TripOption>)
    requires |s| > 0
    ensures |SortByPrice(s)| == |s|
    ensures SortByPrice(s)[0].totalPrice == PriceFrom(s)
  {
    SortByPriceFacts(s);
    var r := SortByPrice(s);
    assert r[0] in multiset(s);
    var i :| 0 <= i < |s| && s[i].totalPrice == PriceFrom(s);
    assert s[i] in multiset(r);
    var j :| 0 <= j < |r| && r[j] == s[i];
  }

  lemma PermutationSameMembers(a: seq<TripOption>, b: seq<TripOption>)
    requires multiset(a) == multiset(b)
    ensures forall x :: x in a <==> x in b
  {
    forall x ensures x in a <==> x in b {
      assert x in a <==> x in multiset(a);
      assert x in b <==> x in multiset(b);
    }
  }

  /** Lists with the same members have the same least price. */
  lemma SameMembersSamePrice(a: seq<TripOption>, b: seq<TripOption>)
    requires |a| > 0 && |b| > 0
    requires forall x :: x in a <==> x in b
    ensures PriceFrom(a) == PriceFrom(b)
  {
    var i :| 0 <= i < |a| && a[i].totalPrice == PriceFrom(a);
    var j :| 0 <= j < |b| && b[j].totalPrice == PriceFrom(b);
    assert a[i] in b;
    assert b[j] in a;
  }

  /** Lists with the same members show the same stops badge. */
  lemma SameMembersSameBadge(a: seq<TripOption>, b: seq<TripOption>, includeStops: bool)
    requires forall x :: x in a <==> x in b
    ensures ShowStopsBadge(includeStops, a) == ShowStopsBadge(includeStops, b)
  {
    if exists k :: 0 <= k < |a| && HasStops(a[k]) {
      var k :| 0 <= k < |a| && HasStops(a[k]);
      assert a[k] in b;
    }
    if exists k :: 0 <= k < |b| && HasStops(b[k]) {
      var k :| 0 <= k < |b| && HasStops(b[k]);
      assert b[k] in a;
    }
  }

  /**
   * The sort reorders the array the component received, so a later render
   * sees the sorted list; `priceFrom` and the stops badge come out the same.
   */
  lemma RerenderAfterSort(s: seq<TripOption>, includeStops: bool)
    requires |s| > 0
    ensures |SortByPrice(s)| > 0
    ensures PriceFrom(SortByPrice(s)) == PriceFrom(s)
    ensures ShowStopsBadge(includeStops, SortByPrice(s)) == ShowStopsBadge(includeStops, s)
  {
    SortByPriceFacts(s);
    PermutationSameMembers(s, SortByPrice(s));
    SameMembersSamePrice(s, SortByPrice(s));
    SameMembersSameBadge(s, SortByPrice(s), includeStops);
  }

  /** One step of the insertion sort: moves `a[i]` left past every larger price in the sorted prefix. */
  method InsertAt(a: array<TripOption>, i: nat)
    requires i < a.Length
    modifies a
    ensures a[..] == Insert(old(a[..i]), old(a[i])) + old(a[i + 1..])
  {
    ghost var sorted := a[..i];
    ghost var rest := a[i + 1..];
    var x := a[i];
    var j := i;
    assert sorted[..j] == sorted && sorted[j..] == [];
    assert a[..] == sorted[..j] + [x] + sorted[j..] + rest;
    while j > 0 && a[j - 1].totalPrice > x.totalPrice
      invariant 0 <= j <= i
      invariant a[..] == sorted[..j] + [x] + sorted[j..] + rest
      invariant Insert(sorted, x) == Insert(sorted[..j], x) + sorted[j..]
    {
      InsertShift(sorted, j, x);
      SwapBack(sorted, j, x, rest);
      ghost var before := a[..];
      a[j - 1], a[j] := x, a[j - 1];
      assert a[..] == before[j - 1 := x][j := sorted[j - 1]];
      j := j - 1;
    }
    InsertStop(sorted, j, x);
  }

  lemma InsertShift(sorted: seq<TripOption>, j: nat, x: TripOption)
    requires 0 < j <= |sorted| && sorted[j - 1].totalPrice > x.totalPrice
    ensures Insert(sorted[..j], x) + sorted[j..] == Insert(sorted[..j - 1], x) + sorted[j - 1..]
  {
    assert sorted[..j][..j - 1] == sorted[..j - 1];
    assert sorted[j - 1..] == [sorted[j - 1]] + sorted[j..];
  }

  /** Swapping `x` with its left neighbour moves it one place towards the front. */
  lemma SwapBack(sorted: seq<TripOption>, j: nat, x: TripOption, rest: seq<TripOption>)
    requires 0 < j <= |sorted|
    ensures (sorted[..j] + [x] + sorted[j..] + rest)[j - 1 := x][j := sorted[j - 1]]
            == sorted[..j - 1] + [x] + sorted[j - 1..] + rest
  {
    var l := (sorted[..j] + [x] + sorted[j..] + rest)[j - 1 := x][j := sorted[j - 1]];
    var r := sorted[..j - 1] + [x] + sorted[j - 1..] + rest;
    assert |l| == |r|;
    forall k | 0 <= k < |r|
      ensures l[k] == r[k]
    {
      if k > j && k <= |sorted| {
        assert r[k] == sorted[k - 1];
      }
    }
  }

  lemma InsertStop(sorted: seq<TripOption>, j: nat, x: TripOption)
    requires j <= |sorted| && (j == 0 || sorted[j - 1].totalPrice <= x.totalPrice)
    ensures Insert(sorted[..j], x) == sorted[..j] + [x]
  {
  }

  lemma SplitAt(s: seq<TripOption>, t: seq<TripOption>)
    requires |t| > 0
    ensures (s + t)[..|s|] == s && (s + t)[|s|] == t[0] && (s + t)[|s| + 1..] == t[1..]
  {
  }

  /** Sorting one more element of the input inserts it into the sorted prefix. */
  lemma SortStep(input: seq<TripOption>, i: nat)
    requires i < |input|
    ensures SortByPrice(input[..i + 1]) == Insert(SortByPrice(input[..i]), input[i])
    ensures input[i..][0] == input[i] && input[i..][1..] == input[i + 1..]
  {
    assert input[..i + 1][..i] == input[..i];
  }

  /** `options.sort(...)` on the options array: an insertion sort that leaves the array as `SortByPrice`. */
  method SortOptions(a: array<TripOption>)
    modifies a
    ensures a[..] == SortByPrice(old(a[..]))
  {
    ghost var input := a[..];
    var i := 0;
    while i < a.Length
      invariant 0 <= i <= a.Length
      invariant a[..] == SortByPrice(input[..i]) + input[i..]
    {
      ghost var done := SortByPrice(input[..i]);
      SortByPriceFacts(input[..i]);
      SplitAt(done, input[i..]);
      InsertAt(a, i);
      SortStep(input, i);
      i := i + 1;
    }
    assert input[..a.Length] == input;
  }

  // ---------------------------------------------------------------------------
  // Rendering the header

  /** The header: "from" price, stops badge, distance and travel time of the first option. */
  datatype HeaderView = HeaderView(priceFrom: int, stopsBadge: bool, distanceKm: int, travelTime: string)

  /**
   * One render of the component: `priceFrom` and `stopsAvailable` are
   * computed from the options as received, then the array is sorted in
   * place, and the header reads `options[0]`, which by then is a cheapest
   * option.
   */
  method RenderHeader(options: array<TripOption>, includeStops: bool) returns (header: HeaderView)
    requires options.Length > 0
    modifies options
    ensures options[..] == SortByPrice(old(options[..]))
    ensures header.priceFrom == PriceFrom(old(options[..]))
    ensures header.stopsBadge == ShowStopsBadge(includeStops, old(options[..]))
    ensures header.priceFrom == options[0].totalPrice
    ensures header.distanceKm == options[0].distanceKm
    ensures header.travelTime == TimeUtils.DurationText(options[0].travelTimeMinutes)
  {
    var priceFrom := PriceFrom(options[..]);
    var stopsAvailable := StopsAvailable(options[..]);
    ghost var before := options[..];
    SortOptions(options);
    CheapestFirst(before);
    var travelTime := TimeUtils.ConvertMinutes(options[0].travelTimeMinutes);
    header := HeaderView(priceFrom, includeStops && stopsAvailable.Some?, options[0].distanceKm, travelTime);
  }

  // ---------------------------------------------------------------------------
  // selectedOption

  /** `selectedOption?.id === id`: identity is by id. */
  predicate IsSelected(selected: Option<TripOption>, option: TripOption) {
    selected.Some? && selected.value.id == option.id
  }

  /** The button's onClick: clear when this option is selected, otherwise select it. */
  function Toggle(selected: Option<TripOption>, option: TripOption): (r: Option<TripOption>)
    ensures r == None || r == Some(option)
    ensures IsSelected(r, option) <==> !IsSelected(selected, option)
  {
    if IsSelected(selected, option) then None else Some(option)
  }

  /** Two clicks on the same button: back to nothing selected, or to that option if it was selected. */
  lemma ToggleTwice(selected: Option<TripOption>, option: TripOption)
    ensures Toggle(Toggle(selected, option), option) == if IsSelected(selected, option) then Some(option) else None
  {
  }

  /** Clicking another option's button replaces the selection: the earlier one is no longer selected. */
  lemma SelectReplaces(selected: Option<TripOption>, option: TripOption, other: TripOption)
    requires IsSelected(selected, other) && other.id != option.id
    ensures Toggle(selected, option) == Some(option)
    ensures !IsSelected(Toggle(selected, option), other)
  {
  }

  /** When the options' ids are distinct, at most one card is selected. */
  lemma AtMostOneSelected(selected: Option<TripOption>, options: seq<TripOption>)
    requires forall i, j :: 0 <= i < j < |options| ==> options[i].id != options[j].id
    ensures forall i, j ::
              0 <= i < |options| && 0 <= j < |options| &&
              IsSelected(selected, options[i]) && IsSelected(selected, options[j])
              ==> i == j
  {
  }

  /** A card as rendered: selected, dimmed (another one is selected), and its button text. */
  datatype CardView = CardView(selected: bool, dimmed: bool, buttonText: string)

  function Card(selected: Option<TripOption>, option: TripOption): (c: CardView)
    ensures c.selected <==> IsSelected(selected, option)
    ensures c.dimmed <==> selected.Some? && !c.selected
    ensures c.buttonText == (if c.selected then "Clear selection" else "Select")
  {
    var isSelected := IsSelected(selected, option);
    CardView(isSelected, selected.Some? && !isSelected, if isSelected then "Clear selection" else "Select")
  }

  /** The `selectedOption` state cell. */
  class Selection {
    var selected: Option<TripOption>

    /** `useState(null)`. */
    constructor ()
      ensures selected == None
    {
      selected := None;
    }

    /** A click on an option's button. */
    method Click(option: TripOption)
      modifies this
      ensures selected == Toggle(old(selected), option)
    {
      if selected.Some? && selected.value.id == option.id {
        selected := None;
      } else {
        selected := Some(option);
      }
    }

    /** The effect on `isLoading`: a new search clears the selection, the end of loading keeps it. */
    method LoadingChanged(isLoading: bool)
      modifies this
      ensures isLoading ==> selected == None
      ensures !isLoading ==> selected == old(selected)
    {
      if isLoading {
        selected := None;
      }
    }
  }
}

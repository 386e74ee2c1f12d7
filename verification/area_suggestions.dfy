/**
 * The area suggestion matcher: the body of the effect that recomputes
 * `areaSuggestions` from the selected city's areas and the typed area text.
 */
module AreaSuggestions {
  import opened Text
  import opened AreaDirectory

  /** The filter's test: `area.toLowerCase().includes(input.toLowerCase())`. */
  predicate Matches(area: string, input: string): (r: bool)
    ensures r <==> ContainsIgnoringCase(area, input)
  {
    IncludesIff(Lower(area), Lower(input));
    Includes(Lower(area), Lower(input))
  }

  /** `area` contains `input` as a substring, ignoring the case of ASCII letters. */
  ghost predicate ContainsIgnoringCase(area: string, input: string) {
    exists i: nat :: OccursAt(Lower(area), Lower(input), i)
  }

  /** `r` is `s` with some elements left out, the rest kept in their order. */
  predicate IsSubsequence<T(==)>(r: seq<T>, s: seq<T>)
    decreases |s|
  {
    r == [] || (s != [] && ((r[0] == s[0] && IsSubsequence(r[1..], s[1..])) || IsSubsequence(r, s[1..])))
  }

  /** A subsequence is never longer than the sequence it is taken from. */
  lemma {:induction false} SubsequenceLength<T>(r: seq<T>, s: seq<T>)
    requires IsSubsequence(r, s)
    ensures |r| <= |s|
    decreases |s|
  {
    if r != [] {
      if r[0] == s[0] && IsSubsequence(r[1..], s[1..]) {
        SubsequenceLength(r[1..], s[1..]);
      } else {
        SubsequenceLength(r, s[1..]);
      }
    }
  }

  /** A subsequence holds each value at most as often as the sequence it is taken from. */
  lemma {:induction false} SubsequenceMultiset<T>(r: seq<T>, s: seq<T>)
    requires IsSubsequence(r, s)
    ensures multiset(r) <= multiset(s)
    decreases |s|
  {
    if r != [] {
      assert s == [s[0]] + s[1..];
      if r[0] == s[0] && IsSubsequence(r[1..], s[1..]) {
        SubsequenceMultiset(r[1..], s[1..]);
        assert r == [r[0]] + r[1..];
      } else {
        SubsequenceMultiset(r, s[1..]);
      }
    }
  }

  /** `areas.filter(area => Matches(area, input))`: the matching areas in directory order. */
  function FilterMatching(areas: seq<string>, input: string): (r: seq<string>)
    ensures IsSubsequence(r, areas)
    ensures forall x :: multiset(r)[x] == if Matches(x, input) then multiset(areas)[x] else 0
  {
    if areas == [] then []
    else
      var rest := FilterMatching(areas[1..], input);
      assert areas == [areas[0]] + areas[1..];
      if Matches(areas[0], input) then [areas[0]] + rest else rest
  }

  /**
   * The filter is the only subsequence of `areas` that keeps every matching
   * occurrence and no other: order and multiplicity are both determined.
   */
  lemma {:induction false} FilterUnique(areas: seq<string>, input: string, r: seq<string>)
    requires IsSubsequence(r, areas)
    requires forall x :: multiset(r)[x] == if Matches(x, input) then multiset(areas)[x] else 0
    ensures r == FilterMatching(areas, input)
    decreases |areas|
  {
    if areas != [] {
      var a, rest := areas[0], areas[1..];
      assert areas == [a] + rest;
      if Matches(a, input) {
        assert multiset(r)[a] == multiset(rest)[a] + 1;
        if r[0] == a && IsSubsequence(r[1..], rest) {
          assert r == [a] + r[1..];
          forall x ensures multiset(r[1..])[x] == if Matches(x, input) then multiset(rest)[x] else 0 {
            assert multiset(r)[x] == multiset(r[1..])[x] + (if x == a then 1 else 0);
          }
          FilterUnique(rest, input, r[1..]);
        } else {
          SubsequenceMultiset(r, rest);
          assert false;
        }
      } else {
        assert a !in multiset(r);
        if r != [] {
          assert r[0] in multiset(r);
        }
        assert IsSubsequence(r, rest);
        FilterUnique(rest, input, r);
      }
    }
  }

  /**
   * The effect's result: nothing while the city or the area text is empty;
   * otherwise the selected city's areas that contain the text, ignoring case,
   * in directory order.
   */
  function Suggest(directory: Directory, city: string, areaInput: string): (r: seq<string>)
    ensures city == "" || areaInput == "" ==> r == []
    ensures IsSubsequence(r, SelectedCityAreas(directory, city))
    ensures |r| <= |SelectedCityAreas(directory, city)|
    ensures city != "" && areaInput != "" ==>
      forall x :: x in r <==> x in SelectedCityAreas(directory, city) && ContainsIgnoringCase(x, areaInput)
    ensures city != "" && areaInput != "" ==>
      forall x :: multiset(r)[x] ==
        if ContainsIgnoringCase(x, areaInput) then multiset(SelectedCityAreas(directory, city))[x] else 0
  {
    var areas := SelectedCityAreas(directory, city);
    var r := if city != "" && areaInput != "" then FilterMatching(areas, areaInput) else [];
    SubsequenceLength(r, areas);
    assert forall x :: x in r <==> multiset(r)[x] > 0;
    assert forall x :: x in areas <==> multiset(areas)[x] > 0;
    r
  }

  /** A nonempty area offered for some text is offered again once that area itself is the text. */
  lemma SuggestedAreaSuggestsItself(directory: Directory, city: string, input: string, area: string)
    requires area in Suggest(directory, city, input)
    ensures area in Suggest(directory, city, area)
  {
    IncludesSelf(Lower(area));
    assert area != "";
  }

  /** "DHA" does not contain "gul". */
  lemma DhaDoesNotMatchGul()
    ensures !Matches("DHA", "gul")
  {
    assert Lower("gul") == "gul";
    assert Lower("DHA") == "dha";
    assert "dha"[1..] == "ha" && "ha"[1..] == "a" && "a"[1..] == [];
    assert !Includes([], "gul") && !Includes("a", "gul") && !Includes("ha", "gul");
    assert "dha"[..3] != "gul" by { assert "dha"[..3][0] == 'd'; }
  }

  /** "Gulberg" and "Gulshan" contain "gul", ignoring case. */
  lemma GulAreasMatchGul()
    ensures Matches("Gulberg", "gul") && Matches("Gulshan", "gul")
  {
  }

  /** Filtering the Lahore areas by "gul" keeps Gulberg and Gulshan. */
  lemma FilterExample()
    ensures FilterMatching(["Gulberg", "DHA", "Gulshan"], "gul") == ["Gulberg", "Gulshan"]
  {
    var areas := ["Gulberg", "DHA", "Gulshan"];
    GulAreasMatchGul();
    DhaDoesNotMatchGul();
    assert FilterMatching(areas[2..], "gul") == ["Gulshan"];
    assert FilterMatching(areas[1..], "gul") == ["Gulshan"];
  }

  /** Typing "gul" for Lahore offers Gulberg and Gulshan, in directory order. */
  lemma SuggestExample()
    ensures Suggest([AreaEntry("Lahore", ["Gulberg", "DHA", "Gulshan"])], "Lahore", "gul") == ["Gulberg", "Gulshan"]
  {
    var areas := ["Gulberg", "DHA", "Gulshan"];
    assert IsFirstEntryFor([AreaEntry("Lahore", areas)], "Lahore", 0);
    FilterExample();
  }
}

/** The product filter: the catalog narrowed by a free-text search over name
    and description and by a selected category, in catalog order. Lower-casing
    is ASCII lower-casing of `A`..`Z`. */
module Search {
  import opened Types

  /** The category selection that turns the category filter off. */
  const AllCategories: string := "Todos"

  function LowerChar(c: char): (r: char)
    ensures 'A' <= c <= 'Z' ==> 'a' <= r <= 'z' && r as int - c as int == 32
    ensures !('A' <= c <= 'Z') ==> r == c
  {
    if 'A' <= c <= 'Z' then (c as int + 32) as char else c
  }

  /** `toLowerCase`, character by character. */
  function Lower(s: string): (r: string)
    ensures |r| == |s|
    ensures forall i :: 0 <= i < |s| ==> r[i] == LowerChar(s[i])
  {
    if s == [] then [] else [LowerChar(s[0])] + Lower(s[1..])
  }

  /** Lower-casing twice is lower-casing once. */
  lemma LowerIdempotent(s: string)
    ensures Lower(Lower(s)) == Lower(s)
  {
    var once := Lower(s);
    var twice := Lower(once);
    forall i | 0 <= i < |s| ensures twice[i] == once[i] {
      assert once[i] == LowerChar(s[i]);
    }
  }

  /** `needle` occurs in `hay` starting at position `i`. */
  ghost predicate OccursAt(hay: string, needle: string, i: int) {
    0 <= i && i + |needle| <= |hay| && hay[i..i + |needle|] == needle
  }

  /** `needle` is a substring of `hay`. */
  ghost predicate Substring(needle: string, hay: string) {
    exists i :: OccursAt(hay, needle, i)
  }

  /** `String.prototype.includes`: scans `hay` for a position where `needle` starts. */
  function Includes(hay: string, needle: string): (r: bool)
    ensures r <==> Substring(needle, hay)
    decreases |hay|
  {
    if |needle| <= |hay| && hay[..|needle|] == needle then
      assert OccursAt(hay, needle, 0);
      true
    else if hay == [] then
      false
    else
      var r := Includes(hay[1..], needle);
      ShiftOccurrence(hay, needle);
      r
  }

  /** Away from position 0, the occurrences in `hay` are those in its tail, shifted by one. */
  lemma ShiftOccurrence(hay: string, needle: string)
    requires hay != []
    requires !OccursAt(hay, needle, 0)
    ensures Substring(needle, hay) <==> Substring(needle, hay[1..])
  {
    if Substring(needle, hay) {
      var i :| OccursAt(hay, needle, i);
      assert hay[1..][i - 1..i - 1 + |needle|] == hay[i..i + |needle|];
      assert OccursAt(hay[1..], needle, i - 1);
    }
    if Substring(needle, hay[1..]) {
      var i :| OccursAt(hay[1..], needle, i);
      assert hay[i + 1..i + 1 + |needle|] == hay[1..][i..i + |needle|];
      assert OccursAt(hay, needle, i + 1);
    }
  }

  /** The search test of the filter: the lower-cased term occurs in the
      lower-cased name or in the lower-cased description. */
  function MatchesSearch(p: Product, term: string): (r: bool)
    ensures r <==> Substring(Lower(term), Lower(p.name)) || Substring(Lower(term), Lower(p.description))
  {
    Includes(Lower(p.name), Lower(term)) || Includes(Lower(p.description), Lower(term))
  }

  /** The visibility rule, stated without the scan: the term is empty or a
      substring of the name or description up to case, and the category filter
      is off or names the product's category. */
  ghost predicate Visible(p: Product, term: string, category: string) {
    && (term == [] || Substring(Lower(term), Lower(p.name)) || Substring(Lower(term), Lower(p.description)))
    && (category == AllCategories || p.category == category)
  }

  /** The first `.filter` pass: the products matching the search term. */
  function FilterBySearch(products: seq<Product>, term: string): (r: seq<Product>)
    ensures IsSubsequence(r, products)
    ensures forall p :: p in r <==> p in products && MatchesSearch(p, term)
    ensures forall p :: multiset(r)[p] == if MatchesSearch(p, term) then multiset(products)[p] else 0
  {
    if products == [] then []
    else
      var rest := FilterBySearch(products[1..], term);
      assert multiset(products) == multiset{products[0]} + multiset(products[1..]) by {
        assert products == [products[0]] + products[1..];
      }
      if MatchesSearch(products[0], term) then [products[0]] + rest
      else
        assert products[1..] == [] || IsSubsequence(rest, products[1..]);
        rest
  }

  /** The second `.filter` pass: the products of one category. */
  function FilterByCategory(products: seq<Product>, category: string): (r: seq<Product>)
    ensures IsSubsequence(r, products)
    ensures forall p :: p in r <==> p in products && p.category == category
    ensures forall p :: multiset(r)[p] == if p.category == category then multiset(products)[p] else 0
  {
    if products == [] then []
    else
      var rest := FilterByCategory(products[1..], category);
      assert multiset(products) == multiset{products[0]} + multiset(products[1..]) by {
        assert products == [products[0]] + products[1..];
      }
      if products[0].category == category then [products[0]] + rest
      else rest
  }

  /** The filter effect: the search pass when the term is non-empty, then the
      category pass when the selection is not `AllCategories`. */
  function FilterProducts(products: seq<Product>, term: string, category: string): (r: seq<Product>)
    ensures IsSubsequence(r, products)
    ensures forall p :: p in r <==> p in products && Visible(p, term, category)
    ensures forall p :: multiset(r)[p] == if Visible(p, term, category) then multiset(products)[p] else 0
  {
    var bySearch := if term != [] then FilterBySearch(products, term) else products;
    SubsequenceReflexive(products);
    var r := if category != AllCategories then FilterByCategory(bySearch, category) else bySearch;
    SubsequenceReflexive(bySearch);
    SubsequenceTransitive(r, bySearch, products);
    r
  }

  /** Every string includes the empty one, so the search pass with an empty
      term keeps the whole catalog: skipping it changes nothing. */
  lemma {:induction false} EmptyTermKeepsAll(products: seq<Product>)
    ensures FilterBySearch(products, []) == products
    decreases |products|
  {
    if products != [] {
      var p := products[0];
      assert Lower([]) == [];
      assert Lower(p.name)[..0] == [];
      EmptyTermKeepsAll(products[1..]);
    }
  }

  /** The search ignores the case of the term. */
  lemma SearchIgnoresCase(p: Product, term: string)
    ensures MatchesSearch(p, Lower(term)) == MatchesSearch(p, term)
  {
    LowerIdempotent(term);
  }

  lemma LowerVitamina()
    ensures Lower("VITAMINA") == "vitamina"
  {
    var l := Lower("VITAMINA");
    assert l[0] == 'v' && l[1] == 'i' && l[2] == 't' && l[3] == 'a';
    assert l[4] == 'm' && l[5] == 'i' && l[6] == 'n' && l[7] == 'a';
  }

  lemma LowerVitaminaName(name: string)
    requires name == "Vitamina D3 2000UI"
    ensures Lower(name)[..8] == "vitamina"
  {
    var l := Lower(name);
    assert l[0] == 'v' && l[1] == 'i' && l[2] == 't' && l[3] == 'a';
    assert l[4] == 'm' && l[5] == 'i' && l[6] == 'n' && l[7] == 'a';
  }

  /** "VITAMINA" matches the vitamin product of the catalog, whatever the case. */
  lemma VitaminaMatches(p: Product)
    requires p.name == "Vitamina D3 2000UI"
    ensures MatchesSearch(p, "VITAMINA")
  {
    LowerVitamina();
    LowerVitaminaName(p.name);
    assert OccursAt(Lower(p.name), "vitamina", 0);
  }

  /** Searching "VITAMINA" finds the vitamin product under its own category
      and under `AllCategories`, and nothing under another category. */
  lemma CategoryNarrowsSearch(p: Product)
    requires p.name == "Vitamina D3 2000UI"
    requires p.category == "Vitaminas"
    ensures FilterProducts([p], "VITAMINA", "Vitaminas") == [p]
    ensures FilterProducts([p], "VITAMINA", AllCategories) == [p]
    ensures FilterProducts([p], "VITAMINA", "Digestivos") == []
  {
    VitaminaMatches(p);
    var own := FilterProducts([p], "VITAMINA", "Vitaminas");
    var all := FilterProducts([p], "VITAMINA", AllCategories);
    assert p in own && p in all;
    assert own == [own[0]] && all == [all[0]];
  }
}

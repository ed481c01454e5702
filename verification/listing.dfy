/** The listing filter run on each fetched catalogue page: from the page's embedded
    `ItemList` JSON keep the entries typed "Recipe", in order, and extract each. */
module Listing {
  import opened Py
  import opened JsonValue
  import opened Recipes

  /** An entry whose `element.get("@type")` is the string "Recipe". */
  predicate Tagged(x: Json) {
    x.Obj? && Get(x.fields, "@type") == Some(Str("Recipe"))
  }

  /** An entry the loop gets past: a dict, and if tagged, one whose extraction succeeds. */
  predicate Passes(x: Json) {
    x.Obj? && (Tagged(x) ==> ParseRecipe(x).Ok?)
  }

  /** An entry at which the loop stops with `e`: a non-dict (`AttributeError`), or a
      tagged entry whose extraction raises `e`. */
  predicate FailsWith(x: Json, e: Exc) {
    (!x.Obj? && e == AttributeError) || (Tagged(x) && ParseRecipe(x) == Raised(e))
  }

  /** The reference selection: the entries tagged "Recipe", in their listing order. */
  function RecipeEntries(items: seq<Json>): (rs: seq<Json>)
    ensures |rs| <= |items|
    ensures forall x :: x in rs ==> Tagged(x) && x in items
    ensures forall i :: 0 <= i < |items| && Tagged(items[i]) ==> items[i] in rs
  {
    if |items| == 0 then []
    else if Tagged(items[0]) then [items[0]] + RecipeEntries(items[1..])
    else RecipeEntries(items[1..])
  }

  /** The loop over `itemListElement`.  It visits the entries in order: a non-dict entry
      has no `.get` and raises `AttributeError`, an entry not tagged "Recipe" is skipped,
      and a tagged one is extracted, its exception escaping and its recipe appended when
      there is one.  It succeeds exactly when every entry is a dict and every tagged
      entry extracts. */
  function FilterEntries(items: seq<Json>): (r: Result<seq<Recipe>>)
    ensures r.Ok? <==> forall i :: 0 <= i < |items| ==> Passes(items[i])
  {
    if |items| == 0 then Ok([])
    else if !items[0].Obj? then Raised(AttributeError)
    else if !Tagged(items[0]) then
      var rest :- FilterEntries(items[1..]);
      assert forall i :: 1 <= i < |items| ==> items[i] == items[1..][i - 1];
      Ok(rest)
    else
      var parsed :- ParseRecipe(items[0]);
      var rest :- FilterEntries(items[1..]);
      assert forall i :: 1 <= i < |items| ==> items[i] == items[1..][i - 1];
      Ok(if parsed.Some? then [parsed.value] + rest else rest)
  }

  /** A successful loop is the extraction of the reference selection, entry by entry:
      one recipe per entry tagged "Recipe" (the extraction of a dict is never `None`),
      in listing order. */
  lemma {:induction false} FilterExtractsSelection(items: seq<Json>)
    requires FilterEntries(items).Ok?
    ensures var rs := FilterEntries(items).value;
            && |rs| == |RecipeEntries(items)|
            && forall k :: 0 <= k < |rs| ==> ParseRecipe(RecipeEntries(items)[k]) == Ok(Some(rs[k]))
  {
    if |items| > 0 {
      var tail := items[1..];
      assert FilterEntries(tail).Ok?;
      FilterExtractsSelection(tail);
      var rs, rs' := FilterEntries(items).value, FilterEntries(tail).value;
      if Tagged(items[0]) {
        var parsed := ParseRecipe(items[0]);
        assert parsed.Ok? && parsed.value.Some?;
        assert rs == [parsed.value.value] + rs';
        assert RecipeEntries(items) == [items[0]] + RecipeEntries(tail);
        forall k | 0 <= k < |rs|
          ensures ParseRecipe(RecipeEntries(items)[k]) == Ok(Some(rs[k]))
        {
          if k > 0 {
            assert RecipeEntries(items)[k] == RecipeEntries(tail)[k - 1] && rs[k] == rs'[k - 1];
          }
        }
      } else {
        assert rs == rs' && RecipeEntries(items) == RecipeEntries(tail);
      }
    }
  }

  /** The error of the loop is the error of the first entry that fails: every earlier
      entry passed, and this one is a non-dict (`AttributeError`) or a tagged entry
      whose extraction raised that very exception. */
  lemma {:induction false} FilterRaisesAtFirstFailure(items: seq<Json>)
    requires FilterEntries(items).Raised?
    ensures exists i :: && 0 <= i < |items|
                        && (forall j :: 0 <= j < i ==> Passes(items[j]))
                        && FailsWith(items[i], FilterEntries(items).exc)
  {
    var e := FilterEntries(items).exc;
    if !Passes(items[0]) {
      assert FailsWith(items[0], e);
    } else {
      assert FilterEntries(items[1..]) == Raised(e);
      FilterRaisesAtFirstFailure(items[1..]);
      var i :| && 0 <= i < |items[1..]|
                && (forall j :: 0 <= j < i ==> Passes(items[1..][j]))
                && FailsWith(items[1..][i], e);
      assert items[1..][i] == items[i + 1];
      assert forall j :: 1 <= j < i + 1 ==> items[j] == items[1..][j - 1];
    }
  }

  /** `load_and_parse_page` after the fetch: a listing that is not a dict gives no
      recipes; a dict without "itemListElement" raises `KeyError`; a non-list entry list
      gives no recipes; otherwise the entries are filtered and extracted. */
  function FilterListing(listing: Json): (r: Result<seq<Recipe>>)
    ensures !listing.Obj? ==> r == Ok([])
    ensures listing.Obj? && Get(listing.fields, "itemListElement").None? ==>
              r == Raised(KeyError("itemListElement"))
    ensures (listing.Obj? && Get(listing.fields, "itemListElement").Some?
             && !Get(listing.fields, "itemListElement").value.Arr?) ==> r == Ok([])
    ensures (listing.Obj? && Get(listing.fields, "itemListElement").Some?
             && Get(listing.fields, "itemListElement").value.Arr?) ==>
              r == FilterEntries(Get(listing.fields, "itemListElement").value.items)
  {
    if !listing.Obj? then Ok([])
    else
      var entries :- Index(listing, "itemListElement");
      if !entries.Arr? then Ok([]) else FilterEntries(entries.items)
  }

  /** A page never yields more recipes than its listing has entries, and every recipe
      is the extraction of one of its entries tagged "Recipe". */
  lemma ListingBound(listing: Json)
    requires FilterListing(listing).Ok?
    ensures |FilterListing(listing).value| == 0 || (listing.Obj? && Get(listing.fields, "itemListElement").Some?)
    ensures (listing.Obj? && Get(listing.fields, "itemListElement").Some?
             && Get(listing.fields, "itemListElement").value.Arr?) ==>
              var items := Get(listing.fields, "itemListElement").value.items;
              && |FilterListing(listing).value| <= |items|
              && forall r :: r in FilterListing(listing).value ==>
                   exists x :: x in items && Tagged(x) && ParseRecipe(x) == Ok(Some(r))
  {
    if listing.Obj? && Get(listing.fields, "itemListElement").Some?
       && Get(listing.fields, "itemListElement").value.Arr? {
      var items := Get(listing.fields, "itemListElement").value.items;
      var rs := FilterListing(listing).value;
      FilterExtractsSelection(items);
      forall r | r in rs
        ensures exists x :: x in items && Tagged(x) && ParseRecipe(x) == Ok(Some(r))
      {
        var k :| 0 <= k < |rs| && rs[k] == r;
        var x := RecipeEntries(items)[k];
        assert x in RecipeEntries(items);
      }
    }
  }

  /** Entries that are not tagged "Recipe" change nothing: removing them from the
      listing leaves the result as it was, provided they are dicts. */
  lemma {:induction false} UntaggedIgnored(items: seq<Json>, x: Json)
    requires x.Obj? && !Tagged(x)
    ensures FilterEntries([x] + items) == FilterEntries(items)
  {
    assert ([x] + items)[1..] == items;
  }
}

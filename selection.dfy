/**
 * The comparison set of the results screen (src/components/Results.tsx): `handleProductSelect`
 * toggles a product in or out of `selectedProducts`, and each card's compare button shows
 * whether its product is in the set.
 */
module Selection {
  import opened Wrappers
  import opened Catalog
  import opened Seqs

  /** `prev.some(p => p._id === product._id)`; two missing ids are equal, as `undefined === undefined`. */
  predicate HasId(sel: seq<Product>, id: Option<string>)
  {
    exists i :: 0 <= i < |sel| && sel[i].id == id
  }

  /** `prev.filter(p => p._id !== product._id)`. */
  function WithoutId(sel: seq<Product>, id: Option<string>): (r: seq<Product>)
    ensures forall i :: 0 <= i < |r| ==> r[i].id != id
  {
    if sel == [] then []
    else (if sel[0].id == id then [] else [sel[0]]) + WithoutId(sel[1..], id)
  }

  /** Every entry with another id is kept, each as often as before; none with the id is. */
  lemma {:induction false} WithoutIdCounts(sel: seq<Product>, id: Option<string>, q: Product)
    ensures multiset(WithoutId(sel, id))[q] == if q.id == id then 0 else multiset(sel)[q]
  {
    if sel != [] {
      WithoutIdCounts(sel[1..], id, q);
      assert sel == [sel[0]] + sel[1..];
    }
  }

  /** `handleProductSelect(product)` as the state update it applies to `selectedProducts`: it flips whether the id is selected. */
  function Toggle(prev: seq<Product>, p: Product): (r: seq<Product>)
    ensures HasId(r, p.id) <==> !HasId(prev, p.id)
  {
    if HasId(prev, p.id) then WithoutId(prev, p.id)
    else
      assert (prev + [p])[|prev|] == p;
      prev + [p]
  }

  /** Filtering keeps the order: it distributes over concatenation. */
  lemma {:induction false} WithoutIdAppend(a: seq<Product>, b: seq<Product>, id: Option<string>)
    ensures WithoutId(a + b, id) == WithoutId(a, id) + WithoutId(b, id)
  {
    if a == [] {
      assert a + b == b;
    } else {
      var h := if a[0].id == id then [] else [a[0]];
      assert (a + b)[0] == a[0] && (a + b)[1..] == a[1..] + b;
      WithoutIdAppend(a[1..], b, id);
      ConcatAssoc(h, WithoutId(a[1..], id), WithoutId(b, id));
    }
  }

  /** Filtering out an id nobody has changes nothing. */
  lemma {:induction false} WithoutAbsentId(sel: seq<Product>, id: Option<string>)
    requires !HasId(sel, id)
    ensures WithoutId(sel, id) == sel
  {
    if sel != [] {
      assert !HasId(sel[1..], id) by {
        forall i | 0 <= i < |sel[1..]|
          ensures sel[1..][i].id != id
        {
          assert sel[1..][i] == sel[i + 1];
        }
      }
      WithoutAbsentId(sel[1..], id);
    }
  }

  /**
   * Toggling a selected product removes every entry with its id and keeps every other entry,
   * each as often as before; toggling an unselected one appends it at the end.
   */
  lemma ToggleEffect(prev: seq<Product>, p: Product)
    ensures HasId(prev, p.id) ==> !HasId(Toggle(prev, p), p.id)
    ensures HasId(prev, p.id) ==> forall q: Product :: q.id != p.id ==> multiset(Toggle(prev, p))[q] == multiset(prev)[q]
    ensures !HasId(prev, p.id) ==> Toggle(prev, p) == prev + [p]
  {
    forall q: Product | q.id != p.id
      ensures multiset(WithoutId(prev, p.id))[q] == multiset(prev)[q]
    {
      WithoutIdCounts(prev, p.id, q);
    }
  }

  /** Toggling an unselected product twice gives back the set it started from. */
  lemma ToggleTwiceRestores(prev: seq<Product>, p: Product)
    requires !HasId(prev, p.id)
    ensures Toggle(Toggle(prev, p), p) == prev
  {
    assert HasId(prev + [p], p.id) by {
      assert (prev + [p])[|prev|] == p;
    }
    WithoutIdAppend(prev, [p], p.id);
    WithoutAbsentId(prev, p.id);
    assert WithoutId([p], p.id) == [];
  }

  /** A card of the results screen: a catalog product, or a CD card built from a term and a rate alone. */
  datatype Card = CatalogCard(product: Product) | AdHocCD(termMonths: nat, rate: real)

  /** What a card's compare button hands to `handleProductSelect`: `product || { type: 'cd', termMonths, rate }`. */
  function CardProduct(c: Card): Product
  {
    match c
    case CatalogCard(p) => p
    case AdHocCD(termMonths, rate) => Product(None, CD, "", termMonths, rate, None, None)
  }

  /** The test behind a card's `isSelected`: the id for a catalog product, type, term and rate for an ad-hoc CD. */
  predicate Matches(q: Product, c: Card)
  {
    match c
    case CatalogCard(p) => q.id == p.id
    case AdHocCD(termMonths, rate) => q.kind == CD && q.termMonths == termMonths && q.rate == rate
  }

  /** `isSelected` of a card. For a catalog card it is the toggle's own test on the product's id. */
  predicate IsSelected(sel: seq<Product>, c: Card)
    ensures c.CatalogCard? ==> (IsSelected(sel, c) <==> HasId(sel, c.product.id))
  {
    exists i :: 0 <= i < |sel| && Matches(sel[i], c)
  }

  /** A card's own product matches the card. */
  lemma CardProductMatches(c: Card)
    ensures Matches(CardProduct(c), c)
  {
  }

  /**
   * As written, the toggle compares ids only. The ad-hoc CD cards have none, so with the
   * 12-month CD selected, pressing the 36-month CD's button deselects the 12-month CD and
   * leaves the 36-month CD unselected.
   */
  lemma AdHocToggleDropsOtherCD()
    ensures var sel := [CardProduct(AdHocCD(12, 0.04))];
      && IsSelected(sel, AdHocCD(12, 0.04))
      && !IsSelected(sel, AdHocCD(36, 0.045))
      && Toggle(sel, CardProduct(AdHocCD(36, 0.045))) == []
      && !IsSelected(Toggle(sel, CardProduct(AdHocCD(36, 0.045))), AdHocCD(36, 0.045))
  {
    var sel := [CardProduct(AdHocCD(12, 0.04))];
    assert sel[0].id == CardProduct(AdHocCD(36, 0.045)).id;
    assert IsSelected(sel, AdHocCD(12, 0.04)) by {
      assert Matches(sel[0], AdHocCD(12, 0.04));
    }
  }

  /** The entries that do not match the card, in order. */
  function WithoutMatches(sel: seq<Product>, c: Card): (r: seq<Product>)
    ensures forall i :: 0 <= i < |r| ==> !Matches(r[i], c)
  {
    if sel == [] then []
    else (if Matches(sel[0], c) then [] else [sel[0]]) + WithoutMatches(sel[1..], c)
  }

  lemma {:induction false} WithoutMatchesCounts(sel: seq<Product>, c: Card, q: Product)
    ensures multiset(WithoutMatches(sel, c))[q] == if Matches(q, c) then 0 else multiset(sel)[q]
  {
    if sel != [] {
      WithoutMatchesCounts(sel[1..], c, q);
      assert sel == [sel[0]] + sel[1..];
    }
  }

  /**
   * The toggle keyed by the test the button already shows: it removes exactly what makes the
   * card look selected, so pressing a card's button always flips the state that card shows.
   */
  function ToggleCard(sel: seq<Product>, c: Card): (r: seq<Product>)
    ensures IsSelected(r, c) <==> !IsSelected(sel, c)
  {
    if IsSelected(sel, c) then WithoutMatches(sel, c)
    else
      CardProductMatches(c);
      assert (sel + [CardProduct(c)])[|sel|] == CardProduct(c);
      sel + [CardProduct(c)]
  }

  /** Entries that do not match the card are kept, each as often as before. */
  lemma ToggleCardKeepsOthers(sel: seq<Product>, c: Card, q: Product)
    requires !Matches(q, c)
    ensures multiset(ToggleCard(sel, c))[q] == multiset(sel)[q]
  {
    if !IsSelected(sel, c) {
      CardProductMatches(c);
      assert CardProduct(c) != q;
    } else {
      WithoutMatchesCounts(sel, c, q);
    }
  }

  lemma {:induction false} WithoutMatchesAppend(a: seq<Product>, b: seq<Product>, c: Card)
    ensures WithoutMatches(a + b, c) == WithoutMatches(a, c) + WithoutMatches(b, c)
  {
    if a == [] {
      assert a + b == b;
    } else {
      var h := if Matches(a[0], c) then [] else [a[0]];
      assert (a + b)[0] == a[0] && (a + b)[1..] == a[1..] + b;
      WithoutMatchesAppend(a[1..], b, c);
      ConcatAssoc(h, WithoutMatches(a[1..], c), WithoutMatches(b, c));
    }
  }

  lemma {:induction false} WithoutNoMatches(sel: seq<Product>, c: Card)
    requires !IsSelected(sel, c)
    ensures WithoutMatches(sel, c) == sel
  {
    if sel != [] {
      assert !IsSelected(sel[1..], c) by {
        forall i | 0 <= i < |sel[1..]|
          ensures !Matches(sel[1..][i], c)
        {
          assert sel[1..][i] == sel[i + 1];
        }
      }
      WithoutNoMatches(sel[1..], c);
    }
  }

  /** Pressing an unselected card's button twice gives back the set it started from. */
  lemma ToggleCardTwiceRestores(sel: seq<Product>, c: Card)
    requires !IsSelected(sel, c)
    ensures ToggleCard(ToggleCard(sel, c), c) == sel
  {
    CardProductMatches(c);
    WithoutMatchesAppend(sel, [CardProduct(c)], c);
    WithoutNoMatches(sel, c);
    assert WithoutMatches([CardProduct(c)], c) == [];
  }

  lemma {:induction false} WithoutMatchesIsWithoutId(sel: seq<Product>, p: Product)
    ensures WithoutMatches(sel, CatalogCard(p)) == WithoutId(sel, p.id)
  {
    if sel != [] {
      WithoutMatchesIsWithoutId(sel[1..], p);
    }
  }

  /** For catalog cards the corrected toggle is the source's toggle: only the ad-hoc CD cards change. */
  lemma ToggleCardOnCatalog(sel: seq<Product>, p: Product)
    ensures ToggleCard(sel, CatalogCard(p)) == Toggle(sel, p)
  {
    WithoutMatchesIsWithoutId(sel, p);
  }
}

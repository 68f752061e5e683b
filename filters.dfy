/**
 * The recipe list filters `is_favorited` and `is_in_shopping_cart`
 * (backend/foodgram/filters.py). Both filter through a membership table
 * with a join, which yields a recipe once per matching row.
 */
module Filters {
  import opened Models
  import opened Serializers

  function Copies(x: Recipe, n: nat): seq<Recipe> {
    seq(n, _ => x)
  }

  /** `queryset.filter(<membership>__user=user)`: each recipe once per matching row, in queryset order. */
  function JoinMembership(qs: seq<Recipe>, rows: seq<Pair>, user: int): seq<Recipe> {
    if qs == [] then []
    else Copies(qs[0], Count(rows, (user, qs[0].id))) + JoinMembership(qs[1..], rows, user)
  }

  /** The recipes of `qs` the user has marked, each once, in queryset order. */
  function MarkedBy(qs: seq<Recipe>, rows: seq<Pair>, user: int): seq<Recipe> {
    if qs == [] then []
    else (if (user, qs[0].id) in rows then [qs[0]] else []) + MarkedBy(qs[1..], rows, user)
  }

  /** The join keeps exactly the recipes of the queryset that carry the user's mark. */
  lemma {:induction false} JoinMembershipMembers(qs: seq<Recipe>, rows: seq<Pair>, user: int)
    ensures forall x :: x in JoinMembership(qs, rows, user) <==> x in qs && (user, x.id) in rows
  {
    if qs != [] {
      JoinMembershipMembers(qs[1..], rows, user);
      CountPositive(rows, (user, qs[0].id));
      assert qs == [qs[0]] + qs[1..];
      var n := Count(rows, (user, qs[0].id));
      var head := Copies(qs[0], n);
      forall x ensures x in head <==> n > 0 && x == qs[0] {
        if n > 0 { assert head[0] == qs[0]; }
      }
    }
  }

  /** While the table has no repeated pair, the join lists every marked recipe once, in order. */
  lemma {:induction false} JoinWithoutDuplicates(qs: seq<Recipe>, rows: seq<Pair>, user: int)
    requires NoDuplicates(rows)
    ensures JoinMembership(qs, rows, user) == MarkedBy(qs, rows, user)
  {
    if qs != [] {
      JoinWithoutDuplicates(qs[1..], rows, user);
      CountWithoutDuplicates(rows, (user, qs[0].id));
      if (user, qs[0].id) in rows {
        assert Copies(qs[0], 1) == [qs[0]];
      } else {
        assert Copies(qs[0], 0) == [];
      }
    }
  }

  /**
   * The rule both filters follow: only a `true` value from an authenticated
   * caller filters, and then through the join with the membership table.
   */
  function FilterByMembership(qs: seq<Recipe>, value: bool, caller: Identity, rows: seq<Pair>): (r: seq<Recipe>)
    ensures !value || caller.Anonymous? ==> r == qs
    ensures forall x :: x in r ==> x in qs
    ensures value && caller.User? ==> forall x :: x in r <==> x in qs && IsMarked(rows, caller, x.id)
  {
    if value && caller.User? then
      JoinMembershipMembers(qs, rows, caller.id);
      JoinMembership(qs, rows, caller.id)
    else qs
  }

  /** `filter_is_favorited`: the rule over the favorites table. */
  function FilterIsFavorited(qs: seq<Recipe>, value: bool, caller: Identity, favorites: seq<Pair>): seq<Recipe> {
    FilterByMembership(qs, value, caller, favorites)
  }

  /** `filter_in_shopping_cart`: the rule over the shopping-cart table. */
  function FilterInShoppingCart(qs: seq<Recipe>, value: bool, caller: Identity, carts: seq<Pair>): seq<Recipe> {
    FilterByMembership(qs, value, caller, carts)
  }

  /**
   * The flags a listed recipe carries agree with the filters: an anonymous
   * caller sees both flags false, and for a signed-in caller a recipe of
   * the queryset survives `is_favorited=1` exactly when its `is_favorited`
   * flag is set, and `is_in_shopping_cart=1` exactly when that flag is.
   */
  lemma FlagsAgreeWithFilters(qs: seq<Recipe>, caller: Identity, favorites: seq<Pair>, carts: seq<Pair>, x: Recipe)
    ensures caller.Anonymous? ==> !IsMarked(favorites, caller, x.id) && !IsMarked(carts, caller, x.id)
    ensures caller.User? ==> (IsMarked(favorites, caller, x.id) <==> (caller.id, x.id) in favorites)
    ensures caller.User? ==> (IsMarked(carts, caller, x.id) <==> (caller.id, x.id) in carts)
    ensures caller.User? && x in qs ==>
      (x in FilterIsFavorited(qs, true, caller, favorites) <==> IsMarked(favorites, caller, x.id))
      && (x in FilterInShoppingCart(qs, true, caller, carts) <==> IsMarked(carts, caller, x.id))
  {
  }

  /** In a consistent store the favorites filter repeats no recipe and keeps the list order. */
  lemma FavoritedFilterKeepsOrder(db: Database, qs: seq<Recipe>, caller: Identity)
    requires db.Valid() && caller.User?
    ensures FilterIsFavorited(qs, true, caller, db.favorites) == MarkedBy(qs, db.favorites, caller.id)
    ensures FilterInShoppingCart(qs, true, caller, db.carts) == MarkedBy(qs, db.carts, caller.id)
  {
    JoinWithoutDuplicates(qs, db.favorites, caller.id);
    JoinWithoutDuplicates(qs, db.carts, caller.id);
  }
}

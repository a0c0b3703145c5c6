/**
 * The shopping list itself: `ShoppingItem` values, the list expressions the
 * screen's event handlers evaluate (`map` with `copy` for an edit,
 * `List.minus` for a delete, `plus` for an add) and the invariant the
 * handlers keep on item ids.
 */
module ShoppingItems {
  import opened QuantityText

  /** The data class constructed as `ShoppingItem(id, title, description, quantity)`. */
  datatype ShoppingItem = ShoppingItem(id: int, title: string, description: string, quantity: Int32)

  /**
   * `list.map { if (it.id == id) it.copy(title = ..., description = ...,
   * quantity = ...) else it }`: the list keeps its length, its order and every
   * id; items with the given id take the new fields, all others stay as they are.
   */
  function EditById(s: seq<ShoppingItem>, id: int, title: string, description: string, quantity: Int32)
    : (r: seq<ShoppingItem>)
    ensures |r| == |s|
    ensures forall i :: 0 <= i < |s| ==> r[i].id == s[i].id
    ensures forall i :: 0 <= i < |s| && s[i].id == id ==>
      r[i].title == title && r[i].description == description && r[i].quantity == quantity
    ensures forall i :: 0 <= i < |s| && s[i].id != id ==> r[i] == s[i]
  {
    if s == [] then []
    else
      var head := if s[0].id == id then s[0].(title := title, description := description, quantity := quantity) else s[0];
      [head] + EditById(s[1..], id, title, description, quantity)
  }

  /** The position of the first element equal to `x`. */
  function IndexOf(s: seq<ShoppingItem>, x: ShoppingItem): (k: nat)
    requires x in s
    ensures k < |s| && s[k] == x
    ensures x !in s[..k]
  {
    if s[0] == x then 0
    else
      var k := 1 + IndexOf(s[1..], x);
      assert s[..k] == [s[0]] + s[1..][..k - 1];
      k
  }

  /** Putting the head back in front of a tail with one position cut out. */
  lemma ConsDropped(s: seq<ShoppingItem>, k: nat)
    requires 0 < k < |s|
    ensures [s[0]] + (s[1..][..k - 1] + s[1..][k..]) == s[..k] + s[k + 1..]
  {
  }

  /**
   * Kotlin's `list - element` (`List.minus`): drops the first element equal
   * to `x`, keeping the order of the rest; a list without `x` is returned as it is.
   */
  function RemoveFirst(s: seq<ShoppingItem>, x: ShoppingItem): (r: seq<ShoppingItem>)
    ensures x !in s ==> r == s
    ensures x in s ==> r == s[..IndexOf(s, x)] + s[IndexOf(s, x) + 1..]
  {
    if s == [] then []
    else if s[0] == x then
      assert s[..IndexOf(s, x)] == [];
      s[1..]
    else
      var rest := RemoveFirst(s[1..], x);
      if x in s then
        var k := IndexOf(s[1..], x);
        assert IndexOf(s, x) == k + 1;
        ConsDropped(s, k + 1);
        [s[0]] + rest
      else
        assert s == [s[0]] + s[1..];
        [s[0]] + rest
  }

  /** No id occurs twice. */
  ghost predicate IdsDistinct(s: seq<ShoppingItem>) {
    forall i, j :: 0 <= i < |s| && 0 <= j < |s| && i != j ==> s[i].id != s[j].id
  }

  /**
   * The invariant the handlers keep: ids increase along the list (items are
   * appended with ever larger ids and never reordered) and each lies in
   * [1, next), next being the id the following add will use.
   */
  ghost predicate IdsIssuedBelow(s: seq<ShoppingItem>, next: int) {
    && (forall i, j :: 0 <= i < j < |s| ==> s[i].id < s[j].id)
    && (forall i :: 0 <= i < |s| ==> 1 <= s[i].id < next)
  }

  lemma IssuedIdsAreDistinct(s: seq<ShoppingItem>, next: int)
    requires IdsIssuedBelow(s, next)
    ensures IdsDistinct(s)
  {
    forall i, j | 0 <= i < |s| && 0 <= j < |s| && i != j
      ensures s[i].id != s[j].id
    {
      if i < j { assert s[i].id < s[j].id; } else { assert s[j].id < s[i].id; }
    }
  }

  /** Appending an item with id `next` and moving on to `next + 1` keeps the invariant. */
  lemma AppendKeepsIds(s: seq<ShoppingItem>, next: int, x: ShoppingItem)
    requires IdsIssuedBelow(s, next) && 1 <= next && x.id == next
    ensures IdsIssuedBelow(s + [x], next + 1)
  {
  }

  /** An edit keeps every id where it is, hence the invariant. */
  lemma EditKeepsIds(s: seq<ShoppingItem>, next: int, id: int, title: string, description: string, quantity: Int32)
    requires IdsIssuedBelow(s, next)
    ensures IdsIssuedBelow(EditById(s, id, title, description, quantity), next)
  {
  }

  /** The list without position `k`, read position by position. */
  lemma DropAt(s: seq<ShoppingItem>, k: nat)
    requires k < |s|
    ensures |s[..k] + s[k + 1..]| == |s| - 1
    ensures forall i :: 0 <= i < k ==> (s[..k] + s[k + 1..])[i] == s[i]
    ensures forall i :: k < i < |s| ==> (s[..k] + s[k + 1..])[i - 1] == s[i]
  {
  }

  /** Dropping one position keeps the remaining ids increasing and below `next`. */
  lemma DropKeepsIds(s: seq<ShoppingItem>, next: int, k: nat)
    requires IdsIssuedBelow(s, next) && k < |s|
    ensures IdsIssuedBelow(s[..k] + s[k + 1..], next)
  {
    var r := s[..k] + s[k + 1..];
    DropAt(s, k);
    forall i, j | 0 <= i < j < |r|
      ensures r[i].id < r[j].id
    {
      var i' := if i < k then i else i + 1;
      var j' := if j < k then j else j + 1;
      assert r[i] == s[i'] && r[j] == s[j'] && i' < j';
    }
    forall i | 0 <= i < |r|
      ensures 1 <= r[i].id < next
    {
      assert r[i] == s[if i < k then i else i + 1];
    }
  }

  /** A delete keeps the invariant. */
  lemma RemoveKeepsIds(s: seq<ShoppingItem>, next: int, x: ShoppingItem)
    requires IdsIssuedBelow(s, next)
    ensures IdsIssuedBelow(RemoveFirst(s, x), next)
  {
    if x in s {
      DropKeepsIds(s, next, IndexOf(s, x));
    }
  }

  /** A delete removes exactly one occurrence of the element, if there is one. */
  lemma {:induction false} RemoveFirstMultiset(s: seq<ShoppingItem>, x: ShoppingItem)
    ensures x in s ==> |RemoveFirst(s, x)| == |s| - 1
    ensures multiset(RemoveFirst(s, x)) == multiset(s) - multiset{x}
  {
    if s != [] {
      var tail := s[1..];
      assert s == [s[0]] + tail;
      assert multiset(s) == multiset{s[0]} + multiset(tail);
      if s[0] == x {
        assert RemoveFirst(s, x) == tail;
      } else {
        RemoveFirstMultiset(tail, x);
        assert RemoveFirst(s, x) == [s[0]] + RemoveFirst(tail, x);
        assert x in s ==> x in tail;
      }
    }
  }

  /**
   * With distinct ids every item occurs at most once, so a delete leaves no
   * copy of the clicked item behind.
   */
  lemma RemoveFirstLeavesNoCopy(s: seq<ShoppingItem>, x: ShoppingItem)
    requires IdsDistinct(s)
    ensures x !in RemoveFirst(s, x)
  {
    if x in s {
      var k := IndexOf(s, x);
      var r := RemoveFirst(s, x);
      assert r == s[..k] + s[k + 1..];
      forall m | 0 <= m < |r|
        ensures r[m] != x
      {
        var j := if m < k then m else m + 1;
        assert r[m] == s[j] && j != k;
      }
    }
  }

  /**
   * With distinct ids an edit touches at most one position: the one holding
   * the edited id.
   */
  lemma EditTouchesOnlyMatch(s: seq<ShoppingItem>, k: nat, title: string, description: string, quantity: Int32)
    requires IdsDistinct(s) && k < |s|
    ensures forall i :: 0 <= i < |s| && i != k ==> EditById(s, s[k].id, title, description, quantity)[i] == s[i]
    ensures EditById(s, s[k].id, title, description, quantity)[k]
      == s[k].(title := title, description := description, quantity := quantity)
  {
  }

  /** Saving an item's own fields back over it leaves the list as it was. */
  lemma EditWithSameFieldsIsIdentity(s: seq<ShoppingItem>, x: ShoppingItem)
    requires IdsDistinct(s) && x in s
    ensures EditById(s, x.id, x.title, x.description, x.quantity) == s
  {
    var k := IndexOf(s, x);
    var r := EditById(s, x.id, x.title, x.description, x.quantity);
    forall i | 0 <= i < |s|
      ensures r[i] == s[i]
    {
      if s[i].id == x.id {
        assert i == k;
      }
    }
  }
}

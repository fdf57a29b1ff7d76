/** The line edits of the cart use cases: finding a line by its id
    (internal/usecase/order/update_item_qty.go and remove_item.go), setting
    its quantity, and splicing it out. */
module Cart {
  import opened OrderEntity

  /** Index of the first line with the given id, or -1 when there is none. */
  function IndexOfLine(items: seq<OrderItem>, id: string): (r: int)
    ensures -1 <= r < |items|
    ensures r == -1 <==> forall k :: 0 <= k < |items| ==> items[k].id != id
    ensures r >= 0 ==> items[r].id == id && forall k :: 0 <= k < r ==> items[k].id != id
  {
    if items == [] then -1
    else if items[0].id == id then 0
    else
      var r := IndexOfLine(items[1..], id);
      if r == -1 then -1 else r + 1
  }

  /** The search loop both use cases run; it stops at the first match. */
  method FindLine(items: seq<OrderItem>, id: string) returns (idx: int)
    ensures idx == IndexOfLine(items, id)
  {
    idx := -1;
    var i := 0;
    while i < |items|
      invariant 0 <= i <= |items|
      invariant forall k :: 0 <= k < i ==> items[k].id != id
    {
      if items[i].id == id {
        idx := i;
        return;
      }
      i := i + 1;
    }
  }

  /** The lines with line idx's quantity replaced by qty. */
  function WithLineQty(items: seq<OrderItem>, idx: int, qty: int): (r: seq<OrderItem>)
    requires 0 <= idx < |items|
    ensures |r| == |items|
    ensures r[idx] == items[idx].(qty := qty)
    ensures forall k :: 0 <= k < |items| && k != idx ==> r[k] == items[k]
  {
    items[idx := items[idx].(qty := qty)]
  }

  /** append(items[:idx], items[idx+1:]...). */
  function RemoveLineAt(items: seq<OrderItem>, idx: int): (r: seq<OrderItem>)
    requires 0 <= idx < |items|
    ensures |r| == |items| - 1
    ensures forall k :: 0 <= k < idx ==> r[k] == items[k]
    ensures forall k :: idx <= k < |r| ==> r[k] == items[k + 1]
  {
    items[..idx] + items[idx + 1..]
  }

  /** Removing a line takes exactly one copy of it out of the cart and keeps
      every other line. */
  lemma RemoveLineAtMultiset(items: seq<OrderItem>, idx: int)
    requires 0 <= idx < |items|
    ensures multiset(RemoveLineAt(items, idx)) + multiset{items[idx]} == multiset(items)
  {
    assert items == items[..idx] + [items[idx]] + items[idx + 1..];
  }

  /** When line ids are distinct, removing the line with id leaves no line with
      that id; every other line id is still there. */
  lemma RemoveLineDropsOnlyThatId(items: seq<OrderItem>, id: string)
    requires forall a, b :: 0 <= a < b < |items| ==> items[a].id != items[b].id
    requires IndexOfLine(items, id) >= 0
    ensures forall k :: 0 <= k < |RemoveLineAt(items, IndexOfLine(items, id))| ==>
              RemoveLineAt(items, IndexOfLine(items, id))[k].id != id
    ensures forall k :: 0 <= k < |items| && items[k].id != id ==>
              exists m :: 0 <= m < |RemoveLineAt(items, IndexOfLine(items, id))| && RemoveLineAt(items, IndexOfLine(items, id))[m] == items[k]
  {
    var idx := IndexOfLine(items, id);
    var r := RemoveLineAt(items, idx);
    forall k | 0 <= k < |items| && items[k].id != id
      ensures exists m :: 0 <= m < |r| && r[m] == items[k]
    {
      if k < idx {
        assert r[k] == items[k];
      } else {
        assert k > idx;
        assert r[k - 1] == items[k];
      }
    }
  }
}

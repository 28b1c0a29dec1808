/** The order read-model repository: builds one OrderQueryDto per order, each
    with the list of its order lines attached, either with one item query per
    order (the N+1 version) or with a single batched item query whose rows are
    grouped by order id and merged back by key.

    The persistence layer is abstract: the root query returns a fixed sequence
    of rows, and the item queries filter a fixed table of projected order-line
    rows. A ghost counter records every query issued. */
module OrderQuery {
  import opened Wrappers

  /** Address value copied from the order's delivery. */
  datatype Address = Address(city: string, street: string, zipcode: string)

  datatype OrderStatus = Ordered | Cancelled

  /** One row of the root query: an order with its to-one data inlined
      (member name, order date as an abstract timestamp, status, delivery address). */
  datatype OrderRow = OrderRow(orderId: int, name: string, orderDate: int,
                               orderStatus: OrderStatus, address: Address)

  /** One row of an item query: an order line joined with its item.
      These rows are built once and never changed, so they are values. */
  datatype OrderItemQueryDto = OrderItemQueryDto(orderId: int, itemName: string,
                                                 orderPrice: int, count: int)

  /** The read model of one order. Only `orderItems` is ever updated; `None`
      stands for Java's `null`, which is what the constructor leaves there. */
  class OrderQueryDto {
    const orderId: int
    const name: string
    const orderDate: int
    const orderStatus: OrderStatus
    const address: Address
    var orderItems: Option<seq<OrderItemQueryDto>>

    constructor (row: OrderRow)
      ensures Header() == row && orderItems == None
    {
      orderId, name, orderDate := row.orderId, row.name, row.orderDate;
      orderStatus, address := row.orderStatus, row.address;
      orderItems := None;
    }

    /** The fields the constructor sets; they never change afterwards. */
    function Header(): OrderRow {
      OrderRow(orderId, name, orderDate, orderStatus, address)
    }
  }

  // ---------------------------------------------------------------------------
  // Specification functions: what the queries return and how rows are grouped.
  // Each is defined on the last element, the way a left-to-right pass appends.
  // ---------------------------------------------------------------------------

  /** The per-order item query: the rows of `table` whose orderId is `orderId`,
      in table order. */
  function ItemsOf(table: seq<OrderItemQueryDto>, orderId: int): (r: seq<OrderItemQueryDto>)
    ensures |r| <= |table|
    ensures forall x :: x in r <==> x in table && x.orderId == orderId
  {
    if table == [] then []
    else
      var last := table[|table| - 1];
      ItemsOf(table[..|table| - 1], orderId) + (if last.orderId == orderId then [last] else [])
  }

  /** The batched item query: the rows of `table` whose orderId is among
      `orderIds`, in table order. */
  function ItemsIn(table: seq<OrderItemQueryDto>, orderIds: seq<int>): (r: seq<OrderItemQueryDto>)
    ensures |r| <= |table|
    ensures forall x :: x in r <==> x in table && x.orderId in orderIds
  {
    if table == [] then []
    else
      var last := table[|table| - 1];
      ItemsIn(table[..|table| - 1], orderIds) + (if last.orderId in orderIds then [last] else [])
  }

  /** The order ids of the root rows, position by position. */
  function ToOrderIds(result: seq<OrderQueryDto>): (orderIds: seq<int>)
    ensures |orderIds| == |result|
    ensures forall i :: 0 <= i < |result| ==> orderIds[i] == result[i].orderId
  {
    if result == [] then []
    else ToOrderIds(result[..|result| - 1]) + [result[|result| - 1].orderId]
  }

  /** Grouping of item rows by orderId: each row is appended to the list of
      its own key, a key is created on its first row. Every group is
      non-empty and holds only rows of its own key. */
  function GroupByOrderId(items: seq<OrderItemQueryDto>): (groups: map<int, seq<OrderItemQueryDto>>)
    ensures forall k :: k in groups ==> groups[k] != []
    ensures forall k, j :: k in groups && 0 <= j < |groups[k]| ==> groups[k][j].orderId == k
  {
    if items == [] then map[]
    else
      var groups := GroupByOrderId(items[..|items| - 1]);
      var x := items[|items| - 1];
      groups[x.orderId := (if x.orderId in groups then groups[x.orderId] else []) + [x]]
  }

  /** Java's `Map.get`: the value under `key`, or `null` when there is none. */
  function MapGet(m: map<int, seq<OrderItemQueryDto>>, key: int): (r: Option<seq<OrderItemQueryDto>>)
    ensures r == None <==> key !in m
    ensures r.Some? ==> r.value == m[key]
  {
    if key in m then Some(m[key]) else None
  }

  // ---------------------------------------------------------------------------
  // Properties of grouping and of the batched query
  // ---------------------------------------------------------------------------

  /** A key has a group exactly when some row carries it, and the group is
      the filter of the rows by that key: the same rows in the same relative
      order. */
  lemma {:induction false} GroupByIsFilter(items: seq<OrderItemQueryDto>, key: int)
    ensures key in GroupByOrderId(items) <==> ItemsOf(items, key) != []
    ensures key in GroupByOrderId(items) ==> GroupByOrderId(items)[key] == ItemsOf(items, key)
  {
    if items != [] {
      GroupByIsFilter(items[..|items| - 1], key);
    }
  }

  /** Every row lands in the group of its own orderId. */
  lemma RowInOwnGroup(items: seq<OrderItemQueryDto>, j: int)
    requires 0 <= j < |items|
    ensures items[j].orderId in GroupByOrderId(items)
    ensures items[j] in GroupByOrderId(items)[items[j].orderId]
  {
    GroupByIsFilter(items, items[j].orderId);
  }

  /** For an id in the list, filtering the batched result by that id gives
      exactly what the per-order query gives. */
  lemma {:induction false} BatchedQueryKeepsOrderItems(table: seq<OrderItemQueryDto>, orderIds: seq<int>, orderId: int)
    requires orderId in orderIds
    ensures ItemsOf(ItemsIn(table, orderIds), orderId) == ItemsOf(table, orderId)
  {
    if table != [] {
      var prefix, last := table[..|table| - 1], table[|table| - 1];
      BatchedQueryKeepsOrderItems(prefix, orderIds, orderId);
      var s := ItemsIn(prefix, orderIds);
      var tail := if last.orderId == orderId then [last] else [];
      assert ItemsOf(table, orderId) == ItemsOf(prefix, orderId) + tail;
      if last.orderId in orderIds {
        assert ItemsIn(table, orderIds) == s + [last];
        assert (s + [last])[..|s|] == s;
        assert ItemsOf(s + [last], orderId) == ItemsOf(s, orderId) + tail;
      } else {
        assert ItemsIn(table, orderIds) == s;
        assert tail == [];
      }
    }
  }

  /** The two versions agree: for an order whose id was collected, the batched
      lookup yields the per-order query's list when it is non-empty, and
      `null` (None) instead of an empty list when the order has no lines. */
  lemma BatchedAgreesWithPerOrder(table: seq<OrderItemQueryDto>, orderIds: seq<int>, orderId: int)
    requires orderId in orderIds
    ensures MapGet(GroupByOrderId(ItemsIn(table, orderIds)), orderId)
         == if ItemsOf(table, orderId) == [] then None else Some(ItemsOf(table, orderId))
  {
    GroupByIsFilter(ItemsIn(table, orderIds), orderId);
    BatchedQueryKeepsOrderItems(table, orderIds, orderId);
  }

  // ---------------------------------------------------------------------------
  // The repository
  // ---------------------------------------------------------------------------

  class OrderQueryRepository {
    /** What the root query returns, in order. */
    const orderRows: seq<OrderRow>
    /** The projected order-line table that the item queries filter. */
    const itemRows: seq<OrderItemQueryDto>
    /** Number of queries issued so far. */
    ghost var queries: nat

    constructor (orderRows: seq<OrderRow>, itemRows: seq<OrderItemQueryDto>)
      ensures this.orderRows == orderRows && this.itemRows == itemRows && queries == 0
    {
      this.orderRows, this.itemRows := orderRows, itemRows;
      queries := 0;
    }

    /** The root query: one fresh DTO per root row, in order, items not yet set. */
    method FindOrders() returns (result: seq<OrderQueryDto>)
      modifies this
      ensures queries == old(queries) + 1
      ensures |result| == |orderRows|
      ensures forall i :: 0 <= i < |result| ==>
                fresh(result[i]) && result[i].Header() == orderRows[i] && result[i].orderItems == None
      ensures forall i, j :: 0 <= i < j < |result| ==> result[i] != result[j]
    {
      queries := queries + 1;
      result := [];
      var i := 0;
      while i < |orderRows|
        invariant 0 <= i <= |orderRows| && |result| == i
        invariant queries == old(queries) + 1
        invariant forall j :: 0 <= j < i ==>
                    fresh(result[j]) && result[j].Header() == orderRows[j] && result[j].orderItems == None
        invariant forall j, l :: 0 <= j < l < i ==> result[j] != result[l]
      {
        var dto := new OrderQueryDto(orderRows[i]);
        result := result + [dto];
        i := i + 1;
      }
    }

    /** The per-order item query. */
    method FindOrderItems(orderId: int) returns (items: seq<OrderItemQueryDto>)
      modifies this
      ensures queries == old(queries) + 1
      ensures items == ItemsOf(itemRows, orderId)
    {
      queries := queries + 1;
      items := ItemsOf(itemRows, orderId);
    }

    /** N+1 version: the root query, then one item query per root row. */
    method FindOrderQueryDtos() returns (result: seq<OrderQueryDto>)
      modifies this
      ensures queries == old(queries) + 1 + |orderRows|
      ensures |result| == |orderRows|
      ensures forall i :: 0 <= i < |result| ==> fresh(result[i]) && result[i].Header() == orderRows[i]
      ensures forall i :: 0 <= i < |result| ==>
                result[i].orderItems == Some(ItemsOf(itemRows, orderRows[i].orderId))
    {
      result := FindOrders();
      var i := 0;
      while i < |result|
        invariant 0 <= i <= |result|
        invariant queries == old(queries) + 1 + i
        invariant forall j :: 0 <= j < |result| ==> fresh(result[j]) && result[j].Header() == orderRows[j]
        invariant forall j :: 0 <= j < i ==> result[j].orderItems == Some(ItemsOf(itemRows, result[j].orderId))
      {
        var items := FindOrderItems(result[i].orderId);
        result[i].orderItems := Some(items);
        i := i + 1;
      }
    }

    /** The batched item query, grouped by orderId. */
    method FindOrderItemMap(orderIds: seq<int>) returns (orderItemMap: map<int, seq<OrderItemQueryDto>>)
      modifies this
      ensures queries == old(queries) + 1
      ensures orderItemMap == GroupByOrderId(ItemsIn(itemRows, orderIds))
    {
      queries := queries + 1;
      orderItemMap := GroupByOrderId(ItemsIn(itemRows, orderIds));
    }

    /** Batched version: the root query, one item query for all collected
        ids, then each root row takes its group from the map by key. */
    method FindAllByDtoOptimization() returns (result: seq<OrderQueryDto>)
      modifies this
      ensures queries == old(queries) + 2
      ensures |result| == |orderRows|
      ensures forall i :: 0 <= i < |result| ==> fresh(result[i]) && result[i].Header() == orderRows[i]
      ensures forall i :: 0 <= i < |result| ==>
                result[i].orderItems
                == if ItemsOf(itemRows, orderRows[i].orderId) == [] then None
                   else Some(ItemsOf(itemRows, orderRows[i].orderId))
    {
      result := FindOrders();
      var orderIds := ToOrderIds(result);
      var orderItemMap := FindOrderItemMap(orderIds);
      var i := 0;
      while i < |result|
        invariant 0 <= i <= |result|
        invariant queries == old(queries) + 2
        invariant forall j :: 0 <= j < |result| ==> fresh(result[j]) && result[j].Header() == orderRows[j]
        invariant forall j :: 0 <= j < i ==> result[j].orderItems == MapGet(orderItemMap, result[j].orderId)
      {
        result[i].orderItems := MapGet(orderItemMap, result[i].orderId);
        i := i + 1;
      }
      forall i | 0 <= i < |result|
        ensures result[i].orderItems
                == if ItemsOf(itemRows, orderRows[i].orderId) == [] then None
                   else Some(ItemsOf(itemRows, orderRows[i].orderId))
      {
        assert orderIds[i] == result[i].orderId;
        BatchedAgreesWithPerOrder(itemRows, orderIds, result[i].orderId);
      }
    }
  }
}

/** Three orders: the first with two lines, the second with one, the third
    with none. The versions attach the same lists to the first two, with 4
    queries against 2; the third gets an empty list from the N+1 version and
    `null` from the batched one. */
method OrderScenario()
{
  var address := OrderQuery.Address("city", "street", "10000");
  var rows := [OrderQuery.OrderRow(1, "member1", 0, OrderQuery.Ordered, address),
               OrderQuery.OrderRow(2, "member2", 1, OrderQuery.Ordered, address),
               OrderQuery.OrderRow(3, "member3", 2, OrderQuery.Cancelled, address)];
  var a := OrderQuery.OrderItemQueryDto(1, "itemA", 10000, 2);
  var b := OrderQuery.OrderItemQueryDto(1, "itemB", 20000, 1);
  var c := OrderQuery.OrderItemQueryDto(2, "itemC", 5000, 3);
  var repository := new OrderQuery.OrderQueryRepository(rows, [a, b, c]);
  assert [a, b, c][..2] == [a, b] && [a, b][..1] == [a] && [a][..0] == [];
  assert OrderQuery.ItemsOf([a, b, c], 1) == [a, b];
  assert OrderQuery.ItemsOf([a, b, c], 2) == [c] by {
    assert OrderQuery.ItemsOf([a, b], 2) == [];
  }
  assert OrderQuery.ItemsOf([a, b, c], 3) == [] by {
    assert OrderQuery.ItemsOf([a, b], 3) == [];
  }

  var perOrder := repository.FindOrderQueryDtos();
  assert repository.queries == 4;
  assert perOrder[0].orderItems == Wrappers.Some([a, b]) && perOrder[1].orderItems == Wrappers.Some([c]);
  assert perOrder[2].orderItems == Wrappers.Some([]);

  var batched := repository.FindAllByDtoOptimization();
  assert repository.queries == 6;
  assert batched[0].orderItems == Wrappers.Some([a, b]) && batched[1].orderItems == Wrappers.Some([c]);
  assert batched[2].orderItems == Wrappers.None;
  assert batched[1].name == "member2";
}

# Order read models and member registration of the jpashop backend

This project models two pieces of a small JPA e-commerce backend.

**Order read-model hydration** (`OrderQueryRepository`). An order read model
(`OrderQueryDto`) holds the order's to-one data (order id, member name, order
date, status, delivery address) and a list of order lines (`OrderItemQueryDto`).
The repository builds these read models in two ways:

- **N+1 version** (`findOrderQueryDtos`). One root query, then one item query
  per order, whose result is set on that order's DTO.
- **Batched version** (`findAllByDto_optimization`). One root query, then the
  order ids are collected (`toOrderIds`). One `in :orderIds` item query follows.
  Its rows are grouped by `orderId` (`findOrderItemMap`), and each DTO takes its
  group from the map (`Map.get`).

The queries are modelled as functions over abstract in-memory tables. The root
query returns a fixed sequence of rows (`OrderQueryRepository.orderRows`). The
item queries filter a fixed table of projected order-line rows
(`OrderQueryRepository.itemRows`). A ghost counter, `queries`, goes up by one
per query, so the methods can state how many queries they issue. The DTOs are
objects: their header fields are constants and `orderItems` is a mutable field.
`None` stands for Java's `null`.

**Member registration** (`MemberService`). `join` looks up members by name.
It throws `IllegalStateException` when the name is taken, and otherwise saves
the member and returns its id. The member store is an in-memory sequence of
saved members plus an id generator (`MemberRepository`). The service's
invariant is that member names are pairwise distinct. Every `Join` keeps it.

Files: `wrappers.dfy` (Option, Result, Outcome), `order_query.dfy` (module
`OrderQuery`, with a three-order client scenario `OrderScenario` at the end),
`member_service.dfy` (module `Members`).

An order with no lines gets `null` in the batched version (`Map.get` of an
absent key), not an empty list; the N+1 version gives it an empty list.
`FindAllByDtoOptimization` and `BatchedAgreesWithPerOrder` state this.

## Model

| member | source | states |
|---|---|---|
| `OrderQuery.OrderQueryDto.constructor` | src/main/java/jpabook/jpashop/repository/order/query/OrderQueryRepository.java:46 | the projection constructor copies the root row's fields and leaves `orderItems` null |
| `OrderQuery.OrderQueryRepository.FindOrders` | src/main/java/jpabook/jpashop/repository/order/query/OrderQueryRepository.java:44-51 | one query; one fresh, distinct DTO per root row, in row order, header equal to the row, items still null |
| `OrderQuery.ItemsOf` | src/main/java/jpabook/jpashop/repository/order/query/OrderQueryRepository.java:33-41 | the per-order item query returns exactly the table rows whose orderId is the given id, and never more rows than the table |
| `OrderQuery.OrderQueryRepository.FindOrderItems` | src/main/java/jpabook/jpashop/repository/order/query/OrderQueryRepository.java:33-42 | one query; its result is the per-order filter of the item table |
| `OrderQuery.OrderQueryRepository.FindOrderQueryDtos` | src/main/java/jpabook/jpashop/repository/order/query/OrderQueryRepository.java:21-31 | issues 1 + N queries for N root rows; returns the root rows in order, each with `orderItems` set to its own per-order query result (an empty list when it has no lines) |
| `OrderQuery.ToOrderIds` | src/main/java/jpabook/jpashop/repository/order/query/OrderQueryRepository.java:80-85 | same length as the input; position i holds the orderId of input row i |
| `OrderQuery.ItemsIn` | src/main/java/jpabook/jpashop/repository/order/query/OrderQueryRepository.java:66-73 | the batched query returns exactly the table rows whose orderId is in the supplied id list |
| `OrderQuery.GroupByOrderId` | src/main/java/jpabook/jpashop/repository/order/query/OrderQueryRepository.java:75-76 | every group is non-empty and every row in a group carries that group's key |
| `OrderQuery.GroupByIsFilter` | src/main/java/jpabook/jpashop/repository/order/query/OrderQueryRepository.java:75-76 | a key has a group iff some row carries it, and the group is the rows with that key in their original relative order |
| `OrderQuery.RowInOwnGroup` | src/main/java/jpabook/jpashop/repository/order/query/OrderQueryRepository.java:75-76 | every row ends up in the group keyed by its own orderId |
| `OrderQuery.OrderQueryRepository.FindOrderItemMap` | src/main/java/jpabook/jpashop/repository/order/query/OrderQueryRepository.java:66-78 | one query; the map is the grouping by orderId of the batched query's rows |
| `OrderQuery.BatchedQueryKeepsOrderItems` | src/main/java/jpabook/jpashop/repository/order/query/OrderQueryRepository.java:66-73 | for an id in the list, the batched rows with that id are exactly the per-order query's rows, in the same order |
| `OrderQuery.MapGet` | src/main/java/jpabook/jpashop/repository/order/query/OrderQueryRepository.java:61 | `Map.get` gives null exactly for an absent key, and the stored list otherwise |
| `OrderQuery.BatchedAgreesWithPerOrder` | src/main/java/jpabook/jpashop/repository/order/query/OrderQueryRepository.java:58-61 | looking an id up in the batched map gives the per-order list when that list is non-empty, and null when it is empty |
| `OrderQuery.OrderQueryRepository.FindAllByDtoOptimization` | src/main/java/jpabook/jpashop/repository/order/query/OrderQueryRepository.java:53-64 | issues exactly 2 queries whatever N is; returns the root rows in order with only `orderItems` set: the per-order list for an order with lines, null for one without |
| `Members.WithName` | src/main/java/jpabook/jpashop/service/MemberService.java:32 | the name lookup returns exactly the stored members with that name |
| `Members.WithId` | src/main/java/jpabook/jpashop/service/MemberService.java:45 | the primary-key lookup finds a member iff one with that id is stored, and the one it finds is stored and has that id |
| `Members.MemberRepository.FindByName` | src/main/java/jpabook/jpashop/service/MemberService.java:32 | returns the name lookup over the stored members |
| `Members.MemberRepository.FindAll` | src/main/java/jpabook/jpashop/service/MemberService.java:40 | returns the stored members in store order |
| `Members.MemberRepository.FindOne` | src/main/java/jpabook/jpashop/service/MemberService.java:45 | returns the primary-key lookup over the stored members |
| `Members.MemberRepository.Save` | src/main/java/jpabook/jpashop/service/MemberService.java:26 | appends the member under a fresh id (greater than all stored ids) and returns that id |
| `Members.MemberService.ValidateDuplicateMember` | src/main/java/jpabook/jpashop/service/MemberService.java:30-36 | fails with IllegalStateException and the duplicate message iff a stored member has the same name; changes nothing |
| `Members.MemberService.Join` | src/main/java/jpabook/jpashop/service/MemberService.java:23-28 | throws iff the name is taken, leaving the store unchanged; otherwise the store gains exactly this member under a new id, which is returned; names stay pairwise distinct |
| `Members.MemberService.FindMembers` | src/main/java/jpabook/jpashop/service/MemberService.java:39-41 | returns the stored members, changing nothing |
| `Members.MemberService.FindOne` | src/main/java/jpabook/jpashop/service/MemberService.java:44-46 | returns the member with the given id when one is stored and none (null) otherwise; changes nothing |

## Left out

- SQL and JPQL text, joins, the persistence context, transactions and lazy loading are not modelled. Each query is a filter over a fixed table.
- Row order of query results: the model returns rows in table order. SQL without `order by` does not promise any order.
- Store failures and timeouts are not modelled. Neither is the Spring wiring (`@Repository`, `@Service`, `@Transactional`).
- Order dates are abstract integer timestamps. The other fields of `Member` (address, orders) are not modelled, because `join` reads only the name.
- `MemberRepository` is modelled abstractly: an in-memory store with an id counter standing in for JPA's generated ids.
- `Members.MemberService.Join` requires a member without an id. Persisting an entity that already has an id is a JPA error and is not modelled.
- `Members.MemberService.Join` takes names as non-null strings. In Java a `null` name matches no row in `findByName` (`= null` is never true), so several members with a `null` name can be joined and the distinct-names invariant does not cover them.
- `Members.MemberService.Join` returns the new id rather than writing it into the caller's `Member` object, as `save` does in Java; the stored member carries the id, the caller's value does not.
- `Members.MemberService.FindOne` takes a non-null id. In Java `findOne(null)` throws from `em.find`; that exception is not modelled.
- The REST controllers, `ItemService`, `ItemRepository`, the application class and `ItemServiceTest` are outside this model.
- Concurrent joins with the same name are not modelled. Two transactions can both pass the check before either saves; only the single-threaded invariant is proved.

/**
 * The inventory stock ledger: one stock record per product, the entity's
 * persist/update hooks, the validation gate, the seven mutators of the
 * inventory service and its read-only queries.
 *
 * Each mutator is specified by a `...Step` function from the store before the
 * call to the outcome and the store after it; every failure is detected before
 * any field is written, so a failing step returns the store it was given (the
 * observable content of the rollback-on-exception transaction). The class
 * `InventoryService` performs the same steps imperatively on its `records`.
 */
module Inventory {
  import opened Common

  /** Reorder level that the persist hook substitutes for 0. */
  const DefaultReorderLevel: int := 10

  /** One row of the inventory table. */
  datatype StockRecord = StockRecord(
    productId: int,
    quantityInStock: int,
    reorderLevel: int,
    lastRestocked: Timestamp,
    updatedAt: Timestamp)

  /** The repository, keyed by product id (the unique `product_id` column). */
  type Store = map<int, StockRecord>

  /** How a service call ends: normally, or with the exception it raises. */
  datatype Outcome =
    | Ok
    | Validation(field: string)
    | NotFound
    | Duplicate
    | Insufficient(productId: int, requested: int, available: int)

  /** The outcome of a mutator together with the store it leaves. */
  datatype Step = Step(outcome: Outcome, store: Store)

  /**
   * The ledger invariant: each record sits under its own product id (so there
   * is at most one record per product), and no quantity or reorder level is
   * negative.
   */
  predicate ValidStore(s: Store) {
    forall p :: p in s ==> s[p].productId == p && s[p].quantityInStock >= 0 && s[p].reorderLevel >= 0
  }

  /** `s'` differs from `s` at most in the record of product `p`, which exists in both. */
  predicate OnlyRecordChanged(s: Store, s': Store, p: int) {
    p in s && s'.Keys == s.Keys && forall q :: q in s && q != p ==> s'[q] == s[q]
  }

  // ---------------------------------------------------------------------------
  // Entity hooks

  /** `@PrePersist` hook: stamps `updatedAt` and replaces a zero reorder level by the default. */
  function OnPersist(r: StockRecord, now: Timestamp): (r': StockRecord)
    ensures r'.updatedAt == now
    ensures r.reorderLevel == 0 ==> r'.reorderLevel == DefaultReorderLevel
    ensures r.reorderLevel != 0 ==> r'.reorderLevel == r.reorderLevel
    ensures r'.productId == r.productId && r'.quantityInStock == r.quantityInStock
    ensures r'.lastRestocked == r.lastRestocked
  {
    var level := if r.reorderLevel == 0 then DefaultReorderLevel else r.reorderLevel;
    r.(updatedAt := now, reorderLevel := level)
  }

  /** `@PreUpdate` hook: stamps `updatedAt` and nothing else; a zero reorder level stays 0. */
  function OnUpdate(r: StockRecord, now: Timestamp): (r': StockRecord)
    ensures r'.updatedAt == now
    ensures r'.(updatedAt := r.updatedAt) == r
  {
    r.(updatedAt := now)
  }

  // ---------------------------------------------------------------------------
  // Validation gate

  /**
   * `validateInventoryData`: the field named by the first rule the new record
   * breaks, checked in the order product id, stock, reorder level.
   */
  function ValidateInventoryData(productId: int, quantityInStock: int, reorderLevel: int): (v: Option<string>)
    ensures v.None? <==> productId > 0 && quantityInStock >= 0 && reorderLevel >= 0
    ensures v == Some("productId") <==> productId <= 0
    ensures v == Some("quantityInStock") <==> productId > 0 && quantityInStock < 0
    ensures v == Some("reorderLevel") <==> productId > 0 && quantityInStock >= 0 && reorderLevel < 0
  {
    if productId <= 0 then Some("productId")
    else if quantityInStock < 0 then Some("quantityInStock")
    else if reorderLevel < 0 then Some("reorderLevel")
    else None
  }

  // ---------------------------------------------------------------------------
  // Queries

  /** `getInventoryByProduct`: the record of a product, or `NotFound`. */
  function GetInventoryByProduct(s: Store, productId: int): (r: Result<StockRecord, Outcome>)
    ensures r.Success? <==> productId in s
    ensures r.Success? ==> r.value in s.Values
    ensures r.Failure? ==> r.error == NotFound
    ensures ValidStore(s) && r.Success? ==> r.value.productId == productId
  {
    if productId in s then Success(s[productId]) else Failure(NotFound)
  }

  /** `hasAvailableStock`: a record exists and holds at least `quantity` units. */
  function HasAvailableStock(s: Store, productId: int, quantity: int): (r: bool)
    ensures r <==> GetInventoryByProduct(s, productId).Success?
                   && GetInventoryByProduct(s, productId).value.quantityInStock >= quantity
  {
    match GetInventoryByProduct(s, productId)
    case Success(inventory) => inventory.quantityInStock >= quantity
    case Failure(_) => false
  }

  /** `isProductInStock`: a record exists and holds at least one unit. */
  function IsProductInStock(s: Store, productId: int): (r: bool)
    ensures r <==> HasAvailableStock(s, productId, 1)
    ensures r ==> productId in s
  {
    match GetInventoryByProduct(s, productId)
    case Success(inventory) => inventory.quantityInStock > 0
    case Failure(_) => false
  }

  /** `getOutOfStockProducts`: every record whose quantity is exactly 0. */
  function GetOutOfStockProducts(s: Store): (r: set<StockRecord>)
    ensures forall x :: x in r <==> x in s.Values && x.quantityInStock == 0
    ensures ValidStore(s) ==> forall p :: p in s ==> (s[p] in r <==> !IsProductInStock(s, p))
  {
    set x | x in s.Values && x.quantityInStock == 0
  }

  /**
   * `getInventoryByProducts`: nothing for a missing or empty id list, otherwise
   * the records of the listed products that exist; absent ids are skipped.
   */
  function GetInventoryByProducts(s: Store, productIds: Option<seq<int>>): (r: set<StockRecord>)
    ensures productIds.None? || productIds.value == [] ==> r == {}
    ensures forall x :: x in r ==> x in s.Values && productIds.Some? && x.productId in productIds.value
    ensures ValidStore(s) && productIds.Some? ==>
      forall p :: p in productIds.value && p in s ==> s[p] in r
  {
    if productIds.None? || |productIds.value| == 0 then {}
    else set x | x in s.Values && x.productId in productIds.value
  }

  // ---------------------------------------------------------------------------
  // Mutators, as functions of the store

  /**
   * `createInventory`: validation first (so it wins over a duplicate), then the
   * duplicate lookup, then exactly one new record holding the given stock.
   */
  function CreateInventoryStep(s: Store, productId: int, initialStock: int, reorderLevel: int, now: Timestamp): (r: Step)
    ensures ValidateInventoryData(productId, initialStock, reorderLevel).Some? ==>
      r == Step(Validation(ValidateInventoryData(productId, initialStock, reorderLevel).value), s)
    ensures ValidateInventoryData(productId, initialStock, reorderLevel).None? && productId in s ==>
      r == Step(Duplicate, s)
    ensures r.outcome == Ok <==>
      ValidateInventoryData(productId, initialStock, reorderLevel).None? && productId !in s
    ensures r.outcome == Ok ==>
      && r.store.Keys == s.Keys + {productId}
      && (forall p :: p in s ==> r.store[p] == s[p])
      && r.store[productId].productId == productId
      && r.store[productId].quantityInStock == initialStock
      && r.store[productId].reorderLevel == (if reorderLevel == 0 then DefaultReorderLevel else reorderLevel)
      && r.store[productId].lastRestocked == now
      && r.store[productId].updatedAt == now
    ensures ValidStore(s) ==> ValidStore(r.store)
  {
    match ValidateInventoryData(productId, initialStock, reorderLevel)
    case Some(field) => Step(Validation(field), s)
    case None =>
      if productId in s then Step(Duplicate, s)
      else Step(Ok, s[productId := OnPersist(StockRecord(productId, initialStock, reorderLevel, now, now), now)])
  }

  /** `updateStock`: a negative quantity fails before the lookup; otherwise the quantity is set exactly. */
  function UpdateStockStep(s: Store, productId: int, newQuantity: int, now: Timestamp): (r: Step)
    ensures newQuantity < 0 ==> r == Step(Validation("quantityInStock"), s)
    ensures newQuantity >= 0 && productId !in s ==> r == Step(NotFound, s)
    ensures r.outcome == Ok <==> newQuantity >= 0 && productId in s
    ensures r.outcome == Ok ==>
      OnlyRecordChanged(s, r.store, productId)
      && r.store[productId] == s[productId].(quantityInStock := newQuantity, updatedAt := now)
    ensures ValidStore(s) ==> ValidStore(r.store)
  {
    if newQuantity < 0 then Step(Validation("quantityInStock"), s)
    else if productId !in s then Step(NotFound, s)
    else
      var inventory := s[productId].(quantityInStock := newQuantity, updatedAt := now);
      Step(Ok, s[productId := OnUpdate(inventory, now)])
  }

  /** `addStock`: a positive amount is added exactly, and `lastRestocked` is stamped. */
  function AddStockStep(s: Store, productId: int, quantity: int, now: Timestamp): (r: Step)
    ensures quantity <= 0 ==> r == Step(Validation("quantity"), s)
    ensures quantity > 0 && productId !in s ==> r == Step(NotFound, s)
    ensures r.outcome == Ok <==> quantity > 0 && productId in s
    ensures r.outcome == Ok ==>
      OnlyRecordChanged(s, r.store, productId)
      && r.store[productId] == s[productId].(
           quantityInStock := s[productId].quantityInStock + quantity,
           lastRestocked := now,
           updatedAt := now)
    ensures ValidStore(s) ==> ValidStore(r.store)
  {
    if quantity <= 0 then Step(Validation("quantity"), s)
    else if productId !in s then Step(NotFound, s)
    else
      var inventory := s[productId];
      var inventory' := inventory.(quantityInStock := inventory.quantityInStock + quantity,
                                   lastRestocked := now, updatedAt := now);
      Step(Ok, s[productId := OnUpdate(inventory', now)])
  }

  /**
   * `removeStock` and `reserveStock`: a positive amount no larger than the
   * quantity on hand is subtracted exactly; a larger one fails `Insufficient`
   * with the requested and available amounts and changes nothing.
   */
  function RemoveStockStep(s: Store, productId: int, quantity: int, now: Timestamp): (r: Step)
    ensures quantity <= 0 ==> r == Step(Validation("quantity"), s)
    ensures quantity > 0 && productId !in s ==> r == Step(NotFound, s)
    ensures quantity > 0 && productId in s && quantity > s[productId].quantityInStock ==>
      r == Step(Insufficient(productId, quantity, s[productId].quantityInStock), s)
    ensures r.outcome == Ok <==> quantity > 0 && HasAvailableStock(s, productId, quantity)
    ensures r.outcome == Ok ==>
      OnlyRecordChanged(s, r.store, productId)
      && r.store[productId] == s[productId].(
           quantityInStock := s[productId].quantityInStock - quantity,
           updatedAt := now)
    ensures ValidStore(s) ==> ValidStore(r.store)
  {
    if quantity <= 0 then Step(Validation("quantity"), s)
    else if productId !in s then Step(NotFound, s)
    else
      var inventory := s[productId];
      if inventory.quantityInStock < quantity then
        Step(Insufficient(productId, quantity, inventory.quantityInStock), s)
      else
        var inventory' := inventory.(quantityInStock := inventory.quantityInStock - quantity, updatedAt := now);
        Step(Ok, s[productId := OnUpdate(inventory', now)])
  }

  /** `releaseStock`: a positive amount is added back, with no upper bound. */
  function ReleaseStockStep(s: Store, productId: int, quantity: int, now: Timestamp): (r: Step)
    ensures quantity <= 0 ==> r == Step(Validation("quantity"), s)
    ensures quantity > 0 && productId !in s ==> r == Step(NotFound, s)
    ensures r.outcome == Ok <==> quantity > 0 && productId in s
    ensures r.outcome == Ok ==>
      OnlyRecordChanged(s, r.store, productId)
      && r.store[productId] == s[productId].(
           quantityInStock := s[productId].quantityInStock + quantity,
           updatedAt := now)
    ensures ValidStore(s) ==> ValidStore(r.store)
  {
    if quantity <= 0 then Step(Validation("quantity"), s)
    else if productId !in s then Step(NotFound, s)
    else
      var inventory := s[productId];
      var inventory' := inventory.(quantityInStock := inventory.quantityInStock + quantity, updatedAt := now);
      Step(Ok, s[productId := OnUpdate(inventory', now)])
  }

  // ---------------------------------------------------------------------------
  // The additions as Java evaluates them on 32-bit `int`

  const Int32Min: int := -0x8000_0000
  const Int32Max: int := 0x7fff_ffff

  predicate InInt32(x: int) {
    Int32Min <= x <= Int32Max
  }

  /** Java `int` arithmetic: the representable value congruent to `x` modulo 2^32. */
  function WrapInt32(x: int): (r: int)
    ensures InInt32(r)
    ensures (x - r) % 0x1_0000_0000 == 0
    ensures InInt32(x) ==> r == x
  {
    (x - Int32Min) % 0x1_0000_0000 + Int32Min
  }

  /**
   * `addStock` as written: the same checks and stamps as `AddStockStep`, but the
   * new quantity is the wrapped 32-bit sum; it agrees with `AddStockStep`
   * whenever that sum fits.
   */
  function AddStockStep32(s: Store, productId: int, quantity: int, now: Timestamp): (r: Step)
    ensures r.outcome == AddStockStep(s, productId, quantity, now).outcome
    ensures r.outcome != Ok ==> r.store == s
    ensures r.outcome == Ok ==>
      OnlyRecordChanged(s, r.store, productId)
      && r.store[productId] == s[productId].(
           quantityInStock := WrapInt32(s[productId].quantityInStock + quantity),
           lastRestocked := now,
           updatedAt := now)
    ensures productId in s && InInt32(s[productId].quantityInStock + quantity) ==>
      r == AddStockStep(s, productId, quantity, now)
  {
    if quantity <= 0 then Step(Validation("quantity"), s)
    else if productId !in s then Step(NotFound, s)
    else
      var inventory := s[productId];
      var inventory' := inventory.(quantityInStock := WrapInt32(inventory.quantityInStock + quantity),
                                   lastRestocked := now, updatedAt := now);
      Step(Ok, s[productId := OnUpdate(inventory', now)])
  }

  /** `releaseStock` as written: the wrapped 32-bit sum; it agrees with `ReleaseStockStep` whenever that sum fits. */
  function ReleaseStockStep32(s: Store, productId: int, quantity: int, now: Timestamp): (r: Step)
    ensures r.outcome == ReleaseStockStep(s, productId, quantity, now).outcome
    ensures r.outcome != Ok ==> r.store == s
    ensures r.outcome == Ok ==>
      OnlyRecordChanged(s, r.store, productId)
      && r.store[productId] == s[productId].(
           quantityInStock := WrapInt32(s[productId].quantityInStock + quantity),
           updatedAt := now)
    ensures productId in s && InInt32(s[productId].quantityInStock + quantity) ==>
      r == ReleaseStockStep(s, productId, quantity, now)
  {
    if quantity <= 0 then Step(Validation("quantity"), s)
    else if productId !in s then Step(NotFound, s)
    else
      var inventory := s[productId];
      var inventory' := inventory.(quantityInStock := WrapInt32(inventory.quantityInStock + quantity), updatedAt := now);
      Step(Ok, s[productId := OnUpdate(inventory', now)])
  }

  /** A single record at the largest `int` quantity. */
  function FullStore(productId: int): Store {
    map[productId := StockRecord(productId, Int32Max, DefaultReorderLevel, 0, 0)]
  }

  /**
   * Restocking or releasing one unit more than an `int` holds succeeds, and the
   * stored quantity becomes the most negative `int`: the ledger invariant breaks.
   */
  lemma OverflowMakesStockNegative(productId: int, now: Timestamp)
    ensures ValidStore(FullStore(productId))
    ensures AddStockStep32(FullStore(productId), productId, 1, now).outcome == Ok
    ensures AddStockStep32(FullStore(productId), productId, 1, now).store[productId].quantityInStock == Int32Min
    ensures !ValidStore(AddStockStep32(FullStore(productId), productId, 1, now).store)
    ensures ReleaseStockStep32(FullStore(productId), productId, 1, now).store[productId].quantityInStock == Int32Min
    ensures !ValidStore(ReleaseStockStep32(FullStore(productId), productId, 1, now).store)
  {
    assert WrapInt32(Int32Max + 1) == Int32Min;
  }

  /** `updateReorderLevel`: a negative level fails before the lookup; 0 is stored as 0. */
  function UpdateReorderLevelStep(s: Store, productId: int, reorderLevel: int, now: Timestamp): (r: Step)
    ensures reorderLevel < 0 ==> r == Step(Validation("reorderLevel"), s)
    ensures reorderLevel >= 0 && productId !in s ==> r == Step(NotFound, s)
    ensures r.outcome == Ok <==> reorderLevel >= 0 && productId in s
    ensures r.outcome == Ok ==>
      OnlyRecordChanged(s, r.store, productId)
      && r.store[productId] == s[productId].(reorderLevel := reorderLevel, updatedAt := now)
    ensures ValidStore(s) ==> ValidStore(r.store)
  {
    if reorderLevel < 0 then Step(Validation("reorderLevel"), s)
    else if productId !in s then Step(NotFound, s)
    else
      var inventory := s[productId].(reorderLevel := reorderLevel, updatedAt := now);
      Step(Ok, s[productId := OnUpdate(inventory, now)])
  }

  // ---------------------------------------------------------------------------
  // Properties relating several calls

  /** A successful reservation followed by a release of the same amount restores the quantity. */
  lemma ReserveThenReleaseRestores(s: Store, productId: int, quantity: int, t1: Timestamp, t2: Timestamp)
    requires RemoveStockStep(s, productId, quantity, t1).outcome == Ok
    ensures var released := ReleaseStockStep(RemoveStockStep(s, productId, quantity, t1).store, productId, quantity, t2);
      && released.outcome == Ok
      && released.store[productId].quantityInStock == s[productId].quantityInStock
      && released.store == s[productId := s[productId].(updatedAt := t2)]
  {
    var reserved := RemoveStockStep(s, productId, quantity, t1).store;
    var released := ReleaseStockStep(reserved, productId, quantity, t2).store;
    assert released.Keys == s.Keys;
  }

  /** Creating a second record for a product fails and leaves the first one as it was. */
  lemma CreateTwiceIsDuplicate(s: Store, productId: int, stock: int, level: int, stock': int, level': int,
                               t1: Timestamp, t2: Timestamp)
    requires CreateInventoryStep(s, productId, stock, level, t1).outcome == Ok
    requires ValidateInventoryData(productId, stock', level').None?
    ensures var first := CreateInventoryStep(s, productId, stock, level, t1).store;
      CreateInventoryStep(first, productId, stock', level', t2) == Step(Duplicate, first)
  {
  }

  /** `reserveStock` applied `n` times in a row; stops at the first failure. */
  function ReserveRepeatedly(s: Store, productId: int, quantity: int, n: nat, now: Timestamp): (r: Step)
    ensures ValidStore(s) ==> ValidStore(r.store)
    ensures productId in s ==> productId in r.store
    decreases n
  {
    if n == 0 then Step(Ok, s)
    else
      var first := RemoveStockStep(s, productId, quantity, now);
      if first.outcome != Ok then first
      else ReserveRepeatedly(first.store, productId, quantity, n - 1, now)
  }

  /**
   * With `quantity * n` units on hand, `n` reservations of `quantity` all
   * succeed and leave exactly 0; one more reservation of a single unit then
   * fails `Insufficient` (the serialised form of the oversell guarantee).
   */
  lemma {:induction false} ReservationsExhaustStock(s: Store, productId: int, quantity: int, n: nat, now: Timestamp)
    requires productId in s && quantity > 0
    requires s[productId].quantityInStock == quantity * n
    ensures var r := ReserveRepeatedly(s, productId, quantity, n, now);
      && r.outcome == Ok
      && productId in r.store
      && r.store[productId].quantityInStock == 0
      && RemoveStockStep(r.store, productId, 1, now).outcome == Insufficient(productId, 1, 0)
    decreases n
  {
    if n > 0 {
      var first := RemoveStockStep(s, productId, quantity, now);
      assert quantity * n == quantity * (n - 1) + quantity;
      assert first.outcome == Ok;
      assert first.store[productId].quantityInStock == quantity * (n - 1);
      ReservationsExhaustStock(first.store, productId, quantity, n - 1, now);
    }
  }

  // ---------------------------------------------------------------------------
  // The service, updating its repository in place

  class InventoryService {
    /** The inventory repository. */
    var records: Store

    ghost predicate Valid()
      reads this
    {
      ValidStore(records)
    }

    constructor ()
      ensures Valid() && records == map[]
    {
      records := map[];
    }

    method CreateInventory(productId: int, initialStock: int, reorderLevel: int, now: Timestamp) returns (res: Outcome)
      requires Valid()
      modifies this
      ensures Valid()
      ensures Step(res, records) == CreateInventoryStep(old(records), productId, initialStock, reorderLevel, now)
    {
      var inventory := StockRecord(productId, initialStock, reorderLevel, 0, 0);
      var violation := ValidateInventoryData(inventory.productId, inventory.quantityInStock, inventory.reorderLevel);
      if violation.Some? {
        return Validation(violation.value);
      }
      if productId in records {
        return Duplicate;
      }
      inventory := inventory.(lastRestocked := now);
      inventory := inventory.(updatedAt := now);
      records := records[productId := OnPersist(inventory, now)];
      res := Ok;
    }

    method UpdateStock(productId: int, newQuantity: int, now: Timestamp) returns (res: Outcome)
      requires Valid()
      modifies this
      ensures Valid()
      ensures Step(res, records) == UpdateStockStep(old(records), productId, newQuantity, now)
    {
      if newQuantity < 0 {
        return Validation("quantityInStock");
      }
      if productId !in records {
        return NotFound;
      }
      var inventory := records[productId];
      inventory := inventory.(quantityInStock := newQuantity);
      inventory := inventory.(updatedAt := now);
      records := records[productId := OnUpdate(inventory, now)];
      res := Ok;
    }

    method AddStock(productId: int, quantity: int, now: Timestamp) returns (res: Outcome)
      requires Valid()
      modifies this
      ensures Valid()
      ensures Step(res, records) == AddStockStep(old(records), productId, quantity, now)
    {
      if quantity <= 0 {
        return Validation("quantity");
      }
      if productId !in records {
        return NotFound;
      }
      var inventory := records[productId];
      inventory := inventory.(quantityInStock := inventory.quantityInStock + quantity);
      inventory := inventory.(lastRestocked := now);
      inventory := inventory.(updatedAt := now);
      records := records[productId := OnUpdate(inventory, now)];
      res := Ok;
    }

    method RemoveStock(productId: int, quantity: int, now: Timestamp) returns (res: Outcome)
      requires Valid()
      modifies this
      ensures Valid()
      ensures Step(res, records) == RemoveStockStep(old(records), productId, quantity, now)
    {
      if quantity <= 0 {
        return Validation("quantity");
      }
      if productId !in records {
        return NotFound;
      }
      var inventory := records[productId];
      if inventory.quantityInStock < quantity {
        return Insufficient(productId, quantity, inventory.quantityInStock);
      }
      inventory := inventory.(quantityInStock := inventory.quantityInStock - quantity);
      inventory := inventory.(updatedAt := now);
      records := records[productId := OnUpdate(inventory, now)];
      res := Ok;
    }

    /** The same decrement as `RemoveStock`, meant to run inside the caller's unit of work. */
    method ReserveStock(productId: int, quantity: int, now: Timestamp) returns (res: Outcome)
      requires Valid()
      modifies this
      ensures Valid()
      ensures Step(res, records) == RemoveStockStep(old(records), productId, quantity, now)
    {
      if quantity <= 0 {
        return Validation("quantity");
      }
      if productId !in records {
        return NotFound;
      }
      var inventory := records[productId];
      if inventory.quantityInStock < quantity {
        return Insufficient(productId, quantity, inventory.quantityInStock);
      }
      inventory := inventory.(quantityInStock := inventory.quantityInStock - quantity);
      inventory := inventory.(updatedAt := now);
      records := records[productId := OnUpdate(inventory, now)];
      res := Ok;
    }

    method ReleaseStock(productId: int, quantity: int, now: Timestamp) returns (res: Outcome)
      requires Valid()
      modifies this
      ensures Valid()
      ensures Step(res, records) == ReleaseStockStep(old(records), productId, quantity, now)
    {
      if quantity <= 0 {
        return Validation("quantity");
      }
      if productId !in records {
        return NotFound;
      }
      var inventory := records[productId];
      inventory := inventory.(quantityInStock := inventory.quantityInStock + quantity);
      inventory := inventory.(updatedAt := now);
      records := records[productId := OnUpdate(inventory, now)];
      res := Ok;
    }

    method UpdateReorderLevel(productId: int, reorderLevel: int, now: Timestamp) returns (res: Outcome)
      requires Valid()
      modifies this
      ensures Valid()
      ensures Step(res, records) == UpdateReorderLevelStep(old(records), productId, reorderLevel, now)
    {
      if reorderLevel < 0 {
        return Validation("reorderLevel");
      }
      if productId !in records {
        return NotFound;
      }
      var inventory := records[productId];
      inventory := inventory.(reorderLevel := reorderLevel);
      inventory := inventory.(updatedAt := now);
      records := records[productId := OnUpdate(inventory, now)];
      res := Ok;
    }
  }
}

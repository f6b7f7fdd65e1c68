/**
 The store's two roles as objects. A FruitManager owns the inventory and
 changes it in place, writing the whole inventory back to its file after every
 change that succeeds; a Customer buys through a shared FruitManager.

 The file is modelled by what it holds (ghost field `file`) and by how many
 times it has been written (ghost field `saves`), so that "a failed lookup
 does not save" can be stated.
 */
module FruitStore {
  import opened Inventory

  class FruitManager {
    var inventory: Stock
    ghost var file: StoredFile
    ghost var saves: nat

    /** The file holds exactly the in-memory inventory. */
    ghost predicate Synced()
      reads this
    {
      file == Written(inventory)
    }

    /** Starts from whatever the file holds: a missing file, or one that is not valid JSON, gives the empty inventory. */
    constructor (stored: StoredFile)
      ensures inventory == Load(stored)
      ensures stored.Written? ==> Synced()
      ensures file == stored && saves == 0
    {
      inventory := Load(stored);
      file := stored;
      saves := 0;
    }

    /** Overwrites the file with the whole inventory. */
    method SaveInventory()
      modifies this
      ensures inventory == old(inventory)
      ensures Synced() && saves == old(saves) + 1
    {
      file := Written(inventory);
      saves := saves + 1;
    }

    /** Merges a delivery into the inventory, then saves. */
    method AddFruit(name: string, quantity: int, price: int)
      modifies this
      ensures inventory == Added(old(inventory), name, quantity, price)
      ensures Synced() && saves == old(saves) + 1
    {
      if name in inventory {
        inventory := inventory[name := inventory[name].(quantity := inventory[name].quantity + quantity)];
        inventory := inventory[name := inventory[name].(price := price)];
      } else {
        inventory := inventory[name := Entry(quantity, price)];
      }
      SaveInventory();
    }

    /** Adds `delta` to a fruit's quantity and saves; an unknown name changes and saves nothing. */
    method UpdateQuantity(name: string, delta: int) returns (outcome: Outcome)
      modifies this
      ensures (outcome, inventory) == Updated(old(inventory), name, delta)
      ensures outcome == Ok ==> Synced() && saves == old(saves) + 1
      ensures outcome == NotFound ==> file == old(file) && saves == old(saves)
    {
      if name in inventory {
        inventory := inventory[name := inventory[name].(quantity := inventory[name].quantity + delta)];
        SaveInventory();
        outcome := Ok;
      } else {
        outcome := NotFound;
      }
    }

    /** Deletes a fruit's entry and saves; an unknown name changes and saves nothing. */
    method RemoveFruit(name: string) returns (outcome: Outcome)
      modifies this
      ensures (outcome, inventory) == Removed(old(inventory), name)
      ensures outcome == Ok ==> Synced() && saves == old(saves) + 1
      ensures outcome == NotFound ==> file == old(file) && saves == old(saves)
    {
      if name in inventory {
        inventory := inventory - {name};
        SaveInventory();
        outcome := Ok;
      } else {
        outcome := NotFound;
      }
    }
  }

  class Customer {
    const manager: FruitManager

    constructor (manager: FruitManager)
      ensures this.manager == manager
    {
      this.manager := manager;
    }

    /**
     Buys from the shared manager's inventory. A successful purchase saves once:
     through the manager's removal when the stock runs out, directly otherwise.
     An unavailable fruit or insufficient stock changes and saves nothing.
     */
    method BuyFruit(name: string, quantity: int) returns (outcome: Outcome)
      modifies manager
      ensures (outcome, manager.inventory) == Purchase(old(manager.inventory), name, quantity)
      ensures outcome.Bought? ==> manager.Synced() && manager.saves == old(manager.saves) + 1
      ensures !outcome.Bought? ==> manager.file == old(manager.file) && manager.saves == old(manager.saves)
    {
      if name in manager.inventory {
        var available := manager.inventory[name].quantity;
        var pricePerUnit := manager.inventory[name].price;
        if quantity <= available {
          var totalCost := quantity * pricePerUnit;
          manager.inventory := manager.inventory[name := manager.inventory[name].(quantity := manager.inventory[name].quantity - quantity)];
          if manager.inventory[name].quantity == 0 {
            var removed := manager.RemoveFruit(name);
            assert removed == Ok;
          } else {
            manager.SaveInventory();
          }
          outcome := Bought(totalCost);
        } else {
          outcome := Insufficient(available);
        }
      } else {
        outcome := Unavailable;
      }
    }
  }

  /**
   A session on a store that starts with no file: two deliveries of apples at
   2.50 and then 3.00, a purchase of the whole stock, and a second purchase.
   */
  method AppleSession()
  {
    var store := new FruitManager(Missing);
    var customer := new Customer(store);
    store.AddFruit("apple", 10, 250);
    store.AddFruit("apple", 5, 300);
    assert store.inventory["apple"] == Entry(15, 300);
    var first := customer.BuyFruit("apple", 15);
    assert first == Bought(4500);
    assert "apple" !in store.inventory;
    var second := customer.BuyFruit("apple", 1);
    assert second == Unavailable;
    assert store.Synced() && store.saves == 3;
  }
}

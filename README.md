# Fruit store inventory, in Dafny

A model of the inventory state machine of a console fruit store. A manager
adds fruit, changes its quantity or removes it. A customer buys fruit. After
every change that succeeds, the whole inventory is written back to its file
(write-through). The inventory maps a fruit name to an entry holding the
quantity in stock and the unit price.

The project has two modules:

- `inventory.dfy`, module `Inventory`: the inventory as a value (`Entry`,
  `Stock`), the outcomes the operations report (`Outcome`), what the file can
  hold at start-up (`StoredFile`), and one function per operation giving the
  outcome and the new inventory (`Added`, `Updated`, `Removed`, `Purchase`,
  `Load`). The lemmas about them are here too: repeated adds accumulate, and
  which operations keep "every entry has stock" and which break it.
- `fruit_store.dfy`, module `FruitStore`: the classes `FruitManager` and
  `Customer`. They change the inventory in place, as the source does. Each
  method is proved to leave exactly the inventory its `Inventory` function
  gives. Each method also states when the file is written. The ghost field
  `file` holds what the file contains, and the ghost field `saves` counts the
  writes. `Synced()` says the file holds exactly the in-memory inventory.
  `AppleSession` is a client that runs a short session through the methods'
  contracts.

Prices are whole numbers of cents. This keeps a purchase's cost,
quantity × unit price, exact. Quantities are unbounded integers, like Python's.

`buy_fruit` removes an entry whose quantity becomes zero
(FruitStore.py:81-83), but nothing else keeps quantities positive:

- `update_quantity` has no floor and never removes an entry.
- `add_fruit` accepts any quantity and price.
- `buy_fruit` accepts a negative request, which restocks the fruit. The cost
  is request × price, which is negative when the price is positive.
- `buy_fruit` removes an entry whenever the quantity left is exactly zero.
  This can also happen to an entry whose stock was already zero or negative,
  when exactly that amount is requested.

`Inventory.UpdateCanLeaveEmptyEntry` and `Inventory.NegativePurchaseRestocks`
state these behaviours. The `...KeepsInStock` lemmas state when every entry
does stay in stock.

## Model

| member | source | states |
|---|---|---|
| `Inventory.Added` | FruitStore.py:27-33 | the result has the old keys plus the name; a known name gets old quantity + delivered quantity and the new price; an unknown name gets exactly the supplied entry; no other entry changes |
| `Inventory.Updated` | FruitStore.py:47-54 | a known name keeps its key and price, and its quantity becomes old + delta with no floor; the entry is never removed; an unknown name reports NotFound and leaves the inventory unchanged |
| `Inventory.Removed` | FruitStore.py:56-63 | a known name: Ok, and the keys are the old keys minus the name, with every other entry unchanged; an unknown name: NotFound, inventory unchanged |
| `Inventory.Purchase` | FruitStore.py:70-89 | unknown name: Unavailable, nothing changes; request above stock: Insufficient(stock), nothing changes; otherwise Bought(request × unit price), and the entry is removed when the request equals the stock, or keeps its price with quantity lowered by exactly the request; no other entry changes |
| `Inventory.AddedAllAccumulates` | FruitStore.py:29-33 | after any non-empty run of adds for one name, its quantity is its old quantity (0 if absent) plus the sum of the delivered quantities, its price is the last one supplied, and every other entry is unchanged |
| `Inventory.PurchaseKeepsInStock` | FruitStore.py:76-83 | if every entry has a positive quantity, a purchase of any quantity keeps that so: an entry that reaches zero is removed, and a negative request only raises the stock |
| `Inventory.AddKeepsInStock` | FruitStore.py:29-33 | adding a positive quantity keeps every entry's quantity positive |
| `Inventory.RemoveKeepsInStock` | FruitStore.py:58-59 | removing an entry keeps every remaining entry's quantity positive |
| `Inventory.UpdateCanLeaveEmptyEntry` | FruitStore.py:49-50 | an update by a delta that uses up the stock leaves the entry present with zero or fewer units, so the positive-stock rule fails |
| `Inventory.NegativePurchaseRestocks` | FruitStore.py:76-78 | a negative request on non-negative stock is accepted; it costs request × price, which is negative when the price is positive and positive when the price is negative, and it raises the stock by the request's absolute value |
| `FruitStore.FruitManager.constructor` | FruitStore.py:7-20 | the starting inventory is the file's contents when it was written by a save, and empty when the file is missing or not valid JSON; nothing is written |
| `FruitStore.FruitManager.SaveInventory` | FruitStore.py:22-25 | the file afterwards holds exactly the in-memory inventory, which is unchanged; one write |
| `FruitStore.FruitManager.AddFruit` | FruitStore.py:27-35 | the new inventory is `Added` of the old one, and it is written through with one save |
| `FruitStore.FruitManager.UpdateQuantity` | FruitStore.py:47-54 | the outcome and new inventory are `Updated` of the old one; Ok writes through with one save; NotFound leaves the file and the save count unchanged |
| `FruitStore.FruitManager.RemoveFruit` | FruitStore.py:56-63 | the outcome and new inventory are `Removed` of the old one; Ok writes through with one save; NotFound leaves the file and the save count unchanged |
| `FruitStore.Customer.constructor` | FruitStore.py:67-68 | the customer buys through the manager it is given |
| `FruitStore.Customer.BuyFruit` | FruitStore.py:70-89 | the outcome and the shared manager's new inventory are `Purchase` of the old one; a purchase writes through with exactly one save; Unavailable and Insufficient leave the file and the save count unchanged |

## Left out

- The contents of `load_inventory` and `save_inventory`: the JSON encoding and file I/O. The file is modelled by what it holds (`StoredFile`). A failure when writing the file (an I/O error raised to the caller) is not modelled.
- The warning printed for a malformed file, the success and error messages printed by every operation, and `view_inventory`. That method only prints the inventory, or a note that it is empty, and changes nothing.
- The `FruitStoreApp` menus, the `input()` loops and the re-prompting after non-numeric input. These are the interactive front end.
- Floating-point prices and two-decimal display. Prices are integer cents, so the model has no rounding in a purchase's cost.
- The JSON round trip of names and numbers is not modelled. The file is represented by the inventory it holds, so loading what a save wrote gives that inventory back by construction, not by a proof about the JSON encoding.
- Read errors other than a missing file or a JSON decode error are not modelled: a file that cannot be opened, or whose bytes do not decode, raises out of the constructor and ends the program. A valid JSON file that no save wrote, possibly of another shape, is not modelled either.

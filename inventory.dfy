/**
 The fruit store's inventory as a value: a map from fruit name to an entry
 holding the units in stock and the unit price. Each function below gives the
 inventory that one operation of the store leaves behind and, where the
 operation reports one, its outcome; the classes in module FruitStore are proved against them.

 Prices are whole numbers of cents, so that a purchase's cost is exact.
 */
module Inventory {

  /** One fruit's record. Neither field is validated by the store: both may be negative. */
  datatype Entry = Entry(quantity: int, price: int)

  /** The inventory: fruit name to entry. */
  type Stock = map<string, Entry>

  /** What an operation reports to its caller. */
  datatype Outcome =
    | Ok                          // update or removal done
    | NotFound                    // update or removal of a name not in the inventory
    | Unavailable                 // purchase of a name not in the inventory
    | Insufficient(available: int) // purchase of more than is in stock
    | Bought(totalCost: int)      // purchase done, at this cost in cents

  /** What the inventory file holds when the store starts. */
  datatype StoredFile =
    | Missing                     // no file at the path
    | Malformed                   // a file that is not valid JSON
    | Written(contents: Stock)    // a file written by a save of `contents`

  /** The inventory the store starts from: a missing file, or one that is not valid JSON, gives the empty one. */
  function Load(f: StoredFile): (r: Stock)
  {
    match f
    case Written(m) => m
    case _ => map[]
  }

  /** Every entry other than `name` is the same in `s` and `t`, and no other key is gained or lost. */
  ghost predicate OthersUnchanged(s: Stock, t: Stock, name: string)
  {
    && (forall k :: k in s && k != name ==> k in t && t[k] == s[k])
    && (forall k :: k in t && k != name ==> k in s)
  }

  /**
   Adding stock: a known name gets the quantity added to what it has and its
   price replaced; an unknown name gets a new entry. Nothing is validated.
   */
  function Added(s: Stock, name: string, quantity: int, price: int): (r: Stock)
    ensures r.Keys == s.Keys + {name}
    ensures name in s ==> r[name] == Entry(s[name].quantity + quantity, price)
    ensures name !in s ==> r[name] == Entry(quantity, price)
    ensures OthersUnchanged(s, r, name)
  {
    if name in s then
      s[name := s[name].(quantity := s[name].quantity + quantity, price := price)]
    else
      s[name := Entry(quantity, price)]
  }

  /**
   Changing a fruit's quantity by `delta`: no floor is applied and the entry
   stays even when its quantity reaches zero or below. An unknown name is
   reported and the inventory is left as it is.
   */
  function Updated(s: Stock, name: string, delta: int): (r: (Outcome, Stock))
    ensures name !in s ==> r == (NotFound, s)
    ensures name in s ==> r.0 == Ok && r.1.Keys == s.Keys
    ensures name in s ==> r.1[name] == Entry(s[name].quantity + delta, s[name].price)
    ensures OthersUnchanged(s, r.1, name)
  {
    if name in s then
      (Ok, s[name := s[name].(quantity := s[name].quantity + delta)])
    else
      (NotFound, s)
  }

  /** Removing a fruit: its entry goes, every other stays. An unknown name is reported. */
  function Removed(s: Stock, name: string): (r: (Outcome, Stock))
    ensures name !in s ==> r == (NotFound, s)
    ensures name in s ==> r.0 == Ok && r.1.Keys == s.Keys - {name}
    ensures OthersUnchanged(s, r.1, name)
  {
    if name in s then (Ok, s - {name}) else (NotFound, s)
  }

  /**
   A customer buying `quantity` units of `name`. An unknown name is reported
   as unavailable, a request above the stock as insufficient (with the stock);
   in both cases nothing changes. Otherwise the cost is the requested quantity
   times the unit price, the quantity drops by the request, and the entry is
   removed when exactly zero is left. The sign of the request is not checked.
   */
  function Purchase(s: Stock, name: string, quantity: int): (r: (Outcome, Stock))
    ensures name !in s ==> r == (Unavailable, s)
    ensures name in s && quantity > s[name].quantity ==> r == (Insufficient(s[name].quantity), s)
    ensures name in s && quantity <= s[name].quantity ==> r.0 == Bought(quantity * s[name].price)
    ensures name in s && quantity == s[name].quantity ==> r.1.Keys == s.Keys - {name}
    ensures name in s && quantity < s[name].quantity ==>
      r.1.Keys == s.Keys && r.1[name] == Entry(s[name].quantity - quantity, s[name].price)
    ensures OthersUnchanged(s, r.1, name)
  {
    if name in s then
      var available := s[name].quantity;
      var pricePerUnit := s[name].price;
      if quantity <= available then
        var totalCost := quantity * pricePerUnit;
        var decremented := s[name := s[name].(quantity := available - quantity)];
        if decremented[name].quantity == 0 then
          (Bought(totalCost), Removed(decremented, name).1)
        else
          (Bought(totalCost), decremented)
      else
        (Insufficient(available), s)
    else
      (Unavailable, s)
  }

  // ---------------------------------------------------------------------------
  // A run of deliveries of the same fruit.

  /** One call of the add operation: the quantity delivered and the price now asked. */
  datatype Delivery = Delivery(quantity: int, price: int)

  function TotalQuantity(ds: seq<Delivery>): (r: int)
    decreases |ds|
  {
    if ds == [] then 0 else ds[0].quantity + TotalQuantity(ds[1..])
  }

  /** The inventory after adding each delivery of `ds` to `name`, first to last. */
  function AddedAll(s: Stock, name: string, ds: seq<Delivery>): (r: Stock)
    decreases |ds|
  {
    if ds == [] then s else AddedAll(Added(s, name, ds[0].quantity, ds[0].price), name, ds[1..])
  }

  /**
   After a non-empty run of adds for one name, its quantity is what it had
   (none, if it was absent) plus the sum of the delivered quantities, its price
   is the last one given, and every other entry is untouched.
   */
  lemma {:induction false} AddedAllAccumulates(s: Stock, name: string, ds: seq<Delivery>)
    requires |ds| > 0
    ensures name in AddedAll(s, name, ds)
    ensures AddedAll(s, name, ds)[name] ==
      Entry((if name in s then s[name].quantity else 0) + TotalQuantity(ds), ds[|ds| - 1].price)
    ensures OthersUnchanged(s, AddedAll(s, name, ds), name)
    decreases |ds|
  {
    var s' := Added(s, name, ds[0].quantity, ds[0].price);
    if |ds| > 1 {
      AddedAllAccumulates(s', name, ds[1..]);
      assert ds[1..][|ds[1..]| - 1] == ds[|ds| - 1];
    } else {
      assert ds[1..] == [];
    }
  }

  // ---------------------------------------------------------------------------
  // The "every entry is in stock" invariant, and which operations keep it.

  /** Every entry has at least one unit: zero-quantity records are not retained. */
  ghost predicate InStock(s: Stock)
  {
    forall k :: k in s ==> s[k].quantity > 0
  }

  /**
   A purchase of any quantity keeps every entry in stock: one that runs out is
   removed, and a negative request only raises the stock.
   */
  lemma PurchaseKeepsInStock(s: Stock, name: string, quantity: int)
    requires InStock(s)
    ensures InStock(Purchase(s, name, quantity).1)
  {
  }

  /** Adding a positive quantity keeps every entry in stock. */
  lemma AddKeepsInStock(s: Stock, name: string, quantity: int, price: int)
    requires InStock(s) && quantity > 0
    ensures InStock(Added(s, name, quantity, price))
  {
  }

  /** Removing a fruit keeps every entry in stock. */
  lemma RemoveKeepsInStock(s: Stock, name: string)
    requires InStock(s)
    ensures InStock(Removed(s, name).1)
  {
  }

  /**
   Updating by a delta that uses up the stock breaks the invariant: the entry
   stays in the inventory with zero or fewer units.
   */
  lemma UpdateCanLeaveEmptyEntry(s: Stock, name: string, delta: int)
    requires name in s && delta <= -s[name].quantity
    ensures name in Updated(s, name, delta).1
    ensures Updated(s, name, delta).1[name].quantity <= 0
    ensures !InStock(Updated(s, name, delta).1)
  {
  }

  /**
   Buying a negative quantity is accepted: it restocks the fruit and reports
   request times price as the cost, which is negative when the price is
   positive and positive when the price is negative; an entry that was not
   below zero is not removed by it.
   */
  lemma NegativePurchaseRestocks(s: Stock, name: string, quantity: int)
    requires name in s && quantity < 0 <= s[name].quantity
    ensures Purchase(s, name, quantity).0 == Bought(quantity * s[name].price)
    ensures s[name].price > 0 ==> Purchase(s, name, quantity).0.totalCost < 0
    ensures s[name].price < 0 ==> Purchase(s, name, quantity).0.totalCost > 0
    ensures name in Purchase(s, name, quantity).1
    ensures Purchase(s, name, quantity).1[name].quantity == s[name].quantity - quantity
    ensures Purchase(s, name, quantity).1[name].quantity > s[name].quantity
  {
  }
}

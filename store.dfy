/** The in-memory product catalog (`ProductManajer`): an ordered list of
    products, the id counter, and the JSON file the list is persisted to. */
module Store {
  import opened JsValues
  import opened ProductRecord
  import opened Catalog

  /** Why an operation did not succeed. */
  datatype Failure =
    | DuplicateCode          // addProduct: the code is already in use
    | NotFound(id: int)      // updProduct / delProduct: no product has this id
    | WriteFailed            // #writefile: writing the JSON file failed

  datatype Result<T> = Ok(value: T) | Err(error: Failure)

  datatype Outcome = Done | Failed(error: Failure)

  class ProductManajer {
    /** `this.Products`, in insertion order. */
    var products: seq<Product>
    /** `ProductManajer.id`: the last id handed out (or loaded). */
    var lastId: int
    /** The persisted JSON file, decoded: `None` when it is missing or does not
        parse as a list. */
    var file: Option<seq<Product>>

    /** Ids increase along the list and none exceeds the counter, so the next
        id the counter produces is fresh. */
    ghost predicate Valid()
      reads this
    {
      IdsIncreasing(products) && IdsAtMost(products, lastId)
    }

    /** A new manager: empty list, counter 0, and whatever the file holds. */
    constructor (stored: Option<seq<Product>>)
      ensures products == [] && lastId == 0 && file == stored
      ensures Valid()
    {
      products := [];
      lastId := 0;
      file := stored;
    }

    /** `init`: when the file holds a non-empty list, push its entries in file
        order and set the counter to the last entry's id; when it is missing,
        unreadable or empty, the error is caught and nothing changes. */
    method Init()
      modifies this
      ensures file == old(file)
      ensures (products, lastId) == LoadInto(old(products), old(lastId), file)
      ensures old(products) == [] && file.Some? && IdsIncreasing(file.value) ==> Valid()
    {
      var content := file;
      if content.None? || content.value == [] {
        return;
      }
      var entries := content.value;
      var k := 0;
      while k < |entries|
        invariant 0 <= k <= |entries|
        invariant products == old(products) + entries[..k]
        invariant file == old(file) && lastId == old(lastId)
      {
        products := products + [entries[k]];
        k := k + 1;
      }
      assert entries[..k] == entries;
      lastId := entries[|entries| - 1].id;
      assert (products, lastId) == LoadInto(old(products), old(lastId), Some(entries));
      if old(products) == [] && IdsIncreasing(entries) {
        ReloadRoundTrip(entries, lastId);
      }
    }

    /** `#writefile`: store the whole list in the file. `ioOk` is the outcome
        of the write, which the model takes as given. */
    method WriteFile(ioOk: bool) returns (ok: bool)
      modifies this`file
      ensures ok == ioOk
      ensures file == if ok then Some(products) else old(file)
    {
      ok := ioOk;
      if ok {
        file := Some(products);
      }
    }

    /** `#codeCheck`: the first product whose code is `===` to `code`, if any. */
    method CodeCheck(code: Value) returns (found: Option<Product>)
      ensures found.Some? <==> CodeTaken(products, code)
      ensures found.Some? ==>
        exists k :: 0 <= k < |products| && found.value == products[k] && StrictEq(products[k].code, code)
          && forall j :: 0 <= j < k ==> !StrictEq(products[j].code, code)
    {
      var k := 0;
      while k < |products|
        invariant 0 <= k <= |products|
        invariant forall j :: 0 <= j < k ==> !StrictEq(products[j].code, code)
      {
        if StrictEq(products[k].code, code) {
          return Some(products[k]);
        }
        k := k + 1;
      }
      return None;
    }

    /** `findIndex(el => el.id === id)` over the list. */
    method FindIndex(id: int) returns (i: int)
      ensures i == IndexOfId(products, id)
    {
      i := 0;
      while i < |products| && products[i].id != id
        invariant 0 <= i <= |products|
        invariant forall j :: 0 <= j < i ==> products[j].id != id
      {
        i := i + 1;
      }
      if i == |products| {
        i := -1;
      }
    }

    /** `addProduct`: a taken code is refused before anything changes;
        otherwise the counter is incremented, the new product appended and the
        file written. A failed write is reported, but the product stays in the
        list and the counter stays incremented. */
    method AddProduct(input: ProductInput, ioOk: bool) returns (r: Result<Product>)
      modifies this
      ensures CodeTaken(old(products), input.code) ==>
        r == Err(DuplicateCode) && products == old(products) && lastId == old(lastId) && file == old(file)
      ensures !CodeTaken(old(products), input.code) ==>
        && lastId == old(lastId) + 1
        && products == old(products) + [NewProduct(lastId, input)]
        && (ioOk ==> r == Ok(NewProduct(lastId, input)) && file == Some(products))
        && (!ioOk ==> r == Err(WriteFailed) && file == old(file))
      ensures old(Valid()) ==> Valid()
      ensures old(CodesUnique(products)) ==> CodesUnique(products)
      ensures old(Valid()) && r.Ok? ==> IndexOfId(old(products), r.value.id) == -1
    {
      var taken := CodeCheck(input.code);
      if taken.Some? {
        return Err(DuplicateCode);
      }
      ghost var before := products;
      lastId := lastId + 1;
      var pr := NewProduct(lastId, input);
      products := products + [pr];
      if IdsIncreasing(before) && IdsAtMost(before, lastId - 1) {
        AppendFreshKeepsIds(before, lastId - 1, pr);
      }
      if CodesUnique(before) {
        AppendKeepsCodesUnique(before, pr);
      }
      var ok := WriteFile(ioOk);
      if ok {
        r := Ok(pr);
      } else {
        r := Err(WriteFailed);
      }
    }

    /** `updProduct`: an unknown id is refused before anything changes;
        otherwise the first product with that id is replaced by its merge with
        the input and the file written. The counter never changes. */
    method UpdProduct(id: int, input: ProductInput, ioOk: bool) returns (r: Result<Product>)
      modifies this
      ensures lastId == old(lastId)
      ensures IndexOfId(old(products), id) == -1 ==>
        r == Err(NotFound(id)) && products == old(products) && file == old(file)
      ensures IndexOfId(old(products), id) >= 0 ==>
        var i := IndexOfId(old(products), id);
        && products == old(products)[i := Merge(old(products)[i], input)]
        && (ioOk ==> r == Ok(products[i]) && file == Some(products))
        && (!ioOk ==> r == Err(WriteFailed) && file == old(file))
      ensures old(Valid()) ==> Valid()
    {
      var i := FindIndex(id);
      if i == -1 {
        return Err(NotFound(id));
      }
      var selected := products[i];
      products := products[i := Merge(selected, input)];
      ReplaceKeepsIds(old(products), i, products[i], lastId);
      var ok := WriteFile(ioOk);
      if ok {
        r := Ok(products[i]);
      } else {
        r := Err(WriteFailed);
      }
    }

    /** `delProduct`: an unknown id is refused before anything changes;
        otherwise the first product with that id is spliced out and the file
        written. The counter never changes. */
    method DelProduct(id: int, ioOk: bool) returns (r: Outcome)
      modifies this
      ensures lastId == old(lastId)
      ensures IndexOfId(old(products), id) == -1 ==>
        r == Failed(NotFound(id)) && products == old(products) && file == old(file)
      ensures IndexOfId(old(products), id) >= 0 ==>
        && products == RemoveAt(old(products), IndexOfId(old(products), id))
        && (ioOk ==> r == Done && file == Some(products))
        && (!ioOk ==> r == Failed(WriteFailed) && file == old(file))
      ensures old(Valid()) ==> Valid() && IndexOfId(products, id) == -1
      ensures old(CodesUnique(products)) ==> CodesUnique(products)
    {
      var i := FindIndex(id);
      if i == -1 {
        return Failed(NotFound(id));
      }
      RemoveFoundKeepsInvariants(products, id, lastId);
      products := RemoveAt(products, i);
      var ok := WriteFile(ioOk);
      if ok {
        r := Done;
      } else {
        r := Failed(WriteFailed);
      }
    }

    /** `getAll`: the current list. */
    method GetAll() returns (all: seq<Product>)
      ensures all == products
    {
      all := products;
    }

    /** `getById`: the first product with this id, or nothing. */
    method GetById(id: int) returns (found: Option<Product>)
      ensures found.None? <==> forall j :: 0 <= j < |products| ==> products[j].id != id
      ensures found.Some? ==> found.value.id == id && found.value == products[IndexOfId(products, id)]
      ensures Valid() && found.Some? ==> forall j :: 0 <= j < |products| && products[j].id == id ==> products[j] == found.value
    {
      var i := FindIndex(id);
      if i == -1 {
        found := None;
      } else {
        found := Some(products[i]);
        if Valid() {
          forall j | 0 <= j < |products| && products[j].id == id
            ensures products[j] == found.value
          {
            IncreasingIdsAreDistinct(products);
            IndexOfIdIsOnlyMatch(products, id, j);
          }
        }
      }
    }
  }
}

/** Clients of the catalog that walk through a few end-to-end scenarios using
    only the contracts of the store's methods. */
module Scenarios {
  import opened JsValues
  import opened ProductRecord
  import opened Catalog
  import opened Store

  function Pen(): ProductInput {
    ProductInput(Str("Pen"), Undefined, Str("P1"), Num(1), Undefined, Num(10), Str("office"), Undefined)
  }

  /** Adding "Pen" to an empty catalog yields id 1 with status true; a second
      product with code "P1" is then refused and nothing changes. */
  method AddThenDuplicate()
  {
    var pm := new ProductManajer(None);
    var r := pm.AddProduct(Pen(), true);
    assert r.Ok? && r.value.id == 1 && r.value.status == Bool(true);
    assert |pm.products| == 1 && pm.file == Some(pm.products);

    assert StrictEq(pm.products[0].code, Str("P1"));
    var r2 := pm.AddProduct(Pen().(title := Str("Pencil")), true);
    assert r2 == Err(DuplicateCode) && |pm.products| == 1 && pm.lastId == 1;
  }

  /** Updating a product with `{status: false}` sets its status to true. */
  method UpdateStatusFalse(p: Product)
    requires p.id == 1
  {
    var pm := new ProductManajer(Some([p]));
    pm.Init();
    var off := ProductInput(Undefined, Undefined, Undefined, Undefined, Bool(false), Undefined, Undefined, Undefined);
    var r := pm.UpdProduct(1, off, true);
    assert r.Ok? && r.value.status == Bool(true) && r.value.id == 1;
  }

  /** Deleting does not reset the counter: after deleting id 1 the next
      product gets id 2, and deleting id 1 again reports NotFound. */
  method DeleteKeepsCounter()
  {
    var pm := new ProductManajer(None);
    var r := pm.AddProduct(Pen(), true);
    assert pm.products == [NewProduct(1, Pen())] && pm.lastId == 1;
    assert IndexOfId(pm.products, 1) == 0;
    var d := pm.DelProduct(1, true);
    assert d == Done && pm.products == [];
    var d2 := pm.DelProduct(1, true);
    assert d2 == Failed(NotFound(1)) && pm.products == [] && pm.lastId == 1;
    assert !CodeTaken(pm.products, Pen().code);
    var r2 := pm.AddProduct(Pen(), true);
    assert r2.Ok? && r2.value.id == 2;
  }
}

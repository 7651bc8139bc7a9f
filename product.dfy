/** A catalog entry and the two ways one is built: the `Product` constructor,
    which copies a creation request and gives it a new id, and the field merge
    that `updProduct` performs on an existing entry. */
module ProductRecord {
  import opened JsValues

  /** A stored product. Only `id` is typed; every other field holds whatever
      the client or the JSON file supplied. */
  datatype Product = Product(
    id: int,
    title: Value,
    description: Value,
    code: Value,
    price: Value,
    status: Value,
    stock: Value,
    category: Value,
    thumbnails: Value)

  /** The fields a client sends to create or update a product (no id). A field
      the client left out is `Undefined`. */
  datatype ProductInput = ProductInput(
    title: Value,
    description: Value,
    code: Value,
    price: Value,
    status: Value,
    stock: Value,
    category: Value,
    thumbnails: Value)

  /** The seven fields that an update merges one by one (all but id and status),
      in a fixed order. */
  function Fields(p: Product): (fs: seq<Value>)
    ensures |fs| == 7
  {
    [p.title, p.description, p.code, p.price, p.stock, p.category, p.thumbnails]
  }

  /** The same seven fields of a request, in the same order. */
  function InputFields(input: ProductInput): seq<Value>
  {
    [input.title, input.description, input.code, input.price, input.stock, input.category, input.thumbnails]
  }

  /** The `Product` constructor, given the id the counter has just produced:
      the request's fields are copied as they are and a falsy or missing
      status becomes `true`. */
  function NewProduct(id: int, input: ProductInput): (p: Product)
    ensures p.id == id
    ensures Fields(p) == InputFields(input)
    ensures p.status == Or(input.status, Bool(true))
    ensures Truthy(p.status)
    ensures !Truthy(input.status) ==> p.status == Bool(true)
  {
    Product(id, input.title, input.description, input.code, input.price,
            Or(input.status, Bool(true)), input.stock, input.category, input.thumbnails)
  }

  /** The record `updProduct` writes over an existing entry `p`: the id is kept,
      each merged field takes the input's value when that is truthy and keeps
      the old one otherwise, and status takes the input's value when truthy and
      becomes `true` otherwise (the old status is never kept). */
  function Merge(p: Product, input: ProductInput): (r: Product)
    ensures r.id == p.id
    ensures forall k :: 0 <= k < 7 ==> Fields(r)[k] == Or(InputFields(input)[k], Fields(p)[k])
    ensures r.status == Or(input.status, Bool(true))
    ensures Truthy(r.status)
    ensures !Truthy(input.status) ==> r.status == Bool(true)
  {
    Product(
      p.id,
      Or(input.title, p.title),
      Or(input.description, p.description),
      Or(input.code, p.code),
      Or(input.price, p.price),
      Or(input.status, Bool(true)),
      Or(input.stock, p.stock),
      Or(input.category, p.category),
      Or(input.thumbnails, p.thumbnails))
  }

  /** An input whose every field, status included, is falsy. */
  predicate AllFalsy(input: ProductInput) {
    !Truthy(input.status) && forall k :: 0 <= k < 7 ==> !Truthy(InputFields(input)[k])
  }

  /** Repeating an update with the same input changes nothing more. */
  lemma MergeIdempotent(p: Product, input: ProductInput)
    ensures Merge(Merge(p, input), input) == Merge(p, input)
  {
  }

  /** An update never clears a field: a truthy field stays truthy whatever the
      input holds. */
  lemma MergeNeverClears(p: Product, input: ProductInput, k: nat)
    requires k < 7
    ensures Truthy(Fields(p)[k]) ==> Truthy(Fields(Merge(p, input))[k])
  {
  }

  /** An update whose input is entirely falsy (for instance `{status: false}`)
      leaves the product as it was except that status becomes `true`. */
  lemma MergeFalsyInput(p: Product, input: ProductInput)
    requires AllFalsy(input)
    ensures Merge(p, input) == p.(status := Bool(true))
  {
    assert !Truthy(InputFields(input)[0]) && !Truthy(InputFields(input)[1]);
    assert !Truthy(InputFields(input)[2]) && !Truthy(InputFields(input)[3]);
    assert !Truthy(InputFields(input)[4]) && !Truthy(InputFields(input)[5]);
    assert !Truthy(InputFields(input)[6]);
  }
}

/** Facts about the product list the catalog keeps: the searches it runs over
    it, the invariants on ids and codes, and how adding, replacing and removing
    an entry affects them. */
module Catalog {
  import opened JsValues
  import opened ProductRecord

  datatype Option<T> = None | Some(value: T)

  /** `findIndex(el => el.id === id)`: the position of the first product with
      this id, or -1 when there is none. */
  function IndexOfId(s: seq<Product>, id: int): (i: int)
    ensures -1 <= i < |s|
    ensures 0 <= i ==> s[i].id == id && forall j :: 0 <= j < i ==> s[j].id != id
    ensures i == -1 <==> forall j :: 0 <= j < |s| ==> s[j].id != id
  {
    if s == [] then -1
    else if s[0].id == id then 0
    else
      var k := IndexOfId(s[1..], id);
      if k == -1 then -1 else k + 1
  }

  /** Some stored product's code is `===` to `code`. */
  ghost predicate CodeTaken(s: seq<Product>, code: Value) {
    exists i :: 0 <= i < |s| && StrictEq(s[i].code, code)
  }

  /** No two stored products have `===` codes. */
  ghost predicate CodesUnique(s: seq<Product>) {
    forall i, j :: 0 <= i < j < |s| ==> !StrictEq(s[i].code, s[j].code)
  }

  /** Ids grow strictly along the list, so in particular they are distinct. */
  ghost predicate IdsIncreasing(s: seq<Product>) {
    forall i, j :: 0 <= i < j < |s| ==> s[i].id < s[j].id
  }

  /** No two stored products share an id. */
  ghost predicate IdsDistinct(s: seq<Product>) {
    forall i, j :: 0 <= i < j < |s| ==> s[i].id != s[j].id
  }

  lemma IncreasingIdsAreDistinct(s: seq<Product>)
    ensures IdsIncreasing(s) ==> IdsDistinct(s)
  {
  }

  /** No stored id exceeds `bound` (the id counter). */
  ghost predicate IdsAtMost(s: seq<Product>, bound: int) {
    forall i :: 0 <= i < |s| ==> s[i].id <= bound
  }

  /** `splice(i, 1)`: the list without its i-th entry. */
  function RemoveAt(s: seq<Product>, i: int): (r: seq<Product>)
    requires 0 <= i < |s|
    ensures |r| == |s| - 1
    ensures multiset(r) == multiset(s) - multiset{s[i]}
  {
    assert s == [s[0]] + s[1..];
    if i == 0 then s[1..] else [s[0]] + RemoveAt(s[1..], i - 1)
  }

  /** The entries before position i keep their places; those after it move
      down by one. */
  lemma {:induction false} RemoveAtKeepsOrder(s: seq<Product>, i: int)
    requires 0 <= i < |s|
    ensures forall k :: 0 <= k < i ==> RemoveAt(s, i)[k] == s[k]
    ensures forall k :: i <= k < |s| - 1 ==> RemoveAt(s, i)[k] == s[k + 1]
  {
    if i > 0 {
      RemoveAtKeepsOrder(s[1..], i - 1);
    }
  }

  /** The list and counter that loading `content` leaves behind: a missing or
      empty file changes nothing; otherwise every entry is appended in file
      order and the counter becomes the id of the LAST entry. */
  function LoadInto(s: seq<Product>, counter: int, content: Option<seq<Product>>): (r: (seq<Product>, int))
    ensures content.None? || content.value == [] ==> r == (s, counter)
    ensures content.Some? ==> |r.0| == |s| + |content.value|
    ensures content.Some? ==> r.0[..|s|] == s && r.0[|s|..] == content.value
    ensures content.Some? && content.value != [] ==> r.1 == r.0[|r.0| - 1].id
  {
    if content.None? || content.value == [] then (s, counter)
    else (s + content.value, content.value[|content.value| - 1].id)
  }

  /** With distinct ids the first match is the only match. */
  lemma IndexOfIdIsOnlyMatch(s: seq<Product>, id: int, j: int)
    requires IdsDistinct(s)
    requires 0 <= j < |s| && s[j].id == id
    ensures IndexOfId(s, id) == j
  {
  }

  /** Appending a product that carries the incremented counter keeps ids
      increasing and bounded by the counter, and its id was not in use. */
  lemma AppendFreshKeepsIds(s: seq<Product>, counter: int, p: Product)
    requires IdsIncreasing(s) && IdsAtMost(s, counter)
    requires p.id == counter + 1
    ensures IndexOfId(s, p.id) == -1
    ensures IdsIncreasing(s + [p]) && IdsAtMost(s + [p], counter + 1)
  {
  }

  /** Appending a product whose code is not taken keeps codes unique. */
  lemma AppendKeepsCodesUnique(s: seq<Product>, p: Product)
    requires CodesUnique(s) && !CodeTaken(s, p.code)
    ensures CodesUnique(s + [p])
  {
  }

  /** Removing an entry keeps ids increasing and bounded and codes unique. */
  lemma {:induction false} RemoveKeepsInvariants(s: seq<Product>, i: int, bound: int)
    requires 0 <= i < |s|
    ensures IdsIncreasing(s) ==> IdsIncreasing(RemoveAt(s, i))
    ensures IdsAtMost(s, bound) ==> IdsAtMost(RemoveAt(s, i), bound)
    ensures CodesUnique(s) ==> CodesUnique(RemoveAt(s, i))
  {
    var r := RemoveAt(s, i);
    RemoveAtKeepsOrder(s, i);
    forall a | 0 <= a < |r| ensures r[a] == s[if a < i then a else a + 1] {
    }
  }

  /** Removing the entry found for `id` leaves no entry with that id, provided
      ids were distinct. */
  lemma {:induction false} RemoveFoundLeavesNoMatch(s: seq<Product>, id: int)
    requires IdsDistinct(s)
    requires IndexOfId(s, id) >= 0
    ensures IndexOfId(RemoveAt(s, IndexOfId(s, id)), id) == -1
  {
    var i := IndexOfId(s, id);
    var r := RemoveAt(s, i);
    RemoveAtKeepsOrder(s, i);
    forall k | 0 <= k < |r| ensures r[k].id != id {
      if k < i {
        assert r[k] == s[k];
      } else {
        assert r[k] == s[k + 1];
        assert s[i].id != s[k + 1].id;
      }
    }
  }

  /** Everything `delProduct` preserves, for the entry found for `id`. */
  lemma {:induction false} RemoveFoundKeepsInvariants(s: seq<Product>, id: int, bound: int)
    requires IndexOfId(s, id) >= 0
    ensures IdsIncreasing(s) && IdsAtMost(s, bound) ==>
      var r := RemoveAt(s, IndexOfId(s, id));
      IdsIncreasing(r) && IdsAtMost(r, bound) && IndexOfId(r, id) == -1
    ensures CodesUnique(s) ==> CodesUnique(RemoveAt(s, IndexOfId(s, id)))
  {
    RemoveKeepsInvariants(s, IndexOfId(s, id), bound);
    if IdsIncreasing(s) {
      IncreasingIdsAreDistinct(s);
      RemoveFoundLeavesNoMatch(s, id);
    }
  }

  /** Replacing an entry by one with the same id keeps the id invariants. */
  lemma ReplaceKeepsIds(s: seq<Product>, i: int, p: Product, bound: int)
    requires 0 <= i < |s| && p.id == s[i].id
    ensures IdsIncreasing(s) ==> IdsIncreasing(s[i := p])
    ensures IdsAtMost(s, bound) ==> IdsAtMost(s[i := p], bound)
  {
  }

  /** The update path performs no code check: giving entry j the (truthy) code
      of another entry i produces two entries with the same code. */
  lemma {:induction false} UpdateCanDuplicateCode(s: seq<Product>, i: int, j: int, input: ProductInput)
    requires 0 <= i < |s| && 0 <= j < |s| && i != j
    requires Truthy(input.code) && StrictEq(s[i].code, input.code)
    ensures !CodesUnique(s[j := Merge(s[j], input)])
  {
    var t := s[j := Merge(s[j], input)];
    assert Fields(t[j])[2] == input.code;
    assert StrictEq(t[i].code, t[j].code);
    if i < j {
      assert !(forall a, b :: 0 <= a < b < |t| ==> !StrictEq(t[a].code, t[b].code));
    } else {
      assert StrictEq(t[j].code, t[i].code);
    }
  }

  /** Reloading any list that was written out gives back that list. When its
      ids were increasing, the counter taken from its last entry bounds them
      all, so the reloaded store hands out fresh ids again; and that counter
      is at most any bound the ids were under. */
  lemma ReloadRoundTrip(s: seq<Product>, counter: int)
    ensures LoadInto([], 0, Some(s)).0 == s
    ensures IdsIncreasing(s) ==> IdsAtMost(s, LoadInto([], 0, Some(s)).1)
    ensures IdsAtMost(s, counter) && s != [] ==> LoadInto([], 0, Some(s)).1 <= counter
  {
    var r := LoadInto([], 0, Some(s));
    assert r.0 == [] + s == s;
    if s != [] {
      assert r.1 == s[|s| - 1].id;
    }
  }

  /** The counter comes from the last entry, not the largest id: when a larger
      id sits earlier in the file, the next id handed out is already in use. */
  lemma LastEntryCounterCanCollide(s: seq<Product>, j: int)
    requires 0 <= j < |s| && s[j].id == s[|s| - 1].id + 1
    ensures IndexOfId(s, LoadInto([], 0, Some(s)).1 + 1) >= 0
  {
  }

  /** Deleting the newest product and reloading never moves the counter past
      the deleted product's id; when the two newest ids were consecutive, the
      counter hands out the deleted product's id a second time. */
  lemma {:induction false} ReloadAfterDeletingNewestReissuesId(s: seq<Product>)
    requires |s| >= 2 && IdsIncreasing(s)
    ensures LoadInto([], 0, Some(RemoveAt(s, |s| - 1))).1 + 1 <= s[|s| - 1].id
    ensures s[|s| - 1].id == s[|s| - 2].id + 1 ==>
      LoadInto([], 0, Some(RemoveAt(s, |s| - 1))).1 + 1 == s[|s| - 1].id
  {
    var r := RemoveAt(s, |s| - 1);
    RemoveAtKeepsOrder(s, |s| - 1);
    assert r[|r| - 1] == s[|s| - 2];
  }
}

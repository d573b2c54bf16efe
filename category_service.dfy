/** The in-memory category store: a module-level list seeded from mock
    data, looked up by numeric Id. */
module CategoryService {
  import opened Common
  import opened Js
  import opened Records

  /** The fields a caller supplies to create a category. */
  datatype CategoryInput = CategoryInput(name: string, color: string, icon: string)

  /** The fields a caller spreads over a category to update it; `None`
      leaves the field as it was. */
  datatype CategoryPatch = CategoryPatch(name: Option<string>, color: Option<string>, icon: Option<string>, taskCount: Option<int>)

  const NotFound: string := "Category not found"

  /** `parseInt(id)` as a lookup key; `NaN` matches no category. */
  function Key(id: JsValue): (k: Option<int>)
    ensures k.Some? <==> ParseIntValue(id).Num?
    ensures k.Some? ==> ParseIntValue(id) == Num(k.value)
  {
    match ParseIntValue(id)
    case Num(n) => Some(n)
    case _ => None
  }

  predicate UniqueIds(cats: seq<Category>) {
    forall i, j :: 0 <= i < j < |cats| ==> cats[i].Id != cats[j].Id
  }

  predicate HasId(cats: seq<Category>, key: int) {
    exists i :: 0 <= i < |cats| && cats[i].Id == key
  }

  /** `findIndex(c => c.Id === key)`: the first position holding `key`. */
  function FindIndex(cats: seq<Category>, key: Option<int>): (r: Option<nat>)
    ensures r.Some? ==> key.Some? && r.value < |cats| && cats[r.value].Id == key.value
    ensures r.Some? ==> forall j :: 0 <= j < r.value ==> cats[j].Id != key.value
    ensures r.None? ==> key.None? || !HasId(cats, key.value)
  {
    if key.None? || cats == [] then None
    else if cats[0].Id == key.value then Some(0)
    else match FindIndex(cats[1..], key)
      case None => None
      case Some(i) => Some(i + 1)
  }

  /** `Math.max(...ids, 0)`. */
  function MaxId(cats: seq<Category>): (m: int)
    ensures m >= 0
    ensures forall i :: 0 <= i < |cats| ==> cats[i].Id <= m
    ensures m == 0 || HasId(cats, m)
  {
    if cats == [] then 0
    else
      var rest := MaxId(cats[1..]);
      if cats[0].Id > rest then cats[0].Id
      else rest
  }

  /** The Id a new category gets: one above every Id in the store, and at least 1. */
  function NextId(cats: seq<Category>): (n: int)
    ensures n >= 1
    ensures !HasId(cats, n)
    ensures forall i :: 0 <= i < |cats| ==> cats[i].Id < n
  {
    MaxId(cats) + 1
  }

  /** The stored category after an update: the patch spread over it, the Id
      forced to the parsed key. */
  function Patched(c: Category, patch: CategoryPatch, key: int): (r: Category)
    ensures r.Id == key
    ensures r.name == patch.name.GetOr(c.name) && r.color == patch.color.GetOr(c.color)
    ensures r.icon == patch.icon.GetOr(c.icon) && r.taskCount == patch.taskCount.GetOr(c.taskCount)
  {
    Category(key, patch.name.GetOr(c.name), patch.color.GetOr(c.color), patch.icon.GetOr(c.icon),
             patch.taskCount.GetOr(c.taskCount))
  }

  /** The store after removing position `i`. */
  function RemoveAt(cats: seq<Category>, i: nat): (r: seq<Category>)
    requires i < |cats|
    ensures |r| == |cats| - 1
    ensures forall j :: 0 <= j < i ==> r[j] == cats[j]
    ensures forall j :: i <= j < |r| ==> r[j] == cats[j + 1]
  {
    cats[..i] + cats[i + 1..]
  }

  /** A created category is new: the store keeps unique Ids, and a lookup
      of its Id finds it at the end. */
  lemma {:induction false} CreateKeepsIdsUnique(cats: seq<Category>, input: CategoryInput)
    requires UniqueIds(cats)
    ensures var c := Category(NextId(cats), input.name, input.color, input.icon, 0);
            UniqueIds(cats + [c]) && FindIndex(cats + [c], Some(c.Id)) == Some(|cats|)
  {
    var c := Category(NextId(cats), input.name, input.color, input.icon, 0);
    var s := cats + [c];
    forall i, j | 0 <= i < j < |s| ensures s[i].Id != s[j].Id {
      if j < |cats| {
        assert s[i] == cats[i] && s[j] == cats[j];
      } else {
        assert s[i] == cats[i];
      }
    }
    FindLast(cats, c);
  }

  lemma {:induction false} FindLast(cats: seq<Category>, c: Category)
    requires !HasId(cats, c.Id)
    ensures FindIndex(cats + [c], Some(c.Id)) == Some(|cats|)
    decreases |cats|
  {
    if cats == [] {
    } else {
      assert (cats + [c])[0] == cats[0];
      assert (cats + [c])[1..] == cats[1..] + [c];
      assert !HasId(cats[1..], c.Id) by {
        forall i | 0 <= i < |cats[1..]| ensures cats[1..][i].Id != c.Id {
          assert cats[1..][i] == cats[i + 1];
        }
      }
      FindLast(cats[1..], c);
    }
  }

  /** Replacing one entry by a record with the same Id keeps Ids unique. */
  lemma SameIdReplaceKeepsUnique(cats: seq<Category>, i: nat, c: Category)
    requires UniqueIds(cats) && i < |cats| && c.Id == cats[i].Id
    ensures UniqueIds(cats[i := c])
  {
    var s := cats[i := c];
    forall a, b | 0 <= a < b < |s| ensures s[a].Id != s[b].Id {
      assert s[a].Id == cats[a].Id && s[b].Id == cats[b].Id;
    }
  }

  /** Removing an entry keeps Ids unique, and with unique Ids the removed Id
      is gone from the store. */
  lemma RemoveAtKeepsUnique(cats: seq<Category>, i: nat)
    requires UniqueIds(cats) && i < |cats|
    ensures UniqueIds(RemoveAt(cats, i))
    ensures !HasId(RemoveAt(cats, i), cats[i].Id)
  {
    var r := RemoveAt(cats, i);
    forall a, b | 0 <= a < b < |r| ensures r[a].Id != r[b].Id {
      var a' := if a < i then a else a + 1;
      var b' := if b < i then b else b + 1;
      assert r[a] == cats[a'] && r[b] == cats[b'];
    }
    forall j | 0 <= j < |r| ensures r[j].Id != cats[i].Id {
      var j' := if j < i then j else j + 1;
      assert r[j] == cats[j'];
    }
  }

  class CategoryStore {
    var categories: seq<Category>

    ghost predicate Valid()
      reads this
    {
      UniqueIds(categories)
    }

    /** The store seeded with the mock categories. */
    constructor(seed: seq<Category>)
      ensures categories == seed
      ensures UniqueIds(seed) ==> Valid()
    {
      categories := seed;
    }

    /** A copy of every category. */
    method GetAll() returns (r: seq<Category>)
      ensures r == categories
    {
      r := categories;
    }

    /** The category with the given Id, or the error "Category not found". */
    method GetById(id: JsValue) returns (r: Result<Category>)
      ensures r.Ok? <==> Key(id).Some? && HasId(categories, Key(id).value)
      ensures r.Ok? ==> r.value.Id == Key(id).value && r.value in categories
      ensures r.Ok? ==> FindIndex(categories, Key(id)).Some? && r.value == categories[FindIndex(categories, Key(id)).value]
      ensures r.Err? ==> r.message == NotFound
    {
      match FindIndex(categories, Key(id))
      case Some(i) => r := Ok(categories[i]);
      case None => r := Err(NotFound);
    }

    /** Appends a category with a fresh Id and no tasks, and returns it. */
    method Create(input: CategoryInput) returns (c: Category)
      modifies this
      ensures c == Category(NextId(old(categories)), input.name, input.color, input.icon, 0)
      ensures categories == old(categories) + [c]
      ensures old(Valid()) ==> Valid()
    {
      c := Category(NextId(categories), input.name, input.color, input.icon, 0);
      if Valid() {
        CreateKeepsIdsUnique(categories, input);
      }
      categories := categories + [c];
    }

    /** Spreads the patch over the category with the given Id, in place. */
    method Update(id: JsValue, patch: CategoryPatch) returns (r: Result<Category>)
      modifies this
      ensures old(FindIndex(categories, Key(id))).None? ==> r == Err(NotFound) && categories == old(categories)
      ensures old(FindIndex(categories, Key(id))).Some? ==>
                var i := old(FindIndex(categories, Key(id))).value;
                r == Ok(Patched(old(categories)[i], patch, Key(id).value)) &&
                categories == old(categories)[i := r.value]
      ensures old(Valid()) ==> Valid()
    {
      match FindIndex(categories, Key(id))
      case None => r := Err(NotFound);
      case Some(i) =>
        var updated := Patched(categories[i], patch, Key(id).value);
        if Valid() {
          SameIdReplaceKeepsUnique(categories, i, updated);
        }
        categories := categories[i := updated];
        r := Ok(updated);
    }

    /** Removes the category with the given Id and returns it. */
    method Delete(id: JsValue) returns (r: Result<Category>)
      modifies this
      ensures old(FindIndex(categories, Key(id))).None? ==> r == Err(NotFound) && categories == old(categories)
      ensures old(FindIndex(categories, Key(id))).Some? ==>
                var i := old(FindIndex(categories, Key(id))).value;
                r == Ok(old(categories)[i]) && categories == RemoveAt(old(categories), i)
      ensures old(Valid()) ==> Valid() && (r.Ok? ==> !HasId(categories, r.value.Id))
    {
      match FindIndex(categories, Key(id))
      case None => r := Err(NotFound);
      case Some(i) =>
        r := Ok(categories[i]);
        if Valid() {
          RemoveAtKeepsUnique(categories, i);
        }
        categories := RemoveAt(categories, i);
    }

    /** Sets the task count of the category with the given Id; `null` when
      there is none. */
    method UpdateTaskCount(id: JsValue, count: int) returns (r: Option<Category>)
      modifies this
      ensures old(FindIndex(categories, Key(id))).None? ==> r == None && categories == old(categories)
      ensures old(FindIndex(categories, Key(id))).Some? ==>
                var i := old(FindIndex(categories, Key(id))).value;
                r == Some(old(categories)[i].(taskCount := count)) &&
                categories == old(categories)[i := r.value]
      ensures old(Valid()) ==> Valid()
    {
      match FindIndex(categories, Key(id))
      case None => r := None;
      case Some(i) =>
        var updated := categories[i].(taskCount := count);
        if Valid() {
          SameIdReplaceKeepsUnique(categories, i, updated);
        }
        categories := categories[i := updated];
        r := Some(updated);
    }
  }
}

/** The category sidebar: an "All Tasks" entry followed by one entry per
    category, each with its task count, and the entry that is highlighted
    for the current selection. */
module CategorySidebar {
  import opened Common
  import opened Records

  /** The `Id` of a sidebar entry: the literal "all" or a category's Id. */
  datatype ItemId = All | Cat(id: int)

  datatype SidebarItem = SidebarItem(id: ItemId, name: string, icon: string, color: string, count: nat)

  /** The smallest key of a non-empty count map: `Object.values` lists
      integer keys in ascending order. */
  function MinKey(m: map<int, nat>): (k: int)
    requires m != map[]
    ensures k in m
    ensures forall j :: j in m ==> k <= j
  {
    MinExists(m.Keys);
    var k :| k in m && forall j :: j in m ==> k <= j;
    k
  }

  lemma MinExists(s: set<int>)
    requires s != {}
    ensures exists k :: k in s && forall j :: j in s ==> k <= j
    decreases |s|
  {
    assert exists x :: x in s by {
      if forall x :: x !in s {
        assert false;
      }
    }
    var x :| x in s;
    if s != {x} {
      var rest := s - {x};
      MinExists(rest);
      var k :| k in rest && forall j :: j in rest ==> k <= j;
      var least := if x < k then x else k;
      forall j | j in s ensures least <= j {
        if j != x {
          assert j in rest;
        }
      }
    } else {
      assert forall j :: j in s ==> x <= j;
    }
  }

  /** `Object.values(m).reduce((sum, count) => sum + count, 0)`, adding the
      values in ascending key order. */
  function SumValues(m: map<int, nat>): nat
    decreases |m|
  {
    if m == map[] then 0
    else
      var k := MinKey(m);
      assert |(m - {k}).Keys| < |m.Keys| by {
        assert m.Keys == (m - {k}).Keys + {k};
      }
      m[k] + SumValues(m - {k})
  }

  /** The order in which the values are added does not matter: any key can
      be taken out first. */
  lemma {:induction false} SumRemove(m: map<int, nat>, k: int)
    requires k in m
    ensures SumValues(m) == m[k] + SumValues(m - {k})
    decreases |m|
  {
    var j := MinKey(m);
    if j != k {
      assert m.Keys == (m - {j}).Keys + {j};
      assert m.Keys == (m - {k}).Keys + {k};
      SumRemove(m - {j}, k);
      SumRemove(m - {k}, j);
      assert m - {j} - {k} == m - {k} - {j};
    }
  }

  /** `getTotalTasks`: the sum of all counts; no single count exceeds it. */
  function TotalTasks(counts: map<int, nat>): (total: nat)
    ensures forall id :: id in counts ==> counts[id] <= total
    ensures counts == map[] ==> total == 0
  {
    forall id | id in counts ensures counts[id] <= SumValues(counts) {
      SumRemove(counts, id);
    }
    SumValues(counts)
  }

  /** `taskCounts[category.Id] || 0`. */
  function CountOf(counts: map<int, nat>, id: int): (n: nat)
    ensures id in counts ==> n == counts[id]
    ensures id !in counts ==> n == 0
  {
    if id in counts then counts[id] else 0
  }

  /** The entry of one category, carrying its own name, icon and colour. */
  function CategoryRow(c: Category, counts: map<int, nat>): SidebarItem {
    SidebarItem(Cat(c.Id), c.name, c.icon, c.color, CountOf(counts, c.Id))
  }

  function CategoryRows(cats: seq<Category>, counts: map<int, nat>): (rows: seq<SidebarItem>)
    ensures |rows| == |cats|
    ensures forall i :: 0 <= i < |cats| ==> rows[i] == CategoryRow(cats[i], counts)
  {
    seq(|cats|, i requires 0 <= i < |cats| => CategoryRow(cats[i], counts))
  }

  /** `categoryItems`: the "All Tasks" entry with the total, then the
      categories in their own order. */
  function CategoryItems(cats: seq<Category>, counts: map<int, nat>): (items: seq<SidebarItem>)
    ensures |items| == |cats| + 1
    ensures items[0] == SidebarItem(All, "All Tasks", "List", "#4F46E5", TotalTasks(counts))
    ensures forall i :: 0 <= i < |cats| ==>
      items[i + 1].id == Cat(cats[i].Id) && items[i + 1].name == cats[i].name &&
      items[i + 1].icon == cats[i].icon && items[i + 1].color == cats[i].color
    ensures forall i :: 0 <= i < |cats| ==> items[i + 1].count == CountOf(counts, cats[i].Id)
  {
    var rows := CategoryRows(cats, counts);
    var items := [SidebarItem(All, "All Tasks", "List", "#4F46E5", TotalTasks(counts))] + rows;
    assert forall i :: 0 <= i < |cats| ==> items[i + 1] == rows[i];
    items
  }

  /** The value handed to `onCategorySelect` when an entry is clicked:
      null for "All Tasks", the category's Id otherwise. */
  function SelectionOf(item: SidebarItem): (selected: Option<int>)
    ensures selected.None? <==> item.id.All?
    ensures item.id.Cat? ==> selected == Some(item.id.id)
  {
    if item.id.All? then None else Some(item.id.id)
  }

  /** An entry is highlighted when the selection equals what clicking it
      would select. */
  predicate Highlighted(item: SidebarItem, selected: Option<int>) {
    selected == SelectionOf(item)
  }

  /** With distinct category Ids, whatever is selected, at most one entry
      is highlighted. */
  lemma AtMostOneHighlighted(cats: seq<Category>, counts: map<int, nat>, selected: Option<int>)
    requires UniqueIds(cats)
    ensures var items := CategoryItems(cats, counts);
            forall i, j :: 0 <= i < j < |items| && Highlighted(items[i], selected) ==> !Highlighted(items[j], selected)
  {
    var items := CategoryItems(cats, counts);
    forall i, j | 0 <= i < j < |items| && Highlighted(items[i], selected)
      ensures !Highlighted(items[j], selected)
    {
      ClickHighlightsOnlyThat(cats, counts, i);
      assert selected == SelectionOf(items[i]);
    }
  }

  predicate UniqueIds(cats: seq<Category>) {
    forall i, j :: 0 <= i < j < |cats| ==> cats[i].Id != cats[j].Id
  }

  /** With distinct category Ids, clicking an entry highlights that entry and
      no other. */
  lemma ClickHighlightsOnlyThat(cats: seq<Category>, counts: map<int, nat>, j: int)
    requires UniqueIds(cats)
    requires 0 <= j <= |cats|
    ensures var items := CategoryItems(cats, counts);
            forall i :: 0 <= i < |items| ==> (Highlighted(items[i], SelectionOf(items[j])) <==> i == j)
  {
    var items := CategoryItems(cats, counts);
    forall i | 0 <= i < |items|
      ensures Highlighted(items[i], SelectionOf(items[j])) <==> i == j
    {
      SelectsOwnId(cats, counts, i);
      SelectsOwnId(cats, counts, j);
      if i != j && i > 0 && j > 0 {
        if i < j {
          assert cats[i - 1].Id != cats[j - 1].Id;
        } else {
          assert cats[j - 1].Id != cats[i - 1].Id;
        }
      }
    }
  }

  lemma SelectsOwnId(cats: seq<Category>, counts: map<int, nat>, i: int)
    requires 0 <= i <= |cats|
    ensures var selected := SelectionOf(CategoryItems(cats, counts)[i]);
            if i == 0 then selected == None else selected == Some(cats[i - 1].Id)
  {
  }

  /** Sum of the counts of a list of entries. */
  function RowSum(rows: seq<SidebarItem>): nat {
    if rows == [] then 0 else rows[0].count + RowSum(rows[1..])
  }

  /** The count map holds exactly the Ids of `cats`. */
  predicate KeysAreIds(counts: map<int, nat>, cats: seq<Category>) {
    (forall i :: 0 <= i < |cats| ==> cats[i].Id in counts) &&
    (forall id :: id in counts ==> exists i :: 0 <= i < |cats| && cats[i].Id == id)
  }

  /** When the counts are keyed by exactly the (distinct) category Ids, as
      the task list computes them, the "All Tasks" count is the sum of the
      category entries' counts. */
  lemma TotalIsSumOfRows(cats: seq<Category>, counts: map<int, nat>)
    requires UniqueIds(cats)
    requires KeysAreIds(counts, cats)
    ensures var items := CategoryItems(cats, counts);
            items[0].count == RowSum(items[1..])
  {
    var items := CategoryItems(cats, counts);
    assert items[1..] == CategoryRows(cats, counts);
    SumIsRowSum(cats, counts);
  }

  lemma {:induction false} SumIsRowSum(cats: seq<Category>, counts: map<int, nat>)
    requires UniqueIds(cats)
    requires KeysAreIds(counts, cats)
    ensures SumValues(counts) == RowSum(CategoryRows(cats, counts))
  {
    if cats == [] {
      assert counts == map[];
    } else {
      var id := cats[0].Id;
      SumRemove(counts, id);
      KeysOfRest(cats, counts);
      SumIsRowSum(cats[1..], counts - {id});
      RowsIgnoreOtherKey(cats[1..], counts, id);
      RowSumFirst(cats, counts);
    }
  }

  lemma KeysOfRest(cats: seq<Category>, counts: map<int, nat>)
    requires cats != []
    requires UniqueIds(cats)
    requires KeysAreIds(counts, cats)
    ensures UniqueIds(cats[1..])
    ensures KeysAreIds(counts - {cats[0].Id}, cats[1..])
  {
    var rest := cats[1..];
    var smaller := counts - {cats[0].Id};
    forall id | id in smaller ensures exists i :: 0 <= i < |rest| && rest[i].Id == id {
      var i :| 0 <= i < |cats| && cats[i].Id == id;
      assert rest[i - 1].Id == id;
    }
    forall i | 0 <= i < |rest| ensures rest[i].Id in smaller {
      assert cats[0].Id != cats[i + 1].Id;
    }
  }

  lemma RowsIgnoreOtherKey(cats: seq<Category>, counts: map<int, nat>, key: int)
    requires forall i :: 0 <= i < |cats| ==> cats[i].Id != key
    ensures CategoryRows(cats, counts - {key}) == CategoryRows(cats, counts)
  {
  }

  lemma RowSumFirst(cats: seq<Category>, counts: map<int, nat>)
    requires cats != []
    ensures RowSum(CategoryRows(cats, counts)) == CountOf(counts, cats[0].Id) + RowSum(CategoryRows(cats[1..], counts))
  {
    assert CategoryRows(cats, counts)[1..] == CategoryRows(cats[1..], counts);
  }
}

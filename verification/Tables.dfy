/** A collection of records, in creation order, addressed by record id. Stands for the database
    tables behind the hooks: create refuses an id that is taken, update and delete refuse one
    that is missing. */
module Tables {
  import opened Sums

  datatype Rec<T> = Rec(id: string, row: T)

  ghost predicate UniqueIds<T>(table: seq<Rec<T>>) {
    forall i, j :: 0 <= i < j < |table| ==> table[i].id != table[j].id
  }

  /** The position of record `id`, or the length of the table when there is none. */
  function Find<T>(table: seq<Rec<T>>, id: string): (i: nat)
    ensures i <= |table|
    ensures i < |table| ==> table[i].id == id
    ensures forall j :: 0 <= j < i ==> table[j].id != id
  {
    if table == [] then 0
    else if table[0].id == id then 0
    else 1 + Find(table[1..], id)
  }

  predicate Has<T>(table: seq<Rec<T>>, id: string) {
    Find(table, id) < |table|
  }

  function Get<T>(table: seq<Rec<T>>, id: string): T
    requires Has(table, id)
  {
    table[Find(table, id)].row
  }

  function Insert<T>(table: seq<Rec<T>>, id: string, row: T): seq<Rec<T>> {
    table + [Rec(id, row)]
  }

  function Replace<T>(table: seq<Rec<T>>, id: string, row: T): seq<Rec<T>>
    requires Has(table, id)
  {
    table[Find(table, id) := Rec(id, row)]
  }

  function Remove<T>(table: seq<Rec<T>>, id: string): seq<Rec<T>>
    requires Has(table, id)
  {
    var i := Find(table, id);
    table[..i] + table[i + 1..]
  }

  lemma InsertFacts<T(!new)>(table: seq<Rec<T>>, id: string, row: T)
    requires UniqueIds(table) && !Has(table, id)
    ensures UniqueIds(Insert(table, id, row))
    ensures forall r :: r in Insert(table, id, row) <==> r in table || r == Rec(id, row)
  {
  }

  lemma ReplaceFacts<T(!new)>(table: seq<Rec<T>>, id: string, row: T)
    requires UniqueIds(table) && Has(table, id)
    ensures UniqueIds(Replace(table, id, row))
    ensures forall r :: r in Replace(table, id, row) ==> r in table || r == Rec(id, row)
    ensures table[Find(table, id)] in table && Rec(id, row) in Replace(table, id, row)
  {
    assert Replace(table, id, row)[Find(table, id)] == Rec(id, row);
  }

  lemma RemoveFacts<T(!new)>(table: seq<Rec<T>>, id: string)
    requires UniqueIds(table) && Has(table, id)
    ensures UniqueIds(Remove(table, id))
    ensures forall r :: r in Remove(table, id) ==> r in table
    ensures table[Find(table, id)] in table
  {
    var i := Find(table, id);
    assert forall j :: 0 <= j < |table| - 1 ==> Remove(table, id)[j] == table[if j < i then j else j + 1];
  }

  lemma {:induction false} FilterKeepsUniqueIds<T(!new)>(table: seq<Rec<T>>, keep: Rec<T> -> bool)
    requires UniqueIds(table)
    ensures UniqueIds(Filter(table, keep))
  {
    if table != [] {
      var rest := table[..|table| - 1];
      FilterKeepsUniqueIds(rest, keep);
      FilterMembers(rest, keep);
      var last := table[|table| - 1];
      forall c | c in Filter(rest, keep) ensures c.id != table[|table| - 1].id {
        assert c in rest;
      }
    }
  }
}

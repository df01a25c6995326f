/** What is serialised of a JSON value: the order of dictionary entries is not, because keys
    are sorted, and an opaque object is its printed form. */
module JsonText {
  import opened AuditSanitizer

  datatype Serial =
    | Atom(v: Json)
    | Words(s: string)
    | Array(items: seq<Serial>)
    | Object(fields: map<string, Serial>)

  function Serialised(v: Json): Serial
    decreases v, 1
  {
    match v
    case Dict(entries) => Object(FieldsOf(entries))
    case List(items) => Array(ItemsOf(items))
    case Text(s) => Words(s)
    case Other(printed) => Words(printed)
    case _ => Atom(v)
  }

  function FieldsOf(entries: seq<Entry>): map<string, Serial>
    decreases entries, 0
  {
    if entries == [] then map[]
    else
      var last := entries[|entries| - 1];
      FieldsOf(entries[..|entries| - 1])[last.key := Serialised(last.value)]
  }

  function ItemsOf(items: seq<Json>): seq<Serial>
    decreases items, 0
  {
    if items == [] then [] else ItemsOf(items[..|items| - 1]) + [Serialised(items[|items| - 1])]
  }

  /** With distinct keys, every entry is its field. */
  lemma {:induction false} EntryIsField(entries: seq<Entry>, i: nat)
    requires UniqueKeys(entries) && i < |entries|
    ensures entries[i].key in FieldsOf(entries) && FieldsOf(entries)[entries[i].key] == Serialised(entries[i].value)
  {
    var front := entries[..|entries| - 1];
    if i < |front| {
      assert entries[i].key != entries[|front|].key && front[i] == entries[i];
      EntryIsField(front, i);
    }
  }

  /** Every field is an entry. */
  lemma {:induction false} FieldIsEntry(entries: seq<Entry>, key: string)
    requires key in FieldsOf(entries)
    ensures exists i :: 0 <= i < |entries| && entries[i].key == key
  {
    var front, last := entries[..|entries| - 1], entries[|entries| - 1];
    if key == last.key {
      assert entries[|front|].key == key;
    } else {
      FieldIsEntry(front, key);
      var i :| 0 <= i < |front| && front[i].key == key;
      assert entries[i].key == key;
    }
  }

  lemma MoreFields(x: seq<Entry>, y: seq<Entry>)
    requires UniqueKeys(x) && UniqueKeys(y) && forall e :: e in x ==> e in y
    ensures forall key :: key in FieldsOf(x) ==> key in FieldsOf(y) && FieldsOf(y)[key] == FieldsOf(x)[key]
  {
    forall key | key in FieldsOf(x) ensures key in FieldsOf(y) && FieldsOf(y)[key] == FieldsOf(x)[key] {
      FieldIsEntry(x, key);
      var i :| 0 <= i < |x| && x[i].key == key;
      assert x[i] in y;
      var j :| 0 <= j < |y| && y[j] == x[i];
      EntryIsField(x, i);
      EntryIsField(y, j);
    }
  }

  lemma SameFields(f: map<string, Serial>, g: map<string, Serial>)
    requires forall key :: key in f ==> key in g && g[key] == f[key]
    requires forall key :: key in g ==> key in f
    ensures f == g
  {
  }

  /** So the order of the entries is lost. */
  lemma Reordered(x: seq<Entry>, y: seq<Entry>)
    requires UniqueKeys(x) && UniqueKeys(y) && multiset(x) == multiset(y)
    ensures Serialised(Dict(x)) == Serialised(Dict(y))
  {
    assert forall e :: e in x <==> e in multiset(x);
    assert forall e :: e in y <==> e in multiset(y);
    MoreFields(x, y);
    MoreFields(y, x);
    SameFields(FieldsOf(x), FieldsOf(y));
  }
}

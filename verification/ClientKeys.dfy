/** Client keys: fields are sorted by name before hashing, so their order does not matter. */
module ClientKeys {
  import StableSort

  /** A named field: the name by its place in the alphabet, and the hash of its value. */
  datatype Field = Field(name: int, hash: nat)

  function NameOf(f: Field): int { f.name }

  /** What a key is the hash of. */
  datatype Image = Image(taskType: string, fields: seq<Field>)

  class KeyBuilder {
    const taskType: string
    var fields: seq<Field>

    constructor (taskType: string)
      ensures this.taskType == taskType && fields == []
    {
      this.taskType := taskType;
      fields := [];
    }

    method AddField(name: int, hash: nat)
      modifies this
      ensures fields == old(fields) + [Field(name, hash)]
    {
      fields := fields + [Field(name, hash)];
    }

    method Build() returns (image: Image)
      modifies this
      ensures image == Image(taskType, StableSort.Sort(old(fields), NameOf))
    {
      fields := StableSort.Sort(fields, NameOf);
      image := Image(taskType, fields);
    }
  }

  /** Each name has the same values in the same order. */
  ghost predicate SameByName(a: seq<Field>, b: seq<Field>) {
    forall k :: StableSort.WithKey(a, NameOf, k) == StableSort.WithKey(b, NameOf, k)
  }

  /** Two builders of one task type hash the same exactly when each name has the same values in the same order. */
  lemma SameKeyMeansSameFields(a: seq<Field>, b: seq<Field>)
    ensures StableSort.Sort(a, NameOf) == StableSort.Sort(b, NameOf) <==> SameByName(a, b)
  {
    var p, q := StableSort.Sort(a, NameOf), StableSort.Sort(b, NameOf);
    forall k
      ensures StableSort.WithKey(p, NameOf, k) == StableSort.WithKey(a, NameOf, k)
      ensures StableSort.WithKey(q, NameOf, k) == StableSort.WithKey(b, NameOf, k)
    {
      StableSort.SortIsStable(a, NameOf, k);
      StableSort.SortIsStable(b, NameOf, k);
    }
    if SameByName(a, b) {
      StableSort.SortIsStable(a, NameOf, 0);
      StableSort.SortIsStable(b, NameOf, 0);
      StableSort.StableSortIsUnique(p, q, NameOf);
    }
  }

  ghost predicate UniqueNames(fields: seq<Field>) {
    forall i, j | 0 <= i < j < |fields| :: fields[i].name != fields[j].name
  }

  lemma {:induction false} NoFieldOfName(fields: seq<Field>, k: int)
    requires forall i | 0 <= i < |fields| :: fields[i].name != k
    ensures StableSort.WithKey(fields, NameOf, k) == []
  {
    if fields != [] { NoFieldOfName(fields[..|fields| - 1], k); }
  }

  lemma {:induction false} FieldOfUniqueName(fields: seq<Field>, i: nat)
    requires UniqueNames(fields) && i < |fields|
    ensures StableSort.WithKey(fields, NameOf, fields[i].name) == [fields[i]]
  {
    var n := |fields| - 1;
    if i == n { NoFieldOfName(fields[..n], fields[n].name); } else { FieldOfUniqueName(fields[..n], i); }
  }

  /** With unique names the order in which fields are added does not change the key. */
  lemma OrderOfFieldsDoesNotMatter(a: seq<Field>, b: seq<Field>)
    requires UniqueNames(a) && UniqueNames(b) && multiset(a) == multiset(b)
    ensures StableSort.Sort(a, NameOf) == StableSort.Sort(b, NameOf)
  {
    forall f ensures f in a <==> f in b {
      assert f in a <==> f in multiset(a);
      assert f in b <==> f in multiset(b);
    }
    forall k ensures StableSort.WithKey(a, NameOf, k) == StableSort.WithKey(b, NameOf, k) {
      if i :| 0 <= i < |a| && a[i].name == k {
        assert a[i] in b;
        var j :| 0 <= j < |b| && b[j] == a[i];
        FieldOfUniqueName(a, i);
        FieldOfUniqueName(b, j);
      } else {
        forall j | 0 <= j < |b| ensures b[j].name != k { assert b[j] in a; }
        NoFieldOfName(a, k);
        NoFieldOfName(b, k);
      }
    }
    SameKeyMeansSameFields(a, b);
  }
}

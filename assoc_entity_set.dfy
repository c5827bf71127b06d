/** The keyed collection of entities that holds a state's actions. */
module AssocEntitySets {
  import opened Entities
  import opened OrderedMaps

  /** An insertion-ordered collection of entities, addressed like a PHP array. */
  class AssocEntitySet {
    var keys: seq<string>
    var items: map<string, Entity>

    /** The collection as an ordered map of entity references. */
    ghost function Shape(): OrderedMap<string, Entity>
      reads this
    {
      OrderedMap(keys, items)
    }

    ghost predicate Valid()
      reads this
    {
      WellFormed(Shape())
    }

    /** What the collection holds: each key with the current properties of its entity. */
    ghost function Contents(): (m: OrderedMap<string, Fields>)
      reads this, items.Values
      requires Valid()
      ensures WellFormed(m)
    {
      OrderedMap(keys, map k | k in items :: items[k].fields)
    }

    /** `AssocEntitySet::forClass(Action::class)`: an empty collection. */
    constructor ForClass()
      ensures Valid() && keys == [] && items == map[]
    {
      keys, items := [], map[];
    }

    /** `$set[$key] = $entity`. */
    method OffsetSet(key: string, entity: Entity)
      requires Valid()
      modifies this
      ensures Valid()
      ensures Shape() == Put(old(Shape()), key, entity)
      ensures Contents() == Put(old(Contents()), key, entity.fields)
    {
      ghost var before := Contents();
      if key !in items {
        keys := keys + [key];
      }
      items := items[key := entity];
      assert Contents().entries == before.entries[key := entity.fields];
    }
  }

  /** A collection whose own fields and entities are untouched between two states
      holds the same in both. */
  twostate lemma ContentsUnchanged(s: AssocEntitySet)
    requires old(s.Valid()) && unchanged(s)
    requires forall k :: k in s.items ==> unchanged(s.items[k])
    ensures s.Valid() && s.Contents() == old(s.Contents())
  {
  }
}

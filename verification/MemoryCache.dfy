/**
 The in-memory cache with expiring items. Values are the marshalled bytes; an item without an
 expiration never expires.
 */
module MemoryCache {
  import opened GoInt
  import opened Wrappers

  datatype Item = Item(value: string, expiration: Option<Time>)

  type Items = map<string, Item>

  predicate Expired(item: Item, now: Time) {
    item.expiration.Some? && now > item.expiration.value
  }

  function NewItem(value: string, ttl: Time, now: Time): Item {
    Item(value, if ttl > 0 then Some(now + ttl) else None)
  }

  /** What a timed map answers: the last item set, unless it has expired. */
  function Lookup(items: Items, key: string, now: Time): Option<string> {
    if key in items && !Expired(items[key], now) then Some(items[key].value) else None
  }

  function Swept(items: Items, now: Time): Items {
    map k | k in items && !Expired(items[k], now) :: items[k]
  }

  class Cache {
    var items: Items

    constructor ()
      ensures items == map[]
    {
      items := map[];
    }

    /** Reads, and drops the item when it turns out to have expired. */
    method Get(key: string, now: Time) returns (value: Option<string>)
      modifies this
      ensures value == Lookup(old(items), key, now)
      ensures items == if key in old(items) && Expired(old(items)[key], now) then old(items) - {key} else old(items)
    {
      if key !in items {
        return None;
      }
      var item := items[key];
      if item.expiration.Some? && now > item.expiration.value {
        Delete(key);
        return None;
      }
      value := Some(item.value);
    }

    method Set(key: string, value: string, ttl: Time, now: Time)
      modifies this
      ensures items == old(items)[key := NewItem(value, ttl, now)]
    {
      var expiration := None;
      if ttl > 0 {
        expiration := Some(now + ttl);
      }
      items := items[key := Item(value, expiration)];
    }

    method Delete(key: string)
      modifies this
      ensures items == old(items) - {key}
    {
      items := items - {key};
    }

    method Clear()
      modifies this
      ensures items == map[]
    {
      items := map[];
    }

    /** One pass of the cleanup loop, visiting the keys in any order. */
    method CleanupExpired(now: Time)
      modifies this
      ensures items == Swept(old(items), now)
      ensures forall k :: k in items <==> k in old(items) && !(old(items)[k].expiration.Some? && now > old(items)[k].expiration.value)
      ensures forall k :: k in items ==> items[k] == old(items)[k]
    {
      var todo := items.Keys;
      ghost var before := items;
      while todo != {}
        invariant todo <= items.Keys <= before.Keys
        invariant forall k :: k in items ==> items[k] == before[k]
        invariant forall k :: k in before && k !in todo ==> (k in items <==> !Expired(before[k], now))
        decreases todo
      {
        var key :| key in todo;
        todo := todo - {key};
        if items[key].expiration.Some? && now > items[key].expiration.value {
          items := items - {key};
        }
      }
    }
  }
}

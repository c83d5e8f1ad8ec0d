/** Who observed what (src/resolve/subscription_registry.rs): the keys each subscriber observed, and the same relation
    inverted into one table of buckets per kind of key. */
module Subscriptions {

  type Uri = string

  datatype ObservedKey = TopLevel(name: string) | Member(container: string, name: string) | EnumMember(name: string)

  datatype Observations = Observations(topLevel: set<string>, members: set<(string, string)>, enumMembers: set<string>)

  predicate Observed(o: Observations, key: ObservedKey) {
    match key
    case TopLevel(n) => n in o.topLevel
    case Member(c, n) => (c, n) in o.members
    case EnumMember(n) => n in o.enumMembers
  }

  /** Observations are nothing but the keys observed. */
  lemma ObservationsAreKeys(a: Observations, b: Observations)
    requires forall key :: Observed(a, key) <==> Observed(b, key)
    ensures a == b
  {
    forall n
      ensures n in a.topLevel <==> n in b.topLevel
    {
      assert Observed(a, TopLevel(n)) <==> Observed(b, TopLevel(n));
    }
    forall n
      ensures n in a.enumMembers <==> n in b.enumMembers
    {
      assert Observed(a, EnumMember(n)) <==> Observed(b, EnumMember(n));
    }
    forall m: (string, string)
      ensures m in a.members <==> m in b.members
    {
      assert Observed(a, Member(m.0, m.1)) <==> Observed(b, Member(m.0, m.1));
    }
    assert a.topLevel == b.topLevel && a.enumMembers == b.enumMembers && a.members == b.members;
  }

  /** The subscribers with an observation among `keys`, from what each of them observed. */
  function SubscribersOf(subscribed: map<Uri, Observations>, keys: set<ObservedKey>): set<Uri> {
    set u | u in subscribed && exists k :: k in keys && Observed(subscribed[u], k)
  }

  /** The bucket table is the relation inverted, `watches(u)` being the keys of this kind that `u` observed; and no bucket
      is empty. */
  ghost predicate Inverts<K(!new)>(buckets: map<K, set<Uri>>, watches: map<Uri, set<K>>) {
    && (forall k, u :: Holds(buckets, k, u) <==> u in watches && k in watches[u])
    && forall k :: k in buckets ==> buckets[k] != {}
  }

  predicate Holds<K>(buckets: map<K, set<Uri>>, k: K, u: Uri) {
    k in buckets && u in buckets[k]
  }

  /** There is only one such table. */
  lemma InverseIsUnique<K(!new)>(a: map<K, set<Uri>>, b: map<K, set<Uri>>, watches: map<Uri, set<K>>)
    requires Inverts(a, watches) && Inverts(b, watches)
    ensures a == b
  {
    InverseKeys(a, b, watches);
    InverseKeys(b, a, watches);
    forall k | k in a
      ensures a[k] == b[k]
    {
      forall u
        ensures u in a[k] <==> u in b[k]
      {
        assert Holds(a, k, u) <==> Holds(b, k, u);
      }
    }
  }

  lemma InverseKeys<K(!new)>(a: map<K, set<Uri>>, b: map<K, set<Uri>>, watches: map<Uri, set<K>>)
    requires Inverts(a, watches) && Inverts(b, watches)
    ensures forall k :: k in a ==> k in b
  {
    forall k | k in a
      ensures k in b
    {
      var u :| u in a[k];
      assert Holds(a, k, u);
      assert Holds(b, k, u);
    }
  }

  function BucketInsert<K>(buckets: map<K, set<Uri>>, key: K, subscriber: Uri): map<K, set<Uri>> {
    buckets[key := (if key in buckets then buckets[key] else {}) + {subscriber}]
  }

  function BucketRemove<K>(buckets: map<K, set<Uri>>, key: K, subscriber: Uri): map<K, set<Uri>> {
    if key !in buckets then buckets
    else
      var left := buckets[key] - {subscriber};
      if left == {} then buckets - {key} else buckets[key := left]
  }

  lemma InsertInverts<K(!new)>(buckets: map<K, set<Uri>>, watches: map<Uri, set<K>>, key: K, u: Uri)
    requires Inverts(buckets, watches) && u in watches
    ensures Inverts(BucketInsert(buckets, key, u), watches[u := watches[u] + {key}])
  {
    var after := BucketInsert(buckets, key, u);
    forall k, v
      ensures Holds(after, k, v) <==> Holds(buckets, k, v) || (k == key && v == u)
    {
    }
  }

  lemma RemoveInverts<K(!new)>(buckets: map<K, set<Uri>>, watches: map<Uri, set<K>>, key: K, u: Uri)
    requires Inverts(buckets, watches) && u in watches
    ensures Inverts(BucketRemove(buckets, key, u), watches[u := watches[u] - {key}])
  {
    var after := BucketRemove(buckets, key, u);
    forall k, v
      ensures Holds(after, k, v) <==> Holds(buckets, k, v) && !(k == key && v == u)
    {
      if k == key && Holds(buckets, k, v) && v != u {
        assert v in buckets[key] - {u};
      }
    }
  }

  /** One loop of `register`: the subscriber, watching nothing yet, is put into the bucket of each key. */
  method InsertAll<K(==,!new)>(buckets: map<K, set<Uri>>, keys: set<K>, subscriber: Uri, ghost watches: map<Uri, set<K>>)
      returns (after: map<K, set<Uri>>)
    requires Inverts(buckets, watches) && subscriber !in watches
    ensures Inverts(after, watches[subscriber := keys])
  {
    after := buckets;
    var rest := keys;
    ghost var now := watches[subscriber := {}];
    assert keys - rest == {};
    assert Inverts(after, now) by {
      assert forall k, u :: Holds(after, k, u) <==> u in now && k in now[u];
    }
    while rest != {}
      invariant rest <= keys && subscriber in now && Inverts(after, now)
      invariant now == watches[subscriber := keys - rest]
      decreases rest
    {
      var key :| key in rest;
      InsertInverts(after, now, key, subscriber);
      after := BucketInsert(after, key, subscriber);
      now := now[subscriber := now[subscriber] + {key}];
      rest := rest - {key};
      assert now[subscriber] == keys - rest;
    }
    assert keys - rest == keys;
  }

  /** One loop of `unregister`: the subscriber leaves the buckets of the keys it watched. */
  method RemoveAll<K(==,!new)>(buckets: map<K, set<Uri>>, keys: set<K>, subscriber: Uri, ghost watches: map<Uri, set<K>>)
      returns (after: map<K, set<Uri>>)
    requires Inverts(buckets, watches) && subscriber in watches && watches[subscriber] == keys
    ensures Inverts(after, watches - {subscriber})
  {
    after := buckets;
    var rest := keys;
    ghost var now := watches;
    while rest != {}
      invariant rest <= keys && subscriber in now && Inverts(after, now)
      invariant now == watches[subscriber := rest]
      decreases rest
    {
      var key :| key in rest;
      RemoveInverts(after, now, key, subscriber);
      after := BucketRemove(after, key, subscriber);
      now := now[subscriber := now[subscriber] - {key}];
      rest := rest - {key};
    }
    forall k, u
      ensures Holds(after, k, u) <==> u in watches - {subscriber} && k in (watches - {subscriber})[u]
    {
      assert Holds(after, k, u) <==> u in now && k in now[u];
    }
  }

  function TopLevels(subscribed: map<Uri, Observations>): map<Uri, set<string>> {
    map u | u in subscribed :: subscribed[u].topLevel
  }

  function Members(subscribed: map<Uri, Observations>): map<Uri, set<(string, string)>> {
    map u | u in subscribed :: subscribed[u].members
  }

  function EnumMembers(subscribed: map<Uri, Observations>): map<Uri, set<string>> {
    map u | u in subscribed :: subscribed[u].enumMembers
  }

  lemma KeysUpdated(before: map<Uri, Observations>, u: Uri, o: Observations)
    ensures TopLevels(before[u := o]) == TopLevels(before)[u := o.topLevel]
    ensures Members(before[u := o]) == Members(before)[u := o.members]
    ensures EnumMembers(before[u := o]) == EnumMembers(before)[u := o.enumMembers]
  {
  }

  lemma KeysRemoved(before: map<Uri, Observations>, u: Uri)
    ensures TopLevels(before - {u}) == TopLevels(before) - {u}
    ensures Members(before - {u}) == Members(before) - {u}
    ensures EnumMembers(before - {u}) == EnumMembers(before) - {u}
  {
  }

  class SubscriptionRegistry {
    var topLevel: map<string, set<Uri>>
    var members: map<(string, string), set<Uri>>
    var enumMembers: map<string, set<Uri>>
    var keysBySubscriber: map<Uri, Observations>

    ghost predicate Valid()
      reads this
    {
      && Inverts(topLevel, TopLevels(keysBySubscriber))
      && Inverts(members, Members(keysBySubscriber))
      && Inverts(enumMembers, EnumMembers(keysBySubscriber))
    }

    constructor ()
      ensures Valid() && keysBySubscriber == map[]
    {
      topLevel, members, enumMembers, keysBySubscriber := map[], map[], map[], map[];
    }

    method Register(subscriber: Uri, observations: Observations)
      requires Valid()
      modifies this
      ensures Valid() && keysBySubscriber == old(keysBySubscriber)[subscriber := observations]
    {
      Unregister(subscriber);
      ghost var before := keysBySubscriber;
      topLevel := InsertAll(topLevel, observations.topLevel, subscriber, TopLevels(before));
      members := InsertAll(members, observations.members, subscriber, Members(before));
      enumMembers :=
        InsertAll(enumMembers, observations.enumMembers, subscriber, EnumMembers(before));
      keysBySubscriber := keysBySubscriber[subscriber := observations];
      KeysUpdated(before, subscriber, observations);
    }

    method Unregister(subscriber: Uri)
      requires Valid()
      modifies this
      ensures Valid() && keysBySubscriber == old(keysBySubscriber) - {subscriber}
    {
      if subscriber !in keysBySubscriber {
        return;
      }
      ghost var before := keysBySubscriber;
      var prev := keysBySubscriber[subscriber];
      keysBySubscriber := keysBySubscriber - {subscriber};
      topLevel := RemoveAll(topLevel, prev.topLevel, subscriber, TopLevels(before));
      members := RemoveAll(members, prev.members, subscriber, Members(before));
      enumMembers := RemoveAll(enumMembers, prev.enumMembers, subscriber, EnumMembers(before));
      KeysRemoved(before, subscriber);
    }

    function Bucket(key: ObservedKey): set<Uri>
      reads this
    {
      match key
      case TopLevel(n) => if n in topLevel then topLevel[n] else {}
      case Member(c, n) => if (c, n) in members then members[(c, n)] else {}
      case EnumMember(n) => if n in enumMembers then enumMembers[n] else {}
    }

    lemma BucketIsExact(key: ObservedKey, u: Uri)
      requires Valid()
      ensures u in Bucket(key) <==> u in keysBySubscriber && Observed(keysBySubscriber[u], key)
    {
      match key
      case TopLevel(n) => assert u in Bucket(key) <==> Holds(topLevel, n, u);
      case Member(c, n) => assert u in Bucket(key) <==> Holds(members, (c, n), u);
      case EnumMember(n) => assert u in Bucket(key) <==> Holds(enumMembers, n, u);
    }

    method Subscribers(keys: seq<ObservedKey>) returns (out: set<Uri>)
      requires Valid()
      ensures out == SubscribersOf(keysBySubscriber, set k | k in keys)
    {
      out := {};
      for i := 0 to |keys|
        invariant forall u :: u in out <==> exists j :: 0 <= j < i && u in Bucket(keys[j])
      {
        out := out + Bucket(keys[i]);
      }
      forall u
        ensures u in out <==> u in SubscribersOf(keysBySubscriber, set k | k in keys)
      {
        if u in out {
          var j :| 0 <= j < |keys| && u in Bucket(keys[j]);
          BucketIsExact(keys[j], u);
        }
        if u in SubscribersOf(keysBySubscriber, set k | k in keys) {
          var k :| k in keys && Observed(keysBySubscriber[u], k);
          BucketIsExact(k, u);
          var j :| 0 <= j < |keys| && keys[j] == k;
        }
      }
    }
  }
}

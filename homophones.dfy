/**
 * The shape both homophone indexers share: a `defaultdict(list)` keyed by
 * reading that a loop appends to, turned at the end into its items sorted
 * by reading, each with its list of members.
 */
module Homophones {
  import opened Seqs
  import opened Strings

  /** One entry of the result: a reading and the members filed under it. */
  datatype Group<T> = Group(reading: string, members: seq<T>)

  /** A `defaultdict(list)`: the lists by key, and the keys in insertion order. */
  datatype Index<T> = Index(order: seq<string>, lists: map<string, seq<T>>)

  /** `defaultdict(list)` before the first append. */
  function EmptyIndex<T>(): Index<T>
  {
    Index([], map[])
  }

  /** `homophones[k].append(v)`. */
  function Append<T>(d: Index<T>, k: string, v: T): Index<T>
  {
    if k in d.lists then Index(d.order, d.lists[k := d.lists[k] + [v]])
    else Index(d.order + [k], d.lists[k := [v]])
  }

  /** Some append in `appends` was made under `k`. */
  predicate HasKey<T>(appends: seq<(string, T)>, k: string)
  {
    exists j :: 0 <= j < |appends| && appends[j].0 == k
  }

  /** The values appended under `k`, in the order they were appended. */
  function MembersOf<T>(appends: seq<(string, T)>, k: string): seq<T>
  {
    if appends == [] then []
    else
      var last := appends[|appends| - 1];
      MembersOf(appends[..|appends| - 1], k) + (if last.0 == k then [last.1] else [])
  }

  /** `d` is the dictionary that results from making the appends `appends` in order. */
  ghost predicate Holds<T>(d: Index<T>, appends: seq<(string, T)>)
  {
    && Distinct(d.order)
    && (forall k :: k in d.order <==> k in d.lists)
    && (forall k :: k in d.lists <==> HasKey(appends, k))
    && (forall k :: k in d.lists ==> d.lists[k] == MembersOf(appends, k))
  }

  lemma EmptyHolds<T>()
    ensures Holds(EmptyIndex<T>(), [])
  {
  }

  /** One more append keeps the dictionary in step with the appends made. */
  lemma AppendHolds<T>(d: Index<T>, appends: seq<(string, T)>, k: string, v: T)
    requires Holds(d, appends)
    ensures Holds(Append(d, k, v), appends + [(k, v)])
  {
    var appends' := appends + [(k, v)];
    assert appends'[..|appends'| - 1] == appends;
    forall k' ensures HasKey(appends', k') <==> HasKey(appends, k') || k' == k {
      if HasKey(appends', k') && k' != k {
        var j :| 0 <= j < |appends'| && appends'[j].0 == k';
        assert appends[j].0 == k';
      }
      if HasKey(appends, k') {
        var j :| 0 <= j < |appends| && appends[j].0 == k';
        assert appends'[j].0 == k';
      }
      if k' == k {
        assert appends'[|appends|].0 == k;
      }
    }
    if k !in d.lists {
      forall i, j | 0 <= i < j < |d.order + [k]| ensures (d.order + [k])[i] != (d.order + [k])[j] {
        if j == |d.order| {
          assert (d.order + [k])[i] == d.order[i];
        }
      }
      assert MembersOf(appends, k) == [] by {
        MembersOfMissing(appends, k);
      }
    }
  }

  /** Nothing was appended under a key that was never used. */
  lemma {:induction false} MembersOfMissing<T>(appends: seq<(string, T)>, k: string)
    requires !HasKey(appends, k)
    ensures MembersOf(appends, k) == []
  {
    if appends != [] {
      var init := appends[..|appends| - 1];
      assert !HasKey(init, k) by {
        forall j | 0 <= j < |init| ensures init[j].0 != k {
          assert init[j] == appends[j];
        }
      }
      MembersOfMissing(init, k);
    }
  }

  /** The readings of a result, in order. */
  function Readings<T>(groups: seq<Group<T>>): (r: seq<string>)
    ensures |r| == |groups|
    ensures forall i :: 0 <= i < |groups| ==> r[i] == groups[i].reading
  {
    seq(|groups|, i requires 0 <= i < |groups| => groups[i].reading)
  }

  /** The group of each key in `keys`, in the order of `keys`. */
  function GroupsFor<T>(keys: seq<string>, lists: map<string, seq<T>>): (groups: seq<Group<T>>)
    requires forall i :: 0 <= i < |keys| ==> keys[i] in lists
    ensures Readings(groups) == keys
    ensures forall i :: 0 <= i < |groups| ==> groups[i].members == lists[keys[i]]
  {
    seq(|keys|, i requires 0 <= i < |keys| => Group(keys[i], lists[keys[i]]))
  }

  /** The dictionary's items sorted by reading, each with its list of members. */
  function SortedItems<T>(d: Index<T>): seq<Group<T>>
    requires forall k :: k in d.order ==> k in d.lists
  {
    var keys := Sort(d.order);
    assert forall i :: 0 <= i < |keys| ==> keys[i] in multiset(d.order);
    GroupsFor(keys, d.lists)
  }

  /**
   * `groups` is the homophone index of the appends: readings unique and
   * strictly ascending, exactly the readings used, each with the values
   * appended under it in the order they were appended.
   */
  ghost predicate IndexOf<T>(groups: seq<Group<T>>, appends: seq<(string, T)>)
  {
    && StrictlyAscending(Readings(groups))
    && (forall k :: k in Readings(groups) <==> HasKey(appends, k))
    && (forall i :: 0 <= i < |groups| ==> groups[i].members == MembersOf(appends, groups[i].reading))
  }

  /** Sorting the items of the dictionary gives the index of its appends. */
  lemma SortedItemsIndex<T>(d: Index<T>, appends: seq<(string, T)>)
    requires Holds(d, appends)
    ensures IndexOf(SortedItems(d), appends)
  {
    var groups := SortedItems(d);
    SortDistinctAscending(d.order);
    forall k ensures k in Readings(groups) <==> k in d.order {
      assert k in Readings(groups) <==> k in multiset(Sort(d.order));
    }
  }

  /** Every value appended under a reading is found in that reading's group, as often as appended. */
  lemma {:induction false} MembersOfCounts<T>(appends: seq<(string, T)>, k: string, v: T)
    ensures multiset(MembersOf(appends, k))[v] == multiset(appends)[(k, v)]
  {
    if appends != [] {
      var init := appends[..|appends| - 1];
      MembersOfCounts(init, k, v);
      assert appends == init + [appends[|appends| - 1]];
    }
  }

  /** The members of a key over two runs of appends are those of each, in order. */
  lemma {:induction false} MembersOfConcat<T>(a: seq<(string, T)>, b: seq<(string, T)>, k: string)
    ensures MembersOf(a + b, k) == MembersOf(a, k) + MembersOf(b, k)
    decreases |b|
  {
    if b == [] {
      assert a + b == a;
    } else {
      var b' := b[..|b| - 1];
      assert (a + b)[..|a + b| - 1] == a + b';
      assert (a + b)[|a + b| - 1] == b[|b| - 1];
      MembersOfConcat(a, b', k);
    }
  }
}

/** Copying all keys of one etcd into another, a page at a time, as a restore does. */
module CopyTo {
  import opened StringOrder

  /** The store that is copied: its keys in ascending order, none of them empty, and their values. */
  datatype Source = Source(keys: seq<string>, values: map<string, string>)

  ghost predicate ValidSource(s: Source) {
    && Strict(s.keys)
    && (forall k :: k in s.keys <==> k in s.values)
    && "" !in s.keys
  }

  /** The smallest key there can be. */
  const FirstKey := "\0"

  /** How many keys come before `from`. */
  function Before(keys: seq<string>, from: string): (n: nat)
    ensures n <= |keys|
    ensures n < |keys| ==> LessEq(from, keys[n])
    ensures forall i | 0 <= i < n :: !LessEq(from, keys[i])
  {
    if keys == [] || LessEq(from, keys[0]) then 0 else 1 + Before(keys[1..], from)
  }

  /** One page: the first `limit` keys from `from` on, in ascending order; no limit when it is 0. */
  function Page(keys: seq<string>, from: string, limit: nat): seq<string> {
    var n := Before(keys, from);
    if limit == 0 || n + limit > |keys| then keys[n..] else keys[n..n + limit]
  }

  lemma BeforeFirst(keys: seq<string>)
    requires "" !in keys
    ensures Before(keys, FirstKey) == 0
  {
    if keys != [] {
      assert keys[0] in keys;
      assert LessEq(FirstKey[1..], keys[0][1..]);
    }
  }

  lemma BeforeKey(keys: seq<string>, i: nat)
    requires Strict(keys) && i < |keys|
    ensures Before(keys, keys[i]) == i
  {
    Reflexive(keys[i]);
    var n := Before(keys, keys[i]);
    if n < i {
      Antisymmetric(keys[n], keys[i]);
    }
  }

  /** What a store holds once the `puts` of `s` have been written over `data`. */
  function Written(data: map<string, string>, s: Source, puts: seq<string>): map<string, string>
    requires forall k | k in puts :: k in s.values
  {
    data + map k | k in puts :: s.values[k]
  }

  lemma WrittenAdds(data: map<string, string>, s: Source, puts: seq<string>, k: string)
    requires k in s.values && forall p | p in puts :: p in s.values
    ensures Written(data, s, puts)[k := s.values[k]] == Written(data, s, puts + [k])
  {
  }

  lemma WrittenAll(data: map<string, string>, s: Source)
    requires ValidSource(s)
    ensures Written(data, s, s.keys) == data + s.values
  {
  }

  /** The store that is written. */
  class Destination {
    var data: map<string, string>
    /** The keys that were put, in order. */
    ghost var puts: seq<string>
    /** Some put was reported to have failed. */
    ghost var failed: bool

    /** A put may fail, and a failed put may still have been applied. */
    method Put(key: string, value: string) returns (ok: bool)
      modifies this
      ensures failed == (old(failed) || !ok)
      ensures
        || (data == old(data)[key := value] && puts == old(puts) + [key])
        || (!ok && data == old(data) && puts == old(puts))
    {
      var applied: bool := *;
      ok := *;
      ok := ok && applied;
      if applied {
        data := data[key := value];
        puts := puts + [key];
      }
      failed := failed || !ok;
    }
  }

  /** The page limit the code uses. */
  const PageLimit: nat := 1000

  /** The copy gets through all keys.  A page of one key is only ever the key the copy already has. */
  predicate Sufficient(limit: nat, s: Source) {
    limit != 1 || |s.keys| <= 1
  }

  /** A destination that held `data` and had `puts` behind it has come `n` keys further: the first
    * `n` keys were put, each once and in ascending order, and nothing else. */
  ghost predicate Copied(s: Source, data: map<string, string>, puts: seq<string>, dest: Destination, n: nat)
    requires ValidSource(s) && n <= |s.keys|
    reads dest
  {
    dest.puts == puts + s.keys[..n] && dest.data == Written(data, s, s.keys[..n])
  }

  /** The key the copy goes on from, after `count` keys. */
  function LastKey(s: Source, count: nat): string
    requires count <= |s.keys|
  {
    if count == 0 then "" else s.keys[count - 1]
  }

  function From(lastKey: string): string {
    if lastKey == "" then FirstKey else lastKey
  }

  lemma NextStart(s: Source, count: nat)
    requires ValidSource(s) && count <= |s.keys|
    ensures Before(s.keys, From(LastKey(s, count))) == if count == 0 then 0 else count - 1
  {
    if count == 0 {
      BeforeFirst(s.keys);
    } else {
      assert s.keys[count - 1] in s.keys;
      BeforeKey(s.keys, count - 1);
    }
  }

  /** The next page starts with the last key of the one before. */
  lemma NextPage(s: Source, count: nat, limit: nat, start: nat, page: seq<string>)
    requires ValidSource(s) && count <= |s.keys|
    requires start == if count == 0 then 0 else count - 1
    requires page == Page(s.keys, From(LastKey(s, count)), limit)
    ensures start + |page| <= |s.keys| && page == s.keys[start..start + |page|]
    ensures |page| == if limit == 0 || start + limit > |s.keys| then |s.keys| - start else limit
  {
    NextStart(s, count);
  }

  lemma OneMore(s: Source, data: map<string, string>, n: nat)
    requires ValidSource(s) && n < |s.keys|
    ensures s.keys[..n + 1] == s.keys[..n] + [s.keys[n]]
    ensures Written(data, s, s.keys[..n])[s.keys[n] := s.values[s.keys[n]]] == Written(data, s, s.keys[..n + 1])
  {
    WrittenAdds(data, s, s.keys[..n], s.keys[n]);
  }

  /** Only the last key that was copied equals the last key. */
  lemma SkipsOne(s: Source, count: nat, j: nat)
    requires ValidSource(s) && j < |s.keys| && count <= |s.keys| && j <= count <= j + 1
    ensures s.keys[j] in s.values && (s.keys[j] == LastKey(s, count) <==> j + 1 == count)
  {
  }

  /** Put the key after the first `count`. */
  method PutNext(s: Source, dest: Destination, count: nat, key: string,
                 ghost data: map<string, string>, ghost puts: seq<string>)
    returns (ok: bool, ghost n: nat)
    requires ValidSource(s) && count < |s.keys| && key == s.keys[count] && key in s.values
    requires Copied(s, data, puts, dest, count)
    modifies dest
    ensures count <= n <= count + 1 && Copied(s, data, puts, dest, n)
    ensures dest.failed == (old(dest.failed) || !ok) && (ok ==> n == count + 1)
  {
    OneMore(s, data, count);
    ghost var before := |dest.puts|;
    ok := dest.Put(key, s.values[key]);
    n := if |dest.puts| == before then count else count + 1;
  }

  /** Write one page, but for the key the copy already has.  `n` keys have been put in all. */
  method CopyPage(s: Source, dest: Destination, page: seq<string>, count0: nat, lastKey0: string,
                  ghost start: nat, ghost data: map<string, string>, ghost puts: seq<string>)
    returns (count: nat, lastKey: string, gotMore: bool, ok: bool, ghost n: nat)
    requires ValidSource(s) && count0 <= |s.keys| && lastKey0 == LastKey(s, count0)
    requires start == if count0 == 0 then 0 else count0 - 1
    requires start + |page| <= |s.keys| && page == s.keys[start..start + |page|]
    requires Copied(s, data, puts, dest, count0)
    modifies dest
    ensures count0 <= count <= n <= |s.keys| && Copied(s, data, puts, dest, n)
    ensures ok ==> n == count == if start + |page| < count0 then count0 else start + |page|
    ensures ok ==> lastKey == LastKey(s, count) && gotMore == (count > count0)
    ensures dest.failed == (old(dest.failed) || !ok) && (!ok ==> n <= count + 1)
  {
    count, lastKey, gotMore, ok, n := count0, lastKey0, false, true, count0;
    for i := 0 to |page|
      invariant n == count == if start + i < count0 then count0 else start + i
      invariant lastKey == LastKey(s, count) && gotMore == (count > count0)
      invariant ok && dest.failed == old(dest.failed) && Copied(s, data, puts, dest, count)
    {
      var key := page[i];
      SkipsOne(s, count, start + i);
      if key == lastKey {
        continue;
      }
      gotMore := true;
      ok, n := PutNext(s, dest, count, key, data, puts);
      if !ok {
        return;
      }
      count := count + 1;
      lastKey := key;
    }
  }

  /** Copy page by page until a page brings nothing new.
    *
    * Whatever fails, the keys put so far are the smallest ones, each put once and in ascending
    * order.  Without a failure `count` keys were put: all of them, if the limit is sufficient, and
    * exactly one otherwise.  `unread` says which pages cannot be read. */
  method CopyAll(s: Source, dest: Destination, limit: nat, unread: nat -> bool)
    returns (count: nat, ok: bool, ghost n: nat)
    requires ValidSource(s)
    modifies dest
    ensures count <= n <= |s.keys| && Copied(s, old(dest.data), old(dest.puts), dest, n)
    ensures !ok ==> n <= count + 1
    ensures ok ==> dest.failed == old(dest.failed)
    ensures !ok ==> dest.failed || exists i :: unread(i)
    ensures ok && Sufficient(limit, s) ==> n == count == |s.keys| && dest.data == old(dest.data) + s.values
    ensures ok && !Sufficient(limit, s) ==> n == count == 1
  {
    ghost var data, puts := dest.data, dest.puts;
    count, ok, n := 0, true, 0;
    var lastKey, gotMore, pages := "", true, 0;
    while gotMore
      invariant dest.failed == old(dest.failed)
      invariant ok && n == count <= |s.keys| && Copied(s, data, puts, dest, count)
      invariant lastKey == LastKey(s, count)
      invariant !gotMore ==> if Sufficient(limit, s) then count == |s.keys| else count == 1
      invariant !Sufficient(limit, s) ==> count <= 1
      decreases |s.keys| - count, gotMore
    {
      ok := !unread(pages);
      if !ok {
        return;
      }
      pages := pages + 1;
      var page := Page(s.keys, From(lastKey), limit);
      ghost var start := if count == 0 then 0 else count - 1;
      NextPage(s, count, limit, start, page);
      count, lastKey, gotMore, ok, n := CopyPage(s, dest, page, count, lastKey, start, data, puts);
      if !ok {
        return;
      }
    }
    if Sufficient(limit, s) {
      assert s.keys[..|s.keys|] == s.keys;
      WrittenAll(data, s);
    }
  }

  /** The page limit in use is sufficient for every source. */
  method Copy(s: Source, dest: Destination, unread: nat -> bool) returns (count: nat, ok: bool)
    requires ValidSource(s)
    modifies dest
    ensures !dest.failed && (forall i :: !unread(i)) ==> ok
    ensures ok ==> count == |s.values| && dest.data == old(dest.data) + s.values
    ensures ok ==> dest.puts == old(dest.puts) + s.keys
  {
    ghost var n;
    count, ok, n := CopyAll(s, dest, PageLimit, unread);
    KeysAreCounted(s);
    assert s.keys[..|s.keys|] == s.keys;
  }

  lemma KeysAreCounted(s: Source)
    requires ValidSource(s)
    ensures |s.keys| == |s.values|
  {
    StrictCounts(s.keys);
    assert (set k | k in s.keys) == s.values.Keys;
    assert |multiset(s.keys)| == |s.keys|;
    assert |multiset(s.values.Keys)| == |s.values.Keys|;
  }
}

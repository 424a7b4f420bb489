/** The insertion-ordered key-value store (basic/dictionary.cpp). */
module Dictionaries {

  type Storage = seq<(string, string)>

  predicate HasKey(s: Storage, key: string) {
    exists i :: 0 <= i < |s| && s[i].0 == key
  }

  predicate UniqueKeys(s: Storage) {
    forall i, j :: 0 <= i < j < |s| ==> s[i].0 != s[j].0
  }

  /** The position of the first entry with this key; the length if there is none. */
  function Find(s: Storage, key: string): (i: nat)
    ensures i <= |s| && (i < |s| ==> s[i].0 == key)
    ensures forall j :: 0 <= j < i ==> s[j].0 != key
    ensures i < |s| <==> HasKey(s, key)
  {
    if s == [] then 0
    else if s[0].0 == key then 0
    else
      var i := Find(s[1..], key);
      assert forall j :: 1 <= j < |s| ==> s[j] == s[1..][j - 1];
      assert HasKey(s[1..], key) <==> HasKey(s, key);
      1 + i
  }

  function Get(s: Storage, key: string): string {
    var i := Find(s, key);
    if i < |s| then s[i].1 else ""
  }

  /** d[key] = value: replaces in place, or appends. */
  function Put(s: Storage, key: string, value: string): Storage {
    var i := Find(s, key);
    if i < |s| then s[i := (key, value)] else s + [(key, value)]
  }

  /** Erases the entry with this key, keeping the order of the others. */
  function Erase(s: Storage, key: string): Storage {
    var i := Find(s, key);
    if i < |s| then s[..i] + s[i + 1..] else s
  }

  lemma FindIs(s: Storage, key: string, i: nat)
    requires i < |s| && s[i].0 == key && forall j :: 0 <= j < i ==> s[j].0 != key
    ensures Find(s, key) == i
  {
  }

  /** Writing one key changes what is read for that key and for no other. */
  lemma PutGet(s: Storage, key: string, value: string, k: string)
    ensures HasKey(Put(s, key, value), k) <==> HasKey(s, k) || k == key
    ensures Get(Put(s, key, value), k) == if k == key then value else Get(s, k)
  {
    var r, i, j := Put(s, key, value), Find(s, key), Find(s, k);
    assert r[i] == (key, value);
    if k == key {
      FindIs(r, k, i);
    } else if j < |s| {
      FindIs(r, k, j);
    } else {
      assert forall m :: 0 <= m < |r| ==> r[m].0 != k;
    }
  }

  lemma PutUnique(s: Storage, key: string, value: string)
    requires UniqueKeys(s)
    ensures UniqueKeys(Put(s, key, value))
  {
  }

  lemma EraseGet(s: Storage, key: string, k: string)
    requires UniqueKeys(s)
    ensures HasKey(Erase(s, key), k) <==> HasKey(s, k) && k != key
    ensures Get(Erase(s, key), k) == if k == key then "" else Get(s, k)
  {
    var r, i, j := Erase(s, key), Find(s, key), Find(s, k);
    if i < |s| {
      assert forall m :: 0 <= m < |r| ==> r[m] == if m < i then s[m] else s[m + 1];
      if j < |s| && k != key {
        FindIs(r, k, if j < i then j else j - 1);
      } else {
        assert forall m :: 0 <= m < |r| ==> r[m].0 != k;
      }
    }
  }

  lemma EraseUnique(s: Storage, key: string)
    requires UniqueKeys(s)
    ensures UniqueKeys(Erase(s, key))
  {
    var r, i := Erase(s, key), Find(s, key);
    if i < |s| {
      assert forall m :: 0 <= m < |r| ==> r[m] == if m < i then s[m] else s[m + 1];
    }
  }

  class Dictionary {
    var data: Storage

    ghost predicate Valid()
      reads this
    {
      UniqueKeys(data)
    }

    constructor ()
      ensures Valid() && data == []
    {
      data := [];
    }

    method EraseKey(key: string)
      requires Valid()
      modifies this
      ensures Valid() && data == Erase(old(data), key)
    {
      EraseUnique(data, key);
      var i := FindEntry(key);
      if i < |data| {
        data := data[..i] + data[i + 1..];
      }
    }

    method Set(key: string, value: string)
      requires Valid()
      modifies this
      ensures Valid() && data == Put(old(data), key, value)
    {
      PutUnique(data, key, value);
      var i := FindEntry(key);
      if i == |data| {
        data := data + [(key, "")];
      }
      data := data[i := (key, value)];
    }

    method FindEntry(key: string) returns (i: nat)
      ensures i == Find(data, key)
    {
      i := 0;
      while i < |data| && data[i].0 != key
        invariant i <= |data| && forall j :: 0 <= j < i ==> data[j].0 != key
      {
        i := i + 1;
      }
      if i < |data| {
        FindIs(data, key, i);
      }
    }
  }
}

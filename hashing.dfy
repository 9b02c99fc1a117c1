/** The duplicate-name check of core/hashing.py over a template store whose
    keys are name hashes and whose values are either {name, embedding}
    records or bare legacy embeddings. */
module Hashing {
  type Embedding = seq<real>

  /** A stored value: a record with its display name, or a legacy bare tensor. */
  datatype StoredValue = Record(name: string, embedding: Embedding) | Legacy(embedding: Embedding)

  /** The template store: hashed-name key to stored value. */
  type Store = map<string, StoredValue>

  /** name_exists: some stored value is a record whose name is exactly `name`;
      keys are not consulted and legacy values never match. */
  function NameExists(store: Store, name: string): (found: bool)
    ensures found <==> exists k :: k in store && store[k] == Record(name, store[k].embedding)
  {
    exists v :: v in store.Values && v.Record? && v.name == name
  }

  /** An empty store holds no name. */
  lemma EmptyStoreHasNoName(name: string)
    ensures !NameExists(map[], name)
  {
  }

  /** The answer depends only on the stored values, never on the keys. */
  lemma {:induction false} KeysAreIgnored(s1: Store, s2: Store, name: string)
    requires s1.Values == s2.Values
    ensures NameExists(s1, name) == NameExists(s2, name)
  {
  }

  /** Storing a record under any key makes its name exist. */
  lemma {:induction false} InsertedRecordExists(store: Store, key: string, name: string, e: Embedding)
    ensures NameExists(store[key := Record(name, e)], name)
  {
    var s := store[key := Record(name, e)];
    assert s[key] == Record(name, s[key].embedding);
  }

  /** Storing a legacy value under a fresh key changes no answer. */
  lemma {:induction false} InsertedLegacyIsInvisible(store: Store, key: string, e: Embedding, name: string)
    requires key !in store
    ensures NameExists(store[key := Legacy(e)], name) == NameExists(store, name)
  {
    var s := store[key := Legacy(e)];
    if NameExists(s, name) {
      var k :| k in s && s[k] == Record(name, s[k].embedding);
      assert k != key && store[k] == s[k];
    }
    if NameExists(store, name) {
      var k :| k in store && store[k] == Record(name, store[k].embedding);
      assert k != key && s[k] == store[k];
    }
  }

  /** The match is exact: a record stored under the query as its key but with
      another name does not make the query exist. */
  lemma {:induction false} OnlyTheNameFieldMatches(name: string, other: string, e: Embedding)
    requires other != name
    ensures !NameExists(map[name := Record(other, e)], name)
    ensures NameExists(map[other := Record(name, e)], name)
  {
    var s := map[other := Record(name, e)];
    assert s[other] == Record(name, s[other].embedding);
  }
}

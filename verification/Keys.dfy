/** Keys of cached objects: "namespace/name", or "name" for cluster-wide objects,
    and the lookup that `reconcile` makes for a key. */
module Keys {
  import opened Results

  type Key = string

  datatype NamespacedName = NamespacedName(namespace: string, name: string)

  /** `cache.MetaNamespaceKeyFunc` of an object with metadata. */
  function MakeKey(n: NamespacedName): Key {
    if n.namespace == "" then n.name else n.namespace + "/" + n.name
  }

  function SlashIndex(key: Key): (i: nat)
    ensures i <= |key| && '/' !in key[..i]
    ensures i < |key| ==> key[i] == '/'
  {
    if key == "" || key[0] == '/' then 0
    else
      var i := SlashIndex(key[1..]);
      assert key[..i + 1] == [key[0]] + key[1..][..i];
      i + 1
  }

  /** `cache.SplitMetaNamespaceKey`: an error for more than one slash. */
  function SplitKey(key: Key): Option<NamespacedName> {
    var i := SlashIndex(key);
    if i == |key| then Some(NamespacedName("", key))
    else if '/' in key[i + 1..] then None
    else Some(NamespacedName(key[..i], key[i + 1..]))
  }

  /** The key under which `reconcile` looks in the cache: the namespaced lister
      puts the key together again, the cluster-wide lister takes the bare name. */
  function LookupKey(key: Key): Option<Key> {
    match SplitKey(key)
    case None => None
    case Some(n) => Some(if |n.namespace| > 0 then n.namespace + "/" + n.name else n.name)
  }

  /** A key that `reconcile` looks up under itself. */
  predicate Proper(key: Key) {
    LookupKey(key) == Some(key)
  }

  lemma {:induction false} FirstSlash(key: Key, i: nat)
    requires i <= |key| && (i < |key| ==> key[i] == '/')
    requires forall k :: 0 <= k < i ==> key[k] != '/'
    ensures SlashIndex(key) == i
  {
    if i > 0 {
      FirstSlash(key[1..], i - 1);
    }
  }

  /** Splitting undoes the making of a key for names without slashes. */
  lemma SplitUndoesMake(n: NamespacedName)
    requires '/' !in n.namespace && '/' !in n.name
    ensures SplitKey(MakeKey(n)) == Some(n) && Proper(MakeKey(n))
  {
    var key, j := MakeKey(n), |n.namespace|;
    if n.namespace == "" {
      FirstSlash(key, |key|);
    } else {
      FirstSlash(key, j);
      assert key[..j] == n.namespace && key[j + 1..] == n.name;
    }
  }

  /** Exactly the keys with at most one slash, and that not at the front, are
      looked up under themselves. */
  lemma ProperExactly(key: Key)
    ensures Proper(key) <==>
      (|key| > 0 ==> key[0] != '/') && forall i, j :: 0 <= i < j < |key| ==> key[i] != '/' || key[j] != '/'
  {
    var i := SlashIndex(key);
    forall k | 0 <= k < i ensures key[k] != '/' {
      assert key[k] == key[..i][k];
    }
    if i < |key| {
      forall k | i < k < |key| ensures key[k] == key[i + 1..][k - i - 1] {}
      assert key == key[..i] + "/" + key[i + 1..];
      if i == 0 {
        assert |key[1..]| != |key|;
      }
    }
  }

  /** Keys apart, case by case: one slash, none, more. */
  lemma SplitExactly(namespace: string, name: string, rest: string)
    requires '/' !in namespace && '/' !in name
    ensures SplitKey(namespace + "/" + name) == Some(NamespacedName(namespace, name))
    ensures SplitKey(name) == Some(NamespacedName("", name))
    ensures SplitKey(namespace + "/" + name + "/" + rest) == None
    ensures namespace != "" ==> MakeKey(NamespacedName(namespace, name)) == namespace + "/" + name
    ensures MakeKey(NamespacedName("", name)) == name
  {
    var one, more, j := namespace + "/" + name, namespace + "/" + name + "/" + rest, |namespace|;
    FirstSlash(one, j);
    assert one[..j] == namespace && one[j + 1..] == name;
    FirstSlash(name, |name|);
    FirstSlash(more, j);
    assert more[j + 1..][|name|] == '/';
  }
}

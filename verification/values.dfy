/** The contents of an esmero configuration file: a JSON object whose values
    are strings, other JSON scalars, or nested objects ("sections"), and
    navigation along a path of keys in it. */
module Values {
  import opened Outcomes

  /** A JSON value as the configuration code sees it: a string, another
      scalar (number, boolean or null, kept as its JSON text), or an object. */
  datatype Value =
    | Str(text: string)
    | Literal(json: string)
    | Section(entries: map<string, Value>)

  /** The value reached from v by following the keys of path, each through a
      section; None when a key is missing or a non-section is in the way. */
  function At(v: Value, path: seq<string>): Option<Value>
    decreases |path|
  {
    if path == [] then Some(v)
    else match v
      case Section(m) => if path[0] in m then At(m[path[0]], path[1..]) else None
      case _ => None
  }

  /** v with the node at an existing path replaced by x. */
  function Put(v: Value, path: seq<string>, x: Value): (r: Value)
    requires At(v, path).Some?
    ensures At(r, path) == Some(x)
    ensures path != [] ==> r.Section?
    decreases |path|
  {
    if path == [] then x
    else Section(v.entries[path[0] := Put(v.entries[path[0]], path[1..], x)])
  }

  /** Following one more key is following the path, then that key. */
  lemma {:induction false} AtAppend(v: Value, path: seq<string>, k: string)
    ensures At(v, path + [k]) ==
      (match At(v, path)
       case Some(Section(m)) => if k in m then Some(m[k]) else None
       case _ => None)
    decreases |path|
  {
    if path != [] {
      assert (path + [k])[0] == path[0];
      assert (path + [k])[1..] == path[1..] + [k];
      if v.Section? && path[0] in v.entries {
        AtAppend(v.entries[path[0]], path[1..], k);
      }
    } else {
      assert [k][1..] == [];
    }
  }

  /** Replacing a node keeps every shorter prefix of its path defined and
      makes it a section. */
  lemma {:induction false} PutPrefixSections(v: Value, path: seq<string>, x: Value, j: nat)
    requires At(v, path).Some?
    requires j < |path|
    ensures At(Put(v, path, x), path[..j]).Some?
    ensures At(Put(v, path, x), path[..j]).value.Section?
    decreases |path|
  {
    if j > 0 {
      assert path[..j][0] == path[0];
      assert path[..j][1..] == path[1..][..j - 1];
      PutPrefixSections(v.entries[path[0]], path[1..], x, j - 1);
    }
  }

  /** Two sections that agree on every key but k. */
  ghost predicate SameOutside(a: Value, b: Value, k: string) {
    a.Section? && b.Section? &&
    (forall j :: j != k ==> (j in a.entries <==> j in b.entries)) &&
    (forall j :: j != k && j in a.entries ==> a.entries[j] == b.entries[j])
  }

  /** Replacing a node below a section changes only the first key of the
      path. */
  lemma PutFrame(v: Value, path: seq<string>, x: Value)
    requires v.Section? && At(v, path).Some? && path != []
    ensures SameOutside(v, Put(v, path, x), path[0])
  {
  }

  /** Following a + b is following a, then b from where a led. */
  lemma {:induction false} AtConcat(v: Value, a: seq<string>, b: seq<string>)
    ensures At(v, a + b) == if At(v, a).Some? then At(At(v, a).value, b) else None
    decreases |a|
  {
    if a == [] {
      assert a + b == b;
    } else {
      assert (a + b)[0] == a[0];
      assert (a + b)[1..] == a[1..] + b;
      if v.Section? && a[0] in v.entries {
        AtConcat(v.entries[a[0]], a[1..], b);
      }
    }
  }

  /** Below the replaced node, the new node is what is found. */
  lemma PutInside(v: Value, path: seq<string>, x: Value, q: seq<string>)
    requires At(v, path).Some?
    ensures At(Put(v, path, x), path + q) == At(x, q)
  {
    AtConcat(Put(v, path, x), path, q);
  }

  /** Replacing a node leaves every sibling of every node along its path as
      it was: leaving the path at depth j by a key other than path[j]
      reaches the same value before and after. */
  lemma {:induction false} PutDeepFrame(v: Value, path: seq<string>, x: Value, j: nat, t: string)
    requires At(v, path).Some? && j < |path| && t != path[j]
    ensures At(Put(v, path, x), path[..j] + [t]) == At(v, path[..j] + [t])
    decreases |path|
  {
    if j == 0 {
      assert path[..0] + [t] == [t];
      assert [t][1..] == [];
    } else {
      var q := path[..j] + [t];
      assert q[0] == path[0];
      assert q[1..] == path[1..][..j - 1] + [t];
      PutDeepFrame(v.entries[path[0]], path[1..], x, j - 1, t);
    }
  }
}

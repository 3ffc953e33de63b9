/** `-[NSDictionary mtl_getValue:forJSONKeyPath:error:]`: looking up a dotted
    key path such as "a.b.c" through nested JSON dictionaries. Every element the
    path passes through must be an NSDictionary; a missing key ends the lookup
    successfully with nil. */
module JsonKeyPath {
  import opened Wrappers
  import opened Values

  /** `-componentsSeparatedByString:@"."`: the pieces between the dots, empty
      pieces included, so there is always one more piece than there are dots. */
  function Components(path: string): (r: seq<string>)
    ensures |r| >= 1
    ensures forall i :: 0 <= i < |r| ==> '.' !in r[i]
    decreases |path|
  {
    if |path| == 0 then [""]
    else
      var rest := Components(path[1..]);
      if path[0] == '.' then [""] + rest
      else [[path[0]] + rest[0]] + rest[1..]
  }

  /** `-componentsJoinedByString:@"."`, the inverse of `Components`. */
  function Join(parts: seq<string>): string
    requires |parts| >= 1
  {
    if |parts| == 1 then parts[0] else parts[0] + "." + Join(parts[1..])
  }

  lemma {:induction false} JoinComponents(path: string)
    ensures Join(Components(path)) == path
    decreases |path|
  {
    if |path| > 0 {
      var rest := Components(path[1..]);
      JoinComponents(path[1..]);
      assert path == [path[0]] + path[1..];
      if path[0] == '.' {
        JoinAfterDot(rest);
      } else {
        JoinGlued(path[0], rest);
      }
    }
  }

  lemma JoinAfterDot(rest: seq<string>)
    requires |rest| >= 1
    ensures Join([""] + rest) == "." + Join(rest)
  {
    assert ([""] + rest)[1..] == rest;
  }

  lemma JoinGlued(c: char, rest: seq<string>)
    requires |rest| >= 1
    ensures Join([[c] + rest[0]] + rest[1..]) == [c] + Join(rest)
  {
    if |rest| > 1 {
      assert ([[c] + rest[0]] + rest[1..])[1..] == rest[1..];
    }
  }

  /** A dot-free prefix glues onto the first component of what follows it. */
  lemma {:induction false} ComponentsOfDotFreePrefix(a: string, tail: string)
    requires '.' !in a
    ensures Components(a + tail) == [a + Components(tail)[0]] + Components(tail)[1..]
    decreases |a|
  {
    if |a| > 0 {
      assert (a + tail)[1..] == a[1..] + tail;
      ComponentsOfDotFreePrefix(a[1..], tail);
      assert [a[0]] + (a[1..] + Components(tail)[0]) == a + Components(tail)[0];
    } else {
      assert a + tail == tail;
      var c := Components(tail);
      assert a == [];
      assert a + c[0] == c[0];
      assert c == [c[0]] + c[1..];
    }
  }

  lemma {:induction false} ComponentsJoin(parts: seq<string>)
    requires |parts| >= 1
    requires forall i :: 0 <= i < |parts| ==> '.' !in parts[i]
    ensures Components(Join(parts)) == parts
    decreases |parts|
  {
    if |parts| == 1 {
      ComponentsOfDotFreePrefix(parts[0], "");
      assert parts[0] + "" == parts[0];
    } else {
      var rest := Join(parts[1..]);
      ComponentsJoin(parts[1..]);
      assert Components("." + rest) == [""] + parts[1..];
      assert parts[0] + "." + rest == parts[0] + ("." + rest);
      ComponentsOfDotFreePrefix(parts[0], "." + rest);
      assert parts[0] + "" == parts[0];
    }
  }

  /** The element at `keys[..index]` is not a dictionary, so `keys[index]`
      could not be looked up in it. */
  datatype PathError = NotADictionary(index: nat, found: Value)

  /** The resolving loop: `current` is the element reached after `depth`
      components; `keys` are the components still to follow. */
  function Walk(current: Value, keys: seq<string>, depth: nat): (r: Result<Option<Value>, PathError>)
    ensures r.Failure? ==> depth <= r.error.index < depth + |keys| && !r.error.found.Dictionary?
    ensures |keys| == 0 ==> r == Success(Some(current))
    decreases |keys|
  {
    if |keys| == 0 then Success(Some(current))
    else
      match current
      case Dictionary(m) =>
        if keys[0] in m then Walk(m[keys[0]], keys[1..], depth + 1) else Success(None)
      case _ => Failure(NotADictionary(depth, current))
  }

  /** Reference lookup that ignores traversal errors: the element found by
      following `keys` from `v`, or None when a key is missing or an element on
      the way is not a dictionary. */
  function Descend(v: Value, keys: seq<string>): Option<Value>
    decreases |keys|
  {
    if |keys| == 0 then Some(v)
    else
      match v
      case Dictionary(m) => if keys[0] in m then Descend(m[keys[0]], keys[1..]) else None
      case _ => None
  }

  /** An element may be passed through by a key path: absent, or a dictionary. */
  predicate Traversable(o: Option<Value>) {
    o.None? || o.value.Dictionary?
  }

  lemma DescendPrefixStep(m: map<string, Value>, keys: seq<string>, i: nat)
    requires 1 <= i <= |keys|
    ensures Descend(Dictionary(m), keys[..i])
         == (if keys[0] in m then Descend(m[keys[0]], keys[1..][..i - 1]) else None)
  {
    assert keys[..i][0] == keys[0];
    assert keys[..i][1..] == keys[1..][..i - 1];
  }

  lemma {:induction false} WalkMeaning(v: Value, keys: seq<string>, depth: nat)
    ensures Walk(v, keys, depth).Success?
        <==> forall i :: 0 <= i < |keys| ==> Traversable(Descend(v, keys[..i]))
    ensures Walk(v, keys, depth).Success? ==> Walk(v, keys, depth).value == Descend(v, keys)
    ensures Walk(v, keys, depth).Failure? ==>
              var e := Walk(v, keys, depth).error;
              depth <= e.index < depth + |keys|
              && Descend(v, keys[..e.index - depth]) == Some(e.found)
              && !e.found.Dictionary?
    decreases |keys|
  {
    if |keys| > 0 {
      assert keys[..0] == [];
      match v
      case Dictionary(m) =>
        if keys[0] in m {
          var child := m[keys[0]];
          WalkMeaning(child, keys[1..], depth + 1);
          forall i | 1 <= i <= |keys| {
            DescendPrefixStep(m, keys, i);
          }
          if Walk(v, keys, depth).Success? {
            forall i | 0 <= i < |keys|
              ensures Traversable(Descend(v, keys[..i]))
            {
              if i > 0 {
                assert Traversable(Descend(child, keys[1..][..i - 1]));
              }
            }
            assert keys[..|keys|] == keys;
            DescendPrefixStep(m, keys, |keys|);
          } else {
            var e := Walk(v, keys, depth).error;
            DescendPrefixStep(m, keys, e.index - depth);
            var j := e.index - depth;
            assert !Traversable(Descend(v, keys[..j]));
          }
        } else {
          forall i | 0 <= i < |keys|
            ensures Traversable(Descend(v, keys[..i]))
          {
            if i > 0 {
              DescendPrefixStep(m, keys, i);
            }
          }
        }
      case _ =>
        assert !Traversable(Descend(v, keys[..0]));
    }
  }

  /** `mtl_getValue:forJSONKeyPath:error:` on the receiver `root`: YES with the
      (possibly nil) value, or NO with the error. */
  function Resolve(root: map<string, Value>, keyPath: string): (r: Result<Option<Value>, PathError>)
    // succeeds exactly when every element reached along the path is a dictionary
    ensures var keys := Components(keyPath);
            r.Success? <==> forall i :: 0 < i < |keys| ==> Traversable(Descend(Dictionary(root), keys[..i]))
    // the value found is the one stored under the last component
    ensures r.Success? ==> r.value == Descend(Dictionary(root), Components(keyPath))
    // an error names a component whose container is present but not a dictionary
    ensures r.Failure? ==>
              var keys := Components(keyPath);
              0 < r.error.index < |keys|
              && Descend(Dictionary(root), keys[..r.error.index]) == Some(r.error.found)
              && !r.error.found.Dictionary?
  {
    var keys := Components(keyPath);
    WalkMeaning(Dictionary(root), keys, 0);
    assert keys[..0] == [];
    Walk(Dictionary(root), keys, 0)
  }

  /** A path without dots is a plain `objectForKey:` on the receiver. */
  lemma ResolveSingleKey(root: map<string, Value>, key: string)
    requires '.' !in key
    ensures Resolve(root, key) == Success(if key in root then Some(root[key]) else None)
  {
    ComponentsJoin([key]);
    assert Components(key) == [key];
    assert [key][1..] == [];
    if key in root {
      assert Walk(Dictionary(root), [key], 0) == Walk(root[key], [], 1);
    }
  }

  /** On success with a value, the value is stored under the last component in
      the dictionary reached by following the earlier components. */
  lemma {:induction false} DescendLast(v: Value, keys: seq<string>, found: Value)
    requires |keys| >= 1
    requires Descend(v, keys) == Some(found)
    ensures exists m :: Descend(v, keys[..|keys| - 1]) == Some(Dictionary(m))
                        && keys[|keys| - 1] in m && m[keys[|keys| - 1]] == found
    decreases |keys|
  {
    match v
    case Dictionary(m) =>
      if |keys| == 1 {
        assert keys[..0] == [];
      } else {
        DescendLast(m[keys[0]], keys[1..], found);
        DescendPrefixStep(m, keys, |keys| - 1);
        assert keys[1..][..|keys[1..]| - 1] == keys[1..][..|keys| - 2];
      }
  }

  lemma ResolveFoundInLastContainer(root: map<string, Value>, keyPath: string, found: Value)
    requires Resolve(root, keyPath) == Success(Some(found))
    ensures var keys := Components(keyPath);
            exists m :: Descend(Dictionary(root), keys[..|keys| - 1]) == Some(Dictionary(m))
                        && keys[|keys| - 1] in m && m[keys[|keys| - 1]] == found
  {
    DescendLast(Dictionary(root), Components(keyPath), found);
  }
}

module JsonKeyPathExamples {
  import opened Wrappers
  import opened Values
  import opened JsonKeyPath

  /** "a.b.c" against nested dictionaries, a number where a dictionary is
      needed, an NSNull where a dictionary is needed, and a missing key. */
  lemma ResolveExamples()
    ensures Resolve(map["a" := Dictionary(map["b" := Dictionary(map["c" := Number(5)])])], "a.b.c")
         == Success(Some(Number(5)))
    ensures Resolve(map["a" := Number(5)], "a.b.c") == Failure(NotADictionary(1, Number(5)))
    ensures Resolve(map["a" := Dictionary(map["b" := Null])], "a.b.c") == Failure(NotADictionary(2, Null))
    ensures Resolve(map["a" := Dictionary(map[])], "a.b.c") == Success(None)
  {
    ComponentsJoin(["a", "b", "c"]);
    assert Join(["a", "b", "c"]) == "a.b.c";
    assert Components("a.b.c") == ["a", "b", "c"];
  }
}

/** Single-valued header maps: a Java `Map<String, String>` as a list of (name, value) pairs with
    distinct names, in the order the names were first put. */
module HeaderMaps {
  import opened Text

  type Fields = seq<(string, string)>

  /** `Map.get`. */
  function Get(h: Fields, name: string): (r: Option<string>)
    ensures r.None? <==> name !in Keys(h)
  {
    if h == [] then None
    else if h[0].0 == name then Some(h[0].1)
    else Get(h[1..], name)
  }

  /** `Map.put`: a present name keeps its place and takes the new value; a new one goes last. */
  function Put(h: Fields, name: string, value: string): (r: Fields)
    ensures |r| == if name in Keys(h) then |h| else |h| + 1
  {
    if h == [] then [(name, value)]
    else if h[0].0 == name then [(name, value)] + h[1..]
    else [h[0]] + Put(h[1..], name, value)
  }

  /** After a put, the name maps to the new value and every other name is unchanged. */
  lemma {:induction false} PutGet(h: Fields, name: string, value: string, other: string)
    ensures Get(Put(h, name, value), name) == Some(value)
    ensures other != name ==> Get(Put(h, name, value), other) == Get(h, other)
  {
    if h != [] && h[0].0 != name {
      PutGet(h[1..], name, value, other);
    }
  }

  /** Names keep their order, a new one going last. */
  lemma {:induction false} PutKeys(h: Fields, name: string, value: string)
    ensures Keys(Put(h, name, value)) == if name in Keys(h) then Keys(h) else Keys(h) + [name]
  {
    var r := Put(h, name, value);
    if h == [] {
    } else if h[0].0 == name {
      assert Keys(r) == [name] + Keys(h[1..]);
    } else {
      PutKeys(h[1..], name, value);
      assert Keys(r) == [h[0].0] + Keys(Put(h[1..], name, value));
    }
  }

  /** `Map.remove`: the name and its value are gone, the other pairs keep their order. */
  function Remove(h: Fields, name: string): (r: Fields)
    ensures |r| <= |h|
  {
    if h == [] then []
    else if h[0].0 == name then Remove(h[1..], name)
    else [h[0]] + Remove(h[1..], name)
  }

  /** After a remove the name is absent and every other name keeps its value. */
  lemma {:induction false} RemoveGet(h: Fields, name: string, other: string)
    ensures Get(Remove(h, name), name) == None
    ensures other != name ==> Get(Remove(h, name), other) == Get(h, other)
  {
    if h != [] {
      RemoveGet(h[1..], name, other);
    }
  }

  /** A name that is not yet present is put at the end. */
  lemma {:induction false} PutNew(h: Fields, name: string, value: string)
    requires name !in Keys(h)
    ensures Put(h, name, value) == h + [(name, value)]
  {
    if h != [] {
      assert name !in Keys(h[1..]) by {
        assert Keys(h) == [h[0].0] + Keys(h[1..]);
      }
      PutNew(h[1..], name, value);
      assert [h[0]] + (h[1..] + [(name, value)]) == h + [(name, value)];
    }
  }

  /** Putting the value a name already has changes nothing. */
  lemma {:induction false} PutSame(h: Fields, name: string, value: string)
    requires Get(h, name) == Some(value)
    ensures Put(h, name, value) == h
  {
    if h[0].0 != name {
      PutSame(h[1..], name, value);
    }
  }
}

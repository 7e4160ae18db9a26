/** The mixins (mixin.js): installing the traversal functions on a prototype,
    copying a configuration hash onto an object, and testing an object for own
    enumerable properties. Its `traverse`, `get` and `set` are those of traversal.js
    and its `computed` is `Store.MarkComputed`; they are modelled once, in module
    Traversal. */
module Mixins {
  import opened Base
  import opened Traversal

  /** The three function objects `Traversal(obj)` installs. */
  datatype TraversalFns = TraversalFns(traverseFn: Value, getFn: Value, setFn: Value)

  /** The heap after `traverse`, `get` and `set` are written, in that order, onto
      the object at `p`. */
  function Installed(heap: map<nat, Props>, p: nat, fns: TraversalFns): map<nat, Props> {
    Write(Write(Write(heap, p, "traverse", fns.traverseFn), p, "get", fns.getFn), p, "set", fns.setFn)
  }

  /** After installation the prototype holds the three functions under their names,
      and every other property of every object is as it was. */
  lemma InstalledReadsBack(heap: map<nat, Props>, p: nat, fns: TraversalFns, a: nat, key: string)
    ensures var h := Installed(heap, p, fns);
      && Prop(h, Ref(p), "traverse") == Ok(fns.traverseFn)
      && Prop(h, Ref(p), "get") == Ok(fns.getFn)
      && Prop(h, Ref(p), "set") == Ok(fns.setFn)
    ensures (a != p || key !in {"traverse", "get", "set"}) ==>
      Prop(Installed(heap, p, fns), Ref(a), key) == Prop(heap, Ref(a), key)
  {
  }

  /** A user callback of `applyConfig`, called with a key and its value: None when
      it returns, the error when it throws. The default callback is a no-op. */
  type Callback = (string, Value) -> Option<Error>

  /** The loop of `applyConfig` over the props of the target object: copy an entry,
      then call the callback with it; a throwing callback ends the loop. Yields the
      props, the callback calls made, and the outcome. */
  function Configure(props: Props, hash: seq<(string, Value)>, callback: Callback)
    : (Props, seq<(string, Value)>, Outcome)
    decreases |hash|
  {
    if hash == [] then (props, [], Done)
    else
      var props' := props[hash[0].0 := hash[0].1];
      match callback(hash[0].0, hash[0].1)
      case Some(e) => (props', [hash[0]], Fail(e))
      case None =>
        var (rest, calls, o) := Configure(props', hash[1..], callback);
        (rest, [hash[0]] + calls, o)
  }

  /** The keys of `hash` are distinct. */
  predicate DistinctKeys(hash: seq<(string, Value)>) {
    forall i, j :: 0 <= i < j < |hash| ==> hash[i].0 != hash[j].0
  }

  /** When no callback throws, every key of the hash is copied with its value and
      the callback is called once per entry, in order; other keys keep their values. */
  lemma {:induction false} ConfigureCopies(props: Props, hash: seq<(string, Value)>, callback: Callback)
    requires DistinctKeys(hash)
    requires forall i :: 0 <= i < |hash| ==> callback(hash[i].0, hash[i].1).None?
    ensures var (props', calls, o) := Configure(props, hash, callback);
      && o == Done && calls == hash
      && (forall i :: 0 <= i < |hash| ==> hash[i].0 in props' && props'[hash[i].0] == hash[i].1)
      && (forall k :: (forall i :: 0 <= i < |hash| ==> hash[i].0 != k) ==>
            (k in props' <==> k in props) && (k in props ==> props'[k] == props[k]))
    decreases |hash|
  {
    if hash != [] {
      var props1 := props[hash[0].0 := hash[0].1];
      var tail := hash[1..];
      forall i | 0 <= i < |tail| ensures callback(tail[i].0, tail[i].1).None? {
        assert tail[i] == hash[i + 1];
      }
      ConfigureCopies(props1, tail, callback);
      var (props', calls, o) := Configure(props1, tail, callback);
      assert Configure(props, hash, callback) == (props', [hash[0]] + calls, o);
      assert [hash[0]] + tail == hash;
      forall i | 0 <= i < |hash| ensures hash[i].0 in props' && props'[hash[i].0] == hash[i].1 {
        if i > 0 {
          assert hash[i] == tail[i - 1];
        } else {
          assert forall j :: 0 <= j < |tail| ==> tail[j].0 != hash[0].0 by {
            forall j | 0 <= j < |tail| ensures tail[j].0 != hash[0].0 {
              assert tail[j] == hash[j + 1];
            }
          }
        }
      }
      forall k | forall i :: 0 <= i < |hash| ==> hash[i].0 != k
        ensures (k in props' <==> k in props) && (k in props ==> props'[k] == props[k])
      {
        assert hash[0].0 != k;
        assert forall j :: 0 <= j < |tail| ==> tail[j].0 != k by {
          forall j | 0 <= j < |tail| ensures tail[j].0 != k {
            assert tail[j] == hash[j + 1];
          }
        }
      }
    }
  }

  /** A throwing callback ends `applyConfig` with its error, the entries after it
      being neither copied nor passed to the callback. */
  lemma {:induction false} ConfigureStops(props: Props, hash: seq<(string, Value)>, callback: Callback, k: nat)
    requires k < |hash| && callback(hash[k].0, hash[k].1).Some?
    requires forall i :: 0 <= i < k ==> callback(hash[i].0, hash[i].1).None?
    ensures var (_, calls, o) := Configure(props, hash, callback);
      o == Fail(callback(hash[k].0, hash[k].1).value) && calls == hash[..k + 1]
    decreases k
  {
    if k > 0 {
      var props1 := props[hash[0].0 := hash[0].1];
      var tail := hash[1..];
      assert tail[k - 1] == hash[k];
      forall i | 0 <= i < k - 1 ensures callback(tail[i].0, tail[i].1).None? {
        assert tail[i] == hash[i + 1];
      }
      ConfigureStops(props1, tail, callback, k - 1);
      assert [hash[0]] + tail[..k] == hash[..k + 1];
    }
  }

  /** `Traversal(obj)`: write `traverse`, `get` and `set` onto `obj.prototype` and
      return `obj`. Reading the prototype of undefined or null, or writing onto a
      prototype that is not an object, is a TypeError. */
  method InstallTraversal(store: Store, ctor: Value, fns: TraversalFns) returns (r: Result<Value>)
    modifies store`heap
    ensures var proto := Prop(old(store.heap), ctor, "prototype");
      if proto.Ok? && proto.value.Ref? then
        r == Ok(ctor) && store.heap == Installed(old(store.heap), proto.value.addr, fns)
      else
        r == Err(TypeError) && store.heap == old(store.heap)
  {
    var proto := Prop(store.heap, ctor, "prototype");
    if proto.Err? || !proto.value.Ref? {
      return Err(TypeError);
    }
    var p := proto.value.addr;
    store.heap := Write(store.heap, p, "traverse", fns.traverseFn);
    store.heap := Write(store.heap, p, "get", fns.getFn);
    store.heap := Write(store.heap, p, "set", fns.setFn);
    return Ok(ctor);
  }

  /** `applyConfig(obj, hash, callback)`: for each entry of the hash (none for a
      falsy hash), in enumeration order, copy it onto `obj` and call the callback
      on `obj` with it. Copying onto something that is not an object is a TypeError;
      an empty hash copies nothing, whatever `obj` is. */
  method ApplyConfig(store: Store, obj: Value, hash: seq<(string, Value)>, callback: Callback)
    returns (o: Outcome, calls: seq<(string, Value)>)
    modifies store`heap
    ensures hash == [] ==> o == Done && calls == [] && store.heap == old(store.heap)
    ensures hash != [] && !obj.Ref? ==> o == Fail(TypeError) && calls == [] && store.heap == old(store.heap)
    ensures hash != [] && obj.Ref? ==>
      var (props, calls', o') := Configure(PropsOf(old(store.heap), obj.addr), hash, callback);
      o == o' && calls == calls' && store.heap == old(store.heap)[obj.addr := props]
  {
    if hash == [] {
      return Done, [];
    }
    if !obj.Ref? {
      return Fail(TypeError), [];
    }
    o, calls := CopyEntries(store, obj.addr, hash, callback);
  }

  /** The loop of `applyConfig` onto the object at `a`, for a non-empty hash. */
  method CopyEntries(store: Store, a: nat, hash: seq<(string, Value)>, callback: Callback)
    returns (o: Outcome, calls: seq<(string, Value)>)
    requires hash != []
    modifies store`heap
    ensures var total := Configure(PropsOf(old(store.heap), a), hash, callback);
      o == total.2 && calls == total.1 && store.heap == old(store.heap)[a := total.0]
  {
    ghost var total := Configure(PropsOf(store.heap, a), hash, callback);
    ghost var start := store.heap;
    var props := PropsOf(store.heap, a);
    calls := [];
    var i := 0;
    while i < |hash|
      invariant 0 <= i <= |hash|
      invariant store.heap == if i == 0 then start else start[a := props]
      invariant Configure(props, hash[i..], callback).0 == total.0
      invariant calls + Configure(props, hash[i..], callback).1 == total.1
      invariant Configure(props, hash[i..], callback).2 == total.2
    {
      var (key, value) := hash[i];
      ghost var here := Configure(props, hash[i..], callback);
      props := props[key := value];
      store.heap := store.heap[a := props];
      assert store.heap == start[a := props];
      ghost var done := calls;
      calls := calls + [(key, value)];
      var thrown := callback(key, value);
      if thrown.Some? {
        assert here == (props, [(key, value)], Fail(thrown.value));
        return Fail(thrown.value), calls;
      }
      assert hash[i..][1..] == hash[i + 1..];
      ghost var next := Configure(props, hash[i + 1..], callback);
      assert here == (next.0, [(key, value)] + next.1, next.2);
      assert done + here.1 == calls + next.1;
      i := i + 1;
    }
    assert hash[i..] == [];
    o := Done;
  }

  /** `emptyObject(ob)`, given the names the for-in loop enumerates, each with
      whether it is an own property: false at the first own one. */
  method EmptyObject(enumerated: seq<(string, bool)>) returns (r: bool)
    ensures r <==> forall i :: 0 <= i < |enumerated| ==> !enumerated[i].1
  {
    var i := 0;
    while i < |enumerated|
      invariant 0 <= i <= |enumerated|
      invariant forall j :: 0 <= j < i ==> !enumerated[j].1
    {
      if enumerated[i].1 {
        return false;
      }
      i := i + 1;
    }
    return true;
  }

  /** The for-in loop over the object at `a`, which inherits nothing enumerable,
      enumerates exactly its own properties. */
  predicate EnumeratesOwn(heap: map<nat, Props>, a: nat, enumerated: seq<(string, bool)>) {
    && (forall i :: 0 <= i < |enumerated| ==> enumerated[i].1 && enumerated[i].0 in PropsOf(heap, a))
    && (forall k :: k in PropsOf(heap, a) ==> exists i :: 0 <= i < |enumerated| && enumerated[i].0 == k)
  }

  /** For such an object, `emptyObject` is true exactly when it has no properties. */
  lemma EmptyObjectOwn(heap: map<nat, Props>, a: nat, enumerated: seq<(string, bool)>)
    requires EnumeratesOwn(heap, a, enumerated)
    ensures (forall i :: 0 <= i < |enumerated| ==> !enumerated[i].1) <==> PropsOf(heap, a) == map[]
  {
    if PropsOf(heap, a) != map[] {
      var k :| k in PropsOf(heap, a);
      var i :| 0 <= i < |enumerated| && enumerated[i].0 == k;
      assert enumerated[i].1;
    }
  }
}

/** Dot-notation traversal (traversal.js; the same code is repeated in mixin.js):
    reading and writing nested properties of JavaScript objects. The objects live
    in a heap from addresses to their own properties; calling a function object is
    a parameter, since the function bodies are user code. */
module Traversal {
  import opened Base

  /** The own properties of an object. */
  type Props = map<string, Value>

  /** The properties of the object at `a` (none for an address not in the heap). */
  function PropsOf(heap: map<nat, Props>, a: nat): Props {
    if a in heap then heap[a] else map[]
  }

  /** `v[key]`: a TypeError on undefined and null; an own property of an object,
      undefined when it has none; primitives are taken to have no properties. */
  function Prop(heap: map<nat, Props>, v: Value, key: string): (r: Result<Value>)
    ensures r.Err? <==> v.Undefined? || v.Null?
  {
    match v
    case Undefined => Err(TypeError)
    case Null => Err(TypeError)
    case Ref(a) => Ok(if key in PropsOf(heap, a) then PropsOf(heap, a)[key] else Undefined)
    case _ => Ok(Undefined)
  }

  /** A value whose `__computed` property is truthy: only objects have one. */
  predicate Computed(heap: map<nat, Props>, v: Value) {
    v.Ref? && "__computed" in PropsOf(heap, v.addr) && Truthy(PropsOf(heap, v.addr)["__computed"])
  }

  /** `(f, self)` is the outcome of `f.apply(self)`. */
  type Call = (nat, Value) -> Result<Value>

  /** What the walk continues with after reading the truthy property `p` of
      `result`: `p` itself, or the result of calling it on `result` when computed. */
  function Next(heap: map<nat, Props>, call: Call, result: Value, p: Value): Result<Value> {
    if Computed(heap, p) then call(p.addr, result) else Ok(p)
  }

  /** The lookup argument: a dot-notated string, an array of segments, or none. */
  datatype Lookup = Absent | Dotted(path: string) | Segments(segs: seq<string>)

  /** A lookup that is falsy: absent or the empty string. */
  predicate Falsy(l: Lookup) {
    l.Absent? || l == Dotted("")
  }

  /** The segments a truthy lookup names: a string is split on '.'. */
  function Segs(l: Lookup): seq<string>
    requires !Falsy(l)
  {
    match l
    case Dotted(path) => Split(path)
    case Segments(segs) => segs
  }

  /** Where the walk over the segments ends: a value; a falsy property, which makes
      the lookup undefined; the object and key to assign; or an exception. */
  datatype Reach = Found(v: Value) | Missing | Assign(target: Value, key: string) | Threw(e: Error)

  /** The loop of `traverse` from `result` over `segs`. When `setting`, it stops one
      segment early, at the last one. */
  function Walk(heap: map<nat, Props>, call: Call, result: Value, segs: seq<string>, setting: bool): Reach
    decreases |segs|
  {
    if segs == [] then Found(result)
    else if setting && |segs| == 1 then Assign(result, segs[0])
    else match Prop(heap, result, segs[0])
      case Err(e) => Threw(e)
      case Ok(p) =>
        if !Truthy(p) then Missing
        else match Next(heap, call, result, p)
          case Err(e) => Threw(e)
          case Ok(next) => Walk(heap, call, next, segs[1..], setting)
  }

  /** The heap after `target[key] = value`. */
  function Write(heap: map<nat, Props>, a: nat, key: string, value: Value): map<nat, Props> {
    heap[a := PropsOf(heap, a)[key := value]]
  }

  /** `traverse(context, lookup, value)`: its result and the heap after it. */
  function TraverseResult(heap: map<nat, Props>, call: Call, context: Value, lookup: Lookup, value: Value)
    : (Result<Value>, map<nat, Props>)
  {
    if Falsy(lookup) then (Ok(context), heap)
    else match Walk(heap, call, context, Segs(lookup), Truthy(value))
      case Found(v) => (Ok(v), heap)
      case Missing => (Ok(Undefined), heap)
      case Threw(e) => (Err(e), heap)
      case Assign(target, key) =>
        if target.Ref? then (Ok(value), Write(heap, target.addr, key, value)) else (Err(TypeError), heap)
  }

  /** The (object, key) pairs a reading walk looks at: each property read and the
      `__computed` flag of each truthy object it steps through. */
  function Reads(heap: map<nat, Props>, call: Call, result: Value, segs: seq<string>): set<(nat, string)>
    decreases |segs|
  {
    if segs == [] then {}
    else
      var here := if result.Ref? then {(result.addr, segs[0])} else {};
      match Prop(heap, result, segs[0])
      case Err(_) => here
      case Ok(p) =>
        if !Truthy(p) then here
        else
          var flag := if p.Ref? then {(p.addr, "__computed")} else {};
          match Next(heap, call, result, p)
          case Err(_) => here + flag
          case Ok(next) => here + flag + Reads(heap, call, next, segs[1..])
  }

  /** Two heaps hold the same own property under every pair of `keys`. */
  predicate Agree(heap: map<nat, Props>, heap': map<nat, Props>, keys: set<(nat, string)>) {
    forall k :: k in keys ==>
      (k.1 in PropsOf(heap, k.0) <==> k.1 in PropsOf(heap', k.0)) &&
      (k.1 in PropsOf(heap, k.0) ==> PropsOf(heap, k.0)[k.1] == PropsOf(heap', k.0)[k.1])
  }

  /** A reading walk depends only on the properties it reads. */
  lemma {:induction false} WalkFrame(heap: map<nat, Props>, heap': map<nat, Props>, call: Call, result: Value, segs: seq<string>)
    requires Agree(heap, heap', Reads(heap, call, result, segs))
    ensures Walk(heap', call, result, segs, false) == Walk(heap, call, result, segs, false)
    decreases |segs|
  {
    if segs != [] {
      var keys := Reads(heap, call, result, segs);
      if result.Ref? {
        assert (result.addr, segs[0]) in keys;
      }
      assert Prop(heap', result, segs[0]) == Prop(heap, result, segs[0]);
      if Prop(heap, result, segs[0]).Ok? {
        var p := Prop(heap, result, segs[0]).value;
        if Truthy(p) {
          if p.Ref? {
            assert (p.addr, "__computed") in keys;
          }
          assert Computed(heap', p) == Computed(heap, p);
          assert Next(heap', call, result, p) == Next(heap, call, result, p);
          if Next(heap, call, result, p).Ok? {
            var next := Next(heap, call, result, p).value;
            assert Reads(heap, call, next, segs[1..]) <= keys;
            WalkFrame(heap, heap', call, next, segs[1..]);
          }
        }
      }
    }
  }

  /** A reading walk over `a + b` is the walk over `a` followed by the walk over `b`. */
  lemma {:induction false} WalkAppend(heap: map<nat, Props>, call: Call, result: Value, a: seq<string>, b: seq<string>)
    ensures Walk(heap, call, result, a + b, false) ==
      match Walk(heap, call, result, a, false)
      case Found(v) => Walk(heap, call, v, b, false)
      case other => other
    decreases |a|
  {
    if a != [] {
      assert (a + b)[0] == a[0] && (a + b)[1..] == a[1..] + b;
      if Prop(heap, result, a[0]).Ok? {
        var p := Prop(heap, result, a[0]).value;
        if Truthy(p) && Next(heap, call, result, p).Ok? {
          WalkAppend(heap, call, Next(heap, call, result, p).value, a[1..], b);
        }
      }
    } else {
      assert a + b == b;
    }
  }

  /** A setting walk reads its way to the last segment's object like a reading walk
      over the segments before it. */
  lemma {:induction false} SetWalk(heap: map<nat, Props>, call: Call, result: Value, segs: seq<string>)
    requires |segs| >= 1
    ensures Walk(heap, call, result, segs, true) ==
      match Walk(heap, call, result, segs[..|segs| - 1], false)
      case Found(v) => Assign(v, segs[|segs| - 1])
      case other => other
    decreases |segs|
  {
    if |segs| > 1 {
      assert segs[..|segs| - 1][0] == segs[0];
      assert segs[..|segs| - 1][1..] == segs[1..][..|segs| - 2];
      if Prop(heap, result, segs[0]).Ok? {
        var p := Prop(heap, result, segs[0]).value;
        if Truthy(p) && Next(heap, call, result, p).Ok? {
          SetWalk(heap, call, Next(heap, call, result, p).value, segs[1..]);
        }
      }
    }
  }

  /** After `set(lookup, value)` has assigned `value` (truthy, and not itself a
      computed function), `get(lookup)` from the same context yields it, provided
      the walk to the assigned object does not read the property assigned. */
  lemma SetThenGet(heap: map<nat, Props>, call: Call, context: Value, segs: seq<string>, value: Value)
    requires |segs| >= 1 && Truthy(value)
    requires var w := Walk(heap, call, context, segs[..|segs| - 1], false);
      w.Found? && w.v.Ref? && (w.v.addr, segs[|segs| - 1]) !in Reads(heap, call, context, segs[..|segs| - 1])
    requires !Computed(TraverseResult(heap, call, context, Segments(segs), value).1, value)
    ensures var (r, heap') := TraverseResult(heap, call, context, Segments(segs), value);
      r == Ok(value) && TraverseResult(heap', call, context, Segments(segs), Undefined) == (Ok(value), heap')
  {
    var pre, key := segs[..|segs| - 1], segs[|segs| - 1];
    var target := Walk(heap, call, context, pre, false).v;
    SetWalk(heap, call, context, segs);
    var heap' := Write(heap, target.addr, key, value);
    assert TraverseResult(heap, call, context, Segments(segs), value) == (Ok(value), heap');
    WalkFrame(heap, heap', call, context, pre);
    assert segs == pre + [key];
    WalkAppend(heap', call, context, pre, [key]);
    assert Walk(heap', call, target, [key], false) == Found(value) by {
      assert Prop(heap', target, key) == Ok(value);
      assert [key][1..] == [];
    }
  }

  /** A reading walk never ends at an assignment. */
  lemma {:induction false} ReadNeverAssigns(heap: map<nat, Props>, call: Call, result: Value, segs: seq<string>)
    ensures !Walk(heap, call, result, segs, false).Assign?
    decreases |segs|
  {
    if segs != [] && Prop(heap, result, segs[0]).Ok? {
      var p := Prop(heap, result, segs[0]).value;
      if Truthy(p) && Next(heap, call, result, p).Ok? {
        ReadNeverAssigns(heap, call, Next(heap, call, result, p).value, segs[1..]);
      }
    }
  }

  /** A set with a falsy value writes nothing and yields what a get yields. */
  lemma SetFalsyIsGet(heap: map<nat, Props>, call: Call, context: Value, lookup: Lookup, value: Value)
    requires !Truthy(value)
    ensures TraverseResult(heap, call, context, lookup, value) == TraverseResult(heap, call, context, lookup, Undefined)
    ensures TraverseResult(heap, call, context, lookup, value).1 == heap
  {
    if !Falsy(lookup) {
      ReadNeverAssigns(heap, call, context, Segs(lookup));
    }
  }

  /** A reading walk yields undefined as soon as a segment names a falsy property,
      having read the segments before it. */
  lemma ReadStopsAtFalsy(heap: map<nat, Props>, call: Call, context: Value, segs: seq<string>, k: nat)
    requires k < |segs|
    requires var w := Walk(heap, call, context, segs[..k], false);
      w.Found? && Prop(heap, w.v, segs[k]).Ok? && !Truthy(Prop(heap, w.v, segs[k]).value)
    ensures TraverseResult(heap, call, context, Segments(segs), Undefined) == (Ok(Undefined), heap)
  {
    assert segs == segs[..k] + segs[k..];
    WalkAppend(heap, call, context, segs[..k], segs[k..]);
  }

  class Store {
    /** Every object, by address. */
    var heap: map<nat, Props>

    constructor (objects: map<nat, Props>)
      ensures heap == objects
    {
      heap := objects;
    }

    /** `traverse(context, lookup, value)`: walk the segments, then assign, read
        or report where the walk ended. */
    method Traverse(context: Value, lookup: Lookup, value: Value, call: Call) returns (r: Result<Value>)
      modifies this`heap
      ensures (r, heap) == TraverseResult(old(heap), call, context, lookup, value)
    {
      if Falsy(lookup) {
        return Ok(context);
      }
      var segs := if lookup.Dotted? then Split(lookup.path) else lookup.segs;
      assert segs == Segs(lookup);
      var reach := WalkSegments(context, segs, Truthy(value), call);
      match reach
      case Found(v) => r := Ok(v);
      case Missing => r := Ok(Undefined);
      case Threw(e) => r := Err(e);
      case Assign(target, key) =>
        if !target.Ref? {
          return Err(TypeError);
        }
        heap := Write(heap, target.addr, key, value);
        r := Ok(value);
    }

    /** The loop of `traverse` over the segments: step from object to property,
        calling computed properties, until the segments run out, a property is
        falsy, a read throws, or (when setting) the last segment is reached. */
    method WalkSegments(context: Value, segs: seq<string>, setting: bool, call: Call) returns (reach: Reach)
      ensures reach == Walk(heap, call, context, segs, setting)
    {
      ghost var w := Walk(heap, call, context, segs, setting);
      var result := context;
      var i := 0;
      while i < |segs|
        invariant 0 <= i <= |segs|
        invariant w == Walk(heap, call, result, segs[i..], setting)
      {
        if setting && i + 1 == |segs| {
          return Assign(result, segs[i]);
        }
        var p := Prop(heap, result, segs[i]);
        if p.Err? {
          return Threw(p.error);
        }
        if !Truthy(p.value) {
          return Missing;
        }
        var next := Next(heap, call, result, p.value);
        if next.Err? {
          return Threw(next.error);
        }
        assert segs[i..][1..] == segs[i + 1..];
        result := next.value;
        i := i + 1;
      }
      return Found(result);
    }

    /** `get(lookup)`: traverse from the object itself, with no value. */
    method Get(self: nat, lookup: Lookup, call: Call) returns (r: Result<Value>)
      modifies this`heap
      ensures heap == old(heap)
      ensures r == TraverseResult(old(heap), call, Ref(self), lookup, Undefined).0
    {
      r := Traverse(Ref(self), lookup, Undefined, call);
      SetFalsyIsGet(old(heap), call, Ref(self), lookup, Undefined);
    }

    /** `set(lookup, value)`: traverse from the object itself, with the value. */
    method Set(self: nat, lookup: Lookup, value: Value, call: Call) returns (r: Result<Value>)
      modifies this`heap
      ensures (r, heap) == TraverseResult(old(heap), call, Ref(self), lookup, value)
    {
      r := Traverse(Ref(self), lookup, value, call);
    }

    /** `computed(method)`: flag the function as computed and return it; flagging
        a primitive or nothing is a TypeError. */
    method MarkComputed(f: Value) returns (r: Result<Value>)
      modifies this`heap
      ensures f.Ref? ==> r == Ok(f) && heap == Write(old(heap), f.addr, "__computed", Bool(true))
      ensures !f.Ref? ==> r == Err(TypeError) && heap == old(heap)
    {
      if !f.Ref? {
        return Err(TypeError);
      }
      heap := Write(heap, f.addr, "__computed", Bool(true));
      return Ok(f);
    }
  }

  /** Once flagged, a function is called whenever a walk steps onto it. */
  lemma MarkedIsComputed(heap: map<nat, Props>, call: Call, result: Value, f: nat)
    ensures Computed(Write(heap, f, "__computed", Bool(true)), Ref(f))
    ensures Next(Write(heap, f, "__computed", Bool(true)), call, result, Ref(f)) == call(f, result)
  {
  }
}

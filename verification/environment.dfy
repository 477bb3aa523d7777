/**
 * `Environment` (src/environment.ts): a store of bindings and an optional
 * enclosing environment. Environments are shared by reference (a function
 * value keeps the one it was created in, and later `let`s in it are
 * visible to the function), so every environment allocated so far lives
 * in a heap and is referred to by its index; `set` updates one entry of
 * the heap in place.
 */
module Environments {
  import opened Wrappers

  /**
   * One environment: its own bindings and the environment it extends. A
   * binding can hold `undefined`, which a function call stores for a
   * parameter it was given no argument for.
   */
  datatype Scope<V> = Scope(store: map<string, Option<V>>, outer: Option<nat>)

  /** Every environment allocated so far; each one extends an earlier one. */
  type Heap<V> = seq<Scope<V>>

  ghost predicate ValidHeap<V>(h: Heap<V>) {
    forall i :: 0 <= i < |h| && h[i].outer.Some? ==> h[i].outer.value < i
  }

  /** `new Environment(outer)`: an empty store at a new reference. */
  function Alloc<V>(h: Heap<V>, outer: Option<nat>): (r: (Heap<V>, nat))
    requires ValidHeap(h) && (outer.Some? ==> outer.value < |h|)
    ensures ValidHeap(r.0) && r.1 == |h| && |r.0| == |h| + 1
    ensures r.0[..|h|] == h && r.0[r.1] == Scope(map[], outer)
  {
    (h + [Scope(map[], outer)], |h|)
  }

  /** j is e or an environment e extends, directly or not. */
  ghost predicate Encloses<V>(h: Heap<V>, j: nat, e: nat)
    requires ValidHeap(h) && e < |h|
    decreases e
  {
    j == e || (h[e].outer.Some? && Encloses(h, j, h[e].outer.value))
  }

  lemma {:induction false} EnclosesBelow<V>(h: Heap<V>, j: nat, e: nat)
    requires ValidHeap(h) && e < |h| && Encloses(h, j, e)
    ensures j <= e
    decreases e
  {
    if j != e {
      EnclosesBelow(h, j, h[e].outer.value);
    }
  }

  /** No environment strictly between j and e along e's chain holds a value for name. */
  ghost predicate NoValueBetween<V>(h: Heap<V>, j: nat, e: nat, name: string)
    requires ValidHeap(h) && e < |h|
  {
    forall k: nat :: j < k <= e && Encloses(h, k, e) && name in h[k].store ==> h[k].store[name].None?
  }

  /** `get`: the own binding unless it is missing or `undefined`, else the enclosing environment's answer. */
  function Get<V>(h: Heap<V>, e: nat, name: string): (r: Option<V>)
    requires ValidHeap(h) && e < |h|
    ensures name in h[e].store && h[e].store[name].Some? ==> r == h[e].store[name]
    ensures h[e].outer.None? ==> r == if name in h[e].store then h[e].store[name] else None
    decreases e
  {
    var result := if name in h[e].store then h[e].store[name] else None;
    if result.None? && h[e].outer.Some? then Get(h, h[e].outer.value, name) else result
  }

  /**
   * `get` answers with the binding of the nearest environment along the
   * chain that holds a value (every environment between it and e holds
   * none), and with `undefined` exactly when no environment along the
   * chain holds one.
   */
  lemma {:induction false} GetSearchesChain<V>(h: Heap<V>, e: nat, name: string)
    requires ValidHeap(h) && e < |h|
    ensures Get(h, e, name).Some? ==>
      exists j: nat :: j <= e && Encloses(h, j, e) && name in h[j].store && h[j].store[name] == Get(h, e, name)
        && NoValueBetween(h, j, e, name)
    ensures Get(h, e, name).None? ==>
      forall j: nat :: j <= e && Encloses(h, j, e) && name in h[j].store ==> h[j].store[name].None?
    decreases e
  {
    var own := if name in h[e].store then h[e].store[name] else None;
    if own.None? && h[e].outer.Some? {
      var o := h[e].outer.value;
      GetSearchesChain(h, o, name);
      if Get(h, e, name).Some? {
        var j: nat :| j <= o && Encloses(h, j, o) && name in h[j].store && h[j].store[name] == Get(h, o, name)
          && NoValueBetween(h, j, o, name);
        assert Encloses(h, j, e);
        forall k: nat | j < k <= e && Encloses(h, k, e) && name in h[k].store
          ensures h[k].store[name].None?
        {
          if k != e {
            assert Encloses(h, k, o);
            EnclosesBelow(h, k, o);
          }
        }
      } else {
        forall j: nat | j <= e && Encloses(h, j, e) && name in h[j].store
          ensures h[j].store[name].None?
        {
          if j != e {
            assert Encloses(h, j, o);
            EnclosesBelow(h, j, o);
          }
        }
      }
    } else if own.Some? {
      assert Encloses(h, e, e);
      assert NoValueBetween(h, e, e, name);
    } else {
      forall j: nat | j <= e && Encloses(h, j, e) && name in h[j].store
        ensures h[j].store[name].None?
      {
      }
    }
  }

  /** `set`: replaces one binding of environment e and returns the value stored. */
  function Set<V>(h: Heap<V>, e: nat, name: string, val: Option<V>): (r: (Heap<V>, Option<V>))
    requires ValidHeap(h) && e < |h|
    ensures ValidHeap(r.0) && |r.0| == |h| && r.1 == val
    ensures r.0[e] == Scope(h[e].store[name := val], h[e].outer)
    ensures forall i :: 0 <= i < |h| && i != e ==> r.0[i] == h[i]
  {
    (h[e := Scope(h[e].store[name := val], h[e].outer)], val)
  }

  /** After `set(name, v)`, `get(name)` in the same environment is v, whatever the enclosing ones bind. */
  lemma SetThenGet<V>(h: Heap<V>, e: nat, name: string, v: V)
    requires ValidHeap(h) && e < |h|
    ensures Get(Set(h, e, name, Some(v)).0, e, name) == Some(v)
  {
  }

  /** Without a value of its own, an environment answers with the one it extends. */
  lemma GetFallsBack<V>(h: Heap<V>, e: nat, name: string)
    requires ValidHeap(h) && e < |h| && h[e].outer.Some?
    requires name !in h[e].store || h[e].store[name].None?
    ensures Get(h, e, name) == Get(h, h[e].outer.value, name)
  {
  }

  /**
   * `set` is invisible from every environment that does not extend the one
   * it changed: in particular the enclosing environments still see their
   * own bindings, so an inner binding shadows an outer one without
   * changing it.
   */
  lemma {:induction false} SetInvisibleOutside<V>(h: Heap<V>, e: nat, name: string, val: Option<V>, other: nat, n: string)
    requires ValidHeap(h) && e < |h| && other < |h| && !Encloses(h, e, other)
    ensures Get(Set(h, e, name, val).0, other, n) == Get(h, other, n)
    decreases other
  {
    var h' := Set(h, e, name, val).0;
    assert h'[other] == h[other];
    if h[other].outer.Some? {
      SetInvisibleOutside(h, e, name, val, h[other].outer.value, n);
    }
  }

  /** The environments an environment extends are allocated before it, so a `set` never reaches them. */
  lemma SetLeavesOuterUnchanged<V>(h: Heap<V>, e: nat, name: string, val: Option<V>, n: string)
    requires ValidHeap(h) && e < |h| && h[e].outer.Some?
    ensures Get(Set(h, e, name, val).0, h[e].outer.value, n) == Get(h, h[e].outer.value, n)
  {
    if Encloses(h, e, h[e].outer.value) {
      EnclosesBelow(h, e, h[e].outer.value);
    }
    SetInvisibleOutside(h, e, name, val, h[e].outer.value, n);
  }

  /**
   * `get` reads only the environment it starts from and the ones it
   * extends, which are allocated before it: a heap that only adds
   * environments after them gives the same answers.
   */
  lemma {:induction false} ExtensionKeepsGet<V>(h: Heap<V>, h': Heap<V>, e: nat, n: string)
    requires ValidHeap(h) && ValidHeap(h') && e < |h| <= |h'| && h'[..|h|] == h
    ensures Get(h', e, n) == Get(h, e, n)
    decreases e
  {
    assert h'[e] == h[e];
    if h[e].outer.Some? {
      ExtensionKeepsGet(h, h', h[e].outer.value, n);
    }
  }
}

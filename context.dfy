/** Go's context.Context, reduced to what the transaction manager relies on:
    an immutable chain of key/value bindings. Deriving a child context adds one
    binding in front; looking a key up walks the chain from the innermost
    binding outwards and stops at the first binding whose key is equal.

    A Go context key is an interface value, and two interface values are equal
    only when both their dynamic types and their values are equal. A key is
    therefore modelled as the pair of its type name and its text, so that a
    plain `string` and a named string type with the same text are different keys.
    The value type is a parameter; the transaction manager instantiates it. */
module Context {

  datatype Option<T> = None | Some(value: T)

  /** A comparable context key: its dynamic Go type and its (string) value. */
  datatype Key = Key(typeName: string, text: string)

  /** `context.Background()` and `context.WithValue(parent, key, val)`. */
  datatype Context<V> = Background | WithValue(parent: Context<V>, key: Key, val: V)

  /** `ctx.Value(key)`: the value of the innermost binding of `key`, or None
      (Go's nil) when the chain has no such binding. */
  function Value<V>(ctx: Context<V>, key: Key): (r: Option<V>)
  {
    match ctx
    case Background => None
    case WithValue(parent, k, v) => if k == key then Some(v) else Value(parent, key)
  }

  /** Reference view of a context: its bindings, innermost first. */
  function Bindings<V>(ctx: Context<V>): (bs: seq<(Key, V)>)
    ensures ctx.Background? <==> bs == []
  {
    match ctx
    case Background => []
    case WithValue(parent, k, v) => [(k, v)] + Bindings(parent)
  }

  /** Position `i` of `bs` binds `key`, and no binding before it does. */
  ghost predicate IsInnermost<V>(bs: seq<(Key, V)>, key: Key, i: int)
  {
    0 <= i < |bs| && bs[i].0 == key && forall j :: 0 <= j < i ==> bs[j].0 != key
  }

  /** Some binding of `key` in `bs` is innermost and binds `v`. */
  ghost predicate BindsInnermost<V>(bs: seq<(Key, V)>, key: Key, v: V)
  {
    exists i :: IsInnermost(bs, key, i) && bs[i].1 == v
  }

  /** Lookup returns exactly the value of the innermost binding of the key in
      the binding list, and reports absence exactly when no binding has the key. */
  lemma {:induction false} ValueIsInnermost<V>(ctx: Context<V>, key: Key, v: V)
    ensures Value(ctx, key) == Some(v) <==> BindsInnermost(Bindings(ctx), key, v)
    ensures Value(ctx, key) == None <==>
            forall i :: 0 <= i < |Bindings(ctx)| ==> Bindings(ctx)[i].0 != key
  {
    match ctx
    case Background =>
    case WithValue(parent, k, w) =>
      if k == key {
        InnermostAtHead(parent, key, w, v);
      } else {
        ValueIsInnermost(parent, key, v);
        InnermostBelowHead(parent, k, w, key, v);
      }
  }

  lemma InnermostAtHead<V>(parent: Context<V>, key: Key, w: V, v: V)
    ensures var bs := Bindings(WithValue(parent, key, w));
            (w == v <==> BindsInnermost(bs, key, v)) &&
            !(forall i :: 0 <= i < |bs| ==> bs[i].0 != key)
  {
    var bs := Bindings(WithValue(parent, key, w));
    assert bs[0] == (key, w) && IsInnermost(bs, key, 0);
    forall i | IsInnermost(bs, key, i) ensures i == 0 {}
    if w == v {
      assert IsInnermost(bs, key, 0) && bs[0].1 == v;
    } else {
      forall i | IsInnermost(bs, key, i) ensures bs[i].1 != v {}
    }
  }

  lemma InnermostBelowHead<V>(parent: Context<V>, k: Key, w: V, key: Key, v: V)
    requires k != key
    ensures BindsInnermost(Bindings(WithValue(parent, k, w)), key, v) <==>
            BindsInnermost(Bindings(parent), key, v)
    ensures (forall i :: 0 <= i < |Bindings(WithValue(parent, k, w))| ==> Bindings(WithValue(parent, k, w))[i].0 != key) <==>
            (forall i :: 0 <= i < |Bindings(parent)| ==> Bindings(parent)[i].0 != key)
  {
    var bs, ps := Bindings(WithValue(parent, k, w)), Bindings(parent);
    assert bs == [(k, w)] + ps;
    forall i | 0 <= i < |ps| ensures ps[i] == bs[i + 1] {}
    forall i | 0 < i < |bs| ensures bs[i] == ps[i - 1] {}
    forall i | IsInnermost(ps, key, i) ensures IsInnermost(bs, key, i + 1) {}
    forall i | IsInnermost(bs, key, i) ensures i > 0 && IsInnermost(ps, key, i - 1) {
      forall j | 0 <= j < i - 1 ensures ps[j].0 != key {
        assert bs[j + 1] == ps[j];
      }
    }
    if BindsInnermost(ps, key, v) {
      var i :| IsInnermost(ps, key, i) && ps[i].1 == v;
      assert IsInnermost(bs, key, i + 1) && bs[i + 1].1 == v;
    }
    if BindsInnermost(bs, key, v) {
      var i :| IsInnermost(bs, key, i) && bs[i].1 == v;
      assert IsInnermost(ps, key, i - 1) && ps[i - 1].1 == v;
    }
  }

  /** Deriving a context binds the key: lookup of that key sees the new value. */
  lemma LookupBound<V>(ctx: Context<V>, key: Key, v: V)
    ensures Value(WithValue(ctx, key, v), key) == Some(v)
  {}

  /** Deriving a context under one key leaves the lookup of every other key as it was. */
  lemma LookupOther<V>(ctx: Context<V>, key: Key, v: V, other: Key)
    requires other != key
    ensures Value(WithValue(ctx, key, v), other) == Value(ctx, other)
  {}
}

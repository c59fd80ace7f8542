/** The complexity check of a migration archive (`_bounds` in tools/kvnlib/core/migration.py): a
    walk with an explicit stack and a node counter, and the recursive definition it decides. */
module MigrationBounds {
  import opened Json

  const MAX_USERS: nat := 2048
  const MAX_DEPTH: nat := 12
  const MAX_NODES: nat := 100_000
  const MAX_STRING: nat := 4096
  const MAX_KEY: nat := 128
  const MAX_INT: int := 0x7FFF_FFFF_FFFF_FFFF

  // ---- the definition --------------------------------------------------------------------

  /** How many values there are in `v`, itself included. */
  ghost function Nodes(v: Json): (n: nat)
    ensures 1 <= n
    decreases v, 1
  {
    match v
    case Arr(items) => 1 + NodesOfAll(items)
    case Obj(fields) => 1 + NodesOfFields(v, fields.Keys)
    case _ => 1
  }

  ghost function NodesOfAll(items: seq<Json>): nat
    decreases items, 0
  {
    if items == [] then 0 else NodesOfAll(items[..|items| - 1]) + Nodes(items[|items| - 1])
  }

  ghost function NodesOfFields(v: Json, keys: set<string>): nat
    requires v.Obj? && keys <= v.fields.Keys
    decreases v, 0, keys
  {
    if keys == {} then 0
    else
      var k :| k in keys;
      Nodes(v.fields[k]) + NodesOfFields(v, keys - {k})
  }

  /** A value that may stand at `depth`, judged without its children. */
  predicate LegalNode(v: Json, depth: nat) {
    && depth <= MAX_DEPTH
    && match v
       case Null => true
       case Bool(_) => true
       case Int(n) => -MAX_INT <= n <= MAX_INT
       case Float(_) => false
       case Str(s) => |s| <= MAX_STRING && '\0' !in s
       case Arr(items) => |items| <= MAX_USERS
       case Obj(fields) => |fields| <= MAX_USERS && forall k :: k in fields ==> |k| <= MAX_KEY
  }

  ghost predicate Legal(v: Json, depth: nat)
    decreases v
  {
    && LegalNode(v, depth)
    && match v
       case Arr(items) => forall x :: x in items ==> Legal(x, depth + 1)
       case Obj(fields) => forall k :: k in fields ==> Legal(fields[k], depth + 1)
       case _ => true
  }

  ghost predicate Bounded(v: Json) {
    Legal(v, 0) && Nodes(v) <= MAX_NODES
  }

  // ---- what that means for everything inside ---------------------------------------------

  ghost predicate Child(v: Json, c: Json) {
    (v.Arr? && c in v.items) || (v.Obj? && exists k :: k in v.fields && v.fields[k] == c)
  }

  /** `w` is found in `v` after going down `d` times. */
  ghost predicate Inside(v: Json, w: Json, d: nat) {
    if d == 0 then w == v else exists c :: Child(v, c) && Inside(c, w, d - 1)
  }

  lemma {:induction false} LegalInside(v: Json, depth: nat, w: Json, d: nat)
    requires Legal(v, depth) && Inside(v, w, d)
    ensures LegalNode(w, depth + d)
    decreases d
  {
    if d > 0 {
      var c :| Child(v, c) && Inside(c, w, d - 1);
      LegalInside(c, depth + 1, w, d - 1);
    }
  }

  /** A value that is not legal has an illegal one inside. */
  lemma {:induction false} IllegalInside(v: Json, depth: nat) returns (w: Json, d: nat)
    requires !Legal(v, depth)
    ensures Inside(v, w, d) && !LegalNode(w, depth + d)
    decreases v
  {
    if !LegalNode(v, depth) {
      w, d := v, 0;
    } else if v.Arr? {
      var c :| c in v.items && !Legal(c, depth + 1);
      w, d := IllegalInside(c, depth + 1);
      assert Child(v, c) && Inside(c, w, d);
      d := d + 1;
    } else {
      var k :| k in v.fields && !Legal(v.fields[k], depth + 1);
      w, d := IllegalInside(v.fields[k], depth + 1);
      assert Child(v, v.fields[k]) && Inside(v.fields[k], w, d);
      d := d + 1;
    }
  }

  lemma NodeIsLegal(w: Json, d: nat)
    ensures LegalNode(w, d) <==>
              && d <= 12 && !w.Float?
              && (w.Str? ==> |w.s| <= 4096 && '\0' !in w.s)
              && (w.Int? ==> -0x7FFF_FFFF_FFFF_FFFF <= w.n <= 0x7FFF_FFFF_FFFF_FFFF)
              && (w.Arr? ==> |w.items| <= 2048)
              && (w.Obj? ==> |w.fields| <= 2048 && forall k :: k in w.fields ==> |k| <= 128)
  {
  }

  /** What `_bounds` lets through: at most 100 000 values, none deeper than 12, none with a fraction, no
      string over 4096 characters or with a NUL, no number beyond 63 bits, no list or object of more
      than 2048 entries, no field name over 128 characters. */
  lemma BoundedExactly(v: Json)
    ensures Bounded(v) <==>
              && Nodes(v) <= 100_000
              && forall w, d: nat :: Inside(v, w, d) ==>
                   && d <= 12 && !w.Float?
                   && (w.Str? ==> |w.s| <= 4096 && '\0' !in w.s)
                   && (w.Int? ==> -0x7FFF_FFFF_FFFF_FFFF <= w.n <= 0x7FFF_FFFF_FFFF_FFFF)
                   && (w.Arr? ==> |w.items| <= 2048)
                   && (w.Obj? ==> |w.fields| <= 2048 && forall k :: k in w.fields ==> |k| <= 128)
  {
    if Legal(v, 0) {
      forall w, d: nat | Inside(v, w, d)
        ensures LegalNode(w, d)
      {
        LegalInside(v, 0, w, d);
        NodeIsLegal(w, d);
      }
    } else {
      var w, d := IllegalInside(v, 0);
      assert Inside(v, w, d) && !LegalNode(w, d);
      NodeIsLegal(w, d);
    }
  }

  // ---- counting does not depend on the order ---------------------------------------------

  lemma {:induction false} FieldsAnyOrder(v: Json, keys: set<string>, k: string)
    requires v.Obj? && keys <= v.fields.Keys && k in keys
    ensures NodesOfFields(v, keys) == Nodes(v.fields[k]) + NodesOfFields(v, keys - {k})
    decreases keys
  {
    var j :| j in keys && NodesOfFields(v, keys) == Nodes(v.fields[j]) + NodesOfFields(v, keys - {j});
    if j != k {
      FieldsAnyOrder(v, keys - {j}, k);
      FieldsAnyOrder(v, keys - {k}, j);
      assert keys - {j} - {k} == keys - {k} - {j};
    }
  }

  lemma {:induction false} NodesConcat(a: seq<Json>, b: seq<Json>)
    ensures NodesOfAll(a + b) == NodesOfAll(a) + NodesOfAll(b)
  {
    if b == [] {
      assert a + b == a;
    } else {
      NodesConcat(a, b[..|b| - 1]);
      assert (a + b)[..|a + b| - 1] == a + b[..|b| - 1];
    }
  }

  /** Objects that agree on `keys` have the same number of nodes there. */
  lemma {:induction false} FieldsAgree(v: Json, w: Json, keys: set<string>)
    requires v.Obj? && w.Obj? && keys <= v.fields.Keys && keys <= w.fields.Keys
    requires forall k :: k in keys ==> v.fields[k] == w.fields[k]
    ensures NodesOfFields(v, keys) == NodesOfFields(w, keys)
    decreases keys
  {
    if keys != {} {
      var k :| k in keys;
      FieldsAnyOrder(v, keys, k);
      FieldsAnyOrder(w, keys, k);
      FieldsAgree(v, w, keys - {k});
    }
  }

  // ---- the walk --------------------------------------------------------------------------

  datatype Item = Item(v: Json, depth: nat)

  ghost function NodesOfStack(stack: seq<Item>): nat {
    if stack == [] then 0 else NodesOfStack(stack[..|stack| - 1]) + Nodes(stack[|stack| - 1].v)
  }

  ghost predicate LegalStack(stack: seq<Item>) {
    forall i :: i in stack ==> Legal(i.v, i.depth)
  }

  lemma StackPush(stack: seq<Item>, i: Item)
    ensures NodesOfStack(stack + [i]) == NodesOfStack(stack) + Nodes(i.v)
    ensures LegalStack(stack + [i]) <==> LegalStack(stack) && Legal(i.v, i.depth)
  {
    assert (stack + [i])[..|stack|] == stack;
    if LegalStack(stack + [i]) {
      assert i in stack + [i];
      forall j | j in stack
        ensures Legal(j.v, j.depth)
      {
        assert j in stack + [i];
      }
    }
  }

  /** Pushes the fields of an object, in whatever order the object has them. */
  method PushFields(v: Json, depth: nat, below: seq<Item>) returns (stack: seq<Item>, ok: bool)
    requires v.Obj?
    ensures ok == forall k :: k in v.fields ==> |k| <= MAX_KEY
    ensures ok ==> NodesOfStack(stack) == NodesOfStack(below) + NodesOfFields(v, v.fields.Keys)
    ensures ok ==> (LegalStack(stack) <==> LegalStack(below) && forall k :: k in v.fields ==> Legal(v.fields[k], depth))
  {
    stack := below;
    var rest := v.fields.Keys;
    while rest != {}
      invariant rest <= v.fields.Keys
      invariant forall k :: k in v.fields && k !in rest ==> |k| <= MAX_KEY
      invariant NodesOfStack(stack) + NodesOfFields(v, rest) == NodesOfStack(below) + NodesOfFields(v, v.fields.Keys)
      invariant LegalStack(stack) <==>
                LegalStack(below) && forall k :: k in v.fields && k !in rest ==> Legal(v.fields[k], depth)
      decreases rest
    {
      var key :| key in rest;
      if |key| > MAX_KEY {
        return stack, false;
      }
      FieldsAnyOrder(v, rest, key);
      StackPush(stack, Item(v.fields[key], depth));
      stack := stack + [Item(v.fields[key], depth)];
      rest := rest - {key};
    }
    ok := true;
  }

  method PushItems(items: seq<Json>, depth: nat, below: seq<Item>) returns (stack: seq<Item>)
    ensures NodesOfStack(stack) == NodesOfStack(below) + NodesOfAll(items)
    ensures LegalStack(stack) <==> LegalStack(below) && forall x :: x in items ==> Legal(x, depth)
  {
    stack := below;
    var i := 0;
    while i < |items|
      invariant 0 <= i <= |items|
      invariant NodesOfStack(stack) == NodesOfStack(below) + NodesOfAll(items[..i])
      invariant LegalStack(stack) <==> LegalStack(below) && forall x :: x in items[..i] ==> Legal(x, depth)
    {
      StackPush(stack, Item(items[i], depth));
      assert items[..i + 1][..i] == items[..i] && items[..i + 1] == items[..i] + [items[i]];
      stack := stack + [Item(items[i], depth)];
      i := i + 1;
    }
    assert items[..|items|] == items;
  }

  /** One turn of the walk: judges a value alone and pushes its children. */
  method Visit(item: Json, depth: nat, below: seq<Item>) returns (stack: seq<Item>, ok: bool)
    requires depth <= MAX_DEPTH
    ensures ok <==> LegalNode(item, depth)
    ensures ok ==> NodesOfStack(stack) + 1 == NodesOfStack(below) + Nodes(item)
    ensures ok ==> (LegalStack(stack) <==> LegalStack(below) && Legal(item, depth))
  {
    stack, ok := below, true;
    match item {
      case Obj(fields) =>
        if |fields| > MAX_USERS {
          return stack, false;
        }
        stack, ok := PushFields(item, depth + 1, stack);
      case Arr(items) =>
        if |items| > MAX_USERS {
          return stack, false;
        }
        stack := PushItems(items, depth + 1, stack);
      case Str(s) =>
        ok := |s| <= MAX_STRING && '\0' !in s;
      case Float(_) =>
        ok := false;
      case Int(n) =>
        ok := -MAX_INT <= n <= MAX_INT;
      case _ =>
    }
  }

  /** Accepts exactly the values the recursive definition accepts, and ends on all of them. */
  method CheckBounds(value: Json) returns (ok: bool)
    ensures ok <==> Bounded(value)
  {
    var stack := [Item(value, 0)];
    var count := 0;
    StackPush([], Item(value, 0));
    assert [] + [Item(value, 0)] == stack;
    while stack != []
      invariant count + NodesOfStack(stack) == Nodes(value)
      invariant Legal(value, 0) <==> LegalStack(stack)
      invariant count <= MAX_NODES
      decreases NodesOfStack(stack)
    {
      var top := stack[|stack| - 1];
      var rest := stack[..|stack| - 1];
      StackPush(rest, top);
      assert stack == rest + [top];
      count := count + 1;
      if count > MAX_NODES || top.depth > MAX_DEPTH {
        return false;
      }
      var legal;
      stack, legal := Visit(top.v, top.depth, rest);
      if !legal {
        return false;
      }
    }
    ok := true;
  }
}

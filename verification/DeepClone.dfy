// Deep copy of object graphs that may share objects and run in cycles, with a memo table from
// originals to copies.
module DeepClone {

  datatype Key = Name(name: string) | Symbol(id: nat)

  // Primitives, null and functions are copied as they are.
  datatype Value = Prim(code: int) | Ref(obj: JsObject)

  const UNDEFINED := Prim(0)

  // An array, or an object with some prototype.
  datatype Kind = Array | Plain(prototype: int)

  // `props` are the own enumerable properties, named and symbolic, besides array elements.
  class JsObject {
    var kind: Kind
    var elems: seq<Value>
    var props: map<Key, Value>

    constructor (kind: Kind, length: nat)
      ensures this.kind == kind && props == map[]
      ensures |elems| == length && forall i :: 0 <= i < length ==> elems[i] == UNDEFINED
    {
      this.kind := kind;
      this.elems := seq(length, _ => UNDEFINED);
      this.props := map[];
    }
  }

  class Memo {
    var refs: map<JsObject, JsObject>

    constructor ()
      ensures refs == map[]
    {
      refs := map[];
    }
  }

  ghost predicate Inside(v: Value, s: set<JsObject>) { v.Ref? ==> v.obj in s }

  // Every reference held by the object stays inside s.
  ghost predicate PointsInto(n: JsObject, s: set<JsObject>)
    reads n
  {
    (forall i :: 0 <= i < |n.elems| ==> Inside(n.elems[i], s))
    && (forall k :: k in n.props ==> Inside(n.props[k], s))
    && (n.kind.Plain? ==> n.elems == [])
  }

  ghost predicate Closed(s: set<JsObject>)
    reads s
  {
    forall n :: n in s ==> PointsInto(n, s)
  }

  // w is what v becomes under the memo.
  ghost predicate Image(v: Value, refs: map<JsObject, JsObject>, w: Value) {
    match v
    case Prim(_) => w == v
    case Ref(n) => n in refs && w == Ref(refs[n])
  }

  // d is a full copy of n: same kind, same keys, every edge mapped by the memo.
  ghost predicate Copied(n: JsObject, d: JsObject, refs: map<JsObject, JsObject>)
    reads n, d
  {
    d.kind == n.kind
    && |d.elems| == |n.elems| && (forall i :: 0 <= i < |n.elems| ==> Image(n.elems[i], refs, d.elems[i]))
    && d.props.Keys == n.props.Keys && (forall k :: k in n.props ==> Image(n.props[k], refs, d.props[k]))
  }

  ghost predicate Injective(refs: map<JsObject, JsObject>) {
    forall a, b :: a in refs && b in refs && refs[a] == refs[b] ==> a == b
  }

  ghost predicate Extends(before: map<JsObject, JsObject>, after: map<JsObject, JsObject>) {
    before.Keys <= after.Keys && forall n :: n in before ==> after[n] == before[n]
  }

  // The memo maps originals to distinct copies that are no originals, and every original is
  // fully copied except those still in progress.
  ghost predicate Sound(refs: map<JsObject, JsObject>, pending: set<JsObject>, within: set<JsObject>)
    reads within, refs.Values
  {
    Closed(within) && Injective(refs)
    && pending <= refs.Keys <= within && (forall n :: n in refs ==> refs[n] !in within)
    && (forall n :: n in refs && n !in pending ==> Copied(n, refs[n], refs))
  }

  lemma CopiedUnderExtension(n: JsObject, d: JsObject, before: map<JsObject, JsObject>, after: map<JsObject, JsObject>)
    requires Copied(n, d, before) && Extends(before, after)
    ensures Copied(n, d, after)
  {
  }

  // `within` is a finite set of originals closed under references, `pending` are the originals
  // whose copies are being filled further up the recursion.
  method Copy(src: Value, memo: Memo, ghost pending: set<JsObject>, ghost within: set<JsObject>) returns (dest: Value)
    requires Sound(memo.refs, pending, within) && Inside(src, within)
    modifies memo
    ensures Sound(memo.refs, pending, within) && Extends(old(memo.refs), memo.refs)
    ensures Image(src, memo.refs, dest)
    ensures forall n :: n in memo.refs && n !in old(memo.refs) ==> fresh(memo.refs[n])
    decreases within - memo.refs.Keys, 1
  {
    if src.Prim? { return src; }
    if src.obj in memo.refs { return Ref(memo.refs[src.obj]); }
    var d := CopyObject(src.obj, memo, pending, within);
    dest := Ref(d);
  }

  method CopyObject(n: JsObject, memo: Memo, ghost pending: set<JsObject>, ghost within: set<JsObject>)
    returns (d: JsObject)
    requires Sound(memo.refs, pending, within) && n in within && n !in memo.refs
    modifies memo
    ensures Sound(memo.refs, pending, within) && Extends(old(memo.refs), memo.refs)
    ensures n in memo.refs && memo.refs[n] == d
    ensures forall m :: m in memo.refs && m !in old(memo.refs) ==> fresh(memo.refs[m])
    decreases within - memo.refs.Keys, 0
  {
    ghost var before := memo.refs;
    d := Register(n, memo, pending, within);
    ghost var added := memo.refs;
    FillCopy(n, d, memo, pending, within);
    ExtendsThrough(before, added, memo.refs);
  }

  // A blank copy enters the memo before anything is copied into it.
  method Register(n: JsObject, memo: Memo, ghost pending: set<JsObject>, ghost within: set<JsObject>)
    returns (d: JsObject)
    requires Sound(memo.refs, pending, within) && n in within && n !in memo.refs
    modifies memo
    ensures Sound(memo.refs, pending + {n}, within)
    ensures memo.refs == old(memo.refs)[n := d] && fresh(d)
    ensures d.kind == n.kind && |d.elems| == |n.elems| && d.props == map[]
  {
    ghost var before := memo.refs;
    assert PointsInto(n, within);
    d := new JsObject(n.kind, if n.kind.Array? then |n.elems| else 0);
    memo.refs := memo.refs[n := d];
    AddedSound(before, n, d, pending, within);
  }

  method FillCopy(n: JsObject, d: JsObject, memo: Memo, ghost pending: set<JsObject>, ghost within: set<JsObject>)
    requires Sound(memo.refs, pending + {n}, within) && memo.refs[n] == d
    requires d.kind == n.kind && |d.elems| == |n.elems| && d.props == map[]
    modifies memo, d
    ensures Sound(memo.refs, pending, within) && Extends(old(memo.refs), memo.refs)
    ensures forall m :: m in memo.refs && m !in old(memo.refs) ==> fresh(memo.refs[m])
    decreases within - memo.refs.Keys, 5
  {
    CopyParts(n, d, memo, pending + {n}, within);
    FinishedSound(memo.refs, pending, within, n, d);
  }

  method CopyParts(n: JsObject, d: JsObject, memo: Memo, ghost pending: set<JsObject>, ghost within: set<JsObject>)
    requires Sound(memo.refs, pending, within) && n in pending && memo.refs[n] == d
    requires d.kind == n.kind && |d.elems| == |n.elems| && d.props == map[]
    modifies memo, d
    ensures Sound(memo.refs, pending, within) && Extends(old(memo.refs), memo.refs)
    ensures Copied(n, d, memo.refs)
    ensures forall m :: m in memo.refs && m !in old(memo.refs) ==> fresh(memo.refs[m])
    decreases within - memo.refs.Keys, 4
  {
    ghost var before := memo.refs;
    CopyElems(n, d, memo, pending, within);
    ghost var middle := memo.refs;
    CopyProps(n, d, memo, pending, within);
    ImagesUnderExtension(n.elems, d.elems, middle, memo.refs);
    ExtendsThrough(before, middle, memo.refs);
  }

  lemma ImagesUnderExtension(vs: seq<Value>, ws: seq<Value>,
      before: map<JsObject, JsObject>, after: map<JsObject, JsObject>)
    requires Extends(before, after) && |vs| == |ws|
    requires forall i :: 0 <= i < |vs| ==> Image(vs[i], before, ws[i])
    ensures forall i :: 0 <= i < |vs| ==> Image(vs[i], after, ws[i])
  {
  }

  lemma ExtendsThrough(a: map<JsObject, JsObject>, b: map<JsObject, JsObject>, c: map<JsObject, JsObject>)
    requires Extends(a, b) && Extends(b, c)
    ensures Extends(a, c)
  {
  }

  // Once its copy is full, an original is no longer in progress.
  lemma FinishedSound(refs: map<JsObject, JsObject>, pending: set<JsObject>, within: set<JsObject>,
      n: JsObject, d: JsObject)
    requires Sound(refs, pending + {n}, within) && n in refs && refs[n] == d
    requires n !in pending ==> Copied(n, d, refs)
    ensures Sound(refs, pending, within)
  {
  }

  lemma AddedSound(before: map<JsObject, JsObject>, n: JsObject, d: JsObject,
      pending: set<JsObject>, within: set<JsObject>)
    requires Sound(before, pending, within) && n in within && n !in before
    requires d !in within && d !in before.Values
    ensures Sound(before[n := d], pending + {n}, within)
  {
    var refs := before[n := d];
    assert Extends(before, refs);
    forall m | m in refs && m !in pending + {n} ensures Copied(m, refs[m], refs) {
      CopiedUnderExtension(m, before[m], before, refs);
    }
    forall a, b | a in refs && b in refs && refs[a] == refs[b] ensures a == b {
      if a != n { assert before[a] in before.Values; }
      if b != n { assert before[b] in before.Values; }
    }
  }

  method CopyElems(n: JsObject, d: JsObject, memo: Memo,
      ghost pending: set<JsObject>, ghost within: set<JsObject>)
    requires Sound(memo.refs, pending, within) && n in pending && memo.refs[n] == d
    requires |d.elems| == |n.elems|
    modifies memo, d`elems
    ensures Sound(memo.refs, pending, within) && Extends(old(memo.refs), memo.refs)
    ensures |d.elems| == |n.elems| && forall i :: 0 <= i < |n.elems| ==> Image(n.elems[i], memo.refs, d.elems[i])
    ensures forall m :: m in memo.refs && m !in old(memo.refs) ==> fresh(memo.refs[m])
    decreases within - memo.refs.Keys, 3
  {
    for i := 0 to |n.elems|
      invariant Sound(memo.refs, pending, within) && Extends(old(memo.refs), memo.refs)
      invariant |d.elems| == |n.elems| && forall j :: 0 <= j < i ==> Image(n.elems[j], memo.refs, d.elems[j])
      invariant forall m :: m in memo.refs && m !in old(memo.refs) ==> fresh(memo.refs[m])
    {
      CopyElem(n, d, i, memo, pending, within);
    }
  }

  method CopyElem(n: JsObject, d: JsObject, i: nat, memo: Memo,
      ghost pending: set<JsObject>, ghost within: set<JsObject>)
    requires Sound(memo.refs, pending, within) && n in pending && memo.refs[n] == d
    requires i < |n.elems| == |d.elems|
    modifies memo, d`elems
    ensures Sound(memo.refs, pending, within) && Extends(old(memo.refs), memo.refs)
    ensures |d.elems| == |n.elems| && Image(n.elems[i], memo.refs, d.elems[i])
    ensures forall j :: 0 <= j < |n.elems| && j != i ==> d.elems[j] == old(d.elems[j])
    ensures forall m :: m in memo.refs && m !in old(memo.refs) ==> fresh(memo.refs[m])
    decreases within - memo.refs.Keys, 2
  {
    assert PointsInto(n, within);
    var value := Copy(n.elems[i], memo, pending, within);
    SetElem(n, d, i, value, memo.refs, pending, within);
  }

  method SetElem(n: JsObject, d: JsObject, i: nat, value: Value,
      ghost refs: map<JsObject, JsObject>, ghost pending: set<JsObject>, ghost within: set<JsObject>)
    requires Sound(refs, pending, within) && n in pending && refs[n] == d && i < |d.elems|
    modifies d`elems
    ensures Sound(refs, pending, within) && d.elems == old(d.elems)[i := value]
  {
    d.elems := d.elems[i := value];
    assert forall m :: m in refs && m != n ==> refs[m] != d;
    forall m | m in refs && m !in pending ensures Copied(m, refs[m], refs) {
      assert old(Copied(m, refs[m], refs));
    }
    forall m | m in within ensures PointsInto(m, within) {
      assert old(PointsInto(m, within));
    }
  }

  method CopyProps(n: JsObject, d: JsObject, memo: Memo, ghost pending: set<JsObject>, ghost within: set<JsObject>)
    requires Sound(memo.refs, pending, within) && n in pending && memo.refs[n] == d
    requires d.props == map[]
    modifies memo, d`props
    ensures Sound(memo.refs, pending, within) && Extends(old(memo.refs), memo.refs)
    ensures d.props.Keys == n.props.Keys && forall k :: k in n.props ==> Image(n.props[k], memo.refs, d.props[k])
    ensures forall m :: m in memo.refs && m !in old(memo.refs) ==> fresh(memo.refs[m])
    decreases within - memo.refs.Keys, 3
  {
    var todo := n.props.Keys;
    while todo != {}
      invariant Sound(memo.refs, pending, within) && Extends(old(memo.refs), memo.refs)
      invariant PropsCopied(n.props, d.props, memo.refs, todo)
      invariant forall m :: m in memo.refs && m !in old(memo.refs) ==> fresh(memo.refs[m])
      decreases todo
    {
      var k :| k in todo;
      ghost var props, refs := d.props, memo.refs;
      var value := CopyProp(n, d, k, memo, pending, within);
      OneMoreProp(n.props, props, refs, memo.refs, todo, k, value);
      todo := todo - {k};
    }
  }

  // All properties but those still to do.
  ghost predicate PropsCopied(from: map<Key, Value>, to: map<Key, Value>, refs: map<JsObject, JsObject>,
      todo: set<Key>)
  {
    todo <= from.Keys && to.Keys == from.Keys - todo && forall k :: k in to ==> Image(from[k], refs, to[k])
  }

  lemma OneMoreProp(from: map<Key, Value>, to: map<Key, Value>, refs: map<JsObject, JsObject>,
      more: map<JsObject, JsObject>, todo: set<Key>, k: Key, value: Value)
    requires PropsCopied(from, to, refs, todo) && k in todo
    requires Extends(refs, more) && Image(from[k], more, value)
    ensures PropsCopied(from, to[k := value], more, todo - {k})
  {
  }

  method CopyProp(n: JsObject, d: JsObject, k: Key, memo: Memo,
      ghost pending: set<JsObject>, ghost within: set<JsObject>) returns (value: Value)
    requires Sound(memo.refs, pending, within) && n in pending && memo.refs[n] == d
    requires k in n.props
    modifies memo, d`props
    ensures Sound(memo.refs, pending, within) && Extends(old(memo.refs), memo.refs)
    ensures Image(n.props[k], memo.refs, value) && d.props == old(d.props)[k := value]
    ensures forall m :: m in memo.refs && m !in old(memo.refs) ==> fresh(memo.refs[m])
    decreases within - memo.refs.Keys, 2
  {
    assert PointsInto(n, within);
    value := Copy(n.props[k], memo, pending, within);
    SetProp(n, d, k, value, memo.refs, pending, within);
  }

  method SetProp(n: JsObject, d: JsObject, k: Key, value: Value,
      ghost refs: map<JsObject, JsObject>, ghost pending: set<JsObject>, ghost within: set<JsObject>)
    requires Sound(refs, pending, within) && n in pending && refs[n] == d
    modifies d`props
    ensures Sound(refs, pending, within) && d.props == old(d.props)[k := value]
  {
    d.props := d.props[k := value];
    assert forall m :: m in refs && m != n ==> refs[m] != d;
    forall m | m in refs && m !in pending ensures Copied(m, refs[m], refs) {
      assert old(Copied(m, refs[m], refs));
    }
    forall m | m in within ensures PointsInto(m, within) {
      assert old(PointsInto(m, within));
    }
  }

  // ----- the whole copy -----

  // `s` is exactly what can be reached from v: no smaller closed set contains v.
  ghost predicate Least(v: Value, s: set<JsObject>)
    reads s
  {
    Closed(s) && Inside(v, s) && forall t: set<JsObject> :: t <= s && Closed(t) && Inside(v, t) ==> t == s
  }

  // The memo describes an isomorphism from its keys to its values.
  ghost predicate Isomorphism(refs: map<JsObject, JsObject>)
    reads refs.Keys, refs.Values
  {
    Injective(refs) && Closed(refs.Keys) && forall n :: n in refs ==> Copied(n, refs[n], refs)
  }

  // Nothing is modified; every object copied is reachable from the source, and its copy is new.
  method DeepClone(src: Value, ghost within: set<JsObject>) returns (dest: Value, ghost refs: map<JsObject, JsObject>)
    requires Closed(within) && Inside(src, within)
    ensures Isomorphism(refs) && Image(src, refs, dest)
    ensures forall n :: n in refs ==> fresh(refs[n])
    ensures refs.Keys <= within && (Least(src, within) ==> refs.Keys == within)
  {
    var memo := new Memo();
    dest := Copy(src, memo, {}, within);
    refs := memo.refs;
    CopiedKeysAreClosed(refs, within);
    ImageStaysInside(src, refs, dest);
  }

  lemma CopiedKeysAreClosed(refs: map<JsObject, JsObject>, within: set<JsObject>)
    requires Sound(refs, {}, within)
    ensures Isomorphism(refs)
  {
    forall n | n in refs.Keys ensures PointsInto(n, refs.Keys) {
      assert Copied(n, refs[n], refs);
      assert PointsInto(n, within);
    }
  }

  // A finite closed set always contains the exact set of reachable objects.
  lemma {:induction false} ReachableSetExists(v: Value, s: set<JsObject>) returns (t: set<JsObject>)
    requires Closed(s) && Inside(v, s)
    ensures t <= s && Least(v, t)
    decreases s
  {
    if smaller: set<JsObject> :| smaller < s && Closed(smaller) && Inside(v, smaller) {
      t := ReachableSetExists(v, smaller);
    } else {
      t := s;
    }
  }

  // ----- what an isomorphic copy means to its reader -----

  datatype Access = Elem(i: nat) | Prop(k: Key)
  datatype Option<T> = None | Some(value: T)

  // What an access path leads to.
  ghost function Follow(v: Value, path: seq<Access>, s: set<JsObject>): (r: Option<Value>)
    reads s
    requires Closed(s) && Inside(v, s)
    ensures r.Some? ==> Inside(r.value, s)
    decreases |path|
  {
    if path == [] then Some(v)
    else if v.Prim? then None
    else
      assert PointsInto(v.obj, s);
      match path[0]
      case Elem(i) => if i < |v.obj.elems| then Follow(v.obj.elems[i], path[1..], s) else None
      case Prop(k) => if k in v.obj.props then Follow(v.obj.props[k], path[1..], s) else None
  }

  lemma ClonesAreClosed(refs: map<JsObject, JsObject>)
    requires Isomorphism(refs)
    ensures Closed(refs.Values)
  {
    forall d | d in refs.Values ensures PointsInto(d, refs.Values) {
      var n :| n in refs && refs[n] == d;
      assert Copied(n, d, refs) && PointsInto(n, refs.Keys);
      forall i | 0 <= i < |d.elems| ensures Inside(d.elems[i], refs.Values) {
        assert Image(n.elems[i], refs, d.elems[i]);
      }
      forall k | k in d.props ensures Inside(d.props[k], refs.Values) {
        assert Image(n.props[k], refs, d.props[k]);
      }
    }
  }

  lemma ImageStaysInside(v: Value, refs: map<JsObject, JsObject>, w: Value)
    requires Image(v, refs, w)
    ensures Inside(v, refs.Keys) && Inside(w, refs.Values)
  {
    if v.Ref? { assert refs[v.obj] in refs.Values; }
  }

  // Every access path leads to corresponding values in original and copy, or to nothing in both.
  lemma {:induction false} PathsCorrespond(v: Value, w: Value, path: seq<Access>, refs: map<JsObject, JsObject>)
    requires Isomorphism(refs) && Image(v, refs, w)
    ensures Closed(refs.Values) && Inside(v, refs.Keys) && Inside(w, refs.Values)
    ensures var a, b := Follow(v, path, refs.Keys), Follow(w, path, refs.Values);
      (a.None? <==> b.None?) && (a.Some? ==> Image(a.value, refs, b.value))
    decreases |path|
  {
    ClonesAreClosed(refs);
    ImageStaysInside(v, refs, w);
    if path != [] && v.Ref? {
      var n, d := v.obj, refs[v.obj];
      assert Copied(n, d, refs) && PointsInto(n, refs.Keys) && PointsInto(d, refs.Values);
      match path[0] {
        case Elem(i) =>
          if i < |n.elems| { PathsCorrespond(n.elems[i], d.elems[i], path[1..], refs); }
        case Prop(k) =>
          if k in n.props { PathsCorrespond(n.props[k], d.props[k], path[1..], refs); }
      }
    }
  }

  // Sharing and cycles are kept: two paths meet in the copy exactly when they meet in the original.
  lemma SharingIsKept(v: Value, w: Value, p: seq<Access>, q: seq<Access>, refs: map<JsObject, JsObject>)
    requires Isomorphism(refs) && Image(v, refs, w)
    ensures Closed(refs.Values) && Inside(v, refs.Keys) && Inside(w, refs.Values)
    ensures Follow(v, p, refs.Keys) == Follow(v, q, refs.Keys)
       <==> Follow(w, p, refs.Values) == Follow(w, q, refs.Values)
  {
    PathsCorrespond(v, w, p, refs);
    PathsCorrespond(v, w, q, refs);
    ImagesMeet(refs, Follow(v, p, refs.Keys), Follow(w, p, refs.Values),
      Follow(v, q, refs.Keys), Follow(w, q, refs.Values));
  }

  lemma ImagesMeet(refs: map<JsObject, JsObject>,
      a: Option<Value>, b: Option<Value>, c: Option<Value>, d: Option<Value>)
    requires Injective(refs) && (a.None? <==> b.None?) && (c.None? <==> d.None?)
    requires (a.Some? ==> Image(a.value, refs, b.value)) && (c.Some? ==> Image(c.value, refs, d.value))
    ensures a == c <==> b == d
  {
  }
}

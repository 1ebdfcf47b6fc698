/** The strict map and slice coercions of caste.go.  They do not normalise
    pointers; they fill a fresh map or slice element by element with the
    best-effort scalar conversions of cast.go (ToString, ToBool) or with the
    strict ToIntE.
 */
module CasteCollections {
  import opened Values
  import opened Lexical
  import opened Caste
  import opened Cast
  import opened Indirection

  // ------------------------------------------------------------ maps

  /** m is what ranging over src and storing val(src[k]) under key(k) can
      leave behind: its keys are exactly the images of src's keys, and each
      entry comes from some source entry with that key.  When two keys of src
      have the same image, Go's random iteration order decides which entry
      survives, and the relation does not say which. */
  ghost predicate KeyedBy<K, T>(m: map<string, T>, src: map<K, Value>, key: K -> string, val: Value -> T)
  {
    && (forall k :: k in src ==> key(k) in m)
    && forall s :: s in m ==> exists k :: k in src && key(k) == s && m[s] == val(src[k])
  }

  /** The `for k, val := range v { m[key(k)] = val(val) }` loop shared by the
      three map coercions; the key picked at each step is arbitrary, as in
      Go's map iteration. */
  method StoreByKey<K, T>(src: map<K, Value>, key: K -> string, val: Value -> T) returns (m: map<string, T>)
    ensures KeyedBy(m, src, key, val)
  {
    m := map[];
    var todo := src.Keys;
    while todo != {}
      invariant todo <= src.Keys
      invariant forall k :: k in src && k !in todo ==> key(k) in m
      invariant forall s :: s in m ==> exists k :: k in src && key(k) == s && m[s] == val(src[k])
      decreases todo
    {
      var k :| k in todo;
      m := m[key(k) := val(src[k])];
      todo := todo - {k};
    }
  }

  /** When no two source keys share an image, every source entry survives. */
  lemma KeyedByInjective<K, T>(m: map<string, T>, src: map<K, Value>, key: K -> string, val: Value -> T, k: K)
    requires KeyedBy(m, src, key, val)
    requires forall k1, k2 :: k1 in src && k2 in src && key(k1) == key(k2) ==> k1 == k2
    requires k in src
    ensures key(k) in m && m[key(k)] == val(src[k])
  {
    var s := key(k);
    assert s in m;
    var k' :| k' in src && key(k') == s && m[s] == val(src[k']);
  }

  /** ToString(k) for a string key k: the key itself. */
  function KeyText(k: string): (r: string)
    ensures r == k
  {
    ToString(Str(k))
  }

  /** What `m[ToString(k)] = val` stores: the value untouched. */
  function Keep(x: Value): Value
  {
    x
  }

  /** val applied to every value of src, keys unchanged. */
  function MapValues<T>(src: map<string, Value>, val: Value -> T): (m: map<string, T>)
    ensures m.Keys == src.Keys && forall k :: k in src ==> m[k] == val(src[k])
  {
    map k | k in src :: val(src[k])
  }

  /** A source whose keys stringify to themselves converts entry by entry,
      keys unchanged. */
  lemma KeysKept<T>(m: map<string, T>, src: map<string, Value>, key: string -> string, val: Value -> T)
    requires KeyedBy(m, src, key, val)
    requires forall k :: k in src ==> key(k) == k
    ensures m == MapValues(src, val)
  {
    forall k | k in src
      ensures k in m && m[k] == val(src[k])
    {
      var k' :| k' in src && key(k') == k && m[k] == val(src[k']);
    }
    forall s | s in m
      ensures s in src
    {
      var k :| k in src && key(k) == s && m[s] == val(src[k]);
    }
  }

  /** The value part of ToStringMapStringE. */
  ghost predicate IsStringMapStringOf(v: Value, m: Nilable<map<string, string>>)
  {
    match v
    case IfaceMap(r) => m.Made? && KeyedBy(m.val, Entries(r), ToString, ToString)
    case StrMap(r) => m == Made(MapValues(Entries(r), ToString))
    case StrStrMap(r) => m == r
    case _ => m == Made(map[])
  }

  /** ToStringMapStringE: accepts map[interface{}]interface{} and
      map[string]interface{} (keys and values through ToString) and
      map[string]string (as it is); anything else gives an empty, non-nil
      map and an error. */
  method ToStringMapStringE(v: Value) returns (m: Nilable<map<string, string>>, ok: bool)
    ensures ok <==> v.IfaceMap? || v.StrMap? || v.StrStrMap?
    ensures IsStringMapStringOf(v, m)
  {
    match v
    case IfaceMap(r) =>
      var e := StoreByKey(Entries(r), ToString, ToString);
      return Made(e), true;
    case StrMap(r) =>
      var e := StoreByKey(Entries(r), KeyText, ToString);
      KeysKept(e, Entries(r), KeyText, ToString);
      return Made(e), true;
    case StrStrMap(r) =>
      return r, true;
    case _ =>
      return Made(map[]), false;
  }

  /** The value part of ToStringMapBoolE. */
  ghost predicate IsStringMapBoolOf(v: Value, m: Nilable<map<string, bool>>)
  {
    match v
    case IfaceMap(r) => m.Made? && KeyedBy(m.val, Entries(r), ToString, ToBool)
    case StrMap(r) => m == Made(MapValues(Entries(r), ToBool))
    case StrBoolMap(r) => m == r
    case _ => m == Made(map[])
  }

  /** ToStringMapBoolE: as ToStringMapStringE, with values through ToBool
      and map[string]bool passed through. */
  method ToStringMapBoolE(v: Value) returns (m: Nilable<map<string, bool>>, ok: bool)
    ensures ok <==> v.IfaceMap? || v.StrMap? || v.StrBoolMap?
    ensures IsStringMapBoolOf(v, m)
  {
    match v
    case IfaceMap(r) =>
      var e := StoreByKey(Entries(r), ToString, ToBool);
      return Made(e), true;
    case StrMap(r) =>
      var e := StoreByKey(Entries(r), KeyText, ToBool);
      KeysKept(e, Entries(r), KeyText, ToBool);
      return Made(e), true;
    case StrBoolMap(r) =>
      return r, true;
    case _ =>
      return Made(map[]), false;
  }

  /** The value part of ToStringMapE. */
  ghost predicate IsStringMapOf(v: Value, m: Nilable<map<string, Value>>)
  {
    match v
    case IfaceMap(r) => m.Made? && KeyedBy(m.val, Entries(r), ToString, Keep)
    case StrMap(r) => m == r
    case _ => m == Made(map[])
  }

  /** ToStringMapE: keys of map[interface{}]interface{} through ToString,
      values untouched; map[string]interface{} as it is; anything else gives
      an empty, non-nil map and an error. */
  method ToStringMapE(v: Value) returns (m: Nilable<map<string, Value>>, ok: bool)
    ensures ok <==> v.IfaceMap? || v.StrMap?
    ensures IsStringMapOf(v, m)
  {
    match v
    case IfaceMap(r) =>
      var e := StoreByKey(Entries(r), ToString, Keep);
      return Made(e), true;
    case StrMap(r) =>
      return r, true;
    case _ =>
      return Made(map[]), false;
  }

  /** ToString of the int 1 is "1". */
  lemma OneText()
    ensures ToString(Int(Native, 1)) == "1"
  {
    assert StringerTerminal(Int(Native, 1)) == Int(Native, 1);
    assert FormatInt(1) == "1";
  }

  /** ToString of a string is the string. */
  lemma StrText(s: string)
    ensures ToString(Str(s)) == s
  {
  }

  /** The map of the form {1: "x", "2": "y"} converts to {"1": "x", "2": "y"}. */
  lemma MixedKeysExample(m: map<string, string>)
    requires KeyedBy(m, map[Int(Native, 1) := Str("x"), Str("2") := Str("y")], ToString, ToString)
    ensures m == map["1" := "x", "2" := "y"]
  {
    OneText();
    StrText("2");
    StrText("x");
    StrText("y");
    KeyedByPair(m, Int(Native, 1), Str("x"), Str("2"), Str("y"), ToString, ToString);
  }

  /** Two source entries whose keys have distinct images both survive. */
  lemma KeyedByPair<K, T>(m: map<string, T>, a: K, x: Value, b: K, y: Value, key: K -> string, val: Value -> T)
    requires key(a) != key(b)
    requires KeyedBy(m, map[a := x, b := y], key, val)
    ensures m == map[key(a) := val(x), key(b) := val(y)]
  {
    var src := map[a := x, b := y];
    assert a != b;
    assert src.Keys == {a, b};
    assert key(a) in m && key(b) in m;
    assert m.Keys == {key(a), key(b)};
    var k1 :| k1 in src && key(k1) == key(a) && m[key(a)] == val(src[k1]);
    var k2 :| k2 in src && key(k2) == key(b) && m[key(b)] == val(src[k2]);
  }

  /** Two source entries whose keys share an image leave one entry behind,
      holding the converted value of one of them. */
  lemma KeyedByCollision<K, T>(m: map<string, T>, a: K, x: Value, b: K, y: Value, key: K -> string, val: Value -> T)
    requires a != b && key(a) == key(b)
    requires KeyedBy(m, map[a := x, b := y], key, val)
    ensures m == map[key(a) := val(x)] || m == map[key(a) := val(y)]
  {
    var src := map[a := x, b := y];
    assert src.Keys == {a, b};
    assert m.Keys == {key(a)};
    var k :| k in src && key(k) == key(a) && m[key(a)] == val(src[k]);
  }

  /** Either outcome of a collision is allowed: keeping either entry
      satisfies the relation. */
  lemma CollisionEitherWay<K, T>(a: K, x: Value, b: K, y: Value, key: K -> string, val: Value -> T)
    requires a != b && key(a) == key(b)
    ensures KeyedBy(map[key(a) := val(x)], map[a := x, b := y], key, val)
    ensures KeyedBy(map[key(a) := val(y)], map[a := x, b := y], key, val)
  {
    var src := map[a := x, b := y];
    assert src[a] == x && src[b] == y;
  }

  /** The map {1: "x", "1": "y"} may become {"1": "x"} or {"1": "y"}, as Go's
      iteration order falls. */
  lemma CollidingKeysExample()
    ensures KeyedBy(map["1" := "x"], map[Int(Native, 1) := Str("x"), Str("1") := Str("y")], ToString, ToString)
    ensures KeyedBy(map["1" := "y"], map[Int(Native, 1) := Str("x"), Str("1") := Str("y")], ToString, ToString)
  {
    OneText();
    StrText("1");
    StrText("x");
    StrText("y");
    CollisionEitherWay(Int(Native, 1), Str("x"), Str("1"), Str("y"), ToString, ToString);
  }

  // ------------------------------------------------------------ slices

  /** f applied to each element, in order. */
  function MapSeq<A, B>(xs: seq<A>, f: A -> B): (ys: seq<B>)
    ensures |ys| == |xs| && forall i :: 0 <= i < |xs| ==> ys[i] == f(xs[i])
  {
    seq(|xs|, i requires 0 <= i < |xs| => f(xs[i]))
  }

  /** Go's append of one element: a nil slice becomes a made one. */
  function Append<T>(s: Nilable<seq<T>>, x: T): (r: Nilable<seq<T>>)
    ensures r.Made? && |Items(r)| == |Items(s)| + 1
    ensures Items(r)[..|Items(s)|] == Items(s) && Items(r)[|Items(s)|] == x
  {
    Made(Items(s) + [x])
  }

  /** The slice obtained by appending xs, one at a time, to a nil slice:
      still nil when xs is empty. */
  function AppendAll<T>(xs: seq<T>): (s: Nilable<seq<T>>)
    ensures s.Null? <==> xs == []
    ensures Items(s) == xs
  {
    if xs == [] then Null else Made(xs)
  }

  /** AppendAll is what the append loops build: one more element appended
      to the slice of xs gives the slice of xs + [x]. */
  lemma AppendAllStep<T>(xs: seq<T>, x: T)
    ensures Append(AppendAll(xs), x) == AppendAll(xs + [x])
  {
  }

  /** The element of a []map[string]interface{} as an interface{}. */
  function BoxMap(m: Nilable<map<string, Value>>): Value
  {
    StrMap(m)
  }

  /** The value part of ToSliceE (its error cases give the nil slice). */
  ghost predicate IsSliceOf(v: Value, s: Nilable<seq<Value>>)
  {
    match v
    case AnySlice(r) => s == AppendAll(Items(r))
    case MapSlice(r) => s == AppendAll(MapSeq(Items(r), BoxMap))
    case _ => s == Null
  }

  /** ToSliceE: copies a []interface{} or boxes the maps of a
      []map[string]interface{}, in order, into a fresh []interface{}. */
  method ToSliceE(v: Value) returns (s: Nilable<seq<Value>>, ok: bool)
    ensures ok <==> v.AnySlice? || v.MapSlice?
    ensures IsSliceOf(v, s)
  {
    s := Null;
    match v
    case AnySlice(r) =>
      var xs := Items(r);
      for i := 0 to |xs|
        invariant s == AppendAll(xs[..i])
      {
        assert xs[..i + 1] == xs[..i] + [xs[i]];
        s := Append(s, xs[i]);
      }
      assert xs[..|xs|] == xs;
      return s, true;
    case MapSlice(r) =>
      var ms := Items(r);
      for i := 0 to |ms|
        invariant s == AppendAll(MapSeq(ms[..i], BoxMap))
      {
        assert MapSeq(ms[..i + 1], BoxMap) == MapSeq(ms[..i], BoxMap) + [BoxMap(ms[i])];
        s := Append(s, BoxMap(ms[i]));
      }
      assert ms[..|ms|] == ms;
      return s, true;
    case _ =>
      return s, false;
  }

  /** The value part of ToStringSliceE (its error case gives the nil slice). */
  ghost predicate IsStringSliceOf(v: Value, a: Nilable<seq<string>>)
  {
    match v
    case AnySlice(r) => a == AppendAll(MapSeq(Items(r), ToString))
    case StrSlice(r) => a == r
    case Str(s) => a == Made(Fields(s))
    case _ => a == Null
  }

  /** ToStringSliceE: each element of a []interface{} through ToString; a
      []string as it is; a string split into its white-space separated
      fields. */
  method ToStringSliceE(v: Value) returns (a: Nilable<seq<string>>, ok: bool)
    ensures ok <==> v.AnySlice? || v.StrSlice? || v.Str?
    ensures IsStringSliceOf(v, a)
  {
    a := Null;
    match v
    case AnySlice(r) =>
      var xs := Items(r);
      for i := 0 to |xs|
        invariant a == AppendAll(MapSeq(xs[..i], ToString))
      {
        assert MapSeq(xs[..i + 1], ToString) == MapSeq(xs[..i], ToString) + [ToString(xs[i])];
        a := Append(a, ToString(xs[i]));
      }
      assert xs[..|xs|] == xs;
      return a, true;
    case StrSlice(r) =>
      return r, true;
    case Str(s) =>
      return Made(Fields(s)), true;
    case _ =>
      return a, false;
  }

  /** What reflection sees when it indexes a slice or array: its elements,
      each as an interface{}; None for every other kind. */
  function Elements(v: Value): (r: Option<seq<Value>>)
    ensures r.Some? <==> v.AnySlice? || v.MapSlice? || v.StrSlice? || v.IntSlice? || v.Bytes? || v.OtherSeq?
    ensures v.AnySlice? ==> r == Some(Items(v.xs))
    ensures v.OtherSeq? ==> r == Some(Items(v.es))
    ensures v.MapSlice? ==> (|r.value| == |Items(v.ms)| &&
      forall j :: 0 <= j < |Items(v.ms)| ==> r.value[j] == StrMap(Items(v.ms)[j]))
    ensures v.StrSlice? ==> (|r.value| == |Items(v.ss)| &&
      forall j :: 0 <= j < |Items(v.ss)| ==> r.value[j] == Str(Items(v.ss)[j]))
    ensures v.IntSlice? ==> (|r.value| == |Items(v.ns)| &&
      forall j :: 0 <= j < |Items(v.ns)| ==> r.value[j] == Int(Native, Items(v.ns)[j]))
    ensures v.Bytes? ==> (|r.value| == |v.bytes| && forall j :: 0 <= j < |v.bytes| ==> r.value[j] == Opaque)
  {
    match v
    case AnySlice(r) => Some(Items(r))
    case MapSlice(r) => Some(MapSeq(Items(r), BoxMap))
    case StrSlice(r) => Some(MapSeq(Items(r), (s: string) => Str(s)))
    case IntSlice(r) => Some(MapSeq(Items(r), (n: int) => Int(Native, n)))
    case Bytes(b) => Some(MapSeq(b, (_: Byte) => Opaque))
    case OtherSeq(r) => Some(Items(r))
    case _ => None
  }

  /** ToIntSliceE succeeds on a []int, and on any other slice or array all of
      whose elements ToIntE accepts. */
  predicate IntSliceAccepts(v: Value)
  {
    v != Nil && (v.IntSlice? || (Elements(v).Some? &&
      forall j :: 0 <= j < |Elements(v).value| ==> ToIntE(Elements(v).value[j]).ok))
  }

  /** The value part of ToIntSliceE: an empty, non-nil slice on every error. */
  ghost predicate IsIntSliceOf(v: Value, r: Nilable<seq<int>>)
  {
    if !IntSliceAccepts(v) then r == Made([])
    else if v.IntSlice? then r == v.ns
    else r == Made(MapSeq(Elements(v).value, (e: Value) => ToIntE(e).value))
  }

  /** ToIntSliceE: nil is refused; a []int passes; any other slice or array
      is converted element by element with ToIntE into a slice of its
      length, and the first element that fails fails the whole call. */
  method ToIntSliceE(v: Value) returns (r: Nilable<seq<int>>, ok: bool)
    ensures ok <==> IntSliceAccepts(v)
    ensures IsIntSliceOf(v, r)
    ensures ok && !v.IntSlice? ==> r.Made? && |r.val| == |Elements(v).value|
    ensures !ok ==> r == Made([])
  {
    if v == Nil {
      return Made([]), false;
    }
    if v.IntSlice? {
      return v.ns, true;
    }
    if Elements(v).None? {
      return Made([]), false;
    }
    var xs, all := IntsOf(Elements(v).value);
    if !all {
      return Made([]), false;
    }
    return Made(xs), true;
  }

  /** The loop of ToIntSliceE over the elements: fills a fresh array of
      their count with ToIntE of each, and stops at the first refusal. */
  method IntsOf(es: seq<Value>) returns (xs: seq<int>, ok: bool)
    ensures ok <==> forall j :: 0 <= j < |es| ==> ToIntE(es[j]).ok
    ensures ok ==> xs == MapSeq(es, (e: Value) => ToIntE(e).value)
  {
    var a := new int[|es|];
    for j := 0 to |es|
      invariant forall k :: 0 <= k < j ==> ToIntE(es[k]).ok && a[k] == ToIntE(es[k]).value
    {
      var c := ToIntE(es[j]);
      if !c.ok {
        return [], false;
      }
      a[j] := c.value;
    }
    return a[..], true;
  }
}

/** The best-effort collection layer of cast.go: each wrapper calls its
    strict counterpart and drops the error.  The strict coercions already
    return a usable fallback on failure (an empty map, a nil slice, an empty
    []int), so that fallback is what the wrappers hand back.
 */
module CastCollections {
  import opened Values
  import opened CasteCollections

  /** ToStringMapString: the strict result, or an empty map on failure. */
  method ToStringMapString(v: Value) returns (m: Nilable<map<string, string>>)
    ensures IsStringMapStringOf(v, m)
    ensures !(v.IfaceMap? || v.StrMap? || v.StrStrMap?) ==> m == Made(map[])
  {
    var ok;
    m, ok := ToStringMapStringE(v);
  }

  /** ToStringMapBool: the strict result, or an empty map on failure. */
  method ToStringMapBool(v: Value) returns (m: Nilable<map<string, bool>>)
    ensures IsStringMapBoolOf(v, m)
    ensures !(v.IfaceMap? || v.StrMap? || v.StrBoolMap?) ==> m == Made(map[])
  {
    var ok;
    m, ok := ToStringMapBoolE(v);
  }

  /** ToStringMap: the strict result, or an empty map on failure. */
  method ToStringMap(v: Value) returns (m: Nilable<map<string, Value>>)
    ensures IsStringMapOf(v, m)
    ensures !(v.IfaceMap? || v.StrMap?) ==> m == Made(map[])
  {
    var ok;
    m, ok := ToStringMapE(v);
  }

  /** ToSlice: the strict result, or a nil slice on failure. */
  method ToSlice(v: Value) returns (s: Nilable<seq<Value>>)
    ensures IsSliceOf(v, s)
    ensures !(v.AnySlice? || v.MapSlice?) ==> s == Null
  {
    var ok;
    s, ok := ToSliceE(v);
  }

  /** ToStringSlice: the strict result, or a nil slice on failure. */
  method ToStringSlice(v: Value) returns (a: Nilable<seq<string>>)
    ensures IsStringSliceOf(v, a)
    ensures !(v.AnySlice? || v.StrSlice? || v.Str?) ==> a == Null
  {
    var ok;
    a, ok := ToStringSliceE(v);
  }

  /** ToIntSlice: the strict result, or an empty (non-nil) slice when any
      element is refused. */
  method ToIntSlice(v: Value) returns (r: Nilable<seq<int>>)
    ensures IsIntSliceOf(v, r)
    ensures !IntSliceAccepts(v) ==> r == Made([])
  {
    var ok;
    r, ok := ToIntSliceE(v);
  }
}

/** The dynamic values the coercion functions of package cast inspect.

    A Go `interface{}` holds a dynamic type and a value.  The core only ever
    branches on a closed set of dynamic types, so the model lists them as the
    constructors of one datatype; every other Go type is `Opaque`, or
    `Stringer`/`Error` when its method set has `String()`/`Error()`.
 */
module Values {

  datatype Option<T> = None | Some(value: T)

  /** A Go slice or map: either the nil slice/map or a made one holding `val`. */
  datatype Nilable<T> = Null | Made(val: T)

  /** The signed integer types the core recognises; `Native` is Go's `int`. */
  datatype Width = Native | W8 | W16 | W32 | W64

  /** What a pointer type's method set offers to `fmt`: nothing, a `String()`
      method or an `Error()` method.  The strings are what those methods return. */
  datatype Methods = NoMethods | HasString(text: string) | HasError(msg: string)

  /** A `time.Time`, observed only through equality. */
  datatype Instant = Instant(ticks: int, zone: string)

  /** `time.Time{}`, the value a failed time conversion returns. */
  const ZeroTime: Instant := Instant(0, "")

  type Byte = x: int | 0 <= x < 256

  datatype Value =
    | Nil                                         // the untyped nil interface
    | Bool(b: bool)
    | Int(width: Width, n: int)                   // int, int8, int16, int32, int64
    | Float64(trunc: int, text: string)           // int(f) and FormatFloat(f, 'f', -1, 64)
    | Float32
    | Str(s: string)
    | Bytes(bytes: seq<Byte>)                     // []byte
    | HTML(html: string)                          // template.HTML
    | Time(t: Instant, timeText: string)          // time.Time and its String()
    | Duration(d: int, durText: string)           // time.Duration (nanoseconds) and its String()
    | Stringer(text: string)                      // a non-pointer value whose type has String()
    | Error(msg: string)                          // a non-pointer value whose type has Error()
    | Opaque                                      // any other non-pointer type: uint, struct, chan, ...
    | Ptr(elem: Option<Value>, methods: Methods)  // a pointer; None is a typed nil pointer
    | IfaceMap(im: Nilable<map<Value, Value>>)    // map[interface{}]interface{}
    | StrMap(sm: Nilable<map<string, Value>>)     // map[string]interface{}
    | StrStrMap(ssm: Nilable<map<string, string>>)
    | StrBoolMap(sbm: Nilable<map<string, bool>>)
    | AnySlice(xs: Nilable<seq<Value>>)           // []interface{}
    | MapSlice(ms: Nilable<seq<Nilable<map<string, Value>>>>)  // []map[string]interface{}
    | StrSlice(ss: Nilable<seq<string>>)
    | IntSlice(ns: Nilable<seq<int>>)
    | OtherSeq(es: Nilable<seq<Value>>)           // any other slice or array, elements boxed

  /** The (value, error) pair every strict coercion returns; `ok` is `err == nil`. */
  datatype Cast<T> = Cast(value: T, ok: bool)

  function Ok<T>(x: T): Cast<T> { Cast(x, true) }

  function Fail<T>(zero: T): Cast<T> { Cast(zero, false) }

  /** Ranging over a nil map visits nothing. */
  function Entries<K, V>(m: Nilable<map<K, V>>): map<K, V>
  {
    match m
    case Null => map[]
    case Made(e) => e
  }

  /** Ranging over a nil slice visits nothing. */
  function Items<T>(s: Nilable<seq<T>>): seq<T>
  {
    match s
    case Null => []
    case Made(e) => e
  }

  predicate NonNilPtr(v: Value)
  {
    v.Ptr? && v.elem.Some?
  }

  /** The dynamic type implements fmt.Stringer or error (time.Time and
      time.Duration implement fmt.Stringer). */
  predicate Implements(v: Value)
  {
    || v.Stringer? || v.Error? || v.Time? || v.Duration?
    || (v.Ptr? && v.methods != NoMethods)
  }

  /** The range of values of each signed integer width (Go's `int` is 64 bits). */
  predicate InRange(w: Width, n: int)
  {
    match w
    case W8 => -0x80 <= n < 0x80
    case W16 => -0x8000 <= n < 0x8000
    case W32 => -0x8000_0000 <= n < 0x8000_0000
    case _ => -0x8000_0000_0000_0000 <= n < 0x8000_0000_0000_0000
  }
}

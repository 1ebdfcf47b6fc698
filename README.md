# cast — a verified model of a Go type-coercion library

`cast` turns a dynamically typed Go value (an `interface{}`) into a value of
a requested type. Its strict functions live in `caste.go`. The scalar and
time conversions (`ToBoolE`, `ToIntE`, `ToStringE`, `ToTimeE`,
`ToDurationE`) all work the same way. Each one:

1. normalises its argument by following pointers;
2. dispatches on the concrete run-time type;
3. returns either the converted value, or the zero value of the target type with an error.

The map and slice conversions do not follow pointers: they dispatch on the
value as given. Their failure values are not all zero values.
`ToStringMapStringE`, `ToStringMapBoolE` and `ToStringMapE` return an empty,
non-nil map. `ToSliceE` and `ToStringSliceE` return a nil slice.
`ToIntSliceE` returns an empty, non-nil slice.

The functions of `cast.go` (`ToBool` … `ToIntSlice`) call the strict function
and drop the error.

Here the Go value is the tagged union `Values.Value`. Its constructors are:

- one per dynamic type the library distinguishes: `bool`, the signed `int` widths, `float64`, `string`, `[]byte`, `template.HTML`, `time.Time`, `time.Duration`;
- typed pointers, which carry whether their type has a `String()` or `Error()` method;
- user `fmt.Stringer` and `error` values;
- the four map types and five slice types the library inspects.

Go's nil slices and maps are kept apart from empty ones with `Nilable`. A
strict scalar conversion written as a function (`ToBoolE`, `ToIntE`,
`ToStringE`, `ToDurationE`) yields `Cast(value, ok)`, where `ok == false`
stands for the error. `ToTimeE` and the six collection conversions are
methods with two out-parameters, the value and `ok`.

Modules, in dependency order:

| module | file | models |
|---|---|---|
| `Values` | values.dfy | dynamic values, conversion results, nil-able slices and maps |
| `Lexical` | lexical.dfy | `strconv.ParseBool`, `strconv.ParseInt(s, 0, 0)`, `strconv.FormatInt(n, 10)`, `strings.Fields` |
| `Indirection` | indirect.dfy | `indirect` and `indirectToStringerOrError` |
| `Caste` | caste.dfy | the scalar strict conversions, `StringToDate`, `parseDateWith`, `ToTimeE`, `ToDurationE` |
| `Cast` | cast.dfy | the scalar best-effort wrappers |
| `CasteCollections` | caste_collections.dfy | the map and slice strict conversions |
| `CastCollections` | cast_collections.dfy | the collection best-effort wrappers |

The pointer walks are `while` loops. Each is proved equal to a recursive
specification: `Terminal`, or `StringerTerminal`, over the pointer path `Path`.

The map conversions fill a fresh map in a loop. That loop picks an arbitrary
remaining key at each step, as Go's randomised `range` does. Its result is
specified by the relation `KeyedBy`, which does not decide which entry
survives when two keys stringify alike. The slice conversions append in
counted loops, and `ToIntSliceE` fills an array by index, with an early exit.

`time.Parse` and `time.ParseDuration` are parameters of the operations that
call them.

## Model

| member | source | states |
|---|---|---|
| Lexical.ParseBool | caste.go:72 | accepts exactly the twelve spellings "1" "t" "T" "TRUE" "true" "True" "0" "f" "F" "FALSE" "false" "False"; the value is true exactly for the first six |
| Lexical.ParseInt | caste.go:128 | every accepted literal lies in the range of a 64-bit int |
| Lexical.ParseIntExamples | caste.go:128 | "0x" selects hex, a leading "0" octal (so "08" is refused), a sign may precede the literal, and "", "-" and a bare "0x" are refused |
| Lexical.ParseUintHex | caste.go:128 | with base 0, "0x" or "0X" reads the digits after it in base 16, and the bare prefix is refused |
| Lexical.ParseUintOctal | caste.go:128 | with base 0, any other literal with a leading "0" is read whole in base 8 |
| Lexical.ParseUintDecimal | caste.go:128 | with base 0, a literal without a leading "0" is read in base 10, and the empty literal is refused |
| Lexical.Signed | caste.go:128 | a magnitude with sign prefix becomes an int only when it fits 64 bits: below 2^63 without "-", down to -2^63 with it, negated under "-" |
| Lexical.ParseIntSigned | caste.go:128 | for every sign prefix ("", "+" or "-") and every literal not itself starting with a sign, ParseInt is the base-0 magnitude with that sign, accepted exactly when it fits 64 bits |
| Lexical.ParseIntHex | caste.go:128 | for every sign prefix, a "0x"/"0X" literal parses to its base-16 value with that sign, exactly when in range |
| Lexical.ParseIntOctal | caste.go:128 | for every sign prefix, a leading-"0" literal without an x parses to its base-8 value with that sign, exactly when in range |
| Lexical.ParseIntDecimal | caste.go:128 | for every sign prefix, any other literal parses to its base-10 value with that sign, exactly when in range |
| Lexical.DigitsLeadingZero | caste.go:128 | a leading zero does not change the value of a digit string in any base |
| Lexical.FormatNat | caste.go:198 | at least one character, decimal digits only, and a leading '0' only for zero, which renders as "0" |
| Lexical.FormatInt | caste.go:198 | a leading '-' exactly for negatives, followed by the digits of the magnitude |
| Lexical.DigitsOfFormatNat | caste.go:198 | reading the rendered digits back in base 10 gives the number |
| Lexical.ParseFormatInt | caste.go:198 | for every 64-bit n, ParseInt(FormatInt(n)) == Some(n) |
| Lexical.NotDecimal | caste.go:128 | a string that does not start with a decimal digit has no decimal value |
| Lexical.LeadingWord | caste.go:326 | the longest prefix without white space |
| Lexical.Fields | caste.go:326 | every field is non-empty and free of white space |
| Lexical.FieldsEmptyIffAllSpace | caste.go:326 | no fields exactly when the string is empty or all white space |
| Lexical.FieldsSkipSpace | caste.go:326 | leading white space does not change the fields |
| Lexical.LeadingWordOf | caste.go:326 | a word followed by white space or the end is the leading word |
| Lexical.FieldsAfterWord | caste.go:326 | a leading word is the first field and the rest are the fields of what follows |
| Lexical.FieldsOfInterleave | caste.go:326 | words separated by non-empty white space, with any white space around them, split back into exactly those words in order |
| Lexical.Gaps | caste.go:326 | the white space between the fields, one more than the fields; the inner ones are non-empty, and interleaving them with the fields rebuilds the string |
| Lexical.GapsAfterSpace | caste.go:326 | a leading space joins the first gap of the rest of the string |
| Lexical.GapsAfterWord | caste.go:326 | a leading word is preceded by an empty gap, the rest's gaps following |
| Lexical.EmptyGapFirst | caste.go:326 | an empty gap put in front keeps all gaps white space and shifts the inner ones by one |
| Lexical.InterleaveWiderPad | caste.go:326 | one more character in the first gap is one more character at the front of the string |
| Lexical.FieldsDecompose | caste.go:326 | every string is its fields, in order, interleaved with white-space runs, which are non-empty between two fields |
| Lexical.FieldsExample | caste.go:326 | "  a  b " splits into ["a", "b"] |
| Indirection.Path | caste.go:160-162 | starts at the value; every element but the last is a non-nil pointer, and the last is not |
| Indirection.PathFollowsPointers | caste.go:160-162 | each path element is what the pointer before it points to |
| Indirection.Terminal | caste.go:151-164 | never a non-nil pointer, and a non-pointer is its own result |
| Indirection.TerminalEndsPath | caste.go:160-162 | Terminal is the last element of the pointer path |
| Indirection.StringerTerminal | caste.go:171-184 | a Stringer/error implementation or not a non-nil pointer; a value that implements either interface, or is not a pointer, is its own result |
| Indirection.StringerTerminalOnPath | caste.go:180-182 | StringerTerminal is the first path element whose type implements fmt.Stringer or error, or the end of the path when none does |
| Indirection.Indirect | caste.go:151-164 | nil gives nil, a non-pointer is returned as it is, otherwise pointers are followed to the end of the path; never a non-nil pointer |
| Indirection.IndirectToStringerOrError | caste.go:171-184 | nil gives nil, a value implementing Stringer or error is returned as it is (a pointer too), otherwise the walk stops at the first such level or the end of the path |
| Indirection.StringerTerminalIsTerminal | caste.go:171-184 | when no level of the path implements either interface, the two normalisers agree |
| Indirection.PointersAreTransparent | caste.go:151-164 | any number of plain pointers in front of a value change neither normaliser's result |
| Caste.ToBoolE | caste.go:57-76 | bool as it is, nil as false, a plain int (not other widths) is true iff non-zero, a string by ParseBool; every other type fails with false |
| Caste.ToIntE | caste.go:112-145 | every signed width as its value, a string by ParseInt, a float64 truncated, true/false as 1/0, nil as 0; every other type and an unparsable string fail with 0 |
| Caste.BytesText | caste.go:199-200 | one character per byte, same length and values |
| Caste.MethodText | caste.go:205-208 | there is a method text exactly when the type implements fmt.Stringer or error |
| Caste.ToStringE | caste.go:188-212 | string, HTML, []byte and float64 by their text, nil as "", a plain int in decimal (which ParseInt reads back), then a Stringer's or error's method text; everything else fails with "" |
| Caste.ToDurationE | caste.go:39-53 | a Duration as it is, a string through ParseDuration, which decides success; every other type fails with 0 |
| Caste.IntStringRoundTrip | caste.go:198 | for every 64-bit int n, ToStringE(n) succeeds and ToIntE of that string returns n |
| Caste.BoolAgreesWithInt | caste.go:57-145 | where both ToBoolE and ToIntE accept a value, the boolean is the non-zero test of the integer |
| Caste.ConversionsSeeThroughPointers | caste.go:151-164 | plain pointers in front of a value change none of ToBoolE, ToIntE, ToStringE, ToDurationE |
| Caste.SameTerminalSameBool | caste.go:58 | values with the same `indirect` result convert to the same bool |
| Caste.SameTerminalSameInt | caste.go:113 | values with the same `indirect` result convert to the same int |
| Caste.SameTerminalSameDuration | caste.go:40 | values with the same `indirect` result convert to the same duration |
| Caste.SameStringerTerminalSameString | caste.go:189 | values with the same `indirectToStringerOrError` result convert to the same string |
| Caste.BoolWordsAsInts | caste.go:72 | of the twelve ParseBool spellings ParseInt accepts only "1" and "0", as 1 and 0 |
| Caste.FirstMatch | caste.go:384-391 | the index of the first layout that parses the string, or None exactly when every layout rejects it |
| Caste.ParseDateWith | caste.go:384-391 | succeeds exactly when some layout parses the string, with the parse of the first such layout, and with time.Time{} when none does |
| Caste.StringToDate | caste.go:366-382 | parseDateWith over the thirteen layouts in their fixed order |
| Caste.ToTimeE | caste.go:19-35 | a Time as it is, a string through StringToDate, everything else fails; every failure gives time.Time{} |
| Caste.RepeatedLayoutNeverChosen | caste.go:366-382 | the eleventh layout repeats RFC822, the sixth, so it is never the one chosen |
| Cast.ToBool | cast.go:14-17 | true exactly when ToBoolE succeeds with true |
| Cast.ToTime | cast.go:21-24 | ToTimeE's time, time.Time{} on failure |
| Cast.ToDuration | cast.go:28-31 | ToDurationE's value when it succeeds, 0 otherwise |
| Cast.ToInt | cast.go:42-45 | ToIntE's value when it succeeds, 0 otherwise |
| Cast.ToString | cast.go:49-52 | ToStringE's value when it succeeds, "" otherwise |
| Cast.ToIntOfToString | cast.go:42-52 | for every 64-bit int n, ToInt(ToString(n)) == n |
| CasteCollections.StoreByKey | caste.go:224-226 | the map a `range` loop storing val(v) under key(k) leaves: keys are the images of the source keys, each entry from a source entry with that key |
| CasteCollections.KeyedByInjective | caste.go:224-226 | when no two source keys share an image, every source entry survives under its image |
| CasteCollections.KeyText | caste.go:230 | ToString of a string key is the key |
| CasteCollections.StrText | caste.go:230 | ToString of a string value is the string |
| CasteCollections.OneText | caste.go:225 | ToString of the int 1 is "1" |
| CasteCollections.MapValues | caste.go:229-231 | same keys, each value converted |
| CasteCollections.KeysKept | caste.go:229-231 | from a map[string]interface{} every entry survives under its own key, its value converted |
| CasteCollections.ToStringMapStringE | caste.go:217-238 | map[interface{}]interface{}: keys and values through ToString; map[string]interface{}: same keys, values through ToString; map[string]string as it is; anything else fails with an empty non-nil map |
| CasteCollections.ToStringMapBoolE | caste.go:243-264 | as ToStringMapStringE with values through ToBool and map[string]bool passing through |
| CasteCollections.ToStringMapE | caste.go:269-285 | keys of map[interface{}]interface{} through ToString, values untouched; map[string]interface{} as it is; anything else fails with an empty non-nil map |
| CasteCollections.MixedKeysExample | caste.go:224-226 | {1: "x", "2": "y"} converts to {"1": "x", "2": "y"} |
| CasteCollections.KeyedByPair | caste.go:224-226 | two entries whose keys have distinct images both survive |
| CasteCollections.KeyedByCollision | caste.go:224-226 | two entries whose keys share an image leave one entry holding the converted value of one of them |
| CasteCollections.CollisionEitherWay | caste.go:224-226 | for two keys with the same image, keeping either converted value satisfies the relation |
| CasteCollections.CollidingKeysExample | caste.go:224-226 | {1: "x", "1": "y"} may become {"1": "x"} or {"1": "y"}: either outcome is allowed |
| CasteCollections.MapSeq | caste.go:319-321 | same length, element i converted from element i |
| CasteCollections.Append | caste.go:297 | appending never yields nil, keeps the existing elements in place and puts the new one last |
| CasteCollections.AppendAllStep | caste.go:296-303 | appending one element to the slice of xs gives the slice of xs + [x], so AppendAll is what the append loop builds |
| CasteCollections.AppendAll | caste.go:296-303 | appending the elements one by one to a nil slice gives those elements, and stays nil when there are none |
| CasteCollections.ToSliceE | caste.go:289-308 | []interface{} copied in order, []map[string]interface{} boxed element by element in order (nil when empty); anything else fails with a nil slice |
| CasteCollections.ToStringSliceE | caste.go:312-330 | []interface{} through ToString element by element in order (nil when empty), []string as it is, a string split into its fields; anything else fails with a nil slice |
| CasteCollections.Elements | caste.go:349-352 | defined exactly for the slice and array kinds; []interface{} and other slices give their elements, and []map[string]interface{}, []string, []int and []byte give one boxed element per entry, in order |
| CasteCollections.IntsOf | caste.go:350-357 | succeeds exactly when every element converts, and then element j is ToIntE of element j |
| CasteCollections.ToIntSliceE | caste.go:334-362 | nil fails; []int as it is; any other slice or array succeeds exactly when every element converts, with the same length and ToIntE element-wise; every failure gives an empty non-nil slice |
| CastCollections.ToStringMapString | cast.go:57-60 | ToStringMapStringE's map, empty and non-nil for unsupported input |
| CastCollections.ToStringMapBool | cast.go:65-68 | ToStringMapBoolE's map, empty and non-nil for unsupported input |
| CastCollections.ToStringMap | cast.go:73-76 | ToStringMapE's map, empty and non-nil for unsupported input |
| CastCollections.ToSlice | cast.go:80-83 | ToSliceE's slice, nil on failure |
| CastCollections.ToStringSlice | cast.go:87-90 | ToStringSliceE's slice, nil on failure |
| CastCollections.ToIntSlice | cast.go:94-97 | ToIntSliceE's slice, empty and non-nil on failure |

## Left out

- Aliasing and copying of maps and slices are not modelled. Go maps and slices are references, but here they are values. So the pass-through branches, which hand back the caller's own map or slice, cannot be told apart from the branches that build a fresh one. The pass-through branches are map[string]string in ToStringMapStringE (caste.go:233-234), map[string]bool in ToStringMapBoolE (caste.go:259-260), map[string]interface{} in ToStringMapE (caste.go:280-281), []string in ToStringSliceE (caste.go:323-324) and []int in ToIntSliceE (caste.go:342-343). The fresh ones are ToSliceE's loops (caste.go:295-304) and every converting branch. In Go, after a pass-through, a later write through either the argument or the result is seen through both; the model does not capture this sharing.
- ToFloat64E and ToFloat64 (caste.go:80-108, cast.go:35-38) are not modelled. Floating-point parsing and formatting are outside the model. A float64 value is the constructor `Float64(trunc, text)`, which carries the two observations the rest of the core makes of it: `int(f)` in ToIntE and `strconv.FormatFloat(f, 'f', -1, 64)` in ToStringE.
- time.Parse and time.ParseDuration are not modelled. They are parameters (`parse`, `parseDuration`) of the operations that call them, and only the order in which layouts are tried is modelled. `time.Time` is an abstract `Instant`.
- The text that `String()` and `Error()` methods return, and the String() text of time.Time and time.Duration, are opaque strings carried by the value. A nil pointer whose method would panic is out of scope: every method here simply returns its text.
- A type that has both `String()` and `Error()` is treated as a Stringer, since ToStringE tries fmt.Stringer first. Pointer method sets are therefore one of none, String or Error.
- Error values carry no message: the `%#v` text of the error messages is not modelled. Panics are not modelled.
- Cyclic pointer chains cannot be built from the `Value` datatype, so termination of the pointer walks is proved only for finite chains. A pointer to an interface variable is not distinguished from a pointer to its content: when `i` holds `&x`, Go's `indirect(&i)` stops at the non-nil pointer `&x` (it does not look inside the interface), so `ToIntE(&i)` fails, while the model follows on to `x`. Pointers are values here, not addresses: two distinct Go pointers to equal targets are the same `IfaceMap` key.
- Lexical.Fields uses the ASCII white-space set (space, \t, \n, \v, \f, \r). Unicode white space is not covered.
- Lexical.ParseInt follows the base-0 rules that predate "0b", "0o" and digit underscores. It assumes a 64-bit `int`.
- Go strings are byte strings. Here a string is a `seq<char>`, and `string([]byte)` maps each byte to one character.
- Reflection is replaced by the datatype. `CasteCollections.Elements` stands for `reflect.ValueOf(i).Index(j).Interface()`. It covers the slice types the datatype has, plus an `OtherSeq` for any other slice or array. User-defined types whose underlying kind is a slice are not distinguished.
- Which entry survives when two source keys stringify alike depends on Go's random map order. The map conversions deliberately do not say which. `KeyedByCollision` states that one of them does.

## Notes

- `StringToDate` lists thirteen date layouts (caste.go:367-381).
- The eleventh layout, "02 Jan 06 15:04 MST", repeats `time.RFC822`, which is already sixth. `Caste.RepeatedLayoutNeverChosen` shows it is never chosen, so the list behaves as one of twelve distinct layouts.

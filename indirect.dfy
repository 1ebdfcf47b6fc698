/** The two pointer-chasing normalisers of caste.go: `indirect`, used by every
    scalar coercion, and `indirectToStringerOrError`, used by ToStringE.
 */
module Indirection {
  import opened Values

  /** The values met by following non-nil pointers from v, v first. */
  function Path(v: Value): (p: seq<Value>)
    ensures |p| >= 1 && p[0] == v
    ensures forall i :: 0 <= i < |p| - 1 ==> NonNilPtr(p[i])
    ensures !NonNilPtr(p[|p| - 1])
    decreases v
  {
    if NonNilPtr(v) then [v] + Path(v.elem.value) else [v]
  }

  /** Each step of the path dereferences the pointer before it. */
  lemma {:induction false} PathFollowsPointers(v: Value, i: nat)
    requires i < |Path(v)| - 1
    ensures Path(v)[i + 1] == Path(v)[i].elem.value
    decreases v
  {
    if i > 0 {
      PathFollowsPointers(v.elem.value, i - 1);
    }
  }

  /** What `indirect` returns: the end of v's pointer path. */
  function Terminal(v: Value): (r: Value)
    ensures !NonNilPtr(r)
    ensures !v.Ptr? ==> r == v
    decreases v
  {
    if NonNilPtr(v) then Terminal(v.elem.value) else v
  }

  /** Terminal is the last value on the pointer path. */
  lemma {:induction false} TerminalEndsPath(v: Value)
    ensures Terminal(v) == Path(v)[|Path(v)| - 1]
    decreases v
  {
    if NonNilPtr(v) {
      TerminalEndsPath(v.elem.value);
    }
  }

  /** What `indirectToStringerOrError` returns: like Terminal, but the walk
      stops early at a value whose type implements fmt.Stringer or error. */
  function StringerTerminal(v: Value): (r: Value)
    ensures Implements(r) || !NonNilPtr(r)
    ensures Implements(v) || !v.Ptr? ==> r == v
    decreases v
  {
    if v == Nil then Nil
    else if Implements(v) || !NonNilPtr(v) then v
    else StringerTerminal(v.elem.value)
  }

  /** StringerTerminal is the first value on v's pointer path whose type
      implements fmt.Stringer or error, or the end of the path when none
      does. */
  lemma {:induction false} StringerTerminalOnPath(v: Value)
    ensures exists i :: 0 <= i < |Path(v)| && StringerTerminal(v) == Path(v)[i]
                        && (Implements(StringerTerminal(v)) || i == |Path(v)| - 1)
                        && forall j :: 0 <= j < i ==> !Implements(Path(v)[j])
    decreases v
  {
    if v != Nil && !Implements(v) && NonNilPtr(v) {
      var w := v.elem.value;
      StringerTerminalOnPath(w);
      var r := StringerTerminal(w);
      var i :| 0 <= i < |Path(w)| && r == Path(w)[i]
               && (Implements(r) || i == |Path(w)| - 1)
               && forall j :: 0 <= j < i ==> !Implements(Path(w)[j]);
      assert Path(v) == [v] + Path(w);
      assert StringerTerminal(v) == r;
      assert Path(v)[i + 1] == r;
      assert forall j :: 0 < j < i + 1 ==> Path(v)[j] == Path(w)[j - 1];
      assert forall j :: 0 <= j < i + 1 ==> !Implements(Path(v)[j]);
    } else {
      assert Path(v)[0] == v;
    }
  }

  /** caste.go `indirect`: nil stays nil, a non-pointer is returned as it is,
      otherwise pointers are followed until a non-pointer or a nil pointer. */
  method Indirect(a: Value) returns (r: Value)
    ensures r == Terminal(a)
    ensures a == Nil ==> r == Nil
    ensures !a.Ptr? ==> r == a
    ensures !NonNilPtr(r)
  {
    if a == Nil {
      return Nil;
    }
    if !a.Ptr? {
      return a;
    }
    var v := a;
    while v.Ptr? && v.elem.Some?
      invariant Terminal(v) == Terminal(a)
      decreases v
    {
      v := v.elem.value;
    }
    return v;
  }

  /** caste.go `indirectToStringerOrError`: like Indirect, but the walk stops
      at the first level whose type implements fmt.Stringer or error, even
      when that level is itself a pointer. */
  method IndirectToStringerOrError(a: Value) returns (r: Value)
    ensures r == StringerTerminal(a)
    ensures a == Nil ==> r == Nil
    ensures Implements(a) ==> r == a
    ensures Implements(r) || !NonNilPtr(r)
  {
    if a == Nil {
      return Nil;
    }
    var v := a;
    while !Implements(v) && v.Ptr? && v.elem.Some?
      invariant StringerTerminal(v) == StringerTerminal(a)
      decreases v
    {
      v := v.elem.value;
    }
    return v;
  }

  /** When no level of the path implements either interface, the two
      normalisers agree. */
  lemma {:induction false} StringerTerminalIsTerminal(v: Value)
    requires forall i :: 0 <= i < |Path(v)| ==> !Implements(Path(v)[i])
    ensures StringerTerminal(v) == Terminal(v)
    decreases v
  {
    assert !Implements(v) by { assert Path(v)[0] == v; }
    if NonNilPtr(v) {
      var w := v.elem.value;
      assert Path(v) == [v] + Path(w);
      assert forall i :: 0 <= i < |Path(w)| ==> !Implements(Path(w)[i]) by {
        forall i | 0 <= i < |Path(w)|
          ensures !Implements(Path(w)[i])
        {
          assert Path(w)[i] == Path(v)[i + 1];
        }
      }
      StringerTerminalIsTerminal(w);
      assert StringerTerminal(v) == StringerTerminal(w);
    }
  }

  /** v behind `depth` pointers of a type without String()/Error() methods. */
  function PointerTo(v: Value, depth: nat): Value
  {
    if depth == 0 then v else Ptr(Some(PointerTo(v, depth - 1)), NoMethods)
  }

  /** Any number of plain pointers in front of a value change nothing for
      either normaliser. */
  lemma {:induction false} PointersAreTransparent(v: Value, depth: nat)
    ensures Terminal(PointerTo(v, depth)) == Terminal(v)
    ensures StringerTerminal(PointerTo(v, depth)) == StringerTerminal(v)
  {
    if depth > 0 {
      PointersAreTransparent(v, depth - 1);
    }
  }
}

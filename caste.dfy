/** The strict scalar coercions of caste.go: each inspects the dynamic type of
    its (normalised) argument and returns a value with ok, or the zero value
    of the target type without ok.
 */
module Caste {
  import opened Values
  import opened Lexical
  import opened Indirection

  /** ToBoolE: bool as it is, nil as false, a plain int by a zero test, a
      string by strconv.ParseBool; every other dynamic type is refused. */
  function ToBoolE(v: Value): (r: Cast<bool>)
    ensures !r.ok ==> r.value == false
    ensures r.ok ==> match Terminal(v)
                     case Bool(_) => true
                     case Nil => true
                     case Int(w, _) => w == Native
                     case Str(s) => s in TrueWords + FalseWords
                     case _ => false
    ensures Terminal(v).Bool? ==> r == Ok(Terminal(v).b)
    ensures Terminal(v) == Nil ==> r == Ok(false)
    ensures Terminal(v).Int? && Terminal(v).width == Native ==> r == Ok(Terminal(v).n != 0)
    ensures Terminal(v).Str? ==> (r.ok <==> Terminal(v).s in TrueWords + FalseWords)
                                 && (r.value <==> Terminal(v).s in TrueWords)
  {
    match Terminal(v)
    case Bool(b) => Ok(b)
    case Nil => Ok(false)
    case Int(w, n) => if w == Native then Ok(n != 0) else Fail(false)
    case Str(s) => ParseBool(s)
    case _ => Fail(false)
  }

  /** ToIntE: every signed width as its value, a string by
      strconv.ParseInt(s, 0, 0), a float64 truncated, true/false as 1/0,
      nil as 0; everything else is refused. */
  function ToIntE(v: Value): (r: Cast<int>)
    ensures !r.ok ==> r.value == 0
    ensures r.ok ==> match Terminal(v)
                     case Int(_, _) => true
                     case Str(s) => ParseInt(s).Some?
                     case Float64(_, _) => true
                     case Bool(_) => true
                     case Nil => true
                     case _ => false
    ensures Terminal(v).Int? ==> r == Ok(Terminal(v).n)
    ensures Terminal(v).Str? ==> r.ok == ParseInt(Terminal(v).s).Some?
                                 && (r.ok ==> Some(r.value) == ParseInt(Terminal(v).s))
    ensures Terminal(v).Bool? ==> r == Ok(if Terminal(v).b then 1 else 0)
    ensures Terminal(v).Float64? ==> r == Ok(Terminal(v).trunc)
    ensures Terminal(v) == Nil ==> r == Ok(0)
  {
    match Terminal(v)
    case Int(_, n) => Ok(n)
    case Str(s) => (
      match ParseInt(s)
      case Some(n) => Ok(n)
      case None => Fail(0))
    case Float64(t, _) => Ok(t)
    case Bool(b) => Ok(if b then 1 else 0)
    case Nil => Ok(0)
    case _ => Fail(0)
  }

  /** string([]byte): each byte becomes one character. */
  function BytesText(b: seq<Byte>): (t: string)
    ensures |t| == |b| && forall i :: 0 <= i < |b| ==> t[i] as int == b[i]
  {
    seq(|b|, i requires 0 <= i < |b| => b[i] as char)
  }

  /** What the String() method (preferred) or the Error() method of v's
      dynamic type returns, if it has one. */
  function MethodText(v: Value): (t: Option<string>)
    ensures t.Some? <==> Implements(v)
  {
    match v
    case Stringer(text) => Some(text)
    case Time(_, text) => Some(text)
    case Duration(_, text) => Some(text)
    case Ptr(_, HasString(text)) => Some(text)
    case Error(msg) => Some(msg)
    case Ptr(_, HasError(msg)) => Some(msg)
    case _ => None
  }

  /** ToStringE: string, float64, a plain int in decimal, []byte,
      template.HTML, nil as "", then any fmt.Stringer or error by its
      method; everything else is refused. */
  function ToStringE(v: Value): (r: Cast<string>)
    ensures !r.ok ==> r.value == ""
    ensures r.ok <==> match StringerTerminal(v)
                      case Str(_) => true
                      case Float64(_, _) => true
                      case Int(w, _) => w == Native
                      case Bytes(_) => true
                      case HTML(_) => true
                      case Nil => true
                      case _ => Implements(StringerTerminal(v))
    ensures StringerTerminal(v).Str? ==> r == Ok(StringerTerminal(v).s)
    ensures StringerTerminal(v).HTML? ==> r == Ok(StringerTerminal(v).html)
    ensures StringerTerminal(v).Bytes? ==> r == Ok(BytesText(StringerTerminal(v).bytes))
    ensures StringerTerminal(v).Float64? ==> r == Ok(StringerTerminal(v).text)
    ensures StringerTerminal(v) == Nil ==> r == Ok("")
    ensures StringerTerminal(v).Int? && StringerTerminal(v).width == Native
            && InRange(Native, StringerTerminal(v).n)
            ==> ParseInt(r.value) == Some(StringerTerminal(v).n)
    ensures StringerTerminal(v).Int? && StringerTerminal(v).width == Native
            ==> r == Ok(FormatInt(StringerTerminal(v).n))
    ensures Implements(StringerTerminal(v)) ==> Some(r.value) == MethodText(StringerTerminal(v))
  {
    var u := StringerTerminal(v);
    match u
    case Str(s) => Ok(s)
    case Float64(_, text) => Ok(text)
    case Int(w, n) =>
      if w == Native then
        assert InRange(Native, n) ==> ParseInt(FormatInt(n)) == Some(n) by {
          if InRange(Native, n) { ParseFormatInt(n); }
        }
        Ok(FormatInt(n))
      else Fail("")
    case Bytes(b) => Ok(BytesText(b))
    case HTML(h) => Ok(h)
    case Nil => Ok("")
    case _ =>
      match MethodText(u)
      case Some(text) => Ok(text)
      case None => Fail("")
  }

  /** ToDurationE: a time.Duration as it is, a string through
      time.ParseDuration (given as `parseDuration`); everything else is
      refused. */
  function ToDurationE(v: Value, parseDuration: string -> Option<int>): (r: Cast<int>)
    ensures !r.ok ==> r.value == 0
    ensures Terminal(v).Duration? ==> r == Ok(Terminal(v).d)
    ensures Terminal(v).Str? ==> r.ok == parseDuration(Terminal(v).s).Some?
                                 && (r.ok ==> Some(r.value) == parseDuration(Terminal(v).s))
    ensures !Terminal(v).Duration? && !Terminal(v).Str? ==> !r.ok
  {
    match Terminal(v)
    case Duration(d, _) => Ok(d)
    case Str(s) => (
      match parseDuration(s)
      case Some(d) => Ok(d)
      case None => Fail(0))
    case _ => Fail(0)
  }

  // ------------------------------------------------------------ properties

  /** Every int renders to a string that converts back to the same int. */
  lemma IntStringRoundTrip(n: int)
    requires InRange(Native, n)
    ensures ToStringE(Int(Native, n)).ok
    ensures ToIntE(Str(ToStringE(Int(Native, n)).value)) == Ok(n)
  {
    ParseFormatInt(n);
  }

  /** Where both conversions accept a value, the boolean is the non-zero test
      of the integer ("1" and "0" are the only strings both accept). */
  lemma BoolAgreesWithInt(v: Value)
    requires ToBoolE(v).ok && ToIntE(v).ok
    ensures ToBoolE(v).value == (ToIntE(v).value != 0)
  {
    var u := Terminal(v);
    if u.Str? {
      BoolWordsAsInts(u.s);
    }
  }

  /** Of the twelve ParseBool spellings, ParseInt accepts just "1" and "0",
      with the values 1 and 0. */
  lemma BoolWordsAsInts(s: string)
    requires s in TrueWords + FalseWords && ParseInt(s).Some?
    ensures s == "1" || s == "0"
    ensures ParseInt(s) == Some(if s == "1" then 1 else 0)
  {
    if s != "1" && s != "0" {
      assert Digit(s[0]) == None || Digit(s[0]).value >= 10;
      assert s[0] != '0' && s[0] != '+' && s[0] != '-';
      NotDecimal(s);
    }
  }

  /** Pointers of plain pointer types in front of a value change no scalar
      conversion. */
  lemma ConversionsSeeThroughPointers(v: Value, depth: nat, parseDuration: string -> Option<int>)
    ensures ToBoolE(PointerTo(v, depth)) == ToBoolE(v)
    ensures ToIntE(PointerTo(v, depth)) == ToIntE(v)
    ensures ToStringE(PointerTo(v, depth)) == ToStringE(v)
    ensures ToDurationE(PointerTo(v, depth), parseDuration) == ToDurationE(v, parseDuration)
  {
    var p := PointerTo(v, depth);
    PointersAreTransparent(v, depth);
    SameTerminalSameBool(p, v);
    SameTerminalSameInt(p, v);
    SameTerminalSameDuration(p, v, parseDuration);
    SameStringerTerminalSameString(p, v);
  }

  /** The conversions that normalise with `indirect` see only its result. */
  lemma SameTerminalSameBool(a: Value, b: Value)
    requires Terminal(a) == Terminal(b)
    ensures ToBoolE(a) == ToBoolE(b)
  {
  }

  lemma SameTerminalSameInt(a: Value, b: Value)
    requires Terminal(a) == Terminal(b)
    ensures ToIntE(a) == ToIntE(b)
  {
  }

  lemma SameTerminalSameDuration(a: Value, b: Value, parseDuration: string -> Option<int>)
    requires Terminal(a) == Terminal(b)
    ensures ToDurationE(a, parseDuration) == ToDurationE(b, parseDuration)
  {
  }

  /** ToStringE sees only the result of `indirectToStringerOrError`. */
  lemma SameStringerTerminalSameString(a: Value, b: Value)
    requires StringerTerminal(a) == StringerTerminal(b)
    ensures ToStringE(a) == ToStringE(b)
  {
  }

  // ------------------------------------------------------------ dates

  const RFC3339 := "2006-01-02T15:04:05Z07:00"
  const RFC1123Z := "Mon, 02 Jan 2006 15:04:05 -0700"
  const RFC1123 := "Mon, 02 Jan 2006 15:04:05 MST"
  const RFC822Z := "02 Jan 06 15:04 -0700"
  const RFC822 := "02 Jan 06 15:04 MST"
  const ANSIC := "Mon Jan _2 15:04:05 2006"
  const UnixDate := "Mon Jan _2 15:04:05 MST 2006"
  const RubyDate := "Mon Jan 02 15:04:05 -0700 2006"

  /** The layouts StringToDate tries, in the order it tries them. */
  const DateLayouts: seq<string> := [
    RFC3339,
    "2006-01-02T15:04:05",
    RFC1123Z,
    RFC1123,
    RFC822Z,
    RFC822,
    ANSIC,
    UnixDate,
    RubyDate,
    "2006-01-02 15:04:05Z07:00",
    "02 Jan 06 15:04 MST",
    "2006-01-02",
    "02 Jan 2006"
  ]

  /** The index of the first layout that `parse` (time.Parse) accepts s with. */
  function FirstMatch(s: string, layouts: seq<string>, parse: (string, string) -> Option<Instant>): (r: Option<nat>)
    ensures r.Some? ==> r.value < |layouts| && parse(layouts[r.value], s).Some?
                        && forall j :: 0 <= j < r.value ==> parse(layouts[j], s).None?
    ensures r.None? <==> forall j :: 0 <= j < |layouts| ==> parse(layouts[j], s).None?
    decreases |layouts|
  {
    if layouts == [] then None
    else if parse(layouts[0], s).Some? then Some(0)
    else
      match FirstMatch(s, layouts[1..], parse)
      case None => None
      case Some(i) => Some(i + 1)
  }

  /** caste.go parseDateWith: try the layouts in order and return the first
      successful parse; when all fail, time.Time{} and an error. */
  method ParseDateWith(s: string, layouts: seq<string>, parse: (string, string) -> Option<Instant>)
    returns (d: Instant, ok: bool)
    ensures ok <==> FirstMatch(s, layouts, parse).Some?
    ensures ok ==> Some(d) == parse(layouts[FirstMatch(s, layouts, parse).value], s)
    ensures !ok ==> d == ZeroTime
  {
    for i := 0 to |layouts|
      invariant forall j :: 0 <= j < i ==> parse(layouts[j], s).None?
    {
      var p := parse(layouts[i], s);
      if p.Some? {
        assert FirstMatch(s, layouts, parse) == Some(i);
        return p.value, true;
      }
    }
    return ZeroTime, false;
  }

  /** caste.go StringToDate: parseDateWith over the thirteen fixed layouts. */
  method StringToDate(s: string, parse: (string, string) -> Option<Instant>) returns (d: Instant, ok: bool)
    ensures ok <==> exists j :: 0 <= j < |DateLayouts| && parse(DateLayouts[j], s).Some?
    ensures ok ==> Some(d) == parse(DateLayouts[FirstMatch(s, DateLayouts, parse).value], s)
    ensures !ok ==> d == ZeroTime
  {
    d, ok := ParseDateWith(s, DateLayouts, parse);
  }

  /** ToTimeE: a time.Time as it is, a string through StringToDate;
      everything else is refused with time.Time{}. */
  method ToTimeE(v: Value, parse: (string, string) -> Option<Instant>) returns (t: Instant, ok: bool)
    ensures Terminal(v).Time? ==> ok && t == Terminal(v).t
    ensures Terminal(v).Str? ==> (ok <==> FirstMatch(Terminal(v).s, DateLayouts, parse).Some?)
    ensures Terminal(v).Str? && ok ==>
              Some(t) == parse(DateLayouts[FirstMatch(Terminal(v).s, DateLayouts, parse).value], Terminal(v).s)
    ensures !Terminal(v).Time? && !Terminal(v).Str? ==> !ok
    ensures !ok ==> t == ZeroTime
  {
    var i := Indirect(v);
    match i
    case Time(tm, _) =>
      return tm, true;
    case Str(s) =>
      var dt, e := StringToDate(s, parse);
      if e {
        return dt, true;
      }
      return ZeroTime, false;
    case _ =>
      return ZeroTime, false;
  }

  /** The eleventh layout repeats RFC822 (the sixth), so StringToDate never
      picks it: whatever it accepts, RFC822 accepted first. */
  lemma RepeatedLayoutNeverChosen(s: string, parse: (string, string) -> Option<Instant>)
    ensures DateLayouts[10] == DateLayouts[5]
    ensures FirstMatch(s, DateLayouts, parse) != Some(10)
  {
  }
}

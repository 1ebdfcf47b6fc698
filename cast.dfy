/** The best-effort scalar layer of cast.go: each wrapper calls its strict
    counterpart and drops the error, so it yields the zero value of its type
    whenever the strict call fails.
 */
module Cast {
  import opened Values
  import opened Indirection
  import opened Caste

  /** ToBool is true exactly when the strict conversion succeeds with true. */
  function ToBool(v: Value): (r: bool)
    ensures r <==> ToBoolE(v).ok && ToBoolE(v).value
  {
    ToBoolE(v).value
  }

  /** ToInt is the strict result when there is one, and 0 otherwise. */
  function ToInt(v: Value): (r: int)
    ensures ToIntE(v).ok ==> r == ToIntE(v).value
    ensures !ToIntE(v).ok ==> r == 0
  {
    ToIntE(v).value
  }

  /** ToString is the strict result when there is one, and "" otherwise. */
  function ToString(v: Value): (r: string)
    ensures ToStringE(v).ok ==> r == ToStringE(v).value
    ensures !ToStringE(v).ok ==> r == ""
  {
    ToStringE(v).value
  }

  /** ToDuration is the strict result when there is one, and 0 otherwise. */
  function ToDuration(v: Value, parseDuration: string -> Option<int>): (r: int)
    ensures ToDurationE(v, parseDuration).ok ==> r == ToDurationE(v, parseDuration).value
    ensures !ToDurationE(v, parseDuration).ok ==> r == 0
  {
    ToDurationE(v, parseDuration).value
  }

  /** ToTime: the strict result, or time.Time{} when ToTimeE fails. */
  method ToTime(v: Value, parse: (string, string) -> Option<Instant>) returns (t: Instant)
    ensures Terminal(v).Time? ==> t == Terminal(v).t
    ensures Terminal(v).Str? && FirstMatch(Terminal(v).s, DateLayouts, parse).Some? ==>
              Some(t) == parse(DateLayouts[FirstMatch(Terminal(v).s, DateLayouts, parse).value], Terminal(v).s)
    ensures Terminal(v).Str? && FirstMatch(Terminal(v).s, DateLayouts, parse).None? ==> t == ZeroTime
    ensures !Terminal(v).Time? && !Terminal(v).Str? ==> t == ZeroTime
  {
    var ok;
    t, ok := ToTimeE(v, parse);
  }

  /** The string of an int reads back as that int through the best-effort
      layer too. */
  lemma ToIntOfToString(n: int)
    requires InRange(Native, n)
    ensures ToInt(Str(ToString(Int(Native, n)))) == n
  {
    IntStringRoundTrip(n);
  }
}

/** The event id in the path of PUT /api/events/<id>: how the client writes
    an id into the path (a JavaScript template literal renders the number in
    decimal, with a leading '-' when it is negative) and how the route turns
    the path segment back into an id. */
module Route {
  import opened Api

  predicate IsDigit(c: char) { '0' <= c <= '9' }

  predicate AllDigits(s: string) {
    forall k :: 0 <= k < |s| ==> IsDigit(s[k])
  }

  function DigitChar(d: nat): (c: char)
    requires d < 10
    ensures IsDigit(c) && c as int - '0' as int == d
  {
    ('0' as int + d) as char
  }

  /** The decimal digits of n, most significant first, without leading
      zeros. */
  function NatText(n: nat): (s: string)
    ensures |s| >= 1 && AllDigits(s)
    ensures n >= 10 ==> s[0] != '0'
  {
    if n < 10 then [DigitChar(n)] else NatText(n / 10) + [DigitChar(n % 10)]
  }

  /** The value of a string of decimal digits. */
  function DigitsValue(s: string): nat
    requires AllDigits(s)
  {
    if |s| == 0 then 0 else DigitsValue(s[..|s| - 1]) * 10 + (s[|s| - 1] as int - '0' as int)
  }

  /** Reading back the digits of n gives n. */
  lemma {:induction false} DigitsValueOfNatText(n: nat)
    ensures DigitsValue(NatText(n)) == n
  {
    if n >= 10 {
      DigitsValueOfNatText(n / 10);
      var s := NatText(n);
      assert s[..|s| - 1] == NatText(n / 10);
    }
  }

  /** An id as the client writes it into the path. */
  function IdText(id: int): (s: string)
    ensures |s| >= 1
    ensures id < 0 <==> s[0] == '-'
  {
    if id < 0 then "-" + NatText(-id) else NatText(id)
  }

  /** Flask's <int:event_id> as the backend declares it: the segment must be
      one or more digits, so no negative id is ever routed. */
  function UnsignedRouteId(segment: string): (r: Option<int>)
    ensures r.Some? <==> |segment| >= 1 && AllDigits(segment)
    ensures r.Some? ==> r.value >= 0
  {
    if |segment| >= 1 && AllDigits(segment) then Some(DigitsValue(segment)) else None
  }

  /** With the unsigned route, the path the client builds for any negative
      id, such as the ids -1, -2, ... of generated events, matches no route. */
  lemma NegativeIdsUnroutable(id: int)
    requires id < 0
    ensures UnsignedRouteId(IdText(id)) == None
  {
    assert !IsDigit(IdText(id)[0]);
  }

  /** The route the update handler needs, <int(signed=True):event_id>: an
      optional '-' followed by one or more digits. */
  function SignedRouteId(segment: string): (r: Option<int>)
    ensures r.Some? <==> ((|segment| >= 1 && AllDigits(segment))
                          || (|segment| >= 2 && segment[0] == '-' && AllDigits(segment[1..])))
    ensures r.Some? && |segment| >= 1 && segment[0] == '-' ==> r.value <= 0
    ensures r.Some? && |segment| >= 1 && segment[0] != '-' ==> r.value >= 0
  {
    if |segment| >= 1 && AllDigits(segment) then Some(DigitsValue(segment))
    else if |segment| >= 2 && segment[0] == '-' && AllDigits(segment[1..]) then Some(0 - DigitsValue(segment[1..]) as int)
    else None
  }

  /** With the signed route every id the client writes, negative ones
      included, is routed back to itself. */
  lemma SignedRouteRoundTrip(id: int)
    ensures SignedRouteId(IdText(id)) == Some(id)
  {
    var s := IdText(id);
    if id < 0 {
      assert s[1..] == NatText(-id) && AllDigits(s[1..]);
      assert !AllDigits(s) by {
        assert !IsDigit(s[0]);
      }
      assert DigitsValue(s[1..]) == -id by {
        DigitsValueOfNatText(-id);
      }
    } else {
      DigitsValueOfNatText(id);
    }
  }

  /** Both routes agree on every id that is not negative. */
  lemma RoutesAgreeOnNonNegative(id: int)
    requires id >= 0
    ensures UnsignedRouteId(IdText(id)) == SignedRouteId(IdText(id)) == Some(id)
  {
    DigitsValueOfNatText(id);
  }
}

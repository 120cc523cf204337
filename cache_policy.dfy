/** `CacheInfo` of src/Cache.cpp: response headers are fed in one at a time and decide
    whether, and until when, a response is cached. It follows a subset of section 5.2
    (Cache-Control) and section 5.3 (Expires) of RFC 7234. The HTTP date after "Expires: "
    is turned into a time by `sscanf` and `mktime`; here that is the parameter
    `dateOf`, and `time(NULL)` is `now`. */
module CachePolicy {
  import opened CString

  const DefaultMaxAge: int := 3600
  const MinimumCacheTime: int := 300
  const ExpiresHeader: string := "Expires: "
  const CacheControlHeader: string := "Cache-control: "
  const NoStore: string := "no-store"
  const NoCache: string := "no-cache"
  const MaxAgeZero: string := "max-age=0"
  const MaxAge: string := "max-age="

  /** The three fields of a `CacheInfo`. */
  datatype Verdict = Verdict(cacheControlFound: bool, cacheable: bool, expiry: int)

  /** `CacheInfo()`: cacheable for the default lifetime until a header says otherwise. */
  function Initial(now: int): (v: Verdict)
    ensures !v.cacheControlFound && v.cacheable && v.expiry == now + DefaultMaxAge
  {
    Verdict(false, true, now + DefaultMaxAge)
  }

  /** A Cache-Control value that forbids caching: `no-cache`, `no-store` or `max-age=0`
      anywhere in the header line. */
  predicate Forbids(header: string)
  {
    Contains(header, NoCache) || Contains(header, NoStore) || Contains(header, MaxAgeZero)
  }

  /** The position just past the first `max-age=`, when there is one. */
  function MaxAgeValueAt(header: string): int
  {
    var p := Find(header, MaxAge);
    if p < 0 then -1 else p + |MaxAge|
  }

  /** `ProcessCacheControl`: a header line no longer than "Cache-control: " is ignored; a
      forbidding directive makes the response uncacheable; otherwise it is cacheable for
      `max-age` seconds, or for the default lifetime without one. A `max-age=` that ends
      the line leaves the expiry as it was. */
  function AfterCacheControl(v: Verdict, header: string, now: int): (r: Verdict)
    ensures r.cacheControlFound == v.cacheControlFound
    ensures |header| <= |CacheControlHeader| ==> r == v
    ensures |header| > |CacheControlHeader| ==> (r.cacheable <==> !Forbids(header))
    ensures |header| > |CacheControlHeader| && Forbids(header) ==> r.expiry == 0
    ensures |header| > |CacheControlHeader| && !Forbids(header) && MaxAgeValueAt(header) < 0 ==>
      r.expiry == now + DefaultMaxAge
    ensures |header| > |CacheControlHeader| && !Forbids(header) && 0 <= MaxAgeValueAt(header) < |header| ==>
      r.expiry == now + Atol(header[MaxAgeValueAt(header)..])
    ensures |header| > |CacheControlHeader| && !Forbids(header) && MaxAgeValueAt(header) >= |header| ==>
      r.expiry == v.expiry
  {
    if |header| < |CacheControlHeader| + 1 then v
    else if Forbids(header) then v.(cacheable := false, expiry := 0)
    else
      var q := MaxAgeValueAt(header);
      if q < 0 then v.(cacheable := true, expiry := now + DefaultMaxAge)
      else if q >= |header| then v.(cacheable := true)
      else v.(cacheable := true, expiry := now + Atol(header[q..]))
  }

  predicate IsExpires(header: string)
  {
    PrefixIgnoringCase(ExpiresHeader, header)
  }

  predicate IsCacheControl(header: string)
  {
    PrefixIgnoringCase(CacheControlHeader, header)
  }

  /** `ParseHeader`: an Expires line sets the expiry (uncacheable if already past) unless a
      Cache-Control line came first; a Cache-Control line is recorded and processed; any
      other line is ignored. */
  function AfterHeader(v: Verdict, header: string, now: int, dateOf: string -> int): (r: Verdict)
    ensures r.cacheControlFound <==> v.cacheControlFound || (!IsExpires(header) && IsCacheControl(header))
  {
    if IsExpires(header) then
      if v.cacheControlFound then v
      else
        var expires := dateOf(header[|ExpiresHeader|..]);
        v.(expiry := expires, cacheable := if expires < now then false else v.cacheable)
    else if IsCacheControl(header) then
      AfterCacheControl(v.(cacheControlFound := true), header, now)
    else v
  }

  /** The header lines of one response, in order. */
  function AfterHeaders(v: Verdict, headers: seq<string>, now: int, dateOf: string -> int): Verdict
    decreases |headers|
  {
    if headers == [] then v else AfterHeaders(AfterHeader(v, headers[0], now, dateOf), headers[1..], now, dateOf)
  }

  /** `ShouldCache`: cacheable, and for more than the minimum time from now. */
  predicate Worthwhile(v: Verdict, now: int)
  {
    v.cacheable && v.expiry > now + MinimumCacheTime
  }

  function WithoutExpires(headers: seq<string>): (r: seq<string>)
    ensures forall h :: h in r ==> h in headers && !IsExpires(h)
  {
    if headers == [] then []
    else (if IsExpires(headers[0]) then [] else [headers[0]]) + WithoutExpires(headers[1..])
  }

  lemma CacheControlIsNotExpires(header: string)
    requires IsCacheControl(header)
    ensures !IsExpires(header)
  {
    assert Lower(header[0]) == 'c';
  }

  /** Once a Cache-Control line has been seen, the Expires lines that follow change nothing:
      the outcome is that of the remaining lines without them. */
  lemma {:induction false} ExpiresIgnoredAfterCacheControl(v: Verdict, headers: seq<string>, now: int, dateOf: string -> int)
    requires v.cacheControlFound
    ensures AfterHeaders(v, headers, now, dateOf) == AfterHeaders(v, WithoutExpires(headers), now, dateOf)
    ensures AfterHeaders(v, headers, now, dateOf).cacheControlFound
    decreases |headers|
  {
    if headers != [] {
      var h := headers[0];
      var v' := AfterHeader(v, h, now, dateOf);
      ExpiresIgnoredAfterCacheControl(v', headers[1..], now, dateOf);
      var rest := WithoutExpires(headers[1..]);
      if IsExpires(h) {
        assert WithoutExpires(headers) == rest;
      } else {
        assert WithoutExpires(headers) == [h] + rest;
        assert ([h] + rest)[1..] == rest;
      }
    }
  }

  /** A forbidding Cache-Control line settles the matter: no Expires line after it makes the
      response cacheable again. */
  lemma ForbiddingSettles(v: Verdict, c: string, expiresLines: seq<string>, now: int, dateOf: string -> int)
    requires IsCacheControl(c) && |c| > |CacheControlHeader| && Forbids(c)
    requires forall h :: h in expiresLines ==> IsExpires(h)
    ensures var r := AfterHeaders(v, [c] + expiresLines, now, dateOf);
      !r.cacheable && r.expiry == 0 && !Worthwhile(r, now)
  {
    CacheControlIsNotExpires(c);
    var v' := AfterHeader(v, c, now, dateOf);
    assert ([c] + expiresLines)[1..] == expiresLines;
    ExpiresIgnoredAfterCacheControl(v', expiresLines, now, dateOf);
  }

  /** An Expires date in the past, seen before any Cache-Control line, makes the response
      uncacheable. */
  lemma PastExpiresClears(v: Verdict, e: string, now: int, dateOf: string -> int)
    requires !v.cacheControlFound && IsExpires(e)
    requires dateOf(e[|ExpiresHeader|..]) < now
    ensures var r := AfterHeader(v, e, now, dateOf);
      !r.cacheable && !r.cacheControlFound && !Worthwhile(r, now)
  {
  }

  /** Cache-Control takes precedence over Expires whichever comes first, as long as the
      Cache-Control line says more than its name and does not end in a bare `max-age=`. */
  lemma CacheControlTakesPrecedence(e: string, c: string, now: int, dateOf: string -> int)
    requires IsExpires(e) && IsCacheControl(c) && |c| > |CacheControlHeader|
    requires MaxAgeValueAt(c) != |c|
    ensures AfterHeaders(Initial(now), [e, c], now, dateOf) == AfterHeaders(Initial(now), [c, e], now, dateOf)
  {
    CacheControlIsNotExpires(c);
    var v := Initial(now);
    assert [e, c][1..] == [c] && [c, e][1..] == [e] && [c][1..] == [] && [e][1..] == [];
    var afterE := AfterHeader(v, e, now, dateOf);
    var afterC := AfterHeader(v, c, now, dateOf);
    assert AfterHeaders(v, [e, c], now, dateOf) == AfterHeaders(afterE, [c], now, dateOf);
    assert AfterHeaders(afterE, [c], now, dateOf) == AfterHeaders(AfterHeader(afterE, c, now, dateOf), [], now, dateOf);
    assert AfterHeaders(v, [c, e], now, dateOf) == AfterHeaders(afterC, [e], now, dateOf);
    assert AfterHeaders(afterC, [e], now, dateOf) == AfterHeaders(AfterHeader(afterC, e, now, dateOf), [], now, dateOf);
    var q := MaxAgeValueAt(c);
    assert q >= 0 ==> q <= |c| by {
      if q >= 0 {
        OccursAtChars(c, MaxAge, q - |MaxAge|, 0);
      }
    }
  }

  /** The line "Cache-control: max-age=" followed by the digits of `tail` (no leading 0):
      it holds no forbidding directive and its first `max-age=` is the one at position 15. */
  lemma MaxAgeLine(tail: string)
    requires AllDigits(tail) && (tail == [] || tail[0] != '0')
    ensures var h := CacheControlHeader + MaxAge + tail;
      IsCacheControl(h) && !IsExpires(h) && !Forbids(h) && MaxAgeValueAt(h) == 23
  {
    var h := "Cache-control: max-age=" + tail;
    assert CacheControlHeader + MaxAge + tail == h;
    MaxAgeLineTail(tail, h);
    MaxAgeLineNoDirective(tail, h);
    MaxAgeLineFirstMaxAge(h);
    assert h[..15] == CacheControlHeader;
    assert Lower(h[0]) != Lower(ExpiresHeader[0]);
  }

  lemma MaxAgeLineTail(tail: string, h: string)
    requires AllDigits(tail) && h == "Cache-control: max-age=" + tail
    ensures |h| == 23 + |tail|
    ensures forall k :: 23 <= k < |h| ==> IsDigit(h[k])
  {
    forall k | 23 <= k < |h| ensures IsDigit(h[k]) {
      assert h[k] == tail[k - 23];
    }
  }

  lemma MaxAgeLineNoDirective(tail: string, h: string)
    requires h == "Cache-control: max-age=" + tail
    requires tail == [] || tail[0] != '0'
    requires forall k :: 23 <= k < |h| ==> IsDigit(h[k])
    ensures !Forbids(h)
  {
    NoDirectiveStartingWithN(h, NoCache);
    NoDirectiveStartingWithN(h, NoStore);
    forall k | 0 <= k ensures !OccursAt(h, MaxAgeZero, k) {
      if OccursAt(h, MaxAgeZero, k) {
        OccursAtChars(h, MaxAgeZero, k, 0);
        OccursAtChars(h, MaxAgeZero, k, 8);
      }
    }
  }

  /** Only "control" has an `n` in the line, and it is followed by `t`, so no "no-..." word
      occurs in it. */
  lemma NoDirectiveStartingWithN(h: string, pat: string)
    requires |h| >= 23 && h[..23] == "Cache-control: max-age="
    requires forall k :: 23 <= k < |h| ==> IsDigit(h[k])
    requires |pat| >= 2 && pat[..2] == "no"
    ensures !Contains(h, pat)
  {
    assert pat[0] == 'n' && pat[1] == 'o' by {
      assert pat[0] == pat[..2][0] && pat[1] == pat[..2][1];
    }
    forall k | 0 <= k ensures !OccursAt(h, pat, k) {
      if k < 23 {
        assert h[k] == h[..23][k];
      }
      if k + 1 < 23 {
        assert h[k + 1] == h[..23][k + 1];
      }
      if OccursAt(h, pat, k) {
        OccursAtChars(h, pat, k, 0);
        OccursAtChars(h, pat, k, 1);
      }
    }
  }

  lemma MaxAgeLineFirstMaxAge(h: string)
    requires |h| >= 23 && h[..23] == "Cache-control: max-age="
    ensures MaxAgeValueAt(h) == 23
  {
    forall k | 0 <= k < 15 ensures !OccursAt(h, MaxAge, k) {
      assert h[k] == h[..23][k];
      if OccursAt(h, MaxAge, k) {
        OccursAtChars(h, MaxAge, k, 0);
      }
    }
    assert h[15..23] == h[..23][15..23];
    assert OccursAt(h, MaxAge, 15);
  }

  /** "Cache-control: max-age=N" with N > 0 makes a response cacheable for N seconds, so it
      is stored exactly when N exceeds the minimum caching time. */
  lemma MaxAgeDecides(n: nat, now: int, dateOf: string -> int)
    requires n > 0
    ensures var r := AfterHeader(Initial(now), CacheControlHeader + MaxAge + NatToDecimal(n), now, dateOf);
      r == Verdict(true, true, now + n) && (Worthwhile(r, now) <==> n > MinimumCacheTime)
  {
    var d := NatToDecimal(n);
    NoLeadingZero(n);
    MaxAgeLine(d);
    var h := CacheControlHeader + MaxAge + d;
    assert h[23..] == d;
    AtoiOfDecimal(n);
  }

  /** A Cache-Control line with a value after its first `max-age=` and no forbidding
      directive makes the response cacheable until `now` plus that value. */
  lemma MaxAgeValueDecides(v: Verdict, h: string, now: int, dateOf: string -> int)
    requires IsCacheControl(h) && |h| > |CacheControlHeader| && !Forbids(h)
    requires 0 <= MaxAgeValueAt(h) < |h|
    ensures AfterHeader(v, h, now, dateOf)
      == v.(cacheControlFound := true, cacheable := true, expiry := now + Atol(h[MaxAgeValueAt(h)..]))
  {
    CacheControlIsNotExpires(h);
  }

  /** Any line that starts with the Cache-Control name is a Cache-Control line. */
  lemma CacheControlLine(rest: string)
    ensures IsCacheControl(CacheControlHeader + rest)
  {
    var h := CacheControlHeader + rest;
    forall i | 0 <= i < |CacheControlHeader| ensures Lower(CacheControlHeader[i]) == Lower(h[i]) {
      assert h[i] == CacheControlHeader[i];
    }
  }

  /** The last two of five joined sequences start after the first three, and the first one
      starts the whole. */
  lemma FiveJoined<T>(a: seq<T>, b: seq<T>, c: seq<T>, d: seq<T>, e: seq<T>)
    ensures (a + b + c + d + e)[|a| + |b| + |c|..] == d + e
    ensures a + b + c + d + e == a + (b + c + d + e)
  {
    assert a + b + c + d + e == (a + b + c) + (d + e);
  }

  /** The shape of a line holding `max-age=N` followed by a non-digit: a Cache-Control line
      whose text after `max-age=` reads as N. */
  lemma MaxAgeDigitsRead(h: string, before: string, n: nat, after: string)
    requires h == CacheControlHeader + before + MaxAge + NatToDecimal(n) + after
    requires after == [] || !IsDigit(after[0])
    ensures var q := |CacheControlHeader| + |before| + |MaxAge|;
      q < |h| && Atol(h[q..]) == n && IsCacheControl(h)
  {
    FiveJoined(CacheControlHeader, before, MaxAge, NatToDecimal(n), after);
    AtolOfDecimalThen(n, after);
    CacheControlLine(before + MaxAge + NatToDecimal(n) + after);
  }

  /** `max-age=N` among other directives: when the first `max-age=` of a Cache-Control
      line `h` is followed by the digits of N and then by something other than a digit, the
      line, whatever comes before and after, makes the response cacheable until `now + N`. */
  lemma MaxAgeAmongDirectives(v: Verdict, h: string, before: string, n: nat, after: string, now: int, dateOf: string -> int)
    requires h == CacheControlHeader + before + MaxAge + NatToDecimal(n) + after
    requires MaxAgeValueAt(h) == |CacheControlHeader| + |before| + |MaxAge| && !Forbids(h)
    requires after == [] || !IsDigit(after[0])
    ensures AfterCacheControl(v, h, now) == v.(cacheable := true, expiry := now + n)
    ensures AfterHeader(v, h, now, dateOf) == v.(cacheControlFound := true, cacheable := true, expiry := now + n)
  {
    MaxAgeDigitsRead(h, before, n, after);
    MaxAgeValueDecides(v, h, now, dateOf);
  }

  /** A Cache-Control line with nothing after its name changes no field but still counts as
      seen, so an Expires line after it is ignored while one before it is used. */
  lemma EmptyCacheControlBlocksExpires(e: string, c: string, now: int, dateOf: string -> int)
    requires IsExpires(e) && IsCacheControl(c) && |c| <= |CacheControlHeader|
    ensures AfterHeaders(Initial(now), [c, e], now, dateOf) == Verdict(true, true, now + DefaultMaxAge)
    ensures var date := dateOf(e[|ExpiresHeader|..]);
      AfterHeaders(Initial(now), [e, c], now, dateOf) == Verdict(true, date >= now, date)
  {
    CacheControlIsNotExpires(c);
    var v := Initial(now);
    assert [e, c][1..] == [c] && [c, e][1..] == [e] && [c][1..] == [] && [e][1..] == [];
    var afterE := AfterHeader(v, e, now, dateOf);
    var afterC := AfterHeader(v, c, now, dateOf);
    assert AfterHeaders(v, [e, c], now, dateOf) == AfterHeaders(afterE, [c], now, dateOf);
    assert AfterHeaders(afterE, [c], now, dateOf) == AfterHeaders(AfterHeader(afterE, c, now, dateOf), [], now, dateOf);
    assert AfterHeaders(v, [c, e], now, dateOf) == AfterHeaders(afterC, [e], now, dateOf);
    assert AfterHeaders(afterC, [e], now, dateOf) == AfterHeaders(AfterHeader(afterC, e, now, dateOf), [], now, dateOf);
  }

  /** A bare "Cache-control: max-age=" keeps whatever expiry an earlier Expires line set,
      even a past one, and still marks the response cacheable. */
  lemma BareMaxAgeKeepsExpiry(e: string, now: int, dateOf: string -> int)
    requires IsExpires(e)
    ensures var r := AfterHeaders(Initial(now), [e, CacheControlHeader + MaxAge], now, dateOf);
      r == Verdict(true, true, dateOf(e[|ExpiresHeader|..]))
  {
    MaxAgeLine([]);
    assert CacheControlHeader + MaxAge + [] == CacheControlHeader + MaxAge;
    var c := CacheControlHeader + MaxAge;
    var v := Initial(now);
    assert [e, c][1..] == [c] && [c][1..] == [];
    var afterE := AfterHeader(v, e, now, dateOf);
    assert AfterHeaders(v, [e, c], now, dateOf) == AfterHeaders(afterE, [c], now, dateOf);
    assert AfterHeaders(afterE, [c], now, dateOf) == AfterHeaders(AfterHeader(afterE, c, now, dateOf), [], now, dateOf);
  }

  const MonthNames: seq<string> := ["Jan", "Feb", "Mar", "Apr", "May", "Jun", "Jul", "Aug", "Sep", "Oct", "Nov", "Dec"]

  /** `GetMonth`: the index of a three-letter English month name, -1 for anything else. */
  method GetMonth(month: string) returns (m: int)
    ensures -1 <= m < |MonthNames|
    ensures m >= 0 ==> MonthNames[m] == month
    ensures m == -1 <==> month !in MonthNames
    ensures m >= 0 ==> forall j :: 0 <= j < m ==> MonthNames[j] != month
  {
    m := 0;
    while m < |MonthNames|
      invariant 0 <= m <= |MonthNames|
      invariant forall j :: 0 <= j < m ==> MonthNames[j] != month
    {
      if MonthNames[m] == month {
        return;
      }
      m := m + 1;
    }
    m := -1;
  }

  class CacheInfo {
    var cacheControlFound: bool
    var cacheable: bool
    var expiry: int

    function State(): Verdict
      reads this
    {
      Verdict(cacheControlFound, cacheable, expiry)
    }

    constructor (now: int)
      ensures State() == Initial(now)
    {
      cacheControlFound := false;
      cacheable := true;
      expiry := now + DefaultMaxAge;
    }

    method ParseHeader(header: string, now: int, dateOf: string -> int)
      modifies this
      ensures State() == AfterHeader(old(State()), header, now, dateOf)
    {
      if PrefixIgnoringCase(ExpiresHeader, header) {
        var expires := dateOf(header[|ExpiresHeader|..]);
        if !cacheControlFound {
          expiry := expires;
          if expiry < now {
            cacheable := false;
          }
        }
      } else if PrefixIgnoringCase(CacheControlHeader, header) {
        cacheControlFound := true;
        ProcessCacheControl(header, this, now);
      }
    }

    method ShouldCache(now: int) returns (b: bool)
      ensures b <==> Worthwhile(State(), now)
    {
      b := cacheable && expiry > now + MinimumCacheTime;
    }
  }

  method ProcessCacheControl(header: string, ci: CacheInfo, now: int)
    modifies ci
    ensures ci.State() == AfterCacheControl(old(ci.State()), header, now)
  {
    if |header| < |CacheControlHeader| + 1 {
      return;
    }
    if Find(header, NoCache) >= 0 || Find(header, NoStore) >= 0 || Find(header, MaxAgeZero) >= 0 {
      ci.cacheable := false;
      ci.expiry := 0;
      return;
    } else {
      ci.cacheable := true;
    }
    var maxAgePos := Find(header, MaxAge);
    if maxAgePos >= 0 {
      var valuePos := maxAgePos + |MaxAge|;
      if valuePos >= |header| {
        return;
      }
      var maxAge := Atol(header[valuePos..]);
      ci.expiry := now + maxAge;
    } else {
      ci.expiry := now + DefaultMaxAge;
    }
  }
}

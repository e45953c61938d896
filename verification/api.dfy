/** The client's request paths for the date-filtered endpoints: a day picked
    in the UI becomes an instant at the start or the end of that UTC day,
    and the present filters become an `application/x-www-form-urlencoded`
    query string (the `URLSearchParams` serialiser of the WHATWG URL
    Standard, section 5.2). */
module Api {
  import opened Common

  /** `${date}T00:00:00.000Z`. */
  function ToStartOfDayIso(date: string): (r: string)
    ensures |r| == |date| + 14 && r[..|date|] == date && r[|date|..] == "T00:00:00.000Z"
  {
    date + "T00:00:00.000Z"
  }

  /** `${date}T23:59:59.999Z`. */
  function ToEndOfDayIso(date: string): (r: string)
    ensures |r| == |date| + 14 && r[..|date|] == date && r[|date|..] == "T23:59:59.999Z"
  {
    date + "T23:59:59.999Z"
  }

  /** JavaScript's `<` on strings, a proper prefix first. Characters are
      compared by code point, which agrees with JavaScript's UTF-16
      code-unit order on text inside the Basic Multilingual Plane, such as
      dates. */
  predicate LexLess(a: string, b: string) {
    if a == [] then b != []
    else if b == [] then false
    else if a[0] != b[0] then a[0] < b[0]
    else LexLess(a[1..], b[1..])
  }

  lemma {:induction false} LexLessCommonPrefix(p: string, a: string, b: string)
    requires LexLess(a, b)
    ensures LexLess(p + a, p + b)
  {
    if p != [] {
      assert (p + a)[0] == p[0] == (p + b)[0];
      assert (p + a)[1..] == p[1..] + a;
      assert (p + b)[1..] == p[1..] + b;
      LexLessCommonPrefix(p[1..], a, b);
    } else {
      assert p + a == a && p + b == b;
    }
  }

  /** For any day, its start instant sorts strictly before its end instant,
      so the two bounds of a one-day filter never cross. */
  lemma StartOfDayBeforeEndOfDay(date: string)
    ensures LexLess(ToStartOfDayIso(date), ToEndOfDayIso(date))
  {
    var a := "T00:00:00.000Z";
    var b := "T23:59:59.999Z";
    assert a[1..] == "00:00:00.000Z" && b[1..] == "23:59:59.999Z";
    assert LexLess(a, b);
    LexLessCommonPrefix(date, a, b);
  }

  /** The characters the form serialiser leaves as they are. */
  predicate IsUnreserved(c: char) {
    || ('a' <= c <= 'z') || ('A' <= c <= 'Z') || ('0' <= c <= '9')
    || c == '*' || c == '-' || c == '.' || c == '_'
  }

  /** Upper-case hexadecimal digit. */
  function HexDigit(d: nat): (c: char)
    requires d < 16
    ensures HexValue(c) == Some(d)
  {
    if d < 10 then ('0' as int + d) as char else ('A' as int + d - 10) as char
  }

  function HexValue(c: char): Option<nat> {
    if '0' <= c <= '9' then Some(c as int - '0' as int)
    else if 'A' <= c <= 'F' then Some(c as int - 'A' as int + 10)
    else if 'a' <= c <= 'f' then Some(c as int - 'a' as int + 10)
    else None
  }

  /** The UTF-8 encoding of one Unicode scalar value. */
  function Utf8(c: char): (bytes: seq<nat>)
    ensures 1 <= |bytes| <= 4
    ensures forall k :: 0 <= k < |bytes| ==> bytes[k] < 256
    ensures (|bytes| == 1) <==> (c as int < 0x80)
    ensures |bytes| == 1 ==> bytes[0] == c as int
  {
    var n := c as int;
    if n < 0x80 then [n]
    else if n < 0x800 then [0xC0 + n / 0x40, 0x80 + n % 0x40]
    else if n < 0x1_0000 then [0xE0 + n / 0x1000, 0x80 + n / 0x40 % 0x40, 0x80 + n % 0x40]
    else [0xF0 + n / 0x4_0000, 0x80 + n / 0x1000 % 0x40, 0x80 + n / 0x40 % 0x40, 0x80 + n % 0x40]
  }

  /** `%XX` for every byte. */
  function PercentBytes(bytes: seq<nat>): (r: string)
    requires forall k :: 0 <= k < |bytes| ==> bytes[k] < 256
    ensures |r| == 3 * |bytes|
    ensures forall k :: 0 <= k < |r| ==> r[k] == '%' || HexValue(r[k]).Some?
  {
    if bytes == [] then ""
    else ['%', HexDigit(bytes[0] / 16), HexDigit(bytes[0] % 16)] + PercentBytes(bytes[1..])
  }

  /** How the serialiser writes one character: itself when unreserved, `+`
      for a space, and the percent-escaped UTF-8 bytes otherwise. */
  function EncodeChar(c: char): (r: string)
    ensures r != []
    ensures forall k :: 0 <= k < |r| ==> r[k] != '&' && r[k] != '=' && r[k] != '?'
  {
    if IsUnreserved(c) then [c]
    else if c == ' ' then "+"
    else PercentBytes(Utf8(c))
  }

  /** The form encoding of a name or a value. */
  function FormEncode(s: string): (r: string)
    ensures |r| >= |s|
    ensures forall k :: 0 <= k < |r| ==> r[k] != '&' && r[k] != '=' && r[k] != '?'
  {
    if s == [] then ""
    else EncodeChar(s[0]) + FormEncode(s[1..])
  }

  /** Undo the form encoding of ASCII text: `+` is a space and `%XX` the
      character with that code; None for any other escape. */
  function FormDecodeAscii(s: string): Option<string> {
    if s == [] then Some("")
    else if s[0] == '+' then
      match FormDecodeAscii(s[1..])
      case Some(rest) => Some(" " + rest)
      case None => None
    else if s[0] == '%' then
      if |s| < 3 || HexValue(s[1]).None? || HexValue(s[2]).None? then None
      else
        var code := HexValue(s[1]).value * 16 + HexValue(s[2]).value;
        if code >= 0x80 then None
        else
          match FormDecodeAscii(s[3..])
          case Some(rest) => Some([code as char] + rest)
          case None => None
    else
      match FormDecodeAscii(s[1..])
      case Some(rest) => Some([s[0]] + rest)
      case None => None
  }

  predicate IsAscii(s: string) {
    forall k :: 0 <= k < |s| ==> s[k] as int < 0x80
  }

  lemma DecodeEncodeChar(c: char, rest: string)
    requires c as int < 0x80
    ensures FormDecodeAscii(EncodeChar(c) + rest)
         == match FormDecodeAscii(rest)
            case Some(r) => Some([c] + r)
            case None => None
  {
    var e := EncodeChar(c);
    if IsUnreserved(c) {
      assert (e + rest)[1..] == rest;
    } else if c == ' ' {
      assert (e + rest)[1..] == rest;
    } else {
      var n := c as int;
      assert e == ['%', HexDigit(n / 16), HexDigit(n % 16)];
      assert (e + rest)[3..] == rest;
      assert HexValue(e[1]).value * 16 + HexValue(e[2]).value == n;
    }
  }

  /** Decoding the form encoding of ASCII text gives the text back. */
  lemma {:induction false} FormEncodeRoundTrip(s: string)
    requires IsAscii(s)
    ensures FormDecodeAscii(FormEncode(s)) == Some(s)
  {
    if s != [] {
      FormEncodeRoundTrip(s[1..]);
      DecodeEncodeChar(s[0], FormEncode(s[1..]));
      assert [s[0]] + s[1..] == s;
    }
  }

  /** `params.toString()`: `name=value` pairs joined by `&`. */
  function Serialize(params: seq<(string, string)>): (r: string)
    ensures r == "" <==> params == []
  {
    if params == [] then ""
    else if |params| == 1 then FormEncode(params[0].0) + "=" + FormEncode(params[0].1)
    else FormEncode(params[0].0) + "=" + FormEncode(params[0].1) + "&" + Serialize(params[1..])
  }

  /** The parameters `getDashboard` and `getOrders` set: `startDate` only
      for a truthy start, then `endDate` only for a truthy end. */
  function FilterParams(startDate: Option<string>, endDate: Option<string>): (params: seq<(string, string)>)
    ensures |params| <= 2
    ensures Truthy(startDate) <==> |params| >= 1 && params[0].0 == "startDate"
    ensures Truthy(endDate) <==> |params| >= 1 && params[|params| - 1].0 == "endDate"
    ensures forall k :: 0 <= k < |params| ==>
              || (params[k].0 == "startDate" && startDate.Some? && params[k].1 == ToStartOfDayIso(startDate.value))
              || (params[k].0 == "endDate" && endDate.Some? && params[k].1 == ToEndOfDayIso(endDate.value))
  {
    assert "startDate"[0] != "endDate"[0];
    (if Truthy(startDate) then [("startDate", ToStartOfDayIso(startDate.value))] else [])
    + (if Truthy(endDate) then [("endDate", ToEndOfDayIso(endDate.value))] else [])
  }

  /** `${base}${qs ? `?${qs}` : ''}`. */
  function WithQuery(base: string, qs: string): (r: string)
    ensures |base| <= |r| && r[..|base|] == base
  {
    if qs != "" then base + "?" + qs else base
  }

  function DashboardPath(startDate: Option<string>, endDate: Option<string>): (r: string)
    ensures |r| >= 10 && r[..10] == "/dashboard"
  {
    WithQuery("/dashboard", Serialize(FilterParams(startDate, endDate)))
  }

  function OrdersPath(startDate: Option<string>, endDate: Option<string>): (r: string)
    ensures |r| >= 7 && r[..7] == "/orders"
  {
    WithQuery("/orders", Serialize(FilterParams(startDate, endDate)))
  }

  lemma SerializeNonEmpty(params: seq<(string, string)>)
    requires params != [] && params[0].0 != ""
    ensures Serialize(params) != ""
  {
  }

  lemma {:induction false} SerializeHasNoQuestionMark(params: seq<(string, string)>)
    ensures '?' !in Serialize(params)
  {
    if |params| > 1 {
      SerializeHasNoQuestionMark(params[1..]);
    }
  }

  lemma BasesHaveNoQuestionMark()
    ensures '?' !in "/dashboard" && '?' !in "/orders"
  {
  }

  lemma WithQueryShape(base: string, qs: string)
    requires '?' !in base && '?' !in qs
    ensures '?' in WithQuery(base, qs) <==> qs != ""
    ensures WithQuery(base, qs)[|base|..] == if qs != "" then "?" + qs else ""
  {
    if qs != "" {
      assert (base + "?" + qs)[|base|] == '?';
      assert (base + "?" + qs)[|base|..] == "?" + qs;
    }
  }

  /** A request path carries a query, marked by `?`, exactly when a filter
      is present. */
  lemma PathHasQueryIff(startDate: Option<string>, endDate: Option<string>)
    ensures '?' in DashboardPath(startDate, endDate) <==> Truthy(startDate) || Truthy(endDate)
    ensures '?' in OrdersPath(startDate, endDate) <==> Truthy(startDate) || Truthy(endDate)
  {
    var params := FilterParams(startDate, endDate);
    SerializeHasNoQuestionMark(params);
    if Truthy(startDate) || Truthy(endDate) {
      SerializeNonEmpty(params);
    }
    BasesHaveNoQuestionMark();
    WithQueryShape("/dashboard", Serialize(params));
    WithQueryShape("/orders", Serialize(params));
  }

  /** The dashboard and the orders requests carry the same query. */
  lemma SameQueryForBothPaths(startDate: Option<string>, endDate: Option<string>)
    ensures DashboardPath(startDate, endDate)[|"/dashboard"|..] == OrdersPath(startDate, endDate)[|"/orders"|..]
  {
    var params := FilterParams(startDate, endDate);
    SerializeHasNoQuestionMark(params);
    BasesHaveNoQuestionMark();
    WithQueryShape("/dashboard", Serialize(params));
    WithQueryShape("/orders", Serialize(params));
  }

  lemma {:induction false} FormEncodeUnreserved(s: string)
    requires forall k :: 0 <= k < |s| ==> IsUnreserved(s[k])
    ensures FormEncode(s) == s
  {
    if s != [] {
      FormEncodeUnreserved(s[1..]);
      assert [s[0]] + s[1..] == s;
    }
  }

  lemma StartDateNameKept()
    ensures FormEncode("startDate") == "startDate"
  {
    FormEncodeUnreserved("startDate");
  }

  lemma StartOfDayAscii(day: string)
    requires IsAscii(day)
    ensures IsAscii(ToStartOfDayIso(day))
  {
    var iso := ToStartOfDayIso(day);
    forall k | 0 <= k < |iso|
      ensures iso[k] as int < 0x80
    {
      if k < |day| {
        assert iso[k] == day[k];
      } else {
        assert iso[k] == "T00:00:00.000Z"[k - |day|];
      }
    }
  }

  lemma StartOnlySerialized(day: string)
    requires day != ""
    ensures Serialize(FilterParams(Some(day), None)) == "startDate" + "=" + FormEncode(ToStartOfDayIso(day))
  {
    var iso := ToStartOfDayIso(day);
    var params := FilterParams(Some(day), None);
    assert params == [("startDate", iso)];
    StartDateNameKept();
  }

  /** With only a start day, the query is the single `startDate` parameter,
      and decoding its value gives the start-of-day instant back. */
  lemma StartOnlyQuery(day: string)
    requires day != "" && IsAscii(day)
    ensures var qs := Serialize(FilterParams(Some(day), None));
            qs == "startDate=" + FormEncode(ToStartOfDayIso(day))
            && FormDecodeAscii(qs[|"startDate="|..]) == Some(day + "T00:00:00.000Z")
  {
    var iso := ToStartOfDayIso(day);
    StartOnlySerialized(day);
    StartOfDayAscii(day);
    FormEncodeRoundTrip(iso);
    var qs := "startDate=" + FormEncode(iso);
    assert qs[|"startDate="|..] == FormEncode(iso);
  }
}

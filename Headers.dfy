/**
 * Response headers as the HTTP stack hands them to the client: a sequence of
 * name/value pairs in wire order. Header names compare without regard to ASCII
 * case, and a lookup yields the first value stored under a name.
 */
module Headers {
  import opened Wrappers
  import opened Numerals

  datatype Header = Header(name: string, value: string)

  function LowerAscii(c: char): char {
    if 'A' <= c <= 'Z' then (c as int + 32) as char else c
  }

  predicate IsUpperAscii(c: char) {
    'A' <= c <= 'Z'
  }

  /**
   * ASCII lower-casing, the normal form of a header name: no upper-case ASCII letter is left,
   * each one becomes its lower-case partner, and every other character stays where it was.
   */
  function ToLowerAscii(s: string): (t: string)
    ensures |t| == |s|
    ensures forall i :: 0 <= i < |t| ==> !IsUpperAscii(t[i])
    ensures forall i :: 0 <= i < |s| && !IsUpperAscii(s[i]) ==> t[i] == s[i]
    ensures forall i :: 0 <= i < |s| && IsUpperAscii(s[i]) ==> 'a' <= t[i] <= 'z' && t[i] as int - s[i] as int == 32
  {
    seq(|s|, i requires 0 <= i < |s| => LowerAscii(s[i]))
  }

  /** Lower-casing a name that is already lower-cased changes nothing. */
  lemma ToLowerAsciiIdempotent(s: string)
    ensures ToLowerAscii(ToLowerAscii(s)) == ToLowerAscii(s)
  {
    LowerCaseIsNormal(ToLowerAscii(s));
  }

  /** A name without upper-case ASCII letters is already in normal form. */
  lemma LowerCaseIsNormal(s: string)
    requires forall i :: 0 <= i < |s| ==> !IsUpperAscii(s[i])
    ensures ToLowerAscii(s) == s
  {
  }

  predicate SameName(a: string, b: string) {
    ToLowerAscii(a) == ToLowerAscii(b)
  }

  /** `HeaderMap::get`: the value of the first header whose name matches `name` in any case. */
  function Get(headers: seq<Header>, name: string): (r: Option<string>)
    ensures r.None? <==> forall i :: 0 <= i < |headers| ==> !SameName(headers[i].name, name)
  {
    if headers == [] then None
    else if SameName(headers[0].name, name) then Some(headers[0].value)
    else Get(headers[1..], name)
  }

  /** The value `Get` returns belongs to a matching header that no earlier header precedes. */
  lemma {:induction false} GetFindsFirst(headers: seq<Header>, name: string, i: nat)
    requires i < |headers| && SameName(headers[i].name, name)
    requires forall j :: 0 <= j < i ==> !SameName(headers[j].name, name)
    ensures Get(headers, name) == Some(headers[i].value)
  {
    if i > 0 {
      GetFindsFirst(headers[1..], name, i - 1);
    }
  }

  /** Renaming headers to other spellings of the same names does not change any lookup. */
  lemma {:induction false} GetIgnoresCase(headers: seq<Header>, respelt: seq<Header>, name: string)
    requires |respelt| == |headers|
    requires forall i :: 0 <= i < |headers| ==>
      SameName(respelt[i].name, headers[i].name) && respelt[i].value == headers[i].value
    ensures Get(respelt, name) == Get(headers, name)
  {
    if headers != [] {
      GetIgnoresCase(headers[1..], respelt[1..], name);
    }
  }

  predicate IsVisibleAscii(c: char) {
    c == '\t' || ' ' <= c <= '~'
  }

  /** `HeaderValue::to_str`: the text of a value made only of visible ASCII characters and tabs. */
  function ToStr(v: string): Option<string> {
    if forall i :: 0 <= i < |v| ==> IsVisibleAscii(v[i]) then Some(v) else None
  }

  /** A value that parses as an `i32` always passes `to_str` first. */
  lemma ParsableIsVisible(v: string)
    requires ParseI32(v).Some?
    ensures ToStr(v) == Some(v)
  {
    forall i | 0 <= i < |v| ensures IsVisibleAscii(v[i]) {
      if i > 0 {
        assert v[1..][i - 1] == v[i];
      }
    }
  }

  /** Hence a value that fails `to_str` would have failed to parse as well. */
  lemma InvisibleIsUnparsable(v: string)
    requires ToStr(v).None?
    ensures ParseI32(v).None?
  {
    if ParseI32(v).Some? {
      ParsableIsVisible(v);
    }
  }

  /**
   * A header read as an `i32`: missing, not visible ASCII, or not a valid `i32`, it reads as 0
   * (`and_then(to_str).and_then(parse).unwrap_or(0)`); it never fails.
   */
  function HeaderInt(headers: seq<Header>, name: string): (n: Int32)
    ensures Get(headers, name).None? ==> n == 0
    ensures Get(headers, name).Some? && ParseI32(Get(headers, name).value).None? ==> n == 0
    ensures Get(headers, name).Some? && ParseI32(Get(headers, name).value).Some? ==>
      n == ParseI32(Get(headers, name).value).value
  {
    match Get(headers, name)
    case None => 0
    case Some(v) =>
      match ToStr(v)
      case None => InvisibleIsUnparsable(v); 0
      case Some(s) => ParseI32(s).GetOr(0)
  }

  /** A header carrying the text of an `i32` reads as that `i32`. */
  lemma HeaderIntReadsPrinted(headers: seq<Header>, name: string, n: Int32)
    requires Get(headers, name) == Some(IntToString(n))
    ensures HeaderInt(headers, name) == n
  {
    ParseI32OfIntToString(n);
  }
}

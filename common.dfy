/**
 * Values and primitives shared by the two sync scripts and the billing dashboard:
 * optional and failing results, JSON members read with `dict.get`, Python truthiness
 * and `str`, `str.strip`, SQLite's `LIKE '%...%'` and its BINARY collation order.
 */
module Common {

  datatype Option<T> = None | Some(value: T)

  datatype Result<T, E> = Ok(value: T) | Err(error: E)

  /** A JSON member as `dict.get` sees it: absent, present but null, or present. */
  datatype Field<T> = Missing | Null | Present(value: T)

  /** A member read with a default: the default when absent, None when it holds null. */
  function GetOr<T>(f: Field<T>, default: T): Option<T>
  {
    match f
    case Missing => Some(default)
    case Null => None
    case Present(v) => Some(v)
  }

  /** A JSON scalar, as a Freshservice custom field or flag may hold one. */
  datatype Scalar = SNull | SBool(b: bool) | SInt(i: int) | SStr(s: string)

  /** Python truthiness of a scalar: None, False, 0 and "" are false. */
  predicate Truthy(x: Scalar)
  {
    match x
    case SNull => false
    case SBool(b) => b
    case SInt(i) => i != 0
    case SStr(s) => s != ""
  }

  /** Python truthiness of a string that may be None. */
  predicate TruthyStr(s: Option<string>)
  {
    s.Some? && s.value != ""
  }

  // ---------------------------------------------------------------------------
  // Decimal rendering of integers (`str(n)`, f-string interpolation of an int)

  predicate IsDigit(c: char)
  {
    '0' <= c <= '9'
  }

  function Digit(d: nat): (c: char)
    requires d < 10
  {
    ('0' as int + d) as char
  }

  /** The decimal digits of n, most significant first, without leading zeros. */
  function NatDigits(n: nat): (s: string)
    ensures |s| > 0 && forall i :: 0 <= i < |s| ==> IsDigit(s[i])
    ensures s[0] == '0' <==> n == 0
    ensures n < 10 <==> |s| == 1
    decreases n
  {
    if n < 10 then [Digit(n)] else NatDigits(n / 10) + [Digit(n % 10)]
  }

  /** Python `str(n)` for an int. */
  function Decimal(n: int): (s: string)
    ensures |s| > 0
    ensures s[0] == '-' <==> n < 0
  {
    if n < 0 then "-" + NatDigits(-n) else NatDigits(n)
  }

  function ParseNat(s: string): nat
    requires forall i :: 0 <= i < |s| ==> IsDigit(s[i])
    decreases |s|
  {
    if s == [] then 0
    else
      assert IsDigit(s[|s| - 1]);
      ParseNat(s[..|s| - 1]) * 10 + (s[|s| - 1] as int - '0' as int)
  }

  predicate DecimalSyntax(s: string)
  {
    if s != [] && s[0] == '-' then forall i :: 1 <= i < |s| ==> IsDigit(s[i])
    else forall i :: 0 <= i < |s| ==> IsDigit(s[i])
  }

  /** Python `int(s)` restricted to what `Decimal` produces. */
  function ParseDecimal(s: string): int
    requires DecimalSyntax(s)
  {
    if s != [] && s[0] == '-' then 0 - ParseNat(s[1..]) else ParseNat(s)
  }

  lemma {:induction false} NatDigitsRoundTrip(n: nat)
    ensures ParseNat(NatDigits(n)) == n
    decreases n
  {
    if n >= 10 {
      NatDigitsRoundTrip(n / 10);
      var s := NatDigits(n);
      assert s[..|s| - 1] == NatDigits(n / 10);
    }
  }

  /** `int(str(n)) == n`: the rendering loses nothing. */
  lemma DecimalRoundTrip(n: int)
    ensures DecimalSyntax(Decimal(n)) && ParseDecimal(Decimal(n)) == n
  {
    if n < 0 {
      NatDigitsRoundTrip(-n);
      assert Decimal(n)[1..] == NatDigits(-n);
    } else {
      NatDigitsRoundTrip(n);
    }
  }

  /** Distinct integers render to distinct strings. */
  lemma DecimalInjective(a: int, b: int)
    requires Decimal(a) == Decimal(b)
    ensures a == b
  {
    DecimalRoundTrip(a);
    DecimalRoundTrip(b);
  }

  /** Python `str(x)` of a scalar. */
  function PyStr(x: Scalar): (s: string)
    ensures Truthy(x) ==> s != ""
  {
    match x
    case SNull => "None"
    case SBool(b) => if b then "True" else "False"
    case SInt(i) => Decimal(i)
    case SStr(t) => t
  }

  // ---------------------------------------------------------------------------
  // str.strip()

  /** Python's `str.isspace` for a single character. */
  predicate IsSpace(c: char)
  {
    var k := c as int;
    k == 0x20 || 0x09 <= k <= 0x0D || 0x1C <= k <= 0x1F || k == 0x85 || k == 0xA0
    || k == 0x1680 || 0x2000 <= k <= 0x200A || k == 0x2028 || k == 0x2029
    || k == 0x202F || k == 0x205F || k == 0x3000
  }

  function TrimStart(s: string): (r: string)
    ensures |r| <= |s| && r == s[|s| - |r|..]
    ensures forall i :: 0 <= i < |s| - |r| ==> IsSpace(s[i])
    ensures r != [] ==> !IsSpace(r[0])
    decreases |s|
  {
    if s != [] && IsSpace(s[0]) then TrimStart(s[1..]) else s
  }

  function TrimEnd(s: string): (r: string)
    ensures |r| <= |s| && r == s[..|r|]
    ensures forall i :: |r| <= i < |s| ==> IsSpace(s[i])
    ensures r != [] ==> !IsSpace(r[|r| - 1])
    decreases |s|
  {
    if s != [] && IsSpace(s[|s| - 1]) then TrimEnd(s[..|s| - 1]) else s
  }

  /** Every character of `s` is whitespace. */
  predicate AllSpace(s: string)
  {
    forall k :: 0 <= k < |s| ==> IsSpace(s[k])
  }

  /** Python `s.strip()`: leading and trailing whitespace removed. */
  function Strip(s: string): (r: string)
    ensures |r| <= |s|
    ensures r != [] ==> !IsSpace(r[0]) && !IsSpace(r[|r| - 1])
    ensures s == [] || (!IsSpace(s[0]) && !IsSpace(s[|s| - 1])) ==> r == s
    ensures exists i, j :: 0 <= i <= j <= |s| && r == s[i..j] && AllSpace(s[..i]) && AllSpace(s[j..])
  {
    var t := TrimStart(s);
    var r := TrimEnd(t);
    assert AllSpace(s[..|s| - |t|]);
    assert AllSpace(t[|r|..]) by {
      forall k | 0 <= k < |t| - |r|
        ensures IsSpace(t[|r|..][k])
      {
        assert t[|r|..][k] == t[|r| + k];
      }
    }
    SliceBetweenSpaces(s, t, r);
    r
  }

  /**
   * A string cut from the end of `s` after a run of whitespace, then cut at its own start
   * before a run of whitespace, is a slice of `s` with only whitespace on either side.
   */
  lemma SliceBetweenSpaces(s: string, t: string, r: string)
    requires |t| <= |s| && t == s[|s| - |t|..] && AllSpace(s[..|s| - |t|])
    requires |r| <= |t| && r == t[..|r|] && AllSpace(t[|r|..])
    ensures var i := |s| - |t|;
      var j := i + |r|;
      0 <= i <= j <= |s| && r == s[i..j] && AllSpace(s[..i]) && AllSpace(s[j..])
  {
    var i := |s| - |t|;
    assert s[i..i + |r|] == t[..|r|];
    assert s[i + |r|..] == t[|r|..];
  }

  /** Stripping twice is stripping once. */
  lemma StripIdempotent(s: string)
    ensures Strip(Strip(s)) == Strip(s)
  {
  }

  // ---------------------------------------------------------------------------
  // SQLite LIKE '%pat%' and the BINARY collation

  /** SQLite folds only the ASCII letters when it compares under LIKE. */
  function AsciiLower(c: char): char
  {
    if 'A' <= c <= 'Z' then (c as int + 32) as char else c
  }

  predicate MatchesAt(s: string, pat: string, i: nat)
    requires i + |pat| <= |s|
  {
    forall j :: 0 <= j < |pat| ==> AsciiLower(s[i + j]) == AsciiLower(pat[j])
  }

  /** `s LIKE '%' || pat || '%'` for a pattern without wildcard characters. */
  predicate LikeContains(s: string, pat: string)
  {
    exists i :: 0 <= i <= |s| - |pat| && MatchesAt(s, pat, i)
  }

  /** Case-sensitive substring test: the reading of the rule that ignores LIKE's case folding. */
  predicate ContainsExactly(s: string, pat: string)
  {
    exists i :: 0 <= i <= |s| - |pat| && OccursAt(s, pat, i)
  }

  predicate OccursAt(s: string, pat: string, i: nat)
  {
    i + |pat| <= |s| && s[i..i + |pat|] == pat
  }

  /** Every exact occurrence is a LIKE match; the converse fails (see Billing). */
  lemma ExactImpliesLike(s: string, pat: string)
    requires ContainsExactly(s, pat)
    ensures LikeContains(s, pat)
  {
    var i :| 0 <= i <= |s| - |pat| && OccursAt(s, pat, i);
    forall j | 0 <= j < |pat|
      ensures AsciiLower(s[i + j]) == AsciiLower(pat[j])
    {
      assert s[i..i + |pat|][j] == s[i + j];
    }
    assert MatchesAt(s, pat, i);
  }

  /**
   * SQLite's BINARY collation compares the UTF-8 bytes with memcmp; on Unicode scalar
   * values that is the code-point-wise lexicographic order defined here.
   */
  predicate StrLe(a: string, b: string)
    decreases |a|
  {
    a == [] || (b != [] && (a[0] < b[0] || (a[0] == b[0] && StrLe(a[1..], b[1..]))))
  }

  lemma {:induction false} StrLeRefl(a: string)
    ensures StrLe(a, a)
    decreases |a|
  {
    if a != [] {
      StrLeRefl(a[1..]);
    }
  }

  lemma {:induction false} StrLeTotal(a: string, b: string)
    ensures StrLe(a, b) || StrLe(b, a)
    decreases |a|
  {
    if a != [] && b != [] && a[0] == b[0] {
      StrLeTotal(a[1..], b[1..]);
    }
  }

  lemma {:induction false} StrLeTrans(a: string, b: string, c: string)
    requires StrLe(a, b) && StrLe(b, c)
    ensures StrLe(a, c)
    decreases |a|
  {
    if a != [] && b != [] && c != [] && a[0] == b[0] && b[0] == c[0] {
      StrLeTrans(a[1..], b[1..], c[1..]);
    }
  }

  lemma {:induction false} StrLeAntisym(a: string, b: string)
    requires StrLe(a, b) && StrLe(b, a)
    ensures a == b
    decreases |a|
  {
    if a != [] && b != [] {
      StrLeAntisym(a[1..], b[1..]);
      assert a == [a[0]] + a[1..];
      assert b == [b[0]] + b[1..];
    }
  }

  // ---------------------------------------------------------------------------
  // A loop that appends at most one value per element

  /**
   * The values `f` yields for the elements of xs, in order; an element for which `f`
   * yields None (a `continue` in the loop) contributes nothing.
   */
  function FilterMap<A, B>(f: A -> Option<B>, xs: seq<A>): (r: seq<B>)
    ensures |r| <= |xs|
    ensures forall i :: 0 <= i < |xs| && f(xs[i]).Some? ==> f(xs[i]).value in r
    ensures forall y :: y in r ==> exists i :: 0 <= i < |xs| && f(xs[i]) == Some(y)
    decreases |xs|
  {
    if xs == [] then []
    else
      var init := FilterMap(f, xs[..|xs| - 1]);
      match f(xs[|xs| - 1])
      case None => init
      case Some(y) => init + [y]
  }

  /** One element contributes its value when `f` yields one, and nothing otherwise. */
  lemma FilterMapOne<A, B>(f: A -> Option<B>, x: A)
    ensures FilterMap(f, [x]) == if f(x).Some? then [f(x).value] else []
  {
    assert [x][..0] == [];
  }

  /** The loop over `xs + ys` yields the values for `xs` followed by those for `ys`. */
  lemma {:induction false} FilterMapAppend<A, B>(f: A -> Option<B>, xs: seq<A>, ys: seq<A>)
    ensures FilterMap(f, xs + ys) == FilterMap(f, xs) + FilterMap(f, ys)
    decreases |ys|
  {
    if ys == [] {
      assert xs + ys == xs;
    } else {
      var init := ys[..|ys| - 1];
      assert (xs + ys)[..|xs + ys| - 1] == xs + init;
      assert (xs + ys)[|xs + ys| - 1] == ys[|ys| - 1];
      FilterMapAppend(f, xs, init);
    }
  }

  // ---------------------------------------------------------------------------
  // Outcome of a pagination loop

  /**
   * What a fetch loop returns: the collected items, None (Python) after a request
   * error, or OutOfFuel when it is still looping after the allowed number of requests.
   */
  datatype Fetched<T> = Fetched(items: seq<T>) | FetchFailed | OutOfFuel

  /** A page's items placed in front of whatever the rest of the loop yields. */
  function Prepend<T>(xs: seq<T>, r: Fetched<T>): Fetched<T>
  {
    match r
    case Fetched(ys) => Fetched(xs + ys)
    case _ => r
  }

  lemma PrependAssoc<T>(xs: seq<T>, ys: seq<T>, r: Fetched<T>)
    ensures Prepend(xs, Prepend(ys, r)) == Prepend(xs + ys, r)
  {
    if r.Fetched? {
      assert xs + (ys + r.items) == (xs + ys) + r.items;
    }
  }
}

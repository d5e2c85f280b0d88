/**
 * The small slice of JavaScript semantics that the storefront's logic leans on:
 * truthiness, `String.prototype.trim`, ASCII `toLowerCase`, `split`/`join`,
 * `parseInt(_, 10)`, `parseFloat`, `Number(string)`, `Math.floor`/`Math.round`/
 * `Math.ceil`, and the array combinators `map`, `filter` and `findIndex`.
 *
 * Numbers are exact reals: the model has no NaN, no infinities and no
 * floating-point rounding. Wherever JavaScript would produce NaN from a parse,
 * the model returns `None`.
 */
module JsCore {

  datatype Option<+T> = None | Some(value: T)

  datatype Result<+T, +E> = Ok(value: T) | Err(error: E)

  /** A value read from a parsed JSON request body; `Undefined` is an absent property. */
  datatype JsValue = Undefined | Null | Bool(b: bool) | Num(n: real) | Str(s: string)

  /** JavaScript truthiness (`!!v`). */
  predicate Truthy(v: JsValue)
  {
    match v
    case Undefined => false
    case Null => false
    case Bool(b) => b
    case Num(n) => n != 0.0
    case Str(s) => s != ""
  }

  // ---------------------------------------------------------------- strings

  /** The characters `String.prototype.trim` removes that the model knows about. */
  predicate IsWhitespace(c: char)
  {
    c == ' ' || c == '\t' || c == '\n' || c == '\r' || c == '\U{000B}' || c == '\U{000C}'
    || c == '\U{00A0}' || c == '\U{FEFF}' || c == '\U{2028}' || c == '\U{2029}'
  }

  function TrimStart(s: string): (r: string)
    ensures |r| <= |s| && r == s[|s| - |r|..]
    ensures r == [] || !IsWhitespace(r[0])
    ensures forall i :: 0 <= i < |s| - |r| ==> IsWhitespace(s[i])
  {
    if |s| > 0 && IsWhitespace(s[0]) then TrimStart(s[1..]) else s
  }

  function TrimEnd(s: string): (r: string)
    ensures |r| <= |s| && r == s[..|r|]
    ensures r == [] || !IsWhitespace(r[|r| - 1])
    ensures forall i :: |r| <= i < |s| ==> IsWhitespace(s[i])
  {
    if |s| > 0 && IsWhitespace(s[|s| - 1]) then TrimEnd(s[..|s| - 1]) else s
  }

  /** How many whitespace characters `trim` cuts from the front of `s`. */
  function Leading(s: string): nat
  {
    |s| - |TrimStart(s)|
  }

  /** `s.trim()`: the longest infix of `s` that neither starts nor ends with whitespace. */
  function Trim(s: string): (r: string)
    ensures |r| <= |s|
    ensures r == [] || (!IsWhitespace(r[0]) && !IsWhitespace(r[|r| - 1]))
  {
    TrimEnd(TrimStart(s))
  }

  /**
   * What `trim` returns is `s` itself with the whitespace at both edges cut
   * off: an infix starting after the leading whitespace, followed in `s` by
   * whitespace only.
   */
  lemma TrimCutsEdges(s: string)
    ensures Leading(s) + |Trim(s)| <= |s|
    ensures Trim(s) == s[Leading(s)..Leading(s) + |Trim(s)|]
    ensures AllWhitespace(s[..Leading(s)]) && AllWhitespace(s[Leading(s) + |Trim(s)|..])
  {
    var t := TrimStart(s);
    var r := TrimEnd(t);
    var i := |s| - |t|;
    var j := i + |r|;
    assert t == s[i..];
    assert r == t[..|r|];
    assert r == s[i..j];
    assert forall k :: 0 <= k < i ==> s[..i][k] == s[k];
    assert forall k :: 0 <= k < |s| - j ==> s[j..][k] == t[|r| + k];
  }

  /** A string that trim would leave alone. */
  predicate IsTrimmed(s: string)
  {
    s == [] || (!IsWhitespace(s[0]) && !IsWhitespace(s[|s| - 1]))
  }

  predicate AllWhitespace(s: string)
  {
    forall i :: 0 <= i < |s| ==> IsWhitespace(s[i])
  }

  /** Trimming a trimmed string changes nothing, so trim is idempotent. */
  lemma TrimOfTrimmed(s: string)
    requires IsTrimmed(s)
    ensures Trim(s) == s
  {
    assert TrimStart(s) == s;
  }

  lemma TrimIdempotent(s: string)
    ensures Trim(Trim(s)) == Trim(s)
  {
    TrimOfTrimmed(Trim(s));
  }

  /** `s.trim() === ""` exactly when `s` is made of whitespace only. */
  lemma {:induction false} TrimEmptyIffWhitespace(s: string)
    ensures Trim(s) == "" <==> AllWhitespace(s)
  {
    if |s| > 0 && IsWhitespace(s[0]) {
      TrimEmptyIffWhitespace(s[1..]);
      assert AllWhitespace(s) <==> AllWhitespace(s[1..]) by {
        forall i | 0 <= i < |s[1..]| ensures s[1..][i] == s[i + 1] { }
      }
    } else if |s| > 0 {
      assert TrimStart(s) == s;
      assert !AllWhitespace(s);
    }
  }

  function LowerChar(c: char): char
  {
    if 'A' <= c <= 'Z' then (c as int + 32) as char else c
  }

  /** `s.toLowerCase()` restricted to ASCII letters. */
  function ToLower(s: string): (r: string)
    ensures |r| == |s|
    ensures forall i :: 0 <= i < |s| ==> r[i] == LowerChar(s[i])
  {
    if s == [] then [] else [LowerChar(s[0])] + ToLower(s[1..])
  }

  lemma LowerCharKeepsWhitespace(c: char)
    ensures IsWhitespace(LowerChar(c)) <==> IsWhitespace(c)
  {
  }

  lemma {:induction false} LowerTrimStartCommute(s: string)
    ensures TrimStart(ToLower(s)) == ToLower(TrimStart(s))
  {
    if |s| > 0 {
      LowerCharKeepsWhitespace(s[0]);
      assert ToLower(s)[1..] == ToLower(s[1..]);
      if IsWhitespace(s[0]) {
        LowerTrimStartCommute(s[1..]);
      }
    }
  }

  lemma {:induction false} LowerTrimEndCommute(s: string)
    ensures TrimEnd(ToLower(s)) == ToLower(TrimEnd(s))
  {
    if |s| > 0 {
      LowerCharKeepsWhitespace(s[|s| - 1]);
      assert ToLower(s)[..|s| - 1] == ToLower(s[..|s| - 1]);
      if IsWhitespace(s[|s| - 1]) {
        LowerTrimEndCommute(s[..|s| - 1]);
      }
    }
  }

  /** `s.toLowerCase().trim()` and `s.trim().toLowerCase()` agree. */
  lemma LowerTrimCommute(s: string)
    ensures Trim(ToLower(s)) == ToLower(Trim(s))
  {
    LowerTrimStartCommute(s);
    LowerTrimEndCommute(TrimStart(s));
  }

  function StartsWith(s: string, prefix: string): bool
  {
    |prefix| <= |s| && s[..|prefix|] == prefix
  }

  /** `s.split(sep)` for a one-character separator: never empty, pieces free of `sep`. */
  function Split(s: string, sep: char): (r: seq<string>)
    ensures |r| >= 1
    ensures forall k :: 0 <= k < |r| ==> sep !in r[k]
  {
    if s == [] then [""]
    else if s[0] == sep then [""] + Split(s[1..], sep)
    else
      var rest := Split(s[1..], sep);
      [[s[0]] + rest[0]] + rest[1..]
  }

  /** `parts.join(sep)` for a one-character separator. */
  function Join(parts: seq<string>, sep: char): string
  {
    if parts == [] then ""
    else if |parts| == 1 then parts[0]
    else parts[0] + [sep] + Join(parts[1..], sep)
  }

  /** Splitting and re-joining with the same separator gives the string back. */
  lemma {:induction false} JoinSplit(s: string, sep: char)
    ensures Join(Split(s, sep), sep) == s
  {
    if s == [] {
    } else if s[0] == sep {
      JoinSplit(s[1..], sep);
      assert s == [sep] + s[1..];
    } else {
      var rest := Split(s[1..], sep);
      JoinSplit(s[1..], sep);
      if |rest| == 1 {
        assert s == [s[0]] + rest[0];
      } else {
        assert Split(s, sep)[1..] == rest[1..];
        assert s == [s[0]] + (rest[0] + [sep] + Join(rest[1..], sep));
      }
    }
  }

  /** A string without the separator splits into itself. */
  lemma {:induction false} SplitNoSep(s: string, sep: char)
    requires sep !in s
    ensures Split(s, sep) == [s]
  {
    if s != [] {
      SplitNoSep(s[1..], sep);
      assert [s[0]] + s[1..] == s;
    }
  }

  /** The first piece is the text before the first separator; the rest splits on its own. */
  lemma {:induction false} SplitAfter(w: string, rest: string, sep: char)
    requires sep !in w
    ensures Split(w + [sep] + rest, sep) == [w] + Split(rest, sep)
  {
    if w == [] {
      assert w + [sep] + rest == [sep] + rest;
    } else {
      SplitAfter(w[1..], rest, sep);
      assert (w + [sep] + rest)[1..] == w[1..] + [sep] + rest;
      assert [w[0]] + w[1..] == w;
    }
  }

  function ReplaceChar(s: string, from: char, to: char): (r: string)
    ensures |r| == |s|
    ensures forall i :: 0 <= i < |s| ==> r[i] == if s[i] == from then to else s[i]
  {
    if s == [] then [] else [if s[0] == from then to else s[0]] + ReplaceChar(s[1..], from, to)
  }

  /** `s.split(a).join(b)` replaces every `a` by `b`. */
  lemma {:induction false} SplitJoinReplaces(s: string, a: char, b: char)
    ensures Join(Split(s, a), b) == ReplaceChar(s, a, b)
  {
    if s == [] {
    } else if s[0] == a {
      SplitJoinReplaces(s[1..], a, b);
    } else {
      var rest := Split(s[1..], a);
      SplitJoinReplaces(s[1..], a, b);
      if |rest| > 1 {
        assert Split(s, a)[1..] == rest[1..];
      }
    }
  }

  // ---------------------------------------------------------------- numbers

  predicate IsDigit(c: char)
  {
    '0' <= c <= '9'
  }

  /** Length of the run of decimal digits at the start of `s`. */
  function DigitRun(s: string): (n: nat)
    ensures n <= |s|
    ensures forall i :: 0 <= i < n ==> IsDigit(s[i])
    ensures n < |s| ==> !IsDigit(s[n])
  {
    if |s| > 0 && IsDigit(s[0]) then 1 + DigitRun(s[1..]) else 0
  }

  function DigitsValue(d: string): (v: nat)
    requires forall i :: 0 <= i < |d| ==> IsDigit(d[i])
  {
    if d == [] then 0
    else
      assert IsDigit(d[|d| - 1]);
      DigitsValue(d[..|d| - 1]) * 10 + (d[|d| - 1] as int - '0' as int)
  }

  function Pow10(k: nat): (p: nat)
    ensures p >= 1
  {
    if k == 0 then 1 else 10 * Pow10(k - 1)
  }

  /**
   * The unsigned decimal literal at the start of `t` (digits, an optional dot,
   * digits; at least one digit somewhere), as its value and the number of
   * characters it spans. Exponents are not recognised.
   */
  function UnsignedDecimal(t: string): (r: Option<(real, nat)>)
    ensures r.Some? ==> r.value.0 >= 0.0 && 1 <= r.value.1 <= |t|
  {
    var a := DigitRun(t);
    var hasDot := a < |t| && t[a] == '.';
    var b := if hasDot then DigitRun(t[a + 1..]) else 0;
    if a == 0 && b == 0 then None
    else
      var whole := DigitsValue(t[..a]) as real;
      var frac := if hasDot then DigitsValue(t[a + 1..][..b]) as real / Pow10(b) as real else 0.0;
      Some((whole + frac, if hasDot then a + 1 + b else a))
  }

  /** A leading `+` or `-`: the sign as a factor and the rest of the string. */
  function SignOf(t: string): (real, string)
  {
    if |t| > 0 && t[0] == '-' then (-1.0, t[1..])
    else if |t| > 0 && t[0] == '+' then (1.0, t[1..])
    else (1.0, t)
  }

  /** `parseFloat(s)` on a string: leading whitespace skipped, longest decimal prefix read. */
  function ParseFloat(s: string): Option<real>
  {
    var (sign, body) := SignOf(TrimStart(s));
    match UnsignedDecimal(body)
    case None => None
    case Some((v, _)) => Some(sign * v)
  }

  /** `parseInt(s, 10)` on a string: leading whitespace skipped, longest digit prefix read. */
  function ParseInt(s: string): Option<int>
  {
    var t := TrimStart(s);
    var negative := |t| > 0 && t[0] == '-';
    var body := if |t| > 0 && (t[0] == '-' || t[0] == '+') then t[1..] else t;
    var n := DigitRun(body);
    if n == 0 then None
    else
      var magnitude: int := DigitsValue(body[..n]);
      Some(if negative then -magnitude else magnitude)
  }

  /** `Number(s)`: the whole trimmed string must be one decimal literal; blank is 0. */
  function NumberOf(s: string): Option<real>
  {
    var t := Trim(s);
    if t == [] then Some(0.0)
    else
      var (sign, body) := SignOf(t);
      match UnsignedDecimal(body)
      case Some((v, len)) => if len == |body| then Some(sign * v) else None
      case None => None
  }

  /** `Math.trunc`, which is what `parseInt` does to a plain decimal number. */
  function Trunc(x: real): int
  {
    if x >= 0.0 then x.Floor else -((-x).Floor)
  }

  /** `parseFloat(v)` for any body value: `parseFloat(String(v))`. */
  function ParseFloatValue(v: JsValue): Option<real>
  {
    match v
    case Str(s) => ParseFloat(s)
    case Num(n) => Some(n)
    case _ => None
  }

  /** `parseInt(v, 10)` for any body value: `parseInt(String(v), 10)`. */
  function ParseIntValue(v: JsValue): Option<int>
  {
    match v
    case Str(s) => ParseInt(s)
    case Num(n) => Some(Trunc(n))
    case _ => None
  }

  /** `Math.round`: halves go up. */
  function Round(x: real): (r: int)
    ensures x - 0.5 < r as real <= x + 0.5
  {
    (x + 0.5).Floor
  }

  /** `Math.ceil(n / d)` for a non-negative count and a positive divisor. */
  function CeilDiv(n: nat, d: int): (q: nat)
    requires d >= 1
  {
    (n + d - 1) / d
  }

  function Min(a: int, b: int): int
  {
    if a <= b then a else b
  }

  function Max(a: int, b: int): int
  {
    if a >= b then a else b
  }

  // ---------------------------------------------------------------- arrays

  /** `s.map(f)`. */
  function Map<T, U>(f: T -> U, s: seq<T>): (r: seq<U>)
    ensures |r| == |s|
    ensures forall i :: 0 <= i < |s| ==> r[i] == f(s[i])
  {
    if s == [] then [] else [f(s[0])] + Map(f, s[1..])
  }

  /** Mapping over one more element appends its image. */
  lemma MapSnoc<T, U>(f: T -> U, s: seq<T>, x: T)
    ensures Map(f, s + [x]) == Map(f, s) + [f(x)]
  {
  }

  /** `s.filter(f)`: the elements that pass, in their original order. */
  function Filter<T(!new)>(f: T -> bool, s: seq<T>): (r: seq<T>)
    ensures |r| <= |s|
    ensures forall x :: x in r <==> x in s && f(x)
  {
    if s == [] then [] else (if f(s[0]) then [s[0]] else []) + Filter(f, s[1..])
  }

  /** Filtering distributes over concatenation, so filter keeps relative order. */
  lemma {:induction false} FilterAppend<T(!new)>(f: T -> bool, a: seq<T>, b: seq<T>)
    ensures Filter(f, a + b) == Filter(f, a) + Filter(f, b)
  {
    if a == [] {
      assert a + b == b;
    } else {
      assert (a + b)[1..] == a[1..] + b;
      FilterAppend(f, a[1..], b);
    }
  }

  /** Filtering by `f` and then by `g` is filtering once by their conjunction. */
  lemma {:induction false} FilterCompose<T(!new)>(f: T -> bool, g: T -> bool, h: T -> bool, s: seq<T>)
    requires forall x :: h(x) == (f(x) && g(x))
    ensures Filter(g, Filter(f, s)) == Filter(h, s)
  {
    if s != [] {
      FilterCompose(f, g, h, s[1..]);
      if f(s[0]) {
        var t := Filter(f, s[1..]);
        assert Filter(f, s) == [s[0]] + t;
        assert ([s[0]] + t)[1..] == t;
        assert Filter(g, [s[0]] + t) == (if g(s[0]) then [s[0]] else []) + Filter(g, t);
        assert h(s[0]) == g(s[0]);
      } else {
        assert Filter(f, s) == Filter(f, s[1..]);
        assert !h(s[0]);
      }
    }
  }

  /** A filter whose predicate holds everywhere keeps the whole sequence. */
  lemma {:induction false} FilterAll<T(!new)>(f: T -> bool, s: seq<T>)
    requires forall x :: x in s ==> f(x)
    ensures Filter(f, s) == s
  {
    if s != [] {
      FilterAll(f, s[1..]);
    }
  }

  /** Filters by two predicates that agree everywhere give the same result. */
  lemma {:induction false} FilterPointwise<T(!new)>(f: T -> bool, g: T -> bool, s: seq<T>)
    requires forall x :: f(x) == g(x)
    ensures Filter(f, s) == Filter(g, s)
  {
    if s != [] {
      FilterPointwise(f, g, s[1..]);
    }
  }

  /** `s.findIndex(f)`, with `None` for -1: the first index whose element passes. */
  function FindIndex<T>(f: T -> bool, s: seq<T>): (r: Option<nat>)
    ensures r.Some? ==> r.value < |s| && f(s[r.value]) && forall j :: 0 <= j < r.value ==> !f(s[j])
    ensures r.None? ==> forall j :: 0 <= j < |s| ==> !f(s[j])
  {
    if s == [] then None
    else if f(s[0]) then Some(0)
    else match FindIndex(f, s[1..])
      case None => None
      case Some(k) => Some(k + 1)
  }

  /** Keys of an object held as an ordered list of properties. */
  function Keys<V>(obj: seq<(string, V)>): set<string>
  {
    set i | 0 <= i < |obj| :: obj[i].0
  }

  /** Appending a property adds its key. */
  lemma KeysSnoc<V>(obj: seq<(string, V)>, p: (string, V))
    ensures Keys(obj + [p]) == Keys(obj) + {p.0}
  {
    var r := obj + [p];
    forall k | k in Keys(r) ensures k in Keys(obj) + {p.0} {
      var i :| 0 <= i < |r| && r[i].0 == k;
      if i < |obj| { assert obj[i] == r[i]; }
    }
    forall k | k in Keys(obj) ensures k in Keys(r) {
      var i :| 0 <= i < |obj| && obj[i].0 == k;
      assert r[i] == obj[i];
    }
    assert r[|obj|] == p;
  }

  /** Looking a key up after appending a property: that property when the key is its own, as before otherwise. */
  lemma GetSnoc<V>(obj: seq<(string, V)>, p: (string, V), key: string)
    ensures Get(obj + [p], key) == if p.0 == key then Some(p.1) else Get(obj, key)
  {
    assert (obj + [p])[..|obj|] == obj;
  }

  predicate UniqueKeys<V>(obj: seq<(string, V)>)
  {
    forall i, j :: 0 <= i < j < |obj| ==> obj[i].0 != obj[j].0
  }

  /** `obj[key]` for an object held as an ordered property list; a later duplicate wins, as in `JSON.parse`. */
  function Get<V>(obj: seq<(string, V)>, key: string): (r: Option<V>)
    ensures r.Some? <==> key in Keys(obj)
  {
    if obj == [] then None
    else
      assert Keys(obj) == Keys(obj[..|obj| - 1]) + {obj[|obj| - 1].0};
      if obj[|obj| - 1].0 == key then Some(obj[|obj| - 1].1)
      else Get(obj[..|obj| - 1], key)
  }
}

/** The JavaScript string operations the widget relies on: `String.prototype.trim`,
    `Array.prototype.join` and the decimal rendering of a number in a template literal. */
module Strings {

  /** The code points `trim` removes: ECMAScript WhiteSpace (tab, vertical tab,
      form feed, no-break space, byte order mark and the space separators) and
      LineTerminator (line feed, carriage return, line and paragraph separators). */
  predicate IsJsWhitespace(c: char)
  {
    var n := c as int;
    n == 0x09 || n == 0x0A || n == 0x0B || n == 0x0C || n == 0x0D || n == 0x20 || n == 0xA0
    || n == 0x1680 || (0x2000 <= n <= 0x200A) || n == 0x2028 || n == 0x2029 || n == 0x202F
    || n == 0x205F || n == 0x3000 || n == 0xFEFF
  }

  /** Drops the leading whitespace. */
  function TrimStart(s: string): string
  {
    if s != [] && IsJsWhitespace(s[0]) then TrimStart(s[1..]) else s
  }

  /** What `TrimStart` leaves is a suffix of `s` that starts with a
      non-whitespace character, and everything it dropped was whitespace. */
  lemma {:induction false} TrimStartSpec(s: string)
    ensures var r := TrimStart(s);
      && |r| <= |s| && r == s[|s| - |r|..]
      && (r != [] ==> !IsJsWhitespace(r[0]))
      && (forall k :: 0 <= k < |s| - |r| ==> IsJsWhitespace(s[k]))
    decreases |s|
  {
    if s != [] && IsJsWhitespace(s[0]) {
      TrimStartSpec(s[1..]);
      forall k | 0 <= k < |s| - |TrimStart(s)|
        ensures IsJsWhitespace(s[k])
      {
        if k > 0 {
          assert s[k] == s[1..][k - 1];
        }
      }
    }
  }

  /** Drops the trailing whitespace. */
  function TrimEnd(s: string): string
  {
    if s != [] && IsJsWhitespace(s[|s| - 1]) then TrimEnd(s[..|s| - 1]) else s
  }

  /** What `TrimEnd` leaves is a prefix of `s` that ends with a non-whitespace
      character, and everything it dropped was whitespace. */
  lemma {:induction false} TrimEndSpec(s: string)
    ensures var r := TrimEnd(s);
      && |r| <= |s| && r == s[..|r|]
      && (r != [] ==> !IsJsWhitespace(r[|r| - 1]))
      && (forall k :: |r| <= k < |s| ==> IsJsWhitespace(s[k]))
    decreases |s|
  {
    if s != [] && IsJsWhitespace(s[|s| - 1]) {
      TrimEndSpec(s[..|s| - 1]);
      forall k | |TrimEnd(s)| <= k < |s|
        ensures IsJsWhitespace(s[k])
      {
        if k < |s| - 1 {
          assert s[k] == s[..|s| - 1][k];
        }
      }
    }
  }

  /** `s.trim()`. */
  function Trim(s: string): string
  {
    TrimEnd(TrimStart(s))
  }

  /** `s.trim()` is the slice of `s` between its first and last non-whitespace
      characters, and it is empty exactly when `s` is blank. */
  lemma TrimSpec(s: string)
    ensures var r := Trim(s);
      && (r == [] <==> forall k :: 0 <= k < |s| ==> IsJsWhitespace(s[k]))
      && (r != [] ==> !IsJsWhitespace(r[0]) && !IsJsWhitespace(r[|r| - 1]))
      && |TrimStart(s)| <= |s| && |s| - |TrimStart(s)| + |r| <= |s|
      && r == s[|s| - |TrimStart(s)|..|s| - |TrimStart(s)| + |r|]
      && (forall k :: 0 <= k < |s| - |TrimStart(s)| ==> IsJsWhitespace(s[k]))
      && (forall k :: |s| - |TrimStart(s)| + |r| <= k < |s| ==> IsJsWhitespace(s[k]))
  {
    var t := TrimStart(s);
    TrimStartSpec(s);
    TrimEndSpec(t);
    var r := TrimEnd(t);
    var i := |s| - |t|;
    forall k | i <= k < |s|
      ensures s[k] == t[k - i]
    {
    }
    if r == [] {
      assert t == [];
    } else {
      assert r[0] == t[0];
    }
  }

  /** Trimming twice is trimming once. */
  lemma TrimIdempotent(s: string)
    ensures Trim(Trim(s)) == Trim(s)
  {
    var r := Trim(s);
    TrimSpec(s);
    if r != [] {
      assert TrimStart(r) == r;
      assert TrimEnd(r) == r;
    }
  }

  /** `parts.join(sep)`, accumulated the way the engine does it: the last part is
      appended after the join of the others. */
  function Join(parts: seq<string>, sep: string): string
    decreases |parts|
  {
    if |parts| == 0 then ""
    else if |parts| == 1 then parts[0]
    else Join(parts[..|parts| - 1], sep) + sep + parts[|parts| - 1]
  }

  /** Read from the front, a join is the first part, then the separator and
      the join of the rest. */
  lemma {:induction false} JoinCons(p: string, ps: seq<string>, sep: string)
    ensures Join([p] + ps, sep) == if ps == [] then p else p + sep + Join(ps, sep)
    decreases |ps|
  {
    if |ps| > 1 {
      var init := ps[..|ps| - 1];
      assert ([p] + ps)[..|[p] + ps| - 1] == [p] + init;
      JoinCons(p, init, sep);
    } else if |ps| == 1 {
      assert ([p] + ps)[..1] == [p];
    }
  }

  /** A join of at least one part begins with the first part. */
  lemma JoinStartsWithFirst(parts: seq<string>, sep: string)
    requires parts != []
    ensures |parts[0]| <= |Join(parts, sep)| && Join(parts, sep)[..|parts[0]|] == parts[0]
  {
    assert parts == [parts[0]] + parts[1..];
    JoinCons(parts[0], parts[1..], sep);
  }

  /** Adding a part at the end adds the separator and that part, nothing else. */
  lemma JoinSnoc(ps: seq<string>, p: string, sep: string)
    ensures Join(ps + [p], sep) == if ps == [] then p else Join(ps, sep) + sep + p
  {
    assert (ps + [p])[..|ps + [p]| - 1] == ps;
  }

  /** The character for a decimal digit. */
  function DigitChar(d: nat): (c: char)
    requires d < 10
    ensures '0' <= c <= '9' && c as int - '0' as int == d
  {
    ('0' as int + d) as char
  }

  /** A number rendered in a template literal (`${n}`) for the naturals: the
      shortest decimal numeral. */
  function NatToString(n: nat): (r: string)
    ensures |r| >= 1
    ensures forall k :: 0 <= k < |r| ==> '0' <= r[k] <= '9'
    ensures |r| > 1 ==> r[0] != '0'
  {
    if n < 10 then [DigitChar(n)] else NatToString(n / 10) + [DigitChar(n % 10)]
  }

  /** The value of a decimal numeral. */
  function DecimalValue(s: string): nat
    requires forall k :: 0 <= k < |s| ==> '0' <= s[k] <= '9'
  {
    if s == [] then 0 else DecimalValue(s[..|s| - 1]) * 10 + (s[|s| - 1] as int - '0' as int)
  }

  /** The numeral of `n` reads back as `n`, so distinct numbers get distinct numerals. */
  lemma {:induction false} NatToStringRoundTrip(n: nat)
    ensures DecimalValue(NatToString(n)) == n
  {
    if n >= 10 {
      var s := NatToString(n);
      assert s[..|s| - 1] == NatToString(n / 10);
      NatToStringRoundTrip(n / 10);
    }
  }

  lemma NatToStringInjective(a: nat, b: nat)
    ensures NatToString(a) == NatToString(b) ==> a == b
  {
    NatToStringRoundTrip(a);
    NatToStringRoundTrip(b);
  }
}

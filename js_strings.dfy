/** The JavaScript built-ins on strings, arrays and numbers that the screens depend on,
    over Dafny strings (`seq<char>`, one element per Unicode scalar value) and unbounded
    integers. For text within the Basic Multilingual Plane an element is one UTF-16 code
    unit, as in JavaScript. */
module JsStrings {
  import opened Wrappers

  // ---------------------------------------------------------------------------
  // indexOf, split, join
  // ---------------------------------------------------------------------------

  /** `indexOf` for one element: the first position holding `x`, or -1 when there is none. */
  function IndexOf<T(==)>(s: seq<T>, x: T): (r: int)
    ensures -1 <= r < |s|
    ensures r == -1 <==> x !in s
    ensures 0 <= r ==> s[r] == x
    ensures forall i :: 0 <= i < r ==> s[i] != x
  {
    if |s| == 0 then -1
    else if s[0] == x then 0
    else
      var k := IndexOf(s[1..], x);
      if k == -1 then
        assert forall i :: 0 <= i < |s| ==> s[i] != x by {
          assert forall i :: 1 <= i < |s| ==> s[i] == s[1..][i - 1];
        }
        -1
      else
        k + 1
  }

  /** `String.prototype.split` with a one-character separator: the pieces between the
      separators, in order; there is always at least one piece (`"".split(",")` is `[""]`).
      Defined a character at a time: a separator starts a new piece, any other character
      joins the first piece of the rest. */
  function Split(s: string, sep: char): (r: seq<string>)
    ensures |r| >= 1
  {
    if |s| == 0 then [""]
    else
      var rest := Split(s[1..], sep);
      if s[0] == sep then [""] + rest
      else [[s[0]] + rest[0]] + rest[1..]
  }

  /** A split has a single piece exactly when the separator does not occur. */
  lemma {:induction false} SplitSingle(s: string, sep: char)
    ensures |Split(s, sep)| == 1 <==> sep !in s
    decreases |s|
  {
    if |s| > 0 {
      SplitSingle(s[1..], sep);
      assert s == [s[0]] + s[1..];
    }
  }

  /** No piece of a split contains the separator. */
  lemma {:induction false} SplitPieces(s: string, sep: char)
    ensures forall i :: 0 <= i < |Split(s, sep)| ==> sep !in Split(s, sep)[i]
    decreases |s|
  {
    if |s| > 0 {
      SplitPieces(s[1..], sep);
      var rest := Split(s[1..], sep);
      if s[0] == sep {
        assert forall i :: 1 <= i < |Split(s, sep)| ==> Split(s, sep)[i] == rest[i - 1];
      } else {
        assert sep !in [s[0]] + rest[0];
        assert forall i :: 1 <= i < |Split(s, sep)| ==> Split(s, sep)[i] == rest[i];
      }
    }
  }

  /** A separator-free prefix becomes the start of the first piece. */
  lemma {:induction false} SplitPrefix(a: string, b: string, sep: char)
    requires sep !in a
    ensures Split(a + b, sep) == [a + Split(b, sep)[0]] + Split(b, sep)[1..]
    decreases |a|
  {
    if |a| > 0 {
      var c, u := a[0], a[1..];
      var pieces := Split(b, sep);
      SplitPrefix(u, b, sep);
      assert a + b == [c] + (u + b);
      SplitCons(c, u + b, sep);
      assert [c] + (u + pieces[0]) == a + pieces[0];
    } else {
      assert a + b == b;
      assert a + Split(b, sep)[0] == Split(b, sep)[0];
    }
  }

  /** A character other than the separator joins the first piece. */
  lemma SplitCons(c: char, t: string, sep: char)
    requires c != sep
    ensures Split([c] + t, sep) == [[c] + Split(t, sep)[0]] + Split(t, sep)[1..]
  {
    assert ([c] + t)[1..] == t;
  }

  /** What follows the first separator does not affect the first piece. */
  lemma {:induction false} SplitFirstPiece(a: string, b: string, sep: char)
    requires sep in a
    ensures Split(a + b, sep)[0] == Split(a, sep)[0]
    decreases |a|
  {
    assert (a + b)[1..] == a[1..] + b;
    if a[0] != sep {
      SplitFirstPiece(a[1..], b, sep);
    }
  }

  /** The split at the first separator, as `indexOf` finds it: the first piece is what
      precedes it and the other pieces are the split of what follows it. */
  lemma SplitAt(s: string, sep: char)
    requires sep in s
    ensures Split(s, sep) == [s[..IndexOf(s, sep)]] + Split(s[IndexOf(s, sep) + 1..], sep)
  {
    SplitAtFirst(s, sep, IndexOf(s, sep));
  }

  /** The split at a separator with none before it. */
  lemma SplitAtFirst(s: string, sep: char, k: int)
    requires 0 <= k < |s| && s[k] == sep
    requires forall i :: 0 <= i < k ==> s[i] != sep
    ensures Split(s, sep) == [s[..k]] + Split(s[k + 1..], sep)
  {
    var a, t := s[..k], s[k + 1..];
    assert forall i :: 0 <= i < k ==> a[i] == s[i];
    assert sep !in a;
    assert s == a + ([sep] + t);
    SplitPrefix(a, [sep] + t, sep);
    SplitSep(t, sep);
    assert a + "" == a;
  }

  /** A separator-free piece followed by a separator is the first piece of the split. */
  lemma SplitAfterPiece(a: string, t: string, sep: char)
    requires sep !in a
    ensures Split(a + [sep] + t, sep) == [a] + Split(t, sep)
  {
    assert a + [sep] + t == a + ([sep] + t);
    SplitPrefix(a, [sep] + t, sep);
    SplitSep(t, sep);
    assert a + "" == a;
  }

  /** Text without the separator is a single piece. */
  lemma SplitWhole(s: string, sep: char)
    requires sep !in s
    ensures Split(s, sep) == [s]
  {
    SplitPrefix(s, "", sep);
    assert s + "" == s;
  }

  /** A leading separator ends an empty first piece. */
  lemma SplitSep(t: string, sep: char)
    ensures Split([sep] + t, sep) == [""] + Split(t, sep)
  {
    assert ([sep] + t)[1..] == t;
  }

  /** `Array.prototype.join`: the parts with `sep` between consecutive ones. */
  function Join(parts: seq<string>, sep: string): string
  {
    if |parts| == 0 then ""
    else if |parts| == 1 then parts[0]
    else parts[0] + sep + Join(parts[1..], sep)
  }

  /** Joining the pieces of a split with the separator gives the string back. */
  lemma {:induction false} JoinSplit(s: string, sep: char)
    ensures Join(Split(s, sep), [sep]) == s
    decreases |s|
  {
    if |s| > 0 {
      var rest := Split(s[1..], sep);
      JoinSplit(s[1..], sep);
      if s[0] == sep {
        JoinCons("", rest, [sep]);
      } else {
        JoinPrepend([s[0]], rest, [sep]);
      }
      assert s == [s[0]] + s[1..];
    }
  }

  /** Join of a part followed by at least one more part. */
  lemma JoinCons(a: string, rest: seq<string>, sep: string)
    requires |rest| >= 1
    ensures Join([a] + rest, sep) == a + sep + Join(rest, sep)
  {
    assert ([a] + rest)[1..] == rest;
  }

  /** Prefixing the first part prefixes the join. */
  lemma JoinPrepend(c: string, parts: seq<string>, sep: string)
    requires |parts| >= 1
    ensures Join([c + parts[0]] + parts[1..], sep) == c + Join(parts, sep)
  {
    if |parts| > 1 {
      JoinCons(c + parts[0], parts[1..], sep);
      JoinCons(parts[0], parts[1..], sep);
      assert parts == [parts[0]] + parts[1..];
    } else {
      assert [c + parts[0]] + parts[1..] == [c + parts[0]];
    }
  }

  /** Splitting a join of separator-free parts gives the parts back. */
  lemma {:induction false} SplitJoin(parts: seq<string>, sep: char)
    requires |parts| >= 1
    requires forall i :: 0 <= i < |parts| ==> sep !in parts[i]
    ensures Split(Join(parts, [sep]), sep) == parts
    decreases |parts|
  {
    if |parts| == 1 {
      SplitWhole(parts[0], sep);
    } else {
      SplitJoin(parts[1..], sep);
      SplitAfterPiece(parts[0], Join(parts[1..], [sep]), sep);
      assert parts == [parts[0]] + parts[1..];
    }
  }

  /** `a.slice(0, k)`: the first `k` elements, or all of them when there are fewer. */
  function Take<T>(a: seq<T>, k: nat): (r: seq<T>)
    ensures |r| == if |a| < k then |a| else k
    ensures r == a[..|r|]
  {
    if |a| < k then a else a[..k]
  }

  /** `a.slice(k)`: the elements from index `k` on, exactly those that `a.slice(0, k)` leaves. */
  function Drop<T>(a: seq<T>, k: nat): (r: seq<T>)
    ensures Take(a, k) + r == a
  {
    if |a| < k then [] else a[k..]
  }

  /** `String.prototype.substring(1)`: the string without its first character
      (the empty string stays empty). */
  function DropFirst(s: string): (r: string)
    ensures |s| > 0 ==> [s[0]] + r == s
    ensures |s| == 0 ==> r == s
  {
    if |s| == 0 then s else s[1..]
  }

  // ---------------------------------------------------------------------------
  // White space and trim
  // ---------------------------------------------------------------------------

  /** The white-space and line-terminator code units that `trim` and `parseInt` skip
      (StrWhiteSpaceChar of ECMA-262). */
  predicate IsWhiteSpace(c: char)
  {
    || c == '\t' || c == '\n' || c == '\U{B}' || c == '\U{C}' || c == '\r' || c == ' '
    || c == '\U{A0}' || c == '\U{1680}' || ('\U{2000}' <= c <= '\U{200A}')
    || c == '\U{2028}' || c == '\U{2029}' || c == '\U{202F}' || c == '\U{205F}'
    || c == '\U{3000}' || c == '\U{FEFF}'
  }

  /** `String.prototype.trimStart`: the longest suffix that does not start with white space. */
  function TrimStart(s: string): (r: string)
    ensures |r| <= |s|
    ensures forall i {:trigger IsWhiteSpace(s[i])} :: 0 <= i < |s| - |r| ==> IsWhiteSpace(s[i])
    ensures r == [] || !IsWhiteSpace(r[0])
  {
    if |s| > 0 && IsWhiteSpace(s[0]) then TrimStart(s[1..]) else s
  }

  /** What `trimStart` keeps is the end of the string. */
  lemma {:induction false} TrimStartSuffix(s: string)
    ensures TrimStart(s) == s[|s| - |TrimStart(s)|..]
    decreases |s|
  {
    if |s| > 0 && IsWhiteSpace(s[0]) {
      TrimStartSuffix(s[1..]);
      assert s[1..][|s| - 1 - |TrimStart(s)|..] == s[|s| - |TrimStart(s)|..];
    }
  }

  /** `String.prototype.trimEnd`: the longest prefix that does not end with white space. */
  function TrimEnd(s: string): (r: string)
    ensures |r| <= |s|
    ensures forall i {:trigger IsWhiteSpace(s[i])} :: |r| <= i < |s| ==> IsWhiteSpace(s[i])
    ensures r == [] || !IsWhiteSpace(r[|r| - 1])
  {
    if |s| > 0 && IsWhiteSpace(s[|s| - 1]) then TrimEnd(s[..|s| - 1]) else s
  }

  /** What `trimEnd` keeps is the start of the string. */
  lemma {:induction false} TrimEndPrefix(s: string)
    ensures TrimEnd(s) == s[..|TrimEnd(s)|]
    decreases |s|
  {
    if |s| > 0 && IsWhiteSpace(s[|s| - 1]) {
      TrimEndPrefix(s[..|s| - 1]);
      assert s[..|s| - 1][..|TrimEnd(s)|] == s[..|TrimEnd(s)|];
    }
  }

  /** `String.prototype.trim`: white space removed from both ends, nothing else touched. */
  function Trim(s: string): (r: string)
    ensures r == [] || (!IsWhiteSpace(r[0]) && !IsWhiteSpace(r[|r| - 1]))
    ensures |r| <= |s|
  {
    TrimEndPrefix(TrimStart(s));
    TrimEnd(TrimStart(s))
  }

  /** `trim` keeps, unchanged, the text between the white space it removes in front and
      the white space it removes at the end. */
  lemma TrimKeepsMiddle(s: string)
    ensures var a := |s| - |TrimStart(s)|;
            a + |Trim(s)| <= |s| && Trim(s) == s[a..a + |Trim(s)|]
  {
    TrimStartSuffix(s);
    TrimEndPrefix(TrimStart(s));
  }

  // ---------------------------------------------------------------------------
  // parseInt and number-to-string
  // ---------------------------------------------------------------------------

  /** The value of `c` as a hexadecimal digit (either case), or -1. */
  function DigitValue(c: char): (d: int)
    ensures -1 <= d < 16
    ensures '0' <= c <= '9' ==> d == c as int - '0' as int
    ensures 'a' <= c <= 'f' ==> d == c as int - 'a' as int + 10
    ensures 'A' <= c <= 'F' ==> d == c as int - 'A' as int + 10
    ensures !('0' <= c <= '9' || 'a' <= c <= 'f' || 'A' <= c <= 'F') ==> d == -1
  {
    if '0' <= c <= '9' then c as int - '0' as int
    else if 'a' <= c <= 'f' then c as int - 'a' as int + 10
    else if 'A' <= c <= 'F' then c as int - 'A' as int + 10
    else -1
  }

  /** Whether `c` is a digit in base `radix`. */
  predicate IsDigit(c: char, radix: nat)
  {
    0 <= DigitValue(c) < radix
  }

  /** The length of the longest prefix of `s` made of base-`radix` digits. */
  function DigitRunLength(s: string, radix: nat): (n: nat)
    ensures n <= |s|
    ensures forall i {:trigger IsDigit(s[i], radix)} :: 0 <= i < n ==> IsDigit(s[i], radix)
    ensures n == |s| || !IsDigit(s[n], radix)
  {
    if |s| == 0 || !IsDigit(s[0], radix) then 0 else 1 + DigitRunLength(s[1..], radix)
  }

  /** The number that the digits `s` denote in base `radix` (10 or 16), most significant
      digit first. */
  function DigitsValue(s: string, radix: nat): nat
    requires radix == 10 || radix == 16
    requires forall i :: 0 <= i < |s| ==> IsDigit(s[i], radix)
  {
    if |s| == 0 then 0
    else
      var high := DigitsValue(s[..|s| - 1], radix);
      var low := DigitValue(s[|s| - 1]);
      assert IsDigit(s[|s| - 1], radix);
      (if radix == 16 then high * 16 else high * 10) + low
  }

  /** `parseInt(s)` with no radix argument: leading white space is skipped, then an optional
      sign, then a `0x`/`0X` prefix switches to base 16; the longest run of digits that
      follows is the value and the rest of the string is ignored. `None` stands for `NaN`
      (no digit at all). */
  function ParseInt(s: string): Option<int>
  {
    ParseSigned(TrimStart(s))
  }

  /** `parseInt` after the white space: an optional sign, then the magnitude. */
  function ParseSigned(t: string): Option<int>
  {
    var negative := |t| > 0 && t[0] == '-';
    var signed := |t| > 0 && (t[0] == '-' || t[0] == '+');
    match ParseMagnitude(if signed then t[1..] else t)
    case None => None
    case Some(m) => Some(if negative then -(m as int) else m)
  }

  /** `parseInt` after the sign: the run of hexadecimal digits behind a `0x`/`0X` prefix,
      otherwise the run of decimal digits; `None` when the run is empty. */
  function ParseMagnitude(u: string): Option<nat>
  {
    var hex := |u| >= 2 && u[0] == '0' && (u[1] == 'x' || u[1] == 'X');
    var radix := if hex then 16 else 10;
    var v := if hex then u[2..] else u;
    var n := DigitRunLength(v, radix);
    if n == 0 then None else Some(DigitsValue(v[..n], radix))
  }

  /** The decimal digit character for `d`. */
  function DigitChar(d: nat): (c: char)
    requires d < 10
    ensures IsDigit(c, 10) && DigitValue(c) == d
  {
    ('0' as int + d) as char
  }

  /** The decimal numeral of a natural number, without leading zeros. */
  function NatToString(n: nat): (s: string)
    ensures |s| >= 1
    ensures forall i {:trigger IsDigit(s[i], 10)} :: 0 <= i < |s| ==> IsDigit(s[i], 10)
    ensures s[0] == '0' ==> s == "0"
  {
    if n < 10 then [DigitChar(n)] else NatToString(n / 10) + [DigitChar(n % 10)]
  }

  /** `${n}` for an integral number: its decimal numeral, with `-` when negative. */
  function NumberToString(n: int): (s: string)
    ensures |s| >= 1
    ensures ',' !in s && '/' !in s
    ensures !IsWhiteSpace(s[0]) && !IsWhiteSpace(s[|s| - 1])
  {
    var digits := NatToString(if n < 0 then -n else n);
    assert forall i :: 0 <= i < |digits| ==> digits[i] != ',' && digits[i] != '/' && !IsWhiteSpace(digits[i]) by {
      forall i | 0 <= i < |digits| ensures digits[i] != ',' && digits[i] != '/' && !IsWhiteSpace(digits[i]) {
        assert IsDigit(digits[i], 10);
      }
    }
    if n < 0 then "-" + digits else digits
  }

  /** The digits of a numeral denote the number it was written from. */
  lemma {:induction false} DigitsValueOfNatToString(n: nat)
    ensures DigitsValue(NatToString(n), 10) == n
  {
    if n >= 10 {
      var s := NatToString(n);
      assert s[..|s| - 1] == NatToString(n / 10);
      DigitsValueOfNatToString(n / 10);
    }
  }

  /** A run of digits followed by a non-digit: the run stops exactly there. */
  lemma {:induction false} DigitRunOfPrefix(a: string, b: string, radix: nat)
    requires forall i :: 0 <= i < |a| ==> IsDigit(a[i], radix)
    requires b == [] || !IsDigit(b[0], radix)
    ensures DigitRunLength(a + b, radix) == |a|
    decreases |a|
  {
    if |a| > 0 {
      assert (a + b)[1..] == a[1..] + b;
      DigitRunOfPrefix(a[1..], b, radix);
    } else {
      assert a + b == b;
    }
  }

  /** The magnitude read from a numeral followed by text that does not continue it. */
  lemma ParseMagnitudeOfNumeral(m: nat, rest: string)
    requires rest == [] || (!IsDigit(rest[0], 10) && rest[0] != 'x' && rest[0] != 'X')
    ensures ParseMagnitude(NatToString(m) + rest) == Some(m)
  {
    var digits := NatToString(m);
    var u := digits + rest;
    assert u[..|digits|] == digits;
    if |u| >= 2 && u[0] == '0' {
      assert digits == "0";
      assert u[1] == rest[0];
    }
    DigitRunOfPrefix(digits, rest, 10);
    DigitsValueOfNatToString(m);
  }

  /** `parseInt` reads back any integer written in decimal, whatever non-digit text follows
      it (so `parseInt('254"')` is 254). */
  lemma ParseIntOfNumeral(n: int, rest: string)
    requires rest == [] || (!IsDigit(rest[0], 10) && rest[0] != 'x' && rest[0] != 'X')
    ensures ParseInt(NumberToString(n) + rest) == Some(n)
  {
    var s := NumberToString(n) + rest;
    assert s[0] == NumberToString(n)[0];
    TrimStartOfNonSpace(s);
    ParseSignedOfNumeral(n, rest);
  }

  /** The sign and magnitude of a numeral followed by text that does not continue it. */
  lemma ParseSignedOfNumeral(n: int, rest: string)
    requires rest == [] || (!IsDigit(rest[0], 10) && rest[0] != 'x' && rest[0] != 'X')
    ensures ParseSigned(NumberToString(n) + rest) == Some(n)
  {
    if n < 0 {
      ParseSignedOfNegative(n, rest);
    } else {
      ParseMagnitudeOfNumeral(n, rest);
      assert NatToString(n)[0] == (NatToString(n) + rest)[0];
      ParseSignedOfDigit(NatToString(n) + rest, n);
    }
  }

  /** A negative numeral: the minus sign, then the numeral of the magnitude. */
  lemma ParseSignedOfNegative(n: int, rest: string)
    requires n < 0
    requires rest == [] || (!IsDigit(rest[0], 10) && rest[0] != 'x' && rest[0] != 'X')
    ensures ParseSigned(NumberToString(n) + rest) == Some(n)
  {
    var m: nat := -n;
    ParseMagnitudeOfNumeral(m, rest);
    NegativeNumeral(m, rest);
    ParseSignedOfMinusPrefix(NatToString(m), rest, m);
  }

  /** The text of a negative number is a minus sign before the digits of its magnitude. */
  lemma NegativeNumeral(m: nat, rest: string)
    requires m > 0
    ensures NumberToString(-(m as int)) + rest == "-" + NatToString(m) + rest
  {
  }

  /** A minus sign before a magnitude, whatever its digits. */
  lemma ParseSignedOfMinusPrefix(d: string, rest: string, m: nat)
    requires ParseMagnitude(d + rest) == Some(m)
    ensures ParseSigned("-" + d + rest) == Some(-(m as int))
  {
    var t := "-" + d + rest;
    assert t[1..] == d + rest;
    ParseSignedOfMinus(t, m);
  }

  /** A minus sign negates the magnitude that follows it. */
  lemma ParseSignedOfMinus(t: string, m: nat)
    requires |t| > 0 && t[0] == '-'
    requires ParseMagnitude(t[1..]) == Some(m)
    ensures ParseSigned(t) == Some(-(m as int))
  {
  }

  /** Without a sign the magnitude is the value. */
  lemma ParseSignedOfDigit(u: string, m: nat)
    requires |u| > 0 && IsDigit(u[0], 10) && ParseMagnitude(u) == Some(m)
    ensures ParseSigned(u) == Some(m)
  {
  }

  /** `trimStart` leaves a string alone when its first character is not white space. */
  lemma TrimStartOfNonSpace(s: string)
    requires s == [] || !IsWhiteSpace(s[0])
    ensures TrimStart(s) == s
  {
  }

  /** `parseInt` of text that starts with neither white space, a sign nor a digit is `NaN`
      (for instance a string that starts with a quote). */
  lemma ParseIntOfNonNumeral(s: string)
    requires s == [] || (!IsWhiteSpace(s[0]) && s[0] != '-' && s[0] != '+' && !IsDigit(s[0], 10))
    ensures ParseInt(s) == None
  {
    assert TrimStart(s) == s;
  }

  // ---------------------------------------------------------------------------
  // replace (first occurrence of a string pattern)
  // ---------------------------------------------------------------------------

  /** Whether `pat` occurs in `s` starting at position `i`. */
  predicate OccursAt(s: string, pat: string, i: int)
  {
    0 <= i && i + |pat| <= |s| && s[i..i + |pat|] == pat
  }

  /** The first position at or after `from` where `pat` occurs, or -1. */
  function SearchFrom(s: string, pat: string, from: nat): (r: int)
    ensures r == -1 || (from <= r && OccursAt(s, pat, r))
    ensures forall j :: from <= j && (r == -1 || j < r) ==> !OccursAt(s, pat, j)
    decreases |s| + 1 - from
  {
    if from + |pat| > |s| then -1
    else if s[from..from + |pat|] == pat then from
    else SearchFrom(s, pat, from + 1)
  }

  /** `String.prototype.replace` with a string pattern: only the FIRST occurrence of `pat`
      is replaced by `rep`; without an occurrence the string is returned unchanged. */
  function ReplaceFirst(s: string, pat: string, rep: string): string
  {
    var i := SearchFrom(s, pat, 0);
    if i == -1 then s else s[..i] + rep + s[i + |pat|..]
  }

  /** Without an occurrence of the pattern, `replace` returns the string unchanged. */
  lemma ReplaceFirstAbsent(s: string, pat: string, rep: string)
    requires forall j :: !OccursAt(s, pat, j)
    ensures ReplaceFirst(s, pat, rep) == s
  {
  }

  /** With a first occurrence at `i`, `replace` puts `rep` in its place and keeps everything
      before and after it. */
  lemma ReplaceFirstAt(s: string, pat: string, rep: string, i: int)
    requires OccursAt(s, pat, i)
    requires forall j :: 0 <= j < i ==> !OccursAt(s, pat, j)
    ensures ReplaceFirst(s, pat, rep) == s[..i] + rep + s[i + |pat|..]
  {
  }
}

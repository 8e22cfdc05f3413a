/**
 * The few Python string operations the capture script relies on:
 * `str.strip()`, `str.split(sep)` (with `sep.join` as its inverse) and
 * `str(n)` for integers (with its parse as its inverse).
 */
module Strings {
  import opened Wrappers

  /** Python's `str.isspace()` on one character: the ASCII separators and the Unicode spaces. */
  predicate IsSpace(c: char) {
    || ('\t' <= c <= '\r')
    || ('\U{1C}' <= c <= '\U{1F}')
    || c == ' '
    || c == '\U{85}'
    || c == '\U{A0}'
    || c == '\U{1680}'
    || ('\U{2000}' <= c <= '\U{200A}')
    || c == '\U{2028}'
    || c == '\U{2029}'
    || c == '\U{202F}'
    || c == '\U{205F}'
    || c == '\U{3000}'
  }

  /** `s.lstrip()`: what is left of `s` after dropping its leading whitespace. */
  function TrimStart(s: string): string
  {
    if |s| > 0 && IsSpace(s[0]) then TrimStart(s[1..]) else s
  }

  /** `s.lstrip()` is the suffix of `s` that does not start with whitespace, after whitespace only. */
  lemma {:induction false} TrimStartSpec(s: string)
    ensures var r := TrimStart(s);
      && |r| <= |s| && r == s[|s| - |r|..]
      && (r == [] || !IsSpace(r[0]))
      && (forall i :: 0 <= i < |s| - |r| ==> IsSpace(s[i]))
  {
    if |s| > 0 && IsSpace(s[0]) {
      TrimStartSpec(s[1..]);
    }
  }

  /** `s.rstrip()`: what is left of `s` after dropping its trailing whitespace. */
  function TrimEnd(s: string): string
  {
    if |s| > 0 && IsSpace(s[|s| - 1]) then TrimEnd(s[..|s| - 1]) else s
  }

  /** `s.rstrip()` is the prefix of `s` that does not end with whitespace, before whitespace only. */
  lemma {:induction false} TrimEndSpec(s: string)
    ensures var r := TrimEnd(s);
      && |r| <= |s| && r == s[..|r|]
      && (r == [] || !IsSpace(r[|r| - 1]))
      && (forall i :: |r| <= i < |s| ==> IsSpace(s[i]))
  {
    if |s| > 0 && IsSpace(s[|s| - 1]) {
      TrimEndSpec(s[..|s| - 1]);
    }
  }

  /** The number of whitespace characters `s` starts with. */
  function LeadingSpaces(s: string): nat
  {
    TrimStartSpec(s);
    |s| - |TrimStart(s)|
  }

  /** `s.strip()`. */
  function Strip(s: string): string
  {
    TrimEnd(TrimStart(s))
  }

  /**
   * `s.strip()` is the slice of `s` that starts after its leading whitespace,
   * leaves only whitespace after it, and neither starts nor ends with whitespace.
   */
  lemma StripSpec(s: string)
    ensures var r, a := Strip(s), LeadingSpaces(s);
            && (r == [] || (!IsSpace(r[0]) && !IsSpace(r[|r| - 1])))
            && a + |r| <= |s| && r == s[a..a + |r|]
            && (forall i :: 0 <= i < a ==> IsSpace(s[i]))
            && (forall i :: a + |r| <= i < |s| ==> IsSpace(s[i]))
  {
    var t := TrimStart(s);
    TrimStartSpec(s);
    var r := TrimEnd(t);
    TrimEndSpec(t);
    var a := |s| - |t|;
    assert r == s[a..a + |r|];
    assert forall i :: a + |r| <= i < |s| ==> s[i] == t[i - a];
  }

  /** A string with no whitespace at either end is its own `strip()`. */
  lemma StripUnchanged(s: string)
    requires s == [] || (!IsSpace(s[0]) && !IsSpace(s[|s| - 1]))
    ensures Strip(s) == s
  {
    var r := Strip(s);
    StripSpec(s);
    assert LeadingSpaces(s) == 0;
    assert |r| == |s|;
  }

  /** `s.index(c)`: the position of the first `c` in `s`. */
  function IndexOf<T(==)>(s: seq<T>, c: T): (i: nat)
    requires c in s
    ensures i < |s| && s[i] == c && c !in s[..i]
  {
    if s[0] == c then 0
    else
      var j := IndexOf(s[1..], c);
      assert s[..j + 1] == [s[0]] + s[1..][..j];
      j + 1
  }

  /** Any position that holds `c` with no `c` before it is the first occurrence. */
  lemma IndexOfUnique<T>(s: seq<T>, c: T, k: nat)
    requires k < |s| && s[k] == c && c !in s[..k]
    ensures IndexOf(s, c) == k
  {
    var i := IndexOf(s, c);
    assert s[..i + 1][..i] == s[..i];
    assert s[..k + 1][..k] == s[..k];
    assert s[k] in s[..k + 1];
    assert s[i] in s[..i + 1];
  }

  /** The first occurrence in a concatenation is in the part that holds one first. */
  lemma IndexOfAppend<T>(a: seq<T>, b: seq<T>, c: T)
    requires c in a + b
    ensures c in a ==> IndexOf(a + b, c) == IndexOf(a, c)
    ensures c !in a ==> IndexOf(a + b, c) == |a| + IndexOf(b, c)
  {
    if c in a {
      var j := IndexOf(a, c);
      assert (a + b)[..j] == a[..j];
      IndexOfUnique(a + b, c, j);
    } else {
      var j := IndexOf(b, c);
      assert (a + b)[..|a| + j] == a + b[..j];
      IndexOfUnique(a + b, c, |a| + j);
    }
  }

  /** `s.split(sep)`: the pieces between consecutive separators. */
  function Split(s: string, sep: char): seq<string>
    decreases |s|
  {
    if sep !in s then [s]
    else
      var i := IndexOf(s, sep);
      [s[..i]] + Split(s[i + 1..], sep)
  }

  /** One more piece than there are separators, none of them holding a separator. */
  lemma {:induction false} SplitSpec(s: string, sep: char)
    ensures |Split(s, sep)| == multiset(s)[sep] + 1
    ensures forall k :: 0 <= k < |Split(s, sep)| ==> sep !in Split(s, sep)[k]
    decreases |s|
  {
    if sep in s {
      var i := IndexOf(s, sep);
      assert s == s[..i] + [sep] + s[i + 1..];
      SplitSpec(s[i + 1..], sep);
    }
  }

  /** `sep.join(fields)`. */
  function Join(fields: seq<string>, sep: char): string
  {
    if fields == [] then []
    else if |fields| == 1 then fields[0]
    else fields[0] + [sep] + Join(fields[1..], sep)
  }

  /** Joining the pieces of a split gives back the string. */
  lemma {:induction false} JoinSplit(s: string, sep: char)
    ensures Join(Split(s, sep), sep) == s
    decreases |s|
  {
    if sep in s {
      var i := IndexOf(s, sep);
      JoinSplit(s[i + 1..], sep);
      assert s == s[..i] + [sep] + s[i + 1..];
    }
  }

  /** Splitting a join of separator-free pieces gives back the pieces. */
  lemma {:induction false} SplitJoin(fields: seq<string>, sep: char)
    requires |fields| >= 1
    requires forall k :: 0 <= k < |fields| ==> sep !in fields[k]
    ensures Split(Join(fields, sep), sep) == fields
  {
    if |fields| > 1 {
      var s := Join(fields, sep);
      var rest := Join(fields[1..], sep);
      assert s == fields[0] + [sep] + rest;
      assert s[|fields[0]|] == sep;
      assert s[..|fields[0]|] == fields[0];
      var i := IndexOf(s, sep);
      assert i == |fields[0]|;
      assert s[i + 1..] == rest;
      SplitJoin(fields[1..], sep);
    }
  }

  /** The pieces written one after another: `''.join(pieces)`. */
  function Concat(pieces: seq<string>): string
  {
    if pieces == [] then [] else pieces[0] + Concat(pieces[1..])
  }

  lemma {:induction false} ConcatAppend(a: seq<string>, b: seq<string>)
    ensures Concat(a + b) == Concat(a) + Concat(b)
  {
    if a != [] {
      assert (a + b)[1..] == a[1..] + b;
      ConcatAppend(a[1..], b);
    } else {
      assert a + b == b;
    }
  }

  /**
   * `f.readlines()` on a file holding `s`: the pieces up to and including each
   * newline, then what follows the last newline if anything does.
   */
  function Lines(s: string): seq<string>
    decreases |s|
  {
    if s == [] then []
    else if '\n' in s then
      var i := IndexOf(s, '\n');
      [s[..i + 1]] + Lines(s[i + 1..])
    else [s]
  }

  /** One whole line: it ends in a newline and holds no other. */
  predicate WholeLine(line: string) {
    |line| > 0 && line[|line| - 1] == '\n' && '\n' !in line[..|line| - 1]
  }

  /** Writing the lines one after another and reading them back loses nothing. */
  lemma {:induction false} ConcatLines(s: string)
    ensures Concat(Lines(s)) == s
    decreases |s|
  {
    if s != [] && '\n' in s {
      var i := IndexOf(s, '\n');
      ConcatLines(s[i + 1..]);
      assert s == s[..i + 1] + s[i + 1..];
    }
  }

  /**
   * Every line `readlines()` returns is a whole line, except that the last one
   * has no newline when the text does not end in one.
   */
  lemma {:induction false} LinesShape(s: string)
    ensures forall k :: 0 <= k < |Lines(s)| ==>
              WholeLine(Lines(s)[k]) || (k == |Lines(s)| - 1 && |Lines(s)[k]| > 0 && '\n' !in Lines(s)[k])
    ensures s == [] || s[|s| - 1] == '\n' ==> forall k :: 0 <= k < |Lines(s)| ==> WholeLine(Lines(s)[k])
    decreases |s|
  {
    if s != [] && '\n' in s {
      var i := IndexOf(s, '\n');
      var rest := s[i + 1..];
      LinesShape(rest);
      assert s[..i + 1][..i] == s[..i];
      assert WholeLine(s[..i + 1]);
      if s[|s| - 1] == '\n' && rest != [] {
        assert rest[|rest| - 1] == '\n';
      }
    }
  }

  lemma AppendAssociates<T>(x: seq<T>, y: seq<T>, z: seq<T>)
    ensures x + (y + z) == (x + y) + z
  {
  }

  /** The first line of a text is not disturbed by what is appended after its newline. */
  lemma FirstLineAppend(a: string, b: string)
    requires '\n' in a
    ensures var i := IndexOf(a, '\n');
            Lines(a + b) == [a[..i + 1]] + Lines(a[i + 1..] + b)
  {
    var i := IndexOf(a, '\n');
    var line, rest := a[..i + 1], a[i + 1..];
    assert a == line + rest;
    var ab := line + (rest + b);
    assert ab == a + b;
    IndexOfAppend(a, b, '\n');
    assert ab[..i + 1] == line;
    assert ab[i + 1..] == rest + b;
  }

  /** A text that ends in a newline is read as its lines followed by the lines of what comes after. */
  lemma {:induction false} LinesAppend(a: string, b: string)
    requires a == [] || a[|a| - 1] == '\n'
    ensures Lines(a + b) == Lines(a) + Lines(b)
    decreases |a|
  {
    if a == [] {
      assert a + b == b;
    } else {
      assert a[|a| - 1] in a;
      var i := IndexOf(a, '\n');
      var line, rest := a[..i + 1], a[i + 1..];
      assert rest == [] || rest[|rest| - 1] == a[|a| - 1];
      LinesAppend(rest, b);
      FirstLineAppend(a, b);
      AppendAssociates([line], Lines(rest), Lines(b));
      assert Lines(a) == [line] + Lines(rest);
    }
  }

  /** A whole line is read back as itself. */
  lemma LinesOfLine(line: string)
    requires WholeLine(line)
    ensures Lines(line) == [line]
  {
    var n := |line| - 1;
    IndexOfUnique(line, '\n', n);
    assert line[..n + 1] == line;
  }

  /** Reading back whole lines written one after another gives those lines. */
  lemma {:induction false} LinesConcat(lines: seq<string>)
    requires forall k :: 0 <= k < |lines| ==> WholeLine(lines[k])
    ensures Lines(Concat(lines)) == lines
  {
    if lines != [] {
      LinesConcat(lines[1..]);
      LinesOfLine(lines[0]);
      LinesAppend(lines[0], Concat(lines[1..]));
    }
  }

  predicate IsDigit(c: char) { '0' <= c <= '9' }

  predicate AllDigits(s: string) { forall k :: 0 <= k < |s| ==> IsDigit(s[k]) }

  function DigitChar(d: nat): (c: char)
    requires d < 10
    ensures IsDigit(c) && c as int - '0' as int == d
  {
    (d + '0' as int) as char
  }

  /** `str(n)` for a non-negative integer: its decimal digits, most significant first. */
  function NatString(n: nat): (s: string)
    ensures |s| >= 1 && AllDigits(s)
    decreases n
  {
    if n < 10 then [DigitChar(n)] else NatString(n / 10) + [DigitChar(n % 10)]
  }

  /** `str(n)` for any integer: a minus sign before the digits of a negative one. */
  function IntString(n: int): (s: string)
    ensures |s| >= 1
    ensures n < 0 <==> s[0] == '-'
  {
    if n < 0 then "-" + NatString(-n) else NatString(n)
  }

  /** The value of a run of decimal digits. */
  function ParseNat(s: string): nat
    requires AllDigits(s)
  {
    if s == [] then 0 else ParseNat(s[..|s| - 1]) * 10 + (s[|s| - 1] as int - '0' as int)
  }

  /** Decimal digits as `str` prints them: at least one, and no leading zero unless it is the only one. */
  predicate Canonical(s: string) {
    |s| >= 1 && AllDigits(s) && (s[0] != '0' || |s| == 1)
  }

  /** `int(s)` restricted to exactly what `str` prints: an optional minus before a non-zero magnitude. */
  function ParseInt(s: string): Option<int>
  {
    if |s| >= 2 && s[0] == '-' && Canonical(s[1..]) && s[1] != '0' then Some(-(ParseNat(s[1..]) as int))
    else if Canonical(s) then Some(ParseNat(s))
    else None
  }

  lemma {:induction false} ParseNatString(n: nat)
    ensures ParseNat(NatString(n)) == n
    ensures Canonical(NatString(n)) && (n != 0 ==> NatString(n)[0] != '0')
    decreases n
  {
    if n >= 10 {
      var s := NatString(n);
      assert s[..|s| - 1] == NatString(n / 10);
      ParseNatString(n / 10);
    }
  }

  lemma {:induction false} ParseNatPositive(s: string)
    requires |s| >= 1 && AllDigits(s) && s[0] != '0'
    ensures ParseNat(s) >= 1
    decreases |s|
  {
    if |s| > 1 {
      ParseNatPositive(s[..|s| - 1]);
    }
  }

  lemma {:induction false} NatStringParse(s: string)
    requires Canonical(s)
    ensures NatString(ParseNat(s)) == s
    decreases |s|
  {
    if |s| > 1 {
      var p := s[..|s| - 1];
      ParseNatPositive(p);
      NatStringParse(p);
      var n := ParseNat(s);
      assert n / 10 == ParseNat(p) && n % 10 == s[|s| - 1] as int - '0' as int;
      assert s == p + [s[|s| - 1]];
    }
  }

  /** Parsing what `str(n)` prints gives back `n`. */
  lemma ParseIntString(n: int)
    ensures ParseInt(IntString(n)) == Some(n)
  {
    if n < 0 {
      ParseNatString(-n);
      assert IntString(n)[1..] == NatString(-n);
    } else {
      ParseNatString(n);
    }
  }

  /** What parses is exactly what `str` prints for the parsed value. */
  lemma IntStringParse(s: string)
    requires ParseInt(s).Some?
    ensures IntString(ParseInt(s).value) == s
  {
    if |s| >= 2 && s[0] == '-' && Canonical(s[1..]) && s[1] != '0' {
      NatStringParse(s[1..]);
      ParseNatPositive(s[1..]);
      assert s == "-" + s[1..];
    } else {
      NatStringParse(s);
    }
  }
}

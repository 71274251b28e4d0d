/** The string operations of Rust's standard library that the core relies on,
    over `string` (a sequence of Unicode scalar values). */
module Text {
  import opened Wrappers
  import opened Num

  /** `char::is_whitespace`: the Unicode White_Space property. */
  predicate IsWhitespace(c: char)
  {
    || c == ' '
    || ('\t' <= c <= '\r')
    || c == '\U{85}' || c == '\U{A0}' || c == '\U{1680}'
    || ('\U{2000}' <= c <= '\U{200A}')
    || c == '\U{2028}' || c == '\U{2029}' || c == '\U{202F}' || c == '\U{205F}' || c == '\U{3000}'
  }

  predicate NoWhitespace(w: string)
  {
    forall i :: 0 <= i < |w| ==> !IsWhitespace(w[i])
  }

  /** `trim().is_empty()`: nothing but whitespace. */
  predicate IsBlank(s: string)
  {
    forall i :: 0 <= i < |s| ==> IsWhitespace(s[i])
  }

  /** Length of the leading run of non-whitespace characters. */
  function WordLen(s: string): (n: nat)
    ensures n <= |s|
    ensures forall i :: 0 <= i < n ==> !IsWhitespace(s[i])
    ensures n < |s| ==> IsWhitespace(s[n])
  {
    if |s| == 0 || IsWhitespace(s[0]) then 0 else 1 + WordLen(s[1..])
  }

  /** `split_whitespace().collect()`: the maximal runs of non-whitespace characters. */
  function Fields(s: string): (r: seq<string>)
    ensures forall i :: 0 <= i < |r| ==> r[i] != [] && NoWhitespace(r[i])
    decreases |s|
  {
    if |s| == 0 then []
    else if IsWhitespace(s[0]) then Fields(s[1..])
    else
      var n := WordLen(s);
      [s[..n]] + Fields(s[n..])
  }

  /** `parts.join(sep)` */
  function Join(parts: seq<string>, sep: string): (r: string)
    ensures |parts| == 0 ==> r == ""
    ensures |parts| == 1 ==> r == parts[0]
  {
    if |parts| == 0 then ""
    else if |parts| == 1 then parts[0]
    else parts[0] + sep + Join(parts[1..], sep)
  }

  lemma {:induction false} WordLenOfWord(w: string, t: string)
    requires NoWhitespace(w)
    requires t == [] || IsWhitespace(t[0])
    ensures WordLen(w + t) == |w|
  {
    if |w| > 0 {
      assert (w + t)[1..] == w[1..] + t;
      WordLenOfWord(w[1..], t);
    } else {
      assert w + t == t;
    }
  }

  /** Splitting undoes joining with single spaces, for words without whitespace. */
  lemma {:induction false} FieldsOfJoin(ws: seq<string>)
    requires forall i :: 0 <= i < |ws| ==> ws[i] != [] && NoWhitespace(ws[i])
    ensures Fields(Join(ws, " ")) == ws
  {
    if |ws| == 0 {
    } else if |ws| == 1 {
      var w := ws[0];
      WordLenOfWord(w, []);
      assert w + [] == w;
      assert w[|w|..] == [];
    } else {
      var w, rest := ws[0], Join(ws[1..], " ");
      var s := w + " " + rest;
      assert s == w + (" " + rest);
      WordLenOfWord(w, " " + rest);
      assert s[..|w|] == w;
      assert s[|w|..] == " " + rest;
      assert (" " + rest)[1..] == rest;
      FieldsOfJoin(ws[1..]);
      assert Fields(s) == [w] + Fields(s[|w|..]);
    }
  }

  /** Leading whitespace is skipped: it starts no field. */
  lemma {:induction false} FieldsSkipsBlank(p: string, s: string)
    requires IsBlank(p)
    ensures Fields(p + s) == Fields(s)
    decreases |p|
  {
    if |p| > 0 {
      assert (p + s)[0] == p[0];
      assert (p + s)[1..] == p[1..] + s;
      FieldsSkipsBlank(p[1..], s);
    } else {
      assert p + s == s;
    }
  }

  /** A word followed by a run of whitespace is the first field, and the
      fields of the rest follow it in order. */
  lemma {:induction false} FieldsWordThenBlank(w: string, sep: string, rest: string)
    requires w != [] && NoWhitespace(w)
    requires sep != [] && IsBlank(sep)
    ensures Fields(w + sep + rest) == [w] + Fields(rest)
  {
    var s := w + sep + rest;
    assert s == w + (sep + rest);
    WordLenOfWord(w, sep + rest);
    assert s[0] == w[0];
    assert s[..|w|] == w;
    assert s[|w|..] == sep + rest;
    FieldsSkipsBlank(sep, rest);
  }

  /** Words each followed by a run of whitespace: `ws[0] + seps[0] + ws[1] + …`. */
  function Spread(ws: seq<string>, seps: seq<string>): string
    requires |seps| == |ws|
  {
    if |ws| == 0 then "" else ws[0] + seps[0] + Spread(ws[1..], seps[1..])
  }

  /** The shape of a padded text line: words without whitespace, separated by
      non-empty whitespace runs, with a possibly empty run at the end. */
  predicate WellSpread(ws: seq<string>, seps: seq<string>)
  {
    && |seps| == |ws|
    && (forall i :: 0 <= i < |ws| ==> ws[i] != [] && NoWhitespace(ws[i]))
    && (forall i :: 0 <= i < |seps| ==> IsBlank(seps[i]))
    && (forall i :: 0 <= i < |seps| - 1 ==> seps[i] != [])
  }

  lemma WellSpreadTail(ws: seq<string>, seps: seq<string>)
    requires WellSpread(ws, seps) && |ws| > 0
    ensures WellSpread(ws[1..], seps[1..])
  {
    forall i | 0 <= i < |ws| - 1 ensures ws[1..][i] == ws[i + 1] && seps[1..][i] == seps[i + 1] { }
  }

  /** The first word, its whitespace run, and the words after it. */
  lemma {:induction false} FieldsOfWordAndRun(w: string, sep: string, rest: string, tail: seq<string>)
    requires w != [] && NoWhitespace(w) && IsBlank(sep)
    requires Fields(rest) == tail
    requires sep == [] ==> rest == ""
    ensures Fields(w + sep + rest) == [w] + tail
  {
    if sep != [] {
      FieldsWordThenBlank(w, sep, rest);
    } else {
      FieldsOfJoin([w]);
      assert w + sep + rest == w;
    }
  }

  /** Splitting a padded line gives back its words, in order, whatever the
      widths of the whitespace runs. */
  lemma {:induction false} FieldsOfSpread(pad: string, ws: seq<string>, seps: seq<string>)
    requires IsBlank(pad) && WellSpread(ws, seps)
    ensures Fields(pad + Spread(ws, seps)) == ws
    decreases |ws|
  {
    FieldsSkipsBlank(pad, Spread(ws, seps));
    if |ws| > 0 {
      var rest := Spread(ws[1..], seps[1..]);
      WellSpreadTail(ws, seps);
      FieldsOfSpread("", ws[1..], seps[1..]);
      assert "" + rest == rest;
      FieldsOfWordAndRun(ws[0], seps[0], rest, ws[1..]);
      assert ws == [ws[0]] + ws[1..];
    }
  }

  /** `parts.join(sep)` distributes over concatenation of the parts. */
  lemma {:induction false} JoinConcat(a: seq<string>, b: seq<string>, sep: string)
    requires |a| > 0 && |b| > 0
    ensures Join(a + b, sep) == Join(a, sep) + sep + Join(b, sep)
    decreases |a|
  {
    assert (a + b)[0] == a[0];
    assert (a + b)[1..] == a[1..] + b;
    if |a| > 1 {
      JoinConcat(a[1..], b, sep);
    } else {
      assert a[1..] + b == b;
    }
  }

  predicate StartsWith(s: string, p: string)
  {
    |p| <= |s| && s[..|p|] == p
  }

  /** `s.contains(p)` */
  predicate Contains(s: string, p: string)
    decreases |s|
  {
    StartsWith(s, p) || (|s| > 0 && Contains(s[1..], p))
  }

  /** `Contains` finds a pattern wherever it stands in the text. */
  lemma {:induction false} ContainsInfix(a: string, p: string, b: string)
    ensures Contains(a + p + b, p)
  {
    if |a| == 0 {
      assert a + p + b == p + b;
      assert (p + b)[..|p|] == p;
    } else {
      assert (a + p + b)[1..] == a[1..] + p + b;
      ContainsInfix(a[1..], p, b);
    }
  }

  /** A text that contains a pattern is at least as long as the pattern. */
  lemma {:induction false} ContainsLength(s: string, p: string)
    requires Contains(s, p)
    ensures |p| <= |s|
    decreases |s|
  {
    if !StartsWith(s, p) {
      ContainsLength(s[1..], p);
    }
  }

  function LowerChar(c: char): (r: char)
  {
    if 'A' <= c <= 'Z' then (c as int + 32) as char else c
  }

  /** `to_lowercase()` restricted to the ASCII letters. */
  function ToLowerAscii(s: string): (r: string)
    ensures |r| == |s|
    ensures forall i :: 0 <= i < |s| ==> r[i] == LowerChar(s[i])
  {
    seq(|s|, i requires 0 <= i < |s| => LowerChar(s[i]))
  }

  /** `trim_start_matches(c)`: every leading `c` removed. */
  function TrimStartMatches(s: string, c: char): (r: string)
    ensures |r| <= |s| && r == s[|s| - |r|..]
    ensures forall i :: 0 <= i < |s| - |r| ==> s[i] == c
    ensures r == [] || r[0] != c
  {
    if |s| > 0 && s[0] == c then
      var r := TrimStartMatches(s[1..], c);
      assert forall i :: 1 <= i < |s| - |r| ==> s[i] == s[1..][i - 1];
      r
    else s
  }

  predicate IsDigit(c: char)
  {
    '0' <= c <= '9'
  }

  predicate AllDigits(s: string)
  {
    forall i :: 0 <= i < |s| ==> IsDigit(s[i])
  }

  function DigitValue(c: char): nat
    requires IsDigit(c)
  {
    c as int - '0' as int
  }

  /** The number a string of decimal digits spells. */
  function DigitsValue(s: string): nat
    requires AllDigits(s)
  {
    if |s| == 0 then 0 else DigitsValue(s[..|s| - 1]) * 10 + DigitValue(s[|s| - 1])
  }

  /** `s.parse::<u64>()`: an optional `+`, then one or more decimal digits whose
      value fits in 64 bits; anything else is an error. */
  function ParseU64(s: string): (r: Option<u64>)
  {
    var digits := if |s| > 0 && s[0] == '+' then s[1..] else s;
    if |digits| == 0 || !AllDigits(digits) then None
    else if DigitsValue(digits) > U64_MAX then None
    else Some(DigitsValue(digits))
  }

  function DigitChar(d: nat): (c: char)
    requires d < 10
    ensures IsDigit(c) && DigitValue(c) == d
  {
    ('0' as int + d) as char
  }

  /** `format!("{}", n)`: the decimal digits of `n`, without leading zeros. */
  function Decimal(n: nat): (r: string)
    ensures |r| > 0 && AllDigits(r)
    ensures DigitsValue(r) == n
    ensures r[0] != '0' || n == 0
  {
    if n < 10 then [DigitChar(n)]
    else
      var front := Decimal(n / 10);
      var r := front + [DigitChar(n % 10)];
      assert r[..|r| - 1] == front;
      r
  }

  /** Parsing inverts formatting for every 64-bit value. */
  lemma DecimalParses(n: nat)
    requires n <= U64_MAX
    ensures ParseU64(Decimal(n)) == Some(n)
  {
    var d := Decimal(n);
    assert d[0] != '+' by { assert IsDigit(d[0]); }
  }

  /** Length in bytes of the UTF-8 encoding of one character. */
  function CharWidth(c: char): (w: nat)
    ensures 1 <= w <= 4
  {
    if c as int < 0x80 then 1
    else if c as int < 0x800 then 2
    else if c as int < 0x1_0000 then 3
    else 4
  }

  /** `s.len()` of a Rust `String`: its length in UTF-8 bytes. */
  function Utf8Len(s: string): (n: nat)
    ensures n >= |s|
  {
    if |s| == 0 then 0 else CharWidth(s[0]) + Utf8Len(s[1..])
  }

  lemma {:induction false} Utf8LenConcat(a: string, b: string)
    ensures Utf8Len(a + b) == Utf8Len(a) + Utf8Len(b)
  {
    if |a| > 0 {
      assert (a + b)[1..] == a[1..] + b;
      Utf8LenConcat(a[1..], b);
    } else {
      assert a + b == b;
    }
  }

  /** No character takes more than four bytes. */
  lemma {:induction false} Utf8LenAtMostFour(s: string)
    ensures Utf8Len(s) <= 4 * |s|
  {
    if |s| > 0 {
      Utf8LenAtMostFour(s[1..]);
    }
  }

  predicate IsAscii(s: string)
  {
    forall i :: 0 <= i < |s| ==> s[i] as int < 0x80
  }

  lemma {:induction false} AsciiUtf8Len(s: string)
    requires IsAscii(s)
    ensures Utf8Len(s) == |s|
  {
    if |s| > 0 {
      AsciiUtf8Len(s[1..]);
    }
  }

  /** `&s[..n]`: the prefix whose encoding is exactly `n` bytes long, or `None`
      when byte `n` falls inside a character (where Rust panics) or past the end. */
  function BytePrefix(s: string, n: nat): (r: Option<string>)
    ensures r.Some? ==> |r.value| <= |s| && r.value == s[..|r.value|] && Utf8Len(r.value) == n
    ensures r.None? ==> forall k :: 0 <= k <= |s| ==> Utf8Len(s[..k]) != n
    decreases |s|
  {
    if n == 0 then Some([])
    else if |s| == 0 then None
    else if CharWidth(s[0]) > n then
      assert forall k :: 1 <= k <= |s| ==> Utf8Len(s[..k]) >= CharWidth(s[0]) by {
        forall k | 1 <= k <= |s| ensures Utf8Len(s[..k]) >= CharWidth(s[0]) {
          assert s[..k][1..] == s[1..k];
        }
      }
      None
    else
      var w := CharWidth(s[0]);
      var rest := BytePrefix(s[1..], n - w);
      assert forall k :: 1 <= k <= |s| ==> Utf8Len(s[..k]) == w + Utf8Len(s[1..][..k - 1]) by {
        forall k | 1 <= k <= |s| ensures Utf8Len(s[..k]) == w + Utf8Len(s[1..][..k - 1]) {
          assert s[..k][1..] == s[1..][..k - 1];
        }
      }
      match rest
      case None => None
      case Some(p) =>
        assert [s[0]] + p == s[..|p| + 1];
        Some([s[0]] + p)
  }

  /** An ASCII text can be cut at any byte not past its end. */
  lemma {:induction false} AsciiBytePrefix(s: string, n: nat)
    requires IsAscii(s) && n <= |s|
    ensures BytePrefix(s, n) == Some(s[..n])
  {
    var k := n;
    assert IsAscii(s[..k]);
    AsciiUtf8Len(s[..k]);
    var r := BytePrefix(s, n);
    if r.Some? {
      var m := |r.value|;
      assert IsAscii(r.value);
      AsciiUtf8Len(r.value);
    }
  }
}

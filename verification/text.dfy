/** String operations the system relies on from the JavaScript runtime:
    `Array.prototype.join`, `String.prototype.split` on one character, the
    non-empty filter applied after a split, quoting, ASCII lower-casing and
    decimal formatting of integers. */
module Text {

  /** `parts.join(sep)`: the parts with `sep` between neighbours; `[]` gives "". */
  function Join(parts: seq<string>, sep: string): (r: string)
    ensures |parts| == 0 ==> r == ""
    ensures |parts| > 0 ==> parts[0] <= r
  {
    if |parts| == 0 then ""
    else if |parts| == 1 then parts[0]
    else parts[0] + sep + Join(parts[1..], sep)
  }

  /** Joining two non-empty lists is joining each and putting one separator between. */
  lemma {:induction false} JoinAppend(a: seq<string>, b: seq<string>, sep: string)
    requires |a| > 0 && |b| > 0
    ensures Join(a + b, sep) == Join(a, sep) + sep + Join(b, sep)
  {
    if |a| == 1 {
      assert (a + b)[1..] == b;
    } else {
      assert (a + b)[1..] == a[1..] + b;
      JoinAppend(a[1..], b, sep);
    }
  }

  /** `s.split(sep)` for a one-character separator: the maximal runs of `s`
      between separators, including empty ones; "" splits into [""]. */
  function Split(s: string, sep: char): (r: seq<string>)
    ensures |r| >= 1
    ensures forall i :: 0 <= i < |r| ==> sep !in r[i]
  {
    if |s| == 0 then [""]
    else
      var rest := Split(s[1..], sep);
      if s[0] == sep then [""] + rest
      else [[s[0]] + rest[0]] + rest[1..]
  }

  /** Splitting loses nothing: joining the pieces back with the separator gives `s`. */
  lemma {:induction false} SplitJoin(s: string, sep: char)
    ensures Join(Split(s, sep), [sep]) == s
  {
    if |s| > 0 {
      var rest := Split(s[1..], sep);
      SplitJoin(s[1..], sep);
      if s[0] == sep {
        assert Split(s, sep) == [""] + rest;
        JoinAppend([""], rest, [sep]);
        assert s == [s[0]] + s[1..];
      } else {
        var r := Split(s, sep);
        assert r == [[s[0]] + rest[0]] + rest[1..];
        if |rest| == 1 {
          assert s == [s[0]] + s[1..];
        } else {
          assert r[1..] == rest[1..];
          assert Join(rest, [sep]) == rest[0] + [sep] + Join(rest[1..], [sep]);
          assert s == [s[0]] + s[1..];
        }
      }
    }
  }

  /** `.filter(e => e.length > 0)` on a list of strings. */
  function NonEmpty(parts: seq<string>): (r: seq<string>)
    ensures forall i :: 0 <= i < |r| ==> |r[i]| > 0
    ensures forall x :: x in r <==> x in parts && |x| > 0
    ensures |r| <= |parts|
    ensures (forall i :: 0 <= i < |parts| ==> |parts[i]| > 0) ==> r == parts
  {
    if |parts| == 0 then []
    else if |parts[0]| > 0 then [parts[0]] + NonEmpty(parts[1..])
    else NonEmpty(parts[1..])
  }

  /** Filtering a list is filtering its two halves: the kept pieces stay in
      their original order. */
  lemma {:induction false} NonEmptyAppend(a: seq<string>, b: seq<string>)
    ensures NonEmpty(a + b) == NonEmpty(a) + NonEmpty(b)
  {
    if |a| == 0 {
      assert a + b == b;
    } else {
      assert (a + b)[1..] == a[1..] + b;
      NonEmptyAppend(a[1..], b);
    }
  }

  /** The concatenation of a list of strings. */
  function Concat(parts: seq<string>): string
  {
    if |parts| == 0 then "" else parts[0] + Concat(parts[1..])
  }

  /** `s` with every occurrence of `c` deleted. */
  function Without(s: string, c: char): string
  {
    if |s| == 0 then ""
    else if s[0] == c then Without(s[1..], c)
    else [s[0]] + Without(s[1..], c)
  }

  /** A joined text is as long as its parts together plus one separator
      between each two neighbours. */
  lemma {:induction false} JoinLength(parts: seq<string>, sep: string)
    requires |parts| > 0
    ensures |Join(parts, sep)| == |Concat(parts)| + (|parts| - 1) * |sep|
  {
    if |parts| > 1 {
      JoinLength(parts[1..], sep);
      assert |Join(parts, sep)| == |parts[0]| + |sep| + |Join(parts[1..], sep)|;
      assert |Concat(parts)| == |parts[0]| + |Concat(parts[1..])|;
      assert (|parts| - 1) * |sep| == |sep| + (|parts| - 2) * |sep|;
    }
  }

  lemma {:induction false} ConcatAppend(a: seq<string>, b: seq<string>)
    ensures Concat(a + b) == Concat(a) + Concat(b)
  {
    if |a| > 0 {
      assert (a + b)[1..] == a[1..] + b;
      ConcatAppend(a[1..], b);
      assert Concat(a + b) == a[0] + Concat(a[1..] + b);
    } else {
      assert a + b == b;
    }
  }

  lemma {:induction false} ConcatNonEmpty(parts: seq<string>)
    ensures Concat(NonEmpty(parts)) == Concat(parts)
  {
    if |parts| > 0 {
      ConcatNonEmpty(parts[1..]);
    }
  }

  /** The non-empty pieces of a split, put back together, are the input with
      the separators deleted: no character is lost, reordered or invented. */
  lemma {:induction false} SplitNonEmptyConcat(s: string, sep: char)
    ensures Concat(NonEmpty(Split(s, sep))) == Without(s, sep)
  {
    ConcatNonEmpty(Split(s, sep));
    SplitConcat(s, sep);
  }

  lemma {:induction false} SplitConcat(s: string, sep: char)
    ensures Concat(Split(s, sep)) == Without(s, sep)
  {
    if |s| > 0 {
      var rest := Split(s[1..], sep);
      SplitConcat(s[1..], sep);
      if s[0] == sep {
        assert Split(s, sep) == [""] + rest;
        assert Concat([""] + rest) == "" + Concat(rest);
      } else {
        assert Split(s, sep) == [[s[0]] + rest[0]] + rest[1..];
        assert Concat(rest) == rest[0] + Concat(rest[1..]);
      }
    }
  }

  /** A file name wrapped in double quotes, as most command builders emit it. */
  function DoubleQuoted(s: string): string
  {
    "\"" + s + "\""
  }

  /** A file name wrapped in single quotes. */
  function SingleQuoted(s: string): string
  {
    "'" + s + "'"
  }

  /** A quoted file name can never be mistaken for an option flag, whose
      first character is `-`. */
  lemma QuotedIsNotFlag(name: string, flag: string)
    requires |flag| > 0 && flag[0] == '-'
    ensures DoubleQuoted(name) != flag && SingleQuoted(name) != flag
  {
    assert DoubleQuoted(name)[0] == '"';
    assert SingleQuoted(name)[0] == '\'';
  }

  /** `filenames.map(f => `"${f}"`)`. */
  function DoubleQuotedAll(names: seq<string>): (r: seq<string>)
    ensures |r| == |names|
    ensures forall i :: 0 <= i < |names| ==> r[i] == "\"" + names[i] + "\""
  {
    seq(|names|, i requires 0 <= i < |names| => DoubleQuoted(names[i]))
  }

  /** `filenames.map(f => `'${f}'`)`. */
  function SingleQuotedAll(names: seq<string>): (r: seq<string>)
    ensures |r| == |names|
    ensures forall i :: 0 <= i < |names| ==> r[i] == "'" + names[i] + "'"
  {
    seq(|names|, i requires 0 <= i < |names| => SingleQuoted(names[i]))
  }

  /** ASCII lower-casing of one character; every other character is unchanged. */
  function LowerChar(c: char): (r: char)
    ensures 'A' <= c <= 'Z' ==> 'a' <= r <= 'z' && r as int - c as int == 32
    ensures !('A' <= c <= 'Z') ==> r == c
  {
    if 'A' <= c <= 'Z' then (c as int + 32) as char else c
  }

  /** `toLowerCase`, restricted to the ASCII letters. */
  function ToLower(s: string): (r: string)
    ensures |r| == |s|
    ensures forall i :: 0 <= i < |s| ==> r[i] == LowerChar(s[i])
  {
    seq(|s|, i requires 0 <= i < |s| => LowerChar(s[i]))
  }

  /** Lower-casing twice is lower-casing once, so a comparison with a
      lower-case word ignores the case of its input. */
  lemma ToLowerIdempotent(s: string)
    ensures ToLower(ToLower(s)) == ToLower(s)
  {
  }

  /** The decimal digit character of `d`. */
  function DigitChar(d: nat): (c: char)
    requires d < 10
    ensures '0' <= c <= '9' && c as int - '0' as int == d
  {
    (d + '0' as int) as char
  }

  /** The decimal notation of `n`, without leading zeros. */
  function NatToDecimal(n: nat): (s: string)
    ensures |s| > 0
    ensures forall i :: 0 <= i < |s| ==> '0' <= s[i] <= '9'
    ensures |s| > 1 ==> s[0] != '0'
  {
    if n < 10 then [DigitChar(n)] else NatToDecimal(n / 10) + [DigitChar(n % 10)]
  }

  /** The value of a string of decimal digits. */
  function DecimalValue(s: string): nat
    requires forall i :: 0 <= i < |s| ==> '0' <= s[i] <= '9'
  {
    if |s| == 0 then 0
    else DecimalValue(s[..|s| - 1]) * 10 + (s[|s| - 1] as int - '0' as int)
  }

  /** Reading the notation back gives the number: the formatting is faithful. */
  lemma {:induction false} NatToDecimalRoundTrip(n: nat)
    ensures DecimalValue(NatToDecimal(n)) == n
  {
    if n >= 10 {
      var s := NatToDecimal(n);
      assert s[..|s| - 1] == NatToDecimal(n / 10);
      NatToDecimalRoundTrip(n / 10);
    }
  }

  /** How a template literal renders an integer: a minus sign, then the digits. */
  function IntToDecimal(i: int): string
  {
    if i < 0 then "-" + NatToDecimal(-i) else NatToDecimal(i)
  }
}

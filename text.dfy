/**
 * The two string routines of Go's standard library that the service relies on:
 * `strings.Split` with a one-character separator (the Authorization header,
 * and the layout of the database DSN) and `strconv.ParseUint(s, 10, 32)`
 * (numeric path parameters).
 */
module Text {
  import opened Base

  /** `strings.Join(parts, string(sep))`. */
  function Join(parts: seq<string>, sep: char): string
  {
    if |parts| == 0 then ""
    else if |parts| == 1 then parts[0]
    else parts[0] + [sep] + Join(parts[1..], sep)
  }

  /**
   * `strings.Split(s, string(sep))`: the pieces of `s` between occurrences of
   * `sep`. There is always at least one piece (`Split("", sep) == [""]`) and
   * no piece contains the separator.
   */
  function Split(s: string, sep: char): (parts: seq<string>)
    ensures |parts| >= 1
    ensures forall i :: 0 <= i < |parts| ==> sep !in parts[i]
  {
    if s == [] then [""]
    else
      var rest := Split(s[1..], sep);
      if s[0] == sep then [""] + rest
      else [[s[0]] + rest[0]] + rest[1..]
  }

  /** Joining the pieces back together gives the original string. */
  lemma {:induction false} JoinSplit(s: string, sep: char)
    ensures Join(Split(s, sep), sep) == s
  {
    if s != [] {
      var rest := Split(s[1..], sep);
      JoinSplit(s[1..], sep);
      if s[0] == sep {
        assert Split(s, sep) == [""] + rest;
        assert ([""] + rest)[1..] == rest;
      } else {
        var parts := [[s[0]] + rest[0]] + rest[1..];
        assert Split(s, sep) == parts;
        if |rest| > 1 {
          assert parts[1..] == rest[1..];
          assert Join(rest, sep) == rest[0] + [sep] + Join(rest[1..], sep);
        }
      }
    }
  }

  /** A string without the separator is a single piece. */
  lemma {:induction false} SplitNoSeparator(w: string, sep: char)
    requires sep !in w
    ensures Split(w, sep) == [w]
  {
    if w != [] {
      assert w[0] != sep && sep !in w[1..];
      SplitNoSeparator(w[1..], sep);
      assert [w[0]] + w[1..] == w;
    }
  }

  /** A separator-free prefix followed by the separator splits off one piece. */
  lemma {:induction false} SplitAfterPiece(w: string, sep: char, t: string)
    requires sep !in w
    ensures Split(w + [sep] + t, sep) == [w] + Split(t, sep)
  {
    var s := w + [sep] + t;
    if w == [] {
      assert s[0] == sep && s[1..] == t;
    } else {
      assert s[0] == w[0] && s[1..] == w[1..] + [sep] + t;
      SplitAfterPiece(w[1..], sep, t);
      assert [w[0]] + w[1..] == w;
    }
  }

  /** Splitting a join of separator-free pieces gives the pieces back. */
  lemma {:induction false} SplitJoin(parts: seq<string>, sep: char)
    requires |parts| >= 1
    requires forall i :: 0 <= i < |parts| ==> sep !in parts[i]
    ensures Split(Join(parts, sep), sep) == parts
  {
    if |parts| == 1 {
      SplitNoSeparator(parts[0], sep);
    } else {
      SplitJoin(parts[1..], sep);
      SplitAfterPiece(parts[0], sep, Join(parts[1..], sep));
      assert [parts[0]] + parts[1..] == parts;
    }
  }

  /** The two-piece case, both directions: `s` splits into exactly `[a, b]`. */
  lemma SplitTwo(s: string, sep: char, a: string, b: string)
    ensures Split(s, sep) == [a, b] <==> (s == a + [sep] + b && sep !in a && sep !in b)
  {
    if Split(s, sep) == [a, b] {
      JoinSplit(s, sep);
      assert Join([a, b], sep) == a + [sep] + Join([b], sep);
    }
    if s == a + [sep] + b && sep !in a && sep !in b {
      SplitJoin([a, b], sep);
      assert Join([a, b], sep) == a + [sep] + Join([b], sep);
    }
  }

  // ---------------------------------------------------------------------------
  // Decimal numerals

  predicate IsDigit(c: char) { '0' <= c <= '9' }

  function DigitValue(c: char): nat
    requires IsDigit(c)
  {
    (c as int - '0' as int) as nat
  }

  predicate AllDigits(s: string)
  {
    forall i :: 0 <= i < |s| ==> IsDigit(s[i])
  }

  /** The value of a string of decimal digits, most significant digit first. */
  function DecimalValue(s: string): nat
    requires AllDigits(s)
  {
    if s == [] then 0 else DecimalValue(s[..|s| - 1]) * 10 + DigitValue(s[|s| - 1])
  }

  /** The shortest decimal numeral of `n` (what `strconv.FormatUint(n, 10)` prints). */
  function Decimal(n: nat): (s: string)
    ensures s != [] && AllDigits(s)
  {
    var d := ['0' + (n % 10) as char];
    if n < 10 then d else Decimal(n / 10) + d
  }

  /** 2^32: `ParseUint(s, 10, 32)` rejects every value from here on. */
  const Uint32Limit: nat := 0x1_0000_0000

  /**
   * The digit loop of `strconv.ParseUint(s, 10, 32)`, run from the left over
   * what is left of the input with the value `n` read so far: a non-digit is a
   * syntax error, and the value reaching 2^32 is a range error, reported as
   * soon as it happens. Both errors are `None`.
   */
  function ScanDigits(s: string, n: nat): Option<nat>
  {
    if s == [] then Some(n)
    else if !IsDigit(s[0]) then None
    else
      var n' := n * 10 + DigitValue(s[0]);
      if n' >= Uint32Limit then None else ScanDigits(s[1..], n')
  }

  /**
   * `strconv.ParseUint(s, 10, 32)` as the service uses it: the empty string
   * is a syntax error, and no sign, prefix or underscore is accepted in base 10.
   * It succeeds exactly on non-empty strings of digits whose value is below 2^32.
   */
  function ParseUint32(s: string): (r: Option<nat>)
    ensures r.Some? <==> s != [] && AllDigits(s) && DecimalValue(s) < Uint32Limit
    ensures r.Some? ==> r.value == DecimalValue(s) && r.value < Uint32Limit
  {
    if s == [] then None
    else
      ScanMatchesValue(s);
      ScanDigits(s, 0)
  }

  /** Reading `t` after a prefix of value `n` is reading `n`'s digits and then `t`. */
  function ValueAfter(n: nat, t: string): nat
    requires AllDigits(t)
    decreases |t|
  {
    if t == [] then n else ValueAfter(n * 10 + DigitValue(t[0]), t[1..])
  }

  lemma {:induction false} ValueAfterGrows(n: nat, t: string)
    requires AllDigits(t)
    ensures ValueAfter(n, t) >= n
    decreases |t|
  {
    if t != [] {
      ValueAfterGrows(n * 10 + DigitValue(t[0]), t[1..]);
    }
  }

  /** The left-to-right reading agrees with `DecimalValue`. */
  lemma {:induction false} ValueAfterIsDecimal(s: string, k: nat)
    requires AllDigits(s) && k <= |s|
    ensures ValueAfter(DecimalValue(s[..k]), s[k..]) == DecimalValue(s)
    decreases |s| - k
  {
    if k < |s| {
      assert s[..k + 1][..k] == s[..k];
      assert DecimalValue(s[..k + 1]) == DecimalValue(s[..k]) * 10 + DigitValue(s[k]);
      assert s[k..][1..] == s[k + 1..];
      ValueAfterIsDecimal(s, k + 1);
    } else {
      assert s[..k] == s;
    }
  }

  /** Early range errors lose nothing: the scan fails exactly when the whole value is too big. */
  lemma {:induction false} ScanValue(t: string, n: nat)
    requires n < Uint32Limit
    ensures ScanDigits(t, n).Some? <==> AllDigits(t) && ValueAfter(n, t) < Uint32Limit
    ensures ScanDigits(t, n).Some? ==> ScanDigits(t, n).value == ValueAfter(n, t)
  {
    if t != [] && IsDigit(t[0]) {
      var n' := n * 10 + DigitValue(t[0]);
      assert AllDigits(t) <==> AllDigits(t[1..]);
      if n' < Uint32Limit {
        ScanValue(t[1..], n');
      } else if AllDigits(t) {
        ValueAfterGrows(n', t[1..]);
      }
    }
  }

  /** The scan from the start of the string agrees with `DecimalValue` and the bound. */
  lemma ScanMatchesValue(s: string)
    ensures ScanDigits(s, 0).Some? <==> AllDigits(s) && DecimalValue(s) < Uint32Limit
    ensures ScanDigits(s, 0).Some? ==> ScanDigits(s, 0).value == DecimalValue(s)
  {
    ScanValue(s, 0);
    if AllDigits(s) {
      ValueAfterIsDecimal(s, 0);
      assert s[..0] == [] && s[0..] == s;
    }
  }

  /** `DecimalValue` reads back what `Decimal` writes. */
  lemma {:induction false} DecimalRoundTrip(n: nat)
    ensures DecimalValue(Decimal(n)) == n
  {
    var d := ['0' + (n % 10) as char];
    if n >= 10 {
      DecimalRoundTrip(n / 10);
      var s := Decimal(n);
      assert s == Decimal(n / 10) + d;
      assert s[..|s| - 1] == Decimal(n / 10);
    }
  }

  /** Every identifier below 2^32, written in decimal, parses back to itself. */
  lemma ParseDecimal(n: nat)
    requires n < Uint32Limit
    ensures ParseUint32(Decimal(n)) == Some(n)
  {
    DecimalRoundTrip(n);
  }
}

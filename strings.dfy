/** The JavaScript string operations the application relies on, stated over
    `seq<char>`: `split` and `join` with a one-character separator, the
    `endsWith` suffix test, ASCII lower-casing, and the decimal rendering that
    `Number.prototype.toString` gives a non-negative integer. */
module Strings {

  /** `s.split(sep)`: the pieces between separators, always at least one; an
      empty string splits into one empty piece. */
  function Split(s: string, sep: char): (r: seq<string>)
    ensures |r| >= 1
    decreases |s|
  {
    if s == [] then [""]
    else
      var init := Split(s[..|s| - 1], sep);
      var c := s[|s| - 1];
      if c == sep then init + [""]
      else init[..|init| - 1] + [init[|init| - 1] + [c]]
  }

  /** The summed lengths of the pieces. */
  function TotalLength(parts: seq<string>): nat
    decreases |parts|
  {
    if parts == [] then 0 else TotalLength(parts[..|parts| - 1]) + |parts[|parts| - 1]|
  }

  /** `parts.join(sep)`; an empty array joins to the empty string. A
      non-empty array joins to its pieces plus one separator between each
      neighbouring pair. */
  function Join(parts: seq<string>, sep: char): (r: string)
    ensures |parts| > 0 ==> |r| == TotalLength(parts) + |parts| - 1
    ensures parts == [] ==> r == ""
    decreases |parts|
  {
    if |parts| == 0 then ""
    else if |parts| == 1 then parts[0]
    else Join(parts[..|parts| - 1], sep) + [sep] + parts[|parts| - 1]
  }

  /** The last element of a non-empty sequence (`Array.prototype.pop`'s result). */
  function Last<T>(s: seq<T>): T
    requires |s| > 0
  {
    s[|s| - 1]
  }

  /** `s.endsWith(suffix)`, case-sensitive. */
  predicate EndsWith(s: string, suffix: string)
  {
    |suffix| <= |s| && s[|s| - |suffix|..] == suffix
  }

  /** Lower-casing of one character, restricted to the ASCII letters. */
  function Lower(c: char): (r: char)
    ensures !('A' <= r <= 'Z')
    ensures r != c ==> 'A' <= c <= 'Z' && 'a' <= r <= 'z'
  {
    if 'A' <= c <= 'Z' then (c as int + 32) as char else c
  }

  /** `s.toLowerCase()` on ASCII letters; every other character is kept. */
  function ToLower(s: string): (r: string)
    ensures |r| == |s|
    ensures forall i :: 0 <= i < |s| ==> r[i] == Lower(s[i])
  {
    seq(|s|, i requires 0 <= i < |s| => Lower(s[i]))
  }

  // ---------------------------------------------------------------------
  // split / join

  /** No piece of a split holds the separator. */
  lemma {:induction false} SplitPiecesFree(s: string, sep: char)
    ensures forall k :: 0 <= k < |Split(s, sep)| ==> sep !in Split(s, sep)[k]
    decreases |s|
  {
    if s != [] {
      SplitPiecesFree(s[..|s| - 1], sep);
    }
  }

  /** Appending a separator and a separator-free piece adds exactly that piece. */
  lemma {:induction false} SplitAppend(t: string, sep: char, p: string)
    requires sep !in p
    ensures Split(t + [sep] + p, sep) == Split(t, sep) + [p]
    decreases |p|
  {
    var s := t + [sep] + p;
    if p == [] {
      assert s[..|s| - 1] == t;
    } else {
      var p' := p[..|p| - 1];
      assert s[..|s| - 1] == t + [sep] + p';
      SplitAppend(t, sep, p');
      assert p' + [p[|p| - 1]] == p;
    }
  }

  /** A string without the separator splits into itself alone. */
  lemma {:induction false} SplitNoSeparator(p: string, sep: char)
    requires sep !in p
    ensures Split(p, sep) == [p]
    decreases |p|
  {
    if p != [] {
      SplitNoSeparator(p[..|p| - 1], sep);
      assert p[..|p| - 1] + [p[|p| - 1]] == p;
    }
  }

  /** `Split` read one character at a time from the back. */
  lemma SplitSnoc(s: string, c: char, sep: char)
    ensures var init := Split(s, sep);
      Split(s + [c], sep) ==
        if c == sep then init + [""] else init[..|init| - 1] + [init[|init| - 1] + [c]]
  {
    assert (s + [c])[..|s|] == s;
  }

  /** `Join` read one piece at a time from the back. */
  lemma JoinSnoc(parts: seq<string>, x: string, sep: char)
    requires parts != []
    ensures Join(parts + [x], sep) == Join(parts, sep) + [sep] + x
  {
    assert (parts + [x])[..|parts|] == parts;
  }

  /** A separator-free head followed by a separator is the first piece. */
  lemma {:induction false} SplitCons(a: string, sep: char, b: string)
    requires sep !in a
    ensures Split(a + [sep] + b, sep) == [a] + Split(b, sep)
    decreases |b|
  {
    if b == [] {
      SplitSnoc(a, sep, sep);
      SplitNoSeparator(a, sep);
      assert a + [sep] + b == a + [sep];
    } else {
      var b', c := b[..|b| - 1], b[|b| - 1];
      assert a + [sep] + b == (a + [sep] + b') + [c];
      assert b == b' + [c];
      SplitCons(a, sep, b');
      SplitSnoc(a + [sep] + b', c, sep);
      SplitSnoc(b', c, sep);
      SplitConsStep(a, Split(b', sep), c, sep);
    }
  }

  /** The step of `SplitCons`, free of `Split`: one more character acts on the
      pieces after the head as it acts on the whole list. */
  lemma SplitConsStep(a: string, init: seq<string>, c: char, sep: char)
    requires |init| >= 1
    ensures var init2 := [a] + init;
      (if c == sep then init2 + [""] else init2[..|init2| - 1] + [init2[|init2| - 1] + [c]])
      == [a] + (if c == sep then init + [""] else init[..|init| - 1] + [init[|init| - 1] + [c]])
  {
    var init2 := [a] + init;
    if c != sep {
      assert init2[..|init2| - 1] == [a] + init[..|init| - 1];
    }
  }

  /** Splitting what was joined gives back the pieces, provided no piece holds
      the separator. */
  lemma {:induction false} SplitJoin(parts: seq<string>, sep: char)
    requires |parts| >= 1
    requires forall k :: 0 <= k < |parts| ==> sep !in parts[k]
    ensures Split(Join(parts, sep), sep) == parts
    decreases |parts|
  {
    if |parts| == 1 {
      SplitNoSeparator(parts[0], sep);
    } else {
      var init := parts[..|parts| - 1];
      SplitJoin(init, sep);
      SplitAppend(Join(init, sep), sep, parts[|parts| - 1]);
      assert init + [parts[|parts| - 1]] == parts;
    }
  }

  /** Joining the pieces of a split restores the string. */
  lemma {:induction false} JoinSplit(s: string, sep: char)
    ensures Join(Split(s, sep), sep) == s
    decreases |s|
  {
    if s != [] {
      var s', c := s[..|s| - 1], s[|s| - 1];
      assert s == s' + [c];
      JoinSplit(s', sep);
      SplitSnoc(s', c, sep);
      JoinSplitStep(Split(s', sep), s', c, sep);
    }
  }

  /** The step of `JoinSplit`, free of `Split`: one more character either opens
      a new piece or extends the last one, and the join grows by it. */
  lemma JoinSplitStep(init: seq<string>, s: string, c: char, sep: char)
    requires |init| >= 1 && Join(init, sep) == s
    ensures Join(if c == sep then init + [""] else init[..|init| - 1] + [init[|init| - 1] + [c]], sep)
      == s + [c]
  {
    if c == sep {
      JoinSnoc(init, "", sep);
    } else {
      var front, last := init[..|init| - 1], init[|init| - 1];
      assert init == front + [last];
      if front == [] {
        assert Join(front + [last + [c]], sep) == last + [c];
      } else {
        JoinSnoc(front, last, sep);
        JoinSnoc(front, last + [c], sep);
      }
    }
  }

  /** Joining a head to the rest: the front-to-back reading of `Join`. */
  lemma {:induction false} JoinCons(a: string, rest: seq<string>, sep: char)
    requires |rest| >= 1
    ensures Join([a] + rest, sep) == a + [sep] + Join(rest, sep)
    decreases |rest|
  {
    var parts := [a] + rest;
    if |rest| == 1 {
      assert parts[..1] == [a];
    } else {
      assert parts[..|parts| - 1] == [a] + rest[..|rest| - 1];
      JoinCons(a, rest[..|rest| - 1], sep);
    }
  }

  /** A joined array begins with its first piece, followed by the separator
      when more pieces come. */
  lemma JoinHead(a: string, rest: seq<string>, sep: char)
    ensures var r := Join([a] + rest, sep);
      |r| >= |a| && r[..|a|] == a &&
      (rest != [] ==> |r| > |a| && r[|a|] == sep)
  {
    if rest == [] {
      assert [a] + rest == [a];
    } else {
      JoinCons(a, rest, sep);
    }
  }

  /** A character that is not the separator and occurs in no piece does not
      occur in the joined text. */
  lemma {:induction false} JoinExcludes(parts: seq<string>, sep: char, c: char)
    requires c != sep
    requires forall k :: 0 <= k < |parts| ==> c !in parts[k]
    ensures c !in Join(parts, sep)
    decreases |parts|
  {
    if |parts| > 1 {
      JoinExcludes(parts[..|parts| - 1], sep, c);
    }
  }

  // ---------------------------------------------------------------------
  // the last piece of a split

  /** The last piece is empty exactly when the string is empty or ends with
      the separator. */
  lemma LastPieceEmpty(s: string, sep: char)
    ensures Last(Split(s, sep)) == "" <==> (s == [] || s[|s| - 1] == sep)
  {
  }

  /** Adding a non-separator character extends the last piece by it. */
  lemma LastPieceStep(s: string, c: char, sep: char)
    requires c != sep
    ensures Last(Split(s + [c], sep)) == Last(Split(s, sep)) + [c]
  {
    assert (s + [c])[..|s|] == s;
  }

  /** A suffix test peels off one matching last character. */
  lemma EndsWithStep(s: string, c: char, t: string, d: char)
    ensures EndsWith(s + [c], t + [d]) <==> EndsWith(s, t) && c == d
  {
    if EndsWith(s + [c], t + [d]) {
      assert (s + [c])[|s| + 1 - |t| - 1..|s|] == s[|s| - |t|..];
      assert (t + [d])[..|t|] == t;
    }
    if EndsWith(s, t) && c == d {
      assert (s + [c])[|s| - |t|..] == s[|s| - |t|..] + [c];
    }
  }

  /** The last piece equals a given non-empty separator-free word `w` exactly
      when the whole string is `w`, or it ends with the separator followed by `w`. */
  lemma {:induction false} LastPieceIs(s: string, sep: char, w: string)
    requires w != [] && sep !in w
    ensures Last(Split(s, sep)) == w <==> (s == w || EndsWith(s, [sep] + w))
    decreases |s|
  {
    if s == [] {
      LastPieceEmpty(s, sep);
    } else {
      var s', c := s[..|s| - 1], s[|s| - 1];
      var w', d := w[..|w| - 1], w[|w| - 1];
      assert s == s' + [c];
      assert w == w' + [d];
      assert [sep] + w == ([sep] + w') + [d];
      EndsWithStep(s', c, [sep] + w', d);
      if c == sep {
        assert d in w;
      } else {
        LastPieceStep(s', c, sep);
        if w' == [] {
          LastPieceEmpty(s', sep);
          assert EndsWith(s', [sep]) <==> (s' != [] && s'[|s'| - 1] == sep);
        } else {
          LastPieceIs(s', sep, w');
        }
      }
    }
  }

  /** Lower-casing before or after taking the last piece gives the same text,
      because lower-casing never creates or removes a '.'. */
  lemma {:induction false} LowerLastPiece(s: string)
    ensures Last(Split(ToLower(s), '.')) == ToLower(Last(Split(s, '.')))
    decreases |s|
  {
    if s != [] {
      var s' := s[..|s| - 1];
      LowerLastPiece(s');
      assert ToLower(s)[..|s| - 1] == ToLower(s');
    }
  }

  // ---------------------------------------------------------------------
  // decimal numbers

  predicate IsDigit(c: char) { '0' <= c <= '9' }

  predicate IsDigits(s: string) { forall i :: 0 <= i < |s| ==> IsDigit(s[i]) }

  function DigitChar(d: nat): (c: char)
    requires d < 10
    ensures IsDigit(c)
  {
    ('0' as int + d) as char
  }

  /** `n.toString()` for a non-negative integer: its decimal digits, most
      significant first, with no leading zero. */
  function DecimalString(n: nat): (r: string)
    ensures |r| >= 1 && IsDigits(r)
    ensures r[0] == '0' <==> n == 0
    decreases n
  {
    if n < 10 then [DigitChar(n)]
    else DecimalString(n / 10) + [DigitChar(n % 10)]
  }

  /** The value of a string of decimal digits. */
  function DecimalValue(s: string): nat
    requires IsDigits(s)
    decreases |s|
  {
    if s == [] then 0
    else DecimalValue(s[..|s| - 1]) * 10 + (s[|s| - 1] as int - '0' as int)
  }

  /** Reading back the decimal rendering gives the number. */
  lemma {:induction false} DecimalRoundTrip(n: nat)
    ensures DecimalValue(DecimalString(n)) == n
    decreases n
  {
    if n >= 10 {
      DecimalRoundTrip(n / 10);
      var r := DecimalString(n);
      assert r[..|r| - 1] == DecimalString(n / 10);
    }
  }

  /** Two numbers render to the same text only if they are equal. */
  lemma DecimalInjective(m: nat, n: nat)
    ensures DecimalString(m) == DecimalString(n) <==> m == n
  {
    if DecimalString(m) == DecimalString(n) {
      DecimalRoundTrip(m);
      DecimalRoundTrip(n);
    }
  }
}

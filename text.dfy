/** Python's `str.strip()` and `str.lower()`, as the loader and the endpoint apply them. */
module Text {

  /** `str.isspace()` on one character: the Unicode white-space characters Python strips. */
  predicate IsSpace(c: char)
  {
    var n := c as int;
    (9 <= n <= 13) || (28 <= n <= 32) || n == 0x85 || n == 0xA0 || n == 0x1680
    || (0x2000 <= n <= 0x200A) || n == 0x2028 || n == 0x2029 || n == 0x202F
    || n == 0x205F || n == 0x3000
  }

  predicate AllSpace(s: string)
  {
    forall i :: 0 <= i < |s| ==> IsSpace(s[i])
  }

  /** `s.lstrip()`: drops leading white space. */
  function StripStart(s: string): string
  {
    if s != [] && IsSpace(s[0]) then StripStart(s[1..]) else s
  }

  /** `s.rstrip()`: drops trailing white space. */
  function StripEnd(s: string): string
  {
    if s != [] && IsSpace(s[|s| - 1]) then StripEnd(s[..|s| - 1]) else s
  }

  /** What `lstrip` keeps is a suffix of `s` not starting with white space, and what it drops is
      all white space. */
  lemma {:induction false} StripStartShape(s: string)
    ensures var r := StripStart(s);
      |r| <= |s| && r == s[|s| - |r|..] && AllSpace(s[..|s| - |r|]) && (r != [] ==> !IsSpace(r[0]))
    decreases |s|
  {
    if s != [] && IsSpace(s[0]) {
      StripStartShape(s[1..]);
      var r := StripStart(s[1..]);
      assert s[..|s| - |r|] == [s[0]] + s[1..][..|s| - 1 - |r|];
    }
  }

  /** What `rstrip` keeps is a prefix of `s` not ending with white space, and what it drops is
      all white space. */
  lemma {:induction false} StripEndShape(s: string)
    ensures var r := StripEnd(s);
      |r| <= |s| && r == s[..|r|] && AllSpace(s[|r|..]) && (r != [] ==> !IsSpace(r[|r| - 1]))
    decreases |s|
  {
    if s != [] && IsSpace(s[|s| - 1]) {
      StripEndShape(s[..|s| - 1]);
      var r := StripEnd(s[..|s| - 1]);
      assert s[|r|..] == s[..|s| - 1][|r|..] + [s[|s| - 1]];
    }
  }

  /** No white space at either end. */
  predicate IsStripped(s: string)
  {
    s != [] ==> !IsSpace(s[0]) && !IsSpace(s[|s| - 1])
  }

  /** `s.strip()`: the part of `s` between its leading and its trailing white space. */
  function Strip(s: string): (r: string)
    ensures |r| <= |s|
    ensures IsStripped(r)
  {
    StripStartShape(s);
    StripEndShape(StripStart(s));
    StripEnd(StripStart(s))
  }

  /** The strip of `s` is a slice of `s` with only white space before and after it. */
  lemma StripIsCore(s: string)
    ensures exists i ::
              0 <= i <= |s| - |Strip(s)| && Strip(s) == s[i..i + |Strip(s)|] &&
              AllSpace(s[..i]) && AllSpace(s[i + |Strip(s)|..])
  {
    var t := StripStart(s);
    var r := StripEnd(t);
    StripStartShape(s);
    StripEndShape(t);
    var i := |s| - |t|;
    assert r == s[i..i + |r|];
    assert s[i + |r|..] == t[|r|..];
  }

  lemma {:induction false} StripStartSkips(a: string, x: string)
    requires AllSpace(a)
    ensures StripStart(a + x) == StripStart(x)
    decreases |a|
  {
    if a != [] {
      assert (a + x)[1..] == a[1..] + x;
      StripStartSkips(a[1..], x);
    } else {
      assert a + x == x;
    }
  }

  lemma {:induction false} StripEndSkips(x: string, b: string)
    requires AllSpace(b)
    ensures StripEnd(x + b) == StripEnd(x)
    decreases |b|
  {
    if b != [] {
      var b' := b[..|b| - 1];
      assert (x + b)[..|x + b| - 1] == x + b';
      StripEndSkips(x, b');
    } else {
      assert x + b == x;
    }
  }

  /** Strip is determined by its defining property: white space around a core with no white space at its ends. */
  lemma StripUnique(a: string, m: string, b: string)
    requires AllSpace(a) && AllSpace(b)
    requires IsStripped(m)
    ensures Strip(a + m + b) == m
  {
    assert a + m + b == a + (m + b);
    StripStartSkips(a, m + b);
    if m == [] {
      assert m + b == b;
      assert AllSpace(a + m + b);
      StripBlank(a + m + b);
    } else {
      assert StripStart(m + b) == m + b;
      StripEndSkips(m, b);
      assert StripEnd(m) == m;
    }
  }

  /** A string is stripped to nothing exactly when it is all white space. */
  lemma StripBlank(s: string)
    ensures Strip(s) == [] <==> AllSpace(s)
  {
    var t := StripStart(s);
    StripStartShape(s);
    StripEndShape(t);
    if Strip(s) == [] {
      assert AllSpace(t);
      assert s == s[..|s| - |t|] + t;
    }
  }

  /** A stripped string is its own strip. */
  lemma StripIdempotent(s: string)
    ensures Strip(Strip(s)) == Strip(s)
  {
    StripKeeps(Strip(s));
  }

  /** A string without white space at either end is its own strip. */
  lemma StripKeeps(r: string)
    requires IsStripped(r)
    ensures Strip(r) == r
  {
    assert [] + r + [] == r;
    StripUnique([], r, []);
  }

  /** Regrouping the five parts of a padded string around its core. */
  lemma Regroup(a: string, x: string, y: string, z: string, b: string)
    ensures a + (x + (y + z)) + b == (a + x) + y + (z + b)
  {
  }

  /** White space followed by white space is white space. */
  lemma AllSpaceConcat(x: string, y: string)
    requires AllSpace(x) && AllSpace(y)
    ensures AllSpace(x + y)
  {
  }

  /** Padding a string with white space on either side does not change its strip. */
  lemma StripPadding(a: string, m: string, b: string)
    requires AllSpace(a) && AllSpace(b)
    ensures Strip(a + m + b) == Strip(m)
  {
    var t := StripStart(m);
    var r := StripEnd(t);
    StripStartShape(m);
    StripEndShape(t);
    var i := |m| - |t|;
    var front, back := m[..i], t[|r|..];
    assert t == r + back;
    assert m == front + t;
    var p, q := a + front, back + b;
    Regroup(a, front, r, back, b);
    AllSpaceConcat(a, front);
    AllSpaceConcat(back, b);
    StripUnique(p, r, q);
  }

  /** `c.lower()` for the ASCII letters; every other character is left as it is. */
  function LowerChar(c: char): char
  {
    if 'A' <= c <= 'Z' then (c as int + 32) as char else c
  }

  /** `s.lower()`, character by character. */
  function Lower(s: string): (r: string)
  {
    if s == [] then [] else [LowerChar(s[0])] + Lower(s[1..])
  }

  /** Lower-casing keeps the length and maps each character on its own. */
  lemma {:induction false} LowerAt(s: string)
    ensures |Lower(s)| == |s| && forall i :: 0 <= i < |s| ==> Lower(s)[i] == LowerChar(s[i])
    decreases |s|
  {
    if s != [] {
      LowerAt(s[1..]);
      forall i | 0 <= i < |s| ensures Lower(s)[i] == LowerChar(s[i]) {
        if i > 0 { assert Lower(s)[i] == Lower(s[1..])[i - 1]; }
      }
    }
  }

  /** A string without upper-case letters is its own lower case. */
  lemma LowerKeeps(s: string)
    requires forall i :: 0 <= i < |s| ==> !('A' <= s[i] <= 'Z')
    ensures Lower(s) == s
  {
    LowerAt(s);
  }

  /** `c` is `d` or, when `d` is a lower-case letter, its upper-case form. */
  predicate CaseVariant(c: char, d: char)
  {
    c == d || ('a' <= d <= 'z' && c as int == d as int - 32)
  }

  /** `s` spells `t` with any mix of cases. */
  predicate SpelledAs(s: string, t: string)
  {
    |s| == |t| && forall i :: 0 <= i < |s| ==> CaseVariant(s[i], t[i])
  }

  /** Lower-casing is case-insensitive matching: `Lower(s)` equals a lower-case `t` exactly
      when `s` spells `t` in some mix of cases. */
  lemma LowerMatches(s: string, t: string)
    requires forall i :: 0 <= i < |t| ==> !('A' <= t[i] <= 'Z')
    ensures Lower(s) == t <==> SpelledAs(s, t)
  {
    LowerAt(s);
    if SpelledAs(s, t) {
      forall i | 0 <= i < |s| ensures Lower(s)[i] == t[i] {
        assert CaseVariant(s[i], t[i]);
      }
    }
    if Lower(s) == t {
      forall i | 0 <= i < |s| ensures CaseVariant(s[i], t[i]) {
        assert LowerChar(s[i]) == t[i];
      }
    }
  }

  /** `Lower` maps a four-character string to a given display exactly when it does so
      character by character. */
  lemma {:induction false} LowerOfFour(s: string, a: char, b: char, c: char, d: char)
    requires |s| == 4
    ensures Lower(s) == [a, b, c, d] <==>
      LowerChar(s[0]) == a && LowerChar(s[1]) == b && LowerChar(s[2]) == c && LowerChar(s[3]) == d
  {
    LowerAt(s);
    var w := [a, b, c, d];
    if Lower(s) == w {
      assert Lower(s)[0] == a && Lower(s)[1] == b && Lower(s)[2] == c && Lower(s)[3] == d;
    }
  }

  lemma {:induction false} LowerOfFive(s: string, a: char, b: char, c: char, d: char, e: char)
    requires |s| == 5
    ensures Lower(s) == [a, b, c, d, e] <==>
      LowerChar(s[0]) == a && LowerChar(s[1]) == b && LowerChar(s[2]) == c && LowerChar(s[3]) == d
      && LowerChar(s[4]) == e
  {
    LowerAt(s);
    var w := [a, b, c, d, e];
    if Lower(s) == w {
      assert Lower(s)[0] == a && Lower(s)[1] == b && Lower(s)[2] == c && Lower(s)[3] == d;
      assert Lower(s)[4] == e;
    }
  }

  /** The characters that lower-case to a lower-case letter: that letter and its capital. */
  lemma LowerCharIs(c: char, lower: char, upper: char)
    requires 'a' <= lower <= 'z' && upper as int == lower as int - 32
    ensures LowerChar(c) == lower <==> c == lower || c == upper
  {
  }

  /** The spellings of ".pdf" that `str.lower()` maps to it. */
  lemma PdfSpellings(s: string)
    ensures Lower(s) == ".pdf" <==>
      |s| == 4 && s[0] == '.' && (s[1] == 'p' || s[1] == 'P') && (s[2] == 'd' || s[2] == 'D') && (s[3] == 'f' || s[3] == 'F')
  {
    LowerAt(s);
    if |s| == 4 {
      LowerOfFour(s, '.', 'p', 'd', 'f');
      assert ".pdf" == ['.', 'p', 'd', 'f'];
      LowerCharIs(s[1], 'p', 'P');
      LowerCharIs(s[2], 'd', 'D');
      LowerCharIs(s[3], 'f', 'F');
    }
  }

  /** The spellings of ".json" that `str.lower()` maps to it. */
  lemma JsonSpellings(s: string)
    ensures Lower(s) == ".json" <==>
      |s| == 5 && s[0] == '.' && (s[1] == 'j' || s[1] == 'J') && (s[2] == 's' || s[2] == 'S')
      && (s[3] == 'o' || s[3] == 'O') && (s[4] == 'n' || s[4] == 'N')
  {
    LowerAt(s);
    if |s| == 5 {
      LowerOfFive(s, '.', 'j', 's', 'o', 'n');
      assert ".json" == ['.', 'j', 's', 'o', 'n'];
      LowerCharIs(s[1], 'j', 'J');
      LowerCharIs(s[2], 's', 'S');
      LowerCharIs(s[3], 'o', 'O');
      LowerCharIs(s[4], 'n', 'N');
    }
  }
}

/**
 * The string operations the dashboard's components rely on, over `seq<char>`:
 * `toLowerCase`, `includes`, `split(" ")` and `join`, decimal rendering of a
 * number inside a template literal, `replace` of the first occurrence of a
 * character, `replace(/\s+/g, ...)`, and `charAt(0).toUpperCase() + slice(1)`.
 * Case mapping and the whitespace class are ASCII only.
 */
module Text {

  // ---------------------------------------------------------------------------
  // Case mapping
  // ---------------------------------------------------------------------------

  predicate IsUpper(c: char) { 'A' <= c <= 'Z' }

  predicate IsLower(c: char) { 'a' <= c <= 'z' }

  /** ASCII `toLowerCase` of one character. */
  function LowerChar(c: char): (d: char)
    ensures !IsUpper(d)
    ensures IsUpper(c) ==> IsLower(d) && d as int == c as int + 32
    ensures !IsUpper(c) ==> d == c
  {
    if IsUpper(c) then (c as int + 32) as char else c
  }

  /** ASCII `toUpperCase` of one character. */
  function UpperChar(c: char): (d: char)
    ensures !IsLower(d)
    ensures IsLower(c) ==> IsUpper(d) && d as int == c as int - 32
    ensures !IsLower(c) ==> d == c
  {
    if IsLower(c) then (c as int - 32) as char else c
  }

  predicate NoUpper(s: string) { forall i :: 0 <= i < |s| ==> !IsUpper(s[i]) }

  /** `s.toLowerCase()`: every character lower-cased, nothing else changed. */
  function ToLower(s: string): (r: string)
    ensures |r| == |s|
    ensures forall i :: 0 <= i < |s| ==> r[i] == LowerChar(s[i])
    ensures NoUpper(r)
  {
    if s == [] then [] else [LowerChar(s[0])] + ToLower(s[1..])
  }

  /** A string without upper-case letters is its own lower-case form. */
  lemma {:induction false} ToLowerOfNoUpper(s: string)
    requires NoUpper(s)
    ensures ToLower(s) == s
  {
    if s != [] {
      assert NoUpper(s[1..]) by {
        forall i | 0 <= i < |s[1..]| ensures !IsUpper(s[1..][i]) {
          assert s[1..][i] == s[i + 1];
        }
      }
      ToLowerOfNoUpper(s[1..]);
    }
  }

  /** Lower-casing twice is lower-casing once. */
  lemma ToLowerIdempotent(s: string)
    ensures ToLower(ToLower(s)) == ToLower(s)
  {
    ToLowerOfNoUpper(ToLower(s));
  }

  // ---------------------------------------------------------------------------
  // String.prototype.includes
  // ---------------------------------------------------------------------------

  predicate IsPrefix(p: string, s: string) { |p| <= |s| && s[..|p|] == p }

  /** `s.includes(sub)`: `sub` occurs somewhere in `s`; the empty string occurs everywhere. */
  predicate Contains(s: string, sub: string)
    decreases |s|
  {
    IsPrefix(sub, s) || (s != [] && Contains(s[1..], sub))
  }

  /** `sub` occurs in `s` starting at index `i`. */
  predicate OccursAt(s: string, sub: string, i: int)
  {
    0 <= i && i + |sub| <= |s| && s[i..i + |sub|] == sub
  }

  /** `Contains` agrees with the positional definition of an occurrence, in both directions. */
  lemma {:induction false} ContainsIffOccurs(s: string, sub: string)
    ensures Contains(s, sub) <==> exists i :: OccursAt(s, sub, i)
    decreases |s|
  {
    if IsPrefix(sub, s) {
      assert OccursAt(s, sub, 0);
    } else if s != [] {
      ContainsIffOccurs(s[1..], sub);
      if Contains(s[1..], sub) {
        var i :| OccursAt(s[1..], sub, i);
        assert s[i + 1..i + 1 + |sub|] == s[1..][i..i + |sub|];
        assert OccursAt(s, sub, i + 1);
      }
      if i :| OccursAt(s, sub, i) {
        assert i != 0;
        assert s[1..][i - 1..i - 1 + |sub|] == s[i..i + |sub|];
        assert OccursAt(s[1..], sub, i - 1);
      }
    }
  }

  /** Every string includes the empty string. */
  lemma ContainsEmpty(s: string)
    ensures Contains(s, "")
  {
    assert IsPrefix("", s);
  }

  /** `field.toLowerCase().includes(query.toLowerCase())`, the search test used by every list. */
  predicate IncludesIgnoringCase(field: string, query: string)
  {
    Contains(ToLower(field), ToLower(query))
  }

  /** An empty search query matches every field. */
  lemma EmptyQueryMatches(field: string)
    ensures IncludesIgnoringCase(field, "")
  {
    ContainsEmpty(ToLower(field));
  }

  // ---------------------------------------------------------------------------
  // Decimal rendering of a natural number (`${n}` in a template literal)
  // ---------------------------------------------------------------------------

  predicate IsDigit(c: char) { '0' <= c <= '9' }

  predicate AllDigits(s: string) { forall i :: 0 <= i < |s| ==> IsDigit(s[i]) }

  function DigitChar(d: nat): (c: char)
    requires d < 10
    ensures IsDigit(c) && c as int - '0' as int == d
  {
    ('0' as int + d) as char
  }

  /** The decimal digits of `n`, most significant first, with no leading zero. */
  function NatToString(n: nat): (r: string)
    ensures 1 <= |r|
    ensures AllDigits(r)
    ensures r[0] != '0' || n == 0
    decreases n
  {
    if n < 10 then [DigitChar(n)] else NatToString(n / 10) + [DigitChar(n % 10)]
  }

  /** The value of a string of decimal digits. */
  function DigitsValue(s: string): nat
    requires AllDigits(s)
  {
    if s == [] then 0 else DigitsValue(s[..|s| - 1]) * 10 + (s[|s| - 1] as int - '0' as int)
  }

  /** Reading the digits back gives the number: the rendering is lossless. */
  lemma {:induction false} NatToStringRoundTrip(n: nat)
    ensures DigitsValue(NatToString(n)) == n
    decreases n
  {
    if n >= 10 {
      var front := NatToString(n / 10);
      var r := front + [DigitChar(n % 10)];
      assert r[..|r| - 1] == front;
      NatToStringRoundTrip(n / 10);
    }
  }

  /** Different numbers render differently. */
  lemma NatToStringInjective(m: nat, n: nat)
    requires NatToString(m) == NatToString(n)
    ensures m == n
  {
    NatToStringRoundTrip(m);
    NatToStringRoundTrip(n);
  }

  /** A non-empty digit string without a leading zero, or the single digit "0". */
  predicate CanonicalDigits(s: string)
  {
    1 <= |s| && AllDigits(s) && (s[0] != '0' || |s| == 1)
  }

  /**
   * A canonical digit string is the rendering of its value, so two canonical
   * digit strings with the same value are equal.
   */
  lemma {:induction false} CanonicalDigitsRendering(s: string)
    requires CanonicalDigits(s)
    ensures NatToString(DigitsValue(s)) == s
    ensures s[0] != '0' ==> DigitsValue(s) >= 1
    decreases |s|
  {
    var last := s[|s| - 1];
    var d := last as int - '0' as int;
    if |s| >= 2 {
      var front := s[..|s| - 1];
      assert front[0] == s[0];
      assert CanonicalDigits(front);
      CanonicalDigitsRendering(front);
      var v := DigitsValue(s);
      assert v == DigitsValue(front) * 10 + d;
      DivModTen(DigitsValue(front), d);
      assert v / 10 == DigitsValue(front) && v % 10 == d;
      assert DigitChar(d) == last;
      assert s == front + [last];
    } else {
      assert DigitChar(d) == last;
    }
  }

  lemma DivModTen(a: nat, d: int)
    requires 0 <= d < 10
    ensures (a * 10 + d) / 10 == a && (a * 10 + d) % 10 == d
  {
  }

  /** Equal values, equal canonical digit strings. */
  lemma CanonicalDigitsUnique(s: string, t: string)
    requires CanonicalDigits(s) && CanonicalDigits(t)
    requires DigitsValue(s) == DigitsValue(t)
    ensures s == t
  {
    CanonicalDigitsRendering(s);
    CanonicalDigitsRendering(t);
  }

  // ---------------------------------------------------------------------------
  // split / join on one separator character
  // ---------------------------------------------------------------------------

  /** `s.split(sep)`: the maximal separator-free segments, empty ones included. */
  function Split(s: string, sep: char): (parts: seq<string>)
    ensures 1 <= |parts|
    ensures forall k :: 0 <= k < |parts| ==> sep !in parts[k]
  {
    if s == [] then [""]
    else
      var rest := Split(s[1..], sep);
      if s[0] == sep then [""] + rest
      else [[s[0]] + rest[0]] + rest[1..]
  }

  /** `parts.join(sep)`. */
  function Join(parts: seq<string>, sep: char): string
  {
    if |parts| == 0 then ""
    else if |parts| == 1 then parts[0]
    else parts[0] + [sep] + Join(parts[1..], sep)
  }

  /** Joining the segments with the separator gives back the original string. */
  lemma {:induction false} JoinSplit(s: string, sep: char)
    ensures Join(Split(s, sep), sep) == s
  {
    if s != [] {
      var rest := Split(s[1..], sep);
      JoinSplit(s[1..], sep);
      if s[0] == sep {
        var parts := [""] + rest;
        assert parts[1..] == rest;
        assert Join(parts, sep) == "" + [sep] + Join(rest, sep);
      } else {
        var parts := [[s[0]] + rest[0]] + rest[1..];
        if |rest| == 1 {
          assert Join(parts, sep) == [s[0]] + rest[0];
        } else {
          assert parts[1..] == rest[1..];
          assert Join(rest, sep) == rest[0] + [sep] + Join(rest[1..], sep);
          assert Join(parts, sep) == [s[0]] + rest[0] + [sep] + Join(rest[1..], sep);
        }
      }
    }
  }

  // ---------------------------------------------------------------------------
  // Replacing the first occurrence of a character (`s.replace("-", " ")`)
  // ---------------------------------------------------------------------------

  /** The index of the first `c` in `s`, or -1 when there is none (`indexOf`). */
  function IndexOf(s: string, c: char): (k: int)
    ensures -1 <= k < |s|
    ensures k == -1 <==> c !in s
    ensures 0 <= k ==> s[k] == c && c !in s[..k]
  {
    if s == [] then -1
    else if s[0] == c then 0
    else
      var k := IndexOf(s[1..], c);
      if k == -1 then -1
      else
        assert s[..k + 1] == [s[0]] + s[1..][..k];
        k + 1
  }

  /** `s.replace(from, to)` with a one-character pattern: only the first occurrence changes. */
  function ReplaceFirst(s: string, from: char, to: char): (r: string)
    ensures |r| == |s|
    ensures forall i :: 0 <= i < |s| ==> r[i] == if i == IndexOf(s, from) then to else s[i]
  {
    if s == [] then []
    else if s[0] == from then [to] + s[1..]
    else [s[0]] + ReplaceFirst(s[1..], from, to)
  }

  /** `s.charAt(0).toUpperCase() + s.slice(1)`. */
  function Capitalize(s: string): (r: string)
    ensures |r| == |s|
    ensures s != [] ==> r[0] == UpperChar(s[0]) && r[1..] == s[1..]
  {
    if s == [] then "" else [UpperChar(s[0])] + s[1..]
  }

  // ---------------------------------------------------------------------------
  // Replacing each whitespace run (`s.replace(/\s+/g, by)`)
  // ---------------------------------------------------------------------------

  /** ASCII whitespace: space, tab, line feed, vertical tab, form feed, carriage return. */
  predicate IsSpace(c: char)
  {
    c == ' ' || c == '\t' || c == '\n' || c == '\r' || c == '\U{000B}' || c == '\U{000C}'
  }

  predicate NoSpace(s: string) { forall i :: 0 <= i < |s| ==> !IsSpace(s[i]) }

  /**
   * Each maximal run of whitespace replaced by one `repl`; `inRun` says that the
   * character before `s` was whitespace already replaced.
   */
  function ReplaceSpaceRuns(s: string, repl: char, inRun: bool): (r: string)
    requires !IsSpace(repl)
    ensures NoSpace(r)
    ensures |r| <= |s|
    ensures NoUpper(s) && !IsUpper(repl) ==> NoUpper(r)
  {
    if s == [] then ""
    else if IsSpace(s[0]) then
      (if inRun then "" else [repl]) + ReplaceSpaceRuns(s[1..], repl, true)
    else
      [s[0]] + ReplaceSpaceRuns(s[1..], repl, false)
  }

  /** A string without whitespace is left as it is. */
  lemma {:induction false} ReplaceSpaceRunsOfNoSpace(s: string, repl: char, inRun: bool)
    requires !IsSpace(repl) && NoSpace(s)
    ensures ReplaceSpaceRuns(s, repl, inRun) == s
  {
    if s != [] {
      assert NoSpace(s[1..]) by {
        forall i | 0 <= i < |s[1..]| ensures !IsSpace(s[1..][i]) {
          assert s[1..][i] == s[i + 1];
        }
      }
      ReplaceSpaceRunsOfNoSpace(s[1..], repl, false);
    }
  }

  /** Every character of `w` is whitespace. */
  predicate AllSpace(w: string) { forall i :: 0 <= i < |w| ==> IsSpace(w[i]) }

  /**
   * Replacing runs works piece by piece: the second piece continues the run
   * exactly when the first piece ends in whitespace.
   */
  lemma {:induction false} ReplaceSpaceRunsConcat(a: string, b: string, repl: char, inRun: bool)
    requires !IsSpace(repl)
    ensures ReplaceSpaceRuns(a + b, repl, inRun)
         == ReplaceSpaceRuns(a, repl, inRun) + ReplaceSpaceRuns(b, repl, if a == [] then inRun else IsSpace(a[|a| - 1]))
  {
    if a == [] {
      assert a + b == b;
    } else {
      assert (a + b)[0] == a[0];
      assert (a + b)[1..] == a[1..] + b;
      ReplaceSpaceRunsConcat(a[1..], b, repl, IsSpace(a[0]));
    }
  }

  /** A run of whitespace alone becomes one `repl`, or nothing when it continues a run. */
  lemma {:induction false} ReplaceSpaceRunsOfRun(w: string, repl: char, inRun: bool)
    requires !IsSpace(repl) && AllSpace(w)
    ensures ReplaceSpaceRuns(w, repl, inRun) == if w == [] || inRun then "" else [repl]
  {
    if w != [] {
      assert AllSpace(w[1..]) by {
        forall i | 0 <= i < |w[1..]| ensures IsSpace(w[1..][i]) {
          assert w[1..][i] == w[i + 1];
        }
      }
      ReplaceSpaceRunsOfRun(w[1..], repl, true);
    }
  }

  /**
   * A maximal whitespace run between two pieces becomes exactly one `repl`, and
   * the pieces on either side are replaced on their own.
   */
  lemma ReplaceSpaceRunsJoinsWords(a: string, w: string, b: string, repl: char)
    requires !IsSpace(repl)
    requires a == [] || !IsSpace(a[|a| - 1])
    requires w != [] && AllSpace(w)
    requires b == [] || !IsSpace(b[0])
    ensures ReplaceSpaceRuns(a + (w + b), repl, false)
         == ReplaceSpaceRuns(a, repl, false) + ([repl] + ReplaceSpaceRuns(b, repl, false))
  {
    RunThenWord(w, b, repl);
    WordThenAny(a, w + b, repl);
  }

  /** A piece ending in a non-space leaves what follows outside any run. */
  lemma WordThenAny(a: string, x: string, repl: char)
    requires !IsSpace(repl)
    requires a == [] || !IsSpace(a[|a| - 1])
    ensures ReplaceSpaceRuns(a + x, repl, false) == ReplaceSpaceRuns(a, repl, false) + ReplaceSpaceRuns(x, repl, false)
  {
    ReplaceSpaceRunsConcat(a, x, repl, false);
  }

  /** A non-empty run followed by a piece starting with a non-space. */
  lemma RunThenWord(w: string, b: string, repl: char)
    requires !IsSpace(repl)
    requires w != [] && AllSpace(w)
    requires b == [] || !IsSpace(b[0])
    ensures ReplaceSpaceRuns(w + b, repl, false) == [repl] + ReplaceSpaceRuns(b, repl, false)
  {
    ReplaceSpaceRunsOfRun(w, repl, false);
    ReplaceSpaceRunsConcat(w, b, repl, false);
    assert IsSpace(w[|w| - 1]);
    ReplaceSpaceRunsFromWord(b, repl);
  }

  /** A piece that starts with a non-space is replaced alike inside or outside a run. */
  lemma ReplaceSpaceRunsFromWord(b: string, repl: char)
    requires !IsSpace(repl)
    requires b == [] || !IsSpace(b[0])
    ensures ReplaceSpaceRuns(b, repl, true) == ReplaceSpaceRuns(b, repl, false)
  {
  }

  /** `s` without the character `c`, the rest in order. */
  function Without(s: string, c: char): string
  {
    if s == [] then "" else (if s[0] == c then "" else [s[0]]) + Without(s[1..], c)
  }

  /** `s` without its whitespace, the rest in order. */
  function WithoutSpace(s: string): string
  {
    if s == [] then "" else (if IsSpace(s[0]) then "" else [s[0]]) + WithoutSpace(s[1..])
  }

  /**
   * Only whitespace is replaced and only by `repl`: dropping `repl` from the
   * result gives the input without whitespace and without `repl`.
   */
  lemma {:induction false} ReplaceSpaceRunsKeepsOthers(s: string, repl: char, inRun: bool)
    requires !IsSpace(repl)
    ensures Without(ReplaceSpaceRuns(s, repl, inRun), repl) == Without(WithoutSpace(s), repl)
  {
    if s != [] {
      var rest := ReplaceSpaceRuns(s[1..], repl, IsSpace(s[0]));
      var head: string := if IsSpace(s[0]) then (if inRun then "" else [repl]) else [s[0]];
      assert ReplaceSpaceRuns(s, repl, inRun) == head + rest;
      WithoutConcat(head, rest, repl);
      WithoutConcat(if IsSpace(s[0]) then "" else [s[0]], WithoutSpace(s[1..]), repl);
      ReplaceSpaceRunsKeepsOthers(s[1..], repl, IsSpace(s[0]));
    }
  }

  lemma {:induction false} WithoutConcat(a: string, b: string, c: char)
    ensures Without(a + b, c) == Without(a, c) + Without(b, c)
  {
    if a == [] {
      assert a + b == b;
    } else {
      assert (a + b)[0] == a[0];
      assert (a + b)[1..] == a[1..] + b;
      WithoutConcat(a[1..], b, c);
    }
  }

  /** Lower-casing works piece by piece. */
  lemma {:induction false} ToLowerConcat(a: string, b: string)
    ensures ToLower(a + b) == ToLower(a) + ToLower(b)
  {
    if a == [] {
      assert a + b == b;
    } else {
      assert (a + b)[0] == a[0];
      assert (a + b)[1..] == a[1..] + b;
      ToLowerConcat(a[1..], b);
    }
  }
}

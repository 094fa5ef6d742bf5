// String operations shared by the bot and the web app: substring tests,
// Python's `s.split(p)[0]`, `s.split(c)`, `str.upper()` and trimming.
module Text {

  predicate StartsWith(s: string, p: string) {
    |p| <= |s| && s[..|p|] == p
  }

  /** `p in s` */
  predicate Contains(s: string, p: string)
    decreases |s|
  {
    StartsWith(s, p) || (|s| > 0 && Contains(s[1..], p))
  }

  lemma {:induction false} ContainsNeedsRoom(s: string, p: string)
    requires Contains(s, p)
    ensures |p| <= |s|
    decreases |s|
  {
    if !StartsWith(s, p) {
      ContainsNeedsRoom(s[1..], p);
    }
  }

  /** An occurrence of `p` inside `s` makes `p` occur in `a + s + b`. */
  lemma {:induction false} ContainsWithin(a: string, s: string, b: string, p: string)
    requires Contains(s, p)
    ensures Contains(a + s + b, p)
    decreases |a|, |s|
  {
    if a == [] {
      if StartsWith(s, p) {
        assert (s + b)[..|p|] == s[..|p|];
      } else {
        ContainsWithin([], s[1..], b, p);
        assert [] + s[1..] + b == (s + b)[1..];
      }
      assert a + s + b == s + b;
    } else {
      ContainsWithin(a[1..], s, b, p);
      assert (a + s + b)[1..] == a[1..] + s + b;
    }
  }

  /** An occurrence inside a slice is an occurrence in the whole text. */
  lemma ContainsInSlice(s: string, i: nat, j: nat, p: string)
    requires i <= j <= |s| && Contains(s[i..j], p)
    ensures Contains(s, p)
  {
    ContainsWithin(s[..i], s[i..j], s[j..], p);
    assert s[..i] + s[i..j] + s[j..] == s;
  }

  /** `s.split(p)[0]`: the part of `s` before the first occurrence of `p`,
      or all of `s` when `p` does not occur. */
  function Before(s: string, p: string): (r: string)
    requires p != []
    ensures |r| <= |s| && r == s[..|r|]
    decreases |s|
  {
    if |s| < |p| then s
    else if s[..|p|] == p then []
    else [s[0]] + Before(s[1..], p)
  }

  /** What comes before the first occurrence holds no occurrence, and the
      occurrence itself follows it when there is one. */
  lemma {:induction false} BeforeIsFree(s: string, p: string)
    requires p != []
    ensures !Contains(Before(s, p), p)
    ensures Contains(s, p) ==> StartsWith(s[|Before(s, p)|..], p)
    ensures !Contains(s, p) ==> Before(s, p) == s
    decreases |s|
  {
    var r := Before(s, p);
    if |s| < |p| {
      if Contains(s, p) { ContainsNeedsRoom(s, p); }
    } else if s[..|p|] == p {
    } else {
      BeforeIsFree(s[1..], p);
      var r' := Before(s[1..], p);
      assert r == [s[0]] + r';
      assert |r| > 0 && r[1..] == r';
      if Contains(s, p) {
        assert Contains(s[1..], p);
        assert s[|r|..] == s[1..][|r'|..];
      }
    }
  }

  /** `p` overlaps no proper shift of itself. */
  ghost predicate Borderless(p: string) {
    forall k :: 0 < k < |p| ==> p[k..] != p[..|p| - k]
  }

  /** Cutting at the first occurrence of a borderless `p` recovers a text that
      was built as `a` (holding no `p`) followed by something starting with `p`. */
  lemma {:induction false} BeforeAppended(a: string, b: string, p: string)
    requires p != [] && Borderless(p)
    requires !Contains(a, p) && StartsWith(b, p)
    ensures Before(a + b, p) == a
    decreases |a|
  {
    if a == [] {
      assert a + b == b;
    } else {
      var s := a + b;
      if |a| < |p| {
        var k := |a|;
        assert p[k..] != p[..|p| - k];
        var j :| 0 <= j < |p| - k && p[k..][j] != p[..|p| - k][j];
        assert s[k + j] == p[j];
        assert s[..|p|][k + j] != p[k + j];
      }
      assert !Contains(a[1..], p);
      BeforeAppended(a[1..], b, p);
      assert s[1..] == a[1..] + b;
    }
  }

  /** The characters JavaScript's `\d` matches. */
  predicate IsDigit(ch: char) {
    '0' <= ch <= '9'
  }

  /** `s.replace(/\D/g, '')`: the digits of `s`, in order. */
  function Digits(s: string): (r: string)
    ensures |r| <= |s|
    ensures forall i :: 0 <= i < |r| ==> IsDigit(r[i])
    decreases |s|
  {
    if s == [] then []
    else Digits(s[..|s| - 1]) + (if IsDigit(s[|s| - 1]) then [s[|s| - 1]] else [])
  }

  lemma {:induction false} DigitsAppend(a: string, b: string)
    ensures Digits(a + b) == Digits(a) + Digits(b)
    decreases |b|
  {
    if b == [] {
      assert a + b == a;
    } else {
      DigitsAppend(a, b[..|b| - 1]);
      assert (a + b)[..|a + b| - 1] == a + b[..|b| - 1];
    }
  }

  /** One more character adds itself to the digits exactly when it is one. */
  lemma DigitsSnoc(s: string, x: char)
    ensures Digits(s + [x]) == Digits(s) + (if IsDigit(x) then [x] else [])
  {
    assert (s + [x])[..|s|] == s;
  }

  /** Text made of digits only is its own digit string. */
  lemma {:induction false} DigitsOfDigits(s: string)
    requires forall i :: 0 <= i < |s| ==> IsDigit(s[i])
    ensures Digits(s) == s
    decreases |s|
  {
    if s != [] {
      DigitsOfDigits(s[..|s| - 1]);
    }
  }

  /** Text with no digit has an empty digit string. */
  lemma {:induction false} DigitsOfNonDigits(s: string)
    requires forall i :: 0 <= i < |s| ==> !IsDigit(s[i])
    ensures Digits(s) == []
    decreases |s|
  {
    if s != [] {
      DigitsOfNonDigits(s[..|s| - 1]);
    }
  }

  /** Python's `s.split(c)` for a one-character separator. */
  function Split(s: string, c: char): (parts: seq<string>)
    ensures |parts| >= 1
    decreases |s|
  {
    if s == [] then [""]
    else if s[0] == c then [""] + Split(s[1..], c)
    else
      var rest := Split(s[1..], c);
      [[s[0]] + rest[0]] + rest[1..]
  }

  /** `c.join(parts)` */
  function Join(parts: seq<string>, c: char): string
    requires |parts| >= 1
    decreases |parts|
  {
    if |parts| == 1 then parts[0] else parts[0] + [c] + Join(parts[1..], c)
  }

  /** Splitting loses nothing and no part holds the separator. */
  lemma {:induction false} SplitJoin(s: string, c: char)
    ensures Join(Split(s, c), c) == s
    ensures forall i :: 0 <= i < |Split(s, c)| ==> c !in Split(s, c)[i]
    decreases |s|
  {
    if s != [] {
      SplitJoin(s[1..], c);
      var rest := Split(s[1..], c);
      if s[0] == c {
        assert Split(s, c)[1..] == rest;
      } else {
        var parts := Split(s, c);
        assert parts[1..] == rest[1..];
        if |rest| > 1 {
          assert rest[1..][0] == rest[1];
          assert Join(rest, c) == rest[0] + [c] + Join(rest[1..], c);
        }
        forall i | 0 <= i < |parts| ensures c !in parts[i] {
          if i > 0 { assert parts[i] == rest[i]; }
        }
      }
    }
  }

  /** Text without the separator is one field. */
  lemma {:induction false} SplitNoSeparator(s: string, c: char)
    requires c !in s
    ensures Split(s, c) == [s]
    decreases |s|
  {
    if s != [] {
      SplitNoSeparator(s[1..], c);
      assert [s[0]] + s[1..] == s;
    }
  }

  /** A separator after a separator-free field starts the next field. */
  lemma {:induction false} SplitAfterField(a: string, b: string, c: char)
    requires c !in a
    ensures Split(a + [c] + b, c) == [a] + Split(b, c)
    decreases |a|
  {
    if a == [] {
      assert a + [c] + b == [c] + b;
      assert ([c] + b)[1..] == b;
    } else {
      SplitAfterField(a[1..], b, c);
      assert (a + [c] + b)[1..] == a[1..] + [c] + b;
      assert [a[0]] + a[1..] == a;
    }
  }

  /** Python's `str.upper()` on the ASCII Latin letters a–z and the Russian
      Cyrillic letters а–я and ё; every other character is kept as it is. */
  function UpperChar(ch: char): (u: char)
    ensures ('a' <= ch <= 'z') ==> u as int == ch as int - 32
    ensures !('a' <= ch <= 'z' || 'а' <= ch <= 'я' || ch == 'ё') ==> u == ch
  {
    if 'a' <= ch <= 'z' || 'а' <= ch <= 'я' then (ch as int - 32) as char
    else if ch == 'ё' then 'Ё'
    else ch
  }

  function Upper(s: string): (u: string)
    ensures |u| == |s|
    ensures forall i :: 0 <= i < |s| ==> u[i] == UpperChar(s[i])
  {
    seq(|s|, i requires 0 <= i < |s| => UpperChar(s[i]))
  }

  /** The characters JavaScript's `String.prototype.trim` removes. */
  predicate IsJsSpace(ch: char) {
    ch == ' ' || ('\t' <= ch <= '\r') || ch == '\U{00A0}' || ch == '\U{1680}'
    || ('\U{2000}' <= ch <= '\U{200A}') || ch == '\U{2028}' || ch == '\U{2029}'
    || ch == '\U{202F}' || ch == '\U{205F}' || ch == '\U{3000}' || ch == '\U{FEFF}'
  }

  /** The characters Python's `str.strip()` removes (`str.isspace`). */
  predicate IsPySpace(ch: char) {
    ch == ' ' || ('\t' <= ch <= '\r') || ('\U{001C}' <= ch <= '\U{001F}') || ch == '\U{0085}'
    || ch == '\U{00A0}' || ch == '\U{1680}' || ('\U{2000}' <= ch <= '\U{200A}')
    || ch == '\U{2028}' || ch == '\U{2029}' || ch == '\U{202F}' || ch == '\U{205F}' || ch == '\U{3000}'
  }

  function TrimStart(s: string, isSpace: char -> bool): (r: string)
    ensures |r| <= |s| && r == s[|s| - |r|..]
    ensures r != [] ==> !isSpace(r[0])
    ensures forall i :: 0 <= i < |s| - |r| ==> isSpace(s[i])
    decreases |s|
  {
    if s != [] && isSpace(s[0]) then TrimStart(s[1..], isSpace) else s
  }

  function TrimEnd(s: string, isSpace: char -> bool): (r: string)
    ensures |r| <= |s| && r == s[..|r|]
    ensures r != [] ==> !isSpace(r[|r| - 1])
    ensures forall i :: |r| <= i < |s| ==> isSpace(s[i])
    decreases |s|
  {
    if s != [] && isSpace(s[|s| - 1]) then TrimEnd(s[..|s| - 1], isSpace) else s
  }

  /** The characters of `s` up to its first white space. */
  function WordPrefix(s: string): (w: string)
    ensures |w| <= |s| && w == s[..|w|]
    ensures forall i :: 0 <= i < |w| ==> !IsPySpace(w[i])
    ensures |w| < |s| ==> IsPySpace(s[|w|])
    decreases |s|
  {
    if s == [] || IsPySpace(s[0]) then [] else [s[0]] + WordPrefix(s[1..])
  }

  /** A word followed by white space or by nothing is the word prefix. */
  lemma {:induction false} WordPrefixOf(a: string, b: string)
    requires forall i :: 0 <= i < |a| ==> !IsPySpace(a[i])
    requires b == [] || IsPySpace(b[0])
    ensures WordPrefix(a + b) == a
    decreases |a|
  {
    if a == [] {
      assert a + b == b;
    } else {
      assert (a + b)[0] == a[0];
      assert (a + b)[1..] == a[1..] + b;
      WordPrefixOf(a[1..], b);
    }
  }

  /** `s.split(maxsplit=1)[0]`: the first word after leading white space. */
  function FirstWord(s: string): string {
    WordPrefix(TrimStart(s, IsPySpace))
  }

  /** `s.trim()` / `s.strip()`: `s` without its leading and trailing spaces. */
  function Trim(s: string, isSpace: char -> bool): string {
    TrimEnd(TrimStart(s, isSpace), isSpace)
  }

  /** Trimming cannot bring in text that was not there. */
  lemma TrimKeepsOut(s: string, isSpace: char -> bool, p: string)
    requires !Contains(s, p)
    ensures !Contains(Trim(s, isSpace), p)
  {
    var t := TrimStart(s, isSpace);
    var k := |s| - |t|;
    var r := TrimEnd(t, isSpace);
    assert r == s[k..k + |r|];
    if Contains(r, p) {
      ContainsInSlice(s, k, k + |r|, p);
    }
  }

  /** A field is empty after trimming exactly when it is all spaces. */
  lemma TrimEmpty(s: string, isSpace: char -> bool)
    ensures Trim(s, isSpace) == [] <==> forall i :: 0 <= i < |s| ==> isSpace(s[i])
  {
    var t := TrimStart(s, isSpace);
    if Trim(s, isSpace) == [] {
      forall i | 0 <= i < |s| ensures isSpace(s[i]) {
        if i >= |s| - |t| {
          assert s[i] == t[i - (|s| - |t|)];
        }
      }
    }
  }
}

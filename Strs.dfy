/**
 * String helpers shared by the whole model. Strings are `seq<char>`; these functions give Python's
 * `startswith`, `endswith`, `in`, `strip`, `lower`, `split`, `replace` and `re.sub(r'\D', '', s)`
 * the meaning the model relies on.
 */
module Strs {
  import opened Wrappers

  predicate IsPrefix(p: string, s: string) { |p| <= |s| && s[..|p|] == p }

  predicate IsSuffix(p: string, s: string) { |p| <= |s| && s[|s| - |p|..] == p }

  /** Python's `sub in s`: some window of `s` equals `sub`. */
  predicate Contains(s: string, sub: string)
  {
    exists i :: 0 <= i <= |s| - |sub| && SubAt(s, sub, i)
  }

  /** `sub` occurs in `s` starting at index `i`. */
  predicate SubAt(s: string, sub: string, i: int)
  {
    0 <= i <= |s| - |sub| && s[i..i + |sub|] == sub
  }

  lemma ContainsPrefix(p: string, s: string)
    requires IsPrefix(p, s)
    ensures Contains(s, p)
  {
    assert SubAt(s, p, 0);
  }

  lemma ContainsMiddle(a: string, b: string, c: string)
    ensures Contains(a + b + c, b)
  {
    var s := a + b + c;
    assert s[|a|..|a| + |b|] == b;
    assert SubAt(s, b, |a|);
  }

  /** Characters Python's `str.isspace` accepts (and `\s` in a Unicode regular expression matches). */
  predicate IsSpace(c: char)
  {
    c == ' ' || ('\t' <= c <= '\r') || ('\U{1c}' <= c <= '\U{1f}') || c == '\U{85}' || c == '\U{a0}'
    || c == '\U{1680}' || ('\U{2000}' <= c <= '\U{200a}') || c == '\U{2028}' || c == '\U{2029}'
    || c == '\U{202f}' || c == '\U{205f}' || c == '\U{3000}'
  }

  predicate IsDigit(c: char) { '0' <= c <= '9' }

  lemma DigitNotSpace(c: char)
    requires IsDigit(c)
    ensures !IsSpace(c)
  {
  }

  predicate AllDigits(s: string) { forall i :: 0 <= i < |s| ==> IsDigit(s[i]) }

  function TrimLeft(s: string): (r: string)
    ensures |r| <= |s| && IsSuffix(r, s)
    ensures r == [] || !IsSpace(r[0])
  {
    if |s| > 0 && IsSpace(s[0]) then TrimLeft(s[1..]) else s
  }

  function TrimRight(s: string): (r: string)
    ensures |r| <= |s| && IsPrefix(r, s)
    ensures r == [] || !IsSpace(r[|r| - 1])
  {
    if |s| > 0 && IsSpace(s[|s| - 1]) then TrimRight(s[..|s| - 1]) else s
  }

  /** Python's `str.strip()` with no argument. */
  function Strip(s: string): (r: string)
    ensures |r| <= |s|
    ensures r == [] || (!IsSpace(r[0]) && !IsSpace(r[|r| - 1]))
  {
    var t := TrimLeft(s);
    TrimRight(t)
  }

  /** A string with no white space at either end is its own strip. */
  lemma StripId(s: string)
    requires s == [] || (!IsSpace(s[0]) && !IsSpace(s[|s| - 1]))
    ensures Strip(s) == s
  {
  }

  /** Lower case of one character: ASCII A-Z and the Latin-1 capitals (except the multiplication sign). */
  function LowerChar(c: char): char
  {
    if 'A' <= c <= 'Z' then (c as int + 32) as char
    else if '\U{c0}' <= c <= '\U{de}' && c != '\U{d7}' then (c as int + 32) as char
    else c
  }

  function Lower(s: string): (r: string)
    ensures |r| == |s|
    ensures forall i :: 0 <= i < |s| ==> r[i] == LowerChar(s[i])
  {
    if s == [] then [] else [LowerChar(s[0])] + Lower(s[1..])
  }

  /** `re.sub(r'\D', '', s)`: the decimal digits of `s`, in order. */
  function Digits(s: string): (r: string)
    ensures |r| <= |s| && AllDigits(r)
  {
    if s == [] then [] else (if IsDigit(s[0]) then [s[0]] else []) + Digits(s[1..])
  }

  lemma DigitsOfDigits(s: string)
    requires AllDigits(s)
    ensures Digits(s) == s
  {
    if s != [] { DigitsOfDigits(s[1..]); }
  }

  lemma DigitsAppend(a: string, b: string)
    ensures Digits(a + b) == Digits(a) + Digits(b)
  {
    if a != [] {
      assert (a + b)[0] == a[0];
      assert (a + b)[1..] == a[1..] + b;
      DigitsAppend(a[1..], b);
    } else {
      assert a + b == b;
    }
  }

  /** The value of a string of decimal digits. */
  function DecimalValue(s: string): nat
    requires AllDigits(s)
  {
    if s == [] then 0 else DecimalValue(s[..|s| - 1]) * 10 + (s[|s| - 1] as int - '0' as int)
  }

  /** `str(n)` for a natural number. */
  function NatToString(n: nat): (r: string)
    ensures r != [] && AllDigits(r)
  {
    if n < 10 then [(n + '0' as int) as char] else NatToString(n / 10) + [(n % 10 + '0' as int) as char]
  }

  lemma {:induction false} NatToStringValue(n: nat)
    ensures DecimalValue(NatToString(n)) == n
  {
    if n >= 10 {
      NatToStringValue(n / 10);
      var s := NatToString(n);
      assert s[..|s| - 1] == NatToString(n / 10);
    }
  }

  /**
   * Python's `int(s)` on a string: surrounding white space, an optional sign, then decimal digits;
   * None where `int` raises ValueError. (Digit-group underscores are not accepted here.)
   */
  function ParseInt(s: string): (r: Option<int>)
    ensures r.Some? ==> Strip(s) != []
  {
    var t := Strip(s);
    if t != [] && (t[0] == '-' || t[0] == '+') then
      if |t| > 1 && AllDigits(t[1..]) then Some(if t[0] == '-' then -(DecimalValue(t[1..]) as int) else DecimalValue(t[1..])) else None
    else if t != [] && AllDigits(t) then Some(DecimalValue(t))
    else None
  }

  /** `int(str(n)) == n`. */
  lemma ParseIntRoundTrip(n: nat)
    ensures ParseInt(NatToString(n)) == Some(n)
  {
    var s := NatToString(n);
    assert IsDigit(s[0]) && IsDigit(s[|s| - 1]);
    assert !IsSpace(s[0]) && !IsSpace(s[|s| - 1]);
    StripId(s);
    assert s[0] != '-' && s[0] != '+';
    NatToStringValue(n);
  }

  /** A piece of `str.split()`: a non-empty run of non-space characters. */
  predicate IsWord(w: string)
  {
    w != [] && forall j :: 0 <= j < |w| ==> !IsSpace(w[j])
  }

  /** Python's `str.split()` with no argument: maximal runs of non-space characters. */
  function Words(s: string): (r: seq<string>)
    ensures forall i :: 0 <= i < |r| ==> IsWord(r[i])
    decreases |s|
  {
    var t := TrimLeft(s);
    if t == [] then [] else
      var n := WordLen(t, 0);
      var rest := Words(t[n..]);
      WordsCons(t[..n], rest);
      [t[..n]] + rest
  }

  lemma WordsCons(w: string, rest: seq<string>)
    requires IsWord(w) && forall i :: 0 <= i < |rest| ==> IsWord(rest[i])
    ensures forall i :: 0 <= i < |[w] + rest| ==> IsWord(([w] + rest)[i])
  {
    forall i | 0 <= i < |[w] + rest| ensures IsWord(([w] + rest)[i]) {
      if i > 0 {
        assert ([w] + rest)[i] == rest[i - 1];
      }
    }
  }

  function WordLen(t: string, i: nat): (n: nat)
    requires i <= |t|
    ensures i <= n <= |t|
    ensures forall j :: i <= j < n ==> !IsSpace(t[j])
    ensures n < |t| ==> IsSpace(t[n])
    decreases |t| - i
  {
    if i < |t| && !IsSpace(t[i]) then WordLen(t, i + 1) else i
  }

  /** `" ".join(words)`. */
  function JoinSpace(ws: seq<string>): string
  {
    if ws == [] then [] else if |ws| == 1 then ws[0] else ws[0] + " " + JoinSpace(ws[1..])
  }

  /** Python's `s.split(c)` for a one-character separator: keeps empty pieces. */
  function SplitOn(s: string, c: char): (r: seq<string>)
    ensures |r| >= 1
    ensures forall i :: 0 <= i < |r| ==> c !in r[i]
  {
    if s == [] then [[]]
    else
      var rest := SplitOn(s[1..], c);
      if s[0] == c then [[]] + rest else [[s[0]] + rest[0]] + rest[1..]
  }

  /** `c.join(ws)` for a one-character separator. */
  function JoinOn(ws: seq<string>, c: char): string
  {
    if ws == [] then [] else if |ws| == 1 then ws[0] else ws[0] + [c] + JoinOn(ws[1..], c)
  }

  lemma {:induction false} SplitOnNoSep(a: string, c: char)
    requires c !in a
    ensures SplitOn(a, c) == [a]
  {
    if a != [] {
      SplitOnNoSep(a[1..], c);
      assert a == [a[0]] + a[1..];
    }
  }

  lemma {:induction false} SplitOnSep(a: string, c: char, b: string)
    requires c !in a
    ensures SplitOn(a + [c] + b, c) == [a] + SplitOn(b, c)
  {
    var s := a + [c] + b;
    if a == [] {
      assert s[0] == c && s[1..] == b;
    } else {
      assert s[0] == a[0] && s[1..] == a[1..] + [c] + b;
      SplitOnSep(a[1..], c, b);
      assert a == [a[0]] + a[1..];
    }
  }

  /** Splitting a join on the same separator gives back the pieces, when none contains the separator. */
  lemma {:induction false} SplitJoin(ws: seq<string>, c: char)
    requires |ws| >= 1 && forall i :: 0 <= i < |ws| ==> c !in ws[i]
    ensures SplitOn(JoinOn(ws, c), c) == ws
  {
    if |ws| == 1 {
      SplitOnNoSep(ws[0], c);
    } else {
      SplitJoin(ws[1..], c);
      SplitOnSep(ws[0], c, JoinOn(ws[1..], c));
      assert ws == [ws[0]] + ws[1..];
    }
  }

  /** Index of the first occurrence of `pat` in `s`, if any (what `s.split(pat)[0]` stops at). */
  function FirstSubAt(s: string, pat: string): (r: Option<nat>)
    ensures r.Some? ==> SubAt(s, pat, r.value) && forall i :: 0 <= i < r.value ==> !SubAt(s, pat, i)
    ensures r.None? <==> !Contains(s, pat)
    decreases |s|
  {
    if |s| < |pat| then None
    else if s[..|pat|] == pat then
      assert SubAt(s, pat, 0);
      Some(0)
    else
      var rest := FirstSubAt(s[1..], pat);
      SubAtTail(s, pat);
      assert !SubAt(s, pat, 0);
      match rest
      case None => None
      case Some(k) => Some(k + 1)
  }

  /** An occurrence past the first character is an occurrence in the tail, one place earlier. */
  lemma SubAtTail(s: string, pat: string)
    requires s != []
    ensures forall j :: 1 <= j ==> (SubAt(s, pat, j) <==> SubAt(s[1..], pat, j - 1))
  {
    forall j | 1 <= j
      ensures SubAt(s, pat, j) <==> SubAt(s[1..], pat, j - 1)
    {
      if 0 <= j - 1 <= |s[1..]| - |pat| {
        assert s[1..][j - 1..j - 1 + |pat|] == s[j..j + |pat|];
      }
    }
  }

  /** A pattern placed right after a prefix that holds no earlier occurrence is the first occurrence. */
  lemma FirstSubAtAfter(a: string, pat: string, tail: string)
    requires forall i :: 0 <= i < |a| ==> !SubAt(a + pat, pat, i)
    ensures FirstSubAt(a + pat + tail, pat) == Some(|a|)
  {
    var s := a + pat + tail;
    var n := |pat|;
    assert s[..|a| + n] == a + pat;
    assert s[|a|..|a| + n] == pat;
    forall i | 0 <= i < |a| ensures !SubAt(s, pat, i) {
      assert s[i..i + n] == s[..|a| + n][i..i + n];
      assert !SubAt(a + pat, pat, i);
    }
    assert SubAt(s, pat, |a|);
  }

  /** Index of the first occurrence of `c`, if any. */
  function IndexOf(s: string, c: char): (r: Option<nat>)
    ensures r.Some? ==> r.value < |s| && s[r.value] == c && c !in s[..r.value]
    ensures r.None? ==> c !in s
  {
    if s == [] then None
    else if s[0] == c then Some(0)
    else match IndexOf(s[1..], c)
      case None => None
      case Some(k) => Some(k + 1)
  }

  /** Index of the last occurrence of `c`, if any. */
  function LastIndexOf(s: string, c: char): (r: Option<nat>)
    ensures r.Some? ==> r.value < |s| && s[r.value] == c && c !in s[r.value + 1..]
    ensures r.None? ==> c !in s
  {
    if s == [] then None
    else if s[|s| - 1] == c then Some(|s| - 1)
    else LastIndexOf(s[..|s| - 1], c)
  }

  /** Replaces every occurrence of the character `c` by `d`. */
  function ReplaceChar(s: string, c: char, d: char): (r: string)
    ensures |r| == |s|
    ensures forall i :: 0 <= i < |s| ==> r[i] == if s[i] == c then d else s[i]
  {
    if s == [] then [] else [if s[0] == c then d else s[0]] + ReplaceChar(s[1..], c, d)
  }

  /** Python's `s.replace(pat, rep)` for a non-empty `pat`: non-overlapping occurrences, left to right. */
  function Replace(s: string, pat: string, rep: string): (r: string)
    requires pat != []
    ensures |rep| <= |pat| ==> |r| <= |s|
    decreases |s|
  {
    if |s| < |pat| then s
    else if s[..|pat|] == pat then rep + Replace(s[|pat|..], pat, rep)
    else [s[0]] + Replace(s[1..], pat, rep)
  }

  /** No leading, trailing or doubled ' ': what `" ".join(s.split())` guarantees. */
  predicate NoOuterOrDoubleSpace(s: string)
  {
    (s == [] || (s[0] != ' ' && s[|s| - 1] != ' '))
    && forall i :: 0 <= i < |s| - 1 ==> !(s[i] == ' ' && s[i + 1] == ' ')
  }

  /** A text without `p` has no `p` in any suffix. */
  lemma NoContainsSuffix(s: string, k: nat, p: string)
    requires k <= |s| && !Contains(s, p)
    ensures !Contains(s[k..], p)
  {
    forall i | 0 <= i <= |s[k..]| - |p| ensures !SubAt(s[k..], p, i) {
      assert s[k..][i..i + |p|] == s[i + k..i + k + |p|];
      assert !SubAt(s, p, i + k);
    }
  }

  /** A text without `p` has no `p` in any prefix. */
  lemma NoContainsPrefix(s: string, n: nat, p: string)
    requires n <= |s| && !Contains(s, p)
    ensures !Contains(s[..n], p)
  {
    forall i | 0 <= i <= |s[..n]| - |p| ensures !SubAt(s[..n], p, i) {
      assert s[..n][i..i + |p|] == s[i..i + |p|];
      assert !SubAt(s, p, i);
    }
  }

  /** Before its first replacement, `Replace(t, pat, " ")` copies `t`: a `w` without ' ' that does not start `t` does not start the result either. */
  lemma {:induction false} ReplaceNotPrefix(t: string, pat: string, w: string)
    requires pat != [] && ' ' !in w && !IsPrefix(w, t)
    ensures !IsPrefix(w, Replace(t, pat, " "))
    decreases |t|
  {
    var r := Replace(t, pat, " ");
    assert w != [];
    if |t| < |pat| {
      assert r == t;
    } else if t[..|pat|] == pat {
      var r' := Replace(t[|pat|..], pat, " ");
      assert r == " " + r';
      assert w[0] in w;
      assert |w| <= |r| ==> r[..|w|][0] == ' ';
    } else {
      var r' := Replace(t[1..], pat, " ");
      assert r == [t[0]] + r';
      if w[0] == t[0] {
        assert |w| <= |t| ==> t[..|w|] == [t[0]] + t[1..][..|w| - 1];
        assert w == [w[0]] + w[1..];
        assert forall c :: c in w[1..] ==> c in w;
        ReplaceNotPrefix(t[1..], pat, w[1..]);
        assert |w| <= |r| ==> r[..|w|] == [t[0]] + r'[..|w| - 1];
      } else {
        assert |w| <= |r| ==> r[..|w|][0] == t[0];
      }
    }
  }

  /** `s.replace(pat, " ")` leaves no occurrence of a `pat` without ' '. */
  lemma {:induction false} ReplaceRemoves(s: string, pat: string)
    requires pat != [] && ' ' !in pat
    ensures !Contains(Replace(s, pat, " "), pat)
    decreases |s|
  {
    var r := Replace(s, pat, " ");
    if |s| >= |pat| {
      var hit := s[..|pat|] == pat;
      var k := if hit then |pat| else 1;
      var r' := Replace(s[k..], pat, " ");
      ReplaceRemoves(s[k..], pat);
      assert r == (if hit then " " else [s[0]]) + r';
      forall i | 0 <= i <= |r| - |pat| ensures !SubAt(r, pat, i) {
        if i == 0 {
          if !hit && s[0] == pat[0] {
            assert s[..|pat|] == [s[0]] + s[1..][..|pat| - 1];
            assert pat == [pat[0]] + pat[1..];
            assert forall c :: c in pat[1..] ==> c in pat;
            ReplaceNotPrefix(s[1..], pat, pat[1..]);
            assert r[..|pat|] == [s[0]] + r'[..|pat| - 1];
          } else {
            assert pat[0] in pat;
          }
        } else {
          assert r'[i - 1..i - 1 + |pat|] == r[i..i + |pat|];
          assert !SubAt(r', pat, i - 1);
        }
      }
    }
  }

  /** Replacing some other `q` by ' ' creates no occurrence of a `p` without ' '. */
  lemma {:induction false} ReplaceKeepsAbsent(s: string, q: string, p: string)
    requires q != [] && p != [] && ' ' !in p && !Contains(s, p)
    ensures !Contains(Replace(s, q, " "), p)
    decreases |s|
  {
    var r := Replace(s, q, " ");
    if |s| >= |q| {
      var hit := s[..|q|] == q;
      var k := if hit then |q| else 1;
      var r' := Replace(s[k..], q, " ");
      NoContainsSuffix(s, k, p);
      ReplaceKeepsAbsent(s[k..], q, p);
      assert r == (if hit then " " else [s[0]]) + r';
      forall i | 0 <= i <= |r| - |p| ensures !SubAt(r, p, i) {
        if i == 0 {
          if !hit && s[0] == p[0] {
            assert !SubAt(s, p, 0);
            assert |s| >= |p| ==> s[..|p|] == [s[0]] + s[1..][..|p| - 1];
            assert p == [p[0]] + p[1..];
            assert forall c :: c in p[1..] ==> c in p;
            ReplaceNotPrefix(s[1..], q, p[1..]);
            assert r[..|p|] == [s[0]] + r'[..|p| - 1];
          } else {
            assert p[0] in p;
          }
        } else {
          assert r'[i - 1..i - 1 + |p|] == r[i..i + |p|];
          assert !SubAt(r', p, i - 1);
        }
      }
    }
  }

  /** Every character of `Replace(s, pat, rep)` meets `ok` when those of `s` and `rep` do. */
  lemma {:induction false} ReplaceChars(s: string, pat: string, rep: string, ok: char -> bool)
    requires pat != []
    requires forall i :: 0 <= i < |s| ==> ok(s[i])
    requires forall i :: 0 <= i < |rep| ==> ok(rep[i])
    ensures forall i :: 0 <= i < |Replace(s, pat, rep)| ==> ok(Replace(s, pat, rep)[i])
    decreases |s|
  {
    if |s| >= |pat| {
      var hit := s[..|pat|] == pat;
      var k := if hit then |pat| else 1;
      assert forall i :: 0 <= i < |s[k..]| ==> s[k..][i] == s[i + k];
      ReplaceChars(s[k..], pat, rep, ok);
      var r' := Replace(s[k..], pat, rep);
      var head := if hit then rep else [s[0]];
      assert Replace(s, pat, rep) == head + r';
      forall i | 0 <= i < |head + r'| ensures ok((head + r')[i]) {
        if i < |head| {
          assert (head + r')[i] == head[i];
        } else {
          assert (head + r')[i] == r'[i - |head|];
        }
      }
    }
  }

  /** Words hold no occurrence that the text they come from does not hold. */
  lemma {:induction false} WordsAbsent(s: string, p: string)
    requires !Contains(s, p)
    ensures forall k :: 0 <= k < |Words(s)| ==> !Contains(Words(s)[k], p)
    decreases |s|
  {
    var t := TrimLeft(s);
    if t != [] {
      var n := WordLen(t, 0);
      assert t == s[|s| - |t|..];
      NoContainsSuffix(s, |s| - |t|, p);
      NoContainsPrefix(t, n, p);
      NoContainsSuffix(t, n, p);
      WordsAbsent(t[n..], p);
      var ws, rest := Words(s), Words(t[n..]);
      assert ws == [t[..n]] + rest;
      forall k | 0 <= k < |ws| ensures !Contains(ws[k], p) {
        if k > 0 {
          assert ws[k] == rest[k - 1];
        }
      }
    }
  }

  /** Every character of a word meets `ok` when every character of the text does. */
  lemma {:induction false} WordsChars(s: string, ok: char -> bool)
    requires forall i :: 0 <= i < |s| ==> ok(s[i])
    ensures forall k, j :: 0 <= k < |Words(s)| && 0 <= j < |Words(s)[k]| ==> ok(Words(s)[k][j])
    decreases |s|
  {
    var t := TrimLeft(s);
    if t != [] {
      var n := WordLen(t, 0);
      var rest := Words(t[n..]);
      WordsStep(s);
      TrimLeftChars(s, ok);
      SliceChars(t, n, |t|, ok);
      SliceChars(t, 0, n, ok);
      WordsChars(t[n..], ok);
      ConsChars(t[..n], rest, ok);
    }
  }

  /** The first word of a text that is not all white space, then the words after it. */
  lemma WordsStep(s: string)
    requires TrimLeft(s) != []
    ensures Words(s) == [TrimLeft(s)[..WordLen(TrimLeft(s), 0)]] + Words(TrimLeft(s)[WordLen(TrimLeft(s), 0)..])
  {
  }

  /** Trimming keeps the property that every character meets `ok`. */
  lemma TrimLeftChars(s: string, ok: char -> bool)
    requires forall i :: 0 <= i < |s| ==> ok(s[i])
    ensures forall i :: 0 <= i < |TrimLeft(s)| ==> ok(TrimLeft(s)[i])
  {
    var t := TrimLeft(s);
    assert t == s[|s| - |t|..];
    SliceChars(s, |s| - |t|, |s|, ok);
  }

  /** A slice of a text whose characters all meet `ok` has that property too. */
  lemma SliceChars(s: string, a: nat, b: nat, ok: char -> bool)
    requires a <= b <= |s|
    requires forall i :: 0 <= i < |s| ==> ok(s[i])
    ensures forall i :: 0 <= i < |s[a..b]| ==> ok(s[a..b][i])
  {
    forall i | 0 <= i < |s[a..b]| ensures ok(s[a..b][i]) {
      assert s[a..b][i] == s[a + i];
    }
  }

  lemma ConsChars(w: string, rest: seq<string>, ok: char -> bool)
    requires forall j :: 0 <= j < |w| ==> ok(w[j])
    requires forall k, j :: 0 <= k < |rest| && 0 <= j < |rest[k]| ==> ok(rest[k][j])
    ensures forall k, j :: 0 <= k < |[w] + rest| && 0 <= j < |([w] + rest)[k]| ==> ok(([w] + rest)[k][j])
  {
    forall k, j | 0 <= k < |[w] + rest| && 0 <= j < |([w] + rest)[k]| ensures ok(([w] + rest)[k][j]) {
      if k > 0 {
        assert ([w] + rest)[k] == rest[k - 1];
      }
    }
  }

  /** Joining with ' ' creates no occurrence of a `p` without ' '. */
  lemma {:induction false} JoinSpaceAbsent(ws: seq<string>, p: string)
    requires p != [] && ' ' !in p
    requires forall k :: 0 <= k < |ws| ==> !Contains(ws[k], p)
    ensures !Contains(JoinSpace(ws), p)
  {
    if |ws| > 1 {
      var j' := JoinSpace(ws[1..]);
      JoinSpaceAbsent(ws[1..], p);
      var j := JoinSpace(ws);
      var n := |ws[0]|;
      assert j == ws[0] + " " + j';
      assert !Contains(ws[0], p);
      forall i | 0 <= i <= |j| - |p| ensures !SubAt(j, p, i) {
        if i + |p| <= n {
          assert ws[0][i..i + |p|] == j[i..i + |p|];
          assert !SubAt(ws[0], p, i);
        } else if i <= n {
          assert j[i..i + |p|][n - i] == j[n] == ' ';
          assert p[n - i] in p;
        } else {
          assert j'[i - n - 1..i - n - 1 + |p|] == j[i..i + |p|];
          assert !SubAt(j', p, i - n - 1);
        }
      }
    }
  }

  /** Every character of the join meets `ok` when ' ' and every character of every piece do. */
  lemma {:induction false} JoinSpaceChars(ws: seq<string>, ok: char -> bool)
    requires ok(' ')
    requires forall k, j :: 0 <= k < |ws| && 0 <= j < |ws[k]| ==> ok(ws[k][j])
    ensures var r := JoinSpace(ws); forall i :: 0 <= i < |r| ==> ok(r[i])
  {
    if |ws| > 1 {
      JoinSpaceChars(ws[1..], ok);
      assert JoinSpace(ws) == ws[0] + " " + JoinSpace(ws[1..]);
    }
  }

  /** Non-empty pieces without ' ' joined by ' ': no space at either end and none doubled. */
  lemma {:induction false} JoinSpaceSingle(ws: seq<string>)
    requires forall k :: 0 <= k < |ws| ==> ws[k] != [] && ' ' !in ws[k]
    ensures NoOuterOrDoubleSpace(JoinSpace(ws))
  {
    if |ws| > 1 {
      JoinSpaceSingle(ws[1..]);
      var j' := JoinSpace(ws[1..]);
      var n := |ws[0]|;
      var j := JoinSpace(ws);
      assert j == ws[0] + " " + j';
      assert ws[1] != [] && ' ' !in ws[1];
      assert j' != [] && j'[0] != ' ' by {
        if |ws[1..]| == 1 {
          assert j' == ws[1];
        } else {
          assert j' == ws[1] + " " + JoinSpace(ws[2..]);
          assert j'[0] == ws[1][0];
        }
      }
      assert ws[0][n - 1] in ws[0];
      forall i | 0 <= i < |j| - 1 ensures !(j[i] == ' ' && j[i + 1] == ' ') {
        if i < n - 1 {
          assert j[i] == ws[0][i];
        } else if i == n - 1 {
          assert j[i + 1] == ' ' && j[i] == ws[0][n - 1];
        } else if i == n {
          assert j[i + 1] == j'[0];
        } else {
          assert j[i] == j'[i - n - 1] && j[i + 1] == j'[i - n];
        }
      }
      assert j[0] == ws[0][0] && ws[0][0] in ws[0];
      assert j[|j| - 1] == j'[|j'| - 1];
    } else if |ws| == 1 {
      assert ws[0][0] in ws[0] && ws[0][|ws[0]| - 1] in ws[0];
      forall i | 0 <= i < |ws[0]| - 1 ensures !(ws[0][i] == ' ' && ws[0][i + 1] == ' ') {
        assert ws[0][i] in ws[0];
      }
    }
  }

  /** A character of the regular-expression class `[a-zA-Z0-9_-]`. */
  predicate IdChar(c: char)
  {
    'a' <= c <= 'z' || 'A' <= c <= 'Z' || '0' <= c <= '9' || c == '-' || c == '_'
  }

  /** The longest prefix of `s` made of id characters. */
  function IdRun(s: string): (r: string)
    ensures IsPrefix(r, s) && forall i :: 0 <= i < |r| ==> IdChar(r[i])
    ensures |r| < |s| ==> !IdChar(s[|r|])
  {
    if s == [] || !IdChar(s[0]) then [] else [s[0]] + IdRun(s[1..])
  }

  /**
   * `re.search(p + r"([a-zA-Z0-9_-]+)", s).group(1)` for a literal `p`: the id run after the leftmost
   * `p` that is followed by an id character, None when there is none.
   */
  function IdAfter(p: string, s: string): (r: Option<string>)
    ensures r.Some? ==> r.value != [] && (forall i :: 0 <= i < |r.value| ==> IdChar(r.value[i]))
                        && Contains(s, p + r.value)
    decreases |s|
  {
    if |s| <= |p| then None
    else if s[..|p|] == p && IdChar(s[|p|]) then
      var id := IdRun(s[|p|..]);
      assert s[..|p| + |id|] == p + id;
      assert SubAt(s, p + id, 0);
      Some(id)
    else
      match IdAfter(p, s[1..])
      case None => None
      case Some(id) =>
        var i :| 0 <= i <= |s[1..]| - |p + id| && SubAt(s[1..], p + id, i);
        assert s[1..][i..i + |p + id|] == s[i + 1..i + 1 + |p + id|];
        assert SubAt(s, p + id, i + 1);
        Some(id)
  }

  lemma {:induction false} IdRunOf(id: string, rest: string)
    requires forall i :: 0 <= i < |id| ==> IdChar(id[i])
    requires rest == [] || !IdChar(rest[0])
    ensures IdRun(id + rest) == id
  {
    if id == [] {
      assert id + rest == rest;
    } else {
      assert (id + rest)[1..] == id[1..] + rest;
      IdRunOf(id[1..], rest);
      assert id == [id[0]] + id[1..];
    }
  }

  /** Text that starts with `p` reads the whole id run that follows it. */
  lemma IdAfterAtStart(p: string, id: string, rest: string)
    requires id != [] && forall i :: 0 <= i < |id| ==> IdChar(id[i])
    requires rest == [] || !IdChar(rest[0])
    ensures IdAfter(p, p + id + rest) == Some(id)
  {
    var s := p + id + rest;
    assert s[..|p|] == p && s[|p|] == id[0];
    IdRunOf(id, rest);
    assert s[|p|..] == id + rest;
  }
}

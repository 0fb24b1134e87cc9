// Shared vocabulary: an Option type for the source's nullable values and the
// handful of JavaScript string operations the screens rely on (trim, case
// conversion, joining and splitting on a single space).
module Common {

  datatype Option<T> = None | Some(value: T)

  /** A character that ECMAScript's String.prototype.trim removes: the
      WhiteSpace and LineTerminator code points of the language standard. */
  predicate IsSpace(c: char)
  {
    || c == '\t' || c == '\n' || c == '\U{000B}' || c == '\U{000C}' || c == '\r'
    || c == ' ' || c == '\U{00A0}' || c == '\U{1680}'
    || ('\U{2000}' <= c <= '\U{200A}')
    || c == '\U{2028}' || c == '\U{2029}' || c == '\U{202F}' || c == '\U{205F}'
    || c == '\U{3000}' || c == '\U{FEFF}'
  }

  /** Every character of `s` is white space (vacuously true of ""). */
  predicate AllSpace(s: string)
  {
    forall i :: 0 <= i < |s| ==> IsSpace(s[i])
  }

  /** `s` without its leading white space. */
  function TrimStart(s: string): (r: string)
    ensures |r| <= |s| && r == s[|s| - |r|..]
    ensures AllSpace(s[..|s| - |r|])
    ensures r == [] || !IsSpace(r[0])
  {
    if s != [] && IsSpace(s[0]) then TrimStart(s[1..]) else s
  }

  /** Leading white space before a text that starts with none is dropped. */
  lemma {:induction false} TrimStartPadded(pre: string, t: string)
    requires AllSpace(pre) && (t == [] || !IsSpace(t[0]))
    ensures TrimStart(pre + t) == t
  {
    if pre != [] {
      assert (pre + t)[1..] == pre[1..] + t;
      TrimStartPadded(pre[1..], t);
    }
  }

  /** `s` without its trailing white space. */
  function TrimEnd(s: string): (r: string)
    ensures |r| <= |s| && r == s[..|r|]
    ensures AllSpace(s[|r|..])
    ensures r == [] || !IsSpace(r[|r| - 1])
  {
    if s != [] && IsSpace(s[|s| - 1]) then TrimEnd(s[..|s| - 1]) else s
  }

  /** Trailing white space after a text that ends with none is dropped. */
  lemma {:induction false} TrimEndPadded(t: string, post: string)
    requires AllSpace(post) && (t == [] || !IsSpace(t[|t| - 1]))
    ensures TrimEnd(t + post) == t
  {
    if post != [] {
      var p := post[..|post| - 1];
      assert (t + post)[..|t + post| - 1] == t + p;
      TrimEndPadded(t, p);
    } else {
      assert t + post == t;
    }
  }

  /** JavaScript's `s.trim()`. */
  function Trim(s: string): string
  {
    TrimEnd(TrimStart(s))
  }

  /** Trimming a text padded with white space on both sides gives the text
      back, when it neither begins nor ends with white space. */
  lemma TrimPadded(pre: string, m: string, post: string)
    requires AllSpace(pre) && AllSpace(post)
    requires m == [] || (!IsSpace(m[0]) && !IsSpace(m[|m| - 1]))
    ensures Trim(pre + m + post) == m
  {
    if m == [] {
      assert pre + m + post == pre + post;
      TrimStartOfSpace(pre + post);
    } else {
      assert pre + m + post == pre + (m + post);
      TrimStartPadded(pre, m + post);
      TrimEndPadded(m, post);
    }
  }

  /** `!s.trim()` in the source: the text is empty after trimming. */
  predicate IsBlank(s: string)
  {
    Trim(s) == []
  }

  /** A text is blank exactly when it consists of white space only. */
  lemma BlankIffAllSpace(s: string)
    ensures IsBlank(s) <==> AllSpace(s)
  {
    if AllSpace(s) {
      TrimStartOfSpace(s);
    } else {
      var i :| 0 <= i < |s| && !IsSpace(s[i]);
      NotBlank(s, i);
    }
  }

  /** A text with a non-space character keeps it through trimming. */
  lemma NotBlank(s: string, i: nat)
    requires i < |s| && !IsSpace(s[i])
    ensures Trim(s) != []
  {
    var t := TrimStart(s);
    TrimStartKeeps(s, i);
    var j := i - (|s| - |t|);
    assert t[j] == s[i];
    TrimEndKeeps(t, j);
  }

  lemma {:induction false} TrimStartOfSpace(s: string)
    requires AllSpace(s)
    ensures TrimStart(s) == []
  {
    if s != [] {
      TrimStartOfSpace(s[1..]);
    }
  }

  /** Trimming the start never removes a non-space character. */
  lemma {:induction false} TrimStartKeeps(s: string, i: nat)
    requires i < |s| && !IsSpace(s[i])
    ensures |s| - |TrimStart(s)| <= i
  {
    if IsSpace(s[0]) {
      TrimStartKeeps(s[1..], i - 1);
    }
  }

  /** Trimming the end never removes a non-space character. */
  lemma {:induction false} TrimEndKeeps(s: string, i: nat)
    requires i < |s| && !IsSpace(s[i])
    ensures i < |TrimEnd(s)|
  {
    if IsSpace(s[|s| - 1]) {
      TrimEndKeeps(s[..|s| - 1], i);
    }
  }

  /** ASCII upper-casing of one character (other characters are unchanged). */
  function UpperChar(c: char): char
  {
    if 'a' <= c <= 'z' then (c as int - 32) as char else c
  }

  /** ASCII lower-casing of one character (other characters are unchanged). */
  function LowerChar(c: char): char
  {
    if 'A' <= c <= 'Z' then (c as int + 32) as char else c
  }

  /** `s.toUpperCase()`, restricted to ASCII letters. */
  function Upper(s: string): (r: string)
    ensures |r| == |s|
    ensures forall i :: 0 <= i < |s| ==> r[i] == UpperChar(s[i])
  {
    seq(|s|, i requires 0 <= i < |s| => UpperChar(s[i]))
  }

  /** `s.toLowerCase()`, restricted to ASCII letters. */
  function Lower(s: string): (r: string)
    ensures |r| == |s|
    ensures forall i :: 0 <= i < |s| ==> r[i] == LowerChar(s[i])
  {
    seq(|s|, i requires 0 <= i < |s| => LowerChar(s[i]))
  }

  predicate IsLowerAscii(c: char)
  {
    'a' <= c <= 'z'
  }

  /** Upper-cased text holds no lower-case ASCII letter, and upper-casing is idempotent. */
  lemma UpperHasNoLowercase(s: string)
    ensures forall i :: 0 <= i < |s| ==> !IsLowerAscii(Upper(s)[i])
    ensures Upper(Upper(s)) == Upper(s)
  {
  }

  /** `xs.join(' ')`. */
  function JoinSpace(xs: seq<string>): string
  {
    if xs == [] then ""
    else if |xs| == 1 then xs[0]
    else xs[0] + " " + JoinSpace(xs[1..])
  }

  /** `s.split(' ')`: the pieces between single spaces, empty pieces included;
      the result is never empty. */
  function SplitSpace(s: string): (r: seq<string>)
    ensures |r| >= 1
    ensures forall k :: 0 <= k < |r| ==> ' ' !in r[k]
  {
    if ' ' !in s then [s]
    else
      var i := FirstSpace(s);
      [s[..i]] + SplitSpace(s[i + 1..])
  }

  /** The position of the first space in `s`. */
  function FirstSpace(s: string): (i: nat)
    requires ' ' in s
    ensures i < |s| && s[i] == ' ' && ' ' !in s[..i]
  {
    if s[0] == ' ' then 0 else 1 + FirstSpace(s[1..])
  }

  /** Joining the pieces of a split restores the text. */
  lemma {:induction false} JoinSplit(s: string)
    ensures JoinSpace(SplitSpace(s)) == s
    decreases |s|
  {
    if ' ' in s {
      var i := FirstSpace(s);
      JoinSplit(s[i + 1..]);
      var rest := SplitSpace(s[i + 1..]);
      assert SplitSpace(s) == [s[..i]] + rest;
      assert s == s[..i] + " " + s[i + 1..];
    }
  }

  /** Splitting a join of space-free pieces gives the pieces back. */
  lemma {:induction false} SplitJoin(xs: seq<string>)
    requires |xs| >= 1
    requires forall k :: 0 <= k < |xs| ==> ' ' !in xs[k]
    ensures SplitSpace(JoinSpace(xs)) == xs
  {
    if |xs| > 1 {
      var rest := xs[1..];
      forall k | 0 <= k < |rest|
        ensures ' ' !in rest[k]
      {
        assert rest[k] == xs[k + 1];
      }
      SplitJoin(rest);
      assert JoinSpace(xs) == xs[0] + " " + JoinSpace(rest);
      SplitAfterSpace(xs[0], JoinSpace(rest));
      assert xs == [xs[0]] + rest;
    }
  }

  /** A split of `a + " " + t` with a space-free `a` starts with `a`. */
  lemma SplitAfterSpace(a: string, t: string)
    requires ' ' !in a
    ensures SplitSpace(a + " " + t) == [a] + SplitSpace(t)
  {
    var s := a + " " + t;
    assert s[|a|] == ' ';
    assert s[..|a|] == a;
    assert s[|a| + 1..] == t;
    FirstSpaceAt(s, |a|);
  }

  lemma {:induction false} FirstSpaceAt(s: string, k: nat)
    requires k < |s| && s[k] == ' ' && ' ' !in s[..k]
    ensures FirstSpace(s) == k
  {
    if k > 0 {
      assert s[0] == s[..k][0];
      assert s[1..][..k - 1] == s[..k][1..];
      FirstSpaceAt(s[1..], k - 1);
    }
  }

  /** No element occurs twice. */
  predicate NoDuplicates<T(==)>(xs: seq<T>)
  {
    forall i, j :: 0 <= i < j < |xs| ==> xs[i] != xs[j]
  }

  function Min(a: int, b: int): int { if a <= b then a else b }
  function Max(a: int, b: int): int { if a <= b then b else a }
  function Abs(a: int): nat { if a < 0 then -a else a }
}

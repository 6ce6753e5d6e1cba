/** The string operations the header builder relies on: ASCII `str.title()`,
    `str.replace('_', ' ')`, `' '.join(...)`, the substring test `'__' in s`
    and `s.split('__', n)`. */
module Text {

  import opened Wrappers

  predicate IsUpper(c: char) { 'A' <= c <= 'Z' }

  predicate IsLower(c: char) { 'a' <= c <= 'z' }

  predicate IsLetter(c: char) { IsUpper(c) || IsLower(c) }

  function ToUpper(c: char): char
  {
    if IsLower(c) then (c as int - 'a' as int + 'A' as int) as char else c
  }

  function ToLower(c: char): char
  {
    if IsUpper(c) then (c as int - 'A' as int + 'a' as int) as char else c
  }

  /** How `title()` rewrites one character, given whether the previous
      character was a letter. */
  function TitleChar(c: char, afterLetter: bool): char
  {
    if !IsLetter(c) then c
    else if afterLetter then ToLower(c)
    else ToUpper(c)
  }

  /** `title()` on the rest of a string, scanning left to right. */
  function TitleFrom(s: string, afterLetter: bool): (r: string)
    ensures |r| == |s|
  {
    if s == [] then []
    else [TitleChar(s[0], afterLetter)] + TitleFrom(s[1..], IsLetter(s[0]))
  }

  /** ASCII `str.title()`: a letter that starts the string or follows a
      non-letter is upper-cased, every other letter is lower-cased. */
  function Title(s: string): string
  {
    TitleFrom(s, false)
  }

  lemma {:induction false} TitleFromAt(s: string, afterLetter: bool, i: nat)
    requires i < |s|
    ensures TitleFrom(s, afterLetter)[i]
            == TitleChar(s[i], if i == 0 then afterLetter else IsLetter(s[i - 1]))
    decreases i
  {
    if i > 0 {
      TitleFromAt(s[1..], IsLetter(s[0]), i - 1);
      assert s[1..][i - 1] == s[i];
      if i > 1 {
        assert s[1..][i - 2] == s[i - 1];
      }
    }
  }

  /** Each character of `Title(s)` depends only on that character and on
      whether the one before it is a letter. */
  lemma TitleAt(s: string, i: nat)
    requires i < |s|
    ensures |Title(s)| == |s|
    ensures Title(s)[i] == TitleChar(s[i], i > 0 && IsLetter(s[i - 1]))
  {
    TitleFromAt(s, false, i);
  }

  /** Title-casing keeps letters letters and leaves every other character alone. */
  lemma TitleKeepsNonLetters(s: string, i: nat)
    requires i < |s|
    ensures IsLetter(Title(s)[i]) == IsLetter(s[i])
    ensures !IsLetter(s[i]) ==> Title(s)[i] == s[i]
  {
    TitleAt(s, i);
  }

  /** `title()` is idempotent. */
  lemma TitleIdempotent(s: string)
    ensures Title(Title(s)) == Title(s)
  {
    var t := Title(s);
    forall i | 0 <= i < |s|
      ensures Title(t)[i] == t[i]
    {
      TitleAt(s, i);
      TitleAt(t, i);
      if i > 0 {
        TitleAt(s, i - 1);
      }
    }
  }

  /** `s.replace('_', ' ')`. */
  function ReplaceUnderscores(s: string): string
  {
    seq(|s|, i requires 0 <= i < |s| => if s[i] == '_' then ' ' else s[i])
  }

  /** `' '.join(parts)`. */
  function JoinSpace(parts: seq<string>): string
  {
    if parts == [] then ""
    else if |parts| == 1 then parts[0]
    else parts[0] + " " + JoinSpace(parts[1..])
  }

  /** The relationship separator `__` starts at index `j` of `s`. */
  predicate IsSepAt(s: string, j: int)
  {
    0 <= j && j + 1 < |s| && s[j] == '_' && s[j + 1] == '_'
  }

  /** Python's `'__' in s`. */
  predicate HasSeparator(s: string)
  {
    exists j :: 0 <= j < |s| && IsSepAt(s, j)
  }

  /** The first occurrence of `__` at or after index `k`, as `s.find('__', k)`. */
  function FindSeparator(s: string, k: nat): (r: Option<nat>)
    ensures r.Some? ==> k <= r.value && IsSepAt(s, r.value)
    ensures r.Some? ==> forall j :: k <= j < r.value ==> !IsSepAt(s, j)
    ensures r.None? ==> forall j :: k <= j ==> !IsSepAt(s, j)
    decreases |s| - k
  {
    if k + 1 >= |s| then None
    else if s[k] == '_' && s[k + 1] == '_' then Some(k)
    else FindSeparator(s, k + 1)
  }

  /** `'__'.join(parts)`. */
  function JoinSep(parts: seq<string>): string
  {
    if parts == [] then ""
    else if |parts| == 1 then parts[0]
    else parts[0] + "__" + JoinSep(parts[1..])
  }

  /** Python's `s.split('__', maxsplit)`: split at the first `maxsplit`
      occurrences of `__`, scanning left to right without overlap. */
  function SplitSep(s: string, maxsplit: nat): (r: seq<string>)
    ensures 1 <= |r| <= maxsplit + 1
    ensures JoinSep(r) == s
    ensures maxsplit > 0 && HasSeparator(s) ==> |r| >= 2
    ensures |r| <= maxsplit ==> !HasSeparator(r[|r| - 1])
    decreases |s|
  {
    if maxsplit == 0 then [s]
    else
      match FindSeparator(s, 0)
      case None => [s]
      case Some(i) =>
        var rest := SplitSep(s[i + 2..], maxsplit - 1);
        assert s == s[..i] + "__" + s[i + 2..];
        assert ([s[..i]] + rest)[1..] == rest;
        [s[..i]] + rest
  }

  /** When `a` holds no `__` and does not end in `_`, the first `__` of
      `a + "__" + b` is the one right after `a`. */
  lemma FirstSeparatorAfter(a: string, b: string)
    requires !HasSeparator(a)
    requires a == [] || a[|a| - 1] != '_'
    ensures FindSeparator(a + "__" + b, 0) == Some(|a|)
  {
    var s := a + "__" + b;
    assert IsSepAt(s, |a|);
    forall j | 0 <= j < |a|
      ensures !IsSepAt(s, j)
    {
      if j + 1 < |a| {
        assert !IsSepAt(a, j);
      }
    }
    assert s[..|a|] == a && s[|a| + 2..] == b;
  }

  /** `(a + "__" + b).split('__', n)` is `[a] + b.split('__', n - 1)` when `a`
      holds no `__` and does not end in `_`. */
  lemma SplitAfter(a: string, b: string, n: nat)
    requires n > 0
    requires !HasSeparator(a)
    requires a == [] || a[|a| - 1] != '_'
    ensures SplitSep(a + "__" + b, n) == [a] + SplitSep(b, n - 1)
  {
    var s := a + "__" + b;
    FirstSeparatorAfter(a, b);
    assert s[..|a|] == a && s[|a| + 2..] == b;
  }
}

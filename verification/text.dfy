/** The handful of Python string operations the core relies on:
    `str.split()` (whitespace tokens), `str.split(sep)`, `sep.join(parts)`
    and `str.rsplit(sep, 1)`. */
module Text {
  import opened Results

  /** Python's whitespace for `str.split()` with no separator: the ASCII
      controls 0x09-0x0D and 0x1C-0x1F, space, and the Unicode spaces. */
  predicate IsSpace(c: char) {
    || c == ' '
    || ('\t' <= c <= '\r')
    || ('\U{1C}' <= c <= '\U{1F}')
    || c == '\U{85}' || c == '\U{A0}' || c == '\U{1680}'
    || ('\U{2000}' <= c <= '\U{200A}')
    || c == '\U{2028}' || c == '\U{2029}' || c == '\U{202F}' || c == '\U{205F}' || c == '\U{3000}'
  }

  /** A token of `str.split()`: non-empty and free of whitespace. */
  predicate IsToken(t: string) {
    |t| > 0 && forall i :: 0 <= i < |t| ==> !IsSpace(t[i])
  }

  /** Length of the longest whitespace-free prefix of `s`. */
  function WordLength(s: string): (n: nat)
    ensures n <= |s|
    ensures forall i :: 0 <= i < n ==> !IsSpace(s[i])
    ensures n < |s| ==> IsSpace(s[n])
  {
    if |s| == 0 || IsSpace(s[0]) then 0 else 1 + WordLength(s[1..])
  }

  /** `s.split()`: the maximal runs of non-whitespace characters, in order. */
  function Tokens(s: string): (ts: seq<string>)
    ensures forall i :: 0 <= i < |ts| ==> IsToken(ts[i])
    decreases |s|
  {
    if |s| == 0 then []
    else if IsSpace(s[0]) then Tokens(s[1..])
    else
      var n := WordLength(s);
      [s[..n]] + Tokens(s[n..])
  }

  /** `[sep].join(parts)` for a one-character separator. */
  function Join(parts: seq<string>, sep: char): string {
    if |parts| == 0 then ""
    else if |parts| == 1 then parts[0]
    else parts[0] + [sep] + Join(parts[1..], sep)
  }

  /** `s.split(sep)` for a one-character separator: at least one part, and
      no part contains the separator. */
  function Split(s: string, sep: char): (parts: seq<string>)
    ensures |parts| >= 1
    ensures forall i :: 0 <= i < |parts| ==> sep !in parts[i]
  {
    if |s| == 0 then [""]
    else
      var rest := Split(s[1..], sep);
      if s[0] == sep then [""] + rest
      else [[s[0]] + rest[0]] + rest[1..]
  }

  /** `s.rsplit(sep, 1)` unpacked into a pair: `None` where Python's
      two-target unpacking fails because `sep` does not occur. */
  function RSplitOnce(s: string, sep: char): (r: Option<(string, string)>)
    ensures r.None? <==> sep !in s
    ensures r.Some? ==> r.value.0 + [sep] + r.value.1 == s && sep !in r.value.1
    decreases |s|
  {
    if |s| == 0 then None
    else if s[|s| - 1] == sep then
      assert s[..|s| - 1] + [sep] + "" == s;
      Some((s[..|s| - 1], ""))
    else
      match RSplitOnce(s[..|s| - 1], sep)
      case None =>
        assert s == s[..|s| - 1] + [s[|s| - 1]];
        None
      case Some((a, b)) =>
        assert a + [sep] + (b + [s[|s| - 1]]) == s by {
          assert s == s[..|s| - 1] + [s[|s| - 1]];
        }
        Some((a, b + [s[|s| - 1]]))
  }

  // ---------------------------------------------------------------------
  // Join and Split

  lemma JoinCons(p: string, rest: seq<string>, sep: char)
    requires |rest| >= 1
    ensures Join([p] + rest, sep) == p + [sep] + Join(rest, sep)
  {
  }

  /** Joining two non-empty lists puts one separator between their joins. */
  lemma {:induction false} JoinAppend(a: seq<string>, b: seq<string>, sep: char)
    requires |a| >= 1 && |b| >= 1
    ensures Join(a + b, sep) == Join(a, sep) + [sep] + Join(b, sep)
    decreases |a|
  {
    if |a| == 1 {
      JoinCons(a[0], b, sep);
      assert a + b == [a[0]] + b;
    } else {
      assert a + b == [a[0]] + (a[1..] + b);
      JoinCons(a[0], a[1..] + b, sep);
      JoinAppend(a[1..], b, sep);
      JoinCons(a[0], a[1..], sep);
      assert a == [a[0]] + a[1..];
    }
  }

  /** Splitting and re-joining on the same separator gives back the string. */
  lemma {:induction false} JoinSplit(s: string, sep: char)
    ensures Join(Split(s, sep), sep) == s
    decreases |s|
  {
    if |s| == 0 {
    } else {
      var rest := Split(s[1..], sep);
      JoinSplit(s[1..], sep);
      if s[0] == sep {
        JoinCons("", rest, sep);
        assert s == [sep] + s[1..];
      } else if |rest| == 1 {
        assert Split(s, sep) == [[s[0]] + rest[0]];
        assert s == [s[0]] + s[1..];
      } else {
        assert rest == [rest[0]] + rest[1..];
        JoinCons(rest[0], rest[1..], sep);
        JoinCons([s[0]] + rest[0], rest[1..], sep);
        assert s == [s[0]] + s[1..];
      }
    }
  }

  lemma {:induction false} SplitNoSep(p: string, sep: char)
    requires sep !in p
    ensures Split(p, sep) == [p]
    decreases |p|
  {
    if |p| > 0 {
      SplitNoSep(p[1..], sep);
      assert p == [p[0]] + p[1..];
    }
  }

  lemma {:induction false} SplitCons(p: string, t: string, sep: char)
    requires sep !in p
    ensures Split(p + [sep] + t, sep) == [p] + Split(t, sep)
    decreases |p|
  {
    var s := p + [sep] + t;
    if |p| == 0 {
      assert s[1..] == t;
    } else {
      assert s[1..] == p[1..] + [sep] + t;
      SplitCons(p[1..], t, sep);
      assert p == [p[0]] + p[1..];
    }
  }

  /** Joining separator-free parts and splitting again gives back the parts. */
  lemma {:induction false} SplitJoin(parts: seq<string>, sep: char)
    requires |parts| >= 1
    requires forall i :: 0 <= i < |parts| ==> sep !in parts[i]
    ensures Split(Join(parts, sep), sep) == parts
    decreases |parts|
  {
    if |parts| == 1 {
      SplitNoSep(parts[0], sep);
    } else {
      JoinCons(parts[0], parts[1..], sep);
      SplitCons(parts[0], Join(parts[1..], sep), sep);
      SplitJoin(parts[1..], sep);
      assert parts == [parts[0]] + parts[1..];
    }
  }

  // ---------------------------------------------------------------------
  // Whitespace tokens

  /** `s.split()` is empty exactly when `s` is all whitespace. */
  lemma {:induction false} TokensEmpty(s: string)
    ensures Tokens(s) == [] <==> forall i :: 0 <= i < |s| ==> IsSpace(s[i])
    decreases |s|
  {
    if |s| > 0 && IsSpace(s[0]) {
      TokensEmpty(s[1..]);
      assert forall i :: 1 <= i < |s| ==> s[i] == s[1..][i - 1];
    }
  }

  lemma TokensOfToken(t: string, rest: string)
    requires IsToken(t)
    requires |rest| == 0 || IsSpace(rest[0])
    ensures Tokens(t + rest) == [t] + Tokens(rest)
  {
    var s := t + rest;
    WordLengthOfToken(t, rest);
    assert s[..|t|] == t;
    assert s[|t|..] == rest;
  }

  lemma {:induction false} WordLengthOfToken(t: string, rest: string)
    requires forall i :: 0 <= i < |t| ==> !IsSpace(t[i])
    requires |rest| == 0 || IsSpace(rest[0])
    ensures WordLength(t + rest) == |t|
    decreases |t|
  {
    if |t| > 0 {
      assert (t + rest)[1..] == t[1..] + rest;
      WordLengthOfToken(t[1..], rest);
    }
  }

  /** Tokens joined by single spaces split back into the same tokens. */
  lemma {:induction false} TokensOfJoin(ts: seq<string>)
    requires forall i :: 0 <= i < |ts| ==> IsToken(ts[i])
    ensures Tokens(Join(ts, ' ')) == ts
    decreases |ts|
  {
    if |ts| == 0 {
    } else if |ts| == 1 {
      TokensOfToken(ts[0], "");
      assert ts[0] + "" == ts[0];
    } else {
      var rest := Join(ts[1..], ' ');
      JoinCons(ts[0], ts[1..], ' ');
      assert ts[0] + [' '] + rest == ts[0] + ([' '] + rest);
      TokensOfToken(ts[0], [' '] + rest);
      assert ([' '] + rest)[1..] == rest;
      TokensOfJoin(ts[1..]);
      assert ts == [ts[0]] + ts[1..];
    }
  }

  /** `rsplit` picks the last separator: any split whose right part is
      separator-free is the one it returns. */
  lemma {:induction false} RSplitOnceUnique(a: string, b: string, sep: char)
    requires sep !in b
    ensures RSplitOnce(a + [sep] + b, sep) == Some((a, b))
    decreases |b|
  {
    var s := a + [sep] + b;
    if |b| > 0 {
      var b0 := b[..|b| - 1];
      assert s[..|s| - 1] == a + [sep] + b0;
      RSplitOnceUnique(a, b0, sep);
      assert b == b0 + [b[|b| - 1]];
    } else {
      assert s[..|s| - 1] == a;
    }
  }
}

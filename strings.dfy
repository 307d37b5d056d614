/** The Python string operations the pipeline relies on: `str.strip()`,
    `str.split(sep)`, `str.split()`, `str.capitalize()` and `str.lower()`,
    written out over `seq<char>` together with the facts the other modules use. */
module Strings {

  /** Python's `str.isspace()` for one character: the characters `strip()`
      and `split()` treat as whitespace. */
  predicate IsSpace(c: char)
  {
    ('\t' <= c <= '\r') || ('\U{1C}' <= c <= ' ') || c == '\U{85}' || c == '\U{A0}'
    || c == '\U{1680}' || ('\U{2000}' <= c <= '\U{200A}') || c == '\U{2028}'
    || c == '\U{2029}' || c == '\U{202F}' || c == '\U{205F}' || c == '\U{3000}'
  }

  predicate NoSpace(s: string)
  {
    forall i :: 0 <= i < |s| ==> !IsSpace(s[i])
  }

  /** Every character is whitespace (this includes the empty string). */
  predicate Blank(s: string)
  {
    forall i :: 0 <= i < |s| ==> IsSpace(s[i])
  }

  /** `s` does not start or end with whitespace. */
  predicate Trimmed(s: string)
  {
    s == [] || (!IsSpace(s[0]) && !IsSpace(s[|s| - 1]))
  }

  // ---------------------------------------------------------------- strip

  /** Python's `str.lstrip()`: the suffix left after dropping leading whitespace. */
  function TrimStart(s: string): (r: string)
    ensures |r| <= |s| && r == s[|s| - |r|..]
    ensures r == [] || !IsSpace(r[0])
    ensures forall i :: 0 <= i < |s| - |r| ==> IsSpace(s[i])
  {
    if s != [] && IsSpace(s[0]) then TrimStart(s[1..]) else s
  }

  /** Python's `str.rstrip()`: the prefix left after dropping trailing whitespace. */
  function TrimEnd(s: string): (r: string)
    ensures |r| <= |s| && r == s[..|r|]
    ensures r == [] || !IsSpace(r[|r| - 1])
    ensures forall i :: |r| <= i < |s| ==> IsSpace(s[i])
  {
    if s != [] && IsSpace(s[|s| - 1]) then TrimEnd(s[..|s| - 1]) else s
  }

  /** The number of leading whitespace characters `strip()` removes. */
  function TrimOffset(s: string): nat
  {
    |s| - |TrimStart(s)|
  }

  /** Python's `str.strip()`. */
  function Trim(s: string): string
  {
    TrimEnd(TrimStart(s))
  }

  /** The strip of `s` is the slice of `s` that starts at `TrimOffset(s)`,
      and everything in front of it is whitespace. */
  lemma TrimSlice(s: string)
    ensures TrimOffset(s) + |Trim(s)| <= |s| && Trim(s) == s[TrimOffset(s)..TrimOffset(s) + |Trim(s)|]
    ensures forall i :: 0 <= i < TrimOffset(s) ==> IsSpace(s[i])
  {
    var t := TrimStart(s);
    assert Trim(s) == t[..|Trim(s)|];
  }

  /** Everything after the strip is whitespace. */
  lemma TrimAfter(s: string)
    ensures TrimOffset(s) + |Trim(s)| <= |s|
    ensures forall i :: TrimOffset(s) + |Trim(s)| <= i < |s| ==> IsSpace(s[i])
  {
    var t := TrimStart(s);
    var r := TrimEnd(t);
    var o := |s| - |t|;
    assert t == s[o..];
    ShiftedAll(s, o, |r|, IsSpace);
  }

  /** A property of every character of a suffix from position `k` on is a
      property of the whole string from position `o + k` on. */
  lemma ShiftedAll(s: string, o: nat, k: nat, p: char -> bool)
    requires o <= |s| && forall j :: k <= j < |s| - o ==> p(s[o..][j])
    ensures forall i :: o + k <= i < |s| ==> p(s[i])
  {
    forall i | o + k <= i < |s| ensures p(s[i]) {
      assert s[i] == s[o..][i - o];
    }
  }

  /** The strip neither starts nor ends with whitespace, and is empty
      exactly when `s` is blank. */
  lemma TrimEnds(s: string)
    ensures Trimmed(Trim(s))
    ensures Trim(s) == [] <==> Blank(s)
  {
    var t := TrimStart(s);
    var r := TrimEnd(t);
    if r != [] {
      assert r[0] == t[0];
      assert r[0] == s[|s| - |t|];
    } else {
      assert t == [];
    }
  }

  /** The strip of `s` is the slice of `s` that starts at `TrimOffset(s)`;
      everything outside it is whitespace, and it neither starts nor ends
      with whitespace. It is empty exactly when `s` is blank. */
  lemma TrimSpec(s: string)
    ensures TrimOffset(s) + |Trim(s)| <= |s| && Trim(s) == s[TrimOffset(s)..TrimOffset(s) + |Trim(s)|]
    ensures forall i :: 0 <= i < TrimOffset(s) ==> IsSpace(s[i])
    ensures forall i :: TrimOffset(s) + |Trim(s)| <= i < |s| ==> IsSpace(s[i])
    ensures Trimmed(Trim(s))
    ensures Trim(s) == [] <==> Blank(s)
  {
    TrimSlice(s);
    TrimAfter(s);
    TrimEnds(s);
  }

  /** A string that already neither starts nor ends with whitespace is its own strip. */
  lemma TrimOfTrimmed(s: string)
    requires Trimmed(s)
    ensures Trim(s) == s
  {
    TrimSpec(s);
  }

  /** `strip()` is idempotent. */
  lemma TrimIdempotent(s: string)
    ensures Trim(Trim(s)) == Trim(s)
  {
    TrimSpec(s);
    TrimOfTrimmed(Trim(s));
  }

  // ------------------------------------------------------ literal separators

  /** `d` occurs in `s` starting at index `i`. */
  predicate OccursAt(s: string, d: string, i: int)
  {
    0 <= i && i + |d| <= |s| && s[i..i + |d|] == d
  }

  predicate Contains(s: string, d: string)
  {
    exists i :: 0 <= i <= |s| && OccursAt(s, d, i)
  }

  /** Python's `s.count(d)`: non-overlapping occurrences, scanned left to right. */
  function Count(s: string, d: string): nat
    requires d != []
    decreases |s|
  {
    if |s| < |d| then 0
    else if s[..|d|] == d then 1 + Count(s[|d|..], d)
    else Count(s[1..], d)
  }

  /** Python's `s.split(d)` for a non-empty literal separator `d`: the text
      between the leftmost non-overlapping occurrences of `d`. */
  function Split(s: string, d: string): (r: seq<string>)
    requires d != []
    ensures |r| >= 1
    decreases |s|
  {
    if |s| < |d| then [s]
    else if s[..|d|] == d then [""] + Split(s[|d|..], d)
    else
      var rest := Split(s[1..], d);
      [[s[0]] + rest[0]] + rest[1..]
  }

  /** The first piece of a split ends at the leftmost occurrence of the
      separator: no occurrence starts inside it, and there is one right
      after it unless the piece is the whole text. */
  lemma {:induction false} SplitFirstPiece(s: string, d: string)
    requires d != []
    ensures var p := Split(s, d)[0];
            |p| <= |s| && s[..|p|] == p && forall i :: 0 <= i < |p| ==> !OccursAt(s, d, i)
    ensures |Split(s, d)| == 1 ==> Split(s, d)[0] == s
    ensures |Split(s, d)| > 1 ==> OccursAt(s, d, |Split(s, d)[0]|)
    decreases |s|
  {
    if |s| < |d| {
    } else if s[..|d|] == d {
    } else {
      var t := s[1..];
      SplitFirstPiece(t, d);
      var rest := Split(t, d);
      var p := [s[0]] + rest[0];
      assert Split(s, d) == [p] + rest[1..];
      assert s[..|p|] == [s[0]] + t[..|rest[0]|];
      forall i | 0 <= i < |p| ensures !OccursAt(s, d, i) {
        if i == 0 {
          assert s[0..|d|] == s[..|d|];
        } else {
          OccursShift(s, d, i);
        }
      }
      if |rest| > 1 {
        OccursShift(s, d, |p|);
      }
    }
  }

  /** The pieces after the first are the split of the text after the first
      occurrence of the separator: every cut is leftmost. */
  lemma {:induction false} SplitRest(s: string, d: string)
    requires d != []
    ensures |Split(s, d)| > 1 ==>
              var q := |Split(s, d)[0]| + |d|;
              q <= |s| && Split(s, d)[1..] == Split(s[q..], d)
    decreases |s|
  {
    if |s| < |d| {
    } else if s[..|d|] == d {
    } else {
      var t := s[1..];
      var rest := Split(t, d);
      assert Split(s, d) == [[s[0]] + rest[0]] + rest[1..];
      if |rest| > 1 {
        SplitRest(t, d);
        var q := |rest[0]| + |d|;
        assert t[q..] == s[q + 1..];
      }
    }
  }

  /** An occurrence past the first character is an occurrence in the tail. */
  lemma OccursShift(s: string, d: string, i: int)
    requires 1 <= i && s != []
    ensures OccursAt(s, d, i) == OccursAt(s[1..], d, i - 1)
  {
    if i + |d| <= |s| {
      var a, b := s[i..i + |d|], s[1..][i - 1..i - 1 + |d|];
      forall j | 0 <= j < |d| ensures a[j] == b[j] {
        assert a[j] == s[i + j] && b[j] == s[1..][i - 1 + j];
      }
      assert a == b;
    }
  }

  /** Python's `d.join(parts)` for a non-empty list of parts. */
  function Join(parts: seq<string>, d: string): string
    requires |parts| >= 1
    decreases |parts|
  {
    if |parts| == 1 then parts[0] else parts[0] + d + Join(parts[1..], d)
  }

  lemma {:induction false} JoinStartsWithFirst(parts: seq<string>, d: string)
    requires |parts| >= 1
    ensures |parts[0]| <= |Join(parts, d)| && Join(parts, d)[..|parts[0]|] == parts[0]
  {
    if |parts| > 1 {
      assert Join(parts, d) == parts[0] + (d + Join(parts[1..], d));
    }
  }

  /** Joining the pieces of a split with the separator gives back the text. */
  lemma {:induction false} SplitJoin(s: string, d: string)
    requires d != []
    ensures Join(Split(s, d), d) == s
    decreases |s|
  {
    if |s| < |d| {
    } else if s[..|d|] == d {
      SplitJoin(s[|d|..], d);
      var rest := Split(s[|d|..], d);
      assert Split(s, d) == [""] + rest;
      assert ([""] + rest)[1..] == rest;
      assert s == s[..|d|] + s[|d|..];
    } else {
      SplitJoin(s[1..], d);
      var rest := Split(s[1..], d);
      var r := [[s[0]] + rest[0]] + rest[1..];
      assert Split(s, d) == r;
      if |rest| == 1 {
        assert r == [[s[0]] + rest[0]];
      } else {
        assert r[1..] == rest[1..];
        assert Join(rest, d) == rest[0] + d + Join(rest[1..], d);
        assert Join(r, d) == ([s[0]] + rest[0]) + d + Join(rest[1..], d);
      }
      assert s == [s[0]] + s[1..];
    }
  }

  /** The first piece of a split is a prefix of the text. */
  lemma SplitFirstIsPrefix(s: string, d: string)
    requires d != []
    ensures |Split(s, d)[0]| <= |s| && s[..|Split(s, d)[0]|] == Split(s, d)[0]
  {
    SplitJoin(s, d);
    JoinStartsWithFirst(Split(s, d), d);
  }

  /** There is one more piece than there are occurrences of the separator. */
  lemma {:induction false} SplitCount(s: string, d: string)
    requires d != []
    ensures |Split(s, d)| == Count(s, d) + 1
    decreases |s|
  {
    if |s| < |d| {
    } else if s[..|d|] == d {
      SplitCount(s[|d|..], d);
    } else {
      SplitCount(s[1..], d);
    }
  }

  /** No piece of a split contains the separator. */
  lemma {:induction false} SplitPiecesFree(s: string, d: string)
    requires d != []
    ensures forall k :: 0 <= k < |Split(s, d)| ==> !Contains(Split(s, d)[k], d)
    decreases |s|
  {
    var r := Split(s, d);
    if |s| < |d| {
      assert r == [s];
      assert !Contains(s, d);
    } else if s[..|d|] == d {
      SplitPiecesFree(s[|d|..], d);
      var rest := Split(s[|d|..], d);
      assert r == [""] + rest;
      assert !Contains("", d);
      forall k | 0 <= k < |r| ensures !Contains(r[k], d) {
        if k > 0 { assert r[k] == rest[k - 1]; }
      }
    } else {
      SplitPiecesFree(s[1..], d);
      SplitFirstIsPrefix(s[1..], d);
      var rest := Split(s[1..], d);
      var f := [s[0]] + rest[0];
      assert r == [f] + rest[1..];
      assert f == s[..|f|];
      forall i | 0 <= i <= |f| ensures !OccursAt(f, d, i) {
        if i == 0 {
          assert |f| >= |d| ==> f[..|d|] == s[..|d|];
        } else {
          assert i + |d| <= |f| ==> f[i..i + |d|] == rest[0][i - 1..i - 1 + |d|];
          assert !OccursAt(rest[0], d, i - 1);
        }
      }
      forall k | 0 <= k < |r| ensures !Contains(r[k], d) {
        if k > 0 { assert r[k] == rest[k]; }
      }
    }
  }

  /** Text without the separator splits into itself alone. */
  lemma {:induction false} SplitWithoutSeparator(s: string, d: string)
    requires d != [] && !Contains(s, d)
    ensures Split(s, d) == [s]
    decreases |s|
  {
    if |s| < |d| {
    } else if s[..|d|] == d {
      assert OccursAt(s, d, 0);
      assert false;
    } else {
      assert !Contains(s[1..], d) by {
        if Contains(s[1..], d) {
          var i :| 0 <= i <= |s[1..]| && OccursAt(s[1..], d, i);
          assert s[i + 1..i + 1 + |d|] == s[1..][i..i + |d|];
          assert OccursAt(s, d, i + 1);
          assert false;
        }
      }
      SplitWithoutSeparator(s[1..], d);
      assert s == [s[0]] + s[1..];
    }
  }

  /** A slice of a text without the separator does not contain it either. */
  lemma SliceKeepsFree(s: string, d: string, a: nat, b: nat)
    requires a <= b <= |s| && !Contains(s, d)
    ensures !Contains(s[a..b], d)
  {
    forall j | 0 <= j <= b - a ensures !OccursAt(s[a..b], d, j) {
      if j + |d| <= b - a {
        var t, u := s[a..b][j..j + |d|], s[a + j..a + j + |d|];
        assert forall k :: 0 <= k < |d| ==> t[k] == u[k];
        assert t == u;
      }
      assert !OccursAt(s, d, a + j);
    }
  }

  /** Stripping a text without the separator leaves a text without it. */
  lemma TrimKeepsFree(s: string, d: string)
    requires !Contains(s, d)
    ensures !Contains(Trim(s), d)
  {
    TrimSpec(s);
    SliceKeepsFree(s, d, TrimOffset(s), TrimOffset(s) + |Trim(s)|);
  }

  // ------------------------------------------------------------------ words

  /** The length of the run of non-whitespace characters that starts `s`. */
  function WordLength(s: string): (n: nat)
    ensures n <= |s| && NoSpace(s[..n])
    ensures n < |s| ==> IsSpace(s[n])
    ensures s != [] && !IsSpace(s[0]) ==> n >= 1
  {
    if s == [] || IsSpace(s[0]) then 0
    else
      var n := WordLength(s[1..]);
      assert s[..n + 1] == [s[0]] + s[1..][..n];
      n + 1
  }

  /** Python's `s.split()` with no separator: the maximal runs of
      non-whitespace characters, in order. Every word is non-empty and
      holds no whitespace. */
  function Words(s: string): (r: seq<string>)
    ensures forall k :: 0 <= k < |r| ==> r[k] != [] && NoSpace(r[k])
    decreases |s|
  {
    if s == [] then []
    else if IsSpace(s[0]) then Words(s[1..])
    else
      var n := WordLength(s);
      [s[..n]] + Words(s[n..])
  }

  /** The characters of `s` that are not whitespace, in order. */
  function RemoveSpace(s: string): string
  {
    if s == [] then [] else (if IsSpace(s[0]) then [] else [s[0]]) + RemoveSpace(s[1..])
  }

  /** Concatenation of a list of strings (Python's `"".join(parts)`). */
  function Concat(parts: seq<string>): string
  {
    if parts == [] then [] else parts[0] + Concat(parts[1..])
  }

  lemma {:induction false} RemoveSpaceAppend(a: string, b: string)
    ensures RemoveSpace(a + b) == RemoveSpace(a) + RemoveSpace(b)
  {
    if a != [] {
      assert (a + b)[1..] == a[1..] + b;
      RemoveSpaceAppend(a[1..], b);
    } else {
      assert a + b == b;
    }
  }

  lemma {:induction false} RemoveSpaceOfNoSpace(a: string)
    requires NoSpace(a)
    ensures RemoveSpace(a) == a
  {
    if a != [] {
      RemoveSpaceOfNoSpace(a[1..]);
    }
  }

  lemma {:induction false} RemoveSpaceOfBlank(a: string)
    requires Blank(a)
    ensures RemoveSpace(a) == []
  {
    if a != [] {
      RemoveSpaceOfBlank(a[1..]);
    }
  }

  /** The words of a text, concatenated, are its non-whitespace characters:
      splitting on whitespace loses nothing but the whitespace. */
  lemma {:induction false} WordsConcat(s: string)
    ensures Concat(Words(s)) == RemoveSpace(s)
    decreases |s|
  {
    if s == [] {
    } else if IsSpace(s[0]) {
      WordsConcat(s[1..]);
    } else {
      var n := WordLength(s);
      WordsConcat(s[n..]);
      assert s == s[..n] + s[n..];
      RemoveSpaceAppend(s[..n], s[n..]);
      RemoveSpaceOfNoSpace(s[..n]);
      assert ([s[..n]] + Words(s[n..]))[1..] == Words(s[n..]);
    }
  }

  /** A blank text has no words. */
  lemma {:induction false} WordsOfBlank(s: string)
    requires Blank(s)
    ensures Words(s) == []
    decreases |s|
  {
    if s != [] {
      WordsOfBlank(s[1..]);
    }
  }

  /** A text without whitespace is one word, or none when it is empty. */
  lemma WordsOfNoSpace(s: string)
    requires NoSpace(s)
    ensures Words(s) == if s == [] then [] else [s]
  {
    if s != [] {
      assert WordLength(s) == |s|;
      assert s[..|s|] == s;
    }
  }

  /** A word followed by whitespace contributes that word first. */
  lemma WordsAfterWord(w: string, sp: string, rest: string)
    requires w != [] && NoSpace(w) && sp != [] && Blank(sp)
    ensures Words(w + sp + rest) == [w] + Words(rest)
  {
    var s := w + sp + rest;
    assert WordLength(s) == |w| by {
      assert s[..|w|] == w;
      assert IsSpace(s[|w|]);
      WordLengthAtSpace(s, |w|);
    }
    assert s[..|w|] == w;
    assert s[|w|..] == sp + rest;
    SkipBlank(sp, rest);
  }

  lemma {:induction false} WordLengthAtSpace(s: string, n: nat)
    requires n < |s| && NoSpace(s[..n]) && IsSpace(s[n])
    ensures WordLength(s) == n
  {
    if n > 0 {
      assert s[1..][..n - 1] == s[1..n];
      WordLengthAtSpace(s[1..], n - 1);
    }
  }

  lemma {:induction false} SkipBlank(sp: string, rest: string)
    requires Blank(sp)
    ensures Words(sp + rest) == Words(rest)
  {
    if sp != [] {
      assert (sp + rest)[1..] == sp[1..] + rest;
      SkipBlank(sp[1..], rest);
    } else {
      assert sp + rest == rest;
    }
  }

  // ------------------------------------------------------------------ case

  function ToLower(c: char): char
  {
    if 'A' <= c <= 'Z' then (c as int + 32) as char else c
  }

  function ToUpper(c: char): char
  {
    if 'a' <= c <= 'z' then (c as int - 32) as char else c
  }

  predicate IsUpper(c: char) { 'A' <= c <= 'Z' }

  predicate IsLower(c: char) { 'a' <= c <= 'z' }

  /** Python's `str.lower()` (ASCII letters). */
  function Lower(s: string): (r: string)
    ensures |r| == |s|
  {
    seq(|s|, i requires 0 <= i < |s| => ToLower(s[i]))
  }

  /** Python's `str.capitalize()` (ASCII letters): the first character
      upper-cased, every other character lower-cased. */
  function Capitalize(w: string): string
  {
    if w == [] then [] else [ToUpper(w[0])] + Lower(w[1..])
  }

  /** Capitalizing keeps the length and the letters up to case and adds no
      whitespace; afterwards the first character is not a lower-case letter
      and no other character is an upper-case one. */
  lemma CapitalizeSpec(w: string)
    ensures |Capitalize(w)| == |w|
    ensures Lower(Capitalize(w)) == Lower(w)
    ensures Capitalize(w) != [] ==> !IsLower(Capitalize(w)[0])
    ensures forall i :: 1 <= i < |Capitalize(w)| ==> !IsUpper(Capitalize(w)[i])
    ensures NoSpace(w) ==> NoSpace(Capitalize(w))
  {
    if w != [] {
      var r := Capitalize(w);
      CapitalizeAt(w);
      CaseChar(w[0]);
      forall i | 1 <= i < |r| ensures !IsUpper(r[i]) && Lower(r)[i] == Lower(w)[i] {
        CaseChar(w[i]);
      }
      assert Lower(r)[0] == Lower(w)[0];
      CapitalizeNoSpace(w);
    }
  }

  /** Where each character of a capitalized word comes from. */
  lemma CapitalizeAt(w: string)
    requires w != []
    ensures |Capitalize(w)| == |w| && Capitalize(w)[0] == ToUpper(w[0])
    ensures forall i :: 1 <= i < |w| ==> Capitalize(w)[i] == ToLower(w[i])
  {
    var t := Lower(w[1..]);
    assert Capitalize(w) == [ToUpper(w[0])] + t;
    forall i | 1 <= i < |w| ensures Capitalize(w)[i] == ToLower(w[i]) {
      assert Capitalize(w)[i] == t[i - 1] && w[1..][i - 1] == w[i];
    }
  }

  /** Changing the case of a character: upper-casing leaves no lower-case
      letter, lower-casing no upper-case one, and either agrees with the
      character up to case. */
  lemma CaseChar(c: char)
    ensures !IsLower(ToUpper(c)) && ToLower(ToUpper(c)) == ToLower(c)
    ensures !IsUpper(ToLower(c)) && ToLower(ToLower(c)) == ToLower(c)
    ensures IsSpace(ToUpper(c)) ==> IsSpace(c)
    ensures IsSpace(ToLower(c)) ==> IsSpace(c)
  {
  }

  lemma CapitalizeNoSpace(w: string)
    ensures NoSpace(w) ==> NoSpace(Capitalize(w))
  {
    if w != [] && NoSpace(w) {
      var r := Capitalize(w);
      CaseChar(w[0]);
      forall i | 0 <= i < |r| ensures !IsSpace(r[i]) {
        CaseChar(w[i]);
        if i > 0 {
          assert r[i] == ToLower(w[i]);
        }
      }
    }
  }

  /** A string with no upper-case letter is its own lower-casing. */
  lemma LowerFixed(s: string)
    requires forall i :: 0 <= i < |s| ==> !IsUpper(s[i])
    ensures Lower(s) == s
  {
  }

  /** A word that is already capitalized is left as it is. */
  lemma CapitalizeFixed(w: string)
    requires w != [] && !IsLower(w[0]) && forall i :: 1 <= i < |w| ==> !IsUpper(w[i])
    ensures Capitalize(w) == w
  {
    LowerFixed(w[1..]);
    assert w == [w[0]] + w[1..];
  }

  lemma LowerAppend(a: string, b: string)
    ensures Lower(a + b) == Lower(a) + Lower(b)
  {
  }

  lemma {:induction false} ConcatNoSpace(parts: seq<string>)
    requires forall k :: 0 <= k < |parts| ==> NoSpace(parts[k])
    ensures NoSpace(Concat(parts))
  {
    if parts != [] {
      ConcatNoSpace(parts[1..]);
    }
  }

  /** Two lists of strings that agree piecewise up to case have
      concatenations that agree up to case. */
  lemma {:induction false} ConcatLower(ps: seq<string>, qs: seq<string>)
    requires |ps| == |qs|
    requires forall k :: 0 <= k < |ps| ==> Lower(ps[k]) == Lower(qs[k])
    ensures Lower(Concat(ps)) == Lower(Concat(qs))
  {
    if ps != [] {
      ConcatLower(ps[1..], qs[1..]);
      LowerAppend(ps[0], Concat(ps[1..]));
      LowerAppend(qs[0], Concat(qs[1..]));
    }
  }
}

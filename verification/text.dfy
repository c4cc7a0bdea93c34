/** The string primitives the translator relies on, stated over `seq<char>`:
    character classes, upper-casing, `strip`, single-character `replace` with
    the empty string, and `split` on one character together with its inverse. */
module Text {

  /** ASCII letters and digits. */
  predicate IsAlnum(c: char) {
    'A' <= c <= 'Z' || 'a' <= c <= 'z' || '0' <= c <= '9'
  }

  predicate IsDigit(c: char) {
    '0' <= c <= '9'
  }

  /** The characters Python's `str.isspace` accepts; `str.strip()` and the
      regular-expression class `\s` use the same set. */
  predicate IsSpace(c: char) {
    c in {' ', '\t', '\n', '\U{B}', '\U{C}', '\r', '\U{1C}', '\U{1D}', '\U{1E}', '\U{1F}',
          '\U{85}', '\U{A0}', '\U{1680}', '\U{2000}', '\U{2001}', '\U{2002}', '\U{2003}',
          '\U{2004}', '\U{2005}', '\U{2006}', '\U{2007}', '\U{2008}', '\U{2009}', '\U{200A}',
          '\U{2028}', '\U{2029}', '\U{202F}', '\U{205F}', '\U{3000}'}
  }

  lemma DigitIsNotSpace(c: char)
    requires IsDigit(c)
    ensures !IsSpace(c)
  {
  }

  /** Upper-casing of one character, restricted to ASCII letters. */
  function UpperChar(c: char): (u: char) {
    if 'a' <= c <= 'z' then (c as int - 32) as char else c
  }

  function Upper(s: string): (r: string)
    ensures |r| == |s|
    ensures forall i :: 0 <= i < |s| ==> r[i] == UpperChar(s[i])
  {
    seq(|s|, i requires 0 <= i < |s| => UpperChar(s[i]))
  }

  /** `s` without its leading whitespace. */
  function TrimLeft(s: string): (r: string) {
    if |s| > 0 && IsSpace(s[0]) then TrimLeft(s[1..]) else s
  }

  /** `s` without its trailing whitespace. */
  function TrimRight(s: string): (r: string) {
    if |s| > 0 && IsSpace(s[|s| - 1]) then TrimRight(s[..|s| - 1]) else s
  }

  /** Python's `str.strip()` with no argument. */
  function Strip(s: string): (r: string) {
    TrimRight(TrimLeft(s))
  }

  /** Python's `s.replace(c, "")` for one character `c`. */
  function Remove(s: string, c: char): (r: string) {
    if s == [] then [] else (if s[0] == c then [] else [s[0]]) + Remove(s[1..], c)
  }

  /** `TrimLeft` drops exactly the leading whitespace: a suffix remains that
      is empty or starts with a non-space. */
  lemma {:induction false} TrimLeftSpaces(s: string)
    ensures var r := TrimLeft(s);
      && |r| <= |s| && r == s[|s| - |r|..]
      && (r == [] || !IsSpace(r[0]))
      && forall i :: 0 <= i < |s| - |r| ==> IsSpace(s[i])
  {
    if |s| > 0 && IsSpace(s[0]) {
      TrimLeftSpaces(s[1..]);
    }
  }

  /** `TrimRight` drops exactly the trailing whitespace. */
  lemma {:induction false} TrimRightSpaces(s: string)
    ensures var r := TrimRight(s);
      && |r| <= |s| && r == s[..|r|]
      && (r == [] || !IsSpace(r[|r| - 1]))
      && forall i :: |r| <= i < |s| ==> IsSpace(s[i])
  {
    if |s| > 0 && IsSpace(s[|s| - 1]) {
      TrimRightSpaces(s[..|s| - 1]);
    }
  }

  /** `strip()` leaves a text without surrounding whitespace, made of
      characters of the input, empty exactly when the input is all
      whitespace, and leaves text without surrounding whitespace alone. */
  lemma StripShape(s: string)
    ensures var r := Strip(s);
      && (r == [] || (!IsSpace(r[0]) && !IsSpace(r[|r| - 1])))
      && (forall c :: c in r ==> c in s)
      && (r == [] <==> forall i :: 0 <= i < |s| ==> IsSpace(s[i]))
      && ((s == [] || (!IsSpace(s[0]) && !IsSpace(s[|s| - 1]))) ==> r == s)
  {
    var t := TrimLeft(s);
    var r := TrimRight(t);
    TrimLeftSpaces(s);
    TrimRightSpaces(t);
    assert forall c :: c in r ==> c in t;
    assert r == [] ==> t == [] by {
      if t != [] {
        assert !IsSpace(t[0]);
      }
    }
    assert (forall i :: 0 <= i < |s| ==> IsSpace(s[i])) ==> r == [] by {
      if r != [] {
        assert r[0] == s[|s| - |t|];
      }
    }
    if s == [] || (!IsSpace(s[0]) && !IsSpace(s[|s| - 1])) {
      assert t == s;
    }
  }

  /** `strip()` is the input without its leading and trailing whitespace:
      a slice of it with only whitespace before and after, itself neither
      starting nor ending with whitespace. */
  lemma StripSpaces(s: string)
    ensures var r := Strip(s);
      && (r == [] || (!IsSpace(r[0]) && !IsSpace(r[|r| - 1])))
      && (r == [] <==> forall i :: 0 <= i < |s| ==> IsSpace(s[i]))
      && exists i, j :: 0 <= i <= j <= |s| && r == s[i..j]
           && (forall k :: 0 <= k < i ==> IsSpace(s[k]))
           && (forall k :: j <= k < |s| ==> IsSpace(s[k]))
  {
    StripShape(s);
    var i, j := StripBounds(s);
  }

  /** Where `strip()` cuts: the whitespace before `i` and from `j` on. */
  lemma StripBounds(s: string) returns (i: nat, j: nat)
    ensures i <= j <= |s| && Strip(s) == s[i..j]
    ensures forall k :: 0 <= k < i ==> IsSpace(s[k])
    ensures forall k :: j <= k < |s| ==> IsSpace(s[k])
  {
    var t := TrimLeft(s);
    TrimLeftSpaces(s);
    TrimRightSpaces(t);
    i := |s| - |t|;
    j := i + |TrimRight(t)|;
    assert t == s[i..];
    forall k | j <= k < |s|
      ensures IsSpace(s[k])
    {
      assert s[k] == t[k - i];
    }
  }

  /** Removing `c` keeps every other character and only those, and shortens
      the text by the number of occurrences of `c`. */
  lemma {:induction false} RemoveChar(s: string, c: char)
    ensures c !in Remove(s, c)
    ensures forall d :: d in Remove(s, c) <==> d in s && d != c
    ensures |Remove(s, c)| == |s| - Count(s, c)
    ensures c !in s ==> Remove(s, c) == s
  {
    if s != [] {
      RemoveChar(s[1..], c);
      assert s == [s[0]] + s[1..];
    }
  }

  /** Removal works piecewise and keeps the order of what it keeps: the text
      of two parts loses `c` from each part separately. */
  lemma {:induction false} RemoveConcat(a: string, b: string, c: char)
    ensures Remove(a + b, c) == Remove(a, c) + Remove(b, c)
  {
    if a == [] {
      assert a + b == b;
    } else {
      assert (a + b)[0] == a[0];
      assert (a + b)[1..] == a[1..] + b;
      RemoveConcat(a[1..], b, c);
    }
  }

  /** Upper-casing is idempotent and leaves no lower-case ASCII letter. */
  lemma UpperIdempotent(s: string)
    ensures Upper(Upper(s)) == Upper(s)
    ensures forall i :: 0 <= i < |s| ==> !('a' <= Upper(s)[i] <= 'z')
  {
  }

  /** The number of occurrences of `c` in `s`. */
  function Count(s: string, c: char): (n: nat)
    ensures n <= |s|
    ensures n == 0 <==> c !in s
  {
    if s == [] then 0 else (if s[0] == c then 1 else 0) + Count(s[1..], c)
  }

  lemma {:induction false} CountConcat(a: string, b: string, c: char)
    ensures Count(a + b, c) == Count(a, c) + Count(b, c)
  {
    if a != [] {
      assert (a + b)[0] == a[0];
      assert (a + b)[1..] == a[1..] + b;
      CountConcat(a[1..], b, c);
      assert Count(a + b, c) == (if a[0] == c then 1 else 0) + Count(a[1..] + b, c);
    } else {
      assert a + b == b;
    }
  }

  /** Python's `s.split(c)` for one character `c`: the pieces between
      occurrences of `c`, in order, keeping empty pieces. */
  function Split(s: string, c: char): (r: seq<string>)
    ensures |r| == Count(s, c) + 1
    ensures forall i :: 0 <= i < |r| ==> c !in r[i]
  {
    if s == [] then [[]]
    else
      var rest := Split(s[1..], c);
      if s[0] == c then [[]] + rest
      else [[s[0]] + rest[0]] + rest[1..]
  }

  /** The pieces of a split hold only characters of the text. */
  lemma {:induction false} SplitChars(s: string, c: char)
    ensures forall i, d :: 0 <= i < |Split(s, c)| && d in Split(s, c)[i] ==> d in s
  {
    if s != [] {
      SplitChars(s[1..], c);
      assert forall d :: d in s[1..] ==> d in s;
    }
  }

  /** The inverse of `Split`: the pieces with `c` between consecutive ones. */
  function Join(parts: seq<string>, c: char): (s: string)
    requires |parts| > 0
  {
    if |parts| == 1 then parts[0] else parts[0] + [c] + Join(parts[1..], c)
  }

  /** Splitting and joining again gives back the text. */
  lemma {:induction false} SplitJoin(s: string, c: char)
    ensures Join(Split(s, c), c) == s
  {
    if s != [] {
      var rest := Split(s[1..], c);
      SplitJoin(s[1..], c);
      if s[0] == c {
        assert Split(s, c)[1..] == rest;
      } else if |rest| > 1 {
        assert Split(s, c)[1..] == rest[1..];
        assert Join(rest, c) == rest[0] + [c] + Join(rest[1..], c);
      }
    }
  }

  /** Joining pieces free of `c` and splitting again gives back the pieces. */
  lemma {:induction false} JoinSplit(parts: seq<string>, c: char)
    requires |parts| > 0
    requires forall i :: 0 <= i < |parts| ==> c !in parts[i]
    ensures Split(Join(parts, c), c) == parts
  {
    if |parts| == 1 {
      SplitOfPiece(parts[0], c);
    } else {
      JoinSplit(parts[1..], c);
      SplitConcat(parts[0], Join(parts[1..], c), c);
      SplitOfPiece(parts[0], c);
      assert [parts[0]] + parts[1..] == parts;
    }
  }

  /** A piece free of `c` splits into itself. */
  lemma SplitOfPiece(s: string, c: char)
    requires c !in s
    ensures Split(s, c) == [s]
  {
    if s != [] {
      SplitOfPiece(s[1..], c);
      assert [s[0]] + s[1..] == s;
    }
  }

  /** Splitting distributes over concatenation at an occurrence of `c`. */
  lemma {:induction false} SplitConcat(a: string, b: string, c: char)
    ensures Split(a + [c] + b, c) == Split(a, c) + Split(b, c)
  {
    if a == [] {
      assert a + [c] + b == [c] + b;
      assert ([c] + b)[1..] == b;
    } else {
      assert (a + [c] + b)[1..] == a[1..] + [c] + b;
      SplitConcat(a[1..], b, c);
    }
  }

  /** The last piece of a split is the longest suffix free of `c`. */
  lemma {:induction false} SplitLast(s: string, c: char)
    ensures var r := Split(s, c); var last := r[|r| - 1];
      |last| <= |s| && last == s[|s| - |last|..]
      && (|last| < |s| ==> s[|s| - |last| - 1] == c)
  {
    if s != [] {
      var rest := Split(s[1..], c);
      SplitLast(s[1..], c);
      if s[0] != c && |rest| == 1 {
        assert Split(s, c) == [[s[0]] + rest[0]];
      } else {
        assert Split(s, c)[|Split(s, c)| - 1] == rest[|rest| - 1];
      }
    }
  }

  /** Piece `k` of a split starts right after the `k`-th occurrence of `c`. */
  lemma {:induction false} SplitPieceAt(s: string, c: char, k: nat) returns (p: int)
    requires k < |Split(s, c)|
    ensures PieceAt(s, c, Split(s, c)[k], k, p)
  {
    if k == 0 {
      SplitFirstPiece(s, c);
      p := 0;
    } else {
      var j := if s[0] == c then k - 1 else k;
      SplitIndexTail(s, c, k);
      var q := SplitPieceAt(s[1..], c, j);
      PieceShift(s, c, Split(s[1..], c)[j], j, q);
      p := q + 1;
    }
  }

  /** Piece `k > 0` of a split is a piece of the split of the text without
      its first character: the same one, or the one before when that
      character is `c`. */
  lemma SplitIndexTail(s: string, c: char, k: nat)
    requires 0 < k < |Split(s, c)|
    ensures s != []
    ensures var j := if s[0] == c then k - 1 else k;
      j < |Split(s[1..], c)| && Split(s, c)[k] == Split(s[1..], c)[j]
  {
  }

  /** The first piece of a split is a prefix of the text. */
  lemma {:induction false} SplitFirstPiece(s: string, c: char)
    ensures |Split(s, c)[0]| <= |s| && s[..|Split(s, c)[0]|] == Split(s, c)[0]
  {
    if s != [] && s[0] != c {
      var rest := Split(s[1..], c);
      SplitFirstPiece(s[1..], c);
      assert s[..1 + |rest[0]|] == [s[0]] + s[1..][..|rest[0]|];
    }
  }

  /** A piece found after the first character is found in the whole text,
      one position later and behind one more separator when `s[0]` is one. */
  lemma PieceShift(s: string, c: char, piece: string, j: nat, p: int)
    requires |s| > 0 && PieceAt(s[1..], c, piece, j, p)
    requires s[0] == c || j > 0
    ensures PieceAt(s, c, piece, j + (if s[0] == c then 1 else 0), p + 1)
  {
    assert s[..p + 1] == [s[0]] + s[1..][..p];
    CountConcat([s[0]], s[1..][..p], c);
    assert s[p + 1..p + 1 + |piece|] == s[1..][p..p + |piece|];
  }

  /** `piece` occupies `s[p..]`, and `p` is the start of the text or just after
      the `k`-th occurrence of `c`. */
  ghost predicate PieceAt(s: string, c: char, piece: string, k: nat, p: int) {
    0 <= p && p + |piece| <= |s| && s[p..p + |piece|] == piece
    && Count(s[..p], c) == k
    && (k == 0 ==> p == 0)
    && (k > 0 ==> 0 < p && s[p - 1] == c)
  }
}

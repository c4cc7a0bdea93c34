/** Delimiter detection: where the X12 data starts, which character separates
    elements and which one terminates segments. With an ISA interchange
    control header the layout is fixed by ASC X12.5 (sixteen elements, ISA16
    the one-character component separator, then the terminator); without
    one, the first stand-alone `ST` segment is used and the terminator is
    found by scanning forward. */
module Delimiters {
  import opened Wrappers
  import opened Text

  datatype Delimiters = Delimiters(start: nat, eleSep: char, segTerm: char)

  /** The terminator used when the scan after `ST` finds no candidate. */
  const DefaultTerminator: char := '~'

  /** `ISA` in any letter case at `i`, followed by a character other than a
      newline (the regular expression `ISA(.)` with IGNORECASE). */
  predicate IsaAt(s: string, i: nat) {
    i + 3 < |s| && UpperChar(s[i]) == 'I' && UpperChar(s[i + 1]) == 'S'
    && UpperChar(s[i + 2]) == 'A' && s[i + 3] != '\n'
  }

  /** `ST` at `i`, not preceded by a letter or digit and followed by a
      character that is neither a letter, a digit nor whitespace. */
  predicate StAt(s: string, i: nat) {
    i + 2 < |s| && s[i] == 'S' && s[i + 1] == 'T'
    && (i == 0 || !IsAlnum(s[i - 1]))
    && !IsAlnum(s[i + 2]) && !IsSpace(s[i + 2])
  }

  /** A character the forward scan after `ST` accepts as segment terminator. */
  predicate IsTerminatorCandidate(c: char, eleSep: char) {
    !(IsAlnum(c) || c == eleSep || c == ' ' || c == '\t' || c == ':' || c == '-')
  }

  /** The first `ISA` at or after `from`: the regular-expression search. */
  function FindIsa(s: string, from: nat): (r: Option<nat>)
    ensures r.Some? ==> from <= r.value && IsaAt(s, r.value)
    ensures r.Some? ==> forall j :: from <= j < r.value ==> !IsaAt(s, j)
    ensures r.None? ==> forall j :: from <= j ==> !IsaAt(s, j)
    decreases |s| - from
  {
    if from >= |s| then None
    else if IsaAt(s, from) then Some(from)
    else FindIsa(s, from + 1)
  }

  /** The first stand-alone `ST` at or after `from`. */
  function FindSt(s: string, from: nat): (r: Option<nat>)
    ensures r.Some? ==> from <= r.value && StAt(s, r.value)
    ensures r.Some? ==> forall j :: from <= j < r.value ==> !StAt(s, j)
    ensures r.None? ==> forall j :: from <= j ==> !StAt(s, j)
    decreases |s| - from
  {
    if from >= |s| then None
    else if StAt(s, from) then Some(from)
    else FindSt(s, from + 1)
  }

  /** The segment terminator the scan after `ST` picks: the first candidate
      at or after `from`, or the default when there is none. */
  function ScanTerminator(s: string, from: nat, eleSep: char): (t: char)
    ensures (exists m :: from <= m < |s| && IsTerminatorCandidate(s[m], eleSep))
      ==> exists m :: from <= m < |s| && s[m] == t && IsTerminatorCandidate(t, eleSep)
              && forall j :: from <= j < m ==> !IsTerminatorCandidate(s[j], eleSep)
    ensures (forall m :: from <= m < |s| ==> !IsTerminatorCandidate(s[m], eleSep))
      ==> t == DefaultTerminator
    decreases |s| - from
  {
    if from >= |s| then DefaultTerminator
    else if IsTerminatorCandidate(s[from], eleSep) then s[from]
    else ScanTerminator(s, from + 1, eleSep)
  }

  /** The delimiters of `content`, or the error the parser raises. */
  function Detect(content: string): (r: Result<Delimiters, TranslationError>)
    ensures r.Success? ==> r.value.start < |content|
    ensures r.Success? ==>
      (r.value.segTerm != r.value.eleSep
       || (r.value.eleSep == DefaultTerminator == r.value.segTerm && !IsaAt(content, r.value.start)))
    ensures r == Failure(NoEnvelope)
      <==> (forall i :: !IsaAt(content, i)) && (forall i :: !StAt(content, i))
    ensures r.Failure? ==> r.error != NoClaims
  {
    match FindIsa(content, 0)
    case Some(start) =>
      var eleSep := content[start + 3];
      // Python's `split(ele_sep, 17)` yields the same seventeenth piece as a
      // full split whenever there are at least sixteen separators.
      var fields := Split(content[start..], eleSep);
      if |fields| < 17 then Failure(IsaTooFewSeparators)
      else if |fields[16]| < 2 then Failure(IsaNoTerminator)
      else Success(Delimiters(start, eleSep, fields[16][1]))
    case None =>
      match FindSt(content, 0)
      case None => Failure(NoEnvelope)
      case Some(start) =>
        var eleSep := content[start + 2];
        Success(Delimiters(start, eleSep, ScanTerminator(content, start, eleSep)))
  }

  // ---------------------------------------------------------------------------
  // Properties of the two paths
  // ---------------------------------------------------------------------------

  /** With an ISA, its first occurrence decides: the element separator is the
      character right after it, too few separators or a too short ISA16 field
      are errors, and the terminator is the character after ISA16, which sits
      right after the sixteenth separator. */
  lemma IsaDelimiters(content: string, k: nat)
    requires IsaAt(content, k) && forall j :: 0 <= j < k ==> !IsaAt(content, j)
    ensures var sep := content[k + 3]; var rest := content[k..];
      && (Detect(content) == Failure(IsaTooFewSeparators) <==> Count(rest, sep) < 16)
      && (Detect(content) == Failure(IsaNoTerminator)
          <==> Count(rest, sep) >= 16 && |Split(rest, sep)[16]| < 2)
      && (Detect(content).Success? ==>
            && Detect(content).value.start == k
            && Detect(content).value.eleSep == sep
            && Detect(content).value.segTerm != sep
            && exists p :: Isa16At(rest, sep, p) && rest[p + 1] == Detect(content).value.segTerm)
  {
    var sep := content[k + 3];
    var rest := content[k..];
    var fields := Split(rest, sep);
    if |fields| >= 17 && |fields[16]| >= 2 {
      var p := SplitPieceAt(rest, sep, 16);
      assert rest[p..p + |fields[16]|] == fields[16];
      assert rest[p] == fields[16][0] && rest[p + 1] == fields[16][1];
      assert Isa16At(rest, sep, p);
    }
  }

  /** ISA16 is at `p`: right after the sixteenth element separator, itself not
      a separator, and followed by one more character. */
  ghost predicate Isa16At(rest: string, sep: char, p: int) {
    0 < p && p + 1 < |rest| && rest[p - 1] == sep && Count(rest[..p], sep) == 16
    && rest[p] != sep
  }

  /** Without an ISA, the first stand-alone `ST` decides: the element
      separator follows it and the terminator is the first later character
      that is not a letter, digit, element separator, space, tab, `:` or `-`,
      or `~` when there is none. */
  lemma StDelimiters(content: string, k: nat)
    requires forall i :: !IsaAt(content, i)
    requires StAt(content, k) && forall j :: 0 <= j < k ==> !StAt(content, j)
    ensures Detect(content).Success?
    ensures var d := Detect(content).value;
      && d.start == k
      && d.eleSep == content[k + 2]
      && !IsAlnum(d.eleSep) && !IsSpace(d.eleSep)
      && !IsAlnum(d.segTerm) && d.segTerm !in {' ', '\t', ':', '-'}
      && ((exists m :: k <= m < |content| && IsTerminatorCandidate(content[m], d.eleSep))
          ==> IsTerminatorCandidate(d.segTerm, d.eleSep))
      && ((forall m :: k <= m < |content| ==> !IsTerminatorCandidate(content[m], d.eleSep))
          ==> d.segTerm == DefaultTerminator)
  {
  }
}

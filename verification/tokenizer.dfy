/** Splitting the X12 text into segments: pieces between segment
    terminators, stripped, blank ones dropped, each split into elements, and
    kept only when the upper-cased stripped first element is not empty. */
module Tokenizer {
  import opened Wrappers
  import opened Text
  import opened Delimiters

  /** One segment: its upper-cased identifier and all of its elements, the
      first (unstripped, original case) included. */
  datatype Segment = Segment(id: string, elements: seq<string>)

  /** The segment one piece yields, if any. */
  function SegmentOf(piece: string, eleSep: char, segTerm: char): (r: Option<Segment>)
    ensures r.Some? && segTerm !in piece ==> WellFormed(r.value, eleSep, segTerm)
  {
    var seg := Strip(piece);
    if seg == [] then None
    else
      var elements := Split(seg, eleSep);
      var id := Upper(Strip(elements[0]));
      StripShape(piece);
      SplitChars(seg, eleSep);
      assert segTerm !in piece ==> forall i :: 0 <= i < |elements| ==> segTerm !in elements[i];
      if id == [] then None else Some(Segment(id, elements))
  }

  /** What every emitted segment satisfies. */
  ghost predicate WellFormed(s: Segment, eleSep: char, segTerm: char) {
    && |s.elements| > 0
    && s.id == Upper(Strip(s.elements[0]))
    && s.id != []
    && forall i :: 0 <= i < |s.elements| ==> segTerm !in s.elements[i] && eleSep !in s.elements[i]
  }

  /** The values `f` yields for `xs`, in order, skipping the missing ones. */
  function Somes<A, B>(f: A -> Option<B>, xs: seq<A>): (r: seq<B>)
    ensures |r| <= |xs|
    ensures forall y :: y in r ==> exists i :: 0 <= i < |xs| && f(xs[i]) == Some(y)
  {
    if xs == [] then []
    else
      var rest := Somes(f, xs[1..]);
      assert forall y :: y in rest ==> exists i :: 0 <= i < |xs| && f(xs[i]) == Some(y) by {
        forall y | y in rest
          ensures exists i :: 0 <= i < |xs| && f(xs[i]) == Some(y)
        {
          var i :| 0 <= i < |xs[1..]| && f(xs[1..][i]) == Some(y);
          assert f(xs[i + 1]) == Some(y);
        }
      }
      (if f(xs[0]).Some? then [f(xs[0]).value] else []) + rest
  }

  lemma {:induction false} SomesConcat<A, B>(f: A -> Option<B>, a: seq<A>, b: seq<A>)
    ensures Somes(f, a + b) == Somes(f, a) + Somes(f, b)
  {
    if a == [] {
      assert a + b == b;
    } else {
      assert (a + b)[0] == a[0];
      assert (a + b)[1..] == a[1..] + b;
      SomesConcat(f, a[1..], b);
    }
  }

  /** The segments of a list of pieces, in piece order. */
  function SegmentsOf(pieces: seq<string>, eleSep: char, segTerm: char): (r: seq<Segment>)
    ensures |r| <= |pieces|
    ensures (forall i :: 0 <= i < |pieces| ==> segTerm !in pieces[i])
      ==> forall i :: 0 <= i < |r| ==> WellFormed(r[i], eleSep, segTerm)
  {
    var f := (p: string) => SegmentOf(p, eleSep, segTerm);
    var r := Somes(f, pieces);
    assert (forall i :: 0 <= i < |pieces| ==> segTerm !in pieces[i])
      ==> forall i :: 0 <= i < |r| ==> WellFormed(r[i], eleSep, segTerm) by {
      if forall i :: 0 <= i < |pieces| ==> segTerm !in pieces[i] {
        forall i | 0 <= i < |r|
          ensures WellFormed(r[i], eleSep, segTerm)
        {
          assert r[i] in r;
          var j :| 0 <= j < |pieces| && f(pieces[j]) == Some(r[i]);
        }
      }
    }
    r
  }

  /** The segments of `text` under the given delimiters. */
  function Tokenize(text: string, eleSep: char, segTerm: char): (r: seq<Segment>)
    ensures forall i :: 0 <= i < |r| ==> WellFormed(r[i], eleSep, segTerm)
  {
    SegmentsOf(Split(text, segTerm), eleSep, segTerm)
  }

  /** Segment order is input order: the text before a terminator yields its
      segments before those of the text after it. */
  lemma TokenizeConcat(x: string, y: string, eleSep: char, segTerm: char)
    ensures Tokenize(x + [segTerm] + y, eleSep, segTerm)
         == Tokenize(x, eleSep, segTerm) + Tokenize(y, eleSep, segTerm)
  {
    SplitConcat(x, y, segTerm);
    SomesConcat((p: string) => SegmentOf(p, eleSep, segTerm), Split(x, segTerm), Split(y, segTerm));
  }

  /** A piece free of the terminator yields exactly the segment its stripped
      text describes, or nothing when it is blank or has an empty identifier. */
  lemma TokenizePiece(p: string, eleSep: char, segTerm: char)
    requires segTerm !in p
    ensures var seg := Strip(p);
      && (seg == [] ==> Tokenize(p, eleSep, segTerm) == [])
      && (seg != [] ==>
            var elements := Split(seg, eleSep);
            Tokenize(p, eleSep, segTerm)
              == if Upper(Strip(elements[0])) == [] then []
                 else [Segment(Upper(Strip(elements[0])), elements)])
  {
    SplitOfPiece(p, segTerm);
  }

  /** Whitespace-only text, such as a newline after the last terminator,
      yields no segment. */
  lemma TokenizeBlank(w: string, eleSep: char, segTerm: char)
    requires forall i :: 0 <= i < |w| ==> IsSpace(w[i])
    ensures Tokenize(w, eleSep, segTerm) == []
  {
    var pieces := Split(w, segTerm);
    SplitChars(w, segTerm);
    BlankPieces(pieces, w, eleSep, segTerm);
  }

  lemma {:induction false} BlankPieces(pieces: seq<string>, w: string, eleSep: char, segTerm: char)
    requires forall i :: 0 <= i < |w| ==> IsSpace(w[i])
    requires forall i, d :: 0 <= i < |pieces| && d in pieces[i] ==> d in w
    ensures SegmentsOf(pieces, eleSep, segTerm) == []
  {
    if pieces != [] {
      var p := pieces[0];
      assert Strip(p) == [] by {
        StripShape(p);
        forall k | 0 <= k < |p|
          ensures IsSpace(p[k])
        {
          assert p[k] in p;
          assert p[k] in w;
          var m :| 0 <= m < |w| && w[m] == p[k];
        }
      }
      BlankPieces(pieces[1..], w, eleSep, segTerm);
      assert pieces == [p] + pieces[1..];
      SomesConcat((p: string) => SegmentOf(p, eleSep, segTerm), [p], pieces[1..]);
    }
  }

  /** A trailing terminator followed by whitespace adds no segment. */
  lemma TrailingTerminator(x: string, w: string, eleSep: char, segTerm: char)
    requires forall i :: 0 <= i < |w| ==> IsSpace(w[i])
    ensures Tokenize(x + [segTerm] + w, eleSep, segTerm) == Tokenize(x, eleSep, segTerm)
  {
    TokenizeConcat(x, w, eleSep, segTerm);
    TokenizeBlank(w, eleSep, segTerm);
  }

  /** The segments and delimiters `read_x12_segments` returns. */
  datatype Reading = Reading(segments: seq<Segment>, eleSep: char, segTerm: char)

  /** Delimiter detection, then tokenizing from the start of the X12 data. */
  function ReadSegments(content: string): (r: Result<Reading, TranslationError>)
    ensures r.Failure? <==> Detect(content).Failure?
    ensures r.Failure? ==> r.error == Detect(content).error
    ensures r.Success? ==>
      && r.value.eleSep == Detect(content).value.eleSep
      && r.value.segTerm == Detect(content).value.segTerm
      && r.value.segments == Tokenize(content[Detect(content).value.start..], r.value.eleSep, r.value.segTerm)
      && forall i :: 0 <= i < |r.value.segments| ==> WellFormed(r.value.segments[i], r.value.eleSep, r.value.segTerm)
  {
    var d :- Detect(content);
    Success(Reading(Tokenize(content[d.start..], d.eleSep, d.segTerm), d.eleSep, d.segTerm))
  }
}

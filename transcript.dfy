/**
 * The transcript join in `extract_transcript_details`: the `text` field of
 * every segment the transcript service returns, in order, joined by
 * `" ".join`, so consecutive texts are separated by exactly one space and
 * timing information is dropped.
 */
module Transcript {

  /** One timed caption entry as the transcript service returns it. */
  datatype Segment = Segment(text: string, start: real, duration: real)

  /** The total number of characters in `texts`. */
  function TotalLength(texts: seq<string>): nat {
    if |texts| == 0 then 0 else |texts[0]| + TotalLength(texts[1..])
  }

  /** Where `texts[i]` begins in the joined string: the texts before it plus one space after each. */
  function Offset(texts: seq<string>, i: nat): nat
    requires i <= |texts|
  {
    TotalLength(texts[..i]) + i
  }

  /** `" ".join(texts)`. */
  function Join(texts: seq<string>): (r: string)
    ensures |texts| == 0 ==> r == ""
    ensures |texts| > 0 ==> |r| == TotalLength(texts) + |texts| - 1
  {
    if |texts| == 0 then ""
    else if |texts| == 1 then texts[0]
    else texts[0] + " " + Join(texts[1..])
  }

  /** `[t["text"] for t in transcript_list]`: the texts in order, timing dropped. */
  function Texts(segments: seq<Segment>): (texts: seq<string>)
    ensures |texts| == |segments|
    ensures forall i :: 0 <= i < |segments| ==> texts[i] == segments[i].text
  {
    seq(|segments|, i requires 0 <= i < |segments| => segments[i].text)
  }

  /**
   * The transcript text built from the fetched segments: every segment's text,
   * unchanged and in order, at its offset, with a single space before each one
   * after the first, and nothing else.
   */
  function TranscriptText(segments: seq<Segment>): (r: string)
    ensures |segments| == 0 ==> r == ""
    ensures |segments| > 0 ==> |r| == TotalLength(Texts(segments)) + |segments| - 1
    ensures forall i :: 0 <= i < |segments| ==>
              Offset(Texts(segments), i) + |segments[i].text| <= |r| &&
              r[Offset(Texts(segments), i)..Offset(Texts(segments), i) + |segments[i].text|] == segments[i].text &&
              (i > 0 ==> r[Offset(Texts(segments), i) - 1] == ' ')
  {
    JoinAllSegments(Texts(segments));
    Join(Texts(segments))
  }

  /** `JoinSegmentAt` for every text at once. */
  lemma JoinAllSegments(texts: seq<string>)
    ensures forall i :: 0 <= i < |texts| ==>
              Offset(texts, i) + |texts[i]| <= |Join(texts)| &&
              Join(texts)[Offset(texts, i)..Offset(texts, i) + |texts[i]|] == texts[i] &&
              (i > 0 ==> Join(texts)[Offset(texts, i) - 1] == ' ')
  {
    forall i | 0 <= i < |texts|
      ensures Offset(texts, i) + |texts[i]| <= |Join(texts)|
      ensures Join(texts)[Offset(texts, i)..Offset(texts, i) + |texts[i]|] == texts[i]
      ensures i > 0 ==> Join(texts)[Offset(texts, i) - 1] == ' '
    {
      JoinSegmentAt(texts, i);
    }
  }

  /** Splitting the list after its head moves the offset of a later text by the head's length and one space. */
  lemma OffsetTail(texts: seq<string>, i: nat)
    requires 0 < i <= |texts|
    ensures Offset(texts, i) == |texts[0]| + 1 + Offset(texts[1..], i - 1)
  {
    assert texts[..i][1..] == texts[1..][..i - 1];
  }

  /**
   * Each text appears in the joined string, unchanged and in order, at its offset,
   * and every text after the first is preceded by a single space.
   */
  lemma {:induction false} JoinSegmentAt(texts: seq<string>, i: nat)
    requires i < |texts|
    ensures Offset(texts, i) + |texts[i]| <= |Join(texts)|
    ensures Join(texts)[Offset(texts, i)..Offset(texts, i) + |texts[i]|] == texts[i]
    ensures i > 0 ==> Join(texts)[Offset(texts, i) - 1] == ' '
  {
    if i == 0 {
      JoinHead(texts);
    } else {
      var tail := texts[1..];
      JoinSegmentAt(tail, i - 1);
      OffsetTail(texts, i);
      var head := texts[0] + " ";
      assert Join(texts) == head + Join(tail);
      JoinShift(head, Join(tail), Offset(tail, i - 1), |texts[i]|);
      if i == 1 {
        JoinHead(tail);
        assert Join(texts)[|head| - 1] == head[|head| - 1] == ' ';
      }
    }
  }

  /** The first text begins the joined string. */
  lemma JoinHead(texts: seq<string>)
    requires 0 < |texts|
    ensures Offset(texts, 0) == 0
    ensures |texts[0]| <= |Join(texts)| && Join(texts)[0..|texts[0]|] == texts[0]
  {
    assert texts[..0] == [];
    if |texts| > 1 {
      assert Join(texts) == texts[0] + (" " + Join(texts[1..]));
    }
  }

  /** Indexing into `head + s` past the head is indexing into `s`. */
  lemma JoinShift(head: string, s: string, o: nat, n: nat)
    requires 0 < |head| && o + n <= |s|
    ensures (head + s)[|head| + o..|head| + o + n] == s[o..o + n]
    ensures o > 0 ==> (head + s)[|head| + o - 1] == s[o - 1]
  {
  }

  /** The joined transcript is empty exactly when there is no text or a single empty one. */
  lemma JoinEmptyIff(texts: seq<string>)
    ensures Join(texts) == "" <==> (|texts| == 0 || (|texts| == 1 && texts[0] == ""))
  {
  }

  /** Joining two non-empty lists puts one space between their joins. */
  lemma {:induction false} JoinAppend(a: seq<string>, b: seq<string>)
    requires |a| > 0 && |b| > 0
    ensures Join(a + b) == Join(a) + " " + Join(b)
  {
    if |a| == 1 {
      assert (a + b)[1..] == b;
    } else {
      assert (a + b)[1..] == a[1..] + b;
      JoinAppend(a[1..], b);
    }
  }

  /** The service's two segments "a" and "b" give the transcript "a b". */
  lemma TwoSegmentsExample(s1: real, d1: real, s2: real, d2: real)
    ensures TranscriptText([Segment("a", s1, d1), Segment("b", s2, d2)]) == "a b"
  {
    var texts := Texts([Segment("a", s1, d1), Segment("b", s2, d2)]);
    assert texts == ["a", "b"];
    assert texts[1..] == ["b"];
    assert Join(texts) == "a" + " " + Join(["b"]);
    assert "a" + " " + "b" == "a b";
  }
}

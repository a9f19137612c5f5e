/**
 GELF over TCP frames each JSON document with one trailing NUL byte; the
 receiver splits the stream on NUL. `Deframe` is that receiver, the partner of
 `Frame`: it recovers the documents of a stream of frames, and a frame cut
 short by a partial write adds no document.
 */
module Framing {
  import opened Octets

  /** The bytes `append` passes to `fwrite`: the JSON text and one NUL. */
  function Frame(json: Bytes): (f: Bytes)
    ensures |f| == |json| + 1 && f[|json|] == NUL && f[..|json|] == json
  {
    json + [NUL]
  }

  /** The frames of several documents, written back to back on one connection. */
  function Stream(docs: seq<Bytes>): Bytes {
    if docs == [] then [] else Frame(docs[0]) + Stream(docs[1..])
  }

  /** The position of the first NUL byte, or |s| when there is none. */
  function FirstNul(s: Bytes): (i: nat)
    ensures i <= |s| && NoNul(s[..i])
    ensures i < |s| ==> s[i] == NUL
  {
    if s == [] || s[0] == NUL then 0 else 1 + FirstNul(s[1..])
  }

  /** The receiver: every NUL-terminated piece, in order; a trailing piece with no NUL is not yet a document. */
  function Deframe(s: Bytes): (docs: seq<Bytes>)
    ensures forall k | 0 <= k < |docs| :: NoNul(docs[k])
    decreases |s|
  {
    var i := FirstNul(s);
    if i == |s| then [] else [s[..i]] + Deframe(s[i + 1..])
  }

  lemma {:induction false} FirstNulOfFrame(doc: Bytes, rest: Bytes)
    requires NoNul(doc)
    ensures FirstNul(Frame(doc) + rest) == |doc|
  {
    if doc != [] {
      assert (Frame(doc) + rest)[1..] == Frame(doc[1..]) + rest;
      FirstNulOfFrame(doc[1..], rest);
    }
  }

  /**
   Round trip: documents without a NUL byte, framed and written back to back,
   are split by the receiver into exactly those documents, whatever unfinished
   bytes without a NUL follow them.
   */
  lemma {:induction false} DeframeStream(docs: seq<Bytes>, tail: Bytes)
    requires forall k | 0 <= k < |docs| :: NoNul(docs[k])
    requires NoNul(tail)
    ensures Deframe(Stream(docs) + tail) == docs
  {
    if docs == [] {
      assert FirstNul(tail) == |tail|;
    } else {
      var s := Stream(docs) + tail;
      var d := docs[0];
      assert s == Frame(d) + (Stream(docs[1..]) + tail);
      FirstNulOfFrame(d, Stream(docs[1..]) + tail);
      assert s[..|d|] == d;
      assert s[|d| + 1..] == Stream(docs[1..]) + tail;
      DeframeStream(docs[1..], tail);
    }
  }

  /** A frame cut before its terminator holds no NUL byte. */
  lemma CutFrameHasNoNul(doc: Bytes, n: nat)
    requires NoNul(doc) && n <= |doc|
    ensures NoNul(Frame(doc)[..n])
  {
    var cut := Frame(doc)[..n];
    forall i | 0 <= i < |cut| ensures cut[i] != NUL {
      assert cut[i] == doc[i];
    }
  }

  /**
   A write that stops before the terminator delivers nothing: the receiver
   sees the documents framed before it and no more. This is why `append`
   treats a short write as a fault.
   */
  lemma PartialFrameDeliversNothing(docs: seq<Bytes>, doc: Bytes, n: nat)
    requires forall k | 0 <= k < |docs| :: NoNul(docs[k])
    requires NoNul(doc) && n < |Frame(doc)|
    ensures Deframe(Stream(docs) + Frame(doc)[..n]) == docs
  {
    CutFrameHasNoNul(doc, n);
    DeframeStream(docs, Frame(doc)[..n]);
  }

  /** A complete frame delivers its document: the single-frame round trip. */
  lemma FrameRoundTrip(doc: Bytes)
    requires NoNul(doc)
    ensures Deframe(Frame(doc)) == [doc]
  {
    assert Stream([doc]) + [] == Frame(doc);
    DeframeStream([doc], []);
  }
}

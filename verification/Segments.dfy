/** Message elements, the wire segments built from them, and the way back
    (adapter/messenger.go, adapter/message.go). */
module Segments {
  import opened Common
  import Decimal

  /** A value in a segment's data map. Building a segment stores strings and int32 only. */
  datatype Value = Str(s: string) | Int(n: int32)

  /** The element fields that reach the wire. OtherElement is any element kind the
      segment builder has no case for. */
  datatype Element =
    | TextElement(content: string)
    | AtElement(target: int64)
    | FaceElement(index: int32)
    | ImageElement(imageFile: string, imageUrl: string)
    | VoiceElement(voiceName: string, voiceUrl: string)
    | ReplyElement(replySeq: int32)
    | ForwardElement(resId: string)
    | JsonElement(json: string)
    | FileElement(fileName: string, fileId: string, fileUrl: string, path: string)
    | VideoElement(videoName: string, videoUrl: string)
    | OtherElement

  datatype Segment =
    | Text(text: string)
    | At(qq: Value)
    | Face(face: Value)
    | Image(file: string, url: string)
    | Record(name: string, file: string)
    | Reply(reply: Value)
    | Forward(forward: string)
    | Json(data: string)
    | File(name: string, id: string, url: string, file: string)
    | Video(name: string, file: string)

  function SegmentOf(e: Element): Option<Segment> {
    match e
    case TextElement(content) => Some(Text(content))
    case AtElement(target) => Some(At(Str(if target != 0 then Decimal.FormatInt(target) else "all")))
    case FaceElement(index) => Some(Face(Int(index)))
    case ImageElement(file, url) => Some(Image(if file == "" then url else file, url))
    case VoiceElement(name, url) => Some(Record(name, url))
    case ReplyElement(seqNo) => Some(Reply(Int(seqNo)))
    case ForwardElement(resId) => Some(Forward(resId))
    case JsonElement(json) => Some(Json(json))
    case FileElement(name, id, url, path) => Some(File(name, id, url, path))
    case VideoElement(name, url) => Some(Video(name, url))
    case OtherElement => None
  }

  function SegmentsOf(es: seq<Element>): seq<Segment> {
    if es == [] then [] else
    var rest := SegmentsOf(es[1..]);
    match SegmentOf(es[0])
    case None => rest
    case Some(seg) => [seg] + rest
  }

  lemma {:induction false} SegmentsOfAppend(es: seq<Element>, e: Element)
    ensures SegmentsOf(es + [e]) ==
            SegmentsOf(es) + (match SegmentOf(e) case None => [] case Some(seg) => [seg])
  {
    if es == [] {
      assert es + [e] == [e];
    } else {
      assert (es + [e])[1..] == es[1..] + [e];
      SegmentsOfAppend(es[1..], e);
    }
  }

  method BuildMessageSegments(es: seq<Element>) returns (segments: seq<Segment>)
    ensures segments == SegmentsOf(es)
  {
    segments := [];
    for i := 0 to |es|
      invariant segments == SegmentsOf(es[..i])
    {
      match SegmentOf(es[i]) {
        case None =>
        case Some(seg) => segments := segments + [seg];
      }
      assert es[..i + 1] == es[..i] + [es[i]];
      SegmentsOfAppend(es[..i], es[i]);
    }
    assert es[..|es|] == es;
  }

  /** getString on a stored value. */
  function TextOfValue(v: Value): string {
    match v
    case Str(s) => s
    case Int(n) => Decimal.FormatInt(n)
  }

  /** The reverse conversion. Only a string (or a float64, which is never built here) is
      recognised as an at or face id; an int32 falls through to zero. */
  function ElementOf(seg: Segment): Element {
    match seg
    case Text(text) => TextElement(text)
    case At(Str(qq)) =>
      AtElement(if qq == "all" then 0 else match Decimal.ParseInt(qq) case Some(n) => n case None => 0)
    case At(Int(_)) => AtElement(0)
    case Face(Str(id)) => FaceElement(match Decimal.ParseInt(id) case Some(n) => ToInt32(n) case None => 0)
    case Face(Int(_)) => FaceElement(0)
    case Image(file, url) => ImageElement(file, url)
    case Record(name, file) => VoiceElement(name, file)
    case Reply(v) => ReplyElement(match Decimal.ParseInt(TextOfValue(v)) case Some(n) => ToInt32(n) case None => 0)
    case Json(data) => JsonElement(data)
    case Forward(id) => ForwardElement(id)
    case File(name, id, url, file) => FileElement(name, id, url, file)
    case Video(name, file) => VideoElement(name, file)
  }

  function ElementsOf(chunk: seq<Segment>): (es: seq<Element>)
    ensures |es| == |chunk|
    ensures forall i | 0 <= i < |chunk| :: es[i] == ElementOf(chunk[i])
  {
    if chunk == [] then [] else [ElementOf(chunk[0])] + ElementsOf(chunk[1..])
  }

  method ParseChunkToElements(chunk: seq<Segment>) returns (elements: seq<Element>)
    ensures elements == ElementsOf(chunk)
  {
    elements := [];
    for i := 0 to |chunk|
      invariant |elements| == i
      invariant forall k | 0 <= k < i :: elements[k] == ElementOf(chunk[k])
    {
      elements := elements + [ElementOf(chunk[i])];
    }
  }

  /** Segments that SegmentOf can produce. */
  ghost predicate Built(seg: Segment) {
    exists e: Element :: SegmentOf(e) == Some(seg)
  }

  ghost predicate AllBuilt(segs: seq<Segment>) {
    forall i | 0 <= i < |segs| :: Built(segs[i])
  }

  lemma {:induction false} SegmentsAreBuilt(es: seq<Element>)
    ensures AllBuilt(SegmentsOf(es))
  {
    if es != [] {
      SegmentsAreBuilt(es[1..]);
    }
  }

  predicate LostFace(seg: Segment) {
    seg.Face? && seg.face != Int(0)
  }

  /** What a segment becomes when it is turned into an element and rebuilt. */
  function Rewired(seg: Segment): Segment {
    if seg.Face? then Face(Int(0)) else seg
  }

  function RewiredAll(segs: seq<Segment>): (r: seq<Segment>)
    ensures |r| == |segs|
    ensures forall i | 0 <= i < |segs| :: r[i] == Rewired(segs[i])
  {
    seq(|segs|, i requires 0 <= i < |segs| => Rewired(segs[i]))
  }

  lemma {:induction false} OneSegmentRewired(seg: Segment)
    requires Built(seg)
    ensures SegmentOf(ElementOf(seg)) == Some(Rewired(seg))
  {
    var e: Element :| SegmentOf(e) == Some(seg);
    if e.AtElement? {
      Decimal.ParseAfterFormat(e.target);
    } else if e.ReplyElement? {
      Decimal.ParseAfterFormat(e.replySeq);
    }
  }

  /** What an element is after it went to the wire and back. */
  function Settled(e: Element): Element {
    match e
    case FaceElement(_) => FaceElement(0)
    case ImageElement(file, url) => ImageElement(if file == "" then url else file, url)
    case _ => e
  }

  /** From elements to segments and back: every element that has a segment comes back as it was, but for the id of a
      face and the missing file name of a picture. */
  lemma {:induction false} ElementsSurvive(e: Element)
    ensures SegmentOf(e).Some? <==> e != OtherElement
    ensures SegmentOf(e).Some? ==> ElementOf(SegmentOf(e).value) == Settled(e)
    ensures Settled(e) == e <==>
      !(e.FaceElement? && e.index != 0) && !(e.ImageElement? && e.imageFile == "" != e.imageUrl)
  {
    if e.AtElement? {
      Decimal.ParseAfterFormat(e.target);
    } else if e.ReplyElement? {
      Decimal.ParseAfterFormat(e.replySeq);
    }
  }

  /** A mention is of everybody exactly if its target is 0, and otherwise names the target in digits. */
  lemma {:induction false} EverybodyIff(target: int64)
    ensures SegmentOf(AtElement(target)) == Some(At(Str("all"))) <==> target == 0
    ensures target != 0 ==>
      exists qq :: SegmentOf(AtElement(target)) == Some(At(Str(qq))) && Decimal.ParseInt(qq) == Some(target)
  {
    Decimal.ParseAfterFormat(target);
  }

  /** A mention of any text is of the number it is, and of everybody if it is none. */
  lemma {:induction false} AnyMention(qq: string)
    ensures ElementOf(At(Str(qq))) == AtElement(if Decimal.ParseInt(qq).Some? then Decimal.ParseInt(qq).value else 0)
  {
    if qq == "all" { assert !Decimal.IsDigit(qq[0]); }
  }

  /** A face or reply of any text is of the 32-bit number it is, and of 0 if it is none; a number that is stored as one
      is read only of a reply. */
  lemma {:induction false} AnyFaceOrReply(text: string, n: int32)
    ensures
      var number := if Decimal.ParseInt(text).Some? then ToInt32(Decimal.ParseInt(text).value) else 0;
      ElementOf(Face(Str(text))) == FaceElement(number) && ElementOf(Reply(Str(text))) == ReplyElement(number)
    ensures ElementOf(Reply(Int(n))) == ReplyElement(n)
    ensures ElementOf(At(Int(n))) == AtElement(0) && ElementOf(Face(Int(n))) == FaceElement(0)
  {
    hide Decimal.ParseInt, Decimal.FormatInt;
    Decimal.ParseAfterFormat(n);
  }

  /** The source a picture, voice, file or video is fetched from goes out in the field the protocol reads it from. */
  lemma WireSources(e: Element, seg: Segment)
    requires SegmentOf(e) == Some(seg)
    ensures e.ImageElement? <==> seg.Image?
    ensures e.ImageElement? ==> seg.url == e.imageUrl && (seg.file == e.imageFile || e.imageFile == "")
    ensures e.ImageElement? && (e.imageFile != "" || e.imageUrl != "") ==> seg.file != ""
    ensures e.VoiceElement? ==> seg.Record? && seg.file == e.voiceUrl && seg.name == e.voiceName
    ensures e.VideoElement? ==> seg.Video? && seg.file == e.videoUrl && seg.name == e.videoName
    ensures e.FileElement? ==>
      seg.File? && seg.file == e.path && seg.url == e.fileUrl && seg.id == e.fileId && seg.name == e.fileName
  {
  }

  /** Wire fidelity: converting built segments to elements and back changes nothing except that
      every face id becomes 0. */
  lemma {:induction false} RewireRoundTrip(chunk: seq<Segment>)
    requires AllBuilt(chunk)
    ensures SegmentsOf(ElementsOf(chunk)) == RewiredAll(chunk)
  {
    if chunk == [] {
    } else {
      assert Built(chunk[0]);
      OneSegmentRewired(chunk[0]);
      assert ElementsOf(chunk)[1..] == ElementsOf(chunk[1..]);
      RewireRoundTrip(chunk[1..]);
      assert RewiredAll(chunk) == [Rewired(chunk[0])] + RewiredAll(chunk[1..]);
    }
  }

  /** The exact condition for a chunk to go out as first built: no face with a non-zero id. */
  lemma {:induction false} WireFidelity(chunk: seq<Segment>)
    requires AllBuilt(chunk)
    ensures SegmentsOf(ElementsOf(chunk)) == chunk <==> forall i | 0 <= i < |chunk| :: !LostFace(chunk[i])
  {
    RewireRoundTrip(chunk);
    if forall i | 0 <= i < |chunk| :: !LostFace(chunk[i]) {
      assert RewiredAll(chunk) == chunk;
    } else {
      var i :| 0 <= i < |chunk| && LostFace(chunk[i]);
      assert RewiredAll(chunk)[i] != chunk[i];
    }
  }

  /** A face is sent with id 0 whatever its index was. */
  lemma {:induction false} FaceIdIsLost()
    ensures SegmentsOf(ElementsOf(SegmentsOf([FaceElement(14)]))) == [Face(Int(0))]
    ensures SegmentsOf([FaceElement(14)]) == [Face(Int(14))]
  {
    assert SegmentsOf([FaceElement(14)]) == [Face(Int(14))];
    assert SegmentsOf([FaceElement(0)]) == [Face(Int(0))];
    assert ElementsOf([Face(Int(14))]) == [FaceElement(0)];
  }
}

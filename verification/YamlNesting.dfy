/** Well-nested event words: what may follow what, as a stack of open frames. */
module YamlNesting {
  import opened Basics
  import opened YamlGraph

  datatype StreamEvent = NoEvent | StreamStart | StreamEnd | In(event: Event)

  /** What is open, outermost first. A mapping waits for a key or for a value; a document has its root node or not. */
  datatype Frame = InStream | StreamDone | DocumentRoot | DocumentDone | InSequence | MappingKey | MappingValue

  predicate TakesNode(f: Frame) {
    f == DocumentRoot || f == InSequence || f == MappingKey || f == MappingValue
  }

  /** The frame after one more node. */
  function Advance(f: Frame): Frame {
    match f
    case DocumentRoot => DocumentDone
    case MappingKey => MappingValue
    case MappingValue => MappingKey
    case _ => f
  }

  function Top(s: seq<Frame>): Frame
    requires s != []
  {
    s[|s| - 1]
  }

  function AdvanceTop(s: seq<Frame>): (r: seq<Frame>)
    requires s != []
    ensures |r| == |s|
  {
    s[..|s| - 1] + [Advance(Top(s))]
  }

  /** The frames after an event, if the event is allowed. */
  function Accept(s: seq<Frame>, e: StreamEvent): Option<seq<Frame>> {
    match e
    case NoEvent => None
    case StreamStart => if s == [] then Some([InStream]) else None
    case StreamEnd => if s == [InStream] then Some([StreamDone]) else None
    case In(e) =>
      if s == [] then None
      else
        match e
        case DocumentStart => if s == [InStream] then Some([InStream, DocumentRoot]) else None
        case DocumentEnd => if s == [InStream, DocumentDone] then Some([InStream]) else None
        case Alias(_) => if TakesNode(Top(s)) then Some(AdvanceTop(s)) else None
        case ScalarEvent(_, _, _, _, _, _) => if TakesNode(Top(s)) then Some(AdvanceTop(s)) else None
        case SequenceStart(_, _, _, _) => if TakesNode(Top(s)) then Some(s + [InSequence]) else None
        case MappingStart(_, _, _, _) => if TakesNode(Top(s)) then Some(s + [MappingKey]) else None
        case SequenceEnd => if Top(s) == InSequence && |s| > 1 then Some(AdvanceTop(s[..|s| - 1])) else None
        case MappingEnd => if Top(s) == MappingKey && |s| > 1 then Some(AdvanceTop(s[..|s| - 1])) else None
  }

  /** The frames after a word; None if some event is not allowed. */
  function AcceptFrom(s: seq<Frame>, w: seq<StreamEvent>): Option<seq<Frame>> {
    if w == [] then Some(s)
    else
      match AcceptFrom(s, w[..|w| - 1])
      case None => None
      case Some(t) => Accept(t, w[|w| - 1])
  }

  /** The frames after a word from the start of the stream. */
  function AcceptAll(w: seq<StreamEvent>): Option<seq<Frame>> {
    AcceptFrom([], w)
  }

  lemma {:induction false} AcceptConcat(s: seq<Frame>, v: seq<StreamEvent>, w: seq<StreamEvent>)
    ensures AcceptFrom(s, v + w)
         == match AcceptFrom(s, v) case None => None case Some(t) => AcceptFrom(t, w)
  {
    hide Accept;
    if w == [] {
      assert v + w == v;
    } else {
      assert (v + w)[..|v + w| - 1] == v + w[..|w| - 1];
      AcceptConcat(s, v, w[..|w| - 1]);
    }
  }

  lemma AcceptOne(s: seq<Frame>, e: StreamEvent)
    ensures AcceptFrom(s, [e]) == Accept(s, e)
  {
    hide Accept;
    assert [e][..0] == [];
  }
}

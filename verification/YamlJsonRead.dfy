/** Reading the bridge's output as JSON (RFC 8259) gives back the documents. */
module YamlJsonRead {
  import opened Basics
  import opened YamlGraph
  import opened YamlTrees
  import opened YamlJson
  import opened YamlNesting
  import P = YamlParser
  import G = YamlGrammar
  import V = YamlPresent
  import W = YamlTokens

  datatype JsonValue = Null | Text(text: string) | Array(items: seq<JsonValue>) | Object(members: seq<(string, JsonValue)>)

  // ----- a reader, for texts without white space

  function HexOf(c: char): int {
    if '0' <= c <= '9' then c as int - '0' as int
    else if 'a' <= c <= 'f' then c as int - 'a' as int + 10
    else if 'A' <= c <= 'F' then c as int - 'A' as int + 10
    else -1
  }

  function At(t: string, i: nat): Option<char> {
    if i < |t| then Some(t[i]) else None
  }

  /** The character after a backslash at i; the characters of \u up to #xFF are enough here. */
  function ReadEscape(t: string, i: nat): Option<(char, nat)> {
    match At(t, i)
    case None => None
    case Some(c) =>
      if c == '"' || c == '\\' || c == '/' then Some((c, i + 1))
      else if c == 'b' then Some((0x08 as char, i + 1))
      else if c == 'f' then Some((0x0C as char, i + 1))
      else if c == 'n' then Some(('\n', i + 1))
      else if c == 'r' then Some(('\r', i + 1))
      else if c == 't' then Some(('\t', i + 1))
      else if (c == 'u' && i + 5 <= |t| && t[i + 1] == '0' && t[i + 2] == '0' && HexOf(t[i + 3]) >= 0 && HexOf(t[i + 4]) >= 0)
      then Some(((HexOf(t[i + 3]) * 16 + HexOf(t[i + 4])) as char, i + 5))
      else None
  }

  /** The rest of a string and the position behind its closing quote. Control characters must be escaped. */
  function ReadString(t: string, i: nat): (r: Option<(string, nat)>)
    ensures r.Some? ==> i < r.value.1 <= |t|
    decreases |t| - i
  {
    match At(t, i)
    case None => None
    case Some(c) =>
      if c == '"' then Some(("", i + 1))
      else if c as int < 0x20 then None
      else
        var first := if c == '\\' then ReadEscape(t, i + 1) else Some((c, i + 1));
        if first == None || first.value.1 > |t| then None
        else
          match ReadString(t, first.value.1)
          case None => None
          case Some((s, k)) => Some(([first.value.0] + s, k))
  }

  function ReadValue(t: string, i: nat): (r: Option<(JsonValue, nat)>)
    ensures r.Some? ==> i < r.value.1 <= |t|
    decreases |t| - i, 0
  {
    match At(t, i)
    case None => None
    case Some(c) =>
      if c == '"' then
        match ReadString(t, i + 1)
        case None => None
        case Some((s, k)) => Some((Text(s), k))
      else if c == 'n' && i + 4 <= |t| && t[i..i + 4] == "null" then Some((Null, i + 4))
      else if c == '[' then
        if At(t, i + 1) == Some(']') then Some((Array([]), i + 2))
        else
          match ReadItems(t, i + 1)
          case None => None
          case Some((s, k)) => Some((Array(s), k))
      else if c == '{' then
        if At(t, i + 1) == Some('}') then Some((Object([]), i + 2))
        else
          match ReadMembers(t, i + 1)
          case None => None
          case Some((s, k)) => Some((Object(s), k))
      else None
  }

  /** One or more values up to the closing bracket. */
  function ReadItems(t: string, i: nat): (r: Option<(seq<JsonValue>, nat)>)
    ensures r.Some? ==> i < r.value.1 <= |t|
    decreases |t| - i, 1
  {
    match ReadValue(t, i)
    case None => None
    case Some((v, k)) =>
      if At(t, k) == Some(']') then Some(([v], k + 1))
      else if At(t, k) != Some(',') then None
      else
        match ReadItems(t, k + 1)
        case None => None
        case Some((s, m)) => Some(([v] + s, m))
  }

  /** One or more members up to the closing brace. */
  function ReadMembers(t: string, i: nat): (r: Option<(seq<(string, JsonValue)>, nat)>)
    ensures r.Some? ==> i < r.value.1 <= |t|
    decreases |t| - i, 1
  {
    if At(t, i) != Some('"') then None
    else
      match ReadString(t, i + 1)
      case None => None
      case Some((name, k)) =>
        if At(t, k) != Some(':') then None
        else
          match ReadValue(t, k + 1)
          case None => None
          case Some((v, m)) =>
            if At(t, m) == Some('}') then Some(([(name, v)], m + 1))
            else if At(t, m) != Some(',') then None
            else
              match ReadMembers(t, m + 1)
              case None => None
              case Some((s, n)) => Some(([(name, v)] + s, n))
  }

  // ----- what a document means in JSON

  /** All keys are scalars. */
  predicate PlainKeys(t: Tree) {
    match t
    case Leaf(e) => IsLeaf(e)
    case Collection(start, children) =>
      && IsStart(start) && (start.MappingStart? ==> |children| % 2 == 0)
      && (forall i :: 0 <= i < |children| ==> PlainKeys(children[i]))
      && (start.MappingStart? ==> forall i :: 0 <= i < |children| && i % 2 == 0 ==> IsScalar(children[i]))
  }

  predicate IsScalar(t: Tree) {
    t.Leaf? && t.event.ScalarEvent?
  }

  function NameOf(t: Tree): string {
    if IsScalar(t) then t.event.value else ""
  }

  function Meaning(t: Tree): JsonValue
    decreases t
  {
    match t
    case Leaf(e) => if e.ScalarEvent? then Text(e.value) else Null
    case Collection(start, children) =>
      if start.SequenceStart? then Array(ItemsFrom(children, 0)) else Object(MembersFrom(children, 0))
  }

  function ItemsFrom(ts: seq<Tree>, k: nat): seq<JsonValue>
    requires k <= |ts|
    decreases ts, |ts| - k
  {
    if k == |ts| then [] else [Meaning(ts[k])] + ItemsFrom(ts, k + 1)
  }

  function MembersFrom(ts: seq<Tree>, k: nat): seq<(string, JsonValue)>
    requires k <= |ts|
    decreases ts, |ts| - k
  {
    if k + 1 >= |ts| then [] else [(NameOf(ts[k]), Meaning(ts[k + 1]))] + MembersFrom(ts, k + 2)
  }

  // ----- strings

  ghost predicate Holds(t: string, i: nat, x: string) {
    i + |x| <= |t| && t[i..i + |x|] == x
  }

  lemma HoldsSplit(t: string, i: nat, x: string, y: string)
    requires Holds(t, i, x + y)
    ensures Holds(t, i, x) && Holds(t, i + |x|, y)
  {
    assert t[i..i + |x + y|][..|x|] == t[i..i + |x|];
    assert t[i..i + |x + y|][|x|..] == t[i + |x|..i + |x| + |y|];
  }

  lemma HoldsAt(t: string, i: nat, x: string)
    requires Holds(t, i, x) && x != ""
    ensures At(t, i) == Some(x[0])
  {
    assert t[i..i + |x|][0] == t[i];
  }

  lemma {:induction false} CharsFront(s: string)
    requires s != ""
    ensures JsonChars(s) == JsonChar(s[0]) + JsonChars(s[1..])
  {
    hide JsonChar;
    var n := |s| - 1;
    if n == 0 {
      assert s[..0] == "" && s[1..] == "";
    } else {
      CharsFront(s[..n]);
      assert s[..n][1..] == s[1..][..n - 1];
    }
  }

  lemma HexRoundTrip(d: nat)
    requires d < 16
    ensures HexOf(HexDigit(d)) == d
  {
  }

  /** One character or its escape. */
  lemma CharRead(t: string, i: nat, c: char)
    requires Holds(t, i, JsonChar(c))
    ensures JsonChar(c)[0] != '"' && JsonChar(c)[0] as int >= 0x20 && At(t, i) == Some(JsonChar(c)[0])
    ensures if JsonChar(c)[0] == '\\' then ReadEscape(t, i + 1) == Some((c, i + |JsonChar(c)|)) else JsonChar(c) == [c]
  {
    hide HexDigit;
    var x := JsonChar(c);
    HoldsAt(t, i, x);
    if |x| > 1 {
      HoldsSplit(t, i, x[..1], x[1..]);
      assert x[..1] + x[1..] == x;
      HoldsAt(t, i + 1, x[1..]);
    }
    if |x| == 6 {
      HexRoundTrip(c as int / 16);
      HexRoundTrip(c as int % 16);
      assert t[i..i + 6][2] == t[i + 2] && t[i..i + 6][3] == t[i + 3];
      assert t[i..i + 6][4] == t[i + 4] && t[i..i + 6][5] == t[i + 5];
    }
  }

  lemma NoChars()
    ensures JsonChars("") == ""
  {
  }

  lemma StringEnds(t: string, i: nat)
    requires At(t, i) == Some('"')
    ensures ReadString(t, i) == Some(("", i + 1))
  {
  }

  /** A string that begins with the escape of a character reads as that character and the rest. */
  lemma StringGoesOn(t: string, i: nat, c: char)
    requires Holds(t, i, JsonChar(c))
    ensures ReadString(t, i) ==
            match ReadString(t, i + |JsonChar(c)|) case None => None case Some((s, j)) => Some(([c] + s, j))
  {
    hide JsonChar, ReadEscape, Holds;
    CharRead(t, i, c);
  }

  /** A quoted string reads back as itself, whatever follows it. */
  lemma {:induction false} StringRead(t: string, i: nat, s: string)
    requires Holds(t, i, JsonChars(s) + "\"")
    ensures ReadString(t, i) == Some((s, i + |JsonChars(s)| + 1))
    decreases |s|
  {
    hide JsonChar, JsonChars, Holds, ReadEscape, ReadString;
    if s == "" {
      assert JsonChars("") == "" by { NoChars(); }
      assert JsonChars(s) + "\"" == "\"";
      HoldsAt(t, i, "\"");
      StringEnds(t, i);
    } else {
      var x, y := JsonChar(s[0]), JsonChars(s[1..]) + "\"";
      CharsFront(s);
      assert JsonChars(s) + "\"" == x + y;
      HoldsSplit(t, i, x, y);
      CharRead(t, i, s[0]);
      StringRead(t, i + |x|, s[1..]);
      StringGoesOn(t, i, s[0]);
      assert [s[0]] + s[1..] == s;
    }
  }

  // ----- trees

  /** What is printed from child k on. */
  function PrintFrom(mapping: bool, ts: seq<Tree>, k: nat): string
    requires k <= |ts|
    decreases |ts| - k
  {
    if k == |ts| then "" else Mark(mapping, k) + Print(ts[k]) + PrintFrom(mapping, ts, k + 1)
  }

  lemma {:induction false} PrintFromSplits(mapping: bool, ts: seq<Tree>, k: nat)
    requires k <= |ts|
    ensures PrintAll(mapping, ts) == PrintAll(mapping, ts[..k]) + PrintFrom(mapping, ts, k)
    decreases |ts| - k
  {
    hide Print, Mark;
    if k < |ts| {
      PrintFromSplits(mapping, ts, k + 1);
      assert ts[..k + 1][..k] == ts[..k];
      assert PrintAll(mapping, ts[..k + 1]) == PrintAll(mapping, ts[..k]) + Mark(mapping, k) + Print(ts[k]);
    } else {
      assert ts[..k] == ts;
    }
  }

  ghost predicate EachRead(ts: seq<Tree>) {
    forall i: nat, t: string, p: nat :: i < |ts| && Holds(t, p, Print(ts[i]))
      ==> ReadValue(t, p) == Some((Meaning(ts[i]), p + |Print(ts[i])|))
  }

  /** One child and the character behind it. */
  lemma ChildRead(ts: seq<Tree>, k: nat, t: string, p: nat, rest: string)
    requires k < |ts| && EachRead(ts) && Holds(t, p, Print(ts[k]) + rest) && rest != ""
    ensures ReadValue(t, p) == Some((Meaning(ts[k]), p + |Print(ts[k])|))
    ensures Holds(t, p + |Print(ts[k])|, rest) && At(t, p + |Print(ts[k])|) == Some(rest[0])
  {
    hide Print, ReadValue, Meaning;
    HoldsSplit(t, p, Print(ts[k]), rest);
    HoldsAt(t, p + |Print(ts[k])|, rest);
  }

  /** The items from k on, with the comma in front of item k already read. */
  lemma {:induction false} ItemsRead(ts: seq<Tree>, k: nat, t: string, p: nat)
    requires k < |ts| && EachRead(ts)
    requires Holds(t, p, Print(ts[k]) + PrintFrom(false, ts, k + 1) + "]")
    ensures ReadItems(t, p) == Some((ItemsFrom(ts, k), p + |Print(ts[k])| + |PrintFrom(false, ts, k + 1)| + 1))
    decreases |ts| - k
  {
    hide Print, ReadValue, Meaning, EachRead, Holds;
    var x, y := Print(ts[k]), PrintFrom(false, ts, k + 1) + "]";
    assert x + PrintFrom(false, ts, k + 1) + "]" == x + y;
    ChildRead(ts, k, t, p, y);
    if k + 1 < |ts| {
      var z := Print(ts[k + 1]) + PrintFrom(false, ts, k + 2) + "]";
      assert y == "," + z;
      HoldsSplit(t, p + |x|, ",", z);
      ItemsRead(ts, k + 1, t, p + |x| + 1);
    } else {
      assert y == "]";
      assert [Meaning(ts[k])] + ItemsFrom(ts, k + 1) == [Meaning(ts[k])];
    }
  }

  /** A key with its colon. */
  lemma NameRead(key: Tree, t: string, p: nat, rest: string)
    requires IsScalar(key) && Holds(t, p, Print(key) + ":" + rest)
    ensures At(t, p) == Some('"') && ReadString(t, p + 1) == Some((NameOf(key), p + |Print(key)|))
    ensures At(t, p + |Print(key)|) == Some(':') && Holds(t, p + |Print(key)| + 1, rest)
  {
    hide Print, ReadString, JsonChars, Holds;
    var x, y := Print(key), JsonChars(key.event.value) + "\"";
    ScalarPrint(key);
    assert x + ":" + rest == x + (":" + rest);
    HoldsSplit(t, p, x, ":" + rest);
    HoldsSplit(t, p, "\"", y);
    HoldsAt(t, p, "\"");
    StringRead(t, p + 1, key.event.value);
    HoldsSplit(t, p + |x|, ":", rest);
    HoldsAt(t, p + |x|, ":");
  }

  ghost predicate KeysAreScalars(ts: seq<Tree>) {
    |ts| % 2 == 0 && forall i :: 0 <= i < |ts| && i % 2 == 0 ==> IsScalar(ts[i])
  }

  lemma EvenKey(ts: seq<Tree>, k: nat)
    requires KeysAreScalars(ts) && k % 2 == 0 && k < |ts|
    ensures IsScalar(ts[k]) && k + 1 < |ts| && (k + 2) % 2 == 0 && Mark(true, k + 1) == ":" && Mark(true, k + 2) == ","
  {
  }

  lemma LastMember(t: string, p: nat, name: string, k: nat, v: JsonValue, m: nat)
    requires At(t, p) == Some('"') && ReadString(t, p + 1) == Some((name, k)) && At(t, k) == Some(':')
    requires ReadValue(t, k + 1) == Some((v, m)) && At(t, m) == Some('}')
    ensures ReadMembers(t, p) == Some(([(name, v)], m + 1))
  {
    hide ReadString, ReadValue;
  }

  lemma OneMember(t: string, p: nat, name: string, k: nat, v: JsonValue, m: nat,
                                     rest: seq<(string, JsonValue)>, n: nat)
    requires At(t, p) == Some('"') && ReadString(t, p + 1) == Some((name, k)) && At(t, k) == Some(':')
    requires ReadValue(t, k + 1) == Some((v, m)) && At(t, m) == Some(',') && ReadMembers(t, m + 1) == Some((rest, n))
    ensures ReadMembers(t, p) == Some(([(name, v)] + rest, n))
  {
    hide ReadString, ReadValue;
  }

  /** The members from key k on, with the comma in front of it already read. */
  lemma {:induction false} MembersRead(ts: seq<Tree>, k: nat, t: string, p: nat)
    requires k < |ts| && k % 2 == 0 && EachRead(ts) && KeysAreScalars(ts)
    requires Holds(t, p, Print(ts[k]) + PrintFrom(true, ts, k + 1) + "}")
    ensures ReadMembers(t, p) == Some((MembersFrom(ts, k), p + |Print(ts[k])| + |PrintFrom(true, ts, k + 1)| + 1))
    decreases |ts| - k
  {
    hide ReadValue, Meaning, ReadString, NameOf, Print, EachRead, Holds, IsScalar, ReadMembers, KeysAreScalars, Mark, At;
    EvenKey(ts, k);
    var x, v := Print(ts[k]), Print(ts[k + 1]);
    var y := PrintFrom(true, ts, k + 2) + "}";
    assert PrintFrom(true, ts, k + 1) == ":" + v + PrintFrom(true, ts, k + 2);
    assert x + PrintFrom(true, ts, k + 1) + "}" == x + ":" + (v + y);
    NameRead(ts[k], t, p, v + y);
    ChildRead(ts, k + 1, t, p + |x| + 1, y);
    if k + 2 < |ts| {
      var z := Print(ts[k + 2]) + PrintFrom(true, ts, k + 3) + "}";
      assert y == "," + z;
      HoldsSplit(t, p + |x| + 1 + |v|, ",", z);
      MembersRead(ts, k + 2, t, p + |x| + 1 + |v| + 1);
      OneMember(t, p, NameOf(ts[k]), p + |x|, Meaning(ts[k + 1]), p + |x| + 1 + |v|, MembersFrom(ts, k + 2),
                p + |x| + 1 + |v| + 1 + |z|);
    } else {
      assert y == "}";
      LastMember(t, p, NameOf(ts[k]), p + |x|, Meaning(ts[k + 1]), p + |x| + 1 + |v|);
      var m := (NameOf(ts[k]), Meaning(ts[k + 1]));
      assert [m] + MembersFrom(ts, k + 2) == [m];
    }
  }

  lemma ScalarPrint(t: Tree)
    requires IsScalar(t)
    ensures Print(t) == "\"" + (JsonChars(t.event.value) + "\"")
  {
  }

  lemma LeafRead(e: Event, t: string, p: nat)
    requires IsLeaf(e) && Holds(t, p, Print(Leaf(e)))
    ensures ReadValue(t, p) == Some((Meaning(Leaf(e)), p + |Print(Leaf(e))|))
  {
    hide JsonChars, ReadString;
    if e.ScalarEvent? {
      var y := JsonChars(e.value) + "\"";
      ScalarPrint(Leaf(e));
      HoldsAt(t, p, "\"" + y);
      HoldsSplit(t, p, "\"", y);
      StringRead(t, p + 1, e.value);
    } else {
      HoldsAt(t, p, "null");
    }
  }

  lemma PrintNothing(mapping: bool)
    ensures PrintAll(mapping, []) == ""
  {
  }

  /** No value begins with a closing bracket. */
  lemma PrintStarts(t: Tree)
    ensures Print(t) != "" && Print(t)[0] != ']' && Print(t)[0] != '}'
  {
    hide PrintAll, JsonChars;
  }

  /** The body of a collection: nothing, or the first child and the others. */
  lemma BodyFront(mapping: bool, children: seq<Tree>)
    ensures PrintAll(mapping, children) == PrintFrom(mapping, children, 0)
    ensures children != [] ==> PrintAll(mapping, children) == Print(children[0]) + PrintFrom(mapping, children, 1)
  {
    hide Print, PrintAll;
    PrintFromSplits(mapping, children, 0);
    PrintNothing(mapping);
    assert children[..0] == [];
  }

  lemma SequenceRead(children: seq<Tree>, t: string, p: nat)
    requires EachRead(children) && Holds(t, p, "[" + PrintAll(false, children) + "]")
    ensures ReadValue(t, p) == Some((Array(ItemsFrom(children, 0)), p + |PrintAll(false, children)| + 2))
  {
    hide ReadItems, ReadMembers, ReadString, EachRead, PrintAll, Print, Holds, ItemsFrom;
    var body := PrintAll(false, children);
    assert "[" + body + "]" == "[" + (body + "]");
    HoldsSplit(t, p, "[", body + "]");
    HoldsAt(t, p, "[");
    HoldsAt(t, p + 1, body + "]");
    BodyFront(false, children);
    if children == [] {
      assert body + "]" == "]";
      NoItems();
    } else {
      PrintStarts(children[0]);
      ItemsRead(children, 0, t, p + 1);
    }
  }

  lemma NoItems()
    ensures ItemsFrom([], 0) == [] && MembersFrom([], 0) == []
  {
  }

  lemma MappingRead(children: seq<Tree>, t: string, p: nat)
    requires EachRead(children) && KeysAreScalars(children) && Holds(t, p, "{" + PrintAll(true, children) + "}")
    ensures ReadValue(t, p) == Some((Object(MembersFrom(children, 0)), p + |PrintAll(true, children)| + 2))
  {
    hide ReadItems, ReadMembers, ReadString, EachRead, PrintAll, Print, Holds, MembersFrom, KeysAreScalars;
    var body := PrintAll(true, children);
    assert "{" + body + "}" == "{" + (body + "}");
    HoldsSplit(t, p, "{", body + "}");
    HoldsAt(t, p, "{");
    HoldsAt(t, p + 1, body + "}");
    BodyFront(true, children);
    if children == [] {
      assert body + "}" == "}";
      NoItems();
    } else {
      PrintStarts(children[0]);
      MembersRead(children, 0, t, p + 1);
    }
  }

  /** A document whose keys are scalars is printed as one JSON value, which means the document. */
  lemma {:induction false} TreeRead(d: Tree, t: string, p: nat)
    requires PlainKeys(d) && Holds(t, p, Print(d))
    ensures ReadValue(t, p) == Some((Meaning(d), p + |Print(d)|))
    decreases d
  {
    hide ReadValue, ItemsFrom, MembersFrom, PrintAll, Holds;
    match d
    case Leaf(e) => LeafRead(e, t, p);
    case Collection(start, children) =>
      forall i: nat, u: string, q: nat | i < |children| && Holds(u, q, Print(children[i]))
        ensures ReadValue(u, q) == Some((Meaning(children[i]), q + |Print(children[i])|))
      {
        TreeRead(children[i], u, q);
      }
      if start.SequenceStart? {
        SequenceRead(children, t, p);
      } else {
        MappingRead(children, t, p);
      }
  }

  /** A text that is one JSON value and nothing else. */
  function ReadDocument(t: string): Option<JsonValue> {
    match ReadValue(t, 0)
    case None => None
    case Some((v, i)) => if i == |t| then Some(v) else None
  }

  lemma PrintedReads(d: Tree)
    requires PlainKeys(d)
    ensures ReadDocument(Print(d)) == Some(Meaning(d))
  {
    hide PlainKeys, Print, Meaning, ReadValue;
    TreeRead(d, Print(d), 0);
  }

  /** The events of one document are printed as that document, whatever list of documents they are read as. */
  lemma OneDocument(d: Tree, docs: seq<Tree>)
    requires Sound(d) && AllSound(docs) && StreamWord([d]) == StreamWord(docs) && MaxDepth(docs) <= MAX_DEPTH
    ensures PrintDocuments(docs) == Print(d)
  {
    hide FeedAll, StreamWord, Print;
    assert AllSound([d]);
    StreamPrinted([d]);
    StreamPrinted(docs);
    assert [d][..0] == [] && PrintDocuments([]) == "";
    assert PrintDocuments([d]) == PrintDocuments([]) + Print([d][0]);
  }

  /** The text for a stream of one document with plain keys is one JSON value, which means the document. */
  lemma OneText(docs: G.ParsedAll)
    requires docs.Some? && |docs.value.0| == 1 && AllSound(docs.value.0)
    requires PlainKeys(docs.value.0[0]) && MaxDepth(docs.value.0) <= MAX_DEPTH
    ensures JsonOf(docs).Some? && ReadDocument(JsonOf(docs).value) == Some(Meaning(docs.value.0[0]))
  {
    hide PlainKeys, Print, Meaning, ReadDocument, Sound, StreamWord;
    var d := docs.value.0[0];
    assert docs.value.0 == [d];
    OneDocument(d, [d]);
    PrintedReads(d);
  }

  /** From a tree to tokens, events, text and back to what the tree means. */
  lemma ThereAndBack(d: Tree)
    requires V.Presentable(d, true) && PlainKeys(d) && MaxDepth([d]) <= MAX_DEPTH
    ensures var text := JsonOf(G.StreamAt(W.StreamTokens([d])));
            text.Some? && ReadDocument(text.value) == Some(Meaning(d))
  {
    hide PlainKeys, V.Presentable, Meaning, ReadDocument, JsonOf, Sound, MaxDepth, G.StreamAt, W.StreamTokens;
    W.StreamRead([d]);
    V.PresentableSound(d, true);
    OneText(G.StreamAt(W.StreamTokens([d])));
  }

  /**
   * yaml_to_json and an RFC 8259 reader: if the tokens are a stream of one document whose keys are
   * scalars, and which is not nested too deep, there is a text, it is exactly one JSON value, and that
   * value means the document.
   */
  method YamlToJsonAndBack(parser: P.Parser) returns (ok: bool, value: Option<JsonValue>)
    requires parser.Valid() && parser.log == [] && !parser.error
    modifies parser
    ensures parser.Valid() && AcceptAll(parser.log).Some? && (ok ==> !parser.error)
    ensures ok <==> JsonOf(G.StreamAt(parser.tokens)).Some?
    ensures !ok ==> parser.error || TooDeep(parser.log)
    ensures forall d, next :: G.StreamAt(parser.tokens) == Some(([d], next)) && PlainKeys(d) && MaxDepth([d]) <= MAX_DEPTH
              ==> ok && value == Some(Meaning(d))
    ensures forall d :: ok && Sound(d) && PlainKeys(d) && parser.log == StreamWord([d]) ==> value == Some(Meaning(d))
  {
    hide PlainKeys, Meaning, ReadValue, Print, ReadDocument, TooDeep, AcceptAll, JsonOf, G.StreamAt;
    var text;
    ok, text := YamlToJson(parser);
    value := ReadDocument(text);
    forall d, next | G.StreamAt(parser.tokens) == Some(([d], next)) && PlainKeys(d) && MaxDepth([d]) <= MAX_DEPTH
      ensures ok && value == Some(Meaning(d))
    {
      Documented(parser.tokens);
      OneText(G.StreamAt(parser.tokens));
    }
    if ok {
      ghost var docs :| AllSound(docs) && parser.log == StreamWord(docs) && MaxDepth(docs) <= MAX_DEPTH
        && text == PrintDocuments(docs);
      forall d | Sound(d) && PlainKeys(d) && parser.log == StreamWord([d])
        ensures value == Some(Meaning(d))
      {
        OneDocument(d, docs);
        PrintedReads(d);
      }
    }
  }
}

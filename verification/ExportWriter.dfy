// The streaming JSON writer of the data export: what a sequence of its calls means as a tree, and the writer itself,
// whose file holds at every moment the bytes of the unfinished text of that tree.

module ExportTree {
  import opened Options
  import opened Json

  datatype Error = InvalidRoot | NameRequired | ArrayItemNamed | InvalidNesting | UndefinedValue | TooLarge | NoProgress

  datatype Result<+T> = Ok(value: T) | Err(error: Error)

  datatype Call =
    | StartObject(name: Option<string>)
    | EndObject
    | StartArray(key: string)
    | EndArray
    | Property(key: string, value: Option<Value>)  // None is a value that JSON.stringify leaves undefined
    | Item(value: Option<Value>)

  /** A container that is still open, with the name it will have in its parent and the children it has so far. */
  datatype Frame =
    | ArrayFrame(name: Option<string>, items: seq<Value>)
    | ObjectFrame(name: Option<string>, members: seq<(string, Value)>)
  {
    predicate Empty() {
      if ArrayFrame? then items == [] else members == []
    }

    function Closed(): Value {
      if ArrayFrame? then Array(items) else Object(members)
    }

    predicate Takes(name: Option<string>) {
      ObjectFrame? <==> name.Some?
    }

    function With(name: Option<string>, v: Value): Frame
      requires Takes(name)
    {
      if ArrayFrame? then this.(items := items + [v]) else this.(members := members + [(name.value, v)])
    }
  }

  /** The containers still open, outermost first, and the finished value once nothing is open. */
  datatype Doc = Doc(frames: seq<Frame>, root: Option<Value>)

  const EMPTY := Doc([], None)

  function Last(frames: seq<Frame>): Frame
    requires frames != []
  {
    frames[|frames| - 1]
  }

  function Outer(frames: seq<Frame>): seq<Frame>
    requires frames != []
  {
    frames[..|frames| - 1]
  }

  /** Why a value with this name cannot come next, if it cannot. */
  function Refusal(doc: Doc, name: Option<string>): Option<Error> {
    if doc.frames == [] then
      if doc.root.Some? || name.Some? then Some(InvalidRoot) else None
    else if Last(doc.frames).Takes(name) then None
    else if name.None? then Some(NameRequired) else Some(ArrayItemNamed)
  }

  function Put(doc: Doc, name: Option<string>, v: Value): Doc
    requires Refusal(doc, name).None?
  {
    if doc.frames == [] then Doc([], Some(v))
    else Doc(Outer(doc.frames) + [Last(doc.frames).With(name, v)], doc.root)
  }

  function Open(doc: Doc, frame: Frame): Result<Doc> {
    match Refusal(doc, frame.name)
    case Some(e) => Err(e)
    case None => Ok(Doc(doc.frames + [frame], doc.root))
  }

  function Close(doc: Doc, list: bool): Result<Doc> {
    if doc.frames == [] || Last(doc.frames).ArrayFrame? != list then Err(InvalidNesting)
    else
      var frame := Last(doc.frames);
      var parent := Doc(Outer(doc.frames), doc.root);
      if Refusal(parent, frame.name).None? then Ok(Put(parent, frame.name, frame.Closed())) else Err(InvalidNesting)
  }

  function Add(doc: Doc, name: Option<string>, v: Option<Value>): Result<Doc> {
    match Refusal(doc, name)
    case Some(e) => Err(e)
    case None => if v.None? then Err(UndefinedValue) else Ok(Put(doc, name, v.value))
  }

  /** What one call makes of the tree, or the error it throws. */
  function After(doc: Doc, call: Call): Result<Doc> {
    match call
    case StartObject(name) => Open(doc, ObjectFrame(name, []))
    case EndObject => Close(doc, false)
    case StartArray(key) => Open(doc, ArrayFrame(Some(key), []))
    case EndArray => Close(doc, true)
    case Property(key, v) => Add(doc, Some(key), v)
    case Item(v) => Add(doc, None, v)
  }

  /** Which calls are refused: a second root, a member without a name, an item with one, and an end of what is not open. */
  lemma RefusalsOf(doc: Doc, key: string, v: Value)
    ensures doc.frames == [] ==> After(doc, Property(key, Some(v))) == Err(InvalidRoot)
    ensures doc.frames == [] && doc.root.Some? ==> After(doc, Item(Some(v))) == Err(InvalidRoot)
    ensures doc.frames == [] && doc.root.None? ==> After(doc, Item(Some(v))) == Ok(Doc([], Some(v)))
    ensures doc.frames == [] ==> After(doc, EndObject) == Err(InvalidNesting) && After(doc, EndArray) == Err(InvalidNesting)
    ensures doc.frames != [] && Last(doc.frames).ObjectFrame? ==>
      && After(doc, Item(Some(v))) == Err(NameRequired) && After(doc, EndArray) == Err(InvalidNesting)
      && After(doc, Property(key, Some(v))).Ok? && After(doc, Property(key, None)) == Err(UndefinedValue)
    ensures doc.frames != [] && Last(doc.frames).ArrayFrame? ==>
      && After(doc, Property(key, Some(v))) == Err(ArrayItemNamed) && After(doc, EndObject) == Err(InvalidNesting)
      && After(doc, Item(Some(v))).Ok? && After(doc, Item(None)) == Err(UndefinedValue)
  {
  }

  function Run(doc: Doc, calls: seq<Call>): Result<Doc>
    decreases |calls|
  {
    if calls == [] then Ok(doc)
    else
      match After(doc, calls[0])
      case Err(e) => Err(e)
      case Ok(next) => Run(next, calls[1..])
  }

  lemma {:induction false} RunConcat(doc: Doc, a: seq<Call>, b: seq<Call>)
    requires Run(doc, a).Ok?
    ensures Run(doc, a + b) == Run(Run(doc, a).value, b)
    decreases |a|
  {
    if a == [] {
      assert a + b == b;
    } else {
      assert (a + b)[1..] == a[1..] + b;
      RunConcat(After(doc, a[0]).value, a[1..], b);
    }
  }

  // ---------------------------------------------------------------- every tree can be streamed

  /** The calls that stream a value as deep as the writer allows; an array inside an array goes out as one item. */
  function CallsFor(name: Option<string>, v: Value): (calls: seq<Call>)
    ensures calls != []
    decreases v, 1
  {
    match v
    case Object(members) => [StartObject(name)] + MemberCalls(members) + [EndObject]
    case Array(items) =>
      if name.Some? then [StartArray(name.value)] + ItemCalls(items) + [EndArray] else [Item(Some(v))]
    case _ => if name.Some? then [Property(name.value, Some(v))] else [Item(Some(v))]
  }

  function MemberCalls(members: seq<(string, Value)>): seq<Call>
    decreases members
  {
    if members == [] then [] else MemberCall(members[0]) + MemberCalls(members[1..])
  }

  function MemberCall(member: (string, Value)): seq<Call>
    decreases member
  {
    CallsFor(Some(member.0), member.1)
  }

  function ItemCalls(items: seq<Value>): seq<Call>
    decreases items
  {
    if items == [] then [] else CallsFor(None, items[0]) + ItemCalls(items[1..])
  }

  /** Streaming a value adds that value and nothing else. */
  lemma {:induction false} StreamedValue(doc: Doc, name: Option<string>, v: Value)
    requires Refusal(doc, name).None?
    ensures Run(doc, CallsFor(name, v)) == Ok(Put(doc, name, v))
    decreases v, 1
  {
    match v {
      case Object(members) =>
        StreamedMembers(doc, name, [], members);
        assert [] + members == members;
        Bracketed(doc, ObjectFrame(name, []), StartObject(name), MemberCalls(members), EndObject,
          ObjectFrame(name, members));
      case Array(items) =>
        if name.Some? {
          StreamedItems(doc, name, [], items);
          assert [] + items == items;
          Bracketed(doc, ArrayFrame(name, []), StartArray(name.value), ItemCalls(items), EndArray,
            ArrayFrame(name, items));
        } else {
          OneCall(doc, Item(Some(v)));
        }
      case _ =>
        OneCall(doc, CallsFor(name, v)[0]);
    }
  }

  lemma OneCall(doc: Doc, call: Call)
    ensures Run(doc, [call]) == After(doc, call)
  {
    assert After(doc, call).Ok? ==> Run(After(doc, call).value, [call][1..]) == After(doc, call);
  }

  lemma Bracketed(doc: Doc, vacant: Frame, start: Call, inner: seq<Call>, end: Call, filled: Frame)
    requires Refusal(doc, vacant.name).None? && After(doc, start) == Open(doc, vacant)
    requires filled.name == vacant.name && filled.ArrayFrame? == vacant.ArrayFrame?
    requires end == (if vacant.ArrayFrame? then EndArray else EndObject)
    requires Run(Doc(doc.frames + [vacant], doc.root), inner) == Ok(Doc(doc.frames + [filled], doc.root))
    ensures Run(doc, [start] + inner + [end]) == Ok(Put(doc, vacant.name, filled.Closed()))
  {
    var all := Doc(doc.frames + [filled], doc.root);
    assert Outer(all.frames) == doc.frames && Last(all.frames) == filled;
    OneCall(all, end);
    OneCall(doc, start);
    RunConcat(Doc(doc.frames + [vacant], doc.root), inner, [end]);
    RunConcat(doc, [start], inner + [end]);
    assert [start] + inner + [end] == [start] + (inner + [end]);
  }

  lemma {:induction false} StreamedMembers(doc: Doc, name: Option<string>, done: seq<(string, Value)>,
      members: seq<(string, Value)>)
    ensures Run(Doc(doc.frames + [ObjectFrame(name, done)], doc.root), MemberCalls(members))
         == Ok(Doc(doc.frames + [ObjectFrame(name, done + members)], doc.root))
    decreases members
  {
    if members == [] {
      assert done + members == done;
    } else {
      var before := Doc(doc.frames + [ObjectFrame(name, done)], doc.root);
      StreamedMember(before, members[0]);
      assert Put(before, Some(members[0].0), members[0].1)
          == Doc(doc.frames + [ObjectFrame(name, done + [members[0]])], doc.root);
      StreamedMembers(doc, name, done + [members[0]], members[1..]);
      RunConcat(before, MemberCall(members[0]), MemberCalls(members[1..]));
      assert done + [members[0]] + members[1..] == done + members;
    }
  }

  lemma StreamedMember(doc: Doc, member: (string, Value))
    requires Refusal(doc, Some(member.0)).None?
    ensures Run(doc, MemberCall(member)) == Ok(Put(doc, Some(member.0), member.1))
    decreases member
  {
    StreamedValue(doc, Some(member.0), member.1);
  }

  lemma {:induction false} StreamedItems(doc: Doc, name: Option<string>, done: seq<Value>, items: seq<Value>)
    ensures Run(Doc(doc.frames + [ArrayFrame(name, done)], doc.root), ItemCalls(items))
         == Ok(Doc(doc.frames + [ArrayFrame(name, done + items)], doc.root))
    decreases items
  {
    if items == [] {
      assert done + items == done;
    } else {
      var before := Doc(doc.frames + [ArrayFrame(name, done)], doc.root);
      StreamedValue(before, None, items[0]);
      assert Put(before, None, items[0]) == Doc(doc.frames + [ArrayFrame(name, done + [items[0]])], doc.root);
      StreamedItems(doc, name, done + [items[0]], items[1..]);
      RunConcat(before, CallsFor(None, items[0]), ItemCalls(items[1..]));
      assert done + [items[0]] + items[1..] == done + items;
    }
  }

  // ---------------------------------------------------------------- the text of an unfinished tree

  function Opening(frame: Frame): string {
    if frame.ArrayFrame? then "[" + PrintItems(frame.items) else "{" + PrintMembers(frame.members)
  }

  /** What separates a value from what its container already holds. */
  function LeadIn(frame: Frame, name: Option<string>): string {
    (if frame.Empty() then "" else ",") + (if name.Some? then Quote(name.value) + ":" else "")
  }

  function Lead(frames: seq<Frame>, name: Option<string>): string {
    if frames == [] then "" else LeadIn(Last(frames), name)
  }

  function Prefix(frames: seq<Frame>): string {
    if frames == [] then ""
    else Prefix(Outer(frames)) + Lead(Outer(frames), Last(frames).name) + Opening(Last(frames))
  }

  /** The text written so far. */
  function TextOf(doc: Doc): string {
    if doc.frames == [] && doc.root.Some? then Print(doc.root.value) else Prefix(doc.frames)
  }

  /** Each open container can hold the next one, a finished root has nothing open, and numbers are JSON numbers. */
  ghost predicate WellFormed(doc: Doc) {
    && (doc.root.Some? ==> doc.frames == [] && Json.Valid(doc.root.value))
    && (forall i | 0 <= i < |doc.frames| :: Held(doc.frames, i))
  }

  ghost predicate Held(frames: seq<Frame>, i: nat)
    requires i < |frames|
  {
    && Json.Valid(frames[i].Closed())
    && (if i == 0 then frames[i].name.None? else frames[i - 1].Takes(frames[i].name))
  }

  ghost predicate ValidCall(call: Call) {
    (call.Property? || call.Item?) && call.value.Some? ==> Json.Valid(call.value.value)
  }

  lemma WithKeepsValid(frame: Frame, name: Option<string>, v: Value)
    requires frame.Takes(name) && Json.Valid(frame.Closed()) && Json.Valid(v)
    ensures Json.Valid(frame.With(name, v).Closed())
  {
    var next := frame.With(name, v);
    if frame.ArrayFrame? {
      assert forall i | 0 <= i < |next.items| :: Json.Valid(next.items[i]);
    } else {
      assert forall i | 0 <= i < |next.members| :: Json.Valid(next.members[i].1);
    }
  }

  lemma PutKeepsWellFormed(doc: Doc, name: Option<string>, v: Value)
    requires WellFormed(doc) && Refusal(doc, name).None? && Json.Valid(v)
    ensures WellFormed(Put(doc, name, v))
  {
    if doc.frames != [] {
      var n := |doc.frames| - 1;
      var next := Put(doc, name, v);
      assert Held(doc.frames, n);
      WithKeepsValid(doc.frames[n], name, v);
      hide Json.Valid;
      assert forall i | 0 <= i < n :: next.frames[i] == doc.frames[i];
      forall i | 0 <= i <= n ensures Held(next.frames, i) {
        assert Held(doc.frames, i);
      }
    }
  }

  lemma CloseKeepsWellFormed(doc: Doc, list: bool)
    requires WellFormed(doc) && doc.frames != []
    ensures Refusal(Doc(Outer(doc.frames), doc.root), Last(doc.frames).name).None?
    ensures Close(doc, list).Ok? <==> Last(doc.frames).ArrayFrame? == list
    ensures Close(doc, list).Ok? ==> WellFormed(Close(doc, list).value)
  {
    var parent := Doc(Outer(doc.frames), doc.root);
    var n := |doc.frames| - 1;
    assert Held(doc.frames, n);
    forall i | 0 <= i < n ensures Held(parent.frames, i) {
      assert Held(doc.frames, i);
    }
    PutKeepsWellFormed(parent, doc.frames[n].name, doc.frames[n].Closed());
  }

  lemma OpenKeepsWellFormed(doc: Doc, frame: Frame)
    requires WellFormed(doc) && frame.Empty() && Open(doc, frame).Ok?
    ensures WellFormed(Open(doc, frame).value)
  {
    assert Json.Valid(frame.Closed());
    hide Json.Valid;
    var next := Open(doc, frame).value;
    forall i | 0 <= i < |next.frames| ensures Held(next.frames, i) {
      assert i < |doc.frames| ==> Held(doc.frames, i);
    }
  }

  /** No call breaks the tree. */
  lemma CallKeepsWellFormed(doc: Doc, call: Call)
    requires WellFormed(doc) && ValidCall(call) && After(doc, call).Ok?
    ensures WellFormed(After(doc, call).value)
    ensures var next := After(doc, call).value; next.frames != [] || next.root.Some?
  {
    match call {
      case StartObject(name) => OpenKeepsWellFormed(doc, ObjectFrame(name, []));
      case EndObject => CloseKeepsWellFormed(doc, false);
      case StartArray(key) => OpenKeepsWellFormed(doc, ArrayFrame(Some(key), []));
      case EndArray => CloseKeepsWellFormed(doc, true);
      case Property(key, v) => PutKeepsWellFormed(doc, Some(key), v.value);
      case Item(v) => PutKeepsWellFormed(doc, None, v.value);
    }
  }

  lemma {:induction false} RunKeepsWellFormed(doc: Doc, calls: seq<Call>)
    requires WellFormed(doc) && (forall c | c in calls :: ValidCall(c)) && Run(doc, calls).Ok?
    ensures WellFormed(Run(doc, calls).value)
    ensures calls != [] ==> var end := Run(doc, calls).value; end.frames != [] || end.root.Some?
    decreases |calls|
  {
    hide After, WellFormed;
    if calls != [] {
      CallKeepsWellFormed(doc, calls[0]);
      RunKeepsWellFormed(After(doc, calls[0]).value, calls[1..]);
    }
  }

  lemma {:induction false} OneMoreItem(items: seq<Value>, v: Value)
    ensures PrintItems(items + [v]) == PrintItems(items) + (if items == [] then "" else ",") + Print(v)
  {
    hide Print;
    if items == [] {
      assert items + [v] == [v];
    } else {
      assert (items + [v])[1..] == items[1..] + [v];
      OneMoreItem(items[1..], v);
    }
  }

  lemma {:induction false} OneMoreMember(members: seq<(string, Value)>, member: (string, Value))
    ensures PrintMembers(members + [member])
         == PrintMembers(members) + (if members == [] then "" else ",") + PrintMember(member)
  {
    hide PrintMember;
    if members == [] {
      assert members + [member] == [member];
    } else {
      assert (members + [member])[1..] == members[1..] + [member];
      OneMoreMember(members[1..], member);
    }
  }

  lemma WithText(frame: Frame, name: Option<string>, v: Value)
    requires frame.Takes(name)
    ensures Opening(frame.With(name, v)) == Opening(frame) + LeadIn(frame, name) + Print(v)
  {
    hide Print, Quote;
    if frame.ArrayFrame? {
      OneMoreItem(frame.items, v);
      hide PrintItems;
    } else {
      OneMoreMember(frame.members, (name.value, v));
      hide PrintMembers;
    }
  }

  /** Adding a value appends its lead and its own text. */
  lemma PutText(doc: Doc, name: Option<string>, v: Value)
    requires WellFormed(doc) && Refusal(doc, name).None?
    ensures TextOf(Put(doc, name, v)) == TextOf(doc) + Lead(doc.frames, name) + Print(v)
  {
    hide Print, Opening, LeadIn;
    if doc.frames != [] {
      var frames := doc.frames;
      WithText(Last(frames), name, v);
      var next := Put(doc, name, v).frames;
      assert Outer(next) == Outer(frames);
      assert Prefix(next) == Prefix(Outer(frames)) + Lead(Outer(frames), Last(frames).name)
        + (Opening(Last(frames)) + LeadIn(Last(frames), name) + Print(v));
    }
  }

  /** Opening a container appends its lead and its bracket. */
  lemma OpenText(doc: Doc, frame: Frame)
    requires WellFormed(doc) && frame.Empty() && Open(doc, frame).Ok?
    ensures TextOf(Open(doc, frame).value)
         == TextOf(doc) + Lead(doc.frames, frame.name) + (if frame.ArrayFrame? then "[" else "{")
  {
    hide LeadIn, Print;
    var next := Open(doc, frame).value.frames;
    assert Outer(next) == doc.frames && Last(next) == frame;
  }

  /** Closing a container appends its other bracket. */
  lemma CloseText(doc: Doc, list: bool)
    requires WellFormed(doc) && Close(doc, list).Ok?
    ensures TextOf(Close(doc, list).value) == TextOf(doc) + (if list then "]" else "}")
  {
    hide LeadIn, PrintItems, PrintMembers, Refusal;
    var frame := Last(doc.frames);
    var parent := Doc(Outer(doc.frames), doc.root);
    CloseKeepsWellFormed(doc, list);
    ParentWellFormed(doc);
    PutText(parent, frame.name, frame.Closed());
    assert Print(frame.Closed()) == Opening(frame) + (if list then "]" else "}");
  }

  lemma ParentWellFormed(doc: Doc)
    requires WellFormed(doc) && doc.frames != []
    ensures WellFormed(Doc(Outer(doc.frames), doc.root))
  {
    var parent := Doc(Outer(doc.frames), doc.root);
    forall i | 0 <= i < |parent.frames| ensures Held(parent.frames, i) {
      assert Held(doc.frames, i);
    }
  }

  /**
   * Any sequence of calls that throws nothing and closes what it opened leaves exactly one JSON text, whose parse is
   * the tree of the calls, unless it made no call at all: then completeness holds and the text is not JSON.
   */
  lemma CompleteRun(calls: seq<Call>)
    requires (forall c | c in calls :: ValidCall(c)) && Run(EMPTY, calls).Ok?
    requires Run(EMPTY, calls).value.frames == []
    ensures var end := Run(EMPTY, calls).value;
      (calls != [] <==> end.root.Some?) && Parse(TextOf(end)) == end.root
  {
    RunKeepsWellFormed(EMPTY, calls);
    var end := Run(EMPTY, calls).value;
    if end.root.Some? {
      Json.RoundTrip(end.root.value);
    } else {
      assert TextOf(end) == [];
    }
  }
}

module ExportWriter {
  import opened Options
  import opened ExportTree
  import opened Utf8
  import Json
  import Sql

  /** The file behind a FileHandle opened for appending: a write takes any part of what it was offered. */
  class File {
    var bytes: seq<byte>

    constructor ()
      ensures bytes == []
    {
      bytes := [];
    }

    method Write(buffer: seq<byte>, offset: nat, length: nat) returns (bytesWritten: nat)
      requires offset + length <= |buffer|
      modifies this
      ensures bytesWritten <= length
      ensures bytes == old(bytes) + buffer[offset..offset + bytesWritten]
    {
      bytesWritten :| 0 <= bytesWritten <= length;
      bytes := bytes + buffer[offset..offset + bytesWritten];
    }
  }

  datatype Kind = ArrayKind | ObjectKind

  datatype Context = Context(kind: Kind, first: bool)

  /** The context that stands for a frame; only the innermost one may still be waiting for its first value. */
  predicate Stands(context: Context, frame: Frame, innermost: bool) {
    && context.kind == (if frame.ArrayFrame? then ArrayKind else ObjectKind)
    && context.first == (innermost && frame.Empty())
  }

  ghost predicate StandsFor(contexts: seq<Context>, frames: seq<Frame>) {
    |contexts| == |frames| && forall i | 0 <= i < |frames| :: Stands(contexts[i], frames[i], i == |frames| - 1)
  }

  /** A context whose next value is on its way. */
  function Awaiting(contexts: seq<Context>): seq<Context> {
    if contexts == [] then []
    else contexts[..|contexts| - 1] + [contexts[|contexts| - 1].(first := false)]
  }

  function Comma(contexts: seq<Context>): string
    requires contexts != []
  {
    if contexts[|contexts| - 1].first then "" else ","
  }

  function Key(name: Option<string>): string {
    if name.Some? then Json.Quote(name.value) + ":" else ""
  }

  /** What the innermost context puts before its next value. */
  function Separator(contexts: seq<Context>, name: Option<string>): string
    requires contexts != []
  {
    Comma(contexts) + Key(name)
  }

  lemma SeparatorIsLead(contexts: seq<Context>, frames: seq<Frame>, name: Option<string>)
    requires StandsFor(contexts, frames) && frames != []
    ensures Separator(contexts, name) == Lead(frames, name)
  {
    assert Stands(contexts[|contexts| - 1], Last(frames), true);
  }

  /** How a method ended: the tree it made, or the error it threw. */
  type Outcome = Option<Error>

  class JsonExportWriter {
    const file: File
    const maxBytes: nat
    var contexts: seq<Context>
    var writtenBytes: nat
    ghost var doc: Doc

    /** No method has thrown: the file holds the text of the tree so far. */
    ghost predicate Intact()
      reads this, file
    {
      Holds(TextOf(doc)) && WellFormed(doc) && StandsFor(contexts, doc.frames)
    }

    ghost predicate Holds(text: string)
      reads this, file
    {
      file.bytes == Encode(text) && writtenBytes == |file.bytes| <= maxBytes
    }

    constructor (file: File, maxBytes: nat)
      requires file.bytes == []
      ensures Intact() && doc == EMPTY
      ensures this.file == file && this.maxBytes == maxBytes
    {
      this.file := file;
      this.maxBytes := maxBytes;
      contexts := [];
      writtenBytes := 0;
      doc := EMPTY;
    }

    /** Appends one piece in as many short writes as the file takes. */
    method Write(value: Option<string>, ghost text: string) returns (r: Outcome)
      requires Holds(text)
      modifies this`writtenBytes, file
      ensures r.None? ==> value.Some? && Holds(text + value.value)
      ensures r == Some(UndefinedValue) <==> value.None?
      ensures r == Some(TooLarge) <==> value.Some? && |Encode(text + value.value)| > maxBytes
      ensures r.Some? ==> r.value in {UndefinedValue, TooLarge, NoProgress}
      ensures |file.bytes| <= maxBytes
    {
      if value.None? {
        return Some(UndefinedValue);
      }
      var buffer := Encode(value.value);
      EncodeConcat(text, value.value);
      hide Encode;
      if writtenBytes + |buffer| > maxBytes {
        return Some(TooLarge);
      }
      var offset := 0;
      while offset < |buffer|
        invariant offset <= |buffer| && writtenBytes == old(writtenBytes)
        invariant file.bytes == old(file.bytes) + buffer[..offset]
        decreases |buffer| - offset
      {
        var bytesWritten := file.Write(buffer, offset, |buffer| - offset);
        assert buffer[..offset + bytesWritten] == buffer[..offset] + buffer[offset..offset + bytesWritten];
        if bytesWritten == 0 {
          return Some(NoProgress);
        }
        offset := offset + bytesWritten;
      }
      assert buffer[..offset] == buffer;
      writtenBytes := writtenBytes + |buffer|;
      r := None;
    }

    /** The comma and the name before a value inside the innermost container. */
    method Separate(name: Option<string>, ghost text: string) returns (r: Outcome)
      requires Holds(text) && contexts != []
      modifies this`writtenBytes, this`contexts, file
      ensures |file.bytes| <= maxBytes
      ensures r in {None, Some(NoProgress), Some(TooLarge)}
      ensures r.None? ==> contexts == Awaiting(old(contexts))
      ensures r.None? ==> Holds(text + Separator(old(contexts), name))
      ensures r == Some(TooLarge) ==> |Encode(text + Separator(old(contexts), name))| > maxBytes
    {
      ghost var comma, key := Comma(contexts), Key(name);
      assert text + comma + key == text + Separator(contexts, name);
      Longer(text + comma, key);
      if !contexts[|contexts| - 1].first {
        r := Write(Some(","), text);
        if r.Some? {
          return;
        }
      }
      assert text + "" == text && text + comma + "" == text + comma;
      contexts := Awaiting(contexts);
      if name.Some? {
        r := Write(Some(Json.Quote(name.value) + ":"), text + comma);
        return;
      }
      r := None;
    }

    /** Writes the separator and the name that come before a value, if a value with this name may come next. */
    method BeforeValue(name: Option<string>) returns (r: Outcome)
      requires Intact()
      modifies this`writtenBytes, this`contexts, file
      ensures |file.bytes| <= maxBytes
      ensures r.None? ==> Refusal(doc, name).None? && Holds(TextOf(doc) + Lead(doc.frames, name))
      ensures r.None? ==> contexts == Awaiting(old(contexts))
      ensures Refusal(doc, name).Some? ==> r == Refusal(doc, name)
      ensures Refusal(doc, name).None? && r.Some? ==> r == Some(NoProgress) || r == Some(TooLarge)
      ensures r == Some(TooLarge) ==> |Encode(TextOf(doc) + Lead(doc.frames, name))| > maxBytes
    {
      if contexts == [] {
        WrittenSomething(doc);
        if writtenBytes != 0 || name.Some? {
          return Some(InvalidRoot);
        }
        assert TextOf(doc) + Lead(doc.frames, name) == TextOf(doc);
        return None;
      }
      var context := contexts[|contexts| - 1];
      assert Stands(context, Last(doc.frames), true);
      if context.kind == ObjectKind && name.None? {
        return Some(NameRequired);
      }
      if context.kind == ArrayKind && name.Some? {
        return Some(ArrayItemNamed);
      }
      SeparatorIsLead(contexts, doc.frames, name);
      r := Separate(name, TextOf(doc));
    }

    /** What every method that writes promises: on success the tree of the call, otherwise the error of the call. */
    ghost predicate Performs(before: Doc, call: Call, r: Outcome)
      reads this, file
    {
      && |file.bytes| <= maxBytes
      && (r.None? ==> Intact() && After(before, call) == Ok(doc))
      && (r.Some? ==> doc == before && Explained(before, call, r.value))
    }

    /** An error is the one the tree explains, or the text would not fit, or the file took nothing. */
    ghost predicate Explained(doc: Doc, call: Call, error: Error) {
      match error
      case NoProgress => true
      case TooLarge => After(doc, call).Ok? ==> |Encode(TextOf(After(doc, call).value))| > maxBytes
      case _ => After(doc, call) == Err(error)
    }

    method StartObject(name: Option<string>) returns (r: Outcome)
      requires Intact()
      modifies this, file
      ensures Performs(old(doc), Call.StartObject(name), r)
    {
      ghost var frame := ObjectFrame(name, []);
      ghost var text := TextOf(doc) + Lead(doc.frames, name);
      ghost var start := doc;
      if Open(doc, frame).Ok? {
        OpenText(doc, frame);
        OpenKeepsWellFormed(doc, frame);
        Longer(text, "{");
      }
      r := BeforeValue(name);
      if r.Some? {
        return;
      }
      r := Write(Some("{"), text);
      if r.Some? {
        return;
      }
      contexts := contexts + [Context(ObjectKind, true)];
      doc := Doc(doc.frames + [frame], doc.root);
      OpenedContexts(old(contexts), start.frames, frame);
    }

    method StartArray(name: string) returns (r: Outcome)
      requires Intact()
      modifies this, file
      ensures Performs(old(doc), Call.StartArray(name), r)
    {
      ghost var frame := ArrayFrame(Some(name), []);
      ghost var text := TextOf(doc) + Lead(doc.frames, Some(name));
      ghost var start := doc;
      if Open(doc, frame).Ok? {
        OpenText(doc, frame);
        OpenKeepsWellFormed(doc, frame);
        Longer(text, "[");
      }
      r := BeforeValue(Some(name));
      if r.Some? {
        return;
      }
      r := Write(Some("["), text);
      if r.Some? {
        return;
      }
      contexts := contexts + [Context(ArrayKind, true)];
      doc := Doc(doc.frames + [frame], doc.root);
      OpenedContexts(old(contexts), start.frames, frame);
    }

    /** Pops the innermost context, whatever it is, and accepts only the expected kind. */
    method CloseContext(expected: Kind) returns (r: Outcome)
      requires Intact()
      modifies this`contexts
      ensures r == (if Close(doc, expected == ArrayKind).Ok? then None else Some(InvalidNesting))
      ensures r.None? ==> doc.frames != [] && |old(contexts)| == |doc.frames|
      ensures r.None? ==> contexts == old(contexts)[..|old(contexts)| - 1]
    {
      if contexts == [] {
        return Some(InvalidNesting);
      }
      var last := |contexts| - 1;
      var context := contexts[last];
      assert Stands(context, Last(doc.frames), true);
      CloseKeepsWellFormed(doc, expected == ArrayKind);
      contexts := contexts[..last];
      if context.kind != expected {
        return Some(InvalidNesting);
      }
      r := None;
    }

    method EndObject() returns (r: Outcome)
      requires Intact()
      modifies this, file
      ensures Performs(old(doc), Call.EndObject, r)
    {
      r := CloseContext(ObjectKind);
      if r.Some? {
        return;
      }
      ghost var text := TextOf(doc);
      CloseText(doc, false);
      CloseKeepsWellFormed(doc, false);
      r := Write(Some("}"), text);
      if r.Some? {
        return;
      }
      ClosedContexts(old(contexts), doc.frames, doc.root);
      doc := Close(doc, false).value;
    }

    method EndArray() returns (r: Outcome)
      requires Intact()
      modifies this, file
      ensures Performs(old(doc), Call.EndArray, r)
    {
      r := CloseContext(ArrayKind);
      if r.Some? {
        return;
      }
      ghost var text := TextOf(doc);
      CloseText(doc, true);
      CloseKeepsWellFormed(doc, true);
      r := Write(Some("]"), text);
      if r.Some? {
        return;
      }
      ClosedContexts(old(contexts), doc.frames, doc.root);
      doc := Close(doc, true).value;
    }

    /** The part that property and item share: the lead, then the value that JSON.stringify prints. */
    method WriteValue(name: Option<string>, value: Option<Json.Value>) returns (r: Outcome)
      requires Intact() && (value.Some? ==> Json.Valid(value.value))
      modifies this, file
      ensures |file.bytes| <= maxBytes
      ensures r.None? ==> Intact() && Add(old(doc), name, value) == Ok(doc)
      ensures r.Some? ==> doc == old(doc)
      ensures r.Some? ==> r == Some(NoProgress) || r == Some(TooLarge) || Add(doc, name, value) == Err(r.value)
      ensures r == Some(TooLarge) && Add(doc, name, value).Ok? ==>
        |Encode(TextOf(Add(doc, name, value).value))| > maxBytes
    {
      ghost var text := TextOf(doc) + Lead(doc.frames, name);
      if Refusal(doc, name).None? && value.Some? {
        FilledContexts(contexts, doc, name, value.value);
        FilledText(doc, name, value.value);
        PutKeepsWellFormed(doc, name, value.value);
      }
      r := BeforeValue(name);
      if r.Some? {
        return;
      }
      r := Write(if value.Some? then Some(Json.Print(value.value)) else None, text);
      if r.Some? {
        return;
      }
      doc := Put(doc, name, value.value);
    }

    method Property(name: string, value: Option<Json.Value>) returns (r: Outcome)
      requires Intact() && (value.Some? ==> Json.Valid(value.value))
      modifies this, file
      ensures Performs(old(doc), Call.Property(name, value), r)
    {
      r := WriteValue(Some(name), value);
    }

    method Item(value: Option<Json.Value>) returns (r: Outcome)
      requires Intact() && (value.Some? ==> Json.Valid(value.value))
      modifies this, file
      ensures Performs(old(doc), Call.Item(value), r)
    {
      r := WriteValue(None, value);
    }

    /** After a run of calls that threw nothing, completeness means a whole JSON text, or a file never written to. */
    method AssertComplete() returns (complete: bool)
      requires Intact()
      ensures complete <==> doc.frames == []
      ensures complete && doc.root.Some? ==>
        Decode(file.bytes).Some? && Json.Parse(Decode(file.bytes).value) == doc.root
      ensures complete && doc.root.None? ==> file.bytes == []
    {
      complete := |contexts| == 0;
      RoundTrip(TextOf(doc));
      if complete && doc.root.Some? {
        Json.RoundTrip(doc.root.value);
      }
    }

    /** The number the download announces is the length of the file. */
    function Bytes(): (n: nat)
      requires Intact()
      reads this, file
      ensures n == |file.bytes| == |Encode(TextOf(doc))| <= maxBytes
    {
      writtenBytes
    }
  }

  method PerformOne(writer: JsonExportWriter, call: Call) returns (r: Outcome)
    requires writer.Intact() && ValidCall(call)
    modifies writer, writer.file
    ensures writer.Performs(old(writer.doc), call, r)
  {
    match call {
      case StartObject(name) => r := writer.StartObject(name);
      case EndObject => r := writer.EndObject();
      case StartArray(key) => r := writer.StartArray(key);
      case EndArray => r := writer.EndArray();
      case Property(key, value) => r := writer.Property(key, value);
      case Item(value) => r := writer.Item(value);
    }
  }

  /** The calls one after the other, up to the first that throws: it is that call which explains the error. */
  method Perform(writer: JsonExportWriter, calls: seq<Call>) returns (r: Outcome)
    requires writer.Intact() && forall c | c in calls :: ValidCall(c)
    modifies writer, writer.file
    ensures |writer.file.bytes| <= writer.maxBytes
    ensures r.None? ==> writer.Intact() && Run(old(writer.doc), calls) == Ok(writer.doc)
    ensures r.Some? ==> exists k :: 0 <= k < |calls| && Run(old(writer.doc), calls[..k]) == Ok(writer.doc)
                                    && writer.Explained(writer.doc, calls[k], r.value)
  {
    hide JsonExportWriter.Holds, JsonExportWriter.Explained, WellFormed, TextOf, After, StandsFor, Json.Valid;
    ghost var start := writer.doc;
    for i := 0 to |calls|
      invariant writer.Intact() && Run(start, calls[..i]) == Ok(writer.doc)
    {
      ghost var before := writer.doc;
      r := PerformOne(writer, calls[i]);
      if r.Some? {
        return;
      }
      OneMoreCall(start, calls, i, before);
    }
    assert calls[..|calls|] == calls && writer.Bytes() <= writer.maxBytes;
    r := None;
  }

  lemma OneMoreCall(start: Doc, calls: seq<Call>, i: nat, before: Doc)
    requires i < |calls| && Run(start, calls[..i]) == Ok(before)
    ensures After(before, calls[i]).Ok? ==> Run(start, calls[..i + 1]) == After(before, calls[i])
  {
    assert calls[..i + 1] == calls[..i] + [calls[i]];
    RunConcat(start, calls[..i], [calls[i]]);
    assert [calls[i]][1..] == [];
  }

  /**
   * What `prepare` does with its file: a new writer, its calls, and `assertComplete`. The file that goes out is the
   * UTF-8 of one JSON text, whose parse is the tree of the calls.
   */
  method Prepare(maxBytes: nat, calls: seq<Call>) returns (file: File, ready: bool)
    requires calls != [] && forall c | c in calls :: ValidCall(c)
    ensures |file.bytes| <= maxBytes
    ensures ready ==> Run(EMPTY, calls).Ok? && Run(EMPTY, calls).value.frames == [] && Run(EMPTY, calls).value.root.Some?
    ensures ready ==>
      Decode(file.bytes).Some? && Json.Parse(Decode(file.bytes).value) == Run(EMPTY, calls).value.root
  {
    file := new File();
    var writer := new JsonExportWriter(file, maxBytes);
    var r := Perform(writer, calls);
    if r.Some? {
      return file, false;
    }
    ready := writer.AssertComplete();
    if ready {
      CompleteRun(calls);
    }
  }

  /** More text never takes fewer bytes. */
  lemma Longer(text: string, more: string)
    ensures |Encode(text)| <= |Encode(text + more)|
  {
    EncodeConcat(text, more);
  }

  /** Nothing is open and nothing was written, or something was written. */
  lemma WrittenSomething(doc: Doc)
    requires WellFormed(doc) && doc.frames == []
    ensures |Encode(TextOf(doc))| != 0 <==> doc.root.Some?
  {
    if doc.root.Some? {
      Json.PrintedStart(doc.root.value);
    }
  }

  lemma OpenedContexts(contexts: seq<Context>, frames: seq<Frame>, frame: Frame)
    requires StandsFor(contexts, frames) && frame.Empty()
    ensures StandsFor(Awaiting(contexts) + [Context(if frame.ArrayFrame? then ArrayKind else ObjectKind, true)],
                      frames + [frame])
  {
  }

  lemma FilledContexts(contexts: seq<Context>, doc: Doc, name: Option<string>, v: Json.Value)
    requires StandsFor(contexts, doc.frames) && Refusal(doc, name).None?
    ensures StandsFor(Awaiting(contexts), Put(doc, name, v).frames)
  {
  }

  lemma FilledText(doc: Doc, name: Option<string>, v: Json.Value)
    requires WellFormed(doc) && Refusal(doc, name).None?
    ensures TextOf(Put(doc, name, v)) == TextOf(doc) + Lead(doc.frames, name) + Json.Print(v)
    ensures |Encode(TextOf(doc) + Lead(doc.frames, name))| <= |Encode(TextOf(Put(doc, name, v)))|
  {
    PutText(doc, name, v);
    Longer(TextOf(doc) + Lead(doc.frames, name), Json.Print(v));
  }

  lemma ClosedContexts(contexts: seq<Context>, frames: seq<Frame>, root: Option<Json.Value>)
    requires frames != [] && StandsFor(contexts, frames)
    requires Refusal(Doc(Outer(frames), root), Last(frames).name).None?
    ensures StandsFor(contexts[..|contexts| - 1],
                      Put(Doc(Outer(frames), root), Last(frames).name, Last(frames).Closed()).frames)
  {
  }
}

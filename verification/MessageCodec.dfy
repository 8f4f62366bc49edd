/**
  The message codec at the level of sections: the encoder's section order and size sum, and the decoder
  that folds sections into a message with a sticky error. The encoding of one section is left abstract:
  any self-delimiting codec.
 */
module MessageCodec {
  import opened Octets
  import opened Wrappers
  import opened Values

  /** The sections that are not part of the body. */
  datatype Meta = Header | DeliveryAnnotations | MessageAnnotations | Properties | ApplicationProperties | Footer

  /** A section as it is decoded; `readable` is false when its content has not the form its descriptor promises. */
  datatype Section =
    | MetaSection(meta: Meta, content: Amqp, readable: bool)
    | ValueSection(content: Amqp, readable: bool)
    | DataSection(data: Bytes, readable: bool)
    | UnknownSection(content: Amqp)

  datatype Body = NoBody | ValueBody(value: Amqp) | DataBody(data: seq<Bytes>)

  /** A message: its sections by kind, and its body. */
  datatype Message = Message(sections: map<Meta, Amqp>, body: Body)

  const EMPTY := Message(map[], NoBody)

  datatype DecodeError = Unreadable | BodyAlreadySet | BodyNotData

  // ---------------------------------------------------------------- encoding

  /** What the C library does with one section: its bytes, and parsing the front of a buffer. */
  datatype Parsed = Complete(section: Section, used: nat) | Truncated | Malformed

  datatype Codec = Codec(encode: Section -> Bytes, size: Section -> nat, parse: Bytes -> Parsed)

  /** The size reported is the size written, and the section is read back whatever follows it. */
  ghost predicate SelfDelimiting(codec: Codec, section: Section) {
    var bytes := codec.encode(section);
    && codec.size(section) == |bytes| > 0
    && forall rest :: codec.parse(bytes + rest) == Complete(section, |bytes|)
  }

  ghost predicate AllSelfDelimiting(codec: Codec, sections: seq<Section>) {
    forall i :: 0 <= i < |sections| ==> SelfDelimiting(codec, sections[i])
  }

  /** A parsed section uses up part of the buffer. */
  ghost predicate Progresses(codec: Codec) {
    forall bytes :: codec.parse(bytes).Complete? ==> 0 < codec.parse(bytes).used <= |bytes|
  }

  function Present(m: Message, meta: Meta): seq<Section> {
    if meta in m.sections then [MetaSection(meta, m.sections[meta], true)] else []
  }

  function DataSections(data: seq<Bytes>): (r: seq<Section>)
    ensures |r| == |data| && forall i :: 0 <= i < |data| ==> r[i] == DataSection(data[i], true)
  {
    seq(|data|, i requires 0 <= i < |data| => DataSection(data[i], true))
  }

  function BodySections(body: Body): seq<Section> {
    match body
    case NoBody => []
    case ValueBody(value) => [ValueSection(value, true)]
    case DataBody(data) => DataSections(data)
  }

  /** The sections written before the body. */
  function FrontSections(m: Message): seq<Section> {
    Present(m, Header) + Present(m, MessageAnnotations) + Present(m, Properties) + Present(m, ApplicationProperties)
    + Present(m, Footer) + Present(m, DeliveryAnnotations)
  }

  /** The sections of a message in the order the encoder writes them. */
  function Sections(m: Message): seq<Section> {
    FrontSections(m) + BodySections(m.body)
  }

  function Encodings(codec: Codec, sections: seq<Section>): (r: seq<Bytes>)
    ensures |r| == |sections| && forall i :: 0 <= i < |sections| ==> r[i] == codec.encode(sections[i])
  {
    seq(|sections|, i requires 0 <= i < |sections| => codec.encode(sections[i]))
  }

  datatype Encoded = Encoded(size: nat, chunks: seq<Bytes>) | NoData

  lemma {:induction false} JoinSize(codec: Codec, sections: seq<Section>)
    requires AllSelfDelimiting(codec, sections)
    ensures |Join(Encodings(codec, sections))| == TotalSize(codec, sections)
  {
    if sections != [] {
      assert SelfDelimiting(codec, sections[0]);
      assert Encodings(codec, sections)[1..] == Encodings(codec, sections[1..]);
      JoinSize(codec, sections[1..]);
    }
  }

  function TotalSize(codec: Codec, sections: seq<Section>): nat {
    if sections == [] then 0 else codec.size(sections[0]) + TotalSize(codec, sections[1..])
  }

  lemma {:induction false} TotalSizeConcat(codec: Codec, a: seq<Section>, b: seq<Section>)
    ensures TotalSize(codec, a + b) == TotalSize(codec, a) + TotalSize(codec, b)
  {
    if a == [] {
      assert a + b == b;
    } else {
      assert (a + b)[1..] == a[1..] + b;
      TotalSizeConcat(codec, a[1..], b);
    }
  }

  /** Adds the size of one section, when the message has it, to the running total. */
  method Measure(codec: Codec, m: Message, meta: Meta, total: nat, ghost seen: seq<Section>)
    returns (total': nat, ghost seen': seq<Section>)
    requires total == TotalSize(codec, seen)
    ensures seen' == seen + Present(m, meta) && total' == TotalSize(codec, seen')
  {
    total', seen' := total, seen + Present(m, meta);
    if meta in m.sections {
      var section := MetaSection(meta, m.sections[meta], true);
      total' := total + codec.size(section);
      TotalSizeConcat(codec, seen, [section]);
      assert TotalSize(codec, [section]) == codec.size(section);
    } else {
      assert seen' == seen;
    }
  }

  /** Adds the size of the body; it fails on a data body without data. */
  method MeasureBody(codec: Codec, body: Body, total: nat, ghost seen: seq<Section>) returns (total': nat, ok: bool)
    requires total == TotalSize(codec, seen)
    ensures ok <==> body != DataBody([])
    ensures ok ==> total' == TotalSize(codec, seen + BodySections(body))
  {
    total', ok := total, true;
    match body {
      case NoBody =>
        assert seen + BodySections(body) == seen;
      case ValueBody(value) =>
        TotalSizeConcat(codec, seen, BodySections(body));
        assert TotalSize(codec, BodySections(body)) == codec.size(ValueSection(value, true));
        total' := total + codec.size(ValueSection(value, true));
      case DataBody(data) =>
        if |data| == 0 {
          return total, false;
        }
        assert seen + DataSections(data[..0]) == seen;
        for i := 0 to |data|
          invariant total' == TotalSize(codec, seen + DataSections(data[..i]))
        {
          var section := DataSection(data[i], true);
          total' := total' + codec.size(section);
          TotalSizeConcat(codec, seen + DataSections(data[..i]), [section]);
          assert seen + DataSections(data[..i]) + [section] == seen + DataSections(data[..i + 1]);
          assert TotalSize(codec, [section]) == codec.size(section);
        }
        assert data[..|data|] == data;
    }
  }

  /** Appends the bytes of the body. */
  method WriteBody(codec: Codec, body: Body, chunks: seq<Bytes>, ghost seen: seq<Section>) returns (chunks': seq<Bytes>)
    requires chunks == Encodings(codec, seen)
    ensures chunks' == Encodings(codec, seen + BodySections(body))
  {
    chunks' := chunks;
    match body {
      case NoBody =>
        assert seen + BodySections(body) == seen;
      case ValueBody(value) =>
        chunks' := chunks + [codec.encode(ValueSection(value, true))];
      case DataBody(data) =>
        assert seen + DataSections(data[..0]) == seen;
        for i := 0 to |data|
          invariant chunks' == Encodings(codec, seen + DataSections(data[..i]))
        {
          chunks' := chunks' + [codec.encode(DataSection(data[i], true))];
          assert seen + DataSections(data[..i]) + [DataSection(data[i], true)] == seen + DataSections(data[..i + 1]);
        }
        assert data[..|data|] == data;
    }
  }

  /** Appends the bytes of one section, when the message has it, to the output list. */
  method Write(codec: Codec, m: Message, meta: Meta, chunks: seq<Bytes>, ghost seen: seq<Section>)
    returns (chunks': seq<Bytes>, ghost seen': seq<Section>)
    requires chunks == Encodings(codec, seen)
    ensures seen' == seen + Present(m, meta) && chunks' == Encodings(codec, seen')
  {
    chunks', seen' := chunks, seen + Present(m, meta);
    if meta in m.sections {
      chunks' := chunks + [codec.encode(MetaSection(meta, m.sections[meta], true))];
    }
  }

  method MeasureAll(codec: Codec, m: Message) returns (total: nat, ok: bool)
    ensures ok <==> m.body != DataBody([])
    ensures ok ==> total == TotalSize(codec, Sections(m))
  {
    ghost var seen: seq<Section>;
    total, seen := Measure(codec, m, Header, 0, []);
    assert seen == Present(m, Header);
    total, seen := Measure(codec, m, MessageAnnotations, total, seen);
    total, seen := Measure(codec, m, Properties, total, seen);
    total, seen := Measure(codec, m, ApplicationProperties, total, seen);
    total, seen := Measure(codec, m, Footer, total, seen);
    total, seen := Measure(codec, m, DeliveryAnnotations, total, seen);
    total, ok := MeasureBody(codec, m.body, total, seen);
  }

  method WriteAll(codec: Codec, m: Message) returns (chunks: seq<Bytes>)
    ensures chunks == Encodings(codec, Sections(m))
  {
    ghost var seen: seq<Section>;
    chunks, seen := Write(codec, m, Header, [], []);
    assert seen == Present(m, Header);
    chunks, seen := Write(codec, m, MessageAnnotations, chunks, seen);
    chunks, seen := Write(codec, m, Properties, chunks, seen);
    chunks, seen := Write(codec, m, ApplicationProperties, chunks, seen);
    chunks, seen := Write(codec, m, Footer, chunks, seen);
    chunks, seen := Write(codec, m, DeliveryAnnotations, chunks, seen);
    chunks := WriteBody(codec, m.body, chunks, seen);
  }

  /**
    The encoder: it adds up the sizes of all the sections, then writes them in the same order. The
    size it returns is the length of what it wrote; only a data body without data is refused.
   */
  method GetEncodedMessageSize(codec: Codec, m: Message) returns (r: Encoded)
    requires AllSelfDelimiting(codec, Sections(m))
    ensures r.NoData? <==> m.body == DataBody([])
    ensures r.Encoded? ==> r.chunks == Encodings(codec, Sections(m)) && r.size == |Join(r.chunks)|
    ensures InEncoderOrder(Sections(m)) && HoldsExactly(m, Sections(m))
  {
    EncoderOrder(m);
    var total, ok := MeasureAll(codec, m);
    if !ok {
      return NoData;
    }
    var chunks := WriteAll(codec, m);
    JoinSize(codec, Sections(m));
    return Encoded(total, chunks);
  }

  // ---------------------------------------------------------------- decoding

  /** `decode_message_data`: one section into the message, or an error that stays. */
  function Received(m: Message, error: Option<DecodeError>, section: Section): (Message, Option<DecodeError>) {
    match section
    case MetaSection(meta, content, readable) =>
      if readable || meta.ApplicationProperties? then (m.(sections := m.sections[meta := content]), error)
      else (m, Some(Unreadable))
    case ValueSection(content, readable) =>
      if !m.body.NoBody? then (m, Some(BodyAlreadySet))
      else if !readable then (m, Some(Unreadable))
      else (m.(body := ValueBody(content)), error)
    case DataSection(data, readable) =>
      if m.body.ValueBody? then (m, Some(BodyNotData))
      else if !readable then (m, Some(Unreadable))
      else (m.(body := DataBody((if m.body.DataBody? then m.body.data else []) + [data])), error)
    case UnknownSection(_) => (m, error)
  }

  function ReceivedAll(sections: seq<Section>): (Message, Option<DecodeError>) {
    if sections == [] then (EMPTY, None)
    else
      var (m, error) := ReceivedAll(sections[..|sections| - 1]);
      Received(m, error, sections[|sections| - 1])
  }

  // An independent account of what a sequence of sections means.

  predicate IsUnreadable(section: Section) {
    match section
    case MetaSection(meta, _, readable) => !readable && !meta.ApplicationProperties?
    case ValueSection(_, readable) => !readable
    case DataSection(_, readable) => !readable
    case UnknownSection(_) => false
  }

  predicate AllReadable(sections: seq<Section>) {
    forall i :: 0 <= i < |sections| ==> !IsUnreadable(sections[i])
  }

  /** The value bodies among the sections, in order. */
  function ValuesIn(sections: seq<Section>): seq<Amqp> {
    if sections == [] then []
    else
      var last := sections[|sections| - 1];
      ValuesIn(sections[..|sections| - 1]) + if last.ValueSection? then [last.content] else []
  }

  /** The data bodies among the sections, in order. */
  function DataIn(sections: seq<Section>): seq<Bytes> {
    if sections == [] then []
    else
      var last := sections[|sections| - 1];
      DataIn(sections[..|sections| - 1]) + if last.DataSection? then [last.data] else []
  }

  /** The last occurrence of a section that is not a body. */
  function LastOf(sections: seq<Section>, meta: Meta): Option<Amqp> {
    if sections == [] then None
    else
      var last := sections[|sections| - 1];
      if last.MetaSection? && last.meta == meta then Some(last.content)
      else LastOf(sections[..|sections| - 1], meta)
  }

  /** Two value bodies, or a value and a data body. */
  predicate BodiesClash(sections: seq<Section>) {
    Clash(ValuesIn(sections), DataIn(sections))
  }

  predicate Clash(values: seq<Amqp>, data: seq<Bytes>) {
    |values| >= 2 || (values != [] && data != [])
  }

  function BodyOf(values: seq<Amqp>, data: seq<Bytes>): Body {
    if values != [] then ValueBody(values[0]) else if data != [] then DataBody(data) else NoBody
  }

  function Lookup(m: Message, meta: Meta): Option<Amqp> {
    if meta in m.sections then Some(m.sections[meta]) else None
  }

  /**
    For every sequence of sections in any order, decoding fails if and only if some section is
    unreadable or the bodies clash; otherwise the message holds the last occurrence of each other
    section and all the data in order, and unknown sections leave no trace.
   */
  lemma {:induction false} DecodesIff(sections: seq<Section>, meta: Meta)
    ensures var (m, error) := ReceivedAll(sections);
            && (error.None? <==> AllReadable(sections) && !BodiesClash(sections))
            && (error.None? ==> m.body == BodyOf(ValuesIn(sections), DataIn(sections)))
            && (error.None? ==> Lookup(m, meta) == LastOf(sections, meta))
  {
    if sections != [] {
      var n := |sections| - 1;
      DecodesIff(sections[..n], meta);
      DecodesStep(sections, meta);
    }
  }

  lemma ReadableSnoc(sections: seq<Section>)
    requires sections != []
    ensures AllReadable(sections) <==> AllReadable(sections[..|sections| - 1]) && !IsUnreadable(sections[|sections| - 1])
  {
    var n := |sections| - 1;
    assert sections == sections[..n] + [sections[n]];
  }

  /** The message and the error that sections with these bodies, and this last occurrence, lead to. */
  predicate Accounts(m: Message, error: Option<DecodeError>, readable: bool, values: seq<Amqp>, data: seq<Bytes>, last: Option<Amqp>, meta: Meta) {
    && (error.None? <==> readable && !Clash(values, data))
    && (error.None? ==> m.body == BodyOf(values, data) && Lookup(m, meta) == last)
  }

  lemma ReceivedAccounts(m: Message, error: Option<DecodeError>, readable: bool, values: seq<Amqp>, data: seq<Bytes>, last: Option<Amqp>, meta: Meta, section: Section)
    requires Accounts(m, error, readable, values, data, last, meta)
    ensures var (m', error') := Received(m, error, section);
            Accounts(m', error', readable && !IsUnreadable(section),
                     values + (if section.ValueSection? then [section.content] else []),
                     data + (if section.DataSection? then [section.data] else []),
                     if section.MetaSection? && section.meta == meta then Some(section.content) else last, meta)
  {
  }

  lemma DecodesStep(sections: seq<Section>, meta: Meta)
    requires sections != []
    requires var front := sections[..|sections| - 1];
             Accounts(ReceivedAll(front).0, ReceivedAll(front).1, AllReadable(front), ValuesIn(front), DataIn(front), LastOf(front, meta), meta)
    ensures Accounts(ReceivedAll(sections).0, ReceivedAll(sections).1, AllReadable(sections), ValuesIn(sections), DataIn(sections),
                     LastOf(sections, meta), meta)
  {
    var front, last := sections[..|sections| - 1], sections[|sections| - 1];
    ReadableSnoc(sections);
    ReceivedAccounts(ReceivedAll(front).0, ReceivedAll(front).1, AllReadable(front), ValuesIn(front), DataIn(front),
                     LastOf(front, meta), meta, last);
  }

  // ---------------------------------------------------------------- bytes

  datatype Decoded = Decoded(message: Message) | CannotDecodeBytes | Failed(error: DecodeError)

  /** The sections read from a buffer; an incomplete tail is dropped, malformed bytes fail. */
  ghost function ParseAll(codec: Codec, bytes: Bytes): Option<seq<Section>>
    requires Progresses(codec)
    decreases |bytes|
  {
    if bytes == [] then Some([])
    else
      match codec.parse(bytes)
      case Malformed => None
      case Truncated => Some([])
      case Complete(section, used) => Prepend([section], ParseAll(codec, bytes[used..]))
  }

  /** `decode_message`: the C decoder refuses an empty buffer. */
  ghost function Decode(codec: Codec, bytes: Bytes): Decoded
    requires Progresses(codec)
  {
    if bytes == [] then CannotDecodeBytes
    else
      match ParseAll(codec, bytes)
      case None => CannotDecodeBytes
      case Some(sections) =>
        var (m, error) := ReceivedAll(sections);
        if error.Some? then Failed(error.value) else Decoded(m)
  }

  lemma {:induction false} ParsesBack(codec: Codec, sections: seq<Section>)
    requires AllSelfDelimiting(codec, sections) && Progresses(codec)
    ensures ParseAll(codec, Join(Encodings(codec, sections))) == Some(sections)
    ensures Join(Encodings(codec, sections)) == [] <==> sections == []
  {
    if sections != [] {
      var chunks := Encodings(codec, sections);
      assert chunks[1..] == Encodings(codec, sections[1..]);
      ParsesBack(codec, sections[1..]);
      var first, rest := chunks[0], Join(chunks[1..]);
      assert SelfDelimiting(codec, sections[0]);
      assert (first + rest)[|first|..] == rest;
      assert [sections[0]] + sections[1..] == sections;
    }
  }

  lemma {:induction false} AccountConcat(a: seq<Section>, b: seq<Section>, meta: Meta)
    ensures ValuesIn(a + b) == ValuesIn(a) + ValuesIn(b)
    ensures DataIn(a + b) == DataIn(a) + DataIn(b)
    ensures LastOf(a + b, meta) == if LastOf(b, meta).Some? then LastOf(b, meta) else LastOf(a, meta)
    decreases |b|
  {
    if b == [] {
      assert a + b == a;
    } else {
      var n := |b| - 1;
      assert (a + b)[..|a + b| - 1] == a + b[..n];
      AccountConcat(a, b[..n], meta);
    }
  }

  lemma PresentAccount(m: Message, front: seq<Section>, k: Meta, meta: Meta)
    requires ValuesIn(front) == [] && DataIn(front) == []
    ensures ValuesIn(front + Present(m, k)) == [] && DataIn(front + Present(m, k)) == []
    ensures LastOf(front + Present(m, k), meta) ==
            if k == meta && meta in m.sections then Some(m.sections[meta]) else LastOf(front, meta)
  {
    AccountConcat(front, Present(m, k), meta);
    assert Present(m, k) != [] ==> Present(m, k)[..0] == [];
  }

  lemma FrontAccount(m: Message, meta: Meta)
    ensures ValuesIn(FrontSections(m)) == [] && DataIn(FrontSections(m)) == []
    ensures LastOf(FrontSections(m), meta) == Lookup(m, meta)
  {
    var p := Present(m, Header);
    assert [] + p == p;
    PresentAccount(m, [], Header, meta);
    PresentAccount(m, p, MessageAnnotations, meta);
    p := p + Present(m, MessageAnnotations);
    PresentAccount(m, p, Properties, meta);
    p := p + Present(m, Properties);
    PresentAccount(m, p, ApplicationProperties, meta);
    p := p + Present(m, ApplicationProperties);
    PresentAccount(m, p, Footer, meta);
    p := p + Present(m, Footer);
    PresentAccount(m, p, DeliveryAnnotations, meta);
  }

  lemma {:induction false} DataAccount(data: seq<Bytes>, meta: Meta)
    ensures DataIn(DataSections(data)) == data
    ensures ValuesIn(DataSections(data)) == [] && LastOf(DataSections(data), meta).None?
  {
    if data != [] {
      var n := |data| - 1;
      assert DataSections(data)[..n] == DataSections(data[..n]);
      DataAccount(data[..n], meta);
      assert data[..n] + [data[n]] == data;
    }
  }

  lemma WrittenReadable(m: Message)
    ensures AllReadable(Sections(m))
  {
    assert AllReadable(Present(m, Header) + Present(m, MessageAnnotations) + Present(m, Properties));
    assert AllReadable(FrontSections(m)) && AllReadable(BodySections(m.body));
  }

  lemma SectionsAccount(m: Message, meta: Meta)
    ensures !BodiesClash(Sections(m))
    ensures LastOf(Sections(m), meta) == Lookup(m, meta)
    ensures m.body != DataBody([]) ==> BodyOf(ValuesIn(Sections(m)), DataIn(Sections(m))) == m.body
  {
    FrontAccount(m, meta);
    BodyAccount(m.body, meta);
    AccountConcat(FrontSections(m), BodySections(m.body), meta);
    assert [] + ValuesIn(BodySections(m.body)) == ValuesIn(BodySections(m.body));
    assert [] + DataIn(BodySections(m.body)) == DataIn(BodySections(m.body));
  }

  lemma BodyAccount(body: Body, meta: Meta)
    ensures ValuesIn(BodySections(body)) == if body.ValueBody? then [body.value] else []
    ensures DataIn(BodySections(body)) == if body.DataBody? then body.data else []
    ensures LastOf(BodySections(body), meta).None?
  {
    match body {
      case NoBody =>
      case ValueBody(_) => assert BodySections(body)[..0] == [];
      case DataBody(data) => DataAccount(data, meta);
    }
  }

  // The order of the encoder, apart from how it goes about it.

  function Rank(section: Section): nat {
    match section
    case MetaSection(meta, _, _) => MetaRank(meta)
    case ValueSection(_, _) => 6
    case DataSection(_, _) => 6
    case UnknownSection(_) => 7
  }

  function MetaRank(meta: Meta): nat {
    match meta
    case Header => 0
    case MessageAnnotations => 1
    case Properties => 2
    case ApplicationProperties => 3
    case Footer => 4
    case DeliveryAnnotations => 5
  }

  /** Ranks strictly rise, so nothing comes twice, except that data sections follow one another. */
  predicate InEncoderOrder(sections: seq<Section>) {
    forall i, j :: 0 <= i < j < |sections| ==>
      Rank(sections[i]) < Rank(sections[j]) || (sections[i].DataSection? && sections[j].DataSection?)
  }

  /** The sections are those of the message, readable, and its data in order. */
  ghost predicate HoldsExactly(m: Message, sections: seq<Section>) {
    && AllReadable(sections)
    && (forall meta :: LastOf(sections, meta) == Lookup(m, meta))
    && ValuesIn(sections) == (if m.body.ValueBody? then [m.body.value] else [])
    && DataIn(sections) == (if m.body.DataBody? then m.body.data else [])
  }

  predicate Under(sections: seq<Section>, rank: nat) {
    forall i :: 0 <= i < |sections| ==> Rank(sections[i]) < rank
  }

  lemma OrderedAppend(m: Message, front: seq<Section>, meta: Meta)
    requires InEncoderOrder(front) && Under(front, MetaRank(meta))
    ensures InEncoderOrder(front + Present(m, meta)) && Under(front + Present(m, meta), MetaRank(meta) + 1)
  {
  }

  lemma FrontOrdered(m: Message)
    ensures InEncoderOrder(FrontSections(m)) && Under(FrontSections(m), 6)
  {
    var p := Present(m, Header);
    assert [] + p == p;
    OrderedAppend(m, [], Header);
    OrderedAppend(m, p, MessageAnnotations);
    p := p + Present(m, MessageAnnotations);
    OrderedAppend(m, p, Properties);
    p := p + Present(m, Properties);
    OrderedAppend(m, p, ApplicationProperties);
    p := p + Present(m, ApplicationProperties);
    OrderedAppend(m, p, Footer);
    p := p + Present(m, Footer);
    OrderedAppend(m, p, DeliveryAnnotations);
  }

  lemma BodyLast(front: seq<Section>, body: Body)
    requires InEncoderOrder(front) && Under(front, 6)
    ensures InEncoderOrder(front + BodySections(body))
  {
  }

  /**
    The encoder writes header, message annotations, properties, application properties, footer,
    delivery annotations and body, in this order, each section of the message once and no other.
   */
  lemma EncoderOrder(m: Message)
    ensures InEncoderOrder(Sections(m)) && HoldsExactly(m, Sections(m))
  {
    FrontOrdered(m);
    BodyLast(FrontSections(m), m.body);
    WrittenReadable(m);
    forall meta ensures LastOf(Sections(m), meta) == Lookup(m, meta) {
      SectionsAccount(m, meta);
    }
    BodyIn(m);
  }

  lemma BodyIn(m: Message)
    ensures ValuesIn(Sections(m)) == (if m.body.ValueBody? then [m.body.value] else [])
    ensures DataIn(Sections(m)) == (if m.body.DataBody? then m.body.data else [])
  {
    FrontAccount(m, Header);
    BodyAccount(m.body, Header);
    AccountConcat(FrontSections(m), BodySections(m.body), Header);
  }

  /**
    Encoding then decoding gives the message back, every section and all the data in order, if and
    only if there is anything to encode: a message without any section encodes to no bytes, which the
    decoder refuses.
   */
  lemma RoundTripMessage(codec: Codec, m: Message)
    requires AllSelfDelimiting(codec, Sections(m)) && Progresses(codec) && m.body != DataBody([])
    ensures var bytes := Join(Encodings(codec, Sections(m)));
            if m == EMPTY then bytes == [] && Decode(codec, bytes) == CannotDecodeBytes
            else Decode(codec, bytes) == Decoded(m)
  {
    var sections := Sections(m);
    ParsesBack(codec, sections);
    if m == EMPTY {
      assert sections == [];
    } else {
      var (decoded, error) := ReceivedAll(sections);
      WrittenReadable(m);
      SectionsAccount(m, Header);
      DecodesIff(sections, Header);
      forall meta ensures Lookup(decoded, meta) == Lookup(m, meta) {
        SectionsAccount(m, meta);
        DecodesIff(sections, meta);
      }
      SameSections(decoded, m);
    }
  }

  lemma SameSections(a: Message, b: Message)
    requires forall meta :: Lookup(a, meta) == Lookup(b, meta)
    ensures a.sections == b.sections
  {
    forall meta ensures meta in a.sections <==> meta in b.sections {
      assert Lookup(a, meta) == Lookup(b, meta);
    }
    forall meta | meta in a.sections ensures a.sections[meta] == b.sections[meta] {
      assert Lookup(a, meta) == Lookup(b, meta);
    }
  }

  /** The decoder object: the message being built, and the error that makes decoding fail. */
  class MessageDecoder {
    var message: Message
    var error: Option<DecodeError>

    constructor ()
      ensures message == EMPTY && error == None
    {
      message, error := EMPTY, None;
    }

    /** The callback run for each decoded value. */
    method OnSection(section: Section)
      modifies this
      ensures (message, error) == Received(old(message), old(error), section)
    {
      match section {
        case MetaSection(meta, content, readable) =>
          if !readable && !meta.ApplicationProperties? {
            error := Some(Unreadable);
          } else {
            message := message.(sections := message.sections[meta := content]);
          }
        case ValueSection(content, readable) =>
          if !message.body.NoBody? {
            error := Some(BodyAlreadySet);
          } else if !readable {
            error := Some(Unreadable);
          } else {
            message := message.(body := ValueBody(content));
          }
        case DataSection(data, readable) =>
          match message.body {
            case ValueBody(_) => error := Some(BodyNotData);
            case NoBody =>
              if readable {
                message := message.(body := DataBody([data]));
                assert [] + [data] == [data];
              } else {
                error := Some(Unreadable);
              }
            case DataBody(before) =>
              if readable {
                message := message.(body := DataBody(before + [data]));
              } else {
                error := Some(Unreadable);
              }
          }
        case UnknownSection(_) =>
      }
    }
  }

  /** Feeds the buffer to a decoder, section by section. */
  method DecodeMessage(codec: Codec, bytes: Bytes) returns (r: Decoded)
    requires Progresses(codec)
    ensures r == Decode(codec, bytes)
  {
    if |bytes| == 0 {
      return CannotDecodeBytes;
    }
    var decoder := new MessageDecoder();
    var rest, complete := bytes, true;
    ghost var seen: seq<Section> := [];
    PrependUnits([], ParseAll(codec, bytes));
    while rest != [] && complete
      invariant (decoder.message, decoder.error) == ReceivedAll(seen)
      invariant complete ==> ParseAll(codec, bytes) == Prepend(seen, ParseAll(codec, rest))
      invariant !complete ==> ParseAll(codec, bytes) == Some(seen)
      decreases complete, |rest|
    {
      match codec.parse(rest) {
        case Malformed => return CannotDecodeBytes;
        case Truncated =>
          PrependUnits(seen, None);
          complete := false;
        case Complete(section, used) =>
          decoder.OnSection(section);
          PrependSnoc(seen, section, ParseAll(codec, rest[used..]));
          assert (seen + [section])[..|seen|] == seen;
          seen, rest := seen + [section], rest[used..];
      }
    }
    PrependUnits(seen, None);
    if decoder.error.Some? {
      return Failed(decoder.error.value);
    }
    return Decoded(decoder.message);
  }
}

/**
  Python values to AMQP values and back: `data_factory` and the `.value` getters. A value is what the
  program handles: text by its encoded bytes, a dictionary or a set by its items in iteration order.
  Doubles are taken as reals; rounding is not modelled.
 */
module Values {
  import opened Octets
  import opened Wrappers

  datatype Kind = List | Tuple | Set

  datatype Py =
    | PyNone
    | PyBool(flag: bool)
    | PyInt(n: int)
    | PyFloat(x: real)
    | PyStr(encoded: Bytes)
    | PyBytes(bytes: Bytes)
    | PyByteArray(bytes: Bytes)
    | PyUuid(uuid: Bytes)
    | PySeq(kind: Kind, items: seq<Py>)
    | PyDict(entries: seq<PyEntry>)

  datatype PyEntry = PyEntry(key: Py, value: Py)

  datatype Amqp =
    | Null
    | Bool(flag: bool)
    | Int(n: int)
    | Long(n: int)
    | Double(x: real)
    | String(bytes: Bytes)
    | Binary(bytes: Bytes)
    | Uuid(uuid: Bytes)
    | AmqpList(items: seq<Amqp>)
    | AmqpMap(entries: seq<AmqpEntry>)

  datatype AmqpEntry = AmqpEntry(key: Amqp, value: Amqp)

  // ---------------------------------------------------------------- insertion-ordered dictionaries

  /** How entries compare by key, and what an entry becomes when a later one has the same key. */
  datatype Keyed<!E> = Keyed(same: (E, E) -> bool, replace: (E, E) -> E)

  /** Where an entry with the same key is found, or the number of entries. */
  function Find<E>(d: Keyed<E>, entries: seq<E>, entry: E): (i: nat)
    ensures i <= |entries|
    ensures i < |entries| ==> d.same(entries[i], entry)
    ensures forall j :: 0 <= j < i ==> !d.same(entries[j], entry)
  {
    if entries == [] then 0
    else
      var i := Find(d, entries[..|entries| - 1], entry);
      assert entries[..|entries| - 1] + [entries[|entries| - 1]] == entries;
      if i < |entries| - 1 || d.same(entries[|entries| - 1], entry) then i else |entries|
  }

  /** Assignment to a key: the value of an equal key is replaced, otherwise the entry goes last. */
  function Insert<E>(d: Keyed<E>, entries: seq<E>, entry: E): seq<E> {
    var i := Find(d, entries, entry);
    if i < |entries| then entries[i := d.replace(entries[i], entry)] else entries + [entry]
  }

  function InsertAll<E>(d: Keyed<E>, entries: seq<E>, more: seq<E>): seq<E>
    decreases |more|
  {
    if more == [] then entries else InsertAll(d, Insert(d, entries, more[0]), more[1..])
  }

  predicate Absent<E>(d: Keyed<E>, entries: seq<E>, entry: E) {
    forall i :: 0 <= i < |entries| ==> !d.same(entries[i], entry)
  }

  /** Each entry from `first` on has a key that equals no earlier key. */
  predicate FreshFrom<E>(d: Keyed<E>, entries: seq<E>, first: nat) {
    forall j :: first <= j < |entries| ==> FreshAt(d, entries, j)
  }

  predicate FreshAt<E>(d: Keyed<E>, entries: seq<E>, j: nat)
    requires j < |entries|
  {
    forall i :: 0 <= i < j ==> !d.same(entries[i], entries[j])
  }

  lemma InsertCases<E>(d: Keyed<E>, entries: seq<E>, entry: E)
    ensures if Absent(d, entries, entry) then Insert(d, entries, entry) == entries + [entry]
            else |Insert(d, entries, entry)| == |entries|
  {
    var i := Find(d, entries, entry);
    if i < |entries| {
      assert d.same(entries[i], entry);
    }
  }

  /** Inserting the entries one by one never meets an equal key. */
  predicate Apart<E>(d: Keyed<E>, entries: seq<E>, more: seq<E>)
    decreases |more|
  {
    more == [] || (Absent(d, entries, more[0]) && Apart(d, entries + [more[0]], more[1..]))
  }

  /** Inserting keeps every entry exactly when no equal key is met. */
  lemma {:induction false} InsertAllCount<E>(d: Keyed<E>, entries: seq<E>, more: seq<E>)
    ensures |InsertAll(d, entries, more)| <= |entries| + |more|
    ensures |InsertAll(d, entries, more)| == |entries| + |more| <==> Apart(d, entries, more)
    decreases |more|
  {
    if more != [] {
      InsertCases(d, entries, more[0]);
      InsertAllCount(d, Insert(d, entries, more[0]), more[1..]);
    }
  }

  lemma {:induction false} InsertAllAppends<E>(d: Keyed<E>, entries: seq<E>, more: seq<E>)
    requires Apart(d, entries, more)
    ensures InsertAll(d, entries, more) == entries + more
    decreases |more|
  {
    if more == [] {
      assert entries + more == entries;
    } else {
      InsertCases(d, entries, more[0]);
      InsertAllAppends(d, entries + [more[0]], more[1..]);
      assert entries + [more[0]] + more[1..] == entries + more;
    }
  }

  lemma {:induction false} ApartIffFresh<E>(d: Keyed<E>, entries: seq<E>, more: seq<E>)
    ensures Apart(d, entries, more) <==> FreshFrom(d, entries + more, |entries|)
    decreases |more|
  {
    if more != [] {
      ApartIffFresh(d, entries + [more[0]], more[1..]);
      assert entries + [more[0]] + more[1..] == entries + more;
      FreshSplit(d, entries, more);
    }
  }

  lemma FreshSplit<E>(d: Keyed<E>, entries: seq<E>, more: seq<E>)
    requires more != []
    ensures FreshFrom(d, entries + more, |entries|) <==>
            Absent(d, entries, more[0]) && FreshFrom(d, entries + more, |entries| + 1)
  {
    var all, n := entries + more, |entries|;
    assert FreshAt(d, all, n) <==> Absent(d, entries, more[0]) by {
      assert all[n] == more[0] && forall i :: 0 <= i < n ==> all[i] == entries[i];
    }
  }

  lemma {:induction false} InsertAllSnoc<E>(d: Keyed<E>, entries: seq<E>, more: seq<E>, entry: E)
    ensures InsertAll(d, entries, more + [entry]) == Insert(d, InsertAll(d, entries, more), entry)
    decreases |more|
  {
    if more == [] {
      assert more + [entry] == [entry];
    } else {
      assert (more + [entry])[1..] == more[1..] + [entry];
      InsertAllSnoc(d, Insert(d, entries, more[0]), more[1..], entry);
    }
  }

  /** From the empty dictionary. */
  lemma BuildAppends<E>(d: Keyed<E>, entries: seq<E>)
    ensures |InsertAll(d, [], entries)| <= |entries|
    ensures |InsertAll(d, [], entries)| == |entries| <==> FreshFrom(d, entries, 0)
    ensures FreshFrom(d, entries, 0) ==> InsertAll(d, [], entries) == entries
  {
    InsertAllCount(d, [], entries);
    ApartIffFresh(d, [], entries);
    assert [] + entries == entries;
    if FreshFrom(d, entries, 0) {
      InsertAllAppends(d, [], entries);
    }
  }

  // ---------------------------------------------------------------- data_factory

  predicate FitsInt(n: int) { -0x8000_0000 <= n < 0x8000_0000 }

  predicate FitsLong(n: int) { -0x8000_0000_0000_0000 <= n < 0x8000_0000_0000_0000 }

  /** `_convert_py_number`: int, then long, then double. */
  function ConvertNumber(n: int): Amqp {
    if FitsInt(n) then Int(n) else if FitsLong(n) then Long(n) else Double(n as real)
  }

  /** A C string ends at its first NUL. */
  function CString(bytes: Bytes): Bytes {
    if bytes == [] || bytes[0] == 0 then [] else [bytes[0]] + CString(bytes[1..])
  }

  function AmqpKeys(): Keyed<AmqpEntry> {
    Keyed((a: AmqpEntry, b: AmqpEntry) => a.key == b.key, (was: AmqpEntry, now: AmqpEntry) => was.(value := now.value))
  }

  function Wrapped(v: Py): Amqp
    decreases v, 1
  {
    match v
    case PyNone => Null
    case PyBool(flag) => Bool(flag)
    case PyInt(n) => ConvertNumber(n)
    case PyFloat(x) => Double(x)
    case PyStr(encoded) => String(CString(encoded))
    case PyBytes(bytes) => String(CString(bytes))
    case PyByteArray(bytes) => Binary(bytes)
    case PyUuid(uuid) => Uuid(uuid)
    case PySeq(_, items) => AmqpList(WrappedAll(items))
    case PyDict(entries) => AmqpMap(InsertAll(AmqpKeys(), [], WrappedEntries(entries)))
  }

  function WrappedAll(items: seq<Py>): (r: seq<Amqp>)
    ensures |r| == |items| && forall i :: 0 <= i < |items| ==> r[i] == Wrapped(items[i])
    decreases items, 0
  {
    if items == [] then [] else [Wrapped(items[0])] + WrappedAll(items[1..])
  }

  function WrappedEntries(entries: seq<PyEntry>): (r: seq<AmqpEntry>)
    ensures |r| == |entries|
    ensures forall i :: 0 <= i < |entries| ==> r[i] == WrappedEntry(entries[i])
    decreases entries, 0
  {
    if entries == [] then [] else [WrappedEntry(entries[0])] + WrappedEntries(entries[1..])
  }

  function WrappedEntry(e: PyEntry): AmqpEntry
    decreases e, 2
  {
    AmqpEntry(Wrapped(e.key), Wrapped(e.value))
  }

  // ---------------------------------------------------------------- the .value getters

  /** Lists, sets, dictionaries and byte arrays cannot be dictionary keys. */
  predicate Hashable(v: Py) {
    match v
    case PySeq(kind, _) => kind.Tuple?
    case PyDict(_) => false
    case PyByteArray(_) => false
    case _ => true
  }

  function Number(v: Py): Option<real> {
    match v
    case PyBool(flag) => Some(if flag then 1.0 else 0.0)
    case PyInt(n) => Some(n as real)
    case PyFloat(x) => Some(x)
    case _ => None
  }

  /** Equality of keys: numbers by value, everything else by structure. */
  predicate PyEqual(a: Py, b: Py) {
    if Number(a).Some? && Number(b).Some? then Number(a) == Number(b) else a == b
  }

  function PyKeys(): Keyed<PyEntry> {
    Keyed((a: PyEntry, b: PyEntry) => PyEqual(a.key, b.key), (was: PyEntry, now: PyEntry) => was.(value := now.value))
  }

  /** `.value`; none when the getter raises. */
  function Unwrapped(a: Amqp): Option<Py>
    decreases a, 1
  {
    match a
    case Null => Some(PyNone)
    case Bool(flag) => Some(PyBool(flag))
    case Int(n) => Some(PyInt(n))
    case Long(n) => Some(PyInt(n))
    case Double(x) => Some(PyFloat(x))
    case String(bytes) => Some(PyBytes(bytes))
    case Binary(bytes) => Some(PyBytes(bytes))
    case Uuid(uuid) => Some(PyUuid(uuid))
    case AmqpList(items) =>
      (match UnwrappedAll(items)
       case None => None
       case Some(values) => Some(PySeq(List, values)))
    case AmqpMap(entries) =>
      (match UnwrappedEntries(entries)
       case None => None
       case Some(pairs) => Some(PyDict(InsertAll(PyKeys(), [], pairs))))
  }

  function UnwrappedAll(items: seq<Amqp>): (r: Option<seq<Py>>)
    ensures r.Some? ==> |r.value| == |items|
    decreases items, 0
  {
    if items == [] then Some([])
    else match (Unwrapped(items[0]), UnwrappedAll(items[1..]))
      case (Some(first), Some(rest)) => Some([first] + rest)
      case _ => None
  }

  function UnwrappedEntries(entries: seq<AmqpEntry>): (r: Option<seq<PyEntry>>)
    ensures r.Some? ==> |r.value| == |entries|
    decreases entries, 0
  {
    if entries == [] then Some([])
    else match (UnwrappedEntry(entries[0]), UnwrappedEntries(entries[1..]))
      case (Some(entry), Some(rest)) => Some([entry] + rest)
      case _ => None
  }

  function UnwrappedEntry(e: AmqpEntry): Option<PyEntry>
    decreases e, 2
  {
    match (Unwrapped(e.key), Unwrapped(e.value))
    case (Some(key), Some(value)) => if Hashable(key) then Some(PyEntry(key, value)) else None
    case _ => None
  }

  // ---------------------------------------------------------------- the round trip

  /** What a value is expected to come back as: text and byte arrays as bytes, sequences as lists. */
  function Normal(v: Py): Py
    decreases v, 1
  {
    match v
    case PyStr(encoded) => PyBytes(encoded)
    case PyByteArray(bytes) => PyBytes(bytes)
    case PySeq(_, items) => PySeq(List, NormalAll(items))
    case PyDict(entries) => PyDict(NormalEntries(entries))
    case _ => v
  }

  function NormalAll(items: seq<Py>): (r: seq<Py>)
    ensures |r| == |items|
    decreases items, 0
  {
    if items == [] then [] else [Normal(items[0])] + NormalAll(items[1..])
  }

  function NormalEntries(entries: seq<PyEntry>): (r: seq<PyEntry>)
    ensures |r| == |entries|
    ensures forall i :: 0 <= i < |entries| ==> r[i] == NormalEntry(entries[i])
    decreases entries, 0
  {
    if entries == [] then [] else [NormalEntry(entries[0])] + NormalEntries(entries[1..])
  }

  function NormalEntry(e: PyEntry): PyEntry
    decreases e, 2
  {
    PyEntry(Normal(e.key), Normal(e.value))
  }

  /** What Python guarantees of a value: dictionary keys are hashable and no two are equal. */
  predicate WellFormed(v: Py)
    decreases v, 1
  {
    match v
    case PySeq(_, items) => WellFormedAll(items)
    case PyDict(entries) => WellFormedEntries(entries) && FreshFrom(PyKeys(), entries, 0)
    case _ => true
  }

  predicate WellFormedAll(items: seq<Py>)
    decreases items, 0
  {
    items == [] || (WellFormed(items[0]) && WellFormedAll(items[1..]))
  }

  predicate WellFormedEntries(entries: seq<PyEntry>)
    ensures WellFormedEntries(entries) ==> forall i :: 0 <= i < |entries| ==> Hashable(entries[i].key)
    decreases entries, 0
  {
    entries == [] || (WellFormedEntry(entries[0]) && WellFormedEntries(entries[1..]))
  }

  predicate WellFormedEntry(e: PyEntry)
    decreases e, 2
  {
    Hashable(e.key) && WellFormed(e.key) && WellFormed(e.value)
  }

  /**
    The values that survive: text and bytes without NUL, integers of 64 bits, no tuple as a dictionary
    key, and no two keys of one dictionary with the same encoding.
   */
  predicate Survives(v: Py)
    decreases v, 1
  {
    match v
    case PyInt(n) => FitsLong(n)
    case PyStr(encoded) => 0 !in encoded
    case PyBytes(bytes) => 0 !in bytes
    case PySeq(_, items) => SurvivesAll(items)
    case PyDict(entries) => SurvivesEntries(entries) && FreshFrom(AmqpKeys(), WrappedEntries(entries), 0)
    case _ => true
  }

  predicate SurvivesAll(items: seq<Py>)
    decreases items, 0
  {
    items == [] || (Survives(items[0]) && SurvivesAll(items[1..]))
  }

  predicate SurvivesEntries(entries: seq<PyEntry>)
    ensures SurvivesEntries(entries) ==>
              forall i :: 0 <= i < |entries| ==> SurvivesEntry(entries[i])
    decreases entries, 0
  {
    entries == [] || (SurvivesEntry(entries[0]) && SurvivesEntries(entries[1..]))
  }

  predicate SurvivesEntry(e: PyEntry)
    decreases e, 2
  {
    !e.key.PySeq? && Survives(e.key) && Survives(e.value)
  }

  lemma {:induction false} CStringWhole(bytes: Bytes)
    ensures CString(bytes) == bytes <==> 0 !in bytes
  {
    if bytes != [] {
      CStringWhole(bytes[1..]);
      assert bytes == [bytes[0]] + bytes[1..];
      if bytes[0] != 0 && CString(bytes) == bytes {
        assert CString(bytes)[1..] == CString(bytes[1..]);
      }
    }
  }

  /** Distinct keys with distinct encodings have distinct normal forms. */
  lemma KeysStayApart(a: Py, b: Py)
    requires Hashable(a) && Hashable(b) && !a.PySeq? && !b.PySeq? && Survives(a) && Survives(b)
    requires !PyEqual(a, b) && Wrapped(a) != Wrapped(b)
    ensures !PyEqual(Normal(a), Normal(b))
  {
    if a.PyStr? { CStringWhole(a.encoded); }
    if b.PyStr? { CStringWhole(b.encoded); }
    if a.PyBytes? { CStringWhole(a.bytes); }
    if b.PyBytes? { CStringWhole(b.bytes); }
  }

  lemma NormalKeysFresh(entries: seq<PyEntry>)
    requires WellFormedEntries(entries) && SurvivesEntries(entries)
    requires FreshFrom(PyKeys(), entries, 0) && FreshFrom(AmqpKeys(), WrappedEntries(entries), 0)
    ensures FreshFrom(PyKeys(), NormalEntries(entries), 0)
  {
    var normal, wrapped := NormalEntries(entries), WrappedEntries(entries);
    forall j | 0 <= j < |normal| ensures FreshAt(PyKeys(), normal, j) {
      forall i | 0 <= i < j ensures !PyKeys().same(normal[i], normal[j]) {
        assert FreshAt(PyKeys(), entries, j) && FreshAt(AmqpKeys(), wrapped, j);
        assert !PyKeys().same(entries[i], entries[j]) && !AmqpKeys().same(wrapped[i], wrapped[j]);
        KeysStayApart(entries[i].key, entries[j].key);
      }
    }
  }

  /**
    `.value` of `data_factory(v)` is the normal form of v if and only if v survives: exactly the NULs,
    the wide integers, the tuple keys and the keys that collide once encoded are what is lost.
   */
  lemma {:induction false} RoundTrip(v: Py)
    requires WellFormed(v)
    ensures Unwrapped(Wrapped(v)) == Some(Normal(v)) <==> Survives(v)
    decreases v, 1
  {
    match v {
      case PyStr(encoded) => CStringWhole(encoded);
      case PyBytes(bytes) => CStringWhole(bytes);
      case PySeq(_, items) => RoundTripAll(items);
      case PyDict(entries) =>
        RoundTripEntries(entries);
        RoundTripDict(entries);
      case _ =>
    }
  }

  lemma {:induction false} RoundTripAll(items: seq<Py>)
    requires WellFormedAll(items)
    ensures UnwrappedAll(WrappedAll(items)) == Some(NormalAll(items)) <==> SurvivesAll(items)
    decreases items, 0
  {
    if items != [] {
      RoundTrip(items[0]);
      RoundTripAll(items[1..]);
      var wrapped := WrappedAll(items);
      assert wrapped[1..] == WrappedAll(items[1..]);
      assert NormalAll(items)[0] == Normal(items[0]) && NormalAll(items)[1..] == NormalAll(items[1..]);
      if UnwrappedAll(wrapped) == Some(NormalAll(items)) {
        var values := UnwrappedAll(wrapped).value;
        assert values[0] == Unwrapped(wrapped[0]).value && values[1..] == UnwrappedAll(wrapped[1..]).value;
      }
    }
  }

  lemma {:induction false} RoundTripEntries(entries: seq<PyEntry>)
    requires WellFormedEntries(entries)
    ensures UnwrappedEntries(WrappedEntries(entries)) == Some(NormalEntries(entries)) <==> SurvivesEntries(entries)
    decreases entries, 0
  {
    if entries != [] {
      RoundTripEntry(entries[0]);
      RoundTripEntries(entries[1..]);
      var wrapped := WrappedEntries(entries);
      assert wrapped[1..] == WrappedEntries(entries[1..]);
      assert NormalEntries(entries)[1..] == NormalEntries(entries[1..]);
      if UnwrappedEntries(wrapped) == Some(NormalEntries(entries)) {
        var pairs := UnwrappedEntries(wrapped).value;
        assert pairs[0] == UnwrappedEntry(wrapped[0]).value && NormalEntries(entries)[0] == NormalEntry(entries[0]);
        assert pairs[1..] == UnwrappedEntries(wrapped[1..]).value;
      }
    }
  }

  lemma RoundTripEntry(e: PyEntry)
    requires WellFormedEntry(e)
    ensures UnwrappedEntry(WrappedEntry(e)) == Some(NormalEntry(e)) <==> SurvivesEntry(e)
    decreases e, 2
  {
    RoundTrip(e.key);
    RoundTrip(e.value);
  }

  lemma RoundTripDict(entries: seq<PyEntry>)
    requires WellFormed(PyDict(entries))
    requires UnwrappedEntries(WrappedEntries(entries)) == Some(NormalEntries(entries)) <==> SurvivesEntries(entries)
    ensures Unwrapped(Wrapped(PyDict(entries))) == Some(Normal(PyDict(entries))) <==> Survives(PyDict(entries))
  {
    if Survives(PyDict(entries)) {
      NoCollision(entries);
      DictRestored(entries);
    }
    if Unwrapped(Wrapped(PyDict(entries))) == Some(Normal(PyDict(entries))) {
      RestoredParts(entries);
      RestoredSurvives(entries);
    }
  }

  /** No key of a surviving dictionary collides, on the way out or on the way back. */
  lemma NoCollision(entries: seq<PyEntry>)
    requires WellFormed(PyDict(entries)) && Survives(PyDict(entries))
    ensures InsertAll(AmqpKeys(), [], WrappedEntries(entries)) == WrappedEntries(entries)
    ensures InsertAll(PyKeys(), [], NormalEntries(entries)) == NormalEntries(entries)
  {
    NormalKeysFresh(entries);
    BuildAppends(AmqpKeys(), WrappedEntries(entries));
    BuildAppends(PyKeys(), NormalEntries(entries));
  }

  lemma DictRestored(entries: seq<PyEntry>)
    requires UnwrappedEntries(WrappedEntries(entries)) == Some(NormalEntries(entries))
    requires InsertAll(AmqpKeys(), [], WrappedEntries(entries)) == WrappedEntries(entries)
    requires InsertAll(PyKeys(), [], NormalEntries(entries)) == NormalEntries(entries)
    ensures Unwrapped(Wrapped(PyDict(entries))) == Some(Normal(PyDict(entries)))
  {
  }

  /** What a dictionary that comes back whole was stored as, and read back from. */
  lemma RestoredParts(entries: seq<PyEntry>)
    requires Unwrapped(Wrapped(PyDict(entries))) == Some(Normal(PyDict(entries)))
    ensures var stored := InsertAll(AmqpKeys(), [], WrappedEntries(entries));
            UnwrappedEntries(stored).Some? && InsertAll(PyKeys(), [], UnwrappedEntries(stored).value) == NormalEntries(entries)
  {
  }

  /** It lost no entry on the way, so each entry came back. */
  lemma RestoredSurvives(entries: seq<PyEntry>)
    requires var stored := InsertAll(AmqpKeys(), [], WrappedEntries(entries));
             UnwrappedEntries(stored).Some? && InsertAll(PyKeys(), [], UnwrappedEntries(stored).value) == NormalEntries(entries)
    ensures FreshFrom(AmqpKeys(), WrappedEntries(entries), 0)
    ensures UnwrappedEntries(WrappedEntries(entries)) == Some(NormalEntries(entries))
  {
    var wrapped := WrappedEntries(entries);
    var stored := InsertAll(AmqpKeys(), [], wrapped);
    BuildAppends(AmqpKeys(), wrapped);
    BuildAppends(PyKeys(), UnwrappedEntries(stored).value);
    assert |UnwrappedEntries(stored).value| == |stored| == |entries|;
  }

  /** Scalars that do not come back as they went. */
  lemma ScalarsNotRestored()
    ensures Unwrapped(Wrapped(PyBytes([65, 0, 66]))) != Some(PyBytes([65, 0, 66]))
    ensures Unwrapped(Wrapped(PyInt(0x8000_0000_0000_0000))) != Some(PyInt(0x8000_0000_0000_0000))
  {
    RoundTrip(PyBytes([65, 0, 66]));
  }

  /** A tuple key makes the getter raise. */
  lemma TupleKeyRaises()
    ensures Unwrapped(Wrapped(PyDict([PyEntry(PySeq(Tuple, []), PyNone)]))) == None
  {
    var entry := PyEntry(PySeq(Tuple, []), PyNone);
    assert WrappedEntries([entry]) == [WrappedEntry(entry)];
    BuildAppends(AmqpKeys(), [WrappedEntry(entry)]);
  }

  /** Text and bytes with the same encoding are different keys to Python and one key to AMQP. */
  lemma CollidingKeys()
    ensures var v := PyDict([PyEntry(PyStr([65]), PyInt(1)), PyEntry(PyBytes([65]), PyInt(2))]);
            WellFormed(v) && Unwrapped(Wrapped(v)) != Some(Normal(v))
  {
    var text, raw := PyEntry(PyStr([65]), PyInt(1)), PyEntry(PyBytes([65]), PyInt(2));
    var entries := [text, raw];
    assert WellFormedEntry(text) && WellFormedEntry(raw);
    assert entries[1..] == [raw] && WellFormedEntries([raw]);
    var wrapped := WrappedEntries(entries);
    assert AmqpKeys().same(wrapped[0], wrapped[1]);
    assert !FreshAt(AmqpKeys(), wrapped, 1);
    RoundTrip(PyDict(entries));
  }

  /**
    What a wrapped value must be, kind by kind and at every depth: text and bytes a string that ends at
    the first NUL, byte arrays a binary, each integer the smaller of int and long that holds it.
   */
  ghost predicate Represents(v: Py, a: Amqp)
    decreases v, 1
  {
    match v
    case PyNone => a == Null
    case PyBool(flag) => a == Bool(flag)
    case PyInt(n) => if FitsInt(n) then a == Int(n) else if FitsLong(n) then a == Long(n) else a == Double(n as real)
    case PyFloat(x) => a == Double(x)
    case PyStr(encoded) => a.String? && UpToNul(encoded, a.bytes)
    case PyBytes(bytes) => a.String? && UpToNul(bytes, a.bytes)
    case PyByteArray(bytes) => a == Binary(bytes)
    case PyUuid(uuid) => a == Uuid(uuid)
    case PySeq(_, items) =>
      a.AmqpList? && |a.items| == |items| && forall i :: 0 <= i < |items| ==> Represents(items[i], a.items[i])
    case PyDict(entries) =>
      && a.AmqpMap?
      && (forall j :: 0 <= j < |a.entries| ==> StandsForOne(entries, a.entries[j]))
      && (forall i :: 0 <= i < |entries| ==> KeyStored(entries[i], a.entries))
  }

  ghost predicate StandsForOne(entries: seq<PyEntry>, a: AmqpEntry)
    decreases entries, 0
  {
    exists i :: 0 <= i < |entries| && EntryRepresented(entries[i], a)
  }

  ghost predicate KeyStored(e: PyEntry, stored: seq<AmqpEntry>)
    decreases e, 2
  {
    exists j :: 0 <= j < |stored| && Represents(e.key, stored[j].key)
  }

  ghost predicate EntryRepresented(e: PyEntry, a: AmqpEntry)
    decreases e, 2
  {
    Represents(e.key, a.key) && Represents(e.value, a.value)
  }

  /** The bytes before the first NUL. */
  predicate UpToNul(bytes: Bytes, front: Bytes) {
    front <= bytes && 0 !in front && (|front| < |bytes| ==> bytes[|front|] == 0)
  }

  lemma {:induction false} CStringEndsAtNul(bytes: Bytes)
    ensures UpToNul(bytes, CString(bytes))
  {
    if bytes != [] && bytes[0] != 0 {
      CStringEndsAtNul(bytes[1..]);
      assert bytes == [bytes[0]] + bytes[1..];
    }
  }

  /** Each stored entry is one that was inserted. */
  lemma {:induction false} StoredIsInserted(entries: seq<AmqpEntry>, more: seq<AmqpEntry>, j: nat)
    requires j < |InsertAll(AmqpKeys(), entries, more)|
    ensures InsertAll(AmqpKeys(), entries, more)[j] in entries + more
    decreases |more|
  {
    if more != [] {
      var longer := Insert(AmqpKeys(), entries, more[0]);
      StoredIsInserted(longer, more[1..], j);
      forall x | x in longer + more[1..] ensures x in entries + more {
        if x in longer {
          InsertedIn(entries, more[0], x);
        }
      }
    }
  }

  lemma InsertedIn(entries: seq<AmqpEntry>, entry: AmqpEntry, x: AmqpEntry)
    requires x in Insert(AmqpKeys(), entries, entry)
    ensures x in entries || x == entry
  {
  }

  lemma InsertedPresent(entries: seq<AmqpEntry>, entry: AmqpEntry)
    ensures entry in Insert(AmqpKeys(), entries, entry)
  {
    var i, longer := Find(AmqpKeys(), entries, entry), Insert(AmqpKeys(), entries, entry);
    assert longer[i] == entry;
  }

  /** Each inserted key is stored. */
  lemma {:induction false} KeyIsStored(entries: seq<AmqpEntry>, more: seq<AmqpEntry>, key: Amqp) returns (j: nat)
    requires (exists e :: e in entries && e.key == key) || (exists e :: e in more && e.key == key)
    ensures j < |InsertAll(AmqpKeys(), entries, more)| && InsertAll(AmqpKeys(), entries, more)[j].key == key
    decreases |more|
  {
    if more == [] {
      var e :| e in entries && e.key == key;
      j :| 0 <= j < |entries| && entries[j] == e;
    } else {
      var longer := Insert(AmqpKeys(), entries, more[0]);
      if e :| e in entries && e.key == key {
        var i :| 0 <= i < |entries| && entries[i] == e;
        assert longer[i].key == key;
        assert longer[i] in longer;
      } else if more[0].key == key {
        InsertedPresent(entries, more[0]);
      } else {
        var e :| e in more && e.key == key;
        assert e in more[1..];
      }
      j := KeyIsStored(longer, more[1..], key);
    }
  }

  /** Of entries with one key, the last one inserted gives the value. */
  lemma {:induction false} LastWins(entries: seq<AmqpEntry>, more: seq<AmqpEntry>, x: AmqpEntry)
    requires x in entries && forall i :: 0 <= i < |more| ==> more[i].key != x.key
    ensures x in InsertAll(AmqpKeys(), entries, more)
    decreases |more|
  {
    if more != [] {
      var i :| 0 <= i < |entries| && entries[i] == x;
      assert Insert(AmqpKeys(), entries, more[0])[i] == x;
      LastWins(Insert(AmqpKeys(), entries, more[0]), more[1..], x);
    }
  }

  /** A dictionary whose keys collide once encoded keeps, for each encoded key, the value assigned last. */
  lemma {:induction false} LastAssigned(entries: seq<AmqpEntry>, more: seq<AmqpEntry>, i: nat)
    requires i < |more| && forall k :: i < k < |more| ==> more[k].key != more[i].key
    ensures more[i] in InsertAll(AmqpKeys(), entries, more)
    decreases |more|
  {
    var longer := Insert(AmqpKeys(), entries, more[0]);
    if i == 0 {
      InsertedPresent(entries, more[0]);
      LastWins(longer, more[1..], more[0]);
    } else {
      LastAssigned(longer, more[1..], i - 1);
    }
  }

  lemma EqualKeys(a: Py, b: Py, c: Py)
    ensures PyEqual(a, b) && PyEqual(a, c) ==> PyEqual(b, c)
  {
  }

  lemma {:induction false} PyLastWins(entries: seq<PyEntry>, more: seq<PyEntry>, x: PyEntry, key: Py)
    requires x in entries && PyEqual(x.key, key) && forall i :: 0 <= i < |more| ==> !PyEqual(more[i].key, key)
    ensures x in InsertAll(PyKeys(), entries, more)
    decreases |more|
  {
    if more != [] {
      EqualKeys(x.key, more[0].key, key);
      var i :| 0 <= i < |entries| && entries[i] == x;
      assert Insert(PyKeys(), entries, more[0])[i] == x;
      PyLastWins(Insert(PyKeys(), entries, more[0]), more[1..], x, key);
    }
  }

  /** A getter's dictionary keeps, of keys that are equal in Python, the value assigned last. */
  lemma {:induction false} PyLastAssigned(entries: seq<PyEntry>, more: seq<PyEntry>, i: nat) returns (x: PyEntry)
    requires i < |more| && forall k :: i < k < |more| ==> !PyEqual(more[k].key, more[i].key)
    ensures x in InsertAll(PyKeys(), entries, more) && PyEqual(x.key, more[i].key) && x.value == more[i].value
    decreases |more|
  {
    var longer := Insert(PyKeys(), entries, more[0]);
    if i == 0 {
      x := longer[Find(PyKeys(), entries, more[0])];
      PyLastWins(longer, more[1..], x, more[0].key);
    } else {
      x := PyLastAssigned(longer, more[1..], i - 1);
    }
  }

  /** `data_factory` gives every value of the tree the kind that stands for it. */
  lemma {:induction false} WrappedRepresents(v: Py)
    ensures Represents(v, Wrapped(v))
    decreases v
  {
    match v {
      case PyStr(encoded) => CStringEndsAtNul(encoded);
      case PyBytes(bytes) => CStringEndsAtNul(bytes);
      case PySeq(_, items) =>
        forall i | 0 <= i < |items| ensures Represents(items[i], WrappedAll(items)[i]) {
          WrappedRepresents(items[i]);
        }
      case PyDict(entries) =>
        forall i | 0 <= i < |entries| ensures EntryRepresented(entries[i], WrappedEntry(entries[i])) {
          WrappedRepresents(entries[i].key);
          WrappedRepresents(entries[i].value);
        }
        DictRepresents(entries);
      case _ =>
    }
  }

  lemma StoredFrom(entries: seq<PyEntry>, j: nat) returns (i: nat)
    requires j < |InsertAll(AmqpKeys(), [], WrappedEntries(entries))|
    ensures i < |entries| && InsertAll(AmqpKeys(), [], WrappedEntries(entries))[j] == WrappedEntry(entries[i])
  {
    var wrapped := WrappedEntries(entries);
    StoredIsInserted([], wrapped, j);
    assert [] + wrapped == wrapped;
    i :| 0 <= i < |wrapped| && wrapped[i] == InsertAll(AmqpKeys(), [], wrapped)[j];
  }

  lemma KeyFrom(entries: seq<PyEntry>, i: nat) returns (j: nat)
    requires i < |entries|
    ensures j < |InsertAll(AmqpKeys(), [], WrappedEntries(entries))|
    ensures InsertAll(AmqpKeys(), [], WrappedEntries(entries))[j].key == WrappedEntry(entries[i]).key
  {
    var wrapped := WrappedEntries(entries);
    assert wrapped[i] in wrapped;
    j := KeyIsStored([], wrapped, wrapped[i].key);
  }

  lemma DictRepresents(entries: seq<PyEntry>)
    requires forall i :: 0 <= i < |entries| ==> EntryRepresented(entries[i], WrappedEntry(entries[i]))
    ensures Represents(PyDict(entries), Wrapped(PyDict(entries)))
  {
    var stored := InsertAll(AmqpKeys(), [], WrappedEntries(entries));
    assert Wrapped(PyDict(entries)) == AmqpMap(stored);
    forall j | 0 <= j < |stored| ensures StandsForOne(entries, stored[j]) {
      var i := StoredFrom(entries, j);
      assert EntryRepresented(entries[i], stored[j]);
    }
    forall i | 0 <= i < |entries| ensures KeyStored(entries[i], stored) {
      var j := KeyFrom(entries, i);
      assert EntryRepresented(entries[i], WrappedEntry(entries[i]));
      assert Represents(entries[i].key, stored[j].key);
    }
  }

  // ---------------------------------------------------------------- the loops

  /** `data_factory`, filling the list or map item by item. */
  method DataFactory(v: Py) returns (r: Amqp)
    ensures r == Wrapped(v)
    decreases v
  {
    match v {
      case PyNone => r := Null;
      case PyBool(flag) => r := Bool(flag);
      case PyInt(n) => r := ConvertNumber(n);
      case PyFloat(x) => r := Double(x);
      case PyStr(encoded) => r := String(CString(encoded));
      case PyBytes(bytes) => r := String(CString(bytes));
      case PyByteArray(bytes) => r := Binary(bytes);
      case PyUuid(uuid) => r := Uuid(uuid);
      case PySeq(_, items) =>
        var wrapped: seq<Amqp> := [];
        for i := 0 to |items|
          invariant |wrapped| == i && forall j :: 0 <= j < i ==> wrapped[j] == Wrapped(items[j])
        {
          var item := DataFactory(items[i]);
          wrapped := wrapped + [item];
        }
        assert wrapped == WrappedAll(items);
        r := AmqpList(wrapped);
      case PyDict(entries) =>
        var wrapped: seq<AmqpEntry> := [];
        ghost var all := WrappedEntries(entries);
        for i := 0 to |entries|
          invariant InsertAll(AmqpKeys(), wrapped, all[i..]) == InsertAll(AmqpKeys(), [], all)
        {
          var key := DataFactory(entries[i].key);
          var value := DataFactory(entries[i].value);
          assert all[i..][1..] == all[i + 1..];
          wrapped := Insert(AmqpKeys(), wrapped, AmqpEntry(key, value));
        }
        r := AmqpMap(wrapped);
    }
  }

  /** The `.value` getters. */
  method GetValue(a: Amqp) returns (r: Option<Py>)
    ensures r == Unwrapped(a)
    decreases a, 1
  {
    match a {
      case AmqpList(items) =>
        var values := GetListValue(items);
        r := if values.None? then None else Some(PySeq(List, values.value));
      case AmqpMap(entries) =>
        var pairs := GetMapValue(entries);
        r := if pairs.None? then None else Some(PyDict(pairs.value));
      case _ => r := Unwrapped(a);
    }
  }

  /** Collects the values of the items into a list. */
  method GetListValue(items: seq<Amqp>) returns (r: Option<seq<Py>>)
    ensures r == UnwrappedAll(items)
    decreases items, 0
  {
    var values: seq<Py> := [];
    assert items[0..] == items;
    PrependUnits([], UnwrappedAll(items));
    for i := 0 to |items|
      invariant UnwrappedAll(items) == Prepend(values, UnwrappedAll(items[i..]))
    {
      var value := GetValue(items[i]);
      assert items[i..][1..] == items[i + 1..];
      if value.None? {
        return None;
      }
      PrependSnoc(values, value.value, UnwrappedAll(items[i + 1..]));
      values := values + [value.value];
    }
    PrependUnits(values, None);
    r := Some(values);
  }

  /** Assigns the values of the entries, one by one, in a dictionary. */
  method GetMapValue(entries: seq<AmqpEntry>) returns (r: Option<seq<PyEntry>>)
    ensures r == match UnwrappedEntries(entries)
                 case None => None
                 case Some(pairs) => Some(InsertAll(PyKeys(), [], pairs))
    decreases entries, 0
  {
    var pairs: seq<PyEntry> := [];
    ghost var seen: seq<PyEntry> := [];
    assert entries[0..] == entries;
    PrependUnits([], UnwrappedEntries(entries));
    for i := 0 to |entries|
      invariant UnwrappedEntries(entries) == Prepend(seen, UnwrappedEntries(entries[i..]))
      invariant pairs == InsertAll(PyKeys(), [], seen)
    {
      assert entries[i..][1..] == entries[i + 1..];
      var entry := GetEntryValue(entries[i]);
      if entry.None? {
        return None;
      }
      PrependSnoc(seen, entry.value, UnwrappedEntries(entries[i + 1..]));
      InsertAllSnoc(PyKeys(), [], seen, entry.value);
      pairs := Insert(PyKeys(), pairs, entry.value);
      seen := seen + [entry.value];
    }
    PrependUnits(seen, None);
    r := Some(pairs);
  }

  /** The value of a key and of its item; a key that cannot be hashed raises. */
  method GetEntryValue(e: AmqpEntry) returns (r: Option<PyEntry>)
    ensures r == UnwrappedEntry(e)
    decreases e, 2
  {
    var key := GetValue(e.key);
    var value := GetValue(e.value);
    if key.None? || value.None? || !Hashable(key.value) {
      return None;
    }
    return Some(PyEntry(key.value, value.value));
  }

  function Prepend<T>(front: seq<T>, back: Option<seq<T>>): Option<seq<T>> {
    if back.None? then None else Some(front + back.value)
  }

  lemma PrependSnoc<T>(front: seq<T>, x: T, back: Option<seq<T>>)
    ensures Prepend(front, Prepend([x], back)) == Prepend(front + [x], back)
  {
    if back.Some? {
      assert front + ([x] + back.value) == front + [x] + back.value;
    }
  }

  lemma PrependUnits<T>(front: seq<T>, back: Option<seq<T>>)
    ensures Prepend([], back) == back && Prepend(front, Some([])) == Some(front)
  {
    assert front + [] == front;
    assert back.Some? ==> [] + back.value == back.value;
  }
}

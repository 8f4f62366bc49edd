/**
  The batch splitter of `BatchMessage`: items, already encoded to bytes, are packed greedily and in
  order into messages whose counted size stays within `max_message_length`; the item that does not
  fit is carried into the next message.
 */
module BatchSplitter {
  import opened Octets

  /** The body of one yielded message: its data sections, in order. */
  type Body = seq<Bytes>

  /** The size the splitter counts for a body: payload bytes only. */
  function Size(body: Body): nat {
    if body == [] then 0 else Size(body[..|body| - 1]) + |body[|body| - 1]|
  }

  function Flatten(messages: seq<Body>): Body {
    if messages == [] then [] else messages[0] + Flatten(messages[1..])
  }

  /** A carried item opens the next message only when it is truthy, that is, non-empty. */
  function Opening(carried: Bytes): Body {
    if |carried| > 0 then [carried] else []
  }

  /**
    The messages yielded from the open body `current` and the items still to come, when a body may
    count up to `cap` bytes (`max_message_length` less the size of the message's other sections).
   */
  function Pack(cap: int, current: Body, rest: seq<Bytes>): (messages: seq<Body>)
    ensures messages != []
    decreases |rest|
  {
    if rest == [] then [current]
    else if Size(current) + |rest[0]| > cap then [current] + Pack(cap, Opening(rest[0]), rest[1..])
    else Pack(cap, current + [rest[0]], rest[1..])
  }

  lemma SizeSnoc(body: Body, item: Bytes)
    ensures Size(body + [item]) == Size(body) + |item|
  {
    assert (body + [item])[..|body|] == body;
  }

  lemma {:induction false} SizeConcat(a: Body, b: Body)
    ensures Size(a + b) == Size(a) + Size(b)
  {
    if b == [] {
      assert a + b == a;
    } else {
      var n := |b| - 1;
      SizeConcat(a, b[..n]);
      SizeSnoc(a + b[..n], b[n]);
      assert a + b[..n] + [b[n]] == a + b;
    }
  }

  lemma FlattenCons(first: Body, more: seq<Body>)
    ensures Flatten([first] + more) == first + Flatten(more)
  {
    assert ([first] + more)[1..] == more;
  }

  // ---------------------------------------------------------------- nothing lost, order kept

  /**
    A section is lost exactly when an empty item arrives while the open body is already over the cap:
    `before` is the size of the open body, and later it is the size of the item just carried.
   */
  predicate LosesSection(cap: int, before: nat, items: seq<Bytes>) {
    exists i :: 0 <= i < |items| && LostAt(cap, before, items, i)
  }

  predicate LostAt(cap: int, before: nat, items: seq<Bytes>, i: nat)
    requires i < |items|
  {
    items[i] == [] && (if i == 0 then before else |items[i - 1]|) > cap
  }

  lemma LosesUnroll(cap: int, before: nat, items: seq<Bytes>)
    requires items != []
    ensures LosesSection(cap, before, items) <==>
            (items[0] == [] && before > cap) || LosesSection(cap, |items[0]|, items[1..])
  {
    var rest := items[1..];
    if LosesSection(cap, before, items) {
      var i :| 0 <= i < |items| && LostAt(cap, before, items, i);
      assert i > 0 ==> LostAt(cap, |items[0]|, rest, i - 1);
    }
    if items[0] == [] && before > cap {
      assert LostAt(cap, before, items, 0);
    }
    if LosesSection(cap, |items[0]|, rest) {
      var j :| 0 <= j < |rest| && LostAt(cap, |items[0]|, rest, j);
      assert LostAt(cap, before, items, j + 1);
    }
  }

  lemma {:induction false} PackAddsNothing(cap: int, current: Body, rest: seq<Bytes>)
    ensures |Flatten(Pack(cap, current, rest))| <= |current| + |rest|
    decreases |rest|
  {
    if rest == [] {
      FlattenCons(current, []);
      assert Pack(cap, current, rest) == [current] + [];
    } else if Size(current) + |rest[0]| > cap {
      PackAddsNothing(cap, Opening(rest[0]), rest[1..]);
      FlattenCons(current, Pack(cap, Opening(rest[0]), rest[1..]));
    } else {
      PackAddsNothing(cap, current + [rest[0]], rest[1..]);
    }
  }

  lemma {:induction false} PackKeeps(cap: int, before: nat, current: Body, rest: seq<Bytes>)
    requires before > cap <==> Size(current) > cap
    ensures Flatten(Pack(cap, current, rest)) == current + rest <==> !LosesSection(cap, before, rest)
    decreases |rest|
  {
    if rest == [] {
      FlattenCons(current, []);
      assert Pack(cap, current, rest) == [current] + [];
    } else {
      var item, later := rest[0], rest[1..];
      LosesUnroll(cap, before, rest);
      SizeSnoc(current, item);
      if Size(current) + |item| > cap {
        OpeningSize(item);
        PackKeeps(cap, |item|, Opening(item), later);
        PackAddsNothing(cap, Opening(item), later);
        OverflowKeeps(current, rest, Pack(cap, Opening(item), later));
      } else {
        PackKeeps(cap, |item|, current + [item], later);
        assert current + rest == current + [item] + later;
      }
    }
  }

  /** After an overflow the sections are all there if the carried item was kept and the later ones are. */
  lemma OverflowKeeps(current: Body, rest: seq<Bytes>, tail: seq<Body>)
    requires rest != [] && |Flatten(tail)| <= |Opening(rest[0])| + |rest| - 1
    ensures Flatten([current] + tail) == current + rest <==>
            rest[0] != [] && Flatten(tail) == Opening(rest[0]) + rest[1..]
  {
    FlattenCons(current, tail);
    assert rest == [rest[0]] + rest[1..];
    Cancel(current, Flatten(tail), rest);
  }

  lemma Cancel(front: Body, a: Body, b: Body)
    ensures front + a == front + b <==> a == b
  {
    assert (front + a)[|front|..] == a && (front + b)[|front|..] == b;
  }

  /**
    The data sections of the yielded messages, concatenated, are the encoded items in order, each
    once, if and only if no empty item follows an item too large to fit alone (and, when the cap is
    negative, no item is empty).
   */
  lemma SectionsConserved(cap: int, items: seq<Bytes>)
    ensures Flatten(Pack(cap, [], items)) == items <==> !LosesSection(cap, 0, items)
    ensures (forall i :: 0 <= i < |items| ==> items[i] != []) ==> Flatten(Pack(cap, [], items)) == items
  {
    PackKeeps(cap, 0, [], items);
    assert [] + items == items;
  }

  /** An empty item is lost when it follows one that does not fit. */
  lemma EmptyItemLost()
    ensures Flatten(Pack(1, [], [[7, 7], []])) != [[7, 7], []]
  {
    var items: seq<Bytes> := [[7, 7], []];
    assert LostAt(1, 0, items, 1);
    SectionsConserved(1, items);
  }

  // ---------------------------------------------------------------- the size of each message

  lemma {:induction false} PackBounded(cap: int, current: Body, rest: seq<Bytes>, k: nat)
    requires Size(current) <= cap || current == [] || |current| == 1
    requires k < |Pack(cap, current, rest)|
    ensures var message := Pack(cap, current, rest)[k];
            || message == []
            || Size(message) <= cap
            || (|message| == 1 && |message[0]| > cap)
    ensures (forall i :: 0 <= i < |rest| ==> rest[i] != []) && (current != [] || k > 0) ==>
              Pack(cap, current, rest)[k] != []
    decreases |rest|
  {
    if |current| == 1 {
      SizeSnoc([], current[0]);
      assert [] + [current[0]] == current;
    }
    if rest != [] {
      var item, later := rest[0], rest[1..];
      if Size(current) + |item| > cap {
        if k > 0 {
          PackBounded(cap, Opening(item), later, k - 1);
          assert Pack(cap, current, rest)[k] == Pack(cap, Opening(item), later)[k - 1];
        }
      } else {
        SizeSnoc(current, item);
        PackBounded(cap, current + [item], later, k);
        if k == 0 { PackFirst(cap, current + [item], later); }
      }
    }
  }

  /** The first message extends the open body. */
  lemma {:induction false} PackFirst(cap: int, current: Body, rest: seq<Bytes>)
    ensures current <= Pack(cap, current, rest)[0]
    decreases |rest|
  {
    if rest != [] && Size(current) + |rest[0]| <= cap {
      PackFirst(cap, current + [rest[0]], rest[1..]);
    }
  }

  /**
    Every yielded message counts at most the cap, or holds one section that cannot fit alone, or is
    empty. For non-empty items the k-th message is empty if and only if it is the first one and the
    input is empty or opens with an oversized item.
   */
  lemma EachMessageFits(cap: int, items: seq<Bytes>, k: nat)
    requires k < |Pack(cap, [], items)|
    ensures var message := Pack(cap, [], items)[k];
            message == [] || Size(message) <= cap || (|message| == 1 && |message[0]| > cap)
    ensures (forall i :: 0 <= i < |items| ==> items[i] != []) ==>
              (Pack(cap, [], items)[k] == [] <==> k == 0 && (items == [] || |items[0]| > cap))
  {
    PackBounded(cap, [], items, k);
    if items != [] && |items[0]| <= cap {
      PackFirst(cap, [] + [items[0]], items[1..]);
    }
  }

  // What the count leaves out: the data section's descriptor (three bytes) and its vbin8 or vbin32
  // constructor and length, by sections 3.2.6 and 1.6.19 of OASIS AMQP 1.0.

  function Framed(item: Bytes): nat {
    |item| + 3 + if |item| < 256 then 2 else 5
  }

  function WireSize(body: Body): nat {
    if body == [] then 0 else WireSize(body[..|body| - 1]) + Framed(body[|body| - 1])
  }

  function Long(body: Body): nat {
    if body == [] then 0 else Long(body[..|body| - 1]) + if |body[|body| - 1]| < 256 then 0 else 1
  }

  /** A body takes, beyond its counted size, five bytes a section and three more for each long one. */
  lemma {:induction false} FramingGap(body: Body)
    ensures WireSize(body) == Size(body) + 5 * |body| + 3 * Long(body)
    ensures Long(body) <= |body|
  {
    if body != [] { FramingGap(body[..|body| - 1]); }
  }

  /** On the wire a yielded body may exceed the cap by its framing, at most eight bytes a section. */
  lemma WireOverrun(cap: int, items: seq<Bytes>, k: nat)
    requires k < |Pack(cap, [], items)| && Size(Pack(cap, [], items)[k]) <= cap
    ensures var message := Pack(cap, [], items)[k];
            && WireSize(message) <= cap + 8 * |message|
            && (WireSize(message) <= cap <==> 5 * |message| + 3 * Long(message) <= cap - Size(message))
  {
    FramingGap(Pack(cap, [], items)[k]);
  }

  // ---------------------------------------------------------------- greedy is optimal

  /** A split of the items that keeps their order and respects the counted size limit. */
  predicate Split(cap: int, items: seq<Bytes>, parts: seq<Body>) {
    Flatten(parts) == items && forall i :: 0 <= i < |parts| ==> Size(parts[i]) <= cap
  }

  /** As a split, but an item that cannot fit alone may be a part by itself. */
  predicate LooseSplit(cap: int, items: seq<Bytes>, parts: seq<Body>) {
    Flatten(parts) == items && forall i :: 0 <= i < |parts| ==> Size(parts[i]) <= cap || |parts[i]| == 1
  }

  /** The messages that hold a section. */
  function NonEmpty(messages: seq<Body>): seq<Body> {
    if messages == [] then []
    else (if messages[0] == [] then [] else [messages[0]]) + NonEmpty(messages[1..])
  }

  lemma NonEmptyCons(first: Body, more: seq<Body>)
    ensures NonEmpty([first] + more) == (if first == [] then [] else [first]) + NonEmpty(more)
  {
    assert ([first] + more)[1..] == more;
  }

  /**
    The greedy packing stays ahead: if the open body began at or after the place where some other
    split's current part began, the packing needs no more non-empty messages than that split has parts.
   */
  lemma {:induction false} StaysAhead(cap: int, earlier: Body, current: Body, rest: seq<Bytes>, parts: seq<Body>)
    requires parts != [] && LooseSplit(cap, earlier + current + rest, parts)
    ensures |NonEmpty(Pack(cap, current, rest))| <= |parts|
    decreases |rest|
  {
    if rest != [] {
      var item, later := rest[0], rest[1..];
      if Size(current) + |item| > cap {
        NonEmptyCons(current, Pack(cap, Opening(item), later));
        if current == [] {
          CarriesOn(earlier, item, later);
          assert earlier + current + rest == earlier + rest && rest == [item] + later;
          StaysAhead(cap, if item == [] then earlier + [item] else earlier, Opening(item), later, parts);
        } else {
          var between := NextPart(cap, earlier, current, rest, parts);
          CarriesOn(between, item, later);
          StaysAhead(cap, if item == [] then between + [item] else between, Opening(item), later, parts[1..]);
        }
      } else {
        assert earlier + current + rest == earlier + (current + [item]) + later;
        StaysAhead(cap, earlier, current + [item], later, parts);
      }
    }
  }

  /** The carried item opens the next message, or, when it is empty, is left behind. */
  lemma CarriesOn(earlier: Body, item: Bytes, later: seq<Bytes>)
    ensures (if item == [] then earlier + [item] else earlier) + Opening(item) + later == earlier + ([item] + later)
  {
  }

  /** No part holds the open body and the item that overflows it, so the next part begins no later than that item. */
  lemma NextPart(cap: int, earlier: Body, current: Body, rest: seq<Bytes>, parts: seq<Body>) returns (between: Body)
    requires parts != [] && LooseSplit(cap, earlier + current + rest, parts)
    requires current != [] && rest != [] && Size(current) + |rest[0]| > cap
    ensures parts[1..] != [] && LooseSplit(cap, between + ([rest[0]] + rest[1..]), parts[1..])
  {
    var item := rest[0];
    var all, first, others := earlier + current + rest, parts[0], parts[1..];
    assert all == first + Flatten(others);
    var seen := |earlier| + |current|;
    if |first| > seen {
      assert first == all[..|first|];
      assert first == earlier + (current + [item]) + first[seen + 1..];
      SizeConcat(earlier + (current + [item]), first[seen + 1..]);
      SizeConcat(earlier, current + [item]);
      SizeSnoc(current, item);
      assert false;
    }
    between := (earlier + current)[|first|..];
    assert rest == [item] + rest[1..];
    assert Flatten(others) == all[|first|..] == between + ([item] + rest[1..]);
  }

  /** An item of a split lies in a part, so it fits alone. */
  lemma {:induction false} ItemFits(cap: int, parts: seq<Body>, items: seq<Bytes>, i: nat)
    requires Split(cap, items, parts) && i < |items|
    ensures |items[i]| <= cap
    decreases |parts|
  {
    var first, others := parts[0], parts[1..];
    assert items == first + Flatten(others);
    if i < |first| {
      assert first == first[..i] + [first[i]] + first[i + 1..];
      SizeConcat(first[..i] + [first[i]], first[i + 1..]);
      SizeSnoc(first[..i], first[i]);
    } else {
      assert Split(cap, Flatten(others), others);
      ItemFits(cap, others, Flatten(others), i - |first|);
    }
  }

  /**
    For all items: among all order-preserving splits whose parts fit or are one item that cannot, none
    has fewer parts than the splitter yields non-empty messages.
   */
  lemma FewestNonEmpty(cap: int, items: seq<Bytes>, parts: seq<Body>)
    requires LooseSplit(cap, items, parts)
    ensures |NonEmpty(Pack(cap, [], items))| <= |parts|
  {
    assert [] + [] + items == items;
    if parts != [] {
      StaysAhead(cap, [], [], items, parts);
    } else {
      NonEmptyCons([], []);
      assert Pack(cap, [], items) == [[]] + [];
    }
  }

  lemma {:induction false} NonEmptyKeeps(messages: seq<Body>)
    ensures Flatten(NonEmpty(messages)) == Flatten(messages)
  {
    if messages != [] {
      var tail := NonEmpty(messages[1..]);
      NonEmptyKeeps(messages[1..]);
      if messages[0] == [] {
        assert NonEmpty(messages) == tail && Flatten(messages) == Flatten(messages[1..]);
      } else {
        FlattenCons(messages[0], tail);
      }
    }
  }

  /** Each non-empty message is one of the messages. */
  lemma {:induction false} NonEmptyFrom(messages: seq<Body>, i: nat) returns (k: nat)
    requires i < |NonEmpty(messages)|
    ensures k < |messages| && messages[k] == NonEmpty(messages)[i] != []
  {
    if messages[0] == [] {
      assert NonEmpty(messages) == NonEmpty(messages[1..]);
      k := NonEmptyFrom(messages[1..], i);
      k := k + 1;
    } else if i > 0 {
      k := NonEmptyFrom(messages[1..], i - 1);
      k := k + 1;
    } else {
      k := 0;
    }
  }

  /** For non-empty items the non-empty messages are themselves such a split, so the minimum is attained. */
  lemma NonEmptyIsLoose(cap: int, items: seq<Bytes>)
    requires forall i :: 0 <= i < |items| ==> items[i] != []
    ensures LooseSplit(cap, items, NonEmpty(Pack(cap, [], items)))
  {
    var messages := Pack(cap, [], items);
    SectionsConserved(cap, items);
    NonEmptyKeeps(messages);
    forall i | 0 <= i < |NonEmpty(messages)| ensures Size(NonEmpty(messages)[i]) <= cap || |NonEmpty(messages)[i]| == 1 {
      var k := NonEmptyFrom(messages, i);
      EachMessageFits(cap, items, k);
    }
  }

  /** When every item fits alone no message is empty. */
  lemma {:induction false} NoneEmpty(cap: int, current: Body, rest: seq<Bytes>)
    requires Size(current) <= cap && (current != [] || rest != [])
    requires forall i :: 0 <= i < |rest| ==> |rest[i]| <= cap
    ensures NonEmpty(Pack(cap, current, rest)) == Pack(cap, current, rest)
    decreases |rest|
  {
    if rest == [] {
      NonEmptyCons(current, []);
      assert [current] + [] == [current];
    } else if Size(current) + |rest[0]| > cap {
      OpeningSize(rest[0]);
      NoneEmpty(cap, Opening(rest[0]), rest[1..]);
      NonEmptyCons(current, Pack(cap, Opening(rest[0]), rest[1..]));
    } else {
      SizeSnoc(current, rest[0]);
      NoneEmpty(cap, current + [rest[0]], rest[1..]);
    }
  }

  /** Among all order-preserving splits within the limit, the splitter yields the fewest messages. */
  lemma FewestMessages(cap: int, items: seq<Bytes>, parts: seq<Body>)
    requires Split(cap, items, parts)
    ensures |Pack(cap, [], items)| <= if parts == [] then 1 else |parts|
  {
    FewestNonEmpty(cap, items, parts);
    if items != [] {
      forall i | 0 <= i < |items| ensures |items[i]| <= cap {
        ItemFits(cap, parts, items, i);
      }
      assert parts != [] && Size(parts[0]) <= cap;
      NoneEmpty(cap, [], items);
    }
  }

  /** The greedy packing is itself such a split whenever one exists, so the minimum is attained. */
  lemma {:induction false} GreedyIsASplit(cap: int, items: seq<Bytes>)
    requires cap >= 0 && forall i :: 0 <= i < |items| ==> |items[i]| <= cap
    ensures Split(cap, items, Pack(cap, [], items))
  {
    PackKeeps(cap, 0, [], items);
    assert [] + items == items;
    var messages := Pack(cap, [], items);
    forall k | 0 <= k < |messages| ensures Size(messages[k]) <= cap {
      EachMessageFits(cap, items, k);
      if |messages[k]| == 1 && |messages[k][0]| > cap {
        FlattenHas(messages, k, 0);
      }
    }
  }

  lemma {:induction false} FlattenHas(messages: seq<Body>, k: nat, j: nat)
    requires k < |messages| && j < |messages[k]|
    ensures messages[k][j] in Flatten(messages)
  {
    if k > 0 { FlattenHas(messages[1..], k - 1, j); }
  }

  // ---------------------------------------------------------------- one message or none

  datatype Gathered = Single(body: Body) | ContentTooLarge

  lemma {:induction false} OverflowSplits(cap: int, current: Body, rest: seq<Bytes>)
    ensures |Pack(cap, current, rest)| >= 1
    ensures |Pack(cap, current, rest)| == 1 <==> rest == [] || Size(current + rest) <= cap
    ensures |Pack(cap, current, rest)| == 1 ==> Pack(cap, current, rest) == [current + rest]
    decreases |rest|
  {
    if rest == [] {
      assert current + rest == current;
    } else {
      var item, later := rest[0], rest[1..];
      SizeSnoc(current, item);
      assert current + rest == current + [item] + later;
      SizeConcat(current + [item], later);
      if Size(current) + |item| > cap {
        OverflowSplits(cap, Opening(item), later);
      } else {
        OverflowSplits(cap, current + [item], later);
        if later == [] { assert current + rest == current + [item]; }
      }
    }
  }

  lemma WholeFits(cap: int, items: seq<Bytes>)
    ensures |Pack(cap, [], items)| == 1 <==> items == [] || Size(items) <= cap
    ensures |Pack(cap, [], items)| == 1 ==> Pack(cap, [], items) == [items]
  {
    OverflowSplits(cap, [], items);
    assert [] + items == items;
  }

  lemma PrefixSize(items: seq<Bytes>, n: nat)
    requires n <= |items|
    ensures Size(items[..n]) <= Size(items)
  {
    SizeConcat(items[..n], items[n..]);
    assert items == items[..n] + items[n..];
  }

  // ---------------------------------------------------------------- data that can be iterated again

  /** The first item at which a pass over the items overflows a body that already counts `size`. */
  function FirstOverflow(cap: int, size: nat, items: seq<Bytes>): (r: int)
    ensures -1 <= r < |items|
    decreases |items|
  {
    if items == [] then -1
    else if size + |items[0]| > cap then 0
    else var later := FirstOverflow(cap, size + |items[0]|, items[1..]);
         if later == -1 then -1 else later + 1
  }

  /**
    With data that restarts at every `for`, such as a list, each new message begins again at the
    first item. This says whether the generator is done after at most `messages` messages.
   */
  predicate RestartingEnds(cap: int, carried: Bytes, items: seq<Bytes>, messages: nat)
    decreases messages
  {
    messages > 0 &&
    var k := FirstOverflow(cap, |carried|, items);
    k == -1 || RestartingEnds(cap, items[k], items, messages - 1)
  }

  lemma {:induction false} OverflowMonotone(cap: int, size: nat, more: nat, items: seq<Bytes>)
    requires FirstOverflow(cap, size, items) != -1
    ensures FirstOverflow(cap, size + more, items) != -1
    decreases |items|
  {
    if size + more + |items[0]| <= cap {
      OverflowMonotone(cap, size + |items[0]|, more, items[1..]);
    }
  }

  lemma {:induction false} OverflowsIffSplit(cap: int, current: Body, rest: seq<Bytes>)
    ensures FirstOverflow(cap, Size(current), rest) == -1 <==> |Pack(cap, current, rest)| == 1
    decreases |rest|
  {
    if rest != [] {
      if Size(current) + |rest[0]| > cap {
        OverflowSplits(cap, Opening(rest[0]), rest[1..]);
      } else {
        SizeSnoc(current, rest[0]);
        OverflowsIffSplit(cap, current + [rest[0]], rest[1..]);
      }
    }
  }

  lemma {:induction false} RestartingNeverEnds(cap: int, carried: Bytes, items: seq<Bytes>, messages: nat)
    requires FirstOverflow(cap, 0, items) != -1
    ensures !RestartingEnds(cap, carried, items, messages)
    decreases messages
  {
    OverflowMonotone(cap, 0, |carried|, items);
    if messages > 0 {
      RestartingNeverEnds(cap, items[FirstOverflow(cap, |carried|, items)], items, messages - 1);
    }
  }

  /**
    Re-iterable data is split after finitely many messages if and only if it all fits in one message;
    otherwise the generator yields for ever.
   */
  lemma RestartingEndsIffOneMessage(cap: int, items: seq<Bytes>)
    ensures |Pack(cap, [], items)| == 1 ==> RestartingEnds(cap, [], items, 1)
    ensures |Pack(cap, [], items)| != 1 ==> forall n: nat :: !RestartingEnds(cap, [], items, n)
  {
    OverflowsIffSplit(cap, [], items);
    if |Pack(cap, [], items)| != 1 {
      forall n: nat ensures !RestartingEnds(cap, [], items, n) {
        RestartingNeverEnds(cap, [], items, n);
      }
    }
  }

  // ---------------------------------------------------------------- the generator and gather

  /** The messages that follow a yielded one: none unless it was full. */
  ghost function StillToCome(cap: int, full: bool, carried: Bytes, rest: seq<Bytes>): seq<Body> {
    if full then Pack(cap, Opening(carried), rest) else []
  }

  lemma OpeningSize(carried: Bytes)
    ensures Size(Opening(carried)) == |carried|
  {
    SizeSnoc([], carried);
    assert [] + [carried] == [carried];
  }

  lemma Regroup(before: seq<Body>, body: Body, after: seq<Body>)
    ensures before + ([body] + after) == before + [body] + after
  {
  }

  /** A batch over a one-shot iterator: `cursor` counts the items already taken from it. */
  class BatchMessage {
    const items: seq<Bytes>
    const maxMessageLength: int
    /** Encoded size of the message without a body, plus `size_offset`. */
    const messageSize: int
    var cursor: nat

    ghost predicate Valid() reads this {
      cursor <= |items|
    }

    constructor (items: seq<Bytes>, maxMessageLength: int, messageSize: int)
      ensures Valid() && cursor == 0
      ensures this.items == items && this.maxMessageLength == maxMessageLength && this.messageSize == messageSize
    {
      this.items, this.maxMessageLength, this.messageSize := items, maxMessageLength, messageSize;
      cursor := 0;
    }

    /** Appends items to the body until one does not fit, which is then carried over. */
    method FillBody(start: Body, startSize: nat) returns (body: Body, full: bool, carried: Bytes)
      requires Valid() && startSize == Size(start)
      modifies this`cursor
      ensures Valid() && old(cursor) <= cursor && (full ==> old(cursor) < cursor) && (!full ==> cursor == |items|)
      ensures Pack(maxMessageLength - messageSize, start, items[old(cursor)..]) ==
              [body] + StillToCome(maxMessageLength - messageSize, full, carried, items[cursor..])
    {
      ghost var cap := maxMessageLength - messageSize;
      var bodySize := startSize;
      body, full, carried := start, false, [];
      while cursor < |items|
        invariant Valid() && old(cursor) <= cursor && bodySize == Size(body)
        invariant Pack(cap, start, items[old(cursor)..]) == Pack(cap, body, items[cursor..])
      {
        var item := items[cursor];
        assert items[cursor..][1..] == items[cursor + 1..];
        cursor := cursor + 1;
        bodySize := bodySize + |item|;
        if bodySize + messageSize > maxMessageLength {
          return body, true, item;
        }
        SizeSnoc(body, item);
        body := body + [item];
      }
    }

    method MultiMessageGenerator() returns (messages: seq<Body>)
      requires Valid()
      modifies this`cursor
      ensures Valid() && cursor == |items|
      ensures messages == Pack(maxMessageLength - messageSize, [], items[old(cursor)..])
    {
      ghost var cap := maxMessageLength - messageSize;
      ghost var expected := Pack(cap, [], items[cursor..]);
      messages := [];
      var carried: Bytes := [];
      var full := true;
      while full
        invariant Valid() && (!full ==> cursor == |items|)
        invariant messages + StillToCome(cap, full, carried, items[cursor..]) == expected
        decreases full, |items| - cursor
      {
        OpeningSize(carried);
        var body: Body;
        body, full, carried := FillBody(Opening(carried), |carried|);
        Regroup(messages, body, StillToCome(cap, full, carried, items[cursor..]));
        messages := messages + [body];
      }
    }

    /** Puts all the data in one message: it succeeds exactly when the generator yields one message, the same one. */
    method Gather() returns (r: Gathered)
      requires Valid()
      modifies this`cursor
      ensures Valid()
      ensures var yielded := Pack(maxMessageLength - messageSize, [], items[old(cursor)..]);
              if |yielded| == 1 then r == Single(yielded[0]) else r == ContentTooLarge
      ensures r.Single? ==> r.body == items[old(cursor)..] && cursor == |items|
    {
      ghost var first := cursor;
      ghost var cap := maxMessageLength - messageSize;
      WholeFits(cap, items[first..]);
      var body: Body, bodySize := [], 0;
      while cursor < |items|
        invariant Valid() && first <= cursor
        invariant body == items[first..][..cursor - first] && bodySize == Size(body)
        invariant cursor > first ==> Size(body) <= cap
      {
        var item := items[cursor];
        SizeSnoc(body, item);
        assert items[first..][..cursor + 1 - first] == body + [item];
        cursor := cursor + 1;
        bodySize := bodySize + |item|;
        if bodySize + messageSize > maxMessageLength {
          PrefixSize(items[first..], cursor - first);
          return ContentTooLarge;
        }
        body := body + [item];
      }
      assert body == items[first..];
      return Single(body);
    }
  }
}

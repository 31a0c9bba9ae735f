/**
 * The JSON layout used when a module is dumped as JSON: a formatter that opens every
 * array and object on its own indentation level, writes scalar array items sixteen to a
 * line, and puts every object key on a line of its own.
 *
 * The formatter is a small state machine (indent depth, "has value" flag, item counter)
 * whose methods are called by the serializer around the scalars it writes. `Step` is the
 * effect of one call on the state and on the output, `Run` the effect of a sequence of
 * calls; the class `PrettyFormatter2` is proved to follow `Step`, and the lemmas describe
 * the text `Run` produces.
 */
module Pretty {
  import opened Common

  type Bytes = seq<u8>

  const NEWLINE: u8 := 0x0a
  const SPACE: u8 := 0x20
  const COMMA: u8 := 0x2c
  const COLON: u8 := 0x3a
  const OPEN_BRACKET: u8 := 0x5b
  const CLOSE_BRACKET: u8 := 0x5d
  const OPEN_BRACE: u8 := 0x7b
  const CLOSE_BRACE: u8 := 0x7d

  /** The number of scalar array items written on one line. */
  const ITEMS_PER_LINE: nat := 16

  /** `n` copies of the indent unit. */
  function Repeat(unit: Bytes, n: nat): Bytes
  {
    if n == 0 then [] else Repeat(unit, n - 1) + unit
  }

  /** The indentation for level `n` is `n` units long, and `a + b` levels are `a` levels then `b`. */
  lemma {:induction false} RepeatLength(unit: Bytes, n: nat)
    ensures |Repeat(unit, n)| == n * |unit|
  {
    if n > 0 {
      RepeatLength(unit, n - 1);
      assert n * |unit| == (n - 1) * |unit| + |unit|;
    }
  }

  lemma {:induction false} RepeatAdd(unit: Bytes, a: nat, b: nat)
    ensures Repeat(unit, a + b) == Repeat(unit, a) + Repeat(unit, b)
  {
    if b > 0 {
      RepeatAdd(unit, a, b - 1);
    }
  }

  /** With the default two-space unit, the indentation is nothing but spaces. */
  lemma {:induction false} DefaultIndentIsSpaces(n: nat)
    ensures |Repeat([SPACE, SPACE], n)| == 2 * n
    ensures forall k :: 0 <= k < |Repeat([SPACE, SPACE], n)| ==> Repeat([SPACE, SPACE], n)[k] == SPACE
  {
    if n > 0 {
      DefaultIndentIsSpaces(n - 1);
    }
  }

  /** The fields of the formatter besides the indent unit. */
  datatype State = State(depth: nat, hasValue: bool, itemCount: nat)

  /** A fresh formatter. */
  const START: State := State(0, false, 0)

  /**
   * The calls the serializer makes. `Scalar` stands for the bytes of a number, string or
   * literal, which the serializer writes through methods the formatter does not override:
   * they leave the state alone.
   */
  datatype Event =
    | BeginArray
    | EndArray
    | BeginArrayValue(first: bool)
    | EndArrayValue
    | BeginObject
    | EndObject
    | BeginObjectKey(first: bool)
    | BeginObjectValue
    | EndObjectValue
    | Scalar(text: Bytes)

  /** `,\n` or, for the first entry, `\n`, followed by the indentation for `level`. */
  function LineBreak(first: bool, unit: Bytes, level: nat): Bytes
  {
    (if first then [NEWLINE] else [COMMA, NEWLINE]) + Repeat(unit, level)
  }

  /** The closing bracket, on a new line at `level` when the container holds a value. */
  function Closing(hasValue: bool, unit: Bytes, level: nat, bracket: u8): Bytes
  {
    (if hasValue then [NEWLINE] + Repeat(unit, level) else []) + [bracket]
  }

  /**
   * One call: the new state and the bytes written, or None when an `end` call finds the
   * depth at 0 (the `usize` subtraction panics in a debug build and wraps in a release build).
   */
  function Step(st: State, unit: Bytes, e: Event): (r: Option<(State, Bytes)>)
    ensures r.None? <==> (e.EndArray? || e.EndObject?) && st.depth == 0
    ensures r.Some? ==> r.value.0.depth == st.depth + Delta(e)
    ensures r.Some? && st.itemCount < ITEMS_PER_LINE ==> r.value.0.itemCount < ITEMS_PER_LINE
  {
    match e
    case BeginArray => Some((State(st.depth + 1, false, 0), [OPEN_BRACKET]))
    case EndArray =>
      if st.depth == 0 then None
      else Some((st.(depth := st.depth - 1), Closing(st.hasValue, unit, st.depth - 1, CLOSE_BRACKET)))
    case BeginArrayValue(first) =>
      var text := if st.itemCount == 0 then LineBreak(first, unit, st.depth) else [COMMA, SPACE];
      Some((st.(itemCount := (st.itemCount + 1) % ITEMS_PER_LINE), text))
    case EndArrayValue => Some((st.(hasValue := true), []))
    case BeginObject => Some((st.(depth := st.depth + 1, hasValue := false), [OPEN_BRACE]))
    case EndObject =>
      if st.depth == 0 then None
      else Some((st.(depth := st.depth - 1), Closing(st.hasValue, unit, st.depth - 1, CLOSE_BRACE)))
    case BeginObjectKey(first) => Some((st, LineBreak(first, unit, st.depth)))
    case BeginObjectValue => Some((st, [COLON, SPACE]))
    case EndObjectValue => Some((st.(hasValue := true), []))
    case Scalar(text) => Some((st, text))
  }

  /** The change of depth an event makes: +1 for an opening call, -1 for a closing one. */
  function Delta(e: Event): int
  {
    if e.BeginArray? || e.BeginObject? then 1
    else if e.EndArray? || e.EndObject? then -1
    else 0
  }

  /** The net change of depth over a sequence of events. */
  function Net(evs: seq<Event>): int
  {
    if |evs| == 0 then 0 else Net(evs[..|evs| - 1]) + Delta(evs[|evs| - 1])
  }

  /** No prefix of `evs` closes more containers than are open at depth `d`. */
  ghost predicate NeverBelow(d: nat, evs: seq<Event>)
  {
    forall k :: 0 <= k <= |evs| ==> d + Net(evs[..k]) >= 0
  }

  /** The calls one after another: the final state and everything written, or None on a panic. */
  function Run(st: State, unit: Bytes, evs: seq<Event>): Option<(State, Bytes)>
    decreases |evs|
  {
    if |evs| == 0 then Some((st, []))
    else
      match Step(st, unit, evs[0])
      case None => None
      case Some((st1, out1)) =>
        match Run(st1, unit, evs[1..])
        case None => None
        case Some((st2, out2)) => Some((st2, out1 + out2))
  }

  /** Running `b` after a run of `a` that succeeded, appending its output. */
  function Then(r: Option<(State, Bytes)>, unit: Bytes, b: seq<Event>): Option<(State, Bytes)>
  {
    match r
    case None => None
    case Some((st1, out1)) =>
      match Run(st1, unit, b)
      case None => None
      case Some((st2, out2)) => Some((st2, out1 + out2))
  }

  lemma RunOne(st: State, unit: Bytes, e: Event)
    ensures Run(st, unit, [e]) == Step(st, unit, e)
  {
    RunCons(st, unit, e, []);
    assert [e] + [] == [e];
    match Step(st, unit, e)
    case None =>
    case Some((st1, out1)) =>
      assert out1 + [] == out1;
  }

  lemma RunCons(st: State, unit: Bytes, e: Event, rest: seq<Event>)
    ensures Run(st, unit, [e] + rest) == Then(Step(st, unit, e), unit, rest)
  {
    assert ([e] + rest)[0] == e;
    assert ([e] + rest)[1..] == rest;
  }

  /** A run of `a + b` is a run of `a` followed by a run of `b`. */
  lemma {:induction false} RunConcat(st: State, unit: Bytes, a: seq<Event>, b: seq<Event>)
    ensures Run(st, unit, a + b) == Then(Run(st, unit, a), unit, b)
    decreases |a|
  {
    if |a| == 0 {
      assert a + b == b;
      match Run(st, unit, b)
      case None =>
      case Some((st2, out2)) =>
        assert [] + out2 == out2;
    } else {
      assert a == [a[0]] + a[1..];
      assert a + b == [a[0]] + (a[1..] + b);
      RunCons(st, unit, a[0], a[1..] + b);
      RunCons(st, unit, a[0], a[1..]);
      match Step(st, unit, a[0])
      case None =>
      case Some((st1, out1)) =>
        RunConcat(st1, unit, a[1..], b);
        match Run(st1, unit, a[1..])
        case None =>
        case Some((st2, out2)) =>
          match Run(st2, unit, b)
          case None =>
          case Some((st3, out3)) =>
            assert out1 + out2 + out3 == out1 + (out2 + out3);
    }
  }

  lemma NetFront(e: Event, evs: seq<Event>)
    ensures Net([e] + evs) == Delta(e) + Net(evs)
    decreases |evs|
  {
    if |evs| > 0 {
      assert ([e] + evs)[..|[e] + evs| - 1] == [e] + evs[..|evs| - 1];
      NetFront(e, evs[..|evs| - 1]);
    } else {
      assert [e] + evs == [e];
      assert [e][..0] == [];
    }
  }

  /**
   * A sequence of calls runs without a panic exactly when no prefix closes more than is
   * open, and it then ends at the start depth plus its net change: a balanced sequence
   * returns to the depth it started from.
   */
  lemma {:induction false} RunDepth(st: State, unit: Bytes, evs: seq<Event>)
    ensures Run(st, unit, evs).Some? <==> NeverBelow(st.depth, evs)
    ensures Run(st, unit, evs).Some? ==> Run(st, unit, evs).value.0.depth == st.depth + Net(evs)
    decreases |evs|
  {
    if |evs| == 0 {
      assert forall k :: 0 <= k <= |evs| ==> evs[..k] == [];
    } else {
      var e, rest := evs[0], evs[1..];
      assert evs == [e] + rest;
      assert evs[..1] == [e];
      assert Net([e]) == Delta(e) by { NetFront(e, []); assert [e] + [] == [e]; }
      forall k | 0 <= k < |rest| + 1
        ensures Net(evs[..k + 1]) == Delta(e) + Net(rest[..k])
      {
        assert evs[..k + 1] == [e] + rest[..k];
        NetFront(e, rest[..k]);
      }
      NetFront(e, rest);
      match Step(st, unit, e)
      case None =>
        assert st.depth + Net(evs[..1]) < 0;
      case Some((st1, out1)) =>
        RunDepth(st1, unit, rest);
        assert st1.depth == st.depth + Delta(e);
        if NeverBelow(st.depth, evs) {
          forall k | 0 <= k <= |rest|
            ensures st1.depth + Net(rest[..k]) >= 0
          {
            assert st.depth + Net(evs[..k + 1]) >= 0;
          }
        }
        if NeverBelow(st1.depth, rest) {
          forall k | 0 <= k <= |evs|
            ensures st.depth + Net(evs[..k]) >= 0
          {
            if k > 0 {
              assert st1.depth + Net(rest[..k - 1]) >= 0;
            } else {
              assert evs[..k] == [];
            }
          }
        }
    }
  }

  /** The item counter never leaves 0..15 however the calls are made. */
  lemma {:induction false} RunItemCount(st: State, unit: Bytes, evs: seq<Event>)
    requires st.itemCount < ITEMS_PER_LINE
    ensures Run(st, unit, evs).Some? ==> Run(st, unit, evs).value.0.itemCount < ITEMS_PER_LINE
    decreases |evs|
  {
    if |evs| > 0 {
      match Step(st, unit, evs[0])
      case None =>
      case Some((st1, out1)) =>
        RunItemCount(st1, unit, evs[1..]);
    }
  }

  /** The calls for scalar array items numbered `start`, `start + 1`, ... */
  function ArrayItems(items: seq<Bytes>, start: nat): seq<Event>
  {
    if |items| == 0 then []
    else [BeginArrayValue(start == 0), Scalar(items[0]), EndArrayValue] + ArrayItems(items[1..], start + 1)
  }

  /**
   * The text in front of array item `i` at indentation `level`: a line break and the
   * indentation before items 0, 16, 32, ..., and `, ` before every other item.
   */
  function ItemSeparator(i: nat, unit: Bytes, level: nat): Bytes
  {
    if i % ITEMS_PER_LINE == 0 then LineBreak(i == 0, unit, level) else [COMMA, SPACE]
  }

  /** The expected layout of scalar array items numbered from `start`. */
  function ItemsText(items: seq<Bytes>, start: nat, unit: Bytes, level: nat): Bytes
  {
    if |items| == 0 then [] else ItemSeparator(start, unit, level) + items[0] + ItemsText(items[1..], start + 1, unit, level)
  }

  lemma CounterStep(start: nat)
    ensures (start % ITEMS_PER_LINE + 1) % ITEMS_PER_LINE == (start + 1) % ITEMS_PER_LINE
  {
  }

  /** The calls around one array item: its separator, then its text, and the item is counted. */
  lemma ArrayItemHead(st: State, unit: Bytes, item: Bytes, start: nat)
    requires st.itemCount == start % ITEMS_PER_LINE
    ensures Run(st, unit, [BeginArrayValue(start == 0), Scalar(item), EndArrayValue]) ==
            Some((st.(itemCount := (start + 1) % ITEMS_PER_LINE, hasValue := true), ItemSeparator(start, unit, st.depth) + item))
  {
    var st0 := st.(itemCount := (start + 1) % ITEMS_PER_LINE);
    var st1 := st0.(hasValue := true);
    RunOne(st0, unit, EndArrayValue);
    RunCons(st0, unit, Scalar(item), [EndArrayValue]);
    RunCons(st, unit, BeginArrayValue(start == 0), [Scalar(item), EndArrayValue]);
    assert [BeginArrayValue(start == 0), Scalar(item), EndArrayValue] == [BeginArrayValue(start == 0)] + [Scalar(item), EndArrayValue];
    assert [Scalar(item)] + [EndArrayValue] == [Scalar(item), EndArrayValue];
    CounterStep(start);
    assert Step(st, unit, BeginArrayValue(start == 0)) == Some((st0, ItemSeparator(start, unit, st.depth)));
    assert Run(st0, unit, [Scalar(item), EndArrayValue]) == Some((st1, item + []));
    assert item + [] == item;
  }

  lemma {:induction false} ArrayItemsRun(st: State, unit: Bytes, items: seq<Bytes>, start: nat)
    requires st.itemCount == start % ITEMS_PER_LINE
    ensures Run(st, unit, ArrayItems(items, start)) ==
            Some((st.(itemCount := (start + |items|) % ITEMS_PER_LINE, hasValue := st.hasValue || |items| > 0),
                  ItemsText(items, start, unit, st.depth)))
    decreases |items|
  {
    if |items| > 0 {
      var head := [BeginArrayValue(start == 0), Scalar(items[0]), EndArrayValue];
      var st1 := st.(itemCount := (start + 1) % ITEMS_PER_LINE, hasValue := true);
      var sep := ItemSeparator(start, unit, st.depth);
      RunConcat(st, unit, head, ArrayItems(items[1..], start + 1));
      ArrayItemHead(st, unit, items[0], start);
      ArrayItemsRun(st1, unit, items[1..], start + 1);
      assert ItemsText(items, start, unit, st.depth) == (sep + items[0]) + ItemsText(items[1..], start + 1, unit, st.depth);
      assert (start + 1 + |items[1..]|) % ITEMS_PER_LINE == (start + |items|) % ITEMS_PER_LINE;
    }
  }

  /**
   * A flat array of scalars: `[`, each item after its separator (at one level deeper
   * than the array), then `]` on a new line at the array's level; an empty array is
   * exactly `[]`. The depth is restored, and the item counter is left at the item count
   * modulo 16.
   */
  lemma FlatArray(st: State, unit: Bytes, items: seq<Bytes>)
    ensures Run(st, unit, [BeginArray] + ArrayItems(items, 0) + [EndArray]) ==
            Some((State(st.depth, |items| > 0, |items| % ITEMS_PER_LINE),
                  [OPEN_BRACKET] + ItemsText(items, 0, unit, st.depth + 1) + Closing(|items| > 0, unit, st.depth, CLOSE_BRACKET)))
    ensures |items| == 0 ==>
            Run(st, unit, [BeginArray] + ArrayItems(items, 0) + [EndArray]).value.1 == [OPEN_BRACKET, CLOSE_BRACKET]
  {
    var body := ArrayItems(items, 0);
    var inside := State(st.depth + 1, false, 0);
    RunConcat(st, unit, [BeginArray], body);
    RunConcat(st, unit, [BeginArray] + body, [EndArray]);
    RunOne(st, unit, BeginArray);
    ArrayItemsRun(inside, unit, items, 0);
    var filled := State(st.depth + 1, |items| > 0, |items| % ITEMS_PER_LINE);
    RunOne(filled, unit, EndArray);
    assert Run(filled, unit, [EndArray]) ==
           Some((State(st.depth, |items| > 0, |items| % ITEMS_PER_LINE), Closing(|items| > 0, unit, st.depth, CLOSE_BRACKET)));
  }

  /** The calls for object entries (a scalar key and a scalar value) numbered from `start`. */
  function ObjectEntries(entries: seq<(Bytes, Bytes)>, start: nat): seq<Event>
  {
    if |entries| == 0 then []
    else
      [BeginObjectKey(start == 0), Scalar(entries[0].0), BeginObjectValue, Scalar(entries[0].1), EndObjectValue]
      + ObjectEntries(entries[1..], start + 1)
  }

  /** The expected layout of object entries: each key on a line of its own, then `: ` and the value. */
  function EntriesText(entries: seq<(Bytes, Bytes)>, start: nat, unit: Bytes, level: nat): Bytes
  {
    if |entries| == 0 then []
    else
      LineBreak(start == 0, unit, level) + entries[0].0 + [COLON, SPACE] + entries[0].1
      + EntriesText(entries[1..], start + 1, unit, level)
  }

  /** The calls around one object entry: the key on a new line, `: `, then the value. */
  lemma ObjectEntryHead(st: State, unit: Bytes, key: Bytes, value: Bytes, first: bool)
    ensures Run(st, unit, [BeginObjectKey(first), Scalar(key), BeginObjectValue, Scalar(value), EndObjectValue]) ==
            Some((st.(hasValue := true), LineBreak(first, unit, st.depth) + key + [COLON, SPACE] + value))
  {
    var st1 := st.(hasValue := true);
    var tail3 := [BeginObjectValue, Scalar(value), EndObjectValue];
    RunOne(st, unit, EndObjectValue);
    RunCons(st, unit, Scalar(value), [EndObjectValue]);
    RunCons(st, unit, BeginObjectValue, [Scalar(value), EndObjectValue]);
    RunCons(st, unit, Scalar(key), tail3);
    RunCons(st, unit, BeginObjectKey(first), [Scalar(key)] + tail3);
    assert [Scalar(value)] + [EndObjectValue] == [Scalar(value), EndObjectValue];
    assert [BeginObjectValue] + [Scalar(value), EndObjectValue] == tail3;
    assert [BeginObjectKey(first), Scalar(key), BeginObjectValue, Scalar(value), EndObjectValue] == [BeginObjectKey(first)] + ([Scalar(key)] + tail3);
    assert Run(st, unit, [Scalar(value), EndObjectValue]) == Some((st1, value + []));
    assert value + [] == value;
    assert Run(st, unit, tail3) == Some((st1, [COLON, SPACE] + value));
    assert Run(st, unit, [Scalar(key)] + tail3) == Some((st1, key + ([COLON, SPACE] + value)));
    assert LineBreak(first, unit, st.depth) + (key + ([COLON, SPACE] + value)) == LineBreak(first, unit, st.depth) + key + [COLON, SPACE] + value;
  }

  lemma {:induction false} ObjectEntriesRun(st: State, unit: Bytes, entries: seq<(Bytes, Bytes)>, start: nat)
    ensures Run(st, unit, ObjectEntries(entries, start)) ==
            Some((st.(hasValue := st.hasValue || |entries| > 0), EntriesText(entries, start, unit, st.depth)))
    decreases |entries|
  {
    if |entries| > 0 {
      var (key, value) := entries[0];
      var head := [BeginObjectKey(start == 0), Scalar(key), BeginObjectValue, Scalar(value), EndObjectValue];
      var st1 := st.(hasValue := true);
      var line := LineBreak(start == 0, unit, st.depth) + key + [COLON, SPACE] + value;
      RunConcat(st, unit, head, ObjectEntries(entries[1..], start + 1));
      ObjectEntryHead(st, unit, key, value, start == 0);
      ObjectEntriesRun(st1, unit, entries[1..], start + 1);
      assert EntriesText(entries, start, unit, st.depth) == line + EntriesText(entries[1..], start + 1, unit, st.depth);
    }
  }

  /**
   * A flat object: `{`, each key on a new line one level deeper, `: ` and its value, then
   * `}` on a new line at the object's level; an empty object is exactly `{}`. The depth is
   * restored and the item counter is untouched.
   */
  lemma FlatObject(st: State, unit: Bytes, entries: seq<(Bytes, Bytes)>)
    ensures Run(st, unit, [BeginObject] + ObjectEntries(entries, 0) + [EndObject]) ==
            Some((State(st.depth, |entries| > 0, st.itemCount),
                  [OPEN_BRACE] + EntriesText(entries, 0, unit, st.depth + 1) + Closing(|entries| > 0, unit, st.depth, CLOSE_BRACE)))
    ensures |entries| == 0 ==>
            Run(st, unit, [BeginObject] + ObjectEntries(entries, 0) + [EndObject]).value.1 == [OPEN_BRACE, CLOSE_BRACE]
  {
    var body := ObjectEntries(entries, 0);
    var inside := State(st.depth + 1, false, st.itemCount);
    RunConcat(st, unit, [BeginObject], body);
    RunConcat(st, unit, [BeginObject] + body, [EndObject]);
    RunOne(st, unit, BeginObject);
    ObjectEntriesRun(inside, unit, entries, 0);
    var filled := State(st.depth + 1, |entries| > 0, st.itemCount);
    RunOne(filled, unit, EndObject);
    assert Run(filled, unit, [EndObject]) ==
           Some((State(st.depth, |entries| > 0, st.itemCount), Closing(|entries| > 0, unit, st.depth, CLOSE_BRACE)));
  }

  /** The output stream: everything written so far. */
  class Writer {
    var data: Bytes

    constructor ()
      ensures data == []
    {
      data := [];
    }

    method WriteAll(s: Bytes)
      modifies this
      ensures data == old(data) + s
    {
      data := data + s;
    }
  }

  /** Write `n` copies of the indent unit. */
  method WriteIndent(w: Writer, n: nat, unit: Bytes)
    modifies w
    ensures w.data == old(w.data) + Repeat(unit, n)
  {
    var i := 0;
    while i < n
      invariant 0 <= i <= n
      invariant w.data == old(w.data) + Repeat(unit, i)
    {
      w.WriteAll(unit);
      i := i + 1;
    }
  }

  /** The line break in front of an entry: `\n` for the first, `,\n` otherwise, then the indentation. */
  method WriteLineBreak(w: Writer, first: bool, unit: Bytes, level: nat)
    modifies w
    ensures w.data == old(w.data) + LineBreak(first, unit, level)
  {
    if first {
      w.WriteAll([NEWLINE]);
    } else {
      w.WriteAll([COMMA, NEWLINE]);
    }
    WriteIndent(w, level, unit);
  }

  class PrettyFormatter2 {
    var currentIndent: nat
    var hasValue: bool
    const indent: Bytes
    var itemCount: nat

    /** The fields as a `State`. */
    function Snapshot(): State
      reads this
    {
      State(currentIndent, hasValue, itemCount)
    }

    /** A formatter indenting with two spaces. */
    constructor New()
      ensures indent == [SPACE, SPACE] && Snapshot() == START
    {
      currentIndent, hasValue, indent, itemCount := 0, false, [SPACE, SPACE], 0;
    }

    /** A formatter indenting with the given unit. */
    constructor WithIndent(indent: Bytes)
      ensures this.indent == indent && Snapshot() == START
    {
      currentIndent, hasValue, this.indent, itemCount := 0, false, indent, 0;
    }

    method BeginArray(w: Writer)
      modifies this, w
      ensures var r := Step(old(Snapshot()), indent, Event.BeginArray);
              r.Some? && Snapshot() == r.value.0 && w.data == old(w.data) + r.value.1
    {
      itemCount := 0;
      currentIndent := currentIndent + 1;
      hasValue := false;
      w.WriteAll([OPEN_BRACKET]);
    }

    /** Close an array; the depth must be positive: at 0 the `usize` decrement panics in a debug build and wraps in a release build. */
    method EndArray(w: Writer)
      requires currentIndent > 0
      modifies this, w
      ensures var r := Step(old(Snapshot()), indent, Event.EndArray);
              r.Some? && Snapshot() == r.value.0 && w.data == old(w.data) + r.value.1
    {
      currentIndent := currentIndent - 1;
      if hasValue {
        w.WriteAll([NEWLINE]);
        WriteIndent(w, currentIndent, indent);
      }
      w.WriteAll([CLOSE_BRACKET]);
    }

    method BeginArrayValue(w: Writer, first: bool)
      modifies this, w
      ensures var r := Step(old(Snapshot()), indent, Event.BeginArrayValue(first));
              r.Some? && Snapshot() == r.value.0 && w.data == old(w.data) + r.value.1
    {
      if itemCount == 0 {
        WriteLineBreak(w, first, indent, currentIndent);
      } else {
        w.WriteAll([COMMA, SPACE]);
      }
      itemCount := (itemCount + 1) % ITEMS_PER_LINE;
    }

    method EndArrayValue(w: Writer)
      modifies this
      ensures var r := Step(old(Snapshot()), indent, Event.EndArrayValue);
              r.Some? && Snapshot() == r.value.0 && r.value.1 == []
    {
      hasValue := true;
    }

    method BeginObject(w: Writer)
      modifies this, w
      ensures var r := Step(old(Snapshot()), indent, Event.BeginObject);
              r.Some? && Snapshot() == r.value.0 && w.data == old(w.data) + r.value.1
    {
      currentIndent := currentIndent + 1;
      hasValue := false;
      w.WriteAll([OPEN_BRACE]);
    }

    /** Close an object; the depth must be positive: at 0 the `usize` decrement panics in a debug build and wraps in a release build. */
    method EndObject(w: Writer)
      requires currentIndent > 0
      modifies this, w
      ensures var r := Step(old(Snapshot()), indent, Event.EndObject);
              r.Some? && Snapshot() == r.value.0 && w.data == old(w.data) + r.value.1
    {
      currentIndent := currentIndent - 1;
      if hasValue {
        w.WriteAll([NEWLINE]);
        WriteIndent(w, currentIndent, indent);
      }
      w.WriteAll([CLOSE_BRACE]);
    }

    method BeginObjectKey(w: Writer, first: bool)
      modifies w
      ensures var r := Step(Snapshot(), indent, Event.BeginObjectKey(first));
              r.Some? && Snapshot() == r.value.0 && w.data == old(w.data) + r.value.1
    {
      WriteLineBreak(w, first, indent, currentIndent);
    }

    method BeginObjectValue(w: Writer)
      modifies w
      ensures var r := Step(Snapshot(), indent, Event.BeginObjectValue);
              r.Some? && Snapshot() == r.value.0 && w.data == old(w.data) + r.value.1
    {
      w.WriteAll([COLON, SPACE]);
    }

    method EndObjectValue(w: Writer)
      modifies this
      ensures var r := Step(old(Snapshot()), indent, Event.EndObjectValue);
              r.Some? && Snapshot() == r.value.0 && r.value.1 == []
    {
      hasValue := true;
    }
  }
}

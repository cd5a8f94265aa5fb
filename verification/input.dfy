/** The input sampler: two key tables (press counts and pressed flags per key)
    of which one is current, a bounded event queue, and the handlers that turn
    one poll of the Dreamcast keyboard and mouse into counts, flags and events.
    The devices and the clock are parameters: a handler receives what the poll
    returned and the time it was taken. */
module Input {
  import opened Base
  import opened KeyMap

  /** Capacity of the event queue (`INPUT_BUFFER_SIZE`). */
  const InputBufferSize: nat := 32

  /** Scan codes in the keyboard's state matrix. */
  const MatrixSize: nat := 256

  const FlagPress: int := 1
  const FlagRelease: int := 2

  // Engine key numbers of the mouse.
  const KeyMouse1: int := 323
  const KeyMouse2: int := 324
  const KeyMouse3: int := 325
  const KeyWheelUp: int := 331
  const KeyWheelDown: int := 332

  // Button bits of the mouse state.
  const MouseRight: bv32 := 2
  const MouseLeft: bv32 := 4
  const MouseSide: bv32 := 8

  datatype Event = Event(unicode: int, key: int, flags: int)

  /** One of the two key tables: press count and pressed flag of every key. */
  datatype Table = Table(presses: seq<int>, state: seq<int>)

  /** The sampler. `prevMatrix` and `oldButtons` are function-local statics in
      the engine, the keyboard matrix and mouse buttons seen by the last poll. */
  datatype Input = Input(tables: seq<Table>, current: int, grabbed: bool, dispatched: bool,
                         lastRelease: int, releaseDelta: int, events: seq<Event>,
                         videoRestartNeeded: bool, prevMatrix: seq<int>, oldButtons: bv32)

  /** A state together with the value an operation returns. */
  datatype Answer = Answer(input: Input, value: int)

  predicate TableShape(t: Table) {
    |t.presses| == KeyTableSize && |t.state| == KeyTableSize
  }

  predicate Valid(s: Input) {
    && |s.tables| == 2 && TableShape(s.tables[0]) && TableShape(s.tables[1])
    && (s.current == 0 || s.current == 1)
    && |s.events| <= InputBufferSize
    && |s.prevMatrix| == MatrixSize
  }

  function ZeroTable(): (t: Table)
    ensures IsZero(t)
  {
    Table(seq(KeyTableSize, _ => 0), seq(KeyTableSize, _ => 0))
  }

  predicate IsZero(t: Table) {
    TableShape(t) && (forall k :: 0 <= k < KeyTableSize ==> t.presses[k] == 0 && t.state[k] == 0)
  }

  /** The constructor: both tables zeroed, table 0 current, nothing queued, no
      release seen yet. */
  function Create(): (s: Input)
    ensures Valid(s) && s.current == 0 && IsZero(s.tables[0]) && IsZero(s.tables[1])
    ensures s.events == [] && s.releaseDelta == -1 && s.lastRelease == 0
    ensures !s.grabbed && !s.dispatched && !s.videoRestartNeeded
  {
    Input([ZeroTable(), ZeroTable()], 0, false, false, 0, -1, [], false, seq(MatrixSize, _ => 0), 0)
  }

  // --------------------------------------------------------------- event queue

  /** `AddEvent`: appended while the queue is not full, silently dropped when it
      is. */
  function AddEvent(events: seq<Event>, e: Event): (r: seq<Event>)
    ensures |events| < InputBufferSize ==> r == events + [e]
    ensures |events| == InputBufferSize ==> r == events
  {
    if |events| != InputBufferSize then events + [e] else events
  }

  function AddEvents(events: seq<Event>, es: seq<Event>): (r: seq<Event>)
    ensures |events| <= InputBufferSize ==> |r| <= InputBufferSize
    ensures events <= r
    decreases |es|
  {
    if es == [] then events else AddEvents(AddEvent(events, es[0]), es[1..])
  }

  function Min(a: int, b: int): int {
    if a < b then a else b
  }

  /** Adding events one by one keeps the oldest ones: the queue ends as the first
      `InputBufferSize` of all events offered, and later ones are lost. */
  lemma {:induction false} AddEventsKeepsOldest(events: seq<Event>, es: seq<Event>)
    requires |events| <= InputBufferSize
    ensures AddEvents(events, es) == (events + es)[..Min(InputBufferSize, |events| + |es|)]
    decreases |es|
  {
    if es != [] {
      var next := AddEvent(events, es[0]);
      assert AddEvents(events, es) == AddEvents(next, es[1..]);
      AddEventsKeepsOldest(next, es[1..]);
      KeepsOldestStep(events, es, next);
    }
  }

  /** The step of `AddEventsKeepsOldest`: offering the rest to the queue after
      the first event keeps the same prefix of all events offered. */
  lemma KeepsOldestStep(events: seq<Event>, es: seq<Event>, next: seq<Event>)
    requires |events| <= InputBufferSize && es != []
    requires next == AddEvent(events, es[0])
    ensures (next + es[1..])[..Min(InputBufferSize, |next| + |es[1..]|)]
              == (events + es)[..Min(InputBufferSize, |events| + |es|)]
  {
    if |events| < InputBufferSize {
      assert next + es[1..] == events + es;
    } else {
      assert (events + es)[..InputBufferSize] == events == (next + es[1..])[..InputBufferSize];
    }
  }

  // ------------------------------------------------------------ table updates

  function Count(t: Table, key: int): (r: Table)
    requires TableShape(t) && 0 <= key < KeyTableSize
    ensures TableShape(r)
  {
    t.(presses := t.presses[key := t.presses[key] + 1])
  }

  function Hold(t: Table, key: int): (r: Table)
    requires TableShape(t) && 0 <= key < KeyTableSize
    ensures TableShape(r)
  {
    t.(state := t.state[key := 1])
  }

  /** A handler's effect: the current table and the queue. */
  datatype Sink = Sink(table: Table, events: seq<Event>)

  /** One key action: its press is counted, a press also sets the pressed flag,
      and the event is queued. */
  function Act(sink: Sink, key: int, action: int): (r: Sink)
    requires TableShape(sink.table) && 0 <= key < KeyTableSize
    ensures TableShape(r.table)
    ensures forall k :: 0 <= k < KeyTableSize ==>
              r.table.presses[k] == sink.table.presses[k] + (if k == key then 1 else 0)
    ensures forall k :: 0 <= k < KeyTableSize ==>
              r.table.state[k] == if k == key && action == FlagPress then 1 else sink.table.state[k]
    ensures r.events == AddEvent(sink.events, Event(0, key, action))
  {
    var t := Count(sink.table, key);
    Sink(if action == FlagPress then Hold(t, key) else t, AddEvent(sink.events, Event(0, key, action)))
  }

  // ------------------------------------------------------------------ keyboard

  /** What a change of matrix entry `i` amounts to: nothing when the entry did not
      change or names no key; a release when it went to 0 and a press when it went
      to 1; nothing for any other value. */
  function Edge(matrix: seq<int>, prev: seq<int>, i: int): (action: int)
    requires |matrix| == MatrixSize && |prev| == MatrixSize && 0 <= i < MatrixSize
    ensures action != 0 ==> matrix[i] != prev[i] && MapKey(i) != KeyUnknown
    ensures action == FlagRelease <==> matrix[i] != prev[i] && MapKey(i) != KeyUnknown && matrix[i] == 0
    ensures action == FlagPress <==> matrix[i] != prev[i] && MapKey(i) != KeyUnknown && matrix[i] == 1
    ensures action == 0 || action == FlagPress || action == FlagRelease
  {
    if matrix[i] == prev[i] || MapKey(i) == KeyUnknown then 0
    else if matrix[i] == 0 then FlagRelease
    else if matrix[i] == 1 then FlagPress
    else 0
  }

  /** The key events of scan codes `i ..` up to `KBD_KEY_S3`, in scan order. */
  function EdgeEvents(matrix: seq<int>, prev: seq<int>, i: int): seq<Event>
    requires |matrix| == MatrixSize && |prev| == MatrixSize && KbdA <= i <= KbdS3
    decreases KbdS3 - i
  {
    if i == KbdS3 then []
    else
      var action := Edge(matrix, prev, i);
      (if action != 0 then [Event(0, MapKey(i), action)] else []) + EdgeEvents(matrix, prev, i + 1)
  }

  /** Key `key` is the translation of a scan code the scan still has to visit. */
  predicate Pending(key: int, i: int) {
    i <= UnmapKey(key) < KbdS3 && MapKey(UnmapKey(key)) == key
  }

  /** The key of scan code `j` went from `before` to `after` as its edge says:
      counted once for a press or a release, flagged for a press. */
  predicate KeyScanned(after: Table, before: Table, matrix: seq<int>, prev: seq<int>, j: int)
    requires TableShape(after) && TableShape(before)
    requires |matrix| == MatrixSize && |prev| == MatrixSize && 0 <= j < MatrixSize && MapKey(j) != KeyUnknown
  {
    var key := MapKey(j);
    && after.presses[key] == before.presses[key] + (if Edge(matrix, prev, j) != 0 then 1 else 0)
    && after.state[key] == if Edge(matrix, prev, j) == FlagPress then 1 else before.state[key]
  }

  /** Every scan code from `i` up to `KBD_KEY_S3` that names a key was scanned. */
  predicate ScannedFrom(after: Table, before: Table, matrix: seq<int>, prev: seq<int>, i: int)
    requires TableShape(after) && TableShape(before)
    requires |matrix| == MatrixSize && |prev| == MatrixSize && 0 <= i
  {
    forall j :: i <= j < KbdS3 && MapKey(j) != KeyUnknown ==> KeyScanned(after, before, matrix, prev, j)
  }

  /** Keys no scan code from `i` on translates to are as they were. */
  predicate UntouchedFrom(after: Table, before: Table, i: int)
    requires TableShape(after) && TableShape(before)
  {
    forall k :: 0 <= k < KeyTableSize && !Pending(k, i) ==>
      after.presses[k] == before.presses[k] && after.state[k] == before.state[k]
  }

  /** The scan of `HandleKeyboardInput` from scan code `i` on. Each scan code's
      key is counted once per edge and flagged on a press; keys no remaining scan
      code translates to are untouched; the edge events are queued in scan
      order. */
  function Scan(sink: Sink, matrix: seq<int>, prev: seq<int>, i: int): (r: Sink)
    requires TableShape(sink.table)
    requires |matrix| == MatrixSize && |prev| == MatrixSize && KbdA <= i <= KbdS3
    ensures TableShape(r.table)
    ensures ScannedFrom(r.table, sink.table, matrix, prev, i)
    ensures UntouchedFrom(r.table, sink.table, i)
    ensures r.events == AddEvents(sink.events, EdgeEvents(matrix, prev, i))
    decreases KbdS3 - i
  {
    if i == KbdS3 then sink
    else
      var action := Edge(matrix, prev, i);
      var step := if action != 0 then Act(sink, MapKey(i), action) else sink;
      var r := Scan(step, matrix, prev, i + 1);
      var head := if action != 0 then [Event(0, MapKey(i), action)] else [];
      AddEventsAppend(sink.events, head, EdgeEvents(matrix, prev, i + 1));
      assert AddEvents(sink.events, head) == step.events by {
        if action != 0 {
          assert head[1..] == [];
        }
      }
      ScanStepScanned(sink.table, step.table, r.table, matrix, prev, i);
      ScanStepUntouched(sink.table, step.table, r.table, matrix, prev, i);
      r
  }

  /** What step `i` of the scan does to the table. */
  predicate Stepped(step: Table, before: Table, matrix: seq<int>, prev: seq<int>, i: int)
    requires TableShape(before) && |matrix| == MatrixSize && |prev| == MatrixSize && KbdA <= i < KbdS3
  {
    step == if Edge(matrix, prev, i) != 0 then Act(Sink(before, []), MapKey(i), Edge(matrix, prev, i)).table else before
  }

  /** The inductive step of `Scan` for the scanned keys: the key of scan code `i`
      is no other scan code's, so the rest of the scan leaves it as step `i`
      left it. */
  lemma ScanStepScanned(before: Table, step: Table, after: Table, matrix: seq<int>, prev: seq<int>, i: int)
    requires TableShape(before) && TableShape(step) && TableShape(after)
    requires |matrix| == MatrixSize && |prev| == MatrixSize && KbdA <= i < KbdS3
    requires Stepped(step, before, matrix, prev, i)
    requires ScannedFrom(after, step, matrix, prev, i + 1)
    requires UntouchedFrom(after, step, i + 1)
    ensures ScannedFrom(after, before, matrix, prev, i)
  {
    var key := MapKey(i);
    forall j | i <= j < KbdS3 && MapKey(j) != KeyUnknown
      ensures KeyScanned(after, before, matrix, prev, j)
    {
      if j == i {
        MapKeyRoundTrip(i);
        assert !Pending(key, i + 1);
      } else {
        assert KeyScanned(after, step, matrix, prev, j);
        if MapKey(j) == key {
          MapKeyInjective(j, i);
        }
      }
    }
  }

  /** The inductive step of `Scan` for the keys left alone. */
  lemma ScanStepUntouched(before: Table, step: Table, after: Table, matrix: seq<int>, prev: seq<int>, i: int)
    requires TableShape(before) && TableShape(step) && TableShape(after)
    requires |matrix| == MatrixSize && |prev| == MatrixSize && KbdA <= i < KbdS3
    requires Stepped(step, before, matrix, prev, i)
    requires UntouchedFrom(after, step, i + 1)
    ensures UntouchedFrom(after, before, i)
  {
    if MapKey(i) != KeyUnknown {
      MapKeyRoundTrip(i);
    }
  }

  /** `HandleKeyboardInput`: the last character the keyboard queue held, if
      any, is queued as a press of no key; then every scan code from `KBD_KEY_A`
      up to `KBD_KEY_S3` is compared with the previous poll's matrix, and the
      matrix is kept for the next poll. Only the current table changes. */
  function HandleKeyboard(s: Input, typed: seq<int>, matrix: seq<int>): (r: Input)
    requires Valid(s) && |matrix| == MatrixSize
    ensures Valid(r)
    ensures r.prevMatrix == matrix
    ensures r.current == s.current && r.tables[1 - s.current] == s.tables[1 - s.current]
    ensures ScannedFrom(r.tables[r.current], s.tables[s.current], matrix, s.prevMatrix, KbdA)
    ensures UntouchedFrom(r.tables[r.current], s.tables[s.current], KbdA)
    ensures r.events == AddEvents(s.events, TypedEvents(typed) + EdgeEvents(matrix, s.prevMatrix, KbdA))
    ensures r.(tables := s.tables, events := s.events, prevMatrix := s.prevMatrix) == s
  {
    var events := AddEvents(s.events, TypedEvents(typed));
    var sink := Scan(Sink(s.tables[s.current], events), matrix, s.prevMatrix, KbdA);
    AddEventsAppend(s.events, TypedEvents(typed), EdgeEvents(matrix, s.prevMatrix, KbdA));
    s.(tables := s.tables[s.current := sink.table], events := sink.events, prevMatrix := matrix)
  }

  /** The character event of a keyboard poll: the last character popped from
      the keyboard's queue, as a press of no key, unless it is 0 or there is none. */
  function TypedEvents(typed: seq<int>): (es: seq<Event>)
    ensures |es| <= 1
  {
    var unicode := if typed == [] then 0 else typed[|typed| - 1];
    if unicode != 0 then [Event(unicode, KeyUnknown, FlagPress)] else []
  }

  lemma {:induction false} AddEventsAppend(events: seq<Event>, first: seq<Event>, rest: seq<Event>)
    ensures AddEvents(events, first + rest) == AddEvents(AddEvents(events, first), rest)
    decreases |first|
  {
    if first == [] {
      assert first + rest == rest;
    } else {
      assert (first + rest)[0] == first[0] && (first + rest)[1..] == first[1..] + rest;
      AddEventsAppend(AddEvent(events, first[0]), first[1..], rest);
    }
  }

  // --------------------------------------------------------------------- mouse

  /** Of the buttons in `bits`, the one the engine's handler checks last: side
      over right over left; -1 when none. */
  function ButtonKey(bits: bv32): (key: int)
    ensures KeyOrNone(key)
    ensures key == KeyMouse3 <==> bits & MouseSide != 0
    ensures key == KeyMouse2 <==> bits & MouseSide == 0 && bits & MouseRight != 0
    ensures key == KeyMouse1 <==> bits & MouseSide == 0 && bits & MouseRight == 0 && bits & MouseLeft != 0
    ensures key == -1 <==> bits & (MouseSide | MouseRight | MouseLeft) == 0
  {
    if bits & MouseSide != 0 then KeyMouse3
    else if bits & MouseRight != 0 then KeyMouse2
    else if bits & MouseLeft != 0 then KeyMouse1
    else -1
  }

  /** The wheel as a key: away from the user is wheel down, towards is wheel up. */
  function WheelKey(dz: int): (key: int)
    ensures KeyOrNone(key)
    ensures dz > 0 <==> key == KeyWheelDown
    ensures dz < 0 <==> key == KeyWheelUp
    ensures dz == 0 <==> key == -1
  {
    if dz < 0 then KeyWheelUp else if dz > 0 then KeyWheelDown else -1
  }

  /** Key `k` is a button held in `buttons`. */
  predicate Held(k: int, buttons: bv32) {
    || (k == KeyMouse1 && buttons & MouseLeft != 0)
    || (k == KeyMouse2 && buttons & MouseRight != 0)
    || (k == KeyMouse3 && buttons & MouseSide != 0)
  }

  function Holds(t: Table, buttons: bv32): (r: Table)
    requires TableShape(t)
    ensures TableShape(r)
    ensures forall k :: 0 <= k < KeyTableSize ==> r.state[k] == if Held(k, buttons) then 1 else t.state[k]
    ensures r.presses == t.presses
  {
    var t := if buttons & MouseLeft != 0 then Hold(t, KeyMouse1) else t;
    var t := if buttons & MouseRight != 0 then Hold(t, KeyMouse2) else t;
    if buttons & MouseSide != 0 then Hold(t, KeyMouse3) else t
  }

  /** The events one mouse poll queues: a press for the newly pressed button's
      key, a release for the newly released one's, a press for the wheel's; -1
      stands for none. */
  function MouseEvents(press: int, release: int, wheel: int): seq<Event> {
    (if press != -1 then [Event(0, press, FlagPress)] else [])
    + (if release != -1 then [Event(0, release, FlagRelease)] else [])
    + (if wheel != -1 then [Event(0, wheel, FlagPress)] else [])
  }

  /** How often key `k` is counted by one mouse poll. */
  function Hits(k: int, press: int, release: int, wheel: int): int {
    (if press == k then 1 else 0) + (if release == k then 1 else 0) + (if wheel == k then 1 else 0)
  }

  /** A key argument of the mouse handler: a key number or -1 for none. */
  predicate KeyOrNone(key: int) {
    key == -1 || 0 <= key < KeyTableSize
  }

  /** `HandleMouseInput`: with `down` the buttons pressed since the last poll and
      `up` those released, every held button is flagged; one newly pressed button
      and one newly released button are counted, the one checked last if several
      changed at once; the wheel counts as a press; releasing the left button
      records the time since its previous release. Only the current table
      changes. */
  function HandleMouse(s: Input, buttons: bv32, dz: int, now: int): (r: Input)
    requires Valid(s)
    ensures Valid(r)
    ensures r.current == s.current && r.tables[1 - s.current] == s.tables[1 - s.current]
    ensures r.oldButtons == buttons
    ensures var down, up := buttons & !s.oldButtons, s.oldButtons & !buttons;
            forall k :: 0 <= k < KeyTableSize ==>
              r.tables[r.current].presses[k]
                == s.tables[s.current].presses[k] + Hits(k, ButtonKey(down), ButtonKey(up), WheelKey(dz))
    ensures var down := buttons & !s.oldButtons;
            forall k :: 0 <= k < KeyTableSize ==>
              r.tables[r.current].state[k]
                == if Held(k, buttons) || k == ButtonKey(down) || k == WheelKey(dz) then 1 else s.tables[s.current].state[k]
    ensures var down, up := buttons & !s.oldButtons, s.oldButtons & !buttons;
            r.events == AddEvents(s.events, MouseEvents(ButtonKey(down), ButtonKey(up), WheelKey(dz)))
    ensures s.oldButtons & !buttons & MouseLeft != 0 ==> r.releaseDelta == now - s.lastRelease && r.lastRelease == now
    ensures s.oldButtons & !buttons & MouseLeft == 0 ==> r.releaseDelta == s.releaseDelta && r.lastRelease == s.lastRelease
    ensures r.(tables := s.tables, events := s.events, oldButtons := s.oldButtons,
               lastRelease := s.lastRelease, releaseDelta := s.releaseDelta) == s
  {
    var down := buttons & !s.oldButtons;
    var up := s.oldButtons & !buttons;
    var leftUp := up & MouseLeft != 0;
    var sink := MouseSink(s.tables[s.current], s.events, buttons, ButtonKey(down), ButtonKey(up), WheelKey(dz));
    var r := s.(tables := s.tables[s.current := sink.table], events := sink.events, oldButtons := buttons,
                releaseDelta := if leftUp then now - s.lastRelease else s.releaseDelta,
                lastRelease := if leftUp then now else s.lastRelease);
    assert r.tables[r.current] == sink.table && r.tables[1 - s.current] == s.tables[1 - s.current];
    r
  }

  /** `Act` on a key that may be absent (-1): nothing happens then. */
  function Maybe(sink: Sink, key: int, action: int): (r: Sink)
    requires TableShape(sink.table) && KeyOrNone(key)
    ensures TableShape(r.table)
    ensures forall k :: 0 <= k < KeyTableSize ==>
              r.table.presses[k] == sink.table.presses[k] + (if k == key then 1 else 0)
    ensures forall k :: 0 <= k < KeyTableSize ==>
              r.table.state[k] == if k == key && action == FlagPress then 1 else sink.table.state[k]
    ensures r.events == if key != -1 then AddEvent(sink.events, Event(0, key, action)) else sink.events
  {
    if key != -1 then Act(sink, key, action) else sink
  }

  /** The table and queue after one mouse poll: held buttons flagged, then the
      newly pressed button, the newly released one and the wheel acted on. */
  function MouseSink(t: Table, events: seq<Event>, buttons: bv32, press: int, release: int, wheel: int): (r: Sink)
    requires TableShape(t) && KeyOrNone(press) && KeyOrNone(release) && KeyOrNone(wheel)
    ensures TableShape(r.table)
    ensures forall k :: 0 <= k < KeyTableSize ==> r.table.presses[k] == t.presses[k] + Hits(k, press, release, wheel)
    ensures forall k :: 0 <= k < KeyTableSize ==>
              r.table.state[k] == if Held(k, buttons) || k == press || k == wheel then 1 else t.state[k]
    ensures r.events == AddEvents(events, MouseEvents(press, release, wheel))
  {
    var s0 := Sink(Holds(t, buttons), events);
    var s1 := Maybe(s0, press, FlagPress);
    var s2 := Maybe(s1, release, FlagRelease);
    var r := Maybe(s2, wheel, FlagPress);
    MouseEventsQueued(events, press, release, wheel);
    MouseSinkTables(t, buttons, press, release, wheel, s0.table, s1.table, s2.table, r.table);
    r
  }

  /** The tables of `MouseSink`'s three steps add up: every key is counted once
      per action naming it, and flagged when held or pressed. */
  lemma MouseSinkTables(t: Table, buttons: bv32, press: int, release: int, wheel: int,
                        t0: Table, t1: Table, t2: Table, r: Table)
    requires TableShape(t) && TableShape(t0) && TableShape(t1) && TableShape(t2) && TableShape(r)
    requires forall k :: 0 <= k < KeyTableSize ==> t0.state[k] == if Held(k, buttons) then 1 else t.state[k]
    requires t0.presses == t.presses
    requires forall k :: 0 <= k < KeyTableSize ==> t1.presses[k] == t0.presses[k] + (if k == press then 1 else 0)
    requires forall k :: 0 <= k < KeyTableSize ==> t1.state[k] == if k == press then 1 else t0.state[k]
    requires forall k :: 0 <= k < KeyTableSize ==> t2.presses[k] == t1.presses[k] + (if k == release then 1 else 0)
    requires forall k :: 0 <= k < KeyTableSize ==> t2.state[k] == t1.state[k]
    requires forall k :: 0 <= k < KeyTableSize ==> r.presses[k] == t2.presses[k] + (if k == wheel then 1 else 0)
    requires forall k :: 0 <= k < KeyTableSize ==> r.state[k] == if k == wheel then 1 else t2.state[k]
    ensures forall k :: 0 <= k < KeyTableSize ==> r.presses[k] == t.presses[k] + Hits(k, press, release, wheel)
    ensures forall k :: 0 <= k < KeyTableSize ==>
              r.state[k] == if Held(k, buttons) || k == press || k == wheel then 1 else t.state[k]
  {
  }

  lemma MouseEventsQueued(events: seq<Event>, press: int, release: int, wheel: int)
    ensures var e1 := if press != -1 then AddEvent(events, Event(0, press, FlagPress)) else events;
            var e2 := if release != -1 then AddEvent(e1, Event(0, release, FlagRelease)) else e1;
            var e3 := if wheel != -1 then AddEvent(e2, Event(0, wheel, FlagPress)) else e2;
            e3 == AddEvents(events, MouseEvents(press, release, wheel))
  {
    var a := if press != -1 then [Event(0, press, FlagPress)] else [];
    var b := if release != -1 then [Event(0, release, FlagRelease)] else [];
    var c := if wheel != -1 then [Event(0, wheel, FlagPress)] else [];
    AddEventsAppend(events, a + b, c);
    AddEventsAppend(events, a, b);
    AddEventsAppend(AddEvents(events, a), b, []);
  }

  /** Pressing left and right in the same poll counts and queues the right
      button only, though both are flagged as held. */
  lemma SimultaneousPressCountsOne(s: Input)
    requires Valid(s) && s.oldButtons == 0
    ensures var r := HandleMouse(s, MouseLeft | MouseRight, 0, 0);
            && r.tables[r.current].presses[KeyMouse1] == s.tables[s.current].presses[KeyMouse1]
            && r.tables[r.current].presses[KeyMouse2] == s.tables[s.current].presses[KeyMouse2] + 1
            && r.tables[r.current].state[KeyMouse1] == 1
            && r.tables[r.current].state[KeyMouse2] == 1
  {
  }

  // ----------------------------------------------------- double click, queries

  /** `MouseDoubleClick`: 1 when the last two left releases were less than a third
      of a second apart, measured in clock ticks of frequency `freq`; a positive
      answer also forgets the releases, so it is given once. */
  function MouseDoubleClick(s: Input, freq: int): (r: Answer)
    ensures r.value == 1 <==> 0 <= s.releaseDelta < CDiv(freq, 3)
    ensures r.value == 1 ==> r.input == s.(lastRelease := 0, releaseDelta := -1)
    ensures r.value != 1 ==> r.value == 0 && r.input == s
  {
    if s.releaseDelta >= 0 && s.releaseDelta < CDiv(freq, 3) then Answer(s.(lastRelease := 0, releaseDelta := -1), 1)
    else Answer(s, 0)
  }

  /** A double click is reported once: asked again at once, the answer is 0. */
  lemma DoubleClickOnce(s: Input, freq: int)
    ensures var first := MouseDoubleClick(s, freq);
            first.value == 1 ==> MouseDoubleClick(first.input, freq).value == 0
  {
  }

  /** Two left clicks released `gap` ticks apart, the first after `since`, make
      a double click exactly when the gap is under a third of the frequency. */
  lemma TwoReleasesMakeDoubleClick(s: Input, since: int, gap: int, freq: int)
    requires Valid(s) && s.oldButtons == 0 && gap >= 0
    ensures var pressed := HandleMouse(s, MouseLeft, 0, since);
            var released := HandleMouse(pressed, 0, 0, since);
            var again := HandleMouse(released, MouseLeft, 0, since + gap);
            var last := HandleMouse(again, 0, 0, since + gap);
            MouseDoubleClick(last, freq).value == 1 <==> gap < CDiv(freq, 3)
  {
  }

  /** `ClearKeyStates`: both tables are zeroed; nothing else changes. */
  function ClearKeyStates(s: Input): (r: Input)
    requires Valid(s)
    ensures Valid(r) && IsZero(r.tables[0]) && IsZero(r.tables[1])
    ensures r.(tables := s.tables) == s
  {
    s.(tables := [ZeroTable(), ZeroTable()])
  }

  /** `KeyState`: the pressed flag of `key` in the current table. The engine does
      not range-check `key`. */
  function KeyState(s: Input, key: int): (v: int)
    requires Valid(s) && 0 <= key < KeyTableSize
    ensures v == s.tables[s.current].state[key]
  {
    s.tables[s.current].state[key]
  }

  /** `VideoRestartNeeded`: reports a pending restart once and clears it. */
  function VideoRestartNeeded(s: Input): (r: Answer)
    ensures r.value == 1 <==> s.videoRestartNeeded
    ensures r.value == 0 || r.value == 1
    ensures !r.input.videoRestartNeeded
    ensures r.input == s.(videoRestartNeeded := false)
  {
    if s.videoRestartNeeded then Answer(s.(videoRestartNeeded := false), 1) else Answer(s, 0)
  }

  lemma VideoRestartOnce(s: Input)
    ensures VideoRestartNeeded(VideoRestartNeeded(s).input).value == 0
  {
  }

  // -------------------------------------------------------------------- update

  /** After a dispatch the other table becomes current and starts from zero;
      the table that was current keeps what it recorded. */
  function Swap(s: Input): (r: Input)
    requires Valid(s)
    ensures Valid(r)
    ensures s.dispatched ==> r.current == 1 - s.current && IsZero(r.tables[r.current])
                             && r.tables[s.current] == s.tables[s.current] && !r.dispatched
    ensures !s.dispatched ==> r == s
    ensures r.events == s.events && r.prevMatrix == s.prevMatrix && r.oldButtons == s.oldButtons
  {
    if s.dispatched then
      var current := if s.current == 0 then 1 else 0;
      s.(current := current, tables := s.tables[current := ZeroTable()], dispatched := false)
    else s
  }

  /** A mouse poll: buttons and wheel movement. */
  datatype MousePoll = MousePoll(buttons: bv32, dz: int)

  /** A keyboard poll: the characters popped from its queue and its matrix. */
  datatype KeyboardPoll = KeyboardPoll(typed: seq<int>, matrix: seq<int>)

  /** `Update`: a grab is released when the window is inactive, the tables are
      swapped after a dispatch, then the mouse and the keyboard are handled when
      they are present. It always returns 0, and never touches the table that was
      current before a swap. */
  function Update(s: Input, windowActive: bool, mouse: Option<MousePoll>, keyboard: Option<KeyboardPoll>, now: int): (r: Answer)
    requires Valid(s)
    requires keyboard.Some? ==> |keyboard.value.matrix| == MatrixSize
    ensures Valid(r.input) && r.value == 0
    ensures r.input.grabbed == (s.grabbed && windowActive)
    ensures s.dispatched ==> r.input.current == 1 - s.current && !r.input.dispatched
                             && r.input.tables[s.current] == s.tables[s.current]
    ensures !s.dispatched ==> r.input.current == s.current && r.input.tables[1 - s.current] == s.tables[1 - s.current]
    ensures mouse.None? && keyboard.None? ==> r.input == Swap(s).(grabbed := s.grabbed && windowActive)
  {
    // Releasing the grab of an inactive window leaves the grab set only when
    // it was set and the window is active.
    var s1 := s.(grabbed := s.grabbed && windowActive);
    var s2 := Swap(s1);
    var p := Poll(s2, mouse, keyboard, now);
    Answer(p, 0)
  }

  /** The device half of `Update`: the mouse, then the keyboard, each when
      present. Only the current table, the queue and the device fields (the
      previous key matrix, the previous buttons and the release timing)
      change. */
  function Poll(s: Input, mouse: Option<MousePoll>, keyboard: Option<KeyboardPoll>, now: int): (r: Input)
    requires Valid(s)
    requires keyboard.Some? ==> |keyboard.value.matrix| == MatrixSize
    ensures Valid(r)
    ensures r.current == s.current && r.tables[1 - s.current] == s.tables[1 - s.current]
    ensures r.grabbed == s.grabbed && r.dispatched == s.dispatched
    ensures r.videoRestartNeeded == s.videoRestartNeeded && s.events <= r.events
    ensures mouse.None? && keyboard.None? ==> r == s
  {
    var m := MouseStep(s, mouse, now);
    var r := KeyboardStep(m, keyboard);
    KeepsTransitive(s, m, r);
    r
  }

  lemma KeepsTransitive(s: Input, m: Input, r: Input)
    requires Valid(s) && Keeps(m, s) && Keeps(r, m)
    ensures Keeps(r, s)
  {
    PrefixTransitive(s.events, m.events, r.events);
  }

  /** The device fields after a poll: the keyboard's matrix and the mouse's
      buttons when those devices answered, the release timing untouched
      without a mouse. */
  lemma PollDevices(s: Input, mouse: Option<MousePoll>, keyboard: Option<KeyboardPoll>, now: int)
    requires Valid(s)
    requires keyboard.Some? ==> |keyboard.value.matrix| == MatrixSize
    ensures var r := Poll(s, mouse, keyboard, now);
            && r.prevMatrix == (if keyboard.Some? then keyboard.value.matrix else s.prevMatrix)
            && r.oldButtons == (if mouse.Some? then mouse.value.buttons else s.oldButtons)
            && (mouse.None? ==> r.lastRelease == s.lastRelease && r.releaseDelta == s.releaseDelta)
  {
    var m := MouseStep(s, mouse, now);
    assert Poll(s, mouse, keyboard, now) == KeyboardStep(m, keyboard);
  }

  lemma PrefixTransitive(a: seq<Event>, b: seq<Event>, c: seq<Event>)
    requires a <= b && b <= c
    ensures a <= c
  {
    assert c[..|a|] == b[..|a|];
  }

  /** A handler's frame: the result is valid; the current table, the other
      table, the grab, the dispatch flag and a pending video restart are as
      they were; and the queued events are only added to. */
  predicate Keeps(r: Input, s: Input)
    requires Valid(s)
  {
    && Valid(r) && r.current == s.current && r.tables[1 - s.current] == s.tables[1 - s.current]
    && r.grabbed == s.grabbed && r.dispatched == s.dispatched
    && r.videoRestartNeeded == s.videoRestartNeeded && s.events <= r.events
  }

  function MouseStep(s: Input, mouse: Option<MousePoll>, now: int): (r: Input)
    requires Valid(s)
    ensures Keeps(r, s)
    ensures r.prevMatrix == s.prevMatrix
    ensures r.oldButtons == if mouse.Some? then mouse.value.buttons else s.oldButtons
    ensures mouse.None? ==> r == s
  {
    if mouse.Some? then HandleMouse(s, mouse.value.buttons, mouse.value.dz, now) else s
  }

  function KeyboardStep(s: Input, keyboard: Option<KeyboardPoll>): (r: Input)
    requires Valid(s)
    requires keyboard.Some? ==> |keyboard.value.matrix| == MatrixSize
    ensures Keeps(r, s)
    ensures r.prevMatrix == if keyboard.Some? then keyboard.value.matrix else s.prevMatrix
    ensures r.oldButtons == s.oldButtons && r.lastRelease == s.lastRelease && r.releaseDelta == s.releaseDelta
    ensures keyboard.None? ==> r == s
  {
    if keyboard.Some? then HandleKeyboard(s, keyboard.value.typed, keyboard.value.matrix) else s
  }

  /** After a dispatch with no device present, every key reads as released. */
  lemma DispatchClearsCurrent(s: Input, windowActive: bool, key: int)
    requires Valid(s) && s.dispatched && 0 <= key < KeyTableSize
    ensures KeyState(Update(s, windowActive, None, None, 0).input, key) == 0
  {
  }
}

/**
 * `StreamValidatorType` (schema-29): records a stream of values in store
 * mode and, in replay mode, checks that a later run produces the same values
 * in the same order.
 */
module StreamValidator {
  import opened Wrappers

  /** The four header characters of a stream-validator file. */
  const HEAD: seq<char> := "OMSV"
  /** The longest deque a load or checkpoint accepts. */
  const MAX_LIST_SIZE: nat := 100000000

  /** The validator's state: the mode, the recorded values and the replay position. */
  datatype State = State(storeMode: bool, stream: seq<nat>, readIt: nat)

  predicate Valid(st: State) { st.readIt <= |st.stream| }

  /**
   * `handle`: append in store mode; in replay mode compare with the value at
   * the replay position and advance. Past the end of the recorded stream the
   * source dereferences the end iterator; the model reports "out of sync".
   */
  function Handle(st: State, value: nat): Result<State>
  {
    if st.storeMode then Ok(st.(stream := st.stream + [value]))
    else if st.readIt >= |st.stream| || value != st.stream[st.readIt] then Err("StreamValidator: out of sync!")
    else Ok(st.(readIt := st.readIt + 1))
  }

  /** `handle` applied to each value in turn, stopping at the first error. */
  function HandleAll(st: State, values: seq<nat>): Result<State>
    decreases |values|
  {
    if values == [] then Ok(st)
    else match Handle(st, values[0])
      case Ok(st1) => HandleAll(st1, values[1..])
      case Err(m) => Err(m)
  }

  /** In store mode one value is appended and nothing else changes. */
  lemma StoreAppendsOne(st: State, value: nat)
    requires st.storeMode
    ensures Handle(st, value) == Ok(State(true, st.stream + [value], st.readIt))
  {
  }

  /** In replay mode a match advances the position by one and a mismatch raises. */
  lemma ReplayStep(st: State, value: nat)
    requires !st.storeMode && Valid(st)
    ensures Handle(st, value).Ok? <==> st.readIt < |st.stream| && st.stream[st.readIt] == value
    ensures Handle(st, value).Ok? ==> Handle(st, value).value == st.(readIt := st.readIt + 1)
  {
  }

  /** Recording appends a whole sequence of values. */
  lemma {:induction false} RecordAll(stream: seq<nat>, readIt: nat, values: seq<nat>)
    ensures HandleAll(State(true, stream, readIt), values) == Ok(State(true, stream + values, readIt))
    decreases |values|
  {
    if values != [] {
      assert Handle(State(true, stream, readIt), values[0]) == Ok(State(true, stream + [values[0]], readIt));
      RecordAll(stream + [values[0]], readIt, values[1..]);
      assert stream + [values[0]] + values[1..] == stream + values;
    } else {
      assert stream + values == stream;
    }
  }

  /** Replaying from position k over values equal to the rest of the recording ends at the end. */
  lemma {:induction false} ReplayRest(stream: seq<nat>, k: nat)
    requires k <= |stream|
    ensures HandleAll(State(false, stream, k), stream[k..]) == Ok(State(false, stream, |stream|))
    decreases |stream| - k
  {
    if k < |stream| {
      assert stream[k..][0] == stream[k];
      assert stream[k..][1..] == stream[k + 1..];
      ReplayRest(stream, k + 1);
    }
  }

  /**
   * Recording a sequence from empty, then replaying the same sequence from
   * the start, never raises and ends with the replay position at the end, so
   * `saveStream` does not warn.
   */
  lemma RecordThenReplay(values: seq<nat>)
    ensures HandleAll(State(true, [], 0), values) == Ok(State(true, values, 0))
    ensures HandleAll(State(false, values, 0), values) == Ok(State(false, values, |values|))
    ensures !SaveWarns(State(false, values, |values|))
  {
    RecordAll([], 0, values);
    assert [] + values == values;
    ReplayRest(values, 0);
    assert values[0..] == values;
  }

  /** In replay mode `saveStream` only warns, when the replay position is not at the end. */
  predicate SaveWarns(st: State)
  {
    !st.storeMode && st.readIt != |st.stream|
  }

  // ------------------------------------------------------------------ files and checkpoints

  /** An item of a binary stream: a header character, a number or a flag. */
  datatype Item = Ch(c: char) | N(n: int) | B(b: bool)

  /** The deque `operator&` for output: the length, then the values. */
  function WriteDeque(d: seq<nat>): seq<Item>
  {
    [N(|d|)] + WriteValues(d)
  }

  function WriteValues(d: seq<nat>): seq<Item>
  {
    if d == [] then [] else [N(d[0])] + WriteValues(d[1..])
  }

  function ReadValues(s: seq<Item>, l: nat): Result<(seq<nat>, seq<Item>)>
    decreases l
  {
    if l == 0 then Ok(([], s))
    else if |s| == 0 || !s[0].N? || s[0].n < 0 then Err("read error")
    else match ReadValues(s[1..], l - 1)
      case Ok((d, rest)) => Ok(([s[0].n as nat] + d, rest))
      case Err(m) => Err(m)
  }

  /** The deque `operator&` for input: a length of at most MAX_LIST_SIZE, then that many values. */
  function ReadDeque(s: seq<Item>): Result<(seq<nat>, seq<Item>)>
  {
    if |s| == 0 || !s[0].N? || s[0].n < 0 then Err("read error")
    else if s[0].n > MAX_LIST_SIZE then Err("list too long")
    else ReadValues(s[1..], s[0].n)
  }

  lemma DequeTooLongRejected(s: seq<Item>)
    requires |s| > 0 && s[0].N? && s[0].n > MAX_LIST_SIZE
    ensures ReadDeque(s).Err?
  {
  }

  lemma {:induction false} ValuesRoundTrip(d: seq<nat>, rest: seq<Item>)
    ensures ReadValues(WriteValues(d) + rest, |d|) == Ok((d, rest))
  {
    if d != [] {
      assert WriteValues(d) + rest == [N(d[0])] + (WriteValues(d[1..]) + rest);
      ValuesRoundTrip(d[1..], rest);
      assert [d[0]] + d[1..] == d;
    } else {
      assert WriteValues(d) + rest == rest;
    }
  }

  lemma DequeRoundTrip(d: seq<nat>, rest: seq<Item>)
    requires |d| <= MAX_LIST_SIZE
    ensures ReadDeque(WriteDeque(d) + rest) == Ok((d, rest))
  {
    assert (WriteDeque(d) + rest)[1..] == WriteValues(d) + rest;
    ValuesRoundTrip(d, rest);
  }

  function HeadItems(h: seq<char>): seq<Item>
  {
    if h == [] then [] else [Ch(h[0])] + HeadItems(h[1..])
  }

  /** The file `saveStream` writes in store mode: the header, then the deque. */
  function SaveFile(st: State): seq<Item>
  {
    HeadItems(HEAD) + WriteDeque(st.stream)
  }

  /** The first four items of a file are not the "OMSV" header. */
  predicate BadHeader(file: seq<Item>)
  {
    |file| < 4 || file[..4] != HeadItems(HEAD)
  }

  /** The deque's length is readable and above MAX_LIST_SIZE, which is refused before anything is stored. */
  predicate DequeTooLong(s: seq<Item>)
  {
    |s| > 0 && s[0].N? && s[0].n > MAX_LIST_SIZE
  }

  /**
   * `loadStream` after the file is opened: the header must be "OMSV", the
   * deque must read, and nothing may remain. The result, and the deque that
   * replaced the stored stream when it was read whole (even if bytes
   * remain after it).
   */
  function LoadFile(file: seq<Item>): (Result<()>, Option<seq<nat>>)
  {
    if BadHeader(file) then (Err("not a valid StreamValidator file"), None)
    else match ReadDeque(file[4..])
      case Err(m) => (Err(m), None)
      case Ok((d, rest)) =>
        if rest != [] then (Err("bytes remaining"), Some(d))
        else (Ok(()), Some(d))
  }

  /** A file whose first four items are not the header is rejected before its deque is read. */
  lemma LoadRejectsBadHeader(file: seq<Item>)
    requires BadHeader(file)
    ensures LoadFile(file) == (Err("not a valid StreamValidator file"), None)
  {
  }

  /** The error cases of a load whose header is right: too long, unreadable, or bytes left over. */
  lemma LoadErrors(file: seq<Item>)
    requires !BadHeader(file)
    ensures DequeTooLong(file[4..]) ==> LoadFile(file) == (Err("list too long"), None)
    ensures LoadFile(file).0.Ok? <==> ReadDeque(file[4..]).Ok? && ReadDeque(file[4..]).value.1 == []
    ensures LoadFile(file).1.Some? <==> ReadDeque(file[4..]).Ok?
  {
  }

  /** Saving a recording and loading it gives back the same values. */
  lemma SaveLoadRoundTrip(st: State)
    requires |st.stream| <= MAX_LIST_SIZE
    ensures LoadFile(SaveFile(st)) == (Ok(()), Some(st.stream))
  {
    var file := SaveFile(st);
    assert |HeadItems(HEAD)| == 4;
    assert file[..4] == HeadItems(HEAD);
    assert file[4..] == WriteDeque(st.stream) + [];
    DequeRoundTrip(st.stream, []);
  }

  /** `checkpoint(ostream&)`: the mode, the deque and the replay offset. */
  function WriteCheckpoint(st: State): seq<Item>
  {
    [B(st.storeMode)] + WriteDeque(st.stream) + [N(st.readIt)]
  }

  /**
   * `checkpoint(istream&)`. The source sets the replay position to
   * begin + offset without a bound check; the model refuses an offset past
   * the end.
   */
  function ReadCheckpoint(s: seq<Item>): Result<(State, seq<Item>)>
  {
    if |s| == 0 || !s[0].B? then Err("read error")
    else match ReadDeque(s[1..])
      case Err(m) => Err(m)
      case Ok((d, s1)) =>
        if |s1| == 0 || !s1[0].N? || s1[0].n < 0 || s1[0].n > |d| then Err("read error")
        else Ok((State(s[0].b, d, s1[0].n), s1[1..]))
  }

  /** The checkpoint pair preserves the mode, the stream and the replay offset. */
  lemma CheckpointRoundTrip(st: State, rest: seq<Item>)
    requires Valid(st) && |st.stream| <= MAX_LIST_SIZE
    ensures ReadCheckpoint(WriteCheckpoint(st) + rest) == Ok((st, rest))
  {
    var s := WriteCheckpoint(st) + rest;
    assert s[1..] == WriteDeque(st.stream) + ([N(st.readIt)] + rest);
    DequeRoundTrip(st.stream, [N(st.readIt)] + rest);
    assert ([N(st.readIt)] + rest)[1..] == rest;
  }

  /** The validator object, updated in place by `handle`, `loadStream` and the checkpoint read. */
  class StreamValidatorType {
    var storeMode: bool
    var stream: seq<nat>
    var readIt: nat

    function Current(): State
      reads this
    {
      State(storeMode, stream, readIt)
    }

    constructor ()
      ensures Current() == State(true, [], 0)
    {
      storeMode, stream, readIt := true, [], 0;
    }

    /** `handle(value)`: on an error the state is unchanged. */
    method HandleValue(value: nat) returns (r: Result<()>)
      modifies this
      ensures Handle(old(Current()), value).Ok? <==> r.Ok?
      ensures r.Ok? ==> Current() == Handle(old(Current()), value).value
      ensures r.Err? ==> Current() == old(Current())
    {
      if storeMode {
        stream := stream + [value];
        return Ok(());
      }
      if readIt >= |stream| || value != stream[readIt] {
        return Err("StreamValidator: out of sync!");
      }
      readIt := readIt + 1;
      return Ok(());
    }

    /**
     * `loadStream` on the file's contents (opening the file is left out).
     * Replay mode is entered before any check. A deque read whole replaces
     * the stored stream, even when bytes remain after it; a bad header or a
     * deque that is too long leaves the stored stream as it was. Only a
     * complete load rewinds the replay position.
     */
    method LoadStream(file: seq<Item>) returns (r: Result<()>)
      modifies this
      ensures r == LoadFile(file).0 && !storeMode
      ensures LoadFile(file).1.Some? ==> stream == LoadFile(file).1.value
      ensures BadHeader(file) || DequeTooLong(file[4..]) ==> stream == old(stream)
      ensures r.Ok? ==> readIt == 0
      ensures r.Err? ==> readIt == old(readIt)
    {
      storeMode := false;
      var (res, d) := LoadFile(file);
      if d.Some? {
        stream := d.value;
      }
      if res.Ok? {
        readIt := 0;
      }
      r := res;
    }

    /**
     * `checkpoint(istream&)`: the mode, the deque and the offset are read in
     * that order into the fields. A read that fails keeps what was read
     * before it: the mode once its flag is read, the stream once the deque
     * is read whole.
     */
    method CheckpointRead(s: seq<Item>) returns (rest: Result<seq<Item>>)
      modifies this
      ensures ReadCheckpoint(s).Ok? <==> rest.Ok?
      ensures rest.Ok? ==> (Current(), rest.value) == ReadCheckpoint(s).value
      ensures |s| == 0 || !s[0].B? ==> Current() == old(Current())
      ensures |s| > 0 && s[0].B? ==> storeMode == s[0].b
      ensures |s| > 0 && s[0].B? && ReadDeque(s[1..]).Ok? ==> stream == ReadDeque(s[1..]).value.0
      ensures |s| > 0 && s[0].B? && DequeTooLong(s[1..]) ==> stream == old(stream) && readIt == old(readIt)
    {
      if |s| == 0 || !s[0].B? {
        return Err("read error");
      }
      storeMode := s[0].b;
      match ReadDeque(s[1..])
      case Err(m) =>
        rest := Err(m);
      case Ok((d, s1)) =>
        stream := d;
        if |s1| == 0 || !s1[0].N? || s1[0].n < 0 || s1[0].n > |d| {
          return Err("read error");
        }
        readIt := s1[0].n;
        rest := Ok(s1[1..]);
    }
  }
}

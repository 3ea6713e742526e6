/** Device names, their Edge ids, and the write events that come back under those ids. */
module WriteEvents {
  import opened Optional

  const LIGHT_CONTROL := 3311
  const ON_OFF_VALUE := 5850

  /** Which characters count as alphanumeric; neither an underscore nor a space does. */
  type Alphabet = char -> bool

  predicate Proper(alnum: Alphabet) { !alnum('_') && !alnum(' ') }

  /** The Edge id of a device: everything but letters and digits becomes an underscore. */
  function Sanitize(name: string, alnum: Alphabet): (id: string)
    ensures |id| == |name|
    ensures forall i :: 0 <= i < |name| ==> id[i] == if alnum(name[i]) then name[i] else '_'
  {
    seq(|name|, i requires 0 <= i < |name| => if alnum(name[i]) then name[i] else '_')
  }

  /** The id with spaces for underscores. */
  function Spaced(id: string): (name: string)
    ensures |name| == |id|
    ensures forall i :: 0 <= i < |id| ==> name[i] == if id[i] == '_' then ' ' else id[i]
  {
    seq(|id|, i requires 0 <= i < |id| => if id[i] == '_' then ' ' else id[i])
  }

  predicate MadeOf(s: string, alnum: Alphabet, extra: char) {
    forall i :: 0 <= i < |s| ==> alnum(s[i]) || s[i] == extra
  }

  /** The WHERE clause of the update. */
  predicate Matches(name: string, deviceId: string) { name == deviceId || name == Spaced(deviceId) }

  /** A write for a device's Edge id reaches its row exactly when the name mixes no spaces and underscores. */
  lemma ReachesOwnRowExact(name: string, alnum: Alphabet)
    requires Proper(alnum)
    ensures Matches(name, Sanitize(name, alnum)) <==> MadeOf(name, alnum, '_') || MadeOf(name, alnum, ' ')
  {
    var id := Sanitize(name, alnum);
    if MadeOf(name, alnum, '_') { assert name == id; }
    if MadeOf(name, alnum, ' ') { assert name == Spaced(id); }
    if name == id {
      forall i | 0 <= i < |name| ensures alnum(name[i]) || name[i] == '_' { assert id[i] == name[i]; }
    }
    if name == Spaced(id) {
      forall i | 0 <= i < |name| ensures alnum(name[i]) || name[i] == ' ' { assert Spaced(id)[i] == name[i]; }
    }
  }

  /** Ids of letters, digits and underscores never reach a row whose own Edge id is another. */
  lemma NeverReachesOthers(name: string, id: string, alnum: Alphabet)
    requires Proper(alnum) && MadeOf(id, alnum, '_') && Matches(name, id)
    ensures Sanitize(name, alnum) == id
  {
    assert forall i :: 0 <= i < |id| ==> Sanitize(name, alnum)[i] == id[i];
  }

  // ---------- The consumer ----------

  datatype WriteEvent = WriteEvent(deviceId: string, objectId: nat, resourceId: nat, valueBase64: string)

  /** A row of the device table: the on/off state is None while something else is stored. */
  datatype Row = Row(name: string, on: Option<bool>)

  type Base64 = string -> Option<seq<bv8>>

  /** What an event asks for: nothing unless it is a light's on/off value that decodes; no byte reads as off. */
  function NewState(e: WriteEvent, decode: Base64): Option<bool> {
    if e.objectId != LIGHT_CONTROL || e.resourceId != ON_OFF_VALUE then None
    else
      match decode(e.valueBase64)
      case None => None
      case Some(bytes) => Some(if bytes == [] then false else bytes[0] != 0)
  }

  function UpdateRow(r: Row, e: WriteEvent, decode: Base64): Row {
    var state := NewState(e, decode);
    if state != None && Matches(r.name, e.deviceId) then r.(on := state) else r
  }

  function Update(rows: seq<Row>, e: WriteEvent, decode: Base64): seq<Row> {
    seq(|rows|, i requires 0 <= i < |rows| => UpdateRow(rows[i], e, decode))
  }

  function Consumed(rows: seq<Row>, queue: seq<WriteEvent>, decode: Base64): seq<Row>
    decreases |queue|
  {
    if queue == [] then rows else Consumed(Update(rows, queue[0], decode), queue[1..], decode)
  }

  predicate Concerns(name: string, e: WriteEvent, decode: Base64) {
    NewState(e, decode) != None && Matches(name, e.deviceId)
  }

  /** Event k is the last one of the queue that concerns the name. */
  predicate LastConcern(name: string, queue: seq<WriteEvent>, k: nat, decode: Base64) {
    && k < |queue| && Concerns(name, queue[k], decode)
    && forall j :: k < j < |queue| ==> !Concerns(name, queue[j], decode)
  }

  /** After a queue of events each row holds the state of the last one that concerns it, or its own. */
  lemma {:induction false} LastEventWins(rows: seq<Row>, queue: seq<WriteEvent>, decode: Base64, i: nat)
    requires i < |rows|
    ensures |Consumed(rows, queue, decode)| == |rows|
    ensures Consumed(rows, queue, decode)[i].name == rows[i].name
    ensures forall k: nat :: LastConcern(rows[i].name, queue, k, decode) ==>
      Consumed(rows, queue, decode)[i].on == NewState(queue[k], decode)
    ensures (forall k :: 0 <= k < |queue| ==> !Concerns(rows[i].name, queue[k], decode)) ==>
      Consumed(rows, queue, decode)[i] == rows[i]
    decreases |queue|
  {
    if queue != [] {
      var name, next, rest := rows[i].name, Update(rows, queue[0], decode), queue[1..];
      LastEventWins(next, rest, decode, i);
      assert next[i] == UpdateRow(rows[i], queue[0], decode);
      hide NewState, Matches, Update, UpdateRow;
      forall k: nat | LastConcern(name, queue, k, decode)
        ensures Consumed(rows, queue, decode)[i].on == NewState(queue[k], decode)
      {
        assert forall j :: 0 <= j < |rest| ==> rest[j] == queue[j + 1];
        if k > 0 {
          assert LastConcern(name, rest, k - 1, decode);
        }
      }
      if forall k :: 0 <= k < |queue| ==> !Concerns(name, queue[k], decode) {
        assert forall j :: 0 <= j < |rest| ==> rest[j] == queue[j + 1];
        assert !Concerns(name, queue[0], decode);
      }
    }
  }

  /** An on/off value under this Edge id: resource 5850 of object 3311, with a value that decodes. */
  predicate Switches(e: WriteEvent, id: string, decode: Base64) {
    e.deviceId == id && e.objectId == 3311 && e.resourceId == 5850 && decode(e.valueBase64) != None
  }

  predicate LastSwitch(queue: seq<WriteEvent>, id: string, k: nat, decode: Base64) {
    k < |queue| && Switches(queue[k], id, decode) && forall j :: k < j < |queue| ==> !Switches(queue[j], id, decode)
  }

  /**
   * The row of a well-named device after any queue: on exactly when the last on/off value under its Edge id has a
   * nonzero first byte, off exactly when that byte is zero or missing, and as before when there is no such value.
   */
  lemma OwnEventsDecide(rows: seq<Row>, queue: seq<WriteEvent>, decode: Base64, alnum: Alphabet, i: nat)
    requires Proper(alnum) && i < |rows|
    requires MadeOf(rows[i].name, alnum, '_') || MadeOf(rows[i].name, alnum, ' ')
    requires forall j :: 0 <= j < |queue| ==> MadeOf(queue[j].deviceId, alnum, '_')
    ensures |Consumed(rows, queue, decode)| == |rows| && Consumed(rows, queue, decode)[i].name == rows[i].name
    ensures forall k: nat :: LastSwitch(queue, Sanitize(rows[i].name, alnum), k, decode) ==>
      var bytes, on := decode(queue[k].valueBase64).value, Consumed(rows, queue, decode)[i].on;
      && (on == Some(true) <==> bytes != [] && bytes[0] != 0)
      && (on == Some(false) <==> bytes == [] || bytes[0] == 0)
    ensures (forall k :: 0 <= k < |queue| ==> !Switches(queue[k], Sanitize(rows[i].name, alnum), decode)) ==>
      Consumed(rows, queue, decode)[i] == rows[i]
  {
    var name, id := rows[i].name, Sanitize(rows[i].name, alnum);
    ReachesOwnRowExact(name, alnum);
    forall j | 0 <= j < |queue| ensures Concerns(name, queue[j], decode) <==> Switches(queue[j], id, decode) {
      if Matches(name, queue[j].deviceId) {
        NeverReachesOthers(name, queue[j].deviceId, alnum);
      }
    }
    LastEventWins(rows, queue, decode, i);
    hide Consumed, Concerns, Sanitize, Matches;
    forall k: nat | LastSwitch(queue, id, k, decode)
      ensures Consumed(rows, queue, decode)[i].on == NewState(queue[k], decode)
    {
      assert LastConcern(name, queue, k, decode);
    }
  }

  /** Values of other objects or resources, and values that do not decode, change no row. */
  lemma OtherValuesChangeNothing(rows: seq<Row>, queue: seq<WriteEvent>, decode: Base64)
    requires forall k :: 0 <= k < |queue| ==>
      queue[k].objectId != 3311 || queue[k].resourceId != 5850 || decode(queue[k].valueBase64) == None
    ensures Consumed(rows, queue, decode) == rows
    decreases |queue|
  {
    if queue != [] {
      assert NewState(queue[0], decode) == None;
      assert Update(rows, queue[0], decode) == rows;
      OtherValuesChangeNothing(rows, queue[1..], decode);
    }
  }

  // ---------- The table, updated in place ----------

  class DeviceTable {
    var rows: seq<Row>
    const decode: Base64

    constructor (rows: seq<Row>, decode: Base64)
      ensures this.rows == rows && this.decode == decode
    {
      this.rows, this.decode := rows, decode;
    }

    /** The body of the consumer loop. */
    method Apply(e: WriteEvent)
      modifies this`rows
      ensures rows == Update(old(rows), e, decode)
    {
      var newOn := NewOn(e);
      if newOn == None {
        assert rows == Update(old(rows), e, decode);
        return;
      }
      var nameExact, nameSpaces := e.deviceId, Spaced(e.deviceId);
      for i := 0 to |rows|
        invariant |rows| == |old(rows)|
        invariant forall j :: 0 <= j < i ==> rows[j] == UpdateRow(old(rows)[j], e, decode)
        invariant forall j :: i <= j < |rows| ==> rows[j] == old(rows)[j]
      {
        if rows[i].name == nameExact || rows[i].name == nameSpaces {
          rows := rows[i := rows[i].(on := newOn)];
        }
      }
    }

    method NewOn(e: WriteEvent) returns (on: Option<bool>)
      ensures on == NewState(e, decode)
    {
      if e.objectId == LIGHT_CONTROL && e.resourceId == ON_OFF_VALUE {
        var bytes := decode(e.valueBase64);
        if bytes != None {
          return Some(bytes.value != [] && bytes.value[0] != 0);
        }
      }
      on := None;
    }

    /** The consumer task on the events queued so far. */
    method Consume(queue: seq<WriteEvent>)
      modifies this`rows
      ensures rows == Consumed(old(rows), queue, decode)
    {
      var i := 0;
      while i < |queue|
        invariant i <= |queue|
        invariant Consumed(rows, queue[i..], decode) == Consumed(old(rows), queue, decode)
      {
        Apply(queue[i]);
        assert queue[i..][1..] == queue[i + 1..];
        i := i + 1;
      }
    }
  }
}

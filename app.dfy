/**
 * The dashboard of App.tsx: the fixed table of four breaker slots, the
 * decoder for the 21-byte status notification, the encoder for the 2-byte
 * toggle command, and the component state those handlers overwrite.
 */
module App {
  import opened Wrappers
  import opened Types
  import BreakerPanel

  /** Number of breaker slots: the overall breaker and three loads. */
  const SlotCount: nat := 4

  /** Length of one status notification, in bytes. */
  const RecordLength: nat := 21

  const MalformedDataError: string := "Received malformed data from device."
  const NoControlError: string := "Control characteristic not available."
  const SendFailedPrefix: string := "Failed to send command: "

  /** Reads a little-endian IEEE single from the four bytes at `offset`. */
  type Float32Reader = (byte, byte, byte, byte) -> real

  function LoadSlot(id: string, name: string): Breaker {
    Breaker(id, name, false, "Input Voltage", "Load Voltage", 0.0, 0.0, false, None, None, None, None)
  }

  /** The power-on table, also restored on every disconnect. */
  const InitialBreakers: seq<Breaker> := [
    Breaker("overall", "Overall Breaker", false, "System Voltage", "Total Load", 0.0, 0.0, true, None, None, None, None),
    LoadSlot("load1", "Load 1"),
    LoadSlot("load2", "Load 2"),
    LoadSlot("load3", "Load 3")
  ]

  /** Ids are pairwise distinct, slot 0 alone is the overall breaker, all is off and zero. */
  lemma InitialTableShape()
    ensures |InitialBreakers| == SlotCount
    ensures forall i, j :: 0 <= i < j < SlotCount ==> InitialBreakers[i].id != InitialBreakers[j].id
    ensures forall i :: 0 <= i < SlotCount ==> (InitialBreakers[i].isOverall <==> i == 0)
    ensures forall i :: 0 <= i < SlotCount ==>
      !InitialBreakers[i].isOn && InitialBreakers[i].reading1 == 0.0 && InitialBreakers[i].reading2 == 0.0
  {
  }

  /** A table with the initial layout in every slot: only live state may differ. */
  ghost predicate WellFormed(t: seq<Breaker>) {
    |t| == SlotCount && forall i :: 0 <= i < SlotCount ==> Layout(t[i]) == Layout(InitialBreakers[i])
  }

  // ---------------------------------------------------------------------
  // Status notification decoding
  // ---------------------------------------------------------------------

  /** Bit `i` of a status mask (bit 0 is the least significant). */
  predicate MaskBit(mask: byte, i: nat)
    requires i < 8
  {
    (mask >> i) & 1 == 1
  }

  /** The single-precision value stored little-endian at `record[offset..offset + 4]`. */
  function Float32At(record: seq<byte>, offset: nat, f32le: Float32Reader): real
    requires offset + 4 <= |record|
  {
    f32le(record[offset], record[offset + 1], record[offset + 2], record[offset + 3])
  }

  /**
   * The new table computed from one status notification: the mask in byte 0
   * sets each slot's on/off state, the system reading at offset 1 goes into
   * every slot's first reading, and slot i's second reading comes from offset
   * 5 + 4i. Everything else is carried over from the slot of `prev`.
   */
  function Decode(prev: seq<Breaker>, record: seq<byte>, f32le: Float32Reader): (r: seq<Breaker>)
    requires |prev| == SlotCount
    requires |record| >= RecordLength
    ensures |r| == SlotCount
    ensures forall i :: 0 <= i < SlotCount ==> r[i].isOn == MaskBit(record[0], i)
    ensures forall i :: 0 <= i < SlotCount ==> r[i].reading1 == Float32At(record, 1, f32le)
    ensures forall i :: 0 <= i < SlotCount ==> r[i].reading2 == Float32At(record, 5 + 4 * i, f32le)
    ensures forall i :: 0 <= i < SlotCount ==> Layout(r[i]) == Layout(prev[i])
  {
    var mask := record[0];
    var systemReading := Float32At(record, 1, f32le);
    [
      prev[0].(isOn := mask & 1 > 0, reading1 := systemReading, reading2 := Float32At(record, 5, f32le)),
      prev[1].(isOn := mask & 2 > 0, reading1 := systemReading, reading2 := Float32At(record, 9, f32le)),
      prev[2].(isOn := mask & 4 > 0, reading1 := systemReading, reading2 := Float32At(record, 13, f32le)),
      prev[3].(isOn := mask & 8 > 0, reading1 := systemReading, reading2 := Float32At(record, 17, f32le))
    ]
  }

  /** Decoding keeps the initial layout of a well-formed table. */
  lemma DecodeKeepsLayout(prev: seq<Breaker>, record: seq<byte>, f32le: Float32Reader)
    requires WellFormed(prev)
    requires |record| >= RecordLength
    ensures WellFormed(Decode(prev, record, f32le))
  {
  }

  /**
   * The table after a notification depends on the record alone, not on the
   * live state it replaces.
   */
  lemma DecodeDeterminedByRecord(p: seq<Breaker>, q: seq<Breaker>, record: seq<byte>, f32le: Float32Reader)
    requires WellFormed(p) && WellFormed(q)
    requires |record| >= RecordLength
    ensures Decode(p, record, f32le) == Decode(q, record, f32le)
  {
  }

  /** A later notification overwrites everything an earlier one set. */
  lemma LatestRecordWins(prev: seq<Breaker>, first: seq<byte>, second: seq<byte>, f32le: Float32Reader)
    requires WellFormed(prev)
    requires |first| >= RecordLength && |second| >= RecordLength
    ensures Decode(Decode(prev, first, f32le), second, f32le) == Decode(prev, second, f32le)
  {
  }

  /** Bits 4 to 7 of the mask and every byte after offset 20 have no effect. */
  lemma UnusedBitsIgnored(prev: seq<Breaker>, a: seq<byte>, b: seq<byte>, f32le: Float32Reader)
    requires |prev| == SlotCount
    requires |a| >= RecordLength && |b| >= RecordLength
    requires a[0] & 0x0F == b[0] & 0x0F
    requires a[1..RecordLength] == b[1..RecordLength]
    ensures Decode(prev, a, f32le) == Decode(prev, b, f32le)
  {
    forall k | 1 <= k < RecordLength
      ensures a[k] == b[k]
    {
      assert a[k] == a[1..RecordLength][k - 1] && b[k] == b[1..RecordLength][k - 1];
    }
    assert forall i :: 0 <= i < SlotCount ==> MaskBit(a[0], i) == MaskBit(b[0], i);
  }

  // ---------------------------------------------------------------------
  // Toggle command encoding
  // ---------------------------------------------------------------------

  /** Position of the first slot whose id is `id`, or -1 (Array.prototype.findIndex). */
  function FindIndex(table: seq<Breaker>, id: string): (r: int)
    ensures -1 <= r < |table|
    ensures r == -1 <==> forall i :: 0 <= i < |table| ==> table[i].id != id
    ensures r >= 0 ==> table[r].id == id && forall j :: 0 <= j < r ==> table[j].id != id
  {
    if |table| == 0 then -1
    else if table[0].id == id then 0
    else
      var k := FindIndex(table[1..], id);
      if k == -1 then -1 else k + 1
  }

  /**
   * The 2-byte command for a toggle request: the slot's position in the
   * initial table, then 1 for on or 0 for off. An id that names no slot
   * gives no command.
   */
  function EncodeToggle(id: string, newIsOn: bool): (r: Option<seq<byte>>)
    ensures r.Some? <==> exists i :: 0 <= i < SlotCount && InitialBreakers[i].id == id
    ensures r.Some? ==> |r.value| == 2 && (r.value[0] as int) < SlotCount
    ensures r.Some? ==> InitialBreakers[r.value[0] as int].id == id
    ensures r.Some? ==> (r.value[1] == 1 <==> newIsOn) && (r.value[1] == 0 <==> !newIsOn)
  {
    var index := FindIndex(InitialBreakers, id);
    assert |InitialBreakers| == SlotCount;
    if index == -1 then None
    else
      assert InitialBreakers[index].id == id;
      Some([index as byte, if newIsOn then 1 else 0])
  }

  /** Every slot's own id encodes to that slot's position: overall 0, load1 1, load2 2, load3 3. */
  lemma ToggleAddressesSlot(i: nat, newIsOn: bool)
    requires i < SlotCount
    ensures EncodeToggle(InitialBreakers[i].id, newIsOn) == Some([i as byte, if newIsOn then 1 else 0])
  {
  }

  // ---------------------------------------------------------------------
  // The breaker table over a sequence of handler invocations
  // ---------------------------------------------------------------------

  /** One invocation of a handler that may touch the breaker table. */
  datatype Event =
    | Notification(value: Option<seq<byte>>)
    | Disconnected
    | ToggleRequested(id: string, newIsOn: bool)

  /**
   * A notification is handled either before any read fails (fewer than five
   * bytes are caught by the try/catch) or after all 21 bytes are present.
   */
  predicate Handled(e: Event) {
    e.Notification? && e.value.Some? ==> |e.value.value| < 5 || |e.value.value| >= RecordLength
  }

  /** The table after one handler invocation. */
  function TableStep(t: seq<Breaker>, e: Event, f32le: Float32Reader): (r: seq<Breaker>)
    requires |t| == SlotCount
    requires Handled(e)
    ensures |r| == SlotCount
    ensures WellFormed(t) ==> WellFormed(r)
  {
    match e
    case Notification(value) =>
      if value.Some? && |value.value| >= RecordLength then Decode(t, value.value, f32le) else t
    case Disconnected => InitialBreakers
    case ToggleRequested(_, _) => t
  }

  /** The table after a sequence of handler invocations; the layout never changes. */
  ghost function TableAfter(t: seq<Breaker>, events: seq<Event>, f32le: Float32Reader): (r: seq<Breaker>)
    requires WellFormed(t)
    requires forall k :: 0 <= k < |events| ==> Handled(events[k])
    ensures WellFormed(r)
    decreases |events|
  {
    if events == [] then t
    else
      TableAfter(TableStep(t, events[0], f32le), events[1..], f32le)
  }

  /** An event that can change the on/off state or the readings. */
  predicate ChangesTable(e: Event) {
    e.Disconnected? || (e.Notification? && e.value.Some? && |e.value.value| >= RecordLength)
  }

  /** Without a full notification or a disconnect the table stays as it was; toggles never touch it. */
  lemma {:induction false} TableFrozenWithoutUpdates(t: seq<Breaker>, events: seq<Event>, f32le: Float32Reader)
    requires WellFormed(t)
    requires forall k :: 0 <= k < |events| ==> Handled(events[k]) && !ChangesTable(events[k])
    ensures TableAfter(t, events, f32le) == t
    decreases |events|
  {
    if events != [] {
      TableFrozenWithoutUpdates(t, events[1..], f32le);
    }
  }

  /** Replaying a concatenation is replaying its parts in turn. */
  lemma {:induction false} TableAfterAppend(t: seq<Breaker>, a: seq<Event>, b: seq<Event>, f32le: Float32Reader)
    requires WellFormed(t)
    requires forall k :: 0 <= k < |a| ==> Handled(a[k])
    requires forall k :: 0 <= k < |b| ==> Handled(b[k])
    ensures forall k :: 0 <= k < |a + b| ==> Handled((a + b)[k])
    ensures TableAfter(t, a + b, f32le) == TableAfter(TableAfter(t, a, f32le), b, f32le)
    decreases |a|
  {
    assert forall k :: 0 <= k < |a + b| ==> Handled((a + b)[k]) by {
      forall k | 0 <= k < |a + b|
        ensures Handled((a + b)[k])
      {
        if k < |a| { assert (a + b)[k] == a[k]; } else { assert (a + b)[k] == b[k - |a|]; }
      }
    }
    if a != [] {
      assert (a + b)[0] == a[0];
      assert (a + b)[1..] == a[1..] + b;
      TableAfterAppend(TableStep(t, a[0], f32le), a[1..], b, f32le);
    } else {
      assert a + b == b;
    }
  }

  /** Whatever happened before, a disconnect restores exactly the power-on table. */
  lemma DisconnectRestoresInitial(t: seq<Breaker>, events: seq<Event>, f32le: Float32Reader)
    requires WellFormed(t)
    requires forall k :: 0 <= k < |events| ==> Handled(events[k])
    ensures forall k :: 0 <= k < |events + [Disconnected]| ==> Handled((events + [Disconnected])[k])
    ensures TableAfter(t, events + [Disconnected], f32le) == InitialBreakers
  {
    TableAfterAppend(t, events, [Disconnected], f32le);
  }

  /**
   * Each panel is rendered with slot 0's state as the master flag: while
   * slot 0 is off, the ON button of every load slot is disabled, and the
   * overall slot's ON button is enabled exactly when it is off.
   */
  lemma PanelInterlockOverTable(t: seq<Breaker>, i: nat)
    requires WellFormed(t)
    requires i < SlotCount
    ensures 0 < i && !t[0].isOn ==> !BreakerPanel.OnEnabled(t[i], t[0].isOn)
    ensures i == 0 ==> (BreakerPanel.OnEnabled(t[i], t[0].isOn) <==> !t[0].isOn)
  {
  }

  // ---------------------------------------------------------------------
  // The component state overwritten by the handlers
  // ---------------------------------------------------------------------

  /**
   * The dashboard's state: the breaker table, whether a device is connected,
   * whether the control characteristic is held, the error line, and the
   * commands written to the control characteristic so far.
   */
  class ControlPanel {
    var breakers: seq<Breaker>
    var isConnected: bool
    var hasControl: bool
    var error: Option<string>
    var sent: seq<seq<byte>>

    ghost predicate Valid()
      reads this
    {
      WellFormed(breakers)
    }

    /** The state at mount: the initial table, no device, no error. */
    constructor ()
      ensures Valid()
      ensures breakers == InitialBreakers && !isConnected && !hasControl
      ensures error == None && sent == []
    {
      breakers := InitialBreakers;
      isConnected := false;
      hasControl := false;
      error := None;
      sent := [];
    }

    /** The device went away: drop the connection and the control channel, restore the initial table. */
    method OnDisconnected()
      requires Valid()
      modifies this
      ensures Valid()
      ensures breakers == InitialBreakers && !isConnected && !hasControl
      ensures error == old(error) && sent == old(sent)
    {
      isConnected := false;
      hasControl := false;
      breakers := InitialBreakers;
    }

    /**
     * A connection attempt succeeded: the error line was cleared when it
     * started, the control characteristic is held when the device offers
     * one, and the dashboard is connected. The table is not touched.
     */
    method OnConnected(controlAvailable: bool)
      requires Valid()
      modifies this
      ensures Valid()
      ensures isConnected && hasControl == controlAvailable && error == None
      ensures breakers == old(breakers) && sent == old(sent)
    {
      error := None;
      hasControl := controlAvailable;
      isConnected := true;
    }

    /**
     * A status notification arrived. No value: nothing happens. Fewer than
     * five bytes: the first reads fail and the error line is set. A full
     * record: the table is replaced by its decoding.
     */
    method HandleStatusUpdate(value: Option<seq<byte>>, f32le: Float32Reader)
      requires Valid()
      requires Handled(Notification(value))
      modifies this
      ensures Valid()
      ensures breakers == TableStep(old(breakers), Notification(value), f32le)
      ensures error == if value.Some? && |value.value| < 5 then Some(MalformedDataError) else old(error)
      ensures isConnected == old(isConnected) && hasControl == old(hasControl) && sent == old(sent)
    {
      if value.None? {
        return;
      }
      var record := value.value;
      if |record| < 5 {
        error := Some(MalformedDataError);
        return;
      }
      DecodeKeepsLayout(breakers, record, f32le);
      breakers := Decode(breakers, record, f32le);
    }

    /**
     * The operator pressed ON or OFF. Without a control channel the error
     * line is set; an unknown id does nothing; otherwise the command is
     * written, and a failed write (`writeFailure` holds its message) sets
     * the error line instead. The table is never changed here.
     */
    method HandleToggle(id: string, newIsOn: bool, writeFailure: Option<string>)
      requires Valid()
      modifies this
      ensures Valid()
      ensures breakers == old(breakers)
      ensures isConnected == old(isConnected) && hasControl == old(hasControl)
      ensures !old(hasControl) ==> error == Some(NoControlError) && sent == old(sent)
      ensures old(hasControl) && EncodeToggle(id, newIsOn).None? ==> error == old(error) && sent == old(sent)
      ensures old(hasControl) && EncodeToggle(id, newIsOn).Some? && writeFailure.None? ==>
        error == old(error) && sent == old(sent) + [EncodeToggle(id, newIsOn).value]
      ensures old(hasControl) && EncodeToggle(id, newIsOn).Some? && writeFailure.Some? ==>
        error == Some(SendFailedPrefix + writeFailure.value) && sent == old(sent)
    {
      if !hasControl {
        error := Some(NoControlError);
        return;
      }
      var command := EncodeToggle(id, newIsOn);
      if command.None? {
        return;
      }
      if writeFailure.None? {
        sent := sent + [command.value];
      } else {
        error := Some(SendFailedPrefix + writeFailure.value);
      }
    }
  }

  /**
   * A session: mount, connect with a control characteristic, receive one
   * record that switches the master on, switch load 2 on, lose the device.
   */
  method Session(record: seq<byte>, f32le: Float32Reader)
    requires |record| >= RecordLength && record[0] == 0x01
  {
    var panel := new ControlPanel();
    panel.OnConnected(true);
    panel.HandleStatusUpdate(Some(record), f32le);
    assert panel.breakers[0].isOn && !panel.breakers[2].isOn;
    InitialTableShape();
    panel.HandleToggle("load2", true, None);
    assert panel.sent == [[2, 1]];
    assert panel.error == None;
    panel.OnDisconnected();
    assert panel.breakers == InitialBreakers && panel.sent == [[2, 1]];
  }
}

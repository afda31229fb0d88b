# Breaker dashboard: status decoding, toggle commands and panel rules

This project models the control core of a small Bluetooth breaker dashboard.
The dashboard shows four breaker slots: the overall (master) breaker and three loads.

- The device sends a 21-byte little-endian status notification.
  Byte 0 is the on/off mask, with bit i belonging to slot i.
  Bytes 1-4 hold the system reading.
  Bytes 5+4i to 8+4i hold slot i's second reading.
  The dashboard decodes each notification into a new four-slot table.
- Pressing ON or OFF sends a 2-byte command: the slot's position in the initial table, then 1 or 0.
- A disconnect restores the power-on table.
- Each breaker panel enables its ON and OFF buttons through a master/load interlock.
  It also labels and colours the breaker's status.
  When a threshold field loses focus, the panel either commits the edit or resets the text.

Files:

- `wrappers.dfy` (module `Wrappers`): `Option`, standing for JavaScript's `undefined`.
- `types.dfy` (module `Types`): the `Breaker` and `HistoryLog` records.
  It also has `Layout`, which is a slot without its live state.
- `app.dfy` (module `App`): the initial table, the decoder, the toggle encoder and the table over a sequence of handler calls.
  The class `ControlPanel` holds the dashboard's state fields.
  Its methods `OnConnected`, `HandleStatusUpdate`, `HandleToggle` and `OnDisconnected` overwrite those fields.
  The method `Session` is a client that runs one connection through these methods.
- `breaker_panel.dfy` (module `BreakerPanel`): the interlock, the status label and colour, and the threshold blur decision.

Naming: App.tsx calls the two measurement fields `voltage1`/`voltage2`
(the keys differ, see Left out).
types.ts calls them `current1`/`current2`.
The model has one record, whose fields are `reading1`/`reading2` (labels `label1`/`label2`).

Abstractions:

- `getFloat32(offset, true)` is a function parameter `f32le: (byte, byte, byte, byte) -> real`, applied to the four bytes at the offset, lowest first.
  The contracts say which bytes each reading comes from, not its numeric value.
- `parseFloat` is a parameter `string -> Option<real>`, with `None` standing for NaN.
- `toFixed(2)` is a parameter `real -> string`.
- The write to the control characteristic is recorded in the field `sent`.
  Its failure is a parameter `writeFailure` that carries the exception message.

Facts about the code that the model keeps:

- The toggle command is exactly 2 bytes `[index, state]`, with no opcode byte (App.tsx:111-118).
- Bytes 5-20 go into the four slots' second reading, `voltage2` (App.tsx:54-57).
  The first reading, `voltage1`, of every slot is the system reading from bytes 1-4.
- A status value of fewer than 5 bytes fails inside the try/catch and sets the error line (App.tsx:39-62).
- A value of 5 to 20 bytes passes the try/catch and fails later, in the state updater (see Left out).
- The status label for a short-circuit trip is spelled `"Short Circuit"` (components/BreakerPanel.tsx:55).

## Model

| member | source | states |
|---|---|---|
| `App.InitialBreakers` | App.tsx:12-17 | The power-on table: overall, load1, load2, load3, in that order, with their names and labels. Every slot is off with zero readings, and no optional field is set. |
| `App.InitialTableShape` | App.tsx:12-17 | The initial table has four slots with pairwise distinct ids. Slot 0 alone is the overall breaker. Every slot is off with zero readings. |
| `App.Decode` | App.tsx:50-58 | The result has exactly four slots. Slot i is on iff bit i of byte 0 is set. Every slot's first reading is the float at offset 1. Slot i's second reading is the float at offset 5+4i. Every other field equals the previous slot's. |
| `App.DecodeKeepsLayout` | App.tsx:53-58 | Decoding a table with the initial layout keeps that layout: same ids, names, labels and roles, in the same order. |
| `App.DecodeDeterminedByRecord` | App.tsx:53-58 | On two tables with the initial layout, the decoded table is the same: it depends on the record alone. |
| `App.LatestRecordWins` | App.tsx:53-58 | Decoding a second record after a first gives the same table as decoding the second alone. |
| `App.UnusedBitsIgnored` | App.tsx:50-57 | Two records that agree on mask bits 0-3 and on bytes 1-20 decode to the same table. Mask bits 4-7 and bytes past offset 20 have no effect. |
| `App.FindIndex` | App.tsx:114 | The result is -1 iff no slot has the id. Otherwise it is the first slot with that id. |
| `App.EncodeToggle` | App.tsx:111-118 | A command exists iff the id names a slot of the initial table. The command is two bytes. The first byte is a position whose initial slot has the id. The second byte is 1 iff switching on and 0 iff switching off. |
| `App.ToggleAddressesSlot` | App.tsx:111-118 | Each slot's own id encodes to its position: overall to 0, load1 to 1, load2 to 2, load3 to 3. |
| `App.TableStep` | App.tsx:27-124 | One handler call keeps four slots and keeps the initial layout. |
| `App.TableAfter` | App.tsx:27-124 | Any sequence of handler calls keeps the initial layout of the table. |
| `App.TableFrozenWithoutUpdates` | App.tsx:35-124 | Without a full notification or a disconnect, the table does not change. Toggle requests, absent values and caught short records leave it as it was. |
| `App.TableAfterAppend` | App.tsx:27-124 | Replaying two sequences in a row is the same as replaying their concatenation. |
| `App.DisconnectRestoresInitial` | App.tsx:27-33 | After any history, a disconnect leaves exactly the initial table. |
| `App.PanelInterlockOverTable` | App.tsx:156-162 | Each panel gets slot 0's state as the master flag. So while slot 0 is off, no load slot's ON button is enabled. |
| `App.ControlPanel.constructor` | App.tsx:20-25 | At mount, the table is the initial one, there is no connection, no control channel and no error, and nothing was sent. |
| `App.ControlPanel.OnConnected` | App.tsx:70-91 | A successful connection clears the error line, holds the control channel if the device offers one, and marks the dashboard connected. The table and the sent commands are unchanged. |
| `App.ControlPanel.OnDisconnected` | App.tsx:27-33 | The connection and control channel are dropped and the table becomes the initial one. The error line and the sent commands are unchanged. |
| `App.ControlPanel.HandleStatusUpdate` | App.tsx:35-63 | An absent value changes nothing. Fewer than five bytes set the malformed-data error and keep the table. A full record replaces the table by its decoding. Connection fields and sent commands are unchanged. |
| `App.ControlPanel.HandleToggle` | App.tsx:106-124 | The table never changes. Without a control channel, the error is set and nothing is sent. An unknown id does nothing. Otherwise the encoded command is appended to the sent commands, or on a failed write the error names the failure. |
| `BreakerPanel.CanTurnOn` | components/BreakerPanel.tsx:52 | A breaker may be switched on iff it is the overall breaker or the master is on. |
| `BreakerPanel.OnEnabled` | components/BreakerPanel.tsx:70 | The ON button is enabled iff the breaker may be switched on and is off. |
| `BreakerPanel.OffEnabled` | components/BreakerPanel.tsx:77 | The OFF button is enabled iff the breaker is on. |
| `BreakerPanel.LoadLockedWhileMasterOff` | components/BreakerPanel.tsx:52-70 | For a load breaker, an enabled ON button implies the master is on. While the master is off, ON is disabled. |
| `BreakerPanel.OverallNeverLocked` | components/BreakerPanel.tsx:52-70 | For the overall breaker, ON is enabled iff it is off, whatever the master flag. |
| `BreakerPanel.ButtonsExclusive` | components/BreakerPanel.tsx:52-77 | ON and OFF are never both enabled. When the breaker may be switched on, exactly one of them is enabled. |
| `BreakerPanel.StatusText` | components/BreakerPanel.tsx:54 | The label is "NORMAL" when on. When off, it is the last trip reason if one is set, else "OFF". |
| `BreakerPanel.StatusColour` | components/BreakerPanel.tsx:55 | Green iff on. Yellow iff off with reason "Overload" or "Short Circuit". Red iff off with any other reason or none. |
| `BreakerPanel.ColourClass` | components/BreakerPanel.tsx:55 | Green, yellow and red render as `text-green-400`, `text-yellow-400` and `text-red-500`. |
| `BreakerPanel.YellowMeansFaultLabel` | components/BreakerPanel.tsx:54-55 | The colour is yellow exactly when the breaker is off and its label shows "Overload" or "Short Circuit". |
| `BreakerPanel.OffNeverGreen` | components/BreakerPanel.tsx:55 | A breaker that is off is never rendered with the green class. |
| `BreakerPanel.EditableText` | components/BreakerPanel.tsx:17-26 | A field shows the stored threshold with two decimals, or the default text when none is stored. |
| `BreakerPanel.ThresholdBlur` | components/BreakerPanel.tsx:28-44 | The edit commits iff it parses to a non-negative number different from the stored threshold. A commit carries that number to the given setter. Otherwise the field shows the stored threshold's text again. |
| `BreakerPanel.MaxCurrentBlur` | components/BreakerPanel.tsx:28-35 | The maximum field calls the max setter with the parsed value iff the parse succeeds, the value is at least 0 and it differs from `maxCurrent`. Otherwise the text resets to `maxCurrent`'s text, or "5.00" if unset. |
| `BreakerPanel.MinCurrentBlur` | components/BreakerPanel.tsx:37-44 | The same rule for `minCurrent` and the min setter, with default "0.10". |
| `BreakerPanel.StoredMaxCommitIsStable` | components/BreakerPanel.tsx:28-35 | After a committed maximum is stored, typing the same text again and leaving the field commits nothing and shows the stored value's text. |
| `BreakerPanel.StoredMinCommitIsStable` | components/BreakerPanel.tsx:37-44 | The same for a committed minimum, when the same text is typed again. |
| `BreakerPanel.ResyncedMaxBlur` | components/BreakerPanel.tsx:20-35 | After a maximum `v` is stored, the field shows `v` with two decimals. Leaving it untouched resets iff that text parses to NaN, to a negative number or to `v` itself; otherwise it commits the rounded value. |
| `BreakerPanel.FieldsIndependent` | components/BreakerPanel.tsx:28-44 | Storing a maximum does not change the minimum field's decision, and storing a minimum does not change the maximum field's. |

## Left out

- Connecting (`handleConnect`, App.tsx:65-100): device selection, GATT service and characteristic lookup, and notification subscription are browser Bluetooth I/O. Only the state left by a successful attempt is modelled, by `OnConnected`; the failure path, which sets an error and runs the disconnect handler, is not.
- `handleDisconnect` and the listener cleanup (App.tsx:102-104, 126-131), and the `device` field: they only talk to the Bluetooth handle.
- `App.ControlPanel.HandleStatusUpdate`: requires that a value is not 5 to 20 bytes long. Such a value passes the try/catch at App.tsx:39-62, and the reads at App.tsx:54-57 then throw inside the state updater. The model does not describe that failure.
- The numeric meaning of `getFloat32`, `parseFloat` and `toFixed`, which are IEEE-754 float operations.
  For `parseFloat`, NaN is `None`; a parse giving `Infinity` is not representable.
  The real-valued `f32le` cannot represent the NaN or infinite values that `getFloat32` can return; the contracts only say which bytes each reading comes from.
- The asynchronous ordering of `writeValue` relative to later handler calls. A write is recorded at the time of the request.
- The Enter-key handler (components/BreakerPanel.tsx:46-50) and all rendering.
- types.ts declares `maxCurrent`, `minCurrent`, `gracePeriodMs`, `lastTripReason` and `HistoryLog` (types.ts:11-22). Neither App.tsx nor components/BreakerPanel.tsx sets a threshold or a trip reason or writes a history entry, so the model carries these fields as data only.
- components/SettingsModal.tsx, components/AboutModal.tsx, components/HistoryModal.tsx and components/LoginPage.tsx: presentation. The hard-coded credential comparison of the login page is left out too.
- The Web Serial type declarations in types.ts:25-54: type stubs only.
- App.tsx builds slots with `voltage1`/`voltage2` and `voltage1Label`/`voltage2Label` keys (App.tsx:12-17, 54-57), while components/BreakerPanel.tsx:15 reads `current1`, `current2`, `current1Label` and `current2Label`. Rendered as written, `current1.toFixed(2)` (components/BreakerPanel.tsx:90, 105) would throw on such a slot. The single `Breaker` record with `reading1`/`reading2` hides this key mismatch; the model does not capture it.
- App.tsx renders each panel with only `breaker`, `onToggle` and `isMasterOn` (App.tsx:157-162), while components/BreakerPanel.tsx also expects the threshold setters and an admin flag. The blur rules are modelled for the panel as written.

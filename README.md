# IOT dashboard ingestion core, modelled in Dafny

This project models the working core of `dashboard.py`, a Streamlit
dashboard that collects temperature and smoke readings from an MQTT broker
into MongoDB and charts them. The model covers three parts.

- **Inbound messages.** The `on_message` callback takes the text between the
  first and second `:` of the payload, strips it, and keeps its first
  whitespace-delimited word. It converts that word with `float()` and stores
  `{"timestamp": now, "temperature" | "smoke": value}`, choosing the key by
  topic. An `IndexError` or `ValueError` makes it return without inserting
  anything.
- **Client lifecycle.** `on_connect` subscribes to both topics only when the
  return code is 0. `start_mqtt` and `stop_mqtt` set and clear the module
  globals `mqtt_client` and `running`. `collect_data` calls start and then
  stop.
- **Read side.** A loop walks the fetched documents in cursor order. It
  appends an entry to the temperature series for each document with a
  `temperature` key, and to the smoke series for each document with a
  `smoke` key.

Files:

- `Wrappers.dfy`: `Option` and `Result`.
- `PyText.dfy`: Python's `str.split(sep)` for a one-character separator
  (the only kind the source uses, `":"`), `str.strip()` and `str.split()`.
  Whitespace is the set of characters for which `str.isspace()` holds.
- `Messages.dfy`: token extraction, topic dispatch and the record that
  `on_message` builds.
- `Broker.dfy`: the paho client as a recorder of the calls made on it.
- `Store.dfy`: the MongoDB collection as an append-only sequence.
- `Dashboard.dfy`: the module globals as the class `Globals`, plus the
  callbacks, `start_mqtt`, `stop_mqtt` and `collect_data`.
- `ReadSide.dfy`: the partition loop and the series it builds.

Parameters that stand for external code:

- Timestamps are an opaque type `T` that the caller passes in.
- `float()` is a parameter `toFloat: string -> Option<N>`. `None` means
  `ValueError`.
- On the read side, the timestamp conversion (`astimezone`/`fromisoformat`)
  is a parameter `normalize: D -> Option<T>`. `None` means the exception
  `fromisoformat` raises.
- Whether the broker accepts `connect` is the boolean input `reachable`.

Behaviour of the code worth noting:

- A message on any topic other than `iot/temperature` and `iot/smoke` is
  not rejected. The code inserts a record that holds only `timestamp`.
- `stop_mqtt` does not unsubscribe. It calls `loop_stop` and then
  `disconnect`.
- The code has no alert policy, notification sender or latest-reading
  query, so the model has none either.
- dashboard.py has no reconnect logic of its own. Any reconnect comes from
  paho's background loop, which is not modelled (see "Left out").

## Model

| member | source | states |
|---|---|---|
| PyText.Split | dashboard.py:45 | `str.split(":")`: always yields at least one piece. Described further by `SplitHasSecond`, `JoinSplit`, `SplitJoin`, `SplitPiecesFree`, `SecondPiece` and `SecondPieceShape` |
| PyText.Strip | dashboard.py:45 | `str.strip()`; no contract of its own. Described by `TrimLeftSpec`, `TrimRightSpec`, `StripFrames` and `StripBlank` |
| PyText.Words | dashboard.py:45 | `str.split()` with no argument; no contract of its own. Described by `TakeWordSpec`, `WordsSpec`, `FirstWordOfStrip` and `FirstWordIs` |
| PyText.SplitHasSecond | dashboard.py:45 | `message.split(":")` has an element at index 1 exactly when the payload contains `:`; otherwise `[1]` raises `IndexError` |
| PyText.JoinSplit | dashboard.py:45 | `str.split(sep)` loses nothing: joining the pieces with `sep` gives back the payload |
| PyText.SplitJoin | dashboard.py:45 | splitting a join of separator-free pieces gives back those pieces, so the split is the inverse of the join |
| PyText.SplitPiecesFree | dashboard.py:45 | no piece of `split(":")` contains a colon |
| PyText.SecondPiece | dashboard.py:45 | piece 1 of `split(":")` is exactly the text between the first and second colon, whatever follows the second colon |
| PyText.SecondPieceShape | dashboard.py:45 | every payload with a colon splits as prefix, `:`, colon-free field, and then nothing or a suffix that starts with `:` |
| PyText.TrimLeftSpec | dashboard.py:45 | `lstrip` drops exactly the leading whitespace run, and what is left is empty or starts with a non-space |
| PyText.TrimRightSpec | dashboard.py:45 | `rstrip` drops exactly the trailing whitespace run, and what is left is empty or ends with a non-space |
| PyText.StripFrames | dashboard.py:45 | the payload field is `strip()`'s result framed by two whitespace runs, and that result is empty or starts and ends with a non-space |
| PyText.StripBlank | dashboard.py:45 | `strip()` leaves nothing exactly when the field is all whitespace |
| PyText.TakeWordSpec | dashboard.py:45 | the first word is the longest whitespace-free prefix; it ends at whitespace or at the end of the text |
| PyText.WordsSpec | dashboard.py:45 | every word of `split()` is non-empty and whitespace-free; the list is empty exactly when the text is blank, which is when `[0]` raises `IndexError` |
| PyText.FirstWordOfStrip | dashboard.py:45 | `strip().split()[0]` is the same word as `split()[0]`, namely the first run of non-whitespace |
| PyText.FirstWordIs | dashboard.py:48 | for a text made of blank `lead`, word `w`, and `tail` that is empty or starts with whitespace, `split()[0]` is `w` |
| Messages.ValueKey | dashboard.py:44-49 | the topic dispatch: `iot/temperature` stores under `temperature`, `iot/smoke` under `smoke`, any other topic under no value key; no contract of its own. Described by `Handle`'s contract and `OtherTopicIgnoresPayload` |
| Messages.ValueToken | dashboard.py:45-48 | `message.split(":")[1].strip().split()[0]`, with both `IndexError`s as failures; no contract of its own. Described by `TokenIsFirstWord`, `TokenCases`, `NoColonRejected` and `BlankFieldRejected` |
| Messages.ParseValue | dashboard.py:45-52 | `float()` on the token: a missing token is `IndexError`, a token that does not convert is `ValueError`; no contract of its own. Described by `Handle`'s contract |
| Messages.Handle | dashboard.py:37-55 | an accepted record has exactly the keys `timestamp` and the topic's value key (temperature topic: `temperature`; smoke topic: `smoke`; other topics: none), with the timestamp passed in and the converted token as value. It never holds both value keys. `IndexError` occurs exactly on a sensor topic with no token; `ValueError` exactly on a sensor topic whose token does not convert |
| Messages.OtherTopicIgnoresPayload | dashboard.py:44-54 | on any other topic the outcome does not depend on the payload or on `float()`: a record holding only `timestamp` |
| Messages.NoColonRejected | dashboard.py:45 | a payload without `:` is rejected with `IndexError` |
| Messages.BlankFieldRejected | dashboard.py:48 | a payload whose text between the first and second colon is empty or blank is rejected with `IndexError` |
| Messages.TokenIsFirstWord | dashboard.py:45 | the value token is the first whitespace-delimited word between the first and second colon; text after the second colon is ignored |
| Messages.TokenCases | dashboard.py:45 | a token exists exactly when the payload has a colon and the field after it is not blank; the token is non-empty, whitespace-free and colon-free |
| Store.Collection.constructor | dashboard.py:24-26 | the collection holds the documents already stored by earlier runs |
| Store.Collection.InsertOne | dashboard.py:54 | `insert_one` appends exactly one document and changes nothing else |
| Broker.Client.constructor | dashboard.py:69 | a new client has recorded no calls and has no callbacks |
| Broker.Client.Connect | dashboard.py:72 | `connect` is recorded with its host, port and keepalive; it succeeds exactly when the broker is reachable |
| Broker.Client.LoopStart | dashboard.py:73 | `loop_start` is recorded |
| Broker.Client.LoopStop | dashboard.py:80 | `loop_stop` is recorded |
| Broker.Client.Disconnect | dashboard.py:81 | `disconnect` is recorded |
| Broker.Client.Subscribe | dashboard.py:61-62 | `subscribe(topic)` is recorded |
| Dashboard.OnConnect | dashboard.py:58-64 | with `rc == 0` it subscribes to `iot/temperature` and then `iot/smoke`; with any other `rc` it subscribes to nothing |
| Dashboard.Globals.constructor | dashboard.py:29-31 | at module load there is no client and `running` is false |
| Dashboard.Globals.OnMessage | dashboard.py:37-55 | the callback's outcome is `Handle`'s. An accepted message appends its record to the collection exactly once; a rejected one leaves the collection unchanged |
| Dashboard.Globals.StartMqtt | dashboard.py:67-74 | a fresh client with both callbacks replaces the old one and connects to 34.60.16.6:1883 with keepalive 60. The loop starts and `running` becomes true only if `connect` returned; after a failing connect the new client stays held and `running` keeps its value |
| Dashboard.Globals.StopMqtt | dashboard.py:77-83 | with no client, it does nothing. Otherwise it calls `loop_stop` then `disconnect` on the client, leaves its callbacks as they were, and leaves `mqtt_client` None and `running` false, so a second call does nothing |
| Dashboard.Globals.CollectData | dashboard.py:86-89 | the client that start creates gets both callbacks and records `connect`. After a successful start it records `loop_start`, `loop_stop` and `disconnect`, in that order, and the globals end cleared. When `connect` raises, stop never runs: that client stays held with only `connect` recorded, and `running` is unchanged |
| ReadSide.Series | dashboard.py:100-118 | the list `temperature_data` or `smoke_data` the loop builds, defined document by document in cursor order; no contract of its own. Described by `Partition`, `SeriesAppend`, `DocumentWithoutKey`, `EntryPosition` and `EntryAddsOne` |
| ReadSide.Partition | dashboard.py:102-118 | the loop succeeds exactly when every document has a timestamp that converts, and then returns the temperature and smoke series of the cursor. Otherwise it raises the exception of the first unreadable document |
| ReadSide.SeriesAppend | dashboard.py:102-118 | the series over two document runs is the series of the first followed by the series of the second, so cursor order is kept |
| ReadSide.DocumentWithoutKey | dashboard.py:109-118 | a document without a key adds nothing to that key's series, wherever it sits |
| ReadSide.EntryPosition | dashboard.py:109-118 | a document with the key has its entry (its local time and its value) at the position after the entries of all earlier documents |
| ReadSide.EntryAddsOne | dashboard.py:109-113 | a document with the key adds exactly one entry: the series grows by one when it is taken in |
| ReadSide.InsertedRecordReadsBack | dashboard.py:40-54 | a record that `on_message` inserted appears in the series of its own topic only, as one entry holding the converted reading |

## Left out

- Streamlit UI, button handling, pandas DataFrames with their sort, and Altair charts (dashboard.py:92-96 and 120-156) are presentation.
- `msg.payload.decode()` is not modelled. The handler receives the decoded text, and a decoding error is not caught by the source.
- The `print` logging in the callbacks is output only.
- Reading the clock and converting to the `Asia/Kuala_Lumpur` zone are not modelled. Timestamps are opaque values passed in, and the read-side conversion is the parameter `normalize`.
- Python's `float()` is the abstract parameter `toFloat`. Floating-point syntax and values are not modelled.
- MongoDB is not modelled beyond an append-only sequence. Not modelled: the `_id` that `insert_one` adds, insert failures, and the `find().sort("timestamp", -1).limit(100)` query. The read side takes the cursor's documents as its input.
- The MongoDB connection settings (dashboard.py:12-15) are not modelled; the collection is passed to `Globals` when it is built.
- paho's network, its background loop thread (including its automatic reconnects, which call `on_connect` again), and the concurrency between callbacks and the globals are not modelled. `on_connect` and `on_message` are plain methods. `loop_start` never fails in the model.
- `time.sleep` in `collect_data` and the messages that arrive during the sleep are not modelled.
- The unused global `mqtt_thread` is not modelled.

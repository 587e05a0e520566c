# P1 smart-meter firmware: framing, short-term log and web helpers

This project models the parts of an ESP32 firmware for a P1 (smart-meter
serial port) reader that carry checkable logic:

- **Telegram framing** (`EmucsP1`, from `main/emucs_p1.c`). Serial chunks
  are accumulated into a 1024-byte buffer. Each new chunk is scanned byte by
  byte through the states IDLE → DATA (on `/`) → END (on `!`) → IDLE (on a
  line feed). Each completed telegram is reported as a start offset and a
  size of `end - start + 3`. The overflow check and the compaction run once
  per call, so how the serial stream is cut into chunks can change which
  telegrams are reported. An unfinished telegram is moved to the front of
  the buffer. Everything is reset when a chunk would not fit.
  - The class `P1Framer` holds the state the firmware keeps in static
    variables: the buffer, the state, the cursor, and the start and end
    pointers (as `Ptr = Null | At(offset)`).
  - The value-level `Step`/`Scan` functions are the specification that
    the byte loop is proved against.
- **Short-term log** (`Logger`, from `main/logger.c`). It is a
  fixed-capacity ring buffer with a head index and an item count that
  saturates at the capacity.
  - The value `RingState` with `Append`/`ReadItems` is the specification.
  - The class `ShortTermLog` is the module state. It carries a ghost
    `history` of every entry added, and its invariant says that the ring
    holds the newest `capacity` entries of that history.
- **Web helpers** (`WebServer`, from `main/web_server.c`):
  - the content type for a file extension;
  - the file path built from a request URI in a fixed-size buffer, with
    `strcpy`/`strlcat`;
  - the extension after the last `.` (`strrchr`);
  - status-code normalisation and its decimal text;
  - the maximum-demand-year list;
  - the breaker-state string.
- `P1Types` holds the fields of the meter-reading record that these read.

## Model

| member | source | states |
|---|---|---|
| EmucsP1.Step | main/emucs_p1.c:110-141 | One byte of the scan. IDLE goes to DATA only on `/`, DATA to END only on `!`, END to IDLE only on a line feed, and no other byte changes the state. A frame is reported exactly when a line feed arrives in END; it is `(start, end - start + 3)` and the start and end are cleared. Recorded positions stay below the scan offset. |
| EmucsP1.Scan | main/emucs_p1.c:110-141 | Scanning bytes `[i, j)` keeps the recorded pointers consistent with the state: set in DATA/END, cleared in IDLE, start < end < j in END. |
| EmucsP1.ScanFramed | main/emucs_p1.c:110-141 | Soundness: after any scan, the recorded start holds `/` and the recorded end holds the first `!` after it. Every reported frame starts at a `/`, its `!` is at `start + size - 3`, and there is no `!` in between. |
| EmucsP1.ScanIdleSkips | main/emucs_p1.c:112-118 | In IDLE, bytes other than `/` are skipped without recording anything or reporting a frame. |
| EmucsP1.ScanDataSkips | main/emucs_p1.c:119-125 | In DATA, bytes other than `!` (a second `/` included) leave the state and the start unchanged. |
| EmucsP1.ScanEndSkips | main/emucs_p1.c:126-139 | In END, only a line feed acts. The byte before it is not checked for a carriage return. |
| EmucsP1.ScanSplit | main/emucs_p1.c:110-141 | Scanning one buffer in two consecutive pieces gives the same state and the same frames as one pass. Across calls this does not carry over, because the per-call overflow check (`main/emucs_p1.c:84-94`) and the compaction (`main/emucs_p1.c:145-153`) make the outcome depend on the chunk sizes. |
| EmucsP1.ScanToEnd | main/emucs_p1.c:112-125 | From IDLE, a `/` at s followed by the first `!` at e leaves the scanner in END with s and e recorded. |
| EmucsP1.ScanTelegram | main/emucs_p1.c:112-139 | Completeness: from IDLE, `/` at s, the first `!` at e and the first line feed at n yield exactly one frame `(s, e - s + 3)`, and the scanner is back in IDLE. |
| EmucsP1.FrameMayPassData | main/emucs_p1.c:126-130 | With `/`, `!` and a line feed as the last three bytes of the data, the scan reports `Frame(start, 4)`, which reaches one byte past the data: the size counts two bytes after the `!` whatever they are. |
| EmucsP1.FramedPrefix | main/emucs_p1.c:97 | Whether the framing invariant holds depends only on the bytes below the cursor, so storing a chunk past the cursor preserves it. |
| EmucsP1.FramedMoved | main/emucs_p1.c:145-153 | Moving an unfinished telegram to offset 0 keeps it framed: `/` at 0 and no `!` after it. |
| EmucsP1.Written | main/emucs_p1.c:97 | The driver's read stores the bytes at the cursor and leaves the rest of the buffer unchanged. |
| EmucsP1.MoveToFront | main/emucs_p1.c:150 | `memmove` to offset 0: the first n bytes become the n bytes that were at `from`, and everything from n on is unchanged. |
| EmucsP1.P1Framer.constructor | main/emucs_p1.c:72-81 | Initial state: IDLE, cursor 0, no start or end, invariant established. |
| EmucsP1.P1Framer.ReadInto | main/emucs_p1.c:97 | A read into the buffer at the cursor keeps the framing invariant. |
| EmucsP1.P1Framer.ScanChunk | main/emucs_p1.c:110-141 | The byte loop ends in the state, and with the frames, of the specification `Scan` over the chunk. |
| EmucsP1.P1Framer.FinishChunk | main/emucs_p1.c:143-158 | In DATA with the start not at 0, bytes `[start, cursor + size)` move to offset 0 unchanged, the start becomes 0 and the cursor becomes their length. Otherwise the cursor advances by exactly `size` and the buffer is unchanged. The invariant holds afterwards. |
| EmucsP1.P1Framer.ProcessChunk | main/emucs_p1.c:110-158 | Scan, then compaction or advance, as described by `ChunkProcessed`. Every reported frame is well framed. |
| EmucsP1.P1Framer.ProcessP1Data | main/emucs_p1.c:71-160 | If `cursor + size > 1024`: reset to IDLE, cursor 0, pointers cleared, nothing read, no frame. On a failed or short read: state, cursor and pointers unchanged, no frame. Otherwise the chunk is processed as above. Always: cursor ≤ 1024 and the recorded positions are real. |
| Logger.ShortTermLogSize | main/include/logger.h:9-11 | The capacity is the largest n such that n telegram intervals fit in fifteen minutes, and it is positive. |
| Logger.Append | main/logger.c:90-101 | An append keeps the ring well formed and its capacity unchanged. |
| Logger.AppendContents | main/logger.c:90-101 | FIFO: after an append, the live entries are the old ones plus the new entry last, with the oldest evicted exactly when the log was full. |
| Logger.AppendAll | main/logger.c:90-101 | Appending a sequence keeps the ring well formed and its capacity unchanged. |
| Logger.AppendAllContents | main/logger.c:90-101 | After appending `es`, the count is `min(count + \|es\|, capacity)`, and the contents are the newest `capacity` entries of the old contents followed by `es`. |
| Logger.TailIndex | main/logger.c:137-139 | `(tail + i) % capacity`, with `tail = (capacity + head - n) % capacity`, is the slot of the `(count - n + i)`-th oldest entry. |
| Logger.SlotsFromTail | main/logger.c:137-140 | The n slots read from the tail index are the n newest live entries, oldest first. |
| Logger.ReadItems | main/logger.c:130-144 | A read returns `min(max_items, count)` items: the newest ones, oldest first. |
| Logger.ReadItemsNewest | main/logger.c:24-33 | For a ring holding the newest entries of the history, a read returns the newest `min(max_items, count)` entries of that history. |
| Logger.RoundTrip | main/logger.c:90-140 | From an empty log: after K ≤ capacity adds, reading K gives the K entries in insertion order. After more than capacity adds, reading capacity gives the last capacity entries. |
| Logger.ShortTermLog.constructor | main/logger.c:31-33 | The log starts empty, with head 0 and count 0. |
| Logger.ShortTermLog.AddShortTermLogEntry | main/logger.c:90-101 | Writes the entry at the head and leaves every other slot unchanged. The head becomes `(head + 1) % capacity` and the count increments only below the capacity. The invariant `count ≤ capacity` holds, and the ring holds the newest entries of the history. |
| Logger.ShortTermLog.LogShortTermP1Data | main/logger.c:110-119 | Adds exactly one entry, whose timestamp, average demand and power usage are copied from the reading. |
| Logger.ShortTermLog.GetShortTermLogItems | main/logger.c:130-144 | Returns `n = min(max_items, count)` and fills `dest[0..n)` with the n most recently added entries, oldest first. The rest of `dest` is unchanged, and the log is not modified. |
| WebServer.ContentTypeFromFileExt | main/web_server.c:113-147 | The nine recognised extensions map to their content types. Any other extension gives `text/plain`. |
| WebServer.LastIndexOf | main/web_server.c:328 | `strrchr`: none exactly when the character is absent. Otherwise the index holds the character and no later position does. |
| WebServer.FileExtension | main/web_server.c:328-330 | The extension is the text after the last `.` of the path and contains no `.`. It is absent exactly when the path has no `.`. |
| WebServer.ContentTypeOfPath | main/web_server.c:328-334 | A path without `.` is served as `text/plain`. |
| WebServer.ContentTypeOfSplit | main/web_server.c:328-334 | A path `p.e`, where e has no `.`, gets the type of e, wherever other dots are in p. |
| WebServer.Strlcat | main/web_server.c:313-317 | `strlcat`: the result is a prefix of `dst + src` of length `min(\|dst\| + \|src\|, size - 1)`. |
| WebServer.FrontendFilePathOf | main/web_server.c:307-318 | The path starts with `/www` and fits the buffer. It is `/www/index.html` for a URI ending in `/` and `/www` + URI otherwise, cut to `size - 1` characters when too long. |
| WebServer.DirectoryServesHtml | main/web_server.c:310-334 | A URI ending in `/` is served with content type `text/html` when the buffer holds the index path. |
| WebServer.StrlcatInto | main/web_server.c:313-317 | The copy into the buffer produces `Strlcat` of the old string, NUL-terminated, and leaves the bytes after the terminator unchanged. |
| WebServer.FrontendFilePath | main/web_server.c:307-318 | `strcpy` of the mount point, then `strlcat`, leaves `FrontendFilePathOf(uri, size)` NUL-terminated in the buffer. |
| WebServer.NormalizeStatusCode | main/web_server.c:375-378 | 0 and codes above 999 become 200. Codes 1..999 are kept. The result is always in 1..999. |
| WebServer.DecimalString | main/web_server.c:378 | `%d` of a non-negative number is a non-empty string of decimal digits. |
| WebServer.DecimalRoundTrip | main/web_server.c:378 | The printed digits denote the number printed. |
| WebServer.DecimalLength | main/web_server.c:371-378 | Numbers below 1000 print in at most three digits. |
| WebServer.StatusCodeString | main/web_server.c:371-378 | The status text is 1 to 3 digits. With its terminator it fits `status_code_str[6]`, and it denotes the normalised code. |
| WebServer.MaxDemandYearList | main/web_server.c:559-569 | The list is the prefix of the 13 entries before the first timestamp of 0: all its timestamps are nonzero, at most 13 entries, and the entry after it (if any) has timestamp 0. |
| WebServer.BreakerStateJson | main/web_server.c:582-592 | The three named states produce a string. A value outside them adds nothing. |
| WebServer.BreakerStateFromJson | main/web_server.c:582-592 | Only the three state strings denote a state, never an unlisted value. |
| WebServer.BreakerStateRoundTrip | main/web_server.c:582-592 | The mapping is one-to-one: a state's string reads back as that state, and only that string does. |

## Left out

- The UART driver, its event queue and the task loop (`main/emucs_p1.c:16-68`). `uart_read_bytes` is a parameter: a failure or the bytes delivered, at most `size` of them.
- Log output (`ESP_LOG*`) in every modelled function.
- Tasks, semaphores and event groups, including the logger task (`main/logger.c:51-81`) and the semaphore timeout in `get_p1_data_in_json`. The model is sequential.
- Telegram parsing, CRC checking and long-term logging. The firmware contains none of these; a completed telegram is only reported as `(start, size)`.
- The telegram size follows the code, `end - start + 3`, and no carriage return is checked before the line feed. The comment at `main/emucs_p1.c:129` says the size excludes the final CR LF, but `+ 3` counts only the `!` and the two bytes after it. The model reports the size as computed and does not claim it bounds the telegram's bytes (see `FrameMayPassData`).
- The short-term log capacity is a constructor parameter. `EMUCS_P1_TELEGRAM_INTERVAL_MS` is not part of this model; `ShortTermLogSize` states the formula for any interval.
- Float fields are kept as their 32-bit patterns. The modelled code only copies them.
- The `emucs_p1_data_t` header is not part of this model. Only the fields read here are represented, and the breaker state is a datatype with an `Unlisted` case for other enum values.
- `main/web_server.h` is not part of this model. The mount point `/www` is taken from the documentation comments of `main/web_server.c`, and the path buffer size is the length of the `filepath` array.
- WebServer.FrontendFilePath: requires a non-empty URI. For an empty one the source indexes before the start of the string.
- WebServer.FrontendFilePath: requires a buffer longer than `/www`, since `strcpy` would overflow a smaller one.
- Strings are modelled without embedded NUL characters: `Strlcat`, `StrlcatInto`, `RequestedFile`, `FrontendFilePathOf`, `DirectoryServesHtml` and `FrontendFilePath` require the appended text to hold no `'\0'`, where C's string functions would stop copying.
- The HTTP server, SPIFFS/semihost file I/O, `fopen`/`fgets` streaming and the 404 path. The rest of the JSON document (cJSON construction and sending) is also left out. Only the computed pieces listed above are modelled.
- `main/predict_peak.c` (floating-point regression, calendar conversion, NVS, timers) and `main/networking.c` (Wi-Fi, mDNS, provisioning).

# ha_logd in Dafny

A model of the logging daemon `ha_logd` of the cluster-glue heartbeat suite.
Cluster processes send their log records to the daemon over a local IPC
channel, and the daemon hands each record to the cluster logging library. The
daemon also tells the application heartbeat daemon (apphbd) that it is alive.
The model covers three parts of `logd/ha_logd.c`, each as pure step functions
over explicit state:

- **Configuration loading** (`config.dfy`, `config_parser.dfy`). This is the
  five-field configuration record, the `Directives` and `facilitynames`
  tables, `get_dir_index` and the five setters. It also covers `parse_config`:
  `fgets` chunking, line tokenising, and the loop that never stops at a bad
  line. It ends with `init_config`'s exit-status decision. `cstrings.dfy`
  holds the C string primitives the parser uses: `strspn`, `strcspn`,
  `strchr` with truncation, the NUL terminator, and a `strcmp` table search.
- **apphbd health monitor** (`apphb.dfy`). The state is the `useapphbd`
  setting, `RegisteredWithApphbd` and the static `failcount`. Three callbacks
  drive it: `logd_init_register_with_apphbd`, `logd_reregister_with_apphbd`
  and `logd_apphb_hb`. The apphb library's return codes are parameters. Each
  step returns the library calls it made and the lines it logged as a trace.
- **Per-session relay** (`relay.dfy`). This covers `getIPCmsg` and
  `on_receive_cmd`, and `on_connect_cmd` as "add one session per non-NULL
  channel". A small event-loop model dispatches readiness notifications to
  sessions and drops a session whose handler returns FALSE.

Behaviour of the code worth knowing, as the model states it:

- **Log throttle.** A refused registration is logged when the failure count
  *before* the attempt is a multiple of 60. So the 1st, 61st, 121st, …
  consecutive failure is logged, and the 60th is not (`Apphb.ReportedAttempts`).
  With the 60-second retry timer, that is the "once an hour or so" the code's
  comment at `logd/ha_logd.c:520` has in mind.
- **Failed reads.** `on_receive_cmd` returns FALSE when `waitin` fails,
  reports a broken channel or is interrupted, and when `recv` fails. The
  event-loop library drops a channel source whose handler returns FALSE, and
  also one whose channel reports itself disconnected after the handler
  returned TRUE. `Relay.Dispatch` models both as removing the session; the
  disconnection is an input of each notification. The library itself is not
  part of this model.
- **`msg_done`.** It is called only after a relayed payload, never for a
  message without payload.
- **Commas.** The option ends at a comma as well as at whitespace. The
  directive does not end at a comma, so `logfile,x` is one, unknown,
  directive.
- **Long lines.** Lines are read with `fgets` into a 128-byte buffer, so a
  line longer than 127 bytes is processed as two or more lines. A long
  comment line's tail is no longer behind the line's `#` and is read as a
  line of its own: the load fails when that tail is not an acceptable line
  (`ConfigParser.LongCommentFailsLoad`), and a tail such as `useapphbd yes`
  silently sets a directive (`ConfigParser.LongCommentTailIsLive`).

The model's `char` stands for one byte: a configuration file and a log
message are sequences of bytes, and each character of the model is one of
them.

The facility codes are the `<syslog.h>` values used by glibc:
`LOG_SYSLOG` = 5·8 and `LOG_LOCALn` = (16+n)·8.

## Model

| member | source | states |
|---|---|---|
| CStrings.Span | logd/ha_logd.c:470 | `strspn`: the prefix it measures holds only accepted characters, and the next character (if any) is not accepted |
| CStrings.CSpan | logd/ha_logd.c:481 | `strcspn`: the prefix holds no rejected character, and the next character (if any) is rejected |
| CStrings.CutAt | logd/ha_logd.c:473-475 | `strchr` + `*cp = EOS`: the result is a prefix of the input with no `c` in it, cut exactly at the first `c` when there is one |
| CStrings.CutAtSuffix | logd/ha_logd.c:470-475 | cutting at `#` after skipping a `#`-free prefix gives the same text as cutting first and dropping the prefix afterwards |
| CStrings.IndexOf | logd/ha_logd.c:437-442 | the `strcmp` table search: -1 exactly when the key is absent; otherwise the index holds the key and no earlier entry does |
| Config.GetDirIndex | logd/ha_logd.c:434-443 | -1 exactly when no directive name equals the string; otherwise the index of the one entry that equals it exactly |
| Config.DirectiveMatchIsCaseSensitive | logd/ha_logd.c:438 | `useapphbd` is found at index 4; `UseApphbd` and `logfile ` (with a trailing space) are not directives |
| Config.StrNCopy | logd/ha_logd.c:143 | an option shorter than `MAXLINE` is copied whole; a longer one keeps only a prefix of at most `MAXLINE` characters |
| Config.SetDebugFile | logd/ha_logd.c:134-145 | NULL clears the debug file and fails; any non-NULL option, even empty, succeeds and is stored; no other field changes |
| Config.SetLogFile | logd/ha_logd.c:146-156 | the same for the log file |
| Config.SetEntity | logd/ha_logd.c:173-184 | the same for the entity |
| Config.SetFacilityName | logd/ha_logd.c:159-171 | succeeds exactly for a name in `facilitynames`, and then stores that row's code; any other name fails and leaves the record unchanged |
| Config.SetUseApphbdFlag | logd/ha_logd.c:186-205 | succeeds exactly for `"yes"` and `"no"`, and then sets the flag to (option == `"yes"`); NULL and anything else fail and leave the record unchanged |
| Config.FacilityNamesDistinct | logd/ha_logd.c:102-114 | no two rows of the facility table share a name, so a name has exactly one code |
| Config.Apply | logd/ha_logd.c:501 | the call through `Directives[dir_index].add_func`: a setter writes no field but its own. `Config.ApplyContract` states its success and value |
| Config.ApplyContract | logd/ha_logd.c:85-95 | a setter called through the table with a non-NULL option succeeds exactly when the option is acceptable. On success its field holds the option's value. On failure the record is unchanged. No other field moves |
| ConfigParser.ChunkLength | logd/ha_logd.c:467 | one `fgets` read is non-empty and shorter than `MAXLINE`, has no newline before its last character, and stops early only after a newline or at 127 bytes |
| ConfigParser.FgetsLines | logd/ha_logd.c:467 | every buffer read is non-empty, shorter than `MAXLINE`, and holds a newline only as its last character; every buffer but the last ends in a newline or holds `MAXLINE - 1` characters, so `fgets` reads as much as it can |
| ConfigParser.FgetsLinesConcat | logd/ha_logd.c:467 | the buffers read, put back together, are exactly the file |
| ConfigParser.LongLineIsSplit | logd/ha_logd.c:467 | a line of 128 or more bytes is read as its first 127 bytes, and the rest is read as a new line |
| ConfigParser.Tokenize | logd/ha_logd.c:468-500 | the tokens read from a buffer hold no `#`; the directive holds no whitespace and the option no delimiter. Its full contract is stated by `SkipThenCut`, `TokenizeBlank`, `TokenizeSplit` and `TokenizeCommand` |
| ConfigParser.TokenizeText | logd/ha_logd.c:477-500 | the text after the leading whitespace is blank exactly when it is empty; otherwise the directive is a whitespace-free prefix of it and the option holds no delimiter |
| ConfigParser.Uncommented | logd/ha_logd.c:472-475 | the meaningful part of a buffer is a prefix of it that holds no `#` and no NUL, and it ends at the buffer's end or at a `#` or NUL |
| ConfigParser.SkipThenCut | logd/ha_logd.c:469-476 | skipping whitespace before cutting at `#` reads the same text as cutting at `#` first and then skipping the leading whitespace |
| ConfigParser.TokenizeBlank | logd/ha_logd.c:469-479 | a buffer is skipped as blank exactly when everything before its first `#` and its first NUL is whitespace |
| ConfigParser.TokenizeSplit | logd/ha_logd.c:481-500 | any split into maximal pieces of a buffer's text before its first `#` and its first NUL is read as exactly that directive and option. The pieces are: leading whitespace, a directive up to whitespace, delimiters (whitespace or comma), an option up to a delimiter, and the rest |
| ConfigParser.TextCommand | logd/ha_logd.c:481-500 | an uncommented text that is not all whitespace is read as the directive and option of its spans' split, and that split has the maximal shape |
| ConfigParser.UnknownWordNotOk | logd/ha_logd.c:485-490 | a line made only of `x` characters names no directive, so it is not acceptable |
| ConfigParser.TokenizeCommand | logd/ha_logd.c:481-500 | conversely, the directive and option read from any buffer that is not skipped as blank come from such a maximal split of its text before its first `#` and its first NUL |
| ConfigParser.TokenizeWord | logd/ha_logd.c:481-500 | a buffer holding one word free of delimiters, `#` and NUL is read as that word as directive, with the empty option |
| ConfigParser.ApplyLine | logd/ha_logd.c:477-503 | a blank line calls nothing and succeeds; an unknown directive calls nothing and fails |
| ConfigParser.ApplyLineContract | logd/ha_logd.c:477-503 | a line succeeds exactly when it is acceptable under the tables. A rejected line leaves the record unchanged. An accepted line writes only its setter's field, with the value its option denotes |
| ConfigParser.ParseLines | logd/ha_logd.c:467-506 | the load succeeds exactly when every line is acceptable |
| ConfigParser.ParseConfig | logd/ha_logd.c:447-507 | a file that cannot be opened fails with the record unchanged; otherwise the load succeeds exactly when every `fgets` buffer is acceptable |
| ConfigParser.ParseLinesAppend | logd/ha_logd.c:485-504 | the loop never stops early: loading `a + b` is loading `a`, then `b`, and fails if either part fails |
| ConfigParser.LastSettingWins | logd/ha_logd.c:485-504 | each field ends with the value of the last acceptable line that sets it, or keeps its value when there is none. Rejected lines anywhere in the file do not change this |
| ConfigParser.SameSettingsSameConfig | logd/ha_logd.c:485-504 | two files that agree on the last accepted setting of every field load to the same record |
| ConfigParser.LongCommentFailsLoad | logd/ha_logd.c:467-490 | a `#` comment line of 128 or more bytes makes the load fail whenever its tail after the first 127 bytes, read as a line of its own, is not acceptable |
| ConfigParser.LongXCommentFailsLoad | logd/ha_logd.c:467-490 | an instance: a long comment whose other characters are all `x` fails the load |
| ConfigParser.LongCommentTailIsLive | logd/ha_logd.c:467-504 | a 127-byte comment followed on the same line by `useapphbd yes` loads successfully and turns the health monitor on: the comment's tail is live configuration |
| ConfigParser.DirectiveLine | logd/ha_logd.c:469-500 | a buffer of a lower-case word, one space and another lower-case word is read as that directive and option |
| ConfigParser.InitConfig | logd/ha_logd.c:555-567 | no file, an unopenable file, or a failing load ends in exit status 6 ("not configured"); otherwise the daemon runs with the loaded record |
| Apphb.InitRegister | logd/ha_logd.c:511-542 | no-op when disabled or already registered. A refused registration leaves the monitor unregistered, adds one failure, and is logged exactly when the prior count is a multiple of 60. An accepted one ends registered with the count reset exactly when both interval calls succeed; otherwise it unregisters and adds one failure. The warn interval is set only after the dead interval succeeded |
| Apphb.Reregister | logd/ha_logd.c:545-552 | returns `useapphbd`, and runs the registration step exactly when it is set |
| Apphb.HeartbeatTick | logd/ha_logd.c:569-589 | always returns TRUE and never touches the failure count. It pulses only when enabled and registered. A failed pulse unregisters |
| Apphb.CallbacksKeepConsistent | logd/ha_logd.c:511-589 | all three callbacks keep "registered implies enabled and no outstanding failures" |
| Apphb.ThrottledRetries | logd/ha_logd.c:514-526 | over consecutive refused registrations, attempt k leaves the count at start + k + 1 and is logged exactly when start + k is a multiple of 60 |
| Apphb.ReportedAttempts | logd/ha_logd.c:519-526 | from a fresh start, the reported failures are attempts 1, 61, 121, …; attempt 60 is not reported |
| Apphb.HeartbeatLossRecovered | logd/ha_logd.c:545-589 | after a failed pulse unregisters, the next accepted re-registration restores the state exactly as it was before |
| Relay.GetIpcMsg | logd/ha_logd.c:220-253 | a message is obtained exactly when `waitin` and `recv` both answer OK and `recv` filled in a message. `recv` is called only after an OK `waitin`. A broken channel causes a one-second pause. A failed or unknown `waitin` code is logged |
| Relay.OnReceive | logd/ha_logd.c:254-293 | with nothing pending it returns TRUE and does nothing. It returns FALSE exactly when a pending message cannot be obtained. It forwards at most one record: the payload's priority, text and flag unchanged, and only when the body is non-NULL with positive length. `msg_done` runs exactly after a forwarded payload whose message has one. A message without payload is logged as invalid |
| Relay.OnConnect | logd/ha_logd.c:310-331 | always returns TRUE. A NULL channel is logged and changes nothing. Any other channel adds exactly one session, under a fresh handle, with no application name, and leaves existing sessions and the sink unchanged |
| Relay.Dispatch | logd/ha_logd.c:255-270 | the sink grows by exactly the handler's records. The served session survives exactly when the handler returns TRUE and its channel does not report itself disconnected afterwards. Every other session is unchanged. Handles stay fresh |
| Relay.DispatchCommutes | logd/ha_logd.c:322-327 | serving two different sessions in either order leaves the same sessions and the same multiset of relayed records |
| Relay.ServeRelaysInOrder | logd/ha_logd.c:254-293 | one session's records reach the sink once each, in receipt order, up to the first pending message it cannot obtain or just after its channel reports itself disconnected; other sessions are untouched |

## Left out

- `main`, option parsing and `usage`: command-line and process plumbing. `main` calls `init_config` only when `-c` is given, and otherwise keeps the initial record.
- `logd_make_daemon`, `get_running_logd_pid` and `logd_stop`: fork, umask, stream redirection, pid-file I/O, `kill` and the sleep-polling loop are operating-system I/O.
- Timer scheduling: the 60-second re-registration timer and the `logd_keepalive_ms` heartbeat timer are not modelled. Each callback is an explicit tick. The warn and dead intervals (5000 ms and 10000 ms) appear only as the arguments of the recorded calls.
- The glib main loop, `G_main_add_IPC_Channel` and `on_remove_client`: a dropped session is removed from the session map, and its memory release is not modelled.
- IPC transport internals (`is_message_pending`, `waitin`, `recv`, `ipc_wait_conn_constructor`): their answers are inputs. `sleep(1)` on a broken channel is recorded as an event, not performed.
- `logd_log`, the `stderr` messages of the parser and the setters, and `cl_direct_log` formatting: the relay and the health monitor record their log lines as trace events. The configuration loader records none. The 127-byte `vsnprintf` truncation is not modelled.
- `apphb_register`'s first argument (the command name) is not recorded; only the instance name is.
- `cl_malloc`/`cl_free` and the session's peer identity fields (`pid`, `gid`, `uid`), which the code never fills in.
- The byte encoding of text: each `char` of the model is one byte of the file or message, so `fgets`' 127-byte limit is a limit of 127 characters. Multi-byte characters are not modelled.
- `logd/logtest.c`: a stand-alone test client with no logic of the daemon's own.
- Config.StrNCopy: an option of `MAXLINE` or more characters leaves the C buffer without a terminator; the model keeps its first `MAXLINE` characters. The loader never passes such an option, because every `fgets` buffer is shorter than `MAXLINE`.
- Config.Apply: `set_facility` hands a NULL option straight to `strcmp`, which is undefined behaviour. The model treats it as the empty name, which fails. The loader never passes NULL.
- Apphb.InitRegister: `failcount` is an unbounded natural number; the C `int` would overflow only after 2^31 consecutive failures.

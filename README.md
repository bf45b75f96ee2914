# Alarm list and command classifier of the mutex alarm program

The alarm program reads commands from a terminal. Each command is one of:

- schedule an alarm: `<seconds> <type word> <message>`;
- start a worker thread: `Create_Thread: MessageType(<n>)`;
- stop the workers of a message type: `Terminate_Thread: MessageType(<n>)`.

Pending alarms live on one process-wide singly linked list, `alarm_list`. The list is ordered by ascending absolute expiration time. The global marker `current_alarm` starts at 0. Only `alarm_insert` assigns it: after its splice, the marker takes the new alarm's time, and the condition variable is signalled, when the marker is 0 or the new alarm is due earlier. Nothing in the program calls `alarm_insert`: `main` splices inline and never touches the marker, and `alarm_thread` never reads it. The wake-up rule is modelled as written in `alarm_insert`.

This project models three things:

- the sorted splice that inserts a node into that list;
- the wake-up rule that follows the splice in `alarm_insert`;
- the classifier `get_cmd_type`, together with the `sscanf`/`strncmp` semantics it depends on.

It also models the tail append that `main` performs on the worker-thread list.

The modules are:

- `Alarms` (alarms.dfy) holds the alarm record and the specification of the ordering on values.
  - `InsertSorted` walks the list as the C cursor does.
  - `InsertPos` is the index at which the cursor stops.
  - `Wake` is the wake-up rule.
  - Lemmas prove that the insertion is a splice at that index. They also prove that it keeps the list sorted, adds exactly one element, places a new alarm ahead of entries with the same time, and appends when every entry is due earlier. A final lemma proves that the marker keeps tracking the head of the list.
- `AlarmMutex` (alarm_mutex.dfy) holds the list as heap objects.
  - `Node` is `alarm_t`, with a mutable `link`.
  - `AlarmList` holds the `alarm_list` head and the `current_alarm` marker.
  - `AlarmList.Splice` is the pointer-to-pointer splice loop. It is proved against `InsertSorted`.
  - `AlarmInsert` is `alarm_insert`.
  - `ScheduleInline` is the copy of the splice written inline in `main`. That copy leaves the marker alone.
  - `ThreadRegistry` is the worker-thread list of `main`.
- `Scanf` (scanf.dfy) holds the `sscanf` conversions `%d`, `%s`, `%64[^\n]` and `%*[^0123456789]`, and white-space skipping, in the "C" locale. Each is a function from a string to a value plus the unread rest. Read-back lemmas cover decimal representations and words.
- `Commands` (commands.dfy) holds `get_cmd_type`.
  - `Classify` takes the number of characters `strncmp` compares as a parameter.
  - `GetCmdType` is the code as written. It compares 11 characters.
  - `GetCmdTypeIntended` compares the whole 12-character literal.
  - `Outcome` records the return code and what was stored through each out-parameter.

The string passed to the parser is modelled as the characters of the C string before its terminating NUL. Each Dafny `char` stands for one byte of that string, so widths such as the 64 of `%64[^\n]` count bytes. A C string never contains `'\0'` before its end, and its bytes are at most 255. The read-back lemmas (`ScanWordExact`, `ScanScheduleExact`, `ScheduleRoundTrip`) also hold for strings outside that range, which no C caller can pass, so they cover every string the parser can see. Code 3 is tried first, then the two-word thread command, as in the code.

## Model

| member | source | states |
|---|---|---|
| Alarms.InsertPos | New_Alarm_Mutex.c:131-140 | The cursor stops at the first entry due no earlier than the new alarm: every entry before that index is due strictly earlier, and the entry at it (if any) is not. |
| Alarms.InsertSorted | New_Alarm_Mutex.c:130-148 | The list after the splice, walked entry by entry as the cursor walks it; its contract gives one more entry than before, and `InsertSortedIsSplice`, `InsertSortedKeepsOrder` and `InsertSortedElements` state what it computes. |
| Alarms.InsertSortedIsSplice | New_Alarm_Mutex.c:130-149 | Insertion keeps the old entries in their order and places the new alarm at the cursor's stopping index. |
| Alarms.InsertSortedKeepsOrder | New_Alarm_Mutex.c:130-149 | Inserting into a list sorted by expiration time gives a sorted list. |
| Alarms.InsertSortedElements | New_Alarm_Mutex.c:130-149 | The result has one more entry, and its multiset is the old multiset plus the new alarm: nothing is lost or duplicated. |
| Alarms.InsertSortedPlacement | New_Alarm_Mutex.c:132-137 | The new alarm lands at the cursor's stopping index: every entry in front of it is due strictly earlier, and the entry right after it (if any) is the first old entry due no earlier, so it goes ahead of entries with the same time. |
| Alarms.InsertSortedAppends | New_Alarm_Mutex.c:145-148 | When every entry is due strictly earlier, the new alarm is appended at the tail. |
| Alarms.Wake | New_Alarm_Mutex.c:162-167 | The signal is sent exactly when the marker is 0 or the new time is earlier. The marker then becomes the new time; otherwise it is unchanged. |
| Alarms.CurrentTracksHead | New_Alarm_Mutex.c:155-167 | If the old entries have positive expiration times and the marker equals the head's time (or is 0 on an empty list), then after the insertion and the wake-up rule the marker equals the new head's time. |
| AlarmMutex.AlarmList.constructor | New_Alarm_Mutex.c:35-36 | The list starts empty with marker 0. |
| AlarmMutex.AlarmList.Splice | New_Alarm_Mutex.c:126-149 | The in-place pointer splice keeps a well-formed acyclic chain. The chain's nodes become the old nodes with `alarm` linked in at `InsertPos`, so every old node stays in the list and further insertions can follow. Its entries become `InsertSorted` of the old ones. It keeps sortedness, adds exactly the new alarm, and leaves the marker unchanged. |
| AlarmMutex.AlarmList.LinkBefore | New_Alarm_Mutex.c:134-135 | Setting `alarm->link = next; *last = alarm` puts the new node into the chain between the nodes at positions i-1 and i (or at the header). |
| AlarmMutex.AlarmList.AlarmInsert | New_Alarm_Mutex.c:120-168 | The same in-place splice as `Splice`: the old nodes with `alarm` at `InsertPos`. The signal and the new marker are those of the wake-up rule. When the old entries have positive times and the marker named the head, the marker goes on naming the head's expiration time. |
| AlarmMutex.AlarmList.ScheduleInline | New_Alarm_Mutex.c:276-300 | The inline splice in `main` links `alarm` into the same node chain at `InsertPos`, produces the same sorted insertion, and leaves the marker and the signal alone. |
| AlarmMutex.ThreadRegistry.constructor | New_Alarm_Mutex.c:233 | The worker-thread list starts empty. |
| AlarmMutex.ThreadRegistry.Append | New_Alarm_Mutex.c:251-260 | The new record (thread id, message type) is appended at the tail. The head changes only on the first append. |
| Scanf.SkipSpace | New_Alarm_Mutex.c:188 | The white-space directive between conversions; its contract says it never lengthens the input, and `SkipSpaceSpec` states what it drops. |
| Scanf.ScanInt | New_Alarm_Mutex.c:188 | `%d` on the characters of a C string; on success it consumes input. `ScanIntSpec` and `ScanIntSigned` state when it succeeds and what it reads. |
| Scanf.ScanIntSpec | New_Alarm_Mutex.c:188 | `%d` succeeds exactly when, after white space, there is a digit or a sign followed by a digit. On success the unread rest is a proper suffix of the input that does not start with a digit, so the whole digit run is consumed. |
| Scanf.ScanIntSigned | New_Alarm_Mutex.c:188 | `%d` reads back any number written as leading white space, an optional `+` or `-` and its decimal digits, followed by a non-digit, and leaves exactly that rest. |
| Scanf.ScanWord | New_Alarm_Mutex.c:188-192 | `%s`; on success the word is non-empty and input is consumed. `ScanWordSpec` and `ScanWordExact` state what it reads. |
| Scanf.ScanWordSpec | New_Alarm_Mutex.c:188 | `%s` succeeds exactly when non-white-space input remains. It reads a maximal non-empty run of non-white-space characters. |
| Scanf.ScanLine | New_Alarm_Mutex.c:188 | `%64[^\n]`; on success it reads between 1 and `width` characters and consumes them. `ScanLineSpec` states the rest. |
| Scanf.ScanLineSpec | New_Alarm_Mutex.c:188 | `%64[^\n]` succeeds exactly when the input does not start with a newline or end. It reads 1 to 64 non-newline characters and stops early only at a newline or the end. |
| Scanf.SkipNonDigits | New_Alarm_Mutex.c:194 | `%*[^0123456789]`; on success it consumes at least one character. `SkipNonDigitsSpec` states what it drops. |
| Scanf.SkipNonDigitsSpec | New_Alarm_Mutex.c:194 | `%*[^0123456789]` succeeds exactly when the input starts with a non-digit. It discards the whole non-digit run. |
| Scanf.ScanIntDecimal | New_Alarm_Mutex.c:188 | `%d` reads back the decimal representation of any natural number. |
| Scanf.ScanWordExact | New_Alarm_Mutex.c:192 | `%s` reads back a word that is followed by white space or by the end of the input. |
| Scanf.SkipSpaceSpec | New_Alarm_Mutex.c:188 | A white-space directive drops the leading white space and stops at the first other character. |
| Commands.ScanSchedule | New_Alarm_Mutex.c:188 | `sscanf(line, "%d %s %64[^\n]", ...) == 3`: on success the type word is non-empty and the message has 1 to 64 characters; `ScanScheduleExact` reads back a formatted schedule line. |
| Commands.ScanCommand | New_Alarm_Mutex.c:192 | `sscanf(line, "%s %s[^\n]", ...) == 2`: on success both words are non-empty; `ScanCommandExact` reads back two words separated by a blank. |
| Commands.ScanMessageType | New_Alarm_Mutex.c:194 | The message type read from the type word is never negative, because any sign is discarded with the non-digits; `ScanMessageTypeShape` states when it is read and its value. |
| Commands.PrefixEqual | New_Alarm_Mutex.c:195 | `strncmp(type, "MessageType(", n) == 0`: the word has at least `n` characters and they equal the literal's first `n`; `PrefixEqualNested` and `DigitAfterTypeFails` relate the 11- and 12-character comparisons. |
| Commands.Classify | New_Alarm_Mutex.c:182-218 | Codes are -1, 1, 2 or 3. Code 3 holds exactly when the three-field schedule format matches; then the scanned seconds and the scanned message are stored, and on no other code is a message stored. When the schedule format fails but two words are read, code 1 (code 2) holds exactly when a message type of at least 1 is read, the compared prefix of the type word matches, and the command word is `Create_Thread:` (`Terminate_Thread:`); then the type read is stored. |
| Commands.GetCmdType | New_Alarm_Mutex.c:182-218 | As for `Classify`, with the 11-character comparison: on a two-word line, code 1 or 2 holds exactly when the type is at least 1, the type word starts with `MessageType` and the command word is the matching one. |
| Commands.GetCmdTypeIntended | New_Alarm_Mutex.c:195 | With the full literal compared, the code is fixed on every line: 3 exactly when the schedule format matches, with its seconds and message stored; otherwise 1 (or 2) exactly when two words are read, the type is at least 1, the type word starts with `MessageType(` and the command is `Create_Thread:` (or `Terminate_Thread:`); otherwise -1. |
| Commands.IntendedAgreesElsewhere | New_Alarm_Mutex.c:195 | The as-written and the corrected classifiers agree on every line, except one whose type word matches the 11-character prefix but not the 12-character one. |
| Commands.ScanMessageTypeShape | New_Alarm_Mutex.c:194 | A message type is read exactly when the type word starts with a non-digit and contains a digit. It is the value of the first digit run. |
| Commands.ThreadCommandRoundTrip | New_Alarm_Mutex.c:192-206 | `Create_Thread: MessageType(n)` and `Terminate_Thread: MessageType(n)` with n >= 1 classify as 1 and 2 with type n. |
| Commands.NegativeTypeAccepted | New_Alarm_Mutex.c:194-198 | `MessageType(-n)` is read as type n and accepted, because the minus sign is part of the discarded non-digit run. |
| Commands.ZeroTypeRejected | New_Alarm_Mutex.c:196-198 | `MessageType(0)` is read as type 0 and classified as a bad command. |
| Commands.ScheduleRoundTrip | New_Alarm_Mutex.c:188-191 | A line `<seconds> <word> <message>` with a message of 1 to 64 characters classifies as 3 and stores the seconds and the message, whatever the type word. |
| Commands.MissingParenthesisAccepted | New_Alarm_Mutex.c:195 | As written, `MessageType<n>)` without the opening parenthesis is accepted as a thread command with type n. |
| Commands.MissingParenthesisRejected | New_Alarm_Mutex.c:195 | With the whole literal compared, the same line is a bad command. |

## Left out

- `alarm_thread` is not modelled. It is meant to remove and fire due alarms and to exit on termination, but its inner loop never advances `alarm`, so on a non-empty list it spins without firing anything. It runs concurrently, under the mutex, against the wall clock.
- Threads, the mutex and the condition variable are not modelled. Both splices are modelled as running with the mutex held. The `pthread_cond_signal` call becomes the `signal` result of `AlarmInsert`.
- `time(NULL)` is not modelled. Expiration times are inputs: each node carries its `time` already set.
- The read-eval loop of `main` is not modelled: prompting, `fgets`, `malloc`, the `err_abort`/`errno_abort` failure exits and all printing.
- The `DEBUG` blocks are not modelled; the model follows the build without `DEBUG`. The one in `alarm_insert` prints the list and, in the same `printf` call, assigns `next->time = time(NULL)` to every node. Reading and writing `next->time` as two arguments of one call is unsequenced, which is undefined behaviour in C. The assignment also replaces every pending alarm's deadline with the current time, so every alarm becomes due about now. Under a clock that does not go backwards the times written in list order stay nondecreasing, so the list stays sorted; what is lost is the deadlines.
- AlarmMutex.AlarmList.ScheduleInline: takes the node as given. In `main` the node's `time` is computed from `alarm->seconds`, which is never initialised, and its message is never copied from the parsed line. The model does not follow that data flow.
- The `case 2` assignment `terminated_message_type = message_type` is not modelled. It only matters to `alarm_thread`.
- Commands.Classify: the fixed-size buffers are not modelled. `cmd[20]` and `str_msg_type[20]` can overflow with `%s`; the model reads words of any length.
- Commands.ScheduleRoundTrip: `%64[^\n]` stores up to 64 characters plus a terminating NUL, so a 64-character message writes 65 bytes into `main`'s `message[64]`. The model returns the message as a string and does not capture that overflow.
- Commands.Classify: values are unbounded integers. The model does not capture `%d` overflow, or the conversion of a negative `%d` value into the `unsigned int` `alarm_second`. The message type read after `%*[^0123456789]` is never negative, so the unsigned test `*msg_type < 1` is the same as `msg_type == 0`.
- AlarmMutex.ThreadRegistry.Append: a sequence of records stands for the linked worker-thread list. The new node's `link` field, which the source never initialises, is not modelled.

## Findings

| source | as written | input that shows it | evidently intended | confidence | as-written member | corrected member |
|---|---|---|---|---|---|---|
| New_Alarm_Mutex.c:195 | `strncmp` compares `strlen("MessageType(") - 1` = 11 characters, so the opening parenthesis is never checked | `Create_Thread: MessageType7)` is accepted as create-thread with type 7 | the type word must start with the whole `MessageType(` | not executed | Commands.MissingParenthesisAccepted | Commands.MissingParenthesisRejected |

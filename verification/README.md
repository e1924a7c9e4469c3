# Verified model of totsuka's dense cores

totsuka is a command-line tool around an orchestrator that hands tasks to coding agents. This project
models the parts of it whose code is short and whose promises are not, and proves those promises for
every input, every run or every interleaving. `dafny verify dfyconfig.toml` checks everything.

Strings are sequences of Unicode scalar values; where the program counts bytes, the model counts the
bytes of their UTF-8 encoding. Loops and objects of the program are methods and classes here, each proved
against a specification function; the theorems are about those functions.

| file | models |
|---|---|
| `Identifier.dfy` | byte-budgeted names: sanitize, fit, truncate, digest (`identifier.rs`) |
| `Template.dfy` | single-pass rendering, scanning, the swallowed-brace advisory (`template.rs`) |
| `Json.dfy`, `Balanced.dfy`, `Chat.dfy` | JSON texts of RFC 8259, the balanced-object extractor, reading a verdict and asking once more (`chat.rs`) |
| `Choice.dfy`, `Retry.dfy`, `Decisions.dfy` | the answer funnel, transport retries, the decisions wire format (`lib.rs`, `retry.rs`, `decisions.rs`) |
| `Scrub.dfy` | stripping credentials and queries from URLs in messages (`transport.rs`) |
| `Terminal.dfy`, `Menu.dfy`, `MenuParams.dfy`, `MenuBuild.dfy` | the escaping stack, the SwiftBar document and what SwiftBar reads back, row parameters, the sections of the menu (`terminal.rs`, `menu_cmd.rs`) |
| `Runtime.dfy`, `AgentIde.dfy`, `Degradation.dfy` | the plugin's writer; subscriptions and their forwarders; degradation reports (`agent_ide.rs`, `degraded.rs`) |
| `Prereqs.dfy` | the prerequisite cache over a changing world (`agent_prereqs.rs`) |
| `TaskState.dfy`, `StateDb.dfy`, `TaskControl.dfy` | the task state machine, the versioned store, cancel and retry raced by other writers (`task_control.rs`) |
| `Secrets.dfy`, `DoctorGate.dfy` | secret references and what resolving them reaches; doctor's gate (`secret.rs`, `doctor_cmd.rs`) |
| `Text.dfy`, `Wrappers.dfy` | UTF-8, joining and splitting; Option and Result |

## Where the code and what is said about it differ

The model follows the code. For each difference there is a lemma with a concrete input, and a theorem that says
for all inputs when the code does what is said.

- Backoff "doubles up to 60 s" exactly for bases of 0 or at least 14 ns: the factor saturates at 32 bits
  (`Retry.DoublesExactly`).
- `has_swallowed_brace` is silent about `${ {x}`, where the renderer does swallow `{x}`: the advisory skips `${`,
  the renderer does not (`Template.AdvisoryMissesDollarBrace`). Where it is silent, every placeholder is its own
  span exactly when no span behind a `$` swallows one (`Template.AdvisoryIsExact`).
- `scrub_urls` says host and path survive, and credentials and query do not. A URL is cut at white space or a
  closing bracket and its authority at the first `/`. So for a host and a path without such a mark, the promise holds
  for every host exactly when neither credentials nor query hold one, the credentials hold no `/`, and either there
  is a path or the query holds no `@` before its first `/` (`Scrub.PromiseKept`). A mark in the host, as in every
  IPv6 one, or in the path leaves the query in full (`Scrub.MarkedGateway`). `Scrub.LeakByQuery`,
  `Scrub.LeakBySlash`, `Scrub.LeakByMark`, `Scrub.LeakByMarkedQuery` and `Scrub.LeakByIpv6` are one message each.
- The digest's zero byte is said to keep tasks apart. Two tasks share a preimage exactly when one's source is the
  other's, a NUL, and a piece that the other's id starts with (`Identifier.PreimagesMeet`,
  `Identifier.NulForgesPreimage`).
- A task moved to a new repository is not to leave a worktree of the old one behind, but `set_worktree` and
  `set_repo` do not advance the task's version. `TaskControl.MovedExactly` says from the other writers' steps
  when a worktree is left on disk, `TaskControl.UnversionedWorktreeSlipsThrough` shows the whole operation going
  through with one, and `TaskControl.MovedCleanly` that it does not happen to a task left alone.
- `retry_in_repo` says a refusal leaves the task as it was. The row stays, but the worktree may be gone
  after a lost race (`TaskControl.LostRaceLosesWorktree`), or where a git command of the branch step cannot be started
  or times out (`TaskControl.BranchRefusalLosesWorktree`). Unraced, the refusal changes
  nothing exactly when there was no directory to take (`TaskControl.RefusalKeepsUnraced`); with other writers,
  `TaskControl.RefusalKeepsExactly`.
- `doctor` reads `config.toml` a second time to see which schemes are in use. Whatever that reading gives, an open
  gate is sound exactly when no reference of a backend without a session was overlooked
  (`DoctorGate.OpenGateIsSound`, `DoctorGate.OpenLaunchIsQuiet`); a file that has become unreadable overlooks all
  that the key reference does not name (`DoctorGate.UnreadableRescanOpens`, `DoctorGate.UnreadableRescanPrompts`).
- A menu row is to open its task and nothing else. Its parameters are read as the renderer's exactly when the
  binary's path holds no `"` (`MenuParams.RowParamsRead`, `MenuParams.ActionParamsRead`).
- `char::escape_debug` spells NUL `\0`; the comment over `safe` lists only `\n`, `\r`, `\t` and `\u{…}`
  (`Terminal.NulIsShort`). Every other screen control has one of these forms (`Terminal.DocumentedUnlessNul`).
- An answer of the prerequisite cache is no older than its TTL, except before the entry was made: a clock that
  runs backwards (`Prereqs.BackwardsClock`).

## Model

| member | source | states |
|---|---|---|
| Text.ByteLenIsUtf8Len | crates/plugin-protocol/src/identifier.rs:252-282 | the length the byte budget counts is the length of the UTF-8 encoding |
| Text.Utf8CharDecodes | crates/plugin-protocol/src/identifier.rs:288-299 | the bytes of a character give it back, as section 3 of RFC 3629 lays them out |
| Text.Utf8Injective | crates/plugin-protocol/src/identifier.rs:288-299 | two texts with the same UTF-8 bytes are the same text |
| Text.ClassesListed | crates/plugin-protocol/src/identifier.rs:318-341 | the ASCII alphabetic and alphanumeric characters, against the list of them |
| Text.WhitespaceListed | crates/llm-choice/src/transport.rs:190-191 | the characters with the property White_Space, against the list of the 25 |
| Text.IntTextSpells | crates/plugin-protocol/src/identifier.rs:135-140 | a formatted number reads back as that number |
| Identifier.Sanitize | crates/plugin-protocol/src/identifier.rs:318-341 | the pending-separator loop gives the case-mapped ASCII-alphanumeric runs joined with one separator |
| Identifier.SanitizedWellSeparated | crates/plugin-protocol/src/identifier.rs:311-341 | sanitized text has no leading, trailing or doubled separator and no other character |
| Identifier.SanitizeIdempotent | crates/plugin-protocol/src/identifier.rs:303-341 | sanitizing sanitized text changes nothing, for every case rule and separator |
| Identifier.CaseByLetter | crates/plugin-protocol/src/identifier.rs:318-341 | under `Lower` each capital becomes its own small letter and nothing else changes; under `Preserve` nothing does |
| Identifier.SanitizedWord | crates/plugin-protocol/src/identifier.rs:318-341 | a word is kept letter by letter |
| Identifier.SanitizedAround | crates/plugin-protocol/src/identifier.rs:318-341 | any gap of other characters is one separator between what its two sides say, and none where a side says nothing |
| Identifier.CutIsLongest | crates/plugin-protocol/src/identifier.rs:343-364 | the cut is within the budget, and exactly the prefixes within the budget are no longer than it |
| Identifier.CutShorter | crates/plugin-protocol/src/identifier.rs:349-364 | truncation stays within the budget and shortens whatever exceeds it, so the loop may stop when a part came back shorter |
| Identifier.Fit | crates/plugin-protocol/src/identifier.rs:252-282 | the incremental loop equals joining the non-empty parts, cutting at the last character boundary within the budget and dropping a trailing separator, for any budget and any separator, multi-byte ones included |
| Identifier.OverflowingPart | crates/plugin-protocol/src/identifier.rs:256-280 | at the first part that overflows, the global cut is the local one |
| Identifier.Hash8 | crates/plugin-protocol/src/identifier.rs:288-299 | the digest part is eight lower-case hexadecimal digits |
| Identifier.HashSpelled | crates/plugin-protocol/src/identifier.rs:288-299 | they are the first four bytes of the digest of source, zero byte and id, upper half first |
| Identifier.PreimagesMeet | crates/plugin-protocol/src/identifier.rs:284-299 | two tasks share a hash preimage if and only if they are the same pair, or the longer source is the shorter one, a NUL and the piece the shorter one's id starts with |
| Identifier.PreimageInjective | crates/plugin-protocol/src/identifier.rs:284-299 | for sources without a NUL, different (source, id) pairs have different hash preimages |
| Identifier.NulForgesPreimage | crates/plugin-protocol/src/identifier.rs:284-299 | with a NUL in the source, two different tasks share a preimage |
| Identifier.Build | crates/plugin-protocol/src/identifier.rs:205-245 | the procedure yields prefix, fitted readable half, separator and digest as specified |
| Identifier.NameSpelled | crates/plugin-protocol/src/identifier.rs:205-245 | the whole name from its inputs: prefix, number or id beside the handle cut to what the limit leaves, separator, digest |
| Identifier.NumberComesFirst | crates/plugin-protocol/src/identifier.rs:216-230 | order is priority: where the number, or the id for it, fits, every name starts with prefix and number |
| Identifier.LimitMet | crates/plugin-protocol/src/identifier.rs:199-245 | a name meets its byte limit if and only if the limit has room for the prefix and the digest |
| Identifier.NameShape | crates/plugin-protocol/src/identifier.rs:235-244 | after the prefix no separator leads, trails or doubles, and the last eight characters are the intact digest |
| Identifier.BudgetUsed | crates/plugin-protocol/src/identifier.rs:247-282 | when the readable join overflows, at most one separator's bytes of the budget stay unused |
| Identifier.DigestEnds | crates/plugin-protocol/src/identifier.rs:205-245 | whatever the prefix and the limit, a name ends in its task's digest |
| Identifier.NamesApart | crates/plugin-protocol/src/identifier.rs:284-299 | for sources without a NUL, two tasks share a name only where the shortened digests of two different texts agree |
| Identifier.FirstPartSurvives | crates/plugin-protocol/src/identifier.rs:219-282 | a first part that fits is never what gets cut |
| Template.Render | crates/orchestrator-core/src/template.rs:45-70 | the loop maps one token stream of the template, which does not depend on the values |
| Template.RenderNothing | crates/orchestrator-core/src/template.rs:29-70 | without variables every template renders to itself |
| Template.ReportedNamesDecide | crates/orchestrator-core/src/template.rs:45-131 | identifier-keyed variables that agree on the reported names render alike |
| Template.Scan | crates/orchestrator-core/src/template.rs:112-131 | the scanner lists exactly the identifier spans of the renderer's stream; in `Replaced` mode where no `${` occurs |
| Template.ScanIsKeys | crates/orchestrator-core/src/template.rs:72-131 | scanner and renderer cut the template at the same places |
| Template.IdentifiersGrow | crates/orchestrator-core/src/template.rs:146-151 | what an identifier is, character by character |
| Template.DollarBraceFound | crates/orchestrator-core/src/template.rs:112-131 | a template is free of `${` exactly if no `{` follows a `$` in it |
| Template.OwnSpan | crates/orchestrator-core/src/template.rs:45-70 | where no key ends in a placeholder, a written `{name}` is a span of its own |
| Template.PlaceholderReplaced | crates/orchestrator-core/src/template.rs:45-70 | such a placeholder is replaced by its value, and both sides render on their own |
| Template.ValueReplaces | crates/orchestrator-core/src/template.rs:45-70 | an unswallowed placeholder becomes the value of the first variable of its name |
| Template.UnknownStays | crates/orchestrator-core/src/template.rs:45-70 | and stays as written when no variable has its name |
| Template.FirstSpanRenders | crates/orchestrator-core/src/template.rs:45-70 | the text before the first span stays, the span is replaced whatever its key, the rest renders on its own |
| Template.NoSpanNoChange | crates/orchestrator-core/src/template.rs:45-70 | text without a closed span renders to itself |
| Template.PlaceholdersOwnTheirSpans | crates/orchestrator-core/src/template.rs:45-144 | every written placeholder is its own span if and only if no key of the stream ends in one |
| Template.OnlyDollarsSwallow | crates/orchestrator-core/src/template.rs:112-144 | scanner and renderer are back in step after every `}`: where the advisory is silent, a swallowing span is one behind a `$` |
| Template.AdvisoryIsExact | crates/orchestrator-core/src/template.rs:133-144 | where the advisory is silent, every written placeholder is its own span if and only if no span behind a `$` ends in one |
| Template.AdvisoryIsEnough | crates/orchestrator-core/src/template.rs:133-144 | the corollary for templates without `${` |
| Template.AdvisoryMissesDollarBrace | crates/orchestrator-core/src/template.rs:133-144 | with `${` it can miss one: `${ {x}` |
| Template.EveryPlaceholderReported | crates/orchestrator-core/src/template.rs:112-131 | where nothing is swallowed, every written placeholder is reported |
| Scrub.ScrubUrls | crates/llm-choice/src/transport.rs:182-204 | the loop computes the scan by URL runs |
| Scrub.SchemeIsFirst | crates/llm-choice/src/transport.rs:185-188 | the scan finds the first `://` of the text whenever there is one |
| Scrub.NoUrlNoChange | crates/llm-choice/src/transport.rs:174-204 | text without `://` is left alone |
| Scrub.ScrubDeletes | crates/llm-choice/src/transport.rs:174-204 | the output is a subsequence of the input |
| Scrub.ScrubbedIsClean | crates/llm-choice/src/transport.rs:174-204 | in the output no URL run has `?` or `#`, or an `@` before its first `/` |
| Scrub.FixedPoints | crates/llm-choice/src/transport.rs:174-204 | exactly the clean texts are left alone, so scrubbing twice is scrubbing once |
| Scrub.CredentialsGo | crates/llm-choice/src/transport.rs:194-198 | of a URL already cut out: credentials without a `/` go entirely, whatever the rest of it is |
| Scrub.SlashEndsAuthority | crates/llm-choice/src/transport.rs:194-199 | credentials with a `/`: everything from that slash to the first `?` or `#` stays |
| Scrub.HostAndPathSurvive | crates/llm-choice/src/transport.rs:194-199 | of a URL already cut out, with a path: exactly the host and the path survive, whatever its query |
| Scrub.QueryOnHost | crates/llm-choice/src/transport.rs:194-199 | of a URL already cut out, without a path: the host, unless its query or fragment holds an `@` before its first `/`; then what follows the last such `@` |
| Scrub.CutAtMark | crates/llm-choice/src/transport.rs:188-201 | a URL is scrubbed up to its first mark, and from there on the text is scanned anew |
| Scrub.UrlInMessage | crates/llm-choice/src/transport.rs:182-204 | the first URL of a message is scrubbed as if it stood alone |
| Scrub.UrlByLetters | crates/llm-choice/src/transport.rs:182-204 | of `scheme://user@host/path?query` and what follows it after a blank or bracket, everything is left but the user and the query |
| Scrub.PromiseKept | crates/llm-choice/src/transport.rs:174-204 | in a message, host and path survive alone, for every host without a mark, if and only if neither credentials nor query hold a mark, the credentials hold no `/`, and there is a path or no `@` before the query's first `/` |
| Scrub.MarkedGateway | crates/llm-choice/src/transport.rs:188-201 | with a mark in the host or the path the credentials go and the query stays, so the promise is kept if and only if there is no query |
| Scrub.MarkedCredentialsStay | crates/llm-choice/src/transport.rs:188-201 | credentials with a mark, or a marked URL free of them, stay in full |
| Scrub.MarkedQueryStays | crates/llm-choice/src/transport.rs:188-201 | of a query with a mark, everything from the mark on stays |
| Scrub.SlashedPasswordSurvives | crates/llm-choice/src/transport.rs:194-199 | a cut-out URL free of `?` and `#` whose first `/` comes before its first `@` is left in full, the credential included |
| Scrub.QueryTailSurvives | crates/llm-choice/src/transport.rs:194-199 | a cut-out pathless URL with the query `key@tail`, the key free of `/`, loses its host and keeps the tail, slashes included |
| Scrub.LeakByQuery | crates/llm-choice/src/transport.rs:182-204 | `https://gw?key=a@b` becomes `https://b` |
| Scrub.LeakBySlash | crates/llm-choice/src/transport.rs:182-204 | `https://u:p/q@h/v1` is left as it is |
| Scrub.LeakByMark | crates/llm-choice/src/transport.rs:182-204 | `https://me:s3)cret@gw/v1` is left as it is |
| Scrub.LeakByMarkedQuery | crates/llm-choice/src/transport.rs:182-204 | `https://gw/v1?key=ab)cd` becomes `https://gw/v1)cd` |
| Scrub.LeakByIpv6 | crates/llm-choice/src/transport.rs:182-204 | `https://me:pw@[::1]/v1?key=x` becomes `https://[::1]/v1?key=x` |
| Balanced.BalancedObject | crates/llm-choice/src/chat.rs:309-332 | on text that starts with a brace the loop returns the balanced block and its depth never underflows |
| Balanced.PrintedObjectFound | crates/llm-choice/src/chat.rs:308-332 | every object printed per sections 4 and 7 of RFC 8259, before any text, comes back exactly |
| Balanced.CloseIsPrefix | crates/llm-choice/src/chat.rs:309-332 | what is found is a prefix of the text that ends in a closing brace |
| Chat.VerdictNeverShadowed | crates/llm-choice/src/chat.rs:282-306 | a verdict object printed anywhere in an answer is enough: whatever stands before and after it, some verdict is read |
| Chat.FirstVerdictWins | crates/llm-choice/src/chat.rs:286-291 | with no brace before it, that object's own verdict is read |
| Chat.ExtractedFromABlock | crates/llm-choice/src/chat.rs:286-291 | what is read is the verdict of the first balanced block that has one; nothing is read when none has |
| Chat.SchemaRound | crates/llm-choice/src/chat.rs:156-215 | a schema answer is final if its own whole parse has all three fields, with those as the answer; otherwise it is asked for again or an error, whatever stands in it |
| Chat.ProseRound | crates/llm-choice/src/chat.rs:156-215 | a prose answer with an answering object and no brace before it is final, with that object's choice, confidence and rationale checked |
| Chat.ProseNeverAsksAgain | crates/llm-choice/src/chat.rs:156-215 | an answering object anywhere in a prose answer needs no second round |
| Chat.ProseWithoutAnswer | crates/llm-choice/src/chat.rs:156-215 | prose of which no balanced block answers is asked for again or an error |
| Chat.SilentRound | crates/llm-choice/src/chat.rs:156-215 | so is a response without `choices[0].message.content`; a failed request is final |
| Chat.ChatClassifier.Complete | crates/llm-choice/src/chat.rs:111-124 | one request is posted as often as the retry policy says, and the last outcome is returned |
| Chat.ChatClassifier.Choose | crates/llm-choice/src/chat.rs:195-215 | a second request, the first's messages with the bad answer echoed and the correction, is sent exactly when the first answer cannot be read; at most `2 * (max_retries + 1)` posts; an answer names a real option with confidence in [0, 1] |
| Retry.Run | crates/llm-choice/src/retry.rs:35-57 | attempts stop at the first success, terminal error or exhausted budget; the last outcome is returned; the waits are the specified delays |
| Retry.StopsOnce | crates/llm-choice/src/retry.rs:35-57 | policy and outcomes determine the number of attempts |
| Retry.StopsAtFirst | crates/llm-choice/src/retry.rs:35-57 | a run stops after the first attempt that succeeded, failed terminally or was the last allowed |
| Retry.RetriedByCode | crates/llm-choice/src/error.rs:92-102 | what is retried: no connection, no answer in time, 429 and 5xx |
| Retry.DelayByNumbers | crates/llm-choice/src/retry.rs:44-54 | the wait in nanoseconds: the base times 2^k, at most 2^32 - 1 times, and at most a minute |
| Retry.DelaysGrow | crates/llm-choice/src/retry.rs:44-54 | delays never shrink and never exceed 60 seconds |
| Retry.DoublesExactly | crates/llm-choice/src/retry.rs:44-54 | delays equal `min(base * 2^k, 60 s)` for all k if and only if the base is 0 or at least 14 ns |
| Decisions.NoneKey | crates/llm-choice/src/decisions.rs:168-174 | the loop ends, after at most as many prepends as there are options, with the shortest underscored `none` that is no option key |
| Decisions.TriesBounded | crates/llm-choice/src/decisions.rs:165-174 | n taken candidates need n options |
| Decisions.NoneKeyUnique | crates/llm-choice/src/decisions.rs:168-174 | there is one such key, so asking and reading agree on it |
| Decisions.CriteriaDescribe | crates/llm-choice/src/decisions.rs:150-163 | each option is offered with its own description; the last of equal keys counts |
| Decisions.NoneOverwritesNothing | crates/llm-choice/src/decisions.rs:150-163 | offering "nothing fits" adds one entry and changes no option's |
| Decisions.Offer | crates/llm-choice/src/decisions.rs:87-174 | every option is offered under its own description, plus one fresh key exactly when "nothing fits" is asked for |
| Decisions.Ask | crates/llm-choice/src/decisions.rs:87-219 | over a whole question and answer: an offered choice that is no option is read as "nothing fits", an option is judged by its confidence, anything else is an error |
| Decisions.ReadingIsSound | crates/llm-choice/src/decisions.rs:184-219 | a chosen option exists with confidence in [0, 1], and "nothing fits" is read only where it was offered |
| Decisions.AnswerByMembers | crates/llm-choice/src/decisions.rs:184-219 | an option counts with its own probability, else with the answer's confidence; the none key says that nothing fits; anything else is an error |
| Decisions.NothingDecided | crates/llm-choice/src/decisions.rs:184-219 | a response without an answer of the right type to the question is an error |
| Decisions.FirstKeys | crates/llm-choice/src/decisions.rs:168-174 | the first keys tried |
| Decisions.NextKey | crates/llm-choice/src/decisions.rs:168-174 | each further key is the one before with an underscore in front |
| Decisions.VerdictReads | crates/llm-choice/src/decisions.rs:184-219 | reading by comparing with the none key is reading by what the choice means |
| Terminal.Safe | crates/orchestrator-core/src/terminal.rs:55-72 | each screen control becomes its escape and every other character stays |
| Terminal.DocumentedUnlessNul | crates/orchestrator-core/src/terminal.rs:32-72 | a screen control is spelled `\n`, `\r`, `\t` or `\u{…}` if and only if it is not NUL |
| Terminal.NulIsShort | crates/orchestrator-core/src/terminal.rs:32-72 | how NUL, tab and escape are spelled |
| Terminal.SafeIsPrintable | crates/orchestrator-core/src/terminal.rs:32-72 | no screen control reaches the terminal, nothing disappears, and exactly printable text is unchanged |
| Terminal.SafeByCharacter | crates/orchestrator-core/src/terminal.rs:55-72 | text is escaped character by character |
| Terminal.ScreenControlsListed | crates/orchestrator-core/src/terminal.rs:28-30 | the escaped characters: below a blank, DEL to the last C1 control, and the nine bidirectional ones |
| Terminal.EscapeNames | crates/orchestrator-core/src/terminal.rs:55-72 | an escape names its character, by a letter or by its code point |
| Menu.MenuTextSurvives | crates/orchestrator-cli/src/menu_cmd.rs:372-408 | SwiftBar's decoder gives back the safe text with each pipe spelled out; the encoded text has no pipe, no control character and no odd run of backslashes |
| Menu.UndoubledNewlineReturns | crates/orchestrator-cli/src/menu_cmd.rs:28-34 | without the doubling a title's newline comes back |
| Menu.SurvivesUndoubled | crates/orchestrator-cli/src/menu_cmd.rs:28-34 | exactly texts without a backslash survive undoubled |
| Menu.RenderSwiftbar | crates/orchestrator-cli/src/menu_cmd.rs:437-504 | the document is the specified lines in order, empty sections taking none |
| Menu.LinesStand | crates/orchestrator-cli/src/menu_cmd.rs:455-504 | which line stands where, heading by heading |
| Menu.RowSays | crates/orchestrator-cli/src/menu_cmd.rs:437-452 | a task row says glyph, number, state, workflow and shortened title, each in its place |
| Menu.TitleShown | crates/orchestrator-cli/src/menu_cmd.rs:409-420 | sixty characters of a title are shown, and an ellipsis for the rest |
| Menu.RowGlyphs | crates/orchestrator-cli/src/menu_cmd.rs:422-434 | the glyph of every state |
| Menu.TitleSays | crates/orchestrator-cli/src/menu_cmd.rs:455-465 | the bar shows the availability and the number of waiting tasks, if any |
| Menu.StatusSays | crates/orchestrator-cli/src/menu_cmd.rs:467-482 | the status or the error, and each reason |
| Menu.MenuReadsAsMeant | crates/orchestrator-cli/src/menu_cmd.rs:437-504 | whatever the titles, reasons, error and binary path: `6 + degraded + Σ(2 + rows)` lines are read, each with the text it was to show, and with the renderer's own text after its one pipe |
| Menu.OnePipePerLine | crates/orchestrator-cli/src/menu_cmd.rs:437-504 | the parameters a line is read with hold no further pipe |
| Menu.SeparatorsAreTheRenderers | crates/orchestrator-cli/src/menu_cmd.rs:20-34 | the items that read as separators are exactly the renderer's own, if and only if the menu's error does not begin with three dashes |
| MenuParams.RowParamsRead | crates/orchestrator-cli/src/menu_cmd.rs:437-452 | a task row's parameters are read as bash, focus, the task's id and the switches if and only if the binary's path holds no quote |
| MenuParams.ActionParamsRead | crates/orchestrator-cli/src/menu_cmd.rs:496-502 | likewise for the commands at the foot |
| MenuParams.NoticeParamsRead | crates/orchestrator-cli/src/menu_cmd.rs:468-481 | error and reason lines always carry the two switches and nothing else |
| MenuParams.QuotesPass | crates/orchestrator-cli/src/menu_cmd.rs:391-408 | the escaping adds and removes no quote |
| MenuBuild.Build | crates/orchestrator-cli/src/menu_cmd.rs:270-338 | one pass over the tasks fills the sections in order, the badge counts the attention rows, the recent list is the newest of its section |
| MenuBuild.SectionsMean | crates/orchestrator-cli/src/menu_cmd.rs:125-169 | no finished task is counted; of the unfinished only a queued one without a wait reason is hidden; recent are retryable endings within 24 hours |
| MenuBuild.PlacesListed | crates/orchestrator-cli/src/menu_cmd.rs:148-169 | the states and facts that put a task into each section |
| MenuBuild.SelectInOrder | crates/orchestrator-cli/src/menu_cmd.rs:303-324 | a section keeps the order the tasks were read in |
| MenuBuild.RowShowsTask | crates/orchestrator-cli/src/menu_cmd.rs:314-323 | a row shows its own task, and that it waits for approval exactly at a prompt |
| MenuBuild.StateNames | crates/orchestrator-core/src/domain/state.rs:50-65 | the states' names |
| MenuBuild.FiveAreKept | crates/orchestrator-cli/src/menu_cmd.rs:325-326 | the first five of the sorted recent tasks are kept |
| MenuBuild.ListedInItsPlace | crates/orchestrator-cli/src/menu_cmd.rs:303-324 | a task is listed in a section if and only if it was read and belongs there |
| MenuBuild.SectionsAddUp | crates/orchestrator-cli/src/menu_cmd.rs:303-324 | the sections and the hidden tasks add up to all tasks |
| MenuBuild.SortIsStable | crates/orchestrator-cli/src/menu_cmd.rs:325-325 | the sort keeps every task, newest first, equal ones in the order read |
| MenuBuild.NewestAreKept | crates/orchestrator-cli/src/menu_cmd.rs:325-326 | nothing cut from the recent list is newer than anything kept, and nothing is cut below five |
| Runtime.Writer.SendLine | crates/plugin-sdk/src/runtime.rs:86-88 | a line is appended to the one queue while the other end is open; the result says whether it was |
| AgentIde.RunKeeps | crates/plugin-sdk/src/agent_ide.rs:164-237 | the invariant of all subscriptions holds after every interleaving of server, forwarders, streams, writer and host |
| AgentIde.HostReadsInOrder | crates/plugin-sdk/src/agent_ide.rs:190-237 | in every interleaving the host reads an ACK before that subscription's notifications, which are a gapless prefix of its stream in order; a subscription whose ACK could not be queued emits nothing |
| AgentIde.DrainedIsComplete | crates/plugin-sdk/src/agent_ide.rs:225-237 | a forwarder that saw its stream end has queued all of it |
| AgentIde.AllSpelled | crates/plugin-sdk/src/agent_ide.rs:225-237 | when every notification can be encoded, lines and notifications correspond one for one |
| AgentIde.SpawnFirstBreaks | crates/plugin-sdk/src/agent_ide.rs:190-213 | spawning the forwarder before the ACK would break the order |
| AgentIde.CutMeansClosed | crates/plugin-sdk/src/agent_ide.rs:225-237 | along every run a forwarder stops short only because the writer is closed |
| AgentIde.TurnHandlesOne | crates/plugin-sdk/src/agent_ide.rs:225-237 | a turn on an open writer queues exactly the next notification, if it can be spelled, and the forwarder goes on |
| AgentIde.HostCatchesUp | crates/plugin-sdk/src/agent_ide.rs:225-237 | at any moment of any run with an open writer, the forwarder's own turns and the writer's are all the host needs to read everything on the stream |
| AgentIde.SubscribeProceeds | crates/plugin-sdk/src/agent_ide.rs:190-213 | on an open writer a subscription is acknowledged and its forwarder runs |
| AgentIde.SubscribeRefused | crates/plugin-sdk/src/agent_ide.rs:190-213 | one whose ACK cannot be sent leaves nothing behind but the end of serving |
| AgentIde.StartsServing | crates/plugin-sdk/src/agent_ide.rs:156-160 | a fresh server serves on an open writer and has said nothing |
| AgentIde.AnswerIsQueued | crates/plugin-sdk/src/runtime.rs:182-218 | any other answer is queued as it is, or ends the serving |
| AgentIde.BusyTakesNothing | crates/plugin-sdk/src/runtime.rs:182-218 | requests are taken one at a time, and none after the end |
| AgentIde.HostSteps | crates/plugin-sdk/src/runtime.rs:121-162 | the writer task writes one line at a time while the host is there |
| AgentIde.StreamsAreProduced | crates/plugin-sdk/src/agent_ide.rs:190-237 | a stream holds what was put on it, in order, until it was closed, and nothing else |
| AgentIde.AgentIdeServer.SendAck | crates/plugin-sdk/src/agent_ide.rs:196-207 | the ACK step of the state machine; shutdown exactly when the ACK cannot be queued |
| AgentIde.AgentIdeServer.SpawnForwarder | crates/plugin-sdk/src/agent_ide.rs:208-210 | the spawn step, possible only after the ACK |
| AgentIde.AgentIdeServer.HandleSubscribe | crates/plugin-sdk/src/agent_ide.rs:190-213 | the subscribe arm opens, acknowledges and spawns in that order; exactly when the ACK cannot be sent it shuts down instead, with nothing queued |
| AgentIde.AgentIdeServer.ForwardOne | crates/plugin-sdk/src/agent_ide.rs:225-237 | one turn of the loop is receive then send; it goes on exactly if something was left on the stream and it has no line or the writer was open |
| Degradation.DegradedReporter.Report | crates/plugin-sdk/src/degraded.rs:39-46 | the report step: record and line together, or nothing when it is already reported |
| Degradation.DegradedReporter.Clear | crates/plugin-sdk/src/degraded.rs:49-54 | the clear step: likewise, nothing when it is not reported |
| Degradation.HostAgrees | crates/plugin-sdk/src/degraded.rs:39-72 | after any operations on any clones, the host's replay of the lines is the reporter's record while it listens, and every line changed that replay |
| Degradation.RecordIsReported | crates/plugin-sdk/src/degraded.rs:39-54 | a key is recorded with a message if and only if the last operation on it reported that message |
| Degradation.HostIsTold | crates/plugin-sdk/src/degraded.rs:39-72 | while it listens, the host holds exactly what was last reported of each key and not cleared |
| Degradation.ListensUntilGone | crates/plugin-sdk/src/degraded.rs:56-72 | nothing but the host's leaving closes the writer |
| Degradation.OthersPass | crates/plugin-sdk/src/runtime.rs:86-88 | other lines are queued as they are and change no record |
| Degradation.ClearIsBare | crates/plugin-sdk/src/degraded.rs:49-54 | the end of a degradation is told inactive and without a message |
| Degradation.GoneIsFinal | crates/plugin-sdk/src/degraded.rs:56-72 | a host that left is told nothing more |
| Degradation.ConsecutiveLinesDiffer | crates/plugin-protocol/src/methods.rs:1042-1048 | the first line of a key is active and consecutive ones differ |
| Degradation.Drive | crates/plugin-sdk/src/degraded.rs:15-54 | operations on clones are operations on one shared record and queue |
| Prereqs.PrereqCache.Available | crates/orchestrator-core/src/agent_prereqs.rs:175-184 | the answer is what a real probe found less than one TTL ago; a probe is made exactly when no fresh entry exists; probes of one tool stay a TTL apart |
| Prereqs.PrereqCache.Missing | crates/orchestrator-core/src/agent_prereqs.rs:187-193 | exactly the required tools answered unusable, in declaration order |
| Prereqs.ProbeIsSpaced | crates/orchestrator-core/src/agent_prereqs.rs:175-184 | a probe made on a stale entry is at least a TTL after the last one of that tool |
| Prereqs.BelievedForFiveMinutes | crates/orchestrator-core/src/agent_prereqs.rs:175-184 | an entry is fresh for 300 seconds |
| Prereqs.OnlyImplementersNeed | crates/orchestrator-core/src/agent_prereqs.rs:146-160 | an implementer needs `gh`, nobody else anything |
| Prereqs.UnusableExactly | crates/orchestrator-core/src/agent_prereqs.rs:187-193 | the tools named are those required whose entry says unusable, in order |
| Prereqs.MissingFor | crates/orchestrator-core/src/agent_prereqs.rs:146-193 | the unusable tools of a profile; one that needs nothing probes nothing |
| Prereqs.BackwardsClock | crates/orchestrator-core/src/agent_prereqs.rs:175-184 | an entry is fresh until its TTL is over, and is believed outside its TTL exactly before it was made |
| StateDb.StateDb.ApplyEvent | crates/orchestrator-core/src/adapters/state_db/mod.rs:243-302 | version first, transition second; one row and one audit entry change, or nothing |
| StateDb.StateDb.RetryTask | crates/orchestrator-core/src/adapters/state_db/tasks.rs:431-517 | requeue and take the failed run's batch back in one transaction, or nothing |
| StateDb.RequeuedSpeaks | crates/orchestrator-core/src/adapters/state_db/tasks.rs:478-517 | a requeued conversation that has messages has an unsent one; waiting messages are left as they are |
| StateDb.RequeuedExactly | crates/orchestrator-core/src/adapters/state_db/tasks.rs:478-517 | a requeue takes back the batch of the last message handed over, unless one waits to be sent, and counts it |
| StateDb.TakenBackExactly | crates/orchestrator-core/src/adapters/state_db/mod.rs:218-231 | exactly the messages of that batch are unsent again |
| StateDb.NewestBatchIsLast | crates/orchestrator-core/src/adapters/state_db/mod.rs:218-231 | the newest batch is that of the last message handed over |
| StateDb.ApplyRefuses | crates/orchestrator-core/src/adapters/state_db/mod.rs:243-302 | an unknown task, then a stale version, then an illegal event is refused |
| StateDb.ApplyWrites | crates/orchestrator-core/src/adapters/state_db/mod.rs:243-302 | else one row moves one way and one version on, and the log gains what happened |
| StateDb.RetryWrites | crates/orchestrator-core/src/adapters/state_db/tasks.rs:431-517 | a retry is the event, the batch and, if one is named, the repository without its branch and base, in one write |
| TaskStates.WaysAreTransitions | crates/orchestrator-core/src/domain/state.rs:199-241 | the transitions listed by state are those listed by event |
| TaskStates.FinishedOnlyRequeues | crates/orchestrator-core/src/domain/state.rs:66-81 | a finished task only goes back to the queue, by a retry unless it is done |
| TaskControl.VersionGuards | crates/orchestrator-core/src/adapters/state_db/mod.rs:243-302 | whatever other writers do, a row stays, its version never falls, and an unchanged version means an unchanged state |
| TaskControl.DoneIsKept | crates/orchestrator-core/src/domain/state.rs:199-241 | no sequence of cancels, retries and other writes leaves `done`; only a reopened conversation does |
| TaskControl.SideColumns | crates/orchestrator-core/src/adapters/state_db/tasks.rs:330-390 | what is written without a look at the version; a recorded base commit stays |
| TaskControl.HandoverStamps | crates/orchestrator-core/src/adapters/state_db/task_messages.rs:331-345 | a handover stamps what was unsent and nothing else |
| TaskControl.BranchStepSpares | crates/orchestrator-core/src/worktree/mod.rs:1375-1437 | a branch is deleted if and only if it is not the default one, descends from the task's base and is all on `origin`; the step fails if and only if a command it comes to was not run to its end |
| TaskControl.Disk.Remove | crates/orchestrator-core/src/worktree/mod.rs:1274-1314 | the directory goes exactly when git says it is clean, has no commits of its own and can be removed; success exactly when then every git command the branch step comes to runs to its end, whether or not the branch goes |
| TaskControl.Cancel | crates/orchestrator-core/src/task_control.rs:23-53 | with any writers between read and write: an applied cancel reports the state it overwrote, a refused one wrote nothing, and it loses exactly to a changed version |
| TaskControl.RetryTask | crates/orchestrator-core/src/task_control.rs:56-68 | a retry writes exactly the requeue of the row it met, or nothing when the version moved |
| TaskControl.VacateWorktree | crates/orchestrator-core/src/task_control.rs:150-190 | exactly when the old worktree is out of the way, and exactly what leaves the disk |
| TaskControl.RetryInRepo | crates/orchestrator-core/src/task_control.rs:82-105 | every refusal and its effect, in the order of the checks; otherwise the row read is moved through the writers of both windows |
| TaskControl.MoveTask | crates/orchestrator-core/src/task_control.rs:101-104 | refused as occupied exactly when the worktree cannot be vacated; else the versioned requeue into the new repository of whatever the second window left |
| TaskControl.VacatedIsGone | crates/orchestrator-core/src/task_control.rs:150-190 | a vacated worktree is off the disk, and nothing but that directory ever leaves it |
| TaskControl.RequeueReports | crates/orchestrator-core/src/task_control.rs:134-146 | an applied requeue reports the state it overwrote, touches no other task and leaves something to say; a refused one wrote nothing |
| TaskControl.MoveSparesWork | crates/orchestrator-core/src/worktree/mod.rs:1274-1299 | no move takes a worktree with uncommitted changes, or with a base commit and commits that are not known to be elsewhere: it is refused and changes nothing |
| TaskControl.MovedExactly | crates/orchestrator-core/src/task_control.rs:70-105 | a moved task has a worktree on disk if and only if the last one recorded for it was put back after the vacating, or was never the one vacated and is there |
| TaskControl.MovedCleanly | crates/orchestrator-core/src/task_control.rs:70-105 | the corollary for a task left alone meanwhile: no old worktree on disk |
| TaskControl.UnversionedWorktreeSlipsThrough | crates/orchestrator-core/src/adapters/state_db/tasks.rs:357-373 | the whole operation, vacating included, is applied with a worktree on disk when one is created and recorded last and the version did not move |
| TaskControl.RefusalKeepsExactly | crates/orchestrator-core/src/task_control.rs:70-105 | a refused move writes nothing to the database, and leaves the disk as other writers alone would have if and only if vacating took nothing, or somebody else created or removed it afterwards |
| TaskControl.RefusalKeepsUnraced | crates/orchestrator-core/src/task_control.rs:70-105 | without other writers: if and only if no directory was there to be taken |
| TaskControl.BranchRefusalLosesWorktree | crates/orchestrator-core/src/worktree/mod.rs:1301-1314 | one refusal after which the worktree is gone: a git command of the branch step could not be started or was killed at its timeout |
| TaskControl.LostRaceLosesWorktree | crates/orchestrator-core/src/task_control.rs:101-104 | another: a race lost after the vacating |
| Secrets.ParsedPrintsBack | crates/orchestrator-core/src/ports/secret.rs:174-277 | a parsed reference prints as it was written and has its scheme's shape |
| Secrets.PrintedParsesBack | crates/orchestrator-core/src/ports/secret.rs:174-277 | a printed reference parses to itself if and only if it has its scheme's shape |
| Secrets.ThreeSegments | crates/orchestrator-core/src/ports/secret.rs:221-229 | the segment count accepts exactly `vault/item/field…` with a non-empty vault and item |
| Secrets.WrittenSchemes | crates/orchestrator-core/src/ports/secret.rs:14-277 | each of the five schemes by its own letters, for every body |
| Secrets.NoOtherScheme | crates/orchestrator-core/src/ports/secret.rs:208-286 | a text is no reference if and only if it starts with none of the five |
| Secrets.BodiesGrow | crates/orchestrator-core/src/ports/secret.rs:230-277 | what a blank command and a supplied name are, character by character |
| DoctorGate.Report.CheckBackend | crates/orchestrator-cli/src/doctor_cmd.rs:893-905 | a backend nothing mentions is not probed or reported; any other is measured |
| DoctorGate.Report.BackendChecks | crates/orchestrator-cli/src/doctor_cmd.rs:911-969 | ready exactly when the CLI runs with a live session; which checks are added |
| DoctorGate.MentionsIsALeaf | crates/orchestrator-cli/src/doctor_cmd.rs:1269-1276 | the scan finds a scheme if and only if some string leaf has it |
| DoctorGate.KeyRefByName | crates/orchestrator-cli/src/doctor_cmd.rs:1209-1216 | the key reference is the string under `api_key_ref` of the table `llm` |
| DoctorGate.LoadedByName | crates/orchestrator-cli/src/common.rs:249-261 | loading keeps every table that is no field, the roster, and the key reference or a non-empty override of it, which needs the table `llm` |
| DoctorGate.SkipWalksLeaves | crates/orchestrator-cli/src/doctor_cmd.rs:351-358 | the tree walk answers for the first blocked string leaf |
| DoctorGate.RefusedWhereverItStands | crates/orchestrator-cli/src/doctor_cmd.rs:351-358 | a table is refused if and only if some string anywhere below it is |
| DoctorGate.RefusedByLetters | crates/orchestrator-cli/src/doctor_cmd.rs:322-345 | `cmd:` and `secret:` references are refused, `op://` and `bw:` ones by their own session, `keychain:` ones never, and none in a process that was given its values |
| DoctorGate.NeverRefused | crates/orchestrator-cli/src/doctor_cmd.rs:178-204 | a text that starts with none of the four gated prefixes is never refused |
| DoctorGate.MalformedNeverRefused | crates/orchestrator-cli/src/doctor_cmd.rs:178-204 | nor is a malformed reference |
| DoctorGate.GateFindsFirst | crates/orchestrator-cli/src/doctor_cmd.rs:1188-1216 | the gate answers for the first blocked reference in launch order |
| DoctorGate.ScanCoversReferences | crates/orchestrator-cli/src/doctor_cmd.rs:1218-1266 | every reference a launch resolves is covered by the scan for its scheme, so `NotUsed` is harmless |
| DoctorGate.OpensExactly | crates/orchestrator-cli/src/doctor_cmd.rs:322-358 | whatever schemes are taken to be in use, the gate opens if and only if each reference is harmless or was overlooked |
| DoctorGate.OpenGateIsSound | crates/orchestrator-cli/src/doctor_cmd.rs:1218-1266 | for any second reading of the file, an open gate lets only harmless references through if and only if none was overlooked |
| DoctorGate.OpenLaunchIsQuiet | crates/orchestrator-cli/src/doctor_cmd.rs:2090-2106 | and the launch behind it never prompts or runs a command, whichever references fail, under the same condition |
| DoctorGate.GateIsExact | crates/orchestrator-cli/src/doctor_cmd.rs:1188-1216 | the gate opens if and only if every string of the plugin's table, and the key reference of a task source, is silent or of a backend measured live |
| DoctorGate.CommandRefusesLaunch | crates/orchestrator-cli/src/doctor_cmd.rs:1188-1216 | a `cmd:` reference anywhere in a plugin's table refuses its launch |
| DoctorGate.LaunchWalksReferences | crates/orchestrator-core/src/plugins/spec.rs:54-107 | a launch reaches the backends of those references in order, up to the first of the table that fails; a key that fails does not end it |
| DoctorGate.NoManifestNoLaunch | crates/orchestrator-core/src/plugins/spec.rs:54-63 | without a manifest nothing is resolved |
| DoctorGate.ResolvedInOrder | crates/orchestrator-core/src/config/resolve.rs:138-166 | references are resolved one after the other, up to one that fails |
| DoctorGate.ReachedByLetters | crates/orchestrator-core/src/platform/mod.rs:58-76 | what each written reference reaches, and that a process with its values reaches nothing |
| DoctorGate.AllowedLaunchIsSilent | crates/orchestrator-cli/src/doctor_cmd.rs:2090-2106 | no backend an allowed launch reaches prompts or runs a command, whichever references fail |
| DoctorGate.RefusedLaunchDisturbs | crates/orchestrator-cli/src/doctor_cmd.rs:1166-1216 | a refused launch would have, unless the launcher's value is missing or roster and manifest disagree |
| DoctorGate.FileScanAloneMisses | crates/orchestrator-cli/src/doctor_cmd.rs:1218-1244 | scanning the file alone would let a key reference from the environment through on a dead session |
| DoctorGate.UnreadableRescanOpens | crates/orchestrator-cli/src/doctor_cmd.rs:1254-1266 | with an unreadable second reading the gate opens if and only if each reference is harmless or of a measured backend the key reference is not of, and is sound if and only if those have a session |
| DoctorGate.UnreadableRescanPrompts | crates/orchestrator-cli/src/doctor_cmd.rs:1254-1266 | one such plugin, whose launch reaches 1Password without a session |

## Left out

- SHA-256 is a parameter with 32-byte results; nothing is said about collisions.
- JSON, TOML and SQL parsing: the JSON parser behind a verdict is a parameter, a TOML document is its tree, the database is its rows.
- HTTP, processes, the filesystem, git, clocks and the SwiftBar program itself; what they answer is an argument.
- NaN and rounding of confidences, which are reals.
- Overflow of `usize` for texts longer than memory.
- Wording of messages, refusals and `explain`; which strict-verdict error is reported.
- Database and I/O errors, session ids, audit details and timestamps of the task row.
- Repositories, tools, `logs -f`, `config show` and the other commands, which are input and output around the cores.
- SwiftBar's `:name:` expansion, switched off by a parameter and not by escaping.
- `combined_skip_action` and the deferred notes, which only word what the gate decided.
- The order of a table's keys after conversion to JSON: a launch resolves them in the order the gate read them.
- Identifier.Fit: requires parts that neither start nor end with the separator, as every caller's parts do; `Identifier.PartsAreSanitized` shows it.
- Template.Scan: keeps the rest of the template where the program keeps an index into it; the positions are the same.
- Prereqs.PrereqCache.Available: requires instants that do not decrease, as a monotonic clock gives; `Prereqs.BackwardsClock` shows what happens otherwise.
- AgentIde.AgentIdeServer.ForwardOne: runs receive and send together; the interleavings between them are those of the state machine's separate steps.
- DoctorGate.AllowedLaunchIsSilent: for a document that does not change between loading and scanning; `DoctorGate.OpenLaunchIsQuiet` is the statement for any second reading.
- Menu.SeparatorsAreTheRenderers: an item whose text begins with `---` counts as a separator; whether SwiftBar also wants nothing after the dashes is not known here.
- Scrub.PromiseKept: for a host and a path without a mark; `Scrub.MarkedGateway` is the case with one, where the rest holds no further `://`, and `Scrub.CutAtMark` the general equation.
- TaskControl.Disk.Remove: keeps directories only; which branches exist is not part of the model.
- MenuParams.RowParamsRead: the reader is `key=value` or `key="value"` separated by spaces; whether SwiftBar also decodes escapes inside a value is not known here, so the path is compared as written.
- MenuBuild.Build: sorts the recent tasks where the program sorts the rows made from them; the keys are the same.

# parse-options in Dafny

A model of the option parser in `parse-options.c` / `parse-options.h`. This is
the git-style engine that reads `argv` against a table of `struct option`
descriptors. It does three things:
- It classifies every token as one of four kinds:
  - positional (including `-`);
  - a bundle of short switches `-xyz`;
  - a long option `--name[=value]`;
  - the `--` terminator.
- It writes the value each selected descriptor asks for into the caller's
  variable. The descriptor kinds are increment, string, integer, callback and
  the `-NUM` fallback.
- It compacts the positional tokens to the front of the same `argv` storage.

The project has two layers.

* **Module `Engine`** (`engine.dfy`) describes every routine of the core as a
  function over a `State`. A `State` holds:
  - the argv storage;
  - the read cursor `pos` (`c->argv` is `buf[pos..]`);
  - `argc` and the write cursor `index`;
  - the pending inline text `c->opt`;
  - the mode flags;
  - the caller's `int` and `const char*` variables, keyed by address;
  - the trace of callback invocations.

  The session invariant `Inv` says three things: the write cursor never passes
  the read cursor, the unread tokens are C strings, and there is a slot for
  the terminating NULL. Every scanning function returns a state that satisfies
  `Inv`.
* **Module `ParseOptions`** (`parse_options.dfy`) is the imperative model.
  - `struct parse_option_context` is the class `Context`. Its fields are
    updated in place, and `c->out` is an `array<Option<string>>` (None is
    NULL) that is written in place.
  - The caller's variables live in the class `Bindings`.
  - Each method has the same loops and live branches as the C routine (the
    `strchr(arg, '=')` at parse-options.c:191-195 computes a value nothing
    reads, and is left out). Each is proved to leave exactly the state that
    the `Engine` function of the same routine computes.

The other modules:
* `OptionTable` holds the header: the enums, the `struct option` record and
  the `OPT_*` constructors.
* `Decimal` pins down `isdigit`, `isspace` and `strtol(…, 10)` as the engine
  uses them.
* `Properties` proves what the parser promises about the `Engine` functions.

Callbacks are opaque. A callback invocation is recorded as a `Call` (which
function, which table entry, which argument) in a ghost trace. Its answer
comes from a `Responder` function `Call -> int` that is given as an input, and
a nonzero answer is a failure, as in the source.

Some helpers stand for single source expressions and are covered by the rows
of the members that use them: `Engine.Tail` is `c->opt[n] ? c->opt + n : NULL`
(parse-options.c:159, 178), `Engine.CopyDown` is the lowest-first copy behind
the memmove (parse-options.c:290, see `Engine.EndIsCopyDown`), and
`Decimal.IsDigit`, `Decimal.IsSpace` and `Decimal.SignEnd` are `isdigit`,
`isspace` and the sign handling inside strtol (see `Decimal.Strtol`).

Where the source prints to stderr, the model returns a `Diagnostic` value
instead:
- `option_error`'s messages;
- "unknown option" / "unknown switch".

## Model

| member | source | states |
|---|---|---|
| `OptionTable.OptEnd` | parse-options.h:52 | OPT_END has kind END and no name. |
| `OptionTable.OptGroup` | parse-options.h:53 | OPT_GROUP has no short or long name, so it can never be selected by name. It carries its heading as help. |
| `OptionTable.OptInc` | parse-options.h:54 | OPT_INC has kind INC and carries OPTION_NOARG (not OPTARG). Its target is an int variable. |
| `OptionTable.OptString` | parse-options.h:55 | OPT_STRING has flags 0, so a value is required. Its target is a string variable. |
| `OptionTable.OptInteger` | parse-options.h:56 | OPT_INTEGER has flags 0, so a value is required. Its target is an int variable. |
| `OptionTable.OptCallback` | parse-options.h:57-58 | OPT_CALLBACK has flags 0 and carries its callback. |
| `OptionTable.OptNumberCallback` | parse-options.h:59-60 | OPT_NUMBER_CALLBACK has no name, carries OPTION_NOARG, and has a callback. |
| `OptionTable.ModeFlagsIndependent` | parse-options.h:22-26 | The three POF_* bits are distinct. Each test of a flag word sees exactly the caller's choice for that flag. |
| `OptionTable.PolicyFlagsIndependent` | parse-options.h:17-20 | OPTION_OPTARG and OPTION_NOARG are separate bits, and flags 0 means a value is required. |
| `OptionTable.ErrorCodesDistinct` | parse-options.h:28-32 | The three POE_* codes are negative and pairwise distinct, so no error code can be taken for a count. |
| `Decimal.DigitRun` | parse-options.c:172-173 | The result is the length of the maximal prefix made of decimal digits: everything before it is a digit and the character at it is not. |
| `Decimal.Strtol` | parse-options.c:131 | strtol in base 10 returns a value in the range of `long` and the offset of the end pointer. When no digit follows the white space and sign, the value is 0 and the end pointer is at the start; otherwise the end pointer is just after the digit run. |
| `Decimal.ToCInt` | parse-options.c:131 | Storing the `long` into an `int` gives a value in the int range, congruent to the long modulo 2^32, and the identity on values that already fit. |
| `Decimal.StrtolFormatInt` | parse-options.c:131-132 | strtol reads back every int written in decimal, consumes all of it, and the int store gives that int back. |
| `Decimal.StrtolConsumesAllIff` | parse-options.c:131-132 | The end pointer ends on the NUL exactly when the text is empty, or is white space, an optional sign and at least one digit with nothing after. |
| `Engine.Code` | parse-options.c:252-258 | A status maps to 0, POE_ERROR or POE_OPTION_UNKNOWN, one for one. Only success is non-negative, and the engine never yields POE_NO_MEM. |
| `Engine.Who` | parse-options.c:66-71 | option_error names the switch character when the option was matched in short form and the long name otherwise. |
| `Engine.GetArg` | parse-options.c:79-90 | get_arg always clears the pending value and writes no target. It either succeeds or fails with "requires a value" for the option it was given. The cursors satisfy the session invariant. |
| `Engine.Invoke` | parse-options.c:146 | A callback call is appended to the trace, and that is the only change. The result is Ok exactly when the callback answers 0. |
| `Engine.BindString` | parse-options.c:115-122 | The string branch of get_value leaves the pending value as it was or clears it. When it leaves it pending, no token is consumed. It fails only with "requires a value". |
| `Engine.BindInteger` | parse-options.c:123-135 | The integer branch of get_value has the same cursor discipline as the string branch. It fails only with "requires a value" or "expects a numerical value". |
| `Engine.BindCallback` | parse-options.c:136-146 | The callback branch of get_value has the same cursor discipline. It never reports an unknown option. |
| `Engine.GetValue` | parse-options.c:93-151 | get_value consumes at most the next token, keeps the session invariant, and never writes argv. It leaves the pending value intact or clears it, and it never reports an unknown option. |
| `Engine.EndFrom` | parse-options.c:157 | The result is the first OPT_END at or after a given index. No entry before it ends the table. |
| `Engine.FirstShort` | parse-options.c:157-161 | The result is the first entry before OPT_END whose short name is the character. When there is none, no entry before OPT_END has that short name. |
| `Engine.LastNumber` | parse-options.c:155-165 | num_opt ends as the last OPTION_NUMBER entry before OPT_END, or NULL when there is none. |
| `Engine.SkipPrefix` | parse-options.c:58-62 | skip_prefix returns a result exactly when the prefix starts the string, and then the prefix followed by the result is the string. |
| `Engine.FirstLong` | parse-options.c:196-213 | The result is the first entry before OPT_END whose long name matches. When there is none, no entry before OPT_END matches. |
| `Engine.LongMatch` | parse-options.c:199-209 | An entry matches the text after `--` only when it has a long name, the text starts with it, and the name is followed by the end of the text or by `=`. |
| `Engine.SelectedShortIsBindable` | parse-options.c:147-149 | An entry selected by a real short name has a kind that get_value binds, so the fatal default branch is unreachable. |
| `Engine.SelectedLongIsBindable` | parse-options.c:199-212 | An entry selected by long name has a long name and a kind that get_value binds. |
| `Engine.ShortOpt` | parse-options.c:153-184 | parse_short_opt keeps the session invariant. An unknown switch changes nothing. On success, a pending value is a strictly shorter, non-empty tail, and no token was consumed. |
| `Engine.ShortLoop` | parse-options.c:250-261 | The do-while ends successfully only with nothing pending. An unknown switch leaves the read cursor on its token with text pending; which character it is, is stated by `Properties.ShortLoopUnknown`. |
| `Engine.LongOpt` | parse-options.c:186-215 | parse_long_opt keeps the invariant. The result is unknown exactly when no entry matches, and then nothing changes. On success from nothing pending, nothing is left pending. |
| `Engine.IsPositional` | parse-options.c:240 | A token is not an option exactly when it is empty, does not start with `-`, or is `-` itself. |
| `Engine.Advance` | parse-options.c:237 | The loop increment moves the read cursor one token on, with one token fewer left, and changes nothing else; it keeps the session invariant. |
| `Engine.PositionalToken` | parse-options.c:240-246 | A positional token stops the loop exactly under POF_STOP_AT_NON_OPTION, successfully and leaving it unread. Otherwise the loop moves on, having written argv only at the write cursor. |
| `Engine.ShortToken` | parse-options.c:249-262 | A `-xyz` token never writes argv or the write cursor. It stops only on a failure, and an unknown switch can be reported. |
| `Engine.LongToken` | parse-options.c:273-281 | A `--name` token never writes argv or the write cursor. It stops only on a failure, and an unknown option can be reported. |
| `Engine.Token` | parse-options.c:238-283 | One pass keeps the scanning frame. It consumes a token when it goes on, and an option token never writes argv. A positional token that goes on is copied to `out[index++]` and consumed. |
| `Engine.Scan` | parse-options.c:237-285 | The token loop keeps the session invariant: the write cursor advances no more than the read cursor. argv is written only between the old and new write cursor, and an unknown result can be reported. |
| `Engine.ScanToken` | parse-options.c:237-284 | One token followed by the rest of the loop keeps the same frame. |
| `Engine.Step` | parse-options.c:230-286 | parse_options_step clears c->opt, then runs the token loop with the same frame. |
| `Engine.Start` | parse-options.c:217-228 | parse_options_start skips argv[0]: the read cursor is at slot 1 with argc-1 tokens left. Nothing is pending, the trace is empty, the flags and targets are the caller's, and the write cursor is 1 under POF_KEEP_ARGV0 and 0 otherwise. |
| `Engine.End` | parse-options.c:288-293 | parse_options_end keeps the slots below the write cursor and moves the argc unscanned tokens in order to the write cursor. It writes NULL after them, leaves the rest, and returns index+argc. |
| `Engine.CopyDownAt` | parse-options.c:290 | Copying upwards from the lowest slot, with the destination at or below the source, delivers the whole run intact and leaves every other slot alone. |
| `Engine.EndIsCopyDown` | parse-options.c:290-291 | The memmove with the NULL store equals that slot-by-slot copy followed by the NULL store. |
| `Engine.Report` | parse-options.c:64-72 | A failed binding prints option_error's message, naming the option and the reason, except a callback failure, which prints nothing (parse-options.c:138-146). |
| `Engine.Finish` | parse-options.c:305-319 | The return code is non-negative exactly on success, and then it is the count and argv that parse_options_end leaves. An unknown option is POE_OPTION_UNKNOWN with the report `unknown option` naming the token when it starts with `--`, else `unknown switch` naming the pending character. A failed binding returns POE_ERROR with option_error's report. On failure argv stays as the loop left it. |
| `Engine.ParseOptions` | parse-options.c:295-320 | parse_options returns a count, POE_ERROR or POE_OPTION_UNKNOWN. A count comes with no diagnostic, and an unknown option always comes with an "unknown" report (what it names is stated by `Properties.UnknownReportNames`). |
| `ParseOptions.Bindings.constructor` | parse-options.h:41 | Holds the caller's variables as given. |
| `ParseOptions.Context.Start` | parse-options.c:217-228 | The new context reads from argv[1] with argc-1 tokens left and output into the same storage. The write cursor follows POF_KEEP_ARGV0, and nothing is pending. |
| `ParseOptions.Context.GetArg` | parse-options.c:74-91 | The method leaves exactly the state, status and value that `Engine.GetArg` gives. |
| `ParseOptions.Context.Invoke` | parse-options.c:138-146 | The method records the call and returns the status that `Engine.Invoke` gives. |
| `ParseOptions.Context.GetValue` | parse-options.c:93-151 | The method updates the context and the caller's variables exactly as `Engine.GetValue` does. |
| `ParseOptions.Context.ParseShortOpt` | parse-options.c:153-184 | The table loop and the digit-run loop together leave the state `Engine.ShortOpt` gives. The proof uses loop invariants tying the scan so far to FirstShort/LastNumber. |
| `ParseOptions.Context.ParseLongOpt` | parse-options.c:186-215 | The table loop leaves the state `Engine.LongOpt` gives. |
| `ParseOptions.Context.ShortGroup` | parse-options.c:250-261 | The do-while leaves the state `Engine.ShortLoop` gives. |
| `ParseOptions.Context.TokenStep` | parse-options.c:238-283 | One pass of the token loop does what `Engine.Token` does, including the in-place write `out[index++]`. |
| `ParseOptions.Context.ShortStep` | parse-options.c:249-262 | A `-xyz` token does what `Engine.ShortToken` does. |
| `ParseOptions.Context.LongStep` | parse-options.c:273-281 | A `--name` token does what `Engine.LongToken` does. |
| `ParseOptions.Context.Step` | parse-options.c:230-286 | parse_options_step leaves the state and status `Engine.Step` gives. |
| `ParseOptions.Context.End` | parse-options.c:288-293 | The in-place copy and the NULL store leave argv exactly as `Engine.End` describes, and the method returns its count. |
| `ParseOptions.Finish` | parse-options.c:305-319 | The tail of parse_options returns the code and the report that `Engine.Finish` gives, and leaves its argv. |
| `ParseOptions.ParseOptions` | parse-options.c:295-320 | A whole parse on the array and the caller's variables yields exactly what `Engine.ParseOptions` yields: the return code, the report, argv, the variables and the callback trace. |
| `Properties.GetArgCases` | parse-options.c:79-90 | A pending value is returned and cleared. Otherwise the whole next token is returned and the read cursor moves onto it. Otherwise the result is "requires a value" and nothing changes. |
| `Properties.IncrementByOne` | parse-options.c:98-114 | An OPTION_INC match adds exactly 1 to its target and changes nothing else. `--name=value` on it is "takes no value" and changes nothing. |
| `Properties.NoArgCallbackRejectsValue` | parse-options.c:98-106 | `--name=value` on an OPTION_NOARG callback is "takes no value". The callback is not called and nothing changes. |
| `Properties.OptionalArgOmitted` | parse-options.c:116-142 | With OPTION_OPTARG and nothing pending, a string or integer target receives def_val and a callback is called with NULL. No token is consumed. |
| `Properties.StringTakesArgument` | parse-options.c:115-122 | Otherwise a string target receives exactly the text get_arg acquires, and fails with it, changing nothing. |
| `Properties.CallbackReceivesArgument` | parse-options.c:143-146 | A callback that takes a value is called with exactly the text get_arg acquires; when get_arg fails it is not called and "requires a value" is the result. |
| `Properties.NoArgCallbackGetsNull` | parse-options.c:137-138 | An OPTION_NOARG callback matched as a switch or as a bare `--name` is called with NULL, consumes nothing, and leaves the rest of a group pending. |
| `Properties.IntegerBinds` | parse-options.c:123-135 | For a required value, or an optional one given inline, the integer target receives strtol's value even with trailing text. Binding succeeds exactly when strtol consumed the whole value and otherwise fails with "expects a numerical value". A separate value token is consumed, an inline value is cleared, and nothing else changes. |
| `Properties.IntegerFormsAgree` | parse-options.c:123-135 | `-iV`, `-i V` and `--integer=V` store the same value and succeed or fail together. |
| `Properties.IntegerNumeralBinds` | test-parse-options.c:89-99 | `-iN`, `-i N` and `--integer=N` all succeed and bind N, for every int N written in decimal (so 77 gives 77). |
| `Properties.SelectedIsNamedEntry` | parse-options.h:52-60 | Neither scan selects OPT_END, an entry after it, or an unnamed entry (group, number). |
| `Properties.LongMatchIff` | parse-options.c:199-209 | A long name matches exactly when the text is the name, or is the name followed by '='. A mere prefix such as `only` against `only-long` never matches, and neither does an entry without a long name. |
| `Properties.ShortSelectsFirst` | parse-options.c:157-161 | The first entry in table order with the character as short name is selected before OPT_END. It is bound with the rest of the token pending, or NULL when the token ends. |
| `Properties.LongSelectsFirst` | parse-options.c:196-212 | The first matching entry in table order is selected before OPT_END. It is bound with the text after '=' pending, or with nothing pending for a bare `--name`. |
| `Properties.ShortUnknownIff` | parse-options.c:157-183 | A switch is unknown exactly when no short name matches and the digit fallback does not apply. An unknown switch leaves c->opt at the offending character. |
| `Properties.NumericFallback` | parse-options.c:167-181 | With no short-name match, a digit and a NUMBER entry, the last NUMBER entry's callback receives exactly the maximal digit run. Scanning resumes after the run, or is NULL when the run ends the token. |
| `Properties.IncBundle` | parse-options.c:250-261 | A bundle of n switches selecting one OPTION_INC entry adds exactly n to it and ends the group successfully with nothing pending. |
| `Properties.IncSwitch` | parse-options.c:158-160 | One such switch counts once and hands the rest of the bundle to the next round of the loop. |
| `Properties.SwitchThenString` | test-parse-options.c:117-127 | In `-bsstring value`, b counts once and s receives `string value`, and the group ends successfully. |
| `Properties.AllPositionalCopied` | parse-options.c:240-246 | Without POF_STOP_AT_NON_OPTION, a run of positional tokens (including `-`) is copied in order to the write cursor. Nothing else changes. |
| `Properties.PositionalNext` | parse-options.c:244-245 | One positional token is copied to `out[index++]` and consumed. |
| `Properties.StopAtNonOptionKeepsArgv` | parse-options.c:241-243 | Under POF_STOP_AT_NON_OPTION the token loop never writes argv or the write cursor. |
| `Properties.TokenStops` | parse-options.c:240-271 | A token stops the loop successfully only in three cases: a positional token under POF_STOP_AT_NON_OPTION, left unread; `--` under POF_KEEP_DASHDASH, left unread; or `--` otherwise, dropped. |
| `Properties.DashDashStops` | parse-options.c:265-271 | `--` always stops the loop successfully: it stays unread under POF_KEEP_DASHDASH and is dropped otherwise. |
| `Properties.StopAtPositional` | parse-options.c:240-243 | Under POF_STOP_AT_NON_OPTION a positional token stops the loop successfully and stays unread. |
| `Properties.ScanStops` | parse-options.c:237-285 | A successful loop that leaves tokens stops only in those three places. |
| `Properties.CompactionOrder` | parse-options.c:244 | The slots the loop writes hold positional tokens of the scanned input, in their input order. |
| `Properties.EndAfterCompaction` | parse-options.c:288-293 | After compaction, end returns a count no larger than the tokens given. Every slot below it holds a token, the slot at it is NULL, and argv[0] is kept under POF_KEEP_ARGV0. |
| `Properties.ParseOptionsReturnsCount` | parse-options.h:62-66 | A non-negative return of parse_options is the number of arguments left in argv: argv[0] under POF_KEEP_ARGV0, then tokens up to the count, then NULL. |
| `Properties.EndAfterCopy` | parse-options.c:288-293 | After an all-positional loop, end returns their number with the tokens in order below it and NULL at it. |
| `Properties.AllPositionalParse` | parse-options.c:295-320 | An argv of positional tokens only comes back unchanged and in order, shifted over argv[0] unless POF_KEEP_ARGV0. The count is their number, and no target is written and no callback called. |
| `Properties.ShortOptPendingSuffix` | parse-options.c:159-178 | What parse_short_opt leaves pending is a final part of the text it was given. |
| `Properties.ShortLoopUnknown` | parse-options.c:250-256 | When a group ends in an unknown switch, the pending text is a final part of the group and its first character is one no entry has as short name and the digit fallback does not take. |
| `Properties.TokenUnknown` | parse-options.c:249-283 | A token that ends the loop in POE_OPTION_UNKNOWN stays at the read cursor, argv unchanged, and is the cause of it: a `--name` no entry matches, or a group whose pending switch no entry takes. |
| `Properties.ScanUnknown` | parse-options.c:237-285 | A token loop that ends in POE_OPTION_UNKNOWN ends on that cause. |
| `Properties.UnknownReportNames` | parse-options.c:308-315 | The unknown report names a `--name` token of argv that no entry matches, or a switch character, taken from a `-xyz` token of argv, that no entry takes and the digit fallback does not take. |

## Left out

- `usage_with_options` (parse-options.c:322-382) is not modelled. It formats help text to stderr and holds no parsing logic.
- Output to stderr is not modelled as text. The messages of `option_error` and of the unknown option and unknown switch reports become `Diagnostic` values. Callback failures print nothing, as in the source.
- The out-of-memory path is not modelled, because allocation cannot fail in the model:
  - `xmemdupz` failing in `parse_short_opt`;
  - the `POE_NO_MEM` return and its pass-through in `parse_options_step`.
  - The digit run is passed to the callback as a substring.
- Callback bodies are not modelled. A callback's effect on the caller's variables through `opt->value` is not modelled. Its answer is an input (`Responder`), and each call is recorded in a ghost trace.
- The `strtol` model is narrower than the C library:
  - It uses the C locale (the white space of `isspace`, ASCII digits) on LP64, where a `long` is 64 bits and strtol saturates.
  - It does not model `errno`.
  - The `long` to `int` store wraps modulo 2^32, as gcc and clang define it.
- `ParseOptions.Context.GetValue`: the `+= 1` on an OPTION_INC target is not wrapped at `INT_MAX`. That would be signed overflow, which C leaves undefined.
- The union `def_val` is kept as its two views: `defStr` for string entries and `defInt` for integer entries.
- The fatal `default:` branch of `get_value` (parse-options.c:147-149) is not modelled as a path. Instead descriptors must be well-formed, as the `OPT_*` constructors make them: an entry with no name that is a group or number, and a callback for callback and number kinds. Every entry found by name then has a bindable kind.
- `Engine.ParseOptions`: requires `argc >= 1` and room for the NULL after the tokens. With `argc == 0`, `parse_options_start` would set `c->argc` to -1.
- `ParseOptions.Context.End`: models `memmove` as a copy from the lowest slot up. That copy is equivalent because the destination never lies above the source (proved as `Engine.EndIsCopyDown`).
- Targets are caller variables addressed by number. Two descriptors with the same integer address, or the same string address, do share that target. The model does not capture an integer target and a string target at one address, or a string target that aliases argv storage.
- Strings are modelled as sequences of Dafny characters (Unicode scalar values), not as byte arrays. The C code compares and reports bytes (`short_name` against `*c->opt`, parse-options.c:158 and 313), so a multi-byte switch such as `-é` is matched and reported one byte at a time there and as one character here.
- Callbacks are modelled as stateless: the `Responder` gives every identical call the same answer. A callback whose answer depends on earlier calls (failing on its second identical call, say) is not represented.
- The `usage_str` parameter of `parse_options_step` and `parse_options` is not modelled. Neither routine uses it.

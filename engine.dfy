/**
 * The parse-options engine as functions over a snapshot of everything it
 * touches: the argv storage, the cursors of struct parse_option_context,
 * the pending inline value, the mode flags, the caller's target variables
 * and the trace of callback invocations. The imperative model in module
 * ParseOptions is proved to compute exactly these functions.
 */
module Engine {
  import opened Wrappers
  import opened OptionTable
  import Decimal

  /** A C string cannot contain NUL. */
  predicate CString(s: string) { forall k :: 0 <= k < |s| ==> s[k] != '\0' }

  /** One invocation of a callback: which function, for which table entry, with which argument. */
  datatype Call = Call(callback: CallbackId, entry: int, arg: Option<string>)

  /** What the callbacks answer; a nonzero answer is a failure. */
  type Responder = Call -> int

  /** Why a value could not be bound. */
  datatype Reason = RequiresValue | TakesNoValue | NotNumeric | CallbackFailed

  /** Whether an option was matched as `-c` or as `--name`. */
  datatype Form = ShortForm | LongForm

  /** The option a binding error is about: a switch character, a long name, or a `-NUM` digit run. */
  datatype OptionId = Switch(c: char) | LongOption(name: string) | NumberRun(run: string)

  /** The result of a parsing function: 0, POE_ERROR with its cause, or POE_OPTION_UNKNOWN. */
  datatype Status = Ok | Failed(reason: Reason, who: OptionId) | Unknown

  /** The C return code of a status; only success is non-negative. */
  function Code(st: Status): (rc: int)
    ensures rc >= 0 <==> st.Ok?
    ensures rc == POE_ERROR <==> st.Failed?
    ensures rc == POE_OPTION_UNKNOWN <==> st.Unknown?
    ensures rc != POE_NO_MEM
  {
    match st
    case Ok => 0
    case Failed(_, _) => POE_ERROR
    case Unknown => POE_OPTION_UNKNOWN
  }

  /**
   * buf is the argv storage (None is NULL); c->out is buf itself and
   * c->argv is buf[pos..]; argc and index are the context's fields and opt
   * is the text c->opt points at.
   */
  datatype State = State(
    buf: seq<Option<string>>,
    pos: int,
    argc: int,
    index: int,
    opt: Option<string>,
    flags: bv32,
    ints: map<Addr, int>,
    strs: map<Addr, Option<string>>,
    calls: seq<Call>)

  /**
   * The session invariant: the write cursor never passes the read cursor,
   * the unread tokens are C strings inside the storage, and there is room
   * for the terminating NULL after them.
   */
  predicate Inv(s: State) {
    && Bounds(s)
    && (forall k :: s.pos <= k < s.pos + s.argc ==> s.buf[k].Some? && CString(s.buf[k].value))
    && (s.opt.Some? ==> CString(s.opt.value))
  }

  /** The cursors alone: write before read, and the unread tokens and a NULL slot inside the storage. */
  predicate Bounds(s: State) {
    0 <= s.index <= s.pos && 0 <= s.argc && s.pos + s.argc < |s.buf|
  }

  /** t is reached from s by consuming tokens and binding values, without writing argv. */
  predicate Follows(s: State, t: State) {
    && Inv(t)
    && t.buf == s.buf && t.index == s.index && t.flags == s.flags
    && s.pos <= t.pos && t.pos + t.argc == s.pos + s.argc && (s.argc > 0 ==> t.argc > 0)
    && t.ints.Keys == s.ints.Keys && t.strs.Keys == s.strs.Keys
    && s.calls <= t.calls
  }

  /**
   * t is reached from s by scanning: tokens are consumed, and argv is
   * written only between the old and the new write cursor.
   */
  predicate Moves(s: State, t: State) {
    && Inv(t)
    && |t.buf| == |s.buf| && t.flags == s.flags
    && s.index <= t.index && s.pos <= t.pos && t.pos + t.argc == s.pos + s.argc
    && t.index - s.index <= t.pos - s.pos
    && t.ints.Keys == s.ints.Keys && t.strs.Keys == s.strs.Keys
    && s.calls <= t.calls
    && (forall k {:trigger t.buf[k]} :: 0 <= k < |s.buf| && !(s.index <= k < t.index) ==> t.buf[k] == s.buf[k])
  }

  datatype Fetch = Fetch(s: State, st: Status, arg: string)

  datatype Outcome = Outcome(s: State, st: Status)

  /** The identity option_error reports: the short name when matched as a switch, else the long name. */
  function Who(d: Descriptor, form: Form): (w: OptionId)
    requires form.LongForm? ==> d.longName.Some?
    ensures w.Switch? <==> form.ShortForm?
    ensures w.Switch? ==> w.c == d.shortName
    ensures w.LongOption? ==> w.name == d.longName.value
  {
    if form.ShortForm? then Switch(d.shortName) else LongOption(d.longName.value)
  }

  /**
   * get_arg: the pending inline value if there is one, else the whole next
   * token (the read cursor moves onto it), else "requires a value".
   */
  function GetArg(s: State, who: OptionId): (r: Fetch)
    requires Inv(s)
    ensures Follows(s, r.s) && r.s.opt.None? && r.s.pos <= s.pos + 1
    ensures r.s.ints == s.ints && r.s.strs == s.strs && r.s.calls == s.calls
    ensures r.st.Ok? || r.st == Failed(RequiresValue, who)
  {
    if s.opt.Some? then Fetch(s.(opt := None), Ok, s.opt.value)
    else if s.argc > 1 then Fetch(s.(argc := s.argc - 1, pos := s.pos + 1), Ok, s.buf[s.pos + 1].value)
    else Fetch(s, Failed(RequiresValue, who), "")
  }

  /** opt->callback(opt, arg, 0), recorded in the trace; a nonzero answer is POE_ERROR. */
  function Invoke(s: State, opts: seq<Descriptor>, e: int, arg: Option<string>, who: OptionId, respond: Responder): (r: Outcome)
    requires 0 <= e < |opts| && opts[e].callback.Some?
    ensures r.s == s.(calls := s.calls + [Call(opts[e].callback.value, e, arg)])
    ensures r.st.Ok? <==> respond(Call(opts[e].callback.value, e, arg)) == 0
    ensures r.st.Failed? ==> r.st == Failed(CallbackFailed, who)
  {
    var call := Call(opts[e].callback.value, e, arg);
    Outcome(s.(calls := s.calls + [call]), if respond(call) != 0 then Failed(CallbackFailed, who) else Ok)
  }

  /** The precondition of get_value on table entry e. */
  predicate CanBind(s: State, opts: seq<Descriptor>, e: int, form: Form) {
    && Inv(s)
    && 0 <= e < |opts|
    && Bindable(opts[e].kind) && WellFormed(opts[e])
    && Fits(opts[e], s.ints.Keys, s.strs.Keys)
    && (form.LongForm? ==> opts[e].longName.Some?)
  }

  /** The value-taking part of get_value for an OPTION_STRING entry. */
  function BindString(s: State, d: Descriptor, who: OptionId): (r: Outcome)
    requires Inv(s) && d.kind.StringKind? && Fits(d, s.ints.Keys, s.strs.Keys)
    ensures Follows(s, r.s) && (r.s.opt == s.opt || r.s.opt.None?) && (r.s.opt.Some? ==> r.s.pos == s.pos)
    ensures r.s.pos <= s.pos + 1
    ensures r.st.Ok? || r.st == Failed(RequiresValue, who)
  {
    if OptArg(d) && s.opt.None? then
      Outcome(s.(strs := s.strs[d.value.addr := d.defStr]), Ok)
    else
      var g := GetArg(s, who);
      if g.st.Ok? then Outcome(g.s.(strs := g.s.strs[d.value.addr := Some(g.arg)]), Ok)
      else Outcome(g.s, g.st)
  }

  /**
   * The value-taking part of get_value for an OPTION_INTEGER entry: the
   * target receives strtol's result even when text follows the digits.
   */
  function BindInteger(s: State, d: Descriptor, who: OptionId): (r: Outcome)
    requires Inv(s) && d.kind.IntegerKind? && Fits(d, s.ints.Keys, s.strs.Keys)
    ensures Follows(s, r.s) && (r.s.opt == s.opt || r.s.opt.None?) && (r.s.opt.Some? ==> r.s.pos == s.pos)
    ensures r.s.pos <= s.pos + 1
    ensures r.st.Ok? || r.st == Failed(RequiresValue, who) || r.st == Failed(NotNumeric, who)
  {
    if OptArg(d) && s.opt.None? then
      Outcome(s.(ints := s.ints[d.value.addr := d.defInt]), Ok)
    else
      var g := GetArg(s, who);
      if !g.st.Ok? then Outcome(g.s, g.st)
      else
        var parsed := Decimal.Strtol(g.arg);
        var t := g.s.(ints := g.s.ints[d.value.addr := Decimal.ToCInt(parsed.0)]);
        if parsed.1 < |g.arg| then Outcome(t, Failed(NotNumeric, who)) else Outcome(t, Ok)
  }

  /** The value-taking part of get_value for an OPTION_CALLBACK entry. */
  function BindCallback(s: State, opts: seq<Descriptor>, e: int, who: OptionId, respond: Responder): (r: Outcome)
    requires Inv(s) && 0 <= e < |opts| && opts[e].kind.CallbackKind? && opts[e].callback.Some?
    ensures Follows(s, r.s) && (r.s.opt == s.opt || r.s.opt.None?) && (r.s.opt.Some? ==> r.s.pos == s.pos)
    ensures r.s.pos <= s.pos + 1
    ensures !r.st.Unknown?
  {
    var d := opts[e];
    if NoArg(d) || (OptArg(d) && s.opt.None?) then
      Invoke(s, opts, e, None, who, respond)
    else
      var g := GetArg(s, who);
      if !g.st.Ok? then Outcome(g.s, g.st) else Invoke(g.s, opts, e, Some(g.arg), who, respond)
  }

  /**
   * get_value: bind a value to the matched entry e according to its kind and
   * argument policy; `--name=value` on an entry that takes no value fails.
   */
  function GetValue(s: State, opts: seq<Descriptor>, e: int, form: Form, respond: Responder): (r: Outcome)
    requires CanBind(s, opts, e, form)
    ensures Follows(s, r.s)
    ensures r.s.opt == s.opt || r.s.opt.None?
    ensures r.s.opt.Some? ==> r.s.pos == s.pos
    ensures r.s.pos <= s.pos + 1
    ensures !r.st.Unknown?
  {
    var d := opts[e];
    var who := Who(d, form);
    if form.LongForm? && s.opt.Some? && (d.kind.IncKind? || (d.kind.CallbackKind? && NoArg(d))) then
      Outcome(s, Failed(TakesNoValue, who))
    else if d.kind.IncKind? then
      Outcome(s.(ints := s.ints[d.value.addr := s.ints[d.value.addr] + 1]), Ok)
    else if d.kind.StringKind? then
      BindString(s, d, who)
    else if d.kind.IntegerKind? then
      BindInteger(s, d, who)
    else
      BindCallback(s, opts, e, who, respond)
  }

  /** The index of the first OPT_END at or after i. */
  function EndFrom(opts: seq<Descriptor>, i: int): (m: int)
    requires IsTable(opts) && 0 <= i < |opts|
    decreases |opts| - i
    ensures i <= m < |opts| && opts[m].kind.EndKind?
    ensures forall k :: i <= k < m ==> !opts[k].kind.EndKind?
  {
    if opts[i].kind.EndKind? then i else EndFrom(opts, i + 1)
  }

  /** The scan of parse_short_opt: the first entry from i on, before OPT_END, whose short name is c. */
  function FirstShort(opts: seq<Descriptor>, c: char, i: int): (r: Option<int>)
    requires IsTable(opts) && 0 <= i < |opts|
    decreases |opts| - i
    ensures r.Some? ==> i <= r.value < EndFrom(opts, i) && opts[r.value].shortName == c
    ensures r.Some? ==> forall k :: i <= k < r.value ==> opts[k].shortName != c
    ensures r.None? ==> forall k :: i <= k < EndFrom(opts, i) ==> opts[k].shortName != c
  {
    if opts[i].kind.EndKind? then None
    else if opts[i].shortName == c then Some(i)
    else FirstShort(opts, c, i + 1)
  }

  /**
   * The bookkeeping of num_opt in parse_short_opt: scanning from i with
   * acc remembered so far, the last OPTION_NUMBER entry before OPT_END.
   */
  function LastNumber(opts: seq<Descriptor>, i: int, acc: Option<int>): (r: Option<int>)
    requires IsTable(opts) && 0 <= i < |opts|
    decreases |opts| - i
    ensures r.None? ==> acc.None? && forall k :: i <= k < EndFrom(opts, i) ==> !opts[k].kind.NumberKind?
    ensures r.Some? ==> r == acc || (i <= r.value < EndFrom(opts, i) && opts[r.value].kind.NumberKind?)
    ensures r.Some? ==> forall k :: i <= k < EndFrom(opts, i) && opts[k].kind.NumberKind? ==> k <= r.value
  {
    if opts[i].kind.EndKind? then acc
    else LastNumber(opts, i + 1, if opts[i].kind.NumberKind? then Some(i) else acc)
  }

  /** skip_prefix: the rest of str after prefix, or NULL when str does not start with prefix. */
  function SkipPrefix(str: string, prefix: string): (r: Option<string>)
    ensures r.Some? <==> prefix <= str
    ensures r.Some? ==> prefix + r.value == str
  {
    if prefix <= str then Some(str[|prefix|..]) else None
  }

  /** An entry matches `--arg` when its long name is all of arg, or all of arg up to a '='. */
  predicate LongMatch(d: Descriptor, arg: string)
    ensures LongMatch(d, arg) ==>
      && d.longName.Some? && d.longName.value <= arg
      && (|arg| == |d.longName.value| || arg[|d.longName.value|] == '=')
  {
    && d.longName.Some?
    && var rest := SkipPrefix(arg, d.longName.value);
    && rest.Some?
    && (|rest.value| == 0 || rest.value[0] == '=')
  }

  /** The scan of parse_long_opt: the first entry from i on, before OPT_END, matching arg. */
  function FirstLong(opts: seq<Descriptor>, arg: string, i: int): (r: Option<int>)
    requires IsTable(opts) && 0 <= i < |opts|
    decreases |opts| - i
    ensures r.Some? ==> i <= r.value < EndFrom(opts, i) && LongMatch(opts[r.value], arg)
    ensures r.Some? ==> forall k :: i <= k < r.value ==> !LongMatch(opts[k], arg)
    ensures r.None? ==> forall k :: i <= k < EndFrom(opts, i) ==> !LongMatch(opts[k], arg)
  {
    if opts[i].kind.EndKind? then None
    else if LongMatch(opts[i], arg) then Some(i)
    else FirstLong(opts, arg, i + 1)
  }

  /** An entry selected by a short name that is a real character can be bound. */
  lemma SelectedShortIsBindable(opts: seq<Descriptor>, c: char, i: int)
    requires IsTable(opts) && 0 <= i < |opts| && c != '\0'
    requires FirstShort(opts, c, 0) == Some(i)
    ensures Bindable(opts[i].kind)
  {
    assert WellFormed(opts[i]);
  }

  /** An entry selected by a long name can be bound. */
  lemma SelectedLongIsBindable(opts: seq<Descriptor>, arg: string, i: int)
    requires IsTable(opts) && 0 <= i < |opts|
    requires FirstLong(opts, arg, 0) == Some(i)
    ensures Bindable(opts[i].kind) && opts[i].longName.Some?
  {
    assert WellFormed(opts[i]);
  }

  /** The precondition shared by the scanning functions. */
  predicate Ready(s: State, opts: seq<Descriptor>) {
    Inv(s) && IsTable(opts) && TableFits(opts, s.ints.Keys, s.strs.Keys)
  }

  /** The pending text after the first character of a short-option group, NULL when nothing is left. */
  function Tail(t: string, n: int): Option<string>
    requires 0 <= n <= |t|
  {
    if n < |t| then Some(t[n..]) else None
  }

  /**
   * parse_short_opt on the character c->opt points at: the first entry with
   * that short name binds a value, with the rest of the group pending; else
   * a digit with an OPTION_NUMBER entry in the table passes the maximal digit
   * run to that entry's callback; else the switch is unknown.
   */
  function ShortOpt(s: State, opts: seq<Descriptor>, respond: Responder): (r: Outcome)
    requires Ready(s, opts) && s.opt.Some? && |s.opt.value| > 0
    ensures Follows(s, r.s)
    ensures r.st.Unknown? ==> r.s == s
    ensures !r.st.Unknown? && r.s.opt.Some? ==> r.s.pos == s.pos && 0 < |r.s.opt.value| < |s.opt.value|
  {
    var t := s.opt.value;
    match FirstShort(opts, t[0], 0)
    case Some(i) =>
      SelectedShortIsBindable(opts, t[0], i);
      GetValue(s.(opt := Tail(t, 1)), opts, i, ShortForm, respond)
    case None =>
      var num := LastNumber(opts, 0, None);
      if num.Some? && Decimal.IsDigit(t[0]) then
        var len := Decimal.DigitRun(t);
        Invoke(s.(opt := Tail(t, len)), opts, num.value, Some(t[..len]), NumberRun(t[..len]), respond)
      else
        Outcome(s, Unknown)
  }

  /** The do-while loop of parse_options_step over one short-option group. */
  function ShortLoop(s: State, opts: seq<Descriptor>, respond: Responder): (r: Outcome)
    requires Ready(s, opts) && s.opt.Some? && |s.opt.value| > 0
    decreases |s.opt.value|
    ensures Follows(s, r.s)
    ensures r.st.Ok? ==> r.s.opt.None?
    ensures r.st.Unknown? ==> r.s.pos == s.pos && r.s.opt.Some? && |r.s.opt.value| > 0
  {
    var o := ShortOpt(s, opts, respond);
    if !o.st.Ok? || o.s.opt.None? then o else ShortLoop(o.s, opts, respond)
  }

  /**
   * parse_long_opt on the text after `--`: the first entry whose long name
   * the text is, or starts with followed by '=', binds a value, with the text
   * after the '=' pending; nothing matching is unknown.
   */
  function LongOpt(s: State, arg: string, opts: seq<Descriptor>, respond: Responder): (r: Outcome)
    requires Ready(s, opts) && CString(arg)
    ensures Follows(s, r.s)
    ensures r.st.Unknown? <==> FirstLong(opts, arg, 0).None?
    ensures r.st.Unknown? ==> r.s == s
    ensures r.st.Ok? && s.opt.None? ==> r.s.opt.None?
  {
    match FirstLong(opts, arg, 0)
    case Some(i) =>
      SelectedLongIsBindable(opts, arg, i);
      var rest := SkipPrefix(arg, opts[i].longName.value).value;
      GetValue(if |rest| > 0 then s.(opt := Some(rest[1..])) else s, opts, i, LongForm, respond)
    case None =>
      Outcome(s, Unknown)
  }

  /** A token that is not an option: it does not start with '-', or it is "-" itself. */
  predicate IsPositional(arg: string)
    ensures IsPositional(arg) <==> |arg| == 0 || arg[0] != '-' || arg == "-"
  {
    |arg| < 2 || arg[0] != '-'
  }

  /** The increment of the token loop: `--c->argc, ++c->argv`. */
  function Advance(s: State): (t: State)
    ensures t.pos == s.pos + 1 && t.argc == s.argc - 1
    ensures t.(pos := s.pos, argc := s.argc) == s
    ensures Inv(s) && s.argc > 0 && s.opt.None? ==> Inv(t)
  {
    s.(argc := s.argc - 1, pos := s.pos + 1)
  }

  datatype Progress = Next(s: State) | Halt(s: State, st: Status)

  /** The Unknown report of parse_options can read the token and, for a switch, the offending character. */
  predicate UnknownAt(s: State) {
    && Inv(s) && s.argc > 0
    && var tok := s.buf[s.pos].value;
    && |tok| >= 2 && tok[0] == '-'
    && (tok[1] == '-' ==> |tok| > 2)
    && (tok[1] != '-' ==> s.opt.Some? && |s.opt.value| > 0)
  }

  /** A positional token: stop before it, or copy it to the write cursor. */
  function PositionalToken(s: State): (r: Progress)
    requires Inv(s) && s.argc > 0
    ensures Moves(s, r.s) && (r.Next? ==> r.s.argc < s.argc) && (r.Halt? ==> r.st.Ok?)
    ensures r.Halt? <==> s.flags & POF_STOP_AT_NON_OPTION != 0
    ensures r.Halt? ==> r.s == s
  {
    if s.flags & POF_STOP_AT_NON_OPTION != 0 then Halt(s, Ok)
    else Next(Advance(s.(buf := s.buf[s.index := s.buf[s.pos]], index := s.index + 1)))
  }

  /** A `-xyz` token: the short-option loop over "xyz". */
  function ShortToken(s: State, opts: seq<Descriptor>, respond: Responder): (r: Progress)
    requires Ready(s, opts) && s.argc > 0
    requires var arg := s.buf[s.pos].value; !IsPositional(arg) && arg[1] != '-'
    ensures Moves(s, r.s) && (r.Next? ==> r.s.argc < s.argc)
    ensures r.s.buf == s.buf && r.s.index == s.index
    ensures r.Halt? ==> !r.st.Ok?
    ensures r.Halt? && r.st.Unknown? ==> UnknownAt(r.s)
  {
    var arg := s.buf[s.pos].value;
    var o := ShortLoop(s.(opt := Some(arg[1..])), opts, respond);
    if o.st.Ok? then Next(Advance(o.s)) else Halt(o.s, o.st)
  }

  /** A `--name[=value]` token. */
  function LongToken(s: State, opts: seq<Descriptor>, respond: Responder): (r: Progress)
    requires Ready(s, opts) && s.argc > 0
    requires var arg := s.buf[s.pos].value; !IsPositional(arg) && arg[1] == '-' && |arg| > 2
    ensures Moves(s, r.s) && (r.Next? ==> r.s.argc < s.argc)
    ensures r.s.buf == s.buf && r.s.index == s.index
    ensures r.Halt? ==> !r.st.Ok?
    ensures r.Halt? && r.st.Unknown? ==> UnknownAt(r.s)
  {
    var arg := s.buf[s.pos].value;
    var o := LongOpt(s, arg[2..], opts, respond);
    if o.st.Ok? then Next(Advance(o.s)) else Halt(o.s, o.st)
  }

  /** One pass of the token loop of parse_options_step, on the token at the read cursor. */
  function Token(s: State, opts: seq<Descriptor>, respond: Responder): (r: Progress)
    requires Ready(s, opts) && s.argc > 0
    ensures Moves(s, r.s)
    ensures r.Next? ==> r.s.argc < s.argc
    ensures r.Halt? && r.st.Unknown? ==> UnknownAt(r.s)
    ensures r.Halt? || !IsPositional(s.buf[s.pos].value) ==> r.s.buf == s.buf && r.s.index == s.index
    ensures r.Next? && IsPositional(s.buf[s.pos].value) ==>
      r.s == Advance(s.(buf := s.buf[s.index := s.buf[s.pos]], index := s.index + 1))
  {
    var arg := s.buf[s.pos].value;
    if IsPositional(arg) then PositionalToken(s)
    else if arg[1] != '-' then ShortToken(s, opts, respond)
    else if |arg| == 2 then Halt(if s.flags & POF_KEEP_DASHDASH != 0 then s else Advance(s), Ok)
    else LongToken(s, opts, respond)
  }

  /** The token loop of parse_options_step, from the current read cursor to its end or a stop. */
  function Scan(s: State, opts: seq<Descriptor>, respond: Responder): (r: Outcome)
    requires Ready(s, opts)
    decreases s.argc, 1
    ensures Moves(s, r.s)
    ensures r.st.Unknown? ==> UnknownAt(r.s)
  {
    if s.argc == 0 then Outcome(s, Ok) else ScanToken(s, opts, respond)
  }

  /** The token at the read cursor, then the rest of the token loop unless it stops there. */
  function ScanToken(s: State, opts: seq<Descriptor>, respond: Responder): (r: Outcome)
    requires Ready(s, opts) && s.argc > 0
    decreases s.argc, 0
    ensures Moves(s, r.s)
    ensures r.st.Unknown? ==> UnknownAt(r.s)
  {
    match Token(s, opts, respond)
    case Next(t) => Scan(t, opts, respond)
    case Halt(t, st) => Outcome(t, st)
  }

  /** parse_options_step: clear c->opt, then run the token loop. */
  function Step(s: State, opts: seq<Descriptor>, respond: Responder): (r: Outcome)
    requires Ready(s, opts)
    ensures Moves(s, r.s)
    ensures r.st.Unknown? ==> UnknownAt(r.s)
  {
    Scan(s.(opt := None), opts, respond)
  }

  /** The caller's side of parse_options_start: argv holds argc entries and room for the NULL after them. */
  predicate ArgvOk(buf: seq<Option<string>>, argc: int) {
    && 1 <= argc < |buf|
    && forall k :: 1 <= k < argc ==> buf[k].Some? && CString(buf[k].value)
  }

  /** parse_options_start: skip argv[0]; write from slot 1 under POF_KEEP_ARGV0, else from slot 0. */
  function Start(buf: seq<Option<string>>, argc: int, flags: bv32, ints: map<Addr, int>, strs: map<Addr, Option<string>>): (s: State)
    requires ArgvOk(buf, argc)
    ensures Inv(s) && s.buf == buf && s.opt.None? && s.calls == []
    ensures s.pos == 1 && s.argc == argc - 1
    ensures s.flags == flags && s.ints == ints && s.strs == strs
    ensures s.index == (if flags & POF_KEEP_ARGV0 != 0 then 1 else 0)
  {
    State(buf, 1, argc - 1, if flags & POF_KEEP_ARGV0 != 0 then 1 else 0, None, flags, ints, strs, [])
  }

  datatype Ended = Ended(buf: seq<Option<string>>, count: int)

  /**
   * parse_options_end: move the unscanned tokens down to the write cursor,
   * NULL-terminate, and return the number of arguments left.
   */
  function End(s: State): (r: Ended)
    requires Bounds(s)
    ensures r.count == s.index + s.argc && |r.buf| == |s.buf|
    ensures forall k {:trigger r.buf[k]} :: 0 <= k < s.index ==> r.buf[k] == s.buf[k]
    ensures forall k {:trigger r.buf[k]} :: s.index <= k < r.count ==> r.buf[k] == s.buf[s.pos + (k - s.index)]
    ensures r.buf[r.count] == None
    ensures forall k {:trigger r.buf[k]} :: r.count < k < |s.buf| ==> r.buf[k] == s.buf[k]
  {
    var n := s.index + s.argc;
    var buf := seq(|s.buf|, k requires 0 <= k < |s.buf| =>
      if s.index <= k < n then s.buf[s.pos + (k - s.index)] else if k == n then None else s.buf[k]);
    Ended(buf, n)
  }

  /**
   * The effect of copying n tokens one by one from slot p up to slot i,
   * lowest first, as the token loop does with positional tokens.
   */
  function CopyDown(b: seq<Option<string>>, i: int, p: int, n: int): (c: seq<Option<string>>)
    requires 0 <= i <= p && 0 <= n && p + n <= |b|
    decreases n
    ensures |c| == |b|
  {
    if n == 0 then b else CopyDown(b[i := b[p]], i + 1, p + 1, n - 1)
  }

  /** Copying lowest first never reads a slot it has already written, so the run arrives intact. */
  lemma {:induction false} CopyDownAt(b: seq<Option<string>>, i: int, p: int, n: int, k: int)
    requires 0 <= i <= p && 0 <= n && p + n <= |b| && 0 <= k < |b|
    decreases n
    ensures CopyDown(b, i, p, n)[k] == if i <= k < i + n then b[p + (k - i)] else b[k]
  {
    if n > 0 {
      CopyDownAt(b[i := b[p]], i + 1, p + 1, n - 1, k);
    }
  }

  /**
   * parse_options_end's memmove, done one slot at a time from the lowest
   * up, as the Context method does, ends in the same argv.
   */
  lemma EndIsCopyDown(s: State)
    requires Bounds(s)
    ensures End(s).buf == CopyDown(s.buf, s.index, s.pos, s.argc)[s.index + s.argc := None]
  {
    var c := CopyDown(s.buf, s.index, s.pos, s.argc);
    var e := End(s);
    var n := s.index + s.argc;
    forall k | 0 <= k < |s.buf|
      ensures e.buf[k] == c[n := None][k]
    {
      if k != n {
        CopyDownAt(s.buf, s.index, s.pos, s.argc, k);
      }
    }
  }

  /** What parse_options writes to stderr itself. */
  datatype Diagnostic =
    | OptionError(who: OptionId, reason: Reason)   // from option_error inside the engine
    | UnknownOption(token: string)                 // "unknown option '%s'"
    | UnknownSwitch(c: char)                       // "unknown switch '%c'"

  datatype Run = Run(
    rc: int,
    printed: Option<Diagnostic>,
    buf: seq<Option<string>>,
    ints: map<Addr, int>,
    strs: map<Addr, Option<string>>,
    calls: seq<Call>)

  /** What the engine prints for a failed binding: callback failures print nothing. */
  function Report(st: Status): (d: Option<Diagnostic>)
    requires st.Failed?
    ensures d.None? <==> st.reason.CallbackFailed?
    ensures d.Some? ==> d.value == OptionError(st.who, st.reason)
  {
    if st.reason.CallbackFailed? then None else Some(OptionError(st.who, st.reason))
  }

  /** The tail of parse_options: end on success; report an unknown option or switch. */
  function Finish(o: Outcome): (r: Run)
    requires Inv(o.s) && (o.st.Unknown? ==> UnknownAt(o.s))
    ensures |r.buf| == |o.s.buf|
    ensures r.rc >= 0 || r.rc == POE_ERROR || r.rc == POE_OPTION_UNKNOWN
    ensures r.rc >= 0 <==> o.st.Ok?
    ensures r.rc >= 0 ==> r.printed.None?
    ensures r.rc == POE_OPTION_UNKNOWN <==> o.st.Unknown?
    ensures r.rc == POE_OPTION_UNKNOWN ==> r.printed.Some? && !r.printed.value.OptionError?
    ensures r.ints == o.s.ints && r.strs == o.s.strs && r.calls == o.s.calls
    ensures o.st.Ok? ==> r.rc == End(o.s).count && r.buf == End(o.s).buf
    ensures !o.st.Ok? ==> r.buf == o.s.buf
    ensures o.st.Failed? ==> r.printed == Report(o.st)
    ensures o.st.Unknown? ==>
      var tok := o.s.buf[o.s.pos].value;
      r.printed == Some(if tok[1] == '-' then UnknownOption(tok) else UnknownSwitch(o.s.opt.value[0]))
  {
    match o.st
    case Ok =>
      var e := End(o.s);
      Run(e.count, None, e.buf, o.s.ints, o.s.strs, o.s.calls)
    case Unknown =>
      var tok := o.s.buf[o.s.pos].value;
      var d := if tok[1] == '-' then UnknownOption(tok) else UnknownSwitch(o.s.opt.value[0]);
      Run(Code(o.st), Some(d), o.s.buf, o.s.ints, o.s.strs, o.s.calls)
    case Failed(_, _) =>
      Run(Code(o.st), Report(o.st), o.s.buf, o.s.ints, o.s.strs, o.s.calls)
  }

  /** parse_options: start, step, then the tail. */
  function ParseOptions(buf: seq<Option<string>>, argc: int, opts: seq<Descriptor>, flags: bv32,
                        ints: map<Addr, int>, strs: map<Addr, Option<string>>, respond: Responder): (r: Run)
    requires ArgvOk(buf, argc) && IsTable(opts) && TableFits(opts, ints.Keys, strs.Keys)
    ensures |r.buf| == |buf|
    ensures r.rc >= 0 || r.rc == POE_ERROR || r.rc == POE_OPTION_UNKNOWN
    ensures r.rc >= 0 ==> r.printed.None?
    ensures r.rc == POE_OPTION_UNKNOWN ==> r.printed.Some? && !r.printed.value.OptionError?
  {
    Finish(Step(Start(buf, argc, flags, ints, strs), opts, respond))
  }
}

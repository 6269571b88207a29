/**
 * The imperative model of parse-options.c: struct parse_option_context as a
 * class whose methods update its cursors, write the caller's target
 * variables and compact argv in place. Each method is proved to compute
 * the function of the same name in module Engine.
 */
module ParseOptions {
  import opened Wrappers
  import opened OptionTable
  import opened Engine
  import Decimal

  /** The caller's variables that descriptors point at, by address. */
  class Bindings {
    var ints: map<Addr, int>
    var strs: map<Addr, Option<string>>

    constructor (ints: map<Addr, int>, strs: map<Addr, Option<string>>)
      ensures this.ints == ints && this.strs == strs
    {
      this.ints := ints;
      this.strs := strs;
    }
  }

  /** struct parse_option_context; c->argv is out[pos..]. */
  class Context {
    const out: array<Option<string>>
    var pos: int
    var argc: int
    var index: int
    var opt: Option<string>
    const flags: bv32
    ghost var calls: seq<Call>

    /** The context and the argv storage, with no target variables. */
    ghost function Cursor(): State
      reads this, out
    {
      State(out[..], pos, argc, index, opt, flags, map[], map[], calls)
    }

    /** Everything the engine reads and writes. */
    ghost function Snapshot(b: Bindings): State
      reads this, out, b
    {
      Cursor().(ints := b.ints, strs := b.strs)
    }

    /** parse_options_start */
    constructor Start(argc: int, argv: array<Option<string>>, flags: bv32)
      requires 1 <= argc < argv.Length
      ensures out == argv && pos == 1 && this.argc == argc - 1 && opt.None? && this.flags == flags && calls == []
      ensures index == (if flags & POF_KEEP_ARGV0 != 0 then 1 else 0)
    {
      out := argv;
      pos := 1;
      this.argc := argc - 1;
      index := if flags & POF_KEEP_ARGV0 != 0 then 1 else 0;
      opt := None;
      this.flags := flags;
      calls := [];
    }

    /** get_arg */
    method GetArg(who: OptionId, ghost b: Bindings) returns (st: Status, arg: string)
      requires Inv(Cursor())
      modifies this
      ensures var r := Engine.GetArg(old(Snapshot(b)), who);
        Snapshot(b) == r.s && st == r.st && arg == r.arg
    {
      if opt.Some? {
        arg := opt.value;
        opt := None;
        st := Ok;
      } else if argc > 1 {
        argc := argc - 1;
        pos := pos + 1;
        arg := out[pos].value;
        st := Ok;
      } else {
        st := Failed(RequiresValue, who);
        arg := "";
      }
    }

    /** opt->callback(opt, arg, 0), with the call recorded in the trace. */
    method Invoke(opts: seq<Descriptor>, e: int, arg: Option<string>, who: OptionId, ghost b: Bindings, respond: Responder)
      returns (st: Status)
      requires 0 <= e < |opts| && opts[e].callback.Some?
      modifies this
      ensures var r := Engine.Invoke(old(Snapshot(b)), opts, e, arg, who, respond);
        Snapshot(b) == r.s && st == r.st
    {
      var call := Call(opts[e].callback.value, e, arg);
      calls := calls + [call];
      st := if respond(call) != 0 then Failed(CallbackFailed, who) else Ok;
    }

    /** get_value */
    method GetValue(opts: seq<Descriptor>, e: int, form: Form, b: Bindings, respond: Responder) returns (st: Status)
      requires CanBind(Snapshot(b), opts, e, form)
      modifies this, b
      ensures var r := Engine.GetValue(old(Snapshot(b)), opts, e, form, respond);
        Snapshot(b) == r.s && st == r.st
    {
      var d := opts[e];
      var who := Who(d, form);
      if form.LongForm? && opt.Some? && (d.kind.IncKind? || (d.kind.CallbackKind? && NoArg(d))) {
        return Failed(TakesNoValue, who);
      }
      if d.kind.IncKind? {
        b.ints := b.ints[d.value.addr := b.ints[d.value.addr] + 1];
        return Ok;
      } else if d.kind.StringKind? {
        if OptArg(d) && opt.None? {
          b.strs := b.strs[d.value.addr := d.defStr];
          return Ok;
        }
        var arg;
        st, arg := GetArg(who, b);
        if st.Ok? {
          b.strs := b.strs[d.value.addr := Some(arg)];
        }
      } else if d.kind.IntegerKind? {
        if OptArg(d) && opt.None? {
          b.ints := b.ints[d.value.addr := d.defInt];
          return Ok;
        }
        var arg;
        st, arg := GetArg(who, b);
        if !st.Ok? {
          return;
        }
        var parsed := Decimal.Strtol(arg);
        b.ints := b.ints[d.value.addr := Decimal.ToCInt(parsed.0)];
        if parsed.1 < |arg| {
          return Failed(NotNumeric, who);
        }
        return Ok;
      } else {
        if NoArg(d) {
          st := Invoke(opts, e, None, who, b, respond);
          return;
        }
        if OptArg(d) && opt.None? {
          st := Invoke(opts, e, None, who, b, respond);
          return;
        }
        var arg;
        st, arg := GetArg(who, b);
        if !st.Ok? {
          return;
        }
        st := Invoke(opts, e, Some(arg), who, b, respond);
      }
    }

    /** parse_short_opt */
    method ParseShortOpt(opts: seq<Descriptor>, b: Bindings, respond: Responder) returns (st: Status)
      requires Ready(Snapshot(b), opts) && opt.Some? && |opt.value| > 0
      modifies this, b
      ensures var r := Engine.ShortOpt(old(Snapshot(b)), opts, respond);
        Snapshot(b) == r.s && st == r.st
    {
      var t := opt.value;
      var numOpt: Option<int> := None;
      var i := 0;
      while !opts[i].kind.EndKind?
        invariant 0 <= i < |opts|
        invariant FirstShort(opts, t[0], i) == FirstShort(opts, t[0], 0)
        invariant LastNumber(opts, i, numOpt) == LastNumber(opts, 0, None)
        invariant Snapshot(b) == old(Snapshot(b))
        decreases |opts| - i
      {
        if opts[i].shortName == t[0] {
          opt := if |t| > 1 then Some(t[1..]) else None;
          SelectedShortIsBindable(opts, t[0], i);
          st := GetValue(opts, i, ShortForm, b, respond);
          return;
        }
        if opts[i].kind.NumberKind? {
          numOpt := Some(i);
        }
        i := i + 1;
      }
      if numOpt.Some? && Decimal.IsDigit(t[0]) {
        var len := 1;
        while len < |t| && Decimal.IsDigit(t[len])
          invariant 1 <= len <= |t|
          invariant forall k :: 0 <= k < len ==> Decimal.IsDigit(t[k])
        {
          len := len + 1;
        }
        assert len == Decimal.DigitRun(t);
        var arg := t[..len];
        opt := if len < |t| then Some(t[len..]) else None;
        st := Invoke(opts, numOpt.value, Some(arg), NumberRun(arg), b, respond);
        return;
      }
      return Unknown;
    }

    /** parse_long_opt, on the text after the leading "--". */
    method ParseLongOpt(arg: string, opts: seq<Descriptor>, b: Bindings, respond: Responder) returns (st: Status)
      requires Ready(Snapshot(b), opts) && CString(arg)
      modifies this, b
      ensures var r := Engine.LongOpt(old(Snapshot(b)), arg, opts, respond);
        Snapshot(b) == r.s && st == r.st
    {
      var i := 0;
      while !opts[i].kind.EndKind?
        invariant 0 <= i < |opts|
        invariant FirstLong(opts, arg, i) == FirstLong(opts, arg, 0)
        invariant Snapshot(b) == old(Snapshot(b))
        decreases |opts| - i
      {
        if opts[i].longName.Some? {
          var rest := SkipPrefix(arg, opts[i].longName.value);
          if rest.Some? && (|rest.value| == 0 || rest.value[0] == '=') {
            if |rest.value| > 0 {
              opt := Some(rest.value[1..]);
            }
            SelectedLongIsBindable(opts, arg, i);
            st := GetValue(opts, i, LongForm, b, respond);
            return;
          }
        }
        i := i + 1;
      }
      return Unknown;
    }

    /** The do-while loop of parse_options_step over the short options of one `-xyz` token. */
    method ShortGroup(opts: seq<Descriptor>, b: Bindings, respond: Responder) returns (st: Status)
      requires Ready(Snapshot(b), opts) && opt.Some? && |opt.value| > 0
      modifies this, b
      ensures var r := Engine.ShortLoop(old(Snapshot(b)), opts, respond);
        Snapshot(b) == r.s && st == r.st
    {
      ghost var t0 := Snapshot(b);
      while true
        invariant Ready(Snapshot(b), opts) && opt.Some? && |opt.value| > 0
        invariant ShortLoop(Snapshot(b), opts, respond) == ShortLoop(t0, opts, respond)
        decreases |opt.value|
      {
        st := ParseShortOpt(opts, b, respond);
        if !st.Ok? || opt.None? {
          return;
        }
      }
    }

    /** One pass of the token loop of parse_options_step; `next` is false where the loop stops. */
    method TokenStep(opts: seq<Descriptor>, b: Bindings, respond: Responder) returns (next: bool, st: Status)
      requires Ready(Snapshot(b), opts) && argc > 0
      modifies this, out, b
      ensures var r := Engine.Token(old(Snapshot(b)), opts, respond);
        Snapshot(b) == r.s && next == r.Next? && (r.Halt? ==> st == r.st)
    {
      var arg := out[pos].value;
      if |arg| < 2 || arg[0] != '-' {
        // not an option, or "-"
        if flags & POF_STOP_AT_NON_OPTION != 0 {
          return false, Ok;
        }
        out[index] := out[pos];
        index := index + 1;
      } else if arg[1] != '-' {
        // a group of short options
        next, st := ShortStep(opts, b, respond);
        return;
      } else if |arg| == 2 {
        // "--"
        if flags & POF_KEEP_DASHDASH == 0 {
          argc := argc - 1;
          pos := pos + 1;
        }
        return false, Ok;
      } else {
        // a long option
        next, st := LongStep(opts, b, respond);
        return;
      }
      argc := argc - 1;
      pos := pos + 1;
      return true, Ok;
    }

    /** A `-xyz` token: the short options in it, then on to the next token. */
    method ShortStep(opts: seq<Descriptor>, b: Bindings, respond: Responder) returns (next: bool, st: Status)
      requires Ready(Snapshot(b), opts) && argc > 0
      requires var arg := out[pos].value; !IsPositional(arg) && arg[1] != '-'
      modifies this, b
      ensures var r := Engine.ShortToken(old(Snapshot(b)), opts, respond);
        Snapshot(b) == r.s && next == r.Next? && (r.Halt? ==> st == r.st)
    {
      var arg := out[pos].value;
      opt := Some(arg[1..]);
      st := ShortGroup(opts, b, respond);
      if !st.Ok? {
        return false, st;
      }
      argc := argc - 1;
      pos := pos + 1;
      return true, Ok;
    }

    /** A `--name[=value]` token, then on to the next token. */
    method LongStep(opts: seq<Descriptor>, b: Bindings, respond: Responder) returns (next: bool, st: Status)
      requires Ready(Snapshot(b), opts) && argc > 0
      requires var arg := out[pos].value; !IsPositional(arg) && arg[1] == '-' && |arg| > 2
      modifies this, b
      ensures var r := Engine.LongToken(old(Snapshot(b)), opts, respond);
        Snapshot(b) == r.s && next == r.Next? && (r.Halt? ==> st == r.st)
    {
      var arg := out[pos].value;
      st := ParseLongOpt(arg[2..], opts, b, respond);
      if !st.Ok? {
        return false, st;
      }
      argc := argc - 1;
      pos := pos + 1;
      return true, Ok;
    }

    /** parse_options_step */
    method Step(opts: seq<Descriptor>, b: Bindings, respond: Responder) returns (st: Status)
      requires Ready(Snapshot(b), opts)
      modifies this, out, b
      ensures var r := Engine.Step(old(Snapshot(b)), opts, respond);
        Snapshot(b) == r.s && st == r.st
    {
      opt := None;
      ghost var s0 := Snapshot(b);
      while argc != 0
        invariant Ready(Snapshot(b), opts)
        invariant Scan(Snapshot(b), opts, respond) == Scan(s0, opts, respond)
        decreases argc
      {
        var next;
        next, st := TokenStep(opts, b, respond);
        if !next {
          return;
        }
      }
      return Ok;
    }

    /** parse_options_end: memmove the unscanned tokens down to the write cursor and NULL-terminate. */
    method End() returns (n: int)
      requires Bounds(Cursor())
      modifies out
      ensures var e := Engine.End(old(Cursor()));
        out[..] == e.buf && n == e.count
    {
      ghost var s0 := Cursor();
      ghost var want := CopyDown(out[..], index, pos, argc);
      var dst, src, count := index, pos, argc;
      var k := 0;
      while k < count
        invariant 0 <= k <= count
        invariant CopyDown(out[..], dst + k, src + k, count - k) == want
      {
        ghost var before := out[..];
        out[dst + k] := out[src + k];
        assert out[..] == before[dst + k := before[src + k]];
        k := k + 1;
      }
      out[dst + count] := None;
      n := dst + count;
      EndIsCopyDown(s0);
    }
  }

  /** The tail of parse_options after the token loop. */
  method Finish(c: Context, st: Status, ghost b: Bindings) returns (rc: int, printed: Option<Diagnostic>)
    requires Inv(c.Cursor()) && (st.Unknown? ==> UnknownAt(c.Cursor()))
    modifies c.out
    ensures var r := Engine.Finish(Outcome(old(c.Snapshot(b)), st));
      rc == r.rc && printed == r.printed && c.out[..] == r.buf
  {
    if st.Ok? {
      rc := c.End();
      printed := None;
    } else if st.Unknown? {
      var tok := c.out[c.pos].value;
      if tok[1] == '-' {
        printed := Some(UnknownOption(tok));
      } else {
        printed := Some(UnknownSwitch(c.opt.value[0]));
      }
      rc := POE_OPTION_UNKNOWN;
    } else {
      rc := POE_ERROR;
      printed := Report(st);
    }
  }

  /** parse_options: the start, step, end composition, with the unknown-option report. */
  method ParseOptions(argc: int, argv: array<Option<string>>, opts: seq<Descriptor>, flags: bv32, b: Bindings, respond: Responder)
    returns (rc: int, printed: Option<Diagnostic>, ghost calls: seq<Call>)
    requires ArgvOk(argv[..], argc) && IsTable(opts) && TableFits(opts, b.ints.Keys, b.strs.Keys)
    modifies argv, b
    ensures var r := Engine.ParseOptions(old(argv[..]), argc, opts, flags, old(b.ints), old(b.strs), respond);
      rc == r.rc && printed == r.printed && argv[..] == r.buf && b.ints == r.ints && b.strs == r.strs && calls == r.calls
  {
    var c := new Context.Start(argc, argv, flags);
    assert c.Snapshot(b) == Engine.Start(argv[..], argc, flags, b.ints, b.strs);
    var st := c.Step(opts, b, respond);
    calls := c.calls;
    rc, printed := Finish(c, st, b);
  }
}

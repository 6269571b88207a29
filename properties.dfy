/**
 * What parse-options promises, proved about the functions of module Engine:
 * how values are acquired and bound, which descriptor a token selects, how
 * a group of short switches is consumed, and how the token loop compacts
 * argv and where it stops.
 */
module Properties {
  import opened Wrappers
  import opened OptionTable
  import opened Engine
  import Decimal

  // ---------------------------------------------------------------- value binding

  /**
   * get_arg: a pending inline value is returned and cleared; otherwise the
   * whole next token is returned and the read cursor moves onto it; with no
   * next token the result is "requires a value" and nothing changes.
   */
  lemma GetArgCases(s: State, who: OptionId)
    requires Inv(s)
    ensures var r := GetArg(s, who);
      && (s.opt.Some? ==> r.st.Ok? && r.arg == s.opt.value && r.s == s.(opt := None))
      && (s.opt.None? && s.argc > 1 ==>
            r.st.Ok? && Some(r.arg) == s.buf[s.pos + 1] && r.s == Advance(s))
      && (s.opt.None? && s.argc <= 1 ==> r.st == Failed(RequiresValue, who) && r.s == s)
  {
  }

  /**
   * OPTION_INC: every match adds exactly one to the target and changes
   * nothing else, except that `--name=value` is "takes no value" and
   * changes nothing at all.
   */
  lemma IncrementByOne(s: State, opts: seq<Descriptor>, e: int, form: Form, respond: Responder)
    requires CanBind(s, opts, e, form) && opts[e].kind.IncKind?
    ensures var r := GetValue(s, opts, e, form, respond);
      var a := opts[e].value.addr;
      if form.LongForm? && s.opt.Some? then
        r.st == Failed(TakesNoValue, LongOption(opts[e].longName.value)) && r.s == s
      else
        r.st.Ok? && r.s == s.(ints := s.ints[a := s.ints[a] + 1])
  {
  }

  /** An OPTION_NOARG callback given `--name=value` is "takes no value": it is not called. */
  lemma NoArgCallbackRejectsValue(s: State, opts: seq<Descriptor>, e: int, respond: Responder)
    requires CanBind(s, opts, e, LongForm) && opts[e].kind.CallbackKind? && NoArg(opts[e]) && s.opt.Some?
    ensures var r := GetValue(s, opts, e, LongForm, respond);
      r.st == Failed(TakesNoValue, LongOption(opts[e].longName.value)) && r.s == s
  {
  }

  /**
   * OPTION_OPTARG with no inline value: a string or integer target receives
   * the default, a callback is called with NULL, and no token is consumed.
   */
  lemma OptionalArgOmitted(s: State, opts: seq<Descriptor>, e: int, form: Form, respond: Responder)
    requires CanBind(s, opts, e, form) && OptArg(opts[e]) && s.opt.None? && !opts[e].kind.IncKind?
    ensures var r := GetValue(s, opts, e, form, respond);
      var d := opts[e];
      && r.s.pos == s.pos && r.s.argc == s.argc && r.s.buf == s.buf
      && (d.kind.StringKind? ==> r.st.Ok? && r.s == s.(strs := s.strs[d.value.addr := d.defStr]))
      && (d.kind.IntegerKind? ==> r.st.Ok? && r.s == s.(ints := s.ints[d.value.addr := d.defInt]))
      && (d.kind.CallbackKind? ==> r.s == s.(calls := s.calls + [Call(d.callback.value, e, None)]))
  {
  }

  /** An OPTION_STRING target receives the acquired text verbatim. */
  lemma StringTakesArgument(s: State, opts: seq<Descriptor>, e: int, form: Form, respond: Responder)
    requires CanBind(s, opts, e, form) && opts[e].kind.StringKind? && (s.opt.Some? || !OptArg(opts[e]))
    ensures var r := GetValue(s, opts, e, form, respond);
      var g := GetArg(s, Who(opts[e], form));
      && r.st == g.st
      && (g.st.Ok? ==> r.s == g.s.(strs := g.s.strs[opts[e].value.addr := Some(g.arg)]))
      && (!g.st.Ok? ==> r.s == s)
  {
  }

  /**
   * A callback that takes a value is called with exactly the text get_arg
   * acquires; when get_arg fails it is not called at all.
   */
  lemma CallbackReceivesArgument(s: State, opts: seq<Descriptor>, e: int, form: Form, respond: Responder)
    requires CanBind(s, opts, e, form) && opts[e].kind.CallbackKind? && !NoArg(opts[e])
    requires s.opt.Some? || !OptArg(opts[e])
    ensures var who := Who(opts[e], form);
      var g := GetArg(s, who);
      GetValue(s, opts, e, form, respond)
        == if g.st.Ok? then Invoke(g.s, opts, e, Some(g.arg), who, respond) else Outcome(g.s, g.st)
  {
  }

  /**
   * An OPTION_NOARG callback matched as a switch, or as `--name`, is called
   * with NULL; nothing is consumed and a pending rest of the group stays.
   */
  lemma NoArgCallbackGetsNull(s: State, opts: seq<Descriptor>, e: int, form: Form, respond: Responder)
    requires CanBind(s, opts, e, form) && opts[e].kind.CallbackKind? && NoArg(opts[e])
    requires form.ShortForm? || s.opt.None?
    ensures GetValue(s, opts, e, form, respond) == Invoke(s, opts, e, None, Who(opts[e], form), respond)
  {
  }

  /**
   * OPTION_INTEGER with a value V, inline or, unless the value is
   * optional, in the next token:
   * the target receives strtol's result converted to int, even when V has
   * trailing junk, and the binding succeeds exactly when strtol consumed
   * all of V, and otherwise fails with "expects a numerical value"; a
   * value in the next token is consumed, an inline one is cleared, and
   * nothing else changes.
   */
  lemma IntegerBinds(s: State, opts: seq<Descriptor>, e: int, form: Form, v: string, respond: Responder)
    requires CanBind(s, opts, e, form) && opts[e].kind.IntegerKind?
    requires s.opt == Some(v) || (!OptArg(opts[e]) && s.opt.None? && s.argc > 1 && s.buf[s.pos + 1] == Some(v))
    ensures var r := GetValue(s, opts, e, form, respond);
      && r.s.ints == s.ints[opts[e].value.addr := Decimal.ToCInt(Decimal.Strtol(v).0)]
      && (r.st.Ok? <==> Decimal.Strtol(v).1 == |v|)
      && r.s.pos == (if s.opt.Some? then s.pos else s.pos + 1)
      && (!r.st.Ok? ==> r.st == Failed(NotNumeric, Who(opts[e], form)))
      && r.s == GetArg(s, Who(opts[e], form)).s.(ints := s.ints[opts[e].value.addr := Decimal.ToCInt(Decimal.Strtol(v).0)])
  {
    var who := Who(opts[e], form);
    assert GetValue(s, opts, e, form, respond) == BindInteger(s, opts[e], who);
    var g := GetArg(s, who);
    assert g.st.Ok? && g.arg == v && g.s.ints == s.ints;
    assert g.s.pos == (if s.opt.Some? then s.pos else s.pos + 1);
  }

  /**
   * So the inline short form `-iV`, the separate form `-i V` and the long
   * form `--integer=V` bind the same value and succeed on the same V.
   */
  lemma IntegerFormsAgree(s: State, opts: seq<Descriptor>, e: int, v: string, respond: Responder)
    requires CanBind(s, opts, e, LongForm) && opts[e].kind.IntegerKind? && !OptArg(opts[e])
    requires s.opt.None? && s.argc > 1 && s.buf[s.pos + 1] == Some(v)
    ensures var inline := GetValue(s.(opt := Some(v)), opts, e, ShortForm, respond);
      var apart := GetValue(s, opts, e, ShortForm, respond);
      var long := GetValue(s.(opt := Some(v)), opts, e, LongForm, respond);
      && inline.s.ints == apart.s.ints == long.s.ints
      && inline.st.Ok? == apart.st.Ok? == long.st.Ok?
  {
    IntegerBinds(s.(opt := Some(v)), opts, e, ShortForm, v, respond);
    IntegerBinds(s, opts, e, ShortForm, v, respond);
    IntegerBinds(s.(opt := Some(v)), opts, e, LongForm, v, respond);
  }

  /** So `-i77`, `-i 77` and `--integer=77` all bind 77, and so does every other int written in decimal. */
  lemma IntegerNumeralBinds(s: State, opts: seq<Descriptor>, e: int, n: int, respond: Responder)
    requires Decimal.INT_MIN <= n <= Decimal.INT_MAX
    requires Inv(s) && s.opt.None? && s.argc > 1 && s.buf[s.pos + 1] == Some(Decimal.FormatInt(n))
    requires CanBind(s, opts, e, LongForm) && opts[e].kind.IntegerKind? && !OptArg(opts[e])
    ensures var v := Decimal.FormatInt(n);
      var want := s.ints[opts[e].value.addr := n];
      var inline := GetValue(s.(opt := Some(v)), opts, e, ShortForm, respond);
      var apart := GetValue(s, opts, e, ShortForm, respond);
      var long := GetValue(s.(opt := Some(v)), opts, e, LongForm, respond);
      && inline.st.Ok? && apart.st.Ok? && long.st.Ok?
      && inline.s.ints == want && apart.s.ints == want && long.s.ints == want
  {
    var v := Decimal.FormatInt(n);
    Decimal.StrtolFormatInt(n);
    IntegerBinds(s.(opt := Some(v)), opts, e, ShortForm, v, respond);
    IntegerBinds(s, opts, e, ShortForm, v, respond);
    IntegerBinds(s.(opt := Some(v)), opts, e, LongForm, v, respond);
  }

  // ---------------------------------------------------------------- descriptor matching

  /** Neither scan returns OPT_END, an entry after it, or an entry without the name looked for. */
  lemma SelectedIsNamedEntry(opts: seq<Descriptor>, c: char, arg: string)
    requires IsTable(opts) && c != '\0'
    ensures var i := FirstShort(opts, c, 0);
      i.Some? ==> && i.value < EndFrom(opts, 0) && !Unnamed(opts[i.value]) && Bindable(opts[i.value].kind)
    ensures var i := FirstLong(opts, arg, 0);
      i.Some? ==> && i.value < EndFrom(opts, 0) && !Unnamed(opts[i.value]) && Bindable(opts[i.value].kind)
  {
    var i := FirstShort(opts, c, 0);
    if i.Some? {
      SelectedShortIsBindable(opts, c, i.value);
    }
    var j := FirstLong(opts, arg, 0);
    if j.Some? {
      SelectedLongIsBindable(opts, arg, j.value);
    }
  }

  /**
   * A long name matches the text after `--` exactly when the text is the
   * name or starts with the name followed by '='; a name that is only a
   * prefix of a longer word does not match, and an entry without a long
   * name never does.
   */
  lemma LongMatchIff(d: Descriptor, arg: string)
    ensures LongMatch(d, arg) <==>
      d.longName.Some? && (arg == d.longName.value || d.longName.value + "=" <= arg)
  {
    if d.longName.Some? {
      var name := d.longName.value;
      if name + "=" <= arg {
        assert arg[..|name|] == name;
        assert name <= arg;
        assert arg[|name|..][0] == '=';
      }
      if LongMatch(d, arg) && arg != name {
        var rest := arg[|name|..];
        assert name + rest == arg;
        assert |rest| > 0 && rest[0] == '=';
        assert (name + "=") == arg[..|name| + 1];
      }
    }
  }

  /**
   * parse_short_opt: the first entry, in table order, whose short name is the
   * current character is bound, with the rest of the group pending, or NULL
   * when the character was the last one.
   */
  lemma ShortSelectsFirst(s: State, opts: seq<Descriptor>, respond: Responder)
    requires Ready(s, opts) && s.opt.Some? && |s.opt.value| > 0
    requires FirstShort(opts, s.opt.value[0], 0).Some?
    ensures var t := s.opt.value;
      var i := FirstShort(opts, t[0], 0).value;
      var rest := if |t| > 1 then Some(t[1..]) else None;
      && i < EndFrom(opts, 0) && opts[i].shortName == t[0]
      && (forall k :: 0 <= k < i ==> opts[k].shortName != t[0])
      && CanBind(s.(opt := rest), opts, i, ShortForm)
      && ShortOpt(s, opts, respond) == GetValue(s.(opt := rest), opts, i, ShortForm, respond)
  {
    var t := s.opt.value;
    var i := FirstShort(opts, t[0], 0).value;
    SelectedShortIsBindable(opts, t[0], i);
    if |t| > 1 {
      assert CString(t[1..]);
    }
  }

  /**
   * parse_long_opt: the first entry, in table order, whose long name
   * matches is bound; after `--name=value` the text after '=' is pending,
   * after `--name` nothing is.
   */
  lemma LongSelectsFirst(s: State, arg: string, opts: seq<Descriptor>, respond: Responder)
    requires Ready(s, opts) && CString(arg) && FirstLong(opts, arg, 0).Some?
    ensures var i := FirstLong(opts, arg, 0).value;
      && i < EndFrom(opts, 0) && opts[i].longName.Some?
      && (forall k :: 0 <= k < i ==> !LongMatch(opts[k], arg))
      && var name := opts[i].longName.value;
      && (arg == name || name + "=" <= arg)
      && var t := if arg == name then s else s.(opt := Some(arg[|name| + 1 ..]));
      && CanBind(t, opts, i, LongForm)
      && LongOpt(s, arg, opts, respond) == GetValue(t, opts, i, LongForm, respond)
  {
    var i := FirstLong(opts, arg, 0).value;
    SelectedLongIsBindable(opts, arg, i);
    LongMatchIff(opts[i], arg);
    var name := opts[i].longName.value;
    var rest := SkipPrefix(arg, name).value;
    assert rest == arg[|name|..];
    if arg != name {
      assert rest[1..] == arg[|name| + 1 ..];
      assert CString(arg[|name| + 1 ..]);
    }
  }

  /**
   * parse_short_opt reports an unknown switch exactly when no entry has the
   * character as its short name and the digit fallback does not apply, and
   * then it leaves c->opt at the offending character.
   */
  lemma ShortUnknownIff(s: State, opts: seq<Descriptor>, respond: Responder)
    requires Ready(s, opts) && s.opt.Some? && |s.opt.value| > 0
    ensures var c := s.opt.value[0];
      var r := ShortOpt(s, opts, respond);
      && (r.st.Unknown? <==>
            FirstShort(opts, c, 0).None? && !(LastNumber(opts, 0, None).Some? && Decimal.IsDigit(c)))
      && (r.st.Unknown? ==> r.s == s)
  {
  }

  /**
   * The `-NUM` fallback: with no short name matching a digit, the callback of
   * the last OPTION_NUMBER entry is called with exactly the maximal digit run
   * and scanning resumes after it, NULL when the run ends the token.
   */
  lemma NumericFallback(s: State, opts: seq<Descriptor>, respond: Responder)
    requires Ready(s, opts) && s.opt.Some? && |s.opt.value| > 0
    requires FirstShort(opts, s.opt.value[0], 0).None?
    requires LastNumber(opts, 0, None).Some? && Decimal.IsDigit(s.opt.value[0])
    ensures var t := s.opt.value;
      var n := LastNumber(opts, 0, None).value;
      var len := Decimal.DigitRun(t);
      var r := ShortOpt(s, opts, respond);
      && 1 <= len <= |t|
      && Decimal.AllDigits(t[..len]) && (len < |t| ==> !Decimal.IsDigit(t[len]))
      && opts[n].kind.NumberKind? && !opts[n].kind.EndKind?
      && r.s == s.(opt := if len < |t| then Some(t[len..]) else None,
                   calls := s.calls + [Call(opts[n].callback.value, n, Some(t[..len]))])
      && (r.st.Ok? <==> respond(Call(opts[n].callback.value, n, Some(t[..len]))) == 0)
  {
    var n := LastNumber(opts, 0, None).value;
    assert n < EndFrom(opts, 0);
  }

  /** The string of n copies of c. */
  function Repeat(c: char, n: nat): (t: string)
    ensures |t| == n && forall k :: 0 <= k < n ==> t[k] == c
  {
    if n == 0 then "" else [c] + Repeat(c, n - 1)
  }

  /**
   * A bundle `-bb...b` of n switches that select an OPTION_INC entry adds n
   * to its target: the do-while loop runs once per character.
   */
  lemma {:induction false} IncBundle(s: State, opts: seq<Descriptor>, c: char, n: nat, e: int, respond: Responder)
    requires Ready(s, opts) && n > 0 && s.opt == Some(Repeat(c, n)) && c != '\0'
    requires FirstShort(opts, c, 0) == Some(e) && opts[e].kind.IncKind?
    decreases n
    ensures var a := opts[e].value.addr;
      var r := ShortLoop(s, opts, respond);
      r.st.Ok? && r.s == s.(opt := None, ints := s.ints[a := s.ints[a] + n])
  {
    var t := Repeat(c, n);
    var u := IncSwitch(s, opts, c, t, e, respond);
    if n > 1 {
      assert t[1..] == Repeat(c, n - 1);
      IncBundle(u, opts, c, n - 1, e, respond);
      CountOnceMore(s, u.opt, opts[e].value.addr, n);
    } else {
      assert u.opt == None;
    }
  }

  /**
   * One switch of the bundle: the OPTION_INC entry it selects counts once,
   * and the loop goes on with the rest of the bundle, if any.
   */
  lemma IncSwitch(s: State, opts: seq<Descriptor>, c: char, t: string, e: int, respond: Responder) returns (u: State)
    requires Ready(s, opts) && s.opt == Some(t) && |t| > 0 && t[0] == c
    requires FirstShort(opts, c, 0) == Some(e) && opts[e].kind.IncKind?
    ensures var a := opts[e].value.addr;
      && a in s.ints && u == s.(opt := u.opt, ints := s.ints[a := s.ints[a] + 1]) && Ready(u, opts)
      && (|t| == 1 ==> u.opt.None? && ShortLoop(s, opts, respond) == Outcome(u, Ok))
      && (|t| > 1 ==> u.opt == Some(t[1..]) && ShortLoop(s, opts, respond) == ShortLoop(u, opts, respond))
  {
    SelectedShortIsBindable(opts, c, e);
    assert Fits(opts[e], s.ints.Keys, s.strs.Keys);
    var a := opts[e].value.addr;
    u := s.(opt := Tail(t, 1), ints := s.ints[a := s.ints[a] + 1]);
    assert ShortOpt(s, opts, respond) == Outcome(u, Ok);
  }

  /**
   * A switch followed by a string switch in one token, as in `-bsstring value`:
   * the first counts, and the string target receives the rest of the token,
   * which ends the group.
   */
  lemma SwitchThenString(s: State, opts: seq<Descriptor>, t: string, e: int, f: int, respond: Responder)
    requires Ready(s, opts) && s.opt == Some(t) && |t| > 2
    requires FirstShort(opts, t[0], 0) == Some(e) && opts[e].kind.IncKind?
    requires FirstShort(opts, t[1], 0) == Some(f) && opts[f].kind.StringKind?
    ensures var a := opts[e].value.addr;
      var v := opts[f].value.addr;
      && a in s.ints && v in s.strs
      && ShortLoop(s, opts, respond)
           == Outcome(s.(opt := None, ints := s.ints[a := s.ints[a] + 1], strs := s.strs[v := Some(t[2..])]), Ok)
  {
    var u := IncSwitch(s, opts, t[0], t, e, respond);
    SelectedShortIsBindable(opts, t[1], f);
    assert Fits(opts[f], s.ints.Keys, s.strs.Keys);
    assert t[1..][0] == t[1] && t[1..][1..] == t[2..];
    var w := u.(opt := Some(t[2..]));
    assert ShortOpt(u, opts, respond) == GetValue(w, opts, f, ShortForm, respond);
    assert GetValue(w, opts, f, ShortForm, respond) == Outcome(w.(opt := None, strs := w.strs[opts[f].value.addr := Some(t[2..])]), Ok);
  }

  /** Counting once and then n - 1 more times is counting n times. */
  lemma CountOnceMore(s: State, o: Option<string>, a: Addr, n: int)
    requires a in s.ints
    ensures var u := s.(opt := o, ints := s.ints[a := s.ints[a] + 1]);
      u.(opt := None, ints := u.ints[a := u.ints[a] + (n - 1)]) == s.(opt := None, ints := s.ints[a := s.ints[a] + n])
  {
  }

  // ---------------------------------------------------------------- the token loop

  /**
   * Without POF_STOP_AT_NON_OPTION, a run of positional tokens (including
   * "-") is copied, in order, to the write cursor, and nothing else changes.
   */
  lemma {:induction false} AllPositionalCopied(s: State, opts: seq<Descriptor>, respond: Responder)
    requires Ready(s, opts) && s.flags & POF_STOP_AT_NON_OPTION == 0
    requires forall k :: s.pos <= k < s.pos + s.argc ==> IsPositional(s.buf[k].value)
    decreases s.argc
    ensures var r := Scan(s, opts, respond);
      && r.st.Ok? && r.s.argc == 0 && r.s.index == s.index + s.argc
      && r.s.ints == s.ints && r.s.strs == s.strs && r.s.calls == s.calls
      && r.s.buf == CopyDown(s.buf, s.index, s.pos, s.argc)
  {
    if s.argc > 0 {
      var t := PositionalNext(s, opts, respond);
      AllPositionalCopied(t, opts, respond);
    }
  }

  /** One positional token, without POF_STOP_AT_NON_OPTION: copied to the write cursor. */
  lemma PositionalNext(s: State, opts: seq<Descriptor>, respond: Responder) returns (t: State)
    requires Ready(s, opts) && s.argc > 0 && s.flags & POF_STOP_AT_NON_OPTION == 0
    requires IsPositional(s.buf[s.pos].value)
    ensures t == Advance(s.(buf := s.buf[s.index := s.buf[s.pos]], index := s.index + 1))
    ensures Scan(s, opts, respond) == Scan(t, opts, respond)
    ensures Ready(t, opts) && t.argc == s.argc - 1
    ensures forall k :: t.pos <= k < t.pos + t.argc ==> t.buf[k] == s.buf[k]
  {
    t := Advance(s.(buf := s.buf[s.index := s.buf[s.pos]], index := s.index + 1));
    assert Token(s, opts, respond) == Next(t);
  }

  /** With POF_STOP_AT_NON_OPTION, the token loop never writes argv. */
  lemma {:induction false} StopAtNonOptionKeepsArgv(s: State, opts: seq<Descriptor>, respond: Responder)
    requires Ready(s, opts) && s.flags & POF_STOP_AT_NON_OPTION != 0
    decreases s.argc
    ensures var r := Scan(s, opts, respond);
      r.s.buf == s.buf && r.s.index == s.index
  {
    if s.argc > 0 {
      match Token(s, opts, respond)
      case Next(t) =>
        StopAtNonOptionKeepsArgv(t, opts, respond);
      case Halt(t, st) =>
    }
  }

  /**
   * One token stops the loop successfully only on a positional token under
   * POF_STOP_AT_NON_OPTION or on `--`, which stays unread under
   * POF_KEEP_DASHDASH and is stepped over otherwise.
   */
  lemma TokenStops(s: State, opts: seq<Descriptor>, respond: Responder)
    requires Ready(s, opts) && s.argc > 0
    ensures var r := Token(s, opts, respond);
      r.Halt? && r.st.Ok? ==>
        || (s.flags & POF_STOP_AT_NON_OPTION != 0 && r.s == s && IsPositional(s.buf[s.pos].value))
        || (s.flags & POF_KEEP_DASHDASH != 0 && r.s == s && s.buf[s.pos] == Some("--"))
        || (s.flags & POF_KEEP_DASHDASH == 0 && r.s == Advance(s) && s.buf[s.pos] == Some("--"))
  {
    var arg := s.buf[s.pos].value;
    if !IsPositional(arg) && arg[1] == '-' && |arg| == 2 {
      assert arg == "--";
    }
  }

  /** `--` always stops the loop: it stays unread under POF_KEEP_DASHDASH and is stepped over otherwise. */
  lemma DashDashStops(s: State, opts: seq<Descriptor>, respond: Responder)
    requires Ready(s, opts) && s.argc > 0 && s.buf[s.pos] == Some("--")
    ensures Token(s, opts, respond) == Halt(if s.flags & POF_KEEP_DASHDASH != 0 then s else Advance(s), Ok)
  {
  }

  /** Under POF_STOP_AT_NON_OPTION a positional token stops the loop and stays unread. */
  lemma StopAtPositional(s: State, opts: seq<Descriptor>, respond: Responder)
    requires Ready(s, opts) && s.argc > 0 && s.flags & POF_STOP_AT_NON_OPTION != 0
    requires IsPositional(s.buf[s.pos].value)
    ensures Token(s, opts, respond) == Halt(s, Ok)
  {
  }

  /**
   * Where a successful token loop begun at s may stop at r with tokens left:
   * before a positional token under POF_STOP_AT_NON_OPTION, on a `--` kept
   * by POF_KEEP_DASHDASH, or just after a dropped `--`.
   */
  ghost predicate StopsAt(s: State, r: State)
    requires Bounds(s) && Bounds(r) && r.argc > 0 && r.buf[r.pos].Some?
  {
    || (s.flags & POF_STOP_AT_NON_OPTION != 0 && IsPositional(r.buf[r.pos].value))
    || (s.flags & POF_KEEP_DASHDASH != 0 && r.buf[r.pos] == Some("--"))
    || (s.flags & POF_KEEP_DASHDASH == 0 && s.pos < r.pos && r.buf[r.pos - 1] == Some("--"))
  }

  /** The token loop does not stop anywhere else successfully. */
  lemma {:induction false} ScanStops(s: State, opts: seq<Descriptor>, respond: Responder)
    requires Ready(s, opts)
    decreases s.argc
    ensures var r := Scan(s, opts, respond);
      r.st.Ok? && r.s.argc > 0 ==> StopsAt(s, r.s)
  {
    if s.argc > 0 {
      TokenStops(s, opts, respond);
      match Token(s, opts, respond)
      case Next(t) =>
        ScanStops(t, opts, respond);
        var r := Scan(t, opts, respond).s;
        if r.argc > 0 && StopsAt(t, r) {
          StopsAtEarlier(s, t, r);
        }
      case Halt(t, st) =>
    }
  }

  lemma StopsAtEarlier(s: State, t: State, r: State)
    requires Bounds(s) && Moves(s, t) && Moves(t, r) && r.argc > 0 && StopsAt(t, r)
    ensures StopsAt(s, r)
  {
  }

  /**
   * `a` is `b` with some entries left out, and every entry kept is a
   * positional token.
   */
  ghost predicate Picks(a: seq<Option<string>>, b: seq<Option<string>>)
    decreases |b|
  {
    if |a| == 0 then true
    else if |b| == 0 then false
    else (a[0] == b[0] && b[0].Some? && IsPositional(b[0].value) && Picks(a[1..], b[1..])) || Picks(a, b[1..])
  }

  lemma {:induction false} PicksSome(a: seq<Option<string>>, b: seq<Option<string>>)
    requires Picks(a, b)
    decreases |b|
    ensures forall k :: 0 <= k < |a| ==> a[k].Some? && IsPositional(a[k].value)
  {
    if |a| > 0 {
      if a[0] == b[0] && b[0].Some? && IsPositional(b[0].value) && Picks(a[1..], b[1..]) {
        PicksSome(a[1..], b[1..]);
        assert forall k :: 1 <= k < |a| ==> a[k] == a[1..][k - 1];
      } else {
        PicksSome(a, b[1..]);
      }
    }
  }

  lemma {:induction false} PicksSkip(a: seq<Option<string>>, c: seq<Option<string>>, b: seq<Option<string>>)
    requires Picks(a, b)
    decreases |c|
    ensures Picks(a, c + b)
  {
    if |c| > 0 {
      PicksSkip(a, c[1..], b);
      assert (c + b)[1..] == c[1..] + b;
      assert Picks(a, (c + b)[1..]);
    } else {
      assert c + b == b;
    }
  }

  /**
   * The step of CompactionOrder on plain states: what one token does to
   * argv and the cursors, and what the rest of the loop picked after it.
   */
  lemma PicksStep(s: State, t: State, r: State)
    requires Bounds(s) && s.argc > 0 && s.buf[s.pos].Some? && Moves(s, t) && Moves(t, r)
    requires IsPositional(s.buf[s.pos].value) ==>
      t == Advance(s.(buf := s.buf[s.index := s.buf[s.pos]], index := s.index + 1))
    requires !IsPositional(s.buf[s.pos].value) ==> t.buf == s.buf && t.index == s.index
    requires Picks(r.buf[t.index .. r.index], t.buf[t.pos .. r.pos])
    ensures Picks(r.buf[s.index .. r.index], s.buf[s.pos .. r.pos])
  {
    if IsPositional(s.buf[s.pos].value) {
      assert r.buf[s.index] == t.buf[s.index];
      assert t.buf[s.pos + 1 .. r.pos] == s.buf[s.pos + 1 .. r.pos];
      assert r.buf[s.index .. r.index][1..] == r.buf[s.index + 1 .. r.index];
      assert s.buf[s.pos .. r.pos][1..] == s.buf[s.pos + 1 .. r.pos];
    } else {
      PicksSkip(r.buf[s.index .. r.index], s.buf[s.pos .. t.pos], s.buf[t.pos .. r.pos]);
      assert s.buf[s.pos .. t.pos] + s.buf[t.pos .. r.pos] == s.buf[s.pos .. r.pos];
    }
  }

  /**
   * Compaction keeps order: the slots the token loop writes hold positional
   * tokens of the scanned part of the input, in their input order.
   */
  lemma {:induction false} CompactionOrder(s: State, opts: seq<Descriptor>, respond: Responder)
    requires Ready(s, opts)
    decreases s.argc
    ensures var r := Scan(s, opts, respond);
      Picks(r.s.buf[s.index .. r.s.index], s.buf[s.pos .. r.s.pos])
  {
    if s.argc > 0 {
      match Token(s, opts, respond)
      case Halt(t, st) =>
      case Next(t) =>
        CompactionOrder(t, opts, respond);
        PicksStep(s, t, Scan(t, opts, respond).s);
    }
  }

  /**
   * parse_options_end after a compacting loop from s0 to t: the count is at
   * most what was left after argv[0], every slot below it holds a token, the
   * slot at it is NULL, and the slots below the first write cursor are kept.
   */
  lemma EndAfterCompaction(s0: State, t: State)
    requires Bounds(s0) && Moves(s0, t)
    requires Picks(t.buf[s0.index .. t.index], s0.buf[s0.pos .. t.pos])
    ensures var e := End(t);
      && s0.index <= e.count <= s0.index + s0.argc && e.buf[e.count] == None
      && (forall k :: s0.index <= k < e.count ==> e.buf[k].Some?)
      && (forall k :: 0 <= k < s0.index ==> e.buf[k] == s0.buf[k])
  {
    var w := t.buf[s0.index .. t.index];
    PicksSome(w, s0.buf[s0.pos .. t.pos]);
    var e := End(t);
    forall k | s0.index <= k < t.index
      ensures e.buf[k].Some?
    {
      assert e.buf[k] == w[k - s0.index];
    }
  }

  /**
   * The return value of parse_options is the number of arguments left:
   * argv[0] under POF_KEEP_ARGV0, then non-NULL tokens up to the count,
   * then NULL; at most as many as were given.
   */
  lemma ParseOptionsReturnsCount(buf: seq<Option<string>>, argc: int, opts: seq<Descriptor>, flags: bv32,
                                 ints: map<Addr, int>, strs: map<Addr, Option<string>>, respond: Responder)
    requires ArgvOk(buf, argc) && IsTable(opts) && TableFits(opts, ints.Keys, strs.Keys)
    ensures var r := ParseOptions(buf, argc, opts, flags, ints, strs, respond);
      var start := if flags & POF_KEEP_ARGV0 != 0 then 1 else 0;
      r.rc >= 0 ==>
        && start <= r.rc <= start + argc - 1 && r.buf[r.rc] == None
        && (forall k :: start <= k < r.rc ==> r.buf[k].Some?)
        && (start == 1 ==> r.buf[0] == buf[0])
  {
    var s0 := Start(buf, argc, flags, ints, strs);
    assert s0.(opt := None) == s0;
    CompactionOrder(s0, opts, respond);
    EndAfterCompaction(s0, Scan(s0, opts, respond).s);
  }

  /**
   * parse_options_end after a loop that copied every token down: the count
   * is the number of tokens, they sit below it in order, and the slot at it is NULL.
   */
  lemma EndAfterCopy(s0: State, t: State)
    requires Bounds(s0) && Bounds(t) && t.argc == 0 && t.index == s0.index + s0.argc
    requires t.buf == CopyDown(s0.buf, s0.index, s0.pos, s0.argc)
    ensures var e := End(t);
      && e.count == s0.index + s0.argc && e.buf[e.count] == None
      && e.buf[s0.index .. e.count] == s0.buf[s0.pos .. s0.pos + s0.argc]
  {
    var e := End(t);
    forall k | s0.index <= k < e.count
      ensures e.buf[k] == s0.buf[k - s0.index + s0.pos]
    {
      CopyDownAt(s0.buf, s0.index, s0.pos, s0.argc, k);
    }
  }

  /**
   * An argv of positional tokens only (without POF_STOP_AT_NON_OPTION) comes
   * back as itself, shifted down over argv[0] unless POF_KEEP_ARGV0, with no
   * target written and no callback called.
   */
  lemma AllPositionalParse(buf: seq<Option<string>>, argc: int, opts: seq<Descriptor>, flags: bv32,
                           ints: map<Addr, int>, strs: map<Addr, Option<string>>, respond: Responder)
    requires ArgvOk(buf, argc) && IsTable(opts) && TableFits(opts, ints.Keys, strs.Keys)
    requires flags & POF_STOP_AT_NON_OPTION == 0
    requires forall k :: 1 <= k < argc ==> IsPositional(buf[k].value)
    ensures var r := ParseOptions(buf, argc, opts, flags, ints, strs, respond);
      var start := if flags & POF_KEEP_ARGV0 != 0 then 1 else 0;
      && r.rc == start + argc - 1 && r.printed.None?
      && r.buf[start .. r.rc] == buf[1 .. argc]
      && r.buf[r.rc] == None
      && r.ints == ints && r.strs == strs && r.calls == []
  {
    var s0 := Start(buf, argc, flags, ints, strs);
    assert s0.(opt := None) == s0;
    AllPositionalCopied(s0, opts, respond);
    EndAfterCopy(s0, Scan(s0, opts, respond).s);
  }

  // ---------------------------------------------------------------- the unknown report

  /** u is a final part of t. */
  predicate IsSuffix(u: string, t: string) {
    |u| <= |t| && u == t[|t| - |u|..]
  }

  lemma SuffixTrans(u: string, v: string, t: string)
    requires IsSuffix(u, v) && IsSuffix(v, t)
    ensures IsSuffix(u, t)
  {
    assert t[|t| - |v|..][|v| - |u|..] == t[|t| - |u|..];
  }

  /** What parse_short_opt leaves pending is a final part of what it was given. */
  lemma ShortOptPendingSuffix(s: State, opts: seq<Descriptor>, respond: Responder)
    requires Ready(s, opts) && s.opt.Some? && |s.opt.value| > 0
    ensures var r := ShortOpt(s, opts, respond);
      r.s.opt.Some? ==> IsSuffix(r.s.opt.value, s.opt.value)
  {
  }

  /**
   * When the do-while over a group ends in an unknown switch, the pending
   * text is a final part of the group and starts with a character that no
   * entry has as its short name and that the digit fallback does not take.
   */
  lemma {:induction false} ShortLoopUnknown(s: State, opts: seq<Descriptor>, respond: Responder)
    requires Ready(s, opts) && s.opt.Some? && |s.opt.value| > 0
    decreases |s.opt.value|
    ensures var r := ShortLoop(s, opts, respond);
      r.st.Unknown? ==>
        var c := r.s.opt.value[0];
        && IsSuffix(r.s.opt.value, s.opt.value)
        && FirstShort(opts, c, 0).None? && !(LastNumber(opts, 0, None).Some? && Decimal.IsDigit(c))
  {
    var o := ShortOpt(s, opts, respond);
    ShortUnknownIff(s, opts, respond);
    if o.st.Ok? && o.s.opt.Some? {
      ShortOptPendingSuffix(s, opts, respond);
      ShortLoopUnknown(o.s, opts, respond);
      var r := ShortLoop(o.s, opts, respond);
      if r.st.Unknown? {
        SuffixTrans(r.s.opt.value, o.s.opt.value, s.opt.value);
      }
    } else if o.st.Unknown? {
      assert o.s == s;
    }
  }

  /**
   * Why a token loop ended in POE_OPTION_UNKNOWN at s: the token at the read
   * cursor is a long option no entry matches, or a group whose pending part
   * starts with a switch no entry takes.
   */
  ghost predicate UnknownCause(s: State, opts: seq<Descriptor>)
    requires UnknownAt(s) && IsTable(opts)
  {
    var tok := s.buf[s.pos].value;
    if tok[1] == '-' then FirstLong(opts, tok[2..], 0).None?
    else
      var c := s.opt.value[0];
      && IsSuffix(s.opt.value, tok[1..])
      && FirstShort(opts, c, 0).None? && !(LastNumber(opts, 0, None).Some? && Decimal.IsDigit(c))
  }

  lemma TokenUnknown(s: State, opts: seq<Descriptor>, respond: Responder)
    requires Ready(s, opts) && s.argc > 0
    ensures var r := Token(s, opts, respond);
      r.Halt? && r.st.Unknown? ==> UnknownCause(r.s, opts) && r.s.pos == s.pos && r.s.buf == s.buf
  {
    var arg := s.buf[s.pos].value;
    if !IsPositional(arg) && arg[1] != '-' {
      ShortLoopUnknown(s.(opt := Some(arg[1..])), opts, respond);
    }
  }

  /** A token loop that ends in POE_OPTION_UNKNOWN ends on the cause of it. */
  lemma {:induction false} ScanUnknown(s: State, opts: seq<Descriptor>, respond: Responder)
    requires Ready(s, opts)
    decreases s.argc
    ensures var r := Scan(s, opts, respond);
      r.st.Unknown? ==> UnknownCause(r.s, opts)
  {
    if s.argc > 0 {
      TokenUnknown(s, opts, respond);
      match Token(s, opts, respond)
      case Next(t) =>
        ScanUnknown(t, opts, respond);
      case Halt(t, st) =>
    }
  }

  /**
   * The unknown report of parse_options names what went wrong: a `--name`
   * token of argv that no entry matches, or a switch character of a `-xyz`
   * token of argv that no entry takes and the digit fallback does not take.
   */
  lemma UnknownReportNames(buf: seq<Option<string>>, argc: int, opts: seq<Descriptor>, flags: bv32,
                           ints: map<Addr, int>, strs: map<Addr, Option<string>>, respond: Responder)
    requires ArgvOk(buf, argc) && IsTable(opts) && TableFits(opts, ints.Keys, strs.Keys)
    ensures var r := ParseOptions(buf, argc, opts, flags, ints, strs, respond);
      r.rc == POE_OPTION_UNKNOWN ==>
        var d := r.printed.value;
        && !d.OptionError?
        && (d.UnknownOption? ==>
              && (exists k :: 1 <= k < argc && buf[k] == Some(d.token))
              && |d.token| > 2 && d.token[..2] == "--" && FirstLong(opts, d.token[2..], 0).None?)
        && (d.UnknownSwitch? ==>
              && (exists k :: 1 <= k < argc && buf[k].Some? && |buf[k].value| >= 2 && buf[k].value[0] == '-'
                    && buf[k].value[1] != '-' && d.c in buf[k].value[1..])
              && FirstShort(opts, d.c, 0).None? && !(LastNumber(opts, 0, None).Some? && Decimal.IsDigit(d.c)))
  {
    var s0 := Start(buf, argc, flags, ints, strs);
    assert s0.(opt := None) == s0;
    ScanUnknown(s0, opts, respond);
    var o := Scan(s0, opts, respond);
    if o.st.Unknown? {
      var t := o.s;
      var tok := t.buf[t.pos].value;
      assert t.buf[t.pos] == buf[t.pos];
      if tok[1] == '-' {
        assert tok[..2] == "--";
      } else {
        var p := t.opt.value;
        assert p[0] == tok[1..][|tok[1..]| - |p|];
      }
    }
  }
}

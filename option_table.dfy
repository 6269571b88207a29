/**
 * The option-descriptor model of parse-options.h: the option kinds, the
 * per-option argument policy, the mode flags of a parse, the negative error
 * codes, the descriptor record and the OPT_* table constructors.
 */
module OptionTable {
  import opened Wrappers

  /** enum option_type */
  datatype OptionType =
    | EndKind        // OPTION_END: terminates every table
    | GroupKind      // OPTION_GROUP: a heading for the usage text
    | NumberKind     // OPTION_NUMBER: the `-NUM` digit-run fallback
    | IncKind        // OPTION_INC: takes no argument, counts occurrences
    | StringKind     // OPTION_STRING
    | IntegerKind    // OPTION_INTEGER
    | CallbackKind   // OPTION_CALLBACK

  /** enum option_flag: the argument policy of one descriptor. */
  const OPTION_OPTARG: bv32 := 1
  const OPTION_NOARG: bv32 := 2

  /** enum parse_option_flag: the mode flags of one parse. */
  const POF_KEEP_ARGV0: bv32 := 1
  const POF_KEEP_DASHDASH: bv32 := 2
  const POF_STOP_AT_NON_OPTION: bv32 := 4

  /** The parse error codes. */
  const POE_ERROR: int := -1
  const POE_OPTION_UNKNOWN: int := -2
  const POE_NO_MEM: int := -3

  /** The address of a caller-owned variable that a descriptor writes to. */
  type Addr = nat

  /** The identity of a callback function pointer; its body is not modelled. */
  type CallbackId = nat

  /** `void* value`: nothing, an `int` variable or a `const char*` variable. */
  datatype Target = NoTarget | IntSlot(addr: Addr) | StrSlot(addr: Addr)

  /**
   * struct option. A short name of '\0' means "no short name" (the C code
   * stores 0 there); a long name of None is the NULL pointer. The union
   * def_val is kept as its two views, defStr and defInt.
   */
  datatype Descriptor = Descriptor(
    kind: OptionType,
    shortName: char,
    longName: Option<string>,
    value: Target,
    argh: Option<string>,
    help: Option<string>,
    flags: bv32,
    callback: Option<CallbackId>,
    defStr: Option<string>,
    defInt: int)

  predicate OptArg(d: Descriptor) { d.flags & OPTION_OPTARG != 0 }

  predicate NoArg(d: Descriptor) { d.flags & OPTION_NOARG != 0 }

  /** Neither value-optional nor value-forbidden: a value is required. */
  predicate RequiresArg(d: Descriptor) { !OptArg(d) && !NoArg(d) }

  predicate Unnamed(d: Descriptor) { d.shortName == '\0' && d.longName.None? }

  /** The kinds that get_value knows how to bind; any other kind reaching it is fatal. */
  predicate Bindable(k: OptionType) {
    k.IncKind? || k.StringKind? || k.IntegerKind? || k.CallbackKind?
  }

  /**
   * What the OPT_* constructors guarantee of a descriptor: group and number
   * entries carry no name (so they are never selected by name), and the
   * kinds that call back have a callback.
   */
  predicate WellFormed(d: Descriptor) {
    && ((d.kind.GroupKind? || d.kind.NumberKind?) ==> Unnamed(d))
    && ((d.kind.CallbackKind? || d.kind.NumberKind?) ==> d.callback.Some?)
  }

  /** A table: well-formed entries, the last of which is OPT_END. */
  predicate IsTable(opts: seq<Descriptor>) {
    && |opts| > 0
    && opts[|opts| - 1].kind.EndKind?
    && forall i :: 0 <= i < |opts| ==> WellFormed(opts[i])
  }

  /** The target of a descriptor is a live variable of the type its kind writes. */
  predicate Fits(d: Descriptor, intKeys: set<Addr>, strKeys: set<Addr>) {
    && ((d.kind.IncKind? || d.kind.IntegerKind?) ==> d.value.IntSlot? && d.value.addr in intKeys)
    && (d.kind.StringKind? ==> d.value.StrSlot? && d.value.addr in strKeys)
  }

  predicate TableFits(opts: seq<Descriptor>, intKeys: set<Addr>, strKeys: set<Addr>) {
    forall i :: 0 <= i < |opts| ==> Fits(opts[i], intKeys, strKeys)
  }

  /** OPT_END() */
  function OptEnd(): (d: Descriptor)
    ensures d.kind.EndKind? && Unnamed(d) && WellFormed(d)
  {
    Descriptor(EndKind, '\0', None, NoTarget, None, None, 0, None, None, 0)
  }

  /** OPT_GROUP(h) */
  function OptGroup(h: string): (d: Descriptor)
    ensures d.kind.GroupKind? && Unnamed(d) && WellFormed(d) && d.help == Some(h)
  {
    Descriptor(GroupKind, '\0', None, NoTarget, None, Some(h), 0, None, None, 0)
  }

  /** OPT_INC(s, l, v, h) */
  function OptInc(s: char, l: Option<string>, v: Addr, h: string): (d: Descriptor)
    ensures d.kind.IncKind? && NoArg(d) && !OptArg(d) && WellFormed(d)
    ensures d.shortName == s && d.longName == l && Fits(d, {v}, {})
  {
    Descriptor(IncKind, s, l, IntSlot(v), None, Some(h), OPTION_NOARG, None, None, 0)
  }

  /** OPT_STRING(s, l, v, a, h) */
  function OptString(s: char, l: Option<string>, v: Addr, a: string, h: string): (d: Descriptor)
    ensures d.kind.StringKind? && RequiresArg(d) && WellFormed(d)
    ensures d.shortName == s && d.longName == l && Fits(d, {}, {v})
  {
    Descriptor(StringKind, s, l, StrSlot(v), Some(a), Some(h), 0, None, None, 0)
  }

  /** OPT_INTEGER(s, l, v, h): its argument placeholder is "n". */
  function OptInteger(s: char, l: Option<string>, v: Addr, h: string): (d: Descriptor)
    ensures d.kind.IntegerKind? && RequiresArg(d) && WellFormed(d)
    ensures d.shortName == s && d.longName == l && Fits(d, {v}, {})
  {
    Descriptor(IntegerKind, s, l, IntSlot(v), Some("n"), Some(h), 0, None, None, 0)
  }

  /** OPT_CALLBACK(s, l, v, a, h, f) */
  function OptCallback(s: char, l: Option<string>, v: Target, a: string, h: string, f: CallbackId): (d: Descriptor)
    ensures d.kind.CallbackKind? && RequiresArg(d) && WellFormed(d)
    ensures d.shortName == s && d.longName == l && d.callback == Some(f)
  {
    Descriptor(CallbackKind, s, l, v, Some(a), Some(h), 0, Some(f), None, 0)
  }

  /** OPT_NUMBER_CALLBACK(v, h, f) */
  function OptNumberCallback(v: Target, h: string, f: CallbackId): (d: Descriptor)
    ensures d.kind.NumberKind? && NoArg(d) && Unnamed(d) && WellFormed(d) && d.callback == Some(f)
  {
    Descriptor(NumberKind, '\0', None, v, None, Some(h), OPTION_NOARG, Some(f), None, 0)
  }

  /** The mode-flag word a caller builds by or-ing the POF_* bits it wants. */
  function ModeFlags(keepArgv0: bool, keepDashdash: bool, stopAtNonOption: bool): bv32 {
    (if keepArgv0 then POF_KEEP_ARGV0 else 0)
      | (if keepDashdash then POF_KEEP_DASHDASH else 0)
      | (if stopAtNonOption then POF_STOP_AT_NON_OPTION else 0)
  }

  /** The three mode flags are distinct bits: each test sees exactly its own choice. */
  lemma ModeFlagsIndependent(keepArgv0: bool, keepDashdash: bool, stopAtNonOption: bool)
    ensures var f := ModeFlags(keepArgv0, keepDashdash, stopAtNonOption);
      && ((f & POF_KEEP_ARGV0 != 0) == keepArgv0)
      && ((f & POF_KEEP_DASHDASH != 0) == keepDashdash)
      && ((f & POF_STOP_AT_NON_OPTION != 0) == stopAtNonOption)
  {
  }

  /** The argument-policy bits are distinct too, so a descriptor may carry either, both or none. */
  lemma PolicyFlagsIndependent(d: Descriptor)
    ensures d.flags == OPTION_OPTARG ==> OptArg(d) && !NoArg(d)
    ensures d.flags == OPTION_NOARG ==> NoArg(d) && !OptArg(d)
    ensures d.flags == 0 ==> RequiresArg(d)
  {
  }

  /** The error codes are distinct and negative, so none is a count of remaining arguments. */
  lemma ErrorCodesDistinct()
    ensures POE_ERROR < 0 && POE_OPTION_UNKNOWN < 0 && POE_NO_MEM < 0
    ensures POE_ERROR != POE_OPTION_UNKNOWN && POE_ERROR != POE_NO_MEM && POE_OPTION_UNKNOWN != POE_NO_MEM
  {
  }
}

/** The classes of gflags.cc: flags, their registry, the command line parser and the flag saver. */
module Gflags {
  import opened Wrappers
  import opened FlagValues
  import opened FlagSemantics
  import opened CommandLine
  import opened FlagFile

  class CommandLineFlag {
    const name: string
    const ty: ValueType
    var modified: bool
    var current: Value
    var defvalue: Value
    var validator: Option<Validator>

    ghost predicate Valid()
      reads this
    {
      TypeOf(current) == ty && TypeOf(defvalue) == ty
    }

    function State(): (s: FlagState)
      reads this
    {
      FlagState(name, ty, modified, current, defvalue, validator)
    }

    constructor (name: string, current: Value, defvalue: Value)
      requires TypeOf(current) == TypeOf(defvalue)
      ensures Valid()
      ensures State() == FlagState(name, TypeOf(current), false, current, defvalue, None)
    {
      this.name, this.ty := name, TypeOf(current);
      this.modified, this.current, this.defvalue, this.validator := false, current, defvalue, None;
    }

    method UpdateModifiedBit()
      modifies this
      ensures State() == UpdateModified(old(State()))
    {
      if !modified && current != defvalue {
        modified := true;
      }
    }

    /** Everything but the name and the type. */
    method CopyFrom(src: CommandLineFlag)
      requires src.ty == ty
      modifies this
      ensures State() == old(src.State()).(name := name)
      ensures old(src.Valid()) ==> Valid()
    {
      if modified != src.modified { modified := src.modified; }
      if current != src.current { current := src.current; }
      if defvalue != src.defvalue { defvalue := src.defvalue; }
      validator := src.validator;
    }
  }

  /** The value with which FlagValue::New starts. */
  function NewValue(ty: ValueType): (v: Value)
    ensures TypeOf(v) == ty
  {
    match ty
    case FvBool => BoolValue(false)
    case FvInt32 => Int32Value(0)
    case FvInt64 => Int64Value(0)
    case FvUInt64 => UInt64Value(0)
    case FvString => StringValue("")
  }

  lemma {:induction false} TryParseIsTyped(f: FlagState, text: string)
    ensures TryParse(f, text).Some? ==> TypeOf(TryParse(f, text).value) == f.ty
  {
    hide StrTo64, StrToU64, EqualIgnoringCase;
  }

  class FlagRegistry {
    var flags: map<string, CommandLineFlag>

    ghost predicate Valid()
      reads this, flags.Values
    {
      forall n :: n in flags ==> flags[n].name == n && flags[n].Valid()
    }

    ghost function State(): (s: map<string, FlagState>)
      reads this, flags.Values
    {
      map n | n in flags :: flags[n].State()
    }

    constructor ()
      ensures Valid() && flags == map[]
    {
      flags := map[];
    }

    /** A second flag of the same name is refused; the program stops. */
    method RegisterFlag(flag: CommandLineFlag) returns (ok: bool)
      requires Valid() && flag.Valid()
      modifies this
      ensures ok <==> flag.name !in old(flags)
      ensures ok ==> Valid() && State() == old(State())[flag.name := flag.State()]
      ensures !ok ==> flags == old(flags)
    {
      ok := flag.name !in flags;
      if ok {
        flags := flags[flag.name := flag];
      }
    }

    method FindFlagLocked(name: string) returns (flag: CommandLineFlag?)
      ensures flag == if name in flags then flags[name] else null
    {
      if name in flags { flag := flags[name]; } else { flag := null; }
    }

    /** The flag an argument is for and the text it gives it, if it gives one. */
    method SplitArgumentLocked(arg: string) returns (flag: CommandLineFlag?, key: string, text: Option<string>)
      requires Valid()
      ensures SplitArgument(arg, TypesOf(State())) == if flag == null then Unknown(key) else Known(flag.name, text)
      ensures flag != null ==> flag.name in flags && flags[flag.name] == flag && key == flag.name
    {
      var e := IndexOf(arg, '=');
      key := arg[..e];
      text := if e < |arg| then Some(arg[e + 1..]) else None;
      flag := FindFlagLocked(key);
      if flag == null && "no" <= key {
        flag := FindFlagLocked(key[2..]);
        if flag != null && flag.ty != FvBool {
          flag := null;
        }
        if flag != null {
          key := key[2..];
          text := Some("0");
        }
      }
      if flag != null && text.None? && flag.ty == FvBool {
        text := Some("1");
      }
    }

    /** Sets the value, the value if it is the default, or the default. */
    method SetFlagLocked(flag: CommandLineFlag, text: string, mode: Mode) returns (ok: bool)
      requires flag.Valid()
      modifies flag
      ensures flag.Valid()
      ensures (flag.State(), ok) == SetFlag(old(flag.State()), text, mode)
    {
      flag.UpdateModifiedBit();
      TryParseIsTyped(flag.State(), text);
      match mode
      case SetFlagsValue =>
        ok := TryParseLocked(flag, false, text);
        if ok { flag.modified := true; }
      case SetFlagIfDefault =>
        if !flag.modified {
          ok := TryParseLocked(flag, false, text);
          if ok { flag.modified := true; }
        } else {
          ok := true;
        }
      case SetFlagsDefault =>
        ok := TryParseLocked(flag, true, text);
        if ok && !flag.modified {
          var same := TryParseLocked(flag, false, text);
        }
    }
  }

  /** Parses and validates a tentative value, and only then copies it into the current or default value. */
  method TryParseLocked(flag: CommandLineFlag, intoDefault: bool, text: string) returns (ok: bool)
    requires flag.Valid()
    modifies flag
    ensures flag.Valid()
    ensures ok <==> TryParse(old(flag.State()), text).Some?
    ensures flag.State() ==
      if !ok then old(flag.State())
      else if intoDefault then old(flag.State()).(defvalue := TryParse(old(flag.State()), text).value)
      else old(flag.State()).(current := TryParse(old(flag.State()), text).value)
  {
    TryParseIsTyped(flag.State(), text);
    var tentative := ParseFrom(flag.ty, text);
    ok := tentative.Some? && (flag.validator.None? || flag.validator.value(flag.name, tentative.value));
    if ok {
      if intoDefault { flag.defvalue := tentative.value; } else { flag.current := tentative.value; }
    }
  }
}

/**
 * A command's flag set, abstracted from cobra/pflag: a map from a flag's
 * long name to its usage text, its current value (whose constructor is the
 * flag's kind) and whether the user set it on the command line.
 */
module Flags {
  import opened Wrappers

  datatype FlagValue = Str(s: string) | Bool(b: bool) {
    /** The default every filter flag is registered with: `""` or `false`. */
    predicate IsZero() {
      match this
      case Str(s) => s == ""
      case Bool(b) => !b
    }
  }

  datatype Flag = Flag(usage: string, value: FlagValue, changed: bool)

  type FlagMap = map<string, Flag>

  /** pflag's `GetString`: the value of a defined string flag, otherwise `""` (the error is dropped by every caller). */
  function GetString(flags: FlagMap, name: string): string {
    if name in flags && flags[name].value.Str? then flags[name].value.s else ""
  }

  /** pflag's `GetBool`: the value of a defined bool flag, otherwise `false`. */
  function GetBool(flags: FlagMap, name: string): bool {
    name in flags && flags[name].value.Bool? && flags[name].value.b
  }

  /** pflag's `Changed`: the flag is defined and was set on the command line. */
  predicate Changed(flags: FlagMap, name: string) {
    name in flags && flags[name].changed
  }

  /** Registration of a new, unchanged flag with its default value. */
  function Define(flags: FlagMap, name: string, usage: string, default: FlagValue): FlagMap {
    flags[name := Flag(usage, default, false)]
  }

  /**
   * pflag's `Set`, as the command line does it: a defined flag of the same
   * kind takes the new value and is marked changed; an undefined flag, or a
   * value of the wrong kind, is an error.
   */
  function Set(flags: FlagMap, name: string, value: FlagValue): Option<FlagMap> {
    if name in flags && flags[name].value.Str? == value.Str? then
      Some(flags[name := flags[name].(value := value, changed := true)])
    else None
  }
}

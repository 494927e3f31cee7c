/**
 * Target selection for the triage commands: the shared filter flags, the
 * decision between explicit email ids and filters, and the translation of
 * filter flags into the client's search criteria.
 */
module Filters {
  import opened Wrappers
  import opened Text
  import opened Dates
  import opened Flags
  import opened Root
  import opened MailClient

  /** The usage text that marks `--to` as the recipient filter rather than `move`'s destination. */
  const RecipientToUsage := "filter by recipient address/name"

  const MailboxUsage := "restrict to a specific mailbox"
  const FromUsage := "filter by sender address/name"
  const SubjectUsage := "filter by subject text"
  const BeforeUsage := "emails received before this date (RFC 3339 or YYYY-MM-DD)"
  const AfterUsage := "emails received after this date (RFC 3339 or YYYY-MM-DD)"
  const HasAttachmentUsage := "only emails with attachments"
  const UnreadUsage := "only unread messages"
  const FlaggedUsage := "only flagged messages"
  const UnflaggedUsage := "only unflagged messages"

  /** Every flag that `AddFilterFlags` may register, in registration order. */
  const FilterFlagNames: seq<string> :=
    ["mailbox", "from", "to", "subject", "before", "after", "has-attachment", "unread", "flagged", "unflagged"]

  /** The filter flags that take text; the remaining filter flags are booleans. */
  predicate IsStringFilterName(name: string) {
    name in {"mailbox", "from", "to", "subject", "before", "after"}
  }

  const ConflictMessage := "--flagged and --unflagged are mutually exclusive"
  const DateHint := "Use RFC 3339 format (e.g. 2026-01-15T00:00:00Z) or a bare date (e.g. 2026-01-15)"
  const CombinedMessage := "cannot combine email IDs with filter flags"
  const CombinedHint := "Use either email IDs or filter flags, not both"
  const NoTargetsMessage := "no emails specified"
  const NoTargetsHint := "Provide email IDs as arguments or use filter flags (e.g. --mailbox inbox --unread)"
  const NoMatchesMessage := "no emails matched the given filters"

  /** Each filter flag as registered: its usage text and zero default, never changed. */
  const FilterFlagDefinitions: FlagMap := map[
    "mailbox" := Flag(MailboxUsage, Str(""), false),
    "from" := Flag(FromUsage, Str(""), false),
    "to" := Flag(RecipientToUsage, Str(""), false),
    "subject" := Flag(SubjectUsage, Str(""), false),
    "before" := Flag(BeforeUsage, Str(""), false),
    "after" := Flag(AfterUsage, Str(""), false),
    "has-attachment" := Flag(HasAttachmentUsage, Bool(false), false),
    "unread" := Flag(UnreadUsage, Bool(false), false),
    "flagged" := Flag(FlaggedUsage, Bool(false), false),
    "unflagged" := Flag(UnflaggedUsage, Bool(false), false)]

  /**
   * A flag set on which the filter flags can be registered: none of them is
   * defined yet, except possibly `--to` (pflag panics when a flag is
   * defined twice).
   */
  predicate CanAddFilterFlags(flags: FlagMap) {
    forall name :: name in FilterFlagDefinitions && name != "to" ==> name !in flags
  }

  /**
   * The flag set after `addFilterFlags`: every filter flag is registered
   * with its zero default, except that an existing `--to` is kept as it is.
   */
  function FilterFlagsRegistered(flags: FlagMap): FlagMap
    requires CanAddFilterFlags(flags)
  {
    var withFrom := Define(Define(flags, "mailbox", MailboxUsage, Str("")), "from", FromUsage, Str(""));
    var withTo := if "to" in withFrom then withFrom else Define(withFrom, "to", RecipientToUsage, Str(""));
    var withText := Define(Define(Define(withTo, "subject", SubjectUsage, Str("")),
                                  "before", BeforeUsage, Str("")), "after", AfterUsage, Str(""));
    Define(Define(Define(Define(withText, "has-attachment", HasAttachmentUsage, Bool(false)),
                         "unread", UnreadUsage, Bool(false)), "flagged", FlaggedUsage, Bool(false)),
           "unflagged", UnflaggedUsage, Bool(false))
  }

  /**
   * Registration adds exactly the filter flags, each unchanged with its
   * zero default, and changes no flag that was already defined: in
   * particular an existing `--to` keeps its usage and value, and the
   * recipient-filter `--to` is registered only when there was none.
   */
  lemma FilterFlagsRegisteredShape(flags: FlagMap)
    requires CanAddFilterFlags(flags)
    ensures var r := FilterFlagsRegistered(flags);
            && r.Keys == flags.Keys + FilterFlagDefinitions.Keys
            && (forall name :: name in flags ==> r[name] == flags[name])
            && (forall name :: name in FilterFlagDefinitions && name !in flags ==> r[name] == FilterFlagDefinitions[name])
            && ("to" !in flags ==> r["to"].usage == RecipientToUsage)
  {
  }

  /** `--to` is the recipient filter, not `move`'s destination. */
  predicate IsRecipientToFilterFlag(flags: FlagMap) {
    "to" in flags && flags["to"].usage == RecipientToUsage
  }

  /**
   * The filter flag `name` has an effective value: the user set it, and it
   * holds a string that is not blank or the boolean `true`. A `--to` that
   * is not the recipient filter is never effective.
   */
  predicate IsEffectiveFilter(flags: FlagMap, name: string) {
    && Changed(flags, name)
    && if IsStringFilterName(name) then
         (name != "to" || IsRecipientToFilterFlag(flags)) && TrimSpace(GetString(flags, name)) != ""
       else
         GetBool(flags, name)
  }

  /** Some filter flag has an effective value. */
  predicate HasFilter(flags: FlagMap) {
    exists i | 0 <= i < |FilterFlagNames| :: IsEffectiveFilter(flags, FilterFlagNames[i])
  }

  predicate HasFlagConflict(flags: FlagMap) {
    GetBool(flags, "flagged") && GetBool(flags, "unflagged")
  }

  /**
   * `validateIDsOrFilters`: succeeds exactly when either ids or effective
   * filters are given, but not both, and `--flagged` and `--unflagged` are
   * not both true. Every failure is a `general_error`.
   */
  function ValidateIDsOrFilters(flags: FlagMap, args: seq<string>): (r: Outcome<ExitError>)
    ensures r == Pass <==> (|args| > 0 <==> !HasFilter(flags)) && !HasFlagConflict(flags)
    ensures r.Fail? ==> r.error.code == GeneralError
    ensures |args| > 0 && HasFilter(flags) ==> r == Fail(ExitError(GeneralError, CombinedMessage, CombinedHint))
    ensures |args| == 0 && !HasFilter(flags) ==> r == Fail(ExitError(GeneralError, NoTargetsMessage, NoTargetsHint))
    ensures (|args| > 0 <==> !HasFilter(flags)) && HasFlagConflict(flags) ==> r == Fail(ExitError(GeneralError, ConflictMessage, ""))
  {
    var hasIDs := |args| > 0;
    var hasFilters := HasFilter(flags);
    if hasIDs && hasFilters then Fail(ExitError(GeneralError, CombinedMessage, CombinedHint))
    else if !hasIDs && !hasFilters then Fail(ExitError(GeneralError, NoTargetsMessage, NoTargetsHint))
    else if HasFlagConflict(flags) then Fail(ExitError(GeneralError, ConflictMessage, ""))
    else Pass
  }

  /** A text filter's value, kept as given when it is not blank and dropped otherwise. */
  function NonBlankOrEmpty(s: string): string {
    if TrimSpace(s) != "" then s else ""
  }

  /** The criteria read straight from the flags: the text filters and the four booleans. */
  function FlagOptions(flags: FlagMap): SearchOptions {
    NoCriteria.(
      from := NonBlankOrEmpty(GetString(flags, "from")),
      to := if IsRecipientToFilterFlag(flags) then NonBlankOrEmpty(GetString(flags, "to")) else "",
      subject := NonBlankOrEmpty(GetString(flags, "subject")),
      hasAttachment := GetBool(flags, "has-attachment"),
      unreadOnly := GetBool(flags, "unread"),
      flaggedOnly := GetBool(flags, "flagged"),
      unflaggedOnly := GetBool(flags, "unflagged"))
  }

  function DateErrorMessage(name: string, parseError: string): string {
    "invalid --" + name + " date: " + parseError
  }

  /** The date filter `--<name>`: absent when blank, otherwise its trimmed value parsed by `ParseDate`. */
  function DateFilter(flags: FlagMap, name: string, rfc3339: string -> Result<Time, string>): Result<Option<Time>, ExitError> {
    var raw := TrimSpace(GetString(flags, name));
    if raw == "" then Ok(None)
    else
      match ParseDate(raw, rfc3339)
      case Ok(t) => Ok(Some(t))
      case Err(e) => Err(ExitError(GeneralError, DateErrorMessage(name, e), DateHint))
  }

  /** The mailbox name that option building asks the resolver about, if it gets that far. */
  function MailboxLookup(flags: FlagMap, rfc3339: string -> Result<Time, string>): Option<string> {
    var mailbox := TrimSpace(GetString(flags, "mailbox"));
    if HasFlagConflict(flags) || DateFilter(flags, "before", rfc3339).Err? || DateFilter(flags, "after", rfc3339).Err?
       || mailbox == ""
    then None
    else Some(mailbox)
  }

  function OptionToSeq<T>(o: Option<T>): seq<T> {
    if o.Some? then [o.value] else []
  }

  function ToOption<T, E>(r: Result<T, E>): Option<T> {
    if r.Ok? then Some(r.value) else None
  }

  /**
   * The outcome of `parseFilterOptions`: a conflict between `--flagged` and
   * `--unflagged` is reported before any date is parsed or any mailbox
   * resolved; then the dates, then the mailbox, each in turn, may fail.
   */
  function SearchOptionsFor(flags: FlagMap, resolve: string -> Result<string, string>,
                            rfc3339: string -> Result<Time, string>): (r: Result<SearchOptions, ExitError>)
    ensures HasFlagConflict(flags) ==> r == Err(ExitError(GeneralError, ConflictMessage, ""))
    ensures r.Ok? ==> !(r.value.flaggedOnly && r.value.unflaggedOnly)
    ensures r.Ok? && !IsRecipientToFilterFlag(flags) ==> r.value.to == ""
    ensures r.Err? && r.error.code != GeneralError ==>
              r.error.code == NotFound && MailboxLookup(flags, rfc3339).Some?
              && resolve(MailboxLookup(flags, rfc3339).value) == Err(r.error.message)
    ensures r.Ok? && TrimSpace(GetString(flags, "mailbox")) == "" ==> r.value.mailboxId == ""
  {
    if HasFlagConflict(flags) then Err(ExitError(GeneralError, ConflictMessage, ""))
    else
      match DateFilter(flags, "before", rfc3339)
      case Err(e) => Err(e)
      case Ok(before) =>
        match DateFilter(flags, "after", rfc3339)
        case Err(e) => Err(e)
        case Ok(after) =>
          var lookup := MailboxLookup(flags, rfc3339);
          if lookup.Some? && resolve(lookup.value).Err? then
            Err(ExitError(NotFound, resolve(lookup.value).error, ""))
          else
            Ok(FlagOptions(flags).(
                 before := before,
                 after := after,
                 mailboxId := if lookup.Some? then resolve(lookup.value).value else ""))
  }

  /**
   * The outcome of `resolveEmailIDs`: explicit ids as given; otherwise the
   * ids the query returns, which are never empty.
   */
  function EmailIDsFor(flags: FlagMap, args: seq<string>, resolve: string -> Result<string, string>,
                       query: SearchOptions -> Result<seq<string>, string>,
                       rfc3339: string -> Result<Time, string>): (r: Result<seq<string>, ExitError>)
    ensures |args| > 0 ==> r == Ok(args)
    ensures r.Ok? ==> |r.value| > 0
    ensures |args| == 0 && r.Ok? ==>
              SearchOptionsFor(flags, resolve, rfc3339).Ok? && query(SearchOptionsFor(flags, resolve, rfc3339).value) == Ok(r.value)
    ensures |args| == 0 && SearchOptionsFor(flags, resolve, rfc3339).Err? ==> r == Err(SearchOptionsFor(flags, resolve, rfc3339).error)
    ensures r.Err? && r.error.code == JmapError ==>
              && SearchOptionsFor(flags, resolve, rfc3339).Ok?
              && query(SearchOptionsFor(flags, resolve, rfc3339).value) == Err(r.error.message)
    ensures |args| == 0 && SearchOptionsFor(flags, resolve, rfc3339).Ok? && query(SearchOptionsFor(flags, resolve, rfc3339).value) == Ok([]) ==>
              r == Err(ExitError(NotFound, NoMatchesMessage, ""))
    ensures |args| == 0 && SearchOptionsFor(flags, resolve, rfc3339).Ok? && query(SearchOptionsFor(flags, resolve, rfc3339).value).Ok?
            && |query(SearchOptionsFor(flags, resolve, rfc3339).value).value| > 0 ==>
              r == Ok(query(SearchOptionsFor(flags, resolve, rfc3339).value).value)
    ensures |args| == 0 && SearchOptionsFor(flags, resolve, rfc3339).Ok? && query(SearchOptionsFor(flags, resolve, rfc3339).value).Err? ==>
              r == Err(ExitError(JmapError, query(SearchOptionsFor(flags, resolve, rfc3339).value).error, ""))
  {
    if |args| > 0 then Ok(args)
    else
      match SearchOptionsFor(flags, resolve, rfc3339)
      case Err(e) => Err(e)
      case Ok(opts) =>
        match query(opts)
        case Err(msg) => Err(ExitError(JmapError, msg, ""))
        case Ok(ids) => if |ids| == 0 then Err(ExitError(NotFound, NoMatchesMessage, "")) else Ok(ids)
  }

  /** A CLI command, reduced to its flag set. */
  class Command {
    var flags: FlagMap

    constructor (flags: FlagMap)
      ensures this.flags == flags
    {
      this.flags := flags;
    }

    /** `addFilterFlags`: registers the shared filter flags, leaving an existing `--to` alone. */
    method AddFilterFlags()
      requires CanAddFilterFlags(flags)
      modifies this
      ensures flags == FilterFlagsRegistered(old(flags))
    {
      flags := Define(flags, "mailbox", MailboxUsage, Str(""));
      flags := Define(flags, "from", FromUsage, Str(""));
      if "to" !in flags {
        flags := Define(flags, "to", RecipientToUsage, Str(""));
      }
      flags := Define(flags, "subject", SubjectUsage, Str(""));
      flags := Define(flags, "before", BeforeUsage, Str(""));
      flags := Define(flags, "after", AfterUsage, Str(""));
      flags := Define(flags, "has-attachment", HasAttachmentUsage, Bool(false));
      flags := Define(flags, "unread", UnreadUsage, Bool(false));
      flags := Define(flags, "flagged", FlaggedUsage, Bool(false));
      flags := Define(flags, "unflagged", UnflaggedUsage, Bool(false));
    }

    /** `hasFilterFlags`: whether some filter flag has an effective value. */
    method HasFilterFlags() returns (found: bool)
      ensures found == HasFilter(flags)
    {
      for i := 0 to |FilterFlagNames|
        invariant forall j :: 0 <= j < i ==> !IsEffectiveFilter(flags, FilterFlagNames[j])
      {
        var name := FilterFlagNames[i];
        if !Changed(flags, name) {
          continue;
        }
        if IsStringFilterName(name) {
          if name == "to" && !IsRecipientToFilterFlag(flags) {
            continue;
          }
          var value := GetString(flags, name);
          if TrimSpace(value) != "" {
            return true;
          }
        } else {
          var value := GetBool(flags, name);
          if value {
            return true;
          }
        }
      }
      return false;
    }

    /** The first part of `parseFilterOptions`: the text filters and the four booleans, field by field. */
    method ReadFlagOptions() returns (opts: SearchOptions)
      ensures opts == FlagOptions(flags)
    {
      opts := NoCriteria;
      var from := GetString(flags, "from");
      if TrimSpace(from) != "" {
        opts := opts.(from := from);
      }
      if IsRecipientToFilterFlag(flags) {
        var to := GetString(flags, "to");
        if TrimSpace(to) != "" {
          opts := opts.(to := to);
        }
      }
      var subject := GetString(flags, "subject");
      if TrimSpace(subject) != "" {
        opts := opts.(subject := subject);
      }
      opts := opts.(hasAttachment := GetBool(flags, "has-attachment"));
      opts := opts.(unreadOnly := GetBool(flags, "unread"));
      opts := opts.(flaggedOnly := GetBool(flags, "flagged"));
      opts := opts.(unflaggedOnly := GetBool(flags, "unflagged"));
    }

    /** The `--before`/`--after` step of `parseFilterOptions`: trim, then parse unless blank. */
    method ReadDateFlag(name: string, rfc3339: string -> Result<Time, string>) returns (r: Result<Option<Time>, ExitError>)
      ensures r == DateFilter(flags, name, rfc3339)
    {
      var raw := GetString(flags, name);
      if TrimSpace(raw) == "" {
        return Ok(None);
      }
      raw := TrimSpace(raw);
      var t := ParseDate(raw, rfc3339);
      if t.Err? {
        return Err(ExitError(GeneralError, DateErrorMessage(name, t.error), DateHint));
      }
      return Ok(Some(t.value));
    }

    /** `parseFilterOptions`: builds the search criteria step by step, with early error returns. */
    method ParseFilterOptions(c: Client, rfc3339: string -> Result<Time, string>) returns (r: Result<SearchOptions, ExitError>)
      modifies c`lookups
      ensures r == SearchOptionsFor(flags, c.resolveMailbox, rfc3339)
      ensures c.lookups == old(c.lookups) + OptionToSeq(MailboxLookup(flags, rfc3339))
    {
      var opts := ReadFlagOptions();
      if opts.flaggedOnly && opts.unflaggedOnly {
        return Err(ExitError(GeneralError, ConflictMessage, ""));
      }

      var before := ReadDateFlag("before", rfc3339);
      if before.Err? {
        return Err(before.error);
      }
      opts := opts.(before := before.value);

      var after := ReadDateFlag("after", rfc3339);
      if after.Err? {
        return Err(after.error);
      }
      opts := opts.(after := after.value);

      var mailboxName := GetString(flags, "mailbox");
      if TrimSpace(mailboxName) != "" {
        mailboxName := TrimSpace(mailboxName);
        var id := c.ResolveMailboxID(mailboxName);
        if id.Err? {
          return Err(ExitError(NotFound, id.error, ""));
        }
        opts := opts.(mailboxId := id.value);
      }
      return Ok(opts);
    }

    /** `resolveEmailIDs`: explicit ids pass through untouched; otherwise the filter query's ids. */
    method ResolveEmailIDs(args: seq<string>, c: Client, rfc3339: string -> Result<Time, string>)
      returns (r: Result<seq<string>, ExitError>)
      modifies c`lookups, c`queries
      ensures r == EmailIDsFor(flags, args, c.resolveMailbox, c.queryEmails, rfc3339)
      ensures |args| > 0 ==> c.lookups == old(c.lookups) && c.queries == old(c.queries)
      ensures |args| == 0 ==> c.lookups == old(c.lookups) + OptionToSeq(MailboxLookup(flags, rfc3339))
      ensures |args| == 0 ==>
                c.queries == old(c.queries) + OptionToSeq(ToOption(SearchOptionsFor(flags, c.resolveMailbox, rfc3339)))
    {
      if |args| > 0 {
        return Ok(args);
      }
      var opts := ParseFilterOptions(c, rfc3339);
      if opts.Err? {
        return Err(opts.error);
      }
      var ids := c.QueryEmailIDs(opts.value);
      if ids.Err? {
        return Err(ExitError(JmapError, ids.error, ""));
      }
      if |ids.value| == 0 {
        return Err(ExitError(NotFound, NoMatchesMessage, ""));
      }
      return Ok(ids.value);
    }
  }
}

/**
 * The scenarios of the filter unit tests, stated over the model: a test
 * command gets the filter flags registered (after `move`'s destination
 * `--to` when asked for), flags are set as on the command line, and the
 * test's expectation is proved for every mailbox resolver and every
 * RFC 3339 parser.
 */
module FilterScenarios {
  import opened Wrappers
  import opened Text
  import opened Dates
  import opened Flags
  import opened Root
  import opened MailClient
  import opened Filters
  import opened FilterProperties

  /** The usage text of `move`'s destination `--to`. */
  const DestinationToUsage := "target mailbox name or ID (required)"

  /** The flag set of the test command, optionally with the destination `--to` defined first. */
  function TestCommandFlags(withDestinationTo: bool): (r: FlagMap)
    ensures ZeroDefaults(r)
    ensures IsRecipientToFilterFlag(r) == !withDestinationTo
    ensures forall name :: name in FilterFlagDefinitions ==> name in r && !r[name].changed && r[name].value.IsZero()
    ensures r.Keys == FilterFlagDefinitions.Keys
  {
    var initial: FlagMap := if withDestinationTo then map["to" := Flag(DestinationToUsage, Str(""), false)] else map[];
    FilterFlagsRegisteredShape(initial);
    RegistrationGivesZeroDefaults(initial);
    FilterFlagsRegistered(initial)
  }

  /** How a flag set reads after one `Set` on it: the set flag holds the new value, and every other reading is as before. */
  lemma SetReadings(flags: FlagMap, name: string, value: FlagValue)
    requires Set(flags, name, value).Some?
    ensures var after := Set(flags, name, value).value;
            && GetString(after, name) == (if value.Str? then value.s else "")
            && GetBool(after, name) == (value.Bool? && value.b)
            && IsRecipientToFilterFlag(after) == IsRecipientToFilterFlag(flags)
            && forall other | other != name :: GetString(after, other) == GetString(flags, other)
                                             && GetBool(after, other) == GetBool(flags, other)
  {
  }

  /** The test command reads as empty: every string flag `""` and every boolean `false`. */
  lemma TestCommandReadsEmpty(withDestinationTo: bool)
    ensures forall name :: GetString(TestCommandFlags(withDestinationTo), name) == ""
    ensures forall name :: !GetBool(TestCommandFlags(withDestinationTo), name)
  {
    var r := TestCommandFlags(withDestinationTo);
    forall name
      ensures GetString(r, name) == "" && !GetBool(r, name)
    {
      if name in r {
        assert name in FilterFlagDefinitions;
      }
    }
  }

  /** A destination `--to` set to "Archive" is no filter. */
  lemma DestinationToIsNoFilter()
    ensures Set(TestCommandFlags(true), "to", Str("Archive")).Some?
    ensures !HasFilter(Set(TestCommandFlags(true), "to", Str("Archive")).value)
  {
    var withTo := Set(TestCommandFlags(true), "to", Str("Archive")).value;
    NothingSetIsNoFilter(withTo);
  }

  /** After the destination `--to`, `--unread=true` counts as a filter. */
  lemma UnreadAfterDestinationToIsFilter()
    ensures var withTo := Set(TestCommandFlags(true), "to", Str("Archive"));
            && withTo.Some? && Set(withTo.value, "unread", Bool(true)).Some?
            && HasFilter(Set(withTo.value, "unread", Bool(true)).value)
  {
    var withTo := Set(TestCommandFlags(true), "to", Str("Archive")).value;
    var unread := Set(withTo, "unread", Bool(true)).value;
    assert IsEffectiveFilter(unread, FilterFlagNames[7]);
  }

  /**
   * On a flag set that reads as empty apart from a destination `--to`,
   * `--unread=true` makes option building ask only for unread emails.
   */
  lemma UnreadOnlyCriterion(flags: FlagMap, resolve: string -> Result<string, string>,
                            rfc3339: string -> Result<Time, string>)
    requires !IsRecipientToFilterFlag(flags)
    requires forall name | name != "to" :: GetString(flags, name) == "" && !GetBool(flags, name)
    requires Set(flags, "unread", Bool(true)).Some?
    ensures SearchOptionsFor(Set(flags, "unread", Bool(true)).value, resolve, rfc3339) == Ok(NoCriteria.(unreadOnly := true))
  {
    var unread := Set(flags, "unread", Bool(true)).value;
    SetReadings(flags, "unread", Bool(true));
    assert TrimSpace("") == "";
    BlankDatesAndMailboxGiveFlagOptions(unread, resolve, rfc3339);
    assert FlagOptions(unread) == NoCriteria.(unreadOnly := true);
  }

  /** With the destination `--to` set and `--unread=true`, option building asks only for unread emails. */
  lemma ParseFilterOptionsIgnoresMoveDestinationTo(resolve: string -> Result<string, string>,
                                                   rfc3339: string -> Result<Time, string>)
    ensures var withTo := Set(TestCommandFlags(true), "to", Str("Archive"));
            && withTo.Some? && Set(withTo.value, "unread", Bool(true)).Some?
            && SearchOptionsFor(Set(withTo.value, "unread", Bool(true)).value, resolve, rfc3339)
               == Ok(NoCriteria.(unreadOnly := true))
  {
    TestCommandReadsEmpty(true);
    SetReadings(TestCommandFlags(true), "to", Str("Archive"));
    UnreadOnlyCriterion(Set(TestCommandFlags(true), "to", Str("Archive")).value, resolve, rfc3339);
  }

  /** `--unread=false` is no filter. */
  lemma FalseUnreadIsNoFilter()
    ensures Set(TestCommandFlags(false), "unread", Bool(false)).Some?
    ensures !HasFilter(Set(TestCommandFlags(false), "unread", Bool(false)).value)
  {
    NothingSetIsNoFilter(TestCommandFlags(false));
    SetBlankOrFalseKeepsNoFilter(TestCommandFlags(false), "unread", Bool(false));
  }

  /** `--subject ""` without ids is rejected as naming no emails. */
  lemma EmptySubjectRejected()
    ensures Set(TestCommandFlags(false), "subject", Str("")).Some?
    ensures ValidateIDsOrFilters(Set(TestCommandFlags(false), "subject", Str("")).value, [])
            == Fail(ExitError(GeneralError, NoTargetsMessage, NoTargetsHint))
    ensures ValidateIDsOrFilters(Set(TestCommandFlags(false), "subject", Str("")).value, []).error.code.Name() == "general_error"
  {
    NothingSetIsNoFilter(TestCommandFlags(false));
    SetBlankOrFalseKeepsNoFilter(TestCommandFlags(false), "subject", Str(""));
  }

  /**
   * On a flag set that reads as empty and has the recipient `--to`, setting
   * `--to` to a non-blank address makes that address the only criterion.
   */
  lemma RecipientOnlyCriterion(flags: FlagMap, address: string, resolve: string -> Result<string, string>,
                               rfc3339: string -> Result<Time, string>)
    requires IsRecipientToFilterFlag(flags)
    requires forall name :: GetString(flags, name) == "" && !GetBool(flags, name)
    requires Set(flags, "to", Str(address)).Some? && !AllSpace(address)
    ensures SearchOptionsFor(Set(flags, "to", Str(address)).value, resolve, rfc3339) == Ok(NoCriteria.(to := address))
  {
    var withTo := Set(flags, "to", Str(address)).value;
    SetReadings(flags, "to", Str(address));
    assert TrimSpace("") == "";
    BlankDatesAndMailboxGiveFlagOptions(withTo, resolve, rfc3339);
    assert FlagOptions(withTo) == NoCriteria.(to := address);
  }

  /** Without a destination `--to`, `--to bob@example.com` becomes the recipient criterion. */
  lemma RecipientToFilterStillWorks(resolve: string -> Result<string, string>,
                                    rfc3339: string -> Result<Time, string>)
    ensures Set(TestCommandFlags(false), "to", Str("bob@example.com")).Some?
    ensures SearchOptionsFor(Set(TestCommandFlags(false), "to", Str("bob@example.com")).value, resolve, rfc3339)
            == Ok(NoCriteria.(to := "bob@example.com"))
  {
    assert !AllSpace("bob@example.com") by {
      assert !IsSpace("bob@example.com"[0]);
    }
    TestCommandReadsEmpty(false);
    RecipientOnlyCriterion(TestCommandFlags(false), "bob@example.com", resolve, rfc3339);
  }
}

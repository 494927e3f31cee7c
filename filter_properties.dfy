/**
 * Properties of the target-selection front end that relate its operations
 * to one another: which flags count as filters, what `--to` means on `move`,
 * and that a command that passes validation with filters never issues an
 * unconstrained query.
 */
module FilterProperties {
  import opened Wrappers
  import opened Text
  import opened Dates
  import opened Flags
  import opened Root
  import opened MailClient
  import opened Filters

  /** A blank string value or a `false` boolean never makes a flag an effective filter. */
  lemma BlankOrFalseNeverCounts(flags: FlagMap, name: string)
    requires name in flags
    requires flags[name].value == Bool(false) || (flags[name].value.Str? && AllSpace(flags[name].value.s))
    ensures !IsEffectiveFilter(flags, name)
  {
  }

  /**
   * After registration, `--to` is the recipient filter exactly when the
   * command had no `--to` of its own or already had one with the
   * recipient-filter usage; a destination `--to` is recognised as such.
   */
  lemma RecipientToAfterRegistration(flags: FlagMap)
    requires CanAddFilterFlags(flags)
    ensures IsRecipientToFilterFlag(FilterFlagsRegistered(flags))
            <==> ("to" !in flags || flags["to"].usage == RecipientToUsage)
  {
    FilterFlagsRegisteredShape(flags);
  }

  /**
   * A `--to` that is not the recipient filter (the destination of `move`)
   * is never effective, and filter detection gives the same answer as on
   * the flag set without it.
   */
  lemma DestinationToIgnoredByDetection(flags: FlagMap)
    requires !IsRecipientToFilterFlag(flags)
    ensures !IsEffectiveFilter(flags, "to")
    ensures HasFilter(flags) == HasFilter(flags - {"to"})
  {
    var rest := flags - {"to"};
    if HasFilter(flags) {
      var i :| 0 <= i < |FilterFlagNames| && IsEffectiveFilter(flags, FilterFlagNames[i]);
      assert FilterFlagNames[i] != "to";
      assert GetString(rest, FilterFlagNames[i]) == GetString(flags, FilterFlagNames[i]);
      assert IsEffectiveFilter(rest, FilterFlagNames[i]);
    }
    if HasFilter(rest) {
      var i :| 0 <= i < |FilterFlagNames| && IsEffectiveFilter(rest, FilterFlagNames[i]);
      assert FilterFlagNames[i] != "to";
      assert GetString(rest, FilterFlagNames[i]) == GetString(flags, FilterFlagNames[i]);
      assert IsEffectiveFilter(flags, FilterFlagNames[i]);
    }
  }

  /**
   * A `--to` that is not the recipient filter leaves option building
   * unchanged: the same criteria, or the same error, as without it.
   */
  lemma DestinationToIgnoredByOptions(flags: FlagMap, resolve: string -> Result<string, string>,
                                      rfc3339: string -> Result<Time, string>)
    requires !IsRecipientToFilterFlag(flags)
    ensures SearchOptionsFor(flags, resolve, rfc3339) == SearchOptionsFor(flags - {"to"}, resolve, rfc3339)
  {
    var rest := flags - {"to"};
    assert !IsRecipientToFilterFlag(rest);
    forall name | name != "to"
      ensures GetString(rest, name) == GetString(flags, name) && GetBool(rest, name) == GetBool(flags, name)
    {
    }
    SameReadingsSameOptions(flags, rest, resolve, rfc3339);
  }

  /** Option building reads the flag set only through the criteria fields, the dates, the mailbox and the conflict. */
  lemma SameReadingsSameOptions(f1: FlagMap, f2: FlagMap, resolve: string -> Result<string, string>,
                                rfc3339: string -> Result<Time, string>)
    requires FlagOptions(f1) == FlagOptions(f2)
    requires GetString(f1, "before") == GetString(f2, "before") && GetString(f1, "after") == GetString(f2, "after")
    requires GetString(f1, "mailbox") == GetString(f2, "mailbox")
    ensures SearchOptionsFor(f1, resolve, rfc3339) == SearchOptionsFor(f2, resolve, rfc3339)
  {
    assert HasFlagConflict(f1) == HasFlagConflict(f2);
    assert DateFilter(f1, "before", rfc3339) == DateFilter(f2, "before", rfc3339);
    assert DateFilter(f1, "after", rfc3339) == DateFilter(f2, "after", rfc3339);
    assert MailboxLookup(f1, rfc3339) == MailboxLookup(f2, rfc3339);
  }

  /** The date flag `--<name>` is blank, or its trimmed value parses. */
  predicate DateAccepted(flags: FlagMap, name: string, rfc3339: string -> Result<Time, string>) {
    TrimSpace(GetString(flags, name)) == "" || ParseDate(TrimSpace(GetString(flags, name)), rfc3339).Ok?
  }

  /** The `--mailbox` flag is blank, or the resolver knows its trimmed value. */
  predicate MailboxAccepted(flags: FlagMap, resolve: string -> Result<string, string>) {
    TrimSpace(GetString(flags, "mailbox")) == "" || resolve(TrimSpace(GetString(flags, "mailbox"))).Ok?
  }

  /**
   * Option building succeeds exactly when `--flagged` and `--unflagged` do
   * not conflict, both dates are blank or parse, and the mailbox is blank or
   * resolves.
   */
  lemma SearchOptionsSucceedIff(flags: FlagMap, resolve: string -> Result<string, string>,
                                rfc3339: string -> Result<Time, string>)
    ensures SearchOptionsFor(flags, resolve, rfc3339).Ok? <==>
              && !HasFlagConflict(flags)
              && DateAccepted(flags, "before", rfc3339) && DateAccepted(flags, "after", rfc3339)
              && MailboxAccepted(flags, resolve)
  {
  }

  /** Without a conflict, a `--before` value that does not parse is reported first, as a `general_error` naming the flag. */
  lemma BadBeforeDateIsGeneralError(flags: FlagMap, resolve: string -> Result<string, string>,
                                    rfc3339: string -> Result<Time, string>)
    requires !HasFlagConflict(flags) && !DateAccepted(flags, "before", rfc3339)
    ensures SearchOptionsFor(flags, resolve, rfc3339) ==
              Err(ExitError(GeneralError,
                            DateErrorMessage("before", ParseDate(TrimSpace(GetString(flags, "before")), rfc3339).error),
                            DateHint))
  {
  }

  /** After an accepted `--before`, an `--after` value that does not parse is a `general_error` naming the flag. */
  lemma BadAfterDateIsGeneralError(flags: FlagMap, resolve: string -> Result<string, string>,
                                   rfc3339: string -> Result<Time, string>)
    requires !HasFlagConflict(flags) && DateAccepted(flags, "before", rfc3339) && !DateAccepted(flags, "after", rfc3339)
    ensures SearchOptionsFor(flags, resolve, rfc3339) ==
              Err(ExitError(GeneralError,
                            DateErrorMessage("after", ParseDate(TrimSpace(GetString(flags, "after")), rfc3339).error),
                            DateHint))
  {
  }

  /**
   * Without a conflict and with both dates accepted, a resolver failure on
   * the trimmed, non-blank mailbox is a `not_found` error carrying the
   * resolver's message.
   */
  lemma ResolverFailureIsNotFound(flags: FlagMap, resolve: string -> Result<string, string>,
                                  rfc3339: string -> Result<Time, string>)
    requires !HasFlagConflict(flags)
    requires DateAccepted(flags, "before", rfc3339) && DateAccepted(flags, "after", rfc3339)
    requires TrimSpace(GetString(flags, "mailbox")) != "" && resolve(TrimSpace(GetString(flags, "mailbox"))).Err?
    ensures MailboxLookup(flags, rfc3339) == Some(TrimSpace(GetString(flags, "mailbox")))
    ensures SearchOptionsFor(flags, resolve, rfc3339) ==
              Err(ExitError(NotFound, resolve(TrimSpace(GetString(flags, "mailbox"))).error, ""))
  {
  }

  /**
   * The field rules of option building for the criteria read straight from
   * the flags: text filters are copied untrimmed when not blank, `--to`
   * only when it is the recipient filter, the four booleans verbatim.
   */
  lemma TextAndBooleanFieldRules(flags: FlagMap, resolve: string -> Result<string, string>,
                                 rfc3339: string -> Result<Time, string>)
    requires SearchOptionsFor(flags, resolve, rfc3339).Ok?
    ensures var o := SearchOptionsFor(flags, resolve, rfc3339).value;
            && o.from == (if TrimSpace(GetString(flags, "from")) != "" then GetString(flags, "from") else "")
            && o.to == (if IsRecipientToFilterFlag(flags) && TrimSpace(GetString(flags, "to")) != ""
                        then GetString(flags, "to") else "")
            && o.subject == (if TrimSpace(GetString(flags, "subject")) != "" then GetString(flags, "subject") else "")
            && o.hasAttachment == GetBool(flags, "has-attachment")
            && o.unreadOnly == GetBool(flags, "unread")
            && o.flaggedOnly == GetBool(flags, "flagged")
            && o.unflaggedOnly == GetBool(flags, "unflagged")
  {
  }

  /**
   * The field rules of option building for dates and the mailbox: dates
   * are trimmed and then parsed unless blank, and the mailbox id is the
   * resolver's answer for the trimmed name unless that is blank.
   */
  lemma DateAndMailboxFieldRules(flags: FlagMap, resolve: string -> Result<string, string>,
                                 rfc3339: string -> Result<Time, string>)
    requires SearchOptionsFor(flags, resolve, rfc3339).Ok?
    ensures var o := SearchOptionsFor(flags, resolve, rfc3339).value;
            && o.before == (if TrimSpace(GetString(flags, "before")) == "" then None
                            else Some(ParseDate(TrimSpace(GetString(flags, "before")), rfc3339).value))
            && o.after == (if TrimSpace(GetString(flags, "after")) == "" then None
                           else Some(ParseDate(TrimSpace(GetString(flags, "after")), rfc3339).value))
            && o.mailboxId == (if TrimSpace(GetString(flags, "mailbox")) == "" then ""
                               else resolve(TrimSpace(GetString(flags, "mailbox"))).value)
  {
  }

  /** Without a conflict, with blank dates and a blank mailbox, option building returns the criteria read from the flags. */
  lemma BlankDatesAndMailboxGiveFlagOptions(flags: FlagMap, resolve: string -> Result<string, string>,
                                            rfc3339: string -> Result<Time, string>)
    requires !HasFlagConflict(flags)
    requires TrimSpace(GetString(flags, "before")) == "" && TrimSpace(GetString(flags, "after")) == ""
    requires TrimSpace(GetString(flags, "mailbox")) == ""
    ensures SearchOptionsFor(flags, resolve, rfc3339) == Ok(FlagOptions(flags))
  {
  }

  /**
   * The mailbox resolver is asked about the trimmed `--mailbox` value only,
   * only when it is not blank, and never after a conflict; with a blank
   * mailbox, what the resolver would answer does not matter.
   */
  lemma ResolverConsultedOnlyForMailbox(flags: FlagMap, rfc3339: string -> Result<Time, string>,
                                        resolve1: string -> Result<string, string>,
                                        resolve2: string -> Result<string, string>)
    ensures MailboxLookup(flags, rfc3339).Some? ==>
              && MailboxLookup(flags, rfc3339).value == TrimSpace(GetString(flags, "mailbox"))
              && MailboxLookup(flags, rfc3339).value != ""
              && !HasFlagConflict(flags)
    ensures TrimSpace(GetString(flags, "mailbox")) == "" ==>
              && MailboxLookup(flags, rfc3339) == None
              && SearchOptionsFor(flags, resolve1, rfc3339) == SearchOptionsFor(flags, resolve2, rfc3339)
  {
  }

  /** Every filter flag that is defined and not set still holds the zero default it was registered with. */
  ghost predicate ZeroDefaults(flags: FlagMap) {
    forall name :: name in FilterFlagDefinitions && name in flags && !flags[name].changed
                   && (name != "to" || IsRecipientToFilterFlag(flags))
                   ==> flags[name].value.IsZero()
  }

  /** The resolver never answers with an empty mailbox id. */
  ghost predicate ResolvesToNonEmptyIds(resolve: string -> Result<string, string>) {
    forall name :: resolve(name).Ok? ==> resolve(name).value != ""
  }

  /** A flag set in which no filter flag was set on the command line (a destination `--to` aside) has no filter. */
  lemma NothingSetIsNoFilter(flags: FlagMap)
    requires forall name :: name in FilterFlagDefinitions && (name != "to" || IsRecipientToFilterFlag(flags)) ==> !Changed(flags, name)
    ensures !HasFilter(flags)
  {
    forall i | 0 <= i < |FilterFlagNames|
      ensures !IsEffectiveFilter(flags, FilterFlagNames[i])
    {
      assert FilterFlagNames[i] in FilterFlagDefinitions;
    }
  }

  /** Setting a flag to a blank string or to `false` never turns a flag set without filters into one with a filter. */
  lemma SetBlankOrFalseKeepsNoFilter(flags: FlagMap, name: string, value: FlagValue)
    requires !HasFilter(flags) && Set(flags, name, value).Some?
    requires value == Bool(false) || (value.Str? && AllSpace(value.s))
    ensures !HasFilter(Set(flags, name, value).value)
  {
    var after := Set(flags, name, value).value;
    forall i | 0 <= i < |FilterFlagNames|
      ensures !IsEffectiveFilter(after, FilterFlagNames[i])
    {
      if FilterFlagNames[i] == name {
        BlankOrFalseNeverCounts(after, name);
      } else {
        assert !IsEffectiveFilter(flags, FilterFlagNames[i]);
      }
    }
  }

  /** Registration establishes `ZeroDefaults` when a recipient-filter `--to` already present was not set. */
  lemma RegistrationGivesZeroDefaults(flags: FlagMap)
    requires CanAddFilterFlags(flags)
    requires IsRecipientToFilterFlag(flags) ==> flags["to"].changed || flags["to"].value.IsZero()
    ensures ZeroDefaults(FilterFlagsRegistered(flags))
  {
    FilterFlagsRegisteredShape(flags);
  }

  /** Setting a flag on the command line keeps `ZeroDefaults`. */
  lemma SetKeepsZeroDefaults(flags: FlagMap, name: string, value: FlagValue)
    requires ZeroDefaults(flags) && Set(flags, name, value).Some?
    ensures ZeroDefaults(Set(flags, name, value).value)
  {
  }

  /** A filter flag that is not effective contributes nothing to the search criteria. */
  lemma IneffectiveFlagIsEmpty(flags: FlagMap, name: string)
    requires ZeroDefaults(flags) && name in FilterFlagDefinitions && !IsEffectiveFilter(flags, name)
    requires name != "to" || IsRecipientToFilterFlag(flags)
    ensures IsStringFilterName(name) ==> TrimSpace(GetString(flags, name)) == ""
    ensures !IsStringFilterName(name) ==> !GetBool(flags, name)
  {
    assert TrimSpace("") == "";
  }

  /** With the registered defaults in place, no effective filter means every text filter reads as blank. */
  lemma NoFilterTextBlank(flags: FlagMap)
    requires ZeroDefaults(flags) && !HasFilter(flags)
    ensures TrimSpace(GetString(flags, "mailbox")) == "" && TrimSpace(GetString(flags, "from")) == ""
    ensures IsRecipientToFilterFlag(flags) ==> TrimSpace(GetString(flags, "to")) == ""
    ensures TrimSpace(GetString(flags, "subject")) == ""
    ensures TrimSpace(GetString(flags, "before")) == "" && TrimSpace(GetString(flags, "after")) == ""
  {
    assert !IsEffectiveFilter(flags, FilterFlagNames[0]) && !IsEffectiveFilter(flags, FilterFlagNames[1]);
    assert !IsEffectiveFilter(flags, FilterFlagNames[2]) && !IsEffectiveFilter(flags, FilterFlagNames[3]);
    assert !IsEffectiveFilter(flags, FilterFlagNames[4]) && !IsEffectiveFilter(flags, FilterFlagNames[5]);
    IneffectiveFlagIsEmpty(flags, "mailbox");
    IneffectiveFlagIsEmpty(flags, "from");
    if IsRecipientToFilterFlag(flags) {
      IneffectiveFlagIsEmpty(flags, "to");
    }
    IneffectiveFlagIsEmpty(flags, "subject");
    IneffectiveFlagIsEmpty(flags, "before");
    IneffectiveFlagIsEmpty(flags, "after");
  }

  /** With the registered defaults in place, no effective filter means every boolean filter reads as false. */
  lemma NoFilterBooleansFalse(flags: FlagMap)
    requires ZeroDefaults(flags) && !HasFilter(flags)
    ensures !GetBool(flags, "has-attachment") && !GetBool(flags, "unread")
    ensures !GetBool(flags, "flagged") && !GetBool(flags, "unflagged")
  {
    assert !IsEffectiveFilter(flags, FilterFlagNames[6]) && !IsEffectiveFilter(flags, FilterFlagNames[7]);
    assert !IsEffectiveFilter(flags, FilterFlagNames[8]) && !IsEffectiveFilter(flags, FilterFlagNames[9]);
    IneffectiveFlagIsEmpty(flags, "has-attachment");
    IneffectiveFlagIsEmpty(flags, "unread");
    IneffectiveFlagIsEmpty(flags, "flagged");
    IneffectiveFlagIsEmpty(flags, "unflagged");
  }

  /** With the registered defaults in place, no effective filter means the empty search. */
  lemma NoFilterGivesNoCriteria(flags: FlagMap, resolve: string -> Result<string, string>,
                                rfc3339: string -> Result<Time, string>)
    requires ZeroDefaults(flags) && !HasFilter(flags)
    ensures SearchOptionsFor(flags, resolve, rfc3339) == Ok(NoCriteria)
  {
    NoFilterTextBlank(flags);
    NoFilterBooleansFalse(flags);
    assert FlagOptions(flags) == NoCriteria;
  }

  /**
   * An effective filter always shows up in the criteria that option
   * building returns (given a resolver that never answers with an empty
   * mailbox id): they are never the empty search.
   */
  lemma FilterGivesCriteria(flags: FlagMap, resolve: string -> Result<string, string>,
                            rfc3339: string -> Result<Time, string>)
    requires ResolvesToNonEmptyIds(resolve)
    requires HasFilter(flags) && SearchOptionsFor(flags, resolve, rfc3339).Ok?
    ensures SearchOptionsFor(flags, resolve, rfc3339).value != NoCriteria
  {
    var i :| 0 <= i < |FilterFlagNames| && IsEffectiveFilter(flags, FilterFlagNames[i]);
    if i == 0 || i == 4 || i == 5 {
      EffectiveDateOrMailboxShows(flags, resolve, rfc3339, i);
    } else {
      EffectiveTextOrBooleanShows(flags, resolve, rfc3339, i);
    }
  }

  /** An effective `--mailbox`, `--before` or `--after` leaves its trace in the criteria. */
  lemma EffectiveDateOrMailboxShows(flags: FlagMap, resolve: string -> Result<string, string>,
                                    rfc3339: string -> Result<Time, string>, i: nat)
    requires ResolvesToNonEmptyIds(resolve)
    requires i == 0 || i == 4 || i == 5
    requires IsEffectiveFilter(flags, FilterFlagNames[i]) && SearchOptionsFor(flags, resolve, rfc3339).Ok?
    ensures SearchOptionsFor(flags, resolve, rfc3339).value != NoCriteria
  {
    DateAndMailboxFieldRules(flags, resolve, rfc3339);
  }

  /** An effective text or boolean filter leaves its trace in the criteria. */
  lemma EffectiveTextOrBooleanShows(flags: FlagMap, resolve: string -> Result<string, string>,
                                    rfc3339: string -> Result<Time, string>, i: nat)
    requires i < |FilterFlagNames| && i != 0 && i != 4 && i != 5
    requires IsEffectiveFilter(flags, FilterFlagNames[i]) && SearchOptionsFor(flags, resolve, rfc3339).Ok?
    ensures SearchOptionsFor(flags, resolve, rfc3339).value != NoCriteria
  {
    TextAndBooleanFieldRules(flags, resolve, rfc3339);
    assert TrimSpace("") == "";
  }

  /**
   * A command that passes validation without explicit ids builds options
   * that are free of the flag conflict and, when building succeeds, not
   * empty: a filter-driven command never queries every email.
   */
  lemma ValidatedFiltersConstrainTheQuery(flags: FlagMap, resolve: string -> Result<string, string>,
                                          rfc3339: string -> Result<Time, string>)
    requires ZeroDefaults(flags) && ResolvesToNonEmptyIds(resolve)
    requires ValidateIDsOrFilters(flags, []) == Pass
    ensures SearchOptionsFor(flags, resolve, rfc3339) != Err(ExitError(GeneralError, ConflictMessage, ""))
    ensures SearchOptionsFor(flags, resolve, rfc3339).Ok? ==> SearchOptionsFor(flags, resolve, rfc3339).value != NoCriteria
  {
    if SearchOptionsFor(flags, resolve, rfc3339).Ok? {
      FilterGivesCriteria(flags, resolve, rfc3339);
    }
  }
}

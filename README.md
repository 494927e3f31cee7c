# fm target selection, modelled in Dafny

`fm` is a command-line client for a JMAP mail account. Its triage commands
(archive, move, flag, mark-read, ...) act on a set of emails. The user names
that set with explicit email ids, or with filter flags such as `--mailbox`,
`--from`, `--before` and `--unread`. This project models the front end that
makes that choice:

- registration of the shared filter flags on a command, without replacing a
  `--to` that the command already defines (`move`'s destination);
- detection of an *effective* filter: a string flag that is not blank or a
  boolean flag that is true, with `move`'s destination `--to` never counting;
- validation: ids or filters but not both, and never `--flagged` together
  with `--unflagged`;
- translation of the flags into the client's search criteria, with dates
  parsed as RFC 3339 timestamps or bare `YYYY-MM-DD` dates (midnight UTC) and
  the mailbox name resolved to an id by the client;
- resolution of the final id list: the ids as given, or the ids of a query,
  failing when the query matches nothing;
- the two section extractors that the documentation drift checks use to cut
  one command's part out of the CLI reference and out of the `--help`
  transcript.

Modules:

| file | module | contents |
|---|---|---|
| `wrappers.dfy` | `Wrappers` | `Option`, `Result`, `Outcome` |
| `text.dfy` | `Text` | Go's `strings.TrimSpace` and `strings.Index` over code points |
| `root.dfy` | `Root` | the structured error of `exitError`: code, message, hint |
| `dates.dfy` | `Dates` | `parseDate`; the bare-date layout in full, RFC 3339 as a parameter |
| `flags.dfy` | `Flags` | a command's flag set: name to usage, kind and value, changed |
| `mail_client.dfy` | `MailClient` | `SearchOptions` and a client whose two remote calls are parameters and are logged |
| `filters.dfy` | `Filters` | the filter front end: reference functions and the `Command` class |
| `filter_properties.dfy` | `FilterProperties` | how the operations relate to one another |
| `filter_scenarios.dfy` | `FilterScenarios` | the unit-test scenarios as lemmas |
| `docs_drift.dfy` | `DocsDrift` | the two section extractors |

The command is a class whose `flags` field `AddFilterFlags` updates in
place. `HasFilterFlags`, `ParseFilterOptions` and `ResolveEmailIDs` are its
methods. They follow the Go code step by step: the loop with `continue` and
early `return`, and the field-by-field filling of the options with early
error returns. Each is proved equal to a reference function: `HasFilter`,
`SearchOptionsFor` or `EmailIDsFor`. The properties are proved about those
functions. The client records every mailbox lookup and every query, so the
method contracts also say when the network is consulted and when it is not.

## Model

| member | source | states |
|---|---|---|
| Text.TrimSpace | cmd/filters.go:54-55 | the trimmed string is empty exactly when the input is all white space; otherwise it neither starts nor ends with white space, and it is never longer than the input |
| Text.TrimSpaceShape | cmd/filters.go:97-98 | the trimmed string is a contiguous slice of the input with only white space before and after it |
| Text.IndexOf | cmd/docs_drift_test.go:161-164 | the index of the first occurrence of the needle, or -1 exactly when there is none |
| Text.IndexOfFinds | cmd/docs_drift_test.go:161-165 | -1 exactly when the needle does not occur; otherwise the index leaves room for the whole needle |
| Text.PrefixBeforeOccurrence | cmd/docs_drift_test.go:187-192 | a prefix that ends at or before the first occurrence of a needle does not contain it |
| Dates.ParseBareDate | cmd/filters.go:184-187 | a string is accepted exactly when it has the shape DDDD-DD-DD and names a real calendar date; the result is midnight UTC of that date |
| Dates.ParseFormatBareDate | cmd/filters.go:184-187 | formatting a calendar date as YYYY-MM-DD and parsing it back gives midnight UTC of that date |
| Dates.FormatParseBareDate | cmd/filters.go:184-187 | every accepted string is the formatting of the date it yields, so the bare-date parser is injective |
| Dates.BareDateExamples | cmd/filters.go:184-187 | 2026-01-15 and 2024-02-29 parse; 2023-02-29, 1900-02-29 and a one-digit month do not |
| Dates.ParseDate | cmd/filters.go:179-189 | succeeds exactly when the RFC 3339 parse or the bare-date parse succeeds; the RFC 3339 result wins; a bare-date result is midnight UTC; a failure carries the RFC 3339 error |
| Filters.FilterFlagsRegisteredShape | cmd/filters.go:23-36 | registration adds exactly the ten filter flags, unchanged and with zero defaults, keeps every flag already defined (an existing `--to` keeps its usage and value), and gives the recipient-filter usage to `--to` when there was none |
| Filters.Command.AddFilterFlags | cmd/filters.go:23-36 | the command's flags become the registered flag set, one definition at a time, skipping `--to` when it exists |
| Root.NamesDistinct | cmd/root.go:102-105 | the printed error codes `general_error`, `not_found` and `jmap_error` are pairwise distinct |
| Filters.Command.HasFilterFlags | cmd/filters.go:42-66 | the loop answers true exactly when some filter flag is changed and effective |
| Filters.ValidateIDsOrFilters | cmd/filters.go:131-152 | passes exactly when ids and filters are not both present and not both absent and `--flagged`/`--unflagged` do not conflict; each failure is a `general_error`, and each of the three failures (both, neither, conflict) carries the program's exact message and hint |
| Filters.SearchOptionsFor | cmd/filters.go:74-127 | a flag conflict is reported before anything else; success never has both flagged and unflagged; a destination `--to` never reaches the criteria; the only non-general error is `not_found` from the resolver on the looked-up mailbox; a blank mailbox leaves the mailbox id empty |
| Filters.Command.ReadFlagOptions | cmd/filters.go:75-91 | the text and boolean criteria filled field by field equal the criteria read from the flags |
| Filters.Command.ReadDateFlag | cmd/filters.go:97-115 | the date step yields no date for a blank value, otherwise the parse of the trimmed value or a `general_error` that names the flag |
| Filters.Command.ParseFilterOptions | cmd/filters.go:74-127 | the step-by-step construction returns the reference result, and the client is asked about exactly the mailbox named by the reference lookup, or none |
| Filters.EmailIDsFor | cmd/filters.go:155-175 | ids pass through unchanged; a successful result is never empty; without ids the result is exactly the query's ids when they are non-empty and only then; option errors propagate; a query failure becomes `jmap_error` with the query's message, and only a query failure does; an empty match becomes `not_found` |
| Filters.Command.ResolveEmailIDs | cmd/filters.go:155-175 | returns the reference result; with ids, the client is not called at all; without ids, at most one lookup and at most one query happen, and the query is for the built criteria |
| MailClient.Client.ResolveMailboxID | cmd/filters.go:119 | the resolver's answer, with the lookup logged |
| MailClient.Client.QueryEmailIDs | cmd/filters.go:165 | the query's answer, with the query logged |
| FilterProperties.BlankOrFalseNeverCounts | cmd/filters.go:54-62 | a blank string or a false boolean is never an effective filter |
| Filters.IsRecipientToFilterFlag | cmd/filters.go:68-71 | `--to` is defined and carries the recipient-filter usage text; after registration this holds exactly when the command had no `--to` or had one with that usage, as FilterProperties.RecipientToAfterRegistration states |
| FilterProperties.RecipientToAfterRegistration | cmd/filters.go:26-28 | after `addFilterFlags`, `--to` is recognised as the recipient filter exactly when the command had no `--to` of its own or one with the recipient-filter usage, so a destination `--to` is never taken for a filter |
| FilterProperties.DestinationToIgnoredByDetection | cmd/filters.go:51-53 | a `--to` that is not the recipient filter is never effective, and filter detection answers as if it were absent |
| FilterProperties.DestinationToIgnoredByOptions | cmd/filters.go:80-84 | a `--to` that is not the recipient filter leaves option building exactly as if it were absent |
| FilterProperties.SearchOptionsSucceedIff | cmd/filters.go:93-126 | option building succeeds exactly when there is no flag conflict, each date is blank or parses after trimming, and the mailbox is blank or the resolver knows its trimmed name |
| FilterProperties.BadBeforeDateIsGeneralError | cmd/filters.go:97-103 | without a conflict, a `--before` that does not parse gives the `general_error` "invalid --before date: " plus the parser's error, with the date hint, whatever follows |
| FilterProperties.BadAfterDateIsGeneralError | cmd/filters.go:107-113 | without a conflict and with `--before` accepted, an `--after` that does not parse gives the `general_error` "invalid --after date: " plus the parser's error, with the date hint |
| FilterProperties.ResolverFailureIsNotFound | cmd/filters.go:117-122 | without a conflict and with both dates accepted, a resolver failure on the trimmed non-blank mailbox gives `not_found` with the resolver's message, after a lookup of exactly that name |
| FilterProperties.SameReadingsSameOptions | cmd/filters.go:74-127 | option building depends only on the text and boolean criteria, the two dates and the mailbox name |
| FilterProperties.TextAndBooleanFieldRules | cmd/filters.go:77-91 | from, to and subject are the untrimmed value when the trimmed value is not empty and empty otherwise; `to` only for the recipient filter; the four booleans are copied verbatim |
| FilterProperties.DateAndMailboxFieldRules | cmd/filters.go:97-124 | dates are trimmed then parsed unless blank; the mailbox id is the resolver's answer for the trimmed name unless it is blank |
| FilterProperties.BlankDatesAndMailboxGiveFlagOptions | cmd/filters.go:93-126 | with no conflict and blank dates and mailbox, option building succeeds with the criteria read from the flags |
| FilterProperties.ResolverConsultedOnlyForMailbox | cmd/filters.go:117-124 | the resolver is asked only about the trimmed, non-blank mailbox and never after a conflict; with a blank mailbox the resolver's behaviour does not matter |
| FilterProperties.NothingSetIsNoFilter | cmd/filters.go:42-66 | when no filter flag was set on the command line (a destination `--to` aside) there is no filter |
| FilterProperties.SetBlankOrFalseKeepsNoFilter | cmd/filters.go:39-66 | setting a flag to a blank string or to false never creates a filter |
| FilterProperties.RegistrationGivesZeroDefaults | cmd/filters.go:23-36 | after registration every unchanged filter flag holds its zero default |
| FilterProperties.SetKeepsZeroDefaults | cmd/filters.go:23-36 | setting flags on the command line keeps that invariant |
| FilterProperties.IneffectiveFlagIsEmpty | cmd/filters.go:49-63 | under that invariant an ineffective filter flag reads as blank or false |
| FilterProperties.NoFilterTextBlank | cmd/filters.go:42-66 | without an effective filter every text filter reads as blank |
| FilterProperties.NoFilterBooleansFalse | cmd/filters.go:42-66 | without an effective filter every boolean filter reads as false |
| FilterProperties.NoFilterGivesNoCriteria | cmd/filters.go:74-127 | without an effective filter, option building returns the empty criteria |
| FilterProperties.FilterGivesCriteria | cmd/filters.go:74-127 | with an effective filter, successful option building never returns the empty criteria (for a resolver that never answers an empty id) |
| FilterProperties.ValidatedFiltersConstrainTheQuery | cmd/filters.go:131-152 | a command validated without ids builds options free of the flag conflict, and never the empty criteria, so it never queries every email |
| FilterScenarios.TestCommandFlags | cmd/filters_test.go:10-17 | the test command's flags: every filter flag defined, unchanged and zero, `--to` the recipient filter exactly when no destination `--to` came first |
| FilterScenarios.DestinationToIsNoFilter | cmd/filters_test.go:19-29 | a destination `--to Archive` is no filter |
| FilterScenarios.UnreadAfterDestinationToIsFilter | cmd/filters_test.go:31-37 | then `--unread=true` is one |
| FilterScenarios.ParseFilterOptionsIgnoresMoveDestinationTo | cmd/filters_test.go:39-60 | with a destination `--to` and `--unread=true` the criteria are exactly "unread only", for every resolver and date parser |
| FilterScenarios.FalseUnreadIsNoFilter | cmd/filters_test.go:62-72 | `--unread=false` is no filter |
| FilterScenarios.EmptySubjectRejected | cmd/filters_test.go:74-85 | `--subject ""` without ids fails with `general_error` "no emails specified" and its hint, and the code prints as `general_error` |
| FilterScenarios.RecipientToFilterStillWorks | cmd/filters_test.go:87-102 | without a destination `--to`, `--to bob@example.com` makes the criteria exactly "to bob@example.com" |
| DocsDrift.RestAfter | cmd/docs_drift_test.go:160-165 | the text after the first occurrence of the heading |
| DocsDrift.EndsSectionUnique | cmd/docs_drift_test.go:167-174 | the end of a section is uniquely determined |
| DocsDrift.SectionHasNoSeparator | cmd/docs_drift_test.go:167-174 | a section contains neither separator |
| DocsDrift.ExtractCommandSection | cmd/docs_drift_test.go:159-175 | `""` when the heading is absent; otherwise a prefix of the text after the first heading that stops at the earliest separator, or at the end of the text when there is none |
| DocsDrift.ExtractHelpCommandSection | cmd/docs_drift_test.go:179-193 | `""` when the command line is absent; otherwise a prefix of the text after the first command line that stops at the first closing fence, or runs to the end, and never contains the fence |

## Left out

- Configuration and output of the program root (viper, environment binding, home-directory lookup, client construction, the formatter): configuration and I/O. `exitError` is modelled as the structured error it prints, not as printing plus a sentinel error.
- The one-letter shorthands `-m`, `-u` and `-f`: the flag-set abstraction does not record shorthands. A flag set with one of them is a set flag like any other. pflag also panics when a command already uses `-m`, `-u` or `-f`, just as it does for a redefined name. `AddFilterFlags` does not exclude that case: the model assumes no such shorthand is in use, and there it registers the flags where the program panics.
- Defining a flag twice, which makes pflag panic: `AddFilterFlags` requires instead that no filter flag other than `--to` is defined yet.
- The internals of RFC 3339 parsing (time zones, fractional seconds): the parser is a function parameter that may fail with a message. The bare `YYYY-MM-DD` layout is modelled in full.
- The JMAP calls behind the client: they are function parameters that may succeed or fail. The model also leaves out the id type conversion of the mailbox id.
- Filters.SearchOptionsFor: on failure the program returns the zero `SearchOptions` together with the error. The model returns only the error, because every caller discards the options when there is an error.
- Text.TrimSpace and Text.IndexOf: strings are sequences of code points, not UTF-8 bytes. Go's byte indices and the model's indices pick out the same substrings, because every needle and separator here is ASCII.
- The `Test*` functions of the documentation drift checks, which read files and walk flag sets, including their inline slicing of the global flags table: test scaffolding. The filter unit tests become lemmas rather than code.
- FilterScenarios.ParseFilterOptionsIgnoresMoveDestinationTo and FilterScenarios.RecipientToFilterStillWorks: the test passes a nil client. The model proves the expectation for every resolver instead, which covers it, because no mailbox is resolved in these scenarios.

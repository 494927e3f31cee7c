/**
 * The part of the mail client the filter front end talks to: the search
 * record it builds and the two remote calls it makes. The remote calls are
 * abstract functions; the client records every call so that a caller's
 * contract can say when the network was, and was not, consulted.
 */
module MailClient {
  import opened Wrappers
  import opened Dates

  /** The search criteria of an email query. Empty strings and `None` mean "no criterion". */
  datatype SearchOptions = SearchOptions(
    mailboxId: string,
    from: string,
    to: string,
    subject: string,
    before: Option<Time>,
    after: Option<Time>,
    hasAttachment: bool,
    unreadOnly: bool,
    flaggedOnly: bool,
    unflaggedOnly: bool)

  /** The zero `SearchOptions`: a query with no criteria at all. */
  const NoCriteria := SearchOptions("", "", "", "", None, None, false, false, false, false)

  class Client {
    /** Mailbox name or role to mailbox id, or the failure's message. */
    const resolveMailbox: string -> Result<string, string>
    /** The ids of the emails matching the criteria, or the failure's message. */
    const queryEmails: SearchOptions -> Result<seq<string>, string>
    /** Every mailbox name resolved so far, in order. */
    var lookups: seq<string>
    /** Every query issued so far, in order. */
    var queries: seq<SearchOptions>

    constructor (resolveMailbox: string -> Result<string, string>,
                 queryEmails: SearchOptions -> Result<seq<string>, string>)
      ensures this.resolveMailbox == resolveMailbox && this.queryEmails == queryEmails
      ensures lookups == [] && queries == []
    {
      this.resolveMailbox := resolveMailbox;
      this.queryEmails := queryEmails;
      lookups := [];
      queries := [];
    }

    method ResolveMailboxID(name: string) returns (r: Result<string, string>)
      modifies this`lookups
      ensures r == resolveMailbox(name)
      ensures lookups == old(lookups) + [name]
    {
      r := resolveMailbox(name);
      lookups := lookups + [name];
    }

    method QueryEmailIDs(opts: SearchOptions) returns (r: Result<seq<string>, string>)
      modifies this`queries
      ensures r == queryEmails(opts)
      ensures queries == old(queries) + [opts]
    {
      r := queryEmails(opts);
      queries := queries + [opts];
    }
  }
}

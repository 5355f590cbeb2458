/**
 * The entities the core reads and writes, reduced to the fields it uses.
 * Money read from the collection report is a decimal amount of currency units;
 * money held by the platform is an integer number of cents.
 */
module Domain {
  import opened Results

  datatype Account = Account(id: string)

  datatype Person = Person(
    id: string,          // empty until the platform has created the person
    email: string,
    firstName: string,
    lastName: string,
    accounts: seq<Account>)

  datatype Campaign = Campaign(
    id: string,
    title: string,
    slug: string,
    kind: string,
    url: string,
    status: string,
    permalink: string,
    description: Option<string>,
    content: Option<string>,
    created: int,
    updated: int,
    startDate: Option<string>,
    endDate: Option<string>,
    goalInCents: int,
    amountRaisedInCents: int,
    percentFunded: real)

  datatype Donation = Donation(
    id: string,
    account: Account,
    person: Person,
    campaign: Campaign,
    donationType: string,
    status: string,
    amountInCents: int)

  /** A side-program credit: a report column header, its slug, and an amount. */
  datatype Adjustment = Adjustment(displayName: string, slug: string, amount: real)

  /** One data row of the collection report. */
  datatype CollectionRecord = CollectionRecord(
    firstName: string,
    lastName: string,
    email: string,
    amountDonated: real,
    amountDue: real,
    amountPledged: real,
    adjustments: seq<Adjustment>)

  /** One entry of the campaign overview. */
  datatype Donor = Donor(
    person: Person,
    donations: seq<Donation>,
    adjustments: seq<Adjustment>,
    pledge: real)

  datatype CampaignOverview = CampaignOverview(
    id: string,
    title: string,
    slug: string,
    kind: string,
    url: string,
    status: string,
    permalink: string,
    description: Option<string>,
    content: Option<string>,
    created: int,
    updated: int,
    startDate: Option<string>,
    endDate: Option<string>,
    goalInCents: int,
    amountRaisedInCents: int,
    percentFunded: real,
    donors: seq<Donor>)
}
